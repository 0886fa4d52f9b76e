/** The eventfd wakeup: the counter as an object, and the handshake between a producer that
    publishes and then signals and consumers that check and then wait. */
module Notify {
  import opened Common
  import opened Ring

  /** The counter saturates one below the largest u64. */
  const EVENTFD_MAX: nat := 0xFFFF_FFFF_FFFF_FFFE

  // ---- the counter --------------------------------------------------------------------

  /** What one `poll` sees: signals that arrive while it blocks, then why it returns. */
  datatype PollEnd = Ready | Interrupted | DeadlinePassed
  datatype Poll = Poll(arrivals: nat, end: PollEnd)

  datatype Waited = Units(n: nat) | TimedOut | StillBlocked

  class EventNotify {
    var counter: nat
    ghost var signals: nat      // calls of Signal
    ghost var drained: nat      // units handed out
    ghost var saturated: nat    // signals dropped on a full counter

    /** Conservation: every signal is pending, was handed out, or met a full counter. */
    ghost predicate Valid()
      reads this
    {
      counter <= EVENTFD_MAX && signals == drained + counter + saturated
    }

    constructor ()
      ensures Valid() && counter == 0 && signals == 0
    {
      counter, signals, drained, saturated := 0, 0, 0, 0;
    }

    method Signal()
      requires Valid()
      modifies this
      ensures Valid() && signals == old(signals) + 1 && drained == old(drained)
      ensures counter == if old(counter) < EVENTFD_MAX then old(counter) + 1 else EVENTFD_MAX
      ensures counter >= 1
    {
      signals := signals + 1;
      if counter + 1 > EVENTFD_MAX {
        saturated := saturated + 1;
      } else {
        counter := counter + 1;
      }
    }

    /** Drains every pending unit at once: the descriptor is not a semaphore. */
    method TryWait() returns (units: Option<nat>)
      requires Valid()
      modifies this
      ensures Valid() && counter == 0 && signals == old(signals)
      ensures units == if old(counter) == 0 then None else Some(old(counter))
      ensures drained == old(drained) + old(counter)
    {
      if counter == 0 {
        return None;
      }
      units := Some(counter);
      drained := drained + counter;
      counter := 0;
    }

    /** The drain-then-poll loop, against any sequence of poll outcomes.  Units pending are
        returned at once; otherwise the first poll that does anything decides: at its deadline
        the wait times out, else its arrivals are returned. */
    method WaitTimeout(polls: seq<Poll>) returns (res: Waited)
      requires Valid()
      requires forall p :: p in polls && p.end.Ready? ==> p.arrivals >= 1
      modifies this
      ensures Valid()
      ensures old(counter) > 0 ==> res == Units(old(counter)) && counter == 0
      ensures old(counter) == 0 ==>
                var k := First(polls);
                if k == |polls| then res == StillBlocked && counter == 0
                else if polls[k].end.DeadlinePassed? then res == TimedOut && counter == Pending(polls[k].arrivals)
                else res == Units(Pending(polls[k].arrivals)) && counter == 0
      ensures drained == old(drained) + if res.Units? then res.n else 0
    {
      var i := 0;
      while true
        invariant Valid() && i <= |polls| && drained == old(drained)
        invariant i == 0 ==> counter == old(counter)
        invariant i > 0 ==> old(counter) == 0 && !polls[i - 1].end.DeadlinePassed?
                            && i - 1 <= First(polls) && counter == Pending(polls[i - 1].arrivals)
        decreases |polls| - i
      {
        var units := TryWait();
        if units.Some? {
          return Units(units.value);
        }
        if i == |polls| {
          return StillBlocked;
        }
        var poll := polls[i];
        for k := 0 to poll.arrivals
          invariant Valid() && drained == old(drained) && counter == Pending(k)
        {
          Signal();
        }
        if poll.end.DeadlinePassed? {
          return TimedOut;
        }
        i := i + 1;
      }
    }
  }

  /** The counter after `n` signals from zero. */
  function Pending(n: nat): nat { if n < EVENTFD_MAX then n else EVENTFD_MAX }

  /** A poll that was interrupted before anything came. */
  predicate Nothing(p: Poll) { p.end.Interrupted? && p.arrivals == 0 }

  /** The first poll that brings something or reaches its deadline. */
  function First(polls: seq<Poll>): (k: nat)
    ensures k <= |polls| && forall i :: 0 <= i < k ==> Nothing(polls[i])
    ensures k < |polls| ==> !Nothing(polls[k])
  {
    if polls == [] || !Nothing(polls[0]) then 0 else 1 + First(polls[1..])
  }

  /** `push_notified`: one signal per published record, none when refused. */
  method PushNotified<T>(ring: SpmcRingBuffer<T>, value: T, notify: EventNotify) returns (ok: bool)
    requires ring.Valid() && notify.Valid() && ring.mapping.writeIdx < U64_MAX
    requires (notify as object) !in {ring as object, ring.mapping}
    modifies notify, ring.mapping`writeIdx, ring.mapping`totalWritten, ring.mapping`stream, ring.mapping.slots
    ensures ring.Valid() && notify.Valid()
    ensures ring.mapping.stream == if ok then old(ring.mapping.stream) + [value] else old(ring.mapping.stream)
    ensures notify.signals == old(notify.signals) + (if ok then 1 else 0)
    ensures ok ==> notify.counter >= 1
    ensures !ok ==> notify.counter == old(notify.counter)
  {
    ok := ring.TryPush(value);
    if ok {
      notify.Signal();
    }
  }
}
