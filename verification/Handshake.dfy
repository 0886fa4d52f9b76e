/** The wakeup protocol under interference: `push_notified` publishes and then signals,
    each consumer checks its ring (with a load that may be stale), drains the eventfd and
    blocks in `poll` when there was nothing.  Which topologies can lose a wakeup. */
module Handshake {
  import opened Common
  import opened Notify

  datatype Pc =
    | Check     // about to load write_idx in try_pop
    | Wait      // found nothing; about to drain the eventfd
    | Blocked   // found no unit either; in poll(2)

  /** One consumer with its own reader.  `floor` is the oldest write_idx it may still load. */
  datatype Consumer = Consumer(pc: Pc, floor: nat, cursor: nat, woken: bool, drains: nat, fruitless: nat)

  datatype State = State(
    published: nat,          // newest write_idx
    pending: bool,           // published, not yet signalled
    counter: nat,            // the eventfd
    kernel: nat,             // write_idx ordered before the last signal
    signals: nat, drained: nat, saturated: nat,
    consumers: seq<Consumer>)

  datatype Action =
    | Publish
    | Signal
    | Look(c: nat, w: nat)   // try_pop's load returns w
    | Drain(c: nat)          // try_wait
    | Wake(c: nat)           // poll finds the descriptor readable
    | Interrupt(c: nat)      // poll returns EINTR

  function Init(n: nat): State {
    State(0, false, 0, 0, 0, 0, 0, seq(n, _ => Consumer(Check, 0, 0, false, 0, 0)))
  }

  predicate Enabled(s: State, a: Action) {
    match a
    case Publish => !s.pending
    case Signal => s.pending
    case Look(c, w) => c < |s.consumers| && s.consumers[c].pc.Check? && s.consumers[c].floor <= w <= s.published
    case Drain(c) => c < |s.consumers| && s.consumers[c].pc.Wait?
    case Wake(c) => c < |s.consumers| && s.consumers[c].pc.Blocked? && s.counter > 0
    case Interrupt(c) => c < |s.consumers| && s.consumers[c].pc.Blocked?
  }

  function Apply(s: State, a: Action): State
    requires Enabled(s, a)
  {
    match a
    case Publish => s.(published := s.published + 1, pending := true)
    case Signal =>
      var t := s.(pending := false, kernel := s.published, signals := s.signals + 1);
      if s.counter + 1 > EVENTFD_MAX then t.(saturated := s.saturated + 1) else t.(counter := s.counter + 1)
    case Look(c, w) =>
      var k := s.consumers[c];
      var seen := k.(floor := w, woken := false);
      s.(consumers := s.consumers[c :=
           if k.cursor == w then seen.(pc := Wait, fruitless := k.fruitless + if k.woken then 1 else 0)
           else seen.(cursor := k.cursor + 1)])
    case Drain(c) =>
      var k := s.consumers[c];
      if s.counter == 0 then s.(consumers := s.consumers[c := k.(pc := Blocked)])
      else
        s.(counter := 0, drained := s.drained + s.counter,
           consumers := s.consumers[c :=
             k.(pc := Check, floor := Max(k.floor, s.kernel), woken := true, drains := k.drains + 1)])
    case Wake(c) => s.(consumers := s.consumers[c := s.consumers[c].(pc := Wait)])
    case Interrupt(c) => s.(consumers := s.consumers[c := s.consumers[c].(pc := Wait)])
  }

  ghost predicate Run(n: nat, states: seq<State>, acts: seq<Action>) {
    && |states| == |acts| + 1 && states[0] == Init(n)
    && forall i :: 0 <= i < |acts| ==> Enabled(states[i], acts[i]) && states[i + 1] == Apply(states[i], acts[i])
  }

  ghost predicate Reachable(n: nat, s: State) {
    exists states, acts :: Run(n, states, acts) && states[|acts|] == s
  }

  /** Consumer `c` sleeps with no unit to wake it, a record of its own published, and the
      producer not about to signal. */
  predicate Lost(s: State, c: nat)
    requires c < |s.consumers|
  {
    var k := s.consumers[c];
    k.pc.Blocked? && s.counter == 0 && k.cursor < s.published && !s.pending
  }

  // ---- conservation ---------------------------------------------------------------------

  ghost predicate Conserved(s: State) {
    && s.signals == s.drained + s.counter + s.saturated
    && s.signals + (if s.pending then 1 else 0) == s.published
    && s.counter <= EVENTFD_MAX
    && s.kernel + (if s.pending then 1 else 0) == s.published
    && forall c :: 0 <= c < |s.consumers| ==>
         var k := s.consumers[c];
         && k.cursor <= k.floor <= s.published
         && (!k.pc.Check? ==> k.cursor == k.floor && !k.woken)
         && k.fruitless + (if k.woken then 1 else 0) <= k.drains <= s.drained
  }

  lemma ConservedStep(s: State, a: Action)
    requires Conserved(s) && Enabled(s, a)
    ensures Conserved(Apply(s, a))
  {
  }

  /** With one consumer, an empty counter means it has seen everything signalled. */
  ghost predicate SeesSignals(s: State) {
    |s.consumers| == 1 && (s.counter == 0 ==> s.kernel <= s.consumers[0].floor)
  }

  lemma SeesSignalsStep(s: State, a: Action)
    requires Conserved(s) && SeesSignals(s) && Enabled(s, a)
    ensures SeesSignals(Apply(s, a))
  {
  }

  lemma {:induction false} RunConserves(n: nat, states: seq<State>, acts: seq<Action>, i: nat)
    requires Run(n, states, acts) && i <= |acts|
    ensures Conserved(states[i]) && |states[i].consumers| == n
    ensures n == 1 ==> SeesSignals(states[i])
  {
    if i > 0 {
      RunConserves(n, states, acts, i - 1);
      ConservedStep(states[i - 1], acts[i - 1]);
      if n == 1 {
        SeesSignalsStep(states[i - 1], acts[i - 1]);
      }
    }
  }

  /** Signals issued equal units drained plus units pending plus signals met by a full
      counter; units are drained only for records already published; and a consumer wakes
      in vain at most as often as signals were issued. */
  lemma WakeupsConserved(n: nat, s: State, c: nat)
    requires Reachable(n, s) && c < n
    ensures |s.consumers| == n && s.signals == s.drained + s.counter + s.saturated
    ensures s.drained <= s.signals <= s.published <= s.signals + 1
    ensures s.consumers[c].fruitless <= s.consumers[c].drains <= s.signals
  {
    var states, acts :| Run(n, states, acts) && states[|acts|] == s;
    RunConserves(n, states, acts, |acts|);
  }

  /** A consumer woken by a drain sees every record signalled so far: if it then finds
      nothing, it had already consumed all of them. */
  lemma WokenSeesSignalled(n: nat, s: State, c: nat, w: nat)
    requires Reachable(n, s) && c < n && |s.consumers| == n
    requires Enabled(s, Drain(c)) && s.counter > 0
    requires Enabled(Apply(s, Drain(c)), Look(c, w))
    ensures w >= s.signals
    ensures s.consumers[c].cursor < s.signals ==> Apply(Apply(s, Drain(c)), Look(c, w)).consumers[c].pc.Check?
  {
    var states, acts :| Run(n, states, acts) && states[|acts|] == s;
    RunConserves(n, states, acts, |acts|);
  }

  // ---- single steps -----------------------------------------------------------------------

  /** A drain empties the counter: every signal so far that did not meet a full counter is
      then handed out.  The consumer goes to sleep exactly when there was none to hand out. */
  lemma DrainTakesAll(n: nat, s: State, c: nat)
    requires Reachable(n, s) && Enabled(s, Drain(c))
    ensures var t := Apply(s, Drain(c));
            && t.counter == 0 && t.drained == s.signals - s.saturated && t.signals == s.signals
            && t.published == s.published && t.pending == s.pending
            && |t.consumers| == |s.consumers| == n && t.consumers[c].cursor == s.consumers[c].cursor
            && t.consumers[c].pc == (if s.drained == s.signals - s.saturated then Blocked else Check)
            && forall x :: 0 <= x < n && x != c ==> t.consumers[x] == s.consumers[x]
  {
    var states, acts :| Run(n, states, acts) && states[|acts|] == s;
    RunConserves(n, states, acts, |acts|);
  }

  /** A look at the ring takes the next record when the `write_idx` loaded shows one, and goes
      on to wait exactly when it shows none. */
  lemma LookTakesNext(n: nat, s: State, c: nat, w: nat)
    requires Reachable(n, s) && Enabled(s, Look(c, w))
    ensures var t, k := Apply(s, Look(c, w)), s.consumers[c];
            && k.cursor <= w <= s.published
            && t == s.(consumers := t.consumers) && |t.consumers| == n
            && t.consumers[c].cursor == k.cursor + (if k.cursor < w then 1 else 0)
            && t.consumers[c].pc == (if k.cursor < w then Check else Wait)
            && forall x :: 0 <= x < n && x != c ==> t.consumers[x] == s.consumers[x]
  {
    var states, acts :| Run(n, states, acts) && states[|acts|] == s;
    RunConserves(n, states, acts, |acts|);
  }

  /** After a signal every sleeping consumer can be woken, and whoever wakes, for that or by an
      interrupt, drains next. */
  lemma SignalWakes(n: nat, s: State, c: nat)
    requires Reachable(n, s) && Enabled(s, Signal) && c < n && |s.consumers| == n && s.consumers[c].pc.Blocked?
    ensures var t := Apply(s, Signal);
            && t.signals == t.published == s.published && !t.pending && t.consumers == s.consumers
            && Enabled(t, Wake(c)) && Enabled(Apply(t, Wake(c)), Drain(c))
            && Enabled(t, Interrupt(c)) && Enabled(Apply(t, Interrupt(c)), Drain(c))
            && Apply(t, Interrupt(c)) == Apply(t, Wake(c)) == t.(consumers := t.consumers[c := t.consumers[c].(pc := Wait)])
  {
    var states, acts :| Run(n, states, acts) && states[|acts|] == s;
    RunConserves(n, states, acts, |acts|);
  }

  // ---- lost wakeups -----------------------------------------------------------------------

  ghost predicate NeverLost(n: nat) {
    forall s, c: nat :: Reachable(n, s) && c < |s.consumers| ==> !Lost(s, c)
  }

  lemma OneConsumerNeverLost(n: nat)
    requires n <= 1
    ensures NeverLost(n)
  {
    forall s, c: nat | Reachable(n, s) && c < |s.consumers| ensures !Lost(s, c) {
      var states, acts :| Run(n, states, acts) && states[|acts|] == s;
      RunConserves(n, states, acts, |acts|);
    }
  }

  /** Two consumers find their rings empty; one record is published and signalled for
      both; the first drains the unit and the second goes to sleep for good. */
  lemma SharedCounterLoses(n: nat)
    requires n >= 2
    ensures !NeverLost(n)
  {
    var k := Consumer(Check, 0, 0, false, 0, 0);
    var s0 := Init(n);
    var s1 := s0.(consumers := s0.consumers[0 := k.(pc := Wait)]);
    var s2 := s1.(consumers := s1.consumers[1 := k.(pc := Wait)]);
    var s3 := s2.(published := 1, pending := true);
    var s4 := s3.(pending := false, kernel := 1, signals := 1, counter := 1);
    var s5 := s4.(counter := 0, drained := 1, consumers := s4.consumers[0 := Consumer(Check, 1, 0, true, 1, 0)]);
    var s6 := s5.(consumers := s5.consumers[1 := k.(pc := Blocked)]);
    var states := [s0, s1, s2, s3, s4, s5, s6];
    var acts := [Look(0, 0), Look(1, 0), Publish, Signal, Drain(0), Drain(1)];
    assert Run(n, states, acts) by {
      assert s1 == Apply(s0, Look(0, 0)) && s2 == Apply(s1, Look(1, 0)) && s3 == Apply(s2, Publish);
      assert s4 == Apply(s3, Signal) && s5 == Apply(s4, Drain(0)) && s6 == Apply(s5, Drain(1));
    }
    assert Reachable(n, s6) && Lost(s6, 1);
  }

  /** No wakeup is ever lost exactly when at most one consumer waits on the eventfd. */
  lemma NoLostWakeup(n: nat)
    ensures NeverLost(n) <==> n <= 1
  {
    if n <= 1 {
      OneConsumerNeverLost(n);
    } else {
      SharedCounterLoses(n);
    }
  }
}
