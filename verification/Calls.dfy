/** Whole calls made alone, from any reachable state with all threads between calls: what
    they leave behind, and that they keep a read private to the thread that made it. */
module Calls {
  import opened Common
  import opened Memory
  import opened Protocol
  import opened Invariant
  import opened PopSteps
  import opened ClaimSteps
  import opened Runs
  import opened Handover

  // ---- reachability, one step further --------------------------------------------------------

  /** Access `e` happens before nothing any thread but `h` does next, or learns by loading. */
  ghost predicate Private(s: State, h: nat, e: nat) {
    && e !in s.prod.view.known
    && (forall p :: 0 <= p < |s.mem.published| ==> e !in s.mem.published[p].view.known)
    && (forall r, p :: 0 <= r < |s.mem.cursors| && 0 <= p < |s.mem.cursors[r]| ==> e !in s.mem.cursors[r][p].view.known)
    && (forall u :: 0 <= u < |s.threads| && u != h ==> e !in s.threads[u].view.known)
    && (forall id :: id in s.loans ==> e !in s.loans[id].view.known && e !in s.loans[id].uses.known)
    && (forall k :: 0 <= k < |s.posts| ==> e !in s.posts[k].known)
  }

  predicate Avoids(a: Action, h: nat) { ByProducer(a) || a.t != h }

  lemma PushPrivate(cfg: Config, s: State, a: Action, h: nat, e: nat)
    requires Enabled(cfg, s, a) && ByProducer(a) && e < |s.mem.log| && Private(s, h, e)
    ensures Private(Apply(cfg, s, a), h, e)
  {
    hide MayRead, Quiet, NoPop, DoPop, DoClaim, DoLoan, DoOther, Newer;
  }

  lemma PopPrivate(cfg: Config, s: State, a: Action, h: nat, e: nat)
    requires Enabled(cfg, s, a) && OfPop(a) && a.t != h && e < |s.mem.log| && Private(s, h, e)
    ensures Private(Apply(cfg, s, a), h, e)
  {
    hide MayRead, Quiet, NoPop, DoPush, DoClaim, DoLoan, DoOther, Newer;
  }

  lemma ClaimPrivate(cfg: Config, s: State, a: Action, h: nat, e: nat)
    requires Enabled(cfg, s, a) && OfClaim(a) && a.t != h && e < |s.mem.log| && Private(s, h, e)
    ensures Private(Apply(cfg, s, a), h, e)
  {
    hide MayRead, Quiet, NoPop, DoPush, DoPop, DoLoan, DoOther, Newer;
  }

  lemma LoanPrivate(cfg: Config, s: State, a: Action, h: nat, e: nat)
    requires Enabled(cfg, s, a) && (a.Deref? || a.ResolveBegin? || a.Release?) && a.t != h && e < |s.mem.log| && Private(s, h, e)
    ensures Private(Apply(cfg, s, a), h, e)
  {
    hide MayRead, Quiet, NoPop, DoPush, DoPop, DoClaim, DoOther, Newer, Wide;
  }

  lemma EndPrivate(cfg: Config, s: State, a: Action, h: nat, e: nat)
    requires Enabled(cfg, s, a) && (a.ResolveReadC? || a.ResolveWriteC? || a.Abort?) && a.t != h && e < |s.mem.log| && Private(s, h, e)
    ensures Private(Apply(cfg, s, a), h, e)
  {
    hide MayRead, Quiet, NoPop, DoPush, DoPop, DoClaim, DoOther, Newer, Wide;
  }

  lemma OtherPrivate(cfg: Config, s: State, a: Action, h: nat, e: nat)
    requires Enabled(cfg, s, a) && !ByProducer(a) && !OfPop(a) && !OfClaim(a) && !OfLoan(a)
    requires a.t != h && e < |s.mem.log| && Private(s, h, e)
    ensures Private(Apply(cfg, s, a), h, e)
  {
    hide MayRead, Quiet, NoPop, DoPush, DoPop, DoClaim, DoLoan, Newer;
  }

  /** `next` is reachable from `s` without thread `h`, whose private reads stay private. */
  ghost predicate Goes(cfg: Config, n: nat, s: State, next: State, h: nat) {
    && Reachable(cfg, n, next, false)
    && |next.threads| == |s.threads|
    && |s.mem.log| <= |next.mem.log|
    && (forall e :: 0 <= e < |s.mem.log| ==> next.mem.log[e] == s.mem.log[e])
    && forall e: nat :: e < |s.mem.log| && Private(s, h, e) ==> Private(next, h, e)
  }

  lemma Further(cfg: Config, n: nat, s: State, a: Action)
    requires Reachable(cfg, n, s, false) && Step(cfg, s, a, false)
    ensures Reachable(cfg, n, Apply(cfg, s, a), false)
  {
    hide Enabled, Disciplined, HandedOver, Init, Apply;
    var states, acts :| FreshRun(cfg, n, states, acts, false) && states[|acts|] == s;
    var next := Apply(cfg, s, a);
    assert FreshRun(cfg, n, states + [next], acts + [a], false);
    assert (states + [next])[|acts + [a]|] == next;
  }

  lemma Go(cfg: Config, n: nat, s: State, a: Action, h: nat)
    requires Reachable(cfg, n, s, false) && Step(cfg, s, a, false) && Avoids(a, h)
    ensures Goes(cfg, n, s, Apply(cfg, s, a), h)
  {
    hide Inv, Enabled, Disciplined, HandedOver, Reachable, Apply, Private, Traces, SeesMore;
    Further(cfg, n, s, a);
    ReachableInv(cfg, n, s, false);
    StepFollows(cfg, s, a);
    forall e: nat | e < |s.mem.log| && Private(s, h, e) ensures Private(Apply(cfg, s, a), h, e) {
      if ByProducer(a) {
        PushPrivate(cfg, s, a, h, e);
      } else if OfPop(a) {
        PopPrivate(cfg, s, a, h, e);
      } else if OfClaim(a) {
        ClaimPrivate(cfg, s, a, h, e);
      } else if a.Deref? || a.ResolveBegin? || a.Release? {
        LoanPrivate(cfg, s, a, h, e);
      } else if OfLoan(a) {
        EndPrivate(cfg, s, a, h, e);
      } else {
        OtherPrivate(cfg, s, a, h, e);
      }
    }
  }

  /** What is known of memory and views in a reachable state. */
  ghost predicate Tame(cfg: Config, s: State) {
    && cfg.Valid() && Formed(cfg, s)
    && (forall p :: 0 <= p < |s.mem.published| ==> s.mem.published[p].val == p)
    && (forall r, p :: 0 <= r < cfg.readers && 0 <= p < |s.mem.cursors[r]| ==> s.mem.cursors[r][p].val == p)
    && (forall t :: 0 <= t < |s.threads| ==> Sees(s.mem, s.threads[t].view))
    && Sees(s.mem, s.prod.view)
    && (forall p :: 0 <= p < |s.mem.published| ==> Sees(s.mem, s.mem.published[p].view))
    && (forall r, p :: 0 <= r < cfg.readers && 0 <= p < |s.mem.cursors[r]| ==> Sees(s.mem, s.mem.cursors[r][p].view))
    && (forall k :: 0 <= k < |s.posts| ==> Sees(s.mem, s.posts[k]))
    && (forall r :: 0 <= r < cfg.readers ==> s.popped[r] <= Consumed(s.mem, r))
    && s.issued !in s.loans
    && |s.mem.published| == |s.mem.stream| + 1
  }

  ghost predicate Sees(mem: Mem, v: View) {
    Within(mem, v) && v.w < |mem.published| && forall e :: e in v.known ==> e < |mem.log|
  }

  lemma ReachableTame(cfg: Config, n: nat, s: State)
    requires Reachable(cfg, n, s, false)
    ensures Tame(cfg, s)
  {
    hide Reachable, Distinct, AllAccounted, PopInv, ClaimInv, ResolveInv, Bounded, LogOk, Contents;
    ReachableInv(cfg, n, s, false);
    forall t | 0 <= t < |s.threads| ensures Sees(s.mem, s.threads[t].view) {
      assert ThreadInv(cfg, s, t, false);
    }
    forall r | 0 <= r < cfg.readers ensures s.popped[r] <= Consumed(s.mem, r) {
      assert ReaderInv(cfg, s, r, false);
    }
    LoanIds(cfg, s, false);
  }

  /** All threads are between calls. */
  ghost predicate AtRest(s: State) {
    s.prod.pc.PushIdle? && forall t :: 0 <= t < |s.threads| ==> s.threads[t].pc.Idle?
  }

  // ---- a push ---------------------------------------------------------------------------------

  /** All cursors are at `c`. */
  predicate AllAt(s: State, c: nat) {
    forall r :: 0 <= r < |s.mem.cursors| ==> |s.mem.cursors[r]| == c + 1
  }

  /** The rest of a scan that loads the newest cursors. */
  lemma {:induction false} ScanRest(cfg: Config, n: nat, s: State, c: nat, h: nat) returns (next: State)
    requires Reachable(cfg, n, s, false) && Formed(cfg, s) && AllAt(s, c)
    requires s.prod.pc.PushScan? && s.prod.pc.next <= cfg.readers && c < U64_MAX
    requires s.prod.pc.min == if s.prod.pc.next == 0 then U64_MAX else c
    ensures Goes(cfg, n, s, next, h)
    ensures next == s.(prod := next.prod) && next.prod.pc == s.prod.pc.(next := cfg.readers, min := c)
    decreases cfg.readers - s.prod.pc.next
  {
    hide Reachable, Goes, Join;
    ReachableTame(cfg, n, s);
    if s.prod.pc.next == cfg.readers {
      Stays(cfg, n, s, h);
      next := s;
    } else {
      var a := PushLoad(c);
      Go(cfg, n, s, a, h);
      var mid := Apply(cfg, s, a);
      GoesFormed(cfg, n, s, mid, h);
      next := ScanRest(cfg, n, mid, c, h);
      Then(cfg, n, s, mid, next, h);
    }
  }

  lemma Stays(cfg: Config, n: nat, s: State, h: nat)
    requires Reachable(cfg, n, s, false)
    ensures Goes(cfg, n, s, s, h)
  {
    hide Reachable, Private;
  }

  lemma Then(cfg: Config, n: nat, s: State, mid: State, next: State, h: nat)
    requires Goes(cfg, n, s, mid, h) && Goes(cfg, n, mid, next, h)
    ensures Goes(cfg, n, s, next, h)
  {
    hide Reachable, Private;
  }

  lemma GoesFormed(cfg: Config, n: nat, s: State, next: State, h: nat)
    requires Goes(cfg, n, s, next, h)
    ensures Reachable(cfg, n, next, false) && Tame(cfg, next)
  {
    hide Reachable, Private;
    ReachableTame(cfg, n, next);
  }

  /** A push with every cursor at `c`, less than a capacity behind, up to its slot write. */
  lemma PushUpToWrite(cfg: Config, n: nat, s: State, record: Record, c: nat, h: nat) returns (next: State)
    requires Reachable(cfg, n, s, false) && Formed(cfg, s) && AllAt(s, c) && s.prod.pc.PushIdle?
    requires |record| == cfg.words && c <= Published(s.mem) < c + cfg.capacity && Published(s.mem) < U64_MAX
    ensures Goes(cfg, n, s, next, h)
    ensures next == s.(prod := next.prod) && next.prod.pc == PushFill(record, Published(s.mem), 0)
  {
    hide Reachable, Goes;
    ReachableTame(cfg, n, s);
    var a := Apply(cfg, s, PushBegin(record));
    Go(cfg, n, s, PushBegin(record), h);
    GoesFormed(cfg, n, s, a, h);
    var b := ScanRest(cfg, n, a, c, h);
    Then(cfg, n, s, a, b, h);
    GoesFormed(cfg, n, a, b, h);
    Go(cfg, n, b, PushDecide, h);
    next := Apply(cfg, b, PushDecide);
    Then(cfg, n, s, b, next, h);
  }

  /** The slot write and the publishing store. */
  lemma {:induction false} PushRest(cfg: Config, n: nat, s: State, h: nat) returns (next: State)
    requires Reachable(cfg, n, s, false) && Formed(cfg, s)
    requires s.prod.pc.PushFill? && s.prod.pc.done <= cfg.words == |s.prod.pc.record|
    ensures Goes(cfg, n, s, next, h)
    ensures next == s.(prod := next.prod, mem := next.mem) && next.prod.pc.PushIdle?
    ensures next.mem.cursors == s.mem.cursors && next.mem.gates == s.mem.gates
    ensures |next.mem.stream| == |s.mem.stream| + 1
    decreases cfg.words - s.prod.pc.done
  {
    hide Reachable, Goes;
    ReachableTame(cfg, n, s);
    var a := if s.prod.pc.done == cfg.words then PushStore else PushWrite;
    Go(cfg, n, s, a, h);
    next := Apply(cfg, s, a);
    if a == PushWrite {
      GoesFormed(cfg, n, s, next, h);
      var mid := next;
      next := PushRest(cfg, n, mid, h);
      Then(cfg, n, s, mid, next, h);
    }
  }

  /** The first `k` pushes to a fresh ring. */
  lemma {:induction false} FillRing(cfg: Config, n: nat, k: nat) returns (next: State)
    requires cfg.Valid() && k <= cfg.capacity && k < U64_MAX
    ensures Reachable(cfg, n, next, false) && |next.mem.stream| == k && next.prod.pc.PushIdle?
    ensures var s := Init(cfg, n);
            && next == s.(prod := next.prod, mem := next.mem)
            && next.mem.cursors == s.mem.cursors && next.mem.gates == s.mem.gates
    decreases k
  {
    hide Reachable, Goes;
    if k == 0 {
      next := Init(cfg, n);
      FreshReachable(cfg, n);
    } else {
      var a := FillRing(cfg, n, k - 1);
      ReachableTame(cfg, n, a);
      var b := PushUpToWrite(cfg, n, a, seq(cfg.words, _ => 0), 0, n);
      GoesFormed(cfg, n, a, b, n);
      next := PushRest(cfg, n, b, n);
      GoesFormed(cfg, n, b, next, n);
    }
  }

  lemma FreshReachable(cfg: Config, n: nat)
    requires cfg.Valid()
    ensures Reachable(cfg, n, Init(cfg, n), false)
  {
    hide Init;
    assert FreshRun(cfg, n, [Init(cfg, n)], [], false);
  }

  // ---- calls of consumers ---------------------------------------------------------------------

  lemma Do(cfg: Config, n: nat, s: State, a: Action, h: nat)
    requires Reachable(cfg, n, s, false) && Step(cfg, s, a, false) && Avoids(a, h)
    ensures Goes(cfg, n, s, Apply(cfg, s, a), h)
    ensures Reachable(cfg, n, Apply(cfg, s, a), false) && Tame(cfg, Apply(cfg, s, a))
  {
    hide Reachable, Goes, Enabled, Disciplined, HandedOver, Apply, Tame;
    Go(cfg, n, s, a, h);
    GoesFormed(cfg, n, s, Apply(cfg, s, a), h);
  }

  /** A call of thread `t` on reader `r` that leaves everything else alone. */
  ghost predicate CallOn(cfg: Config, s: State, next: State, t: nat, r: nat) {
    && t < |s.threads| == |next.threads| && next.threads == s.threads[t := next.threads[t]] && next.threads[t].pc.Idle?
    && next.prod == s.prod && next.posts == s.posts
    && next.mem.stream == s.mem.stream && next.mem.published == s.mem.published && next.mem.slots == s.mem.slots
    && |next.mem.cursors| == |s.mem.cursors| == |next.mem.gates| == |s.mem.gates| == |next.base| == |s.base|
       == |next.popped| == |s.popped| == |next.trail| == |s.trail|
    && forall x :: 0 <= x < |s.base| && x != r ==>
         && next.mem.cursors[x] == s.mem.cursors[x] && next.mem.gates[x] == s.mem.gates[x] && next.base[x] == s.base[x]
         && next.popped[x] == s.popped[x] && next.trail[x] == s.trail[x]
  }

  /** A claim of the record at the cursor. */
  lemma ClaimCall(cfg: Config, n: nat, s: State, t: nat, r: nat, h: nat) returns (next: State)
    requires Reachable(cfg, n, s, false) && Tame(cfg, s) && AtRest(s) && t < |s.threads| && t != h && r < cfg.readers
    requires s.base[r] <= Consumed(s.mem, r) < Published(s.mem) && s.popped[r] <= s.threads[t].view.cur[r]
    ensures Goes(cfg, n, s, next, h) && Tame(cfg, next) && CallOn(cfg, s, next, t, r)
    ensures next.mem.cursors == s.mem.cursors && next.mem.log == s.mem.log && next.popped == s.popped && next.trail == s.trail
    ensures next.base[r] == Consumed(s.mem, r) + 1 && s.mem.gates[r] <= next.mem.gates[r]
    ensures var v := next.threads[t].view;
            next.loans == s.loans[s.issued := Loan(r, Consumed(s.mem, r), v, v, false)]
  {
    hide Reachable, Goes, Private;
    var c, w := Consumed(s.mem, r), Published(s.mem);
    var a := ClaimUpToCas(cfg, n, s, t, r, h);
    Do(cfg, n, a, ClaimTry(t, false), h);
    next := Apply(cfg, a, ClaimTry(t, false));
    Then(cfg, n, s, a, next, h);
  }

  lemma ClaimUpToCas(cfg: Config, n: nat, s: State, t: nat, r: nat, h: nat) returns (next: State)
    requires Reachable(cfg, n, s, false) && Tame(cfg, s) && AtRest(s) && t < |s.threads| && t != h && r < cfg.readers
    requires s.base[r] <= Consumed(s.mem, r) < Published(s.mem) && s.popped[r] <= s.threads[t].view.cur[r]
    ensures Goes(cfg, n, s, next, h) && Reachable(cfg, n, next, false) && Tame(cfg, next)
    ensures next == s.(mem := StepGate(s.mem, r, Gate(s.mem, r) + 1), threads := s.threads[t := next.threads[t]])
    ensures next.threads[t].pc == ClaimCas(r, Published(s.mem), Consumed(s.mem, r), s.base[r])
  {
    hide Reachable, Goes, Private, Join;
    var a := RaiseGate(cfg, n, s, t, r, h);
    var b := ClaimLoad(cfg, n, a, t, h);
    Then(cfg, n, s, a, b, h);
    Do(cfg, n, b, ClaimReadB(t, s.base[r]), h);
    next := Apply(cfg, b, ClaimReadB(t, s.base[r]));
    Then(cfg, n, s, b, next, h);
  }

  /** The first step of a claim. */
  lemma RaiseGate(cfg: Config, n: nat, s: State, t: nat, r: nat, h: nat) returns (next: State)
    requires Reachable(cfg, n, s, false) && Tame(cfg, s) && AtRest(s) && t < |s.threads| && t != h && r < cfg.readers
    requires s.popped[r] <= s.threads[t].view.cur[r]
    ensures Goes(cfg, n, s, next, h) && Reachable(cfg, n, next, false) && Tame(cfg, next) && t < |next.threads|
    ensures next == s.(mem := StepGate(s.mem, r, Gate(s.mem, r) + 1), threads := s.threads[t := next.threads[t]])
    ensures next.threads[t].pc == ClaimLoadW(r)
  {
    hide Reachable, Goes, Private, Join;
    Do(cfg, n, s, ClaimBegin(t, r), h);
    next := Apply(cfg, s, ClaimBegin(t, r));
  }

  lemma ClaimLoadWrite(cfg: Config, n: nat, s: State, t: nat, h: nat) returns (next: State)
    requires Reachable(cfg, n, s, false) && Tame(cfg, s) && t < |s.threads| && t != h && s.threads[t].pc.ClaimLoadW?
    ensures Goes(cfg, n, s, next, h) && Reachable(cfg, n, next, false) && Tame(cfg, next) && t < |next.threads|
    ensures next == s.(threads := s.threads[t := next.threads[t]])
    ensures next.threads[t].pc == ClaimLoadC(s.threads[t].pc.r, Published(s.mem))
  {
    hide Reachable, Goes, Private, Join;
    Do(cfg, n, s, ClaimReadW(t, Published(s.mem)), h);
    next := Apply(cfg, s, ClaimReadW(t, Published(s.mem)));
  }

  /** The two acquire loads of a claim, newest values. */
  lemma ClaimLoad(cfg: Config, n: nat, s: State, t: nat, h: nat) returns (next: State)
    requires Reachable(cfg, n, s, false) && Tame(cfg, s) && t < |s.threads| && t != h && s.threads[t].pc.ClaimLoadW?
    ensures Goes(cfg, n, s, next, h) && Reachable(cfg, n, next, false) && Tame(cfg, next)
    ensures next == s.(threads := s.threads[t := next.threads[t]])
    ensures var r := s.threads[t].pc.r;
            r < cfg.readers && next.threads[t].pc == ClaimLoadB(r, Published(s.mem), Consumed(s.mem, r))
  {
    hide Reachable, Goes, Private, Join;
    var r := s.threads[t].pc.r;
    var a := ClaimLoadWrite(cfg, n, s, t, h);
    Do(cfg, n, a, ClaimReadC(t, Consumed(s.mem, r)), h);
    next := Apply(cfg, a, ClaimReadC(t, Consumed(s.mem, r)));
    Then(cfg, n, s, a, next, h);
  }

  /** Reading the first word of the only loan live, and aborting it, on thread `h`: nobody
      else is ordered after that read. */
  lemma ReadAndAbort(cfg: Config, n: nat, s: State, h: nat, id: nat) returns (next: State)
    requires Reachable(cfg, n, s, false) && Tame(cfg, s) && AtRest(s) && h < |s.threads|
    requires id in s.loans && s.loans == map[id := s.loans[id]] && !s.loans[id].busy
    requires s.loans[id].index < s.base[s.loans[id].reader]
    ensures Reachable(cfg, n, next, false) && Tame(cfg, next) && AtRest(next)
    ensures var l := s.loans[id];
            && CallOn(cfg, s, next, h, l.reader) && next.loans == map[]
            && next.mem.cursors == s.mem.cursors && next.popped == s.popped && next.base[l.reader] == l.index
            && next.mem.log == s.mem.log + [Read(l.reader, l.index, 0)]
            && Private(next, h, |s.mem.log|)
  {
    hide Reachable, Goes, Join;
    var a := ReadFirst(cfg, n, s, h, id);
    next := GiveBack(cfg, n, a, h, id);
    PrivateRead(cfg, s, next, h, s.loans[id].reader);
  }

  lemma PrivateRead(cfg: Config, s: State, next: State, h: nat, r: nat)
    requires Tame(cfg, s) && CallOn(cfg, s, next, h, r) && next.loans == map[] && next.mem.cursors == s.mem.cursors
    ensures Private(next, h, |s.mem.log|)
  {
  }

  lemma ReadFirst(cfg: Config, n: nat, s: State, h: nat, id: nat) returns (next: State)
    requires Reachable(cfg, n, s, false) && Tame(cfg, s) && AtRest(s) && h < |s.threads|
    requires id in s.loans && !s.loans[id].busy
    ensures Reachable(cfg, n, next, false) && Tame(cfg, next)
    ensures var l := s.loans[id];
            && h < |next.threads| && id in next.loans && next.loans[id] == l.(uses := next.loans[id].uses)
            && next == s.(mem := ReadWord(s.mem, l.reader, l.index, 0), threads := s.threads[h := next.threads[h]],
                          loans := s.loans[id := next.loans[id]])
            && next.threads[h].pc.Idle?
  {
    hide Reachable, Goes, Join;
    var a := Deref(h, id, 0, s.mem.slots[Slot(cfg, s.loans[id].index)][0]);
    Do(cfg, n, s, a, h + 1);
    next := Apply(cfg, s, a);
  }

  /** The last step of a resolution. */
  lemma LowerGate(cfg: Config, n: nat, s: State, t: nat, h: nat) returns (next: State)
    requires Reachable(cfg, n, s, false) && Tame(cfg, s) && t < |s.threads| && t != h && s.threads[t].pc.ReleaseGate?
    ensures Goes(cfg, n, s, next, h) && Reachable(cfg, n, next, false) && Tame(cfg, next) && t < |next.threads|
    ensures var r := s.threads[t].pc.r;
            next == s.(mem := StepGate(s.mem, r, Gate(s.mem, r) - 1), threads := s.threads[t := next.threads[t]])
            && next.threads[t].pc.Idle?
  {
    hide Reachable, Goes, Private, Join;
    Do(cfg, n, s, Release(t), h);
    next := Apply(cfg, s, Release(t));
  }

  lemma GiveBack(cfg: Config, n: nat, s: State, h: nat, id: nat) returns (next: State)
    requires Reachable(cfg, n, s, false) && Tame(cfg, s) && AtRest(s) && h < |s.threads|
    requires id in s.loans && s.loans == map[id := s.loans[id]] && !s.loans[id].busy
    requires s.loans[id].index < s.base[s.loans[id].reader]
    ensures Reachable(cfg, n, next, false) && Tame(cfg, next)
    ensures var l := s.loans[id];
            && CallOn(cfg, s, next, h, l.reader) && next.loans == map[]
            && next.mem.cursors == s.mem.cursors && next.popped == s.popped && next.base[l.reader] == l.index
            && next.mem.log == s.mem.log
  {
    hide Reachable, Goes, Private, Join;
    var b := Rewind(cfg, n, s, h, id);
    next := LowerGate(cfg, n, b, h, h + 1);
  }

  lemma Rewind(cfg: Config, n: nat, s: State, h: nat, id: nat) returns (next: State)
    requires Reachable(cfg, n, s, false) && Tame(cfg, s) && AtRest(s) && h < |s.threads|
    requires id in s.loans && s.loans == map[id := s.loans[id]] && !s.loans[id].busy
    requires s.loans[id].index < s.base[s.loans[id].reader]
    ensures Reachable(cfg, n, next, false) && Tame(cfg, next) && h < |next.threads|
    ensures var l := s.loans[id];
            && next == s.(threads := s.threads[h := next.threads[h]], loans := map[],
                          base := s.base[l.reader := l.index], trail := s.trail[l.reader := next.trail[l.reader]])
            && next.threads[h].pc == ReleaseGate(l.reader)
  {
    hide Reachable, Goes, Private, Join;
    Do(cfg, n, s, Abort(h, id), h + 1);
    next := Apply(cfg, s, Abort(h, id));
  }

  /** A commit of the loan at the cursor. */
  lemma CommitCall(cfg: Config, n: nat, s: State, t: nat, id: nat, h: nat) returns (next: State)
    requires Reachable(cfg, n, s, false) && Tame(cfg, s) && AtRest(s) && t < |s.threads| && t != h
    requires id in s.loans && !s.loans[id].busy && s.loans[id].index == Consumed(s.mem, s.loans[id].reader)
    ensures Goes(cfg, n, s, next, h) && Tame(cfg, next)
    ensures var r := s.loans[id].reader;
            && CallOn(cfg, s, next, t, r) && next.loans == s.loans - {id} && next.popped == s.popped
            && |next.mem.cursors[r]| == |s.mem.cursors[r]| + 1
  {
    hide Reachable, Goes, Private, Join;
    var a := CommitUpToStore(cfg, n, s, t, id, h);
    var b := CommitStore(cfg, n, a, t, h);
    Then(cfg, n, s, a, b, h);
    next := LowerGate(cfg, n, b, t, h);
    Then(cfg, n, s, b, next, h);
  }

  lemma CommitStore(cfg: Config, n: nat, s: State, t: nat, h: nat) returns (next: State)
    requires Reachable(cfg, n, s, false) && Tame(cfg, s) && t < |s.threads| && t != h && s.threads[t].pc.ResolveStore?
    requires var pc := s.threads[t].pc; pc.id in s.loans && s.loans[pc.id].reader == pc.r
    ensures Goes(cfg, n, s, next, h) && Reachable(cfg, n, next, false) && Tame(cfg, next) && t < |next.threads|
    ensures var r, id := s.threads[t].pc.r, s.threads[t].pc.id;
            && r < |s.mem.cursors| == |next.mem.cursors| && |next.mem.cursors[r]| == |s.mem.cursors[r]| + 1
            && next == s.(threads := s.threads[t := next.threads[t]], loans := s.loans - {id},
                          mem := s.mem.(cursors := s.mem.cursors[r := next.mem.cursors[r]]),
                          trail := s.trail[r := next.trail[r]], taken := s.taken[r := next.taken[r]])
            && next.threads[t].pc == ReleaseGate(r)
  {
    hide Reachable, Goes, Private, Join;
    Do(cfg, n, s, ResolveWriteC(t), h);
    next := Apply(cfg, s, ResolveWriteC(t));
  }

  lemma CommitUpToStore(cfg: Config, n: nat, s: State, t: nat, id: nat, h: nat) returns (next: State)
    requires Reachable(cfg, n, s, false) && Tame(cfg, s) && AtRest(s) && t < |s.threads| && t != h
    requires id in s.loans && !s.loans[id].busy && s.loans[id].index == Consumed(s.mem, s.loans[id].reader)
    ensures Goes(cfg, n, s, next, h) && Reachable(cfg, n, next, false) && Tame(cfg, next)
    ensures next == s.(threads := s.threads[t := next.threads[t]], loans := s.loans[id := s.loans[id].(busy := true)])
    ensures next.threads[t].pc == ResolveStore(s.loans[id].reader, id)
  {
    hide Reachable, Goes, Private, Join;
    var r := s.loans[id].reader;
    var a := CommitBegin(cfg, n, s, t, id, h);
    Do(cfg, n, a, ResolveReadC(t, Consumed(s.mem, r)), h);
    next := Apply(cfg, a, ResolveReadC(t, Consumed(s.mem, r)));
    Then(cfg, n, s, a, next, h);
  }

  lemma CommitBegin(cfg: Config, n: nat, s: State, t: nat, id: nat, h: nat) returns (next: State)
    requires Reachable(cfg, n, s, false) && Tame(cfg, s) && AtRest(s) && t < |s.threads| && t != h
    requires id in s.loans && !s.loans[id].busy
    ensures Goes(cfg, n, s, next, h) && Reachable(cfg, n, next, false) && Tame(cfg, next) && t < |next.threads|
    ensures next == s.(threads := s.threads[t := next.threads[t]], loans := s.loans[id := s.loans[id].(busy := true)])
    ensures next.threads[t].pc == ResolveLoad(s.loans[id].reader, id, false)
  {
    hide Reachable, Goes, Private, Join;
    Do(cfg, n, s, ResolveBegin(t, id, false), h);
    next := Apply(cfg, s, ResolveBegin(t, id, false));
  }

  /** A pop by a thread that is up to date, with no loan live. */
  lemma PopCall(cfg: Config, n: nat, s: State, t: nat, r: nat, h: nat) returns (next: State)
    requires Reachable(cfg, n, s, false) && Tame(cfg, s) && AtRest(s) && t < |s.threads| && t != h && r < cfg.readers
    requires UpToDate(s, t, r) && s.loans == map[] && Consumed(s.mem, r) < Published(s.mem)
    ensures Goes(cfg, n, s, next, h) && Tame(cfg, next)
    ensures CallOn(cfg, s, next, t, r) && next.loans == s.loans
    ensures |next.mem.cursors[r]| == |s.mem.cursors[r]| + 1
  {
    hide Reachable, Goes, Private, Join;
    var a := PopUpToCopy(cfg, n, s, t, r, h);
    var b := PopWords(cfg, n, a, t, h);
    Then(cfg, n, s, a, b, h);
    Do(cfg, n, b, PopStore(t), h);
    next := Apply(cfg, b, PopStore(t));
    Then(cfg, n, s, b, next, h);
  }

  lemma PopUpToCopy(cfg: Config, n: nat, s: State, t: nat, r: nat, h: nat) returns (next: State)
    requires Reachable(cfg, n, s, false) && Tame(cfg, s) && AtRest(s) && t < |s.threads| && t != h && r < cfg.readers
    requires UpToDate(s, t, r) && s.loans == map[] && Consumed(s.mem, r) < Published(s.mem)
    ensures Goes(cfg, n, s, next, h) && Reachable(cfg, n, next, false) && Tame(cfg, next)
    ensures next == s.(threads := s.threads[t := next.threads[t]])
    ensures next.threads[t].pc == PopCopy(r, Consumed(s.mem, r), [])
  {
    hide Reachable, Goes, Private, Join;
    var a := PopPastGate(cfg, n, s, t, r, h);
    Do(cfg, n, a, PopReadW(t, Published(s.mem)), h);
    var b := Apply(cfg, a, PopReadW(t, Published(s.mem)));
    Then(cfg, n, s, a, b, h);
    Do(cfg, n, b, PopReadC(t, Consumed(s.mem, r)), h);
    next := Apply(cfg, b, PopReadC(t, Consumed(s.mem, r)));
    Then(cfg, n, s, b, next, h);
  }

  lemma PopPastGate(cfg: Config, n: nat, s: State, t: nat, r: nat, h: nat) returns (next: State)
    requires Reachable(cfg, n, s, false) && Tame(cfg, s) && AtRest(s) && t < |s.threads| && t != h && r < cfg.readers
    requires UpToDate(s, t, r) && s.loans == map[]
    ensures Goes(cfg, n, s, next, h) && Reachable(cfg, n, next, false) && Tame(cfg, next)
    ensures next == s.(threads := s.threads[t := next.threads[t]]) && next.threads[t].pc == PopLoadW(r)
  {
    hide Reachable, Goes, Private, Inv;
    Do(cfg, n, s, PopBegin(t, r), h);
    var a := Apply(cfg, s, PopBegin(t, r));
    var d := |s.mem.gates[r]| - 1;
    ReachableInv(cfg, n, a, false);
    GateSeen(cfg, a, t, d, false);
    assert LoansOf(a.loans, r) == {};
    Do(cfg, n, a, PopCheckGate(t, d), h);
    next := Apply(cfg, a, PopCheckGate(t, d));
    Then(cfg, n, s, a, next, h);
  }

  lemma {:induction false} PopWords(cfg: Config, n: nat, s: State, t: nat, h: nat) returns (next: State)
    requires Reachable(cfg, n, s, false) && Tame(cfg, s) && t < |s.threads| && t != h
    requires s.threads[t].pc.PopCopy? && |s.threads[t].pc.buf| <= cfg.words
    ensures Goes(cfg, n, s, next, h) && Reachable(cfg, n, next, false) && Tame(cfg, next)
    ensures next == s.(threads := s.threads[t := next.threads[t]], mem := s.mem.(log := next.mem.log))
    ensures var pc := s.threads[t].pc;
            next.threads[t].pc.PopCopy? && next.threads[t].pc == pc.(buf := next.threads[t].pc.buf) && |next.threads[t].pc.buf| == cfg.words
    decreases cfg.words - |s.threads[t].pc.buf|
  {
    hide Reachable, Goes, Private, Learn;
    var pc := s.threads[t].pc;
    if |pc.buf| == cfg.words {
      Stays(cfg, n, s, h);
      next := s;
    } else {
      var a := PopReadWord(t, s.mem.slots[Slot(cfg, pc.c)][|pc.buf|]);
      Do(cfg, n, s, a, h);
      var mid := Apply(cfg, s, a);
      next := PopWords(cfg, n, mid, t, h);
      Then(cfg, n, s, mid, next, h);
    }
  }
}
