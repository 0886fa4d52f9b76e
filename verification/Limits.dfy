/** How far the guarantees reach: with one consumer thread nothing about the order of threads
    needs to be arranged; with two the loan gate alone does not keep pops off live loans, and
    aborted reads can race with the producer, in every configuration. */
module Limits {
  import opened Common
  import opened Memory
  import opened Protocol
  import opened Runs
  import opened Theorems
  import opened Handover
  import opened Calls

  // ---- aborted reads ----------------------------------------------------------------------------

  /** No run of `n` consumer threads has a data race. */
  ghost predicate NeverRaces(cfg: Config, n: nat) {
    forall s, a :: Reachable(cfg, n, s, false) && Enabled(cfg, s, a) ==> RaceFree(cfg, s, a)
  }

  /** The ring is full, thread 0 has read record 0 for reader 0 and given it back, and nobody
      else is ordered after that read, event `e`.  Readers from `r` on are untouched, those
      below have consumed record 0. */
  ghost predicate Scene(cfg: Config, n: nat, s: State, r: nat, e: nat) {
    && Reachable(cfg, n, s, false) && Tame(cfg, s) && AtRest(s) && |s.threads| == n && s.loans == map[]
    && Published(s.mem) == cfg.capacity && r <= cfg.readers
    && e < |s.mem.log| && s.mem.log[e] == Read(0, 0, 0) && Private(s, 0, e)
    && (forall x :: 0 <= x < r ==> |s.mem.cursors[x]| == 2)
    && (forall x :: r <= x < cfg.readers ==> Untouched(s, x))
  }

  ghost predicate Untouched(s: State, r: nat)
    requires r < |s.mem.cursors| && r < |s.mem.gates| && r < |s.trail| && r < |s.popped| && r < |s.base|
  {
    |s.mem.cursors[r]| == 1 && |s.mem.gates[r]| == 1 && s.trail[r].known == {} && s.popped[r] == s.base[r] == 0
  }

  /** Thread 0 claims record 0, reads it and aborts. */
  lemma SceneBegins(cfg: Config, n: nat) returns (s: State, e: nat)
    requires cfg.Valid() && cfg.capacity < U64_MAX && n >= 2
    ensures Reachable(cfg, n, s, false) && Tame(cfg, s) && AtRest(s) && |s.threads| == n && s.loans == map[]
    ensures Published(s.mem) == cfg.capacity && |s.mem.cursors[0]| == 1 && s.popped[0] == s.base[0] == 0
    ensures e < |s.mem.log| && s.mem.log[e] == Read(0, 0, 0) && Private(s, 0, e)
    ensures forall x :: 1 <= x < cfg.readers ==> Untouched(s, x)
  {
    hide Reachable, Goes;
    var a := FillRing(cfg, n, cfg.capacity);
    ReachableTame(cfg, n, a);
    var b := ClaimCall(cfg, n, a, 0, 0, 1);
    GoesFormed(cfg, n, a, b, 1);
    assert b.loans == map[a.issued := b.loans[a.issued]];
    s := ReadAndAbort(cfg, n, b, 0, a.issued);
    e := |b.mem.log|;
  }

  /** Thread 1 claims record 0 again and commits it. */
  lemma SceneCommits(cfg: Config, n: nat) returns (s: State, e: nat)
    requires cfg.Valid() && cfg.capacity < U64_MAX && n >= 2
    ensures Scene(cfg, n, s, 1, e)
  {
    hide Reachable, Goes, Private;
    var a;
    a, e := SceneBegins(cfg, n);
    var b := ClaimCall(cfg, n, a, 1, 0, 0);
    GoesFormed(cfg, n, a, b, 0);
    s := CommitCall(cfg, n, b, 1, a.issued, 0);
    GoesFormed(cfg, n, b, s, 0);
    Then(cfg, n, a, b, s, 0);
    GoesPrivate(cfg, n, a, s, 0, e);
    assert s.loans == map[];
    forall x | 1 <= x < cfg.readers ensures Untouched(s, x) {
      assert Untouched(a, x);
      StillUntouched(cfg, a, b, 1, 0, x);
      StillUntouched(cfg, b, s, 1, 0, x);
    }
  }

  lemma StillUntouched(cfg: Config, s: State, next: State, t: nat, r: nat, x: nat)
    requires Formed(cfg, s) && Formed(cfg, next) && CallOn(cfg, s, next, t, r) && x < cfg.readers && x != r
    ensures next.mem.cursors[x] == s.mem.cursors[x]
    ensures Untouched(s, x) ==> Untouched(next, x)
  {
  }

  lemma GoesPrivate(cfg: Config, n: nat, s: State, next: State, h: nat, e: nat)
    requires Goes(cfg, n, s, next, h) && e < |s.mem.log| && Private(s, h, e)
    ensures e < |next.mem.log| && next.mem.log[e] == s.mem.log[e] && Private(next, h, e)
    ensures |next.threads| == |s.threads|
  {
    hide Reachable, Private;
  }

  /** Thread 1 pops record 0 for every other reader. */
  lemma {:induction false} ScenePops(cfg: Config, n: nat, s: State, r: nat, e: nat) returns (next: State)
    requires n >= 2 && Scene(cfg, n, s, r, e)
    ensures Scene(cfg, n, next, cfg.readers, e)
    decreases cfg.readers - r
  {
    hide Reachable, Goes, Private;
    if r == cfg.readers {
      next := s;
    } else {
      assert Untouched(s, r) && UpToDate(s, 1, r);
      var mid := PopCall(cfg, n, s, 1, r, 0);
      GoesFormed(cfg, n, s, mid, 0);
      GoesPrivate(cfg, n, s, mid, 0, e);
      forall x | 0 <= x < cfg.readers && x != r
        ensures |mid.mem.cursors[x]| == |s.mem.cursors[x]| && (r < x ==> Untouched(mid, x))
      {
        StillUntouched(cfg, s, mid, 1, r, x);
      }
      next := ScenePops(cfg, n, mid, r + 1, e);
    }
  }

  /** The producer is about to overwrite the slot thread 0 read, unordered with that read. */
  lemma AbortedReadsCanRace(cfg: Config, n: nat)
    requires cfg.Valid() && cfg.capacity < U64_MAX && n >= 2
    ensures !NeverRaces(cfg, n)
  {
    hide Reachable, Goes, Formed;
    var a, e := SceneCommits(cfg, n);
    var b := ScenePops(cfg, n, a, 1, e);
    AllConsumed(cfg, n, b, e);
    var s := PushUpToWrite(cfg, n, b, seq(cfg.words, _ => 0), 1, 0);
    GoesFormed(cfg, n, b, s, 0);
    GoesPrivate(cfg, n, b, s, 0, e);
    SameSlot(cfg);
    assert Enabled(cfg, s, PushWrite) && Touches(cfg, s.mem.log[e], cfg.capacity, 0);
    assert !RaceFree(cfg, s, PushWrite);
  }

  lemma AllConsumed(cfg: Config, n: nat, s: State, e: nat)
    requires Scene(cfg, n, s, cfg.readers, e)
    ensures Formed(cfg, s) && AllAt(s, 1)
  {
    hide Reachable, Private;
  }

  lemma SameSlot(cfg: Config)
    requires cfg.Valid()
    ensures Slot(cfg, 0) == Slot(cfg, cfg.capacity)
  {
  }

  /** Runs within the contracts never race exactly when there is at most one consumer thread. */
  lemma RaceFreedom(cfg: Config, n: nat)
    requires cfg.Valid() && cfg.capacity < U64_MAX
    ensures NeverRaces(cfg, n) <==> n <= 1
  {
    if n <= 1 {
      forall s, a | Reachable(cfg, n, s, false) && Enabled(cfg, s, a) ensures RaceFree(cfg, s, a) {
        OneThreadReaches(cfg, n, s);
        NoDataRace(cfg, n, s, a);
      }
    } else {
      AbortedReadsCanRace(cfg, n);
    }
  }

  lemma OneThreadReaches(cfg: Config, n: nat, s: State)
    requires Reachable(cfg, n, s, false) && n <= 1
    ensures Reachable(cfg, n, s, true)
  {
    hide Enabled, Apply, Disciplined, HandedOver, Ordered, Init;
    var states, acts :| FreshRun(cfg, n, states, acts, false) && states[|acts|] == s;
    assert LooseRun(cfg, n, states, acts);
    OneThreadMeetsContracts(cfg, n, states, acts);
  }

  // ---- the loan gate ----------------------------------------------------------------------------

  /** The cursor has passed the loan, so the producer may overwrite what it views. */
  predicate Unpinned(s: State, id: nat)
    requires id in s.loans
  {
    var l := s.loans[id];
    l.reader < |s.mem.cursors| && l.index + 1 < |s.mem.cursors[l.reader]|
  }

  /** No run of `n` consumer threads moves a cursor past a live loan, though nothing orders a
      pop after the claims and resolutions made for its reader on other threads. */
  ghost predicate GateSuffices(cfg: Config, n: nat) {
    forall s, id :: LooseReachable(cfg, n, s) && id in s.loans ==> !Unpinned(s, id)
  }

  lemma LooseGo(cfg: Config, n: nat, s: State, a: Action)
    requires LooseReachable(cfg, n, s) && Enabled(cfg, s, a) && Disciplined(s, a)
    ensures LooseReachable(cfg, n, Apply(cfg, s, a))
  {
    hide Enabled, Disciplined, Init, Apply;
    var states, acts :| LooseRun(cfg, n, states, acts) && states[|acts|] == s;
    var next := Apply(cfg, s, a);
    assert LooseRun(cfg, n, states + [next], acts + [a]);
    assert (states + [next])[|acts + [a]|] == next;
  }

  lemma ContractsAreLoose(cfg: Config, n: nat, s: State)
    requires Reachable(cfg, n, s, false)
    ensures LooseReachable(cfg, n, s)
  {
    hide Enabled, Disciplined, HandedOver, Init, Apply;
    var states, acts :| FreshRun(cfg, n, states, acts, false) && states[|acts|] == s;
    assert LooseRun(cfg, n, states, acts);
  }

  /** One record is published, thread 0 holds a loan of it for reader 0, and thread 1, which
      is about to take step `pc` of a pop for that reader, has seen no change of the gate. */
  ghost predicate Stale(cfg: Config, n: nat, s: State, id: nat) {
    && cfg.Valid() && LooseReachable(cfg, n, s) && Formed(cfg, s) && |s.threads| >= 2
    && id in s.loans && s.loans[id].reader == s.loans[id].index == 0
    && |s.mem.published| == 2 && s.mem.published[1].val == 1 && SeesOne(cfg, s.mem.published[1].view)
    && |s.mem.cursors[0]| == 1 && s.mem.cursors[0][0].val == 0 && SeesOne(cfg, s.mem.cursors[0][0].view)
    && SeesOne(cfg, s.threads[1].view)
  }

  predicate SeesOne(cfg: Config, v: View) { |v.cur| == cfg.readers >= 1 && v.cur[0] == 0 && v.w <= 1 }

  lemma LoanAndBystander(cfg: Config, n: nat) returns (s: State, id: nat)
    requires cfg.Valid() && n >= 2
    ensures Stale(cfg, n, s, id) && AtRest(s)
    ensures s.threads[1].view.gate[0] == 0 && s.mem.gates[0][0] == 0
  {
    hide Reachable, Goes, LooseReachable;
    var a := FillRing(cfg, n, 1);
    ReachableTame(cfg, n, a);
    id := a.issued;
    s := ClaimCall(cfg, n, a, 0, 0, 1);
    GoesFormed(cfg, n, a, s, 1);
    ContractsAreLoose(cfg, n, s);
    assert s.threads[1] == a.threads[1] && Sees(s.mem, s.mem.published[1].view) && Sees(s.mem, s.mem.cursors[0][0].view);
  }

  lemma StalePastGate(cfg: Config, n: nat, s: State, id: nat) returns (next: State)
    requires Stale(cfg, n, s, id) && AtRest(s) && s.threads[1].view.gate[0] == 0 && s.mem.gates[0][0] == 0
    ensures Stale(cfg, n, next, id) && next.threads[1].pc == PopLoadW(0)
  {
    hide LooseReachable;
    LooseGo(cfg, n, s, PopBegin(1, 0));
    var a := Apply(cfg, s, PopBegin(1, 0));
    LooseGo(cfg, n, a, PopCheckGate(1, 0));
    next := Apply(cfg, a, PopCheckGate(1, 0));
  }

  lemma StaleLoads(cfg: Config, n: nat, s: State, id: nat) returns (next: State)
    requires Stale(cfg, n, s, id) && s.threads[1].pc == PopLoadW(0)
    ensures Stale(cfg, n, next, id) && next.threads[1].pc == PopCopy(0, 0, [])
  {
    hide LooseReachable;
    LooseGo(cfg, n, s, PopReadW(1, 1));
    var a := Apply(cfg, s, PopReadW(1, 1));
    LooseGo(cfg, n, a, PopReadC(1, 0));
    next := Apply(cfg, a, PopReadC(1, 0));
  }

  lemma {:induction false} StaleStores(cfg: Config, n: nat, s: State, id: nat) returns (next: State)
    requires Stale(cfg, n, s, id) && s.threads[1].pc.PopCopy? && s.threads[1].pc.r == s.threads[1].pc.c == 0
    requires |s.threads[1].pc.buf| <= cfg.words
    ensures LooseReachable(cfg, n, next) && id in next.loans && Unpinned(next, id)
    decreases cfg.words - |s.threads[1].pc.buf|
  {
    hide LooseReachable;
    var buf := s.threads[1].pc.buf;
    if |buf| == cfg.words {
      LooseGo(cfg, n, s, PopStore(1));
      next := Apply(cfg, s, PopStore(1));
    } else {
      var a := PopReadWord(1, s.mem.slots[Slot(cfg, 0)][|buf|]);
      LooseGo(cfg, n, s, a);
      next := StaleStores(cfg, n, Apply(cfg, s, a), id);
    }
  }

  /** Thread 1's relaxed load of the gate misses thread 0's live loan, and the pop moves the
      cursor past it. */
  lemma StaleGateUnpins(cfg: Config, n: nat)
    requires cfg.Valid() && n >= 2
    ensures !GateSuffices(cfg, n)
  {
    hide LooseReachable, Stale, Unpinned;
    var a, id := LoanAndBystander(cfg, n);
    var b := StalePastGate(cfg, n, a, id);
    var c := StaleLoads(cfg, n, b, id);
    var s := StaleStores(cfg, n, c, id);
  }

  /** The gate keeps pops off live loans, with nothing arranged between threads, exactly when
      there is at most one consumer thread. */
  lemma GateReach(cfg: Config, n: nat)
    requires cfg.Valid()
    ensures GateSuffices(cfg, n) <==> n <= 1
  {
    if n <= 1 {
      forall s, id | LooseReachable(cfg, n, s) && id in s.loans ensures !Unpinned(s, id) {
        OneThreadPins(cfg, n, s, id);
      }
    } else {
      StaleGateUnpins(cfg, n);
    }
  }

  lemma OneThreadPins(cfg: Config, n: nat, s: State, id: nat)
    requires LooseReachable(cfg, n, s) && n <= 1 && id in s.loans
    ensures !Unpinned(s, id)
  {
    hide Enabled, Apply, Disciplined, HandedOver, Ordered, Init;
    var states, acts :| LooseRun(cfg, n, states, acts) && states[|acts|] == s;
    OneThreadMeetsContracts(cfg, n, states, acts);
    LooserStill(cfg, n, states, acts);
    LoanPinned(cfg, n, s, id);
  }
}
