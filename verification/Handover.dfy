/** When threads are ordered without the application's help.  `abort` rewinds `claim_base`
    with a relaxed `fetch_min`, `claim` takes it with a relaxed compare-and-swap, and the
    loan gate is relaxed, so none of them orders one thread after another.  It is enough
    that each reader is worked by one thread. */
module Handover {
  import opened Memory
  import opened Protocol
  import opened Invariant
  import opened Runs
  import opened Theorems

  // ---- what a step adds -----------------------------------------------------------------

  /** The reader a thread's step acts on. */
  function ReaderOf(s: State, a: Action): nat {
    if a.PopBegin? || a.ClaimBegin? || a.LookReadW? then a.r
    else if a.Deref? || a.ResolveBegin? || a.Abort? then
      if a.id in s.loans then s.loans[a.id].reader else 0
    else if !ByProducer(a) && a.t < |s.threads| && !s.threads[a.t].pc.Idle? then s.threads[a.t].pc.r
    else 0
  }

  predicate OnReader(a: Action) { OfPop(a) || OfClaim(a) || OfLoan(a) || a.LookReadW? || a.LookReadC? }

  /** `w` sees all that `v` sees of cursors, gates and accesses. */
  ghost predicate SeesMore(v: View, w: View) {
    && |w.cur| == |v.cur| && (forall r :: 0 <= r < |v.cur| ==> v.cur[r] <= w.cur[r])
    && |w.gate| == |v.gate| && (forall r :: 0 <= r < |v.gate| ==> v.gate[r] <= w.gate[r])
    && v.known <= w.known
  }

  /** Threads only ever learn. */
  ghost predicate Learns(s: State, next: State) {
    && |next.threads| == |s.threads|
    && forall u :: 0 <= u < |s.threads| ==> SeesMore(s.threads[u].view, next.threads[u].view)
  }

  /** Only a step on reader `r` moves its cursor and gate or leaves a trail, and the thread
      taking it sees where to and knows what it left. */
  ghost predicate Traces(s: State, next: State, a: Action) {
    && |next.mem.cursors| == |s.mem.cursors| && |next.mem.gates| == |s.mem.gates| && |next.trail| == |s.trail|
    && forall r :: 0 <= r < |s.mem.cursors| && r < |s.mem.gates| && r < |s.trail| ==>
         || (next.mem.cursors[r] == s.mem.cursors[r] && next.mem.gates[r] == s.mem.gates[r] && next.trail[r] == s.trail[r])
         || (OnReader(a) && r == ReaderOf(s, a) && a.t < |next.threads|
             && Marks(s, next, r, next.threads[a.t].view))
  }

  ghost predicate Marks(s: State, next: State, r: nat, v: View)
    requires r < |s.mem.cursors| && r < |s.mem.gates| && r < |s.trail|
    requires r < |next.mem.cursors| && r < |next.mem.gates| && r < |next.trail|
  {
    && r < |v.cur| && r < |v.gate|
    && (next.mem.cursors[r] == s.mem.cursors[r] || |next.mem.cursors[r]| <= v.cur[r] + 1)
    && (next.mem.gates[r] == s.mem.gates[r] || |next.mem.gates[r]| <= v.gate[r] + 1)
    && next.trail[r].known <= s.trail[r].known + v.known
  }

  /** The log grows by at most the step's own access, which its thread knows. */
  ghost predicate Logs(s: State, next: State, a: Action) {
    && |s.mem.log| <= |next.mem.log| && next.mem.log[..|s.mem.log|] == s.mem.log
    && forall e :: |s.mem.log| <= e < |next.mem.log| && next.mem.log[e].Read? ==>
         && (a.PopReadWord? || a.Deref?) && a.t < |next.threads| && e in next.threads[a.t].view.known
         && next.mem.log[e].reader == ReaderOf(s, a)
  }

  /** A view that is not ahead of the cursors and gates. */
  ghost predicate Within(mem: Mem, v: View) {
    && |v.cur| == |mem.cursors| && (forall r :: 0 <= r < |v.cur| ==> v.cur[r] < |mem.cursors[r]|)
    && |v.gate| == |mem.gates| && (forall r :: 0 <= r < |v.gate| ==> v.gate[r] < |mem.gates[r]|)
  }

  lemma ThreadWithin(cfg: Config, s: State, t: nat)
    requires Inv(cfg, s, false) && t < |s.threads|
    ensures Within(s.mem, s.threads[t].view)
  {
    hide MemInv, ProducerInv, LoanInv, ReaderInv, Distinct, AllAccounted, PopInv, ClaimInv, ResolveInv;
    assert ThreadInv(cfg, s, t, false);
  }

  lemma JoinsSee()
    ensures forall v, w :: SeesMore(v, Join(v, w)) && Join(v, w).known == v.known + w.known
  {
  }

  /** A step of a thread, on the thread itself. */
  ghost predicate Moves(s: State, next: State, t: nat) {
    && t < |s.threads| == |next.threads| && next.threads == s.threads[t := next.threads[t]]
    && SeesMore(s.threads[t].view, next.threads[t].view)
  }

  lemma PushFollows(cfg: Config, s: State, a: Action)
    requires Enabled(cfg, s, a) && ByProducer(a)
    ensures Learns(s, Apply(cfg, s, a)) && Traces(s, Apply(cfg, s, a), a) && Logs(s, Apply(cfg, s, a), a)
  {
    hide Shape, MayRead, MayLoadC, MayLoadW, Quiet, NoPop, DoPop, DoClaim, DoLoan, DoOther, Join, OnReader;
  }

  lemma PopMoves(cfg: Config, s: State, a: Action)
    requires Enabled(cfg, s, a) && OfPop(a)
    requires a.t < |s.threads| && Within(s.mem, s.threads[a.t].view)
    ensures Moves(s, Apply(cfg, s, a), a.t)
  {
    hide MayRead, Quiet, NoPop, DoPush, DoClaim, DoLoan, DoOther, Join;
    JoinsSee();
  }

  lemma PopLogs(cfg: Config, s: State, a: Action)
    requires Enabled(cfg, s, a) && OfPop(a)
    ensures Logs(s, Apply(cfg, s, a), a)
  {
    hide MayRead, MayLoadC, MayLoadW, Quiet, NoPop, DoPush, DoClaim, DoLoan, DoOther, Join;
  }

  lemma PopTraces(cfg: Config, s: State, a: Action)
    requires Enabled(cfg, s, a) && OfPop(a)
    ensures Traces(s, Apply(cfg, s, a), a)
  {
    hide MayRead, MayLoadC, MayLoadW, Quiet, NoPop, DoPush, DoClaim, DoLoan, DoOther, Join;
    JoinsSee();
  }

  lemma ClaimMoves(cfg: Config, s: State, a: Action)
    requires Enabled(cfg, s, a) && OfClaim(a)
    requires a.t < |s.threads| && Within(s.mem, s.threads[a.t].view)
    ensures Moves(s, Apply(cfg, s, a), a.t)
  {
    hide MayRead, Quiet, NoPop, DoPush, DoPop, DoLoan, DoOther, Join;
    JoinsSee();
  }

  lemma ClaimLogs(cfg: Config, s: State, a: Action)
    requires Enabled(cfg, s, a) && OfClaim(a)
    ensures Logs(s, Apply(cfg, s, a), a)
  {
    hide MayRead, MayLoadC, MayLoadW, Quiet, NoPop, DoPush, DoPop, DoLoan, DoOther, Join;
  }

  lemma ClaimTraces(cfg: Config, s: State, a: Action)
    requires Enabled(cfg, s, a) && OfClaim(a)
    ensures Traces(s, Apply(cfg, s, a), a)
  {
    hide MayRead, MayLoadC, MayLoadW, Quiet, NoPop, DoPush, DoPop, DoLoan, DoOther, Join;
    JoinsSee();
  }

  lemma LoanMoves(cfg: Config, s: State, a: Action)
    requires Enabled(cfg, s, a) && OfLoan(a)
    requires a.t < |s.threads| && Within(s.mem, s.threads[a.t].view)
    ensures Moves(s, Apply(cfg, s, a), a.t)
  {
    hide MayRead, Quiet, NoPop, DoPush, DoPop, DoClaim, DoOther, Join;
    JoinsSee();
  }

  lemma LoanLogs(cfg: Config, s: State, a: Action)
    requires Enabled(cfg, s, a) && OfLoan(a)
    ensures Logs(s, Apply(cfg, s, a), a)
  {
    hide MayRead, MayLoadC, MayLoadW, Quiet, NoPop, DoPush, DoPop, DoClaim, DoOther, Join;
  }

  lemma LoanTraces(cfg: Config, s: State, a: Action)
    requires Enabled(cfg, s, a) && (a.Deref? || a.ResolveBegin? || a.Abort? || a.Release?)
    ensures Traces(s, Apply(cfg, s, a), a)
  {
    hide MayRead, MayLoadC, MayLoadW, Quiet, NoPop, DoPush, DoPop, DoClaim, DoOther, Join;
    JoinsSee();
  }

  lemma ResolutionTraces(cfg: Config, s: State, a: Action)
    requires Enabled(cfg, s, a) && (a.ResolveReadC? || a.ResolveWriteC?)
    requires s.loans[s.threads[a.t].pc.id].reader == s.threads[a.t].pc.r
    ensures Traces(s, Apply(cfg, s, a), a)
  {
    hide MayRead, MayLoadW, Quiet, NoPop, DoPush, DoPop, DoClaim, DoOther, Join;
    JoinsSee();
  }

  lemma OtherFollows(cfg: Config, s: State, a: Action)
    requires Enabled(cfg, s, a) && (a.LookReadW? || a.LookReadC? || a.Post? || a.Fetch?)
    ensures Learns(s, Apply(cfg, s, a)) && Traces(s, Apply(cfg, s, a), a) && Logs(s, Apply(cfg, s, a), a)
  {
    hide MayRead, MayLoadC, MayLoadW, Quiet, NoPop, DoPush, DoPop, DoClaim, DoLoan;
  }

  lemma ThreadOf(cfg: Config, s: State, a: Action)
    requires Inv(cfg, s, false) && Enabled(cfg, s, a) && !ByProducer(a)
    ensures a.t < |s.threads|
    ensures a.ResolveReadC? || a.ResolveWriteC? ==>
              s.threads[a.t].pc.id in s.loans && s.loans[s.threads[a.t].pc.id].reader == s.threads[a.t].pc.r
  {
    hide MemInv, ProducerInv, LoanInv, ReaderInv, Distinct, AllAccounted, Good, PopInv, ClaimInv, MayRead, MayLoadC,
         MayLoadW, Quiet, NoPop;
    if a.ResolveReadC? || a.ResolveWriteC? {
      assert ThreadInv(cfg, s, a.t, false);
    }
  }

  lemma MovesLearn(cfg: Config, s: State, next: State, t: nat)
    requires Moves(s, next, t)
    ensures Learns(s, next)
  {
  }

  lemma StepFollows(cfg: Config, s: State, a: Action)
    requires Inv(cfg, s, false) && Enabled(cfg, s, a)
    ensures Learns(s, Apply(cfg, s, a)) && Traces(s, Apply(cfg, s, a), a) && Logs(s, Apply(cfg, s, a), a)
  {
    hide Inv, Enabled, Apply, Learns, Traces, Logs, Moves, Within;
    if ByProducer(a) {
      PushFollows(cfg, s, a);
    } else {
      ThreadOf(cfg, s, a);
      ThreadWithin(cfg, s, a.t);
      if OfPop(a) {
        PopMoves(cfg, s, a);
        PopTraces(cfg, s, a);
        PopLogs(cfg, s, a);
        MovesLearn(cfg, s, Apply(cfg, s, a), a.t);
      } else if OfClaim(a) {
        ClaimMoves(cfg, s, a);
        ClaimTraces(cfg, s, a);
        ClaimLogs(cfg, s, a);
        MovesLearn(cfg, s, Apply(cfg, s, a), a.t);
      } else if OfLoan(a) {
        LoanMoves(cfg, s, a);
        if a.ResolveReadC? || a.ResolveWriteC? {
          ResolutionTraces(cfg, s, a);
        } else {
          LoanTraces(cfg, s, a);
        }
        LoanLogs(cfg, s, a);
        MovesLearn(cfg, s, Apply(cfg, s, a), a.t);
      } else {
        OtherFollows(cfg, s, a);
      }
    }
  }

  // ---- reads confined to one thread per reader ----------------------------------------------

  /** Only thread `owner[r]` wins claims on reader `r` and reads its records. */
  ghost predicate Confined(s: State, a: Action, owner: seq<nat>) {
    && (a.ClaimTry? && Wins(s, a) ==> s.threads[a.t].pc.r < |owner| && a.t == owner[s.threads[a.t].pc.r])
    && (a.PopReadWord? || a.Deref? ==> ReaderOf(s, a) < |owner| && a.t == owner[ReaderOf(s, a)])
  }

  /** Each owner knows every read made for its reader. */
  ghost predicate OwnersKnow(s: State, owner: seq<nat>) {
    forall e :: 0 <= e < |s.mem.log| && s.mem.log[e].Read? ==>
      && s.mem.log[e].reader < |owner|
      && owner[s.mem.log[e].reader] < |s.threads|
      && e in s.threads[owner[s.mem.log[e].reader]].view.known
  }

  lemma ConfinedKeeps(cfg: Config, s: State, a: Action, owner: seq<nat>)
    requires Inv(cfg, s, false) && Enabled(cfg, s, a) && Confined(s, a, owner) && OwnersKnow(s, owner)
    ensures Ordered(s, a)
    ensures OwnersKnow(Apply(cfg, s, a), owner)
  {
    hide Inv, Enabled, Apply, Traces, ReaderOf;
    StepFollows(cfg, s, a);
    var next := Apply(cfg, s, a);
    forall e | 0 <= e < |next.mem.log| && next.mem.log[e].Read?
      ensures next.mem.log[e].reader < |owner| && owner[next.mem.log[e].reader] < |next.threads|
              && e in next.threads[owner[next.mem.log[e].reader]].view.known
    {
      if e < |s.mem.log| {
        assert next.mem.log[e] == s.mem.log[e];
      }
    }
  }

  lemma {:induction false} ConfinedRunOrdered(cfg: Config, n: nat, states: seq<State>, acts: seq<Action>, i: nat, owner: seq<nat>)
    requires FreshRun(cfg, n, states, acts, false) && i <= |acts|
    requires forall k :: 0 <= k < |acts| ==> Confined(states[k], acts[k], owner)
    ensures OwnersKnow(states[i], owner)
    ensures i < |acts| ==> Step(cfg, states[i], acts[i], true)
  {
    hide Inv, Enabled, Apply, Disciplined, HandedOver, Ordered, Confined, OwnersKnow;
    if i == 0 {
      assert OwnersKnow(Init(cfg, n), owner) by { NothingRead(cfg, n, owner); }
    } else {
      ConfinedRunOrdered(cfg, n, states, acts, i - 1, owner);
      FreshRunInv(cfg, n, states, acts, i - 1, false);
      ConfinedKeeps(cfg, states[i - 1], acts[i - 1], owner);
    }
    if i < |acts| {
      FreshRunInv(cfg, n, states, acts, i, false);
      ConfinedKeeps(cfg, states[i], acts[i], owner);
    }
  }

  lemma NothingRead(cfg: Config, n: nat, owner: seq<nat>)
    requires cfg.Valid()
    ensures OwnersKnow(Init(cfg, n), owner)
  {
  }

  /** One thread per reader claims and reads: then no run has a data race, aborts included. */
  lemma OneThreadPerReaderNoRace(cfg: Config, n: nat, states: seq<State>, acts: seq<Action>, owner: seq<nat>, a: Action)
    requires FreshRun(cfg, n, states, acts, false)
    requires forall k :: 0 <= k < |acts| ==> Confined(states[k], acts[k], owner)
    ensures FreshRun(cfg, n, states, acts, true)
    ensures Enabled(cfg, states[|acts|], a) ==> RaceFree(cfg, states[|acts|], a)
  {
    hide Enabled, Apply, Disciplined, HandedOver, Ordered, Confined, RaceFree;
    forall i | 0 <= i < |acts| ensures Step(cfg, states[i], acts[i], true) {
      ConfinedRunOrdered(cfg, n, states, acts, i, owner);
    }
    assert Reachable(cfg, n, states[|acts|], true);
    if Enabled(cfg, states[|acts|], a) {
      NoDataRace(cfg, n, states[|acts|], a);
    }
  }

  // ---- a reader worked by one thread ----------------------------------------------------------

  /** The step, if it acts on a reader, is by that reader's one thread. */
  ghost predicate Sole(s: State, a: Action, owner: seq<nat>) {
    OnReader(a) ==> ReaderOf(s, a) < |owner| && a.t == owner[ReaderOf(s, a)]
  }

  /** Each reader's thread sees its newest cursor and gate and knows what was left. */
  ghost predicate Abreast(s: State, owner: seq<nat>) {
    forall r :: 0 <= r < |owner| && r < |s.mem.cursors| && r < |s.mem.gates| && r < |s.trail| && owner[r] < |s.threads| ==>
      Level(s, r, s.threads[owner[r]].view)
  }

  ghost predicate Level(s: State, r: nat, v: View)
    requires r < |s.mem.cursors| && r < |s.mem.gates| && r < |s.trail|
  {
    && r < |v.cur| && |s.mem.cursors[r]| <= v.cur[r] + 1
    && r < |v.gate| && |s.mem.gates[r]| <= v.gate[r] + 1
    && s.trail[r].known <= v.known
  }

  /** Such a thread is handed nothing: it is ordered after its own steps. */
  lemma SoleHandsOver(cfg: Config, s: State, a: Action, owner: seq<nat>)
    requires Inv(cfg, s, false) && Enabled(cfg, s, a) && Sole(s, a, owner) && Abreast(s, owner)
    ensures HandedOver(s, a)
  {
    hide MemInv, ProducerInv, ThreadInv, LoanInv, Distinct, AllAccounted, Good, LoansOf, GateHolders, MayRead, Quiet, NoPop;
    if a.PopBegin? || a.ClaimBegin? || a.LookReadW? {
      ThreadWithin(cfg, s, a.t);
      assert ReaderInv(cfg, s, a.r, false) && Level(s, a.r, s.threads[a.t].view);
    }
  }

  lemma AbreastKeeps(cfg: Config, s: State, a: Action, owner: seq<nat>)
    requires Inv(cfg, s, false) && Enabled(cfg, s, a) && Sole(s, a, owner) && Abreast(s, owner)
    ensures Abreast(Apply(cfg, s, a), owner)
  {
    hide Inv, Enabled, Apply, Logs, ReaderOf, OnReader;
    StepFollows(cfg, s, a);
    var next := Apply(cfg, s, a);
    forall r | 0 <= r < |owner| && r < |next.mem.cursors| && r < |next.mem.gates| && r < |next.trail| && owner[r] < |next.threads|
      ensures Level(next, r, next.threads[owner[r]].view)
    {
      assert Level(s, r, s.threads[owner[r]].view) && SeesMore(s.threads[owner[r]].view, next.threads[owner[r]].view);
    }
  }

  lemma {:induction false} SoleRun(cfg: Config, n: nat, states: seq<State>, acts: seq<Action>, i: nat, owner: seq<nat>)
    requires LooseRun(cfg, n, states, acts) && i <= |acts|
    requires forall k :: 0 <= k < |acts| ==> Sole(states[k], acts[k], owner)
    ensures Inv(cfg, states[i], false) && Abreast(states[i], owner)
    ensures i < |acts| ==> Step(cfg, states[i], acts[i], false)
  {
    hide Inv, Enabled, Apply, Disciplined, HandedOver, Ordered, Sole, Abreast, Init;
    if i == 0 {
      InitHolds(cfg, n, false);
      InitAbreast(cfg, n, owner);
    } else {
      SoleRun(cfg, n, states, acts, i - 1, owner);
      StepKeeps(cfg, states[i - 1], acts[i - 1], false);
      AbreastKeeps(cfg, states[i - 1], acts[i - 1], owner);
    }
    if i < |acts| {
      SoleHandsOver(cfg, states[i], acts[i], owner);
    }
  }

  lemma InitAbreast(cfg: Config, n: nat, owner: seq<nat>)
    requires cfg.Valid()
    ensures Abreast(Init(cfg, n), owner)
  {
  }

  lemma SoleIsConfined(cfg: Config, s: State, a: Action, owner: seq<nat>)
    requires Enabled(cfg, s, a) && Sole(s, a, owner)
    ensures Confined(s, a, owner)
  {
    hide Formed, MayRead, MayLoadC, MayLoadW, Quiet, NoPop;
  }

  /** With one thread per reader every contract on the order of threads is met, and claims
      are ordered, whatever the loads return. */
  lemma OneThreadPerReaderMeetsContracts(cfg: Config, n: nat, states: seq<State>, acts: seq<Action>, owner: seq<nat>)
    requires LooseRun(cfg, n, states, acts)
    requires forall k :: 0 <= k < |acts| ==> Sole(states[k], acts[k], owner)
    ensures FreshRun(cfg, n, states, acts, true)
  {
    hide Inv, Enabled, Apply, Disciplined, HandedOver, Ordered, Sole, Confined, Abreast, Init, RaceFree;
    forall i | 0 <= i < |acts| ensures Step(cfg, states[i], acts[i], false) && Confined(states[i], acts[i], owner) {
      SoleRun(cfg, n, states, acts, i, owner);
      SoleIsConfined(cfg, states[i], acts[i], owner);
    }
    OneThreadPerReaderNoRace(cfg, n, states, acts, owner, PushPost);
  }

  /** A commit or drop by a reader's one thread consumes exactly the loan at the cursor. */
  lemma OneThreadPerReaderResolves(
      cfg: Config, n: nat, states: seq<State>, acts: seq<Action>, owner: seq<nat>, t: nat, p: nat)
    requires LooseRun(cfg, n, states, acts)
    requires forall k :: 0 <= k < |acts| ==> Sole(states[k], acts[k], owner)
    requires var s := states[|acts|]; Enabled(cfg, s, ResolveReadC(t, p)) && Sole(s, ResolveReadC(t, p), owner)
    ensures var s := states[|acts|];
            var pc := s.threads[t].pc;
            Apply(cfg, s, ResolveReadC(t, p)).threads[t].pc.ResolveStore?
            <==> s.loans[pc.id].index == Consumed(s.mem, pc.r)
  {
    assert |states| == |acts| + 1;
    hide Inv, Apply, Disciplined, HandedOver, Ordered, Init, LooseRun, FreshRun;
    var s := states[|acts|];
    OneThreadPerReaderMeetsContracts(cfg, n, states, acts, owner);
    SoleRun(cfg, n, states, acts, |acts|, owner);
    SoleSeesCursor(cfg, s, t, p, owner);
    LooserStill(cfg, n, states, acts);
    hide Enabled, Sole, Abreast;
    ResolutionAtCursor(cfg, n, s, t, p);
  }

  lemma SoleSeesCursor(cfg: Config, s: State, t: nat, p: nat, owner: seq<nat>)
    requires Enabled(cfg, s, ResolveReadC(t, p)) && Sole(s, ResolveReadC(t, p), owner)
    requires Abreast(s, owner) && Inv(cfg, s, false)
    ensures s.threads[t].view.cur[s.threads[t].pc.r] == Consumed(s.mem, s.threads[t].pc.r)
  {
    hide Inv;
    ThreadWithin(cfg, s, t);
    assert Level(s, s.threads[t].pc.r, s.threads[t].view);
  }

  lemma LooserStill(cfg: Config, n: nat, states: seq<State>, acts: seq<Action>)
    requires FreshRun(cfg, n, states, acts, true)
    ensures Reachable(cfg, n, states[|acts|], false)
  {
    hide Enabled, Apply, Disciplined, HandedOver, Ordered, Init;
    assert Run(cfg, states, acts, false) by {
      forall i | 0 <= i < |acts| ensures Step(cfg, states[i], acts[i], false) {
        assert Step(cfg, states[i], acts[i], true);
      }
    }
    assert FreshRun(cfg, n, states, acts, false);
  }

  /** A single consumer thread needs no hand-over. */
  lemma OneThreadMeetsContracts(cfg: Config, n: nat, states: seq<State>, acts: seq<Action>)
    requires LooseRun(cfg, n, states, acts) && n <= 1
    ensures FreshRun(cfg, n, states, acts, true)
  {
    hide Enabled, Apply, Disciplined, Ordered, Sole;
    var owner := seq(cfg.readers, _ => 0);
    forall k | 0 <= k < |acts| ensures Sole(states[k], acts[k], owner) {
      LooseThreads(cfg, n, states, acts, k);
      OnlyThread(cfg, states[k], acts[k], owner);
    }
    OneThreadPerReaderMeetsContracts(cfg, n, states, acts, owner);
  }

  lemma OnlyThread(cfg: Config, s: State, a: Action, owner: seq<nat>)
    requires Enabled(cfg, s, a) && |s.threads| <= 1 && owner == seq(cfg.readers, _ => 0)
    ensures Sole(s, a, owner)
  {
    hide MayRead, MayLoadC, MayLoadW, Quiet, NoPop;
  }

  lemma {:induction false} LooseThreads(cfg: Config, n: nat, states: seq<State>, acts: seq<Action>, i: nat)
    requires LooseRun(cfg, n, states, acts) && i <= |acts|
    ensures |states[i].threads| == n
  {
    hide Enabled, Apply, Disciplined;
    if i > 0 {
      LooseThreads(cfg, n, states, acts, i - 1);
      ThreadCount(cfg, states[i - 1], acts[i - 1]);
    }
  }
}
