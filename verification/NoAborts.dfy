/** Without aborts no claim hands an index out again, so no run has a data race, however
    many threads share the handle. */
module NoAborts {
  import opened Common
  import opened Memory
  import opened Protocol
  import opened Invariant
  import opened Linearize
  import opened ClaimSteps
  import opened AdvanceSteps
  import opened LoanSteps
  import opened Runs
  import opened Theorems

  /** The record of read `e` is behind the claim pipeline or the cursor of its reader, or a
      pop is still reading it. */
  ghost predicate Spent(s: State, e: nat)
    requires e < |s.mem.log|
  {
    var a := s.mem.log[e];
    a.Read? ==>
      && a.reader < |s.base| && a.reader < |s.mem.cursors|
      && (a.index < s.base[a.reader] || a.index + 1 < |s.mem.cursors[a.reader]|
          || exists t :: 0 <= t < |s.threads| && Copies(s.threads[t].pc, a))
  }

  predicate Copies(pc: Pc, a: Access) {
    a.Read? && pc.PopCopy? && pc.r == a.reader && pc.c == a.index
  }

  ghost predicate AllSpent(s: State) {
    forall e :: 0 <= e < |s.mem.log| ==> Spent(s, e)
  }

  /** Neither pipelines nor cursors move back. */
  ghost predicate Forward(s: State, next: State) {
    && |next.base| == |s.base| && (forall r :: 0 <= r < |s.base| ==> s.base[r] <= next.base[r])
    && |next.mem.cursors| == |s.mem.cursors|
    && (forall r :: 0 <= r < |s.mem.cursors| ==> |s.mem.cursors[r]| <= |next.mem.cursors[r]|)
  }

  /** The log grows by the reads of this step only. */
  ghost predicate Logs(s: State, next: State, a: Action) {
    && |s.mem.log| <= |next.mem.log| <= |s.mem.log| + 1 && next.mem.log[..|s.mem.log|] == s.mem.log
    && (|next.mem.log| > |s.mem.log| && next.mem.log[|s.mem.log|].Read? ==>
          || (a.PopReadWord? && a.t < |next.threads| && Copies(next.threads[a.t].pc, next.mem.log[|s.mem.log|]))
          || (a.Deref? && a.id in s.loans && next.mem.log[|s.mem.log|].reader == s.loans[a.id].reader
              && next.mem.log[|s.mem.log|].index == s.loans[a.id].index))
  }

  lemma PushPopForward(cfg: Config, s: State, a: Action)
    requires Enabled(cfg, s, a)
    requires ByProducer(a) || OfPop(a)
    ensures Forward(s, Apply(cfg, s, a)) && Logs(s, Apply(cfg, s, a), a)
  {
    hide MayRead, MayLoadC, MayLoadW, Quiet, NoPop, DoClaim, DoLoan, DoOther, Join;
  }

  lemma ClaimForward(cfg: Config, s: State, a: Action)
    requires Enabled(cfg, s, a)
    requires OfClaim(a)
    ensures Forward(s, Apply(cfg, s, a)) && Logs(s, Apply(cfg, s, a), a)
  {
    hide Shape, MayRead, MayLoadC, MayLoadW, Quiet, NoPop, DoPush, DoPop, DoLoan, DoOther, Join;
  }

  lemma LoanForward(cfg: Config, s: State, a: Action)
    requires Enabled(cfg, s, a)
    requires OfLoan(a) && !a.Abort?
    ensures Forward(s, Apply(cfg, s, a)) && Logs(s, Apply(cfg, s, a), a)
  {
    hide MayRead, MayLoadC, MayLoadW, Quiet, NoPop, DoPush, DoPop, DoClaim, DoOther, Join;
  }

  lemma OtherForward(cfg: Config, s: State, a: Action)
    requires Enabled(cfg, s, a) && !ByProducer(a) && !OfPop(a) && !OfClaim(a) && !OfLoan(a)
    ensures Forward(s, Apply(cfg, s, a)) && Logs(s, Apply(cfg, s, a), a)
  {
    hide MayRead, MayLoadC, MayLoadW, Quiet, NoPop, DoPush, DoPop, DoClaim, DoLoan, Join;
  }

  lemma StepForward(cfg: Config, s: State, a: Action)
    requires Enabled(cfg, s, a) && !a.Abort?
    ensures Forward(s, Apply(cfg, s, a)) && Logs(s, Apply(cfg, s, a), a)
  {
    hide Enabled, Apply, Forward, Logs;
    if ByProducer(a) || OfPop(a) {
      PushPopForward(cfg, s, a);
    } else if OfClaim(a) {
      ClaimForward(cfg, s, a);
    } else if OfLoan(a) {
      LoanForward(cfg, s, a);
    } else {
      OtherForward(cfg, s, a);
    }
  }

  /** A copying pop goes on copying the same record until it stores its cursor. */
  lemma CopyGoesOn(cfg: Config, s: State, a: Action, t: nat, read: Access)
    requires Inv(cfg, s, false) && Enabled(cfg, s, a) && t < |s.threads| && Copies(s.threads[t].pc, read)
    ensures var next := Apply(cfg, s, a);
            || (t < |next.threads| && Copies(next.threads[t].pc, read))
            || (a == PopStore(t) && read.reader < |next.mem.cursors| && read.index + 1 < |next.mem.cursors[read.reader]|)
  {
    hide MemInv, ProducerInv, ThreadInv, LoanInv, ReaderInv, Distinct, AllAccounted, MayRead, Quiet, NoPop, DoPush,
         DoClaim, DoLoan, Join, Good;
    if !ByThread(a, t) {
      ThreadAlone(cfg, s, a, t);
    } else if a.PopStore? {
      PopStoreExact(cfg, s, t, false);
    }
  }

  lemma StaysSpent(cfg: Config, s: State, a: Action, e: nat)
    requires Inv(cfg, s, false) && Enabled(cfg, s, a) && !a.Abort? && e < |s.mem.log| && Spent(s, e)
    ensures e < |Apply(cfg, s, a).mem.log| && Spent(Apply(cfg, s, a), e)
  {
    hide Inv, Enabled, Apply;
    StepForward(cfg, s, a);
    assert Apply(cfg, s, a).mem.log[e] == s.mem.log[e];
    if t :| 0 <= t < |s.threads| && Copies(s.threads[t].pc, s.mem.log[e]) {
      CopyGoesOn(cfg, s, a, t, s.mem.log[e]);
    }
  }

  lemma NewlySpent(cfg: Config, s: State, a: Action, e: nat)
    requires Inv(cfg, s, false) && Enabled(cfg, s, a) && !a.Abort? && |s.mem.log| <= e < |Apply(cfg, s, a).mem.log|
    ensures Spent(Apply(cfg, s, a), e)
  {
    hide Inv, Enabled, Apply;
    StepForward(cfg, s, a);
    SameReaders(cfg, s);
    if a.Deref? && a.id in s.loans {
      LoanBound(cfg, s, a.id, false);
    } else if a.PopReadWord? && Apply(cfg, s, a).mem.log[e].Read? {
      StepFormed(cfg, s, a);
    }
  }

  lemma StepFormed(cfg: Config, s: State, a: Action)
    requires Inv(cfg, s, false) && Enabled(cfg, s, a) && a.PopReadWord?
    ensures Formed(cfg, Apply(cfg, s, a))
  {
    hide MemInv, ProducerInv, ThreadInv, LoanInv, ReaderInv, Distinct, AllAccounted, MayRead;
  }

  lemma SpentKeeps(cfg: Config, s: State, a: Action)
    requires Inv(cfg, s, false) && Enabled(cfg, s, a) && !a.Abort? && AllSpent(s)
    ensures AllSpent(Apply(cfg, s, a))
  {
    hide Inv, Enabled, Apply, Spent;
    forall e | 0 <= e < |Apply(cfg, s, a).mem.log| ensures Spent(Apply(cfg, s, a), e) {
      if e < |s.mem.log| {
        StaysSpent(cfg, s, a, e);
      } else {
        NewlySpent(cfg, s, a, e);
      }
    }
  }

  lemma SameReaders(cfg: Config, s: State)
    requires Inv(cfg, s, false)
    ensures |s.base| == |s.mem.cursors| == cfg.readers
    ensures forall id :: id in s.loans ==> s.loans[id].reader < cfg.readers
  {
  }

  lemma AloneInPop(cfg: Config, s: State, t: nat, u: nat)
    requires Inv(cfg, s, false) && t < |s.threads| && u < |s.threads| && u != t && s.threads[t].pc.PopCopy?
    ensures !InFlight(s.threads[u].pc, s.threads[t].pc.r)
  {
    hide MemInv, ProducerInv, LoanInv, ReaderInv, Distinct, AllAccounted, Good, ClaimInv, ResolveInv;
    assert ThreadInv(cfg, s, t, false);
  }

  /** With nothing aborted before it, a winning claim is of a record nobody read. */
  lemma ClaimsAreNew(cfg: Config, s: State, a: Action, e: nat)
    requires Inv(cfg, s, false) && Enabled(cfg, s, a) && a.ClaimTry? && Wins(s, a)
    requires e < |s.mem.log| && Spent(s, e)
    ensures var pc := s.threads[a.t].pc; !IsRead(s.mem.log[e], pc.r, Max(pc.b, pc.c))
  {
    hide MemInv, ProducerInv, ThreadInv, LoanInv, ReaderInv, Distinct, AllAccounted, Good;
    ClaimWins(cfg, s, a.t, false);
    if t :| 0 <= t < |s.threads| && Copies(s.threads[t].pc, s.mem.log[e]) {
      AloneInPop(cfg, s, t, a.t);
    }
  }

  lemma ClaimsAreOrdered(cfg: Config, s: State, a: Action)
    requires Inv(cfg, s, false) && Enabled(cfg, s, a) && AllSpent(s)
    ensures Ordered(s, a)
  {
    hide Inv, Enabled, Spent;
    if a.ClaimTry? && Wins(s, a) {
      forall e | 0 <= e < |s.mem.log|
        ensures !IsRead(s.mem.log[e], s.threads[a.t].pc.r, Max(s.threads[a.t].pc.b, s.threads[a.t].pc.c))
      {
        ClaimsAreNew(cfg, s, a, e);
      }
    }
  }

  lemma {:induction false} RunAllSpent(cfg: Config, n: nat, states: seq<State>, acts: seq<Action>, i: nat)
    requires FreshRun(cfg, n, states, acts, false) && i <= |acts|
    requires forall k :: 0 <= k < |acts| ==> !acts[k].Abort?
    ensures AllSpent(states[i])
    ensures i < |acts| ==> Step(cfg, states[i], acts[i], true)
  {
    hide Inv, Enabled, Apply, Disciplined, HandedOver, Ordered, AllSpent;
    if i == 0 {
      FreshSpent(cfg, n);
    } else {
      RunAllSpent(cfg, n, states, acts, i - 1);
      assert Step(cfg, states[i - 1], acts[i - 1], false);
      FreshRunInv(cfg, n, states, acts, i - 1, false);
      SpentKeeps(cfg, states[i - 1], acts[i - 1]);
    }
    if i < |acts| {
      assert Step(cfg, states[i], acts[i], false);
      FreshRunInv(cfg, n, states, acts, i, false);
      ClaimsAreOrdered(cfg, states[i], acts[i]);
    }
  }

  lemma FreshSpent(cfg: Config, n: nat)
    requires cfg.Valid()
    ensures AllSpent(Init(cfg, n))
  {
  }

  /** A run that aborts nothing has no data race, with any number of threads on a handle. */
  lemma NoAbortNoRace(cfg: Config, n: nat, states: seq<State>, acts: seq<Action>, a: Action)
    requires FreshRun(cfg, n, states, acts, false)
    requires forall k :: 0 <= k < |acts| ==> !acts[k].Abort?
    ensures FreshRun(cfg, n, states, acts, true)
    ensures Enabled(cfg, states[|acts|], a) ==> RaceFree(cfg, states[|acts|], a)
  {
    hide Enabled, Apply, Disciplined, HandedOver, Ordered, RaceFree;
    forall i | 0 <= i < |acts| ensures Step(cfg, states[i], acts[i], true) {
      RunAllSpent(cfg, n, states, acts, i);
    }
    assert Reachable(cfg, n, states[|acts|], true);
    if Enabled(cfg, states[|acts|], a) {
      NoDataRace(cfg, n, states[|acts|], a);
    }
  }
}
