/** Whole runs: every finite interleaving of a producer and any number of consumer
    threads, from a fresh ring, for every capacity, reader count and record size. */
module Runs {
  import opened Memory
  import opened Protocol
  import opened Invariant
  import opened PopSteps
  import opened ClaimSteps
  import opened LoanSteps
  import opened AdvanceSteps

  /** A step inside the contracts.  With `hb`, claims are in addition `Ordered`. */
  ghost predicate Step(cfg: Config, s: State, a: Action, hb: bool) {
    Enabled(cfg, s, a) && Disciplined(s, a) && HandedOver(s, a) && (hb ==> Ordered(s, a))
  }

  /** `states` are the successive states of a run taking the steps `acts`. */
  ghost predicate Run(cfg: Config, states: seq<State>, acts: seq<Action>, hb: bool) {
    && |states| == |acts| + 1
    && forall i :: 0 <= i < |acts| ==> Step(cfg, states[i], acts[i], hb) && states[i + 1] == Apply(cfg, states[i], acts[i])
  }

  /** A run of `n` consumer threads on a fresh ring. */
  ghost predicate FreshRun(cfg: Config, n: nat, states: seq<State>, acts: seq<Action>, hb: bool) {
    cfg.Valid() && Run(cfg, states, acts, hb) && states[0] == Init(cfg, n)
  }

  ghost predicate Reachable(cfg: Config, n: nat, s: State, hb: bool) {
    exists states, acts :: FreshRun(cfg, n, states, acts, hb) && states[|acts|] == s
  }

  /** A run that leaves it to chance how the threads of a reader are ordered. */
  ghost predicate LooseRun(cfg: Config, n: nat, states: seq<State>, acts: seq<Action>) {
    && cfg.Valid() && |states| == |acts| + 1 && states[0] == Init(cfg, n)
    && forall i :: 0 <= i < |acts| ==>
         Enabled(cfg, states[i], acts[i]) && Disciplined(states[i], acts[i]) && states[i + 1] == Apply(cfg, states[i], acts[i])
  }

  ghost predicate LooseReachable(cfg: Config, n: nat, s: State) {
    exists states, acts :: LooseRun(cfg, n, states, acts) && states[|acts|] == s
  }

  // ---- the invariant over runs ------------------------------------------------------------

  lemma PushStepKeeps(cfg: Config, s: State, a: Action, hb: bool)
    requires Inv(cfg, s, hb) && Enabled(cfg, s, a)
    requires ByProducer(a)
    ensures Inv(cfg, Apply(cfg, s, a), hb)
  {
    hide Inv, Enabled, DoPush;
    match a
    case PushBegin(record) => PushBeginKeeps(cfg, s, record, hb);
    case PushLoad(p) => PushLoadKeeps(cfg, s, p, hb);
    case PushDecide => PushDecideKeeps(cfg, s, hb);
    case PushWrite => PushWriteKeeps(cfg, s, hb);
    case PushStore => PushStoreKeeps(cfg, s, hb);
    case PushPost => PushPostKeeps(cfg, s, hb);
    case PushFetch(k) => PushFetchKeeps(cfg, s, k, hb);
  }

  lemma PopStepKeeps(cfg: Config, s: State, a: Action, hb: bool)
    requires Inv(cfg, s, hb) && Step(cfg, s, a, hb) && OfPop(a)
    ensures Inv(cfg, Apply(cfg, s, a), hb)
  {
    hide Inv, DoPop, Disciplined, Ordered, UpToDate;
    match a
    case PopBegin(t, r) => PopBeginKeeps(cfg, s, t, r, hb);
    case PopCheckGate(t, d) => PopCheckGateKeeps(cfg, s, t, d, hb);
    case PopReadW(t, p) => PopReadWKeeps(cfg, s, t, p, hb);
    case PopReadC(t, p) => PopReadCKeeps(cfg, s, t, p, hb);
    case PopReadWord(t, x) => PopReadWordKeeps(cfg, s, t, x, hb);
    case PopStore(t) => PopStoreKeeps(cfg, s, t, hb);
  }

  lemma ClaimStepKeeps(cfg: Config, s: State, a: Action, hb: bool)
    requires Inv(cfg, s, hb) && Step(cfg, s, a, hb) && OfClaim(a)
    ensures Inv(cfg, Apply(cfg, s, a), hb)
  {
    hide Inv, DoClaim, Ordered;
    match a
    case ClaimBegin(t, r) => ClaimBeginKeeps(cfg, s, t, r, hb);
    case ClaimReadW(t, p) => ClaimReadWKeeps(cfg, s, t, p, hb);
    case ClaimReadC(t, p) => ClaimReadCKeeps(cfg, s, t, p, hb);
    case ClaimReadB(t, b) => ClaimReadBKeeps(cfg, s, t, b, hb);
    case ClaimTry(t, spurious) =>
      if spurious || s.base[s.threads[t].pc.r] != s.threads[t].pc.b {
        ClaimLostKeeps(cfg, s, t, spurious, hb);
      } else {
        ClaimWonKeeps(cfg, s, t, hb);
      }
    case ClaimFail(t) => ClaimFailKeeps(cfg, s, t, hb);
  }

  lemma LoanStepKeeps(cfg: Config, s: State, a: Action, hb: bool)
    requires Inv(cfg, s, hb) && Step(cfg, s, a, hb) && OfLoan(a)
    ensures Inv(cfg, Apply(cfg, s, a), hb)
  {
    hide Inv, DoLoan, Ordered, MayRead;
    match a
    case Deref(t, id, k, x) => DerefKeeps(cfg, s, t, id, k, x, hb);
    case ResolveBegin(t, id, dropping) => ResolveBeginKeeps(cfg, s, t, id, dropping, hb);
    case ResolveReadC(t, p) =>
      if s.mem.cursors[s.threads[t].pc.r][p].val == s.loans[s.threads[t].pc.id].index {
        ResolveMatchKeeps(cfg, s, t, p, hb);
      } else if s.threads[t].pc.dropping {
        ResolveDropKeeps(cfg, s, t, p, hb);
      } else {
        ResolveRejectKeeps(cfg, s, t, p, hb);
      }
    case ResolveWriteC(t) => CommitKeeps(cfg, s, t, hb);
    case Abort(t, id) => AbortKeeps(cfg, s, t, id, hb);
    case Release(t) => ReleaseKeeps(cfg, s, t, hb);
  }

  lemma OtherStepKeeps(cfg: Config, s: State, a: Action, hb: bool)
    requires Inv(cfg, s, hb) && Step(cfg, s, a, hb)
    requires a.LookReadW? || a.LookReadC? || a.Post? || a.Fetch?
    ensures Inv(cfg, Apply(cfg, s, a), hb)
  {
    hide Inv, HandedOver, Disciplined, Ordered;
    match a
    case LookReadW(t, r, p) => LookReadWKeeps(cfg, s, t, r, p, hb);
    case LookReadC(t, p) => LookReadCKeeps(cfg, s, t, p, hb);
    case Post(t) =>
      ThreadGood(cfg, s, t, hb);
      PostKeeps(cfg, s, s.threads[t].view, hb);
    case Fetch(t, k) => FetchKeeps(cfg, s, t, k, hb);
  }

  lemma ThreadGood(cfg: Config, s: State, t: nat, hb: bool)
    requires Inv(cfg, s, hb) && t < |s.threads|
    ensures Good(cfg, s.mem, s.threads[t].view, hb)
  {
    hide MemInv, ProducerInv, LoanInv, ReaderInv, Distinct, AllAccounted, Good, PopInv, ClaimInv, ResolveInv;
    assert ThreadInv(cfg, s, t, hb);
  }

  lemma StepKeeps(cfg: Config, s: State, a: Action, hb: bool)
    requires Inv(cfg, s, hb) && Step(cfg, s, a, hb)
    ensures Inv(cfg, Apply(cfg, s, a), hb)
  {
    hide Inv, Enabled, Apply;
    if ByProducer(a) {
      PushStepKeeps(cfg, s, a, hb);
    } else if OfPop(a) {
      PopStepKeeps(cfg, s, a, hb);
    } else if OfClaim(a) {
      ClaimStepKeeps(cfg, s, a, hb);
    } else if OfLoan(a) {
      LoanStepKeeps(cfg, s, a, hb);
    } else {
      OtherStepKeeps(cfg, s, a, hb);
    }
  }

  lemma {:induction false} RunKeeps(cfg: Config, states: seq<State>, acts: seq<Action>, i: nat, hb: bool)
    requires Run(cfg, states, acts, hb) && Inv(cfg, states[0], hb) && i <= |acts|
    ensures Inv(cfg, states[i], hb)
  {
    hide Inv, Enabled, Disciplined, HandedOver, Ordered, Apply;
    if i > 0 {
      RunKeeps(cfg, states, acts, i - 1, hb);
      StepKeeps(cfg, states[i - 1], acts[i - 1], hb);
    }
  }

  /** Every state of a run from a fresh ring satisfies the invariant. */
  lemma FreshRunInv(cfg: Config, n: nat, states: seq<State>, acts: seq<Action>, i: nat, hb: bool)
    requires FreshRun(cfg, n, states, acts, hb) && i <= |acts|
    ensures Inv(cfg, states[i], hb)
  {
    hide Inv, Step, Apply, Init;
    InitHolds(cfg, n, hb);
    RunKeeps(cfg, states, acts, i, hb);
  }

  lemma ReachableInv(cfg: Config, n: nat, s: State, hb: bool)
    requires Reachable(cfg, n, s, hb)
    ensures Inv(cfg, s, hb)
  {
    hide Inv, Step, Apply, Init;
    var states, acts :| FreshRun(cfg, n, states, acts, hb) && states[|acts|] == s;
    FreshRunInv(cfg, n, states, acts, |acts|, hb);
  }

  lemma ThreadCount(cfg: Config, s: State, a: Action)
    requires Enabled(cfg, s, a)
    ensures |Apply(cfg, s, a).threads| == |s.threads|
  {
    hide Formed, MayRead, MayLoadC, MayLoadW, Quiet, NoPop, Join, Learn;
  }
}
