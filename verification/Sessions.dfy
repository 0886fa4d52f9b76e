/** Which call a thread is in: every step of a thread belongs to the last call it began, and
    works for the reader, loan or record that call was given. */
module Sessions {
  import opened Memory
  import opened Protocol
  import opened Invariant
  import opened Runs
  import opened Linearize

  /** Thread `t` begins a call. */
  predicate Begins(a: Action, t: nat) {
    (a.PopBegin? || a.ClaimBegin? || a.ResolveBegin? || a.Abort? || a.LookReadW?) && a.t == t
  }

  /** A thread at `pc` is in the call that `call` began. */
  predicate Serves(pc: Pc, call: Action) {
    match call
    case PopBegin(_, r) => (pc.PopGate? || pc.PopLoadW? || pc.PopLoadC? || pc.PopCopy?) && pc.r == r
    case ClaimBegin(_, r) => Claims(pc, r)
    case ResolveBegin(_, id, dropping) =>
      || (pc.ResolveLoad? && pc.id == id && pc.dropping == dropping)
      || (pc.ResolveStore? && pc.id == id)
      || pc.ReleaseGate?
    case Abort(_, _) => pc.ReleaseGate?
    case LookReadW(_, r, p) => pc.Look? && pc.r == r && pc.w == p
    case _ => false
  }

  /** `b` is where thread `t` began the call it is in before step `i`. */
  ghost predicate InCall(acts: seq<Action>, b: nat, i: nat, t: nat) {
    b < i <= |acts| && Begins(acts[b], t) && forall k :: b < k < i ==> !Begins(acts[k], t)
  }

  lemma BeginServes(cfg: Config, s: State, a: Action, t: nat)
    requires Enabled(cfg, s, a) && Begins(a, t) && Inv(cfg, s, false)
    ensures t < |Apply(cfg, s, a).threads| && Serves(Apply(cfg, s, a).threads[t].pc, a)
  {
    hide ProducerInv, ThreadInv, LoanInv, ReaderInv, Distinct, AllAccounted, Good, MayRead, Quiet, NoPop, Join,
         MayLoadC, MayLoadGate, LogOk, Contents, Bounded;
    if a.LookReadW? {
      PublishedVal(cfg, s, a.p);
    }
  }

  lemma ServesOn(cfg: Config, s: State, a: Action, t: nat, call: Action)
    requires Enabled(cfg, s, a) && t < |s.threads| && !Begins(a, t) && t < |Apply(cfg, s, a).threads|
    requires !Apply(cfg, s, a).threads[t].pc.Idle?
    ensures !s.threads[t].pc.Idle?
    ensures Serves(s.threads[t].pc, call) ==> Serves(Apply(cfg, s, a).threads[t].pc, call)
  {
    hide Formed, MayRead, Quiet, NoPop, Join, Learn, MayLoadC, MayLoadW, MayLoadGate;
    if !ByThread(a, t) {
      ThreadAlone(cfg, s, a, t);
    }
  }

  /** A thread that is not between calls is in the last one it began. */
  lemma {:induction false} CallBegan(cfg: Config, n: nat, states: seq<State>, acts: seq<Action>, i: nat, t: nat) returns (b: nat)
    requires FreshRun(cfg, n, states, acts, false) && i <= |acts|
    requires t < |states[i].threads| && !states[i].threads[t].pc.Idle?
    ensures InCall(acts, b, i, t) && Serves(states[i].threads[t].pc, acts[b])
  {
    hide Inv, Enabled, Disciplined, HandedOver, Apply, Serves, Begins;
    if i == 0 {
      assert false;
    } else {
      var s, a := states[i - 1], acts[i - 1];
      assert Step(cfg, s, a, false) && states[i] == Apply(cfg, s, a);
      ThreadCount(cfg, s, a);
      if Begins(a, t) {
        FreshRunInv(cfg, n, states, acts, i - 1, false);
        BeginServes(cfg, s, a, t);
        b := i - 1;
      } else {
        ServesOn(cfg, s, a, t, a);
        b := CallBegan(cfg, n, states, acts, i - 1, t);
        ServesOn(cfg, s, a, t, acts[b]);
      }
    }
  }

  /** The call a thread is in is the one it began last. */
  lemma InThisCall(cfg: Config, n: nat, states: seq<State>, acts: seq<Action>, b: nat, i: nat, t: nat)
    requires FreshRun(cfg, n, states, acts, false) && InCall(acts, b, i, t)
    requires t < |states[i].threads| && !states[i].threads[t].pc.Idle?
    ensures Serves(states[i].threads[t].pc, acts[b])
  {
    hide Step, Apply, Serves, Begins;
    var c := CallBegan(cfg, n, states, acts, i, t);
    SameCall(acts, b, c, i, t);
  }

  lemma SameCall(acts: seq<Action>, b: nat, c: nat, i: nat, t: nat)
    requires InCall(acts, b, i, t) && InCall(acts, c, i, t)
    ensures b == c
  {
    hide Begins;
  }

  // ---- pushes -----------------------------------------------------------------------------------

  lemma CarriesOn(cfg: Config, s: State, a: Action, record: Record)
    requires Enabled(cfg, s, a) && !a.PushBegin?
    requires s.prod.pc.PushIdle? || s.prod.pc.record == record
    ensures var pc := Apply(cfg, s, a).prod.pc; pc.PushIdle? || pc.record == record
  {
    hide MayRead, MayLoadC, MayLoadW, Quiet, NoPop, Join, Learn, DoPop, DoClaim, DoLoan, DoOther;
    if !ByProducer(a) {
      ProducerAlone(cfg, s, a);
    }
  }

  lemma {:induction false} PushCarries(cfg: Config, n: nat, states: seq<State>, acts: seq<Action>, b: nat, i: nat)
    requires FreshRun(cfg, n, states, acts, false) && b < i <= |acts|
    requires acts[b].PushBegin? && forall k :: b < k < i ==> !acts[k].PushBegin?
    ensures var pc := states[i].prod.pc; pc.PushIdle? || pc.record == acts[b].record
  {
    hide Enabled, Disciplined, HandedOver, Apply;
    var s, a := states[i - 1], acts[i - 1];
    assert Step(cfg, s, a, false) && states[i] == Apply(cfg, s, a);
    if i == b + 1 {
      PushStarts(cfg, s, a);
    } else {
      PushCarries(cfg, n, states, acts, b, i - 1);
      CarriesOn(cfg, s, a, acts[b].record);
    }
  }

  lemma PushStarts(cfg: Config, s: State, a: Action)
    requires Enabled(cfg, s, a) && a.PushBegin?
    ensures Apply(cfg, s, a).prod.pc.PushScan? && Apply(cfg, s, a).prod.pc.record == a.record
  {
    hide Formed;
  }
}
