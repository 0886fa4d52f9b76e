/** What each call comes to, in every run: its result, and its effect as an operation of its
    reader's sequential claim pipeline, whatever other threads do in between. */
module Outcomes {
  import opened Common
  import opened Memory
  import opened Protocol
  import opened Invariant
  import opened PopSteps
  import opened ClaimSteps
  import opened LoanSteps
  import opened AdvanceSteps
  import opened Runs
  import opened Linearize
  import opened Sessions
  import Pipeline

  // ---- one reader's pipeline ------------------------------------------------------------------

  /** The indices of the live loans of reader `r`. */
  function LiveOf(loans: map<nat, Loan>, r: nat): set<nat> {
    set id | id in loans && loans[id].reader == r :: loans[id].index
  }

  ghost function PipeOf(cfg: Config, s: State, r: nat): Pipeline.Pipe
    requires Formed(cfg, s) && r < cfg.readers
  {
    Pipeline.Pipe(Published(s.mem), Consumed(s.mem, r), s.base[r], multiset(LiveOf(s.loans, r)))
  }

  predicate Holds(loans: map<nat, Loan>, id: nat, r: nat, i: nat) {
    id in loans && loans[id].reader == r && loans[id].index == i
  }

  lemma LiveIff(loans: map<nat, Loan>, r: nat)
    ensures forall i: nat :: i in LiveOf(loans, r) <==> exists id: nat :: Holds(loans, id, r, i)
  {
    forall i: nat ensures i in LiveOf(loans, r) <==> exists id: nat :: Holds(loans, id, r, i) {
      if id: nat :| Holds(loans, id, r, i) {
        assert loans[id].index in LiveOf(loans, r);
      }
      if i in LiveOf(loans, r) {
        var id :| id in loans && loans[id].reader == r && loans[id].index == i;
        assert Holds(loans, id, r, i);
      }
    }
  }

  lemma LiveRemoved(s: State, id: nat, r: nat)
    requires Distinct(s) && id in s.loans
    ensures s.loans[id].index in LiveOf(s.loans, s.loans[id].reader)
    ensures LiveOf(s.loans - {id}, r)
         == if r == s.loans[id].reader then LiveOf(s.loans, r) - {s.loans[id].index} else LiveOf(s.loans, r)
  {
    hide LiveOf;
    LiveIff(s.loans, r);
    LiveIff(s.loans, s.loans[id].reader);
    LiveIff(s.loans - {id}, r);
    assert Holds(s.loans, id, s.loans[id].reader, s.loans[id].index);
    assert forall j: nat, i: nat :: Holds(s.loans - {id}, j, r, i) <==> Holds(s.loans, j, r, i) && j != id;
  }

  lemma LiveAdded(loans: map<nat, Loan>, next: map<nat, Loan>, id: nat, r: nat)
    requires id !in loans && id in next && next == loans[id := next[id]]
    ensures LiveOf(next, r) == LiveOf(loans, r) + if r == next[id].reader then {next[id].index} else {}
  {
    hide LiveOf;
    LiveIff(loans, r);
    LiveIff(next, r);
    assert Holds(next, id, next[id].reader, next[id].index);
    var added := LiveOf(loans, r) + if r == next[id].reader then {next[id].index} else {};
    forall i: nat ensures i in LiveOf(next, r) <==> i in added {
      assert forall j: nat :: Holds(next, j, r, i) && j != id ==> Holds(loans, j, r, i);
      assert forall j: nat :: Holds(loans, j, r, i) ==> Holds(next, j, r, i);
    }
    assert forall i: nat :: i in LiveOf(next, r) <==> i in added;
  }

  lemma LiveKept(loans: map<nat, Loan>, next: map<nat, Loan>, id: nat, r: nat)
    requires id in loans && id in next && next == loans[id := next[id]]
    requires next[id].reader == loans[id].reader && next[id].index == loans[id].index
    ensures LiveOf(next, r) == LiveOf(loans, r)
  {
    hide LiveOf;
    LiveIff(loans, r);
    LiveIff(next, r);
    assert forall j: nat, i: nat :: Holds(next, j, r, i) <==> Holds(loans, j, r, i);
    assert forall i: nat :: i in LiveOf(next, r) <==> i in LiveOf(loans, r);
  }

  lemma NoneLive(loans: map<nat, Loan>, r: nat)
    ensures LoansOf(loans, r) == {} <==> LiveOf(loans, r) == {}
  {
    hide LiveOf;
    LiveIff(loans, r);
    if LoansOf(loans, r) != {} {
      var id :| id in LoansOf(loans, r);
      assert Holds(loans, id, r, loans[id].index);
      assert loans[id].index in LiveOf(loans, r);
    }
    if LiveOf(loans, r) != {} {
      var i :| i in LiveOf(loans, r);
      var id: nat :| Holds(loans, id, r, i);
      assert id in LoansOf(loans, r);
    }
  }

  /** The pipelines of other readers are as they were. */
  ghost predicate OtherPipes(cfg: Config, s: State, next: State, r: nat) {
    Formed(cfg, s) && Formed(cfg, next) && forall x: nat :: x < cfg.readers && x != r ==> PipeOf(cfg, next, x) == PipeOf(cfg, s, x)
  }

  /** A step in state `i` of a run, for the lemmas below. */
  lemma At(cfg: Config, n: nat, states: seq<State>, acts: seq<Action>, i: nat)
    requires FreshRun(cfg, n, states, acts, false) && i < |acts|
    ensures |states| == |acts| + 1 && Inv(cfg, states[i], false) && Enabled(cfg, states[i], acts[i])
    ensures Disciplined(states[i], acts[i]) && states[i + 1] == Apply(cfg, states[i], acts[i])
    ensures Formed(cfg, states[i + 1]) && |states[i + 1].threads| == |states[i].threads|
  {
    hide Enabled, Disciplined, HandedOver, Apply, MemInv, ProducerInv, ThreadInv, LoanInv, ReaderInv, Distinct, AllAccounted,
         Formed;
    FreshRunInv(cfg, n, states, acts, i, false);
    FreshRunInv(cfg, n, states, acts, i + 1, false);
    assert Step(cfg, states[i], acts[i], false);
    ThreadCount(cfg, states[i], acts[i]);
  }

  // ---- try_push ---------------------------------------------------------------------------------

  /** A push publishes the record it was given, and its slot holds that record. */
  lemma PushPublishes(cfg: Config, n: nat, states: seq<State>, acts: seq<Action>, b: nat, d: nat)
    requires FreshRun(cfg, n, states, acts, false) && b < d < |acts|
    requires acts[b].PushBegin? && acts[d].PushStore? && forall k :: b < k < d ==> !acts[k].PushBegin?
    ensures states[d + 1].mem.stream == states[d].mem.stream + [acts[b].record]
    ensures Formed(cfg, states[d + 1])
    ensures states[d + 1].mem.slots[Slot(cfg, |states[d].mem.stream|)] == acts[b].record
  {
    hide ThreadInv, LoanInv, ReaderInv, Distinct, AllAccounted, Disciplined, HandedOver, Histories, LogOk, Bounded,
         ProducerInv, DoPop, DoClaim, DoLoan, DoOther;
    At(cfg, n, states, acts, d);
    PushCarries(cfg, n, states, acts, b, d);
    FreshRunInv(cfg, n, states, acts, d + 1, false);
  }

  // ---- claim ------------------------------------------------------------------------------------

  /** The claim takes the head of the pipeline, all at once, as one new loan. */
  ghost predicate Issued(cfg: Config, s: State, next: State, r: nat) {
    && Formed(cfg, s) && Formed(cfg, next) && r < cfg.readers && s.issued !in s.loans && s.issued in next.loans
    && var p, l := PipeOf(cfg, s, r), next.loans[s.issued];
    && Pipeline.Head(p) < p.w && PipeOf(cfg, next, r) == Pipeline.DoClaim(p) && OtherPipes(cfg, s, next, r)
    && next.loans == s.loans[s.issued := l] && l.reader == r && l.index == Pipeline.Head(p) && !l.busy
    && next.mem == s.mem && next.taken == s.taken
  }

  /** Nothing happened, and the claim starts over with fresh loads. */
  ghost predicate StartsOver(s: State, next: State, t: nat, r: nat) {
    next == s.(threads := next.threads) && t < |next.threads| && next.threads[t].pc == ClaimLoadW(r)
  }

  lemma WinIssues(cfg: Config, s: State, a: Action, next: State)
    requires Enabled(cfg, s, a) && a.ClaimTry? && Wins(s, a) && next == Apply(cfg, s, a) && Formed(cfg, next)
    requires Inv(cfg, s, false)
    ensures Issued(cfg, s, next, s.threads[a.t].pc.r)
  {
    hide MemInv, ProducerInv, LoanInv, Distinct, AllAccounted, Good, LiveOf, PopInv, ResolveInv, Wide, GateHolders,
         LoansOf;
    var pc := s.threads[a.t].pc;
    ClaimWins(cfg, s, a.t, false);
    LoanIds(cfg, s, false);
    assert ThreadInv(cfg, s, a.t, false) && ReaderInv(cfg, s, pc.r, false);
    SeesPublished(cfg, s, a.t);
    forall x: nat | x < cfg.readers
      ensures LiveOf(next.loans, x) == LiveOf(s.loans, x) + if x == pc.r then {Max(pc.b, pc.c)} else {}
    {
      LiveAdded(s.loans, next.loans, s.issued, x);
    }
    NotLive(s, pc.r, Max(pc.b, pc.c));
  }

  lemma SeesPublished(cfg: Config, s: State, t: nat)
    requires Inv(cfg, s, false) && t < |s.threads|
    ensures s.threads[t].view.w <= Published(s.mem)
  {
    hide ProducerInv, LoanInv, ReaderInv, Distinct, AllAccounted, Histories, Bounded, LogOk, Contents, PopInv, ClaimInv,
         ResolveInv;
    assert ThreadInv(cfg, s, t, false);
  }

  lemma NotLive(s: State, r: nat, i: nat)
    requires forall id :: id in s.loans && s.loans[id].reader == r ==> s.loans[id].index < i
    ensures i !in LiveOf(s.loans, r)
  {
    hide LiveOf;
    LiveIff(s.loans, r);
  }

  /** What the compare-and-swap of a claim comes to: it wins exactly when `claim_base` is what
      the call loaded and the weak operation does not fail; then the call returns the loan at
      the head of the pipeline.  Otherwise the call goes on. */
  lemma ClaimOutcome(cfg: Config, n: nat, states: seq<State>, acts: seq<Action>, b: nat, d: nat, t: nat, r: nat)
    requires FreshRun(cfg, n, states, acts, false) && d < |acts| && InCall(acts, b, d, t)
    requires acts[b] == ClaimBegin(t, r) && acts[d].ClaimTry? && acts[d].t == t
    ensures t < |states[d].threads| == |states[d + 1].threads| && states[d].threads[t].pc.ClaimCas? && r < |states[d].base|
    ensures states[d + 1].threads[t].pc.Idle?
            <==> !acts[d].spurious && states[d].base[r] == states[d].threads[t].pc.b
    ensures if states[d + 1].threads[t].pc.Idle? then Issued(cfg, states[d], states[d + 1], r)
            else StartsOver(states[d], states[d + 1], t, r)
  {
    hide Inv, Step, Issued, DoPush, DoPop, DoLoan, DoOther, Disciplined, HandedOver;
    At(cfg, n, states, acts, d);
    InThisCall(cfg, n, states, acts, b, d, t);
    if Wins(states[d], acts[d]) {
      WinIssues(cfg, states[d], acts[d], states[d + 1]);
    }
  }

  /** The newest values are loaded by the steps of a claim of thread `t`. */
  predicate FreshClaim(s: State, a: Action, t: nat) {
    && (a.ClaimReadW? && a.t == t ==> a.p == |s.mem.published| - 1)
    && (a.ClaimReadB? && a.t == t && t < |s.threads| && s.threads[t].pc.ClaimLoadB? && s.threads[t].pc.r < |s.base| ==>
          a.b == s.base[s.threads[t].pc.r])
  }

  predicate HasLoaded(pc: Pc) { pc.ClaimLoadC? || pc.ClaimLoadB? }

  lemma ClaimLoadStep(cfg: Config, s: State, a: Action, t: nat)
    requires Enabled(cfg, s, a) && t < |s.threads| && t < |Apply(cfg, s, a).threads|
    requires HasLoaded(Apply(cfg, s, a).threads[t].pc) && Inv(cfg, s, false)
    ensures !(a.ClaimBegin? && a.t == t)
    ensures var pc := Apply(cfg, s, a).threads[t].pc;
            if a.ClaimReadW? && a.t == t then FreshClaim(s, a, t) ==> pc.w == Published(s.mem)
            else HasLoaded(s.threads[t].pc) && s.threads[t].pc.w == pc.w
  {
    hide ProducerInv, ThreadInv, LoanInv, ReaderInv, Distinct, AllAccounted, Good, Formed, MayRead, Quiet, NoPop, Join, Learn,
         MayLoadC, MayLoadGate, DoPush, MemInv;
    if !ByThread(a, t) {
      ThreadAlone(cfg, s, a, t);
    } else if a.ClaimReadW? {
      PublishedVal(cfg, s, a.p);
    }
  }

  /** A claim past its first load has loaded a `write_idx` that was the newest at an instant
      inside the call. */
  lemma {:induction false} ClaimLoadedAt(
      cfg: Config, n: nat, states: seq<State>, acts: seq<Action>, b: nat, i: nat, t: nat)
    returns (j: nat)
    requires FreshRun(cfg, n, states, acts, false) && InCall(acts, b, i, t) && acts[b].ClaimBegin?
    requires forall k :: b < k < i ==> FreshClaim(states[k], acts[k], t)
    requires t < |states[i].threads| && HasLoaded(states[i].threads[t].pc)
    ensures b < j < i && Published(states[j].mem) == states[i].threads[t].pc.w
  {
    hide Inv, FreshClaim, Step, Apply, Enabled, HasLoaded;
    j := i - 1;
    var s, a := states[i - 1], acts[i - 1];
    At(cfg, n, states, acts, i - 1);
    ClaimLoadStep(cfg, s, a, t);
    if !(a.ClaimReadW? && a.t == t) {
      j := ClaimLoadedAt(cfg, n, states, acts, b, i - 1, t);
    }
  }

  /** A claim comes back empty only when it had nothing to take: the records published at an
      instant inside the call were all claimed or consumed at a later one.  (Between its loads
      another claim and a push may come, so the two instants need not be one.) */
  lemma EmptyClaimHadNothing(
      cfg: Config, n: nat, states: seq<State>, acts: seq<Action>, b: nat, d: nat, t: nat, r: nat)
    requires FreshRun(cfg, n, states, acts, false) && d < |acts| && InCall(acts, b, d, t) && acts[b] == ClaimBegin(t, r)
    requires forall k :: b < k <= d ==> FreshClaim(states[k], acts[k], t)
    requires t < |states[d].threads| && !states[d].threads[t].pc.Idle? && !states[d].threads[t].pc.ClaimQuit?
    requires t < |states[d + 1].threads| && states[d + 1].threads[t].pc.ClaimQuit?
    ensures exists j, k :: b < j < k <= d && r < |states[k].base| && r < |states[k].mem.cursors| && |states[k].mem.cursors[r]| >= 1
              && Published(states[j].mem) <= Max(states[k].base[r], Consumed(states[k].mem, r))
  {
    hide Inv, Step, Apply, Enabled;
    var s, a := states[d], acts[d];
    At(cfg, n, states, acts, d);
    InThisCall(cfg, n, states, acts, b, d, t);
    QuitStep(cfg, s, a, t);
    var j := ClaimLoadedAt(cfg, n, states, acts, b, d, t);
    assert b < j < d;
  }

  lemma QuitStep(cfg: Config, s: State, a: Action, t: nat)
    requires Enabled(cfg, s, a) && t < |s.threads| && t < |Apply(cfg, s, a).threads|
    requires !s.threads[t].pc.ClaimQuit? && Apply(cfg, s, a).threads[t].pc.ClaimQuit? && Inv(cfg, s, false)
    ensures HasLoaded(s.threads[t].pc)
    ensures var pc := s.threads[t].pc;
            && pc.r < |s.base| && pc.r < |s.mem.cursors| && |s.mem.cursors[pc.r]| >= 1
            && (FreshClaim(s, a, t) ==> pc.w <= Max(s.base[pc.r], Consumed(s.mem, pc.r)))
  {
    hide MemInv, ProducerInv, LoanInv, ReaderInv, Distinct, AllAccounted, Good, MayRead, Quiet, NoPop, Join, Learn,
         MayLoadC, MayLoadGate, DoPush, PopInv, ResolveInv;
    if !ByThread(a, t) {
      ThreadAlone(cfg, s, a, t);
    } else {
      assert ThreadInv(cfg, s, t, false);
    }
  }

  // ---- try_pop ----------------------------------------------------------------------------------

  /** A pop is turned away exactly when a loan of its reader is live, and changes nothing then
      or when it goes on. */
  lemma PopTurnedAway(cfg: Config, n: nat, states: seq<State>, acts: seq<Action>, b: nat, d: nat, t: nat, r: nat)
    requires FreshRun(cfg, n, states, acts, false) && d < |acts| && InCall(acts, b, d, t)
    requires acts[b] == PopBegin(t, r) && acts[d].PopCheckGate? && acts[d].t == t
    ensures t < |states[d + 1].threads| && states[d + 1] == states[d].(threads := states[d + 1].threads)
    ensures states[d + 1].threads[t].pc == if LoansOf(states[d].loans, r) != {} then Idle else PopLoadW(r)
  {
    hide Inv, Step, LoansOf, DoPush, DoClaim, DoLoan, DoOther;
    At(cfg, n, states, acts, d);
    InThisCall(cfg, n, states, acts, b, d, t);
    GateSeen(cfg, states[d], t, acts[d].d, false);
  }

  /** A pop past the gate comes back empty exactly when the `write_idx` it loaded is its
      reader's newest cursor, and changes nothing then or when it goes on to copy. */
  lemma PopFindsRecord(cfg: Config, n: nat, states: seq<State>, acts: seq<Action>, b: nat, d: nat, t: nat, r: nat)
    requires FreshRun(cfg, n, states, acts, false) && d < |acts| && InCall(acts, b, d, t)
    requires acts[b] == PopBegin(t, r) && acts[d].PopReadC? && acts[d].t == t
    ensures t < |states[d].threads| == |states[d + 1].threads| && states[d].threads[t].pc.PopLoadC?
    ensures Formed(cfg, states[d]) && r < cfg.readers && states[d + 1] == states[d].(threads := states[d + 1].threads)
    ensures var c := Consumed(states[d].mem, r);
            states[d + 1].threads[t].pc == if states[d].threads[t].pc.w == c then Idle else PopCopy(r, c, [])
  {
    hide Inv, Step, DoPush, DoClaim, DoLoan, DoOther, Join;
    At(cfg, n, states, acts, d);
    InThisCall(cfg, n, states, acts, b, d, t);
    PopSeesCursor(cfg, states[d], t, acts[d].p, false);
  }

  /** A pop that completes takes the record at its reader's cursor, as one atomic operation of
      the pipeline, with no loan live. */
  ghost predicate Took(cfg: Config, s: State, next: State, r: nat) {
    && Formed(cfg, s) && Formed(cfg, next) && r < cfg.readers && Consumed(s.mem, r) < Published(s.mem)
    && var p := PipeOf(cfg, s, r);
    && p.live == multiset{} && PipeOf(cfg, next, r) == Pipeline.DoPop(p) && OtherPipes(cfg, s, next, r)
    && next.taken == s.taken[r := s.taken[r] + [s.mem.stream[Consumed(s.mem, r)]]]
    && next.loans == s.loans && next.mem.gates == s.mem.gates && next.base == s.base
  }

  lemma StoreTakes(cfg: Config, s: State, t: nat, next: State)
    requires Enabled(cfg, s, PopStore(t)) && next == Apply(cfg, s, PopStore(t)) && Formed(cfg, next) && Inv(cfg, s, false)
    ensures Took(cfg, s, next, s.threads[t].pc.r)
  {
    hide MemInv, ProducerInv, LoanInv, ReaderInv, Distinct, AllAccounted, Good, LiveOf, LoansOf;
    PopStoreExact(cfg, s, t, false);
    assert ThreadInv(cfg, s, t, false);
    NoneLive(s.loans, s.threads[t].pc.r);
  }

  lemma PopTakes(cfg: Config, n: nat, states: seq<State>, acts: seq<Action>, b: nat, d: nat, t: nat, r: nat)
    requires FreshRun(cfg, n, states, acts, false) && d < |acts| && InCall(acts, b, d, t)
    requires acts[b] == PopBegin(t, r) && acts[d] == PopStore(t)
    ensures Took(cfg, states[d], states[d + 1], r)
    ensures t < |states[d + 1].threads| && states[d + 1].threads[t].pc.Idle?
  {
    hide Inv, Step, Took, DoPush, DoClaim, DoLoan, DoOther;
    At(cfg, n, states, acts, d);
    InThisCall(cfg, n, states, acts, b, d, t);
    StoreTakes(cfg, states[d], t, states[d + 1]);
  }

  // ---- commit and drop --------------------------------------------------------------------------

  /** Calls that are not about loans leave the loans there are alone. */
  lemma LoansStay(cfg: Config, s: State, a: Action, id: nat)
    requires Enabled(cfg, s, a) && !OfLoan(a) && id in s.loans && id != s.issued
    ensures id in Apply(cfg, s, a).loans && Apply(cfg, s, a).loans[id] == s.loans[id]
  {
    hide Formed, MayRead, Quiet, NoPop, Join, Learn, MayLoadC, MayLoadW, MayLoadGate, DoLoan, StepGate, Gate, AtGate,
         WriteWord, ReadWord, StoreWrite, StoreCursor;
  }

  /** Calls about loans leave those alone that somebody else owns. */
  lemma OwnedStay(cfg: Config, s: State, a: Action, id: nat)
    requires Enabled(cfg, s, a) && OfLoan(a) && id in s.loans && s.loans[id].busy
    requires a.t < |s.threads| && !Resolves(s.threads[a.t].pc, id)
    ensures id in Apply(cfg, s, a).loans && Apply(cfg, s, a).loans[id] == s.loans[id]
  {
    hide Formed, MayRead, Quiet, NoPop, Join, Learn, MayLoadC, MayLoadW, MayLoadGate, DoPush, DoPop, DoClaim, DoOther,
         StepGate, Gate, AtGate, WriteWord, ReadWord, StoreWrite, StoreCursor;
  }

  /** Between its two steps a resolution has its loan to itself. */
  lemma BusyLoanKept(cfg: Config, s: State, a: Action, t: nat, id: nat)
    requires Enabled(cfg, s, a) && t < |s.threads| && Resolves(s.threads[t].pc, id) && !ByThread(a, t) && Inv(cfg, s, false)
    ensures id in s.loans && id in Apply(cfg, s, a).loans && Apply(cfg, s, a).loans[id] == s.loans[id]
    ensures s.loans[id].busy
  {
    hide MemInv, ProducerInv, LoanInv, ReaderInv, Distinct, AllAccounted, Good, Ready, Apply, PopInv, ClaimInv, Shape, Wide;
    assert ThreadInv(cfg, s, t, false);
    LoanIds(cfg, s, false);
    if !OfLoan(a) {
      LoansStay(cfg, s, a, id);
    } else {
      StepThread(cfg, s, a);
      OwnedStay(cfg, s, a, id);
    }
  }

  lemma StepThread(cfg: Config, s: State, a: Action)
    requires Enabled(cfg, s, a) && !ByProducer(a)
    ensures a.t < |s.threads|
  {
    hide Formed, MayRead, Quiet, NoPop, MayLoadC, MayLoadW, MayLoadGate;
  }

  /** Until a resolution is over, its loan is as it was when the call began, but for the mark
      that somebody owns it. */
  lemma {:induction false} LoanHeld(
      cfg: Config, n: nat, states: seq<State>, acts: seq<Action>, b: nat, i: nat, t: nat, id: nat, dropping: bool)
    requires FreshRun(cfg, n, states, acts, false) && InCall(acts, b, i, t) && acts[b] == ResolveBegin(t, id, dropping)
    requires t < |states[i].threads| && Resolves(states[i].threads[t].pc, id)
    ensures id in states[b].loans && !states[b].loans[id].busy && id in states[i].loans
    ensures states[i].loans[id] == states[b].loans[id].(busy := true)
    ensures states[i].threads[t].pc.r == states[b].loans[id].reader
  {
    hide Inv, Step, Apply, Enabled;
    var s, a := states[i - 1], acts[i - 1];
    At(cfg, n, states, acts, i - 1);
    HeldStep(cfg, s, a, t, id);
    if i - 1 > b {
      LoanHeld(cfg, n, states, acts, b, i - 1, t, id, dropping);
      if !ByThread(a, t) {
        BusyLoanKept(cfg, s, a, t, id);
      }
    }
  }

  lemma HeldStep(cfg: Config, s: State, a: Action, t: nat, id: nat)
    requires Enabled(cfg, s, a) && t < |s.threads| && t < |Apply(cfg, s, a).threads|
    requires Resolves(Apply(cfg, s, a).threads[t].pc, id)
    ensures var next := Apply(cfg, s, a);
            if a.ResolveBegin? && a.t == t then
              && a.id == id && id in s.loans && !s.loans[id].busy && next.loans == s.loans[id := s.loans[id].(busy := true)]
              && next == s.(threads := next.threads, loans := next.loans)
              && next.threads[t].pc.r == s.loans[id].reader
            else
              && Resolves(s.threads[t].pc, id) && s.threads[t].pc.r == next.threads[t].pc.r
              && (ByThread(a, t) ==> next.loans == s.loans)
  {
    hide Formed, MayRead, Quiet, NoPop, Join, Learn, MayLoadC, MayLoadW, MayLoadGate;
    if !ByThread(a, t) {
      ThreadAlone(cfg, s, a, t);
    }
  }

  /** The loan is over without being consumed; nothing else changes. */
  ghost predicate LetGo(cfg: Config, s: State, next: State, t: nat, id: nat, r: nat) {
    && Formed(cfg, s) && Formed(cfg, next) && r < cfg.readers && id in s.loans
    && var p := PipeOf(cfg, s, r);
    && s.loans[id].index in p.live
    && PipeOf(cfg, next, r) == p.(live := p.live - multiset{s.loans[id].index}) && OtherPipes(cfg, s, next, r)
    && next.loans == s.loans - {id} && next.mem == s.mem && next.base == s.base && next.taken == s.taken
  }

  /** `LoanNotAtCursor`: the loan is again what it was when the commit began, for its thread
      to go on with, and nothing else changes. */
  ghost predicate Rejected(s: State, next: State, t: nat, id: nat, l: Loan) {
    && id in s.loans && next == s.(threads := next.threads, loans := s.loans[id := l])
    && t < |next.threads| && next.threads[t].pc.Idle?
  }

  lemma LoadDecides(cfg: Config, s: State, t: nat, p: nat, next: State)
    requires Enabled(cfg, s, ResolveReadC(t, p)) && next == Apply(cfg, s, ResolveReadC(t, p)) && Formed(cfg, next)
    requires Inv(cfg, s, false)
    ensures var pc := s.threads[t].pc;
            && pc.id in s.loans && s.loans[pc.id].reader == pc.r && t < |next.threads| && p <= s.loans[pc.id].index
            && if p == s.loans[pc.id].index then
                 next == s.(threads := next.threads) && next.threads[t].pc == ResolveStore(pc.r, pc.id)
               else if pc.dropping then
                 LetGo(cfg, s, next, t, pc.id, pc.r) && next.threads[t].pc == ReleaseGate(pc.r)
               else Rejected(s, next, t, pc.id, s.loans[pc.id].(busy := false))
  {
    hide ProducerInv, LoanInv, ReaderInv, AllAccounted, Good, LiveOf, PopInv, ClaimInv, LogOk, Contents, Bounded, Join;
    var pc := s.threads[t].pc;
    assert ThreadInv(cfg, s, t, false);
    LoanBound(cfg, s, pc.id, false);
    forall x: nat | x < cfg.readers
      ensures LiveOf(s.loans - {pc.id}, x)
           == if x == pc.r then LiveOf(s.loans, x) - {s.loans[pc.id].index} else LiveOf(s.loans, x)
    {
      LiveRemoved(s, pc.id, x);
    }
    LiveRemoved(s, pc.id, pc.r);
  }

  /** What the cursor load of a commit or drop comes to, against the loan as it was when the
      call began: at the cursor loaded, the call goes on to consume it; off it, a commit is
      rejected and a drop lets go. */
  lemma ResolutionDecides(
      cfg: Config, n: nat, states: seq<State>, acts: seq<Action>, b: nat, d: nat, t: nat, id: nat, dropping: bool)
    requires FreshRun(cfg, n, states, acts, false) && d < |acts| && InCall(acts, b, d, t)
    requires acts[b] == ResolveBegin(t, id, dropping) && acts[d].ResolveReadC? && acts[d].t == t
    ensures id in states[b].loans && !states[b].loans[id].busy && t < |states[d + 1].threads|
    ensures states[b + 1] == states[b].(threads := states[b + 1].threads, loans := states[b + 1].loans)
    ensures states[b + 1].loans == states[b].loans[id := states[b].loans[id].(busy := true)]
    ensures var l, s, next := states[b].loans[id], states[d], states[d + 1];
            && acts[d].p <= l.index
            && if acts[d].p == l.index then
                 next == s.(threads := next.threads) && next.threads[t].pc == ResolveStore(l.reader, id)
               else if dropping then LetGo(cfg, s, next, t, id, l.reader) && next.threads[t].pc == ReleaseGate(l.reader)
               else Rejected(s, next, t, id, l)
  {
    hide Inv, Step, Apply, LetGo, DoPush, DoPop, DoClaim, DoOther, DoLoan;
    At(cfg, n, states, acts, b);
    At(cfg, n, states, acts, d);
    InThisCall(cfg, n, states, acts, b, d, t);
    LoanHeld(cfg, n, states, acts, b, d, t, id, dropping);
    LoadDecides(cfg, states[d], t, acts[d].p, states[d + 1]);
    BeginMarks(cfg, states[b], t, id, dropping);
  }

  lemma BeginMarks(cfg: Config, s: State, t: nat, id: nat, dropping: bool)
    requires Enabled(cfg, s, ResolveBegin(t, id, dropping))
    ensures var next := Apply(cfg, s, ResolveBegin(t, id, dropping));
            && id in s.loans && next == s.(threads := next.threads, loans := next.loans)
            && next.loans == s.loans[id := s.loans[id].(busy := true)]
  {
    hide Formed, Quiet, NoPop, Join;
  }

  /** The record of the loan is consumed, as one atomic operation of the pipeline. */
  ghost predicate Consumes(cfg: Config, s: State, next: State, id: nat, l: Loan) {
    && Formed(cfg, s) && Formed(cfg, next) && l.reader < cfg.readers && id in s.loans
    && l.index == Consumed(s.mem, l.reader) < Published(s.mem)
    && var p := PipeOf(cfg, s, l.reader);
    && l.index in p.live && PipeOf(cfg, next, l.reader) == Pipeline.DoCommit(p, l.index) && OtherPipes(cfg, s, next, l.reader)
    && next.taken == s.taken[l.reader := s.taken[l.reader] + [s.mem.stream[l.index]]]
    && next.loans == s.loans - {id} && next.mem.gates == s.mem.gates && next.base == s.base
  }

  lemma StoreConsumes(cfg: Config, s: State, t: nat, next: State)
    requires Enabled(cfg, s, ResolveWriteC(t)) && next == Apply(cfg, s, ResolveWriteC(t)) && Formed(cfg, next)
    requires Inv(cfg, s, false)
    ensures var id := s.threads[t].pc.id;
            id in s.loans && Consumes(cfg, s, next, id, s.loans[id]) && next.threads[t].pc == ReleaseGate(s.loans[id].reader)
  {
    hide MemInv, ProducerInv, LoanInv, ThreadInv, ReaderInv, AllAccounted, Good, LiveOf, Join;
    CommitExact(cfg, s, t, false);
    var id := s.threads[t].pc.id;
    var r := s.loans[id].reader;
    forall x: nat | x < cfg.readers
      ensures LiveOf(s.loans - {id}, x) == if x == r then LiveOf(s.loans, x) - {s.loans[id].index} else LiveOf(s.loans, x)
    {
      LiveRemoved(s, id, x);
    }
    LiveRemoved(s, id, r);
  }

  /** The store of a commit or drop consumes the loan the call was given. */
  lemma ResolutionConsumes(
      cfg: Config, n: nat, states: seq<State>, acts: seq<Action>, b: nat, d: nat, t: nat, id: nat, dropping: bool)
    requires FreshRun(cfg, n, states, acts, false) && d < |acts| && InCall(acts, b, d, t)
    requires acts[b] == ResolveBegin(t, id, dropping) && acts[d] == ResolveWriteC(t)
    ensures id in states[b].loans && Consumes(cfg, states[d], states[d + 1], id, states[b].loans[id])
    ensures t < |states[d + 1].threads| && states[d + 1].threads[t].pc.ReleaseGate?
  {
    hide Inv, Step, Apply, Consumes;
    At(cfg, n, states, acts, d);
    InThisCall(cfg, n, states, acts, b, d, t);
    LoanHeld(cfg, n, states, acts, b, d, t, id, dropping);
    StoreConsumes(cfg, states[d], t, states[d + 1]);
    ConsumesSame(cfg, states[d], states[d + 1], id, states[d].loans[id], states[b].loans[id]);
  }

  lemma ConsumesSame(cfg: Config, s: State, next: State, id: nat, l: Loan, m: Loan)
    requires Consumes(cfg, s, next, id, l) && l.reader == m.reader && l.index == m.index
    ensures Consumes(cfg, s, next, id, m)
  {
    hide Pipeline.DoCommit, Formed, OtherPipes, PipeOf;
  }

  // ---- abort ------------------------------------------------------------------------------------

  /** An abort gives its loan back and rewinds the pipeline to it, as one atomic operation. */
  lemma AbortRewinds(cfg: Config, n: nat, states: seq<State>, acts: seq<Action>, d: nat, t: nat, id: nat)
    requires FreshRun(cfg, n, states, acts, false) && d < |acts| && acts[d] == Abort(t, id)
    ensures Formed(cfg, states[d]) && Formed(cfg, states[d + 1]) && id in states[d].loans
    ensures var s, next, l := states[d], states[d + 1], states[d].loans[id];
            && l.reader < cfg.readers
            && var p := PipeOf(cfg, s, l.reader);
            && Pipeline.Allowed(p, Pipeline.Abort(l.index)) && PipeOf(cfg, next, l.reader) == Pipeline.DoAbort(p, l.index)
            && OtherPipes(cfg, s, next, l.reader)
            && next.loans == s.loans - {id} && next.mem == s.mem && next.taken == s.taken
  {
    hide Inv, Step, Apply;
    At(cfg, n, states, acts, d);
    AbortStep(cfg, states[d], t, id, states[d + 1]);
  }

  lemma AbortStep(cfg: Config, s: State, t: nat, id: nat, next: State)
    requires Enabled(cfg, s, Abort(t, id)) && Topmost(s, id) && next == Apply(cfg, s, Abort(t, id)) && Formed(cfg, next)
    requires Inv(cfg, s, false)
    ensures var l := s.loans[id];
            && var p := PipeOf(cfg, s, l.reader);
            && Pipeline.Allowed(p, Pipeline.Abort(l.index)) && PipeOf(cfg, next, l.reader) == Pipeline.DoAbort(p, l.index)
            && OtherPipes(cfg, s, next, l.reader)
            && next.loans == s.loans - {id} && next.mem == s.mem && next.taken == s.taken
  {
    hide MemInv, ProducerInv, LoanInv, ThreadInv, ReaderInv, AllAccounted, Good, LiveOf, Join, Quiet, NoPop, Wide, Distinct,
         Topmost;
    var r := s.loans[id].reader;
    TopmostLive(s, id);
    forall x: nat | x < cfg.readers
      ensures LiveOf(s.loans - {id}, x) == if x == r then LiveOf(s.loans, x) - {s.loans[id].index} else LiveOf(s.loans, x)
    {
      LiveRemoved(s, id, x);
    }
    LiveRemoved(s, id, r);
  }

  lemma TopmostLive(s: State, id: nat)
    requires id in s.loans && Topmost(s, id)
    ensures forall j :: j in LiveOf(s.loans, s.loans[id].reader) ==> j <= s.loans[id].index
  {
    hide LiveOf;
    LiveIff(s.loans, s.loans[id].reader);
    forall j | j in LiveOf(s.loans, s.loans[id].reader) ensures j <= s.loans[id].index {
      var x: nat :| Holds(s.loans, x, s.loans[id].reader, j);
    }
  }

  // ---- everything else ----------------------------------------------------------------------------

  /** The steps that are an operation of some pipeline. */
  predicate Operates(a: Action) {
    a.PushStore? || a.PopStore? || a.ClaimTry? || a.ResolveReadC? || a.ResolveWriteC? || a.Abort?
  }

  /** No other step touches any pipeline or takes anything; publishing only makes room. */
  lemma OthersLeavePipes(cfg: Config, n: nat, states: seq<State>, acts: seq<Action>, d: nat, r: nat)
    requires FreshRun(cfg, n, states, acts, false) && d < |acts| && r < cfg.readers
    requires !Operates(acts[d]) || acts[d].PushStore?
    ensures Formed(cfg, states[d]) && Formed(cfg, states[d + 1]) && states[d + 1].taken == states[d].taken
    ensures var p := PipeOf(cfg, states[d], r);
            PipeOf(cfg, states[d + 1], r) == if acts[d].PushStore? then Pipeline.Do(p, Pipeline.Publish) else p
  {
    hide Inv, Step, Apply;
    At(cfg, n, states, acts, d);
    FormedAt(cfg, states[d]);
    OtherPipeStep(cfg, states[d], acts[d], states[d + 1], r);
  }

  lemma FormedAt(cfg: Config, s: State)
    requires Inv(cfg, s, false)
    ensures Formed(cfg, s)
  {
    hide MemInv, ProducerInv, LoanInv, ThreadInv, ReaderInv, AllAccounted, Good;
  }

  lemma OtherPipeStep(cfg: Config, s: State, a: Action, next: State, r: nat)
    requires Enabled(cfg, s, a) && next == Apply(cfg, s, a) && Formed(cfg, next) && r < cfg.readers
    requires !Operates(a) || a.PushStore?
    ensures next.taken == s.taken
    ensures PipeOf(cfg, next, r)
         == if a.PushStore? then Pipeline.Do(PipeOf(cfg, s, r), Pipeline.Publish) else PipeOf(cfg, s, r)
  {
    hide MayRead, Quiet, NoPop, Join, Learn, MayLoadC, MayLoadW, MayLoadGate, LiveOf, Wide;
    if a.Deref? || a.ResolveBegin? {
      LiveKept(s.loans, next.loans, a.id, r);
    }
  }

  lemma EndStep(cfg: Config, s: State, a: Action, id: nat)
    requires Enabled(cfg, s, a) && OfLoan(a) && id in s.loans && id !in Apply(cfg, s, a).loans
    ensures a.Abort? || a.ResolveWriteC? || a.ResolveReadC?
    ensures a.Abort? ==> a.id == id
    ensures !a.Abort? ==> a.t < |s.threads| && Resolves(s.threads[a.t].pc, id)
    ensures a.ResolveReadC? ==> s.threads[a.t].pc.ResolveLoad? && s.threads[a.t].pc.dropping
                                && a.p < |s.mem.cursors[s.threads[a.t].pc.r]|
                                && s.mem.cursors[s.threads[a.t].pc.r][a.p].val != s.loans[id].index
  {
    hide MayRead, Quiet, NoPop, Join, Learn, MayLoadW, MayLoadGate, DoPush, DoPop, DoClaim, DoOther, StepGate, Gate, AtGate,
         ReadWord, StoreCursor, Wide;
  }

  /** A loan ends only by its abort, by the store of its commit or drop, or by the cursor load
      of a drop that finds it ahead of the cursor: never by a rejected commit. */
  lemma LoanEnds(cfg: Config, n: nat, states: seq<State>, acts: seq<Action>, d: nat, id: nat) returns (b: nat)
    requires FreshRun(cfg, n, states, acts, false) && d < |acts|
    requires id in states[d].loans && id !in states[d + 1].loans
    ensures acts[d].Abort? || acts[d].ResolveWriteC? || acts[d].ResolveReadC?
    ensures if acts[d].Abort? then acts[d].id == id
            else InCall(acts, b, d, acts[d].t) && acts[b].ResolveBegin? && acts[b].id == id
                 && (acts[d].ResolveReadC? ==> acts[b].dropping && acts[d].p < states[d].loans[id].index)
  {
    hide Inv, Step, Apply, Enabled;
    At(cfg, n, states, acts, d);
    LoanIds(cfg, states[d], false);
    if !OfLoan(acts[d]) {
      LoansStay(cfg, states[d], acts[d], id);
    }
    EndStep(cfg, states[d], acts[d], id);
    if acts[d].Abort? {
      b := 0;
    } else {
      b := CallBegan(cfg, n, states, acts, d, acts[d].t);
      ServesResolution(states[d].threads[acts[d].t].pc, acts[b], id);
      if acts[d].ResolveReadC? {
        LoadDecides(cfg, states[d], acts[d].t, acts[d].p, states[d + 1]);
        CursorVal(cfg, states[d], states[d].threads[acts[d].t].pc.r, acts[d].p) by { LoadsInRange(cfg, states[d], acts[d]); }
      }
    }
  }

  lemma LoadsInRange(cfg: Config, s: State, a: Action)
    requires Enabled(cfg, s, a) && a.ResolveReadC?
    ensures var r := s.threads[a.t].pc.r; r < cfg.readers && a.p < |s.mem.cursors[r]|
  {
    hide MayRead, Quiet, NoPop, MayLoadW, MayLoadGate;
  }

  lemma ServesResolution(pc: Pc, call: Action, id: nat)
    requires Serves(pc, call) && Resolves(pc, id)
    ensures call.ResolveBegin? && call.id == id && (pc.ResolveLoad? ==> call.dropping == pc.dropping)
  {
  }

  // ---- len and peek -----------------------------------------------------------------------------

  /** `len` and `peek` measure from the reader's newest cursor to the `write_idx` they loaded
      first, the newest one when that load was fresh, and change nothing. */
  lemma LookMeasures(cfg: Config, n: nat, states: seq<State>, acts: seq<Action>, b: nat, d: nat, t: nat, r: nat, p: nat)
    requires FreshRun(cfg, n, states, acts, false) && d < |acts| && InCall(acts, b, d, t)
    requires acts[b] == LookReadW(t, r, p) && acts[d].LookReadC? && acts[d].t == t
    ensures t < |states[d].threads| == |states[d + 1].threads| && states[d].threads[t].pc == Look(r, p)
    ensures p <= Published(states[b].mem)
    ensures p + 1 == |states[b].mem.published| ==> p == Published(states[b].mem)
    ensures Formed(cfg, states[d]) && r < cfg.readers
    ensures acts[d].p == Consumed(states[d].mem, r) <= p <= Consumed(states[d].mem, r) + cfg.capacity
    ensures states[d + 1] == states[d].(threads := states[d + 1].threads) && states[d + 1].threads[t].pc.Idle?
  {
    hide Inv, Step, DoPush, DoPop, DoClaim, DoLoan, Join;
    At(cfg, n, states, acts, b);
    At(cfg, n, states, acts, d);
    InThisCall(cfg, n, states, acts, b, d, t);
    LookStarts(cfg, states[b], acts[b]);
    LookSees(cfg, states[d], t, acts[d].p);
  }

  lemma LookStarts(cfg: Config, s: State, a: Action)
    requires Enabled(cfg, s, a) && a.LookReadW? && Inv(cfg, s, false)
    ensures a.p <= Published(s.mem) && (a.p + 1 == |s.mem.published| ==> a.p == Published(s.mem))
  {
    hide MemInv, ProducerInv, ThreadInv, LoanInv, ReaderInv, Distinct, AllAccounted, Quiet, NoPop;
  }

  lemma LookSees(cfg: Config, s: State, t: nat, p: nat)
    requires Enabled(cfg, s, LookReadC(t, p)) && Inv(cfg, s, false)
    ensures var pc := s.threads[t].pc;
            p == Consumed(s.mem, pc.r) <= pc.w <= p + cfg.capacity
  {
    hide ProducerInv, LoanInv, ReaderInv, Distinct, AllAccounted, LogOk, Contents, Bounded, Histories, ClaimInv, ResolveInv;
    assert ThreadInv(cfg, s, t, false);
  }

  // ---- accesses ---------------------------------------------------------------------------------

  /** The slot access of a step: words are written and read in order, a pop reads the record
      at its reader's cursor, a dereference the record of its loan. */
  ghost function Accessed(cfg: Config, s: State, a: Action): seq<Access>
    requires Enabled(cfg, s, a)
  {
    match a
    case PushWrite => [Write(Published(s.mem), s.prod.pc.done)]
    case PopReadWord(t, _) =>
      var pc := s.threads[t].pc;
      [Read(pc.r, Consumed(s.mem, pc.r), |pc.buf|)]
    case Deref(_, id, k, _) => [Read(s.loans[id].reader, s.loans[id].index, k)]
    case _ => []
  }

  /** The log holds exactly the accesses made, one a step, in the order they were made. */
  lemma AccessesLogged(cfg: Config, n: nat, states: seq<State>, acts: seq<Action>, d: nat)
    requires FreshRun(cfg, n, states, acts, false) && d < |acts|
    ensures Enabled(cfg, states[d], acts[d])
    ensures states[d + 1].mem.log == states[d].mem.log + Accessed(cfg, states[d], acts[d])
  {
    hide Inv, Step, Apply, Enabled, Accessed;
    At(cfg, n, states, acts, d);
    AccessStep(cfg, states[d], acts[d]);
  }

  lemma AccessStep(cfg: Config, s: State, a: Action)
    requires Enabled(cfg, s, a) && Inv(cfg, s, false)
    ensures Apply(cfg, s, a).mem.log == s.mem.log + Accessed(cfg, s, a)
  {
    hide Inv, Ready, Apply, Accessed;
    if ByProducer(a) || OfPop(a) {
      CopyAccess(cfg, s, a);
    } else {
      LoanAccess(cfg, s, a);
    }
  }

  lemma CopyAccess(cfg: Config, s: State, a: Action)
    requires Enabled(cfg, s, a) && (ByProducer(a) || OfPop(a)) && Inv(cfg, s, false)
    ensures Apply(cfg, s, a).mem.log == s.mem.log + Accessed(cfg, s, a)
  {
    hide MemInv, LoanInv, ReaderInv, Distinct, AllAccounted, MayRead, Quiet, NoPop, Join, MayLoadC, MayLoadW, MayLoadGate,
         Good, LoansOf, ClaimInv, ResolveInv, DoClaim, DoLoan, DoOther, Wide;
    if a.PopReadWord? {
      assert ThreadInv(cfg, s, a.t, false);
    }
  }

  lemma LoanAccess(cfg: Config, s: State, a: Action)
    requires Enabled(cfg, s, a) && !ByProducer(a) && !OfPop(a)
    ensures Apply(cfg, s, a).mem.log == s.mem.log + Accessed(cfg, s, a)
  {
    hide Formed, MayRead, Quiet, NoPop, Join, Learn, MayLoadC, MayLoadW, MayLoadGate, DoPush, DoPop, Gate, AtGate;
  }
}
