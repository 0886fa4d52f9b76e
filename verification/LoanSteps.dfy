/** Dereferencing a loan, and the steps of `commit`, `drop` and `abort`, keep the
    invariant. */
module LoanSteps {
  import opened Common
  import opened Memory
  import opened Protocol
  import opened Invariant
  import opened ClaimSteps

  lemma NotResolved(cfg: Config, s: State, id: nat, hb: bool)
    requires Inv(cfg, s, hb) && id in s.loans && !s.loans[id].busy
    ensures forall u :: 0 <= u < |s.threads| ==> !Resolves(s.threads[u].pc, id)
  {
    hide MemInv, ReaderInv, ProducerInv, LoanInv, Distinct, AllAccounted;
    forall u | 0 <= u < |s.threads| ensures !Resolves(s.threads[u].pc, id) {
      assert ThreadInv(cfg, s, u, hb);
    }
  }

  lemma LoanBound(cfg: Config, s: State, id: nat, hb: bool)
    requires Inv(cfg, s, hb) && id in s.loans
    ensures Consumed(s.mem, s.loans[id].reader) <= s.loans[id].index < s.base[s.loans[id].reader]
  {
    hide MemInv, ReaderInv, ThreadInv, ProducerInv, Distinct, AllAccounted;
    assert LoanInv(cfg, s, id, hb);
  }

  lemma LiveAccounted(s: State, e: nat, id: nat)
    requires e < |s.mem.log| && id in s.loans && IsRead(s.mem.log[e], s.loans[id].reader, s.loans[id].index)
    requires s.loans[id].reader < |s.trail|
    ensures Accounted(s, e)
  {
  }

  // ---- dereference -----------------------------------------------------------------------

  /** Word `x` of the record of loan `l` is the published one, ordered for view `v`. */
  ghost predicate Exact(cfg: Config, mem: Mem, l: Loan, v: View, k: nat, x: Word)
    requires Shape(cfg, mem) && l.reader < cfg.readers
  {
    && Consumed(mem, l.reader) <= l.index < Published(mem)
    && k < |mem.stream[l.index]| && x == mem.stream[l.index][k]
    && WritesOrdered(cfg, mem, v, l.index, k)
  }

  /** A loan dereferences to the published record at every moment of its life. */
  lemma DerefReadsPublished(cfg: Config, s: State, t: nat, id: nat, k: nat, x: Word, hb: bool)
    requires Enabled(cfg, s, Deref(t, id, k, x)) && Inv(cfg, s, hb)
    ensures Exact(cfg, s.mem, s.loans[id], Join(s.threads[t].view, s.loans[id].view), k, x)
  {
    var l := s.loans[id];
    assert ThreadInv(cfg, s, t, hb) && LoanInv(cfg, s, id, hb);
    JoinGood(cfg, s.mem, s.threads[t].view, l.view, hb);
    ReadExact(cfg, s.mem, StageOf(s.prod), hb, Join(s.threads[t].view, l.view), l.reader, l.index, k);
  }

  /** What a dereferencing thread knows afterwards. */
  lemma DerefGood(cfg: Config, s: State, next: Mem, v: View, l: Loan, k: nat, hb: bool)
    requires next == ReadWord(s.mem, l.reader, l.index, k) && OnlyReads(cfg, s.mem, next, hb)
    requires Good(cfg, s.mem, v, hb) && Good(cfg, s.mem, l.view, hb) && Good(cfg, s.mem, l.uses, hb)
    ensures var u := Learn(Join(v, l.view), |s.mem.log|);
            Good(cfg, next, u, hb) && Good(cfg, next, Join(l.uses, u), hb) && Good(cfg, next, l.view, hb)
  {
    JoinGood(cfg, s.mem, v, l.view, hb);
    var u := Learn(Join(v, l.view), |s.mem.log|);
    assert Good(cfg, next, Join(v, l.view), hb);
    assert Good(cfg, next, u, hb);
    JoinGood(cfg, next, l.uses, u, hb);
  }

  lemma DerefViews(cfg: Config, s: State, next: State, t: nat, id: nat, k: nat, x: Word, hb: bool)
    requires Enabled(cfg, s, Deref(t, id, k, x)) && Formed(cfg, next) && |next.threads| == |s.threads| && id in next.loans
    requires next == DoLoan(cfg, s, Deref(t, id, k, x)) && Inv(cfg, s, hb)
    requires OnlyReads(cfg, s.mem, next.mem, hb)
    ensures ThreadInv(cfg, next, t, hb) && LoanInv(cfg, next, id, hb)
  {
    hide MemInv, ReaderInv, ProducerInv, Distinct, AllAccounted, Good, MayRead, NoPop, Quiet, Wide, Shape;
    var l := s.loans[id];
    assert ThreadInv(cfg, s, t, hb) && LoanInv(cfg, s, id, hb);
    DerefGood(cfg, s, next.mem, s.threads[t].view, l, k, hb);
    assert forall e :: 0 <= e < |s.mem.log| ==> next.mem.log[e] == s.mem.log[e];
  }

  lemma DerefOthers(cfg: Config, s: State, next: State, t: nat, id: nat, k: nat, x: Word, u: nat, hb: bool)
    requires Enabled(cfg, s, Deref(t, id, k, x)) && Formed(cfg, next) && |next.threads| == |s.threads| && id in next.loans
    requires next == DoLoan(cfg, s, Deref(t, id, k, x)) && Inv(cfg, s, hb) && u < |s.threads| && u != t
    requires OnlyReads(cfg, s.mem, next.mem, hb)
    ensures ThreadInv(cfg, next, u, hb)
  {
    hide MemInv, ReaderInv, ProducerInv, LoanInv, ThreadInv, Distinct, AllAccounted, Good, MayRead;
    NotResolved(cfg, s, id, hb);
    forall r ensures LoansOf(next.loans, r) == LoansOf(s.loans, r) { }
    OtherThreads(cfg, s, next, t, u, hb);
  }

  lemma DerefKeeps(cfg: Config, s: State, t: nat, id: nat, k: nat, x: Word, hb: bool)
    requires Inv(cfg, s, hb) && Enabled(cfg, s, Deref(t, id, k, x))
    ensures Inv(cfg, DoLoan(cfg, s, Deref(t, id, k, x)), hb)
  {
    hide MemInv, ThreadInv, ReaderInv, ProducerInv, LoanInv, Accounted, AllAccounted, Distinct, Good, MayRead;
    var next := DoLoan(cfg, s, Deref(t, id, k, x));
    var l := s.loans[id];
    DerefReadsPublished(cfg, s, t, id, k, x, hb);
    ReadKeeps(cfg, s.mem, StageOf(s.prod), hb, l.reader, l.index, k);
    DerefViews(cfg, s, next, t, id, k, x, hb);
    forall u | 0 <= u < |next.threads| && u != t ensures ThreadInv(cfg, next, u, hb) {
      DerefOthers(cfg, s, next, t, id, k, x, u, hb);
    }
    DerefFrame(cfg, s, next, t, id, k, hb);
  }

  /** Thread `t` has read word `k` through loan `id`. */
  lemma DerefFrame(cfg: Config, s: State, next: State, t: nat, id: nat, k: nat, hb: bool)
    requires Formed(cfg, s) && Formed(cfg, next) && t < |s.threads| == |next.threads| && id in s.loans && id in next.loans
    requires next == s.(mem := ReadWord(s.mem, s.loans[id].reader, s.loans[id].index, k),
                        threads := s.threads[t := next.threads[t]], loans := s.loans[id := next.loans[id]])
    requires next.loans[id].reader == s.loans[id].reader && next.loans[id].index == s.loans[id].index
    requires s.threads[t].pc.Idle? && next.threads[t].pc.Idle?
    requires OnlyReads(cfg, s.mem, next.mem, hb) && MemInv(cfg, next.mem, StageOf(s.prod), hb)
    requires forall u :: 0 <= u < |next.threads| ==> ThreadInv(cfg, next, u, hb)
    requires LoanInv(cfg, next, id, hb) && Inv(cfg, s, hb)
    ensures Inv(cfg, next, hb)
  {
    hide MemInv, ThreadInv, ReaderInv, ProducerInv, LoanInv, Accounted, Good;
    ProducerReads(cfg, s, next, hb);
    forall r ensures LoansOf(next.loans, r) == LoansOf(s.loans, r) { }
    forall j | j in next.loans && j != id ensures LoanInv(cfg, next, j, hb) {
      LoanBound(cfg, s, j, hb);
      LoanKept(cfg, s, next, j, hb);
    }
    forall r | 0 <= r < cfg.readers ensures ReaderInv(cfg, next, r, hb) {
      ReadersKeep(cfg, s, next, t, r, hb);
    }
    if hb {
      forall e | 0 <= e < |next.mem.log| && next.mem.log[e].Read? && next.mem.log[e].reader < cfg.readers
        ensures Accounted(next, e)
      {
        DerefAccounted(cfg, s, next, t, id, k, e);
      }
    }
  }

  lemma DerefAccounted(cfg: Config, s: State, next: State, t: nat, id: nat, k: nat, e: nat)
    requires Formed(cfg, s) && Formed(cfg, next) && t < |s.threads| == |next.threads| && id in s.loans && id in next.loans
    requires next == s.(mem := ReadWord(s.mem, s.loans[id].reader, s.loans[id].index, k),
                        threads := s.threads[t := next.threads[t]], loans := s.loans[id := next.loans[id]])
    requires next.loans[id].reader == s.loans[id].reader && next.loans[id].index == s.loans[id].index
    requires s.threads[t].pc.Idle? && AllAccounted(cfg, s)
    requires e < |next.mem.log| && next.mem.log[e].Read? && next.mem.log[e].reader < cfg.readers
    ensures Accounted(next, e)
  {
    hide Accounted, Shape, Wide;
    if e < |s.mem.log| {
      StillAccounted(cfg, s, next, t, e);
    } else {
      LiveAccounted(next, e, id);
    }
  }

  // ---- commit and drop -------------------------------------------------------------------

  lemma OwnedGood(cfg: Config, s: State, t: nat, id: nat, hb: bool)
    requires Inv(cfg, s, hb) && t < |s.threads| && id in s.loans
    ensures Good(cfg, s.mem, Owned(s, t, id), hb)
    ensures s.loans[id].view.known + s.loans[id].uses.known <= Owned(s, t, id).known
    ensures s.loans[id].index < Owned(s, t, id).w
  {
    hide MemInv, ProducerInv, ReaderInv, Distinct, AllAccounted, Good;
    var l := s.loans[id];
    assert ThreadInv(cfg, s, t, hb) && LoanInv(cfg, s, id, hb);
    JoinGood(cfg, s.mem, s.threads[t].view, l.view, hb);
    JoinGood(cfg, s.mem, Join(s.threads[t].view, l.view), l.uses, hb);
  }

  /** A step of thread `t` that at most marks one loan busy or free again. */
  lemma BusyFrame(cfg: Config, s: State, next: State, t: nat, id: nat, hb: bool)
    requires Inv(cfg, s, hb) && Formed(cfg, next) && id in s.loans
    requires t < |s.threads| == |next.threads|
    requires exists busy :: next == s.(threads := s.threads[t := next.threads[t]],
                                       loans := s.loans[id := s.loans[id].(busy := busy)])
    requires ThreadInv(cfg, next, t, hb) && KeepsOut(s, t, next.threads[t].pc)
    requires forall u :: 0 <= u < |s.threads| && u != t ==> !Resolves(s.threads[u].pc, id)
    requires forall r :: 0 <= r < cfg.readers ==> GateCounts(s, next, t, r)
    requires !s.threads[t].pc.PopCopy?
    ensures Inv(cfg, next, hb)
  {
    hide MemInv, ThreadInv, ReaderInv, ProducerInv, LoanInv, Accounted, Good, GateHolders, Wide;
    ProducerReads(cfg, s, next, hb);
    forall r ensures LoansOf(next.loans, r) == LoansOf(s.loans, r) { }
    forall u | 0 <= u < |next.threads| ensures ThreadInv(cfg, next, u, hb) {
      if u != t {
        OtherThreads(cfg, s, next, t, u, hb);
      }
    }
    forall j | j in next.loans ensures LoanInv(cfg, next, j, hb) {
      BusyLoan(cfg, s, next, id, j, hb);
    }
    forall r | 0 <= r < cfg.readers ensures ReaderInv(cfg, next, r, hb) {
      ReadersKeep(cfg, s, next, t, r, hb);
    }
    if hb {
      forall e | 0 <= e < |next.mem.log| && next.mem.log[e].Read? && next.mem.log[e].reader < cfg.readers
        ensures Accounted(next, e)
      {
        StillAccounted(cfg, s, next, t, e);
      }
    }
  }

  lemma BusyLoan(cfg: Config, s: State, next: State, id: nat, j: nat, hb: bool)
    requires Inv(cfg, s, hb) && Formed(cfg, next) && id in s.loans && j in s.loans
    requires exists busy :: next == s.(threads := next.threads, loans := s.loans[id := s.loans[id].(busy := busy)])
    ensures LoanInv(cfg, next, j, hb)
  {
    hide MemInv, ThreadInv, ReaderInv, ProducerInv, Distinct, AllAccounted, Good;
    assert LoanInv(cfg, s, j, hb);
  }

  lemma ResolveBeginKeeps(cfg: Config, s: State, t: nat, id: nat, dropping: bool, hb: bool)
    requires Inv(cfg, s, hb) && Enabled(cfg, s, ResolveBegin(t, id, dropping))
    ensures Inv(cfg, DoLoan(cfg, s, ResolveBegin(t, id, dropping)), hb)
  {
    hide MemInv, ThreadInv, ReaderInv, ProducerInv, LoanInv, AllAccounted, Distinct, Good;
    var next := DoLoan(cfg, s, ResolveBegin(t, id, dropping));
    OwnedGood(cfg, s, t, id, hb);
    NotResolved(cfg, s, id, hb);
    assert ThreadInv(cfg, next, t, hb) by { ResolveBeginThread(cfg, s, next, t, id, dropping, hb); }
    BusyFrame(cfg, s, next, t, id, hb);
  }

  lemma ResolveBeginThread(cfg: Config, s: State, next: State, t: nat, id: nat, dropping: bool, hb: bool)
    requires Enabled(cfg, s, ResolveBegin(t, id, dropping)) && Formed(cfg, next) && |next.threads| == |s.threads|
    requires next == DoLoan(cfg, s, ResolveBegin(t, id, dropping)) && Good(cfg, s.mem, Owned(s, t, id), hb)
    requires s.loans[id].view.known + s.loans[id].uses.known <= Owned(s, t, id).known
    requires s.loans[id].index < Owned(s, t, id).w
    requires forall u :: 0 <= u < |s.threads| ==> !Resolves(s.threads[u].pc, id)
    ensures ThreadInv(cfg, next, t, hb)
  {
    hide Good, Owned;
  }

  /** The cursor loaded matches: it is the newest value, and stays so until the store. */
  lemma ResolveMatchKeeps(cfg: Config, s: State, t: nat, p: nat, hb: bool)
    requires Inv(cfg, s, hb) && Enabled(cfg, s, ResolveReadC(t, p))
    requires s.mem.cursors[s.threads[t].pc.r][p].val == s.loans[s.threads[t].pc.id].index
    ensures Inv(cfg, DoLoan(cfg, s, ResolveReadC(t, p)), hb)
  {
    hide ReaderInv, ProducerInv, LoanInv, AllAccounted, Distinct, LogOk, Contents, Bounded;
    var pc, v := s.threads[t].pc, s.threads[t].view;
    var next := DoLoan(cfg, s, ResolveReadC(t, p));
    assert ThreadInv(cfg, s, t, hb);
    LoanBound(cfg, s, pc.id, hb);
    JoinGood(cfg, s.mem, v, s.mem.cursors[pc.r][p].view, hb);
    ThreadFrame(cfg, s, next, t, hb);
  }

  /** `LoanNotAtCursor`: nothing is written and the loan lives on. */
  lemma ResolveRejectKeeps(cfg: Config, s: State, t: nat, p: nat, hb: bool)
    requires Inv(cfg, s, hb) && Enabled(cfg, s, ResolveReadC(t, p)) && !s.threads[t].pc.dropping
    requires s.mem.cursors[s.threads[t].pc.r][p].val != s.loans[s.threads[t].pc.id].index
    ensures Inv(cfg, DoLoan(cfg, s, ResolveReadC(t, p)), hb)
  {
    hide ReaderInv, ProducerInv, LoanInv, AllAccounted, Distinct, LogOk, Contents, Bounded;
    var pc, v := s.threads[t].pc, s.threads[t].view;
    var next := DoLoan(cfg, s, ResolveReadC(t, p));
    assert ThreadInv(cfg, s, t, hb);
    JoinGood(cfg, s.mem, v, s.mem.cursors[pc.r][p].view, hb);
    BusyFrame(cfg, s, next, t, pc.id, hb);
  }

  lemma ReleaseKeeps(cfg: Config, s: State, t: nat, hb: bool)
    requires Inv(cfg, s, hb) && Enabled(cfg, s, Release(t))
    ensures Inv(cfg, DoLoan(cfg, s, Release(t)), hb)
  {
    hide MemInv, LoanInv, ProducerInv, ReaderInv, AllAccounted, Distinct, Good;
    var r := s.threads[t].pc.r;
    assert ThreadInv(cfg, s, t, hb);
    NobodyPops(cfg, s, t, hb);
    StepsGate(cfg, s, t, r, Gate(s.mem, r) - 1, hb);
    ThreadFrame(cfg, s, DoLoan(cfg, s, Release(t)), t, hb);
  }

  // ---- the end of a loan -----------------------------------------------------------------

  /** Thread `t` ends loan `id`, knowing `u`, with the cursor where it was. */
  ghost predicate Retires(cfg: Config, s: State, next: State, t: nat, id: nat, u: View, hb: bool) {
    && Formed(cfg, s) && Formed(cfg, next)
    && t < |s.threads| && id in s.loans
    && var l := s.loans[id];
    && (Resolves(s.threads[t].pc, id) || (s.threads[t].pc.Idle? && !l.busy && NoPop(s, l.reader)))
    && Good(cfg, s.mem, u, hb) && l.view.known <= u.known && l.uses.known <= u.known
    && next == Retire(s, t, id, u).(base := s.base[l.reader := next.base[l.reader]])
    && (forall j :: j in s.loans && j != id && s.loans[j].reader == l.reader ==> s.loans[j].index < next.base[l.reader])
    && Consumed(s.mem, l.reader) <= Max(next.base[l.reader], s.popped[l.reader])
  }

  lemma RetireThread(cfg: Config, s: State, next: State, t: nat, id: nat, v: View, u: nat, hb: bool)
    requires Inv(cfg, s, hb) && Retires(cfg, s, next, t, id, v, hb) && u < |s.threads|
    ensures ThreadInv(cfg, next, u, hb)
  {
    hide MemInv, ReaderInv, ProducerInv, LoanInv, Distinct, AllAccounted, Good, Wide, Shape, Join;
    assert ThreadInv(cfg, s, u, hb) && ThreadInv(cfg, s, t, hb);
    if u != t {
      OtherThreads(cfg, s, next, t, u, hb);
    }
  }

  lemma RetireReader(cfg: Config, s: State, next: State, t: nat, id: nat, v: View, r: nat, hb: bool)
    requires Inv(cfg, s, hb) && Retires(cfg, s, next, t, id, v, hb) && r < cfg.readers
    ensures ReaderInv(cfg, next, r, hb)
  {
    hide MemInv, ThreadInv, ProducerInv, LoanInv, Distinct, AllAccounted, LoansOf, GateHolders;
    assert ReaderInv(cfg, s, r, hb);
    GateUpdate(s.threads, t, next.threads[t], r);
    LoansRemoved(s.loans, id, r);
    JoinGood(cfg, s.mem, s.trail[r], v, hb);
  }

  lemma RetireAccounted(cfg: Config, s: State, next: State, t: nat, id: nat, v: View, e: nat)
    requires Inv(cfg, s, true) && Retires(cfg, s, next, t, id, v, true)
    requires e < |s.mem.log| && s.mem.log[e].Read? && s.mem.log[e].reader < cfg.readers
    ensures Accounted(next, e)
  {
    hide MemInv, ThreadInv, ProducerInv, ReaderInv, Distinct, Good;
    assert Accounted(s, e) && LoanInv(cfg, s, id, true);
    assert forall x :: 0 <= x < |s.threads| && x != t ==> next.threads[x] == s.threads[x];
    var a := s.mem.log[e];
    if IsRead(a, s.loans[id].reader, s.loans[id].index) {
      assert e in Join(s.loans[id].view, s.loans[id].uses).known;
      assert e in next.trail[a.reader].known;
    } else if e !in s.trail[a.reader].known
      && (exists j :: j in s.loans && s.loans[j].reader == a.reader && s.loans[j].index == a.index) {
      var j :| j in s.loans && s.loans[j].reader == a.reader && s.loans[j].index == a.index;
      LiveAccounted(next, e, j);
    }
  }

  lemma RetireKeeps(cfg: Config, s: State, next: State, t: nat, id: nat, u: View, hb: bool)
    requires Inv(cfg, s, hb) && Retires(cfg, s, next, t, id, u, hb)
    ensures Inv(cfg, next, hb)
  {
    hide MemInv, ThreadInv, ReaderInv, ProducerInv, LoanInv, Accounted, Good;
    ProducerReads(cfg, s, next, hb);
    forall x | 0 <= x < |next.threads| ensures ThreadInv(cfg, next, x, hb) {
      RetireThread(cfg, s, next, t, id, u, x, hb);
    }
    forall j | j in next.loans ensures LoanInv(cfg, next, j, hb) {
      LoanBound(cfg, s, j, hb);
      LoanKept(cfg, s, next, j, hb);
    }
    forall r | 0 <= r < cfg.readers ensures ReaderInv(cfg, next, r, hb) {
      RetireReader(cfg, s, next, t, id, u, r, hb);
    }
    if hb {
      forall e | 0 <= e < |next.mem.log| && next.mem.log[e].Read? && next.mem.log[e].reader < cfg.readers
        ensures Accounted(next, e)
      {
        RetireAccounted(cfg, s, next, t, id, u, e);
      }
    }
  }

  /** A drop that does not find its loan at the cursor only ends the loan. */
  lemma ResolveDropKeeps(cfg: Config, s: State, t: nat, p: nat, hb: bool)
    requires Inv(cfg, s, hb) && Enabled(cfg, s, ResolveReadC(t, p)) && s.threads[t].pc.dropping
    requires s.mem.cursors[s.threads[t].pc.r][p].val != s.loans[s.threads[t].pc.id].index
    ensures Inv(cfg, DoLoan(cfg, s, ResolveReadC(t, p)), hb)
  {
    hide ProducerInv, LoanInv, AllAccounted, Distinct, LogOk, Contents, Bounded, Good;
    var pc, v := s.threads[t].pc, s.threads[t].view;
    var next := DoLoan(cfg, s, ResolveReadC(t, p));
    assert ThreadInv(cfg, s, t, hb) && ReaderInv(cfg, s, pc.r, hb);
    JoinGood(cfg, s.mem, v, s.mem.cursors[pc.r][p].view, hb);
    forall j | j in s.loans ensures s.loans[j].index < s.base[s.loans[j].reader] {
      LoanBound(cfg, s, j, hb);
    }
    assert s.base[pc.r := s.base[pc.r]] == s.base;
    RetireKeeps(cfg, s, next, t, pc.id, Join(v, s.mem.cursors[pc.r][p].view), hb);
  }

  /** Rewinding the pipeline to the aborted index keeps every other loan below it,
      because the aborted one was the topmost. */
  lemma AbortKeeps(cfg: Config, s: State, t: nat, id: nat, hb: bool)
    requires Inv(cfg, s, hb) && Enabled(cfg, s, Abort(t, id)) && Topmost(s, id)
    ensures Inv(cfg, DoLoan(cfg, s, Abort(t, id)), hb)
  {
    hide MemInv, ProducerInv, LoanInv, AllAccounted, Good;
    var next := DoLoan(cfg, s, Abort(t, id));
    var l := s.loans[id];
    OwnedGood(cfg, s, t, id, hb);
    assert ReaderInv(cfg, s, l.reader, hb);
    LoanBound(cfg, s, id, hb);
    RetireKeeps(cfg, s, next, t, id, Owned(s, t, id), hb);
  }
}
