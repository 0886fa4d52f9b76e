/** The two release stores that move a cursor, at the end of `try_pop` and in `commit`
    or `drop`, keep the invariant. */
module AdvanceSteps {
  import opened Memory
  import opened Protocol
  import opened Invariant
  import opened ClaimSteps
  import opened LoanSteps

  /** Thread `t` stores the next cursor of reader `r`: it has seen the present one, nobody
      else can move it, and no live loan is at it. */
  ghost predicate Advances(cfg: Config, s: State, next: State, t: nat, r: nat, hb: bool) {
    && Formed(cfg, s) && Formed(cfg, next) && t < |s.threads| == |next.threads| && r < cfg.readers
    && var pc, v := s.threads[t].pc, s.threads[t].view;
    && var c := Consumed(s.mem, r);
    && var u := v.(cur := v.cur[r := c + 1]);
    && v.cur[r] == c < Published(s.mem) && c < v.w
    && next.mem == StoreCursor(s.mem, r, c + 1, u)
    && next == s.(mem := next.mem, threads := s.threads[t := next.threads[t]], popped := next.popped,
                  trail := s.trail[r := next.trail[r]], taken := s.taken[r := s.taken[r] + [s.mem.stream[c]]])
    && next.threads[t].view == u
    && ((Pops(pc, r) && pc.PopCopy? && next.threads[t].pc.Idle? && next.popped == s.popped[r := c + 1])
        || (pc == ReleaseGate(r) && next.threads[t].pc == pc && next.popped == s.popped && c < s.base[r]))
    && (forall x :: 0 <= x < |s.threads| && x != t ==> !Pops(s.threads[x].pc, r))
    && (forall id :: id in s.loans && s.loans[id].reader == r ==> s.loans[id].index != c)
    && |next.trail[r].cur| == cfg.readers && next.trail[r].cur[r] == c + 1 <= next.trail[r].w
    && s.trail[r].known <= next.trail[r].known && v.known <= next.trail[r].known
    && (hb ==> KnowsReads(s.mem, v, r, c))
  }

  lemma AdvanceProducer(cfg: Config, s: State, next: State, t: nat, r: nat, hb: bool)
    requires Inv(cfg, s, hb) && Advances(cfg, s, next, t, r, hb)
    requires forall v :: Good(cfg, s.mem, v, hb) ==> Good(cfg, next.mem, v, hb)
    ensures ProducerInv(cfg, next, hb)
  {
    hide MemInv, ThreadInv, LoanInv, ReaderInv, Distinct, AllAccounted, Good;
  }

  lemma AdvancePop(cfg: Config, s: State, next: State, t: nat, r: nat, u: nat, hb: bool)
    requires Inv(cfg, s, hb) && Advances(cfg, s, next, t, r, hb) && u < |s.threads|
    ensures PopInv(cfg, next, u, hb) && ClaimInv(cfg, next, u)
  {
    hide MemInv, ProducerInv, LoanInv, ReaderInv, Distinct, AllAccounted, Good, LoansOf, ResolveInv;
    assert ThreadInv(cfg, s, u, hb) && ThreadInv(cfg, s, t, hb);
    assert forall x :: 0 <= x < |s.threads| && x != t ==> next.threads[x] == s.threads[x];
    assert forall x :: 0 <= x < cfg.readers && x != r ==> next.mem.cursors[x] == s.mem.cursors[x];
  }

  lemma AdvanceResolve(cfg: Config, s: State, next: State, t: nat, r: nat, u: nat, hb: bool)
    requires Inv(cfg, s, hb) && Advances(cfg, s, next, t, r, hb) && u < |s.threads|
    ensures ResolveInv(cfg, next, u)
  {
    hide MemInv, ProducerInv, LoanInv, ReaderInv, Distinct, AllAccounted, Good, LoansOf, PopInv, ClaimInv;
    assert ThreadInv(cfg, s, u, hb);
    assert forall x :: 0 <= x < |s.threads| && x != t ==> next.threads[x] == s.threads[x];
  }

  lemma AdvanceThread(cfg: Config, s: State, next: State, t: nat, r: nat, u: nat, hb: bool)
    requires Inv(cfg, s, hb) && Advances(cfg, s, next, t, r, hb) && u < |s.threads|
    requires forall v :: Good(cfg, s.mem, v, hb) ==> Good(cfg, next.mem, v, hb)
    requires Good(cfg, next.mem, next.threads[t].view, hb)
    ensures ThreadInv(cfg, next, u, hb)
  {
    hide MemInv, ProducerInv, LoanInv, ReaderInv, Distinct, AllAccounted, Good, LoansOf, PopInv, ClaimInv, ResolveInv;
    assert ThreadInv(cfg, s, u, hb);
    AdvancePop(cfg, s, next, t, r, u, hb);
    AdvanceResolve(cfg, s, next, t, r, u, hb);
  }

  lemma AdvanceLoan(cfg: Config, s: State, next: State, t: nat, r: nat, id: nat, hb: bool)
    requires Inv(cfg, s, hb) && Advances(cfg, s, next, t, r, hb) && id in s.loans
    requires forall v :: Good(cfg, s.mem, v, hb) ==> Good(cfg, next.mem, v, hb)
    ensures LoanInv(cfg, next, id, hb)
  {
    hide MemInv, ProducerInv, ThreadInv, ReaderInv, Distinct, AllAccounted, Good;
    assert LoanInv(cfg, s, id, hb);
  }

  lemma AdvanceReader(cfg: Config, s: State, next: State, t: nat, r: nat, x: nat, hb: bool)
    requires Inv(cfg, s, hb) && Advances(cfg, s, next, t, r, hb) && x < cfg.readers
    requires forall v :: Good(cfg, s.mem, v, hb) ==> Good(cfg, next.mem, v, hb)
    requires Good(cfg, next.mem, next.threads[t].view, hb) && Good(cfg, next.mem, next.trail[r], hb)
    ensures ReaderInv(cfg, next, x, hb)
  {
    hide MemInv, ProducerInv, ThreadInv, LoanInv, Distinct, AllAccounted, Good;
    assert ReaderInv(cfg, s, x, hb);
    GateUpdate(s.threads, t, next.threads[t], x);
    if x == r {
      var c := Consumed(s.mem, r);
      assert s.mem.stream[..c + 1] == s.mem.stream[..c] + [s.mem.stream[c]];
    }
  }

  lemma AdvanceAccounted(cfg: Config, s: State, next: State, t: nat, r: nat, e: nat)
    requires Inv(cfg, s, true) && Advances(cfg, s, next, t, r, true)
    requires e < |s.mem.log| && s.mem.log[e].Read? && s.mem.log[e].reader < cfg.readers
    ensures Accounted(next, e)
  {
    hide MemInv, ProducerInv, ThreadInv, LoanInv, ReaderInv, Distinct, Good;
    assert Accounted(s, e);
    assert forall x :: 0 <= x < |s.threads| && x != t ==> next.threads[x] == s.threads[x];
  }

  lemma AdvanceMem(cfg: Config, s: State, next: State, t: nat, r: nat, hb: bool)
    requires Inv(cfg, s, hb) && Advances(cfg, s, next, t, r, hb)
    ensures MemInv(cfg, next.mem, StageOf(s.prod), hb)
    ensures forall v :: Good(cfg, s.mem, v, hb) ==> Good(cfg, next.mem, v, hb)
    ensures Good(cfg, next.mem, next.threads[t].view, hb)
  {
    hide MemInv, ProducerInv, LoanInv, ReaderInv, Distinct, AllAccounted, Good;
    assert ThreadInv(cfg, s, t, hb);
    AdvanceKeeps(cfg, s.mem, StageOf(s.prod), hb, r, s.threads[t].view);
  }

  lemma AdvancesKeeps(cfg: Config, s: State, next: State, t: nat, r: nat, hb: bool)
    requires Inv(cfg, s, hb) && Advances(cfg, s, next, t, r, hb)
    requires Good(cfg, next.mem, next.trail[r], hb)
    ensures Inv(cfg, next, hb)
  {
    hide MemInv, ProducerInv, ThreadInv, LoanInv, ReaderInv, Accounted, Good;
    AdvanceMem(cfg, s, next, t, r, hb);
    AdvanceProducer(cfg, s, next, t, r, hb);
    forall u | 0 <= u < |next.threads| ensures ThreadInv(cfg, next, u, hb) {
      AdvanceThread(cfg, s, next, t, r, u, hb);
    }
    forall id | id in next.loans ensures LoanInv(cfg, next, id, hb) {
      AdvanceLoan(cfg, s, next, t, r, id, hb);
    }
    forall x | 0 <= x < cfg.readers ensures ReaderInv(cfg, next, x, hb) {
      AdvanceReader(cfg, s, next, t, r, x, hb);
    }
    if hb {
      forall e | 0 <= e < |next.mem.log| && next.mem.log[e].Read? && next.mem.log[e].reader < cfg.readers
        ensures Accounted(next, e)
      {
        AdvanceAccounted(cfg, s, next, t, r, e);
      }
    }
  }

  /** The popping thread knows every read of the record at the cursor. */
  lemma PopKnowsReads(cfg: Config, s: State, t: nat)
    requires Inv(cfg, s, true) && t < |s.threads| && s.threads[t].pc.PopCopy?
    ensures KnowsReads(s.mem, s.threads[t].view, s.threads[t].pc.r, s.threads[t].pc.c)
  {
    hide MemInv, ProducerInv, LoanInv, ReaderInv, Distinct, Good;
    var pc := s.threads[t].pc;
    assert ThreadInv(cfg, s, t, true);
    forall e | 0 <= e < |s.mem.log| && IsRead(s.mem.log[e], pc.r, pc.c) ensures e in s.threads[t].view.known {
      assert Accounted(s, e);
      forall id | id in s.loans ensures s.loans[id].reader != pc.r {
        assert id !in LoansOf(s.loans, pc.r);
      }
    }
  }

  /** A pop returns exactly the record at its cursor and moves the cursor by one. */
  lemma PopStoreExact(cfg: Config, s: State, t: nat, hb: bool)
    requires Inv(cfg, s, hb) && Enabled(cfg, s, PopStore(t))
    ensures var pc := s.threads[t].pc;
            && pc.c == Consumed(s.mem, pc.r) < Published(s.mem)
            && pc.buf == s.mem.stream[pc.c]
            && s.threads[t].view.cur[pc.r] == pc.c < s.threads[t].view.w
  {
    hide MemInv, ProducerInv, LoanInv, ReaderInv, Distinct, AllAccounted, Good;
    var pc := s.threads[t].pc;
    assert ThreadInv(cfg, s, t, hb);
    assert s.mem.stream[pc.c][..|pc.buf|] == s.mem.stream[pc.c];
  }

  lemma PopStoreKeeps(cfg: Config, s: State, t: nat, hb: bool)
    requires Inv(cfg, s, hb) && Enabled(cfg, s, PopStore(t))
    ensures Inv(cfg, DoPop(cfg, s, PopStore(t)), hb)
  {
    hide MemInv, ProducerInv, LoanInv, Distinct, AllAccounted, Good, GateHolders;
    var pc := s.threads[t].pc;
    var next := DoPop(cfg, s, PopStore(t));
    PopStoreExact(cfg, s, t, hb);
    assert ThreadInv(cfg, s, t, hb) && ReaderInv(cfg, s, pc.r, hb);
    if hb {
      PopKnowsReads(cfg, s, t);
    }
    forall id | id in s.loans ensures s.loans[id].reader != pc.r {
      assert id !in LoansOf(s.loans, pc.r);
    }
    assert Advances(cfg, s, next, t, pc.r, hb);
    AdvanceMem(cfg, s, next, t, pc.r, hb);
    assert Good(cfg, next.mem, s.trail[pc.r], hb);
    JoinGood(cfg, next.mem, s.trail[pc.r], next.threads[t].view, hb);
    AdvancesKeeps(cfg, s, next, t, pc.r, hb);
  }

  /** A commit releases exactly the record at the cursor, which its slot still holds. */
  lemma CommitExact(cfg: Config, s: State, t: nat, hb: bool)
    requires Inv(cfg, s, hb) && Enabled(cfg, s, ResolveWriteC(t))
    ensures var pc := s.threads[t].pc;
            var l := s.loans[pc.id];
            && l.reader == pc.r && l.index == Consumed(s.mem, pc.r) < Published(s.mem)
            && s.mem.slots[Slot(cfg, l.index)] == s.mem.stream[l.index]
            && s.threads[t].view.cur[pc.r] == l.index < s.threads[t].view.w
  {
    hide ProducerInv, ReaderInv, Distinct, AllAccounted;
    var pc := s.threads[t].pc;
    assert ThreadInv(cfg, s, t, hb) && LoanInv(cfg, s, pc.id, hb);
    ReadExact(cfg, s.mem, StageOf(s.prod), hb, s.threads[t].view, pc.r, s.loans[pc.id].index, 0);
  }

  /** The committing thread knows every read of the record it releases. */
  lemma CommitKnowsReads(cfg: Config, s: State, t: nat)
    requires Inv(cfg, s, true) && Enabled(cfg, s, ResolveWriteC(t))
    ensures var pc := s.threads[t].pc;
            KnowsReads(s.mem, s.threads[t].view, pc.r, s.loans[pc.id].index)
  {
    hide MemInv, ProducerInv, ReaderInv, Distinct, AllAccounted, Good;
    var pc := s.threads[t].pc;
    assert ThreadInv(cfg, s, t, true) && LoanInv(cfg, s, pc.id, true);
    var l := s.loans[pc.id];
    forall e | 0 <= e < |s.mem.log| && IsRead(s.mem.log[e], pc.r, l.index) ensures e in s.threads[t].view.known {
      assert e in Join(l.view, l.uses).known;
    }
  }

  /** Seen from the rest of the system, a commit first ends its loan and then, alone at
      the cursor, moves it. */
  lemma CommitRetires(cfg: Config, s: State, mid: State, t: nat, hb: bool)
    requires Inv(cfg, s, hb) && Enabled(cfg, s, ResolveWriteC(t))
    requires mid == Retire(s, t, s.threads[t].pc.id, s.threads[t].view)
    ensures Inv(cfg, mid, hb)
  {
    hide MemInv, ProducerInv, LoanInv, Distinct, AllAccounted, Good, PopInv;
    var pc := s.threads[t].pc;
    assert ThreadInv(cfg, s, t, hb) && ReaderInv(cfg, s, pc.r, hb);
    forall j | j in s.loans ensures s.loans[j].index < s.base[s.loans[j].reader] {
      LoanBound(cfg, s, j, hb);
    }
    assert s.base[pc.r := s.base[pc.r]] == s.base;
    RetireKeeps(cfg, s, mid, t, pc.id, s.threads[t].view, hb);
  }

  /** The state after the store, seen from the state with the loan ended. */
  lemma CommitState(cfg: Config, s: State, mid: State, next: State, t: nat)
    requires Formed(cfg, s) && Enabled(cfg, s, ResolveWriteC(t)) && s.threads[t].pc.id in s.loans
    requires s.loans[s.threads[t].pc.id].reader == s.threads[t].pc.r
    requires mid == Retire(s, t, s.threads[t].pc.id, s.threads[t].view)
    requires next == DoLoan(cfg, s, ResolveWriteC(t))
    ensures var r := s.threads[t].pc.r;
            && |next.threads| == |mid.threads| && |next.trail| == |mid.trail|
            && mid.threads[t := next.threads[t]] == next.threads
            && mid.trail[r := next.trail[r]] == next.trail
            && mid.mem == s.mem && mid.popped == s.popped && mid.base == s.base && mid.taken == s.taken
            && next == mid.(mem := next.mem, threads := next.threads, trail := next.trail, taken := next.taken)
  {
    hide Join, Shape, Quiet, NoPop;
  }

  lemma CommitAdvances(cfg: Config, s: State, mid: State, next: State, t: nat, hb: bool)
    requires Inv(cfg, s, hb) && Enabled(cfg, s, ResolveWriteC(t))
    requires mid == Retire(s, t, s.threads[t].pc.id, s.threads[t].view) && Formed(cfg, mid)
    requires next == DoLoan(cfg, s, ResolveWriteC(t)) && Formed(cfg, next)
    ensures Advances(cfg, mid, next, t, s.threads[t].pc.r, hb)
  {
    hide MemInv, ProducerInv, LoanInv, ThreadInv, AllAccounted, Good, GateHolders, LoansOf;
    var pc := s.threads[t].pc;
    CommitExact(cfg, s, t, hb);
    LoanBound(cfg, s, pc.id, hb);
    if hb {
      CommitKnowsReads(cfg, s, t);
    }
    assert ReaderInv(cfg, s, pc.r, hb);
    NobodyPops(cfg, s, t, hb);
    CommitState(cfg, s, mid, next, t);
  }

  lemma CommitKeeps(cfg: Config, s: State, t: nat, hb: bool)
    requires Inv(cfg, s, hb) && Enabled(cfg, s, ResolveWriteC(t))
    ensures Inv(cfg, DoLoan(cfg, s, ResolveWriteC(t)), hb)
  {
    hide MemInv, ProducerInv, LoanInv, Distinct, AllAccounted, Good, ThreadInv;
    var pc, v := s.threads[t].pc, s.threads[t].view;
    var mid := Retire(s, t, pc.id, v);
    var next := DoLoan(cfg, s, ResolveWriteC(t));
    CommitRetires(cfg, s, mid, t, hb);
    CommitAdvances(cfg, s, mid, next, t, hb);
    AdvanceMem(cfg, mid, next, t, pc.r, hb);
    assert ReaderInv(cfg, s, pc.r, hb);
    JoinGood(cfg, next.mem, s.trail[pc.r], next.threads[t].view, hb);
    AdvancesKeeps(cfg, mid, next, t, pc.r, hb);
  }
}
