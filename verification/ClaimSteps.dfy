/** The steps of `claim` keep the invariant. */
module ClaimSteps {
  import opened Common
  import opened Memory
  import opened Protocol
  import opened Invariant

  /** Nobody pops for, or looks at, a reader that another operation is under way on. */
  lemma NobodyPops(cfg: Config, s: State, t: nat, hb: bool)
    requires Inv(cfg, s, hb) && t < |s.threads|
    requires !s.threads[t].pc.Idle? && !Pops(s.threads[t].pc, s.threads[t].pc.r)
    ensures NoPop(s, s.threads[t].pc.r)
  {
    hide MemInv, ProducerInv, LoanInv, ReaderInv, Distinct, AllAccounted, Good;
    forall x | 0 <= x < |s.threads| ensures !Pops(s.threads[x].pc, s.threads[t].pc.r) {
      assert ThreadInv(cfg, s, x, hb);
    }
  }

  /** A thread that steps a gate stays good, and so does everything else. */
  lemma StepsGate(cfg: Config, s: State, t: nat, r: nat, d: int, hb: bool)
    requires Inv(cfg, s, hb) && t < |s.threads| && r < cfg.readers
    ensures var next := StepGate(s.mem, r, d);
            && MemInv(cfg, next, StageOf(s.prod), hb)
            && OnlyReads(cfg, s.mem, next, hb)
            && Good(cfg, next, AtGate(s, s.threads[t].view, r), hb)
  {
    hide ProducerInv, LoanInv, ReaderInv, Distinct, AllAccounted, PopInv, ClaimInv, ResolveInv, MemInv;
    GateKeeps(cfg, s.mem, StageOf(s.prod), hb, r, d);
    assert ThreadInv(cfg, s, t, hb);
    assert Good(cfg, StepGate(s.mem, r, d), s.threads[t].view, hb);
  }

  lemma ClaimBeginKeeps(cfg: Config, s: State, t: nat, r: nat, hb: bool)
    requires Inv(cfg, s, hb) && Enabled(cfg, s, ClaimBegin(t, r)) && HandedOver(s, ClaimBegin(t, r))
    ensures Inv(cfg, DoClaim(cfg, s, ClaimBegin(t, r)), hb)
  {
    hide MemInv, LoanInv, ReaderInv, ProducerInv, AllAccounted, Distinct, Good, Join;
    var next := DoClaim(cfg, s, ClaimBegin(t, r));
    assert ThreadInv(cfg, s, t, hb);
    StepsGate(cfg, s, t, r, Gate(s.mem, r) + 1, hb);
    ThreadFrame(cfg, s, next, t, hb);
  }

  lemma ClaimReadWKeeps(cfg: Config, s: State, t: nat, p: nat, hb: bool)
    requires Inv(cfg, s, hb) && Enabled(cfg, s, ClaimReadW(t, p))
    ensures Inv(cfg, DoClaim(cfg, s, ClaimReadW(t, p)), hb)
  {
    hide LoanInv, ReaderInv, ProducerInv, AllAccounted, Distinct;
    var next := DoClaim(cfg, s, ClaimReadW(t, p));
    assert ThreadInv(cfg, s, t, hb);
    JoinGood(cfg, s.mem, s.threads[t].view, s.mem.published[p].view, hb);
    ThreadFrame(cfg, s, next, t, hb);
  }

  lemma ClaimReadCKeeps(cfg: Config, s: State, t: nat, p: nat, hb: bool)
    requires Inv(cfg, s, hb) && Enabled(cfg, s, ClaimReadC(t, p))
    ensures Inv(cfg, DoClaim(cfg, s, ClaimReadC(t, p)), hb)
  {
    hide LoanInv, ReaderInv, ProducerInv, AllAccounted, Distinct;
    var next := DoClaim(cfg, s, ClaimReadC(t, p));
    assert ThreadInv(cfg, s, t, hb);
    JoinGood(cfg, s.mem, s.threads[t].view, s.mem.cursors[s.threads[t].pc.r][p].view, hb);
    ThreadFrame(cfg, s, next, t, hb);
  }

  lemma ClaimReadBKeeps(cfg: Config, s: State, t: nat, b: nat, hb: bool)
    requires Inv(cfg, s, hb) && Enabled(cfg, s, ClaimReadB(t, b))
    ensures Inv(cfg, DoClaim(cfg, s, ClaimReadB(t, b)), hb)
  {
    hide MemInv, LoanInv, ProducerInv, AllAccounted, Distinct;
    var next := DoClaim(cfg, s, ClaimReadB(t, b));
    assert ThreadInv(cfg, s, t, hb);
    ThreadFrame(cfg, s, next, t, hb);
  }

  lemma ClaimFailKeeps(cfg: Config, s: State, t: nat, hb: bool)
    requires Inv(cfg, s, hb) && Enabled(cfg, s, ClaimFail(t))
    ensures Inv(cfg, DoClaim(cfg, s, ClaimFail(t)), hb)
  {
    hide MemInv, LoanInv, ReaderInv, ProducerInv, AllAccounted, Distinct, Good;
    var next := DoClaim(cfg, s, ClaimFail(t));
    var r := s.threads[t].pc.r;
    assert ThreadInv(cfg, s, t, hb);
    NobodyPops(cfg, s, t, hb);
    StepsGate(cfg, s, t, r, Gate(s.mem, r) - 1, hb);
    ThreadFrame(cfg, s, next, t, hb);
  }

  /** A compare-and-swap that loses, or fails spuriously, changes nothing. */
  lemma ClaimLostKeeps(cfg: Config, s: State, t: nat, spurious: bool, hb: bool)
    requires Inv(cfg, s, hb) && Enabled(cfg, s, ClaimTry(t, spurious))
    requires spurious || s.base[s.threads[t].pc.r] != s.threads[t].pc.b
    ensures Inv(cfg, DoClaim(cfg, s, ClaimTry(t, spurious)), hb)
  {
    hide MemInv, LoanInv, ProducerInv, AllAccounted, Distinct;
    var next := DoClaim(cfg, s, ClaimTry(t, spurious));
    assert ThreadInv(cfg, s, t, hb);
    ThreadFrame(cfg, s, next, t, hb);
  }

  /** No ABA: whatever was loaded when, a winning compare-and-swap hands out an index the
      cursor has not passed and no live loan holds. */
  lemma ClaimWins(cfg: Config, s: State, t: nat, hb: bool)
    requires Inv(cfg, s, hb) && Enabled(cfg, s, ClaimTry(t, false))
    requires s.base[s.threads[t].pc.r] == s.threads[t].pc.b
    ensures var pc := s.threads[t].pc;
            var index := Max(pc.b, pc.c);
            && Consumed(s.mem, pc.r) <= index < s.threads[t].view.w
            && forall id :: id in s.loans && s.loans[id].reader == pc.r ==> s.loans[id].index < index
  {
    var pc := s.threads[t].pc;
    assert ThreadInv(cfg, s, t, hb) && ReaderInv(cfg, s, pc.r, hb);
    forall id | id in s.loans && s.loans[id].reader == pc.r ensures s.loans[id].index < Max(pc.b, pc.c) {
      assert LoanInv(cfg, s, id, hb);
    }
  }

  lemma LoanIds(cfg: Config, s: State, hb: bool)
    requires Inv(cfg, s, hb)
    ensures s.issued !in s.loans
    ensures forall id :: id in s.loans ==> s.loans[id].index < s.base[s.loans[id].reader]
  {
    hide MemInv, ReaderInv, ThreadInv, ProducerInv, Distinct, AllAccounted;
    forall id | id in s.loans ensures id < s.issued && s.loans[id].index < s.base[s.loans[id].reader] {
      assert LoanInv(cfg, s, id, hb);
    }
  }

  lemma WonLoan(cfg: Config, s: State, next: State, t: nat, id: nat, hb: bool)
    requires Inv(cfg, s, hb) && Enabled(cfg, s, ClaimTry(t, false)) && Formed(cfg, next)
    requires s.base[s.threads[t].pc.r] == s.threads[t].pc.b
    requires hb ==> Ordered(s, ClaimTry(t, false))
    requires next == DoClaim(cfg, s, ClaimTry(t, false)) && id in next.loans
    ensures LoanInv(cfg, next, id, hb)
  {
    hide MemInv, ReaderInv, ProducerInv, Distinct, AllAccounted, Good, Wide, Shape;
    ClaimWins(cfg, s, t, hb);
    if id == s.issued {
      assert ThreadInv(cfg, s, t, hb);
    } else {
      assert LoanInv(cfg, s, id, hb);
      LoanKept(cfg, s, next, id, hb);
    }
  }

  lemma WonThread(cfg: Config, s: State, next: State, t: nat, u: nat, hb: bool)
    requires Inv(cfg, s, hb) && Enabled(cfg, s, ClaimTry(t, false)) && Formed(cfg, next)
    requires s.base[s.threads[t].pc.r] == s.threads[t].pc.b && u < |s.threads|
    requires next == DoClaim(cfg, s, ClaimTry(t, false))
    ensures ThreadInv(cfg, next, u, hb)
  {
    hide MemInv, ReaderInv, ProducerInv, Distinct, AllAccounted, LoanInv, Good, Wide, Shape, Join;
    assert ThreadInv(cfg, s, u, hb);
    LoanIds(cfg, s, hb);
    if u != t {
      assert forall r :: r != s.threads[t].pc.r ==> LoansOf(next.loans, r) == LoansOf(s.loans, r);
      OtherThreads(cfg, s, next, t, u, hb);
    }
  }

  lemma WonReader(cfg: Config, s: State, next: State, t: nat, r: nat, hb: bool)
    requires Inv(cfg, s, hb) && Enabled(cfg, s, ClaimTry(t, false)) && Formed(cfg, next)
    requires s.base[s.threads[t].pc.r] == s.threads[t].pc.b && r < cfg.readers
    requires next == DoClaim(cfg, s, ClaimTry(t, false))
    ensures ReaderInv(cfg, next, r, hb)
  {
    hide MemInv, LoanInv, ThreadInv, ProducerInv, Distinct, AllAccounted, Good, LoansOf, GateHolders;
    assert ReaderInv(cfg, s, r, hb);
    LoanIds(cfg, s, hb);
    GateUpdate(s.threads, t, next.threads[t], r);
    LoansAdded(s.loans, s.issued, next.loans[s.issued], r);
  }

  lemma ClaimWonKeeps(cfg: Config, s: State, t: nat, hb: bool)
    requires Inv(cfg, s, hb) && Enabled(cfg, s, ClaimTry(t, false))
    requires s.base[s.threads[t].pc.r] == s.threads[t].pc.b
    requires hb ==> Ordered(s, ClaimTry(t, false))
    ensures Inv(cfg, DoClaim(cfg, s, ClaimTry(t, false)), hb)
  {
    hide MemInv, LoanInv, ThreadInv, ReaderInv, ProducerInv, Accounted, Good, Wide, Shape;
    var next := DoClaim(cfg, s, ClaimTry(t, false));
    ClaimWins(cfg, s, t, hb);
    LoanIds(cfg, s, hb);
    ProducerReads(cfg, s, next, hb);
    forall u | 0 <= u < |next.threads| ensures ThreadInv(cfg, next, u, hb) {
      WonThread(cfg, s, next, t, u, hb);
    }
    forall id | id in next.loans ensures LoanInv(cfg, next, id, hb) {
      WonLoan(cfg, s, next, t, id, hb);
    }
    forall r | 0 <= r < cfg.readers ensures ReaderInv(cfg, next, r, hb) {
      WonReader(cfg, s, next, t, r, hb);
    }
    if hb {
      forall e | 0 <= e < |next.mem.log| && next.mem.log[e].Read? && next.mem.log[e].reader < cfg.readers
        ensures Accounted(next, e)
      {
        StillAccounted(cfg, s, next, t, e);
      }
    }
  }
}
