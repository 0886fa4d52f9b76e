/** The steps of `try_pop` keep the invariant. */
module PopSteps {
  import opened Memory
  import opened Protocol
  import opened Invariant

  lemma PopBeginThread(cfg: Config, s: State, next: State, t: nat, r: nat, hb: bool)
    requires Inv(cfg, s, hb) && Enabled(cfg, s, PopBegin(t, r)) && UpToDate(s, t, r) && Formed(cfg, next)
    requires next == DoPop(cfg, s, PopBegin(t, r))
    ensures ThreadInv(cfg, next, t, hb)
  {
    hide MemInv, LoanInv, ProducerInv, AllAccounted, Distinct, GateHolders, LoansOf;
    assert ThreadInv(cfg, s, t, hb);
  }

  lemma PopBeginKeeps(cfg: Config, s: State, t: nat, r: nat, hb: bool)
    requires Inv(cfg, s, hb) && Enabled(cfg, s, PopBegin(t, r)) && UpToDate(s, t, r)
    ensures Inv(cfg, DoPop(cfg, s, PopBegin(t, r)), hb)
  {
    hide MemInv, LoanInv, ProducerInv, ThreadInv, ReaderInv, AllAccounted, Distinct, GateHolders, LoansOf, Good;
    var next := DoPop(cfg, s, PopBegin(t, r));
    PopBeginThread(cfg, s, next, t, r, hb);
    ThreadFrame(cfg, s, next, t, hb);
  }

  /** A relaxed load of the gate by a popping thread returns its newest value, and that value
      is zero exactly when no loan is live. */
  lemma GateSeen(cfg: Config, s: State, t: nat, d: nat, hb: bool)
    requires Inv(cfg, s, hb) && Enabled(cfg, s, PopCheckGate(t, d))
    ensures var r := s.threads[t].pc.r;
            && d + 1 == |s.mem.gates[r]|
            && s.mem.gates[r][d] == |LoansOf(s.loans, r)|
            && s.threads[t].view.gate[r] == d
  {
    hide MemInv, LoanInv, ProducerInv, AllAccounted, Distinct, Good;
    var r := s.threads[t].pc.r;
    assert ThreadInv(cfg, s, t, hb) && ReaderInv(cfg, s, r, hb);
    NoGateHolders(s.threads, r);
  }

  /** Past the gate the reader has no live loan. */
  lemma PopCheckGateKeeps(cfg: Config, s: State, t: nat, d: nat, hb: bool)
    requires Inv(cfg, s, hb) && Enabled(cfg, s, PopCheckGate(t, d))
    ensures Inv(cfg, DoPop(cfg, s, PopCheckGate(t, d)), hb)
  {
    hide MemInv, LoanInv, ReaderInv, ProducerInv, AllAccounted, Distinct, GateHolders, Good;
    var next := DoPop(cfg, s, PopCheckGate(t, d));
    GateSeen(cfg, s, t, d, hb);
    assert s.threads[t].view.gate[s.threads[t].pc.r := d] == s.threads[t].view.gate;
    assert ThreadInv(cfg, s, t, hb);
    ThreadFrame(cfg, s, next, t, hb);
  }

  lemma PopReadWThread(cfg: Config, s: State, next: State, t: nat, p: nat, hb: bool)
    requires Enabled(cfg, s, PopReadW(t, p)) && Formed(cfg, next)
    requires |next.threads| == |s.threads| && next == DoPop(cfg, s, PopReadW(t, p)) && Inv(cfg, s, hb)
    ensures ThreadInv(cfg, next, t, hb)
  {
    hide LoanInv, ReaderInv, ProducerInv, AllAccounted, Distinct, LogOk, Bounded, Contents;
    var pc, v := s.threads[t].pc, s.threads[t].view;
    var m := s.mem.published[p];
    assert ThreadInv(cfg, s, t, hb);
    JoinGood(cfg, s.mem, v, m.view, hb);
    assert Join(v, m.view).cur[pc.r] == v.cur[pc.r];
  }

  lemma PopReadWKeeps(cfg: Config, s: State, t: nat, p: nat, hb: bool)
    requires Inv(cfg, s, hb) && Enabled(cfg, s, PopReadW(t, p))
    ensures Inv(cfg, DoPop(cfg, s, PopReadW(t, p)), hb)
  {
    hide MemInv, ThreadInv, LoanInv, ReaderInv, ProducerInv, AllAccounted, Distinct, Good;
    var next := DoPop(cfg, s, PopReadW(t, p));
    PopReadWThread(cfg, s, next, t, p, hb);
    ThreadFrame(cfg, s, next, t, hb);
  }

  /** The popping thread loads its own cursor exactly. */
  lemma PopSeesCursor(cfg: Config, s: State, t: nat, p: nat, hb: bool)
    requires Inv(cfg, s, hb) && Enabled(cfg, s, PopReadC(t, p))
    ensures var pc, v := s.threads[t].pc, s.threads[t].view;
            var m := s.mem.cursors[pc.r][p];
            && m.val == p == v.cur[pc.r] == Consumed(s.mem, pc.r) <= pc.w <= v.w
            && Good(cfg, s.mem, Join(v, m.view), hb) && Join(v, m.view).cur[pc.r] == p
            && (p < pc.w ==> p < |s.mem.stream| && |s.mem.stream[p]| == cfg.words)
  {
    hide LoanInv, ReaderInv, ProducerInv, AllAccounted, Distinct, LogOk, Bounded, ClaimInv, ResolveInv;
    assert ThreadInv(cfg, s, t, hb);
    JoinGood(cfg, s.mem, s.threads[t].view, s.mem.cursors[s.threads[t].pc.r][p].view, hb);
  }

  lemma PopReadCKeeps(cfg: Config, s: State, t: nat, p: nat, hb: bool)
    requires Inv(cfg, s, hb) && Enabled(cfg, s, PopReadC(t, p))
    ensures Inv(cfg, DoPop(cfg, s, PopReadC(t, p)), hb)
  {
    hide MemInv, LoanInv, ReaderInv, ProducerInv, AllAccounted, Distinct, Good;
    var pc := s.threads[t].pc;
    var next := DoPop(cfg, s, PopReadC(t, p));
    PopSeesCursor(cfg, s, t, p, hb);
    assert ThreadInv(cfg, s, t, hb);
    if p < pc.w {
      assert s.mem.stream[p][..0] == [];
    }
    ThreadFrame(cfg, s, next, t, hb);
  }

  /** A word read by a pop is the published word, whatever the other threads do. */
  lemma PopReadsPublished(cfg: Config, s: State, t: nat, x: Word, hb: bool)
    requires Inv(cfg, s, hb) && Enabled(cfg, s, PopReadWord(t, x))
    ensures var pc := s.threads[t].pc;
            && pc.c == Consumed(s.mem, pc.r) < Published(s.mem)
            && |pc.buf| < |s.mem.stream[pc.c]| && x == s.mem.stream[pc.c][|pc.buf|]
            && WritesOrdered(cfg, s.mem, s.threads[t].view, pc.c, |pc.buf|)
  {
    var pc := s.threads[t].pc;
    assert ThreadInv(cfg, s, t, hb);
    ReadExact(cfg, s.mem, StageOf(s.prod), hb, s.threads[t].view, pc.r, pc.c, |pc.buf|);
  }

  lemma PopReadWordThread(cfg: Config, s: State, next: State, t: nat, x: Word, hb: bool)
    requires Inv(cfg, s, hb) && Enabled(cfg, s, PopReadWord(t, x))
    requires next == DoPop(cfg, s, PopReadWord(t, x)) && Formed(cfg, next)
    requires forall v :: Good(cfg, s.mem, v, hb) ==> Good(cfg, next.mem, v, hb)
    ensures ThreadInv(cfg, next, t, hb)
  {
    hide LoanInv, ReaderInv, ProducerInv, AllAccounted, Distinct, Histories, LogOk, Bounded, MayRead;
    var pc, v := s.threads[t].pc, s.threads[t].view;
    var k := |pc.buf|;
    assert ThreadInv(cfg, s, t, hb);
    PopReadsPublished(cfg, s, t, x, hb);
    assert next.threads[t] == Thread(PopCopy(pc.r, pc.c, pc.buf + [x]), Learn(v, |s.mem.log|));
    assert Good(cfg, next.mem, v, hb);
    assert s.mem.stream[pc.c][..k + 1] == s.mem.stream[pc.c][..k] + [x];
    assert forall u :: 0 <= u < |s.threads| && u != t ==> next.threads[u] == s.threads[u];
  }

  lemma PopReadWordKeeps(cfg: Config, s: State, t: nat, x: Word, hb: bool)
    requires Inv(cfg, s, hb) && Enabled(cfg, s, PopReadWord(t, x))
    ensures Inv(cfg, DoPop(cfg, s, PopReadWord(t, x)), hb)
  {
    hide MemInv, LoanInv, ReaderInv, ProducerInv, AllAccounted, Distinct, Good, Shape;
    var pc := s.threads[t].pc;
    var next := DoPop(cfg, s, PopReadWord(t, x));
    PopReadsPublished(cfg, s, t, x, hb);
    ReadKeeps(cfg, s.mem, StageOf(s.prod), hb, pc.r, pc.c, |pc.buf|);
    PopReadWordThread(cfg, s, next, t, x, hb);
    forall id | id in s.loans ensures s.loans[id].reader != pc.r {
      assert PopInv(cfg, s, t, hb) by { assert ThreadInv(cfg, s, t, hb); }
      assert id !in LoansOf(s.loans, pc.r);
    }
    assert |s.mem.log| in next.threads[t].view.known;
    ThreadFrame(cfg, s, next, t, hb);
  }

  // ---- len and peek -----------------------------------------------------------------------

  lemma LookReadWThread(cfg: Config, s: State, next: State, t: nat, r: nat, p: nat, hb: bool)
    requires Enabled(cfg, s, LookReadW(t, r, p)) && HandedOver(s, LookReadW(t, r, p)) && Formed(cfg, next)
    requires |next.threads| == |s.threads| && next == DoOther(cfg, s, LookReadW(t, r, p)) && Inv(cfg, s, hb)
    ensures ThreadInv(cfg, next, t, hb)
  {
    hide LoanInv, ReaderInv, ProducerInv, AllAccounted, Distinct, LogOk, Contents;
    var v, m := s.threads[t].view, s.mem.published[p];
    assert ThreadInv(cfg, s, t, hb);
    JoinGood(cfg, s.mem, v, m.view, hb);
    assert Join(v, m.view).cur[r] == v.cur[r] <= v.w <= p;
  }

  lemma LookReadWKeeps(cfg: Config, s: State, t: nat, r: nat, p: nat, hb: bool)
    requires Inv(cfg, s, hb) && Enabled(cfg, s, LookReadW(t, r, p)) && HandedOver(s, LookReadW(t, r, p))
    ensures Inv(cfg, DoOther(cfg, s, LookReadW(t, r, p)), hb)
  {
    hide MemInv, ThreadInv, LoanInv, ReaderInv, ProducerInv, AllAccounted, Distinct, Good;
    var next := DoOther(cfg, s, LookReadW(t, r, p));
    LookReadWThread(cfg, s, next, t, r, p, hb);
    ThreadFrame(cfg, s, next, t, hb);
  }

  lemma LookReadCKeeps(cfg: Config, s: State, t: nat, p: nat, hb: bool)
    requires Inv(cfg, s, hb) && Enabled(cfg, s, LookReadC(t, p))
    ensures Inv(cfg, DoOther(cfg, s, LookReadC(t, p)), hb)
  {
    hide LoanInv, ReaderInv, ProducerInv, AllAccounted, Distinct, LogOk, Contents, Bounded;
    var next := DoOther(cfg, s, LookReadC(t, p));
    assert ThreadInv(cfg, s, t, hb);
    JoinGood(cfg, s.mem, s.threads[t].view, s.mem.cursors[s.threads[t].pc.r][p].view, hb);
    ThreadFrame(cfg, s, next, t, hb);
  }

  /** The application orders thread `t` after an earlier `Post`. */
  lemma FetchKeeps(cfg: Config, s: State, t: nat, k: nat, hb: bool)
    requires Inv(cfg, s, hb) && Enabled(cfg, s, Fetch(t, k))
    ensures Inv(cfg, DoOther(cfg, s, Fetch(t, k)), hb)
  {
    hide MemInv, LoanInv, ReaderInv, ProducerInv, AllAccounted, Distinct;
    var next := DoOther(cfg, s, Fetch(t, k));
    assert ThreadInv(cfg, s, t, hb);
    JoinGood(cfg, s.mem, s.threads[t].view, s.posts[k], hb);
    ThreadFrame(cfg, s, next, t, hb);
  }
}
