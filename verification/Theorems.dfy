/** What the protocol guarantees in every reachable state, for every capacity, reader
    count, record size, number of threads and interleaving, under acquire/release only. */
module Theorems {
  import opened Common
  import opened Memory
  import opened Protocol
  import opened Invariant
  import opened PopSteps
  import opened LoanSteps
  import opened AdvanceSteps
  import opened ClaimSteps
  import opened Runs

  // ---- consumption ------------------------------------------------------------------------

  /** Exactly once and in order: what a reader has consumed, by pops and resolved loans
      on any threads, is the stream up to its cursor. */
  lemma ConsumedIsStream(cfg: Config, n: nat, s: State, r: nat)
    requires Reachable(cfg, n, s, false) && r < cfg.readers
    ensures |s.mem.cursors| == cfg.readers == |s.taken| && |s.mem.cursors[r]| >= 1
    ensures Consumed(s.mem, r) <= Published(s.mem)
    ensures s.taken[r] == s.mem.stream[..Consumed(s.mem, r)]
  {
    hide MemInv, ProducerInv, LoanInv, Distinct, AllAccounted, Good, ThreadInv, Reachable;
    ReachableInv(cfg, n, s, false);
    assert ReaderInv(cfg, s, r, false);
  }

  /** A pop that completes returns `stream[c]`, with `c` the number of records its reader
      consumed before; the cursor it stores is the next one, at the newest position. */
  lemma PopReturnsNext(cfg: Config, n: nat, s: State, t: nat)
    requires Reachable(cfg, n, s, false) && Enabled(cfg, s, PopStore(t))
    ensures var pc := s.threads[t].pc;
            && pc.c == |s.taken[pc.r]| < Published(s.mem)
            && pc.buf == s.mem.stream[pc.c]
            && s.threads[t].view.cur[pc.r] == Consumed(s.mem, pc.r)
            && Apply(cfg, s, PopStore(t)).mem.cursors[pc.r][Consumed(s.mem, pc.r) + 1].val == Consumed(s.mem, pc.r) + 1
  {
    hide MemInv, ProducerInv, LoanInv, Distinct, AllAccounted, Good, ThreadInv, Reachable;
    ReachableInv(cfg, n, s, false);
    assert ReaderInv(cfg, s, s.threads[t].pc.r, false);
    PopStoreExact(cfg, s, t, false);
  }

  /** Between the check and the store of a commit nothing moves the cursor: the store is
      by exactly one, from the newest value, and the slot holds the record it releases. */
  lemma CommitMovesCursorByOne(cfg: Config, n: nat, s: State, t: nat)
    requires Reachable(cfg, n, s, false) && Enabled(cfg, s, ResolveWriteC(t))
    ensures var pc := s.threads[t].pc;
            var c := Consumed(s.mem, pc.r);
            && s.loans[pc.id].index == c == s.threads[t].view.cur[pc.r] < Published(s.mem)
            && s.mem.slots[Slot(cfg, c)] == s.mem.stream[c]
            && Apply(cfg, s, ResolveWriteC(t)).mem.cursors[pc.r][c + 1].val == c + 1
  {
    hide MemInv, ProducerInv, LoanInv, Distinct, AllAccounted, Good, ThreadInv, Reachable;
    ReachableInv(cfg, n, s, false);
    CommitExact(cfg, s, t, false);
  }

  // ---- loans ------------------------------------------------------------------------------

  /** A live loan is pinned and its slot holds its record; live loans of a reader differ. */
  lemma LoanPinned(cfg: Config, n: nat, s: State, id: nat)
    requires Reachable(cfg, n, s, false) && id in s.loans
    ensures Formed(cfg, s)
    ensures var l := s.loans[id];
            && Consumed(s.mem, l.reader) <= l.index < Published(s.mem)
            && s.mem.slots[Slot(cfg, l.index)] == s.mem.stream[l.index]
            && forall j :: j in s.loans && j != id && s.loans[j].reader == l.reader ==> s.loans[j].index != l.index
  {
    hide Reachable, AllAccounted;
    ReachableInv(cfg, n, s, false);
    var l := s.loans[id];
    assert LoanInv(cfg, s, id, false);
    ReadExact(cfg, s.mem, StageOf(s.prod), false, l.view, l.reader, l.index, 0);
  }

  /** Dereferencing a loan yields the published word whatever other threads are doing. */
  lemma DerefReturnsRecord(cfg: Config, n: nat, s: State, t: nat, id: nat, k: nat, x: Word)
    requires Reachable(cfg, n, s, false) && Enabled(cfg, s, Deref(t, id, k, x))
    ensures s.loans[id].index < Published(s.mem)
    ensures k < |s.mem.stream[s.loans[id].index]| && x == s.mem.stream[s.loans[id].index][k]
  {
    hide Reachable, AllAccounted;
    ReachableInv(cfg, n, s, false);
    DerefReadsPublished(cfg, s, t, id, k, x, false);
  }

  /** A winning claim takes an index the cursor has not passed and nobody holds, although
      `write_idx`, the cursor and `claim_base` were loaded at different times. */
  lemma ClaimImmuneToAba(cfg: Config, n: nat, s: State, t: nat)
    requires Reachable(cfg, n, s, false) && Enabled(cfg, s, ClaimTry(t, false))
    requires s.base[s.threads[t].pc.r] == s.threads[t].pc.b
    ensures var pc := s.threads[t].pc;
            var index := Max(pc.b, pc.c);
            && Consumed(s.mem, pc.r) <= index < Published(s.mem)
            && forall id :: id in s.loans && s.loans[id].reader == pc.r ==> s.loans[id].index < index
  {
    hide Reachable, AllAccounted;
    ReachableInv(cfg, n, s, false);
    ClaimWins(cfg, s, t, false);
    assert ThreadInv(cfg, s, t, false);
  }

  lemma {:induction false} IndicesCount(loans: map<nat, Loan>, ids: set<nat>, lo: nat, hi: nat)
    requires lo <= hi && forall i :: i in ids ==> i in loans && lo <= loans[i].index < hi
    requires forall i, j :: i in ids && j in ids && i != j ==> loans[i].index != loans[j].index
    ensures |ids| <= hi - lo
    decreases hi - lo
  {
    if lo == hi {
      assert forall i :: i !in ids;
    } else if i :| i in ids && loans[i].index == hi - 1 {
      IndicesCount(loans, ids - {i}, lo, hi - 1);
    } else {
      IndicesCount(loans, ids, lo, hi - 1);
    }
  }

  /** At most `capacity` loans of one reader are live at once. */
  lemma AtMostCapacityLoans(cfg: Config, n: nat, s: State, r: nat)
    requires Reachable(cfg, n, s, false) && r < cfg.readers
    ensures |LoansOf(s.loans, r)| <= cfg.capacity
  {
    hide Reachable, AllAccounted;
    ReachableInv(cfg, n, s, false);
    forall id | id in LoansOf(s.loans, r) ensures Consumed(s.mem, r) <= s.loans[id].index < Published(s.mem) {
      assert LoanInv(cfg, s, id, false);
    }
    assert Consumed(s.mem, r) <= Published(s.mem) <= Consumed(s.mem, r) + cfg.capacity by {
      assert s.mem.cursors[r] == s.mem.cursors[r];
    }
    IndicesCount(s.loans, LoansOf(s.loans, r), Consumed(s.mem, r), Published(s.mem));
  }

  /** Where a commit or drop finds its loan is exact when its owner has seen the newest
      cursor: it goes on to consume the record exactly when the loan is at that cursor. */
  lemma ResolutionAtCursor(cfg: Config, n: nat, s: State, t: nat, p: nat)
    requires Reachable(cfg, n, s, false) && Enabled(cfg, s, ResolveReadC(t, p))
    requires s.threads[t].view.cur[s.threads[t].pc.r] == Consumed(s.mem, s.threads[t].pc.r)
    ensures var pc := s.threads[t].pc;
            Apply(cfg, s, ResolveReadC(t, p)).threads[t].pc.ResolveStore?
            <==> s.loans[pc.id].index == Consumed(s.mem, pc.r)
  {
    hide Reachable, AllAccounted, Bounded, LogOk, Contents, ReaderInv, LoanInv, Distinct, ProducerInv;
    ReachableInv(cfg, n, s, false);
    assert ThreadInv(cfg, s, t, false);
  }

  // ---- len and peek -----------------------------------------------------------------------

  /** While records are published between its two loads, `len` by the owning reader is the
      distance from its newest cursor, in 0..capacity and not wrapped; and `peek` points at a
      slot that holds the record at the cursor. */
  lemma OwnerLooks(cfg: Config, n: nat, s: State, t: nat, p: nat)
    requires Reachable(cfg, n, s, false) && Enabled(cfg, s, LookReadC(t, p))
    ensures var pc := s.threads[t].pc;
            var c := s.mem.cursors[pc.r][p].val;
            && c == Consumed(s.mem, pc.r) <= pc.w <= Published(s.mem)
            && WrappingSub(pc.w, c) == pc.w - c <= cfg.capacity
            && (c < pc.w ==> s.mem.slots[Slot(cfg, c)] == s.mem.stream[c])
  {
    hide Reachable, AllAccounted, LogOk, ReaderInv, LoanInv, Distinct;
    ReachableInv(cfg, n, s, false);
    var pc, v := s.threads[t].pc, s.threads[t].view;
    assert ThreadInv(cfg, s, t, false);
    if Consumed(s.mem, pc.r) < pc.w {
      ReadExact(cfg, s.mem, StageOf(s.prod), false, v, pc.r, Consumed(s.mem, pc.r), 0);
    }
  }

  /** The window of a peeked pointer: until the reader's cursor passes record `i`, a thread
      that acquired `i` finds it in the slot, ordered after every write to it. */
  lemma PeekWindow(cfg: Config, n: nat, s: State, t: nat, r: nat, i: nat, k: nat)
    requires Reachable(cfg, n, s, false) && Formed(cfg, s) && t < |s.threads| && r < cfg.readers && k < cfg.words
    requires Consumed(s.mem, r) <= i < s.threads[t].view.w
    ensures i < Published(s.mem) && s.mem.slots[Slot(cfg, i)] == s.mem.stream[i]
    ensures WritesOrdered(cfg, s.mem, s.threads[t].view, i, k)
  {
    hide Reachable, AllAccounted, ReaderInv, LoanInv, Distinct;
    ReachableInv(cfg, n, s, false);
    assert ThreadInv(cfg, s, t, false);
    ReadExact(cfg, s.mem, StageOf(s.prod), false, s.threads[t].view, r, i, k);
  }

  // ---- data races -------------------------------------------------------------------------

  /** A plain access about to be made happens after every access it conflicts with. */
  ghost predicate RaceFree(cfg: Config, s: State, a: Action)
    requires Enabled(cfg, s, a)
  {
    && (a.PushWrite? ==>
          && WritesOrdered(cfg, s.mem, s.prod.view, s.prod.pc.w, s.prod.pc.done)
          && ReadsOrdered(cfg, s.mem, s.prod.view, s.prod.pc.w, s.prod.pc.done))
    && (a.PopReadWord? ==>
          WritesOrdered(cfg, s.mem, s.threads[a.t].view, s.threads[a.t].pc.c, |s.threads[a.t].pc.buf|))
    && (a.Deref? ==>
          WritesOrdered(cfg, s.mem, Join(s.threads[a.t].view, s.loans[a.id].view), s.loans[a.id].index, a.k))
  }

  lemma PushWriteOrdered(cfg: Config, s: State)
    requires Enabled(cfg, s, PushWrite) && Inv(cfg, s, true)
    ensures WritesOrdered(cfg, s.mem, s.prod.view, s.prod.pc.w, s.prod.pc.done)
    ensures ReadsOrdered(cfg, s.mem, s.prod.view, s.prod.pc.w, s.prod.pc.done)
  {
    hide ThreadInv, LoanInv, ReaderInv, Distinct, AllAccounted, MemInv, Good;
    WriteOrdered(cfg, s.mem, StageOf(s.prod), true, s.prod.view, s.prod.pc.done);
  }

  /** No run with ordered claims has a data race on any slot word: in particular every
      read of a slot happens before the producer's next write to it. */
  lemma NoDataRace(cfg: Config, n: nat, s: State, a: Action)
    requires Reachable(cfg, n, s, true) && Enabled(cfg, s, a)
    ensures RaceFree(cfg, s, a)
  {
    hide Reachable, Inv, Enabled;
    ReachableInv(cfg, n, s, true);
    match a
    case PushWrite => PushWriteOrdered(cfg, s);
    case PopReadWord(t, x) => PopReadsPublished(cfg, s, t, x, true);
    case Deref(t, id, k, x) => DerefReadsPublished(cfg, s, t, id, k, x, true);
    case _ =>
  }

  /** Reads never race, ordered claims or not. */
  lemma ReadsNeverRace(cfg: Config, n: nat, s: State, a: Action)
    requires Reachable(cfg, n, s, false) && Enabled(cfg, s, a) && (a.PopReadWord? || a.Deref?)
    ensures RaceFree(cfg, s, a)
  {
    hide Reachable, Inv, Enabled;
    ReachableInv(cfg, n, s, false);
    match a
    case PopReadWord(t, x) => PopReadsPublished(cfg, s, t, x, false);
    case Deref(t, id, k, x) => DerefReadsPublished(cfg, s, t, id, k, x, false);
  }

  // ---- backpressure -----------------------------------------------------------------------

  /** The slowest lag is within the capacity at every moment; a finished scan, however stale
      its loads, is a lower bound of every cursor and at most `capacity` low, so `w - min`,
      which is the producer's `slowest_lag`, does not wrap and lies in 0..capacity; and a push
      that goes ahead finds every reader less than `capacity` behind. */
  lemma Backpressure(cfg: Config, n: nat, s: State, r: nat)
    requires Reachable(cfg, n, s, false) && r < cfg.readers
    ensures Formed(cfg, s)
    ensures Consumed(s.mem, r) <= Published(s.mem) <= Consumed(s.mem, r) + cfg.capacity
    ensures s.prod.pc.PushScan? && s.prod.pc.next == cfg.readers ==>
              && s.prod.pc.min <= Consumed(s.mem, r)
              && s.prod.pc.min <= s.prod.pc.w == Published(s.mem) <= s.prod.pc.min + cfg.capacity
              && WrappingSub(s.prod.pc.w, s.prod.pc.min) == s.prod.pc.w - s.prod.pc.min
    ensures Enabled(cfg, s, PushDecide) && DoPush(cfg, s, PushDecide).prod.pc.PushIdle? ==>
              s.prod.pc.min + cfg.capacity == Published(s.mem)
    ensures s.prod.pc.PushFill? ==> Published(s.mem) < Consumed(s.mem, r) + cfg.capacity
  {
    hide Reachable, AllAccounted;
    ReachableInv(cfg, n, s, false);
    var pc := s.prod.pc;
    assert |s.mem.cursors[r]| >= 1;
    if pc.PushScan? && pc.next == cfg.readers {
      assert pc.min <= s.prod.view.cur[0] && pc.min <= s.prod.view.cur[r];
      assert |s.mem.cursors[0]| >= 1;
    }
  }

  // ---- the loan gate ----------------------------------------------------------------------

  /** `loan_depth` counts live loans, claims under way and resolutions not yet finished,
      so it never underflows; and whatever a pop's relaxed load of it may return turns the pop
      away exactly when a loan is live. */
  lemma GateIsExact(cfg: Config, n: nat, s: State, r: nat)
    requires Reachable(cfg, n, s, false) && r < cfg.readers
    ensures Formed(cfg, s) && Gate(s.mem, r) == |LoansOf(s.loans, r)| + GateHolders(s.threads, r)
    ensures forall t :: 0 <= t < |s.threads| && HoldsGate(s.threads[t].pc, r) ==> Gate(s.mem, r) >= 1
    ensures forall t: nat, d: nat :: Enabled(cfg, s, PopCheckGate(t, d)) && s.threads[t].pc.r == r ==>
              (s.mem.gates[r][d] != 0 <==> LoansOf(s.loans, r) != {})
  {
    hide MemInv, ProducerInv, LoanInv, Distinct, AllAccounted, Good, ClaimInv, ResolveInv;
    ReachableInv(cfg, n, s, false);
    assert ReaderInv(cfg, s, r, false);
    forall t | 0 <= t < |s.threads| && HoldsGate(s.threads[t].pc, r) ensures Gate(s.mem, r) >= 1 {
      GateHeld(s.threads, t, r);
    }
    forall t: nat, d: nat | Enabled(cfg, s, PopCheckGate(t, d)) && s.threads[t].pc.r == r
      ensures s.mem.gates[r][d] != 0 <==> LoansOf(s.loans, r) != {}
    {
      GateSeen(cfg, s, t, d, false);
    }
  }
}
