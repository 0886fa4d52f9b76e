/** What every reachable state of the protocol satisfies, and that each step keeps it.
    With `hb` the invariant also carries the reclaim edge in full; that part is kept by
    steps that are `Ordered`, the rest by every disciplined step. */
module Invariant {
  import opened Common
  import opened Memory
  import opened Protocol

  // ---- the producer ---------------------------------------------------------------------

  ghost predicate ProducerInv(cfg: Config, s: State, hb: bool)
    requires Formed(cfg, s)
  {
    var pc, v := s.prod.pc, s.prod.view;
    && Good(cfg, s.mem, v, hb)
    && v.w == Published(s.mem) <= U64_MAX
    && (forall x :: 0 <= x < cfg.readers ==> v.w <= v.cur[x] + cfg.capacity)
    && (forall e :: 0 <= e < |s.mem.log| && s.mem.log[e].Write? && s.mem.log[e].index == v.w ==> e in v.known)
    && (pc.PushScan? ==>
          && |pc.record| == cfg.words && pc.w == v.w < U64_MAX && pc.next <= cfg.readers && pc.min <= U64_MAX
          && pc.w <= pc.min + cfg.capacity
          && forall x :: 0 <= x < pc.next ==> pc.min <= v.cur[x])
    && (pc.PushFill? ==>
          && pc.w == v.w < U64_MAX
          && forall x :: 0 <= x < cfg.readers ==> pc.w < v.cur[x] + cfg.capacity)
  }

  // ---- the consumer threads -------------------------------------------------------------

  /** While thread `t` pops for reader `r`, or looks at it, it is alone on `r` and sees its
      newest cursor; a pop before the gate sees the newest gate. */
  ghost predicate PopInv(cfg: Config, s: State, t: nat, hb: bool)
    requires Formed(cfg, s) && t < |s.threads|
  {
    var pc, v := s.threads[t].pc, s.threads[t].view;
    (pc.PopGate? || pc.PopLoadW? || pc.PopLoadC? || pc.PopCopy? || pc.Look?) ==>
      && v.cur[pc.r] == Consumed(s.mem, pc.r) <= v.w
      && (forall u :: 0 <= u < |s.threads| && u != t ==> !InFlight(s.threads[u].pc, pc.r))
      && (pc.Look? || s.trail[pc.r].known <= v.known)
      && (pc.PopGate? ==> v.gate[pc.r] + 1 == |s.mem.gates[pc.r]|)
      && (pc.PopGate? || pc.Look? || LoansOf(s.loans, pc.r) == {})
      && (pc.Look? ==> Consumed(s.mem, pc.r) <= pc.w <= v.w && pc.w <= Consumed(s.mem, pc.r) + cfg.capacity)
      && (pc.PopLoadC? ==> Consumed(s.mem, pc.r) <= pc.w <= v.w)
      && (pc.PopCopy? ==>
            && pc.c == Consumed(s.mem, pc.r) < v.w && |pc.buf| <= cfg.words
            && pc.c < |s.mem.stream| && |s.mem.stream[pc.c]| == cfg.words && pc.buf == s.mem.stream[pc.c][..|pc.buf|])
  }

  /** A claim in progress: nothing it loaded lags the last pop. */
  ghost predicate ClaimInv(cfg: Config, s: State, t: nat)
    requires Formed(cfg, s) && t < |s.threads|
  {
    var pc, v := s.threads[t].pc, s.threads[t].view;
    (pc.ClaimLoadW? || pc.ClaimLoadC? || pc.ClaimLoadB? || pc.ClaimCas? || pc.ClaimQuit?) ==>
      && s.popped[pc.r] <= v.cur[pc.r]
      && (pc.ClaimLoadC? ==> pc.w <= v.w)
      && (pc.ClaimLoadB? || pc.ClaimCas? ==>
            pc.w <= v.w && s.popped[pc.r] <= pc.c <= Consumed(s.mem, pc.r))
      && (pc.ClaimCas? ==> Max(pc.b, pc.c) < pc.w)
  }

  /** A resolution in progress owns its loan alone; past the check, the loan is at the
      cursor and the thread has seen that cursor. */
  ghost predicate ResolveInv(cfg: Config, s: State, t: nat)
    requires Formed(cfg, s) && t < |s.threads|
  {
    var pc, v := s.threads[t].pc, s.threads[t].view;
    (pc.ResolveLoad? || pc.ResolveStore?) ==>
      && pc.id in s.loans
      && var l := s.loans[pc.id];
      && l.reader == pc.r && l.busy && l.index < v.w
      && l.view.known <= v.known && l.uses.known <= v.known
      && (forall u :: 0 <= u < |s.threads| && u != t ==> !Resolves(s.threads[u].pc, pc.id))
      && (pc.ResolveStore? ==> l.index == Consumed(s.mem, pc.r) == v.cur[pc.r])
  }

  ghost predicate ThreadInv(cfg: Config, s: State, t: nat, hb: bool)
    requires Formed(cfg, s) && t < |s.threads|
  {
    && Good(cfg, s.mem, s.threads[t].view, hb)
    && PopInv(cfg, s, t, hb)
    && ClaimInv(cfg, s, t)
    && ResolveInv(cfg, s, t)
  }

  // ---- live loans -----------------------------------------------------------------------

  /** A live loan is pinned: the cursor is not past it and the pipeline is. */
  ghost predicate LoanInv(cfg: Config, s: State, id: nat, hb: bool)
    requires Formed(cfg, s) && id in s.loans
  {
    var l := s.loans[id];
    && id < s.issued
    && Consumed(s.mem, l.reader) <= l.index < s.base[l.reader]
    && l.index < l.view.w
    && Good(cfg, s.mem, l.view, hb) && Good(cfg, s.mem, l.uses, hb)
    && (hb ==> KnowsReads(s.mem, Join(l.view, l.uses), l.reader, l.index))
  }

  ghost predicate Distinct(s: State) {
    forall i, j :: i in s.loans && j in s.loans && i != j && s.loans[i].reader == s.loans[j].reader ==>
      s.loans[i].index != s.loans[j].index
  }

  // ---- readers --------------------------------------------------------------------------

  ghost predicate ReaderInv(cfg: Config, s: State, r: nat, hb: bool)
    requires Formed(cfg, s) && r < cfg.readers
  {
    && Good(cfg, s.mem, s.trail[r], hb)
    && s.trail[r].cur[r] == Consumed(s.mem, r) <= s.trail[r].w
    && s.popped[r] <= Consumed(s.mem, r) <= Max(s.base[r], s.popped[r])
    && Consumed(s.mem, r) <= |s.mem.stream|
    && s.taken[r] == s.mem.stream[..Consumed(s.mem, r)]
    && Gate(s.mem, r) == |LoansOf(s.loans, r)| + GateHolders(s.threads, r)
  }

  /** A read ahead of the cursor was made through a loan still live, by a pop still under
      way, or is known to whoever works for that reader next. */
  ghost predicate Accounted(s: State, e: nat)
    requires e < |s.mem.log| && s.mem.log[e].Read? && s.mem.log[e].reader < |s.trail|
  {
    var a := s.mem.log[e];
    || e in s.trail[a.reader].known
    || (exists id :: id in s.loans && s.loans[id].reader == a.reader && s.loans[id].index == a.index)
    || (exists t :: 0 <= t < |s.threads| && s.threads[t].pc.PopCopy? && s.threads[t].pc.r == a.reader
                    && s.threads[t].pc.c == a.index && e in s.threads[t].view.known)
  }

  ghost predicate AllAccounted(cfg: Config, s: State)
    requires Formed(cfg, s)
  {
    forall e :: 0 <= e < |s.mem.log| && s.mem.log[e].Read? && s.mem.log[e].reader < cfg.readers ==> Accounted(s, e)
  }

  ghost predicate Inv(cfg: Config, s: State, hb: bool) {
    && Formed(cfg, s)
    && MemInv(cfg, s.mem, StageOf(s.prod), hb)
    && ProducerInv(cfg, s, hb)
    && (forall t :: 0 <= t < |s.threads| ==> ThreadInv(cfg, s, t, hb))
    && (forall id :: id in s.loans ==> LoanInv(cfg, s, id, hb))
    && Distinct(s)
    && (forall r :: 0 <= r < cfg.readers ==> ReaderInv(cfg, s, r, hb))
    && (forall k :: 0 <= k < |s.posts| ==> Good(cfg, s.mem, s.posts[k], hb))
    && (hb ==> AllAccounted(cfg, s))
  }

  // ---- counting gate holders --------------------------------------------------------------

  lemma {:induction false} GateUpdate(threads: seq<Thread>, t: nat, th: Thread, r: nat)
    requires t < |threads|
    ensures GateHolders(threads[t := th], r) + (if HoldsGate(threads[t].pc, r) then 1 else 0)
         == GateHolders(threads, r) + (if HoldsGate(th.pc, r) then 1 else 0)
  {
    var next := threads[t := th];
    if t == 0 {
      assert next[1..] == threads[1..];
    } else {
      assert next[1..] == threads[1..][t - 1 := th];
      GateUpdate(threads[1..], t - 1, th, r);
    }
  }

  lemma {:induction false} GateHeld(threads: seq<Thread>, t: nat, r: nat)
    requires t < |threads| && HoldsGate(threads[t].pc, r)
    ensures GateHolders(threads, r) >= 1
  {
    if t > 0 {
      GateHeld(threads[1..], t - 1, r);
    }
  }

  lemma {:induction false} NoGateHolders(threads: seq<Thread>, r: nat)
    requires forall t :: 0 <= t < |threads| ==> !HoldsGate(threads[t].pc, r)
    ensures GateHolders(threads, r) == 0
  {
    if threads != [] {
      assert forall t :: 0 <= t < |threads[1..]| ==> threads[1..][t] == threads[t + 1];
      NoGateHolders(threads[1..], r);
    }
  }

  // ---- counting live loans ----------------------------------------------------------------

  lemma LoansAdded(loans: map<nat, Loan>, id: nat, l: Loan, r: nat)
    requires id !in loans
    ensures |LoansOf(loans[id := l], r)| == |LoansOf(loans, r)| + (if l.reader == r then 1 else 0)
  {
    if l.reader == r {
      assert LoansOf(loans[id := l], r) == LoansOf(loans, r) + {id};
    } else {
      assert LoansOf(loans[id := l], r) == LoansOf(loans, r);
    }
  }

  lemma LoansRemoved(loans: map<nat, Loan>, id: nat, r: nat)
    requires id in loans
    ensures |LoansOf(loans - {id}, r)| == |LoansOf(loans, r)| - (if loans[id].reader == r then 1 else 0)
  {
    if loans[id].reader == r {
      assert LoansOf(loans, r) == LoansOf(loans - {id}, r) + {id};
    } else {
      assert LoansOf(loans - {id}, r) == LoansOf(loans, r);
    }
  }

  // ---- the initial state ------------------------------------------------------------------

  lemma InitHolds(cfg: Config, n: nat, hb: bool)
    requires cfg.Valid()
    ensures Inv(cfg, Init(cfg, n), hb)
  {
    var s := Init(cfg, n);
    forall r | 0 <= r < cfg.readers ensures ReaderInv(cfg, s, r, hb) {
      NoGateHolders(s.threads, r);
      assert LoansOf(s.loans, r) == {};
    }
  }

  // ---- steps of the producer ----------------------------------------------------------------

  /** A step that changes the mapping only by extending it, and the producer. */
  lemma ProducerFrame(cfg: Config, s: State, next: State, hb: bool)
    requires Inv(cfg, s, hb)
    requires next == s.(mem := next.mem, prod := next.prod)
    requires Formed(cfg, next)
    requires MemInv(cfg, next.mem, StageOf(next.prod), hb) && ProducerInv(cfg, next, hb)
    requires next.mem.cursors == s.mem.cursors && next.mem.gates == s.mem.gates && s.mem.stream <= next.mem.stream
    requires |s.mem.log| <= |next.mem.log| && next.mem.log[..|s.mem.log|] == s.mem.log
    requires forall e :: |s.mem.log| <= e < |next.mem.log| ==> next.mem.log[e].Write?
    requires forall v :: Good(cfg, s.mem, v, hb) ==> Good(cfg, next.mem, v, hb)
    ensures Inv(cfg, next, hb)
  {
    hide MemInv, ProducerInv, Good;
    assert forall e :: 0 <= e < |s.mem.log| ==> next.mem.log[e] == s.mem.log[e];
    forall t | 0 <= t < |next.threads| ensures ThreadInv(cfg, next, t, hb) {
      assert ThreadInv(cfg, s, t, hb);
    }
    forall id | id in next.loans ensures LoanInv(cfg, next, id, hb) {
      assert LoanInv(cfg, s, id, hb);
    }
    forall r | 0 <= r < cfg.readers ensures ReaderInv(cfg, next, r, hb) {
      assert ReaderInv(cfg, s, r, hb);
    }
    if hb {
      forall e | 0 <= e < |next.mem.log| && next.mem.log[e].Read? && next.mem.log[e].reader < cfg.readers
        ensures Accounted(next, e)
      {
        assert Accounted(s, e);
      }
    }
  }

  lemma PushBeginKeeps(cfg: Config, s: State, record: Record, hb: bool)
    requires Inv(cfg, s, hb) && Enabled(cfg, s, PushBegin(record))
    ensures Inv(cfg, DoPush(cfg, s, PushBegin(record)), hb)
  {
    hide ThreadInv, LoanInv, ReaderInv, Distinct, AllAccounted, LogOk, Contents;
    ProducerFrame(cfg, s, DoPush(cfg, s, PushBegin(record)), hb);
  }

  lemma PushLoadKeeps(cfg: Config, s: State, p: nat, hb: bool)
    requires Inv(cfg, s, hb) && Enabled(cfg, s, PushLoad(p))
    ensures Inv(cfg, DoPush(cfg, s, PushLoad(p)), hb)
  {
    hide ThreadInv, LoanInv, ReaderInv, Distinct, AllAccounted, LogOk, Contents;
    var next := DoPush(cfg, s, PushLoad(p));
    var m := s.mem.cursors[s.prod.pc.next][p];
    JoinGood(cfg, s.mem, s.prod.view, m.view, hb);
    assert next.prod.view == Join(s.prod.view, m.view);
    ProducerFrame(cfg, s, next, hb);
  }

  /** The backpressure decision: a scan of stale cursors errs low, and by how much is bounded. */
  lemma PushDecideKeeps(cfg: Config, s: State, hb: bool)
    requires Inv(cfg, s, hb) && Enabled(cfg, s, PushDecide)
    ensures s.prod.pc.min <= s.prod.pc.w <= s.prod.pc.min + cfg.capacity
    ensures Inv(cfg, DoPush(cfg, s, PushDecide), hb)
  {
    hide ThreadInv, LoanInv, ReaderInv, Distinct, AllAccounted, Histories;
    var pc, v := s.prod.pc, s.prod.view;
    assert pc.min <= v.cur[0];
    assert WrappingSub(pc.w, pc.min) == pc.w - pc.min;
    var next := DoPush(cfg, s, PushDecide);
    if next.prod.pc.PushFill? {
      assert forall x :: 0 <= x < cfg.readers ==> pc.min <= v.cur[x] < |s.mem.cursors[x]|;
    }
    ProducerFrame(cfg, s, next, hb);
  }

  lemma PushWriteKeeps(cfg: Config, s: State, hb: bool)
    requires Inv(cfg, s, hb) && Enabled(cfg, s, PushWrite)
    ensures Inv(cfg, DoPush(cfg, s, PushWrite), hb)
  {
    hide ThreadInv, LoanInv, ReaderInv, Distinct, AllAccounted, MemInv;
    var next := DoPush(cfg, s, PushWrite);
    WriteKeeps(cfg, s.mem, StageOf(s.prod), hb);
    assert next.prod.view.known == s.prod.view.known + {|s.mem.log|};
    assert Good(cfg, next.mem, s.prod.view, hb);
    ProducerFrame(cfg, s, next, hb);
  }

  lemma PushStoreKeeps(cfg: Config, s: State, hb: bool)
    requires Inv(cfg, s, hb) && Enabled(cfg, s, PushStore)
    ensures Inv(cfg, DoPush(cfg, s, PushStore), hb)
  {
    hide ThreadInv, LoanInv, ReaderInv, Distinct, AllAccounted, Contents, Histories;
    PublishKeeps(cfg, s.mem, StageOf(s.prod), hb, s.prod.view);
    ProducerFrame(cfg, s, DoPush(cfg, s, PushStore), hb);
  }

  lemma PushFetchKeeps(cfg: Config, s: State, k: nat, hb: bool)
    requires Inv(cfg, s, hb) && Enabled(cfg, s, PushFetch(k))
    ensures Inv(cfg, DoPush(cfg, s, PushFetch(k)), hb)
  {
    hide ThreadInv, LoanInv, ReaderInv, Distinct, AllAccounted, LogOk, Contents;
    JoinGood(cfg, s.mem, s.prod.view, s.posts[k], hb);
    ProducerFrame(cfg, s, DoPush(cfg, s, PushFetch(k)), hb);
  }

  /** The application releases what one of its threads knows. */
  lemma PostKeeps(cfg: Config, s: State, v: View, hb: bool)
    requires Inv(cfg, s, hb) && Good(cfg, s.mem, v, hb)
    ensures Inv(cfg, s.(posts := s.posts + [v]), hb)
  {
    hide MemInv, Good;
    var next := s.(posts := s.posts + [v]);
    forall t | 0 <= t < |next.threads| ensures ThreadInv(cfg, next, t, hb) {
      assert ThreadInv(cfg, s, t, hb);
    }
    forall r | 0 <= r < cfg.readers ensures ReaderInv(cfg, next, r, hb) {
      assert ReaderInv(cfg, s, r, hb);
    }
    if hb {
      forall e | 0 <= e < |next.mem.log| && next.mem.log[e].Read? && next.mem.log[e].reader < cfg.readers
        ensures Accounted(next, e)
      {
        assert Accounted(s, e);
      }
    }
  }

  lemma PushPostKeeps(cfg: Config, s: State, hb: bool)
    requires Inv(cfg, s, hb) && Enabled(cfg, s, PushPost)
    ensures Inv(cfg, DoPush(cfg, s, PushPost), hb)
  {
    hide MemInv, ThreadInv, LoanInv, ReaderInv, Distinct, AllAccounted, Good;
    PostKeeps(cfg, s, s.prod.view, hb);
  }

  // ---- steps of one consumer thread that only read ------------------------------------------

  /** Memory is the same but for reads appended to its log and gates stepped. */
  ghost predicate OnlyReads(cfg: Config, mem: Mem, next: Mem, hb: bool) {
    && next == mem.(log := next.log, gates := next.gates)
    && |next.gates| == |mem.gates|
    && |mem.log| <= |next.log| && next.log[..|mem.log|] == mem.log
    && (forall e :: |mem.log| <= e < |next.log| ==> next.log[e].Read?)
    && (forall v :: Good(cfg, mem, v, hb) ==> Good(cfg, next, v, hb))
  }

  lemma ProducerReads(cfg: Config, s: State, next: State, hb: bool)
    requires Formed(cfg, s) && Formed(cfg, next) && ProducerInv(cfg, s, hb)
    requires next.prod == s.prod && OnlyReads(cfg, s.mem, next.mem, hb)
    ensures ProducerInv(cfg, next, hb)
  {
    assert forall e :: 0 <= e < |s.mem.log| ==> next.mem.log[e] == s.mem.log[e];
  }

  /** Thread `t` may take part on a reader only if nobody else is popping there, and may
      resolve a loan only if nobody else is resolving it. */
  ghost predicate KeepsOut(s: State, t: nat, pc: Pc)
    requires t < |s.threads|
  {
    && (forall r :: InFlight(pc, r) && !InFlight(s.threads[t].pc, r) ==> NoPop(s, r))
    && (forall id :: Resolves(pc, id) && !Resolves(s.threads[t].pc, id) ==>
          forall u :: 0 <= u < |s.threads| ==> !Resolves(s.threads[u].pc, id))
  }

  lemma OtherThreads(cfg: Config, s: State, next: State, t: nat, u: nat, hb: bool)
    requires Formed(cfg, s) && Formed(cfg, next)
    requires t < |s.threads| && u < |s.threads| && u != t && |next.threads| == |s.threads|
    requires next.threads == s.threads[t := next.threads[t]] && KeepsOut(s, t, next.threads[t].pc)
    requires OnlyReads(cfg, s.mem, next.mem, hb)
    requires forall r: nat :: Pops(s.threads[u].pc, r) && r < |s.mem.gates| ==> next.mem.gates[r] == s.mem.gates[r]
    requires next.popped == s.popped && forall r: nat :: Pops(s.threads[u].pc, r) && r < |s.trail| ==> next.trail[r] == s.trail[r]
    requires forall r :: Pops(s.threads[u].pc, r) && LoansOf(s.loans, r) == {} ==> LoansOf(next.loans, r) == {}
    requires forall id :: id in s.loans && Resolves(s.threads[u].pc, id) ==> id in next.loans && next.loans[id] == s.loans[id]
    requires ThreadInv(cfg, s, u, hb)
    ensures ThreadInv(cfg, next, u, hb)
  {
    assert next.threads[u] == s.threads[u];
    assert forall x :: 0 <= x < |s.threads| && x != t ==> next.threads[x] == s.threads[x];
  }

  /** `loan_depth[r]` changes by what thread `t` changes about the gate. */
  ghost predicate GateCounts(s: State, next: State, t: nat, r: nat)
    requires t < |s.threads| && t < |next.threads|
    requires r < |s.mem.gates| && r < |next.mem.gates| && |s.mem.gates[r]| >= 1 && |next.mem.gates[r]| >= 1
  {
    Gate(next.mem, r) + (if HoldsGate(s.threads[t].pc, r) then 1 else 0)
    == Gate(s.mem, r) + (if HoldsGate(next.threads[t].pc, r) then 1 else 0)
  }

  lemma ReadersKeep(cfg: Config, s: State, next: State, t: nat, r: nat, hb: bool)
    requires Formed(cfg, s) && Formed(cfg, next) && r < cfg.readers
    requires t < |s.threads| == |next.threads| && next.threads == s.threads[t := next.threads[t]]
    requires GateCounts(s, next, t, r)
    requires OnlyReads(cfg, s.mem, next.mem, hb)
    requires LoansOf(next.loans, r) == LoansOf(s.loans, r)
    requires next == s.(mem := next.mem, threads := next.threads, loans := next.loans)
    requires ReaderInv(cfg, s, r, hb)
    ensures ReaderInv(cfg, next, r, hb)
  {
    GateUpdate(s.threads, t, next.threads[t], r);
  }

  lemma LoanKept(cfg: Config, s: State, next: State, id: nat, hb: bool)
    requires Formed(cfg, s) && Formed(cfg, next)
    requires id in s.loans && id in next.loans && next.loans[id] == s.loans[id]
    requires OnlyReads(cfg, s.mem, next.mem, hb) && s.issued <= next.issued
    requires s.loans[id].reader < |next.base| && s.loans[id].index < next.base[s.loans[id].reader]
    requires forall e :: |s.mem.log| <= e < |next.mem.log| ==>
      !IsRead(next.mem.log[e], s.loans[id].reader, s.loans[id].index)
    requires LoanInv(cfg, s, id, hb)
    ensures LoanInv(cfg, next, id, hb)
  {
    assert forall e :: 0 <= e < |s.mem.log| ==> next.mem.log[e] == s.mem.log[e];
  }

  /** Reads stay accounted for when a step ends no pop past its gate and no loan. */
  lemma StillAccounted(cfg: Config, s: State, next: State, t: nat, e: nat)
    requires Formed(cfg, s) && Formed(cfg, next)
    requires t < |s.threads| == |next.threads| && next.threads == s.threads[t := next.threads[t]]
    requires e < |s.mem.log| <= |next.mem.log| && next.mem.log[e] == s.mem.log[e]
    requires next.trail == s.trail
    requires forall id :: id in s.loans ==>
      id in next.loans && next.loans[id].reader == s.loans[id].reader && next.loans[id].index == s.loans[id].index
    requires var pc := s.threads[t].pc;
             pc.PopCopy? ==> next.threads[t].pc.PopCopy? && next.threads[t].pc.r == pc.r
                             && next.threads[t].pc.c == pc.c && s.threads[t].view.known <= next.threads[t].view.known
    requires s.mem.log[e].Read? && s.mem.log[e].reader < cfg.readers && Accounted(s, e)
    ensures Accounted(next, e)
  {
    assert forall x :: 0 <= x < |s.threads| && x != t ==> next.threads[x] == s.threads[x];
  }

  /** Thread `t` moves on without touching anything shared but, possibly, reading a word. */
  lemma ThreadFrame(cfg: Config, s: State, next: State, t: nat, hb: bool)
    requires Inv(cfg, s, hb) && Formed(cfg, next)
    requires t < |s.threads| == |next.threads|
    requires next == s.(mem := next.mem, threads := s.threads[t := next.threads[t]])
    requires forall r :: 0 <= r < cfg.readers && next.mem.gates[r] != s.mem.gates[r] ==>
      forall u :: 0 <= u < |s.threads| && u != t ==> !Pops(s.threads[u].pc, r)
    requires OnlyReads(cfg, s.mem, next.mem, hb) && MemInv(cfg, next.mem, StageOf(s.prod), hb)
    requires ThreadInv(cfg, next, t, hb)
    requires KeepsOut(s, t, next.threads[t].pc)
    requires forall r :: 0 <= r < cfg.readers ==> GateCounts(s, next, t, r)
    requires var pc := s.threads[t].pc;
             pc.PopCopy? ==> next.threads[t].pc.PopCopy? && next.threads[t].pc.r == pc.r
                             && next.threads[t].pc.c == pc.c && s.threads[t].view.known <= next.threads[t].view.known
    requires forall e :: |s.mem.log| <= e < |next.mem.log| ==>
      && (forall id :: id in s.loans ==> !IsRead(next.mem.log[e], s.loans[id].reader, s.loans[id].index))
      && next.mem.log[e].reader < cfg.readers && Accounted(next, e)
    ensures Inv(cfg, next, hb)
  {
    hide MemInv, ProducerInv, ThreadInv, ReaderInv, Accounted, Good;
    ProducerReads(cfg, s, next, hb);
    forall u | 0 <= u < |next.threads| ensures ThreadInv(cfg, next, u, hb) {
      if u != t {
        OtherThreads(cfg, s, next, t, u, hb);
      }
    }
    forall id | id in next.loans ensures LoanInv(cfg, next, id, hb) {
      assert s.loans[id].index < next.base[s.loans[id].reader] by { assert LoanInv(cfg, s, id, hb); }
      LoanKept(cfg, s, next, id, hb);
    }
    forall r | 0 <= r < cfg.readers ensures ReaderInv(cfg, next, r, hb) {
      ReadersKeep(cfg, s, next, t, r, hb);
    }
    if hb {
      forall e | 0 <= e < |next.mem.log| && next.mem.log[e].Read? && next.mem.log[e].reader < cfg.readers
        ensures Accounted(next, e)
      {
        if e < |s.mem.log| {
          assert next.mem.log[e] == s.mem.log[e];
          StillAccounted(cfg, s, next, t, e);
        }
      }
    }
  }
}
