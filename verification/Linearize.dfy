/** Every step acts on an atomic broadcast log or leaves it alone; and when loads return
    the newest value, a refused push and an empty pop are right about some instant inside
    the call, although a push scans the cursors one by one. */
module Linearize {
  import opened Common
  import opened Memory
  import opened Protocol
  import opened Invariant
  import opened AdvanceSteps
  import opened Runs

  // ---- the atomic log ---------------------------------------------------------------------

  datatype Log = Log(stream: seq<Record>, cursors: seq<nat>)

  function SlowestOf(log: Log): nat { Slowest(log.cursors, |log.cursors|) }

  /** An atomic push: only with less than `capacity` records ahead of the slowest reader. */
  ghost predicate AtomicPush(cfg: Config, log: Log, next: Log, record: Record) {
    && SlowestOf(log) <= |log.stream| < SlowestOf(log) + cfg.capacity
    && next == log.(stream := log.stream + [record])
  }

  /** An atomic pop for reader `r`, returning `record`. */
  ghost predicate AtomicPop(log: Log, next: Log, r: nat, record: Record) {
    && r < |log.cursors| && log.cursors[r] < |log.stream| && record == log.stream[log.cursors[r]]
    && next == log.(cursors := log.cursors[r := log.cursors[r] + 1])
  }

  ghost function Abstract(cfg: Config, s: State): Log
    requires Formed(cfg, s)
  {
    Log(s.mem.stream, seq(cfg.readers, r requires 0 <= r < cfg.readers => Consumed(s.mem, r)))
  }

  lemma PushRefines(cfg: Config, s: State)
    requires Inv(cfg, s, false) && Enabled(cfg, s, PushStore) && Formed(cfg, DoPush(cfg, s, PushStore))
    ensures AtomicPush(cfg, Abstract(cfg, s), Abstract(cfg, DoPush(cfg, s, PushStore)), s.prod.pc.record)
  {
    hide ThreadInv, LoanInv, ReaderInv, Distinct, AllAccounted, Histories, LogOk, Contents, Good;
    var log := Abstract(cfg, s);
    assert log.cursors[0] == Consumed(s.mem, 0) <= Published(s.mem) <= U64_MAX;
    var m := SlowestOf(log);
    var r :| 0 <= r < cfg.readers && log.cursors[r] == m;
    assert |s.mem.cursors[r]| >= 1;
    assert Abstract(cfg, DoPush(cfg, s, PushStore)).cursors == log.cursors;
  }

  lemma PopRefines(cfg: Config, s: State, t: nat)
    requires Inv(cfg, s, false) && Enabled(cfg, s, PopStore(t)) && Formed(cfg, DoPop(cfg, s, PopStore(t)))
    ensures AtomicPop(Abstract(cfg, s), Abstract(cfg, DoPop(cfg, s, PopStore(t))), s.threads[t].pc.r, s.threads[t].pc.buf)
  {
    hide MemInv, ProducerInv, ThreadInv, LoanInv, ReaderInv, Distinct, AllAccounted;
    PopStoreExact(cfg, s, t, false);
    var r := s.threads[t].pc.r;
    assert Abstract(cfg, DoPop(cfg, s, PopStore(t))).cursors == Abstract(cfg, s).cursors[r := Consumed(s.mem, r) + 1];
  }

  lemma CommitRefines(cfg: Config, s: State, t: nat)
    requires Inv(cfg, s, false) && Enabled(cfg, s, ResolveWriteC(t)) && Formed(cfg, DoLoan(cfg, s, ResolveWriteC(t)))
    ensures var l := s.loans[s.threads[t].pc.id];
            AtomicPop(Abstract(cfg, s), Abstract(cfg, DoLoan(cfg, s, ResolveWriteC(t))), l.reader, s.mem.slots[Slot(cfg, l.index)])
  {
    hide MemInv, ProducerInv, ThreadInv, LoanInv, ReaderInv, Distinct, AllAccounted;
    CommitExact(cfg, s, t, false);
    var r := s.threads[t].pc.r;
    assert Abstract(cfg, DoLoan(cfg, s, ResolveWriteC(t))).cursors == Abstract(cfg, s).cursors[r := Consumed(s.mem, r) + 1];
  }

  /** The index words are touched by three steps only. */
  lemma OtherStepsStutter(cfg: Config, s: State, a: Action)
    requires Enabled(cfg, s, a) && !a.PushStore? && !a.PopStore? && !a.ResolveWriteC?
    ensures var next := Apply(cfg, s, a);
            next.mem.stream == s.mem.stream && next.mem.cursors == s.mem.cursors && next.mem.published == s.mem.published
  {
    hide Formed, MayRead, MayLoadC, MayLoadW, Quiet, NoPop, Join, Learn;
  }

  /** `next` follows from `s` by an atomic operation of the log, with the record the step
      `a` really moves, or with the log as it was. */
  ghost predicate LogStep(cfg: Config, s: State, a: Action, next: State)
    requires Formed(cfg, s) && Formed(cfg, next) && Enabled(cfg, s, a)
  {
    var log, after := Abstract(cfg, s), Abstract(cfg, next);
    if a.PushStore? then AtomicPush(cfg, log, after, s.prod.pc.record)
    else if a.PopStore? then AtomicPop(log, after, s.threads[a.t].pc.r, s.threads[a.t].pc.buf)
    else if a.ResolveWriteC? then
      var l := s.loans[s.threads[a.t].pc.id];
      AtomicPop(log, after, l.reader, s.mem.slots[Slot(cfg, l.index)])
    else after == log
  }

  lemma StepRefines(cfg: Config, s: State, a: Action)
    requires Inv(cfg, s, false) && Step(cfg, s, a, false)
    ensures Formed(cfg, Apply(cfg, s, a)) && LogStep(cfg, s, a, Apply(cfg, s, a))
  {
    hide MemInv, ProducerInv, ThreadInv, LoanInv, ReaderInv, Distinct, AllAccounted, AtomicPush, AtomicPop,
         DoPush, DoPop, DoClaim, DoLoan, Shape;
    StepKeeps(cfg, s, a, false);
    if a.PushStore? {
      PushRefines(cfg, s);
    } else if a.PopStore? {
      PopRefines(cfg, s, a.t);
    } else if a.ResolveWriteC? {
      CommitRefines(cfg, s, a.t);
    } else {
      OtherStepsStutter(cfg, s, a);
      assert Abstract(cfg, Apply(cfg, s, a)).cursors == Abstract(cfg, s).cursors;
    }
  }

  /** Refinement: a fresh ring is the empty log, and every step of every run is an atomic
      operation of the log or leaves it alone. */
  lemma RunRefines(cfg: Config, n: nat, states: seq<State>, acts: seq<Action>, i: nat)
    requires FreshRun(cfg, n, states, acts, false) && i < |acts|
    ensures Formed(cfg, states[0]) && Abstract(cfg, states[0]) == Log([], seq(cfg.readers, _ => 0))
    ensures Formed(cfg, states[i]) && Formed(cfg, states[i + 1]) && LogStep(cfg, states[i], acts[i], states[i + 1])
  {
    hide Enabled, Disciplined, LogStep, MemInv, ProducerInv, ThreadInv, LoanInv, ReaderInv, Distinct, AllAccounted, Apply;
    FreshRunInv(cfg, n, states, acts, 0, false);
    FreshRunInv(cfg, n, states, acts, i, false);
    assert Step(cfg, states[i], acts[i], false);
    StepRefines(cfg, states[i], acts[i]);
  }

  // ---- refused pushes and empty pops --------------------------------------------------------

  /** A cursor load of the producer's scan returns the newest value. */
  ghost predicate FreshScan(s: State, a: Action) {
    a.PushLoad? && s.prod.pc.PushScan? && s.prod.pc.next < |s.mem.cursors| ==>
      a.p == |s.mem.cursors[s.prod.pc.next]| - 1
  }

  /** A load of `write_idx` by thread `t`'s pop returns the newest value. */
  predicate FreshPop(s: State, a: Action, t: nat) {
    a.PopReadW? && a.t == t ==> a.p == |s.mem.published| - 1
  }

  /** Steps that are not the producer's leave the producer alone. */
  lemma ProducerAlone(cfg: Config, s: State, a: Action)
    requires Enabled(cfg, s, a)
    requires !ByProducer(a)
    ensures Apply(cfg, s, a).prod == s.prod
  {
    hide Formed, MayRead, MayLoadC, MayLoadW, Quiet, NoPop, Join, Learn;
  }

  predicate ByThread(a: Action, t: nat) { !ByProducer(a) && a.t == t }

  /** Steps of others leave thread `t` alone. */
  lemma ThreadAlone(cfg: Config, s: State, a: Action, t: nat)
    requires Enabled(cfg, s, a) && t < |s.threads| && !ByThread(a, t)
    ensures |Apply(cfg, s, a).threads| == |s.threads| && Apply(cfg, s, a).threads[t] == s.threads[t]
  {
    hide Formed, MayRead, MayLoadC, MayLoadW, MayLoadGate, Quiet, NoPop, Join, Learn, ReadWord, WriteWord, StoreCursor,
         StoreWrite, StepGate, AtGate, Gate, Owned, Slot;
  }

  /** The slowest reader lags by exactly `capacity` in `s`. */
  ghost predicate Full(cfg: Config, s: State) {
    Formed(cfg, s) && |s.mem.stream| == SlowestOf(Abstract(cfg, s)) + cfg.capacity
  }

  /** Cursor `r` is `c` when `w` records are published. */
  ghost predicate CursorWas(s: State, r: nat, c: nat, w: nat) {
    r < |s.mem.cursors| && |s.mem.cursors[r]| == c + 1 && |s.mem.stream| == w
  }

  /** Inside a scan begun at `b`: the push is still scanning, and the minimum so far was
      some cursor's newest value at an instant since then. */
  ghost predicate ScanSince(cfg: Config, states: seq<State>, b: nat, i: nat)
    requires b < i < |states|
  {
    var pc := states[i].prod.pc;
    pc.PushScan? ==>
      || (pc.next == 0 && pc.min == U64_MAX)
      || exists j, r :: b < j < i && CursorWas(states[j], r, pc.min, pc.w)
  }

  lemma CursorVal(cfg: Config, s: State, r: nat, p: nat)
    requires Inv(cfg, s, false) && r < cfg.readers && p < |s.mem.cursors[r]|
    ensures s.mem.cursors[r][p].val == p <= |s.mem.stream|
  {
    hide ThreadInv, LoanInv, ReaderInv, Distinct, AllAccounted, ProducerInv, Good;
  }

  lemma PublishedVal(cfg: Config, s: State, p: nat)
    requires Inv(cfg, s, false) && p < |s.mem.published|
    ensures s.mem.published[p].val == p && |s.mem.published| == |s.mem.stream| + 1
  {
    hide ThreadInv, LoanInv, ReaderInv, Distinct, AllAccounted, ProducerInv, Good;
  }

  lemma ScanStep(cfg: Config, states: seq<State>, acts: seq<Action>, b: nat, i: nat)
    requires |states| == |acts| + 1
    requires b < i < |acts| && !acts[i].PushBegin? && ScanSince(cfg, states, b, i)
    requires FreshScan(states[i], acts[i]) && Inv(cfg, states[i], false) && Enabled(cfg, states[i], acts[i])
    requires states[i + 1] == Apply(cfg, states[i], acts[i])
    ensures ScanSince(cfg, states, b, i + 1)
  {
    hide MemInv, ThreadInv, LoanInv, ReaderInv, Distinct, AllAccounted, DoPop, DoClaim, DoLoan;
    var s, a := states[i], acts[i];
    if a.PushLoad? {
      var next := s.prod.pc.next;
      CursorVal(cfg, s, next, a.p);
      assert CursorWas(states[i], next, a.p, s.prod.pc.w);
    } else if !ByProducer(a) {
      ProducerAlone(cfg, s, a);
    }
  }

  lemma {:induction false} ScanWitness(cfg: Config, n: nat, states: seq<State>, acts: seq<Action>, b: nat, i: nat, d: nat)
    requires FreshRun(cfg, n, states, acts, false) && d <= |acts| && forall k :: b < k < d ==> FreshScan(states[k], acts[k])
    requires b < i <= d < |acts| && acts[b].PushBegin? && forall k :: b < k < d ==> !acts[k].PushBegin?
    ensures ScanSince(cfg, states, b, i)
  {
    hide Inv, Enabled, FreshScan, Disciplined, HandedOver, DoPop, DoClaim, DoLoan;
    assert Step(cfg, states[i - 1], acts[i - 1], false);
    if i > b + 1 {
      ScanWitness(cfg, n, states, acts, b, i - 1, d);
      FreshRunInv(cfg, n, states, acts, i - 1, false);
      hide Apply, ScanSince;
      ScanStep(cfg, states, acts, b, i - 1);
    }
  }

  /** A refused push is linearizable: at an instant inside the call, the slowest reader
      lagged by exactly the capacity, although its cursors were scanned one by one. */
  lemma RefusedPushWasFull(cfg: Config, n: nat, states: seq<State>, acts: seq<Action>, b: nat, d: nat)
    requires FreshRun(cfg, n, states, acts, false) && d <= |acts| && forall k :: b < k < d ==> FreshScan(states[k], acts[k])
    requires b < d < |acts| && acts[b].PushBegin? && acts[d].PushDecide?
    requires forall k :: b < k < d ==> !acts[k].PushBegin?
    requires states[d + 1].prod.pc.PushIdle?
    ensures exists j :: b < j < d && Full(cfg, states[j])
  {
    hide Inv, FreshScan, HandedOver, DoPop, DoClaim, DoLoan, Full;
    assert Step(cfg, states[d], acts[d], false);
    ScanWitness(cfg, n, states, acts, b, d, d);
    FreshRunInv(cfg, n, states, acts, d, false);
    var pc := states[d].prod.pc;
    ScanBound(cfg, states[d]);
    var j, r :| b < j < d && CursorWas(states[j], r, pc.min, pc.w);
    FreshRunInv(cfg, n, states, acts, j, false);
    FullWhen(cfg, states[j], r, pc.min, pc.w);
  }

  lemma ScanBound(cfg: Config, s: State)
    requires Inv(cfg, s, false) && s.prod.pc.PushScan? && s.prod.pc.next == cfg.readers
    ensures s.prod.pc.min <= s.prod.pc.w < U64_MAX
    ensures WrappingSub(s.prod.pc.w, s.prod.pc.min) == s.prod.pc.w - s.prod.pc.min
  {
    hide ThreadInv, LoanInv, ReaderInv, Distinct, AllAccounted;
    assert s.prod.pc.min <= s.prod.view.cur[0];
    assert |s.mem.cursors[0]| >= 1;
  }

  lemma FullWhen(cfg: Config, s: State, r: nat, c: nat, w: nat)
    requires Inv(cfg, s, false) && CursorWas(s, r, c, w) && c + cfg.capacity <= w
    ensures Full(cfg, s)
  {
    hide ThreadInv, LoanInv, ReaderInv, Distinct, AllAccounted, Histories, Contents, LogOk, Good;
    var cursors := Abstract(cfg, s).cursors;
    assert cursors[r] == c < U64_MAX;
    var m := SlowestOf(Abstract(cfg, s));
    var x :| 0 <= x < cfg.readers && cursors[x] == m;
    assert |s.mem.cursors[x]| >= 1 && |s.mem.cursors[r]| >= 1;
    assert m <= cursors[r] == c;
  }

  /** The step that leaves a pop with `write_idx` loaded is that load. */
  lemma LoadedNow(cfg: Config, s: State, a: Action, t: nat, r: nat)
    requires Enabled(cfg, s, a) && FreshPop(s, a, t) && ByThread(a, t)
    requires t < |s.threads| && t < |Apply(cfg, s, a).threads|
    requires var th := Apply(cfg, s, a).threads[t]; th.pc.PopLoadC? && th.pc.r == r && r < |th.view.cur|
    requires Inv(cfg, s, false) && Inv(cfg, Apply(cfg, s, a), false)
    ensures a.PopReadW?
    ensures var th := Apply(cfg, s, a).threads[t]; CursorWas(s, r, th.view.cur[r], th.pc.w)
  {
    hide ProducerInv, LoanInv, ReaderInv, Distinct, AllAccounted, MemInv, MayRead, Good, Join;
    var next := Apply(cfg, s, a);
    assert a.PopReadW?;
    PublishedVal(cfg, s, a.p);
    assert ThreadInv(cfg, next, t, false);
    assert next.mem == s.mem && |s.mem.cursors[r]| >= 1;
  }

  /** While a pop has loaded `write_idx` and not yet its cursor, the value loaded was the
      newest at an instant inside the call, with the cursor as it is now. */
  lemma {:induction false} PopLoadedAt(cfg: Config, n: nat, states: seq<State>, acts: seq<Action>, b: nat, i: nat, t: nat, r: nat)
    requires FreshRun(cfg, n, states, acts, false) && i <= |acts| && forall k :: b < k < i ==> FreshPop(states[k], acts[k], t)
    requires b < i <= |acts| && acts[b] == PopBegin(t, r)
    requires t < |states[i].threads| && states[i].threads[t].pc.PopLoadC? && states[i].threads[t].pc.r == r
    requires r < |states[i].threads[t].view.cur|
    requires forall k :: b < k < i ==> acts[k] != PopBegin(t, r)
    ensures exists j :: b < j < i && CursorWas(states[j], r, states[i].threads[t].view.cur[r], states[i].threads[t].pc.w)
  {
    hide Inv, FreshPop, Disciplined, HandedOver, Formed, MayRead, MayLoadC, MayLoadW, Quiet, NoPop, Join, DoPush, DoClaim, DoLoan;
    var s, a := states[i - 1], acts[i - 1];
    assert Step(cfg, s, a, false) && states[i] == Apply(cfg, s, a);
    FreshRunInv(cfg, n, states, acts, i - 1, false);
    FreshRunInv(cfg, n, states, acts, i, false);
    ThreadCount(cfg, s, a);
    if !ByThread(a, t) {
      ThreadAlone(cfg, s, a, t);
      PopLoadedAt(cfg, n, states, acts, b, i - 1, t, r);
    } else {
      LoadedNow(cfg, s, a, t, r);
    }
  }

  /** An empty pop is linearizable: at an instant inside the call, the reader had consumed
      every published record. */
  lemma EmptyPopWasCaughtUp(cfg: Config, n: nat, states: seq<State>, acts: seq<Action>, b: nat, d: nat, t: nat, r: nat)
    requires FreshRun(cfg, n, states, acts, false) && d <= |acts| && forall k :: b < k < d ==> FreshPop(states[k], acts[k], t)
    requires b < d < |acts| && acts[b] == PopBegin(t, r) && acts[d].PopReadC? && acts[d].t == t
    requires forall k :: b < k < d ==> acts[k] != PopBegin(t, r)
    requires t < |states[d].threads| && states[d].threads[t].pc.PopLoadC? && states[d].threads[t].pc.r == r
    requires t < |states[d + 1].threads| && states[d + 1].threads[t].pc.Idle?
    ensures exists j :: b < j < d && r < |states[j].mem.cursors| && |states[j].mem.cursors[r]| == |states[j].mem.stream| + 1
  {
    hide Inv, Disciplined, DoPush, DoClaim, DoLoan, Join;
    assert Step(cfg, states[d], acts[d], false);
    FreshRunInv(cfg, n, states, acts, d, false);
    EmptyNow(cfg, states[d], acts[d], t, r);
    PopLoadedAt(cfg, n, states, acts, b, d, t, r);
    var th := states[d].threads[t];
    var j :| b < j < d && CursorWas(states[j], r, th.view.cur[r], th.pc.w);
  }

  lemma EmptyNow(cfg: Config, s: State, a: Action, t: nat, r: nat)
    requires Inv(cfg, s, false) && Enabled(cfg, s, a) && a.PopReadC? && a.t == t && s.threads[t].pc.r == r
    requires Apply(cfg, s, a).threads[t].pc.Idle?
    ensures r < |s.threads[t].view.cur| && s.threads[t].view.cur[r] == s.threads[t].pc.w
  {
    hide ProducerInv, LoanInv, ReaderInv, Distinct, AllAccounted, MemInv, Good, Join;
    assert ThreadInv(cfg, s, t, false);
    CursorVal(cfg, s, r, a.p);
  }
}
