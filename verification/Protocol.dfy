/** One producer and any number of consumer threads over the shared mapping, one atomic
    or plain access per step.  Threads work for any reader, pop, claim on a common
    handle, dereference each other's loans, commit, drop, abort, peek and measure, in any
    interleaving and with stale loads.  `Post` and `Fetch` stand for whatever the application
    itself does to order its threads: spawning, joining, locks and channels. */
module Protocol {
  import opened Common
  import opened Memory

  /** `try_push`, between its steps. */
  datatype PushPc =
    | PushIdle
    | PushScan(record: Record, w: nat, next: nat, min: nat)
    | PushFill(record: Record, w: nat, done: nat)

  datatype Producer = Producer(pc: PushPc, view: View)

  /** `try_pop`, `claim`, `commit`, `drop`, the tail of every resolution, and `len` or `peek`. */
  datatype Pc =
    | Idle
    | PopGate(r: nat)
    | PopLoadW(r: nat)
    | PopLoadC(r: nat, w: nat)
    | PopCopy(r: nat, c: nat, buf: Record)
    | ClaimLoadW(r: nat)
    | ClaimLoadC(r: nat, w: nat)
    | ClaimLoadB(r: nat, w: nat, c: nat)
    | ClaimCas(r: nat, w: nat, c: nat, b: nat)
    | ClaimQuit(r: nat)
    | ResolveLoad(r: nat, id: nat, dropping: bool)
    | ResolveStore(r: nat, id: nat)
    | ReleaseGate(r: nat)
    | Look(r: nat, w: nat)

  datatype Thread = Thread(pc: Pc, view: View)

  /** A live loan.  `view` is what its claimer knew, `uses` what the threads that
      dereferenced it know; whoever resolves it owns it alone, so knows both. */
  datatype Loan = Loan(reader: nat, index: nat, view: View, uses: View, busy: bool)

  datatype State = State(
    mem: Mem,
    prod: Producer,
    threads: seq<Thread>,
    base: seq<nat>,            // claim_base, per reader
    loans: map<nat, Loan>,     // live loans
    issued: nat,               // next loan identity
    popped: seq<nat>,          // where the last pop of a reader left its cursor
    trail: seq<View>,          // what the finished pops and loans of a reader knew
    taken: seq<seq<Record>>,   // what a reader consumed, in order
    posts: seq<View>)          // what the application's own synchronization released

  datatype Action =
    | PushBegin(record: Record)
    | PushLoad(p: nat)
    | PushDecide
    | PushWrite
    | PushStore
    | PushPost
    | PushFetch(k: nat)
    | PopBegin(t: nat, r: nat)
    | PopCheckGate(t: nat, d: nat)
    | PopReadW(t: nat, p: nat)
    | PopReadC(t: nat, p: nat)
    | PopReadWord(t: nat, x: Word)
    | PopStore(t: nat)
    | ClaimBegin(t: nat, r: nat)
    | ClaimReadW(t: nat, p: nat)
    | ClaimReadC(t: nat, p: nat)
    | ClaimReadB(t: nat, b: nat)
    | ClaimTry(t: nat, spurious: bool)
    | ClaimFail(t: nat)
    | Deref(t: nat, id: nat, k: nat, x: Word)
    | ResolveBegin(t: nat, id: nat, dropping: bool)
    | ResolveReadC(t: nat, p: nat)
    | ResolveWriteC(t: nat)
    | Abort(t: nat, id: nat)
    | Release(t: nat)
    | LookReadW(t: nat, r: nat, p: nat)
    | LookReadC(t: nat, p: nat)
    | Post(t: nat)
    | Fetch(t: nat, k: nat)

  predicate ByProducer(a: Action) {
    a.PushBegin? || a.PushLoad? || a.PushDecide? || a.PushWrite? || a.PushStore? || a.PushPost? || a.PushFetch?
  }

  predicate OfPop(a: Action) {
    a.PopBegin? || a.PopCheckGate? || a.PopReadW? || a.PopReadC? || a.PopReadWord? || a.PopStore?
  }

  predicate OfClaim(a: Action) {
    a.ClaimBegin? || a.ClaimReadW? || a.ClaimReadC? || a.ClaimReadB? || a.ClaimTry? || a.ClaimFail?
  }

  predicate OfLoan(a: Action) {
    a.Deref? || a.ResolveBegin? || a.ResolveReadC? || a.ResolveWriteC? || a.Abort? || a.Release?
  }

  // ---- what a program counter stands for ------------------------------------------------

  predicate InFlight(pc: Pc, r: nat) { !pc.Idle? && pc.r == r }

  /** Pops, or looks at, reader `r`. */
  predicate Pops(pc: Pc, r: nat) {
    (pc.PopGate? || pc.PopLoadW? || pc.PopLoadC? || pc.PopCopy? || pc.Look?) && pc.r == r
  }

  predicate Claims(pc: Pc, r: nat) {
    (pc.ClaimLoadW? || pc.ClaimLoadC? || pc.ClaimLoadB? || pc.ClaimCas? || pc.ClaimQuit?) && pc.r == r
  }

  predicate Resolves(pc: Pc, id: nat) {
    (pc.ResolveLoad? || pc.ResolveStore?) && pc.id == id
  }

  /** The thread has raised `loan_depth[r]` for no live loan, or not lowered it yet. */
  predicate HoldsGate(pc: Pc, r: nat) { Claims(pc, r) || (pc.ReleaseGate? && pc.r == r) }

  function StageOf(p: Producer): Stage {
    if p.pc.PushFill? then Filling(p.pc.record, p.pc.done) else Settled
  }

  function LoansOf(loans: map<nat, Loan>, r: nat): set<nat> {
    set id | id in loans && loans[id].reader == r
  }

  function GateHolders(threads: seq<Thread>, r: nat): nat {
    if threads == [] then 0
    else (if HoldsGate(threads[0].pc, r) then 1 else 0) + GateHolders(threads[1..], r)
  }

  // ---- contracts of the crate -----------------------------------------------------------

  /** No operation on reader `r` is under way. */
  ghost predicate Quiet(s: State, r: nat) {
    forall t :: 0 <= t < |s.threads| ==> !InFlight(s.threads[t].pc, r)
  }

  /** No `try_pop`, `peek` or `len` on reader `r` is under way. */
  ghost predicate NoPop(s: State, r: nat) {
    forall t :: 0 <= t < |s.threads| ==> !Pops(s.threads[t].pc, r)
  }

  /** `id` has the highest index among the live loans of its reader. */
  ghost predicate Topmost(s: State, id: nat)
    requires id in s.loans
  {
    forall j :: j in s.loans && s.loans[j].reader == s.loans[id].reader ==> s.loans[j].index <= s.loans[id].index
  }

  /** The abort discipline: a loan is aborted only when no later loan is live. */
  ghost predicate Disciplined(s: State, a: Action) {
    a.Abort? && a.id in s.loans ==> Topmost(s, a.id)
  }

  /** A claim that hands an index out again does so on a thread that already knows
      every earlier dereference of it, made through loans aborted or dropped since. */
  ghost predicate Ordered(s: State, a: Action) {
    a.ClaimTry? && Wins(s, a) ==>
      var pc := s.threads[a.t].pc;
      KnowsReads(s.mem, s.threads[a.t].view, pc.r, Max(pc.b, pc.c))
  }

  /** The compare-and-swap of `claim` is about to succeed. */
  predicate Wins(s: State, a: Action)
    requires a.ClaimTry?
  {
    && a.t < |s.threads| && s.threads[a.t].pc.ClaimCas? && !a.spurious
    && s.threads[a.t].pc.r < |s.base| && s.base[s.threads[a.t].pc.r] == s.threads[a.t].pc.b
  }

  /** Thread `t` is ordered after everything done for reader `r`: it sees the newest cursor
      and gate, and knows what the finished pops and loans knew. */
  ghost predicate UpToDate(s: State, t: nat, r: nat)
    requires t < |s.threads|
  {
    var v := s.threads[t].view;
    && r < |v.cur| && r < |s.mem.cursors| && v.cur[r] + 1 == |s.mem.cursors[r]|
    && r < |v.gate| && r < |s.mem.gates| && v.gate[r] + 1 == |s.mem.gates[r]|
    && r < |s.trail| && s.trail[r].known <= v.known
  }

  /** One logical consumer per reader: a pop begins on a thread ordered after everything done
      for its reader before, a claim on one ordered after its last pop, and `len` or `peek` on
      one that sees its cursor. */
  ghost predicate HandedOver(s: State, a: Action) {
    && (a.PopBegin? && a.t < |s.threads| ==> UpToDate(s, a.t, a.r))
    && (a.ClaimBegin? && a.t < |s.threads| && a.r < |s.popped| && a.r < |s.threads[a.t].view.cur| ==>
          s.popped[a.r] <= s.threads[a.t].view.cur[a.r])
    && (a.LookReadW? && a.t < |s.threads| && a.r < |s.threads[a.t].view.cur| && a.r < |s.mem.cursors| ==>
          s.threads[a.t].view.cur[a.r] + 1 == |s.mem.cursors[a.r]|)
  }

  // ---- states ---------------------------------------------------------------------------

  predicate Wide(cfg: Config, v: View) { |v.cur| == |v.gate| == cfg.readers }

  ghost predicate Formed(cfg: Config, s: State) {
    && Shape(cfg, s.mem)
    && |s.base| == |s.popped| == |s.trail| == |s.taken| == cfg.readers
    && Wide(cfg, s.prod.view)
    && (forall t :: 0 <= t < |s.threads| ==>
          Wide(cfg, s.threads[t].view) && (s.threads[t].pc.Idle? || s.threads[t].pc.r < cfg.readers))
    && (forall id :: id in s.loans ==>
          s.loans[id].reader < cfg.readers && Wide(cfg, s.loans[id].view) && Wide(cfg, s.loans[id].uses))
    && (forall r :: 0 <= r < cfg.readers ==> Wide(cfg, s.trail[r]))
  }

  function Blank(cfg: Config): View { View(0, seq(cfg.readers, _ => 0), seq(cfg.readers, _ => 0), {}) }

  /** A fresh ring opened by `n` consumer threads. */
  function Init(cfg: Config, n: nat): State {
    var v := Blank(cfg);
    var zero := seq(cfg.words, _ => 0);
    State(
      Mem([], seq(cfg.capacity, _ => zero), [], [Msg(0, v)], seq(cfg.readers, _ => [Msg(0, v)]), seq(cfg.readers, _ => [0])),
      Producer(PushIdle, v),
      seq(n, _ => Thread(Idle, v)),
      seq(cfg.readers, _ => 0),
      map[],
      0,
      seq(cfg.readers, _ => 0),
      seq(cfg.readers, _ => v),
      seq(cfg.readers, _ => []),
      [])
  }

  // ---- enabled steps --------------------------------------------------------------------

  /** The positions of `write_idx` a thread with view `v` may load. */
  predicate MayLoadW(s: State, v: View, p: nat) { v.w <= p < |s.mem.published| }

  predicate MayLoadC(cfg: Config, s: State, v: View, r: nat, p: nat)
    requires |v.cur| == cfg.readers == |s.mem.cursors|
  {
    r < cfg.readers && v.cur[r] <= p < |s.mem.cursors[r]|
  }

  /** The positions of `loan_depth[r]` a relaxed load may return. */
  predicate MayLoadGate(cfg: Config, s: State, v: View, r: nat, d: nat)
    requires |v.gate| == cfg.readers == |s.mem.gates|
  {
    r < cfg.readers && v.gate[r] <= d < |s.mem.gates[r]|
  }

  ghost predicate At(s: State, t: nat) { t < |s.threads| }

  /** The step is one its thread can take next. */
  ghost predicate Ready(cfg: Config, s: State, a: Action)
    requires Formed(cfg, s)
  {
    match a
    case PushBegin(record) => s.prod.pc.PushIdle? && |record| == cfg.words && Published(s.mem) < U64_MAX
    case PushLoad(p) => s.prod.pc.PushScan? && MayLoadC(cfg, s, s.prod.view, s.prod.pc.next, p)
    case PushDecide => s.prod.pc.PushScan? && s.prod.pc.next == cfg.readers
    case PushWrite => s.prod.pc.PushFill? && s.prod.pc.done < |s.prod.pc.record| == cfg.words
    case PushStore => s.prod.pc.PushFill? && s.prod.pc.done == cfg.words
    case PushPost => s.prod.pc.PushIdle?
    case PushFetch(k) => s.prod.pc.PushIdle? && k < |s.posts|
    case PopBegin(t, r) => At(s, t) && s.threads[t].pc.Idle? && r < cfg.readers && Quiet(s, r)
    case PopCheckGate(t, d) =>
      At(s, t) && s.threads[t].pc.PopGate? && MayLoadGate(cfg, s, s.threads[t].view, s.threads[t].pc.r, d)
    case PopReadW(t, p) => At(s, t) && s.threads[t].pc.PopLoadW? && MayLoadW(s, s.threads[t].view, p)
    case PopReadC(t, p) =>
      At(s, t) && s.threads[t].pc.PopLoadC? && MayLoadC(cfg, s, s.threads[t].view, s.threads[t].pc.r, p)
    case PopReadWord(t, x) =>
      At(s, t) && s.threads[t].pc.PopCopy? && |s.threads[t].pc.buf| < cfg.words
      && MayRead(cfg, s.mem, s.threads[t].view, s.threads[t].pc.c, |s.threads[t].pc.buf|, x)
    case PopStore(t) => At(s, t) && s.threads[t].pc.PopCopy? && |s.threads[t].pc.buf| == cfg.words
    case ClaimBegin(t, r) => At(s, t) && s.threads[t].pc.Idle? && r < cfg.readers && NoPop(s, r)
    case ClaimReadW(t, p) => At(s, t) && s.threads[t].pc.ClaimLoadW? && MayLoadW(s, s.threads[t].view, p)
    case ClaimReadC(t, p) =>
      At(s, t) && s.threads[t].pc.ClaimLoadC? && MayLoadC(cfg, s, s.threads[t].view, s.threads[t].pc.r, p)
    case ClaimReadB(t, b) => At(s, t) && s.threads[t].pc.ClaimLoadB?
    case ClaimTry(t, spurious) => At(s, t) && s.threads[t].pc.ClaimCas?
    case ClaimFail(t) => At(s, t) && s.threads[t].pc.ClaimQuit?
    case Deref(t, id, k, x) =>
      At(s, t) && s.threads[t].pc.Idle? && id in s.loans && !s.loans[id].busy && k < cfg.words
      && MayRead(cfg, s.mem, Join(s.threads[t].view, s.loans[id].view), s.loans[id].index, k, x)
    case ResolveBegin(t, id, dropping) =>
      At(s, t) && s.threads[t].pc.Idle? && id in s.loans && !s.loans[id].busy && NoPop(s, s.loans[id].reader)
    case ResolveReadC(t, p) =>
      At(s, t) && s.threads[t].pc.ResolveLoad? && s.threads[t].pc.id in s.loans
      && MayLoadC(cfg, s, s.threads[t].view, s.threads[t].pc.r, p)
    case ResolveWriteC(t) => At(s, t) && s.threads[t].pc.ResolveStore? && s.threads[t].pc.id in s.loans
    case Abort(t, id) =>
      At(s, t) && s.threads[t].pc.Idle? && id in s.loans && !s.loans[id].busy && NoPop(s, s.loans[id].reader)
    case Release(t) => At(s, t) && s.threads[t].pc.ReleaseGate?
    case LookReadW(t, r, p) =>
      At(s, t) && s.threads[t].pc.Idle? && r < cfg.readers && Quiet(s, r) && MayLoadW(s, s.threads[t].view, p)
    case LookReadC(t, p) =>
      At(s, t) && s.threads[t].pc.Look? && MayLoadC(cfg, s, s.threads[t].view, s.threads[t].pc.r, p)
    case Post(t) => At(s, t) && s.threads[t].pc.Idle?
    case Fetch(t, k) => At(s, t) && s.threads[t].pc.Idle? && k < |s.posts|
  }

  ghost predicate Enabled(cfg: Config, s: State, a: Action) {
    Formed(cfg, s) && Ready(cfg, s, a)
  }


  // ---- effects --------------------------------------------------------------------------

  /** What a thread sees after a read-modify-write of `loan_depth[r]`. */
  function AtGate(s: State, v: View, r: nat): View
    requires r < |v.gate| && r < |s.mem.gates|
  {
    v.(gate := v.gate[r := |s.mem.gates[r]|])
  }

  function Set(s: State, t: nat, pc: Pc, v: View): State
    requires t < |s.threads|
  {
    s.(threads := s.threads[t := Thread(pc, v)])
  }

  function DoPush(cfg: Config, s: State, a: Action): State
    requires ByProducer(a)
    requires Enabled(cfg, s, a)
  {
    var pc, v := s.prod.pc, s.prod.view;
    match a
    case PushBegin(record) =>
      var w := s.mem.published[|s.mem.published| - 1].val;
      s.(prod := Producer(PushScan(record, w, 0, U64_MAX), v))
    case PushLoad(p) =>
      var m := s.mem.cursors[pc.next][p];
      s.(prod := Producer(pc.(next := pc.next + 1, min := if m.val < pc.min then m.val else pc.min), Join(v, m.view)))
    case PushDecide =>
      if WrappingSub(pc.w, pc.min) >= cfg.capacity then s.(prod := Producer(PushIdle, v))
      else s.(prod := Producer(PushFill(pc.record, pc.w, 0), v))
    case PushWrite =>
      s.(mem := WriteWord(cfg, s.mem, pc.w, pc.done, pc.record[pc.done]),
         prod := Producer(pc.(done := pc.done + 1), Learn(v, |s.mem.log|)))
    case PushStore =>
      var u := v.(w := |s.mem.published|);
      s.(mem := StoreWrite(s.mem, pc.w + 1, u, pc.record), prod := Producer(PushIdle, u))
    case PushPost => s.(posts := s.posts + [v])
    case PushFetch(k) => s.(prod := Producer(PushIdle, Join(v, s.posts[k])))
  }

  function DoPop(cfg: Config, s: State, a: Action): State
    requires OfPop(a)
    requires Enabled(cfg, s, a)
  {
    var pc, v := s.threads[a.t].pc, s.threads[a.t].view;
    match a
    case PopBegin(t, r) => Set(s, t, PopGate(r), v)
    case PopCheckGate(t, d) =>
      var u := v.(gate := v.gate[pc.r := d]);
      Set(s, t, if s.mem.gates[pc.r][d] != 0 then Idle else PopLoadW(pc.r), u)
    case PopReadW(t, p) =>
      var m := s.mem.published[p];
      Set(s, t, PopLoadC(pc.r, m.val), Join(v, m.view))
    case PopReadC(t, p) =>
      var m := s.mem.cursors[pc.r][p];
      Set(s, t, if m.val == pc.w then Idle else PopCopy(pc.r, m.val, []), Join(v, m.view))
    case PopReadWord(t, x) =>
      Set(s, t, pc.(buf := pc.buf + [x]), Learn(v, |s.mem.log|))
      .(mem := ReadWord(s.mem, pc.r, pc.c, |pc.buf|))
    case PopStore(t) =>
      var r := pc.r;
      var u := v.(cur := v.cur[r := |s.mem.cursors[r]|]);
      Set(s, t, Idle, u)
      .(mem := StoreCursor(s.mem, r, pc.c + 1, u),
        popped := s.popped[r := pc.c + 1],
        trail := s.trail[r := Join(s.trail[r], u)],
        taken := s.taken[r := s.taken[r] + [pc.buf]])
  }

  function DoClaim(cfg: Config, s: State, a: Action): State
    requires OfClaim(a)
    requires Enabled(cfg, s, a)
  {
    var pc, v := s.threads[a.t].pc, s.threads[a.t].view;
    match a
    case ClaimBegin(t, r) =>
      Set(s, t, ClaimLoadW(r), AtGate(s, v, r)).(mem := StepGate(s.mem, r, Gate(s.mem, r) + 1))
    case ClaimReadW(t, p) =>
      var m := s.mem.published[p];
      Set(s, t, ClaimLoadC(pc.r, m.val), Join(v, m.view))
    case ClaimReadC(t, p) =>
      var m := s.mem.cursors[pc.r][p];
      Set(s, t, ClaimLoadB(pc.r, pc.w, m.val), Join(v, m.view))
    case ClaimReadB(t, b) =>
      Set(s, t, if Max(b, pc.c) >= pc.w then ClaimQuit(pc.r) else ClaimCas(pc.r, pc.w, pc.c, b), v)
    case ClaimTry(t, spurious) =>
      if s.base[pc.r] != pc.b || spurious then Set(s, t, ClaimLoadW(pc.r), v)
      else
        var index := Max(pc.b, pc.c);
        Set(s, t, Idle, v)
        .(base := s.base[pc.r := index + 1],
          loans := s.loans[s.issued := Loan(pc.r, index, v, v, false)],
          issued := s.issued + 1)
    case ClaimFail(t) =>
      Set(s, t, Idle, AtGate(s, v, pc.r)).(mem := StepGate(s.mem, pc.r, Gate(s.mem, pc.r) - 1))
  }

  /** The loan `id` is over: `u` is what its last owner knows. */
  function Retire(s: State, t: nat, id: nat, u: View): State
    requires t < |s.threads| && id in s.loans && s.loans[id].reader < |s.trail|
  {
    var r := s.loans[id].reader;
    Set(s, t, ReleaseGate(r), u).(loans := s.loans - {id}, trail := s.trail[r := Join(s.trail[r], u)])
  }

  /** Whoever resolves a loan has it to itself, so comes after its claim and all its uses. */
  function Owned(s: State, t: nat, id: nat): View
    requires t < |s.threads| && id in s.loans
  {
    Join(Join(s.threads[t].view, s.loans[id].view), s.loans[id].uses)
  }

  function DoLoan(cfg: Config, s: State, a: Action): State
    requires OfLoan(a)
    requires Enabled(cfg, s, a)
  {
    var pc, v := s.threads[a.t].pc, s.threads[a.t].view;
    match a
    case Deref(t, id, k, x) =>
      var l := s.loans[id];
      var u := Learn(Join(v, l.view), |s.mem.log|);
      Set(s, t, Idle, u)
      .(mem := ReadWord(s.mem, l.reader, l.index, k),
        loans := s.loans[id := l.(uses := Join(l.uses, u))])
    case ResolveBegin(t, id, dropping) =>
      Set(s, t, ResolveLoad(s.loans[id].reader, id, dropping), Owned(s, t, id))
      .(loans := s.loans[id := s.loans[id].(busy := true)])
    case ResolveReadC(t, p) =>
      var m := s.mem.cursors[pc.r][p];
      var u := Join(v, m.view);
      if m.val == s.loans[pc.id].index then Set(s, t, ResolveStore(pc.r, pc.id), u)
      else if pc.dropping then Retire(s, t, pc.id, u)
      else Set(s, t, Idle, u).(loans := s.loans[pc.id := s.loans[pc.id].(busy := false)])
    case ResolveWriteC(t) =>
      var r := pc.r;
      var l := s.loans[pc.id];
      var u := v.(cur := v.cur[r := |s.mem.cursors[r]|]);
      Retire(s, t, pc.id, u)
      .(mem := StoreCursor(s.mem, r, l.index + 1, u),
        taken := s.taken[r := s.taken[r] + [s.mem.slots[Slot(cfg, l.index)]]])
    case Abort(t, id) =>
      var l := s.loans[id];
      Retire(s, t, id, Owned(s, t, id))
      .(base := s.base[l.reader := if l.index < s.base[l.reader] then l.index else s.base[l.reader]])
    case Release(t) =>
      Set(s, t, Idle, AtGate(s, v, pc.r)).(mem := StepGate(s.mem, pc.r, Gate(s.mem, pc.r) - 1))
  }

  function DoOther(cfg: Config, s: State, a: Action): State
    requires a.LookReadW? || a.LookReadC? || a.Post? || a.Fetch?
    requires Enabled(cfg, s, a)
  {
    var pc, v := s.threads[a.t].pc, s.threads[a.t].view;
    match a
    case LookReadW(t, r, p) =>
      var m := s.mem.published[p];
      Set(s, t, Look(r, m.val), Join(v, m.view))
    case LookReadC(t, p) => Set(s, t, Idle, Join(v, s.mem.cursors[pc.r][p].view))
    case Post(t) => s.(posts := s.posts + [v])
    case Fetch(t, k) => Set(s, t, Idle, Join(v, s.posts[k]))
  }

  function Apply(cfg: Config, s: State, a: Action): State
    requires Enabled(cfg, s, a)
  {
    match a
    case PushBegin(_) => DoPush(cfg, s, a)
    case PushLoad(_) => DoPush(cfg, s, a)
    case PushDecide => DoPush(cfg, s, a)
    case PushWrite => DoPush(cfg, s, a)
    case PushStore => DoPush(cfg, s, a)
    case PushPost => DoPush(cfg, s, a)
    case PushFetch(_) => DoPush(cfg, s, a)
    case PopBegin(_, _) => DoPop(cfg, s, a)
    case PopCheckGate(_, _) => DoPop(cfg, s, a)
    case PopReadW(_, _) => DoPop(cfg, s, a)
    case PopReadC(_, _) => DoPop(cfg, s, a)
    case PopReadWord(_, _) => DoPop(cfg, s, a)
    case PopStore(_) => DoPop(cfg, s, a)
    case ClaimBegin(_, _) => DoClaim(cfg, s, a)
    case ClaimReadW(_, _) => DoClaim(cfg, s, a)
    case ClaimReadC(_, _) => DoClaim(cfg, s, a)
    case ClaimReadB(_, _) => DoClaim(cfg, s, a)
    case ClaimTry(_, _) => DoClaim(cfg, s, a)
    case ClaimFail(_) => DoClaim(cfg, s, a)
    case Deref(_, _, _, _) => DoLoan(cfg, s, a)
    case ResolveBegin(_, _, _) => DoLoan(cfg, s, a)
    case ResolveReadC(_, _) => DoLoan(cfg, s, a)
    case ResolveWriteC(_) => DoLoan(cfg, s, a)
    case Abort(_, _) => DoLoan(cfg, s, a)
    case Release(_) => DoLoan(cfg, s, a)
    case LookReadW(_, _, _) => DoOther(cfg, s, a)
    case LookReadC(_, _) => DoOther(cfg, s, a)
    case Post(_) => DoOther(cfg, s, a)
    case Fetch(_, _) => DoOther(cfg, s, a)
  }
}
