/** Shared memory under release/acquire, with no global order on loads.

    `write_idx` and each reader cursor keep every value ever stored to them, each
    with the view the storing thread released.  An acquire load may return any value
    not older than the loading thread's view and joins the view stored with it, which
    is all that acquire/release guarantees ([atomics.order], section 32.4 of C++17).
    A loan gate is relaxed: a load of it obeys the view too but joins nothing, and
    read-modify-writes act on its newest value.
    Slot words are plain memory: every word access is an event, and the events a view
    `known` are the ones that happen before the thread holding that view. */
module Memory {
  import opened Common
  import opened Bits

  // A payload word is only moved, never inspected.
  type Word = int
  type Record = seq<Word>

  datatype Config = Config(capacity: nat, readers: nat, words: nat) {
    ghost predicate Valid() {
      capacity >= 1 && 1 <= readers <= 8 && words >= 1
    }
  }

  datatype Access =
    | Write(index: nat, word: nat)
    | Read(reader: nat, index: nat, word: nat)

  /** What one thread is guaranteed to see: the position of `write_idx`, of each cursor and
      of each loan gate it may no longer look behind, and the accesses ordered before it. */
  datatype View = View(w: nat, cur: seq<nat>, gate: seq<nat>, known: set<nat>)

  datatype Msg = Msg(val: nat, view: View)

  datatype Mem = Mem(
    stream: seq<Record>,        // every record published so far, oldest first
    slots: seq<Record>,         // the slot array of the mapping
    log: seq<Access>,           // every slot access so far
    published: seq<Msg>,        // the values of write_idx
    cursors: seq<seq<Msg>>,     // the values of read_indices[r]
    gates: seq<seq<int>>)       // the values of loan_depth[r], which releases no view

  /** How far the producer is into the record after the last published one. */
  datatype Stage = Settled | Filling(record: Record, done: nat)

  function Slot(cfg: Config, index: nat): nat
    requires cfg.capacity >= 1
  {
    index % cfg.capacity
  }

  /** Number of published records, that is, the newest value of `write_idx`. */
  function Published(mem: Mem): nat { |mem.stream| }

  /** Position of the newest store to cursor `r`. */
  function Consumed(mem: Mem, r: nat): nat
    requires r < |mem.cursors| && |mem.cursors[r]| >= 1
  {
    |mem.cursors[r]| - 1
  }

  /** The newest value of `loan_depth[r]`. */
  function Gate(mem: Mem, r: nat): int
    requires r < |mem.gates| && |mem.gates[r]| >= 1
  {
    mem.gates[r][|mem.gates[r]| - 1]
  }

  function Newer(a: seq<nat>, b: seq<nat>): seq<nat> {
    seq(|a|, r requires 0 <= r < |a| => Max(a[r], if r < |b| then b[r] else 0))
  }

  /** Everything either view sees. */
  function Join(a: View, b: View): View {
    View(Max(a.w, b.w), Newer(a.cur, b.cur), Newer(a.gate, b.gate), a.known + b.known)
  }

  function Learn(v: View, event: nat): View { v.(known := v.known + {event}) }

  // ---- the operations on the mapping ------------------------------------------------

  function WriteWord(cfg: Config, mem: Mem, index: nat, k: nat, x: Word): Mem
    requires cfg.capacity >= 1 && Slot(cfg, index) < |mem.slots| && k < |mem.slots[Slot(cfg, index)]|
  {
    var p := Slot(cfg, index);
    mem.(slots := mem.slots[p := mem.slots[p][k := x]], log := mem.log + [Write(index, k)])
  }

  function ReadWord(mem: Mem, r: nat, index: nat, k: nat): Mem {
    mem.(log := mem.log + [Read(r, index, k)])
  }

  /** Release store of `val` to `write_idx`. */
  function StoreWrite(mem: Mem, val: nat, v: View, record: Record): Mem {
    mem.(stream := mem.stream + [record], published := mem.published + [Msg(val, v)])
  }

  /** Release store of `val` to cursor `r`. */
  function StoreCursor(mem: Mem, r: nat, val: nat, v: View): Mem
    requires r < |mem.cursors|
  {
    mem.(cursors := mem.cursors[r := mem.cursors[r] + [Msg(val, v)]])
  }

  /** Relaxed read-modify-write of `loan_depth[r]`, which leaves `d` behind. */
  function StepGate(mem: Mem, r: nat, d: int): Mem
    requires r < |mem.gates|
  {
    mem.(gates := mem.gates[r := mem.gates[r] + [d]])
  }

  // ---- data races -------------------------------------------------------------------

  /** `a` touches word `k` of the slot of `index`. */
  predicate Touches(cfg: Config, a: Access, index: nat, k: nat)
    requires cfg.capacity >= 1
  {
    a.word == k && Slot(cfg, a.index) == Slot(cfg, index)
  }

  /** Every earlier write to this slot word happens before a thread with view `v`. */
  ghost predicate WritesOrdered(cfg: Config, mem: Mem, v: View, index: nat, k: nat)
    requires cfg.capacity >= 1
  {
    forall e :: 0 <= e < |mem.log| && mem.log[e].Write? && Touches(cfg, mem.log[e], index, k) ==> e in v.known
  }

  /** Every earlier read of this slot word happens before a thread with view `v`. */
  ghost predicate ReadsOrdered(cfg: Config, mem: Mem, v: View, index: nat, k: nat)
    requires cfg.capacity >= 1
  {
    forall e :: 0 <= e < |mem.log| && mem.log[e].Read? && Touches(cfg, mem.log[e], index, k) ==> e in v.known
  }

  /** The values a plain read may return: the stored word when all writes to it are
      ordered before the read, anything at all when one of them is not. */
  ghost predicate MayRead(cfg: Config, mem: Mem, v: View, index: nat, k: nat, x: Word)
    requires cfg.capacity >= 1 && Slot(cfg, index) < |mem.slots| && k < |mem.slots[Slot(cfg, index)]|
  {
    WritesOrdered(cfg, mem, v, index, k) ==> x == mem.slots[Slot(cfg, index)][k]
  }

  // ---- invariant of the mapping -------------------------------------------------------

  /** `v` is in range, and knows every write of the records it may acquire. */
  ghost predicate GoodView(cfg: Config, mem: Mem, v: View) {
    && |v.cur| == |v.gate| == cfg.readers == |mem.cursors| == |mem.gates|
    && v.w < |mem.published|
    && (forall r :: 0 <= r < cfg.readers ==> v.cur[r] < |mem.cursors[r]| && v.cur[r] <= v.w)
    && (forall r :: 0 <= r < cfg.readers ==> v.gate[r] < |mem.gates[r]|)
    && (forall e :: e in v.known ==> e < |mem.log|)
    && (forall e :: 0 <= e < |mem.log| && mem.log[e].Write? && mem.log[e].index < v.w ==> e in v.known)
  }

  /** `a` is a read of a record behind the cursors seen in `cur`. */
  predicate Behind(a: Access, cur: seq<nat>) {
    a.Read? && a.reader < |cur| && a.index < cur[a.reader]
  }

  /** `v` knows every read behind the cursors it has seen: the reclaim edge. */
  ghost predicate Reclaims(mem: Mem, v: View) {
    forall e :: 0 <= e < |mem.log| && Behind(mem.log[e], v.cur) ==> e in v.known
  }

  /** `v` knows every read of record `index` made for reader `r`. */
  ghost predicate KnowsReads(mem: Mem, v: View, r: nat, index: nat) {
    forall e :: 0 <= e < |mem.log| && IsRead(mem.log[e], r, index) ==> e in v.known
  }

  predicate IsRead(a: Access, r: nat, index: nat) {
    a.Read? && a.reader == r && a.index == index
  }

  /** With `hb`, views are in addition required to carry the reclaim edge. */
  ghost predicate Good(cfg: Config, mem: Mem, v: View, hb: bool) {
    GoodView(cfg, mem, v) && (hb ==> Reclaims(mem, v))
  }

  ghost predicate Shape(cfg: Config, mem: Mem) {
    && cfg.Valid()
    && |mem.slots| == cfg.capacity
    && (forall p :: 0 <= p < |mem.slots| ==> |mem.slots[p]| == cfg.words)
    && |mem.published| == |mem.stream| + 1
    && |mem.cursors| == cfg.readers
    && (forall r :: 0 <= r < cfg.readers ==> |mem.cursors[r]| >= 1)
    && |mem.gates| == cfg.readers
    && (forall r :: 0 <= r < cfg.readers ==> |mem.gates[r]| >= 1)
  }

  /** Stores to each index word counted up by one, and their views are good. */
  ghost predicate Histories(cfg: Config, mem: Mem, hb: bool)
    requires Shape(cfg, mem)
  {
    && (forall p :: 0 <= p < |mem.published| ==>
          mem.published[p].val == p && mem.published[p].view.w == p && Good(cfg, mem, mem.published[p].view, hb))
    && (forall r, p :: 0 <= r < cfg.readers && 0 <= p < |mem.cursors[r]| ==>
          mem.cursors[r][p].val == p && Good(cfg, mem, mem.cursors[r][p].view, hb)
          && mem.cursors[r][p].view.cur[r] == p)
  }

  /** Backpressure: no cursor is ahead of the stream or more than `capacity` behind it,
      strictly less than that while the producer is filling the next slot. */
  ghost predicate Bounded(cfg: Config, mem: Mem, st: Stage)
    requires Shape(cfg, mem)
  {
    forall r :: 0 <= r < cfg.readers ==>
      && |mem.cursors[r]| - 1 <= Published(mem)
      && Published(mem) + (if st.Filling? then 1 else 0) <= |mem.cursors[r]| - 1 + cfg.capacity
  }

  /** The log holds writes of published records and of the one being filled only. */
  ghost predicate LogOk(cfg: Config, mem: Mem, st: Stage) {
    forall e :: 0 <= e < |mem.log| ==>
      && (mem.log[e].Write? ==> mem.log[e].index < Published(mem) + (if st.Filling? then 1 else 0))
      && (mem.log[e].Read? ==> mem.log[e].reader < cfg.readers && mem.log[e].index < Published(mem))
  }

  /** The slots of the last `capacity` records still hold those records. */
  ghost predicate Contents(cfg: Config, mem: Mem, st: Stage)
    requires Shape(cfg, mem)
  {
    && (forall i :: 0 <= i < |mem.stream| ==> |mem.stream[i]| == cfg.words)
    && (forall i :: 0 <= i < |mem.stream|
          && |mem.stream| + (if st.Filling? then 1 else 0) <= i + cfg.capacity
          ==> mem.slots[Slot(cfg, i)] == mem.stream[i])
    && (st.Filling? ==>
          && |st.record| == cfg.words && st.done <= cfg.words
          && mem.slots[Slot(cfg, |mem.stream|)][..st.done] == st.record[..st.done])
  }

  ghost predicate MemInv(cfg: Config, mem: Mem, st: Stage, hb: bool) {
    && Shape(cfg, mem)
    && Histories(cfg, mem, hb)
    && Bounded(cfg, mem, st)
    && LogOk(cfg, mem, st)
    && Contents(cfg, mem, st)
  }

  // ---- lemmas -------------------------------------------------------------------------

  /** Two indices that share a slot are at least a whole capacity apart. */
  lemma SlotGap(cfg: Config, i: nat, j: nat)
    requires cfg.capacity >= 1 && Slot(cfg, i) == Slot(cfg, j) && i < j
    ensures i + cfg.capacity <= j
  {
    SameResidueGap(i, j, cfg.capacity);
  }

  lemma JoinGood(cfg: Config, mem: Mem, a: View, b: View, hb: bool)
    requires Good(cfg, mem, a, hb) && Good(cfg, mem, b, hb)
    ensures Good(cfg, mem, Join(a, b), hb)
  {
  }

  /** A step that appends at most one access keeps a good view good, provided a new
      write is not of an acquired record and a new read is not behind a cursor. */
  lemma GoodGrows(cfg: Config, mem: Mem, next: Mem, v: View, hb: bool)
    requires Good(cfg, mem, v, hb)
    requires |mem.log| <= |next.log| <= |mem.log| + 1 && next.log[..|mem.log|] == mem.log
    requires |mem.published| <= |next.published|
    requires |next.cursors| == |mem.cursors|
    requires forall r :: 0 <= r < |mem.cursors| ==> |mem.cursors[r]| <= |next.cursors[r]|
    requires |next.gates| == |mem.gates|
    requires forall r :: 0 <= r < |mem.gates| ==> |mem.gates[r]| <= |next.gates[r]|
    requires forall e :: |mem.log| <= e < |next.log| ==>
      && (next.log[e].Write? ==> next.log[e].index + 1 >= |mem.published|)
      && (next.log[e].Read? ==> !Behind(next.log[e], v.cur))
    ensures Good(cfg, next, v, hb)
  {
    assert forall e :: 0 <= e < |mem.log| ==> next.log[e] == mem.log[e];
  }

  /** A read of a record the cursor has not passed, by a thread that acquired it, is
      ordered after every write to that word and returns the published word. */
  lemma ReadExact(cfg: Config, mem: Mem, st: Stage, hb: bool, v: View, r: nat, index: nat, k: nat)
    requires MemInv(cfg, mem, st, hb) && GoodView(cfg, mem, v)
    requires r < cfg.readers && Consumed(mem, r) <= index < v.w && k < cfg.words
    ensures WritesOrdered(cfg, mem, v, index, k)
    ensures mem.slots[Slot(cfg, index)] == mem.stream[index]
  {
    forall e | 0 <= e < |mem.log| && mem.log[e].Write? && Touches(cfg, mem.log[e], index, k)
      ensures e in v.known
    {
      var j := mem.log[e].index;
      if index < j {
        SlotGap(cfg, index, j);
        assert false;
      }
    }
  }

  lemma GateKeeps(cfg: Config, mem: Mem, st: Stage, hb: bool, r: nat, d: int)
    requires MemInv(cfg, mem, st, hb) && r < cfg.readers
    ensures MemInv(cfg, StepGate(mem, r, d), st, hb)
    ensures forall v :: Good(cfg, mem, v, hb) ==> Good(cfg, StepGate(mem, r, d), v, hb)
  {
    var next := StepGate(mem, r, d);
    forall v | Good(cfg, mem, v, hb) ensures Good(cfg, next, v, hb) {
      GoodGrows(cfg, mem, next, v, hb);
    }
  }

  lemma ReadKeeps(cfg: Config, mem: Mem, st: Stage, hb: bool, r: nat, index: nat, k: nat)
    requires MemInv(cfg, mem, st, hb)
    requires r < cfg.readers && Consumed(mem, r) <= index < Published(mem)
    ensures MemInv(cfg, ReadWord(mem, r, index, k), st, hb)
    ensures forall v :: Good(cfg, mem, v, hb) ==> Good(cfg, ReadWord(mem, r, index, k), v, hb)
  {
    var next := ReadWord(mem, r, index, k);
    forall v | Good(cfg, mem, v, hb) ensures Good(cfg, next, v, hb) {
      GoodGrows(cfg, mem, next, v, hb);
    }
  }

  /** The producer's slot write: with the cursors it has seen all within `capacity`, it
      is ordered after every earlier write to the word, and with `hb` after every read. */
  lemma WriteOrdered(cfg: Config, mem: Mem, st: Stage, hb: bool, v: View, k: nat)
    requires MemInv(cfg, mem, st, hb) && Good(cfg, mem, v, hb) && st.Filling?
    requires v.w == Published(mem)
    requires forall r :: 0 <= r < cfg.readers ==> Published(mem) < v.cur[r] + cfg.capacity
    requires forall e :: 0 <= e < |mem.log| && mem.log[e].Write? && mem.log[e].index == v.w ==> e in v.known
    ensures WritesOrdered(cfg, mem, v, v.w, k)
    ensures hb ==> ReadsOrdered(cfg, mem, v, v.w, k)
  {
    if hb {
      forall e | 0 <= e < |mem.log| && mem.log[e].Read? && Touches(cfg, mem.log[e], v.w, k)
        ensures e in v.known
      {
        SlotGap(cfg, mem.log[e].index, v.w);
      }
    }
  }

  lemma WriteKeeps(cfg: Config, mem: Mem, st: Stage, hb: bool)
    requires MemInv(cfg, mem, st, hb) && st.Filling? && st.done < cfg.words
    ensures Slot(cfg, |mem.stream|) < |mem.slots|
    ensures var next := WriteWord(cfg, mem, |mem.stream|, st.done, st.record[st.done]);
            && MemInv(cfg, next, st.(done := st.done + 1), hb)
            && forall v :: Good(cfg, mem, v, hb) ==> Good(cfg, next, v, hb)
  {
    var w := |mem.stream|;
    var next := WriteWord(cfg, mem, w, st.done, st.record[st.done]);
    forall v | Good(cfg, mem, v, hb) ensures Good(cfg, next, v, hb) {
      GoodGrows(cfg, mem, next, v, hb);
    }
    forall i | 0 <= i < w && w + 1 <= i + cfg.capacity ensures next.slots[Slot(cfg, i)] == next.stream[i] {
      if Slot(cfg, i) == Slot(cfg, w) {
        SlotGap(cfg, i, w);
      }
    }
  }

  /** Release store of the next `write_idx`: publishes the record just filled. */
  lemma PublishKeeps(cfg: Config, mem: Mem, st: Stage, hb: bool, v: View)
    requires MemInv(cfg, mem, st, hb) && Good(cfg, mem, v, hb) && st.Filling? && st.done == cfg.words
    requires v.w == Published(mem)
    requires forall e :: 0 <= e < |mem.log| && mem.log[e].Write? && mem.log[e].index == v.w ==> e in v.known
    ensures var u := v.(w := v.w + 1);
            var next := StoreWrite(mem, v.w + 1, u, st.record);
            && MemInv(cfg, next, Settled, hb)
            && Good(cfg, next, u, hb)
            && forall x :: Good(cfg, mem, x, hb) ==> Good(cfg, next, x, hb)
  {
    var w := |mem.stream|;
    var next := StoreWrite(mem, v.w + 1, v.(w := v.w + 1), st.record);
    forall x | Good(cfg, mem, x, hb) ensures Good(cfg, next, x, hb) {
      GoodGrows(cfg, mem, next, x, hb);
    }
    assert st.record[..st.done] == st.record;
    assert mem.slots[Slot(cfg, w)][..st.done] == mem.slots[Slot(cfg, w)];
  }

  /** Release store of the next cursor value by a thread that saw the present one and,
      with `hb`, knows every read of the record it releases. */
  lemma AdvanceKeeps(cfg: Config, mem: Mem, st: Stage, hb: bool, r: nat, v: View)
    requires MemInv(cfg, mem, st, hb) && Good(cfg, mem, v, hb) && r < cfg.readers
    requires v.cur[r] == Consumed(mem, r) < Published(mem) && v.cur[r] < v.w
    requires hb ==> KnowsReads(mem, v, r, v.cur[r])
    ensures var u := v.(cur := v.cur[r := v.cur[r] + 1]);
            var next := StoreCursor(mem, r, v.cur[r] + 1, u);
            && MemInv(cfg, next, st, hb)
            && Good(cfg, next, u, hb)
            && forall x :: Good(cfg, mem, x, hb) ==> Good(cfg, next, x, hb)
  {
    var u := v.(cur := v.cur[r := v.cur[r] + 1]);
    var next := StoreCursor(mem, r, v.cur[r] + 1, u);
    forall x | Good(cfg, mem, x, hb) ensures Good(cfg, next, x, hb) {
      GoodGrows(cfg, mem, next, x, hb);
    }
  }
}
