/** `SpmcRingBuffer` and `Loan` as objects over a shared mapping: arrays, masks and loops,
    refining an unbounded broadcast log and, per reader and handle, the claim pipeline.
    Calls happen one at a time here; `Protocol` interleaves their steps. */
module Ring {
  import opened Common
  import opened Bits
  import opened Pipeline

  // ---- the shared mapping ---------------------------------------------------------------

  /** The mapped file: header words and slots, with what was ever published and what each
      reader consumed as ghost history. */
  class Mapping<T> {
    var writeIdx: nat
    var totalWritten: nat
    const numReaders: nat
    const readIdx: array<nat>
    const slots: array<T>
    ghost var stream: seq<T>
    ghost var taken: seq<seq<T>>

    ghost predicate Valid()
      reads this, readIdx, slots
    {
      && PowerOfTwo(slots.Length)
      && 1 <= numReaders <= MAX_READERS == readIdx.Length == |taken|
      && (readIdx as object) != (slots as object)
      && writeIdx == totalWritten == |stream| <= U64_MAX
      && (forall r :: 0 <= r < MAX_READERS ==> readIdx[r] <= |stream| && taken[r] == stream[..readIdx[r]])
      && (forall r :: 0 <= r < numReaders ==> |stream| <= readIdx[r] + slots.Length)
      && (forall r :: numReaders <= r < MAX_READERS ==> readIdx[r] == 0)
      && (forall k :: 0 <= k < |stream| <= k + slots.Length ==> slots[k % slots.Length] == stream[k])
    }

    constructor (capacity: nat, numReaders: nat, zero: T)
      requires PowerOfTwo(capacity) && 1 <= numReaders <= MAX_READERS
      ensures Valid() && fresh(readIdx) && fresh(slots)
      ensures slots.Length == capacity && this.numReaders == numReaders && stream == []
    {
      this.numReaders := numReaders;
      writeIdx, totalWritten := 0, 0;
      readIdx := new nat[MAX_READERS](_ => 0);
      slots := new T[capacity](_ => zero);
      stream := [];
      taken := seq(MAX_READERS, _ => []);
    }

    /** `slot_ptr`: the masked slot of a stream index. */
    function SlotOf(index: nat): (p: nat)
      reads this
      requires PowerOfTwo(slots.Length)
      ensures p < slots.Length && p == index % slots.Length
    {
      MaskIsModulo(index, slots.Length);
      And(index, slots.Length - 1)
    }

    /** `slowest_read_idx`: a fold over the participating cursors. */
    method SlowestReadIdx() returns (m: nat)
      requires Valid()
      ensures m == Slowest(readIdx[..], numReaders)
      ensures m <= writeIdx <= m + slots.Length
    {
      m := U64_MAX;
      for r := 0 to numReaders
        invariant m == Slowest(readIdx[..], r)
      {
        if readIdx[r] < m {
          m := readIdx[r];
        }
      }
      assert readIdx[..][0] == readIdx[0];
    }

    /** Release store of the next cursor by the reader that is done with `index`. */
    method Advance(r: nat, index: nat)
      requires Valid() && r < numReaders && readIdx[r] == index < |stream|
      modifies this`taken, readIdx
      ensures Valid()
      ensures readIdx[r] == index + 1
      ensures forall x :: 0 <= x < MAX_READERS && x != r ==> readIdx[x] == old(readIdx[x])
      ensures taken == old(taken)[r := old(taken)[r] + [stream[index]]]
    {
      assert stream[..index + 1] == stream[..index] + [stream[index]];
      taken := taken[r := taken[r] + [slots[SlotOf(index)]]];
      readIdx[r] := index + 1;
    }
  }

  // ---- live loans as indices ------------------------------------------------------------

  /** The index of each loan in a set of loans. */
  ghost function Indices<T>(loans: set<Loan<T>>): (m: multiset<nat>)
    ensures |m| == |loans|
    ensures forall l :: l in loans ==> l.index in m
  {
    if loans == {} then multiset{}
    else
      var l :| l in loans;
      multiset{l.index} + Indices(loans - {l})
  }

  lemma IndicesSplit<T>(loans: set<Loan<T>>) returns (l: Loan<T>)
    requires loans != {}
    ensures l in loans && Indices(loans) == multiset{l.index} + Indices(loans - {l})
  {
    l :| l in loans && Indices(loans) == multiset{l.index} + Indices(loans - {l});
  }

  lemma {:induction false} IndicesRemove<T>(loans: set<Loan<T>>, x: Loan<T>)
    requires x in loans
    ensures Indices(loans) == multiset{x.index} + Indices(loans - {x})
    decreases |loans|
  {
    hide Indices;
    var l := IndicesSplit(loans);
    if l != x {
      IndicesRemove(loans - {l}, x);
      IndicesRemove(loans - {x}, l);
      assert loans - {l} - {x} == loans - {x} - {l};
    }
  }

  lemma IndicesAdd<T>(loans: set<Loan<T>>, x: Loan<T>)
    requires x !in loans
    ensures Indices(loans + {x}) == Indices(loans) + multiset{x.index}
  {
    hide Indices;
    IndicesRemove(loans + {x}, x);
    assert loans + {x} - {x} == loans;
  }

  // ---- a handle ---------------------------------------------------------------------------

  /** One handle on a ring: the mapping, and its own claim pipelines and loan gates. */
  class SpmcRingBuffer<T> {
    const mapping: Mapping<T>
    const claimBase: array<nat>
    const loanDepth: array<nat>
    ghost var live: seq<set<Loan<T>>>

    /** The gate of reader `r` is `extra` above its live loans, every other gate exact. */
    ghost predicate ValidWith(r: nat, extra: nat)
      reads this, mapping, mapping.readIdx, mapping.slots, claimBase, loanDepth
      reads set x, l | 0 <= x < |live| && l in live[x] :: l
    {
      && mapping.Valid()
      && claimBase.Length == loanDepth.Length == |live| == MAX_READERS
      && claimBase != loanDepth && claimBase != mapping.readIdx && loanDepth != mapping.readIdx
      && (claimBase as object) != (mapping.slots as object) && (loanDepth as object) != (mapping.slots as object)
      && (forall x :: 0 <= x < MAX_READERS ==>
            loanDepth[x] == |live[x]| + (if x == r then extra else 0) && claimBase[x] <= mapping.writeIdx)
      && (forall x, l :: 0 <= x < MAX_READERS && l in live[x] ==>
            l.ring == this && l.readerId == x && !l.resolved && l.index < mapping.writeIdx)
    }

    ghost predicate Valid()
      reads this, mapping, mapping.readIdx, mapping.slots, claimBase, loanDepth
      reads set x, l | 0 <= x < |live| && l in live[x] :: l
    {
      ValidWith(0, 0)
    }

    /** The claim pipeline of reader `r` on this handle. */
    ghost function PipeOf(r: nat): Pipe
      requires r < mapping.readIdx.Length && r < claimBase.Length && r < |live|
      reads this, mapping, mapping.readIdx, claimBase
    {
      Pipe(mapping.writeIdx, mapping.readIdx[r], claimBase[r], Indices(live[r]))
    }

    /** A handle on an existing mapping: `open_existing` past its checks, or the handle a
        creation returns. */
    constructor (mapping: Mapping<T>)
      requires mapping.Valid()
      ensures Valid() && this.mapping == mapping && live == seq(MAX_READERS, _ => {})
      ensures fresh(claimBase) && fresh(loanDepth)
      ensures forall r :: 0 <= r < MAX_READERS ==> claimBase[r] == 0
    {
      this.mapping := mapping;
      claimBase := new nat[MAX_READERS](_ => 0);
      loanDepth := new nat[MAX_READERS](_ => 0);
      live := seq(MAX_READERS, _ => {});
    }

    /** `create_new_with_readers`, given that the path is free. */
    static method Create(capacity: nat, numReaders: nat, zero: T) returns (r: Result<SpmcRingBuffer<T>>)
      requires 1 <= numReaders <= MAX_READERS
      ensures r.Ok? <==> PowerOfTwo(capacity)
      ensures r.Err? ==> r.error == InvalidCapacity(capacity)
      ensures r.Ok? ==> var h := r.value;
                fresh(h) && fresh(h.mapping) && h.Valid() && h.mapping.slots.Length == capacity
                && h.mapping.numReaders == numReaders && h.mapping.stream == [] && h.live == seq(MAX_READERS, _ => {})
    {
      if !PowerOfTwo(capacity) {
        return Err(InvalidCapacity(capacity));
      }
      var mapping := new Mapping<T>(capacity, numReaders, zero);
      var h := new SpmcRingBuffer<T>(mapping);
      return Ok(h);
    }

    /** Publishes `value` exactly when the slowest reader leaves room, and otherwise
        changes nothing. */
    method TryPush(value: T) returns (ok: bool)
      requires Valid() && mapping.writeIdx < U64_MAX
      modifies mapping`writeIdx, mapping`totalWritten, mapping`stream, mapping.slots
      ensures Valid()
      ensures ok <==> |old(mapping.stream)| < Slowest(mapping.readIdx[..], mapping.numReaders) + mapping.slots.Length
      ensures mapping.stream == if ok then old(mapping.stream) + [value] else old(mapping.stream)
      ensures !ok ==> mapping.slots[..] == old(mapping.slots[..]) && mapping.writeIdx == old(mapping.writeIdx)
      ensures ok ==> forall r :: 0 <= r < MAX_READERS ==> PipeOf(r) == Do(old(PipeOf(r)), Publish)
    {
      hide Indices, And, PowerOfTwo;
      var w := mapping.writeIdx;
      var minRead := mapping.SlowestReadIdx();
      if w - minRead >= mapping.slots.Length {
        return false;
      }
      var n := mapping.slots.Length;
      var p := mapping.SlotOf(w);
      forall k | 0 <= k < |mapping.stream| && |mapping.stream| + 1 <= k + n ensures k % n != p {
        if k % n == p {
          SameResidueGap(k, w, n);
        }
      }
      mapping.slots[p] := value;
      mapping.writeIdx := w + 1;
      mapping.totalWritten := mapping.totalWritten + 1;
      mapping.stream := mapping.stream + [value];
      return true;
    }

    method CheckReader(readerId: nat) returns (e: Option<Error>)
      requires Valid()
      ensures e == if readerId < mapping.numReaders then None else Some(InvalidReaderId(readerId, mapping.numReaders - 1))
    {
      if readerId >= mapping.numReaders {
        return Some(InvalidReaderId(readerId, mapping.numReaders - 1));
      }
      return None;
    }

    /** Consumes the next record of the reader's stream, unless a loan of it is live. */
    method TryPop(readerId: nat) returns (res: Result<Option<T>>)
      requires Valid()
      modifies mapping`taken, mapping.readIdx
      ensures Valid()
      ensures readerId >= mapping.numReaders ==> res == Err(InvalidReaderId(readerId, mapping.numReaders - 1))
      ensures readerId < mapping.numReaders ==>
                res == (if live[readerId] != {} then Err(LoanOutstanding(readerId))
                        else if old(mapping.readIdx[readerId]) == mapping.writeIdx then Ok(None)
                        else Ok(Some(mapping.stream[old(mapping.readIdx[readerId])])))
      ensures readerId < mapping.numReaders ==> PipeOf(readerId) == DoPop(old(PipeOf(readerId)))
      ensures forall x :: 0 <= x < MAX_READERS && x != readerId ==> mapping.readIdx[x] == old(mapping.readIdx[x])
      ensures mapping.taken == if res.Ok? && res.value.Some?
                           then old(mapping.taken)[readerId := old(mapping.taken)[readerId] + [res.value.value]]
                           else old(mapping.taken)
    {
      var e := CheckReader(readerId);
      if e.Some? {
        return Err(e.value);
      }
      if loanDepth[readerId] != 0 {
        return Err(LoanOutstanding(readerId));
      }
      var w := mapping.writeIdx;
      var r := mapping.readIdx[readerId];
      if r == w {
        return Ok(None);
      }
      var value := mapping.slots[mapping.SlotOf(r)];
      mapping.Advance(readerId, r);
      return Ok(Some(value));
    }

    /** The reader's next record, without consuming it. */
    method Peek(readerId: nat) returns (res: Result<Option<T>>)
      requires Valid()
      ensures readerId >= mapping.numReaders ==> res == Err(InvalidReaderId(readerId, mapping.numReaders - 1))
      ensures readerId < mapping.numReaders ==>
                res == Ok(if mapping.readIdx[readerId] == |mapping.stream| then None else Some(mapping.stream[mapping.readIdx[readerId]]))
    {
      var e := CheckReader(readerId);
      if e.Some? {
        return Err(e.value);
      }
      var w := mapping.writeIdx;
      var r := mapping.readIdx[readerId];
      if r == w {
        return Ok(None);
      }
      return Ok(Some(mapping.slots[mapping.SlotOf(r)]));
    }

    /** Records published and not yet consumed by the reader; nothing wraps. */
    method Len(readerId: nat) returns (res: Result<nat>)
      requires Valid()
      ensures readerId >= mapping.numReaders ==> res == Err(InvalidReaderId(readerId, mapping.numReaders - 1))
      ensures readerId < mapping.numReaders ==>
                res.Ok? && |mapping.stream| == mapping.readIdx[readerId] + res.value && res.value <= mapping.slots.Length
    {
      var e := CheckReader(readerId);
      if e.Some? {
        return Err(e.value);
      }
      return Ok(WrappingSub(mapping.writeIdx, mapping.readIdx[readerId]));
    }

    method SlowestLag() returns (lag: nat)
      requires Valid()
      ensures lag <= mapping.slots.Length && |mapping.stream| == Slowest(mapping.readIdx[..], mapping.numReaders) + lag
    {
      var w := mapping.writeIdx;
      var m := mapping.SlowestReadIdx();
      lag := WrappingSub(w, m);
    }

    /** The winning compare-and-swap of a claim, with the gate already raised. */
    method Issue(readerId: nat, idx: nat) returns (l: Loan<T>)
      requires ValidWith(readerId, 1) && readerId < mapping.numReaders
      requires idx == Head(PipeOf(readerId)) < mapping.writeIdx
      modifies this`live, claimBase
      ensures Valid()
      ensures PipeOf(readerId) == DoClaim(old(PipeOf(readerId)))
      ensures forall x :: 0 <= x < MAX_READERS && x != readerId ==> claimBase[x] == old(claimBase[x])
      ensures fresh(l) && l.ring == this && l.readerId == readerId && !l.resolved && l.index == idx
      ensures live == old(live)[readerId := old(live)[readerId] + {l}]
    {
      hide Indices;
      claimBase[readerId] := idx + 1;
      l := new Loan<T>(this, readerId, idx);
      IndicesAdd(live[readerId], l);
      live := live[readerId := live[readerId] + {l}];
    }

    /** Reserves the next index of the pipeline, if it is published.  `spurious` is how
        often the weak compare-and-swap fails for no reason. */
    method Claim(readerId: nat, spurious: nat) returns (res: Result<Option<Loan<T>>>)
      requires Valid()
      modifies this`live, claimBase, loanDepth
      ensures Valid()
      ensures readerId >= mapping.numReaders ==>
                res == Err(InvalidReaderId(readerId, mapping.numReaders - 1))
                && live == old(live) && claimBase[..] == old(claimBase[..])
      ensures readerId < mapping.numReaders ==>
                && res.Ok?
                && PipeOf(readerId) == DoClaim(old(PipeOf(readerId)))
                && (res.value.Some? <==> Head(old(PipeOf(readerId))) < mapping.writeIdx)
                && (res.value.None? ==> live == old(live))
                && (res.value.Some? ==>
                      var l := res.value.value;
                      fresh(l) && l.ring == this && l.readerId == readerId && !l.resolved
                      && l.index == Head(old(PipeOf(readerId)))
                      && live == old(live)[readerId := old(live)[readerId] + {l}])
      ensures forall x :: 0 <= x < MAX_READERS && x != readerId ==>
                claimBase[x] == old(claimBase[x]) && loanDepth[x] == old(loanDepth[x])
    {
      var e := CheckReader(readerId);
      if e.Some? {
        return Err(e.value);
      }
      assert mapping.numReaders <= |live| == MAX_READERS;
      hide *;
      RaiseGate(readerId);
      var loan := ClaimLoop(readerId, spurious);
      if loan.None? {
        LowerGate(readerId);
      }
      return Ok(loan);
    }

    /** `fetch_add` on the loan gate. */
    method RaiseGate(readerId: nat)
      requires Valid() && readerId < mapping.numReaders
      modifies loanDepth
      ensures ValidWith(readerId, 1)
      ensures forall x :: 0 <= x < MAX_READERS && x != readerId ==> loanDepth[x] == old(loanDepth[x])
    {
      assert mapping.numReaders <= MAX_READERS;
      hide Indices, Mapping<T>.Valid;
      loanDepth[readerId] := loanDepth[readerId] + 1;
    }

    /** `fetch_sub` on the loan gate. */
    method LowerGate(readerId: nat)
      requires ValidWith(readerId, 1) && readerId < mapping.numReaders
      modifies loanDepth
      ensures Valid()
      ensures forall x :: 0 <= x < MAX_READERS && x != readerId ==> loanDepth[x] == old(loanDepth[x])
    {
      assert mapping.numReaders <= MAX_READERS;
      hide Indices, Mapping<T>.Valid;
      loanDepth[readerId] := loanDepth[readerId] - 1;
    }

    /** The compare-and-swap loop of a claim, with the gate already raised. */
    method ClaimLoop(readerId: nat, spurious: nat) returns (loan: Option<Loan<T>>)
      requires ValidWith(readerId, 1) && readerId < mapping.numReaders
      modifies this`live, claimBase
      ensures |live| == MAX_READERS && PipeOf(readerId) == DoClaim(old(PipeOf(readerId)))
      ensures loan.Some? <==> Head(old(PipeOf(readerId))) < mapping.writeIdx
      ensures loan.None? ==> ValidWith(readerId, 1) && live == old(live)
      ensures loan.Some? ==>
                var l := loan.value;
                Valid() && fresh(l) && l.ring == this && l.readerId == readerId && !l.resolved
                && l.index == Head(old(PipeOf(readerId)))
                && live == old(live)[readerId := old(live)[readerId] + {l}]
      ensures forall x :: 0 <= x < MAX_READERS && x != readerId ==> claimBase[x] == old(claimBase[x])
    {
      assert mapping.readIdx.Length == claimBase.Length == MAX_READERS;
      hide Indices, Mapping<T>.Valid;
      var failures := spurious;
      while true
        invariant ValidWith(readerId, 1) && live == old(live) && claimBase[..] == old(claimBase[..])
        decreases failures
      {
        var w := mapping.writeIdx;
        var cursor := mapping.readIdx[readerId];
        var base := claimBase[readerId];
        var idx := if base < cursor then cursor else base;
        if idx >= w {
          return None;
        }
        if failures == 0 {
          var l := Issue(readerId, idx);
          return Some(l);
        }
        failures := failures - 1;
      }
    }
  }

  // ---- a loan -----------------------------------------------------------------------------

  class Loan<T> {
    const ring: SpmcRingBuffer<T>
    const readerId: nat
    const index: nat
    var resolved: bool

    constructor (ring: SpmcRingBuffer<T>, readerId: nat, index: nat)
      ensures this.ring == ring && this.readerId == readerId && this.index == index && !resolved
    {
      this.ring, this.readerId, this.index, this.resolved := ring, readerId, index, false;
    }

    /** The loan is live exactly while it is unresolved. */
    ghost predicate Valid()
      reads this, ring, ring.mapping, ring.mapping.readIdx, ring.mapping.slots, ring.claimBase, ring.loanDepth
      reads set x, l | 0 <= x < |ring.live| && l in ring.live[x] :: l
    {
      && ring.Valid()
      && readerId < ring.mapping.numReaders && index < ring.mapping.writeIdx
      && (!resolved <==> this in ring.live[readerId])
    }

    /** What the loan, live or resolved, views in place: its own record while the cursor has not
        passed it, and beyond that for as long as any reader is slow enough to keep the slot. */
    function Deref(): (value: T)
      reads this, ring, ring.mapping, ring.mapping.readIdx, ring.mapping.slots, ring.claimBase, ring.loanDepth
      reads set x, l | 0 <= x < |ring.live| && l in ring.live[x] :: l
      requires Valid()
      ensures index < |ring.mapping.stream|
      ensures ring.mapping.readIdx[readerId] <= index ==> value == ring.mapping.stream[index]
      ensures |ring.mapping.stream| <= index + ring.mapping.slots.Length ==> value == ring.mapping.stream[index]
    {
      ring.mapping.slots[ring.mapping.SlotOf(index)]
    }

    /** Marks the loan resolved and lowers the gate, after the pipeline was updated. */
    method Resolve()
      requires Valid() && !resolved
      modifies this`resolved, ring`live, ring.loanDepth
      ensures Valid() && resolved
      ensures ring.live == old(ring.live)[readerId := old(ring.live)[readerId] - {this}]
      ensures Indices(ring.live[readerId]) == Indices(old(ring.live)[readerId]) - multiset{index}
      ensures forall x :: 0 <= x < MAX_READERS && x != readerId ==> ring.loanDepth[x] == old(ring.loanDepth[x])
    {
      hide Indices;
      IndicesRemove(ring.live[readerId], this);
      resolved := true;
      ring.loanDepth[readerId] := ring.loanDepth[readerId] - 1;
      ring.live := ring.live[readerId := ring.live[readerId] - {this}];
    }

    /** Consumes the loaned record when it is at the cursor; otherwise nothing changes. A
        loan already resolved commits again to no effect. */
    method Commit() returns (e: Option<Error>)
      requires Valid()
      modifies this`resolved, ring`live, ring.loanDepth, ring.mapping`taken, ring.mapping.readIdx
      ensures Valid()
      ensures e == if old(resolved) || old(ring.mapping.readIdx[readerId]) == index then None
                   else Some(LoanNotAtCursor(index, old(ring.mapping.readIdx[readerId])))
      ensures resolved <==> e.None?
      ensures old(resolved) || e.Some? ==>
                && ring.live == old(ring.live) && ring.PipeOf(readerId) == old(ring.PipeOf(readerId))
                && ring.mapping.taken == old(ring.mapping.taken)
      ensures !old(resolved) ==> ring.PipeOf(readerId) == DoCommit(old(ring.PipeOf(readerId)), index)
      ensures !old(resolved) && resolved ==>
                && ring.live == old(ring.live)[readerId := old(ring.live)[readerId] - {this}]
                && ring.mapping.taken == old(ring.mapping.taken)[
                     readerId := old(ring.mapping.taken)[readerId] + [ring.mapping.stream[index]]]
      ensures forall x :: 0 <= x < MAX_READERS && x != readerId ==> ring.mapping.readIdx[x] == old(ring.mapping.readIdx[x])
    {
      hide Indices;
      if resolved {
        return None;
      }
      var cursor := ring.mapping.readIdx[readerId];
      if cursor != index {
        return Some(LoanNotAtCursor(index, cursor));
      }
      ring.mapping.Advance(readerId, index);
      Resolve();
      return None;
    }

    /** Gives the record back unconsumed: the pipeline rewinds to it. */
    method Abort()
      requires Valid()
      modifies this`resolved, ring`live, ring.loanDepth, ring.claimBase
      ensures Valid() && resolved
      ensures old(resolved) ==> ring.PipeOf(readerId) == old(ring.PipeOf(readerId)) && ring.live == old(ring.live)
      ensures !old(resolved) ==>
                && ring.PipeOf(readerId) == DoAbort(old(ring.PipeOf(readerId)), index)
                && ring.live == old(ring.live)[readerId := old(ring.live)[readerId] - {this}]
      ensures forall x :: 0 <= x < MAX_READERS && x != readerId ==> ring.claimBase[x] == old(ring.claimBase[x])
    {
      hide Indices;
      if !resolved {
        if index < ring.claimBase[readerId] {
          ring.claimBase[readerId] := index;
        }
        Resolve();
      }
    }

    /** Leaving scope: commits at the cursor, otherwise only lets go. */
    method Drop()
      requires Valid()
      modifies this`resolved, ring`live, ring.loanDepth, ring.mapping`taken, ring.mapping.readIdx
      ensures Valid() && resolved
      ensures old(resolved) ==>
                && ring.PipeOf(readerId) == old(ring.PipeOf(readerId)) && ring.live == old(ring.live)
                && ring.mapping.taken == old(ring.mapping.taken)
      ensures !old(resolved) ==>
                && ring.PipeOf(readerId) == DoDrop(old(ring.PipeOf(readerId)), index)
                && ring.live == old(ring.live)[readerId := old(ring.live)[readerId] - {this}]
                && (old(ring.mapping.readIdx[readerId]) != index ==> ring.mapping.taken == old(ring.mapping.taken))
                && (old(ring.mapping.readIdx[readerId]) == index ==> ring.mapping.taken == old(ring.mapping.taken)[
                      readerId := old(ring.mapping.taken)[readerId] + [ring.mapping.stream[index]]])
      ensures forall x :: 0 <= x < MAX_READERS && x != readerId ==> ring.mapping.readIdx[x] == old(ring.mapping.readIdx[x])
    {
      hide Indices, Slowest, And, PowerOfTwo;
      if resolved {
        return;
      }
      var cursor := ring.mapping.readIdx[readerId];
      if cursor == index {
        ring.mapping.Advance(readerId, index);
      }
      Resolve();
    }
  }

  /** While the pipeline is pinned, every live loan dereferences to its record. */
  lemma PinnedDeref<T>(l: Loan<T>)
    requires l.Valid() && !l.resolved && Pinned(l.ring.PipeOf(l.readerId))
    ensures l.ring.mapping.readIdx[l.readerId] <= l.index < |l.ring.mapping.stream|
    ensures l.Deref() == l.ring.mapping.stream[l.index]
  {
    hide Indices;
    assert l.index in Indices(l.ring.live[l.readerId]);
  }

  /** Handles do not disturb each other: whatever another handle did to the mapping, with
      this handle's own pipelines, gates and loans untouched, this handle stays valid. */
  twostate lemma OtherHandleKeeps<T>(h: SpmcRingBuffer<T>)
    requires old(h.Valid()) && h.mapping.Valid() && old(h.mapping.writeIdx) <= h.mapping.writeIdx
    requires unchanged(h, h.claimBase, h.loanDepth)
    requires forall r, l :: 0 <= r < |h.live| && l in h.live[r] ==> old(allocated(l)) && unchanged(l)
    ensures h.Valid()
  {
  }
}
