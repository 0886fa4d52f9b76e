/** The 256-byte header of a ring file: what `create_new` writes, what `open_existing`
    checks, and where the slots lie behind it. */
module Header {
  import opened Common
  import opened Bits

  const MAGIC: nat := 0x5249_4E47_5350_4D43
  const VERSION: nat := 1
  const HEADER_SIZE: nat := 256
  const TWO64: nat := U64_MAX + 1

  datatype RingHeader = RingHeader(
    magic: nat, version: nat, numReaders: nat, writeIdx: nat, readIndices: seq<nat>, capacityMask: nat, totalWritten: nat)

  /** Every field fits its width. */
  predicate Fits(h: RingHeader) {
    && h.magic < TWO64 && h.version < 0x1_0000_0000 && h.numReaders < 0x1_0000_0000
    && h.writeIdx < TWO64 && |h.readIndices| == MAX_READERS && (forall r | 0 <= r < MAX_READERS :: h.readIndices[r] < TWO64)
    && h.capacityMask < TWO64 && h.totalWritten < TWO64
  }

  function New(capacityMask: nat, numReaders: nat): RingHeader
    requires 1 <= numReaders <= MAX_READERS
  {
    RingHeader(MAGIC, VERSION, numReaders, 0, [0, 0, 0, 0, 0, 0, 0, 0], capacityMask, 0)
  }

  /** Zero stands for "no single required value". */
  function MaskRefused(mask: nat): Error { HeaderCorruption("capacity_mask", 0, mask) }

  /** `validate`, with the mask increment wrapping as release builds do. */
  function Validate(h: RingHeader): Result<()> {
    if h.magic != MAGIC then Err(HeaderCorruption("magic", MAGIC, h.magic))
    else if h.version != VERSION then Err(VersionMismatch(VERSION, h.version))
    else if h.capacityMask == 0 || !PowerOfTwo((h.capacityMask + 1) % TWO64) then Err(MaskRefused(h.capacityMask))
    else Ok(())
  }

  // ---- bytes ----------------------------------------------------------------------------

  type Byte = b: int | 0 <= b < 256

  /** `k` bytes, least significant first. */
  function ToBytes(n: nat, k: nat): (b: seq<Byte>)
    ensures |b| == k
  {
    if k == 0 then [] else [n % 256] + ToBytes(n / 256, k - 1)
  }

  function FromBytes(b: seq<Byte>): nat {
    if b == [] then 0 else b[0] + 256 * FromBytes(b[1..])
  }

  function Pow256(k: nat): nat { if k == 0 then 1 else 256 * Pow256(k - 1) }

  lemma {:induction false} BytesRoundTrip(n: nat, k: nat)
    requires n < Pow256(k)
    ensures FromBytes(ToBytes(n, k)) == n
    decreases k
  {
    if k > 0 {
      assert ToBytes(n, k)[1..] == ToBytes(n / 256, k - 1);
      BytesRoundTrip(n / 256, k - 1);
    }
  }

  function Words(ns: seq<nat>): (b: seq<Byte>)
    ensures |b| == 8 * |ns|
  {
    if ns == [] then [] else ToBytes(ns[0], 8) + Words(ns[1..])
  }

  /** The file image of a header, in the declared order with its padding. */
  function Encode(h: RingHeader): (b: seq<Byte>)
    requires |h.readIndices| == MAX_READERS
    ensures |b| == HEADER_SIZE
  {
    ToBytes(h.magic, 8) + ToBytes(h.version, 4) + ToBytes(h.numReaders, 4) + ToBytes(0, 8)
    + ToBytes(h.writeIdx, 8) + Words(h.readIndices) + ToBytes(h.capacityMask, 8) + ToBytes(h.totalWritten, 8)
    + ToBytes(0, 144)
  }

  /** The field of `size` bytes at `offset`. */
  function At(b: seq<Byte>, offset: nat, size: nat): nat
    requires offset + size <= |b|
  {
    FromBytes(b[offset..offset + size])
  }

  /** The header read back through the fixed field offsets. */
  function Decode(b: seq<Byte>): RingHeader
    requires |b| == HEADER_SIZE
  {
    RingHeader(At(b, 0, 8), At(b, 8, 4), At(b, 12, 4), At(b, 24, 8),
               seq(MAX_READERS, i requires 0 <= i < MAX_READERS => At(b, 32 + 8 * i, 8)),
               At(b, 96, 8), At(b, 104, 8))
  }

  lemma Widths()
    ensures Pow256(4) == 0x1_0000_0000 && Pow256(8) == TWO64
  {
    assert Pow256(3) == 0x100_0000;
    assert Pow256(5) == 0x100_0000_0000 && Pow256(7) == 0x100_0000_0000_0000;
  }

  lemma {:induction false} WordAt(ns: seq<nat>, i: nat)
    requires i < |ns|
    ensures Words(ns)[8 * i..8 * i + 8] == ToBytes(ns[i], 8)
    decreases i
  {
    if i > 0 {
      WordAt(ns[1..], i - 1);
      assert Words(ns)[8 * i..8 * i + 8] == Words(ns[1..])[8 * (i - 1)..8 * (i - 1) + 8];
    }
  }

  /** Where the fields end up in the file image. */
  lemma Layout(h: RingHeader)
    requires |h.readIndices| == MAX_READERS
    ensures var b := Encode(h);
            && b[0..8] == ToBytes(h.magic, 8) && b[8..12] == ToBytes(h.version, 4)
            && b[12..16] == ToBytes(h.numReaders, 4) && b[24..32] == ToBytes(h.writeIdx, 8)
            && b[32..96] == Words(h.readIndices) && b[96..104] == ToBytes(h.capacityMask, 8)
            && b[104..112] == ToBytes(h.totalWritten, 8)
  {
    hide ToBytes, Words;
  }

  lemma FieldRoundTrips(h: RingHeader)
    requires Fits(h)
    ensures var b := Encode(h);
            && At(b, 0, 8) == h.magic && At(b, 8, 4) == h.version && At(b, 12, 4) == h.numReaders
            && At(b, 24, 8) == h.writeIdx && At(b, 96, 8) == h.capacityMask && At(b, 104, 8) == h.totalWritten
  {
    hide ToBytes, FromBytes, Words, Encode, Pow256;
    Widths();
    Layout(h);
    BytesRoundTrip(h.magic, 8);
    BytesRoundTrip(h.version, 4);
    BytesRoundTrip(h.numReaders, 4);
    BytesRoundTrip(h.writeIdx, 8);
    BytesRoundTrip(h.capacityMask, 8);
    BytesRoundTrip(h.totalWritten, 8);
  }

  lemma CursorRoundTrip(h: RingHeader, i: nat)
    requires Fits(h) && i < MAX_READERS
    ensures At(Encode(h), 32 + 8 * i, 8) == h.readIndices[i]
  {
    assert h.readIndices[i] < TWO64;
    hide ToBytes, FromBytes, Words, Encode, Pow256, Fits;
    var b := Encode(h);
    assert b[32..96] == Words(h.readIndices) by {
      Layout(h);
    }
    WordAt(h.readIndices, i);
    SliceOfSlice(b, 32, 96, 8 * i, 8 * i + 8);
    assert h.readIndices[i] < Pow256(8) by {
      Widths();
    }
    BytesRoundTrip(h.readIndices[i], 8);
  }

  lemma SliceOfSlice(b: seq<Byte>, lo: nat, hi: nat, i: nat, j: nat)
    requires lo <= hi <= |b| && i <= j <= hi - lo
    ensures b[lo..hi][i..j] == b[lo + i..lo + j]
  {
    assert forall k :: 0 <= k < j - i ==> b[lo..hi][i..j][k] == b[lo + i..lo + j][k];
  }

  /** Writing a header and reading it back through the offsets loses nothing. */
  lemma EncodeDecode(h: RingHeader)
    requires Fits(h)
    ensures Decode(Encode(h)) == h
  {
    hide Encode, At;
    FieldRoundTrips(h);
    forall i | 0 <= i < MAX_READERS ensures At(Encode(h), 32 + 8 * i, 8) == h.readIndices[i] {
      CursorRoundTrip(h, i);
    }
    assert Decode(Encode(h)).readIndices == h.readIndices;
  }

  // ---- open -----------------------------------------------------------------------------

  /** Bytes a ring file needs: the header and `capacity` slots. */
  function FileLength(capacity: nat, size: nat): nat { HEADER_SIZE + capacity * size }

  /** `open_existing` on a file of `fileLen` bytes starting with `b`: the capacity. */
  function Open(b: seq<Byte>, fileLen: nat, size: nat): Result<nat>
    requires |b| == if fileLen < HEADER_SIZE then fileLen else HEADER_SIZE
  {
    if fileLen < HEADER_SIZE then Err(FileTooShort(HEADER_SIZE, fileLen))
    else OpenMapped(Decode(b), fileLen, size)
  }

  /** The part of `open_existing` after the file is mapped. */
  function OpenMapped(h: RingHeader, fileLen: nat, size: nat): Result<nat> {
    var v := Validate(h);
    if v.Err? then Err(v.error)
    else
      var capacity := h.capacityMask + 1;
      var expected := FileLength(capacity, size);
      if fileLen < expected then Err(FileTooShort(expected, fileLen)) else Ok(capacity)
  }

  function Pow2(k: nat): nat { if k == 0 then 1 else 2 * Pow2(k - 1) }

  lemma {:induction false} Pow2Grows(j: nat, k: nat)
    requires j < k
    ensures Pow2(j) < Pow2(k)
    decreases k
  {
    if j < k - 1 {
      Pow2Grows(j, k - 1);
    }
    Pow2Positive(k - 1);
  }

  lemma {:induction false} Pow2Positive(k: nat)
    ensures Pow2(k) >= 1 && PowerOfTwo(Pow2(k))
  {
    if k > 0 {
      Pow2Positive(k - 1);
    }
  }

  lemma {:induction false} Exponent(n: nat) returns (k: nat)
    requires PowerOfTwo(n)
    ensures n == Pow2(k)
    decreases n
  {
    k := 0;
    if n > 1 {
      var j := Exponent(n / 2);
      k := j + 1;
    }
  }

  lemma Pow2At64()
    ensures Pow2(64) == TWO64
  {
    assert Pow2(8) == 0x100;
    assert Pow2(16) == 0x1_0000;
    assert Pow2(24) == 0x100_0000;
    assert Pow2(32) == 0x1_0000_0000;
    assert Pow2(40) == 0x100_0000_0000;
    assert Pow2(48) == 0x1_0000_0000_0000;
    assert Pow2(56) == 0x100_0000_0000_0000;
  }

  /** A mask with one set bit above it, below 2^64, is one less than a power of two. */
  lemma MaskExponent(mask: nat) returns (k: nat)
    requires 0 < mask < TWO64 && PowerOfTwo((mask + 1) % TWO64)
    ensures 1 <= k < 64 && mask == Pow2(k) - 1
  {
    assert !PowerOfTwo(0);
    hide PowerOfTwo;
    if mask + 1 < TWO64 {
      ModIs(mask + 1, TWO64, 0, mask + 1);
    }
    k := Exponent(mask + 1);
    hide Pow2;
    Pow2At64();
    Pow2AtZero();
    if k > 64 {
      Pow2Grows(64, k);
    }
  }

  lemma Pow2AtZero()
    ensures Pow2(0) == 1
  {
  }

  lemma ExponentMask(k: nat)
    requires 1 <= k < 64
    ensures 0 < Pow2(k) - 1 < TWO64 && PowerOfTwo(Pow2(k) % TWO64)
  {
    Pow2At64();
    Pow2Positive(k);
    Pow2Grows(k, 64);
    Pow2Grows(0, k);
    ModIs(Pow2(k), TWO64, 0, Pow2(k));
  }

  /** The masks of capacities from two to 2^63. */
  ghost predicate GoodMask(mask: nat) {
    exists k: nat :: 1 <= k < 64 && mask == Pow2(k) - 1
  }

  lemma MaskIff(mask: nat)
    requires mask < TWO64
    ensures GoodMask(mask) <==> mask != 0 && PowerOfTwo((mask + 1) % TWO64)
  {
    hide Pow2, PowerOfTwo;
    if mask != 0 && PowerOfTwo((mask + 1) % TWO64) {
      var k := MaskExponent(mask);
    }
    if k: nat :| 1 <= k < 64 && mask == Pow2(k) - 1 {
      ExponentMask(k);
    }
  }

  /** `validate` accepts exactly the headers with the right identity whose mask is 2^k - 1 for
      some k from 1 to 63, capacity one and the all-ones mask being refused; and it names the
      first thing wrong with the others. */
  lemma ValidateIff(h: RingHeader)
    requires h.capacityMask < TWO64
    ensures Validate(h)
         == if h.magic != 0x5249_4E47_5350_4D43 then Err(HeaderCorruption("magic", 0x5249_4E47_5350_4D43, h.magic))
            else if h.version != 1 then Err(VersionMismatch(1, h.version))
            else if !GoodMask(h.capacityMask) then Err(HeaderCorruption("capacity_mask", 0, h.capacityMask))
            else Ok(())
  {
    hide PowerOfTwo, GoodMask;
    MaskIff(h.capacityMask);
  }

  lemma NewFits(mask: nat, numReaders: nat)
    requires mask < TWO64 && 1 <= numReaders <= MAX_READERS
    ensures Fits(New(mask, numReaders)) && New(mask, numReaders).capacityMask == mask
  {
  }

  lemma ValidateCreated(capacity: nat, numReaders: nat)
    requires PowerOfTwo(capacity) && capacity < TWO64 && 1 <= numReaders <= MAX_READERS
    ensures Validate(New(capacity - 1, numReaders))
         == if capacity == 1 then Err(MaskRefused(0)) else Ok(())
  {
    assert capacity >= 1;
    hide PowerOfTwo;
    ModIs(capacity, TWO64, 0, capacity);
  }

  lemma OpenImage(h: RingHeader, fileLen: nat, size: nat)
    requires Fits(h) && HEADER_SIZE <= fileLen
    ensures Open(Encode(h), fileLen, size) == OpenMapped(h, fileLen, size)
  {
    hide Encode, Decode, OpenMapped, Fits;
    EncodeDecode(h);
  }

  lemma OpenCases(h: RingHeader, capacity: nat, fileLen: nat, size: nat)
    requires capacity >= 1 && h.capacityMask == capacity - 1
    requires Validate(h) == if capacity == 1 then Err(MaskRefused(0)) else Ok(())
    ensures OpenMapped(h, fileLen, size)
         == if capacity == 1 then Err(MaskRefused(0))
            else if fileLen < FileLength(capacity, size) then Err(FileTooShort(FileLength(capacity, size), fileLen))
            else Ok(capacity)
  {
    hide Validate, FileLength;
    assert h.capacityMask + 1 == capacity;
  }

  /** A file as `create_new_with_readers` leaves it has its capacity and readers, and all
      counters zero.  It opens again, with that capacity, exactly when it has more than one
      slot: capacity one is created but its zero mask is refused. A file truncated to `fileLen`
      bytes is refused, even within the header, and one grown to that length accepted. */
  lemma CreateThenOpen(capacity: nat, numReaders: nat, size: nat, fileLen: nat)
    requires PowerOfTwo(capacity) && capacity < TWO64 && 1 <= numReaders <= MAX_READERS
    ensures var b := Encode(New(capacity - 1, numReaders));
            var h := Decode(b);
            && h.numReaders == numReaders && h.capacityMask == capacity - 1
            && h.writeIdx == h.totalWritten == 0
            && |h.readIndices| == 8 && (forall r :: 0 <= r < 8 ==> h.readIndices[r] == 0)
            && Open(if fileLen < HEADER_SIZE then b[..fileLen] else b, fileLen, size)
               == if fileLen < HEADER_SIZE then Err(FileTooShort(HEADER_SIZE, fileLen))
                  else if capacity == 1 then Err(HeaderCorruption("capacity_mask", 0, 0))
                  else if fileLen < HEADER_SIZE + capacity * size then
                    Err(FileTooShort(HEADER_SIZE + capacity * size, fileLen))
                  else Ok(capacity)
  {
    assert capacity >= 1;
    hide PowerOfTwo;
    CreatedDecodes(capacity - 1, numReaders);
    CreatedFields(capacity - 1, numReaders);
    if fileLen < HEADER_SIZE {
      hide Encode, Decode, OpenMapped, FileLength, New;
    } else {
      FileLengthIs(capacity, size);
      hide *;
      CreatedOpens(capacity, numReaders, size, fileLen);
    }
  }

  lemma FileLengthIs(capacity: nat, size: nat)
    ensures FileLength(capacity, size) == HEADER_SIZE + capacity * size
  {
  }

  lemma CreatedFields(mask: nat, numReaders: nat)
    requires 1 <= numReaders <= MAX_READERS
    ensures var h := New(mask, numReaders);
            && h.numReaders == numReaders && h.capacityMask == mask && h.writeIdx == h.totalWritten == 0
            && |h.readIndices| == 8 && (forall r :: 0 <= r < 8 ==> h.readIndices[r] == 0)
  {
  }

  /** A file in use opens, with all its counters, or is refused for the first thing wrong with
      it: whatever its header says, and wherever it is cut off. */
  lemma Reopen(h: RingHeader, fileLen: nat, size: nat)
    requires Fits(h)
    ensures Decode(Encode(h)) == h
    ensures Open(if fileLen < HEADER_SIZE then Encode(h)[..fileLen] else Encode(h), fileLen, size)
         == if fileLen < HEADER_SIZE then Err(FileTooShort(HEADER_SIZE, fileLen))
            else if h.magic != MAGIC then Err(HeaderCorruption("magic", MAGIC, h.magic))
            else if h.version != VERSION then Err(VersionMismatch(VERSION, h.version))
            else if !GoodMask(h.capacityMask) then Err(HeaderCorruption("capacity_mask", 0, h.capacityMask))
            else if fileLen < FileLength(h.capacityMask + 1, size) then
              Err(FileTooShort(FileLength(h.capacityMask + 1, size), fileLen))
            else Ok(h.capacityMask + 1)
  {
    hide Encode, Decode, Validate, GoodMask, FileLength;
    EncodeDecode(h);
    if HEADER_SIZE <= fileLen {
      OpenImage(h, fileLen, size);
      ValidateIff(h);
    }
  }

  lemma CreatedDecodes(mask: nat, numReaders: nat)
    requires mask < TWO64 && 1 <= numReaders <= MAX_READERS
    ensures Decode(Encode(New(mask, numReaders))) == New(mask, numReaders)
  {
    hide *;
    NewFits(mask, numReaders);
    EncodeDecode(New(mask, numReaders));
  }

  lemma CreatedOpens(capacity: nat, numReaders: nat, size: nat, fileLen: nat)
    requires PowerOfTwo(capacity) && 1 <= capacity < TWO64 && 1 <= numReaders <= MAX_READERS && HEADER_SIZE <= fileLen
    ensures Open(Encode(New(capacity - 1, numReaders)), fileLen, size)
         == if capacity == 1 then Err(MaskRefused(0))
            else if fileLen < FileLength(capacity, size) then Err(FileTooShort(FileLength(capacity, size), fileLen))
            else Ok(capacity)
  {
    hide *;
    var h := New(capacity - 1, numReaders);
    NewFits(capacity - 1, numReaders);
    ValidateCreated(capacity, numReaders);
    OpenCases(h, capacity, fileLen, size);
    OpenImage(h, fileLen, size);
  }

  // ---- slots ----------------------------------------------------------------------------

  /** Byte offset of the slot of a stream index. */
  function SlotOffset(index: nat, capacity: nat, size: nat): nat
    requires capacity >= 1
  {
    HEADER_SIZE + And(index, capacity - 1) * size
  }

  /** Slots lie behind the header and inside the file. */
  lemma SlotInFile(i: nat, capacity: nat, size: nat)
    requires PowerOfTwo(capacity)
    ensures HEADER_SIZE <= SlotOffset(i, capacity, size)
    ensures SlotOffset(i, capacity, size) + size <= FileLength(capacity, size)
  {
    var a := And(i, capacity - 1);
    assert a < capacity by {
      MaskIsModulo(i, capacity);
    }
    Multiples(capacity - a, size);
    assert (capacity - a) * size == capacity * size - a * size;
  }

  /** Slots start on the record's alignment. */
  lemma SlotAligned(i: nat, capacity: nat, size: nat, align: nat)
    requires capacity >= 1 && align >= 1 && HEADER_SIZE % align == 0 && size % align == 0
    ensures SlotOffset(i, capacity, size) % align == 0
  {
    Aligned(And(i, capacity - 1), size, align);
  }

  /** The slots of two indices less than `capacity` apart share no byte. */
  lemma SlotsDisjoint(i: nat, j: nat, capacity: nat, size: nat)
    requires PowerOfTwo(capacity) && i < j < i + capacity
    ensures var p, q := SlotOffset(i, capacity, size), SlotOffset(j, capacity, size);
            p + size <= q || q + size <= p
  {
    MaskSeparates(i, j, capacity);
    Apart(And(i, capacity - 1), And(j, capacity - 1), size);
  }

  lemma Apart(a: nat, b: nat, size: nat)
    requires a != b
    ensures a * size + size <= b * size || b * size + size <= a * size
  {
    Multiples(b - a, size);
    assert (b - a) * size == b * size - a * size;
  }

  lemma Aligned(a: nat, size: nat, align: nat)
    requires align >= 1 && HEADER_SIZE % align == 0 && size % align == 0
    ensures (HEADER_SIZE + a * size) % align == 0
  {
    var k := HEADER_SIZE / align + a * (size / align);
    assert size == size / align * align && HEADER_SIZE == HEADER_SIZE / align * align;
    assert a * size == a * (size / align) * align;
    assert HEADER_SIZE + a * size == k * align;
    ModIs(HEADER_SIZE + a * size, align, k, 0);
  }
}
