/** get_buf: the parameters it accepts, the layout it computes in 64-bit arithmetic, the first slots. */
module Layout {
  import opened Words

  const CACHE_LINE_SIZE: SizeT := 64
  const SIZEOF_RINGBUF: SizeT := 192
  const SIZEOF_SLOT: SizeT := 64
  const MAP_MALLOC: nat := 0x100_0000
  const MAP_SHM: nat := 0x200_0000
  const SLOT_EMPTY: SizeT := 1
  const SLOT_VALID: SizeT := 2

  datatype SlotKind = NaSlot | NoSlot | MpscSlot | MpmcSlot

  /** Offsets from the start of the block, its size, and the padded object size. */
  datatype SizeInfo = SizeInfo(
    bufStart: SizeT, bufEnd: SizeT, slotStart: SizeT, slotEnd: SizeT, totalSize: SizeT, objSize: SizeT)

  datatype Status = Accepted(info: SizeInfo) | CapacityWrong | UseSlotNa | NoMappingType

  // Rounding up

  function AlignedOffset(base: SizeT, alignment: SizeT): (r: SizeT)
    requires alignment >= 1
  {
    And(Sub64(Add64(base, alignment), 1), Not64(Sub64(alignment, 1)))
  }

  /** Clearing the bits below a power of two. */
  lemma {:induction false} ClearLowBits(x: nat, a: nat, w: nat)
    requires IsPow2(a) && IsPow2(w) && a <= w && x < w
    ensures And(x, w - a) + And(x, a - 1) == x
  {
    if a == 1 {
      MaskUnique(x, w, 0, x);
    } else if x != 0 {
      ClearLowBits(x / 2, a / 2, w / 2);
      assert (w - a) / 2 == w / 2 - a / 2 && (w - a) % 2 == 0;
      assert (a - 1) / 2 == a / 2 - 1 && (a - 1) % 2 == 1;
    }
  }

  lemma LessOne(base: SizeT, a: SizeT)
    ensures Sub64(Add64(base, a), 1) == Wrap(base + a - 1)
    ensures a >= 1 ==> Not64(Sub64(a, 1)) == TWO_TO_THE_64 - a
  {
  }

  lemma AlignedIsMultiple(base: SizeT, a: SizeT) returns (x: nat, q: nat)
    requires IsPow2(a)
    ensures x == Wrap(base + a - 1)
    ensures AlignedOffset(base, a) == a * q && x - a < a * q <= x
  {
    hide And, IsPow2;
    hide Wrap;
    x := Sub64(Add64(base, a), 1);
    LessOne(base, a);
    WordRangeIsPow2();
    ClearLowBits(x, a, TWO_TO_THE_64);
    q := MaskLeavesMultiple(x, a);
  }

  lemma LeastAbove(a: nat, q: int, p: int, base: int)
    requires base <= a * p && a * q < base + a
    ensures a * q <= a * p
  {
    Distribute(a, q, p);
    NonzeroMultiple(a, q - p);
  }

  /** Without overflow the aligned offset is a multiple of the alignment, and no other lies between. */
  lemma AlignsUp(base: SizeT, a: SizeT, p: int) returns (q: nat)
    requires IsPow2(a) && base + a - 1 < TWO_TO_THE_64
    ensures AlignedOffset(base, a) == a * q && base <= a * q
    ensures base <= a * p ==> a * q <= a * p
  {
    hide AlignedOffset, And, IsPow2;
    var x;
    x, q := AlignedIsMultiple(base, a);
    if base <= a * p {
      LeastAbove(a, q, p, base);
    }
  }

  /** Rounding up stays above its argument exactly when the intermediate sum fits in a word. */
  lemma AlignsUpIffFits(base: SizeT, a: SizeT)
    requires IsPow2(a)
    ensures AlignedOffset(base, a) >= base <==> base + a - 1 < TWO_TO_THE_64
  {
    hide AlignedOffset, And, IsPow2;
    var x, q := AlignedIsMultiple(base, a);
  }

  lemma LineIsPow2()
    ensures IsPow2(CACHE_LINE_SIZE)
  {
    Pow2Product(8, 8);
  }

  lemma AlignToLine(base: SizeT)
    ensures AlignedOffset(base, CACHE_LINE_SIZE) % 64 == 0
    ensures base + 63 < TWO_TO_THE_64 ==> base <= AlignedOffset(base, CACHE_LINE_SIZE) < base + 64
    ensures base + 63 >= TWO_TO_THE_64 ==> AlignedOffset(base, CACHE_LINE_SIZE) < base
    ensures base % 64 == 0 ==> AlignedOffset(base, CACHE_LINE_SIZE) == base
  {
    hide AlignedOffset, And, IsPow2;
    LineIsPow2();
    var x, q := AlignedIsMultiple(base, CACHE_LINE_SIZE);
  }

  // Sizes

  function TotalSize(objNum: SizeT, objSize: SizeT, kind: SlotKind): SizeInfo {
    var aligned := AlignedOffset(objSize, CACHE_LINE_SIZE);
    var bufStart := AlignedOffset(SIZEOF_RINGBUF, CACHE_LINE_SIZE);
    var bufEnd := AlignedOffset(Add64(bufStart, Mul64(aligned, objNum)), CACHE_LINE_SIZE);
    if kind.MpmcSlot? || kind.MpscSlot? then
      var slotStart := AlignedOffset(bufEnd, CACHE_LINE_SIZE);
      var slotEnd := AlignedOffset(Add64(slotStart, Mul64(SIZEOF_SLOT, objNum)), CACHE_LINE_SIZE);
      SizeInfo(bufStart, bufEnd, slotStart, slotEnd, slotEnd, aligned)
    else
      SizeInfo(bufStart, bufEnd, 0, 0, if kind.NoSlot? then bufEnd else 0, aligned)
  }

  function Slots(objNum: SizeT, kind: SlotKind): nat {
    if kind.MpmcSlot? || kind.MpscSlot? then objNum else 0
  }

  /** A cell holds an object; header, cells and slots follow one another inside the block. */
  ghost predicate Sound(info: SizeInfo, objNum: SizeT, objSize: SizeT, kind: SlotKind) {
    && objSize <= info.objSize
    && SIZEOF_RINGBUF <= info.bufStart
    && info.bufStart + info.objSize * objNum <= info.bufEnd <= info.totalSize
    && (Slots(objNum, kind) > 0 ==>
          && info.bufEnd <= info.slotStart
          && info.slotStart + SIZEOF_SLOT * objNum <= info.totalSize)
  }

  /** The block size without wrap-around. */
  function TrueSize(objNum: SizeT, objSize: SizeT, kind: SlotKind): int {
    SIZEOF_RINGBUF + AlignedOffset(objSize, CACHE_LINE_SIZE) * objNum + SIZEOF_SLOT * Slots(objNum, kind)
  }

  lemma WrapFacts(x: nat, p: nat)
    ensures Wrap(x) <= x && (Wrap(x) == x <==> x < TWO_TO_THE_64)
    ensures x % 64 == 0 ==> Wrap(x) % 64 == 0
    ensures Wrap(x + Wrap(p)) == Wrap(x + p)
  {
  }

  lemma ProductOfLines(x: nat, y: nat)
    requires x % 64 == 0
    ensures (x * y) % 64 == 0
  {
    var q := x / 64;
    Associate(64, q, y);
    assert x * y == 64 * (q * y);
  }

  lemma AlignedSum(x: SizeT, p: nat)
    requires x % 64 == 0 && p % 64 == 0
    ensures AlignedOffset(Add64(x, Wrap(p)), CACHE_LINE_SIZE) == Wrap(x + p)
    ensures Wrap(x + p) % 64 == 0
  {
    hide AlignedOffset, Wrap;
    WrapFacts(x, p);
    WrapFacts(x + p, 0);
    AlignToLine(Wrap(x + p));
  }

  lemma SizesWrap(objNum: SizeT, objSize: SizeT, kind: SlotKind)
    ensures var info := TotalSize(objNum, objSize, kind); var cells := info.objSize * objNum;
            && info.bufStart == SIZEOF_RINGBUF
            && info.bufEnd == Wrap(SIZEOF_RINGBUF + cells)
            && (kind.MpmcSlot? || kind.MpscSlot? ==>
                  info.slotStart == info.bufEnd && info.totalSize == Wrap(info.bufEnd + SIZEOF_SLOT * objNum))
  {
    hide AlignedOffset, Add64, Wrap;
    var info := TotalSize(objNum, objSize, kind);
    AlignToLine(objSize);
    AlignToLine(SIZEOF_RINGBUF);
    ProductOfLines(info.objSize, objNum);
    AlignedSum(SIZEOF_RINGBUF, info.objSize * objNum);
    AlignToLine(info.bufEnd);
    AlignedSum(info.bufEnd, SIZEOF_SLOT * objNum);
  }

  /** Neither the padding of an object nor the block size wraps. */
  ghost predicate Fits(objNum: SizeT, objSize: SizeT, kind: SlotKind) {
    objSize + 63 < TWO_TO_THE_64 && TrueSize(objNum, objSize, kind) < TWO_TO_THE_64
  }

  /** The layout is sound exactly when nothing wraps. */
  lemma SoundIffFits(objNum: SizeT, objSize: SizeT, kind: SlotKind)
    requires !kind.NaSlot?
    ensures Sound(TotalSize(objNum, objSize, kind), objNum, objSize, kind) <==> Fits(objNum, objSize, kind)
  {
    hide AlignedOffset, Wrap;
    SizesWrap(objNum, objSize, kind);
    AlignToLine(objSize);
    var info := TotalSize(objNum, objSize, kind);
    WrapFacts(SIZEOF_RINGBUF + info.objSize * objNum, 0);
    WrapFacts(info.bufEnd + SIZEOF_SLOT * objNum, 0);
  }

  /** A ring built for sizes that fit: the padded object size, the object area and a soundly laid out block. */
  lemma FittingLayout(objNum: SizeT, objSize: SizeT, kind: SlotKind)
    requires !kind.NaSlot? && Fits(objNum, objSize, kind)
    ensures var info := TotalSize(objNum, objSize, kind);
            && info.objSize == AlignedOffset(objSize, CACHE_LINE_SIZE) >= objSize
            && Sound(info, objNum, info.objSize, kind)
            && 0 <= info.objSize * objNum < TWO_TO_THE_64
            && SIZEOF_SLOT * Slots(objNum, kind) < TWO_TO_THE_64
  {
    hide AlignedOffset;
    SoundIffFits(objNum, objSize, kind);
    NonNegative(TotalSize(objNum, objSize, kind).objSize, objNum);
  }

  /** The size get_block_buf computes for its block: a header and the object area. */
  function BlockTotalSize(header: SizeT, objNum: SizeT, objSize: SizeT): SizeT {
    Add64(header, Mul64(AlignedOffset(objSize, CACHE_LINE_SIZE), objNum))
  }

  /** Objects fit in their cells and the object area in the block exactly when nothing wraps. */
  lemma BlockSoundIffFits(header: SizeT, objNum: SizeT, objSize: SizeT)
    ensures var padded := AlignedOffset(objSize, CACHE_LINE_SIZE);
            objSize <= padded && header + padded * objNum <= BlockTotalSize(header, objNum, objSize)
            <==> objSize + 63 < TWO_TO_THE_64 && header + padded * objNum < TWO_TO_THE_64
  {
    hide AlignedOffset, Wrap;
    var padded := AlignedOffset(objSize, CACHE_LINE_SIZE);
    AlignToLine(objSize);
    NonNegative(padded, objNum);
    WrapFacts(header, padded * objNum);
    WrapFacts(header + padded * objNum, 0);
  }

  lemma BlockFits(header: SizeT, objNum: SizeT, objSize: SizeT)
    requires header + AlignedOffset(objSize, CACHE_LINE_SIZE) * objNum < TWO_TO_THE_64
    ensures BlockTotalSize(header, objNum, objSize) == header + AlignedOffset(objSize, CACHE_LINE_SIZE) * objNum
  {
    hide AlignedOffset, Wrap;
    var padded := AlignedOffset(objSize, CACHE_LINE_SIZE);
    NonNegative(padded, objNum);
    WrapFacts(header, padded * objNum);
    WrapFacts(header + padded * objNum, 0);
  }

  /** get_buf's own checks do not exclude such sizes: 2^58 one-line objects get a 192-byte object area. */
  lemma AcceptedButUnsound()
    ensures var n: SizeT := 0x400_0000_0000_0000;
            && Validate(n, 64, NoSlot, MAP_MALLOC).Accepted?
            && Validate(n, 64, NoSlot, MAP_MALLOC).info.totalSize == SIZEOF_RINGBUF
            && !Sound(Validate(n, 64, NoSlot, MAP_MALLOC).info, n, 64, NoSlot)
  {
    hide AlignedOffset, And, IsPow2;
    var n: SizeT := 0x400_0000_0000_0000;
    LargePow2();
    AcceptsExactly(n, 64, NoSlot, MAP_MALLOC);
    MallocBit();
    SizesWrap(n, 64, NoSlot);
    AlignToLine(64);
    SoundIffFits(n, 64, NoSlot);
  }

  lemma LargePow2()
    ensures IsPow2(0x400_0000_0000_0000) && IsPow2(MAP_MALLOC)
  {
    Pow2Product(16, 16);
    Pow2Product(256, 256);
    Pow2Product(65536, 65536);
    Pow2Product(65536, 256);
    Pow2Product(0x100_0000, 4);
    Pow2Product(0x1_0000_0000, 0x400_0000);
  }

  lemma {:induction false} LowerBitOfThree(p: nat)
    requires IsPow2(p)
    ensures And(p, 3 * p) == p
  {
    if p > 1 {
      LowerBitOfThree(p / 2);
      assert (3 * p) / 2 == 3 * (p / 2);
    }
  }

  lemma MallocBit()
    ensures And(MAP_MALLOC, MAP_MALLOC + MAP_SHM) != 0
  {
    hide And, IsPow2;
    LargePow2();
    LowerBitOfThree(MAP_MALLOC);
  }

  // Validation

  function Validate(objNum: SizeT, objSize: SizeT, kind: SlotKind, prot: nat): Status {
    if objNum < 2 || And(objNum, objNum - 1) != 0 then CapacityWrong
    else if kind.NaSlot? then UseSlotNa
    else if And(prot, MAP_MALLOC + MAP_SHM) == 0 then NoMappingType
    else Accepted(TotalSize(objNum, objSize, kind))
  }

  /** The error code a caller finds for a refusal. */
  function Errno(status: Status): int {
    match status
    case Accepted(_) => 0
    case NoMappingType => -105
    case CapacityWrong => -106
    case UseSlotNa => -111
  }

  /**
   * Exactly the powers of two from two upwards pass. The capacity is judged first, then the kind of
   * slots, then the mapping type, and what is accepted is laid out soundly and without waste if it fits.
   */
  lemma AcceptsExactly(objNum: SizeT, objSize: SizeT, kind: SlotKind, prot: nat)
    ensures var status := Validate(objNum, objSize, kind, prot);
            var capacity, mapped := objNum >= 2 && IsPow2(objNum), And(prot, MAP_MALLOC + MAP_SHM) != 0;
            && (status == CapacityWrong <==> !capacity)
            && (status == UseSlotNa <==> capacity && kind.NaSlot?)
            && (status == NoMappingType <==> capacity && !kind.NaSlot? && !mapped)
            && (status.Accepted? <==> capacity && !kind.NaSlot? && mapped)
            && Errno(status) ==
                 (if !capacity then -106 else if kind.NaSlot? then -111 else if !mapped then -105 else 0)
            && (status.Accepted? && Fits(objNum, objSize, kind) ==>
                  && Sound(status.info, objNum, objSize, kind)
                  && status.info.totalSize == TrueSize(objNum, objSize, kind))
  {
    hide And, IsPow2, AlignedOffset, Wrap;
    if objNum >= 2 {
      PowerOfTwoTest(objNum);
    }
    if !kind.NaSlot? {
      SoundIffFits(objNum, objSize, kind);
      SizesWrap(objNum, objSize, kind);
      var info := TotalSize(objNum, objSize, kind);
      WrapFacts(SIZEOF_RINGBUF + info.objSize * objNum, 0);
      WrapFacts(info.bufEnd + SIZEOF_SLOT * objNum, 0);
    }
  }

  // Addresses

  /** Byte i of cell j, as GET_BUFFER(r)[j * objSize_ + i]. */
  function CellAddress(info: SizeInfo, j: nat, i: nat): int {
    info.bufStart + j * info.objSize + i
  }

  /** The word GET_SLOT(r, j). */
  function SlotAddress(info: SizeInfo, j: nat): nat {
    info.slotStart + SIZEOF_SLOT * j
  }

  /** In a sound layout every byte a ring touches is inside the block and has one owner. */
  lemma AddressesApart(info: SizeInfo, objNum: SizeT, objSize: SizeT, kind: SlotKind, j: nat, i: nat)
    requires Sound(info, objNum, objSize, kind) && j < objNum && i < info.objSize
    ensures 0 <= j * info.objSize + i < objNum * info.objSize
    ensures SIZEOF_RINGBUF <= CellAddress(info, j, i) < info.totalSize
    ensures forall j', i' {:trigger CellAddress(info, j', i')} | 0 <= j' < objNum && 0 <= i' < info.objSize ::
              CellAddress(info, j', i') == CellAddress(info, j, i) ==> j' == j && i' == i
    ensures Slots(objNum, kind) > 0 ==>
              forall k | 0 <= k < objNum ::
                CellAddress(info, j, i) < SlotAddress(info, k) && SlotAddress(info, k) + 8 <= info.totalSize
    ensures SlotAddress(info, 0) == info.slotStart
    ensures forall k, k' | 0 <= k < k' :: SlotAddress(info, k) + 64 <= SlotAddress(info, k')
  {
    Rows(j, objNum, info.objSize);
    forall j', i' | 0 <= j' < objNum && 0 <= i' < info.objSize
      ensures CellAddress(info, j', i') == CellAddress(info, j, i) ==> j' == j && i' == i
    {
      Rows(j', j, info.objSize);
      Rows(j, j', info.objSize);
    }
  }

  /** A row ends where the next one starts, or earlier than any later one. */
  lemma Rows(j: nat, k: nat, sz: nat)
    ensures 0 <= j * sz
    ensures j < k ==> j * sz + sz <= k * sz == sz * k
  {
    NonNegative(j, sz);
    if j < k {
      NonNegative(k - j - 1, sz);
      Distribute(sz, j + 1, k - j - 1);
      Distribute(sz, j, 1);
    }
  }

  lemma NonNegative(a: nat, b: nat)
    ensures 0 <= a * b
  {
  }

  // Initial slots

  /** Sets up the slot array of a new ring. */
  method InitSlots(slot: array<SizeT>, kind: SlotKind)
    requires slot.Length < TWO_TO_THE_64
    modifies slot
    ensures kind.MpmcSlot? ==> forall j | 0 <= j < slot.Length :: slot[j] == j
    ensures kind.MpscSlot? ==> forall j | 0 <= j < slot.Length :: slot[j] == SLOT_EMPTY
    ensures kind.NoSlot? || kind.NaSlot? ==> slot[..] == old(slot[..])
  {
    if kind.MpmcSlot? {
      for i := 0 to slot.Length
        invariant forall j | 0 <= j < i :: slot[j] == j
      {
        slot[i] := i;
      }
    } else if kind.MpscSlot? {
      for i := 0 to slot.Length
        invariant forall j | 0 <= j < i :: slot[j] == SLOT_EMPTY
      {
        slot[i] := SLOT_EMPTY;
      }
    }
  }
}
