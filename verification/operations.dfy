/** What callers of the four rings hand in and get back. */
module Operations {
  import opened Words
  import opened Cells

  type Tid = nat

  /** How a pop consumes its cell: a copy of `size` bytes, or a callback reading at will. */
  datatype PopMode = Into(size: nat) | Callback

  /** What a caller asks for. */
  datatype Call = NoCall | PushCall(obj: seq<Byte>) | PopCall(mode: PopMode)

  /** One byte observed by a pop, with its offset in the cell. */
  datatype Read = Read(offset: nat, byte: Byte)

  /** A claimed push: the object and the thread that won the ticket. */
  datatype Entry = Entry(obj: seq<Byte>, who: Tid)

  datatype Ret =
    | None
    | PushSizeTooLarge
    | PopSizeTooLarge
    | Full
    | Empty
    | Contention
    | SlotWritingData
    | SlotStatUnknown
    | Pushed(ticket: nat)
    | Popped(ticket: nat, seen: seq<Read>)

  /** The ssize_t that stands for a result. */
  function Code(r: Ret): int {
    match r
    case None => 0
    case Full => -100
    case Empty => -101
    case Contention => -103
    case PushSizeTooLarge => -109
    case PopSizeTooLarge => -110
    case SlotWritingData => -112
    case SlotStatUnknown => -113
    case Pushed(k) => AsSigned(Wrap(k))
    case Popped(k, _) => AsSigned(Wrap(k))
  }

  /** The error codes of the public header. */
  lemma ErrorCodes()
    ensures Code(Full) == -100 && Code(Empty) == -101 && Code(Contention) == -103
    ensures Code(PushSizeTooLarge) == -109 && Code(PopSizeTooLarge) == -110
    ensures Code(SlotWritingData) == -112 && Code(SlotStatUnknown) == -113
  {
  }

  /** A caller can tell a ticket from an error by its sign exactly while tickets stay below 2^63. */
  lemma TicketCodeIsTicket(r: Ret)
    requires (r.Pushed? || r.Popped?) && r.ticket < TWO_TO_THE_64
    ensures Code(r) == r.ticket <==> r.ticket < TWO_TO_THE_63
    ensures Code(r) >= 0 <==> r.ticket < TWO_TO_THE_63
  {
  }

  /** Every byte read at an offset inside `bytes` is the byte of `bytes` at that offset. */
  ghost predicate ReadsFrom(seen: seq<Read>, bytes: seq<Byte>) {
    forall x | 0 <= x < |seen| :: seen[x].offset < |bytes| ==> seen[x].byte == bytes[seen[x].offset]
  }

  /** A copying pop reads offsets 0, 1, 2, ... in turn and at most `size` of them. */
  ghost predicate InOrder(mode: PopMode, seen: seq<Read>) {
    mode.Into? ==> |seen| <= mode.size && forall x | 0 <= x < |seen| :: seen[x].offset == x
  }

  ghost predicate ModeFits(mode: PopMode, sz: nat) {
    mode.Into? ==> mode.size <= sz
  }

  ghost predicate InCell(offsets: seq<nat>, sz: nat) {
    forall x | 0 <= x < |offsets| :: offsets[x] < sz
  }

  /** What reading a cell at the given offsets, one after the other, shows. */
  ghost function ReadsOf(cell: seq<Byte>, offsets: seq<nat>): (seen: seq<Read>)
    requires InCell(offsets, |cell|)
    ensures |seen| == |offsets|
    ensures forall x | 0 <= x < |seen| :: seen[x] == Read(offsets[x], cell[offsets[x]])
  {
    seq(|offsets|, x requires 0 <= x < |offsets| => Read(offsets[x], cell[offsets[x]]))
  }

  lemma ReadsInTwo(seen: seq<Read>, cell: seq<Byte>, a: seq<nat>, b: seq<nat>)
    requires InCell(a, |cell|) && InCell(b, |cell|)
    ensures InCell(a + b, |cell|)
    ensures seen + ReadsOf(cell, a) + ReadsOf(cell, b) == seen + ReadsOf(cell, a + b)
    ensures seen + ReadsOf(cell, []) == seen
  {
  }

  /** The bytes an in-order read delivered. */
  function Bytes(seen: seq<Read>): (b: seq<Byte>)
    ensures |b| == |seen|
    ensures forall i | 0 <= i < |seen| :: b[i] == seen[i].byte
  {
    seq(|seen|, i requires 0 <= i < |seen| => seen[i].byte)
  }

  /** A copy of `size` bytes out of a cell that starts with obj agrees with obj as far as both go. */
  lemma CopyAgrees(seen: seq<Read>, size: nat, obj: seq<Byte>)
    requires InOrder(Into(size), seen) && |seen| == size && ReadsFrom(seen, obj)
    ensures size <= |obj| ==> Bytes(seen) == obj[..size]
    ensures |obj| <= size ==> obj <= Bytes(seen)
  {
    forall i | 0 <= i < size && i < |obj|
      ensures Bytes(seen)[i] == obj[i]
    {
      assert seen[i].offset == i;
    }
  }

  ghost function Objects(log: seq<Entry>): (objs: seq<seq<Byte>>)
    ensures |objs| == |log|
    ensures forall k | 0 <= k < |log| :: objs[k] == log[k].obj
  {
    seq(|log|, k requires 0 <= k < |log| => log[k].obj)
  }
}
