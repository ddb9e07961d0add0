/**
 * The single-producer single-consumer ring: each side keeps a thread-local cache of the other side's
 * index and refreshes it only when the cache says "full" or "empty". A side works on its cell
 * through a window that is open from Begin to End; Push and Pop open, copy and close it in one call.
 *
 * Indices and caches are unbounded numbers that the tests compare as 64-bit words. A cache is
 * thread-local, so it may hold anything, even a value left by another ring on the same thread.
 */
module SpscProtocol {
  import opened Words
  import opened Cells
  import opened Operations

  datatype Producer = Away(ret: Ret) | NeedsTail | Writing

  datatype Consumer = Gone(ret: Ret) | NeedsHead | Reading(seen: seq<Read>)

  /** log[k] is the cell's content when ticket k was pushed, given[k] what had been read when it was popped. */
  datatype State = State(
    n: nat, sz: nat, head: nat, tail: nat, cells: seq<seq<Byte>>,
    producer: Producer, localTail: nat,
    consumer: Consumer, localHead: nat,
    log: seq<seq<Byte>>, given: seq<seq<Read>>)

  datatype Event =
    | BeginPush
    | LoadTail(v: nat)
    | WriteByte(offset: nat, b: Byte)
    | EndPush
    | BeginPop
    | LoadHead(v: nat)
    | ReadByte(offset: nat)
    | EndPop

  ghost predicate ByProducer(ev: Event) {
    ev.BeginPush? || ev.LoadTail? || ev.WriteByte? || ev.EndPush?
  }

  // Steps

  ghost predicate WellFormed(s: State) {
    && s.n >= 1
    && |s.cells| == s.n
    && forall j | 0 <= j < s.n :: |s.cells[j]| == s.sz
  }

  ghost function CellOf(s: State, k: nat): (c: seq<Byte>)
    requires WellFormed(s)
    ensures |c| == s.sz
  {
    s.cells[Idx(k, s.n)]
  }

  /** The occupancy the producer's cache shows it. */
  ghost function Shown(s: State): SizeT {
    Sub64(Wrap(s.head), Wrap(s.localTail))
  }

  /** The number of objects the consumer's cache makes it wait for no longer. */
  ghost function Promised(s: State): SizeT {
    Sub64(Wrap(s.localHead), Wrap(s.tail))
  }

  /** A refreshing load may be stale, but not older than what took the thread's own index where it is. */
  ghost predicate Enabled(s: State, ev: Event) {
    && WellFormed(s)
    && match ev
       case BeginPush => s.producer.Away?
       case LoadTail(v) => s.producer.NeedsTail? && v <= s.tail && s.head <= v + s.n
       case WriteByte(offset, _) => s.producer.Writing? && offset < s.sz
       case EndPush => s.producer.Writing?
       case BeginPop => s.consumer.Gone?
       case LoadHead(v) => s.consumer.NeedsHead? && s.tail <= v <= s.head
       case ReadByte(offset) => s.consumer.Reading? && offset < s.sz
       case EndPop => s.consumer.Reading?
  }

  ghost function Step(s: State, ev: Event): State
    requires Enabled(s, ev)
  {
    match ev
    case BeginPush => s.(producer := if Shown(s) >= s.n then NeedsTail else Writing)
    case LoadTail(v) =>
      var refreshed := s.(localTail := v);
      refreshed.(producer := if Shown(refreshed) >= s.n then Away(Full) else Writing)
    case WriteByte(offset, b) =>
      var j := Idx(s.head, s.n);
      s.(cells := s.cells[j := s.cells[j][offset := b]])
    case EndPush => s.(head := s.head + 1, log := s.log + [CellOf(s, s.head)], producer := Away(Pushed(s.head)))
    case BeginPop => s.(consumer := if Wrap(s.localHead) == Wrap(s.tail) then NeedsHead else Reading([]))
    case LoadHead(v) => s.(localHead := v, consumer := if Wrap(v) == Wrap(s.tail) then Gone(Empty) else Reading([]))
    case ReadByte(offset) =>
      s.(consumer := Reading(s.consumer.seen + [Read(offset, CellOf(s, s.tail)[offset])]))
    case EndPop =>
      s.(tail := s.tail + 1, given := s.given + [s.consumer.seen], consumer := Gone(Popped(s.tail, s.consumer.seen)))
  }

  /** A fresh ring. The producer's cache may hold anything, the consumer's must be zero. */
  ghost predicate Initial(s: State) {
    && WellFormed(s) && IsPow2(s.n) && s.n < TWO_TO_THE_64
    && s.head == s.tail == s.localHead == 0
    && s.producer == Away(None) && s.consumer == Gone(None)
    && s.log == [] && s.given == []
  }

  // The invariant

  /** Everything but the caches. */
  ghost predicate RingInv(s: State) {
    && WellFormed(s) && IsPow2(s.n) && s.n < TWO_TO_THE_64
    && s.tail <= s.head <= s.tail + s.n
    && |s.log| == s.head && |s.given| == s.tail
    && (forall k | s.tail <= k < s.head :: CellOf(s, k) == s.log[k])
    && (forall k | 0 <= k < s.tail :: ReadsFrom(s.given[k], s.log[k]))
    && (s.producer.Writing? ==> s.head < s.tail + s.n)
    && (s.consumer.Reading? ==> s.tail < s.head && ReadsFrom(s.consumer.seen, CellOf(s, s.tail)))
  }

  /** Neither cache is too good: the consumer is promised no more than there is, the producer shown no less. */
  ghost predicate SafeCaches(s: State) {
    Promised(s) <= s.head - s.tail <= Shown(s)
  }

  ghost predicate Inv(s: State) {
    && RingInv(s)
    && SafeCaches(s)
    && (s.producer.Writing? ==> Shown(s) < s.n)
    && (s.consumer.Reading? ==> Promised(s) > 0)
  }

  /** Both caches hold values the indices have had: they lag behind, never ahead. */
  ghost predicate CachesCoherent(s: State) {
    s.localTail <= s.tail <= s.localHead <= s.head <= s.localTail + s.n
  }

  lemma InitialInv(s: State)
    requires Initial(s)
    ensures Inv(s)
    ensures s.localTail == 0 ==> CachesCoherent(s)
  {
  }

  /** What caches coherent with the indices show and promise. */
  lemma CoherentDistances(s: State)
    requires CachesCoherent(s) && s.n < TWO_TO_THE_64
    ensures Shown(s) == s.head - s.localTail && Promised(s) == s.localHead - s.tail && SafeCaches(s)
  {
    DistanceOfWrapped(s.head, s.localTail);
    DistanceOfWrapped(s.localHead, s.tail);
  }

  /** Open windows are never on the same cell. */
  lemma WindowsApart(s: State)
    requires RingInv(s) && s.producer.Writing?
    ensures forall k | s.tail <= k < s.head :: Idx(k, s.n) != Idx(s.head, s.n)
    ensures s.consumer.Reading? ==> Idx(s.tail, s.n) != Idx(s.head, s.n)
  {
    forall k | s.tail <= k < s.head
      ensures Idx(k, s.n) != Idx(s.head, s.n)
    {
      IdxApart(k, s.head, s.n);
    }
  }

  /** What a step does to the two cached distances. */
  lemma CachesAfterStep(s: State, ev: Event)
    requires Inv(s) && Enabled(s, ev)
    ensures var s' := Step(s, ev);
            && Promised(s') ==
                 (if ev.LoadHead? then ev.v - s.tail else if ev.EndPop? then Promised(s) - 1 else Promised(s))
            && Shown(s') ==
                 (if ev.LoadTail? then s.head - ev.v else if ev.EndPush? then Shown(s) + 1 else Shown(s))
  {
    hide And, Wrap, Sub64;
    match ev
    case LoadTail(v) => DistanceOfWrapped(s.head, v);
    case LoadHead(v) => DistanceOfWrapped(v, s.tail);
    case EndPush => DistanceGrows(s.head, s.localTail);
    case EndPop => DistanceShrinks(s.localHead, s.tail);
    case _ =>
  }

  lemma StepKeepsRing(s: State, ev: Event)
    requires Inv(s) && Enabled(s, ev) && SafeCaches(Step(s, ev))
    ensures RingInv(Step(s, ev))
  {
    hide And, Wrap, Sub64;
    DistanceZero(s.localHead, s.tail);
    if ev.LoadHead? { DistanceZero(ev.v, s.tail); }
    if ev.WriteByte? {
      WindowsApart(s);
    }
  }

  lemma StepKeepsInv(s: State, ev: Event)
    requires Inv(s) && Enabled(s, ev)
    ensures Inv(Step(s, ev))
  {
    hide And, Wrap, Sub64;
    CachesAfterStep(s, ev);
    StepKeepsRing(s, ev);
    DistanceZero(s.localHead, s.tail);
  }

  /** From coherent caches every step keeps `local_tail <= tail <= local_head <= head <= local_tail + objNum`. */
  lemma StepKeepsCoherence(s: State, ev: Event)
    requires Inv(s) && CachesCoherent(s) && Enabled(s, ev)
    ensures CachesCoherent(Step(s, ev))
  {
    hide And, Wrap, Sub64;
    CoherentDistances(s);
  }
}
