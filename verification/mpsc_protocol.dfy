/**
 * The multi-producer single-consumer ring: producers claim tickets by CAS on head_ and raise a flag
 * per cell; the one consumer clears the flag before it advances tail_. The consumer's cached head is
 * thread-local, so it may hold anything, even a value left by another ring.
 */
module MpscProtocol {
  import opened Words
  import opened Cells
  import opened Operations
  import opened Layout

  const SLOT_UNKNOWN: SizeT := 0

  datatype Producer =
    | Idle(ret: Ret)
    | Start(obj: seq<Byte>)
    | HeadLoaded(obj: seq<Byte>, e: nat, at: nat)
    | Admitted(obj: seq<Byte>, e: nat, at: nat)
    | Copying(obj: seq<Byte>, e: nat, i: nat)

  datatype Consumer =
    | Rest(ret: Ret)
    | Begun(mode: PopMode)
    | Reloading(mode: PopMode, e: nat)
    | Probing(mode: PopMode, e: nat)
    | Reading(mode: PopMode, e: nat, seen: seq<Read>)
    | Clearing(e: nat, res: Ret)
    | Advancing(e: nat, res: Ret)

  /** The shared ring; log[k] is the push that claimed ticket k, given[k] what its pop had read. */
  datatype Ring = Ring(
    n: nat, sz: nat, head: nat, tail: nat, flag: seq<nat>, cells: seq<seq<Byte>>,
    log: seq<Entry>, given: seq<seq<Read>>)

  datatype State = State(m: Ring, producers: map<Tid, Producer>, consumer: Consumer, localHead: nat)

  datatype Push = Begin(obj: seq<Byte>) | LoadHead(v: nat) | LoadTail(v: nat) | CasHead | WriteByte | SetValid

  datatype Pop =
    | BeginPop(mode: PopMode)
    | LoadOwnTail
    | ReloadHead(v: nat)
    | LoadFlag
    | ReadByte(offset: nat)
    | Finish
    | Clear
    | StoreTail

  datatype Event = ByProducer(t: Tid, p: Push) | ByConsumer(c: Pop)

  // Steps

  ghost predicate WellFormed(m: Ring) {
    && m.n >= 1
    && |m.flag| == m.n
    && |m.cells| == m.n
    && forall j | 0 <= j < m.n :: |m.cells[j]| == m.sz
  }

  ghost function FlagOf(m: Ring, k: nat): nat
    requires WellFormed(m)
  {
    m.flag[Idx(k, m.n)]
  }

  ghost function CellOf(m: Ring, k: nat): (c: seq<Byte>)
    requires WellFormed(m)
    ensures |c| == m.sz
  {
    m.cells[Idx(k, m.n)]
  }

  /** Loads of head_ and tail_ may be stale, but never older than what the thread must have seen. */
  ghost predicate CanPush(m: Ring, pc: Producer, p: Push) {
    && WellFormed(m)
    && match p
       case Begin(_) => pc.Idle?
       case LoadHead(v) => pc.Start? && v <= m.head
       case LoadTail(v) => pc.HeadLoaded? && v <= m.tail
       case CasHead => pc.Admitted?
       case WriteByte => pc.Copying? && pc.i < |pc.obj| && pc.i < m.sz
       case SetValid => pc.Copying? && pc.i == |pc.obj|
  }

  ghost predicate CanPop(m: Ring, pc: Consumer, c: Pop) {
    && WellFormed(m)
    && match c
       case BeginPop(_) => pc.Rest?
       case LoadOwnTail => pc.Begun?
       case ReloadHead(v) => pc.Reloading? && m.tail <= v <= m.head
       case LoadFlag => pc.Probing?
       case ReadByte(offset) =>
         pc.Reading? && offset < m.sz && (pc.mode.Into? ==> offset == |pc.seen| < pc.mode.size)
       case Finish => pc.Reading? && (pc.mode.Into? ==> |pc.seen| == pc.mode.size)
       case Clear => pc.Clearing?
       case StoreTail => pc.Advancing?
  }

  ghost predicate Enabled(s: State, ev: Event) {
    match ev
    case ByProducer(t, p) => t in s.producers && CanPush(s.m, s.producers[t], p)
    case ByConsumer(c) => CanPop(s.m, s.consumer, c)
  }

  /** curr_head - curr_tail >= objNum_ in unsigned arithmetic: a negative difference wraps to a huge one. */
  ghost predicate LooksFull(head: nat, tail: nat, n: nat) {
    tail > head || head - tail >= n
  }

  ghost function NextProducer(m: Ring, pc: Producer, p: Push): Producer
    requires CanPush(m, pc, p)
  {
    match p
    case Begin(obj) => if |obj| > m.sz then Idle(PushSizeTooLarge) else Start(obj)
    case LoadHead(v) => HeadLoaded(pc.obj, v, m.head)
    case LoadTail(v) => if LooksFull(pc.e, v, m.n) then Idle(Full) else Admitted(pc.obj, pc.e, pc.at)
    case CasHead => if m.head == pc.e then Copying(pc.obj, pc.e, 0) else Idle(Contention)
    case WriteByte => pc.(i := pc.i + 1)
    case SetValid => Idle(Pushed(pc.e))
  }

  ghost function RingAfterPush(m: Ring, t: Tid, pc: Producer, p: Push): Ring
    requires CanPush(m, pc, p)
  {
    match p
    case CasHead => if m.head == pc.e then m.(head := pc.e + 1, log := m.log + [Entry(pc.obj, t)]) else m
    case WriteByte =>
      var j := Idx(pc.e, m.n);
      m.(cells := m.cells[j := m.cells[j][pc.i := pc.obj[pc.i]]])
    case SetValid => m.(flag := m.flag[Idx(pc.e, m.n) := SLOT_VALID])
    case _ => m
  }

  ghost function NextConsumer(m: Ring, localHead: nat, pc: Consumer, c: Pop): Consumer
    requires CanPop(m, pc, c)
  {
    match c
    case BeginPop(mode) => if mode.Into? && mode.size > m.sz then Rest(PopSizeTooLarge) else Begun(mode)
    case LoadOwnTail => if localHead == m.tail then Reloading(pc.mode, m.tail) else Probing(pc.mode, m.tail)
    case ReloadHead(v) => if v == pc.e then Rest(Empty) else Probing(pc.mode, pc.e)
    case LoadFlag =>
      var stat := FlagOf(m, pc.e);
      if And(stat, SLOT_EMPTY) != 0 then Rest(SlotWritingData)
      else if And(stat, SLOT_UNKNOWN) != 0 then Clearing(pc.e, SlotStatUnknown)
      else Reading(pc.mode, pc.e, [])
    case ReadByte(offset) => pc.(seen := pc.seen + [Read(offset, CellOf(m, pc.e)[offset])])
    case Finish => Clearing(pc.e, Popped(pc.e, pc.seen))
    case Clear => Advancing(pc.e, pc.res)
    case StoreTail => Rest(pc.res)
  }

  ghost function RingAfterPop(m: Ring, pc: Consumer, c: Pop): Ring
    requires CanPop(m, pc, c)
  {
    match c
    case Clear => m.(flag := m.flag[Idx(pc.e, m.n) := SLOT_EMPTY])
    case StoreTail => m.(tail := pc.e + 1, given := m.given + [if pc.res.Popped? then pc.res.seen else []])
    case _ => m
  }

  ghost function Step(s: State, ev: Event): State
    requires Enabled(s, ev)
  {
    match ev
    case ByProducer(t, p) =>
      var pc := s.producers[t];
      s.(m := RingAfterPush(s.m, t, pc, p), producers := s.producers[t := NextProducer(s.m, pc, p)])
    case ByConsumer(c) =>
      s.(m := RingAfterPop(s.m, s.consumer, c),
         consumer := NextConsumer(s.m, s.localHead, s.consumer, c),
         localHead := if c.ReloadHead? then c.v else s.localHead)
  }

  /** The ring as set up by get_buf; nothing is said about the consumer's cached head. */
  ghost predicate Initial(s: State) {
    && WellFormed(s.m)
    && IsPow2(s.m.n)
    && s.m.head == 0 && s.m.tail == 0
    && (forall j | 0 <= j < s.m.n :: s.m.flag[j] == SLOT_EMPTY)
    && s.m.log == [] && s.m.given == []
    && (forall t | t in s.producers :: s.producers[t] == Idle(None))
    && s.consumer == Rest(None)
  }

  // The invariant

  ghost predicate Shape(m: Ring) {
    && WellFormed(m)
    && IsPow2(m.n)
    && |m.log| == m.head
    && |m.given| == m.tail
    && m.tail <= m.head <= m.tail + m.n
    && (forall k | 0 <= k < |m.log| :: |m.log[k].obj| <= m.sz)
    && (forall j | 0 <= j < m.n :: m.flag[j] == SLOT_EMPTY || m.flag[j] == SLOT_VALID)
  }

  /** Tickets not claimed yet find their cell marked empty: no claim meets a leftover VALID. */
  ghost predicate FreshInv(m: Ring)
    requires WellFormed(m)
  {
    forall k | m.head <= k < m.tail + m.n :: FlagOf(m, k) == SLOT_EMPTY
  }

  /** A published, unconsumed ticket's cell starts with the pushed object. */
  ghost predicate DataInv(m: Ring)
    requires WellFormed(m)
  {
    forall k | m.tail <= k < |m.log| && FlagOf(m, k) == SLOT_VALID :: m.log[k].obj <= CellOf(m, k)
  }

  ghost predicate GivenInv(m: Ring) {
    forall k | 0 <= k < |m.given| && k < |m.log| :: ReadsFrom(m.given[k], m.log[k].obj)
  }

  /** A claimed ticket marked empty is still being written, or just being retired by the consumer. */
  ghost predicate WritersInv(s: State)
    requires WellFormed(s.m)
  {
    forall k | s.m.tail <= k < |s.m.log| && FlagOf(s.m, k) == SLOT_EMPTY ::
      Retires(s.consumer, k) || Writes(s.producers, s.m.log[k].who, k)
  }

  ghost predicate Retires(pc: Consumer, k: nat) {
    pc.Advancing? && pc.e == k
  }

  ghost predicate Writes(producers: map<Tid, Producer>, t: Tid, k: nat) {
    t in producers && producers[t].Copying? && producers[t].e == k
  }

  ghost predicate NotPushedSince(log: seq<Entry>, t: Tid, lo: nat) {
    forall k | lo <= k < |log| :: log[k].who != t
  }

  ghost predicate ProducerOk(m: Ring, consumer: Consumer, t: Tid, pc: Producer)
    requires WellFormed(m)
  {
    match pc
    case Idle(_) => true
    case Start(obj) => |obj| <= m.sz
    case HeadLoaded(obj, e, at) => |obj| <= m.sz && e <= at <= m.head && NotPushedSince(m.log, t, at)
    case Admitted(obj, e, at) =>
      |obj| <= m.sz && e <= at <= m.head && NotPushedSince(m.log, t, at) && e < m.tail + m.n
    case Copying(obj, e, i) =>
      && m.tail <= e < |m.log|
      && FlagOf(m, e) == SLOT_EMPTY
      && !Retires(consumer, e)
      && m.log[e] == Entry(obj, t)
      && i <= |obj| <= m.sz
      && CellOf(m, e)[..i] == obj[..i]
  }

  /** Ticket e is the front of the queue and has been published. */
  ghost predicate FrontReady(m: Ring, e: nat)
    requires WellFormed(m)
  {
    e == m.tail < |m.log| && FlagOf(m, e) == SLOT_VALID
  }

  ghost predicate ConsumerOk(m: Ring, pc: Consumer)
    requires WellFormed(m)
  {
    match pc
    case Rest(_) => true
    case Begun(mode) => ModeFits(mode, m.sz)
    case Reloading(mode, e) => ModeFits(mode, m.sz) && e == m.tail
    case Probing(mode, e) => ModeFits(mode, m.sz) && e == m.tail
    case Reading(mode, e, seen) =>
      FrontReady(m, e) && ModeFits(mode, m.sz) && InOrder(mode, seen) && ReadsFrom(seen, CellOf(m, e))
    case Clearing(e, res) =>
      FrontReady(m, e) && res.Popped? && res.ticket == e && ReadsFrom(res.seen, m.log[e].obj)
    case Advancing(e, res) =>
      && e == m.tail < |m.log| && FlagOf(m, e) == SLOT_EMPTY
      && res.Popped? && res.ticket == e && ReadsFrom(res.seen, m.log[e].obj)
  }

  ghost predicate Inv(s: State) {
    && Shape(s.m)
    && FreshInv(s.m) && DataInv(s.m) && GivenInv(s.m)
    && WritersInv(s)
    && ConsumerOk(s.m, s.consumer)
    && forall t | t in s.producers :: ProducerOk(s.m, s.consumer, t, s.producers[t])
  }
}
