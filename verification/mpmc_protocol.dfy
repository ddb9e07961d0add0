/**
 * The multi-producer multi-consumer ring as a state machine over its atomic steps.
 *
 * Head and tail are tickets; ticket k lives in cell Idx(k, n). A slot holding k means "cell free
 * for ticket k", a slot holding k + 1 means "ticket k published". A load may return any value that
 * is not newer than the current one, so every result also covers stale reads.
 */
module MpmcProtocol {
  import opened Words
  import opened Cells
  import opened Operations

  /** Program counter and locals; `at` records the index itself at the moment `e` was loaded. */
  datatype Pc =
    | Idle(ret: Ret)
    | PushStart(obj: seq<Byte>)
    | PushLoaded(obj: seq<Byte>, e: nat, at: nat)
    | PushReady(obj: seq<Byte>, e: nat, at: nat)
    | PushCopy(obj: seq<Byte>, e: nat, i: nat)
    | PopStart(mode: PopMode)
    | PopLoaded(mode: PopMode, e: nat, at: nat)
    | PopReady(mode: PopMode, e: nat, at: nat)
    | PopRead(mode: PopMode, e: nat, seen: seq<Read>)

  /**
   * The shared ring, with three histories beside it: log[k] is the push that claimed ticket k,
   * taken[k] the thread that claimed it for popping, given[k] what that thread had read when it
   * released the cell.
   */
  datatype Ring = Ring(
    n: nat, sz: nat, head: nat, tail: nat, slot: seq<nat>, cells: seq<seq<Byte>>,
    log: seq<Entry>, taken: seq<Tid>, given: map<nat, seq<Read>>)

  datatype State = State(m: Ring, threads: map<Tid, Pc>)

  datatype Action =
    | BeginPush(obj: seq<Byte>)
    | BeginPop(mode: PopMode)
    | LoadIndex(v: nat)
    | LoadSlot(v: nat)
    | Cas
    | CopyByte(offset: nat)
    | StoreSlot

  // Steps

  ghost predicate WellFormed(m: Ring) {
    && m.n >= 1
    && |m.slot| == m.n
    && |m.cells| == m.n
    && forall j | 0 <= j < m.n :: |m.cells[j]| == m.sz
  }

  /** The slot that serves ticket k. */
  ghost function SlotOf(m: Ring, k: nat): nat
    requires WellFormed(m)
  {
    m.slot[Idx(k, m.n)]
  }

  /** The cell that serves ticket k. */
  ghost function CellOf(m: Ring, k: nat): (c: seq<Byte>)
    requires WellFormed(m)
    ensures |c| == m.sz
  {
    m.cells[Idx(k, m.n)]
  }

  /** The atomic steps open to a thread at program counter pc. */
  ghost predicate CanDo(m: Ring, pc: Pc, a: Action) {
    && WellFormed(m)
    && match a
       case BeginPush(_) => pc.Idle?
       case BeginPop(_) => pc.Idle?
       case LoadIndex(v) => (pc.PushStart? && v <= m.head) || (pc.PopStart? && v <= m.tail)
       case LoadSlot(v) => (pc.PushLoaded? || pc.PopLoaded?) && v <= SlotOf(m, pc.e)
       case Cas => pc.PushReady? || pc.PopReady?
       case CopyByte(offset) =>
         && offset < m.sz
         && ((pc.PushCopy? && offset == pc.i < |pc.obj|)
             || (pc.PopRead? && (pc.mode.Into? ==> offset == |pc.seen| < pc.mode.size)))
       case StoreSlot =>
         || (pc.PushCopy? && pc.i == |pc.obj|)
         || (pc.PopRead? && (pc.mode.Into? ==> |pc.seen| == pc.mode.size))
  }

  /** Where the thread's program counter goes. */
  ghost function NextPc(m: Ring, pc: Pc, a: Action): Pc
    requires CanDo(m, pc, a)
  {
    match a
    case BeginPush(obj) => if |obj| > m.sz then Idle(PushSizeTooLarge) else PushStart(obj)
    case BeginPop(mode) => if mode.Into? && mode.size > m.sz then Idle(PopSizeTooLarge) else PopStart(mode)
    case LoadIndex(v) =>
      if pc.PushStart? then PushLoaded(pc.obj, v, m.head) else PopLoaded(pc.mode, v, m.tail)
    case LoadSlot(v) =>
      if pc.PushLoaded? then
        if v > pc.e then Idle(Contention) else if v < pc.e then Idle(Full) else PushReady(pc.obj, pc.e, pc.at)
      else
        if v > pc.e + 1 then Idle(Contention) else if v < pc.e + 1 then Idle(Empty) else PopReady(pc.mode, pc.e, pc.at)
    case Cas =>
      if pc.PushReady? then
        if m.head == pc.e then PushCopy(pc.obj, pc.e, 0) else Idle(Contention)
      else
        if m.tail == pc.e then PopRead(pc.mode, pc.e, []) else Idle(Contention)
    case CopyByte(offset) =>
      if pc.PushCopy? then pc.(i := offset + 1)
      else pc.(seen := pc.seen + [Read(offset, CellOf(m, pc.e)[offset])])
    case StoreSlot =>
      Idle(if pc.PushCopy? then Pushed(pc.e) else Popped(pc.e, pc.seen))
  }

  /** What the step does to the shared ring. */
  ghost function NextRing(m: Ring, t: Tid, pc: Pc, a: Action): Ring
    requires CanDo(m, pc, a)
  {
    match a
    case Cas =>
      if pc.PushReady? && m.head == pc.e then m.(head := pc.e + 1, log := m.log + [Entry(pc.obj, t)])
      else if pc.PopReady? && m.tail == pc.e then m.(tail := pc.e + 1, taken := m.taken + [t])
      else m
    case CopyByte(offset) =>
      var j := Idx(pc.e, m.n);
      if pc.PushCopy? then m.(cells := m.cells[j := m.cells[j][offset := pc.obj[offset]]]) else m
    case StoreSlot =>
      var j := Idx(pc.e, m.n);
      if pc.PushCopy? then m.(slot := m.slot[j := pc.e + 1])
      else m.(slot := m.slot[j := pc.e + m.n], given := m.given[pc.e := pc.seen])
    case _ => m
  }

  ghost predicate Enabled(s: State, t: Tid, a: Action) {
    t in s.threads && CanDo(s.m, s.threads[t], a)
  }

  ghost function Step(s: State, t: Tid, a: Action): State
    requires Enabled(s, t, a)
  {
    var pc := s.threads[t];
    State(NextRing(s.m, t, pc, a), s.threads[t := NextPc(s.m, pc, a)])
  }

  /** The ring as set up by get_buf: slot j free for ticket j, every thread outside an operation. */
  ghost predicate Initial(s: State) {
    && WellFormed(s.m)
    && IsPow2(s.m.n) && s.m.n >= 2
    && s.m.head == 0 && s.m.tail == 0
    && (forall j | 0 <= j < s.m.n :: s.m.slot[j] == j)
    && s.m.log == [] && s.m.taken == [] && s.m.given == map[]
    && forall t | t in s.threads :: s.threads[t] == Idle(None)
  }

  // The invariant

  /** A slot value that says "cell j is free for ticket v". */
  ghost predicate Free(n: nat, tail: nat, j: nat, v: nat)
    requires n >= 1
  {
    Idx(v, n) == j && tail <= v < tail + n
  }

  /** A slot value that says "cell j holds the published ticket v - 1". */
  ghost predicate Published(n: nat, head: nat, j: nat, v: nat)
    requires n >= 1
  {
    v >= 1 && Idx(v - 1, n) == j && v <= head < v + n
  }

  ghost predicate Shape(m: Ring) {
    && WellFormed(m)
    && IsPow2(m.n) && m.n >= 2
    && |m.log| == m.head
    && |m.taken| == m.tail
    && m.tail <= m.head <= m.tail + m.n
    && (forall k | 0 <= k < |m.log| :: |m.log[k].obj| <= m.sz)
    && (forall j | 0 <= j < m.n :: Free(m.n, m.tail, j, m.slot[j]) || Published(m.n, m.head, j, m.slot[j]))
  }

  /** No ticket from `lo` on was claimed for pushing by t. */
  ghost predicate NotPushedSince(log: seq<Entry>, t: Tid, lo: nat) {
    forall k | lo <= k < |log| :: log[k].who != t
  }

  ghost predicate NotTakenSince(taken: seq<Tid>, t: Tid, lo: nat) {
    forall k | lo <= k < |taken| :: taken[k] != t
  }

  ghost predicate ThreadOk(m: Ring, t: Tid, pc: Pc)
    requires WellFormed(m)
  {
    match pc
    case Idle(_) => true
    case PushStart(obj) => |obj| <= m.sz
    case PushLoaded(obj, e, at) => |obj| <= m.sz && e <= at <= m.head && NotPushedSince(m.log, t, at)
    case PushReady(obj, e, at) =>
      |obj| <= m.sz && e <= at <= m.head && NotPushedSince(m.log, t, at) && e <= SlotOf(m, e)
    case PushCopy(obj, e, i) => ClaimedBy(m, t, obj, e) && i <= |obj| && CellOf(m, e)[..i] == obj[..i]
    case PopStart(mode) => ModeFits(mode, m.sz)
    case PopLoaded(mode, e, at) => ModeFits(mode, m.sz) && e <= at <= m.tail && NotTakenSince(m.taken, t, at)
    case PopReady(mode, e, at) =>
      ModeFits(mode, m.sz) && e <= at <= m.tail && NotTakenSince(m.taken, t, at) && e + 1 <= SlotOf(m, e)
    case PopRead(mode, e, seen) =>
      TakenBy(m, t, e) && ModeFits(mode, m.sz) && InOrder(mode, seen) && ReadsFrom(seen, CellOf(m, e))
  }

  /** Thread t owns ticket e between its CAS on head_ and its release store. */
  ghost predicate ClaimedBy(m: Ring, t: Tid, obj: seq<Byte>, e: nat)
    requires WellFormed(m)
  {
    && m.tail <= e < |m.log|
    && SlotOf(m, e) == e
    && m.log[e] == Entry(obj, t)
    && |obj| <= m.sz
  }

  /** Thread t owns ticket e between its CAS on tail_ and its release store. */
  ghost predicate TakenBy(m: Ring, t: Tid, e: nat)
    requires WellFormed(m)
  {
    && e < |m.taken|
    && m.head <= e + m.n
    && SlotOf(m, e) == e + 1
    && m.taken[e] == t
    && e !in m.given
  }

  ghost predicate ThreadsInv(s: State)
    requires WellFormed(s.m)
  {
    forall t | t in s.threads :: ThreadOk(s.m, t, s.threads[t])
  }

  /** A claimed ticket that is not published yet is being written by the thread that claimed it. */
  ghost predicate WritersInv(s: State)
    requires WellFormed(s.m)
  {
    forall k | s.m.tail <= k < |s.m.log| && SlotOf(s.m, k) == k ::
      Writes(s.threads, s.m.log[k].who, k)
  }

  ghost predicate Writes(threads: map<Tid, Pc>, t: Tid, k: nat) {
    t in threads && threads[t].PushCopy? && threads[t].e == k
  }

  /** A taken ticket is being read by the thread that took it until it is handed over. */
  ghost predicate ReadersInv(s: State) {
    forall k | 0 <= k < |s.m.taken| && k !in s.m.given :: Reads(s.threads, s.m.taken[k], k)
  }

  ghost predicate Reads(threads: map<Tid, Pc>, t: Tid, k: nat) {
    t in threads && threads[t].PopRead? && threads[t].e == k
  }

  /** A published ticket's cell starts with the pushed object. */
  ghost predicate DataInv(m: Ring)
    requires WellFormed(m)
  {
    forall k | 0 <= k < |m.log| && m.head <= k + m.n && SlotOf(m, k) == k + 1 :: m.log[k].obj <= CellOf(m, k)
  }

  /** Everything handed over was the pushed object, and its cell has been released. */
  ghost predicate GivenInv(m: Ring)
    requires WellFormed(m)
  {
    forall k | k in m.given ::
      k < m.tail && k < |m.log| && ReadsFrom(m.given[k], m.log[k].obj) && k + m.n <= SlotOf(m, k)
  }

  ghost predicate Inv(s: State) {
    && Shape(s.m)
    && ThreadsInv(s)
    && WritersInv(s)
    && ReadersInv(s)
    && DataInv(s.m)
    && GivenInv(s.m)
  }
}
