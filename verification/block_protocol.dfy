/**
 * The blocking ring: a monitor with one mutex and two condition variables. A wait may end without a
 * signal, a signal wakes at least one sleeper if there is one and possibly several, and a woken thread
 * competes for the mutex with threads that arrive later, as POSIX.1-2017 allows for
 * pthread_cond_wait and pthread_cond_signal.
 */
module BlockProtocol {
  import opened Words
  import opened Cells
  import opened Operations

  /** `woken` marks a thread that has slept since its operation began and has not used its wake-up yet. */
  datatype Pc =
    | Idle(ret: Ret)
    | PushArriving(obj: seq<Byte>)
    | PushTesting(obj: seq<Byte>, woken: bool)
    | PushAsleep(obj: seq<Byte>)
    | PushWoken(obj: seq<Byte>)
    | PushCopying(obj: seq<Byte>, woken: bool, i: nat)
    | PushSignalling(ticket: SizeT)
    | PushLeaving(ticket: SizeT)
    | PopArriving(size: nat)
    | PopTesting(size: nat, woken: bool)
    | PopAsleep(size: nat)
    | PopWoken(size: nat)
    | PopCopying(size: nat, woken: bool, seen: seq<Read>)
    | PopSignalling(ticket: SizeT, seen: seq<Read>)
    | PopLeaving(ticket: SizeT, seen: seq<Read>)

  datatype Ring = Ring(n: nat, sz: nat, head: nat, tail: nat, cells: seq<seq<Byte>>, log: seq<seq<Byte>>)

  datatype State = State(m: Ring, threads: map<Tid, Pc>)

  datatype Action =
    | BeginPush(obj: seq<Byte>)
    | BeginPop(size: nat)
    | Lock
    | Test
    | CopyByte
    | Advance
    | Signal(roused: set<Tid>)
    | Unlock
    | Rouse

  // Threads

  /** Between pthread_mutex_lock and unlock, and not inside a wait. */
  predicate Inside(pc: Pc) {
    || pc.PushTesting? || pc.PushCopying? || pc.PushSignalling? || pc.PushLeaving?
    || pc.PopTesting? || pc.PopCopying? || pc.PopSignalling? || pc.PopLeaving?
  }

  predicate Asleep(pc: Pc) {
    pc.PushAsleep? || pc.PopAsleep?
  }

  /** Waiting for the mutex, on arrival or on the way out of a wait. */
  predicate WantsLock(pc: Pc) {
    pc.PushArriving? || pc.PopArriving? || pc.PushWoken? || pc.PopWoken?
  }

  predicate LockFree(threads: map<Tid, Pc>) {
    forall t | t in threads :: !Inside(threads[t])
  }

  // Steps

  ghost predicate WellFormed(m: Ring) {
    && m.n >= 1
    && |m.cells| == m.n
    && forall j | 0 <= j < m.n :: |m.cells[j]| == m.sz
  }

  ghost function CellOf(m: Ring, k: nat): (c: seq<Byte>)
    requires WellFormed(m)
    ensures |c| == m.sz
  {
    m.cells[Idx(k, m.n)]
  }

  /** The threads asleep on the condition variable that a thread at pc signals. */
  function Sleepers(threads: map<Tid, Pc>, pc: Pc): set<Tid> {
    set t | t in threads && (if pc.PushSignalling? then threads[t].PopAsleep? else threads[t].PushAsleep?)
  }

  ghost predicate Enabled(s: State, t: Tid, a: Action) {
    && WellFormed(s.m)
    && t in s.threads
    && var pc := s.threads[t];
       match a
       case BeginPush(_) => pc.Idle?
       case BeginPop(_) => pc.Idle?
       case Lock => WantsLock(pc) && LockFree(s.threads)
       case Test => pc.PushTesting? || pc.PopTesting?
       case CopyByte =>
         || (pc.PushCopying? && pc.i < |pc.obj| && pc.i < s.m.sz)
         || (pc.PopCopying? && |pc.seen| < pc.size && |pc.seen| < s.m.sz)
       case Advance =>
         (pc.PushCopying? && pc.i == |pc.obj|) || (pc.PopCopying? && |pc.seen| == pc.size)
       case Signal(roused) =>
         && (pc.PushSignalling? || pc.PopSignalling?)
         && roused <= Sleepers(s.threads, pc)
         && (Sleepers(s.threads, pc) != {} ==> roused != {})
       case Unlock => pc.PushLeaving? || pc.PopLeaving?
       case Rouse => Asleep(pc)
  }

  function Roused(pc: Pc): Pc {
    if pc.PushAsleep? then PushWoken(pc.obj) else if pc.PopAsleep? then PopWoken(pc.size) else pc
  }

  /** The program counter of the stepping thread afterwards. */
  ghost function NextPc(s: State, t: Tid, a: Action): Pc
    requires Enabled(s, t, a)
  {
    var m, pc := s.m, s.threads[t];
    match a
    case BeginPush(obj) => if |obj| > m.sz then Idle(PushSizeTooLarge) else PushArriving(obj)
    case BeginPop(size) => if size > m.sz then Idle(PopSizeTooLarge) else PopArriving(size)
    case Lock =>
      if pc.PushArriving? || pc.PushWoken? then PushTesting(pc.obj, pc.PushWoken?)
      else PopTesting(pc.size, pc.PopWoken?)
    case Test =>
      if pc.PushTesting? then
        if m.head - m.tail >= m.n then PushAsleep(pc.obj) else PushCopying(pc.obj, pc.woken, 0)
      else
        if m.head == m.tail then PopAsleep(pc.size) else PopCopying(pc.size, pc.woken, [])
    case CopyByte =>
      if pc.PushCopying? then PushCopying(pc.obj, pc.woken, pc.i + 1)
      else PopCopying(pc.size, pc.woken, pc.seen + [Read(|pc.seen|, CellOf(m, m.tail)[|pc.seen|])])
    case Advance =>
      if pc.PushCopying? then PushSignalling(Wrap(m.head)) else PopSignalling(Wrap(m.tail), pc.seen)
    case Signal(_) =>
      if pc.PushSignalling? then PushLeaving(pc.ticket) else PopLeaving(pc.ticket, pc.seen)
    case Unlock => Idle(if pc.PushLeaving? then Pushed(pc.ticket) else Popped(pc.ticket, pc.seen))
    case Rouse => Roused(pc)
  }

  ghost function NextRing(s: State, t: Tid, a: Action): Ring
    requires Enabled(s, t, a)
  {
    var m, pc := s.m, s.threads[t];
    match a
    case CopyByte =>
      if pc.PushCopying? then
        var j := Idx(m.head, m.n);
        m.(cells := m.cells[j := m.cells[j][pc.i := pc.obj[pc.i]]])
      else m
    case Advance =>
      if pc.PushCopying? then m.(head := m.head + 1, log := m.log + [pc.obj]) else m.(tail := m.tail + 1)
    case _ => m
  }

  function RouseAll(threads: map<Tid, Pc>, roused: set<Tid>): map<Tid, Pc> {
    map t | t in threads :: if t in roused then Roused(threads[t]) else threads[t]
  }

  ghost function Step(s: State, t: Tid, a: Action): State
    requires Enabled(s, t, a)
  {
    var threads := if a.Signal? then RouseAll(s.threads, a.roused) else s.threads;
    State(NextRing(s, t, a), threads[t := NextPc(s, t, a)])
  }

  ghost predicate Initial(s: State) {
    && WellFormed(s.m) && IsPow2(s.m.n)
    && s.m.head == 0 && s.m.tail == 0 && s.m.log == []
    && forall t | t in s.threads :: s.threads[t] == Idle(None)
  }

  // The invariant

  /** Threads through which the pending items will still be noticed: woken consumers, or a producer about to signal. */
  predicate ServesPops(pc: Pc) {
    pc.PopWoken? || (pc.PopTesting? && pc.woken) || (pc.PopCopying? && pc.woken) || pc.PushSignalling?
  }

  predicate ServesPushes(pc: Pc) {
    pc.PushWoken? || (pc.PushTesting? && pc.woken) || (pc.PushCopying? && pc.woken) || pc.PopSignalling?
  }

  function PopServers(threads: map<Tid, Pc>): set<Tid> {
    set t | t in threads && ServesPops(threads[t])
  }

  function PushServers(threads: map<Tid, Pc>): set<Tid> {
    set t | t in threads && ServesPushes(threads[t])
  }

  /** No wake-up is lost: while a consumer sleeps every item has a server, while a producer sleeps every free cell. */
  ghost predicate WakeupsInv(s: State) {
    && (forall t | t in s.threads && s.threads[t].PopAsleep? :: s.m.head - s.m.tail <= |PopServers(s.threads)|)
    && (forall t | t in s.threads && s.threads[t].PushAsleep? ::
          s.m.n - (s.m.head - s.m.tail) <= |PushServers(s.threads)|)
  }

  /** At most one thread is inside the monitor. */
  ghost predicate MutexInv(threads: map<Tid, Pc>) {
    forall t, u | t in threads && u in threads && Inside(threads[t]) && Inside(threads[u]) :: t == u
  }

  ghost predicate DataInv(m: Ring) {
    && WellFormed(m) && IsPow2(m.n)
    && |m.log| == m.head
    && m.tail <= m.head <= m.tail + m.n
    && (forall k | 0 <= k < |m.log| :: |m.log[k]| <= m.sz)
    && (forall k | m.tail <= k < |m.log| :: m.log[k] <= CellOf(m, k))
  }

  ghost predicate ThreadOk(m: Ring, pc: Pc)
    requires WellFormed(m)
  {
    match pc
    case PushArriving(obj) => |obj| <= m.sz
    case PushTesting(obj, _) => |obj| <= m.sz
    case PushAsleep(obj) => |obj| <= m.sz
    case PushWoken(obj) => |obj| <= m.sz
    case PushCopying(obj, _, i) =>
      i <= |obj| <= m.sz && m.head < m.tail + m.n && CellOf(m, m.head)[..i] == obj[..i]
    case PopArriving(size) => size <= m.sz
    case PopTesting(size, _) => size <= m.sz
    case PopAsleep(size) => size <= m.sz
    case PopWoken(size) => size <= m.sz
    case PopCopying(size, _, seen) =>
      && size <= m.sz && m.tail < |m.log|
      && InOrder(Into(size), seen) && ReadsFrom(seen, CellOf(m, m.tail))
    case _ => true
  }

  ghost predicate Inv(s: State) {
    && DataInv(s.m)
    && MutexInv(s.threads)
    && WakeupsInv(s)
    && forall t | t in s.threads :: ThreadOk(s.m, s.threads[t])
  }
}
