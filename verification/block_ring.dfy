/**
 * The blocking ring as it sits in memory. Its counters are 64-bit words that wrap around; `threads`
 * records where every user stands, including who is inside the mutex and who sleeps on which condition.
 */
module BlockRing {
  import opened Words
  import opened Cells
  import opened Operations
  import opened Layout
  import opened BlockProtocol
  import opened BlockInvariant
  import opened BlockRuns

  class BlockRingBuf {
    var head_: SizeT
    var tail_: SizeT
    const objSize_: SizeT
    const objNum_: SizeT
    const mask_: SizeT
    const header: SizeT
    const totalSize_: SizeT
    const buffer: array<Byte>

    var threads: map<Tid, Pc>
    ghost var head: nat
    ghost var tail: nat
    ghost var log: seq<seq<Byte>>

    ghost function Abs(): State
      requires buffer.Length == objNum_ * objSize_
      reads this, buffer
    {
      State(Ring(objNum_, objSize_, head, tail, CellsOf(buffer[..], objNum_, objSize_), log), threads)
    }

    /** The words are the tickets modulo 2^64. */
    ghost predicate Valid()
      reads this, buffer
    {
      && buffer.Length == objNum_ * objSize_
      && mask_ == objNum_ - 1
      && header + buffer.Length == totalSize_
      && head_ == Wrap(head) && tail_ == Wrap(tail)
      && Inv(Abs())
    }

    /**
     * get_block_buf for an accepted geometry that fits a 64-bit block; `headerSize` is what the fields in
     * front of the object area occupy, mutex and condition variables included.
     */
    constructor (headerSize: SizeT, objNum: SizeT, objSize: SizeT, users: set<Tid>)
      requires objNum >= 2 && IsPow2(objNum)
      requires objSize + 63 < TWO_TO_THE_64
      requires headerSize + AlignedOffset(objSize, CACHE_LINE_SIZE) * objNum < TWO_TO_THE_64
      ensures Valid() && Initial(Abs()) && fresh(buffer)
      ensures header == headerSize && objNum_ == objNum && objSize <= objSize_
      ensures totalSize_ == BlockTotalSize(headerSize, objNum, objSize)
      ensures threads.Keys == users
    {
      hide AlignedOffset, CellsOf, Wrap, And, IsPow2;
      var padded := AlignedOffset(objSize, CACHE_LINE_SIZE);
      BlockSize(objNum, padded);
      AlignToLine(objSize);
      BlockFits(headerSize, objNum, objSize);
      WrapIsIdentity(0);
      header, totalSize_ := headerSize, BlockTotalSize(headerSize, objNum, objSize);
      head_, tail_ := 0, 0;
      head, tail, log := 0, 0, [];
      objSize_, objNum_, mask_ := padded, objNum, objNum - 1;
      buffer := new Byte[objNum * padded];
      threads := map t | t in users :: Idle(None);
      new;
      InitialInv(Abs());
    }

    // Steps

    method Begin(t: Tid, a: Action)
      requires Valid() && t in threads && threads[t].Idle? && (a.BeginPush? || a.BeginPop?)
      modifies `threads
      ensures Valid() && Abs() == Step(old(Abs()), t, a)
    {
      hide Inv, CellsOf, Wrap;
      WellFormedRing(Abs());
      StepKeepsInv(Abs(), t, a);
      if a.BeginPush? {
        threads := threads[t := if |a.obj| > objSize_ then Idle(PushSizeTooLarge) else PushArriving(a.obj)];
      } else {
        threads := threads[t := if a.size > objSize_ then Idle(PopSizeTooLarge) else PopArriving(a.size)];
      }
    }

    /** pthread_mutex_lock, or the re-acquisition at the end of pthread_cond_wait. */
    method Acquire(t: Tid)
      requires Valid() && t in threads && WantsLock(threads[t]) && LockFree(threads)
      modifies `threads
      ensures Valid() && Abs() == Step(old(Abs()), t, Lock)
    {
      hide Inv, CellsOf, Wrap;
      WellFormedRing(Abs());
      StepKeepsInv(Abs(), t, Lock);
      var pc := threads[t];
      threads := threads[t :=
        if pc.PushArriving? || pc.PushWoken? then PushTesting(pc.obj, pc.PushWoken?)
        else PopTesting(pc.size, pc.PopWoken?)];
    }

    /** The loop condition of a push; a full ring sends the thread to sleep and frees the mutex. */
    method TestRoom(t: Tid)
      requires Valid() && t in threads && threads[t].PushTesting?
      modifies `threads
      ensures Valid() && Abs() == Step(old(Abs()), t, Test)
    {
      hide Inv, CellsOf, Wrap;
      WellFormedRing(Abs());
      StepKeepsInv(Abs(), t, Test);
      DistanceOfWrapped(head, tail);
      var pc := threads[t];
      if Sub64(head_, tail_) >= objNum_ {
        threads := threads[t := PushAsleep(pc.obj)];
      } else {
        threads := threads[t := PushCopying(pc.obj, pc.woken, 0)];
      }
    }

    method TestData(t: Tid)
      requires Valid() && t in threads && threads[t].PopTesting?
      modifies `threads
      ensures Valid() && Abs() == Step(old(Abs()), t, Test)
    {
      hide Inv, CellsOf, Wrap;
      WellFormedRing(Abs());
      StepKeepsInv(Abs(), t, Test);
      WrappedEqual(head, tail);
      var pc := threads[t];
      if head_ == tail_ {
        threads := threads[t := PopAsleep(pc.size)];
      } else {
        threads := threads[t := PopCopying(pc.size, pc.woken, [])];
      }
    }

    method CopyIn(t: Tid)
      requires Valid() && t in threads && threads[t].PushCopying? && threads[t].i < |threads[t].obj|
      modifies `threads, buffer
      ensures Valid() && Abs() == Step(old(Abs()), t, CopyByte)
    {
      hide Inv, CellsOf, CellAt, Wrap, And;
      WellFormedRing(Abs());
      CopyFits(Abs(), t);
      StepKeepsInv(Abs(), t, CopyByte);
      IdxOfWrapped(head, objNum_);
      var pc := threads[t];
      var idx := And(head_, mask_);
      assert idx == Idx(head, objNum_);
      ghost var was := buffer[..];
      StoreInCell(was, objNum_, objSize_, idx, pc.i, pc.obj[pc.i]);
      buffer[idx * objSize_ + pc.i] := pc.obj[pc.i];
      assert buffer[..] == was[idx * objSize_ + pc.i := pc.obj[pc.i]];
      threads := threads[t := PushCopying(pc.obj, pc.woken, pc.i + 1)];
    }

    method CopyOut(t: Tid)
      requires Valid() && t in threads && threads[t].PopCopying? && |threads[t].seen| < threads[t].size
      modifies `threads
      ensures Valid() && Abs() == Step(old(Abs()), t, CopyByte)
    {
      hide Inv, CellsOf, CellAt, Wrap, And;
      WellFormedRing(Abs());
      CopyFits(Abs(), t);
      StepKeepsInv(Abs(), t, CopyByte);
      IdxOfWrapped(tail, objNum_);
      var pc := threads[t];
      var idx := And(tail_, mask_);
      assert idx == Idx(tail, objNum_);
      ByteAddress(buffer[..], objNum_, objSize_, idx, |pc.seen|);
      var byte := buffer[idx * objSize_ + |pc.seen|];
      assert byte == CellOf(Abs().m, tail)[|pc.seen|];
      threads := threads[t := PopCopying(pc.size, pc.woken, pc.seen + [Read(|pc.seen|, byte)])];
    }

    method AdvanceHead(t: Tid)
      requires Valid() && t in threads && threads[t].PushCopying? && threads[t].i == |threads[t].obj|
      modifies `threads, `head_, `head, `log
      ensures Valid() && Abs() == Step(old(Abs()), t, Advance)
    {
      hide Inv, CellsOf, Wrap;
      WellFormedRing(Abs());
      StepKeepsInv(Abs(), t, Advance);
      NextOfWrapped(head);
      log := log + [threads[t].obj];
      threads := threads[t := PushSignalling(head_)];
      head_, head := Add64(head_, 1), head + 1;
    }

    method AdvanceTail(t: Tid)
      requires Valid() && t in threads && threads[t].PopCopying? && |threads[t].seen| == threads[t].size
      modifies `threads, `tail_, `tail
      ensures Valid() && Abs() == Step(old(Abs()), t, Advance)
    {
      hide Inv, CellsOf, Wrap;
      WellFormedRing(Abs());
      StepKeepsInv(Abs(), t, Advance);
      NextOfWrapped(tail);
      threads := threads[t := PopSignalling(tail_, threads[t].seen)];
      tail_, tail := Add64(tail_, 1), tail + 1;
    }

    /** pthread_cond_signal: which sleepers it rouses is up to the implementation of POSIX threads. */
    method SignalOther(t: Tid, roused: set<Tid>)
      requires Valid() && t in threads && Enabled(Abs(), t, Signal(roused))
      modifies `threads
      ensures Valid() && Abs() == Step(old(Abs()), t, Signal(roused))
      ensures threads.Keys == old(threads).Keys
      ensures forall u | u in threads && u != t ::
                var pc := old(threads)[u];
                threads[u] == if u !in roused then pc
                              else if pc.PushAsleep? then PushWoken(pc.obj) else PopWoken(pc.size)
    {
      hide Inv, CellsOf, Wrap;
      StepKeepsInv(Abs(), t, Signal(roused));
      var pc := threads[t];
      threads := RouseAll(threads, roused)[t :=
        if pc.PushSignalling? then PushLeaving(pc.ticket) else PopLeaving(pc.ticket, pc.seen)];
    }

    method Leave(t: Tid)
      requires Valid() && t in threads && (threads[t].PushLeaving? || threads[t].PopLeaving?)
      modifies `threads
      ensures Valid() && Abs() == Step(old(Abs()), t, Unlock)
    {
      hide Inv, CellsOf, Wrap;
      WellFormedRing(Abs());
      StepKeepsInv(Abs(), t, Unlock);
      var pc := threads[t];
      threads := threads[t := Idle(if pc.PushLeaving? then Pushed(pc.ticket) else Popped(pc.ticket, pc.seen))];
    }

    // Whole operations, from the mutex on, without interference

    /** Push_BlockRingBuf until it returns or sleeps: it sleeps exactly on a full ring. */
    method Push(t: Tid, args: seq<Byte>) returns (done: bool, rc: int)
      requires Valid() && t in threads && threads[t].Idle? && LockFree(threads)
      modifies this, buffer
      ensures Valid() && t in threads && LockFree(threads)
      ensures DataInv(Abs().m) && DataInv(old(Abs()).m)
      ensures var before, after := old(Abs()).m, Abs().m;
              if |args| > objSize_ then done && rc == -109 && after == before
              else if |Queue(before)| == objNum_ then !done && threads[t] == PushAsleep(args) && after == before
              else
                && done && rc == AsSigned(Wrap(before.head)) && threads[t] == Idle(Pushed(Wrap(before.head)))
                && Queue(after) == Queue(before) + [args]
    {
      hide Inv, CellsOf, Wrap, And, IsPow2;
      WellFormedRing(Abs());
      rc := 0;
      Begin(t, Action.BeginPush(args));
      if threads[t].Idle? {
        return true, -109;
      }
      done, rc := EnterPush(t);
    }

    /**
     * A push from its lock on, on arrival or when a wake-up takes it out of its wait, until it returns or
     * sleeps again: it sleeps exactly on a full ring and otherwise enqueues the object it came with.
     */
    method EnterPush(t: Tid) returns (done: bool, rc: int)
      requires Valid() && t in threads && (threads[t].PushArriving? || threads[t].PushWoken?) && LockFree(threads)
      modifies this, buffer
      ensures Valid() && t in threads && LockFree(threads)
      ensures DataInv(Abs().m) && DataInv(old(Abs()).m)
      ensures var before, after, args := old(Abs()).m, Abs().m, old(threads)[t].obj;
              if |Queue(before)| == objNum_ then !done && threads[t] == PushAsleep(args) && after == before
              else
                && done && rc == AsSigned(Wrap(before.head)) && threads[t] == Idle(Pushed(Wrap(before.head)))
                && Queue(after) == Queue(before) + [args]
    {
      hide Inv, CellsOf, Wrap, And, IsPow2;
      WellFormedRing(Abs());
      Acquire(t);
      TestRoom(t);
      if threads[t].PushAsleep? {
        WellFormedRing(Abs());
        return false, 0;
      }
      rc := AsSigned(head_);
      FinishPush(t);
      WellFormedRing(Abs());
      done := true;
    }

    /** From the copy to the unlock. */
    method FinishPush(t: Tid)
      requires Valid() && t in threads && threads[t].PushCopying? && threads[t].i == 0
      requires forall u | u in threads && u != t :: !Inside(threads[u])
      modifies this, buffer
      ensures Valid() && t in threads && LockFree(threads)
      ensures threads[t] == Idle(Pushed(old(head_))) && tail == old(tail)
      ensures head == old(head) + 1 && log == old(log) + [old(threads)[t].obj]
    {
      hide Inv, CellsOf, Wrap, And, IsPow2;
      FillCell(t);
      AdvanceHead(t);
      SignalOne(t);
      Leave(t);
    }

    /** Pop_BlockRingBuf until it returns or sleeps: it sleeps exactly on an empty ring. */
    method Pop(t: Tid, size: nat) returns (done: bool, rc: int)
      requires Valid() && t in threads && threads[t].Idle? && LockFree(threads)
      modifies this, buffer
      ensures Valid() && t in threads && LockFree(threads)
      ensures DataInv(Abs().m) && DataInv(old(Abs()).m)
      ensures var before, after := old(Abs()).m, Abs().m;
              if size > objSize_ then done && rc == -110 && after == before
              else if Queue(before) == [] then !done && threads[t] == PopAsleep(size) && after == before
              else
                && done && rc == AsSigned(Wrap(before.tail)) && threads[t].Idle? && threads[t].ret.Popped?
                && (size <= |Queue(before)[0]| ==> Bytes(threads[t].ret.seen) == Queue(before)[0][..size])
                && (|Queue(before)[0]| <= size ==> Queue(before)[0] <= Bytes(threads[t].ret.seen))
                && Queue(after) == Queue(before)[1..]
    {
      hide Inv, CellsOf, Wrap, And, IsPow2;
      WellFormedRing(Abs());
      rc := 0;
      Begin(t, Action.BeginPop(size));
      if threads[t].Idle? {
        return true, -110;
      }
      done, rc := EnterPop(t);
    }

    /** A pop from its lock on, on arrival or when a wake-up takes it out of its wait. */
    method EnterPop(t: Tid) returns (done: bool, rc: int)
      requires Valid() && t in threads && (threads[t].PopArriving? || threads[t].PopWoken?) && LockFree(threads)
      modifies this, buffer
      ensures Valid() && t in threads && LockFree(threads)
      ensures DataInv(Abs().m) && DataInv(old(Abs()).m)
      ensures var before, after, size := old(Abs()).m, Abs().m, old(threads)[t].size;
              if Queue(before) == [] then !done && threads[t] == PopAsleep(size) && after == before
              else
                && done && rc == AsSigned(Wrap(before.tail)) && threads[t].Idle? && threads[t].ret.Popped?
                && (size <= |Queue(before)[0]| ==> Bytes(threads[t].ret.seen) == Queue(before)[0][..size])
                && (|Queue(before)[0]| <= size ==> Queue(before)[0] <= Bytes(threads[t].ret.seen))
                && Queue(after) == Queue(before)[1..]
    {
      hide Inv, CellsOf, Wrap, And, IsPow2;
      WellFormedRing(Abs());
      rc := 0;
      Acquire(t);
      TestData(t);
      if threads[t].PopAsleep? {
        WellFormedRing(Abs());
        return false, 0;
      }
      rc := AsSigned(tail_);
      done := true;
      TakeFront(t);
    }

    /** From the copy to the unlock. */
    method TakeFront(t: Tid)
      requires Valid() && t in threads && threads[t].PopCopying? && threads[t].seen == [] && tail < head
      requires forall u | u in threads && u != t :: !Inside(threads[u])
      modifies this
      ensures Valid() && t in threads && LockFree(threads)
      ensures DataInv(Abs().m) && DataInv(old(Abs()).m)
      ensures var front, size := Queue(old(Abs()).m)[0], old(threads)[t].size;
              && threads[t].Idle? && threads[t].ret.Popped? && threads[t].ret.ticket == old(tail_)
              && (size <= |front| ==> Bytes(threads[t].ret.seen) == front[..size])
              && (|front| <= size ==> front <= Bytes(threads[t].ret.seen))
              && Queue(Abs().m) == Queue(old(Abs()).m)[1..]
    {
      hide Inv, CellsOf, Wrap, And, IsPow2;
      WellFormedRing(Abs());
      ReadCell(t);
      PopReturnsFront(Abs(), t);
      FinishPop(t);
      WellFormedRing(Abs());
    }

    /** From the index to the unlock. */
    method FinishPop(t: Tid)
      requires Valid() && t in threads && threads[t].PopCopying? && |threads[t].seen| == threads[t].size
      requires forall u | u in threads && u != t :: !Inside(threads[u])
      modifies this
      ensures Valid() && t in threads && LockFree(threads)
      ensures threads[t] == Idle(Popped(old(tail_), old(threads)[t].seen)) && head == old(head)
      ensures tail == old(tail) + 1 && log == old(log)
    {
      hide Inv, CellsOf, Wrap, And, IsPow2;
      AdvanceTail(t);
      SignalOne(t);
      Leave(t);
    }

    method FillCell(t: Tid)
      requires Valid() && t in threads && threads[t].PushCopying? && threads[t].i == 0
      modifies `threads, buffer
      ensures Valid()
      ensures var pc := old(threads)[t];
              threads == old(threads)[t := PushCopying(pc.obj, pc.woken, |pc.obj|)]
    {
      hide Inv, CellsOf, Wrap, And, IsPow2;
      ghost var pc := threads[t];
      while threads[t].i < |threads[t].obj|
        invariant Valid() && t in threads && threads[t].PushCopying? && threads[t].i <= |pc.obj|
        invariant threads == old(threads)[t := PushCopying(pc.obj, pc.woken, threads[t].i)]
        decreases |threads[t].obj| - threads[t].i
      {
        CopyIn(t);
      }
    }

    method ReadCell(t: Tid)
      requires Valid() && t in threads && threads[t].PopCopying? && threads[t].seen == []
      modifies `threads
      ensures Valid() && t in threads && threads[t].PopCopying? && |threads[t].seen| == threads[t].size
      ensures threads == old(threads)[t := PopCopying(old(threads)[t].size, old(threads)[t].woken, threads[t].seen)]
    {
      hide Inv, CellsOf, Wrap, And, IsPow2;
      ghost var pc := threads[t];
      while |threads[t].seen| < threads[t].size
        invariant Valid() && t in threads && threads[t].PopCopying? && |threads[t].seen| <= pc.size
        invariant threads == old(threads)[t := PopCopying(pc.size, pc.woken, threads[t].seen)]
        decreases threads[t].size - |threads[t].seen|
      {
        CopyOut(t);
      }
    }

    /** Rouses one sleeper if there is any. */
    method SignalOne(t: Tid)
      requires Valid() && t in threads && (threads[t].PushSignalling? || threads[t].PopSignalling?)
      modifies `threads
      ensures Valid() && t in threads
      ensures threads[t] ==
                var pc := old(threads)[t];
                if pc.PushSignalling? then PushLeaving(pc.ticket) else PopLeaving(pc.ticket, pc.seen)
      ensures forall u | u in threads && u != t :: u in old(threads) && Inside(threads[u]) == Inside(old(threads)[u])
    {
      hide Inv, CellsOf, Wrap, And, IsPow2;
      WellFormedRing(Abs());
      var sleepers := Sleepers(threads, threads[t]);
      var roused: set<Tid> := {};
      if sleepers != {} {
        var u :| u in sleepers;
        roused := {u};
      }
      SignalOther(t, roused);
    }
  }

  lemma WellFormedRing(s: State)
    requires Inv(s)
    ensures DataInv(s.m) && WellFormed(s.m) && IsPow2(s.m.n) && s.m.tail <= s.m.head <= s.m.tail + s.m.n
  {
  }

  lemma CopyFits(s: State, t: Tid)
    requires Inv(s) && t in s.threads
    ensures s.threads[t].PushCopying? ==> |s.threads[t].obj| <= s.m.sz
    ensures s.threads[t].PopCopying? ==> s.threads[t].size <= s.m.sz
  {
    assert ThreadOk(s.m, s.threads[t]);
  }
}
