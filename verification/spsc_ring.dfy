/**
 * The SPSC ring as it sits in memory. Its four counters are 64-bit words that wrap around; the
 * protocol's unbounded tickets are kept as ghosts, and no bound on the number of operations is needed.
 */
module SpscRing {
  import opened Words
  import opened Cells
  import opened Operations
  import opened Layout
  import opened SpscProtocol
  import opened SpscRuns

  class SpscRingBuf {
    var head_: SizeT
    var tail_: SizeT
    var local_head: SizeT
    var local_tail: SizeT
    const objSize_: SizeT
    const objNum_: SizeT
    const mask_: SizeT
    const sizes: SizeInfo
    const buffer: array<Byte>

    ghost var producer: Producer
    ghost var consumer: Consumer
    ghost var head: nat
    ghost var tail: nat
    ghost var localHead: nat
    ghost var localTail: nat
    ghost var log: seq<seq<Byte>>
    ghost var given: seq<seq<Read>>

    /** The protocol state these fields stand for. */
    ghost function Abs(): State
      requires buffer.Length == objNum_ * objSize_
      reads this, buffer
    {
      State(objNum_, objSize_, head, tail, CellsOf(buffer[..], objNum_, objSize_),
            producer, localTail, consumer, localHead, log, given)
    }

    /** The words are the tickets modulo 2^64. */
    ghost predicate Valid()
      reads this, buffer
    {
      && buffer.Length == objNum_ * objSize_
      && mask_ == objNum_ - 1
      && objSize_ == sizes.objSize && Sound(sizes, objNum_, objSize_, NoSlot)
      && head_ == Wrap(head) && tail_ == Wrap(tail)
      && local_head == Wrap(localHead) && local_tail == Wrap(localTail)
      && Inv(Abs())
    }

    /**
     * get_buf for an accepted geometry that fits a 64-bit block. The consumer's thread is new to SPSC
     * rings; the producer's may bring any cached tail along.
     */
    constructor (objNum: SizeT, objSize: SizeT, cached: SizeT)
      requires objNum >= 2 && IsPow2(objNum) && Fits(objNum, objSize, NoSlot)
      ensures Valid() && Initial(Abs()) && fresh(buffer) && local_tail == cached
      ensures objNum_ == objNum && sizes == TotalSize(objNum, objSize, NoSlot) && objSize <= objSize_
    {
      hide TotalSize, Fits, Sound, CellsOf, Wrap, And, IsPow2;
      var info := TotalSize(objNum, objSize, NoSlot);
      FittingLayout(objNum, objSize, NoSlot);
      BlockSize(objNum, info.objSize);
      WrapIsIdentity(0);
      WrapIsIdentity(cached);
      head_, tail_, local_head, local_tail := 0, 0, 0, cached;
      head, tail, localHead, localTail := 0, 0, 0, cached;
      sizes, objSize_, objNum_, mask_ := info, info.objSize, objNum, objNum - 1;
      buffer := new Byte[objNum * info.objSize];
      producer, consumer := Away(None), Gone(None);
      log, given := [], [];
      new;
      InitialInv(Abs());
    }

    /** Every byte of the object area has an address of its own, behind the header and inside the block. */
    lemma BytesPlaced(j: nat, i: nat)
      requires Valid() && j < objNum_ && i < objSize_
      ensures 0 <= j * objSize_ + i < buffer.Length
      ensures CellAddress(sizes, j, i) == sizes.bufStart + (j * objSize_ + i)
      ensures SIZEOF_RINGBUF <= CellAddress(sizes, j, i) < sizes.totalSize
      ensures forall j', i' {:trigger CellAddress(sizes, j', i')} | 0 <= j' < objNum_ && 0 <= i' < objSize_ ::
                CellAddress(sizes, j', i') == CellAddress(sizes, j, i) ==> j' == j && i' == i
    {
      hide Inv;
      AddressesApart(sizes, objNum_, objSize_, NoSlot, j, i);
    }

    // Producer side

    /** Begin_push up to the test of the cached tail. */
    method TestCachedTail() returns (room: bool)
      requires Valid() && producer.Away?
      modifies `producer
      ensures Valid() && Abs() == Step(old(Abs()), BeginPush) && room == producer.Writing?
    {
      hide Inv, CellsOf, Wrap;
      Coherent(Abs());
      StepKeepsInv(Abs(), BeginPush);
      var curr_head := head_;
      room := Sub64(curr_head, local_tail) < objNum_;
      producer := if room then Writing else NeedsTail;
    }

    /** The refreshing load of tail_ and the second test. */
    method RefreshTail() returns (room: bool)
      requires Valid() && producer.NeedsTail?
      modifies `producer, `local_tail, `localTail
      ensures Valid() && Abs() == Step(old(Abs()), LoadTail(tail)) && room == producer.Writing?
    {
      hide Inv, CellsOf, Wrap;
      Coherent(Abs());
      StepKeepsInv(Abs(), LoadTail(tail));
      DistanceOfWrapped(head, tail);
      var curr_head := head_;
      local_tail, localTail := tail_, tail;
      room := Sub64(curr_head, local_tail) < objNum_;
      producer := if room then Writing else Away(Full);
    }

    /** A store through the pointer Begin_push returned. */
    method WriteWindow(offset: nat, b: Byte)
      requires Valid() && producer.Writing? && offset < objSize_
      modifies buffer
      ensures Valid() && Abs() == Step(old(Abs()), WriteByte(offset, b))
    {
      hide Inv, CellsOf, CellAt, Wrap, And;
      Coherent(Abs());
      StepKeepsInv(Abs(), WriteByte(offset, b));
      IdxOfWrapped(head, objNum_);
      var idx := And(head_, mask_);
      assert idx == Idx(head, objNum_);
      ghost var was := buffer[..];
      StoreInCell(was, objNum_, objSize_, idx, offset, b);
      buffer[idx * objSize_ + offset] := b;
      assert buffer[..] == was[idx * objSize_ + offset := b];
    }

    /** End_push: publishes the window. */
    method CloseWrite()
      requires Valid() && producer.Writing?
      modifies `producer, `head_, `head, `log
      ensures Valid() && Abs() == Step(old(Abs()), EndPush)
    {
      hide Inv, CellsOf, Wrap;
      Coherent(Abs());
      StepKeepsInv(Abs(), EndPush);
      NextOfWrapped(head);
      var curr_head := head_;
      log := log + [CellOf(Abs(), head)];
      producer := Away(Pushed(head));
      head_, head := Add64(curr_head, 1), head + 1;
    }

    /** Push_SpscRingBuf: refused exactly on a full ring; otherwise a block that starts with args is enqueued. */
    method Push(args: seq<Byte>) returns (rc: int)
      requires Valid() && producer.Away?
      modifies `producer, `local_tail, `localTail, `head_, `head, `log, buffer
      ensures Valid() && producer.Away?
      ensures var before, after := old(Abs()), Abs();
              if |args| > objSize_ then rc == -109 && Queue(after) == Queue(before)
              else if |Queue(before)| == objNum_ then rc == -100 && Queue(after) == Queue(before)
              else
                && rc == AsSigned(Wrap(before.head))
                && |Queue(after)| == |Queue(before)| + 1
                && Queue(before) <= Queue(after)
                && args <= Queue(after)[|Queue(before)|]
    {
      hide Inv, CellsOf, Wrap, And, Queue;
      Coherent(Abs());
      if |args| > objSize_ {
        return -109;
      }
      var open := OpenWrite();
      if !open {
        return -100;
      }
      rc := AsSigned(head_);
      FillAndPublish(args);
    }

    /** The part of a push behind its window. */
    method FillAndPublish(args: seq<Byte>)
      requires Valid() && producer.Writing? && |args| <= objSize_
      modifies `producer, `head_, `head, `log, buffer
      ensures Valid() && producer.Away?
      ensures var before, after := old(Abs()), Abs();
              && WellFormed(before) && before.tail <= before.head && WellFormed(after) && after.tail <= after.head
              && |Queue(after)| == |Queue(before)| + 1
              && Queue(before) <= Queue(after)
              && args <= Queue(after)[|Queue(before)|]
    {
      hide Inv, CellsOf, Wrap, And, Queue;
      ghost var before := Abs();
      Coherent(before);
      CopyIn(args);
      ghost var filled := Abs();
      Coherent(filled);
      CloseWrite();
      Coherent(Abs());
      PushedBlock(before, filled, Abs(), args);
    }

    /** Begin_push_SpscRingBuf without interference. */
    method OpenWrite() returns (open: bool)
      requires Valid() && producer.Away?
      modifies `producer, `local_tail, `localTail
      ensures Valid() && open == (head - tail < objNum_)
      ensures producer == if open then Writing else Away(Full)
      ensures WellFormed(Abs()) && WellFormed(old(Abs())) && old(tail <= head) && Queue(Abs()) == Queue(old(Abs()))
    {
      hide Inv, CellsOf, Wrap, And, Queue;
      ghost var before := Abs();
      Coherent(Abs());
      DistanceOfWrapped(head, tail);
      open := TestCachedTail();
      if !open {
        open := RefreshTail();
      }
      Coherent(Abs());
      SameQueue(before, Abs());
    }

    /** memcpy into the window; no published cell is touched. */
    method CopyIn(args: seq<Byte>)
      requires Valid() && producer.Writing? && |args| <= objSize_
      modifies buffer
      ensures Valid()
      ensures WellFormed(Abs()) && args <= CellOf(Abs(), head)
      ensures WellFormed(old(Abs())) && forall k | tail <= k < head :: CellOf(Abs(), k) == CellOf(old(Abs()), k)
    {
      hide Inv, CellsOf, Wrap, And;
      ghost var before := Abs();
      Coherent(Abs());
      PublishedApart(Abs());
      for i := 0 to |args|
        invariant Valid() && WellFormed(Abs())
        invariant CellOf(Abs(), head)[..i] == args[..i]
        invariant forall k | tail <= k < head :: CellOf(Abs(), k) == CellOf(before, k)
      {
        ghost var c := CellOf(Abs(), head);
        WriteWindow(i, args[i]);
        Coherent(Abs());
        assert c[i := args[i]][..i + 1] == c[..i] + [args[i]];
      }
    }

    // Consumer side

    method TestCachedHead() returns (data: bool)
      requires Valid() && consumer.Gone?
      modifies `consumer
      ensures Valid() && Abs() == Step(old(Abs()), BeginPop) && data == consumer.Reading?
    {
      hide Inv, CellsOf, Wrap;
      Coherent(Abs());
      StepKeepsInv(Abs(), BeginPop);
      var curr_tail := tail_;
      data := local_head != curr_tail;
      consumer := if data then Reading([]) else NeedsHead;
    }

    method RefreshHead() returns (data: bool)
      requires Valid() && consumer.NeedsHead?
      modifies `consumer, `local_head, `localHead
      ensures Valid() && Abs() == Step(old(Abs()), LoadHead(head)) && data == consumer.Reading?
    {
      hide Inv, CellsOf, Wrap;
      Coherent(Abs());
      StepKeepsInv(Abs(), LoadHead(head));
      WrappedEqual(head, tail);
      var curr_tail := tail_;
      local_head, localHead := head_, head;
      data := local_head != curr_tail;
      consumer := if data then Reading([]) else Gone(Empty);
    }

    /** A load through the pointer Begin_pop returned. */
    method ReadWindow(offset: nat) returns (byte: Byte)
      requires Valid() && consumer.Reading? && offset < objSize_
      modifies `consumer
      ensures Valid() && Abs() == Step(old(Abs()), ReadByte(offset))
      ensures WellFormed(Abs()) && byte == CellOf(Abs(), tail)[offset]
    {
      hide Inv, CellsOf, CellAt, Wrap, And;
      Coherent(Abs());
      StepKeepsInv(Abs(), ReadByte(offset));
      IdxOfWrapped(tail, objNum_);
      var idx := And(tail_, mask_);
      assert idx == Idx(tail, objNum_);
      ByteAddress(buffer[..], objNum_, objSize_, idx, offset);
      byte := buffer[idx * objSize_ + offset];
      assert byte == CellOf(Abs(), tail)[offset];
      consumer := Reading(consumer.seen + [Read(offset, byte)]);
    }

    /** End_pop: gives the cell back. */
    method CloseRead()
      requires Valid() && consumer.Reading?
      modifies `consumer, `tail_, `tail, `given
      ensures Valid() && Abs() == Step(old(Abs()), EndPop)
    {
      hide Inv, CellsOf, Wrap;
      Coherent(Abs());
      StepKeepsInv(Abs(), EndPop);
      NextOfWrapped(tail);
      var curr_tail := tail_;
      given := given + [consumer.seen];
      consumer := Gone(Popped(tail, consumer.seen));
      tail_, tail := Add64(curr_tail, 1), tail + 1;
    }

    /** Begin_pop_SpscRingBuf without interference. */
    method OpenRead() returns (open: bool)
      requires Valid() && consumer.Gone?
      modifies `consumer, `local_head, `localHead
      ensures Valid() && open == (tail < head)
      ensures consumer == if open then Reading([]) else Gone(Empty)
    {
      hide Inv, CellsOf, Wrap, And;
      Coherent(Abs());
      WrappedEqual(head, tail);
      DistanceZero(localHead, tail);
      open := TestCachedHead();
      if !open {
        open := RefreshHead();
      }
      Coherent(Abs());
    }

    /** memcpy out of the window. */
    method CopyOut(size: nat) returns (out: seq<Byte>)
      requires Valid() && consumer.Reading? && size <= objSize_
      modifies `consumer
      ensures Valid() && consumer.Reading?
      ensures WellFormed(Abs()) && out == CellOf(Abs(), tail)[..size]
    {
      hide Inv, CellsOf, Wrap, And;
      out := [];
      Coherent(Abs());
      for i := 0 to size
        invariant Valid() && consumer.Reading? && WellFormed(Abs())
        invariant out == CellOf(Abs(), tail)[..i]
      {
        var byte := ReadWindow(i);
        out := out + [byte];
      }
    }

    /** Pop_SpscRingBuf: refused exactly on an empty ring; otherwise the front block's first bytes come out. */
    method Pop(size: nat) returns (rc: int, out: seq<Byte>)
      requires Valid() && consumer.Gone?
      modifies `consumer, `local_head, `localHead, `tail_, `tail, `given
      ensures Valid() && consumer.Gone?
      ensures var before, after := old(Abs()), Abs();
              if size > objSize_ then rc == -110 && Queue(after) == Queue(before)
              else if Queue(before) == [] then rc == -101 && Queue(after) == Queue(before)
              else
                && rc == AsSigned(Wrap(before.tail))
                && out == Queue(before)[0][..size]
                && Queue(after) == Queue(before)[1..]
    {
      hide Inv, CellsOf, Wrap, And;
      Coherent(Abs());
      out := [];
      if size > objSize_ {
        return -110, [];
      }
      ghost var before := Abs();
      var open := OpenRead();
      if !open {
        return -101, [];
      }
      rc := AsSigned(tail_);
      out := CopyOut(size);
      CloseRead();
      Coherent(Abs());
      PoppedBlock(before, Abs());
    }

    /** Size_SpscRingBuf, Is_empty_SpscRingBuf and Is_full_SpscRingBuf between two steps of the threads. */
    method Size() returns (size: SizeT, empty: bool, full: bool)
      requires Valid()
      ensures WellFormed(Abs()) && tail <= head
      ensures size == |Queue(Abs())| && (empty <==> Queue(Abs()) == []) && (full <==> |Queue(Abs())| == objNum_)
    {
      hide Inv, CellsOf, Wrap;
      Coherent(Abs());
      DistanceOfWrapped(head, tail);
      WrappedEqual(head, tail);
      size := Sub64(head_, tail_);
      empty := head_ == tail_;
      full := Sub64(head_, tail_) >= objNum_;
    }
  }

  /** What the invariant says about the indices and caches. */
  lemma Coherent(s: State)
    requires Inv(s)
    ensures WellFormed(s) && IsPow2(s.n) && s.tail <= s.head <= s.tail + s.n < s.tail + TWO_TO_THE_64
    ensures Promised(s) <= s.head - s.tail <= Shown(s)
    ensures s.producer.Writing? ==> s.head < s.tail + s.n
    ensures s.consumer.Reading? ==> s.tail < s.head
  {
  }

  lemma PublishedApart(s: State)
    requires Inv(s) && s.producer.Writing?
    ensures forall k | s.tail <= k < s.head :: Idx(k, s.n) != Idx(s.head, s.n)
  {
    WindowsApart(s);
  }

  /** The queue is what the cells between the indices hold. */
  lemma SameQueue(a: State, b: State)
    requires WellFormed(a) && WellFormed(b) && a.tail <= a.head
    requires a.n == b.n && a.cells == b.cells && a.head == b.head && a.tail == b.tail
    ensures Queue(a) == Queue(b)
  {
  }

  lemma PushedBlock(before: State, filled: State, after: State, args: seq<Byte>)
    requires WellFormed(before) && WellFormed(filled) && WellFormed(after)
    requires before.tail == filled.tail == after.tail <= before.head == filled.head && after.head == before.head + 1
    requires before.n == filled.n == after.n && after.cells == filled.cells
    requires args <= CellOf(filled, filled.head)
    requires forall k | before.tail <= k < before.head :: CellOf(filled, k) == CellOf(before, k)
    ensures |Queue(after)| == |Queue(before)| + 1
    ensures Queue(before) <= Queue(after) && args <= Queue(after)[|Queue(before)|]
  {
  }

  lemma PoppedBlock(before: State, after: State)
    requires WellFormed(before) && WellFormed(after)
    requires before.tail < before.head == after.head && after.tail == before.tail + 1
    requires before.n == after.n && after.cells == before.cells
    ensures Queue(after) == Queue(before)[1..] && Queue(before)[0] == CellOf(before, before.tail)
  {
  }
}
