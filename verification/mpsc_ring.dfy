/** The MPSC ring as it sits in memory, with the consumer's thread-local cached head beside it. */
module MpscRing {
  import opened Words
  import opened Cells
  import opened Operations
  import opened Layout
  import opened MpscProtocol
  import opened MpscInvariant
  import opened MpscRuns

  class MpscRingBuf {
    var head_: SizeT
    var tail_: SizeT
    const objSize_: SizeT
    const objNum_: SizeT
    const mask_: SizeT
    const sizes: SizeInfo
    const buffer: array<Byte>
    const slot: array<SizeT>

    var producers: map<Tid, Producer>
    var consumer: Consumer
    var local_head: SizeT
    ghost var log: seq<Entry>
    ghost var given: seq<seq<Read>>

    /** The protocol state these fields stand for. */
    ghost function Abs(): State
      requires buffer.Length == objNum_ * objSize_
      reads this, buffer, slot
    {
      State(Ring(objNum_, objSize_, head_, tail_, slot[..], CellsOf(buffer[..], objNum_, objSize_), log, given),
            producers, consumer, local_head)
    }

    ghost predicate Valid()
      reads this, buffer, slot
    {
      && buffer.Length == objNum_ * objSize_
      && slot.Length == objNum_
      && mask_ == objNum_ - 1
      && objSize_ == sizes.objSize && Sound(sizes, objNum_, objSize_, MpscSlot)
      && head_ + objNum_ < TWO_TO_THE_63
      && Inv(Abs())
    }

    /** get_buf for an accepted geometry; `cached` is whatever the consumer's thread had in local_head. */
    constructor (objNum: SizeT, objSize: SizeT, users: set<Tid>, cached: SizeT)
      requires objNum >= 2 && IsPow2(objNum) && Fits(objNum, objSize, MpscSlot)
      ensures Valid() && Initial(Abs()) && fresh(buffer) && fresh(slot)
      ensures objNum_ == objNum && sizes == TotalSize(objNum, objSize, MpscSlot) && objSize <= objSize_
      ensures producers.Keys == users && local_head == cached
    {
      hide TotalSize, Fits, Sound, CellsOf, Wrap, And, IsPow2;
      var info := TotalSize(objNum, objSize, MpscSlot);
      FittingLayout(objNum, objSize, MpscSlot);
      BlockSize(objNum, info.objSize);
      head_, tail_, local_head := 0, 0, cached;
      sizes, objSize_, objNum_, mask_ := info, info.objSize, objNum, objNum - 1;
      buffer := new Byte[objNum * info.objSize];
      slot := new SizeT[objNum];
      producers := map t | t in users :: Producer.Idle(None);
      consumer := Rest(None);
      log, given := [], [];
      new;
      InitSlots(slot, MpscSlot);
      InitialInv(Abs());
    }

    /** Every byte of the object area has an address of its own, behind the header and ahead of the slots. */
    lemma BytesPlaced(j: nat, i: nat)
      requires Valid() && j < objNum_ && i < objSize_
      ensures 0 <= j * objSize_ + i < buffer.Length
      ensures CellAddress(sizes, j, i) == sizes.bufStart + (j * objSize_ + i)
      ensures SIZEOF_RINGBUF <= CellAddress(sizes, j, i) < sizes.totalSize
      ensures forall j', i' {:trigger CellAddress(sizes, j', i')} | 0 <= j' < objNum_ && 0 <= i' < objSize_ ::
                CellAddress(sizes, j', i') == CellAddress(sizes, j, i) ==> j' == j && i' == i
      ensures forall k | 0 <= k < slot.Length ::
                CellAddress(sizes, j, i) < SlotAddress(sizes, k) && SlotAddress(sizes, k) + 8 <= sizes.totalSize
    {
      hide Inv;
      AddressesApart(sizes, objNum_, objSize_, MpscSlot, j, i);
    }

    /** Every slot has a cache line of its own inside the block, the first one where the slots start. */
    lemma SlotsPlaced(k: nat, k': nat)
      requires Valid() && k < k' < slot.Length
      ensures SlotAddress(sizes, 0) == sizes.slotStart
      ensures sizes.slotStart <= SlotAddress(sizes, k)
      ensures SlotAddress(sizes, k) + 64 <= SlotAddress(sizes, k')
      ensures SlotAddress(sizes, k') + 64 <= sizes.totalSize
    {
      hide Inv;
    }

    // Producer steps

    method BeginPush(t: Tid, args: seq<Byte>)
      requires Valid() && t in producers && producers[t].Idle?
      modifies `producers
      ensures Valid() && Abs() == Step(old(Abs()), ByProducer(t, Begin(args)))
    {
      hide Inv, CellsOf;
      StepKeepsInv(Abs(), ByProducer(t, Begin(args)));
      producers := producers[t := if |args| > objSize_ then Producer.Idle(PushSizeTooLarge) else Start(args)];
    }

    method LoadPushHead(t: Tid)
      requires Valid() && t in producers && producers[t].Start?
      modifies `producers
      ensures Valid() && Abs() == Step(old(Abs()), ByProducer(t, LoadHead(head_)))
    {
      hide Inv, CellsOf;
      StepKeepsInv(Abs(), ByProducer(t, LoadHead(head_)));
      producers := producers[t := HeadLoaded(producers[t].obj, head_, head_)];
    }

    /** The load of tail_ and the unsigned fullness test. */
    method LoadPushTail(t: Tid)
      requires Valid() && t in producers && producers[t].HeadLoaded?
      modifies `producers
      ensures Valid() && Abs() == Step(old(Abs()), ByProducer(t, LoadTail(tail_)))
      ensures t in producers
      ensures var pc := old(producers)[t];
              if tail_ <= pc.e < tail_ + objNum_ then producers[t] == Admitted(pc.obj, pc.e, pc.at)
              else producers[t].Idle? && Code(producers[t].ret) == -100
    {
      hide Inv, CellsOf, Wrap;
      var pc := producers[t];
      InFlightBounded(Abs(), t);
      StepKeepsInv(Abs(), ByProducer(t, LoadTail(tail_)));
      WrapIsIdentity(pc.e);
      WrapIsIdentity(tail_);
      LooksFullIsWrapped(pc.e, tail_, objNum_);
      if Sub64(pc.e, tail_) >= objNum_ {
        producers := producers[t := Producer.Idle(Full)];
      } else {
        producers := producers[t := Admitted(pc.obj, pc.e, pc.at)];
      }
    }

    method CasPushHead(t: Tid)
      requires Valid() && t in producers && producers[t].Admitted? && head_ + objNum_ + 1 < TWO_TO_THE_63
      modifies `head_, `producers, `log
      ensures Valid() && Abs() == Step(old(Abs()), ByProducer(t, CasHead))
      ensures t in producers
      ensures var pc := old(producers)[t];
              if old(head_) != pc.e then producers[t].Idle? && Code(producers[t].ret) == -103 && head_ == old(head_)
              else
                producers[t] == Copying(pc.obj, pc.e, 0) && head_ == pc.e + 1 && log == old(log) + [Entry(pc.obj, t)]
    {
      hide Inv, CellsOf;
      var pc := producers[t];
      StepKeepsInv(Abs(), ByProducer(t, CasHead));
      if head_ == pc.e {
        head_ := pc.e + 1;
        log := log + [Entry(pc.obj, t)];
        producers := producers[t := Copying(pc.obj, pc.e, 0)];
      } else {
        producers := producers[t := Producer.Idle(Contention)];
      }
    }

    method WritePushByte(t: Tid)
      requires Valid() && t in producers && producers[t].Copying? && producers[t].i < |producers[t].obj|
      modifies `producers, buffer
      ensures Valid() && Abs() == Step(old(Abs()), ByProducer(t, WriteByte))
    {
      hide Inv, CellsOf, CellAt, And, IsPow2;
      var pc := producers[t];
      ghost var before := Abs();
      InFlightBounded(before, t);
      StepKeepsInv(before, ByProducer(t, WriteByte));
      var idx := And(pc.e, mask_);
      assert idx == Idx(pc.e, objNum_);
      ghost var was := buffer[..];
      StoreInCell(was, objNum_, objSize_, idx, pc.i, pc.obj[pc.i]);
      buffer[idx * objSize_ + pc.i] := pc.obj[pc.i];
      assert buffer[..] == was[idx * objSize_ + pc.i := pc.obj[pc.i]];
      producers := producers[t := pc.(i := pc.i + 1)];
    }

    method PublishPush(t: Tid)
      requires Valid() && t in producers && producers[t].Copying? && producers[t].i == |producers[t].obj|
      modifies `producers, slot
      ensures Valid() && Abs() == Step(old(Abs()), ByProducer(t, SetValid))
    {
      hide Inv, CellsOf, And, IsPow2;
      var pc := producers[t];
      ghost var before := Abs();
      StepKeepsInv(before, ByProducer(t, SetValid));
      var idx := And(pc.e, mask_);
      assert idx == Idx(pc.e, objNum_);
      slot[idx] := SLOT_VALID;
      assert slot[..] == before.m.flag[idx := SLOT_VALID];
      producers := producers[t := Producer.Idle(Pushed(pc.e))];
    }

    /** A push up to its CAS, without interference: refused exactly on a full ring. */
    method Claim(t: Tid)
      requires Valid() && t in producers && producers[t].Start? && head_ + objNum_ + 1 < TWO_TO_THE_63
      modifies `head_, `producers, `log
      ensures Valid()
      ensures if old(head_) - tail_ == objNum_
              then head_ == old(head_) && log == old(log) && producers == old(producers)[t := Producer.Idle(Full)]
              else
                && head_ == old(head_) + 1 && log == old(log) + [Entry(old(producers)[t].obj, t)]
                && producers == old(producers)[t := Copying(old(producers)[t].obj, old(head_), 0)]
    {
      hide Inv, CellsOf, And, IsPow2;
      InvShape(Abs());
      LoadPushHead(t);
      LoadPushTail(t);
      if producers[t].Admitted? {
        CasPushHead(t);
      }
    }

    /** Push_MpscRingBuf without interference: FULL exactly on a full ring. */
    method Push(t: Tid, args: seq<Byte>) returns (rc: int)
      requires Valid() && t in producers && producers[t].Idle? && head_ + objNum_ + 1 < TWO_TO_THE_63
      modifies `head_, `producers, `log, buffer, slot
      ensures Valid() && t in producers
      ensures producers == old(producers)[t := producers[t]]
      ensures var before, after := old(Abs()).m, Abs().m;
              if |args| > objSize_ then rc == -109 && after == before
              else if |Queue(before)| == objNum_ then rc == -100 && after == before
              else rc == before.head && Queue(after) == Queue(before) + [args]
    {
      hide Inv, CellsOf, And, IsPow2, Queue, Wrap;
      InvShape(Abs());
      ghost var before := Abs().m;
      QueueLength(before);
      WrapIsIdentity(head_);
      BeginPush(t, args);
      if producers[t].Start? {
        Claim(t);
        if producers[t].Copying? {
          CopyAndPublish(t);
          InvShape(Abs());
          QueueGrows(before, Abs().m, Entry(args, t));
        }
      }
      rc := Code(producers[t].ret);
    }

    /** The copy loop and the flag store of a push leave the indices and the log alone. */
    method CopyAndPublish(t: Tid)
      requires Valid() && t in producers && producers[t].Copying? && producers[t].i == 0
      modifies `producers, buffer, slot
      ensures Valid() && producers == old(producers)[t := Producer.Idle(Pushed(old(producers)[t].e))]
    {
      hide Inv, CellsOf, And, IsPow2;
      while producers[t].i < |producers[t].obj|
        invariant Valid() && t in producers && producers[t].Copying? && producers[t].i <= |producers[t].obj|
        invariant producers[t].e == old(producers)[t].e
        invariant producers == old(producers)[t := producers[t]]
        decreases |producers[t].obj| - producers[t].i
      {
        WritePushByte(t);
      }
      PublishPush(t);
    }

    // Consumer steps

    method BeginConsume(mode: PopMode)
      requires Valid() && consumer.Rest?
      modifies `consumer
      ensures Valid() && Abs() == Step(old(Abs()), ByConsumer(BeginPop(mode)))
    {
      hide Inv, CellsOf;
      StepKeepsInv(Abs(), ByConsumer(BeginPop(mode)));
      consumer := if mode.Into? && mode.size > objSize_ then Rest(PopSizeTooLarge) else Begun(mode);
    }

    method LoadPopTail()
      requires Valid() && consumer.Begun?
      modifies `consumer
      ensures Valid() && Abs() == Step(old(Abs()), ByConsumer(LoadOwnTail))
    {
      hide Inv, CellsOf;
      StepKeepsInv(Abs(), ByConsumer(LoadOwnTail));
      var curr_tail := tail_;
      consumer :=
        if local_head == curr_tail then Reloading(consumer.mode, curr_tail) else Probing(consumer.mode, curr_tail);
    }

    method ReloadPopHead()
      requires Valid() && consumer.Reloading?
      modifies `consumer, `local_head
      ensures Valid() && Abs() == Step(old(Abs()), ByConsumer(ReloadHead(head_)))
    {
      hide Inv, CellsOf;
      ConsumerBounded(Abs());
      StepKeepsInv(Abs(), ByConsumer(ReloadHead(head_)));
      local_head := head_;
      consumer := if local_head == consumer.e then Rest(Empty) else Probing(consumer.mode, consumer.e);
    }

    method LoadPopFlag()
      requires Valid() && consumer.Probing?
      modifies `consumer
      ensures Valid() && Abs() == Step(old(Abs()), ByConsumer(LoadFlag))
    {
      hide Inv, CellsOf, And, IsPow2;
      StepKeepsInv(Abs(), ByConsumer(LoadFlag));
      var idx := And(consumer.e, mask_);
      assert idx == Idx(consumer.e, objNum_);
      var slot_stat := slot[idx];
      if And(slot_stat, SLOT_EMPTY) != 0 {
        consumer := Rest(SlotWritingData);
      } else if And(slot_stat, SLOT_UNKNOWN) != 0 {
        assert false;  // SLOT_UNKNOWN is 0, so this test never fires
      } else {
        consumer := Reading(consumer.mode, consumer.e, []);
      }
    }

    method ReadPopByte(offset: nat)
      requires Valid() && Enabled(Abs(), ByConsumer(ReadByte(offset)))
      modifies `consumer
      ensures Valid() && Abs() == Step(old(Abs()), ByConsumer(ReadByte(offset)))
    {
      hide Inv, CellsOf, CellAt, And, IsPow2;
      StepKeepsInv(Abs(), ByConsumer(ReadByte(offset)));
      var idx := And(consumer.e, mask_);
      assert idx == Idx(consumer.e, objNum_);
      ByteAddress(buffer[..], objNum_, objSize_, idx, offset);
      var byte := buffer[idx * objSize_ + offset];
      assert byte == CellOf(Abs().m, consumer.e)[offset];
      consumer := consumer.(seen := consumer.seen + [Read(offset, byte)]);
    }

    method FinishRead()
      requires Valid() && Enabled(Abs(), ByConsumer(Finish))
      modifies `consumer
      ensures Valid() && Abs() == Step(old(Abs()), ByConsumer(Finish))
    {
      hide Inv, CellsOf;
      StepKeepsInv(Abs(), ByConsumer(Finish));
      consumer := Clearing(consumer.e, Popped(consumer.e, consumer.seen));
    }

    method ClearPopFlag()
      requires Valid() && consumer.Clearing?
      modifies `consumer, slot
      ensures Valid() && Abs() == Step(old(Abs()), ByConsumer(Clear))
    {
      hide Inv, CellsOf, And, IsPow2;
      ghost var before := Abs();
      StepKeepsInv(before, ByConsumer(Clear));
      var idx := And(consumer.e, mask_);
      assert idx == Idx(consumer.e, objNum_);
      slot[idx] := SLOT_EMPTY;
      assert slot[..] == before.m.flag[idx := SLOT_EMPTY];
      consumer := Advancing(consumer.e, consumer.res);
    }

    method StorePopTail()
      requires Valid() && consumer.Advancing?
      modifies `consumer, `tail_, `given
      ensures Valid() && Abs() == Step(old(Abs()), ByConsumer(StoreTail))
    {
      hide Inv, CellsOf;
      ConsumerBounded(Abs());
      StepKeepsInv(Abs(), ByConsumer(StoreTail));
      tail_ := consumer.e + 1;
      given := given + [if consumer.res.Popped? then consumer.res.seen else []];
      consumer := Rest(consumer.res);
    }

    /** Pop_MpscRingBuf, and Pop_w_cb_MpscRingBuf with a callback that returns at once, uninterrupted. */
    method PopUninterrupted(mode: PopMode)
      requires Valid() && consumer.Rest?
      modifies `consumer, `local_head, `tail_, `given, slot
      ensures Valid() && Abs() == PopAlone(old(Abs()), mode)
    {
      hide Inv, CellsOf, RunAlone, And, IsPow2, Step, CanPop;
      ghost var goal := PopAlone(Abs(), mode);
      BeginConsume(mode);
      while !consumer.Rest?
        invariant Valid() && RunAlone(Abs()) == goal
        decreases Remaining(consumer)
      {
        OwnStepAdvances(Abs());
        ghost var next := AloneStep(Abs());
        OwnStep();
      }
      AloneAtRest(Abs());
    }

    /**
     * What the caller of a copying pop gets, whatever the producers are in the middle of: the front if it is
     * published, and else EMPTY if nothing has been claimed as far as the cached head goes.
     */
    method Pop(size: nat) returns (rc: int, out: seq<Byte>)
      requires Valid() && consumer.Rest?
      modifies `consumer, `local_head, `tail_, `given, slot
      ensures Valid() && consumer.Rest? && Shape(Abs().m) && Shape(old(Abs()).m)
      ensures var before, after := old(Abs()).m, Abs().m;
              if size > objSize_ then rc == -110 && after == before
              else if FrontReady(before, before.tail) then
                && rc == old(tail_) && Queue(before) != [] && Queue(after) == Queue(before)[1..]
                && (size <= |Queue(before)[0]| ==> out == Queue(before)[0][..size])
                && (|Queue(before)[0]| <= size ==> Queue(before)[0] <= out)
              else if old(local_head) == old(tail_) == old(head_) then rc == -101 && after == before
              else rc == -112 && after == before
    {
      hide Inv, CellsOf, PopAlone, Queue, Wrap, Retired, CopyOf, FrontReady;
      InvShape(Abs());
      CopyOutcome(Abs(), size);
      PopUninterrupted(Into(size));
      InvShape(Abs());
      rc := Code(consumer.ret);
      out := if consumer.ret.Popped? then Bytes(consumer.ret.seen) else [];
    }

    /** Size_MpscRingBuf, Is_empty_MpscRingBuf and Is_full_MpscRingBuf between two steps of the threads. */
    method Size() returns (size: SizeT, empty: bool, full: bool)
      requires Valid()
      ensures Shape(Abs().m)
      ensures size == |Queue(Abs().m)| && (empty <==> Queue(Abs().m) == []) && (full <==> size == objNum_)
    {
      hide Inv, CellsOf, Wrap;
      InvShape(Abs());
      WrapIsIdentity(head_ - tail_);
      size := Sub64(head_, tail_);
      empty := head_ == tail_;
      full := Sub64(head_, tail_) >= objNum_;
    }

    /** The consumer's next step in program order. */
    method OwnStep()
      requires Valid() && !consumer.Rest? && Enabled(Abs(), ByConsumer(OwnAction(Abs().m, consumer)))
      modifies `consumer, `local_head, `tail_, `given, slot
      ensures Valid() && Abs() == Step(old(Abs()), ByConsumer(OwnAction(old(Abs()).m, old(consumer))))
    {
      hide Inv, CellsOf, And, IsPow2, Step;
      match consumer
      case Begun(_) => LoadPopTail();
      case Reloading(_, _) => ReloadPopHead();
      case Probing(_, _) => LoadPopFlag();
      case Reading(mode, _, seen) =>
        if mode.Into? && |seen| < mode.size {
          ReadPopByte(|seen|);
        } else {
          FinishRead();
        }
      case Clearing(_, _) => ClearPopFlag();
      case Advancing(_, _) => StorePopTail();
    }
  }

  lemma QueueLength(m: Ring)
    requires Shape(m)
    ensures |Queue(m)| == m.head - m.tail
  {
  }

  lemma QueueGrows(a: Ring, b: Ring, entry: Entry)
    requires Shape(a) && Shape(b) && b.log == a.log + [entry] && b.tail == a.tail
    ensures Queue(b) == Queue(a) + [entry.obj]
  {
  }

  lemma AloneAtRest(s: State)
    requires Inv(s) && s.consumer.Rest?
    ensures RunAlone(s) == s
  {
  }

  /** Every ticket a producer works with is at most head_. */
  lemma InFlightBounded(s: State, t: Tid)
    requires Inv(s) && t in s.producers
    ensures var pc := s.producers[t];
            && s.m.tail <= s.m.head
            && (pc.HeadLoaded? || pc.Admitted? || pc.Copying? ==> pc.e <= s.m.head)
            && (pc.Copying? ==> |pc.obj| <= s.m.sz)
  {
    assert ProducerOk(s.m, s.consumer, t, s.producers[t]);
  }

  lemma ConsumerBounded(s: State)
    requires Inv(s)
    ensures s.m.tail <= s.m.head
    ensures s.consumer.Advancing? ==> s.consumer.e < s.m.head
  {
  }

  /** An undisturbed copying pop in terms of the caller's code and bytes. */
  lemma CopyOutcome(s: State, size: nat)
    requires Inv(s) && s.consumer.Rest? && s.m.tail < TWO_TO_THE_63
    ensures Shape(s.m)
    ensures var m, r := s.m, PopAlone(s, Into(size));
            && r.consumer.Rest? && Shape(r.m)
            && var ret := r.consumer.ret;
               if size > m.sz then Code(ret) == -110 && !ret.Popped? && r.m == m
               else if FrontReady(m, m.tail) then
                 && Code(ret) == m.tail && ret.Popped? && Queue(m) != [] && Queue(r.m) == Queue(m)[1..]
                 && (size <= |Queue(m)[0]| ==> Bytes(ret.seen) == Queue(m)[0][..size])
                 && (|Queue(m)[0]| <= size ==> Queue(m)[0] <= Bytes(ret.seen))
               else if s.localHead == m.tail == m.head then Code(ret) == -101 && !ret.Popped? && r.m == m
               else Code(ret) == -112 && !ret.Popped? && r.m == m
  {
    hide And, PopAlone, RunAlone;
    PopOutcome(s, Into(size));
    WrapIsIdentity(s.m.tail);
    InvShape(PopAlone(s, Into(size)));
    if size <= s.m.sz && FrontReady(s.m, s.m.tail) {
      var seen := CopyOf(CellOf(s.m, s.m.tail), size);
      assert s.m.log[s.m.tail].obj <= CellOf(s.m, s.m.tail);
      CopyAgrees(seen, size, s.m.log[s.m.tail].obj);
    }
  }
}
