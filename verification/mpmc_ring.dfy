/** The MPMC ring as it sits in memory: words, a slot array and one flat byte block, updated in place. */
module MpmcRing {
  import opened Words
  import opened Cells
  import opened Operations
  import opened MpmcProtocol
  import opened MpmcInvariant
  import opened MpmcRuns
  import opened MpmcQuiescence
  import Layout

  class MpmcRingBuf {
    var head_: SizeT
    var tail_: SizeT
    const objSize_: SizeT
    const objNum_: SizeT
    const mask_: SizeT
    const sizes: Layout.SizeInfo
    const buffer: array<Byte>
    const slot: array<SizeT>

    var threads: map<Tid, Pc>
    ghost var log: seq<Entry>
    ghost var taken: seq<Tid>
    ghost var given: map<nat, seq<Read>>

    /** The protocol state these fields stand for. */
    ghost function Abs(): State
      requires buffer.Length == objNum_ * objSize_
      reads this, buffer, slot
    {
      State(Ring(objNum_, objSize_, head_, tail_, slot[..], CellsOf(buffer[..], objNum_, objSize_),
                 log, taken, given), threads)
    }

    /** Tickets stay in the range an ssize_t result can express. */
    ghost predicate Valid()
      reads this, buffer, slot
    {
      && buffer.Length == objNum_ * objSize_
      && slot.Length == objNum_
      && mask_ == objNum_ - 1
      && objSize_ == sizes.objSize && Layout.Sound(sizes, objNum_, objSize_, Layout.MpmcSlot)
      && head_ + objNum_ < TWO_TO_THE_63
      && Inv(Abs())
    }

    /** get_buf for an accepted geometry that fits a 64-bit block; `objSize` is padded to whole lines. */
    constructor (objNum: SizeT, objSize: SizeT, users: set<Tid>)
      requires objNum >= 2 && IsPow2(objNum) && Layout.Fits(objNum, objSize, Layout.MpmcSlot)
      ensures Valid() && Initial(Abs()) && fresh(buffer) && fresh(slot)
      ensures objNum_ == objNum && sizes == Layout.TotalSize(objNum, objSize, Layout.MpmcSlot) && objSize <= objSize_
      ensures threads.Keys == users
    {
      hide Layout.TotalSize, Layout.Fits, Layout.Sound, CellsOf, Wrap, And, IsPow2;
      var info := Layout.TotalSize(objNum, objSize, Layout.MpmcSlot);
      Layout.FittingLayout(objNum, objSize, Layout.MpmcSlot);
      BlockSize(objNum, info.objSize);
      head_, tail_ := 0, 0;
      sizes, objSize_, objNum_, mask_ := info, info.objSize, objNum, objNum - 1;
      buffer := new Byte[objNum * info.objSize];
      slot := new SizeT[objNum];
      threads := map t | t in users :: Idle(None);
      log, taken, given := [], [], map[];
      new;
      Layout.InitSlots(slot, Layout.MpmcSlot);
      InitialInv(Abs());
    }

    /** Every byte of the object area has an address of its own, behind the header and ahead of the slots. */
    lemma BytesPlaced(j: nat, i: nat)
      requires Valid() && j < objNum_ && i < objSize_
      ensures 0 <= j * objSize_ + i < buffer.Length
      ensures Layout.CellAddress(sizes, j, i) == sizes.bufStart + (j * objSize_ + i)
      ensures Layout.SIZEOF_RINGBUF <= Layout.CellAddress(sizes, j, i) < sizes.totalSize
      ensures forall j', i' {:trigger Layout.CellAddress(sizes, j', i')} | 0 <= j' < objNum_ && 0 <= i' < objSize_ ::
                Layout.CellAddress(sizes, j', i') == Layout.CellAddress(sizes, j, i) ==> j' == j && i' == i
      ensures forall k | 0 <= k < slot.Length ::
                && Layout.CellAddress(sizes, j, i) < Layout.SlotAddress(sizes, k)
                && Layout.SlotAddress(sizes, k) + 8 <= sizes.totalSize
    {
      hide Inv;
      Layout.AddressesApart(sizes, objNum_, objSize_, Layout.MpmcSlot, j, i);
    }

    /** Every slot has a cache line of its own inside the block, the first one where the slots start. */
    lemma SlotsPlaced(k: nat, k': nat)
      requires Valid() && k < k' < slot.Length
      ensures Layout.SlotAddress(sizes, 0) == sizes.slotStart
      ensures sizes.slotStart <= Layout.SlotAddress(sizes, k)
      ensures Layout.SlotAddress(sizes, k) + 64 <= Layout.SlotAddress(sizes, k')
      ensures Layout.SlotAddress(sizes, k') + 64 <= sizes.totalSize
    {
      hide Inv;
    }

    // Whole operations, run without interference

    method BeginPush(t: Tid, args: seq<Byte>)
      requires Valid() && t in threads && threads[t].Idle?
      modifies `threads
      ensures Valid() && Abs() == Step(old(Abs()), t, Action.BeginPush(args))
      ensures t in threads && (threads[t].Idle? || threads[t].PushStart?)
    {
      StepKeepsInv(Abs(), t, Action.BeginPush(args));
      threads := threads[t := if |args| > objSize_ then Idle(PushSizeTooLarge) else PushStart(args)];
    }

    method BeginPop(t: Tid, mode: PopMode)
      requires Valid() && t in threads && threads[t].Idle?
      modifies `threads
      ensures Valid() && Abs() == Step(old(Abs()), t, Action.BeginPop(mode))
      ensures t in threads && (threads[t].Idle? || threads[t].PopStart?)
    {
      StepKeepsInv(Abs(), t, Action.BeginPop(mode));
      threads := threads[t := if mode.Into? && mode.size > objSize_ then Idle(PopSizeTooLarge) else PopStart(mode)];
    }

    /** Push_MpmcRingBuf, whatever the other threads are in the middle of. */
    method PushAlone(t: Tid, args: seq<Byte>)
      requires Valid() && t in threads && threads[t].Idle? && head_ + objNum_ + 1 < TWO_TO_THE_63
      modifies this, buffer, slot
      ensures Valid() && Abs() == MpmcQuiescence.Push(old(Abs()), t, args)
    {
      hide Inv, RunAlone, Step, CanDo, CellsOf, IsPow2, And, SlotOf, Later;
      BeginPush(t, args);
      if threads[t].Idle? {
        AloneFromIdle(Abs(), t);
      } else {
        ContinuePush(t);
      }
    }

    /** A push up to its decision on the slot it loads. */
    method DecidePush(t: Tid)
      requires Valid() && t in threads && threads[t].PushStart?
      modifies `threads
      ensures t in threads && (threads[t].Idle? || threads[t].PushReady?)
      ensures Valid() && RunAlone(Abs(), t) == RunAlone(old(Abs()), t)
    {
      hide Inv, RunAlone, Step, CanDo, CellsOf, IsPow2, And, SlotOf, Later;
      ghost var s1 := AloneStep(Abs(), t);
      LoadHead(t);
      ghost var s2 := AloneStep(Abs(), t);
      LoadPushSlot(t);
    }

    /** A push from its load of head_ on. */
    method ContinuePush(t: Tid)
      requires Valid() && t in threads && threads[t].PushStart? && head_ + objNum_ + 1 < TWO_TO_THE_63
      modifies this, buffer, slot
      ensures Valid() && Abs() == RunAlone(old(Abs()), t)
    {
      hide Inv, RunAlone, Step, CanDo, CellsOf, IsPow2, And, SlotOf, Later;
      DecidePush(t);
      if !threads[t].Idle? {
        ghost var s3 := AloneStep(Abs(), t);
        CasHead(t);
      }
      if threads[t].Idle? {
        AloneFromIdle(Abs(), t);
      } else {
        FinishPush(t);
      }
    }

    /** On a quiet ring the outcome of a push is exact. */
    method Push(t: Tid, args: seq<Byte>) returns (rc: int)
      requires Valid() && t in threads && Quiet(Abs()) && head_ + objNum_ + 1 < TWO_TO_THE_63
      modifies this, buffer, slot
      ensures Valid() && Quiet(Abs())
      ensures var before, after := old(Abs()).m, Abs().m;
              if |args| > objSize_ then rc == -109 && after == before
              else if |Queue(before)| == objNum_ then rc == -100 && after == before
              else rc == before.head && Queue(after) == Queue(before) + [args]
    {
      hide Inv, MpmcQuiescence.Push, Queue, CellsOf;
      InvShape(Abs());
      SoloPush(Abs(), t, args);
      PushAlone(t, args);
      rc := Code(threads[t].ret);
    }

    /** The copy loop and the release store of a push. */
    method FinishPush(t: Tid)
      requires Valid() && t in threads && threads[t].PushCopy?
      modifies this, buffer, slot
      ensures Valid() && Abs() == RunAlone(old(Abs()), t)
    {
      hide Inv, RunAlone;
      ghost var goal := RunAlone(Abs(), t);
      while threads[t].i < |threads[t].obj|
        invariant Valid() && t in threads && threads[t].PushCopy?
        invariant RunAlone(Abs(), t) == goal
        decreases |threads[t].obj| - threads[t].i
      {
        ghost var s1 := AloneStep(Abs(), t);
        WriteByte(t);
      }
      CopyDone(Abs(), t);
      ghost var s2 := AloneStep(Abs(), t);
      Publish(t);
      AloneFromIdle(Abs(), t);
    }

    /** Pop_MpmcRingBuf, and Pop_w_cb_MpmcRingBuf with a callback that returns at once. */
    method PopAlone(t: Tid, mode: PopMode)
      requires Valid() && t in threads && threads[t].Idle?
      modifies this, buffer, slot
      ensures Valid() && Abs() == MpmcQuiescence.Pop(old(Abs()), t, mode)
    {
      hide Inv, RunAlone, Step, CanDo, CellsOf, IsPow2, And, SlotOf, Later;
      BeginPop(t, mode);
      if threads[t].Idle? {
        AloneFromIdle(Abs(), t);
      } else {
        ContinuePop(t);
      }
    }

    /** A pop up to its decision on the slot it loads. */
    method DecidePop(t: Tid)
      requires Valid() && t in threads && threads[t].PopStart?
      modifies `threads
      ensures t in threads && (threads[t].Idle? || threads[t].PopReady?)
      ensures Valid() && RunAlone(Abs(), t) == RunAlone(old(Abs()), t)
    {
      hide Inv, RunAlone, Step, CanDo, CellsOf, IsPow2, And, SlotOf, Later;
      ghost var s1 := AloneStep(Abs(), t);
      LoadTail(t);
      ghost var s2 := AloneStep(Abs(), t);
      LoadPopSlot(t);
    }

    /** A pop from its load of tail_ on. */
    method ContinuePop(t: Tid)
      requires Valid() && t in threads && threads[t].PopStart?
      modifies this, buffer, slot
      ensures Valid() && Abs() == RunAlone(old(Abs()), t)
    {
      hide Inv, RunAlone, Step, CanDo, CellsOf, IsPow2, And, SlotOf, Later;
      DecidePop(t);
      if !threads[t].Idle? {
        ghost var s3 := AloneStep(Abs(), t);
        CasTail(t);
      }
      if threads[t].Idle? {
        AloneFromIdle(Abs(), t);
      } else {
        FinishPop(t);
      }
    }

    /** On a quiet ring the outcome of a copying pop is exact. */
    method Pop(t: Tid, size: nat) returns (rc: int, out: seq<Byte>)
      requires Valid() && t in threads && Quiet(Abs())
      modifies this, buffer, slot
      ensures Valid() && Quiet(Abs())
      ensures var before, after := old(Abs()).m, Abs().m;
              if size > objSize_ then rc == -110 && after == before
              else if Queue(before) == [] then rc == -101 && after == before
              else
                && rc == before.tail && Queue(after) == Queue(before)[1..]
                && (size <= |Queue(before)[0]| ==> out == Queue(before)[0][..size])
                && (|Queue(before)[0]| <= size ==> Queue(before)[0] <= out)
    {
      hide Inv, MpmcQuiescence.Pop, Queue, CellsOf;
      InvShape(Abs());
      SoloCopy(Abs(), t, size);
      PopAlone(t, Into(size));
      rc := Code(threads[t].ret);
      out := if threads[t].ret.Popped? then Bytes(threads[t].ret.seen) else [];
    }

    method FinishPop(t: Tid)
      requires Valid() && t in threads && threads[t].PopRead?
      modifies this, buffer, slot
      ensures Valid() && Abs() == RunAlone(old(Abs()), t)
    {
      hide Inv, RunAlone;
      ghost var goal := RunAlone(Abs(), t);
      while threads[t].mode.Into? && |threads[t].seen| < threads[t].mode.size
        invariant Valid() && t in threads && threads[t].PopRead?
        invariant RunAlone(Abs(), t) == goal
        decreases if threads[t].mode.Into? then threads[t].mode.size - |threads[t].seen| else 0
      {
        ghost var s1 := AloneStep(Abs(), t);
        ReadByte(t, |threads[t].seen|);
      }
      ReadDone(Abs(), t);
      ghost var s2 := AloneStep(Abs(), t);
      Release(t);
      AloneFromIdle(Abs(), t);
    }

    // Loads

    method LoadHead(t: Tid)
      requires Valid() && t in threads && threads[t].PushStart?
      modifies `threads
      ensures Valid() && Abs() == Step(old(Abs()), t, LoadIndex(head_))
      ensures t in threads && threads[t].PushLoaded?
    {
      StepKeepsInv(Abs(), t, LoadIndex(head_));
      threads := threads[t := PushLoaded(threads[t].obj, head_, head_)];
    }

    method LoadTail(t: Tid)
      requires Valid() && t in threads && threads[t].PopStart?
      modifies `threads
      ensures Valid() && Abs() == Step(old(Abs()), t, LoadIndex(tail_))
      ensures t in threads && threads[t].PopLoaded?
    {
      StepKeepsInv(Abs(), t, LoadIndex(tail_));
      threads := threads[t := PopLoaded(threads[t].mode, tail_, tail_)];
    }

    /** The acquire load of the slot and the signed comparison that follows it. */
    method LoadPushSlot(t: Tid)
      requires Valid() && t in threads && threads[t].PushLoaded?
      modifies `threads
      ensures Valid() && Abs() == Step(old(Abs()), t, LoadSlot(SlotOf(old(Abs()).m, old(threads)[t].e)))
      ensures t in threads
      ensures var pc := old(threads)[t]; var seq_ := slot[Idx(pc.e, objNum_)];
              if seq_ > pc.e then threads[t].Idle? && Code(threads[t].ret) == -103
              else if seq_ < pc.e then threads[t].Idle? && Code(threads[t].ret) == -100
              else threads[t] == PushReady(pc.obj, pc.e, pc.at)
    {
      hide Inv, CellsOf, And, IsPow2;
      var pc := threads[t];
      InFlightBounded(Abs(), t);
      var idx := And(pc.e, mask_);
      assert idx == Idx(pc.e, objNum_);
      var seq_ := slot[idx];
      StepKeepsInv(Abs(), t, LoadSlot(seq_));
      var dif := AsSigned(seq_) - AsSigned(pc.e);
      if dif > 0 {
        threads := threads[t := Idle(Contention)];
      } else if dif < 0 {
        threads := threads[t := Idle(Full)];
      } else {
        threads := threads[t := PushReady(pc.obj, pc.e, pc.at)];
      }
    }

    method LoadPopSlot(t: Tid)
      requires Valid() && t in threads && threads[t].PopLoaded?
      modifies `threads
      ensures Valid() && Abs() == Step(old(Abs()), t, LoadSlot(SlotOf(old(Abs()).m, old(threads)[t].e)))
      ensures t in threads
      ensures var pc := old(threads)[t]; var seq_ := slot[Idx(pc.e, objNum_)];
              if seq_ > pc.e + 1 then threads[t].Idle? && Code(threads[t].ret) == -103
              else if seq_ < pc.e + 1 then threads[t].Idle? && Code(threads[t].ret) == -101
              else threads[t] == PopReady(pc.mode, pc.e, pc.at)
    {
      hide Inv, CellsOf, And, IsPow2, Wrap;
      var pc := threads[t];
      InFlightBounded(Abs(), t);
      WrapIsIdentity(pc.e + 1);
      var idx := And(pc.e, mask_);
      assert idx == Idx(pc.e, objNum_);
      var seq_ := slot[idx];
      StepKeepsInv(Abs(), t, LoadSlot(seq_));
      var dif := AsSigned(seq_) - AsSigned(Add64(pc.e, 1));
      if dif > 0 {
        threads := threads[t := Idle(Contention)];
      } else if dif < 0 {
        threads := threads[t := Idle(Empty)];
      } else {
        threads := threads[t := PopReady(pc.mode, pc.e, pc.at)];
      }
    }

    // Compare-and-swap

    method CasHead(t: Tid)
      requires Valid() && t in threads && threads[t].PushReady? && head_ + objNum_ + 1 < TWO_TO_THE_63
      modifies `head_, `threads, `log
      ensures Valid() && Abs() == Step(old(Abs()), t, Cas)
      ensures t in threads
      ensures var pc := old(threads)[t];
              if old(head_) != pc.e then threads[t].Idle? && Code(threads[t].ret) == -103 && head_ == old(head_)
              else threads[t] == PushCopy(pc.obj, pc.e, 0) && head_ == pc.e + 1 && log == old(log) + [Entry(pc.obj, t)]
    {
      hide Inv, CellsOf, And;
      var pc := threads[t];
      StepKeepsInv(Abs(), t, Cas);
      if head_ == pc.e {
        head_ := pc.e + 1;
        log := log + [Entry(pc.obj, t)];
        threads := threads[t := PushCopy(pc.obj, pc.e, 0)];
      } else {
        threads := threads[t := Idle(Contention)];
      }
    }

    method CasTail(t: Tid)
      requires Valid() && t in threads && threads[t].PopReady?
      modifies `tail_, `threads, `taken
      ensures Valid() && Abs() == Step(old(Abs()), t, Cas)
      ensures t in threads
      ensures var pc := old(threads)[t];
              if old(tail_) != pc.e then threads[t].Idle? && Code(threads[t].ret) == -103 && tail_ == old(tail_)
              else threads[t] == PopRead(pc.mode, pc.e, []) && tail_ == pc.e + 1 && taken == old(taken) + [t]
    {
      hide Inv, CellsOf, And;
      var pc := threads[t];
      InFlightBounded(Abs(), t);
      StepKeepsInv(Abs(), t, Cas);
      if tail_ == pc.e {
        tail_ := pc.e + 1;
        taken := taken + [t];
        threads := threads[t := PopRead(pc.mode, pc.e, [])];
      } else {
        threads := threads[t := Idle(Contention)];
      }
    }

    // memcpy, one byte at a time

    method WriteByte(t: Tid)
      requires Valid() && t in threads && threads[t].PushCopy? && threads[t].i < |threads[t].obj|
      modifies `threads, buffer
      ensures Valid() && Abs() == Step(old(Abs()), t, CopyByte(old(threads)[t].i))
    {
      hide Inv, CellsOf, And, IsPow2;
      var pc := threads[t];
      InFlightBounded(Abs(), t);
      StepKeepsInv(Abs(), t, CopyByte(pc.i));
      var idx := And(pc.e, mask_);
      assert idx == Idx(pc.e, objNum_);
      ghost var was := buffer[..];
      StoreInCell(was, objNum_, objSize_, idx, pc.i, pc.obj[pc.i]);
      buffer[idx * objSize_ + pc.i] := pc.obj[pc.i];
      assert buffer[..] == was[idx * objSize_ + pc.i := pc.obj[pc.i]];
      threads := threads[t := pc.(i := pc.i + 1)];
    }

    method ReadByte(t: Tid, offset: nat)
      requires Valid() && t in threads && Enabled(Abs(), t, CopyByte(offset)) && threads[t].PopRead?
      modifies `threads
      ensures Valid() && Abs() == Step(old(Abs()), t, CopyByte(offset))
    {
      hide Inv, CellsOf, CellAt, And;
      var pc := threads[t];
      StepKeepsInv(Abs(), t, CopyByte(offset));
      var idx := And(pc.e, mask_);
      assert idx == Idx(pc.e, objNum_);
      ByteAddress(buffer[..], objNum_, objSize_, idx, offset);
      var byte := buffer[idx * objSize_ + offset];
      assert byte == CellOf(Abs().m, pc.e)[offset];
      threads := threads[t := pc.(seen := pc.seen + [Read(offset, byte)])];
    }

    // Release stores

    method Publish(t: Tid)
      requires Valid() && t in threads && threads[t].PushCopy? && threads[t].i == |threads[t].obj|
      modifies `threads, slot
      ensures Valid() && Abs() == Step(old(Abs()), t, StoreSlot)
    {
      hide Inv, CellsOf, And;
      var pc := threads[t];
      InFlightBounded(Abs(), t);
      StepKeepsInv(Abs(), t, StoreSlot);
      var idx := And(pc.e, mask_);
      assert idx == Idx(pc.e, objNum_);
      ghost var was := slot[..];
      var v: SizeT := pc.e + 1;
      slot[idx] := v;
      assert slot[..] == was[idx := v];
      threads := threads[t := Idle(Pushed(pc.e))];
    }

    method Release(t: Tid)
      requires Valid() && t in threads && threads[t].PopRead? && Enabled(Abs(), t, StoreSlot)
      modifies `threads, `given, slot
      ensures Valid() && Abs() == Step(old(Abs()), t, StoreSlot)
    {
      hide Inv, CellsOf, And;
      var pc := threads[t];
      ghost var before := Abs();
      InFlightBounded(before, t);
      StepKeepsInv(before, t, StoreSlot);
      var idx := And(pc.e, mask_);
      assert idx == Idx(pc.e, objNum_);
      var v: SizeT := pc.e + objNum_;
      slot[idx] := v;
      given := given[pc.e := pc.seen];
      threads := threads[t := Idle(Popped(pc.e, pc.seen))];
      assert slot[..] == before.m.slot[idx := v];
      assert Abs().m == before.m.(slot := before.m.slot[idx := v], given := given);
    }
  }

  /** Every ticket and slot value a thread works with is at most a lap beyond head_. */
  lemma InFlightBounded(s: State, t: Tid)
    requires Inv(s) && t in s.threads
    ensures var pc := s.threads[t];
            && (pc.PushLoaded? || pc.PushReady? || pc.PushCopy? ==> pc.e <= s.m.head)
            && (pc.PopLoaded? || pc.PopReady? || pc.PopRead? ==> pc.e <= s.m.tail <= s.m.head)
            && (pc.PushLoaded? || pc.PopLoaded? ==> SlotOf(s.m, pc.e) <= s.m.head + s.m.n)
            && (pc.PushCopy? ==> |pc.obj| <= s.m.sz)
  {
    assert ThreadOk(s.m, t, s.threads[t]);
  }

  lemma CopyDone(s: State, t: Tid)
    requires Inv(s) && t in s.threads && s.threads[t].PushCopy? && s.threads[t].i >= |s.threads[t].obj|
    ensures s.threads[t].i == |s.threads[t].obj| && OwnAction(s.m, s.threads[t]) == StoreSlot
  {
    assert ThreadOk(s.m, t, s.threads[t]);
  }

  lemma ReadDone(s: State, t: Tid)
    requires Inv(s) && t in s.threads && s.threads[t].PopRead?
    requires s.threads[t].mode.Into? ==> |s.threads[t].seen| >= s.threads[t].mode.size
    ensures Enabled(s, t, StoreSlot) && OwnAction(s.m, s.threads[t]) == StoreSlot
  {
    assert ThreadOk(s.m, t, s.threads[t]);
  }

  /** A solo copying pop in terms of the caller's code and bytes. */
  lemma SoloCopy(s: State, t: Tid, size: nat)
    requires Inv(s) && Quiet(s) && t in s.threads && s.m.tail < TWO_TO_THE_63
    ensures var r := MpmcQuiescence.Pop(s, t, Into(size)); var ret := r.threads[t].ret;
            && Quiet(r)
            && if size > s.m.sz then Code(ret) == -110 && r.m == s.m
               else if Queue(s.m) == [] then Code(ret) == -101 && r.m == s.m
               else
                 && ret.Popped? && Code(ret) == s.m.tail && Queue(r.m) == Queue(s.m)[1..]
                 && (size <= |Queue(s.m)[0]| ==> Bytes(ret.seen) == Queue(s.m)[0][..size])
                 && (|Queue(s.m)[0]| <= size ==> Queue(s.m)[0] <= Bytes(ret.seen))
  {
    hide Inv, MpmcQuiescence.Pop, ReadsFrom, InOrder;
    SoloPop(s, t, Into(size));
    InvShape(s);
    if size <= s.m.sz && Queue(s.m) != [] {
      CopyAgrees(MpmcQuiescence.Pop(s, t, Into(size)).threads[t].ret.seen, size, Queue(s.m)[0]);
    }
  }
}
