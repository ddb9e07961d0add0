/** Whole runs of the SPSC ring: FIFO refinement, which caches are safe, exact results, exact sizes. */
module SpscRuns {
  import opened Words
  import opened Cells
  import opened Operations
  import opened BoundedFifo
  import opened SpscProtocol

  ghost predicate CanRun(s: State, evs: seq<Event>)
    decreases |evs|
  {
    evs == [] || (Enabled(s, evs[0]) && CanRun(Step(s, evs[0]), evs[1..]))
  }

  ghost function Run(s: State, evs: seq<Event>): State
    requires CanRun(s, evs)
    decreases |evs|
  {
    if evs == [] then s else Run(Step(s, evs[0]), evs[1..])
  }

  // Refinement of the bounded queue

  /** The cells between the indices, oldest first: what the ring holds, read off its memory. */
  ghost function Queue(s: State): (q: seq<seq<Byte>>)
    requires WellFormed(s) && s.tail <= s.head
    ensures |q| == s.head - s.tail
    ensures forall i | 0 <= i < |q| :: q[i] == CellOf(s, s.tail + i)
  {
    seq(s.head - s.tail, i requires 0 <= i < s.head - s.tail => CellOf(s, s.tail + i))
  }

  /** A push takes effect at EndPush with the window's content, a pop at EndPop with what its cell held. */
  ghost function Effect(s: State, ev: Event): seq<Op<seq<Byte>>>
    requires Enabled(s, ev)
  {
    if ev.EndPush? then [Enqueue(CellOf(s, s.head))]
    else if ev.EndPop? then [Dequeue(CellOf(s, s.tail))]
    else []
  }

  ghost function Effects(s: State, evs: seq<Event>): seq<Op<seq<Byte>>>
    requires CanRun(s, evs)
    decreases |evs|
  {
    if evs == [] then [] else Effect(s, evs[0]) + Effects(Step(s, evs[0]), evs[1..])
  }

  lemma EndPushAppends(s: State)
    requires WellFormed(s) && s.tail <= s.head && Enabled(s, EndPush)
    ensures Queue(Step(s, EndPush)) == Queue(s) + [CellOf(s, s.head)]
  {
    hide And, Wrap;
  }

  lemma EndPopRemoves(s: State)
    requires WellFormed(s) && s.tail < s.head && Enabled(s, EndPop)
    ensures Queue(s)[0] == CellOf(s, s.tail) && Queue(Step(s, EndPop)) == Queue(s)[1..]
  {
    hide And, Wrap;
  }

  lemma OthersKeepQueue(s: State, ev: Event)
    requires Inv(s) && Enabled(s, ev) && !ev.EndPush? && !ev.EndPop?
    ensures Queue(Step(s, ev)) == Queue(s)
  {
    hide And, Wrap;
    if ev.WriteByte? {
      WindowsApart(s);
    }
  }

  lemma StepRefinesFifo(s: State, ev: Event)
    requires Inv(s) && Enabled(s, ev) && Inv(Step(s, ev))
    ensures AllowsAll(Queue(s), s.n, Effect(s, ev))
    ensures ApplyAll(Queue(s), s.n, Effect(s, ev)) == Queue(Step(s, ev))
  {
    hide And, Wrap, Step, Queue;
    if ev.EndPush? {
      EndPushAppends(s);
      Single(Queue(s), s.n, Enqueue(CellOf(s, s.head)));
    } else if ev.EndPop? {
      EndPopRemoves(s);
      Single(Queue(s), s.n, Dequeue(CellOf(s, s.tail)));
    } else {
      OthersKeepQueue(s, ev);
    }
  }

  /** From safe caches every run is a run of the bounded FIFO queue. */
  lemma {:induction false} RunRefinesFifo(s: State, evs: seq<Event>)
    requires Inv(s) && CanRun(s, evs)
    ensures Inv(Run(s, evs))
    ensures AllowsAll(Queue(s), s.n, Effects(s, evs))
    ensures ApplyAll(Queue(s), s.n, Effects(s, evs)) == Queue(Run(s, evs))
    ensures |Queue(Run(s, evs))| <= s.n
    decreases |evs|
  {
    if evs != [] {
      StepKeepsInv(s, evs[0]);
      StepRefinesFifo(s, evs[0]);
      RunRefinesFifo(Step(s, evs[0]), evs[1..]);
      Concatenate(Queue(s), s.n, Effect(s, evs[0]), Effects(Step(s, evs[0]), evs[1..]));
    }
  }

  /** From coherent caches the chain of indices and caches holds at every point of every run. */
  lemma {:induction false} RunKeepsCoherence(s: State, evs: seq<Event>)
    requires Inv(s) && CachesCoherent(s) && CanRun(s, evs)
    ensures CachesCoherent(Run(s, evs))
    decreases |evs|
  {
    if evs != [] {
      StepKeepsInv(s, evs[0]);
      StepKeepsCoherence(s, evs[0]);
      RunKeepsCoherence(Step(s, evs[0]), evs[1..]);
    }
  }

  /** A pop window shows the same cell from opening to closing, whatever the producer does meanwhile. */
  lemma {:induction false} WindowIsStable(s: State, evs: seq<Event>)
    requires Inv(s) && CanRun(s, evs) && s.consumer.Reading?
    requires forall i | 0 <= i < |evs| :: !evs[i].EndPop?
    ensures var r := Run(s, evs);
            r.consumer.Reading? && r.tail == s.tail && WellFormed(r) && CellOf(r, s.tail) == CellOf(s, s.tail)
    decreases |evs|
  {
    hide And, Wrap;
    if evs != [] {
      StepKeepsInv(s, evs[0]);
      if evs[0].WriteByte? {
        WindowsApart(s);
      }
      assert forall i | 0 <= i < |evs[1..]| :: evs[1..][i] == evs[i + 1];
      WindowIsStable(Step(s, evs[0]), evs[1..]);
    }
  }

  // What goes through the windows

  /** A cell after the stores a run makes through the push window, in order. */
  ghost function Written(cell: seq<Byte>, evs: seq<Event>): (c: seq<Byte>)
    ensures |c| == |cell|
    decreases |evs|
  {
    if evs == [] then cell
    else if evs[0].WriteByte? && evs[0].offset < |cell| then Written(cell[evs[0].offset := evs[0].b], evs[1..])
    else Written(cell, evs[1..])
  }

  lemma StepWritesWindow(s: State, ev: Event)
    requires Inv(s) && Enabled(s, ev) && s.producer.Writing? && !ev.EndPush?
    ensures var s' := Step(s, ev);
            && s'.producer.Writing? && s'.head == s.head && WellFormed(s')
            && CellOf(s', s.head) == Written(CellOf(s, s.head), [ev])
  {
    hide And, Wrap, Sub64, IsPow2;
    assert [ev][1..] == [];
  }

  /** Between Begin_push and End_push the window's cell holds just what the producer stores through it. */
  lemma {:induction false} PushWindowIsWritten(s: State, evs: seq<Event>)
    requires Inv(s) && CanRun(s, evs) && s.producer.Writing?
    requires forall i | 0 <= i < |evs| :: !evs[i].EndPush?
    ensures var r := Run(s, evs);
            && r.producer.Writing? && r.head == s.head && WellFormed(r)
            && CellOf(r, s.head) == Written(CellOf(s, s.head), evs)
    decreases |evs|
  {
    hide Step, Enabled, RingInv, SafeCaches;
    if evs != [] {
      StepWritesWindow(s, evs[0]);
      StepKeepsInv(s, evs[0]);
      assert [evs[0]][1..] == [];
      assert forall i | 0 <= i < |evs[1..]| :: evs[1..][i] == evs[i + 1];
      PushWindowIsWritten(Step(s, evs[0]), evs[1..]);
    } else {
      RingShape(s);
    }
  }

  ghost function OffsetBy(ev: Event): seq<nat> {
    if ev.ReadByte? then [ev.offset] else []
  }

  /** The offsets a run reads at through the pop window, in order. */
  ghost function OffsetsBy(evs: seq<Event>): seq<nat>
    decreases |evs|
  {
    if evs == [] then [] else OffsetBy(evs[0]) + OffsetsBy(evs[1..])
  }

  lemma StepReadsWindow(s: State, ev: Event)
    requires Inv(s) && Enabled(s, ev) && s.consumer.Reading? && !ev.EndPop?
    ensures var s', offset := Step(s, ev), OffsetBy(ev);
            && WellFormed(s) && WellFormed(s') && s'.sz == s.sz && InCell(offset, s.sz)
            && s'.tail == s.tail && CellOf(s', s.tail) == CellOf(s, s.tail)
            && s'.consumer == Reading(s.consumer.seen + ReadsOf(CellOf(s, s.tail), offset))
  {
    hide And, Wrap, Sub64, IsPow2;
    if ev.WriteByte? {
      WindowsApart(s);
    }
    if !ev.ReadByte? {
      assert s.consumer.seen + [] == s.consumer.seen;
    }
  }

  /** Between Begin_pop and End_pop the consumer sees just the bytes it loads, of the cell as it was at Begin_pop. */
  lemma {:induction false} PopWindowIsRead(s: State, evs: seq<Event>)
    requires Inv(s) && CanRun(s, evs) && s.consumer.Reading?
    requires forall i | 0 <= i < |evs| :: !evs[i].EndPop?
    ensures var r, offsets := Run(s, evs), OffsetsBy(evs);
            && WellFormed(s) && InCell(offsets, s.sz) && r.tail == s.tail
            && r.consumer == Reading(s.consumer.seen + ReadsOf(CellOf(s, s.tail), offsets))
    decreases |evs|
  {
    hide Step, Enabled, Inv, ReadsOf, InCell, WellFormed, OffsetBy;
    Opens(s);
    if evs == [] {
      ReadsInTwo(s.consumer.seen, CellOf(s, s.tail), [], []);
    } else {
      StepReadsWindow(s, evs[0]);
      StepKeepsInv(s, evs[0]);
      assert forall i | 0 <= i < |evs[1..]| :: evs[1..][i] == evs[i + 1];
      PopWindowIsRead(Step(s, evs[0]), evs[1..]);
      ReadsInTwo(s.consumer.seen, CellOf(s, s.tail), OffsetBy(evs[0]), OffsetsBy(evs[1..]));
    }
  }

  lemma Opens(s: State)
    requires Inv(s)
    ensures WellFormed(s)
  {
  }

  /** Closing a window returns its ticket and records what went through it. */
  lemma WindowsClose(s: State)
    requires Inv(s)
    ensures s.producer.Writing? ==>
              var r := Step(s, EndPush);
              && r.producer == Away(Pushed(s.head)) && r.head == s.head + 1
              && r.log == s.log + [CellOf(s, s.head)] && |s.log| == s.head
    ensures s.consumer.Reading? ==>
              var r := Step(s, EndPop);
              && r.consumer == Gone(Popped(s.tail, s.consumer.seen)) && r.tail == s.tail + 1
              && r.given == s.given + [s.consumer.seen] && |s.given| == s.tail
              && ReadsFrom(s.consumer.seen, s.log[s.tail])
  {
    hide And, Wrap, Sub64;
  }

  /** Every ticket popped so far was read from what had been pushed under it. */
  lemma PoppedWasPushed(s: State, evs: seq<Event>)
    requires Initial(s) && CanRun(s, evs)
    ensures var r := Run(s, evs);
            && |r.given| == r.tail <= r.head == |r.log|
            && forall k | 0 <= k < r.tail :: ReadsFrom(r.given[k], r.log[k])
  {
    InitialInv(s);
    RunRefinesFifo(s, evs);
  }

  // Which caches are safe

  /** An operation of two steps in front of a run, the second of which takes effect. */
  lemma TwoStepsFirst(s: State, a: Event, b: Event, rest: seq<Event>)
    requires Enabled(s, a) && Enabled(Step(s, a), b) && CanRun(Step(Step(s, a), b), rest)
    requires Effect(s, a) == []
    ensures CanRun(s, [a, b] + rest)
    ensures Effects(s, [a, b] + rest) == Effect(Step(s, a), b) + Effects(Step(Step(s, a), b), rest)
  {
    hide Step, Enabled, Effect;
    var evs := [a, b] + rest;
    assert evs[1..] == [b] + rest && evs[1..][1..] == rest;
    assert CanRun(Step(s, a), evs[1..]);
  }

  /** A history goes wrong when it starts with an operation the queue refuses, or goes wrong after it. */
  lemma FirstRefused(q: seq<seq<Byte>>, capacity: nat, op: Op<seq<Byte>>, ops: seq<Op<seq<Byte>>>)
    requires Allows(q, capacity, op) ==> !AllowsAll(Apply(q, capacity, op), capacity, ops)
    ensures !AllowsAll(q, capacity, [op] + ops)
  {
    assert ([op] + ops)[1..] == ops;
  }

  /** A pop that trusts its cache. */
  lemma BlindPop(s: State) returns (r: State)
    requires RingInv(s) && s.consumer.Gone? && Promised(s) > 0
    ensures Enabled(s, BeginPop) && Effect(s, BeginPop) == [] && Enabled(Step(s, BeginPop), EndPop)
    ensures r == Step(Step(s, BeginPop), EndPop)
    ensures Effect(Step(s, BeginPop), EndPop) == [Dequeue(CellOf(s, s.tail))]
    ensures s.tail < s.head ==>
              RingInv(r) && r.n == s.n && Queue(r) == Queue(s)[1..] && Queue(s)[0] == CellOf(s, s.tail)
    ensures r.consumer.Gone? && r.head == s.head && r.tail == s.tail + 1 && Promised(r) == Promised(s) - 1
  {
    hide And, Wrap, Sub64;
    DistanceZero(s.localHead, s.tail);
    DistanceShrinks(s.localHead, s.tail);
    r := Step(Step(s, BeginPop), EndPop);
  }

  /** A push that trusts its cache. */
  lemma BlindPush(s: State) returns (r: State)
    requires RingInv(s) && s.producer.Away? && Shown(s) < s.n
    ensures Enabled(s, BeginPush) && Effect(s, BeginPush) == [] && Enabled(Step(s, BeginPush), EndPush)
    ensures r == Step(Step(s, BeginPush), EndPush)
    ensures Effect(Step(s, BeginPush), EndPush) == [Enqueue(CellOf(s, s.head))]
    ensures s.head < s.tail + s.n ==> RingInv(r) && r.n == s.n && Queue(r) == Queue(s) + [CellOf(s, s.head)]
    ensures r.producer.Away? && r.head == s.head + 1 && r.tail == s.tail && Shown(r) == Shown(s) + 1
  {
    hide And, Wrap, Sub64;
    DistanceGrows(s.head, s.localTail);
    r := Step(Step(s, BeginPush), EndPush);
  }

  /** A consumer promised more than there is pops everything, and then an object that was never pushed. */
  lemma {:induction false} PromisedTooMuch(s: State) returns (evs: seq<Event>)
    requires RingInv(s) && s.consumer.Gone? && Promised(s) > s.head - s.tail
    ensures CanRun(s, evs) && !AllowsAll(Queue(s), s.n, Effects(s, evs))
    decreases s.head - s.tail
  {
    hide And, Promised, Step, Enabled, Effect, AllowsAll;
    var r := BlindPop(s);
    var rest := [];
    if s.tail < s.head {
      rest := PromisedTooMuch(r);
    }
    TwoStepsFirst(s, BeginPop, EndPop, rest);
    evs := [BeginPop, EndPop] + rest;
    FirstRefused(Queue(s), s.n, Dequeue(CellOf(s, s.tail)), Effects(r, rest));
  }

  /** A producer shown less than there is fills the ring, and then pushes into the full ring. */
  lemma {:induction false} ShownTooLittle(s: State) returns (evs: seq<Event>)
    requires RingInv(s) && s.producer.Away? && Shown(s) < s.head - s.tail
    ensures CanRun(s, evs) && !AllowsAll(Queue(s), s.n, Effects(s, evs))
    decreases s.tail + s.n - s.head
  {
    hide And, Shown, Step, Enabled, Effect, AllowsAll;
    var r := BlindPush(s);
    var rest := [];
    if s.head < s.tail + s.n {
      rest := ShownTooLittle(r);
    }
    TwoStepsFirst(s, BeginPush, EndPush, rest);
    evs := [BeginPush, EndPush] + rest;
    FirstRefused(Queue(s), s.n, Enqueue(CellOf(s, s.head)), Effects(r, rest));
  }

  /**
   * Between operations, whatever words the two caches hold, every further run is a run of the bounded
   * queue exactly when the consumer is promised no more, and the producer shown no less, than there is.
   */
  lemma SafeExactly(s: State)
    requires RingInv(s) && s.producer.Away? && s.consumer.Gone?
    ensures (forall evs | CanRun(s, evs) :: AllowsAll(Queue(s), s.n, Effects(s, evs))) <==> SafeCaches(s)
  {
    hide RingInv;
    RingShape(s);
    if SafeCaches(s) {
      forall evs | CanRun(s, evs)
        ensures AllowsAll(Queue(s), s.n, Effects(s, evs))
      {
        RunRefinesFifo(s, evs);
      }
    } else if Promised(s) > s.head - s.tail {
      var evs := PromisedTooMuch(s);
    } else {
      var evs := ShownTooLittle(s);
    }
  }

  lemma RingShape(s: State)
    requires RingInv(s)
    ensures WellFormed(s) && s.tail <= s.head <= s.tail + s.n && s.n < TWO_TO_THE_64
  {
  }

  /** Read as tickets, the unsafe caches are a head not yet reached or already passed, and a tail not yet reached. */
  lemma SafeAsTickets(s: State)
    requires RingInv(s)
    requires s.localHead < s.tail + TWO_TO_THE_64 && s.head < s.localHead + TWO_TO_THE_64
    requires s.localTail < s.tail + TWO_TO_THE_64 && s.head < s.localTail + TWO_TO_THE_64
    ensures Promised(s) > s.head - s.tail <==> s.localHead < s.tail || s.head < s.localHead
    ensures Shown(s) < s.head - s.tail <==> s.tail < s.localTail <= s.head
  {
    hide Wrap, Sub64;
    if s.localHead < s.tail { DistanceBelow(s.localHead, s.tail); } else { DistanceOfWrapped(s.localHead, s.tail); }
    if s.head < s.localTail { DistanceBelow(s.head, s.localTail); } else { DistanceOfWrapped(s.head, s.localTail); }
  }

  /** On a fresh ring the producer's cache may hold anything, and the consumer's must be the word zero. */
  lemma FreshRingIsSafe(s: State, localHead: SizeT, localTail: SizeT)
    requires Initial(s)
    ensures var started := s.(localHead := localHead, localTail := localTail);
            (forall evs | CanRun(started, evs) :: AllowsAll([], s.n, Effects(started, evs))) <==> localHead == 0
  {
    var started := s.(localHead := localHead, localTail := localTail);
    SafeExactly(started);
    WrapIsIdentity(localHead);
  }

  // Honest results

  /** What a refreshing load leads to, whatever permitted value it returns. */
  lemma RefreshDecides(s: State, v: nat)
    requires Inv(s)
    ensures s.producer.NeedsTail? && s.head - s.n <= v <= s.tail ==>
              && Enabled(s, LoadTail(v))
              && Step(s, LoadTail(v)) ==
                   s.(localTail := v, producer := if s.head == v + s.n then Away(Full) else Writing)
    ensures s.consumer.NeedsHead? && s.tail <= v <= s.head ==>
              && Enabled(s, LoadHead(v))
              && Step(s, LoadHead(v)) ==
                   s.(localHead := v, consumer := if v == s.tail then Gone(Empty) else Reading([]))
  {
    hide And, Wrap, Sub64;
    if s.head - s.n <= v <= s.tail { DistanceOfWrapped(s.head, v); }
    if s.tail <= v <= s.head { WrappedEqual(v, s.tail); }
  }

  /** A push is refused exactly when the ring is full at the refreshing load. */
  lemma FullIsExact(s: State)
    requires Inv(s) && (s.producer.Away? || s.producer.NeedsTail?)
    ensures s.producer.NeedsTail? ==>
              (Step(s, LoadTail(s.tail)).producer == Away(Full) <==> |Queue(s)| == s.n)
    ensures s.producer.Away? && Step(s, BeginPush).producer.Writing? ==> |Queue(s)| < s.n
  {
    DistanceOfWrapped(s.head, s.tail);
  }

  /** A pop is refused exactly when the ring is empty at the refreshing load. */
  lemma EmptyIsExact(s: State)
    requires Inv(s) && (s.consumer.Gone? || s.consumer.NeedsHead?)
    ensures s.consumer.NeedsHead? ==>
              (Step(s, LoadHead(s.head)).consumer == Gone(Empty) <==> Queue(s) == [])
    ensures s.consumer.Gone? && Step(s, BeginPop).consumer.Reading? ==> Queue(s) != []
  {
    WrappedEqual(s.head, s.tail);
    DistanceZero(s.localHead, s.tail);
  }

  // Sizes

  lemma {:induction false} OwnIndexIsStill(s: State, evs: seq<Event>, producer: bool)
    requires CanRun(s, evs) && forall i | 0 <= i < |evs| :: ByProducer(evs[i]) != producer
    ensures if producer then Run(s, evs).head == s.head else Run(s, evs).tail == s.tail
    decreases |evs|
  {
    if evs != [] {
      assert forall i | 0 <= i < |evs[1..]| :: evs[1..][i] == evs[i + 1];
      OwnIndexIsStill(Step(s, evs[0]), evs[1..], producer);
    }
  }

  /**
   * Size called on either thread: head_ is loaded in s and tail_ after any steps of the other side,
   * and the difference is the exact occupancy at one of the two loads, hence between 0 and n.
   */
  lemma SizeIsSnapshot(s: State, evs: seq<Event>, producer: bool)
    requires Inv(s) && CanRun(s, evs) && (forall i | 0 <= i < |evs| :: ByProducer(evs[i]) != producer)
    ensures Inv(Run(s, evs))
    ensures Sub64(Wrap(s.head), Wrap(Run(s, evs).tail)) == |Queue(if producer then Run(s, evs) else s)| <= s.n
  {
    hide Wrap, Sub64;
    var r := Run(s, evs);
    RunRefinesFifo(s, evs);
    OwnIndexIsStill(s, evs, producer);
    DistanceOfWrapped(s.head, r.tail);
  }
}
