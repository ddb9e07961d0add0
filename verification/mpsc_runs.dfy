/** Whole runs of the MPSC ring: FIFO refinement, honest results, the advisory cache, exact sizes. */
module MpscRuns {
  import opened Words
  import opened Cells
  import opened Operations
  import opened Layout
  import opened BoundedFifo
  import opened MpscProtocol
  import opened MpscInvariant

  ghost predicate CanRun(s: State, evs: seq<Event>)
    decreases |evs|
  {
    evs == [] || (Enabled(s, evs[0]) && CanRun(Step(s, evs[0]), evs[1..]))
  }

  ghost function Run(s: State, evs: seq<Event>): State
    requires CanRun(s, evs)
    decreases |evs|
  {
    if evs == [] then s else Run(Step(s, evs[0]), evs[1..])
  }

  /** The results handed to callers during a run, in order. */
  ghost function Returns(s: State, evs: seq<Event>): seq<Ret>
    requires CanRun(s, evs)
    decreases |evs|
  {
    if evs == [] then [] else
      Returned(evs[0], Step(s, evs[0])) + Returns(Step(s, evs[0]), evs[1..])
  }

  /** What the event that led to s returned, if it ended an operation. */
  ghost function Returned(ev: Event, s: State): seq<Ret> {
    match ev
    case ByProducer(t, _) => if t in s.producers && s.producers[t].Idle? then [s.producers[t].ret] else []
    case ByConsumer(_) => if s.consumer.Rest? then [s.consumer.ret] else []
  }

  lemma OneStep(s: State, ev: Event)
    requires Enabled(s, ev)
    ensures CanRun(s, [ev]) && Run(s, [ev]) == Step(s, ev) && Returns(s, [ev]) == Returned(ev, Step(s, ev))
  {
    hide Enabled, Step, Returned;
    assert [ev][1..] == [];
  }

  /** Two runs in a row are one run. */
  lemma {:induction false} RunInTwo(s: State, a: seq<Event>, b: seq<Event>)
    requires CanRun(s, a) && CanRun(Run(s, a), b)
    ensures CanRun(s, a + b) && Run(s, a + b) == Run(Run(s, a), b)
    ensures Returns(s, a + b) == Returns(s, a) + Returns(Run(s, a), b)
    decreases |a|
  {
    hide Enabled, Step, Returned;
    if a == [] {
      assert a + b == b;
    } else {
      assert (a + b)[1..] == a[1..] + b;
      RunInTwo(Step(s, a[0]), a[1..], b);
    }
  }

  /** One more step at the end of a run. */
  lemma Extend(s: State, evs: seq<Event>, r: State, ev: Event) returns (longer: seq<Event>, next: State)
    requires CanRun(s, evs) && Run(s, evs) == r && Enabled(r, ev)
    ensures CanRun(s, longer) && Run(s, longer) == next == Step(r, ev)
  {
    hide Enabled, Step, Returned, Run, CanRun;
    OneStep(r, ev);
    RunInTwo(s, evs, [ev]);
    longer, next := evs + [ev], Step(r, ev);
  }

  lemma InvShape(s: State)
    requires Inv(s)
    ensures Shape(s.m)
  {
  }

  // Refinement of the bounded queue

  ghost function Queue(m: Ring): seq<seq<Byte>>
    requires Shape(m)
  {
    Objects(m.log)[m.tail..]
  }

  /** A push takes effect at its CAS on head_, a pop at its store to tail_. */
  ghost function Effect(s: State, ev: Event): seq<Op<seq<Byte>>>
    requires Enabled(s, ev)
  {
    match ev
    case ByProducer(t, p) =>
      if p.CasHead? && s.m.head == s.producers[t].e then [Enqueue(s.producers[t].obj)] else []
    case ByConsumer(c) =>
      if c.StoreTail? && s.consumer.e < |s.m.log| then [Dequeue(s.m.log[s.consumer.e].obj)] else []
  }

  ghost function Effects(s: State, evs: seq<Event>): seq<Op<seq<Byte>>>
    requires CanRun(s, evs)
    decreases |evs|
  {
    if evs == [] then [] else Effect(s, evs[0]) + Effects(Step(s, evs[0]), evs[1..])
  }

  lemma ClaimAppends(s: State, t: Tid)
    requires Inv(s) && t in s.producers && s.producers[t].Admitted? && s.m.head == s.producers[t].e
    requires Inv(Step(s, ByProducer(t, CasHead)))
    ensures |Queue(s.m)| < s.m.n
    ensures Queue(Step(s, ByProducer(t, CasHead)).m) == Queue(s.m) + [s.producers[t].obj]
  {
    hide And;
    ClaimFindsRoom(s, t);
  }

  lemma TailRemoves(s: State)
    requires Inv(s) && s.consumer.Advancing? && Inv(Step(s, ByConsumer(StoreTail)))
    ensures s.consumer.e < |s.m.log| && Queue(s.m) != [] && Queue(s.m)[0] == s.m.log[s.consumer.e].obj
    ensures Queue(Step(s, ByConsumer(StoreTail)).m) == Queue(s.m)[1..]
  {
    hide And;
  }

  lemma OthersKeepQueue(s: State, ev: Event)
    requires Inv(s) && Enabled(s, ev) && Effect(s, ev) == [] && Inv(Step(s, ev))
    ensures Queue(Step(s, ev).m) == Queue(s.m)
  {
    hide And;
  }

  lemma StepRefinesFifo(s: State, ev: Event)
    requires Inv(s) && Enabled(s, ev) && Inv(Step(s, ev))
    ensures AllowsAll(Queue(s.m), s.m.n, Effect(s, ev))
    ensures ApplyAll(Queue(s.m), s.m.n, Effect(s, ev)) == Queue(Step(s, ev).m)
  {
    hide And, Inv, Step, Queue;
    InvShape(s);
    InvShape(Step(s, ev));
    if Effect(s, ev) == [] {
      OthersKeepQueue(s, ev);
    } else if ev.ByProducer? {
      ClaimAppends(s, ev.t);
      Single(Queue(s.m), s.m.n, Enqueue(s.producers[ev.t].obj));
    } else {
      TailRemoves(s);
      Single(Queue(s.m), s.m.n, Dequeue(s.m.log[s.consumer.e].obj));
    }
  }

  /** Every run, from any cached head, is a run of the bounded FIFO queue. */
  lemma {:induction false} RunRefinesFifo(s: State, evs: seq<Event>)
    requires Inv(s) && CanRun(s, evs)
    ensures Inv(Run(s, evs))
    ensures AllowsAll(Queue(s.m), s.m.n, Effects(s, evs))
    ensures ApplyAll(Queue(s.m), s.m.n, Effects(s, evs)) == Queue(Run(s, evs).m)
    ensures |Queue(Run(s, evs).m)| <= s.m.n
    decreases |evs|
  {
    if evs != [] {
      StepKeepsInv(s, evs[0]);
      StepRefinesFifo(s, evs[0]);
      RunRefinesFifo(Step(s, evs[0]), evs[1..]);
      Concatenate(Queue(s.m), s.m.n, Effect(s, evs[0]), Effects(Step(s, evs[0]), evs[1..]));
    }
  }

  /** What a pop hands back when it dequeues: bytes of the front object, with its ticket. */
  lemma PopReturnsFront(s: State)
    requires Inv(s) && Enabled(s, ByConsumer(StoreTail))
    ensures var res := s.consumer.res;
            && Step(s, ByConsumer(StoreTail)).consumer == Rest(res)
            && res.Popped? && res.ticket == s.m.tail
            && Queue(s.m) != [] && ReadsFrom(res.seen, Queue(s.m)[0])
  {
  }

  /** The flag of a pending ticket says whether its producer has published it. */
  lemma FlagsTellPublication(s: State, k: nat)
    requires Inv(s) && s.m.tail <= k < s.m.head && !Retires(s.consumer, k)
    ensures FlagOf(s.m, k) == SLOT_EMPTY || FlagOf(s.m, k) == SLOT_VALID
    ensures FlagOf(s.m, k) == SLOT_EMPTY <==>
              exists t | t in s.producers :: s.producers[t].Copying? && s.producers[t].e == k
  {
    hide And;
    if FlagOf(s.m, k) == SLOT_EMPTY {
      assert Writes(s.producers, s.m.log[k].who, k);
    }
    forall t | t in s.producers && s.producers[t].Copying? && s.producers[t].e == k
      ensures FlagOf(s.m, k) == SLOT_EMPTY
    {
      assert ProducerOk(s.m, s.consumer, t, s.producers[t]);
    }
  }

  /** While a pop reads the front cell, by copy or by callback, no interleaving changes that cell. */
  lemma {:induction false} HeldCellIsStable(s: State, evs: seq<Event>)
    requires Inv(s) && CanRun(s, evs) && s.consumer.Reading?
    requires forall i | 0 <= i < |evs| && evs[i].ByConsumer? :: evs[i].c.ReadByte?
    ensures var r := Run(s, evs);
            && WellFormed(r.m) && r.consumer.Reading? && r.consumer.e == s.consumer.e
            && CellOf(r.m, s.consumer.e) == CellOf(s.m, s.consumer.e)
    decreases |evs|
  {
    hide And;
    if evs != [] {
      var s' := Step(s, evs[0]);
      StepKeepsInv(s, evs[0]);
      if evs[0].ByProducer? && evs[0].p.WriteByte? {
        assert ProducerOk(s.m, s.consumer, evs[0].t, s.producers[evs[0].t]);
      }
      assert forall i | 0 <= i < |evs[1..]| :: evs[1..][i] == evs[i + 1];
      HeldCellIsStable(s', evs[1..]);
    }
  }

  // Honest results of a push

  /**
   * What FULL means, for any value v a possibly stale load of tail_ may return. While head_ is where it
   * was loaded, FULL says that the queue and the pops the load has missed fill the ring, so a full ring
   * is never admitted. After other pushes it says that tail_ has overtaken the loaded head, so that the
   * difference wraps, or that the load has missed enough pops. On a current load it says that the ring
   * is exactly full and head_ unmoved, or that tail_ has overtaken.
   */
  lemma FullMeans(s: State, t: Tid, v: nat)
    requires Inv(s) && t in s.producers && s.producers[t].HeadLoaded? && v <= s.m.tail
    ensures var m, e := s.m, s.producers[t].e;
            var full := Step(s, ByProducer(t, LoadTail(v))).producers[t] == Idle(Full);
            && (m.head == e ==> (full <==> |Queue(m)| + (m.tail - v) >= m.n))
            && (m.head > e ==> (full <==> v > e || (e - m.tail) + (m.tail - v) >= m.n))
            && (v == m.tail ==> (full <==> (m.head == e && |Queue(m)| == m.n) || m.tail > e))
  {
    assert ProducerOk(s.m, s.consumer, t, s.producers[t]);
  }

  /** A fresh ring of two one-byte cells. */
  const FRESH: State :=
    State(Ring(2, 1, 0, 0, [SLOT_EMPTY, SLOT_EMPTY], [[0], [0]], [], []),
          map[0 := Idle(None), 1 := Idle(None)], Rest(None), 0)

  /** Producer 0 has loaded head_; before it loads tail_, producer 1 has pushed an object ... */
  const PUSHED_ONE: State :=
    State(Ring(2, 1, 1, 0, [SLOT_VALID, SLOT_EMPTY], [[0], [0]], [Entry([], 1)], []),
          map[0 := HeadLoaded([9], 0, 0), 1 := Idle(Pushed(0))], Rest(None), 0)

  /** ... and the consumer has popped it. */
  const POPPED_ONE: State :=
    State(Ring(2, 1, 1, 1, [SLOT_EMPTY, SLOT_EMPTY], [[0], [0]], [Entry([], 1)], [[]]),
          map[0 := HeadLoaded([9], 0, 0), 1 := Idle(Pushed(0))], Rest(Popped(0, [])), 1)

  lemma RunNothing(s: State)
    ensures CanRun(s, []) && Run(s, []) == s
  {
  }

  lemma OnePush() returns (evs: seq<Event>)
    ensures CanRun(FRESH, evs) && Run(FRESH, evs) == PUSHED_ONE
  {
    hide Run, CanRun, And;
    IdxSmall(0, 2);
    RunNothing(FRESH);
    var s := FRESH;
    evs := [];
    evs, s := Extend(FRESH, evs, s, ByProducer(0, Begin([9])));
    evs, s := Extend(FRESH, evs, s, ByProducer(0, LoadHead(0)));
    evs, s := Extend(FRESH, evs, s, ByProducer(1, Begin([])));
    evs, s := Extend(FRESH, evs, s, ByProducer(1, LoadHead(0)));
    evs, s := Extend(FRESH, evs, s, ByProducer(1, LoadTail(0)));
    evs, s := Extend(FRESH, evs, s, ByProducer(1, CasHead));
    evs, s := Extend(FRESH, evs, s, ByProducer(1, SetValid));
  }

  lemma OnePop() returns (evs: seq<Event>)
    ensures CanRun(PUSHED_ONE, evs) && Run(PUSHED_ONE, evs) == POPPED_ONE
  {
    hide Run, CanRun, And;
    IdxSmall(0, 2);
    FlagTests(SLOT_VALID);
    RunNothing(PUSHED_ONE);
    var s := PUSHED_ONE;
    evs := [];
    evs, s := Extend(PUSHED_ONE, evs, s, ByConsumer(BeginPop(Callback)));
    evs, s := Extend(PUSHED_ONE, evs, s, ByConsumer(LoadOwnTail));
    evs, s := Extend(PUSHED_ONE, evs, s, ByConsumer(ReloadHead(1)));
    evs, s := Extend(PUSHED_ONE, evs, s, ByConsumer(LoadFlag));
    evs, s := Extend(PUSHED_ONE, evs, s, ByConsumer(Finish));
    evs, s := Extend(PUSHED_ONE, evs, s, ByConsumer(Clear));
    evs, s := Extend(PUSHED_ONE, evs, s, ByConsumer(StoreTail));
  }

  /** So FULL can be wrong about room: at the end of this run it is reported on an empty ring. */
  lemma FullDespiteRoom() returns (evs: seq<Event>)
    ensures Initial(FRESH) && CanRun(FRESH, evs)
    ensures var r := Run(FRESH, evs);
            && Inv(r) && Queue(r.m) == []
            && Enabled(r, ByProducer(0, LoadTail(r.m.tail)))
            && Step(r, ByProducer(0, LoadTail(r.m.tail))).producers[0] == Idle(Full)
  {
    hide Run, CanRun, And, Inv, IsPow2;
    FreshIsInitial();
    InitialInv(FRESH);
    evs := OnePush();
    var rest := OnePop();
    RunInTwo(FRESH, evs, rest);
    evs := evs + rest;
    RunRefinesFifo(FRESH, evs);
    InvShape(POPPED_ONE);
  }

  lemma FreshIsInitial()
    ensures Initial(FRESH)
  {
  }

  /** CONTENTION after a current load of head_ means another producer won that ticket. */
  lemma ContentionMeansLost(s: State, t: Tid)
    requires Inv(s) && t in s.producers && s.producers[t].Admitted? && s.producers[t].at == s.producers[t].e
    requires Step(s, ByProducer(t, CasHead)).producers[t] == Idle(Contention)
    ensures s.producers[t].e < s.m.head && s.m.log[s.producers[t].e].who != t
  {
    assert ProducerOk(s.m, s.consumer, t, s.producers[t]);
  }

  // Honest results of a pop

  /**
   * What EMPTY means, for any cached head: on a current reload it is reported exactly on an empty queue,
   * and on an empty queue it is reported whatever the reload returns.
   */
  lemma EmptyMeans(s: State, v: nat)
    requires Inv(s) && s.consumer.Reloading? && Enabled(s, ByConsumer(ReloadHead(v)))
    ensures var empty := Step(s, ByConsumer(ReloadHead(v))).consumer == Rest(Empty);
            && (v == s.m.head ==> (empty <==> Queue(s.m) == []))
            && (Queue(s.m) == [] ==> empty)
  {
    hide And;
  }

  /**
   * What SLOT_WRITING_DATA means, for any cached head: at that load the front ticket does not exist or is
   * not published yet; otherwise the pop goes on to read the front object.
   */
  lemma WritingMeans(s: State)
    requires Inv(s) && s.consumer.Probing?
    ensures var next := Step(s, ByConsumer(LoadFlag)).consumer;
            && (next == Rest(SlotWritingData) <==> !FrontReady(s.m, s.m.tail))
            && (FrontReady(s.m, s.m.tail) ==> next == Reading(s.consumer.mode, s.m.tail, []))
  {
    hide And;
    FlagTests(FlagOf(s.m, s.m.tail));
    assert s.m.tail == s.m.head ==> FlagOf(s.m, s.m.head) == SLOT_EMPTY;
  }

  /** SLOT_STAT_UNKNOWN is never returned in any run. */
  lemma {:induction false} UnknownIsNeverReturned(s: State, evs: seq<Event>)
    requires Inv(s) && CanRun(s, evs)
    ensures SlotStatUnknown !in Returns(s, evs)
    decreases |evs|
  {
    hide And;
    if evs != [] {
      StepKeepsInv(s, evs[0]);
      UnknownIsNeverReturned(Step(s, evs[0]), evs[1..]);
    }
  }

  // The consumer on its own

  ghost function Size(mode: PopMode): nat {
    if mode.Into? then mode.size else 0
  }

  ghost function Remaining(pc: Consumer): nat {
    match pc
    case Rest(_) => 0
    case Begun(mode) => Size(mode) + 6
    case Reloading(mode, _) => Size(mode) + 5
    case Probing(mode, _) => Size(mode) + 4
    case Reading(mode, _, seen) => if |seen| <= Size(mode) then Size(mode) - |seen| + 3 else 3
    case Clearing(_, _) => 2
    case Advancing(_, _) => 1
  }

  /** The consumer's next step; a callback returns at once. */
  ghost function OwnAction(m: Ring, pc: Consumer): Pop
    requires !pc.Rest?
  {
    match pc
    case Begun(_) => LoadOwnTail
    case Reloading(_, _) => ReloadHead(m.head)
    case Probing(_, _) => LoadFlag
    case Reading(mode, _, seen) => if |seen| < Size(mode) then ReadByte(|seen|) else Finish
    case Clearing(_, _) => Clear
    case Advancing(_, _) => StoreTail
  }

  lemma OwnStepAdvances(s: State)
    requires Inv(s) && !s.consumer.Rest?
    ensures var c := OwnAction(s.m, s.consumer);
            && Enabled(s, ByConsumer(c))
            && Inv(Step(s, ByConsumer(c)))
            && Remaining(Step(s, ByConsumer(c)).consumer) < Remaining(s.consumer)
  {
    hide And;
    StepKeepsInv(s, ByConsumer(OwnAction(s.m, s.consumer)));
  }

  /** The state in which the consumer's operation returns if nobody interferes. */
  ghost function RunAlone(s: State): (r: State)
    requires Inv(s)
    ensures Inv(r) && r.consumer.Rest? && r.producers == s.producers
    decreases Remaining(s.consumer)
  {
    if s.consumer.Rest? then s else
      OwnStepAdvances(s);
      RunAlone(Step(s, ByConsumer(OwnAction(s.m, s.consumer))))
  }

  ghost function PopAlone(s: State, mode: PopMode): (r: State)
    requires Inv(s) && s.consumer.Rest?
    ensures Inv(r) && r.consumer.Rest? && r.producers == s.producers
  {
    StepKeepsInv(s, ByConsumer(BeginPop(mode)));
    RunAlone(Step(s, ByConsumer(BeginPop(mode))))
  }

  lemma AloneStep(s: State) returns (s': State)
    requires Inv(s) && !s.consumer.Rest?
    ensures Enabled(s, ByConsumer(OwnAction(s.m, s.consumer)))
    ensures s' == Step(s, ByConsumer(OwnAction(s.m, s.consumer)))
    ensures Inv(s') && RunAlone(s) == RunAlone(s')
  {
    OwnStepAdvances(s);
    s' := Step(s, ByConsumer(OwnAction(s.m, s.consumer)));
  }

  /** A full copy of the first `size` bytes of a cell. */
  ghost function CopyOf(cell: seq<Byte>, size: nat): (seen: seq<Read>)
    requires size <= |cell|
    ensures |seen| == size
    ensures forall i | 0 <= i < size :: seen[i] == Read(i, cell[i])
  {
    seq(size, i requires 0 <= i < size => Read(i, cell[i]))
  }

  /** The ring after the front has been popped with the reads `seen`. */
  ghost function Retired(m: Ring, seen: seq<Read>): Ring
    requires WellFormed(m)
  {
    m.(tail := m.tail + 1, flag := m.flag[Idx(m.tail, m.n) := SLOT_EMPTY], given := m.given + [seen])
  }

  lemma {:induction false} AloneFromReading(s: State)
    requires Inv(s) && s.consumer.Reading?
    requires s.consumer.mode.Callback? ==> s.consumer.seen == []
    ensures Size(s.consumer.mode) <= s.m.sz
    ensures var seen := CopyOf(CellOf(s.m, s.m.tail), Size(s.consumer.mode));
            && RunAlone(s).m == Retired(s.m, seen)
            && RunAlone(s).consumer == Rest(Popped(s.m.tail, seen))
    decreases Remaining(s.consumer)
  {
    hide And;
    var s1 := AloneStep(s);
    if s1.consumer.Reading? {
      AloneFromReading(s1);
    } else {
      assert s.consumer.seen == CopyOf(CellOf(s.m, s.m.tail), Size(s.consumer.mode));
      var s2 := AloneStep(s1);
      var s3 := AloneStep(s2);
    }
  }

  /** What a probe of the front cell leads to. */
  lemma AloneFromProbing(s: State)
    requires Inv(s) && s.consumer.Probing?
    ensures Size(s.consumer.mode) <= s.m.sz
    ensures if FrontReady(s.m, s.m.tail)
            then var seen := CopyOf(CellOf(s.m, s.m.tail), Size(s.consumer.mode));
                 RunAlone(s).m == Retired(s.m, seen) && RunAlone(s).consumer == Rest(Popped(s.m.tail, seen))
            else RunAlone(s).m == s.m && RunAlone(s).consumer == Rest(SlotWritingData)
  {
    hide And;
    FlagTests(FlagOf(s.m, s.m.tail));
    assert s.m.tail == s.m.head ==> FlagOf(s.m, s.m.head) == SLOT_EMPTY;
    var s1 := AloneStep(s);
    if FrontReady(s.m, s.m.tail) {
      AloneFromReading(s1);
    }
  }

  /** The exact outcome of a pop without interference, for every value of the cached head. */
  lemma PopOutcome(s: State, mode: PopMode)
    requires Inv(s) && s.consumer.Rest?
    ensures var r := PopAlone(s, mode);
            if !ModeFits(mode, s.m.sz) then r.m == s.m && r.consumer == Rest(PopSizeTooLarge)
            else if FrontReady(s.m, s.m.tail) then
              var seen := CopyOf(CellOf(s.m, s.m.tail), Size(mode));
              r.m == Retired(s.m, seen) && r.consumer == Rest(Popped(s.m.tail, seen))
            else
              r.m == s.m && r.consumer == Rest(if s.localHead == s.m.tail == s.m.head then Empty else SlotWritingData)
  {
    hide And;
    var s0 := Step(s, ByConsumer(BeginPop(mode)));
    StepKeepsInv(s, ByConsumer(BeginPop(mode)));
    if ModeFits(mode, s.m.sz) {
      var s1 := AloneStep(s0);
      if s1.consumer.Reloading? {
        var s2 := AloneStep(s1);
        if s2.consumer.Probing? {
          AloneFromProbing(s2);
        }
      } else {
        AloneFromProbing(s1);
      }
    }
  }

  // Sizes

  lemma {:induction false} TailIsStill(s: State, evs: seq<Event>)
    requires CanRun(s, evs) && forall i | 0 <= i < |evs| :: evs[i].ByProducer?
    ensures Run(s, evs).m.tail == s.m.tail
    decreases |evs|
  {
    if evs != [] {
      assert forall i | 0 <= i < |evs[1..]| :: evs[1..][i] == evs[i + 1];
      TailIsStill(Step(s, evs[0]), evs[1..]);
    }
  }

  /**
   * Size and Is_full called on the consumer's thread: head_ loaded in s, tail_ loaded any number of
   * producer steps later, yet the difference is the exact occupancy at the first load.
   */
  lemma SizeIsSnapshot(s: State, evs: seq<Event>)
    requires Inv(s) && CanRun(s, evs) && (forall i | 0 <= i < |evs| :: evs[i].ByProducer?)
    requires s.m.n < TWO_TO_THE_64
    ensures var size := Sub64(Wrap(s.m.head), Wrap(Run(s, evs).m.tail));
            && size == |Queue(s.m)| <= s.m.n
            && (size >= s.m.n <==> |Queue(s.m)| == s.m.n)
  {
    TailIsStill(s, evs);
    DistanceOfWrapped(s.m.head, s.m.tail);
  }
}
