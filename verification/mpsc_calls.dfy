/**
 * How MPSC operations decide, and what one call does under any interleaving: it keeps its argument, takes
 * effect at most once, and its result says whether it did and with which ticket.
 */
module MpscCalls {
  import opened Words
  import opened Cells
  import opened Operations
  import opened Layout
  import opened MpscProtocol
  import opened MpscInvariant
  import opened MpscRuns

  // Decisions, one by one

  /** The loads of a push, current or stale: the head value is handed on, and the tail value admits or refuses. */
  lemma PushLoadsDecide(s: State, t: Tid, v: nat)
    requires Inv(s) && t in s.producers
    ensures var pc := s.producers[t];
            && (pc.Start? && v <= s.m.head ==>
                  && Enabled(s, ByProducer(t, LoadHead(v)))
                  && Step(s, ByProducer(t, LoadHead(v))) ==
                       s.(producers := s.producers[t := HeadLoaded(pc.obj, v, s.m.head)]))
            && (pc.HeadLoaded? && v <= s.m.tail ==>
                  && Enabled(s, ByProducer(t, LoadTail(v)))
                  && Step(s, ByProducer(t, LoadTail(v))) == s.(producers := s.producers[t :=
                       if v <= pc.e < v + s.m.n then Admitted(pc.obj, pc.e, pc.at) else Idle(Full)]))
  {
    hide And;
  }

  /** The compare-and-swap: CONTENTION exactly when head_ has moved, and else the thread owns its ticket. */
  lemma CasDecides(s: State, t: Tid)
    requires Inv(s) && Enabled(s, ByProducer(t, CasHead))
    ensures var pc, s' := s.producers[t], Step(s, ByProducer(t, CasHead));
            && (s'.producers[t] == Idle(Contention) <==> s.m.head != pc.e)
            && (s.m.head != pc.e ==> s'.m == s.m)
            && (s.m.head == pc.e ==>
                  && s'.producers[t] == Copying(pc.obj, pc.e, 0) && s'.m.head == pc.e + 1
                  && s'.m.log == s.m.log + [Entry(pc.obj, t)] && pc.e == |s.m.log|)
  {
    hide And;
  }

  /** The loads of a pop: with a cache at tail the head is reloaded, current or stale, and else the flag decides. */
  lemma PopLoadsDecide(s: State, v: nat)
    requires Inv(s)
    ensures var pc := s.consumer;
            && (pc.Begun? ==>
                  Step(s, ByConsumer(LoadOwnTail)) == s.(consumer :=
                    if s.localHead == s.m.tail then Reloading(pc.mode, s.m.tail) else Probing(pc.mode, s.m.tail)))
            && (pc.Reloading? && s.m.tail <= v <= s.m.head ==>
                  && Enabled(s, ByConsumer(ReloadHead(v)))
                  && Step(s, ByConsumer(ReloadHead(v))) == s.(localHead := v, consumer :=
                       if v == s.m.tail then Rest(Empty) else Probing(pc.mode, s.m.tail)))
            && (pc.Probing? ==>
                  Step(s, ByConsumer(LoadFlag)) == s.(consumer :=
                    if FrontReady(s.m, s.m.tail) then Reading(pc.mode, s.m.tail, []) else Rest(SlotWritingData)))
  {
    hide And;
    if s.consumer.Probing? { WritingMeans(s); }
  }

  /** How a pop ends: what it has read becomes its result, then the flag is cleared, then tail_ moves and it returns. */
  lemma PopEndsInOrder(s: State)
    requires Inv(s)
    ensures var pc, m := s.consumer, s.m;
            && (pc.Reading? && Enabled(s, ByConsumer(Finish)) ==>
                  Step(s, ByConsumer(Finish)) == s.(consumer := Clearing(m.tail, Popped(m.tail, pc.seen))))
            && (pc.Clearing? ==>
                  Step(s, ByConsumer(Clear)) ==
                    s.(m := m.(flag := m.flag[Idx(m.tail, m.n) := SLOT_EMPTY]), consumer := Advancing(m.tail, pc.res)))
            && (pc.Advancing? ==>
                  Step(s, ByConsumer(StoreTail)) ==
                    s.(m := m.(tail := m.tail + 1, given := m.given + [pc.res.seen]), consumer := Rest(pc.res)))
  {
    hide And;
  }

  /** The event ends an operation with FULL, EMPTY, CONTENTION, SLOT_WRITING_DATA or a ticket for these reasons only. */
  ghost predicate Explained(s: State, ev: Event, returned: seq<Ret>)
    requires Enabled(s, ev)
  {
    match ev
    case ByProducer(t, p) =>
      var pc := s.producers[t];
      && (returned == [Full] <==> p.LoadTail? && (p.v > pc.e || pc.e - p.v >= s.m.n))
      && (returned == [Contention] <==> p.CasHead? && s.m.head != pc.e)
      && (|returned| == 1 && returned[0].Pushed? <==> p.SetValid?)
      && (p.SetValid? ==> returned == [Pushed(pc.e)])
      && Empty !in returned && SlotWritingData !in returned
    case ByConsumer(c) =>
      && (returned == [Empty] <==> c.ReloadHead? && c.v == s.m.tail)
      && (returned == [SlotWritingData] <==> c.LoadFlag? && !FrontReady(s.m, s.m.tail))
      && (|returned| == 1 && returned[0].Popped? <==> c.StoreTail?)
      && (c.StoreTail? ==> returned == [s.consumer.res] && s.consumer.res.ticket == s.m.tail)
      && Full !in returned && Contention !in returned
  }

  lemma StepExplained(s: State, ev: Event)
    requires Inv(s) && Enabled(s, ev)
    ensures Explained(s, ev, Returned(ev, Step(s, ev)))
  {
    hide And;
    if ev.ByConsumer? && ev.c.LoadFlag? { WritingMeans(s); }
  }

  /**
   * At every event of every run: FULL comes only from a load of tail_ that shows a full lap or wraps,
   * CONTENTION only from a lost compare-and-swap, EMPTY only from a reload that shows nothing new,
   * SLOT_WRITING_DATA only from an unpublished front, and a ticket from its last store.
   */
  lemma ResultsInRuns(s: State, evs: seq<Event>, j: nat)
    requires Inv(s) && CanRun(s, evs) && j < |evs|
    ensures CanRun(s, evs[..j]) && Inv(Run(s, evs[..j])) && CanRun(s, evs[..j + 1])
    ensures var before, ev := Run(s, evs[..j]), evs[j];
            && Enabled(before, ev) && Run(s, evs[..j + 1]) == Step(before, ev)
            && Explained(before, ev, Returned(ev, Run(s, evs[..j + 1])))
  {
    hide Inv, Enabled, Step, Run, CanRun, Explained, Returned, Queue;
    RunUpTo(s, evs, j);
    RunRefinesFifo(s, evs[..j]);
    StepExplained(Run(s, evs[..j]), evs[j]);
  }

  lemma {:induction false} RunUpTo(s: State, evs: seq<Event>, j: nat)
    requires CanRun(s, evs) && j < |evs|
    ensures CanRun(s, evs[..j]) && CanRun(s, evs[..j + 1]) && Enabled(Run(s, evs[..j]), evs[j])
    ensures Run(s, evs[..j + 1]) == Step(Run(s, evs[..j]), evs[j])
    decreases |evs|
  {
    hide Enabled, Step, Returned;
    if j == 0 {
      assert evs[..1] == [evs[0]];
      OneStep(s, evs[0]);
    } else {
      RunUpTo(Step(s, evs[0]), evs[1..], j - 1);
      assert evs[..j][1..] == evs[1..][..j - 1] && evs[..j + 1][1..] == evs[1..][..j];
    }
  }

  // The contract of a push

  ghost predicate OnePush(m0: Ring, m: Ring, t: Tid, k: nat, obj: seq<Byte>) {
    && |m0.log| <= k < |m.log| && m.log[k] == Entry(obj, t)
    && forall i | |m0.log| <= i < |m.log| && i != k :: m.log[i].who != t
  }

  /** A ticket for the one effect, with the argument pushed; or an error and no effect, the size error on a misfit. */
  ghost predicate PushOutcome(m0: Ring, m: Ring, t: Tid, obj: seq<Byte>, ret: Ret) {
    match ret
    case Pushed(k) => |obj| <= m.sz && OnePush(m0, m, t, k, obj)
    case PushSizeTooLarge => |obj| > m.sz && NotPushedSince(m.log, t, |m0.log|)
    case Full => |obj| <= m.sz && NotPushedSince(m.log, t, |m0.log|)
    case Contention => |obj| <= m.sz && NotPushedSince(m.log, t, |m0.log|)
    case _ => false
  }

  /** Producer t is working on the push of obj it began when the ring was m0, or has returned from it. */
  ghost predicate ServesPush(m0: Ring, m: Ring, t: Tid, obj: seq<Byte>, pc: Producer) {
    match pc
    case Idle(ret) => PushOutcome(m0, m, t, obj, ret)
    case Start(o) => o == obj && NotPushedSince(m.log, t, |m0.log|)
    case HeadLoaded(o, _, _) => o == obj && NotPushedSince(m.log, t, |m0.log|)
    case Admitted(o, _, _) => o == obj && NotPushedSince(m.log, t, |m0.log|)
    case Copying(o, e, _) => o == obj && OnePush(m0, m, t, e, obj)
  }

  lemma OwnStepServesPush(m0: Ring, m: Ring, consumer: Consumer, t: Tid, pc: Producer, p: Push, obj: seq<Byte>)
    requires Shape(m) && ProducerOk(m, consumer, t, pc) && CanPush(m, pc, p) && !p.Begin? && m0.log <= m.log
    requires ServesPush(m0, m, t, obj, pc)
    ensures ServesPush(m0, RingAfterPush(m, t, pc, p), t, obj, NextProducer(m, pc, p))
  {
    hide And, IsPow2;
  }

  /** What the others do between rings m and n leaves a push alone. */
  lemma ServesPushKept(m0: Ring, m: Ring, n: Ring, t: Tid, obj: seq<Byte>, pc: Producer)
    requires m0.log <= m.log <= n.log && n.sz == m.sz && NotPushedSince(n.log, t, |m.log|)
    requires ServesPush(m0, m, t, obj, pc)
    ensures ServesPush(m0, n, t, obj, pc)
  {
  }

  lemma StepGrowsLog(s: State, ev: Event, t: Tid)
    requires Inv(s) && Enabled(s, ev)
    ensures s.m.log <= Step(s, ev).m.log && Step(s, ev).m.sz == s.m.sz
    ensures !(ev.ByProducer? && ev.t == t) ==> NotPushedSince(Step(s, ev).m.log, t, |s.m.log|)
  {
    hide And, IsPow2;
  }

  lemma StepServesPush(m0: Ring, s: State, ev: Event, t: Tid, obj: seq<Byte>)
    requires Inv(s) && Enabled(s, ev) && t in s.producers && m0.log <= s.m.log
    requires ev.ByProducer? && ev.t == t ==> !ev.p.Begin?
    requires ServesPush(m0, s.m, t, obj, s.producers[t])
    ensures var s' := Step(s, ev);
            && t in s'.producers && m0.log <= s'.m.log && ServesPush(m0, s'.m, t, obj, s'.producers[t])
            && ((ev.ByProducer? && ev.t == t) || s'.producers[t] == s.producers[t])
  {
    hide And, ServesPush, RingAfterPush, RingAfterPop, NextProducer, NextConsumer, CanPush, CanPop;
    StepGrowsLog(s, ev, t);
    if ev.ByProducer? && ev.t == t {
      assert ProducerOk(s.m, s.consumer, t, s.producers[t]);
      OwnStepServesPush(m0, s.m, s.consumer, t, s.producers[t], ev.p, obj);
    } else {
      ServesPushKept(m0, s.m, Step(s, ev).m, t, obj, s.producers[t]);
    }
  }

  lemma {:induction false} RunServesPush(m0: Ring, s: State, evs: seq<Event>, t: Tid, obj: seq<Byte>)
    requires Inv(s) && CanRun(s, evs) && t in s.producers && m0.log <= s.m.log
    requires forall i | 0 <= i < |evs| && evs[i].ByProducer? && evs[i].t == t :: !evs[i].p.Begin?
    requires ServesPush(m0, s.m, t, obj, s.producers[t])
    ensures t in Run(s, evs).producers && ServesPush(m0, Run(s, evs).m, t, obj, Run(s, evs).producers[t])
    decreases |evs|
  {
    hide Inv, Enabled, Step, ServesPush;
    if evs != [] {
      StepKeepsInv(s, evs[0]);
      StepServesPush(m0, s, evs[0], t, obj);
      assert forall i | 0 <= i < |evs[1..]| :: evs[1..][i] == evs[i + 1];
      RunServesPush(m0, Step(s, evs[0]), evs[1..], t, obj);
    }
  }

  /**
   * The contract of a push, whatever the other producers and the consumer do meanwhile: once begun, it is
   * at any later point still working with its argument, or has returned with exactly its effect.
   */
  lemma PushContract(s: State, t: Tid, obj: seq<Byte>, evs: seq<Event>)
    requires Inv(s) && t in s.producers && s.producers[t].Idle?
    requires Enabled(s, ByProducer(t, Begin(obj))) && CanRun(Step(s, ByProducer(t, Begin(obj))), evs)
    requires forall i | 0 <= i < |evs| && evs[i].ByProducer? && evs[i].t == t :: !evs[i].p.Begin?
    ensures var r := Run(Step(s, ByProducer(t, Begin(obj))), evs);
            t in r.producers && ServesPush(s.m, r.m, t, obj, r.producers[t])
  {
    hide And, Run, CanRun;
    StepKeepsInv(s, ByProducer(t, Begin(obj)));
    RunServesPush(s.m, Step(s, ByProducer(t, Begin(obj))), evs, t, obj);
  }

  // The contract of a pop

  /** All the bytes asked for, in order. */
  ghost predicate Complete(mode: PopMode, seen: seq<Read>) {
    mode.Into? ==> |seen| == mode.size && InOrder(mode, seen)
  }

  /** The front ticket with all the bytes asked for; or an error and no effect, the size error on a misfit. */
  ghost predicate PopOutcomeIs(m0: Ring, m: Ring, mode: PopMode, ret: Ret) {
    match ret
    case Popped(k, seen) =>
      && ModeFits(mode, m.sz) && Complete(mode, seen)
      && k == m0.tail && m.tail == k + 1 == |m.given| && m.given[k] == seen
    case PopSizeTooLarge => !ModeFits(mode, m.sz) && m.tail == m0.tail
    case Empty => ModeFits(mode, m.sz) && m.tail == m0.tail
    case SlotWritingData => ModeFits(mode, m.sz) && m.tail == m0.tail
    case _ => false
  }

  ghost predicate ServesPop(m0: Ring, m: Ring, mode: PopMode, pc: Consumer) {
    match pc
    case Rest(ret) => PopOutcomeIs(m0, m, mode, ret)
    case Begun(o) => o == mode && m.tail == m0.tail
    case Reloading(o, _) => o == mode && m.tail == m0.tail
    case Probing(o, _) => o == mode && m.tail == m0.tail
    case Reading(o, _, _) => o == mode && m.tail == m0.tail
    case Clearing(_, res) => res.Popped? && ModeFits(mode, m.sz) && Complete(mode, res.seen) && m.tail == m0.tail
    case Advancing(_, res) => res.Popped? && ModeFits(mode, m.sz) && Complete(mode, res.seen) && m.tail == m0.tail
  }

  lemma StepServesPop(m0: Ring, s: State, ev: Event, mode: PopMode)
    requires Inv(s) && Enabled(s, ev) && !(ev.ByConsumer? && ev.c.BeginPop?)
    requires ServesPop(m0, s.m, mode, s.consumer)
    ensures ServesPop(m0, Step(s, ev).m, mode, Step(s, ev).consumer)
    ensures ev.ByConsumer? || Step(s, ev).consumer == s.consumer
  {
    hide And, IsPow2;
    if ev.ByConsumer? && ev.c.LoadFlag? { WritingMeans(s); }
  }

  lemma {:induction false} RunServesPop(m0: Ring, s: State, evs: seq<Event>, mode: PopMode)
    requires Inv(s) && CanRun(s, evs) && ServesPop(m0, s.m, mode, s.consumer)
    requires forall i | 0 <= i < |evs| && evs[i].ByConsumer? :: !evs[i].c.BeginPop?
    ensures Inv(Run(s, evs)) && ServesPop(m0, Run(s, evs).m, mode, Run(s, evs).consumer)
    decreases |evs|
  {
    hide Inv, Enabled, Step, ServesPop;
    if evs != [] {
      StepKeepsInv(s, evs[0]);
      StepServesPop(m0, s, evs[0], mode);
      assert forall i | 0 <= i < |evs[1..]| :: evs[1..][i] == evs[i + 1];
      RunServesPop(m0, Step(s, evs[0]), evs[1..], mode);
    }
  }

  /**
   * The contract of a pop, for any cached head and whatever the producers do meanwhile: a ticket it returns
   * is the front it found, with all the bytes asked for, read from the object pushed under that ticket.
   */
  lemma PopContract(s: State, mode: PopMode, evs: seq<Event>)
    requires Inv(s) && s.consumer.Rest?
    requires Enabled(s, ByConsumer(BeginPop(mode))) && CanRun(Step(s, ByConsumer(BeginPop(mode))), evs)
    requires forall i | 0 <= i < |evs| && evs[i].ByConsumer? :: !evs[i].c.BeginPop?
    ensures var r := Run(Step(s, ByConsumer(BeginPop(mode))), evs);
            && Inv(r) && ServesPop(s.m, r.m, mode, r.consumer)
            && (r.consumer.Rest? && r.consumer.ret.Popped? ==>
                  s.m.tail < |r.m.log| && ReadsFrom(r.consumer.ret.seen, r.m.log[s.m.tail].obj))
  {
    hide And, Run, CanRun;
    StepKeepsInv(s, ByConsumer(BeginPop(mode)));
    RunServesPop(s.m, Step(s, ByConsumer(BeginPop(mode))), evs, mode);
  }

  // What a pop sees

  ghost function OffsetBy(ev: Event): seq<nat> {
    if ev.ByConsumer? && ev.c.ReadByte? then [ev.c.offset] else []
  }

  /** The offsets the consumer reads at, in order. */
  ghost function OffsetsBy(evs: seq<Event>): seq<nat>
    decreases |evs|
  {
    if evs == [] then [] else OffsetBy(evs[0]) + OffsetsBy(evs[1..])
  }

  lemma StepSeesItsCell(s: State, ev: Event)
    requires Inv(s) && Enabled(s, ev) && s.consumer.Reading? && (ev.ByConsumer? ==> ev.c.ReadByte?)
    ensures var s', pc, offset := Step(s, ev), s.consumer, OffsetBy(ev);
            && WellFormed(s.m) && WellFormed(s'.m) && s'.m.sz == s.m.sz && InCell(offset, s.m.sz)
            && CellOf(s'.m, pc.e) == CellOf(s.m, pc.e)
            && s'.consumer == pc.(seen := pc.seen + ReadsOf(CellOf(s.m, pc.e), offset))
  {
    hide And, IsPow2;
    if ev.ByProducer? {
      if ev.p.WriteByte? {
        assert ProducerOk(s.m, s.consumer, ev.t, s.producers[ev.t]);
      }
      assert s.consumer.seen + [] == s.consumer.seen;
    }
  }

  /**
   * While a pop reads the front it sees just the bytes its copy or its callback reads, at the offsets they
   * ask for and in that order, of the cell as it was when the pop found it published.
   */
  lemma {:induction false} PopSeesItsCell(s: State, evs: seq<Event>)
    requires Inv(s) && CanRun(s, evs) && s.consumer.Reading?
    requires forall i | 0 <= i < |evs| && evs[i].ByConsumer? :: evs[i].c.ReadByte?
    ensures var r, pc, offsets := Run(s, evs), s.consumer, OffsetsBy(evs);
            && WellFormed(s.m) && InCell(offsets, s.m.sz)
            && r.consumer == pc.(seen := pc.seen + ReadsOf(CellOf(s.m, pc.e), offsets))
    decreases |evs|
  {
    hide Inv, Step, Enabled, ReadsOf, InCell, WellFormed, OffsetBy;
    InvShape(s);
    var pc := s.consumer;
    if evs == [] {
      ReadsInTwo(pc.seen, CellOf(s.m, pc.e), [], []);
    } else {
      StepSeesItsCell(s, evs[0]);
      StepKeepsInv(s, evs[0]);
      assert forall i | 0 <= i < |evs[1..]| :: evs[1..][i] == evs[i + 1];
      PopSeesItsCell(Step(s, evs[0]), evs[1..]);
      ReadsInTwo(pc.seen, CellOf(s.m, pc.e), OffsetBy(evs[0]), OffsetsBy(evs[1..]));
    }
  }
}
