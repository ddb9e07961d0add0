/** Whole runs of the MPMC ring: refinement of a bounded queue, conservation, exclusion, honesty. */
module MpmcRuns {
  import opened Words
  import opened Cells
  import opened Operations
  import opened BoundedFifo
  import opened MpmcProtocol
  import opened MpmcInvariant

  datatype Event = Event(t: Tid, a: Action)

  /** A schedule: any interleaving of enabled steps of any number of threads. */
  ghost predicate CanRun(s: State, evs: seq<Event>)
    decreases |evs|
  {
    evs == [] || (Enabled(s, evs[0].t, evs[0].a) && CanRun(Step(s, evs[0].t, evs[0].a), evs[1..]))
  }

  ghost function Run(s: State, evs: seq<Event>): State
    requires CanRun(s, evs)
    decreases |evs|
  {
    if evs == [] then s else Run(Step(s, evs[0].t, evs[0].a), evs[1..])
  }

  lemma {:induction false} RunKeepsInv(s: State, evs: seq<Event>)
    requires Inv(s) && CanRun(s, evs)
    ensures Inv(Run(s, evs))
    decreases |evs|
  {
    if evs != [] {
      StepKeepsInv(s, evs[0].t, evs[0].a);
      RunKeepsInv(Step(s, evs[0].t, evs[0].a), evs[1..]);
    }
  }

  /** The results handed to callers during a run, in order. */
  ghost function Returns(s: State, evs: seq<Event>): seq<Ret>
    requires CanRun(s, evs)
    decreases |evs|
  {
    if evs == [] then [] else
      var s' := Step(s, evs[0].t, evs[0].a);
      var pc' := s'.threads[evs[0].t];
      (if pc'.Idle? then [pc'.ret] else []) + Returns(s', evs[1..])
  }

  lemma RunNothing(s: State)
    ensures CanRun(s, []) && Run(s, []) == s && Returns(s, []) == []
  {
  }

  lemma OneStep(s: State, ev: Event)
    requires Enabled(s, ev.t, ev.a)
    ensures var s' := Step(s, ev.t, ev.a);
            && CanRun(s, [ev]) && Run(s, [ev]) == s'
            && Returns(s, [ev]) == if s'.threads[ev.t].Idle? then [s'.threads[ev.t].ret] else []
  {
    hide Enabled, Step;
    assert [ev][1..] == [];
  }

  /** Two runs in a row are one run. */
  lemma {:induction false} RunInTwo(s: State, a: seq<Event>, b: seq<Event>)
    requires CanRun(s, a) && CanRun(Run(s, a), b)
    ensures CanRun(s, a + b) && Run(s, a + b) == Run(Run(s, a), b)
    ensures Returns(s, a + b) == Returns(s, a) + Returns(Run(s, a), b)
    decreases |a|
  {
    hide Enabled, Step;
    if a == [] {
      assert a + b == b;
    } else {
      assert (a + b)[1..] == a[1..] + b;
      RunInTwo(Step(s, a[0].t, a[0].a), a[1..], b);
    }
  }

  /** One more step at the end of a run. */
  lemma Extend(s: State, evs: seq<Event>, r: State, t: Tid, a: Action) returns (longer: seq<Event>, next: State)
    requires CanRun(s, evs) && Run(s, evs) == r && Enabled(r, t, a)
    ensures CanRun(s, longer) && Run(s, longer) == next == Step(r, t, a)
  {
    hide Enabled, Step, Run, CanRun, Returns;
    OneStep(r, Event(t, a));
    RunInTwo(s, evs, [Event(t, a)]);
    longer, next := evs + [Event(t, a)], Step(r, t, a);
  }

  /** A thread that finds the slot at head_ free pushes a one-byte object, whatever the other threads are at. */
  lemma OneBytePush(s: State, t: Tid, b: Byte) returns (evs: seq<Event>, r: State)
    requires WellFormed(s.m) && s.m.sz == 1 && SlotOf(s.m, s.m.head) == s.m.head
    requires t in s.threads && s.threads[t].Idle?
    ensures CanRun(s, evs) && Run(s, evs) == r
    ensures var m, j := s.m, Idx(s.m.head, s.m.n);
            r.m == m.(head := m.head + 1, slot := m.slot[j := m.head + 1], cells := m.cells[j := [b]],
                      log := m.log + [Entry([b], t)])
    ensures r.threads == s.threads[t := Idle(Pushed(s.m.head))]
  {
    hide Run, CanRun, Returns, And;
    RunNothing(s);
    evs, r := [], s;
    evs, r := Extend(s, evs, r, t, BeginPush([b]));
    evs, r := Extend(s, evs, r, t, LoadIndex(s.m.head));
    evs, r := Extend(s, evs, r, t, LoadSlot(s.m.head));
    evs, r := Extend(s, evs, r, t, Cas);
    assert CellOf(s.m, s.m.head)[0 := b] == [b];
    evs, r := Extend(s, evs, r, t, CopyByte(0));
    evs, r := Extend(s, evs, r, t, StoreSlot);
  }

  lemma {:induction false} RunKeepsThreads(s: State, evs: seq<Event>)
    requires CanRun(s, evs)
    ensures Run(s, evs).threads.Keys == s.threads.Keys
    decreases |evs|
  {
    if evs != [] {
      RunKeepsThreads(Step(s, evs[0].t, evs[0].a), evs[1..]);
    }
  }

  // Refinement of the bounded queue

  /** The abstract queue: the objects of the tickets pushed and not yet popped. */
  ghost function Queue(m: Ring): seq<seq<Byte>>
    requires Shape(m)
  {
    Objects(m.log)[m.tail..]
  }

  /**
   * The queue operation a step stands for: a push takes effect at its CAS on head_, a pop at its
   * CAS on tail_ with the object of the ticket it won, and no other step has an effect.
   */
  ghost function Effect(s: State, t: Tid, a: Action): seq<Op<seq<Byte>>>
    requires Enabled(s, t, a)
  {
    var pc := s.threads[t];
    if a.Cas? && pc.PushReady? && s.m.head == pc.e then [Enqueue(pc.obj)]
    else if a.Cas? && pc.PopReady? && s.m.tail == pc.e < |s.m.log| then [Dequeue(s.m.log[pc.e].obj)]
    else []
  }

  lemma ClaimAppends(s: State, t: Tid)
    requires ClaimsHead(s, t) && Inv(Step(s, t, Cas))
    ensures |Queue(s.m)| < s.m.n
    ensures Queue(Step(s, t, Cas).m) == Queue(s.m) + [s.threads[t].obj]
  {
    hide And;
    ClaimedCellIsFree(s.m, t, s.threads[t]) by { assert ThreadOk(s.m, t, s.threads[t]); }
  }

  lemma TakeRemoves(s: State, t: Tid)
    requires ClaimsTail(s, t) && Inv(Step(s, t, Cas))
    ensures s.m.tail < |s.m.log| && Queue(s.m) != [] && Queue(s.m)[0] == s.m.log[s.m.tail].obj
    ensures Queue(Step(s, t, Cas).m) == Queue(s.m)[1..]
  {
    hide And;
    TakenCellIsPublished(s.m, t, s.threads[t]) by { assert ThreadOk(s.m, t, s.threads[t]); }
  }

  lemma OthersKeepQueue(s: State, t: Tid, a: Action)
    requires Inv(s) && Enabled(s, t, a) && (a.Cas? ==> !ClaimsHead(s, t) && !ClaimsTail(s, t)) && Inv(Step(s, t, a))
    ensures Queue(Step(s, t, a).m) == Queue(s.m)
  {
    hide And;
  }

  lemma StepRefinesFifo(s: State, t: Tid, a: Action)
    requires Inv(s) && Enabled(s, t, a) && Inv(Step(s, t, a))
    ensures AllowsAll(Queue(s.m), s.m.n, Effect(s, t, a))
    ensures ApplyAll(Queue(s.m), s.m.n, Effect(s, t, a)) == Queue(Step(s, t, a).m)
  {
    hide And, Inv, Step, Queue;
    InvShape(s);
    InvShape(Step(s, t, a));
    if a.Cas? && ClaimsHead(s, t) {
      ClaimAppends(s, t);
      Single(Queue(s.m), s.m.n, Enqueue(s.threads[t].obj));
    } else if a.Cas? && ClaimsTail(s, t) {
      TakeRemoves(s, t);
      Single(Queue(s.m), s.m.n, Dequeue(s.m.log[s.m.tail].obj));
    } else {
      OthersKeepQueue(s, t, a);
    }
  }

  ghost function Effects(s: State, evs: seq<Event>): seq<Op<seq<Byte>>>
    requires CanRun(s, evs)
    decreases |evs|
  {
    if evs == [] then [] else
      Effect(s, evs[0].t, evs[0].a) + Effects(Step(s, evs[0].t, evs[0].a), evs[1..])
  }

  /** Every run is a run of the bounded FIFO queue, step for step in linearisation order. */
  lemma {:induction false} RunRefinesFifo(s: State, evs: seq<Event>)
    requires Inv(s) && CanRun(s, evs)
    ensures Inv(Run(s, evs))
    ensures AllowsAll(Queue(s.m), s.m.n, Effects(s, evs))
    ensures ApplyAll(Queue(s.m), s.m.n, Effects(s, evs)) == Queue(Run(s, evs).m)
    ensures |Queue(Run(s, evs).m)| <= s.m.n
    decreases |evs|
  {
    if evs != [] {
      var s' := Step(s, evs[0].t, evs[0].a);
      StepKeepsInv(s, evs[0].t, evs[0].a);
      StepRefinesFifo(s, evs[0].t, evs[0].a);
      RunRefinesFifo(s', evs[1..]);
      Concatenate(Queue(s.m), s.m.n, Effect(s, evs[0].t, evs[0].a), Effects(s', evs[1..]));
    }
  }

  /** What a pop hands back at its release: bytes of the very object its ticket dequeued. */
  lemma PopReturnsItsObject(s: State, t: Tid)
    requires Inv(s) && Enabled(s, t, StoreSlot) && s.threads[t].PopRead?
    ensures var pc := s.threads[t];
            && Step(s, t, StoreSlot).threads[t].ret == Popped(pc.e, pc.seen)
            && pc.e < s.m.tail && pc.e !in s.m.given
            && ReadsFrom(pc.seen, s.m.log[pc.e].obj)
            && (pc.mode.Into? ==> |pc.seen| == pc.mode.size && forall x | 0 <= x < |pc.seen| :: pc.seen[x].offset == x)
  {
    var pc := s.threads[t];
    assert ThreadOk(s.m, t, pc);
    assert s.m.log[pc.e].obj <= CellOf(s.m, pc.e);
  }

  // Monotone histories

  /** b is a later ring than a: indices, slots and histories have only grown. */
  ghost predicate Later(a: Ring, b: Ring) {
    && a.n == b.n && a.sz == b.sz
    && a.head <= b.head && a.tail <= b.tail
    && a.log <= b.log && a.taken <= b.taken
    && |a.slot| == |b.slot|
    && (forall j | 0 <= j < |a.slot| :: a.slot[j] <= b.slot[j])
    && (forall k | k in a.given :: k in b.given && a.given[k] == b.given[k])
  }

  lemma StepIsLater(s: State, t: Tid, a: Action)
    requires Inv(s) && Enabled(s, t, a)
    ensures Later(s.m, Step(s, t, a).m)
  {
    var pc := s.threads[t];
    assert ThreadOk(s.m, t, pc);
    if a.StoreSlot? {
      StoreRaisesSlot(s.m, t, pc);
    }
  }

  lemma LaterTransitive(a: Ring, b: Ring, c: Ring)
    requires Later(a, b) && Later(b, c)
    ensures Later(a, c)
  {
  }

  lemma {:induction false} RunIsLater(s: State, evs: seq<Event>)
    requires Inv(s) && CanRun(s, evs)
    ensures Later(s.m, Run(s, evs).m)
    decreases |evs|
  {
    if evs != [] {
      var s' := Step(s, evs[0].t, evs[0].a);
      StepKeepsInv(s, evs[0].t, evs[0].a);
      StepIsLater(s, evs[0].t, evs[0].a);
      RunIsLater(s', evs[1..]);
      LaterTransitive(s.m, s'.m, Run(s, evs).m);
    }
  }

  /**
   * Stale reads are part of the model: whatever head_, tail_ or a slot held at any earlier point of
   * a run may be returned by a load at any later point, and all results of this module still hold.
   */
  lemma StaleLoadsAreSteps(s: State, evs: seq<Event>, t: Tid)
    requires Inv(s) && CanRun(s, evs) && t in Run(s, evs).threads
    ensures var s' := Run(s, evs); var pc := s'.threads[t];
            && Inv(s')
            && (pc.PushStart? ==> Enabled(s', t, LoadIndex(s.m.head)))
            && (pc.PopStart? ==> Enabled(s', t, LoadIndex(s.m.tail)))
            && (pc.PushLoaded? || pc.PopLoaded? ==> Enabled(s', t, LoadSlot(SlotOf(s.m, pc.e))))
  {
    RunKeepsInv(s, evs);
    RunIsLater(s, evs);
  }

  // Conservation

  /** The ticket of r has not been returned before m, and has been by m'. */
  ghost predicate FirstReturnedBetween(m: Ring, r: Ret, m': Ring)
    requires WellFormed(m) && WellFormed(m')
  {
    match r
    case Pushed(k) => SlotOf(m, k) <= k < SlotOf(m', k)
    case Popped(k, _) => k !in m.given && k in m'.given
    case _ => true
  }

  ghost predicate SameTicket(r: Ret, q: Ret) {
    || (r.Pushed? && q.Pushed? && r.ticket == q.ticket)
    || (r.Popped? && q.Popped? && r.ticket == q.ticket)
  }

  lemma StepReturnIsFirst(s: State, t: Tid, a: Action)
    requires Inv(s) && Enabled(s, t, a) && Step(s, t, a).threads[t].Idle?
    ensures FirstReturnedBetween(s.m, Step(s, t, a).threads[t].ret, Step(s, t, a).m)
  {
    assert ThreadOk(s.m, t, s.threads[t]);
  }

  lemma ReturnedBetweenWider(a: Ring, b: Ring, r: Ret, c: Ring, d: Ring)
    requires WellFormed(a) && WellFormed(b) && WellFormed(c) && WellFormed(d)
    requires Later(a, b) && Later(c, d) && FirstReturnedBetween(b, r, c)
    ensures FirstReturnedBetween(a, r, d)
  {
  }

  lemma {:induction false} ReturnsAreFirst(s: State, evs: seq<Event>)
    requires Inv(s) && CanRun(s, evs)
    ensures Inv(Run(s, evs))
    ensures forall i | 0 <= i < |Returns(s, evs)| :: FirstReturnedBetween(s.m, Returns(s, evs)[i], Run(s, evs).m)
    decreases |evs|
  {
    hide Inv;
    if evs != [] {
      var ev, end := evs[0], Run(s, evs);
      var s' := Step(s, ev.t, ev.a);
      StepKeepsInv(s, ev.t, ev.a);
      StepIsLater(s, ev.t, ev.a);
      RunIsLater(s', evs[1..]);
      ReturnsAreFirst(s', evs[1..]);
      InvShape(s);
      InvShape(s');
      InvShape(end);
      var rest := Returns(s', evs[1..]);
      forall i | 0 <= i < |rest|
        ensures FirstReturnedBetween(s.m, rest[i], end.m)
      {
        ReturnedBetweenWider(s.m, s'.m, rest[i], end.m, end.m);
      }
      if s'.threads[ev.t].Idle? {
        StepReturnIsFirst(s, ev.t, ev.a);
        ReturnedBetweenWider(s.m, s.m, s'.threads[ev.t].ret, s'.m, end.m);
      }
    }
  }

  /** In every run each ticket is returned by at most one push and at most one pop. */
  lemma {:induction false} TicketsReturnedOnce(s: State, evs: seq<Event>)
    requires Inv(s) && CanRun(s, evs)
    ensures forall i, j | 0 <= i < j < |Returns(s, evs)| :: !SameTicket(Returns(s, evs)[i], Returns(s, evs)[j])
    decreases |evs|
  {
    hide Inv;
    if evs != [] {
      var ev := evs[0];
      var s' := Step(s, ev.t, ev.a);
      StepKeepsInv(s, ev.t, ev.a);
      TicketsReturnedOnce(s', evs[1..]);
      ReturnsAreFirst(s', evs[1..]);
      InvShape(s);
      InvShape(s');
      if s'.threads[ev.t].Idle? {
        StepReturnIsFirst(s, ev.t, ev.a);
      }
    }
  }

  lemma {:induction false} ReturnsAreGiven(s: State, evs: seq<Event>)
    requires Inv(s) && CanRun(s, evs)
    ensures forall i | 0 <= i < |Returns(s, evs)| && Returns(s, evs)[i].Popped? ::
              var r, given := Returns(s, evs)[i], Run(s, evs).m.given;
              r.ticket in given && given[r.ticket] == r.seen
    decreases |evs|
  {
    hide Inv, And;
    if evs != [] {
      var s' := Step(s, evs[0].t, evs[0].a);
      StepKeepsInv(s, evs[0].t, evs[0].a);
      ReturnsAreGiven(s', evs[1..]);
      RunIsLater(s', evs[1..]);
      InvShape(s);
    }
  }

  /** Whatever a pop returns during a run are bytes of the object pushed under the ticket it returns. */
  lemma ReturnedBytesWerePushed(s: State, evs: seq<Event>, i: nat)
    requires Inv(s) && CanRun(s, evs) && i < |Returns(s, evs)| && Returns(s, evs)[i].Popped?
    ensures var r, log := Returns(s, evs)[i], Run(s, evs).m.log;
            r.ticket < |log| && ReadsFrom(r.seen, log[r.ticket].obj)
  {
    RunKeepsInv(s, evs);
    ReturnsAreGiven(s, evs);
  }

  /** Where every popped ticket is: handed over as pushed, or with the one thread that took it. */
  lemma PoppedTicketsAccountedFor(s: State, k: nat)
    requires Inv(s) && k < s.m.tail
    ensures if k in s.m.given
            then ReadsFrom(s.m.given[k], s.m.log[k].obj)
            else s.m.taken[k] in s.threads && s.threads[s.m.taken[k]].PopRead? && s.threads[s.m.taken[k]].e == k
    ensures forall t | t in s.threads && s.threads[t].PopRead? && s.threads[t].e == k ::
              k !in s.m.given && t == s.m.taken[k]
  {
    assert k in s.m.given || Reads(s.threads, s.m.taken[k], k);
    forall t | t in s.threads && s.threads[t].PopRead? && s.threads[t].e == k
      ensures k !in s.m.given && t == s.m.taken[k]
    {
      assert ThreadOk(s.m, t, s.threads[t]);
    }
  }

  // Exclusion

  /** No two threads are ever between claim and release on the same cell. */
  lemma CellsAreExclusive(s: State, t: Tid, u: Tid)
    requires Inv(s) && t in s.threads && u in s.threads && t != u
    requires s.threads[t].PushCopy? || s.threads[t].PopRead?
    requires s.threads[u].PushCopy? || s.threads[u].PopRead?
    ensures Idx(s.threads[t].e, s.m.n) != Idx(s.threads[u].e, s.m.n)
  {
    assert ThreadOk(s.m, t, s.threads[t]) && ThreadOk(s.m, u, s.threads[u]);
    HoldersApart(s.m, t, s.threads[t], u, s.threads[u]);
  }

  /**
   * While a pop holds its ticket, through its copy or through its callback, the cell it looks at
   * does not change under any interleaving.
   */
  lemma {:induction false} HeldCellIsStable(s: State, evs: seq<Event>, t: Tid)
    requires Inv(s) && CanRun(s, evs) && t in s.threads && s.threads[t].PopRead?
    requires forall i | 0 <= i < |evs| && evs[i].t == t :: evs[i].a.CopyByte?
    ensures var s' := Run(s, evs); var pc := s.threads[t];
            && t in s'.threads && s'.threads[t].PopRead? && s'.threads[t].e == pc.e
            && WellFormed(s'.m) && CellOf(s'.m, pc.e) == CellOf(s.m, pc.e)
    decreases |evs|
  {
    if evs != [] {
      var ev := evs[0];
      var s' := Step(s, ev.t, ev.a);
      StepKeepsInv(s, ev.t, ev.a);
      if ev.t != t && s.threads[ev.t].PushCopy? {
        CellsAreExclusive(s, t, ev.t);
      }
      assert forall i | 0 <= i < |evs[1..]| :: evs[1..][i] == evs[i + 1];
      HeldCellIsStable(s', evs[1..], t);
    }
  }

  // Honest return codes

  /** Ticket k has not been released for reuse of its cell. */
  ghost predicate Unreleased(m: Ring, k: int)
    requires WellFormed(m)
  {
    0 <= k && SlotOf(m, k) < k + m.n
  }

  /** Ticket k has not been published. */
  ghost predicate Unpublished(m: Ring, k: nat)
    requires WellFormed(m)
  {
    SlotOf(m, k) <= k
  }

  /** What a slot load that returns the current value tells a producer holding head value e. */
  lemma ProducerSlotLoad(m: Ring, t: Tid, pc: Pc)
    requires Shape(m) && ThreadOk(m, t, pc) && pc.PushLoaded?
    ensures SlotOf(m, pc.e) < pc.e <==> m.head == pc.e && Unreleased(m, pc.e - m.n)
    ensures SlotOf(m, pc.e) > pc.e ==> m.head > pc.e
  {
    var e, v := pc.e, SlotOf(m, pc.e);
    if e >= m.n { IdxNextLap(e - m.n, m.n); }
    if Free(m.n, m.tail, Idx(e, m.n), v) {
      if v < e && v + m.n > e { IdxApart(v, e, m.n); }
      if v > e && v < e + m.n { IdxApart(e, v, m.n); }
    } else {
      assert Published(m.n, m.head, Idx(e, m.n), v);
      if v - 1 < e && v - 1 + m.n > e { IdxApart(v - 1, e, m.n); }
    }
  }

  /** What a slot load that returns the current value tells a consumer holding tail value e. */
  lemma ConsumerSlotLoad(m: Ring, t: Tid, pc: Pc)
    requires Shape(m) && ThreadOk(m, t, pc) && pc.PopLoaded?
    ensures SlotOf(m, pc.e) < pc.e + 1 <==> m.tail == pc.e && Unpublished(m, pc.e)
    ensures SlotOf(m, pc.e) > pc.e + 1 ==> m.tail > pc.e
  {
    var e, v := pc.e, SlotOf(m, pc.e);
    if Free(m.n, m.tail, Idx(e, m.n), v) {
      if v > e && v < e + m.n { IdxApart(e, v, m.n); }
    } else {
      assert Published(m.n, m.head, Idx(e, m.n), v);
      if v - 1 > e && v - 1 < e + m.n { IdxApart(e, v - 1, m.n); }
      if v - 1 < e && v - 1 + m.n > e { IdxApart(v - 1, e, m.n); }
    }
  }

  /**
   * FULL is honest: a push reports it on a current slot load exactly when no other producer has
   * moved head_ since it was loaded and the ticket one lap back still keeps the cell.
   */
  lemma FullIsHonest(s: State, t: Tid)
    requires Inv(s) && t in s.threads && s.threads[t].PushLoaded?
    ensures var e := s.threads[t].e;
            Step(s, t, LoadSlot(SlotOf(s.m, e))).threads[t] == Idle(Full)
            <==> s.m.head == e && Unreleased(s.m, e - s.m.n)
  {
    hide And;
    assert ThreadOk(s.m, t, s.threads[t]);
    ProducerSlotLoad(s.m, t, s.threads[t]);
  }

  /** EMPTY is honest: exactly when tail_ has not moved and the front ticket is unpublished. */
  lemma EmptyIsHonest(s: State, t: Tid)
    requires Inv(s) && t in s.threads && s.threads[t].PopLoaded?
    ensures var e := s.threads[t].e;
            Step(s, t, LoadSlot(SlotOf(s.m, e))).threads[t] == Idle(Empty)
            <==> s.m.tail == e && Unpublished(s.m, e)
  {
    hide And;
    assert ThreadOk(s.m, t, s.threads[t]);
    ConsumerSlotLoad(s.m, t, s.threads[t]);
  }

  /**
   * A push whose index load was current and that reports contention lost its ticket to another
   * thread; likewise a pop.
   */
  lemma ContentionMeansLost(s: State, t: Tid, a: Action)
    requires Inv(s) && Enabled(s, t, a)
    requires Step(s, t, a).threads[t] == Idle(Contention)
    requires s.threads[t].PushLoaded? || s.threads[t].PopLoaded? || s.threads[t].PushReady? || s.threads[t].PopReady?
    requires s.threads[t].at == s.threads[t].e
    ensures var e := s.threads[t].e;
            if s.threads[t].PushLoaded? || s.threads[t].PushReady?
            then e < s.m.head && s.m.log[e].who != t
            else e < s.m.tail && s.m.taken[e] != t
  {
    assert ThreadOk(s.m, t, s.threads[t]);
    if s.threads[t].PushLoaded? {
      ProducerSlotLoad(s.m, t, s.threads[t]);
    } else if s.threads[t].PopLoaded? {
      ConsumerSlotLoad(s.m, t, s.threads[t]);
    }
  }
}
