/** How MPMC operations decide, and what EMPTY and FULL say about the queue, which need not be empty or full. */
module MpmcResults {
  import opened Words
  import opened Cells
  import opened Operations
  import opened MpmcProtocol
  import opened MpmcInvariant
  import opened MpmcRuns

  // Decisions, one by one

  /** A load of the index, current or stale, only hands its value on. */
  lemma IndexLoadDecides(s: State, t: Tid, v: nat)
    requires Inv(s) && t in s.threads
    ensures s.threads[t].PushStart? && v <= s.m.head ==>
              && Enabled(s, t, LoadIndex(v)) && Step(s, t, LoadIndex(v)).m == s.m
              && Step(s, t, LoadIndex(v)).threads[t] == PushLoaded(s.threads[t].obj, v, s.m.head)
    ensures s.threads[t].PopStart? && v <= s.m.tail ==>
              && Enabled(s, t, LoadIndex(v)) && Step(s, t, LoadIndex(v)).m == s.m
              && Step(s, t, LoadIndex(v)).threads[t] == PopLoaded(s.threads[t].mode, v, s.m.tail)
  {
    hide And;
  }

  /** A slot load, current or stale: behind is FULL or EMPTY, past is CONTENTION, and else the operation goes on. */
  lemma SlotLoadDecides(s: State, t: Tid, v: nat)
    requires Inv(s) && Enabled(s, t, LoadSlot(v))
    ensures var pc, next := s.threads[t], Step(s, t, LoadSlot(v)).threads[t];
            && Step(s, t, LoadSlot(v)).m == s.m
            && (pc.PushLoaded? ==>
                  && (next == Idle(Full) <==> v < pc.e)
                  && (next == Idle(Contention) <==> v > pc.e)
                  && (v == pc.e ==> next == PushReady(pc.obj, pc.e, pc.at)))
            && (pc.PopLoaded? ==>
                  && (next == Idle(Empty) <==> v < pc.e + 1)
                  && (next == Idle(Contention) <==> v > pc.e + 1)
                  && (v == pc.e + 1 ==> next == PopReady(pc.mode, pc.e, pc.at)))
  {
    hide And, Inv;
  }

  /** A compare-and-swap: CONTENTION exactly when the index has moved, and else the thread owns its ticket. */
  lemma CasDecides(s: State, t: Tid)
    requires Inv(s) && Enabled(s, t, Cas)
    ensures var pc, s' := s.threads[t], Step(s, t, Cas);
            && (pc.PushReady? ==>
                  && (s'.threads[t] == Idle(Contention) <==> s.m.head != pc.e)
                  && (s.m.head != pc.e ==> s'.m == s.m)
                  && (s.m.head == pc.e ==>
                        s'.threads[t] == PushCopy(pc.obj, pc.e, 0) && s'.m.head == pc.e + 1
                        && ClaimedBy(s'.m, t, pc.obj, pc.e)))
            && (pc.PopReady? ==>
                  && (s'.threads[t] == Idle(Contention) <==> s.m.tail != pc.e)
                  && (s.m.tail != pc.e ==> s'.m == s.m)
                  && (s.m.tail == pc.e ==>
                        s'.threads[t] == PopRead(pc.mode, pc.e, []) && s'.m.tail == pc.e + 1
                        && TakenBy(s'.m, t, pc.e)))
  {
    hide And;
    StepKeepsInv(s, t, Cas);
    assert ThreadOk(Step(s, t, Cas).m, t, Step(s, t, Cas).threads[t]);
  }

  /** The step of thread t by action a from s ends with FULL, EMPTY, CONTENTION or a ticket for these reasons only. */
  ghost predicate Explained(s: State, t: Tid, a: Action, next: Pc)
    requires t in s.threads
  {
    var pc := s.threads[t];
    && (next == Idle(Full) <==> a.LoadSlot? && pc.PushLoaded? && a.v < pc.e)
    && (next == Idle(Empty) <==> a.LoadSlot? && pc.PopLoaded? && a.v < pc.e + 1)
    && (next == Idle(Contention) <==>
          || (a.LoadSlot? && pc.PushLoaded? && a.v > pc.e)
          || (a.LoadSlot? && pc.PopLoaded? && a.v > pc.e + 1)
          || (a.Cas? && pc.PushReady? && s.m.head != pc.e)
          || (a.Cas? && pc.PopReady? && s.m.tail != pc.e))
    && (next.Idle? && next.ret.Pushed? <==> a.StoreSlot? && pc.PushCopy?)
    && (next.Idle? && next.ret.Popped? <==> a.StoreSlot? && pc.PopRead?)
    && (a.StoreSlot? && pc.PushCopy? ==> next == Idle(Pushed(pc.e)))
    && (a.StoreSlot? && pc.PopRead? ==> next == Idle(Popped(pc.e, pc.seen)))
  }

  lemma StepExplained(s: State, t: Tid, a: Action)
    requires Enabled(s, t, a)
    ensures Explained(s, t, a, Step(s, t, a).threads[t])
  {
    hide And;
  }

  /**
   * At every event of every run: FULL and EMPTY come from a slot load that found the slot behind and from
   * nothing else, CONTENTION from a slot load that found it past or from a lost compare-and-swap, and a
   * ticket from the release store of the thread that owns it.
   */
  lemma ResultsInRuns(s: State, evs: seq<Event>, j: nat)
    requires Inv(s) && CanRun(s, evs) && j < |evs|
    ensures CanRun(s, evs[..j]) && Inv(Run(s, evs[..j])) && CanRun(s, evs[..j + 1])
    ensures var before, ev := Run(s, evs[..j]), evs[j];
            && Enabled(before, ev.t, ev.a) && Run(s, evs[..j + 1]) == Step(before, ev.t, ev.a)
            && Explained(before, ev.t, ev.a, Run(s, evs[..j + 1]).threads[ev.t])
  {
    hide Inv, Enabled, Step, Run, CanRun, Explained;
    RunUpTo(s, evs, j);
    RunKeepsInv(s, evs[..j]);
    StepExplained(Run(s, evs[..j]), evs[j].t, evs[j].a);
  }

  lemma {:induction false} RunUpTo(s: State, evs: seq<Event>, j: nat)
    requires CanRun(s, evs) && j < |evs|
    ensures CanRun(s, evs[..j]) && CanRun(s, evs[..j + 1])
    ensures Enabled(Run(s, evs[..j]), evs[j].t, evs[j].a)
    ensures Run(s, evs[..j + 1]) == Step(Run(s, evs[..j]), evs[j].t, evs[j].a)
    decreases |evs|
  {
    hide Enabled, Step;
    if j == 0 {
      assert evs[..1] == [evs[0]];
      OneStep(s, evs[0]);
    } else {
      RunUpTo(Step(s, evs[0].t, evs[0].a), evs[1..], j - 1);
      assert evs[..j][1..] == evs[1..][..j - 1] && evs[..j + 1][1..] == evs[1..][..j];
    }
  }

  // Exactly when

  /** Thread u is filling the cell of ticket k. */
  ghost predicate Fills(s: State, u: Tid, k: nat) {
    u in s.threads && s.threads[u].PushCopy? && s.threads[u].e == k
  }

  /** Thread u holds, for its pop, the cell that ticket k needs. */
  ghost predicate HoldsFor(s: State, u: Tid, k: nat) {
    u in s.threads && s.threads[u].PopRead? && s.threads[u].e + s.m.n == k
  }

  lemma FrontUnpublished(s: State)
    requires Inv(s)
    ensures Unpublished(s.m, s.m.tail) <==> Queue(s.m) == [] || exists u :: Fills(s, u, s.m.tail)
  {
    hide And;
    var m, k, v := s.m, s.m.tail, SlotOf(s.m, s.m.tail);
    if k < m.head && v <= k {
      if Published(m.n, m.head, Idx(k, m.n), v) { IdxApart(v - 1, k, m.n); }
      assert Writes(s.threads, m.log[k].who, k);
      assert Fills(s, m.log[k].who, k);
    }
    if k == m.head && v > k {
      IdxApart(k, v, m.n);
    }
    forall u | Fills(s, u, k)
      ensures v <= k
    {
      assert ThreadOk(m, u, s.threads[u]);
    }
  }

  /** On a current slot load EMPTY says: tail_ unmoved, and the queue empty or its front still being filled. */
  lemma EmptyMeans(s: State, t: Tid)
    requires Inv(s) && t in s.threads && s.threads[t].PopLoaded?
    ensures var e := s.threads[t].e;
            Step(s, t, LoadSlot(SlotOf(s.m, e))).threads[t] == Idle(Empty)
            <==> s.m.tail == e && (Queue(s.m) == [] || exists u :: Fills(s, u, e))
  {
    hide Inv, And, Step;
    InvShape(s);
    EmptyIsHonest(s, t);
    FrontUnpublished(s);
  }

  /** A cell one lap back that has been taken but not released is being read. */
  lemma LapBackTaken(s: State, k: nat)
    requires Inv(s) && k + s.m.n == s.m.head && k < s.m.tail && SlotOf(s.m, k) < s.m.head
    ensures HoldsFor(s, s.m.taken[k], s.m.head)
  {
    hide And, IsPow2;
    assert Reads(s.threads, s.m.taken[k], k);
  }

  /** On a full ring the front still keeps its cell. */
  lemma LapBackPending(m: Ring)
    requires Shape(m) && m.tail + m.n == m.head
    ensures SlotOf(m, m.tail) < m.head
  {
    var j := Idx(m.tail, m.n);
    if !Free(m.n, m.tail, j, m.slot[j]) && m.slot[j] == m.head {
      IdxApart(m.tail, m.head - 1, m.n);
    }
  }

  lemma LapBackRead(s: State, u: Tid)
    requires Inv(s) && HoldsFor(s, u, s.m.head)
    ensures SlotOf(s.m, s.threads[u].e) < s.m.head
  {
    hide And, IsPow2;
    assert ThreadOk(s.m, u, s.threads[u]);
  }

  lemma LapBackUnreleased(s: State)
    requires Inv(s)
    ensures Unreleased(s.m, s.m.head - s.m.n) <==> |Queue(s.m)| == s.m.n || exists u :: HoldsFor(s, u, s.m.head)
  {
    hide And, Inv, IsPow2, SlotOf;
    InvShape(s);
    var m, k := s.m, s.m.head - s.m.n;
    if k == m.tail {
      LapBackPending(m);
    } else if 0 <= k && SlotOf(m, k) < m.head {
      LapBackTaken(s, k);
    }
    forall u | HoldsFor(s, u, m.head)
      ensures Unreleased(m, k)
    {
      LapBackRead(s, u);
    }
  }

  /** On a current slot load FULL says: head_ unmoved, and the queue full or the cell one lap back still being read. */
  lemma FullMeans(s: State, t: Tid)
    requires Inv(s) && t in s.threads && s.threads[t].PushLoaded?
    ensures var e := s.threads[t].e;
            Step(s, t, LoadSlot(SlotOf(s.m, e))).threads[t] == Idle(Full)
            <==> s.m.head == e && (|Queue(s.m)| == s.m.n || exists u :: HoldsFor(s, u, e))
  {
    hide Inv, And, Step;
    InvShape(s);
    FullIsHonest(s, t);
    LapBackUnreleased(s);
  }

  // Two runs in which they surprise

  /** A fresh ring of two one-byte cells and three threads. */
  const FRESH: State :=
    State(Ring(2, 1, 0, 0, [0, 1], [[0], [0]], [], [], map[]), map[0 := Idle(None), 1 := Idle(None), 2 := Idle(None)])

  lemma TwoCells()
    ensures Idx(0, 2) == 0 && Idx(1, 2) == 1 && Idx(2, 2) == 0
  {
    IdxSmall(0, 2);
    IdxSmall(1, 2);
    IdxNextLap(0, 2);
  }

  /** Thread 0 has claimed ticket 0 and not published it, thread 1 has pushed ticket 1, thread 2 has loaded tail_. */
  const FRONT_UNPUBLISHED: State :=
    State(Ring(2, 1, 2, 0, [0, 2], [[0], [8]], [Entry([7], 0), Entry([8], 1)], [], map[]),
          map[0 := PushCopy([7], 0, 0), 1 := Idle(Pushed(1)), 2 := PopLoaded(Callback, 0, 0)])

  lemma ReachFrontUnpublished() returns (evs: seq<Event>)
    ensures CanRun(FRESH, evs) && Run(FRESH, evs) == FRONT_UNPUBLISHED
  {
    hide Run, CanRun, Returns, And;
    TwoCells();
    RunNothing(FRESH);
    var s := FRESH;
    evs := [];
    evs, s := Extend(FRESH, evs, s, 0, BeginPush([7]));
    evs, s := Extend(FRESH, evs, s, 0, LoadIndex(0));
    evs, s := Extend(FRESH, evs, s, 0, LoadSlot(0));
    evs, s := Extend(FRESH, evs, s, 0, Cas);
    var push, r := OneBytePush(s, 1, 8);
    RunInTwo(FRESH, evs, push);
    evs, s := evs + push, r;
    evs, s := Extend(FRESH, evs, s, 2, BeginPop(Callback));
    evs, s := Extend(FRESH, evs, s, 2, LoadIndex(0));
  }

  /** EMPTY can hide a completed push: at the end of this run a pop reports it with two objects queued. */
  lemma EmptyDespiteCompletedPush() returns (evs: seq<Event>)
    ensures Initial(FRESH) && CanRun(FRESH, evs)
    ensures var r := Run(FRESH, evs);
            && Inv(r) && Queue(r.m) == [[7], [8]] && r.threads == FRONT_UNPUBLISHED.threads
            && Enabled(r, 2, LoadSlot(SlotOf(r.m, r.m.tail)))
            && Step(r, 2, LoadSlot(SlotOf(r.m, r.m.tail))).threads[2] == Idle(Empty)
  {
    hide Run, CanRun, And, Inv, IsPow2;
    TwoCells();
    FreshIsInitial();
    InitialInv(FRESH);
    evs := ReachFrontUnpublished();
    RunKeepsInv(FRESH, evs);
    InvShape(FRONT_UNPUBLISHED);
  }

  lemma FreshIsInitial()
    ensures Initial(FRESH)
  {
  }

  /** Both cells have been pushed, thread 2 has taken ticket 0 and not released it, thread 0 has loaded head_. */
  const FRONT_UNRELEASED: State :=
    State(Ring(2, 1, 2, 1, [1, 2], [[7], [8]], [Entry([7], 0), Entry([8], 1)], [2], map[]),
          map[0 := PushLoaded([9], 2, 2), 1 := Idle(Pushed(1)), 2 := PopRead(Callback, 0, [])])

  lemma ReachFrontUnreleased() returns (evs: seq<Event>)
    ensures CanRun(FRESH, evs) && Run(FRESH, evs) == FRONT_UNRELEASED
  {
    hide Run, CanRun, Returns, And;
    TwoCells();
    var s, push, r;
    evs, s := OneBytePush(FRESH, 0, 7);
    push, r := OneBytePush(s, 1, 8);
    RunInTwo(FRESH, evs, push);
    evs, s := evs + push, r;
    evs, s := Extend(FRESH, evs, s, 2, BeginPop(Callback));
    evs, s := Extend(FRESH, evs, s, 2, LoadIndex(0));
    evs, s := Extend(FRESH, evs, s, 2, LoadSlot(1));
    evs, s := Extend(FRESH, evs, s, 2, Cas);
    evs, s := Extend(FRESH, evs, s, 0, BeginPush([9]));
    evs, s := Extend(FRESH, evs, s, 0, LoadIndex(2));
  }

  /** FULL does not mean a full queue: at the end of this run a push reports it with one object in two cells. */
  lemma FullDespiteRoom() returns (evs: seq<Event>)
    ensures Initial(FRESH) && CanRun(FRESH, evs)
    ensures var r := Run(FRESH, evs);
            && Inv(r) && Queue(r.m) == [[8]] && r.m.n == 2 && r.threads == FRONT_UNRELEASED.threads
            && Enabled(r, 0, LoadSlot(SlotOf(r.m, r.m.head)))
            && Step(r, 0, LoadSlot(SlotOf(r.m, r.m.head))).threads[0] == Idle(Full)
  {
    hide Run, CanRun, And, Inv, IsPow2;
    TwoCells();
    FreshIsInitial();
    InitialInv(FRESH);
    evs := ReachFrontUnreleased();
    RunKeepsInv(FRESH, evs);
    InvShape(FRONT_UNRELEASED);
  }
}
