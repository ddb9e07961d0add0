/** The MPMC ring with nothing in flight: slot normal form, wait-freedom, solo operations, draining. */
module MpmcQuiescence {
  import opened Words
  import opened Cells
  import opened Operations
  import opened MpmcProtocol
  import opened MpmcInvariant
  import opened MpmcRuns

  // Wait-freedom

  /** How many steps of its own an operation still needs at most (callback reads apart). */
  ghost function Remaining(pc: Pc): nat {
    match pc
    case Idle(_) => 0
    case PushStart(obj) => |obj| + 4
    case PushLoaded(obj, _, _) => |obj| + 3
    case PushReady(obj, _, _) => |obj| + 2
    case PushCopy(obj, _, i) => if i <= |obj| then |obj| - i + 1 else 1
    case PopStart(mode) => Size(mode) + 4
    case PopLoaded(mode, _, _) => Size(mode) + 3
    case PopReady(mode, _, _) => Size(mode) + 2
    case PopRead(mode, _, seen) => if |seen| <= Size(mode) then Size(mode) - |seen| + 1 else 1
  }

  ghost function Size(mode: PopMode): nat {
    if mode.Into? then mode.size else 0
  }

  /** A thread's own next step when it reads current values; a callback returns at once. */
  ghost function OwnAction(m: Ring, pc: Pc): Action
    requires WellFormed(m) && !pc.Idle?
  {
    match pc
    case PushStart(_) => LoadIndex(m.head)
    case PopStart(_) => LoadIndex(m.tail)
    case PushCopy(obj, _, i) => if i < |obj| then CopyByte(i) else StoreSlot
    case PopRead(mode, _, seen) => if |seen| < Size(mode) then CopyByte(|seen|) else StoreSlot
    case PushLoaded(_, e, _) => LoadSlot(SlotOf(m, e))
    case PopLoaded(_, e, _) => LoadSlot(SlotOf(m, e))
    case PushReady(_, _, _) => Cas
    case PopReady(_, _, _) => Cas
  }

  lemma OwnActionFinishes(m: Ring, pc: Pc)
    requires WellFormed(m) && !pc.Idle?
    ensures !OwnAction(m, pc).BeginPush? && !OwnAction(m, pc).BeginPop?
  {
  }

  /** No operation ever waits for another thread: its next step is open and brings it nearer its end. */
  lemma OwnStepAdvances(s: State, t: Tid)
    requires Inv(s) && t in s.threads && !s.threads[t].Idle?
    ensures Enabled(s, t, OwnAction(s.m, s.threads[t]))
    ensures Remaining(Step(s, t, OwnAction(s.m, s.threads[t])).threads[t]) < Remaining(s.threads[t])
  {
    assert ThreadOk(s.m, t, s.threads[t]);
  }

  ghost function CountOf(evs: seq<Event>, t: Tid): nat {
    if evs == [] then 0 else (if evs[0].t == t then 1 else 0) + CountOf(evs[1..], t)
  }

  /** A push, or a pop that copies. */
  ghost predicate Bounded(pc: Pc) {
    (pc.PopStart? || pc.PopLoaded? || pc.PopReady? || pc.PopRead?) ==> pc.mode.Into?
  }

  lemma EveryStepAdvances(m: Ring, t: Tid, pc: Pc, a: Action)
    requires Shape(m) && ThreadOk(m, t, pc) && CanDo(m, pc, a) && !a.BeginPush? && !a.BeginPop? && Bounded(pc)
    ensures Remaining(NextPc(m, pc, a)) < Remaining(pc) && Bounded(NextPc(m, pc, a))
  {
  }

  /**
   * Wait-freedom: under any interleaving, a push or copying pop that thread t has begun takes at
   * most Remaining of t's own steps, whatever the other threads do.
   */
  lemma {:induction false} OperationIsBounded(s: State, evs: seq<Event>, t: Tid)
    requires Inv(s) && CanRun(s, evs) && t in s.threads && !s.threads[t].Idle? && Bounded(s.threads[t])
    requires forall i | 0 <= i < |evs| && evs[i].t == t :: !evs[i].a.BeginPush? && !evs[i].a.BeginPop?
    ensures t in Run(s, evs).threads
    ensures CountOf(evs, t) + Remaining(Run(s, evs).threads[t]) <= Remaining(s.threads[t])
    decreases |evs|
  {
    hide And, Remaining, Bounded;
    if evs != [] {
      var s' := Step(s, evs[0].t, evs[0].a);
      StepKeepsInv(s, evs[0].t, evs[0].a);
      if evs[0].t == t {
        EveryStepAdvances(s.m, t, s.threads[t], evs[0].a) by { assert ThreadOk(s.m, t, s.threads[t]); }
      }
      assert forall i | 0 <= i < |evs[1..]| :: evs[1..][i] == evs[i + 1];
      if s'.threads[t].Idle? {
        IdleStaysIdle(s', evs[1..], t);
      } else {
        OperationIsBounded(s', evs[1..], t);
      }
    }
  }

  lemma {:induction false} IdleStaysIdle(s: State, evs: seq<Event>, t: Tid)
    requires CanRun(s, evs) && t in s.threads && s.threads[t].Idle?
    requires forall i | 0 <= i < |evs| && evs[i].t == t :: !evs[i].a.BeginPush? && !evs[i].a.BeginPop?
    ensures t in Run(s, evs).threads && CountOf(evs, t) + Remaining(Run(s, evs).threads[t]) == 0
    decreases |evs|
  {
    if evs != [] {
      assert forall i | 0 <= i < |evs[1..]| :: evs[1..][i] == evs[i + 1];
      IdleStaysIdle(Step(s, evs[0].t, evs[0].a), evs[1..], t);
    }
  }

  // Letting one thread finish

  ghost function RunAlone(s: State, t: Tid): (r: State)
    requires Inv(s) && t in s.threads
    ensures Inv(r) && Later(s.m, r.m)
    ensures r.threads.Keys == s.threads.Keys && r.threads[t].Idle?
    ensures forall u | u in s.threads && u != t :: r.threads[u] == s.threads[u]
    decreases Remaining(s.threads[t])
  {
    if s.threads[t].Idle? then s else
      OwnStepAdvances(s, t);
      var a := OwnAction(s.m, s.threads[t]);
      StepKeepsInv(s, t, a);
      StepIsLater(s, t, a);
      RunAlone(Step(s, t, a), t)
  }

  /** Nobody starts an operation. */
  ghost predicate Finishing(evs: seq<Event>) {
    forall i | 0 <= i < |evs| :: !evs[i].a.BeginPush? && !evs[i].a.BeginPop?
  }

  /** Running one thread alone to its return is a run of the protocol, with that one result. */
  lemma {:induction false} AloneIsRun(s: State, t: Tid) returns (evs: seq<Event>)
    requires Inv(s) && t in s.threads
    ensures CanRun(s, evs) && Run(s, evs) == RunAlone(s, t)
    ensures Returns(s, evs) == if s.threads[t].Idle? then [] else [RunAlone(s, t).threads[t].ret]
    ensures Finishing(evs)
    decreases Remaining(s.threads[t])
  {
    hide Inv, Enabled, OwnAction;
    InvShape(s);
    if s.threads[t].Idle? {
      evs := [];
    } else {
      OwnStepAdvances(s, t);
      var a := OwnAction(s.m, s.threads[t]);
      StepKeepsInv(s, t, a);
      var rest := AloneIsRun(Step(s, t, a), t);
      OwnActionFinishes(s.m, s.threads[t]);
      evs := [Event(t, a)] + rest;
      assert evs[1..] == rest;
    }
  }

  /** From its claim on, a push run alone only fills its cell and publishes it. */
  lemma {:induction false} AloneFromClaim(s: State, t: Tid)
    requires Inv(s) && t in s.threads && s.threads[t].PushCopy?
    ensures var r := RunAlone(s, t);
            && r.m.head == s.m.head && r.m.tail == s.m.tail && r.m.log == s.m.log
            && r.threads[t].ret == Pushed(s.threads[t].e)
    decreases Remaining(s.threads[t])
  {
    OwnStepAdvances(s, t);
    var a := OwnAction(s.m, s.threads[t]);
    StepKeepsInv(s, t, a);
    if a.CopyByte? {
      AloneFromClaim(Step(s, t, a), t);
    }
  }

  /** From its claim on, a pop run alone reads its cell and releases it. */
  lemma {:induction false} AloneFromTake(s: State, t: Tid)
    requires Inv(s) && t in s.threads && s.threads[t].PopRead?
    ensures var r, pc := RunAlone(s, t), s.threads[t];
            && r.m.head == s.m.head && r.m.tail == s.m.tail && r.m.log == s.m.log
            && r.threads[t].ret.Popped? && r.threads[t].ret.ticket == pc.e
            && pc.e < |r.m.log| && ReadsFrom(r.threads[t].ret.seen, r.m.log[pc.e].obj)
            && (pc.mode.Into? ==> |r.threads[t].ret.seen| == pc.mode.size && InOrder(pc.mode, r.threads[t].ret.seen))
    decreases Remaining(s.threads[t])
  {
    OwnStepAdvances(s, t);
    var a := OwnAction(s.m, s.threads[t]);
    StepKeepsInv(s, t, a);
    assert ThreadOk(s.m, t, s.threads[t]);
    if a.CopyByte? {
      AloneFromTake(Step(s, t, a), t);
    } else {
      PopReturnsItsObject(s, t);
    }
  }

  // Quiescence

  ghost predicate Quiet(s: State) {
    forall t | t in s.threads :: s.threads[t].Idle?
  }

  lemma ReadersGone(s: State, k: nat)
    requires Inv(s) && Quiet(s) && k < s.m.tail
    ensures k in s.m.given
  {
    assert k in s.m.given || Reads(s.threads, s.m.taken[k], k);
  }

  /** With no operation in flight, head and tail alone determine every slot. */
  lemma QuietNormalForm(s: State, k: nat)
    requires Inv(s) && Quiet(s) && s.m.tail <= k < s.m.tail + s.m.n
    ensures SlotOf(s.m, k) == if k < s.m.head then k + 1 else k
  {
    var m, v := s.m, SlotOf(s.m, k);
    if Free(m.n, m.tail, Idx(k, m.n), v) {
      if k < v { IdxApart(k, v, m.n); }
      if v < k { IdxApart(v, k, m.n); }
      assert k >= m.head || Writes(s.threads, m.log[k].who, k);
    } else {
      assert Published(m.n, m.head, Idx(k, m.n), v);
      if v - 1 < m.tail {
        ReadersGone(s, v - 1);
      } else {
        if k < v - 1 { IdxApart(k, v - 1, m.n); }
        if v - 1 < k { IdxApart(v - 1, k, m.n); }
      }
    }
  }

  lemma QuietSlotsDetermined(s: State, r: State)
    requires Inv(s) && Quiet(s) && Inv(r) && Quiet(r)
    requires s.m.n == r.m.n && s.m.head == r.m.head && s.m.tail == r.m.tail
    ensures s.m.slot == r.m.slot
  {
    forall j | 0 <= j < s.m.n
      ensures s.m.slot[j] == r.m.slot[j]
    {
      var k := TicketIn(j, s.m.tail, s.m.n);
      QuietNormalForm(s, k);
      QuietNormalForm(r, k);
    }
  }

  // Solo operations

  ghost function Push(s: State, t: Tid, obj: seq<Byte>): (r: State)
    requires Inv(s) && t in s.threads && s.threads[t].Idle?
    ensures Inv(r) && r.threads.Keys == s.threads.Keys && r.threads[t].Idle?
    ensures forall u | u in s.threads && u != t :: r.threads[u] == s.threads[u]
  {
    StepKeepsInv(s, t, BeginPush(obj));
    RunAlone(Step(s, t, BeginPush(obj)), t)
  }

  ghost function Pop(s: State, t: Tid, mode: PopMode): (r: State)
    requires Inv(s) && t in s.threads && s.threads[t].Idle?
    ensures Inv(r) && r.threads.Keys == s.threads.Keys && r.threads[t].Idle?
    ensures forall u | u in s.threads && u != t :: r.threads[u] == s.threads[u]
  {
    StepKeepsInv(s, t, BeginPop(mode));
    RunAlone(Step(s, t, BeginPop(mode)), t)
  }

  lemma AloneStep(s: State, t: Tid) returns (s': State)
    requires Inv(s) && t in s.threads && !s.threads[t].Idle?
    ensures Enabled(s, t, OwnAction(s.m, s.threads[t])) && s' == Step(s, t, OwnAction(s.m, s.threads[t]))
    ensures Inv(s') && RunAlone(s, t) == RunAlone(s', t)
  {
    OwnStepAdvances(s, t);
    s' := Step(s, t, OwnAction(s.m, s.threads[t]));
    StepKeepsInv(s, t, OwnAction(s.m, s.threads[t]));
  }

  /** The two slots a solo operation looks at. */
  lemma QuietFront(s: State)
    requires Inv(s) && Quiet(s)
    ensures SlotOf(s.m, s.m.head) == if s.m.head < s.m.tail + s.m.n then s.m.head else s.m.tail + 1
    ensures SlotOf(s.m, s.m.tail) == if s.m.tail < s.m.head then s.m.tail + 1 else s.m.tail
  {
    QuietNormalForm(s, s.m.tail);
    if s.m.head < s.m.tail + s.m.n {
      QuietNormalForm(s, s.m.head);
    } else {
      IdxNextLap(s.m.tail, s.m.n);
    }
  }

  lemma AloneFromIdle(s: State, t: Tid)
    requires Inv(s) && t in s.threads && s.threads[t].Idle?
    ensures RunAlone(s, t) == s
  {
  }

  lemma TooLargeReturns(s: State, t: Tid, obj: seq<Byte>, mode: PopMode)
    requires Inv(s) && t in s.threads && s.threads[t].Idle?
    ensures |obj| > s.m.sz ==> Push(s, t, obj) == State(s.m, s.threads[t := Idle(PushSizeTooLarge)])
    ensures !ModeFits(mode, s.m.sz) ==> Pop(s, t, mode) == State(s.m, s.threads[t := Idle(PopSizeTooLarge)])
  {
    if |obj| > s.m.sz {
      var s' := Step(s, t, BeginPush(obj));
      StepKeepsInv(s, t, BeginPush(obj));
      AloneFromIdle(s', t);
    }
    if !ModeFits(mode, s.m.sz) {
      var s' := Step(s, t, BeginPop(mode));
      StepKeepsInv(s, t, BeginPop(mode));
      AloneFromIdle(s', t);
    }
  }

  /** A solo push up to its decision on the slot it loaded. */
  lemma SoloPushDecides(s: State, t: Tid, obj: seq<Byte>) returns (d: State)
    requires Inv(s) && Quiet(s) && t in s.threads && |obj| <= s.m.sz
    ensures Inv(d) && d.m == s.m && d.threads.Keys == s.threads.Keys && Push(s, t, obj) == RunAlone(d, t)
    ensures d.threads[t] == if s.m.head < s.m.tail + s.m.n then PushReady(obj, s.m.head, s.m.head) else Idle(Full)
  {
    hide Inv, RunAlone;
    InvShape(s);
    var s0 := Step(s, t, BeginPush(obj));
    StepKeepsInv(s, t, BeginPush(obj));
    var s1 := AloneStep(s0, t);
    QuietFront(s);
    d := AloneStep(s1, t);
  }

  /** A push on a quiet ring reports FULL exactly on a full ring and otherwise enqueues its object. */
  lemma SoloPush(s: State, t: Tid, obj: seq<Byte>)
    requires Inv(s) && Quiet(s) && t in s.threads
    ensures Quiet(Push(s, t, obj))
    ensures var r := Push(s, t, obj); var ret := r.threads[t].ret;
            if |obj| > s.m.sz then ret == PushSizeTooLarge && r.m == s.m
            else if |Queue(s.m)| == s.m.n then ret == Full && r.m == s.m
            else ret == Pushed(s.m.head) && Queue(r.m) == Queue(s.m) + [obj]
  {
    hide Inv, Push, RunAlone;
    InvShape(s);
    InvShape(Push(s, t, obj));
    if |obj| <= s.m.sz {
      var d := SoloPushDecides(s, t, obj);
      if s.m.head < s.m.tail + s.m.n {
        var c := AloneStep(d, t);
        AloneFromClaim(c, t);
      } else {
        AloneFromIdle(d, t);
      }
    } else {
      TooLargeReturns(s, t, obj, Callback);
    }
  }

  /** A solo pop up to its decision on the slot it loaded. */
  lemma SoloPopDecides(s: State, t: Tid, mode: PopMode) returns (d: State)
    requires Inv(s) && Quiet(s) && t in s.threads && ModeFits(mode, s.m.sz)
    ensures Inv(d) && d.m == s.m && d.threads.Keys == s.threads.Keys && Pop(s, t, mode) == RunAlone(d, t)
    ensures d.threads[t] == if s.m.tail < s.m.head then PopReady(mode, s.m.tail, s.m.tail) else Idle(Empty)
  {
    hide Inv, RunAlone;
    InvShape(s);
    var s0 := Step(s, t, BeginPop(mode));
    StepKeepsInv(s, t, BeginPop(mode));
    var s1 := AloneStep(s0, t);
    QuietFront(s);
    d := AloneStep(s1, t);
  }

  /** From a favourable decision on, a solo pop dequeues the front. */
  lemma SoloPopTakes(d: State, t: Tid, mode: PopMode)
    requires Inv(d) && t in d.threads && d.threads[t] == PopReady(mode, d.m.tail, d.m.tail) && d.m.tail < d.m.head
    ensures var r := RunAlone(d, t); var ret := r.threads[t].ret;
            && r.m.log == d.m.log && r.m.tail == d.m.tail + 1
            && ret.Popped? && ret.ticket == d.m.tail
            && ReadsFrom(ret.seen, d.m.log[d.m.tail].obj)
            && (mode.Into? ==> |ret.seen| == mode.size && InOrder(mode, ret.seen))
  {
    hide Inv, RunAlone;
    InvShape(d);
    var c := AloneStep(d, t);
    AloneFromTake(c, t);
  }

  /** A pop on a quiet ring reports EMPTY exactly on an empty ring and otherwise dequeues the front. */
  lemma SoloPop(s: State, t: Tid, mode: PopMode)
    requires Inv(s) && Quiet(s) && t in s.threads
    ensures Quiet(Pop(s, t, mode))
    ensures var r := Pop(s, t, mode); var ret := r.threads[t].ret;
            if !ModeFits(mode, s.m.sz) then ret == PopSizeTooLarge && r.m == s.m
            else if Queue(s.m) == [] then ret == Empty && r.m == s.m
            else
              && ret.Popped? && ret.ticket == s.m.tail
              && ReadsFrom(ret.seen, Queue(s.m)[0])
              && (mode.Into? ==> |ret.seen| == mode.size && InOrder(mode, ret.seen))
              && r.m.sz == s.m.sz && r.m.tail == s.m.tail + 1
              && Queue(r.m) == Queue(s.m)[1..]
  {
    hide Inv, Pop, RunAlone;
    InvShape(s);
    InvShape(Pop(s, t, mode));
    if ModeFits(mode, s.m.sz) {
      var d := SoloPopDecides(s, t, mode);
      if s.m.tail < s.m.head {
        SoloPopTakes(d, t, mode);
      } else {
        AloneFromIdle(d, t);
      }
    } else {
      TooLargeReturns(s, t, [], mode);
    }
  }

  // Draining

  /** The operations in flight can always be run to their returns. */
  lemma {:induction false} QuietIsReachable(s: State, busy: set<Tid>) returns (evs: seq<Event>)
    requires Inv(s) && busy <= s.threads.Keys && forall t | t in s.threads && t !in busy :: s.threads[t].Idle?
    ensures CanRun(s, evs) && Quiet(Run(s, evs)) && Finishing(evs)
    decreases busy
  {
    hide Inv, RunAlone, Run, CanRun;
    RunNothing(s);
    evs := [];
    if busy != {} {
      var t :| t in busy;
      evs := AloneIsRun(s, t);
      var rest := QuietIsReachable(RunAlone(s, t), busy - {t});
      RunInTwo(s, evs, rest);
      evs := evs + rest;
    }
  }

  /** A result of a whole-object pop: the ticket and a block that starts with the object. */
  ghost predicate Delivers(r: Ret, ticket: nat, obj: seq<Byte>) {
    r.Popped? && r.ticket == ticket && obj <= Bytes(r.seen)
  }

  /** A whole-object pop delivers a block that starts with the front object. */
  lemma PopDeliversFront(s: State, t: Tid)
    requires Inv(s) && Quiet(s) && t in s.threads && Queue(s.m) != []
    ensures var r := Pop(s, t, Into(s.m.sz));
            && Quiet(r) && Delivers(r.threads[t].ret, s.m.tail, Queue(s.m)[0])
            && r.m.tail == s.m.tail + 1 && Queue(r.m) == Queue(s.m)[1..]
  {
    hide Inv, Pop;
    InvShape(s);
    InvShape(Pop(s, t, Into(s.m.sz)));
    SoloPop(s, t, Into(s.m.sz));
    var seen := Pop(s, t, Into(s.m.sz)).threads[t].ret.seen;
    var front := Queue(s.m)[0];
    assert front == s.m.log[s.m.tail].obj;
    CopyAgrees(seen, s.m.sz, front);
  }

  lemma PopIsRun(s: State, t: Tid, mode: PopMode) returns (evs: seq<Event>)
    requires Inv(s) && t in s.threads && s.threads[t].Idle?
    ensures CanRun(s, evs) && Run(s, evs) == Pop(s, t, mode)
    ensures Returns(s, evs) == [Pop(s, t, mode).threads[t].ret]
  {
    hide Inv, RunAlone;
    InvShape(s);
    var s' := Step(s, t, BeginPop(mode));
    StepKeepsInv(s, t, BeginPop(mode));
    var rest := AloneIsRun(s', t);
    if s'.threads[t].Idle? { AloneFromIdle(s', t); }
    evs := [Event(t, BeginPop(mode))] + rest;
    assert evs[1..] == rest;
  }

  /** From a quiet ring, `count` whole-object pops in a row are a run that delivers the front of the queue. */
  lemma {:induction false} PopsDeliver(s: State, t: Tid, count: nat) returns (pops: seq<Event>)
    requires Inv(s) && Quiet(s) && t in s.threads && count <= |Queue(s.m)|
    ensures CanRun(s, pops) && Inv(Run(s, pops)) && Quiet(Run(s, pops))
    ensures Queue(Run(s, pops).m) == Queue(s.m)[count..]
    ensures |Returns(s, pops)| == count
    ensures forall i | 0 <= i < count :: Delivers(Returns(s, pops)[i], s.m.tail + i, Queue(s.m)[i])
    decreases count
  {
    hide Inv, Pop, Run, CanRun, Returns, Queue;
    InvShape(s);
    RunNothing(s);
    pops := [];
    if count > 0 {
      PopDeliversFront(s, t);
      var r := Pop(s, t, Into(s.m.sz));
      InvShape(r);
      var first := PopIsRun(s, t, Into(s.m.sz));
      var rest := PopsDeliver(r, t, count - 1);
      RunInTwo(s, first, rest);
      pops := first + rest;
      forall i | 0 <= i < count
        ensures Delivers(Returns(s, pops)[i], s.m.tail + i, Queue(s.m)[i])
      {
        assert i > 0 ==> Queue(s.m)[i] == Queue(r.m)[i - 1];
      }
    }
  }

  /**
   * Nothing is lost: at the end of any run that leaves no operation in flight, every ticket below tail_
   * has been handed over as pushed, and popping delivers every remaining object, oldest first, until
   * the ring is empty.
   */
  lemma EveryStateDrains(s: State, evs: seq<Event>, t: Tid) returns (pops: seq<Event>)
    requires Inv(s) && CanRun(s, evs) && Quiet(Run(s, evs)) && t in s.threads
    ensures var q := Run(s, evs);
            && Inv(q) && s.m.log <= q.m.log
            && (forall k | 0 <= k < q.m.tail :: k in q.m.given && ReadsFrom(q.m.given[k], q.m.log[k].obj))
            && CanRun(q, pops) && Inv(Run(q, pops)) && Quiet(Run(q, pops)) && Queue(Run(q, pops).m) == []
            && |Returns(q, pops)| == |Queue(q.m)|
            && forall i | 0 <= i < |Queue(q.m)| ::
                 Delivers(Returns(q, pops)[i], q.m.tail + i, q.m.log[q.m.tail + i].obj)
  {
    hide Inv, Run, CanRun, Returns;
    var q := Run(s, evs);
    RunKeepsInv(s, evs);
    RunIsLater(s, evs);
    RunKeepsThreads(s, evs);
    InvShape(q);
    pops := PopsDeliver(q, t, |Queue(q.m)|);
    InvShape(Run(q, pops));
    forall k | 0 <= k < q.m.tail
      ensures k in q.m.given && k < |q.m.log| && ReadsFrom(q.m.given[k], q.m.log[k].obj)
    {
      ReadersGone(q, k);
      PoppedTicketsAccountedFor(q, k);
    }
  }
}
