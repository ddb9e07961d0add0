/**
 * What a call on the blocking ring does, across any number of sleeps and wake-ups: it keeps its argument
 * from its begin to the move of its index, and returns the ticket that stands for just that argument.
 */
module BlockCalls {
  import opened Words
  import opened Cells
  import opened Operations
  import opened BoundedFifo
  import opened BlockProtocol
  import opened BlockInvariant
  import opened BlockRuns

  // One step

  /** The ticket just pushed stands for obj. */
  ghost predicate JustPushed(m: Ring, ticket: SizeT, obj: seq<Byte>) {
    |m.log| > 0 && ticket == Wrap(|m.log| - 1) && m.log[|m.log| - 1] == obj
  }

  /** The ticket just popped was read in full, and what was read is the object it stands for. */
  ghost predicate JustPopped(m: Ring, ticket: SizeT, seen: seq<Read>, mode: PopMode) {
    && 0 < m.tail <= |m.log| && ticket == Wrap(m.tail - 1)
    && mode.Into? && |seen| == mode.size <= m.sz && InOrder(mode, seen) && ReadsFrom(seen, m.log[m.tail - 1])
  }

  /** A thread at pc is working on this very call. */
  ghost predicate Serves(m: Ring, pc: Pc, call: Call) {
    match pc
    case Idle(_) => true
    case PushArriving(obj) => call == PushCall(obj)
    case PushTesting(obj, _) => call == PushCall(obj)
    case PushAsleep(obj) => call == PushCall(obj)
    case PushWoken(obj) => call == PushCall(obj)
    case PushCopying(obj, _, _) => call == PushCall(obj)
    case PushSignalling(ticket) => call.PushCall? && JustPushed(m, ticket, call.obj)
    case PushLeaving(ticket) => call.PushCall? && JustPushed(m, ticket, call.obj)
    case PopArriving(size) => call == PopCall(Into(size))
    case PopTesting(size, _) => call == PopCall(Into(size))
    case PopAsleep(size) => call == PopCall(Into(size))
    case PopWoken(size) => call == PopCall(Into(size))
    case PopCopying(size, _, _) => call == PopCall(Into(size))
    case PopSignalling(ticket, seen) => call.PopCall? && JustPopped(m, ticket, seen, call.mode)
    case PopLeaving(ticket, seen) => call.PopCall? && JustPopped(m, ticket, seen, call.mode)
  }

  /** The call a thread is working on after an action of its own. */
  ghost function CallAfter(call: Call, a: Action): Call {
    match a
    case BeginPush(obj) => PushCall(obj)
    case BeginPop(size) => PopCall(Into(size))
    case _ => call
  }

  /** A call starts with its argument, unless it is refused for its size. */
  lemma BeginServes(s: State, t: Tid, a: Action)
    requires Inv(s) && Enabled(s, t, a) && (a.BeginPush? || a.BeginPop?)
    ensures t in Step(s, t, a).threads
    ensures Serves(Step(s, t, a).m, Step(s, t, a).threads[t], CallAfter(NoCall, a))
    ensures var pc := Step(s, t, a).threads[t];
            && (a.BeginPush? ==> (pc == Idle(PushSizeTooLarge) <==> |a.obj| > s.m.sz))
            && (a.BeginPop? ==> (pc == Idle(PopSizeTooLarge) <==> a.size > s.m.sz))
            && (pc.Idle? ==> pc.ret.PushSizeTooLarge? || pc.ret.PopSizeTooLarge?)
  {
    hide And, MutexInv, WakeupsInv;
  }

  /** A thread's own step keeps its call: asleep, woken, testing again or copying. */
  lemma OwnStepServes(s: State, t: Tid, a: Action, call: Call)
    requires Inv(s) && Enabled(s, t, a) && !a.BeginPush? && !a.BeginPop? && Serves(s.m, s.threads[t], call)
    ensures t in Step(s, t, a).threads && Serves(Step(s, t, a).m, Step(s, t, a).threads[t], call)
  {
    hide And, Wrap, MutexInv, WakeupsInv;
    var m, pc := s.m, s.threads[t];
    assert ThreadOk(m, pc);
    if a.Advance? && pc.PopCopying? {
      assert m.log[m.tail] <= CellOf(m, m.tail);
    }
  }

  /** So does a step of any other thread; only a signal touches it at all, by ending its sleep. */
  lemma OtherStepServes(s: State, t: Tid, a: Action, u: Tid, call: Call)
    requires Inv(s) && Enabled(s, t, a) && u in s.threads && u != t && Serves(s.m, s.threads[u], call)
    ensures u in Step(s, t, a).threads && Serves(Step(s, t, a).m, Step(s, t, a).threads[u], call)
    ensures var p, q := s.threads[u], Step(s, t, a).threads[u];
            q == p || (a.Signal? && u in a.roused && Asleep(p) && WantsLock(q))
  {
    hide And, WakeupsInv;
    assert Inside(s.threads[t]) ==> !Inside(s.threads[u]);
  }

  lemma StepServes(s: State, t: Tid, a: Action, u: Tid, call: Call)
    requires Inv(s) && Enabled(s, t, a) && u in s.threads && Serves(s.m, s.threads[u], call)
    ensures u in Step(s, t, a).threads
    ensures Serves(Step(s, t, a).m, Step(s, t, a).threads[u], if u == t then CallAfter(call, a) else call)
  {
    hide Inv, Step, Enabled, Serves;
    if u != t {
      OtherStepServes(s, t, a, u, call);
    } else if a.BeginPush? || a.BeginPop? {
      BeginServes(s, t, a);
    } else {
      OwnStepServes(s, t, a, call);
    }
  }

  // Decisions

  /** At first or after any wake-up, a push goes to sleep exactly on a full ring and a pop on an empty one. */
  lemma TestDecides(s: State, t: Tid)
    requires Inv(s) && Enabled(s, t, Test)
    ensures var pc, next := s.threads[t], Step(s, t, Test).threads[t];
            && (pc.PushTesting? ==>
                  next == if |Queue(s.m)| == s.m.n then PushAsleep(pc.obj) else PushCopying(pc.obj, pc.woken, 0))
            && (pc.PopTesting? ==>
                  next == if Queue(s.m) == [] then PopAsleep(pc.size) else PopCopying(pc.size, pc.woken, []))
  {
    hide And, MutexInv, WakeupsInv;
  }

  /** What POSIX leaves open: a sleeper may wake by itself, and a signal may rouse any sleepers, but not none. */
  lemma WakeupsAllowed(s: State, t: Tid, roused: set<Tid>)
    requires Inv(s) && t in s.threads
    ensures Asleep(s.threads[t]) ==> Enabled(s, t, Rouse) && WantsLock(Step(s, t, Rouse).threads[t])
    ensures s.threads[t].PushSignalling? || s.threads[t].PopSignalling? ==>
              var sleepers := Sleepers(s.threads, s.threads[t]);
              (Enabled(s, t, Signal(roused)) <==> roused <= sleepers && (roused == {} ==> sleepers == {}))
  {
    hide And, MutexInv, WakeupsInv;
  }

  // Runs

  /** The call thread t has begun last in a run. */
  ghost function LastCall(call: Call, evs: seq<Event>, t: Tid): Call
    decreases |evs|
  {
    if evs == [] then call
    else LastCall(if evs[0].t == t then CallAfter(call, evs[0].a) else call, evs[1..], t)
  }

  lemma {:induction false} RunServes(s: State, evs: seq<Event>, t: Tid, call: Call)
    requires Inv(s) && CanRun(s, evs) && t in s.threads && Serves(s.m, s.threads[t], call)
    ensures Inv(Run(s, evs)) && t in Run(s, evs).threads
    ensures Serves(Run(s, evs).m, Run(s, evs).threads[t], LastCall(call, evs, t))
    decreases |evs|
  {
    hide Inv, Step, Enabled, Serves, CallAfter;
    if evs != [] {
      StepKeepsInv(s, evs[0].t, evs[0].a);
      StepServes(s, evs[0].t, evs[0].a, t, call);
      RunServes(Step(s, evs[0].t, evs[0].a), evs[1..], t,
                if evs[0].t == t then CallAfter(call, evs[0].a) else call);
    }
  }

  /**
   * Whatever happened since, the object a push enqueues is the argument its thread began with, and a pop
   * dequeues the front having read, in order, just as many bytes of it as its thread asked for.
   */
  lemma EffectsAreOfCalls(s: State, evs: seq<Event>, t: Tid)
    requires Inv(s) && t in s.threads && s.threads[t].Idle? && CanRun(s, evs) && Enabled(Run(s, evs), t, Advance)
    ensures var r, call := Run(s, evs), LastCall(NoCall, evs, t);
            && Inv(r)
            && match call
               case PushCall(obj) => Effect(r, t, Advance) == [Enqueue(obj)]
               case PopCall(mode) =>
                 && Queue(r.m) != [] && Effect(r, t, Advance) == [Dequeue(Queue(r.m)[0])]
                 && r.threads[t].PopCopying? && mode == Into(|r.threads[t].seen|)
                 && ReadsFrom(r.threads[t].seen, Queue(r.m)[0])
               case NoCall => false
  {
    hide And, MutexInv, WakeupsInv, Run, CanRun;
    RunServes(s, evs, t, NoCall);
    var r := Run(s, evs);
    if r.threads[t].PopCopying? {
      assert ThreadOk(r.m, r.threads[t]);
      assert r.m.log[r.m.tail] <= CellOf(r.m, r.m.tail);
    }
  }

  /** The result of a call: refused for its size, or the ticket and the bytes of its own effect. */
  ghost predicate Outcome(m: Ring, call: Call, ret: Ret) {
    match call
    case PushCall(obj) =>
      if |obj| > m.sz then ret == PushSizeTooLarge
      else ret.Pushed? && ret.ticket < TWO_TO_THE_64 && JustPushed(m, ret.ticket, obj)
    case PopCall(mode) =>
      if !ModeFits(mode, m.sz) then ret == PopSizeTooLarge
      else ret.Popped? && ret.ticket < TWO_TO_THE_64 && JustPopped(m, ret.ticket, ret.seen, mode)
    case NoCall => false
  }

  /** At the end of any run, the step with which a thread returns gives the result of the call it began. */
  lemma CallReturns(s: State, evs: seq<Event>, t: Tid, a: Action)
    requires Inv(s) && t in s.threads && s.threads[t].Idle? && CanRun(s, evs)
    requires Enabled(Run(s, evs), t, a) && Step(Run(s, evs), t, a).threads[t].Idle?
    ensures var r := Step(Run(s, evs), t, a);
            Outcome(r.m, CallAfter(LastCall(NoCall, evs, t), a), r.threads[t].ret)
  {
    hide And, MutexInv, WakeupsInv, Run, CanRun;
    RunServes(s, evs, t, NoCall);
    var r := Run(s, evs);
    assert ThreadOk(r.m, r.threads[t]);
  }
}
