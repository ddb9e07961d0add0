/**
 * What one call on the MPMC ring does under any interleaving: it keeps its argument, takes effect at most
 * once, and its result says whether it did and with which ticket.
 */
module MpmcCalls {
  import opened Words
  import opened Cells
  import opened Operations
  import opened MpmcProtocol
  import opened MpmcInvariant
  import opened MpmcRuns

  // What t has done since the ring was m0

  ghost predicate NoEffect(m0: Ring, m: Ring, t: Tid) {
    NotPushedSince(m.log, t, |m0.log|) && NotTakenSince(m.taken, t, |m0.taken|)
  }

  /** One push, of obj with ticket k, and nothing else. */
  ghost predicate OnePush(m0: Ring, m: Ring, t: Tid, k: nat, obj: seq<Byte>) {
    && |m0.log| <= k < |m.log| && m.log[k] == Entry(obj, t)
    && (forall i | |m0.log| <= i < |m.log| && i != k :: m.log[i].who != t)
    && NotTakenSince(m.taken, t, |m0.taken|)
  }

  /** One pop, of ticket k, and nothing else. */
  ghost predicate OnePop(m0: Ring, m: Ring, t: Tid, k: nat) {
    && |m0.taken| <= k < |m.taken| && m.taken[k] == t
    && (forall i | |m0.taken| <= i < |m.taken| && i != k :: m.taken[i] != t)
    && NotPushedSince(m.log, t, |m0.log|)
  }

  // The contract of a call

  ghost predicate Fits(call: Call, sz: nat) {
    (call.PushCall? ==> |call.obj| <= sz) && (call.PopCall? ==> ModeFits(call.mode, sz))
  }

  /**
   * The result of a call: a ticket for its one effect, with the argument pushed and published or the bytes
   * asked for handed over; or an error and no effect, the size error exactly on a misfit.
   */
  ghost predicate Outcome(m0: Ring, m: Ring, t: Tid, call: Call, ret: Ret)
    requires WellFormed(m)
  {
    match ret
    case Pushed(k) =>
      && call.PushCall? && Fits(call, m.sz)
      && OnePush(m0, m, t, k, call.obj) && k < SlotOf(m, k)
    case Popped(k, seen) =>
      && call.PopCall? && Fits(call, m.sz)
      && OnePop(m0, m, t, k) && k in m.given && m.given[k] == seen
      && (call.mode.Into? ==> |seen| == call.mode.size && InOrder(call.mode, seen))
    case PushSizeTooLarge => call.PushCall? && !Fits(call, m.sz) && NoEffect(m0, m, t)
    case PopSizeTooLarge => call.PopCall? && !Fits(call, m.sz) && NoEffect(m0, m, t)
    case Full => call.PushCall? && Fits(call, m.sz) && NoEffect(m0, m, t)
    case Empty => call.PopCall? && Fits(call, m.sz) && NoEffect(m0, m, t)
    case Contention => !call.NoCall? && Fits(call, m.sz) && NoEffect(m0, m, t)
    case _ => false
  }

  /** A thread at pc is working on this very call, or has returned from it. */
  ghost predicate Serves(m0: Ring, m: Ring, t: Tid, call: Call, pc: Pc)
    requires WellFormed(m)
  {
    match pc
    case Idle(ret) => Outcome(m0, m, t, call, ret)
    case PushStart(obj) => call == PushCall(obj) && NoEffect(m0, m, t)
    case PushLoaded(obj, _, _) => call == PushCall(obj) && NoEffect(m0, m, t)
    case PushReady(obj, _, _) => call == PushCall(obj) && NoEffect(m0, m, t)
    case PushCopy(obj, e, _) => call == PushCall(obj) && OnePush(m0, m, t, e, obj)
    case PopStart(mode) => call == PopCall(mode) && NoEffect(m0, m, t)
    case PopLoaded(mode, _, _) => call == PopCall(mode) && NoEffect(m0, m, t)
    case PopReady(mode, _, _) => call == PopCall(mode) && NoEffect(m0, m, t)
    case PopRead(mode, e, _) => call == PopCall(mode) && OnePop(m0, m, t, e)
  }

  /** How a call begins. */
  ghost function Begin(call: Call): Action
    requires !call.NoCall?
  {
    if call.PushCall? then BeginPush(call.obj) else BeginPop(call.mode)
  }

  lemma BeginServes(s: State, t: Tid, call: Call)
    requires Inv(s) && t in s.threads && s.threads[t].Idle? && !call.NoCall?
    ensures Enabled(s, t, Begin(call)) && Step(s, t, Begin(call)).m == s.m
    ensures Serves(s.m, s.m, t, call, Step(s, t, Begin(call)).threads[t])
  {
    hide And;
  }

  /** A thread's own step. */
  lemma OwnStepServes(m0: Ring, m: Ring, t: Tid, pc: Pc, a: Action, call: Call)
    requires Shape(m) && ThreadOk(m, t, pc) && CanDo(m, pc, a) && !a.BeginPush? && !a.BeginPop?
    requires |m0.log| <= |m.log| && |m0.taken| <= |m.taken| && Serves(m0, m, t, call, pc)
    ensures WellFormed(NextRing(m, t, pc, a)) && Serves(m0, NextRing(m, t, pc, a), t, call, NextPc(m, pc, a))
  {
    hide And, IsPow2;
  }

  /** From m to the later ring n thread t has pushed and popped nothing. */
  ghost predicate ByOthers(m: Ring, n: Ring, t: Tid) {
    Later(m, n) && NotPushedSince(n.log, t, |m.log|) && NotTakenSince(n.taken, t, |m.taken|)
  }

  lemma OtherStepIsByOthers(s: State, t: Tid, a: Action, u: Tid)
    requires Enabled(s, t, a) && u != t && Later(s.m, Step(s, t, a).m)
    ensures ByOthers(s.m, Step(s, t, a).m, u)
    ensures u in s.threads ==> u in Step(s, t, a).threads && Step(s, t, a).threads[u] == s.threads[u]
  {
    hide And, Later;
  }

  /** What other threads do leaves a thread's call and what it has done alone. */
  lemma ServesKept(m0: Ring, m: Ring, n: Ring, t: Tid, call: Call, pc: Pc)
    requires WellFormed(m) && WellFormed(n) && ByOthers(m, n, t)
    requires |m0.log| <= |m.log| && |m0.taken| <= |m.taken| && Serves(m0, m, t, call, pc)
    ensures Serves(m0, n, t, call, pc)
  {
    hide And, NoEffect, OnePush, OnePop;
    EffectsKept(m0, m, n, t);
    if pc.Idle? && pc.ret.Pushed? { OnePushKept(m0, m, n, t, pc.ret.ticket, call.obj); }
    if pc.Idle? && pc.ret.Popped? { OnePopKept(m0, m, n, t, pc.ret.ticket); }
    if pc.PushCopy? { OnePushKept(m0, m, n, t, pc.e, pc.obj); }
    if pc.PopRead? { OnePopKept(m0, m, n, t, pc.e); }
  }

  lemma EffectsKept(m0: Ring, m: Ring, n: Ring, t: Tid)
    requires ByOthers(m, n, t)
    ensures NoEffect(m0, m, t) ==> NoEffect(m0, n, t)
  {
    hide And;
  }

  lemma OnePushKept(m0: Ring, m: Ring, n: Ring, t: Tid, k: nat, obj: seq<Byte>)
    requires ByOthers(m, n, t) && OnePush(m0, m, t, k, obj)
    ensures OnePush(m0, n, t, k, obj)
  {
  }

  lemma OnePopKept(m0: Ring, m: Ring, n: Ring, t: Tid, k: nat)
    requires ByOthers(m, n, t) && OnePop(m0, m, t, k)
    ensures OnePop(m0, n, t, k)
  {
  }

  lemma StepServes(m0: Ring, s: State, ev: Event, t: Tid, call: Call)
    requires Inv(s) && Enabled(s, ev.t, ev.a) && Later(m0, s.m) && t in s.threads
    requires ev.t == t ==> !ev.a.BeginPush? && !ev.a.BeginPop?
    requires Serves(m0, s.m, t, call, s.threads[t])
    ensures var s' := Step(s, ev.t, ev.a);
            t in s'.threads && WellFormed(s'.m) && Serves(m0, s'.m, t, call, s'.threads[t])
  {
    hide And, Serves, NextPc, NextRing, CanDo;
    StepKeepsInv(s, ev.t, ev.a);
    StepIsLater(s, ev.t, ev.a);
    if ev.t == t {
      assert ThreadOk(s.m, t, s.threads[t]);
      OwnStepServes(m0, s.m, t, s.threads[t], ev.a, call);
    } else {
      OtherStepIsByOthers(s, ev.t, ev.a, t);
      ServesKept(m0, s.m, Step(s, ev.t, ev.a).m, t, call, s.threads[t]);
    }
  }

  lemma {:induction false} RunServes(m0: Ring, s: State, evs: seq<Event>, t: Tid, call: Call)
    requires Inv(s) && Later(m0, s.m) && CanRun(s, evs) && t in s.threads
    requires forall i | 0 <= i < |evs| && evs[i].t == t :: !evs[i].a.BeginPush? && !evs[i].a.BeginPop?
    requires Serves(m0, s.m, t, call, s.threads[t])
    ensures Inv(Run(s, evs)) && WellFormed(Run(s, evs).m) && t in Run(s, evs).threads
    ensures Serves(m0, Run(s, evs).m, t, call, Run(s, evs).threads[t])
    decreases |evs|
  {
    hide Inv, Step, Enabled, Later, Serves;
    InvShape(s);
    if evs != [] {
      var ev := evs[0];
      var s' := Step(s, ev.t, ev.a);
      StepKeepsInv(s, ev.t, ev.a);
      StepIsLater(s, ev.t, ev.a);
      LaterTransitive(m0, s.m, s'.m);
      assert forall i | 0 <= i < |evs[1..]| :: evs[1..][i] == evs[i + 1];
      StepServes(m0, s, ev, t, call);
      RunServes(m0, s', evs[1..], t, call);
    }
  }

  lemma StepKeepsThreads(s: State, ev: Event)
    requires Enabled(s, ev.t, ev.a)
    ensures Step(s, ev.t, ev.a).threads.Keys == s.threads.Keys
  {
  }

  /**
   * The contract of a call, whatever all other threads do meanwhile: thread t begins it in s, and at any
   * later point it is either still working on it with the argument it was given, or has returned with a
   * result that is exactly its effect, a pop with bytes of the object its ticket was pushed with.
   */
  lemma CallContract(s: State, t: Tid, call: Call, evs: seq<Event>)
    requires Inv(s) && t in s.threads && s.threads[t].Idle? && !call.NoCall?
    requires Enabled(s, t, Begin(call)) && CanRun(Step(s, t, Begin(call)), evs)
    requires forall i | 0 <= i < |evs| && evs[i].t == t :: !evs[i].a.BeginPush? && !evs[i].a.BeginPop?
    ensures var r := Run(Step(s, t, Begin(call)), evs);
            && Inv(r) && t in r.threads && Serves(s.m, r.m, t, call, r.threads[t])
            && (r.threads[t].Idle? ==> Outcome(s.m, r.m, t, call, r.threads[t].ret))
            && (r.threads[t].Idle? && r.threads[t].ret.Popped? ==>
                  var ret := r.threads[t].ret;
                  ret.ticket < |r.m.log| && ReadsFrom(ret.seen, r.m.log[ret.ticket].obj))
  {
    hide And, Run, CanRun, Later, Step;
    BeginServes(s, t, call);
    StepKeepsInv(s, t, Begin(call));
    StepIsLater(s, t, Begin(call));
    StepKeepsThreads(s, Event(t, Begin(call)));
    RunServes(s.m, Step(s, t, Begin(call)), evs, t, call);
  }

  // What a pop sees

  /** The offset at which thread t reads in an event. */
  ghost function OffsetBy(ev: Event, t: Tid): seq<nat> {
    if ev.t == t && ev.a.CopyByte? then [ev.a.offset] else []
  }

  /** The offsets thread t reads at, in order. */
  ghost function OffsetsBy(evs: seq<Event>, t: Tid): seq<nat>
    decreases |evs|
  {
    if evs == [] then [] else OffsetBy(evs[0], t) + OffsetsBy(evs[1..], t)
  }

  lemma StepSeesItsCell(s: State, ev: Event, t: Tid)
    requires Inv(s) && Enabled(s, ev.t, ev.a) && t in s.threads && s.threads[t].PopRead?
    requires ev.t == t ==> ev.a.CopyByte?
    ensures var s', pc, offset := Step(s, ev.t, ev.a), s.threads[t], OffsetBy(ev, t);
            && WellFormed(s.m) && WellFormed(s'.m) && s'.m.sz == s.m.sz && InCell(offset, s.m.sz)
            && CellOf(s'.m, pc.e) == CellOf(s.m, pc.e)
            && t in s'.threads && s'.threads[t] == pc.(seen := pc.seen + ReadsOf(CellOf(s.m, pc.e), offset))
  {
    hide And, IsPow2;
    if ev.t != t && s.threads[ev.t].PushCopy? {
      CellsAreExclusive(s, t, ev.t);
    }
    if ev.t != t {
      assert s.threads[t].seen + [] == s.threads[t].seen;
    }
  }

  /**
   * While a pop holds its ticket it sees just the bytes its copy or its callback reads, at the offsets they
   * ask for and in that order, of the cell as it was when the ticket was taken.
   */
  lemma {:induction false} PopSeesItsCell(s: State, evs: seq<Event>, t: Tid)
    requires Inv(s) && CanRun(s, evs) && t in s.threads && s.threads[t].PopRead?
    requires forall i | 0 <= i < |evs| && evs[i].t == t :: evs[i].a.CopyByte?
    ensures var r, pc, offsets := Run(s, evs), s.threads[t], OffsetsBy(evs, t);
            && WellFormed(s.m) && InCell(offsets, s.m.sz)
            && t in r.threads && r.threads[t] == pc.(seen := pc.seen + ReadsOf(CellOf(s.m, pc.e), offsets))
    decreases |evs|
  {
    hide Inv, Step, Enabled, ReadsOf, InCell, WellFormed, OffsetBy;
    InvShape(s);
    var pc := s.threads[t];
    if evs == [] {
      ReadsInTwo(pc.seen, CellOf(s.m, pc.e), [], []);
    } else {
      var ev := evs[0];
      StepSeesItsCell(s, ev, t);
      StepKeepsInv(s, ev.t, ev.a);
      assert forall i | 0 <= i < |evs[1..]| :: evs[1..][i] == evs[i + 1];
      PopSeesItsCell(Step(s, ev.t, ev.a), evs[1..], t);
      ReadsInTwo(pc.seen, CellOf(s.m, pc.e), OffsetBy(ev, t), OffsetsBy(evs[1..], t));
    }
  }
}
