/**
 * Callback pops and copying pops of the MPMC ring are interchangeable: under any interleaving, putting
 * one kind in the place of the other leaves every index, slot and cell, and every result but the
 * bytes a pop delivers, as it was.
 */
module MpmcCallback {
  import opened Words
  import opened Cells
  import opened Operations
  import opened MpmcProtocol
  import opened MpmcRuns

  /** A program counter without the pop's mode and the bytes it has seen. */
  ghost function Erase(pc: Pc): Pc {
    match pc
    case Idle(Popped(k, _)) => Idle(Popped(k, []))
    case PopStart(_) => PopStart(Callback)
    case PopLoaded(_, e, at) => PopLoaded(Callback, e, at)
    case PopReady(_, e, at) => PopReady(Callback, e, at)
    case PopRead(_, e, _) => PopRead(Callback, e, [])
    case _ => pc
  }

  /** The same ring and threads, but for the kind of the pops in progress and the bytes pops have seen. */
  ghost predicate Alike(a: State, b: State) {
    && SameRing(a.m, b.m)
    && a.threads.Keys == b.threads.Keys
    && forall t | t in a.threads :: Erase(a.threads[t]) == Erase(b.threads[t])
  }

  ghost predicate SameRing(m: Ring, n: Ring) {
    m.(given := map[]) == n.(given := map[]) && m.given.Keys == n.given.Keys
  }

  /** The same results in the same order, but for the bytes delivered. */
  ghost predicate SameResults(a: seq<Ret>, b: seq<Ret>) {
    |a| == |b| && forall i | 0 <= i < |a| :: Erase(Idle(a[i])) == Erase(Idle(b[i]))
  }

  /** A step of a pop that reads a byte for itself or its callback. */
  ghost predicate IsRead(s: State, ev: Event) {
    ev.a.CopyByte? && ev.t in s.threads && s.threads[ev.t].PopRead?
  }

  /** Reading a byte changes nothing another thread can see. */
  lemma ReadsAreSilent(s: State, ev: Event)
    requires Enabled(s, ev.t, ev.a) && IsRead(s, ev)
    ensures Alike(Step(s, ev.t, ev.a), s) && Returns(s, [ev]) == []
  {
    hide And;
  }

  lemma AlikeTransitive(a: State, b: State, c: State)
    requires Alike(a, b) && Alike(b, c)
    ensures Alike(a, c)
  {
  }

  /** The same step, except that a pop may begin in another mode that passes the size check. */
  ghost predicate Matches(a: Action, b: Action, sz: nat) {
    if a.BeginPop? then b.BeginPop? && (a == b || (ModeFits(a.mode, sz) && ModeFits(b.mode, sz))) else b == a
  }

  lemma PcsMatch(m: Ring, n: Ring, t: Tid, p: Pc, q: Pc, a: Action, b: Action)
    requires SameRing(m, n) && Erase(p) == Erase(q) && CanDo(m, p, a) && CanDo(n, q, b) && Matches(a, b, m.sz)
    requires !(a.CopyByte? && p.PopRead?)
    ensures Erase(NextPc(m, p, a)) == Erase(NextPc(n, q, b))
    ensures SameRing(NextRing(m, t, p, a), NextRing(n, t, q, b))
  {
    hide And;
  }

  /** Steps that match lead from rings alike to rings alike. */
  lemma StepsMatch(s: State, r: State, ev: Event, twin: Event)
    requires Alike(s, r) && Enabled(s, ev.t, ev.a) && Enabled(r, twin.t, twin.a)
    requires twin.t == ev.t && Matches(ev.a, twin.a, s.m.sz) && !IsRead(s, ev)
    ensures Alike(Step(s, ev.t, ev.a), Step(r, twin.t, twin.a))
    ensures SameResults(Returns(s, [ev]), Returns(r, [twin]))
  {
    hide NextPc, NextRing, CanDo, SameRing;
    PcsMatch(s.m, r.m, ev.t, s.threads[ev.t], r.threads[ev.t], ev.a, twin.a);
    OneStep(s, ev);
    OneStep(r, twin);
  }

  // From any run to one with callback pops only

  ghost predicate ByCallback(s: State) {
    forall t | t in s.threads :: CallsBack(s.threads[t])
  }

  ghost predicate CallsBack(pc: Pc) {
    pc.PopStart? || pc.PopLoaded? || pc.PopReady? || pc.PopRead? ==> pc.mode.Callback?
  }

  /** An admitted pop begins with a callback instead, and nothing is read. */
  ghost function CallbackTwin(s: State, ev: Event): seq<Event> {
    if ev.a.BeginPop? && ModeFits(ev.a.mode, s.m.sz) then [ev.(a := BeginPop(Callback))]
    else if IsRead(s, ev) then []
    else [ev]
  }

  ghost function CallbackTwins(s: State, evs: seq<Event>): seq<Event>
    requires CanRun(s, evs)
    decreases |evs|
  {
    if evs == [] then [] else CallbackTwin(s, evs[0]) + CallbackTwins(Step(s, evs[0].t, evs[0].a), evs[1..])
  }

  /** A callback pop may release its cell at any time. */
  lemma CallbackFollows(m: Ring, n: Ring, p: Pc, q: Pc, a: Action)
    requires SameRing(m, n) && Erase(p) == Erase(q) && CallsBack(q) && CanDo(m, p, a)
    ensures CanDo(n, q, a)
    ensures (a.BeginPop? ==> !ModeFits(a.mode, m.sz)) ==> CallsBack(NextPc(n, q, a))
  {
    hide And;
  }

  lemma CallbackStep(s: State, r: State, ev: Event)
    requires Alike(s, r) && ByCallback(r) && Enabled(s, ev.t, ev.a)
    ensures var s', twin := Step(s, ev.t, ev.a), CallbackTwin(s, ev);
            && CanRun(r, twin) && Alike(s', Run(r, twin)) && ByCallback(Run(r, twin))
            && SameResults(Returns(s, [ev]), Returns(r, twin))
  {
    hide NextPc, NextRing, SameRing, Alike, CanDo, Returns;
    if IsRead(s, ev) {
      ReadsAreSilent(s, ev);
      AlikeTransitive(Step(s, ev.t, ev.a), s, r);
      RunNothing(r);
    } else {
      var twin := CallbackTwin(s, ev)[0];
      AlikeParts(s, r, ev.t);
      CallbackFollows(s.m, r.m, s.threads[ev.t], r.threads[ev.t], ev.a);
      BeginsBack(r.m, r.threads[ev.t], ev.a);
      OneStep(r, twin);
      StepsMatch(s, r, ev, twin);
    }
  }

  lemma AlikeParts(s: State, r: State, t: Tid)
    requires Alike(s, r) && t in s.threads
    ensures SameRing(s.m, r.m) && s.m.sz == r.m.sz && (WellFormed(s.m) ==> WellFormed(r.m))
    ensures t in r.threads && Erase(s.threads[t]) == Erase(r.threads[t])
  {
  }

  /** A callback pop begins wherever any pop does. */
  lemma BeginsBack(m: Ring, pc: Pc, a: Action)
    requires CanDo(m, pc, a)
    ensures a.BeginPop? ==> CanDo(m, pc, BeginPop(Callback)) && CallsBack(NextPc(m, pc, BeginPop(Callback)))
  {
  }

  /**
   * Under any interleaving, every pop could have been a callback pop: the twin run moves the same
   * indices, slots and cells and returns the same results, at every point of the run.
   */
  lemma {:induction false} CallbackRun(s: State, r: State, evs: seq<Event>)
    requires Alike(s, r) && ByCallback(r) && CanRun(s, evs)
    ensures var twins := CallbackTwins(s, evs);
            && CanRun(r, twins) && Alike(Run(s, evs), Run(r, twins)) && ByCallback(Run(r, twins))
            && SameResults(Returns(s, evs), Returns(r, twins))
    decreases |evs|
  {
    hide Enabled, Step, Alike, ByCallback, CallbackTwin;
    if evs != [] {
      var s', first := Step(s, evs[0].t, evs[0].a), CallbackTwin(s, evs[0]);
      CallbackStep(s, r, evs[0]);
      CallbackRun(s', Run(r, first), evs[1..]);
      RunInTwo(r, first, CallbackTwins(s', evs[1..]));
      assert [evs[0]] + evs[1..] == evs;
      OneStep(s, evs[0]);
      RunInTwo(s, [evs[0]], evs[1..]);
    }
  }

  // From any run to one in which every pop copies `size` bytes

  ghost predicate ByCopy(s: State, size: nat) {
    forall t | t in s.threads :: Copies(s.threads[t], size)
  }

  ghost predicate Copies(pc: Pc, size: nat) {
    && (pc.PopStart? || pc.PopLoaded? || pc.PopReady? || pc.PopRead? ==> pc.mode == Into(size))
    && (pc.PopRead? ==> |pc.seen| <= size)
  }

  /** Before its release a copying pop reads what is left of its bytes. */
  lemma {:induction false} ReadsTheRest(s: State, t: Tid, size: nat) returns (evs: seq<Event>)
    requires ByCopy(s, size) && size <= s.m.sz && WellFormed(s.m) && t in s.threads && s.threads[t].PopRead?
    ensures CanRun(s, evs) && Alike(Run(s, evs), s) && ByCopy(Run(s, evs), size) && Returns(s, evs) == []
    ensures var pc := Run(s, evs).threads[t]; pc.PopRead? && |pc.seen| == size
    decreases size - |s.threads[t].seen|
  {
    hide And;
    assert Copies(s.threads[t], size);
    evs := [];
    if |s.threads[t].seen| < size {
      var ev := Event(t, CopyByte(|s.threads[t].seen|));
      var s' := Step(s, t, ev.a);
      ReadsAreSilent(s, ev);
      var rest := ReadsTheRest(s', t, size);
      AlikeTransitive(Run(s', rest), s', s);
      evs := [ev] + rest;
      assert evs[1..] == rest;
    }
  }

  /** Any other step can be taken after copying pops just as well. */
  lemma CopyFollows(m: Ring, n: Ring, p: Pc, q: Pc, a: Action, size: nat)
    requires SameRing(m, n) && Erase(p) == Erase(q) && Copies(q, size) && size <= n.sz && CanDo(m, p, a)
    requires !(p.PopRead? && a.CopyByte?)
    requires q.PopRead? && a.StoreSlot? ==> |q.seen| == size
    ensures CanDo(n, q, CopyAction(a, m.sz, size)) && Copies(NextPc(n, q, CopyAction(a, m.sz, size)), size)
  {
    hide And;
  }

  /** An admitted pop begins by copying `size` bytes instead. */
  ghost function CopyAction(a: Action, sz: nat, size: nat): Action {
    if a.BeginPop? && ModeFits(a.mode, sz) then BeginPop(Into(size)) else a
  }

  lemma SizeIsFixed(s: State, ev: Event)
    requires Enabled(s, ev.t, ev.a)
    ensures WellFormed(s.m) && Step(s, ev.t, ev.a).m.sz == s.m.sz
  {
  }

  lemma CopyStep(s: State, r: State, ev: Event, size: nat) returns (twin: seq<Event>)
    requires Alike(s, r) && ByCopy(r, size) && size <= s.m.sz && Enabled(s, ev.t, ev.a)
    ensures var s' := Step(s, ev.t, ev.a);
            && CanRun(r, twin) && Alike(s', Run(r, twin)) && ByCopy(Run(r, twin), size)
            && SameResults(Returns(s, [ev]), Returns(r, twin))
  {
    hide NextPc, NextRing, SameRing, Alike, CanDo, Returns;
    twin := [];
    SizeIsFixed(s, ev);
    AlikeParts(s, r, ev.t);
    RunNothing(r);
    if IsRead(s, ev) {
      ReadsAreSilent(s, ev);
      AlikeTransitive(Step(s, ev.t, ev.a), s, r);
    } else {
      if ev.a.StoreSlot? && r.threads[ev.t].PopRead? {
        twin := ReadsTheRest(r, ev.t, size);
        AlikeSymmetric(Run(r, twin), r);
        AlikeTransitive(s, r, Run(r, twin));
      }
      var q := Run(r, twin);
      AlikeParts(s, q, ev.t);
      CopyFollows(s.m, q.m, s.threads[ev.t], q.threads[ev.t], ev.a, size);
      var last := Event(ev.t, CopyAction(ev.a, s.m.sz, size));
      OneStep(q, last);
      StepsMatch(s, q, ev, last);
      RunInTwo(r, twin, [last]);
      twin := twin + [last];
    }
  }

  lemma AlikeSymmetric(a: State, b: State)
    requires Alike(a, b)
    ensures Alike(b, a)
  {
  }

  /** And every pop could have copied `size` bytes, for any size that fits, reading them before its release. */
  lemma {:induction false} CopyRun(s: State, r: State, evs: seq<Event>, size: nat) returns (twins: seq<Event>)
    requires Alike(s, r) && ByCopy(r, size) && size <= s.m.sz && CanRun(s, evs)
    ensures CanRun(r, twins) && Alike(Run(s, evs), Run(r, twins)) && ByCopy(Run(r, twins), size)
    ensures SameResults(Returns(s, evs), Returns(r, twins))
    decreases |evs|
  {
    hide Enabled, Step, Alike, ByCopy;
    twins := [];
    if evs != [] {
      var s' := Step(s, evs[0].t, evs[0].a);
      twins := CopyStep(s, r, evs[0], size);
      SizeIsFixed(s, evs[0]);
      var rest := CopyRun(s', Run(r, twins), evs[1..], size);
      RunInTwo(r, twins, rest);
      twins := twins + rest;
      assert [evs[0]] + evs[1..] == evs;
      OneStep(s, evs[0]);
      RunInTwo(s, [evs[0]], evs[1..]);
    }
  }
}
