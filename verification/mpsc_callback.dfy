/**
 * Callback pops and copying pops of the MPSC ring are interchangeable: under any interleaving with the
 * producers, putting one kind in the place of the other leaves every index, flag and cell, and every
 * result but the bytes a pop delivers, as it was.
 */
module MpscCallback {
  import opened Words
  import opened Cells
  import opened Operations
  import opened MpscProtocol
  import opened MpscRuns

  ghost function EraseRet(r: Ret): Ret {
    if r.Popped? then Popped(r.ticket, []) else r
  }

  /** The consumer without the pop's mode and the bytes it has seen. */
  ghost function Erase(pc: Consumer): Consumer {
    match pc
    case Rest(ret) => Rest(EraseRet(ret))
    case Begun(_) => Begun(Callback)
    case Reloading(_, e) => Reloading(Callback, e)
    case Probing(_, e) => Probing(Callback, e)
    case Reading(_, e, _) => Reading(Callback, e, [])
    case Clearing(e, res) => Clearing(e, EraseRet(res))
    case Advancing(e, res) => Advancing(e, EraseRet(res))
  }

  /** The same ring and threads, but for the kind of the pop in progress and the bytes pops have seen. */
  ghost predicate Alike(a: State, b: State) {
    && SameRing(a.m, b.m)
    && a.producers == b.producers && a.localHead == b.localHead
    && Erase(a.consumer) == Erase(b.consumer)
  }

  ghost predicate SameRing(m: Ring, n: Ring) {
    m.(given := []) == n.(given := []) && |m.given| == |n.given|
  }

  /** The same results in the same order, but for the bytes delivered. */
  ghost predicate SameResults(a: seq<Ret>, b: seq<Ret>) {
    |a| == |b| && forall i | 0 <= i < |a| :: EraseRet(a[i]) == EraseRet(b[i])
  }

  ghost predicate IsRead(ev: Event) {
    ev.ByConsumer? && ev.c.ReadByte?
  }

  ghost predicate IsBegin(ev: Event) {
    ev.ByConsumer? && ev.c.BeginPop?
  }

  /** Reading a byte changes nothing a producer can see. */
  lemma ReadsAreSilent(s: State, ev: Event)
    requires Enabled(s, ev) && IsRead(ev)
    ensures Alike(Step(s, ev), s) && Returned(ev, Step(s, ev)) == []
  {
    hide And;
  }

  /** The same step, except that a pop may begin in another mode that passes the size check. */
  ghost predicate Matches(a: Event, b: Event, sz: nat) {
    || a == b
    || (IsBegin(a) && IsBegin(b) && ModeFits(a.c.mode, sz) && ModeFits(b.c.mode, sz))
  }

  /** Steps that match lead from rings alike to rings alike. */
  lemma StepsMatch(s: State, r: State, ev: Event, twin: Event)
    requires Alike(s, r) && Enabled(s, ev) && Enabled(r, twin) && Matches(ev, twin, s.m.sz) && !IsRead(ev)
    ensures Alike(Step(s, ev), Step(r, twin))
    ensures SameResults(Returned(ev, Step(s, ev)), Returned(twin, Step(r, twin)))
  {
    hide And;
  }

  // From any run to one with callback pops only

  /** A pop in progress goes through a callback. */
  ghost predicate CallsBack(pc: Consumer) {
    pc.Begun? || pc.Reloading? || pc.Probing? || pc.Reading? ==> pc.mode.Callback?
  }

  /** An admitted pop begins with a callback instead, and nothing is read. */
  ghost function CallbackTwin(ev: Event, sz: nat): seq<Event> {
    if IsRead(ev) then []
    else if IsBegin(ev) && ModeFits(ev.c.mode, sz) then [ByConsumer(BeginPop(Callback))]
    else [ev]
  }

  ghost function CallbackTwins(evs: seq<Event>, sz: nat): seq<Event> {
    if evs == [] then [] else CallbackTwin(evs[0], sz) + CallbackTwins(evs[1..], sz)
  }

  lemma CallbackStep(s: State, r: State, ev: Event)
    requires Alike(s, r) && CallsBack(r.consumer) && Enabled(s, ev)
    ensures var twin := CallbackTwin(ev, s.m.sz);
            && CanRun(r, twin) && Alike(Step(s, ev), Run(r, twin)) && CallsBack(Run(r, twin).consumer)
            && SameResults(Returned(ev, Step(s, ev)), Returns(r, twin))
  {
    hide And;
    if IsRead(ev) {
      ReadsAreSilent(s, ev);
    } else {
      var twin := CallbackTwin(ev, s.m.sz)[0];
      assert Enabled(r, twin);
      StepsMatch(s, r, ev, twin);
      OneStep(r, twin);
    }
  }

  /**
   * Under any interleaving, every pop could have been a callback pop: the twin run moves the same
   * indices, flags and cells and returns the same results, at every point of the run.
   */
  lemma {:induction false} CallbackRun(s: State, r: State, evs: seq<Event>)
    requires Alike(s, r) && CallsBack(r.consumer) && CanRun(s, evs)
    ensures var twins := CallbackTwins(evs, s.m.sz);
            && CanRun(r, twins) && Alike(Run(s, evs), Run(r, twins)) && CallsBack(Run(r, twins).consumer)
            && SameResults(Returns(s, evs), Returns(r, twins))
    decreases |evs|
  {
    hide Enabled, Step, Alike, CallbackTwin, Returned;
    if evs != [] {
      var s', first := Step(s, evs[0]), CallbackTwin(evs[0], s.m.sz);
      CallbackStep(s, r, evs[0]);
      SizeIsFixed(s, evs[0]);
      CallbackRun(s', Run(r, first), evs[1..]);
      RunInTwo(r, first, CallbackTwins(evs[1..], s.m.sz));
    }
  }

  lemma SizeIsFixed(s: State, ev: Event)
    requires Enabled(s, ev)
    ensures WellFormed(s.m) && Step(s, ev).m.sz == s.m.sz
  {
  }

  // From any run to one in which every pop copies `size` bytes

  ghost predicate Copies(pc: Consumer, size: nat) {
    && (pc.Begun? || pc.Reloading? || pc.Probing? || pc.Reading? ==> pc.mode == Into(size))
    && (pc.Reading? ==> |pc.seen| <= size)
  }

  /** Before it gives its cell back a copying pop reads what is left of its bytes. */
  lemma {:induction false} ReadsTheRest(s: State, size: nat) returns (evs: seq<Event>)
    requires WellFormed(s.m) && Copies(s.consumer, size) && size <= s.m.sz && s.consumer.Reading?
    ensures CanRun(s, evs) && Alike(Run(s, evs), s) && Copies(Run(s, evs).consumer, size) && Returns(s, evs) == []
    ensures var pc := Run(s, evs).consumer; pc.Reading? && |pc.seen| == size
    decreases size - |s.consumer.seen|
  {
    hide And;
    evs := [];
    if |s.consumer.seen| < size {
      var ev := ByConsumer(ReadByte(|s.consumer.seen|));
      ReadsAreSilent(s, ev);
      var rest := ReadsTheRest(Step(s, ev), size);
      evs := [ev] + rest;
      assert evs[1..] == rest;
    }
  }

  /** An admitted pop begins by copying `size` bytes instead. */
  ghost function CopyTwin(ev: Event, sz: nat, size: nat): Event {
    if IsBegin(ev) && ModeFits(ev.c.mode, sz) then ByConsumer(BeginPop(Into(size))) else ev
  }

  /** Any other step can be taken after copying pops just as well. */
  lemma CopyFollows(s: State, r: State, ev: Event, size: nat)
    requires Alike(s, r) && Copies(r.consumer, size) && size <= s.m.sz && Enabled(s, ev) && !IsRead(ev)
    requires r.consumer.Reading? && ev == ByConsumer(Finish) ==> |r.consumer.seen| == size
    ensures var twin := CopyTwin(ev, s.m.sz, size); Enabled(r, twin) && Copies(Step(r, twin).consumer, size)
  {
    hide And;
  }

  lemma CopyStep(s: State, r: State, ev: Event, size: nat) returns (twins: seq<Event>)
    requires Alike(s, r) && Copies(r.consumer, size) && size <= s.m.sz && Enabled(s, ev)
    ensures CanRun(r, twins) && Alike(Step(s, ev), Run(r, twins)) && Copies(Run(r, twins).consumer, size)
    ensures SameResults(Returned(ev, Step(s, ev)), Returns(r, twins))
  {
    hide And, Step;
    twins := [];
    if IsRead(ev) {
      ReadsAreSilent(s, ev);
    } else {
      if ev == ByConsumer(Finish) {
        twins := ReadsTheRest(r, size);
      }
      var q, last := Run(r, twins), CopyTwin(ev, s.m.sz, size);
      CopyFollows(s, q, ev, size);
      StepsMatch(s, q, ev, last);
      OneStep(q, last);
      RunInTwo(r, twins, [last]);
      twins := twins + [last];
    }
  }

  /** And every pop could have copied `size` bytes, for any size that fits, reading them before its release. */
  lemma {:induction false} CopyRun(s: State, r: State, evs: seq<Event>, size: nat) returns (twins: seq<Event>)
    requires Alike(s, r) && Copies(r.consumer, size) && size <= s.m.sz && CanRun(s, evs)
    ensures CanRun(r, twins) && Alike(Run(s, evs), Run(r, twins)) && Copies(Run(r, twins).consumer, size)
    ensures SameResults(Returns(s, evs), Returns(r, twins))
    decreases |evs|
  {
    hide Enabled, Step, Alike, Copies, Returned;
    twins := [];
    if evs != [] {
      twins := CopyStep(s, r, evs[0], size);
      SizeIsFixed(s, evs[0]);
      var rest := CopyRun(Step(s, evs[0]), Run(r, twins), evs[1..], size);
      RunInTwo(r, twins, rest);
      twins := twins + rest;
    }
  }
}
