/** The MPSC consumer's cached head: advisory when it is arbitrary, exact when it is coherent. */
module MpscCache {
  import opened Words
  import opened Cells
  import opened Operations
  import opened Layout
  import opened MpscProtocol
  import opened MpscInvariant
  import opened MpscRuns

  // An arbitrary cache, alone

  /**
   * The cached head is only advisory: two pops from states that differ in it alone either return the
   * same ticket and bytes and leave the same ring, or both report "nothing yet" in one way or the other.
   */
  lemma CachedHeadIsAdvisory(s: State, cached: nat, mode: PopMode)
    requires Inv(s) && s.consumer.Rest?
    ensures Inv(s.(localHead := cached))
    ensures var a, b := PopAlone(s, mode), PopAlone(s.(localHead := cached), mode);
            && a.m == b.m
            && (a.consumer == b.consumer
                || {a.consumer, b.consumer} == {Rest(Empty), Rest(SlotWritingData)})
            && (a.consumer == Rest(Empty) ==> Queue(s.m) == [])
  {
    hide And, RunAlone;
    assert Inv(s.(localHead := cached));
    PopOutcome(s, mode);
    PopOutcome(s.(localHead := cached), mode);
  }

  // An arbitrary cache, under any interleaving

  /** States that differ in the cached head, and in what a pop makes of it while it has found nothing yet. */
  ghost predicate Similar(a: State, b: State) {
    a.m == b.m && a.producers == b.producers && SimilarConsumers(a.consumer, b.consumer)
  }

  ghost predicate SimilarConsumers(p: Consumer, q: Consumer) {
    || p == q
    || (p.Reloading? && q.Probing? && p.mode == q.mode && p.e == q.e)
    || (p.Probing? && q.Reloading? && p.mode == q.mode && p.e == q.e)
    || (p.Rest? && q.Rest? && SimilarResults([p.ret], [q.ret]))
  }

  /** The same results in the same order, but that EMPTY may stand for SLOT_WRITING_DATA and conversely. */
  ghost predicate SimilarResults(a: seq<Ret>, b: seq<Ret>) {
    && |a| == |b|
    && forall i | 0 <= i < |a| :: a[i] == b[i] || (NothingYet(a[i]) && NothingYet(b[i]))
  }

  ghost predicate NothingYet(r: Ret) {
    r.Empty? || r.SlotWritingData?
  }

  /** Every reload of the cached head returns the current value. */
  ghost predicate ReloadsAreCurrent(s: State, evs: seq<Event>)
    requires CanRun(s, evs)
    decreases |evs|
  {
    evs == [] || (CurrentReload(s, evs[0]) && ReloadsAreCurrent(Step(s, evs[0]), evs[1..]))
  }

  ghost predicate CurrentReload(s: State, ev: Event) {
    ev.ByConsumer? && ev.c.ReloadHead? ==> ev.c.v == s.m.head
  }

  /** The steps by which a consumer with another cached head follows. */
  ghost function Following(a: State, b: State, ev: Event): seq<Event> {
    if ev.ByConsumer? && a.consumer.Reloading? && b.consumer.Probing? then
      if a.m.head == a.m.tail then [ByConsumer(LoadFlag)] else []
    else if ev.ByConsumer? && a.consumer.Probing? && b.consumer.Reloading? then
      if a.m.head == a.m.tail then [ByConsumer(ReloadHead(b.m.head))]
      else [ByConsumer(ReloadHead(b.m.head)), ev]
    else [ev]
  }

  lemma SameStep(a: State, b: State, ev: Event)
    requires Similar(a, b) && Enabled(a, ev) && Enabled(b, ev) && CurrentReload(a, ev)
    ensures Similar(Step(a, ev), Step(b, ev)) && SimilarResults(Returned(ev, Step(a, ev)), Returned(ev, Step(b, ev)))
  {
    hide And;
  }

  lemma OneCurrent(s: State, ev: Event)
    requires Enabled(s, ev) && CurrentReload(s, ev)
    ensures CanRun(s, [ev]) && ReloadsAreCurrent(s, [ev])
    ensures Run(s, [ev]) == Step(s, ev) && Returns(s, [ev]) == Returned(ev, Step(s, ev))
  {
    hide Enabled, Step, Returned, CurrentReload;
    OneStep(s, ev);
    assert [ev][1..] == [];
  }

  /** A consumer that reloads, and one that probes in its place. */
  lemma ProbeForReload(a: State, b: State, ev: Event)
    requires Inv(b) && Similar(a, b) && Enabled(a, ev) && CurrentReload(a, ev)
    requires ev.ByConsumer? && a.consumer.Reloading? && b.consumer.Probing?
    ensures var twin := Following(a, b, ev);
            && CanRun(b, twin) && ReloadsAreCurrent(b, twin)
            && Similar(Step(a, ev), Run(b, twin)) && SimilarResults(Returned(ev, Step(a, ev)), Returns(b, twin))
  {
    hide And;
    WritingMeans(b);
    if a.m.head == a.m.tail { OneCurrent(b, ByConsumer(LoadFlag)); }
  }

  /** A consumer that probes, and one that reloads first. */
  lemma ReloadForProbe(a: State, b: State, ev: Event)
    requires Inv(a) && Similar(a, b) && Enabled(a, ev)
    requires ev.ByConsumer? && a.consumer.Probing? && b.consumer.Reloading?
    ensures var twin := Following(a, b, ev);
            && CanRun(b, twin) && ReloadsAreCurrent(b, twin)
            && Similar(Step(a, ev), Run(b, twin)) && SimilarResults(Returned(ev, Step(a, ev)), Returns(b, twin))
  {
    hide And, Run, CanRun, Returns, ReloadsAreCurrent;
    InvShape(a);
    WritingMeans(a);
    var reload := ByConsumer(ReloadHead(b.m.head));
    OneCurrent(b, reload);
    if a.m.head != a.m.tail {
      var r := Step(b, reload);
      OneCurrent(r, ev);
      SameStep(a, r, ev);
      RunInTwo(b, [reload], [ev]);
      CurrentInTwo(b, [reload], [ev]);
      assert [reload] + [ev] == [reload, ev];
    }
  }

  lemma FollowingStep(a: State, b: State, ev: Event)
    requires Inv(a) && Inv(b) && Similar(a, b) && Enabled(a, ev) && CurrentReload(a, ev)
    ensures var twin := Following(a, b, ev);
            && CanRun(b, twin) && ReloadsAreCurrent(b, twin)
            && Similar(Step(a, ev), Run(b, twin)) && SimilarResults(Returned(ev, Step(a, ev)), Returns(b, twin))
  {
    hide Inv, Step, NextConsumer, NextProducer, And;
    if ev.ByConsumer? && a.consumer.Reloading? && b.consumer.Probing? {
      ProbeForReload(a, b, ev);
    } else if ev.ByConsumer? && a.consumer.Probing? && b.consumer.Reloading? {
      ReloadForProbe(a, b, ev);
    } else {
      SameStep(a, b, ev);
      OneCurrent(b, ev);
    }
  }

  /**
   * Under any interleaving the cached head is only advisory: from a state that differs in it alone, the
   * consumer can follow step by step, and the two runs go through the same rings, the same producers and
   * the same results, except for EMPTY in the place of SLOT_WRITING_DATA or conversely. This takes
   * reloads that are current; a stale one may report EMPTY where the other consumer finds an object.
   */
  lemma {:induction false} CachedHeadIsAdvisoryInRuns(a: State, b: State, evs: seq<Event>) returns (twins: seq<Event>)
    requires Inv(a) && Inv(b) && Similar(a, b) && CanRun(a, evs) && ReloadsAreCurrent(a, evs)
    ensures CanRun(b, twins) && ReloadsAreCurrent(b, twins)
    ensures Similar(Run(a, evs), Run(b, twins)) && SimilarResults(Returns(a, evs), Returns(b, twins))
    decreases |evs|
  {
    hide Inv, Enabled, Step, Similar, Following, CurrentReload, Returned;
    twins := [];
    if evs != [] {
      var a', first := Step(a, evs[0]), Following(a, b, evs[0]);
      StepKeepsInv(a, evs[0]);
      FollowingStep(a, b, evs[0]);
      RunRefinesFifo(b, first);
      var rest := CachedHeadIsAdvisoryInRuns(a', Run(b, first), evs[1..]);
      RunInTwo(b, first, rest);
      CurrentInTwo(b, first, rest);
      twins := first + rest;
    }
  }

  lemma {:induction false} CurrentInTwo(s: State, a: seq<Event>, b: seq<Event>)
    requires CanRun(s, a) && CanRun(Run(s, a), b) && ReloadsAreCurrent(s, a) && ReloadsAreCurrent(Run(s, a), b)
    ensures CanRun(s, a + b) && ReloadsAreCurrent(s, a + b)
    decreases |a|
  {
    hide Enabled, Step, CurrentReload;
    RunInTwo(s, a, b);
    if a == [] {
      assert a + b == b;
    } else {
      assert (a + b)[1..] == a[1..] + b;
      CurrentInTwo(Step(s, a[0]), a[1..], b);
    }
  }

  // A coherent cache

  /** The cached head is a value head_ had since the consumer's tail_ was where it is. */
  ghost predicate CacheCoherent(s: State) {
    && s.m.tail <= s.localHead <= s.m.head
    && (s.consumer.Probing? || s.consumer.Reading? || s.consumer.Clearing? || s.consumer.Advancing? ==>
          s.m.tail < s.localHead)
  }

  lemma StepKeepsCache(s: State, ev: Event)
    requires Inv(s) && CacheCoherent(s) && Enabled(s, ev)
    ensures CacheCoherent(Step(s, ev))
  {
    hide And;
  }

  /** With a coherent cache, as a fresh thread has on a fresh ring, a pop reports EMPTY exactly on an empty ring. */
  lemma CoherentEmptyIsExact(s: State, mode: PopMode)
    requires Inv(s) && CacheCoherent(s) && s.consumer.Rest? && ModeFits(mode, s.m.sz)
    ensures PopAlone(s, mode).consumer == Rest(Empty) <==> Queue(s.m) == []
  {
    PopOutcome(s, mode);
  }
}
