/** The monitor keeps its invariant, loses no wake-up, cannot deadlock, and is a bounded FIFO queue. */
module BlockInvariant {
  import opened Words
  import opened Cells
  import opened Operations
  import opened BoundedFifo
  import opened BlockProtocol

  // Counting servers

  lemma AddOne(a: set<Tid>, b: set<Tid>, t: Tid)
    requires b == a + {t} && t !in a
    ensures |b| == |a| + 1
  {
  }

  lemma DropOne(a: set<Tid>, b: set<Tid>, t: Tid)
    requires b == a - {t}
    ensures |b| >= |a| - 1 && (t !in a ==> b == a)
  {
    if t in a {
      AddOne(b, a, t);
    }
  }

  /** How the servers change when one thread moves. */
  lemma ServersAfterMove(threads: map<Tid, Pc>, t: Tid, pc: Pc)
    requires t in threads
    ensures var after := threads[t := pc];
            && |PopServers(after)| == |PopServers(threads)|
                 + (if ServesPops(pc) then 1 else 0) - (if ServesPops(threads[t]) then 1 else 0)
            && |PushServers(after)| == |PushServers(threads)|
                 + (if ServesPushes(pc) then 1 else 0) - (if ServesPushes(threads[t]) then 1 else 0)
  {
    var after := threads[t := pc];
    MoveCount(PopServers(threads), PopServers(after), t);
    MoveCount(PushServers(threads), PushServers(after), t);
  }

  lemma MoveCount(a: set<Tid>, b: set<Tid>, t: Tid)
    requires forall u | u != t :: u in a <==> u in b
    ensures |b| == |a| + (if t in b then 1 else 0) - (if t in a then 1 else 0)
  {
    assert a - {t} == b - {t};
    if t in a { AddOne(a - {t}, a, t); }
    if t in b { AddOne(b - {t}, b, t); }
    if t !in a { assert a - {t} == a; }
    if t !in b { assert b - {t} == b; }
  }

  /** A signal spends its sender and gains at least one woken thread if anybody was asleep. */
  lemma ServersAfterSignal(s: State, t: Tid, roused: set<Tid>)
    requires Enabled(s, t, Signal(roused))
    ensures var after := Step(s, t, Signal(roused)).threads;
            && (s.threads[t].PushSignalling? && roused != {} ==> |PopServers(s.threads)| <= |PopServers(after)|)
            && (s.threads[t].PushSignalling? ==> |PushServers(s.threads)| <= |PushServers(after)|)
            && (s.threads[t].PopSignalling? && roused != {} ==> |PushServers(s.threads)| <= |PushServers(after)|)
            && (s.threads[t].PopSignalling? ==> |PopServers(s.threads)| <= |PopServers(after)|)
  {
    var after := Step(s, t, Signal(roused)).threads;
    var pops, pushes := PopServers(s.threads), PushServers(s.threads);
    if s.threads[t].PushSignalling? {
      assert pushes <= PushServers(after);
      SubsetCount(pushes, PushServers(after));
      if roused != {} {
        var u :| u in roused;
        SwapCount(pops, PopServers(after), t, u);
      }
    } else {
      assert pops <= PopServers(after);
      SubsetCount(pops, PopServers(after));
      if roused != {} {
        var u :| u in roused;
        SwapCount(pushes, PushServers(after), t, u);
      }
    }
  }

  lemma SubsetCount(a: set<Tid>, b: set<Tid>)
    requires a <= b
    ensures |a| <= |b|
  {
    assert b == a + (b - a);
  }

  lemma SwapCount(a: set<Tid>, b: set<Tid>, t: Tid, u: Tid)
    requires a - {t} <= b && u in b && u !in a
    ensures |a| <= |b|
  {
    DropOne(a, a - {t}, t);
    SubsetCount(a - {t}, b - {u});
    AddOne(b - {u}, b, u);
  }

  // Steps

  lemma MoveKeepsWakeups(s: State, t: Tid, a: Action)
    requires Inv(s) && Enabled(s, t, a) && !a.Signal?
    ensures WakeupsInv(Step(s, t, a))
  {
    hide And;
    ServersAfterMove(s.threads, t, NextPc(s, t, a));
    assert ThreadOk(s.m, s.threads[t]);
  }

  lemma SignalKeepsWakeups(s: State, t: Tid, roused: set<Tid>)
    requires Inv(s) && Enabled(s, t, Signal(roused))
    ensures WakeupsInv(Step(s, t, Signal(roused)))
  {
    hide And;
    ServersAfterSignal(s, t, roused);
    var s' := Step(s, t, Signal(roused));
    forall u | u in s'.threads && Asleep(s'.threads[u])
      ensures s.threads[u] == s'.threads[u] && u !in roused
    {
    }
    forall u | u in s'.threads && s'.threads[u].PopAsleep?
      ensures s'.m.head - s'.m.tail <= |PopServers(s'.threads)|
    {
      assert s.threads[t].PushSignalling? ==> u in Sleepers(s.threads, s.threads[t]);
    }
    forall u | u in s'.threads && s'.threads[u].PushAsleep?
      ensures s'.m.n - (s'.m.head - s'.m.tail) <= |PushServers(s'.threads)|
    {
      assert s.threads[t].PopSignalling? ==> u in Sleepers(s.threads, s.threads[t]);
    }
  }

  lemma StepKeepsMutex(s: State, t: Tid, a: Action)
    requires MutexInv(s.threads) && Enabled(s, t, a)
    ensures MutexInv(Step(s, t, a).threads)
  {
    hide And;
    var s' := Step(s, t, a);
    forall u | u in s'.threads && u != t && Inside(s'.threads[u])
      ensures Inside(s.threads[u]) && !a.Lock?
    {
    }
  }

  lemma StepKeepsData(s: State, t: Tid, a: Action)
    requires Inv(s) && Enabled(s, t, a)
    ensures DataInv(Step(s, t, a).m)
  {
    hide And;
    var m, m', pc := s.m, Step(s, t, a).m, s.threads[t];
    assert ThreadOk(m, pc);
    if a.CopyByte? && pc.PushCopying? {
      forall k | m.tail <= k < |m.log|
        ensures m.log[k] <= CellOf(m', k)
      {
        IdxApart(k, m.head, m.n);
        assert m.log[k] <= CellOf(m, k);
      }
    }
    if a.Advance? && pc.PushCopying? {
      assert pc.obj[..pc.i] == pc.obj;
    }
  }

  lemma StepKeepsOwn(s: State, t: Tid, a: Action)
    requires Inv(s) && Enabled(s, t, a)
    ensures ThreadOk(Step(s, t, a).m, NextPc(s, t, a))
  {
    hide And;
    var m, pc := s.m, s.threads[t];
    assert ThreadOk(m, pc);
    if a.CopyByte? && pc.PushCopying? {
      var c := CellOf(m, m.head);
      assert c[pc.i := pc.obj[pc.i]][..pc.i + 1] == c[..pc.i] + [pc.obj[pc.i]];
      assert pc.obj[..pc.i + 1] == pc.obj[..pc.i] + [pc.obj[pc.i]];
    }
  }

  /** Threads outside the monitor do not depend on the ring, and no other thread is inside. */
  lemma StepKeepsOther(s: State, t: Tid, a: Action, u: Tid)
    requires Inv(s) && Enabled(s, t, a) && u in s.threads && u != t
    ensures ThreadOk(Step(s, t, a).m, Step(s, t, a).threads[u])
  {
    hide And;
    assert ThreadOk(s.m, s.threads[u]);
  }

  /** Every step of every thread keeps the invariant. */
  lemma StepKeepsInv(s: State, t: Tid, a: Action)
    requires Inv(s) && Enabled(s, t, a)
    ensures Inv(Step(s, t, a))
  {
    hide And, WakeupsInv, DataInv;
    var s' := Step(s, t, a);
    StepKeepsData(s, t, a);
    StepKeepsMutex(s, t, a);
    if a.Signal? {
      SignalKeepsWakeups(s, t, a.roused);
    } else {
      MoveKeepsWakeups(s, t, a);
    }
    forall u | u in s'.threads
      ensures DataInv(s'.m) && WellFormed(s'.m) && ThreadOk(s'.m, s'.threads[u])
    {
      DataIsWellFormed(s'.m);
      if u == t {
        StepKeepsOwn(s, t, a);
      } else {
        StepKeepsOther(s, t, a, u);
      }
    }
  }

  lemma DataIsWellFormed(m: Ring)
    requires DataInv(m)
    ensures WellFormed(m)
  {
  }

  lemma InitialInv(s: State)
    requires Initial(s)
    ensures Inv(s)
  {
  }
}
