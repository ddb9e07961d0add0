/** Whole runs of the blocking ring: FIFO refinement, no lost wake-up, no deadlock, no livelock. */
module BlockRuns {
  import opened Words
  import opened Cells
  import opened Operations
  import opened BoundedFifo
  import opened BlockProtocol
  import opened BlockInvariant

  datatype Event = Event(t: Tid, a: Action)

  ghost predicate CanRun(s: State, evs: seq<Event>)
    decreases |evs|
  {
    evs == [] || (Enabled(s, evs[0].t, evs[0].a) && CanRun(Step(s, evs[0].t, evs[0].a), evs[1..]))
  }

  ghost function Run(s: State, evs: seq<Event>): State
    requires CanRun(s, evs)
    decreases |evs|
  {
    if evs == [] then s else Run(Step(s, evs[0].t, evs[0].a), evs[1..])
  }

  // Refinement of the bounded queue

  ghost function Queue(m: Ring): seq<seq<Byte>>
    requires DataInv(m)
  {
    m.log[m.tail..]
  }

  /** Both operations take effect when they move their index; a pop stands for the object its bytes come from. */
  ghost function Effect(s: State, t: Tid, a: Action): seq<Op<seq<Byte>>>
    requires Enabled(s, t, a)
  {
    var pc := s.threads[t];
    if a.Advance? && pc.PushCopying? then [Enqueue(pc.obj)]
    else if a.Advance? && s.m.tail < |s.m.log| then [Dequeue(s.m.log[s.m.tail])]
    else []
  }

  ghost function Effects(s: State, evs: seq<Event>): seq<Op<seq<Byte>>>
    requires CanRun(s, evs)
    decreases |evs|
  {
    if evs == [] then [] else
      Effect(s, evs[0].t, evs[0].a) + Effects(Step(s, evs[0].t, evs[0].a), evs[1..])
  }

  /** The step that moves head_ appends the object just copied. */
  lemma AdvanceAppends(s: State, t: Tid)
    requires Inv(s) && Enabled(s, t, Advance) && s.threads[t].PushCopying? && DataInv(Step(s, t, Advance).m)
    ensures |Queue(s.m)| < s.m.n
    ensures Queue(Step(s, t, Advance).m) == Queue(s.m) + [s.threads[t].obj]
  {
    hide And, MutexInv, WakeupsInv;
    assert ThreadOk(s.m, s.threads[t]);
  }

  /** The step that moves tail_ removes the front. */
  lemma AdvanceRemoves(s: State, t: Tid)
    requires Inv(s) && Enabled(s, t, Advance) && s.threads[t].PopCopying? && DataInv(Step(s, t, Advance).m)
    ensures s.m.tail < |s.m.log| && Queue(s.m) != [] && Queue(s.m)[0] == s.m.log[s.m.tail]
    ensures Queue(Step(s, t, Advance).m) == Queue(s.m)[1..]
  {
    hide And, MutexInv, WakeupsInv;
    assert ThreadOk(s.m, s.threads[t]);
  }

  lemma OthersKeepQueue(s: State, t: Tid, a: Action)
    requires Inv(s) && Enabled(s, t, a) && !a.Advance? && DataInv(Step(s, t, a).m)
    ensures Queue(Step(s, t, a).m) == Queue(s.m)
  {
    hide And, MutexInv, WakeupsInv;
  }

  lemma StepRefinesFifo(s: State, t: Tid, a: Action)
    requires Inv(s) && Enabled(s, t, a) && Inv(Step(s, t, a))
    ensures AllowsAll(Queue(s.m), s.m.n, Effect(s, t, a))
    ensures ApplyAll(Queue(s.m), s.m.n, Effect(s, t, a)) == Queue(Step(s, t, a).m)
  {
    hide And, MutexInv, WakeupsInv, Step, Queue;
    if !a.Advance? {
      OthersKeepQueue(s, t, a);
    } else if s.threads[t].PushCopying? {
      AdvanceAppends(s, t);
      Single(Queue(s.m), s.m.n, Enqueue(s.threads[t].obj));
    } else {
      AdvanceRemoves(s, t);
      Single(Queue(s.m), s.m.n, Dequeue(s.m.log[s.m.tail]));
    }
  }

  /** Every run of the monitor is a run of the bounded FIFO queue. */
  lemma {:induction false} RunRefinesFifo(s: State, evs: seq<Event>)
    requires Inv(s) && CanRun(s, evs)
    ensures Inv(Run(s, evs))
    ensures AllowsAll(Queue(s.m), s.m.n, Effects(s, evs))
    ensures ApplyAll(Queue(s.m), s.m.n, Effects(s, evs)) == Queue(Run(s, evs).m)
    ensures |Queue(Run(s, evs).m)| <= s.m.n
    decreases |evs|
  {
    if evs != [] {
      var s' := Step(s, evs[0].t, evs[0].a);
      StepKeepsInv(s, evs[0].t, evs[0].a);
      StepRefinesFifo(s, evs[0].t, evs[0].a);
      RunRefinesFifo(s', evs[1..]);
      Concatenate(Queue(s.m), s.m.n, Effect(s, evs[0].t, evs[0].a), Effects(s', evs[1..]));
    }
  }

  /** A pop that dequeues has read, in order, `size` bytes of a block that starts with the front object. */
  lemma PopReturnsFront(s: State, t: Tid)
    requires Inv(s) && Enabled(s, t, Advance) && s.threads[t].PopCopying?
    ensures var seen, size := s.threads[t].seen, s.threads[t].size;
            && Queue(s.m) != []
            && (size <= |Queue(s.m)[0]| ==> Bytes(seen) == Queue(s.m)[0][..size])
            && (|Queue(s.m)[0]| <= size ==> Queue(s.m)[0] <= Bytes(seen))
            && Step(s, t, Advance).threads[t] == PopSignalling(Wrap(s.m.tail), seen)
  {
    assert ThreadOk(s.m, s.threads[t]);
    assert s.m.log[s.m.tail] <= CellOf(s.m, s.m.tail);
    CopyAgrees(s.threads[t].seen, s.threads[t].size, s.m.log[s.m.tail]);
  }

  // Wake-ups

  lemma NonEmpty(a: set<Tid>)
    requires |a| > 0
    ensures exists t :: t in a
  {
  }

  /** A sleeping consumer is never forgotten: if there is data, somebody is on the way to it or about to signal. */
  lemma NoLostWakeup(s: State, t: Tid)
    requires Inv(s) && t in s.threads && Asleep(s.threads[t])
    ensures s.threads[t].PopAsleep? && Queue(s.m) != [] ==>
              exists u :: u in s.threads && ServesPops(s.threads[u])
    ensures s.threads[t].PushAsleep? && |Queue(s.m)| < s.m.n ==>
              exists u :: u in s.threads && ServesPushes(s.threads[u])
  {
    if s.threads[t].PopAsleep? && Queue(s.m) != [] {
      NonEmpty(PopServers(s.threads));
    }
    if s.threads[t].PushAsleep? && |Queue(s.m)| < s.m.n {
      NonEmpty(PushServers(s.threads));
    }
  }

  /** A step other than starting an operation or waking for no reason. */
  ghost predicate Driven(a: Action) {
    !a.BeginPush? && !a.BeginPop? && !a.Rouse?
  }

  ghost predicate CanMove(s: State) {
    exists t, a :: Enabled(s, t, a) && Driven(a)
  }

  /** The step of a thread inside the monitor; a signal rouses every sleeper. */
  ghost function InsideAction(threads: map<Tid, Pc>, pc: Pc): Action
    requires Inside(pc)
  {
    match pc
    case PushTesting(_, _) => Test
    case PopTesting(_, _) => Test
    case PushCopying(obj, _, i) => if i < |obj| then CopyByte else Advance
    case PopCopying(size, _, seen) => if |seen| < size then CopyByte else Advance
    case PushSignalling(_) => Signal(Sleepers(threads, pc))
    case PopSignalling(_, _) => Signal(Sleepers(threads, pc))
    case PushLeaving(_) => Unlock
    case PopLeaving(_, _) => Unlock
  }

  /** The monitor moves exactly as long as some operation in progress is not asleep. */
  lemma MovesUnlessAllAsleep(s: State)
    requires Inv(s)
    ensures CanMove(s) <==> exists t :: t in s.threads && !s.threads[t].Idle? && !Asleep(s.threads[t])
  {
    if t :| t in s.threads && !s.threads[t].Idle? && !Asleep(s.threads[t]) {
      if u :| u in s.threads && Inside(s.threads[u]) {
        assert ThreadOk(s.m, s.threads[u]);
        assert Enabled(s, u, InsideAction(s.threads, s.threads[u]));
      } else {
        assert Enabled(s, t, Lock);
      }
    }
  }

  /**
   * No deadlock: when nothing can move, the operations in progress are all pops on an empty ring or
   * all pushes on a full one. A push and a pop in progress at the same time are never both stuck.
   */
  lemma NoDeadlock(s: State, t: Tid)
    requires Inv(s) && !CanMove(s)
    requires t in s.threads && !s.threads[t].Idle?
    ensures if s.threads[t].PopAsleep?
            then Queue(s.m) == [] && forall u | u in s.threads && !s.threads[u].Idle? :: s.threads[u].PopAsleep?
            else |Queue(s.m)| == s.m.n && forall u | u in s.threads && !s.threads[u].Idle? :: s.threads[u].PushAsleep?
  {
    MovesUnlessAllAsleep(s);
    assert PopServers(s.threads) == {} && PushServers(s.threads) == {};
  }

  // Termination

  /** Steps an operation can still be made to take, with `n` threads around. */
  ghost function Weight(pc: Pc, n: nat): nat {
    match pc
    case Idle(_) => 0
    case PushLeaving(_) => 1
    case PopLeaving(_, _) => 1
    case PushSignalling(_) => 2 * n + 2
    case PopSignalling(_, _) => 2 * n + 2
    case PushCopying(obj, _, i) => 2 * n + 3 + (if i <= |obj| then |obj| - i else 0)
    case PopCopying(size, _, seen) => 2 * n + 3 + (if |seen| <= size then size - |seen| else 0)
    case PushAsleep(obj) => 2 * n + 4 + |obj|
    case PopAsleep(size) => 2 * n + 4 + size
    case PushTesting(obj, _) => 2 * n + 5 + |obj|
    case PopTesting(size, _) => 2 * n + 5 + size
    case PushArriving(obj) => 2 * n + 6 + |obj|
    case PopArriving(size) => 2 * n + 6 + size
    case PushWoken(obj) => 2 * n + 6 + |obj|
    case PopWoken(size) => 2 * n + 6 + size
  }

  ghost function Total(threads: map<Tid, Pc>, keys: set<Tid>, n: nat): nat
    requires keys <= threads.Keys
  {
    if keys == {} then 0 else
      var t :| t in keys;
      Weight(threads[t], n) + Total(threads, keys - {t}, n)
  }

  lemma {:induction false} TotalSplit(threads: map<Tid, Pc>, keys: set<Tid>, n: nat, t: Tid)
    requires keys <= threads.Keys && t in keys
    ensures Total(threads, keys, n) == Weight(threads[t], n) + Total(threads, keys - {t}, n)
    decreases |keys|
  {
    var u :| u in keys && Total(threads, keys, n) == Weight(threads[u], n) + Total(threads, keys - {u}, n);
    if u != t {
      DropOne(keys, keys - {u}, u);
      AddOne(keys - {u}, keys, u);
      TotalSplit(threads, keys - {u}, n, t);
      AddOne(keys - {t}, keys, t);
      TotalSplit(threads, keys - {t}, n, u);
      assert keys - {u} - {t} == keys - {t} - {u};
    }
  }

  /** Rousing adds at most two steps per thread. */
  lemma {:induction false} TotalRises(a: map<Tid, Pc>, b: map<Tid, Pc>, keys: set<Tid>, n: nat, rise: nat)
    requires keys <= a.Keys && keys <= b.Keys
    requires forall t | t in keys :: Weight(b[t], n) <= Weight(a[t], n) + rise
    ensures Total(b, keys, n) <= Total(a, keys, n) + rise * |keys|
    decreases |keys|
  {
    hide Weight;
    if keys != {} {
      var t :| t in keys;
      TotalSplit(a, keys, n, t);
      TotalSplit(b, keys, n, t);
      AddOne(keys - {t}, keys, t);
      TotalRises(a, b, keys - {t}, n, rise);
      Distributes(rise, |keys - {t}|);
    }
  }

  lemma Distributes(a: nat, b: nat)
    ensures a * (b + 1) == a * b + a
  {
  }

  /** All the steps the operations in progress can still be made to take. */
  ghost function Fuel(s: State): nat {
    Total(s.threads, s.threads.Keys, |s.threads|)
  }

  lemma OwnWeightDrops(s: State, t: Tid, a: Action)
    requires Inv(s) && Enabled(s, t, a) && Driven(a)
    ensures Weight(NextPc(s, t, a), |s.threads|) < Weight(s.threads[t], |s.threads|)
    ensures a.Signal? ==> Weight(NextPc(s, t, a), |s.threads|) + 2 * |s.threads| < Weight(s.threads[t], |s.threads|)
  {
    hide And, DataInv, MutexInv, WakeupsInv;
    DataIsWellFormed(s.m);
    assert ThreadOk(s.m, s.threads[t]);
  }

  lemma OthersRise(s: State, t: Tid, a: Action, u: Tid)
    requires Enabled(s, t, a) && u in s.threads && u != t
    ensures var s', n := Step(s, t, a), |s.threads|;
            && u in s'.threads
            && Weight(s'.threads[u], n) <= Weight(s.threads[u], n) + (if a.Signal? then 2 else 0)
  {
  }

  lemma StepBurnsFuel(s: State, t: Tid, a: Action)
    requires Inv(s) && Enabled(s, t, a) && Driven(a)
    ensures Fuel(Step(s, t, a)) < Fuel(s)
  {
    hide And, Inv, Total, Weight, NextPc, NextRing;
    var s', n := Step(s, t, a), |s.threads|;
    var keys := s.threads.Keys;
    var rise := if a.Signal? then 2 else 0;
    StepKeepsKeys(s, t, a);
    OwnWeightDrops(s, t, a);
    TotalSplit(s.threads, keys, n, t);
    TotalSplit(s'.threads, keys, n, t);
    forall u | u in keys - {t}
      ensures Weight(s'.threads[u], n) <= Weight(s.threads[u], n) + rise
    {
      OthersRise(s, t, a, u);
    }
    TotalRises(s.threads, s'.threads, keys - {t}, n, rise);
    AddOne(keys - {t}, keys, t);
    RiseIsPaid(a, |keys - {t}|, n);
  }

  lemma RiseIsPaid(a: Action, others: nat, n: nat)
    requires n == others + 1
    ensures (if a.Signal? then 2 else 0) * others <= if a.Signal? then 2 * n else 0
  {
  }

  lemma StepKeepsKeys(s: State, t: Tid, a: Action)
    requires Enabled(s, t, a)
    ensures Step(s, t, a).threads.Keys == s.threads.Keys
    ensures |Step(s, t, a).threads| == |s.threads| == |s.threads.Keys|
    ensures Step(s, t, a).threads[t] == NextPc(s, t, a)
  {
    KeysCount(s.threads);
    KeysCount(Step(s, t, a).threads);
  }

  lemma KeysCount(threads: map<Tid, Pc>)
    ensures |threads.Keys| == |threads|
  {
  }

  /**
   * No livelock: however the operations in progress are scheduled, they take at most Fuel steps
   * before they have all returned or, by NoDeadlock, sleep on a condition that really does not hold.
   */
  lemma {:induction false} DrivenRunsEnd(s: State, evs: seq<Event>)
    requires Inv(s) && CanRun(s, evs) && forall i | 0 <= i < |evs| :: Driven(evs[i].a)
    ensures |evs| <= Fuel(s)
    decreases |evs|
  {
    if evs != [] {
      StepKeepsInv(s, evs[0].t, evs[0].a);
      StepBurnsFuel(s, evs[0].t, evs[0].a);
      assert forall i | 0 <= i < |evs[1..]| :: evs[1..][i] == evs[i + 1];
      DrivenRunsEnd(Step(s, evs[0].t, evs[0].a), evs[1..]);
    }
  }
}
