/** Every atomic step of the MPSC ring keeps the invariant and acts on the queue as a FIFO would. */
module MpscInvariant {
  import opened Words
  import opened Cells
  import opened Operations
  import opened Layout
  import opened BoundedFifo
  import opened MpscProtocol

  // Flags

  /** The two flag tests of a pop: EMPTY is seen exactly on EMPTY, and UNKNOWN never. */
  lemma FlagTests(stat: nat)
    requires stat == SLOT_EMPTY || stat == SLOT_VALID
    ensures And(stat, SLOT_EMPTY) != 0 <==> stat == SLOT_EMPTY
    ensures And(stat, SLOT_UNKNOWN) == 0
  {
    assert And(1, 1) == 1;
    assert And(2, 1) == 0;
  }

  /** Below 2^63 the wrapped 64-bit comparison is the one of the protocol. */
  lemma LooksFullIsWrapped(head: nat, tail: nat, n: nat)
    requires head < TWO_TO_THE_63 && tail < TWO_TO_THE_63 && n < TWO_TO_THE_63
    ensures Sub64(Wrap(head), Wrap(tail)) >= n <==> LooksFull(head, tail, n)
  {
  }

  // Producer steps

  lemma LocalPushKeepsInv(s: State, t: Tid, p: Push)
    requires Inv(s) && Enabled(s, ByProducer(t, p))
    requires p.Begin? || p.LoadHead? || p.LoadTail? || (p.CasHead? && s.m.head != s.producers[t].e)
    ensures Inv(Step(s, ByProducer(t, p)))
  {
    hide And;
    var s' := Step(s, ByProducer(t, p));
    var pc := s.producers[t];
    assert ProducerOk(s.m, s.consumer, t, pc);
    forall k | s.m.tail <= k < |s.m.log| && FlagOf(s.m, k) == SLOT_EMPTY
      ensures Retires(s.consumer, k) || Writes(s'.producers, s.m.log[k].who, k)
    {
      assert Retires(s.consumer, k) || Writes(s.producers, s.m.log[k].who, k);
    }
  }

  /** A claim never overfills the ring and never meets a leftover VALID flag. */
  lemma ClaimFindsRoom(s: State, t: Tid)
    requires Inv(s) && t in s.producers && s.producers[t].Admitted? && s.m.head == s.producers[t].e
    ensures s.m.head < s.m.tail + s.m.n && FlagOf(s.m, s.m.head) == SLOT_EMPTY
  {
    assert ProducerOk(s.m, s.consumer, t, s.producers[t]);
  }

  lemma ClaimKeepsRing(m: Ring, consumer: Consumer, t: Tid, pc: Producer)
    requires Shape(m) && FreshInv(m) && DataInv(m) && GivenInv(m) && ConsumerOk(m, consumer)
    requires ProducerOk(m, consumer, t, pc) && pc.Admitted? && m.head == pc.e
    ensures var m' := RingAfterPush(m, t, pc, CasHead);
            Shape(m') && FreshInv(m') && DataInv(m') && GivenInv(m') && ConsumerOk(m', consumer)
  {
    hide And;
    var m' := RingAfterPush(m, t, pc, CasHead);
    assert FlagOf(m, m.head) == SLOT_EMPTY;
    forall k | m'.head <= k < m.tail + m.n
      ensures FlagOf(m', k) == SLOT_EMPTY
    {
      assert FlagOf(m, k) == SLOT_EMPTY;
    }
    forall k | m.tail <= k < |m'.log| && FlagOf(m', k) == SLOT_VALID
      ensures m'.log[k].obj <= CellOf(m', k)
    {
      assert FlagOf(m, k) == SLOT_VALID;
    }
  }

  lemma ClaimKeepsInv(s: State, t: Tid)
    requires Inv(s) && t in s.producers && s.producers[t].Admitted? && s.m.head == s.producers[t].e
    ensures Inv(Step(s, ByProducer(t, CasHead)))
  {
    hide And;
    var s' := Step(s, ByProducer(t, CasHead));
    ClaimFindsRoom(s, t);
    assert ProducerOk(s.m, s.consumer, t, s.producers[t]);
    ClaimKeepsRing(s.m, s.consumer, t, s.producers[t]);
    forall u | u in s'.producers
      ensures ProducerOk(s'.m, s'.consumer, u, s'.producers[u])
    {
      assert u in s.producers && ProducerOk(s.m, s.consumer, u, s.producers[u]);
    }
    forall k | s'.m.tail <= k < |s'.m.log| && FlagOf(s'.m, k) == SLOT_EMPTY
      ensures Retires(s'.consumer, k) || Writes(s'.producers, s'.m.log[k].who, k)
    {
      if k < s.m.head {
        assert Retires(s.consumer, k) || Writes(s.producers, s.m.log[k].who, k);
      }
    }
  }

  lemma WriteKeepsOther(m: Ring, consumer: Consumer, t: Tid, pc: Producer, u: Tid, qc: Producer)
    requires Shape(m) && ProducerOk(m, consumer, t, pc) && ProducerOk(m, consumer, u, qc) && t != u
    requires CanPush(m, pc, WriteByte)
    ensures ProducerOk(RingAfterPush(m, t, pc, WriteByte), consumer, u, qc)
  {
    hide And;
    if qc.Copying? {
      CopiersApart(m, consumer, t, pc, u, qc);
    }
  }

  /** Two producers are never filling the same cell. */
  lemma CopiersApart(m: Ring, consumer: Consumer, t: Tid, pc: Producer, u: Tid, qc: Producer)
    requires Shape(m) && ProducerOk(m, consumer, t, pc) && ProducerOk(m, consumer, u, qc) && t != u
    requires pc.Copying? && qc.Copying?
    ensures Idx(pc.e, m.n) != Idx(qc.e, m.n)
  {
    if pc.e < qc.e {
      IdxApart(pc.e, qc.e, m.n);
    } else {
      IdxApart(qc.e, pc.e, m.n);
    }
  }

  lemma WriteKeepsOwn(m: Ring, consumer: Consumer, t: Tid, pc: Producer)
    requires Shape(m) && ProducerOk(m, consumer, t, pc) && CanPush(m, pc, WriteByte)
    ensures ProducerOk(RingAfterPush(m, t, pc, WriteByte), consumer, t, NextProducer(m, pc, WriteByte))
  {
    hide And;
    var c := CellOf(m, pc.e);
    assert c[pc.i := pc.obj[pc.i]][..pc.i + 1] == c[..pc.i] + [pc.obj[pc.i]];
    assert pc.obj[..pc.i + 1] == pc.obj[..pc.i] + [pc.obj[pc.i]];
  }

  lemma WriteKeepsRing(m: Ring, consumer: Consumer, t: Tid, pc: Producer)
    requires Shape(m) && FreshInv(m) && DataInv(m) && ConsumerOk(m, consumer)
    requires ProducerOk(m, consumer, t, pc) && CanPush(m, pc, WriteByte)
    ensures var m' := RingAfterPush(m, t, pc, WriteByte);
            Shape(m') && FreshInv(m') && DataInv(m') && ConsumerOk(m', consumer)
  {
    hide And;
    var m' := RingAfterPush(m, t, pc, WriteByte);
    forall k | m.head <= k < m.tail + m.n
      ensures FlagOf(m', k) == SLOT_EMPTY
    {
      assert FlagOf(m, k) == SLOT_EMPTY;
    }
    forall k | m.tail <= k < |m.log| && FlagOf(m', k) == SLOT_VALID
      ensures m.log[k].obj <= CellOf(m', k)
    {
      assert FlagOf(m, k) == SLOT_VALID;
    }
  }

  lemma WriteKeepsInv(s: State, t: Tid)
    requires Inv(s) && Enabled(s, ByProducer(t, WriteByte))
    ensures Inv(Step(s, ByProducer(t, WriteByte)))
  {
    hide And;
    var s' := Step(s, ByProducer(t, WriteByte));
    var pc := s.producers[t];
    assert ProducerOk(s.m, s.consumer, t, pc);
    forall u | u in s'.producers
      ensures ProducerOk(s'.m, s'.consumer, u, s'.producers[u])
    {
      if u == t {
        WriteKeepsOwn(s.m, s.consumer, t, pc);
      } else {
        WriteKeepsOther(s.m, s.consumer, t, pc, u, s.producers[u]);
      }
    }
    WriteKeepsRing(s.m, s.consumer, t, pc);
    forall k | s.m.tail <= k < |s.m.log| && FlagOf(s.m, k) == SLOT_EMPTY
      ensures Retires(s.consumer, k) || Writes(s'.producers, s.m.log[k].who, k)
    {
      assert Retires(s.consumer, k) || Writes(s.producers, s.m.log[k].who, k);
    }
  }

  lemma PublishKeepsInv(s: State, t: Tid)
    requires Inv(s) && Enabled(s, ByProducer(t, SetValid))
    ensures Inv(Step(s, ByProducer(t, SetValid)))
  {
    hide And;
    var s' := Step(s, ByProducer(t, SetValid));
    var m, m', pc := s.m, s'.m, s.producers[t];
    assert ProducerOk(m, s.consumer, t, pc);
    forall u | u in s'.producers
      ensures ProducerOk(m', s'.consumer, u, s'.producers[u])
    {
      assert u in s.producers && ProducerOk(m, s.consumer, u, s.producers[u]);
      if u != t && s.producers[u].Copying? {
        CopiersApart(m, s.consumer, t, pc, u, s.producers[u]);
      }
    }
    PublishKeepsRing(m, s.consumer, t, pc);
    forall k | m.tail <= k < |m.log| && FlagOf(m', k) == SLOT_EMPTY
      ensures Retires(s.consumer, k) || Writes(s'.producers, m.log[k].who, k)
    {
      assert k != pc.e;
      assert Retires(s.consumer, k) || Writes(s.producers, m.log[k].who, k);
    }
  }

  lemma PublishKeepsRing(m: Ring, consumer: Consumer, t: Tid, pc: Producer)
    requires Shape(m) && FreshInv(m) && DataInv(m) && ConsumerOk(m, consumer)
    requires ProducerOk(m, consumer, t, pc) && CanPush(m, pc, SetValid)
    ensures var m' := RingAfterPush(m, t, pc, SetValid);
            Shape(m') && FreshInv(m') && DataInv(m') && ConsumerOk(m', consumer)
  {
    hide And;
    var m' := RingAfterPush(m, t, pc, SetValid);
    forall k | m.head <= k < m.tail + m.n
      ensures FlagOf(m', k) == SLOT_EMPTY
    {
      IdxApart(pc.e, k, m.n);
      assert FlagOf(m, k) == SLOT_EMPTY;
    }
    assert pc.obj[..pc.i] == pc.obj;
    forall k | m.tail <= k < |m.log| && FlagOf(m', k) == SLOT_VALID
      ensures m.log[k].obj <= CellOf(m, k)
    {
      if k < pc.e { IdxApart(k, pc.e, m.n); }
      if pc.e < k { IdxApart(pc.e, k, m.n); }
    }
    if consumer.Advancing? && consumer.e < pc.e {
      IdxApart(consumer.e, pc.e, m.n);
    }
  }

  // Consumer steps

  lemma LocalPopKeepsInv(s: State, c: Pop)
    requires Inv(s) && Enabled(s, ByConsumer(c)) && !c.Clear? && !c.StoreTail?
    ensures Inv(Step(s, ByConsumer(c)))
  {
    hide And;
    var s' := Step(s, ByConsumer(c));
    if c.LoadFlag? {
      FlagTests(FlagOf(s.m, s.consumer.e));
      assert s.m.tail == s.m.head ==> FlagOf(s.m, s.m.head) == SLOT_EMPTY;
    }
    forall k | s.m.tail <= k < |s.m.log| && FlagOf(s.m, k) == SLOT_EMPTY
      ensures Retires(s'.consumer, k) || Writes(s.producers, s.m.log[k].who, k)
    {
      assert Retires(s.consumer, k) || Writes(s.producers, s.m.log[k].who, k);
    }
  }

  lemma ClearKeepsRing(m: Ring, pc: Consumer)
    requires Shape(m) && FreshInv(m) && DataInv(m) && ConsumerOk(m, pc) && CanPop(m, pc, Clear)
    ensures var m' := RingAfterPop(m, pc, Clear);
            Shape(m') && FreshInv(m') && DataInv(m') && ConsumerOk(m', Advancing(pc.e, pc.res))
  {
    hide And;
    var m' := RingAfterPop(m, pc, Clear);
    forall k | m.head <= k < m.tail + m.n
      ensures FlagOf(m', k) == SLOT_EMPTY
    {
      assert FlagOf(m, k) == SLOT_EMPTY;
    }
    forall k | m.tail <= k < |m.log| && FlagOf(m', k) == SLOT_VALID
      ensures m.log[k].obj <= CellOf(m', k)
    {
      assert FlagOf(m, k) == SLOT_VALID;
    }
  }

  lemma ClearKeepsInv(s: State)
    requires Inv(s) && Enabled(s, ByConsumer(Clear))
    ensures Inv(Step(s, ByConsumer(Clear)))
  {
    hide And;
    var s' := Step(s, ByConsumer(Clear));
    ClearKeepsRing(s.m, s.consumer);
    forall u | u in s'.producers
      ensures ProducerOk(s'.m, s'.consumer, u, s'.producers[u])
    {
      assert ProducerOk(s.m, s.consumer, u, s.producers[u]);
    }
    forall k | s.m.tail <= k < |s.m.log| && FlagOf(s'.m, k) == SLOT_EMPTY
      ensures Retires(s'.consumer, k) || Writes(s.producers, s.m.log[k].who, k)
    {
      if k > s.m.tail {
        IdxApart(s.m.tail, k, s.m.n);
        assert FlagOf(s.m, k) == SLOT_EMPTY;
        assert Retires(s.consumer, k) || Writes(s.producers, s.m.log[k].who, k);
      }
    }
  }

  lemma AdvanceKeepsRing(m: Ring, pc: Consumer)
    requires Shape(m) && FreshInv(m) && DataInv(m) && GivenInv(m) && ConsumerOk(m, pc) && CanPop(m, pc, StoreTail)
    ensures var m' := RingAfterPop(m, pc, StoreTail);
            Shape(m') && FreshInv(m') && DataInv(m') && GivenInv(m')
  {
    hide And;
    var m' := RingAfterPop(m, pc, StoreTail);
    IdxNextLap(m.tail, m.n);
    forall k | m.head <= k < m'.tail + m.n
      ensures FlagOf(m', k) == SLOT_EMPTY
    {
      assert k < m.tail + m.n ==> FlagOf(m, k) == SLOT_EMPTY;
    }
    forall k | m'.tail <= k < |m.log| && FlagOf(m', k) == SLOT_VALID
      ensures m.log[k].obj <= CellOf(m', k)
    {
      assert FlagOf(m, k) == SLOT_VALID;
    }
  }

  lemma AdvanceKeepsInv(s: State)
    requires Inv(s) && Enabled(s, ByConsumer(StoreTail))
    ensures Inv(Step(s, ByConsumer(StoreTail)))
  {
    hide And;
    var s' := Step(s, ByConsumer(StoreTail));
    AdvanceKeepsRing(s.m, s.consumer);
    forall u | u in s'.producers
      ensures ProducerOk(s'.m, s'.consumer, u, s'.producers[u])
    {
      assert ProducerOk(s.m, s.consumer, u, s.producers[u]);
    }
    forall k | s'.m.tail <= k < |s.m.log| && FlagOf(s'.m, k) == SLOT_EMPTY
      ensures Retires(s'.consumer, k) || Writes(s.producers, s.m.log[k].who, k)
    {
      assert FlagOf(s.m, k) == SLOT_EMPTY;
      assert Retires(s.consumer, k) || Writes(s.producers, s.m.log[k].who, k);
    }
  }

  /** Every step of every thread keeps the invariant, whatever the consumer's cached head holds. */
  lemma StepKeepsInv(s: State, ev: Event)
    requires Inv(s) && Enabled(s, ev)
    ensures Inv(Step(s, ev))
  {
    match ev
    case ByProducer(t, p) =>
      if p.WriteByte? {
        WriteKeepsInv(s, t);
      } else if p.SetValid? {
        PublishKeepsInv(s, t);
      } else if p.CasHead? && s.m.head == s.producers[t].e {
        ClaimKeepsInv(s, t);
      } else {
        LocalPushKeepsInv(s, t, p);
      }
    case ByConsumer(c) =>
      if c.Clear? {
        ClearKeepsInv(s);
      } else if c.StoreTail? {
        AdvanceKeepsInv(s);
      } else {
        LocalPopKeepsInv(s, c);
      }
  }

  lemma InitialInv(s: State)
    requires Initial(s)
    ensures Inv(s)
  {
  }
}
