/** Every atomic step of the MPMC ring keeps the invariant, whatever the interleaving. */
module MpmcInvariant {
  import opened Words
  import opened Cells
  import opened Operations
  import opened MpmcProtocol

  lemma InvShape(s: State)
    requires Inv(s)
    ensures Shape(s.m)
  {
  }

  // What a successful CAS knows

  /** The slot a producer saw free for its ticket is still so when its CAS on head_ succeeds. */
  lemma ClaimedCellIsFree(m: Ring, t: Tid, pc: Pc)
    requires Shape(m) && ThreadOk(m, t, pc) && pc.PushReady? && m.head == pc.e
    ensures SlotOf(m, m.head) == m.head < m.tail + m.n
  {
    var j := Idx(m.head, m.n);
    var v := m.slot[j];
    if Free(m.n, m.tail, j, v) {
      if v != m.head { IdxApart(m.head, v, m.n); }
    } else {
      assert Published(m.n, m.head, j, v);
      IdxApart(m.head - 1, m.head, m.n);
    }
  }

  /** The slot a consumer saw published for its ticket is still so when its CAS on tail_ succeeds. */
  lemma TakenCellIsPublished(m: Ring, t: Tid, pc: Pc)
    requires Shape(m) && ThreadOk(m, t, pc) && pc.PopReady? && m.tail == pc.e
    ensures SlotOf(m, m.tail) == m.tail + 1 <= m.head
  {
    var j := Idx(m.tail, m.n);
    var v := m.slot[j];
    if Free(m.n, m.tail, j, v) {
      IdxApart(m.tail, v, m.n);
    } else {
      assert Published(m.n, m.head, j, v);
      if v - 1 != m.tail { IdxApart(m.tail, v - 1, m.n); }
    }
  }

  // Ownership

  /** A thread between claim and release. */
  ghost predicate Holds(m: Ring, t: Tid, pc: Pc)
    requires WellFormed(m)
  {
    (pc.PushCopy? && ClaimedBy(m, t, pc.obj, pc.e)) || (pc.PopRead? && TakenBy(m, t, pc.e))
  }

  /** Two threads between claim and release are never on the same cell. */
  lemma HoldersApart(m: Ring, t: Tid, pc: Pc, u: Tid, qc: Pc)
    requires WellFormed(m) && IsPow2(m.n) && m.n >= 2
    requires t != u && Holds(m, t, pc) && Holds(m, u, qc)
    ensures Idx(pc.e, m.n) != Idx(qc.e, m.n)
  {
    if pc.e < qc.e < pc.e + m.n {
      IdxApart(pc.e, qc.e, m.n);
    } else if qc.e < pc.e < qc.e + m.n {
      IdxApart(qc.e, pc.e, m.n);
    }
  }

  // Local steps

  lemma LocalStepKeepsThread(m: Ring, t: Tid, pc: Pc, a: Action)
    requires Shape(m) && DataInv(m) && ThreadOk(m, t, pc) && CanDo(m, pc, a) && NextRing(m, t, pc, a) == m
    ensures ThreadOk(m, t, NextPc(m, pc, a))
  {
  }

  lemma LocalStepKeepsInv(s: State, t: Tid, a: Action)
    requires Inv(s) && Enabled(s, t, a) && NextRing(s.m, t, s.threads[t], a) == s.m
    requires !a.StoreSlot?
    ensures Inv(Step(s, t, a))
  {
    var s' := Step(s, t, a);
    LocalStepKeepsThread(s.m, t, s.threads[t], a) by { assert ThreadOk(s.m, t, s.threads[t]); }
    forall k | s.m.tail <= k < |s.m.log| && SlotOf(s.m, k) == k
      ensures Writes(s'.threads, s.m.log[k].who, k)
    {
      assert Writes(s.threads, s.m.log[k].who, k);
    }
    forall k | 0 <= k < |s.m.taken| && k !in s.m.given
      ensures Reads(s'.threads, s.m.taken[k], k)
    {
      assert Reads(s.threads, s.m.taken[k], k);
    }
  }

  // Claiming a ticket for pushing

  ghost predicate ClaimsHead(s: State, t: Tid) {
    Inv(s) && t in s.threads && s.threads[t].PushReady? && s.m.head == s.threads[t].e
  }

  /** A taken ticket that is not handed over still has its cell. */
  lemma UnreleasedCell(s: State, k: nat)
    requires Inv(s) && k < s.m.tail && k !in s.m.given
    ensures SlotOf(s.m, k) == k + 1
  {
    hide And, IsPow2;
    assert Reads(s.threads, s.m.taken[k], k);
    assert ThreadOk(s.m, s.m.taken[k], s.threads[s.m.taken[k]]);
  }

  /** The ticket that would be pushed out of the window has been handed over. */
  lemma OldestIsReleased(s: State, t: Tid)
    requires ClaimsHead(s, t)
    ensures s.m.head >= s.m.n ==> s.m.head - s.m.n in s.m.given
  {
    hide And, IsPow2;
    var pc := s.threads[t];
    assert ThreadOk(s.m, t, pc);
    ClaimedCellIsFree(s.m, t, pc);
    if s.m.head >= s.m.n {
      var k := s.m.head - s.m.n;
      IdxNextLap(k, s.m.n);
      if k !in s.m.given {
        UnreleasedCell(s, k);
      }
    }
  }

  lemma ClaimKeepsShape(s: State, t: Tid)
    requires ClaimsHead(s, t)
    ensures Shape(Step(s, t, Cas).m)
  {
    var m, m' := s.m, Step(s, t, Cas).m;
    var pc := s.threads[t];
    assert ThreadOk(m, t, pc);
    ClaimedCellIsFree(m, t, pc);
    forall j | 0 <= j < m.n
      ensures Free(m.n, m.tail, j, m.slot[j]) || Published(m.n, m'.head, j, m.slot[j])
    {
      var v := m.slot[j];
      if !Free(m.n, m.tail, j, v) && v + m.n == m'.head {
        IdxNextLap(v - 1, m.n);
      }
    }
  }

  lemma ClaimKeepsOther(m: Ring, t: Tid, pc: Pc, u: Tid, qc: Pc)
    requires Shape(m) && pc.PushReady? && m.head == pc.e == SlotOf(m, m.head) && t != u
    requires m.head >= m.n ==> m.head - m.n in m.given
    requires ThreadOk(m, u, qc)
    ensures ThreadOk(NextRing(m, t, pc, Cas), u, qc)
  {
  }

  lemma ClaimKeepsThread(s: State, t: Tid, u: Tid)
    requires ClaimsHead(s, t) && u in s.threads
    ensures var s' := Step(s, t, Cas); ThreadOk(s'.m, u, s'.threads[u])
  {
    hide And, IsPow2;
    var pc := s.threads[t];
    assert ThreadOk(s.m, t, pc) && ThreadOk(s.m, u, s.threads[u]);
    ClaimedCellIsFree(s.m, t, pc);
    if u != t {
      OldestIsReleased(s, t);
      ClaimKeepsOther(s.m, t, pc, u, s.threads[u]);
    }
  }

  lemma ClaimKeepsInv(s: State, t: Tid)
    requires ClaimsHead(s, t)
    ensures Inv(Step(s, t, Cas))
  {
    hide And, IsPow2, ThreadOk;
    var s' := Step(s, t, Cas);
    ClaimKeepsShape(s, t);
    ClaimedCellIsFree(s.m, t, s.threads[t]) by { assert ThreadOk(s.m, t, s.threads[t]); }
    forall u | u in s'.threads
      ensures ThreadOk(s'.m, u, s'.threads[u])
    {
      ClaimKeepsThread(s, t, u);
    }
    forall k | s'.m.tail <= k < |s'.m.log| && SlotOf(s'.m, k) == k
      ensures Writes(s'.threads, s'.m.log[k].who, k)
    {
      if k < s.m.head {
        assert Writes(s.threads, s.m.log[k].who, k);
      }
    }
    forall k | 0 <= k < |s.m.taken| && k !in s.m.given
      ensures Reads(s'.threads, s.m.taken[k], k)
    {
      assert Reads(s.threads, s.m.taken[k], k);
    }
  }

  // Claiming a ticket for popping

  ghost predicate ClaimsTail(s: State, t: Tid) {
    Inv(s) && t in s.threads && s.threads[t].PopReady? && s.m.tail == s.threads[t].e
  }

  lemma TakeKeepsShape(s: State, t: Tid)
    requires ClaimsTail(s, t)
    ensures Shape(Step(s, t, Cas).m)
  {
    var m, m' := s.m, Step(s, t, Cas).m;
    var pc := s.threads[t];
    assert ThreadOk(m, t, pc);
    TakenCellIsPublished(m, t, pc);
    forall j | 0 <= j < m.n
      ensures Free(m.n, m'.tail, j, m.slot[j]) || Published(m.n, m.head, j, m.slot[j])
    {
      assert Free(m.n, m.tail, j, m.slot[j]) || Published(m.n, m.head, j, m.slot[j]);
    }
  }

  lemma TakeKeepsOther(m: Ring, t: Tid, pc: Pc, u: Tid, qc: Pc)
    requires Shape(m) && pc.PopReady? && m.tail == pc.e && SlotOf(m, m.tail) == m.tail + 1 && t != u
    requires ThreadOk(m, u, qc)
    ensures ThreadOk(NextRing(m, t, pc, Cas), u, qc)
  {
  }

  lemma TakeKeepsThread(s: State, t: Tid, u: Tid)
    requires ClaimsTail(s, t) && u in s.threads
    ensures var s' := Step(s, t, Cas); ThreadOk(s'.m, u, s'.threads[u])
  {
    var pc := s.threads[t];
    assert ThreadOk(s.m, t, pc) && ThreadOk(s.m, u, s.threads[u]);
    TakenCellIsPublished(s.m, t, pc);
    if u != t {
      TakeKeepsOther(s.m, t, pc, u, s.threads[u]);
    }
  }

  lemma TakeKeepsInv(s: State, t: Tid)
    requires ClaimsTail(s, t)
    ensures Inv(Step(s, t, Cas))
  {
    var s' := Step(s, t, Cas);
    TakeKeepsShape(s, t);
    forall u | u in s'.threads
      ensures ThreadOk(s'.m, u, s'.threads[u])
    {
      TakeKeepsThread(s, t, u);
    }
    forall k | s'.m.tail <= k < |s.m.log| && SlotOf(s.m, k) == k
      ensures Writes(s'.threads, s.m.log[k].who, k)
    {
      assert Writes(s.threads, s.m.log[k].who, k);
    }
    forall k | 0 <= k < |s'.m.taken| && k !in s.m.given
      ensures Reads(s'.threads, s'.m.taken[k], k)
    {
      if k < s.m.tail {
        assert Reads(s.threads, s.m.taken[k], k);
      }
    }
  }

  // Copying

  lemma CopyKeepsThread(m: Ring, t: Tid, pc: Pc, offset: nat)
    requires Shape(m) && ThreadOk(m, t, pc) && CanDo(m, pc, CopyByte(offset))
    ensures ThreadOk(NextRing(m, t, pc, CopyByte(offset)), t, NextPc(m, pc, CopyByte(offset)))
  {
    if pc.PushCopy? {
      var c := CellOf(m, pc.e);
      assert c[offset := pc.obj[offset]][..offset + 1] == c[..offset] + [pc.obj[offset]];
      assert pc.obj[..offset + 1] == pc.obj[..offset] + [pc.obj[offset]];
    }
  }

  lemma CopyKeepsOther(m: Ring, t: Tid, pc: Pc, offset: nat, u: Tid, qc: Pc)
    requires Shape(m) && ThreadOk(m, t, pc) && CanDo(m, pc, CopyByte(offset)) && pc.PushCopy? && t != u
    requires ThreadOk(m, u, qc)
    ensures ThreadOk(NextRing(m, t, pc, CopyByte(offset)), u, qc)
  {
    if Holds(m, u, qc) {
      HoldersApart(m, t, pc, u, qc);
    }
  }

  lemma CopyKeepsData(m: Ring, t: Tid, pc: Pc, offset: nat)
    requires Shape(m) && DataInv(m) && ThreadOk(m, t, pc) && CanDo(m, pc, CopyByte(offset)) && pc.PushCopy?
    ensures DataInv(NextRing(m, t, pc, CopyByte(offset)))
  {
    var m' := NextRing(m, t, pc, CopyByte(offset));
    forall k | 0 <= k < |m.log| && m.head <= k + m.n && SlotOf(m, k) == k + 1
      ensures m.log[k].obj <= CellOf(m', k)
    {
      IdxApart(k, k + 1, m.n);
    }
  }

  lemma CopyKeepsInv(s: State, t: Tid, offset: nat)
    requires Inv(s) && Enabled(s, t, CopyByte(offset)) && s.threads[t].PushCopy?
    ensures Inv(Step(s, t, CopyByte(offset)))
  {
    var pc := s.threads[t];
    var s' := Step(s, t, CopyByte(offset));
    assert ThreadOk(s.m, t, pc);
    forall u | u in s'.threads
      ensures ThreadOk(s'.m, u, s'.threads[u])
    {
      if u == t {
        CopyKeepsThread(s.m, t, pc, offset);
      } else {
        CopyKeepsOther(s.m, t, pc, offset, u, s.threads[u]);
      }
    }
    CopyKeepsData(s.m, t, pc, offset);
    forall k | s.m.tail <= k < |s.m.log| && SlotOf(s'.m, k) == k
      ensures Writes(s'.threads, s.m.log[k].who, k)
    {
      assert Writes(s.threads, s.m.log[k].who, k);
    }
    forall k | 0 <= k < |s.m.taken| && k !in s.m.given
      ensures Reads(s'.threads, s.m.taken[k], k)
    {
      assert Reads(s.threads, s.m.taken[k], k);
    }
  }

  // Publishing and releasing

  /** The store that ends an operation never lowers a slot. */
  lemma StoreRaisesSlot(m: Ring, t: Tid, pc: Pc)
    requires Shape(m) && ThreadOk(m, t, pc) && CanDo(m, pc, StoreSlot)
    ensures var j := Idx(pc.e, m.n); m.slot[j] < NextRing(m, t, pc, StoreSlot).slot[j]
  {
  }

  lemma StoreKeepsShape(m: Ring, t: Tid, pc: Pc)
    requires Shape(m) && ThreadOk(m, t, pc) && CanDo(m, pc, StoreSlot)
    ensures Shape(NextRing(m, t, pc, StoreSlot))
  {
    IdxNextLap(pc.e, m.n);
  }

  lemma StoreKeepsOther(m: Ring, t: Tid, pc: Pc, u: Tid, qc: Pc)
    requires Shape(m) && ThreadOk(m, t, pc) && CanDo(m, pc, StoreSlot) && t != u
    requires ThreadOk(m, u, qc)
    ensures ThreadOk(NextRing(m, t, pc, StoreSlot), u, qc)
  {
    hide And, IsPow2;
    StoreRaisesSlot(m, t, pc);
    if Holds(m, u, qc) {
      HoldersApart(m, t, pc, u, qc);
    }
  }

  lemma StoreKeepsData(m: Ring, t: Tid, pc: Pc)
    requires Shape(m) && DataInv(m) && ThreadOk(m, t, pc) && CanDo(m, pc, StoreSlot)
    ensures DataInv(NextRing(m, t, pc, StoreSlot))
  {
    var m' := NextRing(m, t, pc, StoreSlot);
    IdxNextLap(pc.e, m.n);
    forall k | 0 <= k < |m.log| && m.head <= k + m.n && SlotOf(m', k) == k + 1
      ensures m.log[k].obj <= CellOf(m, k)
    {
      if Idx(k, m.n) == Idx(pc.e, m.n) {
        IdxApart(k, k + 1, m.n);
        assert k == pc.e;
        assert pc.obj[..pc.i] == pc.obj;
      }
    }
  }

  lemma StoreKeepsGiven(m: Ring, t: Tid, pc: Pc)
    requires Shape(m) && DataInv(m) && GivenInv(m) && ThreadOk(m, t, pc) && CanDo(m, pc, StoreSlot)
    ensures GivenInv(NextRing(m, t, pc, StoreSlot))
  {
    StoreRaisesSlot(m, t, pc);
    if pc.PopRead? {
      assert m.log[pc.e].obj <= CellOf(m, pc.e);
    }
  }

  lemma StoreKeepsWriters(s: State, t: Tid)
    requires Inv(s) && Enabled(s, t, StoreSlot)
    ensures WritersInv(Step(s, t, StoreSlot))
  {
    hide And;
    var pc := s.threads[t];
    var s' := Step(s, t, StoreSlot);
    assert ThreadOk(s.m, t, pc);
    IdxNextLap(pc.e, s.m.n);
    IdxApart(pc.e, pc.e + 1, s.m.n);
    forall k | s.m.tail <= k < |s.m.log| && SlotOf(s'.m, k) == k
      ensures Writes(s'.threads, s.m.log[k].who, k)
    {
      assert Idx(k, s.m.n) != Idx(pc.e, s.m.n);
      assert Writes(s.threads, s.m.log[k].who, k);
    }
  }

  lemma StoreKeepsReaders(s: State, t: Tid)
    requires ReadersInv(s) && Enabled(s, t, StoreSlot)
    ensures ReadersInv(Step(s, t, StoreSlot))
  {
    var s' := Step(s, t, StoreSlot);
    forall k | 0 <= k < |s.m.taken| && k !in s'.m.given
      ensures Reads(s'.threads, s.m.taken[k], k)
    {
      assert Reads(s.threads, s.m.taken[k], k);
    }
  }

  lemma StoreKeepsInv(s: State, t: Tid)
    requires Inv(s) && Enabled(s, t, StoreSlot)
    ensures Inv(Step(s, t, StoreSlot))
  {
    var pc := s.threads[t];
    var s' := Step(s, t, StoreSlot);
    assert ThreadOk(s.m, t, pc);
    StoreKeepsShape(s.m, t, pc);
    forall u | u in s'.threads
      ensures ThreadOk(s'.m, u, s'.threads[u])
    {
      if u != t {
        StoreKeepsOther(s.m, t, pc, u, s.threads[u]);
      }
    }
    StoreKeepsData(s.m, t, pc);
    StoreKeepsGiven(s.m, t, pc);
    StoreKeepsWriters(s, t);
    StoreKeepsReaders(s, t);
  }

  // The whole step relation

  /** Every step of every thread keeps the invariant. */
  lemma StepKeepsInv(s: State, t: Tid, a: Action)
    requires Inv(s) && Enabled(s, t, a)
    ensures Inv(Step(s, t, a))
  {
    var pc := s.threads[t];
    match a
    case Cas =>
      if pc.PushReady? && s.m.head == pc.e {
        ClaimKeepsInv(s, t);
      } else if pc.PopReady? && s.m.tail == pc.e {
        TakeKeepsInv(s, t);
      } else {
        LocalStepKeepsInv(s, t, a);
      }
    case CopyByte(offset) =>
      if pc.PushCopy? {
        CopyKeepsInv(s, t, offset);
      } else {
        LocalStepKeepsInv(s, t, a);
      }
    case StoreSlot => StoreKeepsInv(s, t);
    case _ => LocalStepKeepsInv(s, t, a);
  }

  lemma InitialInv(s: State)
    requires Initial(s)
    ensures Inv(s)
  {
    forall j | 0 <= j < s.m.n
      ensures Free(s.m.n, s.m.tail, j, s.m.slot[j])
    {
      IdxSmall(j, s.m.n);
    }
  }
}
