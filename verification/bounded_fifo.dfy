/** The reference the rings are measured against: a bounded first-in first-out queue. */
module BoundedFifo {

  datatype Op<T> = Enqueue(x: T) | Dequeue(x: T)

  ghost predicate Allows<T>(q: seq<T>, capacity: nat, op: Op<T>) {
    match op
    case Enqueue(_) => |q| < capacity
    case Dequeue(x) => |q| > 0 && q[0] == x
  }

  ghost function Apply<T>(q: seq<T>, capacity: nat, op: Op<T>): seq<T>
    requires Allows(q, capacity, op)
  {
    if op.Enqueue? then q + [op.x] else q[1..]
  }

  ghost predicate AllowsAll<T>(q: seq<T>, capacity: nat, ops: seq<Op<T>>)
    decreases |ops|
  {
    ops == [] || (Allows(q, capacity, ops[0]) && AllowsAll(Apply(q, capacity, ops[0]), capacity, ops[1..]))
  }

  ghost function ApplyAll<T>(q: seq<T>, capacity: nat, ops: seq<Op<T>>): seq<T>
    requires AllowsAll(q, capacity, ops)
    decreases |ops|
  {
    if ops == [] then q else ApplyAll(Apply(q, capacity, ops[0]), capacity, ops[1..])
  }

  lemma Single<T>(q: seq<T>, capacity: nat, op: Op<T>)
    requires Allows(q, capacity, op)
    ensures AllowsAll(q, capacity, [op]) && ApplyAll(q, capacity, [op]) == Apply(q, capacity, op)
  {
    assert [op][1..] == [];
  }

  /** Two histories in a row are one history. */
  lemma {:induction false} Concatenate<T>(q: seq<T>, capacity: nat, a: seq<Op<T>>, b: seq<Op<T>>)
    requires AllowsAll(q, capacity, a) && AllowsAll(ApplyAll(q, capacity, a), capacity, b)
    ensures AllowsAll(q, capacity, a + b)
    ensures ApplyAll(q, capacity, a + b) == ApplyAll(ApplyAll(q, capacity, a), capacity, b)
    decreases |a|
  {
    if a == [] {
      assert a + b == b;
    } else {
      assert (a + b)[1..] == a[1..] + b;
      Concatenate(Apply(q, capacity, a[0]), capacity, a[1..], b);
    }
  }
}
