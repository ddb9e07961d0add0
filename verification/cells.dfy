/** The object area of a ring: a flat byte block seen as cells of equal size. */
module Cells {

  newtype Byte = x: int | 0 <= x < 256

  lemma BlockSize(n: nat, sz: nat)
    ensures 0 <= n * sz
  {
  }

  lemma CellBounds(j: nat, n: nat, sz: nat)
    requires j < n
    ensures 0 <= j * sz && j * sz + sz <= n * sz
  {
    assert n * sz == j * sz + sz + (n - j - 1) * sz;
  }

  /** Cell j of a block of n cells of sz bytes. */
  function CellAt(block: seq<Byte>, n: nat, sz: nat, j: nat): (c: seq<Byte>)
    requires |block| == n * sz && j < n
    ensures |c| == sz
  {
    CellBounds(j, n, sz);
    block[j * sz .. j * sz + sz]
  }

  function CellsOf(block: seq<Byte>, n: nat, sz: nat): (cells: seq<seq<Byte>>)
    requires |block| == n * sz
    ensures |cells| == n
    ensures forall j | 0 <= j < n :: cells[j] == CellAt(block, n, sz, j)
  {
    seq(n, j requires 0 <= j < n => CellAt(block, n, sz, j))
  }

  /** Distinct cells occupy disjoint byte ranges of the block. */
  lemma CellsApart(i: nat, j: nat, sz: nat)
    requires i < j
    ensures i * sz + sz <= j * sz
  {
    CellBounds(i, j, sz);
  }

  /** Byte i of cell j sits at flat address j * sz + i. */
  lemma ByteAddress(block: seq<Byte>, n: nat, sz: nat, j: nat, i: nat)
    requires |block| == n * sz && j < n && i < sz
    ensures 0 <= j * sz + i < n * sz
    ensures block[j * sz + i] == CellAt(block, n, sz, j)[i] == CellsOf(block, n, sz)[j][i]
  {
    CellBounds(j, n, sz);
  }

  /** Storing one byte at its flat address changes that byte of that cell and nothing else. */
  lemma StoreInCell(block: seq<Byte>, n: nat, sz: nat, j: nat, i: nat, b: Byte)
    requires |block| == n * sz && j < n && i < sz
    ensures 0 <= j * sz + i < n * sz
    ensures CellsOf(block[j * sz + i := b], n, sz)
         == CellsOf(block, n, sz)[j := CellAt(block, n, sz, j)[i := b]]
  {
    CellBounds(j, n, sz);
    var after := block[j * sz + i := b];
    forall k | 0 <= k < n
      ensures CellAt(after, n, sz, k) == if k == j then CellAt(block, n, sz, j)[i := b] else CellAt(block, n, sz, k)
    {
      CellBounds(k, n, sz);
      if k < j {
        CellsApart(k, j, sz);
      } else if j < k {
        CellsApart(j, k, sz);
      }
    }
  }
}
