/** The size_t arithmetic the ring buffers rely on: 64-bit wrap-around, bit masks, signed casts. */
module Words {

  const TWO_TO_THE_64: nat := 0x1_0000_0000_0000_0000
  const TWO_TO_THE_63: nat := 0x8000_0000_0000_0000

  type SizeT = x: int | 0 <= x < TWO_TO_THE_64

  // size_t operators

  function Wrap(x: int): (r: SizeT) {
    x % TWO_TO_THE_64
  }

  function Add64(x: SizeT, y: SizeT): SizeT {
    Wrap(x + y)
  }

  function Sub64(x: SizeT, y: SizeT): SizeT {
    Wrap(x - y)
  }

  function Mul64(x: SizeT, y: SizeT): SizeT {
    Wrap(x * y)
  }

  /** Bitwise "and", one binary digit at a time. */
  function And(x: nat, y: nat): (r: nat)
    ensures r <= x && r <= y
  {
    if x == 0 || y == 0 then 0 else 2 * And(x / 2, y / 2) + (if x % 2 == 1 && y % 2 == 1 then 1 else 0)
  }

  /** Bitwise complement of a 64-bit word. */
  function Not64(x: SizeT): SizeT {
    TWO_TO_THE_64 - 1 - x
  }

  /** The cast from size_t to intptr_t. */
  function AsSigned(x: SizeT): int {
    if x < TWO_TO_THE_63 then x else x - TWO_TO_THE_64
  }

  /** The cast keeps the word and lands in the range of the signed type. */
  lemma SignedCast(x: SizeT)
    ensures 0 <= AsSigned(x) + TWO_TO_THE_63 < TWO_TO_THE_64 && Wrap(AsSigned(x)) == x
  {
  }

  // Powers of two

  predicate IsPow2(n: nat) {
    n == 1 || (n > 1 && n % 2 == 0 && IsPow2(n / 2))
  }

  lemma {:induction false} AndSelf(x: nat)
    ensures And(x, x) == x
  {
    if x != 0 {
      AndSelf(x / 2);
    }
  }

  /** The test used to validate a capacity accepts exactly the powers of two. */
  lemma {:induction false} PowerOfTwoTest(n: nat)
    requires n >= 1
    ensures And(n, n - 1) == 0 <==> IsPow2(n)
  {
    if n > 1 {
      if n % 2 == 0 {
        assert (n - 1) / 2 == n / 2 - 1;
        PowerOfTwoTest(n / 2);
      } else {
        assert (n - 1) / 2 == n / 2;
        AndSelf(n / 2);
      }
    }
  }

  lemma {:induction false} Pow2Product(a: nat, b: nat)
    requires IsPow2(a) && IsPow2(b)
    ensures IsPow2(a * b)
  {
    if a > 1 {
      var m := a / 2;
      Pow2Product(m, b);
      Positive(m, b);
      TwiceProduct(m, b);
      assert IsPow2(2 * (m * b));
    } else {
      assert a * b == b;
    }
  }

  lemma Positive(a: nat, b: nat)
    requires a >= 1 && b >= 1
    ensures a * b >= 1
  {
  }

  lemma WordRangeIsPow2()
    ensures IsPow2(TWO_TO_THE_64)
  {
    Pow2Product(2, 2);
    Pow2Product(4, 4);
    Pow2Product(16, 16);
    Pow2Product(256, 256);
    Pow2Product(65536, 65536);
    Pow2Product(0x1_0000_0000, 0x1_0000_0000);
  }

  lemma {:induction false} Pow2Divides(a: nat, b: nat) returns (c: nat)
    requires IsPow2(a) && IsPow2(b) && a <= b
    ensures b == a * c
  {
    if a > 1 {
      c := Pow2Divides(a / 2, b / 2);
      TwiceProduct(a / 2, c);
    } else {
      c := b;
    }
  }

  lemma TwiceProduct(m: int, q: int)
    ensures (2 * m) * q == 2 * (m * q)
  {
  }

  lemma Associate(a: int, b: int, c: int)
    ensures (a * b) * c == a * (b * c)
  {
  }

  lemma Distribute(n: int, a: int, b: int)
    ensures n * (a + b) == n * a + n * b
    ensures n * (a - b) == n * a - n * b
  {
  }

  /** A nonzero multiple of n is at least n away from zero. */
  lemma NonzeroMultiple(n: nat, d: int)
    ensures d >= 1 ==> n * d >= n
    ensures d <= -1 ==> n + n * d <= 0
  {
    Distribute(n, d - 1, 1);
    Distribute(n, d + 1, -1);
  }

  // Masked indices

  /** Masking with a power of two minus one leaves a multiple of that power behind. */
  lemma {:induction false} MaskLeavesMultiple(k: nat, n: nat) returns (q: nat)
    requires IsPow2(n)
    ensures k == n * q + And(k, n - 1)
  {
    if n == 1 || k == 0 {
      q := k;
      if k == 0 { assert n * q == 0; }
    } else {
      var m := n / 2;
      q := MaskLeavesMultiple(k / 2, m);
      TwiceProduct(m, q);
      assert (n - 1) / 2 == m - 1 && (n - 1) % 2 == 1;
    }
  }

  /** Quotient and remainder are determined by the division equation. */
  lemma RemainderUnique(n: nat, q: int, r: int, q': int, r': int)
    requires n * q + r == n * q' + r' && 0 <= r < n && 0 <= r' < n
    ensures q == q' && r == r'
  {
    Distribute(n, q, q');
    NonzeroMultiple(n, q - q');
  }

  lemma SameRemainder(n: nat, p: int, q: int, r: int, a: int, b: int)
    requires a == n * p + r && b == n * q + r && a < b
    ensures a + n <= b
  {
    Distribute(n, q, p);
    NonzeroMultiple(n, q - p);
  }

  lemma MaskUnique(k: nat, n: nat, q: int, r: nat)
    requires IsPow2(n) && k == n * q + r && r < n
    ensures And(k, n - 1) == r
  {
    var q' := MaskLeavesMultiple(k, n);
    RemainderUnique(n, q, r, q', And(k, n - 1));
  }

  /** Masking with a power of two minus one is reduction modulo that power. */
  lemma MaskIsMod(k: nat, n: nat)
    requires IsPow2(n)
    ensures And(k, n - 1) == k % n
  {
    var q := MaskLeavesMultiple(k, n);
    Euclid(k, n);
    RemainderUnique(n, q, And(k, n - 1), k / n, k % n);
  }

  lemma Euclid(k: nat, n: nat)
    requires n >= 1
    ensures k == n * (k / n) + k % n && 0 <= k % n < n
  {
  }

  /** The cell a ticket falls into: `ticket & mask_`. */
  function Idx(k: nat, n: nat): (j: nat)
    requires n >= 1
    ensures j < n
  {
    And(k, n - 1)
  }

  /** Tickets less than a capacity apart never share a cell. */
  lemma IdxApart(a: nat, b: nat, n: nat)
    requires IsPow2(n) && a < b < a + n
    ensures Idx(a, n) != Idx(b, n)
  {
    var p := MaskLeavesMultiple(a, n);
    var q := MaskLeavesMultiple(b, n);
    if Idx(a, n) == Idx(b, n) {
      SameRemainder(n, p, q, Idx(a, n), a, b);
    }
  }

  lemma IdxNextLap(k: nat, n: nat)
    requires IsPow2(n)
    ensures Idx(k + n, n) == Idx(k, n)
  {
    var q := MaskLeavesMultiple(k, n);
    Distribute(n, q, 1);
    MaskUnique(k + n, n, q + 1, And(k, n - 1));
  }

  lemma IdxSmall(k: nat, n: nat)
    requires IsPow2(n) && k < n
    ensures Idx(k, n) == k
  {
    MaskUnique(k, n, 0, k);
  }

  /** Every cell belongs to exactly one ticket of any window as long as the ring. */
  function TicketIn(j: nat, base: nat, n: nat): (k: nat)
    requires IsPow2(n) && j < n
    ensures base <= k < base + n && Idx(k, n) == j
  {
    var r := Idx(base, n);
    TicketInCell(j, base, n);
    if j >= r then base + (j - r) else base + (n + j - r)
  }

  lemma TicketInCell(j: nat, base: nat, n: nat)
    requires IsPow2(n) && j < n
    ensures var r := Idx(base, n);
            Idx(if j >= r then base + (j - r) else base + (n + j - r), n) == j
  {
    var r := Idx(base, n);
    var q := MaskLeavesMultiple(base, n);
    Distribute(n, q, 1);
    if j >= r {
      MaskUnique(base + (j - r), n, q, j);
    } else {
      MaskUnique(base + (n + j - r), n, q + 1, j);
    }
  }

  // Wrapped counters

  /** Masking the wrapped counter gives the cell of the unbounded ticket. */
  lemma IdxOfWrapped(k: nat, n: nat)
    requires IsPow2(n) && n <= TWO_TO_THE_64
    ensures Idx(Wrap(k), n) == Idx(k, n)
  {
    var w := Wrap(k);
    WordRangeIsPow2();
    var c := Pow2Divides(n, TWO_TO_THE_64);
    var q := k / TWO_TO_THE_64;
    var p := MaskLeavesMultiple(w, n);
    Associate(n, c, q);
    Distribute(n, c * q, p);
    MaskUnique(k, n, c * q + p, And(w, n - 1));
  }

  /** Unsigned subtraction of wrapped counters recovers any distance below the word range. */
  lemma DistanceOfWrapped(head: nat, tail: nat)
    requires tail <= head < tail + TWO_TO_THE_64
    ensures Sub64(Wrap(head), Wrap(tail)) == head - tail
  {
  }

  lemma WrapIsIdentity(x: SizeT)
    ensures Wrap(x) == x
  {
  }

  /** Two counters less than the word range apart are equal when their words are. */
  lemma WrappedEqual(a: nat, b: nat)
    requires b <= a < b + TWO_TO_THE_64
    ensures Wrap(a) == Wrap(b) <==> a == b
  {
    DistanceOfWrapped(a, b);
  }

  /** A negative distance wraps to a huge one. */
  lemma DistanceBelow(a: nat, b: nat)
    requires a < b < a + TWO_TO_THE_64
    ensures Sub64(Wrap(a), Wrap(b)) == TWO_TO_THE_64 - (b - a)
  {
    DistanceOfWrapped(b, a);
  }

  lemma DistanceOfWords(x: SizeT, y: SizeT)
    ensures Sub64(x, y) == if y <= x then x - y else TWO_TO_THE_64 - (y - x)
  {
  }

  lemma NextWord(k: nat)
    ensures Wrap(k + 1) == if Wrap(k) == TWO_TO_THE_64 - 1 then 0 else Wrap(k) + 1
  {
  }

  lemma DistanceZero(a: nat, b: nat)
    ensures Sub64(Wrap(a), Wrap(b)) == 0 <==> Wrap(a) == Wrap(b)
  {
    hide Wrap, Sub64;
    DistanceOfWords(Wrap(a), Wrap(b));
  }

  /** The distance up to a counter shrinks as the lower counter moves ... */
  lemma DistanceShrinks(a: nat, b: nat)
    requires Sub64(Wrap(a), Wrap(b)) > 0
    ensures Sub64(Wrap(a), Wrap(b + 1)) == Sub64(Wrap(a), Wrap(b)) - 1
  {
    hide Wrap, Sub64;
    NextWord(b);
    DistanceOfWords(Wrap(a), Wrap(b));
    DistanceOfWords(Wrap(a), Wrap(b + 1));
  }

  /** ... and grows as the upper one does. */
  lemma DistanceGrows(a: nat, b: nat)
    requires Sub64(Wrap(a), Wrap(b)) + 1 < TWO_TO_THE_64
    ensures Sub64(Wrap(a + 1), Wrap(b)) == Sub64(Wrap(a), Wrap(b)) + 1
  {
    hide Wrap, Sub64;
    NextWord(a);
    DistanceOfWords(Wrap(a), Wrap(b));
    DistanceOfWords(Wrap(a + 1), Wrap(b));
  }

  lemma NextOfWrapped(k: nat)
    ensures Add64(Wrap(k), 1) == Wrap(k + 1)
  {
  }
}
