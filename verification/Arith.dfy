/** Remainders by a positive number that is not a constant, and powers of two. */
module Arith {

  /**
    The remainder of x by c, by repeated subtraction: for a power of two c this is what masking with
    c - 1 leaves.  Definitions use it in place of `%` so that proofs which only compare positions need
    no arithmetic.
  */
  function Wrap(x: nat, c: nat): (r: nat)
    requires c > 0
    ensures r < c
  {
    if x < c then x else Wrap(x - c, c)
  }

  lemma {:induction false} WrapIsRemainder(x: nat, c: nat)
    requires c > 0
    ensures Wrap(x, c) == x % c
  {
    if x >= c {
      WrapIsRemainder(x - c, c);
      ModShift(x - c, 1, c);
    } else {
      ModUnique(x, 0, x, c);
    }
  }

  /** The same for a number that may be negative. */
  function Around(x: int, c: nat): (r: nat)
    requires c > 0
    ensures r < c
    decreases if x < 0 then -x else 0
  {
    if x < 0 then Around(x + c, c) else Wrap(x, c)
  }

  lemma {:induction false} AroundIsRemainder(x: int, c: nat)
    requires c > 0
    ensures Around(x, c) == x % c
    decreases if x < 0 then -x else 0
  {
    if x < 0 {
      AroundIsRemainder(x + c, c);
      ModShift(x, 1, c);
    } else {
      WrapIsRemainder(x, c);
    }
  }

  lemma WrapOnce(x: nat, c: nat)
    requires x < 2 * c
    ensures Wrap(x, c) == if x < c then x else x - c
  {
  }

  lemma MultipleIsLarge(d: int, c: int)
    requires c > 0
    ensures d >= 1 ==> d * c >= c
    ensures d <= -1 ==> d * c <= -c
  {
    assert d * c == (d - 1) * c + c == (d + 1) * c - c;
  }

  lemma ModUnique(x: int, q: int, r: int, c: int)
    requires c > 0 && 0 <= r < c && x == q * c + r
    ensures x % c == r && x / c == q
  {
    assert x == (x / c) * c + x % c;
    assert (x / c - q) * c == (x / c) * c - q * c == r - x % c;
    MultipleIsLarge(x / c - q, c);
  }

  /** Adding a multiple of c does not change the remainder. */
  lemma ModShift(x: int, q: int, c: int)
    requires c > 0
    ensures (x + q * c) % c == x % c
  {
    assert x == (x / c) * c + x % c;
    assert x + q * c == (x / c + q) * c + x % c by {
      assert (x / c + q) * c == (x / c) * c + q * c;
    }
    ModUnique(x + q * c, x / c + q, x % c, c);
  }

  /** A remainder may be taken early. */
  lemma ModEarly(x: int, y: int, c: int)
    requires c > 0
    ensures (x % c + y) % c == (x + y) % c
  {
    assert x == (x / c) * c + x % c;
    ModShift(x % c + y, x / c, c);
  }

  /** Two numbers less than c apart with the same remainder are equal. */
  lemma ModInjective(x: int, y: int, c: int)
    requires c > 0 && x % c == y % c && -c < x - y < c
    ensures x == y
  {
    assert x == (x / c) * c + x % c && y == (y / c) * c + y % c;
    assert (x / c - y / c) * c == (x / c) * c - (y / c) * c == x - y;
    MultipleIsLarge(x / c - y / c, c);
  }

  function Pow2(n: nat): (p: nat)
    ensures p >= 1
  {
    if n == 0 then 1 else 2 * Pow2(n - 1)
  }

  lemma {:induction false} Pow2Splits(a: nat, b: nat)
    ensures Pow2(a + b) == Pow2(a) * Pow2(b)
  {
    if a > 0 {
      Pow2Splits(a - 1, b);
      assert a + b - 1 == (a - 1) + b;
    }
  }
}
