// Bitwise facts about natural numbers used by the ring buffer: the test for a
// power of two, and masking by "size - 1" as the remainder modulo the size.
module Bits {

  /** Bitwise conjunction, bit by bit from the least significant end. */
  function And(a: nat, b: nat): nat {
    if a == 0 || b == 0 then 0
    else 2 * And(a / 2, b / 2) + (if a % 2 == 1 && b % 2 == 1 then 1 else 0)
  }

  function Pow2(k: nat): (p: nat)
    ensures p >= 1
  {
    if k == 0 then 1 else 2 * Pow2(k - 1)
  }

  ghost predicate IsPowerOfTwo(n: nat) {
    exists k: nat :: n == Pow2(k)
  }

  lemma {:induction false} MaskIsRemainder(a: nat, k: nat)
    ensures And(a, Pow2(k) - 1) == a % Pow2(k)
  {
    if k == 0 {
    } else if a == 0 {
    } else {
      var p := Pow2(k - 1);
      MaskIsRemainder(a / 2, k - 1);
      assert (2 * p - 1) / 2 == p - 1 && (2 * p - 1) % 2 == 1;
      HalveRemainder(a, p);
    }
  }

  lemma HalveRemainder(a: nat, p: nat)
    requires p >= 1
    ensures a % (2 * p) == 2 * ((a / 2) % p) + a % 2
  {
    var q, r := a / (2 * p), a % (2 * p);
    assert a == 2 * (p * q) + r;
    assert a / 2 == q * p + r / 2;
    RemainderUnique(a / 2, p, q, r / 2);
  }

  lemma RemainderUnique(x: int, p: int, q: int, r: int)
    requires p >= 1 && 0 <= r < p && x == q * p + r
    ensures x % p == r && x / p == q
  {
    var q', r' := x / p, x % p;
    assert (q' - q) * p == r - r';
    assert q' - q >= 1 ==> (q' - q) * p >= p;
    assert q' - q <= -1 ==> (q' - q) * p <= -p;
  }

  lemma SameRemainderGap(a: nat, b: nat, size: nat)
    requires size >= 1 && a < b && a % size == b % size
    ensures a + size <= b
  {
    var qa, qb := a / size, b / size;
    assert b - a == (qb - qa) * size;
    assert qb - qa <= 0 ==> (qb - qa) * size <= 0;
    assert qb - qa >= 1 ==> (qb - qa) * size >= size;
  }

  lemma HalfIsPowerOfTwo(n: nat)
    requires n >= 2 && n % 2 == 0
    ensures IsPowerOfTwo(n / 2) <==> IsPowerOfTwo(n)
  {
    if IsPowerOfTwo(n / 2) {
      var k: nat :| n / 2 == Pow2(k);
      assert n == Pow2(k + 1);
    }
    if IsPowerOfTwo(n) {
      var k: nat :| n == Pow2(k);
      assert k > 0 && n / 2 == Pow2(k - 1);
    }
  }

  lemma OddIsNoPowerOfTwo(n: nat)
    requires n >= 2 && n % 2 == 1
    ensures !IsPowerOfTwo(n) && And(n, n - 1) > 0
  {
    assert forall k: nat :: Pow2(k) == 1 || Pow2(k) % 2 == 0;
    assert n / 2 == (n - 1) / 2 && n / 2 >= 1;
    AndSelf(n / 2);
  }

  /** The constructor's test accepts exactly the powers of two. */
  lemma {:induction false} PowerOfTwoTest(n: nat)
    requires n >= 1
    ensures And(n, n - 1) == 0 <==> IsPowerOfTwo(n)
  {
    if n == 1 {
      assert n == Pow2(0);
    } else if n % 2 == 0 {
      PowerOfTwoTest(n / 2);
      HalfIsPowerOfTwo(n);
      assert (n - 1) / 2 == n / 2 - 1;
    } else {
      OddIsNoPowerOfTwo(n);
    }
  }

  lemma AndSelf(a: nat)
    ensures And(a, a) == a
  {
  }
}
