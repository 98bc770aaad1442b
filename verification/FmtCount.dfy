// The digit counters of fmt (count_digits in format.h): the bit trick over the
// tables of powers of ten, and the four-digits-at-a-time loop used where no
// count-leading-zeros instruction is available.
module FmtCount {
  import opened Words
  import opened Bits
  import opened Numerals

  lemma WordsArePowers()
    ensures Pow2(32) == WORD_32 && Pow2(64) == WORD_64
  {
    Pow2Of16();
    Pow2Sum(16, 16);
    Pow2Sum(32, 32);
  }

  lemma Pow2Of16()
    ensures Pow2(16) == 65536
  {
    assert Pow2(8) == 256;
    Pow2Sum(8, 8);
  }

  /** 64 (or 32) minus the number of leading zero bits. */
  function BitLength(n: nat): nat {
    if n == 0 then 0 else 1 + BitLength(n / 2)
  }

  function OrOne(n: nat): nat {
    if n % 2 == 0 then n + 1 else n
  }

  const POWERS_OF_10_32: seq<nat> :=
    [0, 10, 100, 1000, 10000, 100000, 1000000, 10000000, 100000000, 1000000000]

  const POWERS_OF_10_64: seq<nat> :=
    [0, 10, 100, 1000, 10000, 100000, 1000000, 10000000, 100000000, 1000000000,
     1000000000 * 10, 1000000000 * 100, 1000000000 * 1000, 1000000000 * 10000,
     1000000000 * 100000, 1000000000 * 1000000, 1000000000 * 10000000,
     1000000000 * 100000000, 1000000000 * 1000000000, 1000000000 * 1000000000 * 10]

  /** What count_digits promises of its result. */
  predicate IsDigitCount(n: nat, d: nat) {
    d >= 1 && n < Power(10, d) && (d == 1 || Power(10, d - 1) <= n)
  }

  /** The decimal numeral of n has exactly that many digits. */
  lemma DigitCountIsNumeralLength(n: nat, d: nat)
    ensures IsDigitCount(n, d) <==> d == |Decimal(n)|
  {
    var l := |Decimal(n)|;
    NumeralLength(n, 10, false, l);
    if l > 1 {
      NumeralLength(n, 10, false, l - 1);
    }
    if d > 0 {
      NumeralLength(n, 10, false, d);
      if d > 1 {
        NumeralLength(n, 10, false, d - 1);
      }
    }
  }

  lemma {:induction false} BitLengthBounds(n: nat)
    requires n >= 1
    ensures BitLength(n) >= 1 && Pow2(BitLength(n) - 1) <= n < Pow2(BitLength(n))
  {
    if n > 1 {
      BitLengthBounds(n / 2);
    } else {
      assert BitLength(n / 2) == 0;
    }
  }

  lemma OrOneKeepsLength(n: nat)
    requires n >= 1
    ensures BitLength(OrOne(n)) == BitLength(n)
  {
    assert OrOne(n) / 2 == n / 2;
  }

  lemma {:induction false} Pow2Monotone(a: nat, b: nat)
    requires a <= b
    ensures Pow2(a) <= Pow2(b)
    decreases b
  {
    if a < b {
      Pow2Monotone(a, b - 1);
    }
  }

  lemma {:induction false} LengthAtMost(n: nat, k: nat)
    requires n < Pow2(k)
    ensures BitLength(n) <= k
  {
    if n > 0 {
      BitLengthBounds(n);
      if BitLength(n) > k {
        Pow2Monotone(k, BitLength(n) - 1);
      }
    }
  }

  lemma Powers(a: nat, b: nat)
    ensures Pow2(a + 3) == 8 * Pow2(a) && Pow2(a + 10) == 1024 * Pow2(a)
    ensures Power(10, b + 1) == 10 * Power(10, b) && Power(10, b + 3) == 1000 * Power(10, b)
  {
    Pow2Sum(a, 3);
    Pow2Sum(a, 10);
    assert Pow2(3) == 8 && Pow2(10) == 1024;
    assert Power(10, b + 2) == 10 * Power(10, b + 1);
    assert Power(10, b + 3) == 10 * Power(10, b + 2);
  }

  lemma {:induction false} Pow2Sum(a: nat, b: nat)
    ensures Pow2(a + b) == Pow2(a) * Pow2(b)
  {
    if b > 0 {
      Pow2Sum(a, b - 1);
    }
  }

  /** The largest bit length for which the multiplication by 1233/4096 gives t. */
  function LastLength(t: nat): nat {
    10 * (t / 3) + 3 * (t % 3) + 3
  }

  lemma MultiplicationBuckets(l: nat, t: nat)
    requires l <= 64 && t == l * 1233 / 4096
    ensures t <= 19 && (t <= 18 ==> l <= LastLength(t)) && (t >= 1 ==> l > LastLength(t - 1))
    ensures l <= 32 ==> t <= 9
  {
  }

  /** 1024^k against 1000^k: the powers drift apart by less than three parts in a hundred a step. */
  lemma {:induction false} Drift(k: nat)
    requires k <= 6
    ensures Power(10, 3 * k) <= Pow2(10 * k)
    ensures 1000 * Pow2(10 * k) <= (1000 + 30 * k) * Power(10, 3 * k)
  {
    if k > 0 {
      Drift(k - 1);
      DriftOn(k, 10 * (k - 1), 3 * (k - 1));
    }
  }

  lemma DriftOn(k: nat, a: nat, b: nat)
    requires 1 <= k <= 6 && Power(10, b) <= Pow2(a) && 1000 * Pow2(a) <= (1000 + 30 * (k - 1)) * Power(10, b)
    ensures Power(10, b + 3) <= Pow2(a + 10)
    ensures 1000 * Pow2(a + 10) <= (1000 + 30 * k) * Power(10, b + 3)
  {
    Powers(a, b);
    DriftStep(k, Power(10, b), Pow2(a));
  }

  lemma DriftStep(k: nat, p: nat, m: nat)
    requires 1 <= k <= 6 && 1000 * m <= (1000 + 30 * (k - 1)) * p
    ensures 1000 * (1024 * m) <= (1000 + 30 * k) * (1000 * p)
  {
    assert 1024 * (1000 + 30 * (k - 1)) <= (1000 + 30 * k) * 1000;
    assert 1024 * ((1000 + 30 * (k - 1)) * p) == (1024 * (1000 + 30 * (k - 1))) * p;
    Scale(1024 * (1000 + 30 * (k - 1)), (1000 + 30 * k) * 1000, p);
  }

  lemma Scale(a: nat, b: nat, p: nat)
    requires a <= b
    ensures a * p <= b * p
  {
  }

  lemma DriftBound(k: nat)
    requires k <= 6
    ensures Power(10, 3 * k) <= Pow2(10 * k) && 4 * Pow2(10 * k) <= 5 * Power(10, 3 * k)
  {
    Drift(k);
    Scale(1000 + 30 * k, 1180, Power(10, 3 * k));
  }

  lemma BlockPowers(k: nat, j: nat)
    requires j < 3
    ensures Power(10, 3 * k + j) == (if j == 0 then 1 else if j == 1 then 10 else 100) * Power(10, 3 * k)
    ensures Pow2(10 * k + 3 * j + 3) == (if j == 0 then 8 else if j == 1 then 64 else 512) * Pow2(10 * k)
  {
    var a, b := 10 * k, 3 * k;
    Powers(a, b);
    Powers(a + 3, b + 1);
    if j == 2 {
      Powers(a + 6, b + 2);
    }
  }

  lemma Combine(j: nat, p: nat, m: nat)
    requires j < 3 && p <= m && 4 * m <= 5 * p
    ensures (if j == 0 then 1 else if j == 1 then 10 else 100) * p
         <= (if j == 0 then 8 else if j == 1 then 64 else 512) * m
         <= 10 * ((if j == 0 then 1 else if j == 1 then 10 else 100) * p)
  {
  }

  lemma AnchorAt(k: nat, j: nat)
    requires k <= 6 && j < 3
    ensures Power(10, 3 * k + j) <= Pow2(10 * k + 3 * j + 3) <= 10 * Power(10, 3 * k + j)
  {
    var p, m := Power(10, 3 * k), Pow2(10 * k);
    DriftBound(k);
    BlockPowers(k, j);
    Combine(j, p, m);
  }

  lemma LastLengthOf(t: nat, k: nat, j: nat)
    requires t == 3 * k + j && j < 3
    ensures LastLength(t) == 10 * k + 3 * j + 3
  {
  }

  lemma AnchorFor(t: nat, l: nat, k: nat, j: nat)
    requires t == 3 * k + j && k <= 6 && j < 3 && l == 10 * k + 3 * j + 3
    ensures Power(10, t) <= Pow2(l) <= 10 * Power(10, t)
  {
    AnchorAt(k, j);
  }

  /** Bit lengths up to LastLength(t) stay below 10^(t+1), and later ones are at least 10^t. */
  lemma Anchor(t: nat)
    requires t <= 18
    ensures Power(10, t) <= Pow2(LastLength(t)) <= 10 * Power(10, t)
  {
    var l, k, j := LastLength(t), t / 3, t % 3;
    LastLengthOf(t, k, j);
    AnchorFor(t, l, k, j);
  }

  lemma OnePower(a: nat, b: nat)
    ensures Pow2(a + 1) == 2 * Pow2(a) && Power(10, b + 1) == 10 * Power(10, b)
  {
  }

  lemma TableIsPowers(t: nat)
    requires 1 <= t <= 19
    ensures POWERS_OF_10_64[t] == Power(10, t)
    ensures t <= 9 ==> POWERS_OF_10_32[t] == Power(10, t)
  {
    if t > 1 {
      TableIsPowers(t - 1);
    }
  }

  lemma Ceiling(l: nat, t: nat)
    requires l <= 64 && t == l * 1233 / 4096
    ensures t <= 19 && Pow2(l) <= Power(10, t + 1)
  {
    MultiplicationBuckets(l, t);
    if t <= 18 {
      Anchor(t);
      OnePower(0, t);
      Pow2Monotone(l, LastLength(t));
    } else {
      CeilingTop(l, t);
    }
  }

  lemma CeilingTop(l: nat, t: nat)
    requires t >= 1 && l == LastLength(t - 1) + 1 && t - 1 <= 18
    ensures Pow2(l) <= Power(10, t + 1)
  {
    Anchor(t - 1);
    OnePower(l - 1, t - 1);
    OnePower(l - 1, t);
  }

  lemma Floor(l: nat, t: nat)
    requires 1 <= l <= 64 && t == l * 1233 / 4096 && t >= 1
    ensures Power(10, t - 1) <= Pow2(l - 1)
  {
    MultiplicationBuckets(l, t);
    FloorFrom(t - 1, LastLength(t - 1), l - 1);
  }

  lemma FloorFrom(t: nat, e: nat, l: nat)
    requires t <= 18 && e == LastLength(t) && e <= l
    ensures Power(10, t) <= Pow2(l)
  {
    AnchorLow(t, e);
    StillAbove(Power(10, t), e, l);
  }

  lemma AnchorLow(t: nat, e: nat)
    requires t <= 18 && e == LastLength(t)
    ensures Power(10, t) <= Pow2(e)
  {
    Anchor(t);
  }

  lemma StillAbove(p: nat, e: nat, l: nat)
    requires p <= Pow2(e) && e <= l
    ensures p <= Pow2(l)
  {
    Pow2Monotone(e, l);
  }

  /** The estimate t of the digit count: t or t + 1 digits, and t stays inside the tables. */
  lemma Estimate(n: nat, l: nat, t: nat)
    requires l == BitLength(OrOne(n)) <= 64 && t == l * 1233 / 4096
    ensures t <= 19 && n < Power(10, t + 1) && (t >= 2 ==> Power(10, t - 1) <= n)
    ensures l <= 32 ==> t <= 9
  {
    BitLengthBounds(OrOne(n));
    MultiplicationBuckets(l, t);
    Ceiling(l, t);
    if t >= 2 {
      Floor(l, t);
      AtLeastHalf(n, l, Power(10, t - 1));
    }
  }

  lemma AtLeastHalf(n: nat, l: nat, p: nat)
    requires l == BitLength(OrOne(n)) >= 2 && p <= Pow2(l - 1)
    ensures p <= n
  {
    if n > 0 {
      OrOneKeepsLength(n);
      BitLengthBounds(n);
    }
  }

  lemma LengthInWord(n: nat)
    ensures n < WORD_64 ==> BitLength(OrOne(n)) <= 64
    ensures n < WORD_32 ==> BitLength(OrOne(n)) <= 32
  {
    WordsArePowers();
    if n < WORD_64 {
      LengthAtMost(OrOne(n), 64);
    }
    if n < WORD_32 {
      LengthAtMost(OrOne(n), 32);
    }
  }

  /** The comparison with the table turns the estimate into the count. */
  lemma Adjusted(n: nat, t: nat, power: nat)
    requires n < Power(10, t + 1) && (t >= 2 ==> Power(10, t - 1) <= n)
    requires if t == 0 then power == 0 else power == Power(10, t)
    ensures IsDigitCount(n, t - (if n < power then 1 else 0) + 1)
  {
  }

  /** count_digits(uint64_t) */
  method CountDigits64(n: nat) returns (d: nat)
    requires n < WORD_64
    ensures IsDigitCount(n, d)
  {
    LengthInWord(n);
    var t := BitLength(OrOne(n)) * 1233 / 4096;
    Estimate(n, BitLength(OrOne(n)), t);
    if t > 0 {
      TableIsPowers(t);
    }
    Adjusted(n, t, POWERS_OF_10_64[t]);
    d := t - (if n < POWERS_OF_10_64[t] then 1 else 0) + 1;
  }

  /** count_digits(uint32_t) */
  method CountDigits32(n: nat) returns (d: nat)
    requires n < WORD_32
    ensures IsDigitCount(n, d)
  {
    LengthInWord(n);
    var t := BitLength(OrOne(n)) * 1233 / 4096;
    Estimate(n, BitLength(OrOne(n)), t);
    if t > 0 {
      TableIsPowers(t);
    }
    Adjusted(n, t, POWERS_OF_10_32[t]);
    d := t - (if n < POWERS_OF_10_32[t] then 1 else 0) + 1;
  }

  lemma FourDigits(v: nat)
    requires v >= 10000
    ensures |Decimal(v)| == 4 + |Decimal(v / 10000)|
  {
    var a := v / 10;
    var b := a / 10;
    var c := b / 10;
    assert v / 10000 == c / 10;
    assert |Decimal(v)| == 1 + |Decimal(a)|;
    assert |Decimal(a)| == 1 + |Decimal(b)|;
    assert |Decimal(b)| == 1 + |Decimal(c)|;
  }

  lemma SmallCount(v: nat)
    requires v < 10000
    ensures |Decimal(v)| == if v < 10 then 1 else if v < 100 then 2 else if v < 1000 then 3 else 4
  {
    var a := v / 10;
    var b := a / 10;
    assert v >= 10 ==> |Decimal(v)| == 1 + |Decimal(a)|;
    assert a >= 10 ==> |Decimal(a)| == 1 + |Decimal(b)|;
    assert b >= 10 ==> |Decimal(b)| == 1 + |Decimal(b / 10)|;
  }

  /** The fallback without the builtin: four digits for every division. */
  method CountDigitsByDivision(n: nat) returns (count: nat)
    ensures IsDigitCount(n, count)
  {
    count := 1;
    var v := n;
    DigitCountIsNumeralLength(n, |Decimal(n)|);
    while true
      invariant count >= 1 && count - 1 + |Decimal(v)| == |Decimal(n)|
      decreases v
    {
      if v < 10000 { SmallCount(v); }
      if v < 10 { return; }
      if v < 100 { return count + 1; }
      if v < 1000 { return count + 2; }
      if v < 10000 { return count + 3; }
      FourDigits(v);
      v := v / 10000;
      count := count + 4;
    }
  }
}
