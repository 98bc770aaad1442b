// Positional numerals: the text that the integer printers are to produce, and
// what such a text denotes.
module Numerals {
  function DigitChar(d: nat, upper: bool): char
    requires d < 16
  {
    if d < 10 then '0' + d as char else (if upper then 'A' else 'a') + (d - 10) as char
  }

  predicate IsDigit(c: char) {
    '0' <= c <= '9'
  }

  /** The value of a digit character, 16 for any other character. */
  function DigitValue(c: char): (d: nat)
    ensures d <= 16
  {
    if '0' <= c <= '9' then c as int - '0' as int
    else if 'a' <= c <= 'f' then c as int - 'a' as int + 10
    else if 'A' <= c <= 'F' then c as int - 'A' as int + 10
    else 16
  }

  /** The shortest numeral of n: no leading zero, and "0" for zero. */
  function Numeral(n: nat, base: nat, upper: bool): (s: string)
    requires 2 <= base <= 16
    ensures |s| >= 1
  {
    if n < base then [DigitChar(n, upper)]
    else Numeral(n / base, base, upper) + [DigitChar(n % base, upper)]
  }

  function Decimal(n: nat): (s: string)
    ensures |s| >= 1
  {
    Numeral(n, 10, false)
  }

  function IntText(i: int): string {
    if i < 0 then "-" + Decimal(-i) else Decimal(i)
  }

  function Denotes(s: string, base: nat): nat {
    if s == "" then 0 else Denotes(s[..|s| - 1], base) * base + DigitValue(s[|s| - 1])
  }

  function Power(base: nat, k: nat): nat {
    if k == 0 then 1 else base * Power(base, k - 1)
  }

  lemma DigitCharValue(d: nat, upper: bool)
    requires d < 16
    ensures DigitValue(DigitChar(d, upper)) == d
    ensures DigitChar(d, upper) == '0' <==> d == 0
    ensures DigitChar(d, upper) == if upper then "0123456789ABCDEF"[d] else "0123456789abcdef"[d]
  {
  }

  /** A number of two or more digits is its leading digits and its last one. */
  lemma SplitLast(n: nat, base: nat) returns (q: nat, r: nat)
    requires 2 <= base <= n
    ensures 1 <= q < n && r < base && n == q * base + r && q == n / base && r == n % base
  {
    q, r := n / base, n % base;
  }

  lemma DenotesAppend(s: string, base: nat, d: nat, upper: bool)
    requires d < 16
    ensures Denotes(s + [DigitChar(d, upper)], base) == Denotes(s, base) * base + d
  {
    DigitCharValue(d, upper);
    assert (s + [DigitChar(d, upper)])[..|s|] == s;
  }

  lemma OneDigit(c: char, base: nat)
    ensures Denotes([c], base) == DigitValue(c)
  {
    assert [c][..0] == "";
    assert Denotes("", base) * base == 0;
  }

  lemma NumeralMore(n: nat, base: nat, upper: bool, q: nat, r: nat)
    requires 2 <= base <= 16 && base <= n && q == n / base && r == n % base
    ensures r < 16 && Numeral(n, base, upper) == Numeral(q, base, upper) + [DigitChar(r, upper)]
  {
  }

  lemma DenotesMore(n: nat, base: nat, upper: bool, q: nat, r: nat)
    requires 2 <= base <= 16 && base <= n && q == n / base && r == n % base
    requires Denotes(Numeral(q, base, upper), base) == q
    ensures Denotes(Numeral(n, base, upper), base) == q * base + r
  {
    NumeralMore(n, base, upper, q, r);
    DenotesAppend(Numeral(q, base, upper), base, r, upper);
  }

  /** A numeral denotes its number. */
  lemma {:induction false} NumeralDenotes(n: nat, base: nat, upper: bool)
    requires 2 <= base <= 16
    ensures Denotes(Numeral(n, base, upper), base) == n
    decreases n
  {
    if n < base {
      OneDigit(DigitChar(n, upper), base);
      DigitCharValue(n, upper);
    } else {
      var q, r := SplitLast(n, base);
      NumeralDenotes(q, base, upper);
      DenotesMore(n, base, upper, q, r);
    }
  }

  /** A numeral uses digits of its base only, and has no leading zero. */
  lemma {:induction false} NumeralDigits(n: nat, base: nat, upper: bool)
    requires 2 <= base <= 16
    ensures var s := Numeral(n, base, upper);
      && (forall i :: 0 <= i < |s| ==> DigitValue(s[i]) < base)
      && (n > 0 ==> s[0] != '0') && (n == 0 ==> s == "0")
  {
    DigitCharValue(n % base, upper);
    if n >= base {
      var q, r := SplitLast(n, base);
      NumeralDigits(q, base, upper);
    }
  }

  /** The length of a numeral is fixed by the powers of the base around its number. */
  lemma {:induction false} NumeralLength(n: nat, base: nat, upper: bool, k: nat)
    requires 2 <= base <= 16 && k >= 1
    ensures |Numeral(n, base, upper)| <= k <==> n < Power(base, k)
  {
    if k == 1 {
      assert Power(base, 1) == base;
    } else if n >= base {
      NumeralLength(n / base, base, upper, k - 1);
      QuotientBelow(n, base, Power(base, k - 1));
    } else {
      PowerGrows(base, k);
    }
  }

  lemma {:induction false} PowerGrows(base: nat, k: nat)
    requires base >= 2 && k >= 1
    ensures Power(base, k) >= base
  {
    if k > 1 {
      PowerGrows(base, k - 1);
      assert base * Power(base, k - 1) >= base * 1;
    }
  }

  lemma QuotientBelow(n: nat, b: nat, p: nat)
    requires b >= 1
    ensures n / b < p <==> n < b * p
  {
    var q := n / b;
    assert n == b * q + n % b;
    assert q < p ==> b * (q + 1) <= b * p;
    assert q >= p ==> b * q >= b * p;
  }
}
