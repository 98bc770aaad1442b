// The decimal writers of fmt (format.h): two digits at a time from the right,
// into a field sized by count_digits or into FormatInt's fixed buffer.
module FmtInt {
  import opened Words
  import opened Lists
  import opened Numerals
  import opened FmtCount

  // ----- two digits at a time -----

  /** Data::DIGITS, the numerals "00" to "99" one after another. */
  function PairDigit(index: nat): char
    requires index < 200
  {
    '0' + (if index % 2 == 0 then index / 2 / 10 else index / 2 % 10) as char
  }

  lemma LastTwoDigits(v: nat, tail: string)
    requires v >= 10
    ensures Decimal(v) + tail == (if v < 100 then "" else Decimal(v / 100))
              + ([PairDigit(v % 100 * 2), PairDigit(v % 100 * 2 + 1)] + tail)
    ensures |Decimal(v)| == 2 + (if v < 100 then 0 else |Decimal(v / 100)|)
  {
    var q, r := v / 10, v % 10;
    PairOf(v);
    assert Decimal(v) == Decimal(q) + [DigitChar(r, false)];
    if v >= 100 {
      assert Decimal(q) == Decimal(v / 100) + [DigitChar(q % 10, false)];
      JoinPair(Decimal(v / 100), DigitChar(q % 10, false), DigitChar(r, false), tail);
    } else {
      assert Decimal(q) == [DigitChar(q, false)];
      JoinPair("", DigitChar(q, false), DigitChar(r, false), tail);
    }
  }

  lemma PairOf(v: nat)
    ensures v / 10 / 10 == v / 100 && (v < 100 ==> v / 10 < 10)
    ensures PairDigit(v % 100 * 2) == DigitChar(v / 10 % 10, false)
    ensures PairDigit(v % 100 * 2 + 1) == DigitChar(v % 10, false)
  {
  }

  lemma JoinPair(a: string, c: char, d: char, tail: string)
    ensures ((a + [c]) + [d]) + tail == a + ([c, d] + tail)
    ensures a == "" ==> a + [c] == [c]
  {
  }

  lemma LastDigits(v: nat, tail: string)
    requires v < 100
    ensures v < 10 ==> Decimal(v) + tail == ['0' + v as char] + tail && |Decimal(v)| == 1
    ensures v >= 10 ==> Decimal(v) + tail == [PairDigit(v * 2), PairDigit(v * 2 + 1)] + tail && |Decimal(v)| == 2
  {
    if v >= 10 {
      TwoDigitText(v);
    } else {
      OneDigitText(v);
    }
  }

  lemma TwoDigitText(v: nat)
    requires 10 <= v < 100
    ensures Decimal(v) == [PairDigit(v * 2), PairDigit(v * 2 + 1)]
  {
    var q, r := v / 10, v % 10;
    TwoDigitPair(v, q, r);
    assert Numeral(q, 10, false) == [DigitChar(q, false)];
    assert Numeral(v, 10, false) == Numeral(q, 10, false) + [DigitChar(r, false)];
  }

  lemma TwoDigitPair(v: nat, q: nat, r: nat)
    requires 10 <= v < 100 && q == v / 10 && r == v % 10
    ensures q < 10 && PairDigit(v * 2) == DigitChar(q, false) && PairDigit(v * 2 + 1) == DigitChar(r, false)
  {
  }

  lemma OneDigitText(v: nat)
    requires v < 10
    ensures Decimal(v) == ['0' + v as char]
  {
    assert Numeral(v, 10, false) == [DigitChar(v, false)];
  }

  /** One step of the loops below: the pair of digits goes in front of what is written. */
  method PutPair(buffer: array<char>, start: nat, end: nat, index: nat) returns (p: nat)
    requires 2 <= start <= end <= buffer.Length && index < 199
    modifies buffer
    ensures p == start - 2
    ensures buffer[p..end] == [PairDigit(index), PairDigit(index + 1)] + old(buffer[start..end])
    ensures forall i :: 0 <= i < p || end <= i < buffer.Length ==> buffer[i] == old(buffer[i])
  {
    p := start - 1;
    buffer[p] := PairDigit(index + 1);
    p := p - 1;
    buffer[p] := PairDigit(index);
  }

  /** The common loop of both format_decimal functions: writes the numeral of `value`
      so that it ends just before `end`. */
  method DecimalBackward(buffer: array<char>, end: nat, value: nat) returns (start: nat)
    requires |Decimal(value)| <= end <= buffer.Length
    modifies buffer
    ensures start + |Decimal(value)| == end && buffer[start..end] == Decimal(value)
    ensures forall i :: 0 <= i < start || end <= i < buffer.Length ==> buffer[i] == old(buffer[i])
  {
    start := end;
    var v := value;
    while v >= 100
      invariant start <= end && start + |Decimal(value)| == end + |Decimal(v)|
      invariant Decimal(v) + buffer[start..end] == Decimal(value)
      invariant forall i :: 0 <= i < start || end <= i < buffer.Length ==> buffer[i] == old(buffer[i])
      decreases v
    {
      LastTwoDigits(v, buffer[start..end]);
      var index := v % 100 * 2;
      v := v / 100;
      start := PutPair(buffer, start, end, index);
    }
    LastDigits(v, buffer[start..end]);
    if v < 10 {
      ghost var tail := buffer[start..end];
      start := start - 1;
      buffer[start] := '0' + v as char;
      assert buffer[start..end] == ['0' + v as char] + tail;
      return;
    }
    start := PutPair(buffer, start, end, v * 2);
  }

  /** format_decimal(buffer, value, num_digits), with count_digits' answer for the last argument. */
  method FormatDecimal(buffer: array<char>, at: nat, value: nat, numDigits: nat)
    requires IsDigitCount(value, numDigits) && at + numDigits <= buffer.Length
    modifies buffer
    ensures buffer[at..at + numDigits] == Decimal(value)
    ensures forall i :: 0 <= i < at || at + numDigits <= i < buffer.Length ==> buffer[i] == old(buffer[i])
  {
    DigitCountIsNumeralLength(value, numDigits);
    var start := DecimalBackward(buffer, at + numDigits, value);
  }

  // ----- FormatInt -----

  class FormatInt {
    /** digits10 of a 64-bit unsigned number, plus three. */
    static const BUFFER_SIZE: nat := 22
    const buffer: array<char>
    var str: nat

    ghost predicate Valid()
      reads this
    {
      buffer.Length == BUFFER_SIZE && str <= BUFFER_SIZE - 1
    }

    /** What data() points to and size() delimits. */
    ghost function Text(): string
      requires Valid()
      reads this, buffer
    {
      buffer[str..BUFFER_SIZE - 1]
    }

    constructor FromSigned(value: int)
      requires -0x8000_0000_0000_0000 <= value < 0x8000_0000_0000_0000
      ensures Valid() && fresh(buffer) && Text() == IntText(value)
    {
      buffer := new char[BUFFER_SIZE];
      str := 0;
      new;
      var absValue := value % WORD_64;
      var negative := value < 0;
      if negative {
        absValue := (0 - absValue) % WORD_64;
      }
      assert absValue == if negative then -value else value;
      AtMostTwentyDigits(absValue);
      str := DecimalBackward(buffer, BUFFER_SIZE - 1, absValue);
      ghost var digits := Text();
      if negative {
        str := str - 1;
        buffer[str] := '-';
        assert Text() == ['-'] + digits;
      }
    }

    constructor FromUnsigned(value: nat)
      requires value < WORD_64
      ensures Valid() && fresh(buffer) && Text() == Decimal(value)
    {
      buffer := new char[BUFFER_SIZE];
      str := 0;
      new;
      AtMostTwentyDigits(value);
      str := DecimalBackward(buffer, BUFFER_SIZE - 1, value);
    }

    method Size() returns (n: nat)
      requires Valid()
      ensures n == |Text()|
    {
      n := BUFFER_SIZE - 1 - str;
    }

    /** c_str: the terminator goes behind the text, into the cell kept free for it. */
    method CStr() returns (start: nat)
      requires Valid()
      modifies buffer
      ensures Valid() && Text() == old(Text())
      ensures start == str && buffer[str..] == Text() + ['\0']
    {
      buffer[BUFFER_SIZE - 1] := '\0';
      start := str;
    }
  }

  lemma AtMostTwentyDigits(value: nat)
    requires value < WORD_64
    ensures |Decimal(value)| <= 20
  {
    NumeralLength(value, 10, false, 20);
    TenToTheTwenty();
  }

  lemma TenToTheTwenty()
    ensures Power(10, 20) > WORD_64
  {
    var p := Power(10, 10);
    assert p == 10000000000;
    PowerSum(10, 10, 10);
  }

  lemma {:induction false} PowerSum(base: nat, a: nat, b: nat)
    ensures Power(base, a + b) == Power(base, a) * Power(base, b)
  {
    if a > 0 {
      PowerSum(base, a - 1, b);
      Reassociate(base, Power(base, a - 1), Power(base, b));
    }
  }

  lemma Reassociate(x: int, y: int, z: int)
    ensures x * (y * z) == (x * y) * z
  {
  }
}
