// What a field of write_int (format.h) shows, read without its printer: the integer
// literal of C++14 it holds, its sign character, the case of its letters and its place.
module FmtFields {
  import Lists
  import opened Numerals
  import opened FmtWriter

  // ----- reading a literal -----

  /** Hexadecimal, binary, octal or decimal, by its first characters. */
  function UnsignedLiteral(s: string): nat {
    if |s| >= 2 && s[0] == '0' && (s[1] == 'x' || s[1] == 'X') then Denotes(s[2..], 16)
    else if |s| >= 2 && s[0] == '0' && (s[1] == 'b' || s[1] == 'B') then Denotes(s[2..], 2)
    else if |s| >= 2 && s[0] == '0' then Denotes(s[1..], 8)
    else Denotes(s, 10)
  }

  function Literal(s: string): int {
    if s != "" && s[0] == '-' then 0 - UnsignedLiteral(s[1..])
    else if s != "" && (s[0] == '+' || s[0] == ' ') then UnsignedLiteral(s[1..])
    else UnsignedLiteral(s)
  }

  lemma DigitsRead(value: int, spec: FormatSpec)
    requires IsIntType(spec.typ)
    ensures var digits := Digits(value, spec);
      && |digits| >= 1 && Denotes(digits, Base(spec.typ)) == Magnitude(value)
      && (forall i :: 0 <= i < |digits| ==> DigitValue(digits[i]) < Base(spec.typ))
      && (digits[0] == '0' ==> digits == "0")
  {
    NumeralDenotes(Magnitude(value), Base(spec.typ), spec.typ == 'X');
    NumeralDigits(Magnitude(value), Base(spec.typ), spec.typ == 'X');
  }

  lemma DecimalReads(digits: string)
    requires digits != "" && (digits[0] == '0' ==> digits == "0")
    ensures UnsignedLiteral(digits) == Denotes(digits, 10)
  {
  }

  lemma OctalReads(digits: string)
    requires digits != "" && DigitValue(digits[0]) < 8
    ensures UnsignedLiteral("0" + digits) == Denotes(digits, 8)
  {
    var s := "0" + digits;
    assert s[1..] == digits && s[1] == digits[0];
  }

  lemma PrefixedReads(typ: char, digits: string)
    requires typ in "xXbB"
    ensures UnsignedLiteral(['0', typ] + digits) == Denotes(digits, if typ in "xX" then 16 else 2)
  {
    var s := ['0', typ] + digits;
    assert s[2..] == digits && s[1] == typ;
  }

  lemma UnsignedReads(value: int, spec: FormatSpec)
    requires IsIntType(spec.typ) && (spec.hash || Base(spec.typ) == 10)
    ensures UnsignedLiteral(BaseText(spec) + Digits(value, spec)) == Magnitude(value)
  {
    var digits := Digits(value, spec);
    DigitsRead(value, spec);
    if Base(spec.typ) == 10 {
      Lists.DropEmpty(digits);
      DecimalReads(digits);
    } else if spec.typ == 'o' {
      OctalReads(digits);
    } else {
      PrefixedReads(spec.typ, digits);
    }
  }

  lemma UnsignedStarts(value: int, spec: FormatSpec)
    requires IsIntType(spec.typ)
    ensures BaseText(spec) + Digits(value, spec) != "" && (BaseText(spec) + Digits(value, spec))[0] !in "+- "
  {
    var base, digits := BaseText(spec), Digits(value, spec);
    DigitsRead(value, spec);
    assert DigitValue(digits[0]) < 16;
    assert (base + digits)[0] == if base == "" then digits[0] else '0';
  }

  /** With '#', or in decimal, sign, base prefix and digits are a literal of the value. */
  lemma FieldReadsBack(value: int, spec: FormatSpec)
    requires IsIntType(spec.typ) && (spec.hash || Base(spec.typ) == 10)
    ensures Literal((SignText(value, spec) + BaseText(spec)) + Digits(value, spec)) == value
  {
    var sign, rest := SignText(value, spec), BaseText(spec) + Digits(value, spec);
    UnsignedReads(value, spec);
    UnsignedStarts(value, spec);
    Lists.Regroup(sign, BaseText(spec), Digits(value, spec));
    SignReads(sign, rest, value);
  }

  lemma SignReads(sign: string, rest: string, value: int)
    requires UnsignedLiteral(rest) == Magnitude(value) && rest != "" && rest[0] !in "+- "
    requires sign == "-" || sign == "+" || sign == " " || sign == ""
    requires sign == "-" <==> value < 0
    ensures Literal(sign + rest) == value
  {
    if sign == "" {
      assert sign + rest == rest;
    } else {
      assert (sign + rest)[0] == sign[0] && (sign + rest)[1..] == rest;
    }
  }

  // ----- sign and case -----

  /** The character before base prefix and digits: a minus for negative values only, and a plus
      or a space for the others if and only if that sign was asked for. */
  lemma SignIs(value: int, spec: FormatSpec)
    requires IsIntType(spec.typ)
    ensures var content := (SignText(value, spec) + BaseText(spec)) + Digits(value, spec);
      && (content[0] == '-' <==> value < 0)
      && (content[0] == '+' <==> value >= 0 && spec.sign && spec.plus)
      && (content[0] == ' ' <==> value >= 0 && spec.sign && !spec.plus)
  {
    var sign, base, digits := SignText(value, spec), BaseText(spec), Digits(value, spec);
    UnsignedStarts(value, spec);
    Lists.Regroup(sign, base, digits);
    assert (sign + (base + digits))[0] == if sign == "" then (base + digits)[0] else sign[0];
  }

  predicate IsUpper(c: char) {
    'A' <= c <= 'Z'
  }

  predicate IsLower(c: char) {
    'a' <= c <= 'z'
  }

  lemma {:induction false} NumeralCase(n: nat, base: nat, upper: bool)
    requires 2 <= base <= 16
    ensures forall i :: 0 <= i < |Numeral(n, base, upper)| ==>
      !(if upper then IsLower else IsUpper)(Numeral(n, base, upper)[i])
    decreases n
  {
    if n >= base {
      var q, r := SplitLast(n, base);
      NumeralCase(q, base, upper);
    }
  }

  /** Digits above 9 are capitals for 'X' and small letters otherwise. */
  lemma CaseIs(value: int, spec: FormatSpec)
    ensures var digits := Digits(value, spec);
      forall i :: 0 <= i < |digits| ==> if spec.typ == 'X' then !IsLower(digits[i]) else !IsUpper(digits[i])
  {
    NumeralCase(Magnitude(value), Base(spec.typ), spec.typ == 'X');
  }

  // ----- place -----

  /** The text stands at `at` in the field and everything around it is the fill character. */
  ghost predicate StandsAt(text: string, at: int, fill: char, field: string) {
    && 0 <= at && at + |text| <= |field|
    && (forall i :: 0 <= i < |text| ==> field[at + i] == text[i])
    && (forall i :: 0 <= i < at || at + |text| <= i < |field| ==> field[i] == fill)
  }

  /** In the middle, or half a character to the left of it. */
  ghost predicate IsCentred(text: string, fill: char, field: string) {
    exists before :: StandsAt(text, before, fill, field) && 0 <= |field| - |text| - 2 * before <= 1
  }

  lemma Placed(before: string, text: string, behind: string, fill: char, field: string)
    requires field == (before + text) + behind
    requires before == Repeat(fill, |before|) && behind == Repeat(fill, |behind|)
    ensures StandsAt(text, |before|, fill, field) && |before| + |text| + |behind| == |field|
  {
  }

  lemma PlacedLeft(spec: FormatSpec, prefix: string, digits: string)
    requires spec.align == Left
    ensures StandsAt(prefix + digits, 0, spec.fill, Layout(spec, prefix, digits))
  {
    var behind := Repeat(spec.fill, Padding(spec, |prefix| + |digits|));
    Lists.DropEmpty(prefix + digits);
    Placed("", prefix + digits, behind, spec.fill, Layout(spec, prefix, digits));
  }

  lemma PlacedRight(spec: FormatSpec, prefix: string, digits: string)
    requires spec.align == Right || spec.align == Default
    ensures var field := Layout(spec, prefix, digits);
      StandsAt(prefix + digits, |field| - |prefix + digits|, spec.fill, field)
  {
    var before := Repeat(spec.fill, Padding(spec, |prefix| + |digits|));
    Lists.Regroup(before, prefix, digits);
    NothingBehind(before, prefix + digits, spec.fill);
  }

  lemma NothingBehind(before: string, text: string, fill: char)
    requires before == Repeat(fill, |before|)
    ensures StandsAt(text, |before + text| - |text|, fill, before + text)
  {
  }

  lemma PlacedCentre(spec: FormatSpec, prefix: string, digits: string)
    requires spec.align == Center
    ensures IsCentred(prefix + digits, spec.fill, Layout(spec, prefix, digits))
  {
    var n := Padding(spec, |prefix| + |digits|);
    var before, behind := Repeat(spec.fill, n / 2), Repeat(spec.fill, n - n / 2);
    Lists.Regroup(before, prefix, digits);
    Placed(before, prefix + digits, behind, spec.fill, Layout(spec, prefix, digits));
  }

  lemma PlacedNumeric(spec: FormatSpec, prefix: string, digits: string)
    requires spec.align == Numeric
    ensures var field := Layout(spec, prefix, digits);
      prefix <= field && StandsAt(digits, |field| - |prefix + digits|, spec.fill, field[|prefix|..])
  {
    var between := Repeat(spec.fill, Padding(spec, |prefix| + |digits|));
    Lists.Regroup(prefix, between, digits);
    assert (prefix + (between + digits))[|prefix|..] == between + digits;
    NothingBehind(between, digits, spec.fill);
  }

  /** Left, right and centred fields keep sign, prefix and digits together, at the left end, at
      the right end or in the middle; with numeric alignment sign and prefix are at the left
      end and the digits at the right. */
  lemma FieldPlaces(value: int, spec: FormatSpec)
    ensures var prefix := SignText(value, spec) + BaseText(spec); var digits := Digits(value, spec);
      var field := IntField(value, spec); var content := prefix + digits;
      && (spec.align == Left ==> StandsAt(content, 0, spec.fill, field))
      && (spec.align == Right || spec.align == Default ==> StandsAt(content, |field| - |content|, spec.fill, field))
      && (spec.align == Center ==> IsCentred(content, spec.fill, field))
      && (spec.align == Numeric ==> prefix <= field && StandsAt(digits, |field| - |content|, spec.fill, field[|prefix|..]))
  {
    var prefix, digits := SignText(value, spec) + BaseText(spec), Digits(value, spec);
    match spec.align
    case Left => PlacedLeft(spec, prefix, digits);
    case Center => PlacedCentre(spec, prefix, digits);
    case Numeric => PlacedNumeric(spec, prefix, digits);
    case _ => PlacedRight(spec, prefix, digits);
  }
}
