// Laws of fmt's format strings: escaped braces, numerals and argument numbering.
module FmtLaws {
  import opened Words
  import opened Lists
  import opened Wrappers
  import opened Numerals
  import opened FmtSyntax
  import opened FmtScanner

  // ----- escaped braces -----

  predicate IsBrace(c: char) {
    c == '{' || c == '}'
  }

  function Doubled(t: string): string {
    if t == "" then "" else (if IsBrace(t[0]) then [t[0], t[0]] else [t[0]]) + Doubled(t[1..])
  }

  /** Text with its braces doubled is written as it is, whatever the arguments. */
  lemma {:induction false} DoubledFormatsToItself(args: seq<Entry>, render: Renderer, t: string, st: State)
    ensures Finish(args, render, Doubled(t), st) == Some(State(st.output + t, st.next))
    decreases |t|
  {
    if t == "" {
      assert st.output + t == st.output;
    } else {
      var d, c := Doubled(t), t[0];
      DoubledFormatsToItself(args, render, t[1..], State(st.output + [c], st.next));
      assert st.output + [c] + t[1..] == st.output + t;
      if IsBrace(c) {
        assert d[1..] == [c] + Doubled(t[1..]) && d[2..] == Doubled(t[1..]);
        FinishDoubled(args, render, d, st);
      } else {
        assert d[1..] == Doubled(t[1..]);
        FinishText(args, render, d, st);
      }
    }
  }

  // ----- numerals -----

  predicate AllDigits(s: string) {
    forall c :: c in s ==> IsDigit(c)
  }

  /** The number after reading more digits. */
  function Extend(value: nat, digits: string): nat
    decreases |digits|
  {
    if digits == "" then value else Extend(value * 10 + DigitValue(digits[0]), digits[1..])
  }

  lemma {:induction false} ExtendLast(value: nat, s: string, c: char)
    ensures Extend(value, s + [c]) == Extend(value, s) * 10 + DigitValue(c)
    decreases |s|
  {
    if s == "" {
      assert (s + [c])[1..] == "";
    } else {
      assert (s + [c])[1..] == s[1..] + [c];
      ExtendLast(value * 10 + DigitValue(s[0]), s[1..], c);
    }
  }

  lemma {:induction false} ExtendIsDenotes(s: string)
    ensures Extend(0, s) == Denotes(s, 10)
    decreases |s|
  {
    if s != "" {
      var front := s[..|s| - 1];
      ExtendIsDenotes(front);
      ExtendLast(0, front, s[|s| - 1]);
      assert s == front + [s[|s| - 1]];
    }
  }

  /** Some digit makes the 32-bit value smaller than it was before. */
  predicate Caught(value: nat, digits: string)
    decreases |digits|
  {
    digits != "" &&
    ((value * 10 + DigitValue(digits[0])) % WORD_32 < value % WORD_32
     || Caught(value * 10 + DigitValue(digits[0]), digits[1..]))
  }

  lemma WrapStep(value: nat, d: nat)
    ensures (value % WORD_32 * 10 + d) % WORD_32 == (value * 10 + d) % WORD_32
  {
    var q, r := value / WORD_32, value % WORD_32;
    assert value * 10 + d == WORD_32 * (10 * q) + (r * 10 + d);
    SameResidue(r * 10 + d, 10 * q);
  }

  lemma SameResidue(x: nat, q: nat)
    ensures (WORD_32 * q + x) % WORD_32 == x % WORD_32
  {
  }

  /** The 32-bit loop computes the value modulo 2^32 unless the wrap test strikes. */
  lemma {:induction false} AccumulateIsResidue(value: nat, digits: string)
    requires AllDigits(digits)
    ensures Accumulate(value % WORD_32, digits)
         == if Caught(value, digits) then UINT_MAX else Extend(value, digits) % WORD_32
    decreases |digits|
  {
    if digits != "" {
      WrapStep(value, DigitValue(digits[0]));
      AccumulateIsResidue(value * 10 + DigitValue(digits[0]), digits[1..]);
    }
  }

  lemma {:induction false} ExtendGrows(value: nat, digits: string)
    ensures Extend(value, digits) >= value
    decreases |digits|
  {
    if digits != "" {
      ExtendGrows(value * 10 + DigitValue(digits[0]), digits[1..]);
    }
  }

  lemma {:induction false} SmallIsNotCaught(value: nat, digits: string)
    requires Extend(value, digits) < WORD_32
    ensures !Caught(value, digits)
    decreases |digits|
  {
    if digits != "" {
      ExtendGrows(value * 10 + DigitValue(digits[0]), digits[1..]);
      SmallIsNotCaught(value * 10 + DigitValue(digits[0]), digits[1..]);
    }
  }

  /** What the scanner means to do with a numeral: take its value, or report it as too big. */
  function Intended(s: string): Scan<nat> {
    var n := DigitRun(s);
    var value := Denotes(s[..n], 10);
    if value <= INT_MAX then Got(value, s[n..]) else Bad
  }

  lemma NumberReads(s: string)
    ensures var n := DigitRun(s); var digits := s[..n]; var residue := Denotes(digits, 10) % WORD_32;
      ParseNumber(s) == if Caught(0, digits) || residue > INT_MAX then Bad else Got(residue, s[n..])
  {
    var digits := s[..DigitRun(s)];
    DigitRunIsDigits(s);
    AccumulateIsResidue(0, digits);
    ExtendIsDenotes(digits);
  }

  lemma ResidueIsRightIff(value: nat, caught: bool, rest: string)
    requires value < WORD_32 ==> !caught
    ensures var residue := value % WORD_32;
      var read: Scan<nat> := if caught || residue > INT_MAX then Bad else Got(residue, rest);
      var intended: Scan<nat> := if value <= INT_MAX then Got(value, rest) else Bad;
      && (read == intended <==> value <= INT_MAX || caught || residue > INT_MAX)
      && (value < WORD_32 ==> read == intended)
  {
    if value < WORD_32 {
      assert value % WORD_32 == value;
    }
  }

  /** It does so exactly for the numerals up to INT_MAX, those on which the wrap test
      strikes, and those whose value modulo 2^32 is itself too big. */
  lemma NumberReadRightIff(s: string)
    ensures var digits := s[..DigitRun(s)];
      ParseNumber(s) == Intended(s) <==>
        Denotes(digits, 10) <= INT_MAX || Caught(0, digits) || Denotes(digits, 10) % WORD_32 > INT_MAX
    ensures Denotes(s[..DigitRun(s)], 10) < WORD_32 ==> ParseNumber(s) == Intended(s)
  {
    var n := DigitRun(s);
    var digits := s[..n];
    NumberReads(s);
    DigitRunIsDigits(s);
    ExtendIsDenotes(digits);
    if Denotes(digits, 10) < WORD_32 {
      SmallIsNotCaught(0, digits);
    }
    ResidueIsRightIff(Denotes(digits, 10), Caught(0, digits), s[n..]);
  }

  lemma {:induction false} CaughtLast(value: nat, s: string, c: char)
    ensures Caught(value, s + [c]) <==>
      Caught(value, s) || (Extend(value, s) * 10 + DigitValue(c)) % WORD_32 < Extend(value, s) % WORD_32
    decreases |s|
  {
    if s == "" {
      assert (s + [c])[1..] == "";
    } else {
      assert (s + [c])[1..] == s[1..] + [c];
      CaughtLast(value * 10 + DigitValue(s[0]), s[1..], c);
    }
  }

  lemma {:induction false} WholeRun(s: string, rest: string)
    requires AllDigits(s) && !IsDigit(Peek(rest))
    ensures DigitRun(s + rest) == |s| && (s + rest)[..|s|] == s && (s + rest)[|s|..] == rest
    decreases |s|
  {
    if s == "" {
      assert s + rest == rest;
    } else {
      assert (s + rest)[1..] == s[1..] + rest && s[0] in s;
      WholeRun(s[1..], rest);
    }
  }

  lemma DecimalDigits(n: nat)
    ensures AllDigits(Decimal(n)) && Denotes(Decimal(n), 10) == n
    ensures n > 0 ==> Decimal(n)[0] != '0'
  {
    NumeralDigits(n, 10, false);
    NumeralDenotes(n, 10, false);
    forall c | c in Decimal(n)
      ensures IsDigit(c)
    {
      var i :| 0 <= i < |Decimal(n)| && Decimal(n)[i] == c;
    }
  }

  /** A number up to INT_MAX is read back from its numeral, whatever non-digit follows. */
  lemma NumberReadsBack(n: nat, rest: string)
    requires n <= INT_MAX && !IsDigit(Peek(rest))
    ensures ParseNumber(Decimal(n) + rest) == Got(n, rest)
  {
    DecimalDigits(n);
    WholeRun(Decimal(n), rest);
    NumberReadRightIff(Decimal(n) + rest);
  }

  /** A numeral that ends in 0 and that the wrap test misses. */
  lemma MissedNumeral(t: string, n: nat)
    requires AllDigits(t) && Denotes(t, 10) == n < WORD_32 && n <= 10 * n % WORD_32 <= INT_MAX
    ensures Denotes(t + ['0'], 10) == 10 * n && ParseNumber(t + ['0']) == Got(10 * n % WORD_32, "")
    ensures 10 * n > INT_MAX ==> Intended(t + ['0']) == Bad
  {
    var s := t + ['0'];
    assert s[..|t|] == t;
    assert Denotes(s, 10) == n * 10;
    NotCaughtByZero(t, n);
    NumberReads(s);
    WholeRun(s, "");
    assert s + "" == s;
  }

  lemma NotCaughtByZero(t: string, n: nat)
    requires AllDigits(t) && Denotes(t, 10) == n < WORD_32 && n <= 10 * n % WORD_32
    ensures !Caught(0, t + ['0'])
  {
    ExtendIsDenotes(t);
    SmallIsNotCaught(0, t);
    CaughtLast(0, t, '0');
  }

  /** 5000000000 is read as 705032704. */
  lemma MissedOverflow()
    ensures exists s :: Denotes(s, 10) == 5000000000 && ParseNumber(s) == Got(705032704, "")
  {
    var n: nat :| n == 500000000;
    DecimalDigits(n);
    var t := Decimal(n);
    MissedNumeral(t, n);
    assert Denotes(t + ['0'], 10) == 5000000000;
  }

  // ----- argument numbering -----

  function CountRefs(c: Option<Count>): seq<Ref> {
    if c.Some? && c.value.FromArg? then [c.value.ref] else []
  }

  /** The references of a piece in the order in which they take effect. */
  function PieceRefs(p: Piece): seq<Ref> {
    match p
    case Literal(_) => []
    case Field(ref, None) => [ref]
    case Field(ref, Some(spec)) => [ref] + CountRefs(spec.width) + CountRefs(spec.precision)
  }

  function Refs(pieces: seq<Piece>): seq<Ref> {
    if pieces == [] then [] else PieceRefs(pieces[0]) + Refs(pieces[1..])
  }

  predicate AllAutomatic(refs: seq<Ref>) {
    forall i :: 0 <= i < |refs| ==> refs[i].Auto?
  }

  predicate NoneAutomatic(refs: seq<Ref>) {
    forall i :: 0 <= i < |refs| ==> !refs[i].Auto?
  }

  /** An index state that such references can have led to, the first `n` of them automatic. */
  predicate Explains(refs: seq<Ref>, next: int) {
    if next >= 0 then AllAutomatic(refs) && |refs| == next else NoneAutomatic(refs) && |refs| > 0 && next == -1
  }

  lemma LookupExplains(args: seq<Entry>, refs: seq<Ref>, ref: Ref, next: int)
    requires Explains(refs, next) && Lookup(args, ref, next).Some?
    ensures Explains(refs + [ref], Lookup(args, ref, next).value.1)
  {
  }

  lemma CountExplains(args: seq<Entry>, refs: seq<Ref>, c: Option<Count>, absent: int, next: int)
    requires Explains(refs, next) && EvalCount(args, c, absent, next).Some?
    ensures Explains(refs + CountRefs(c), EvalCount(args, c, absent, next).value.1)
  {
    if c.Some? && c.value.FromArg? {
      LookupExplains(args, refs, c.value.ref, next);
    } else {
      assert refs + [] == refs;
    }
  }

  lemma PieceExplains(args: seq<Entry>, render: Renderer, refs: seq<Ref>, p: Piece, st: State)
    requires Explains(refs, st.next) && EvalPiece(args, render, p, st).Some?
    ensures Explains(refs + PieceRefs(p), EvalPiece(args, render, p, st).value.next)
  {
    match p
    case Literal(_) => assert refs + [] == refs;
    case Field(ref, spec) =>
      LookupExplains(args, refs, ref, st.next);
      if spec.Some? {
        var next0 := Lookup(args, ref, st.next).value.1;
        var w, q := spec.value.width, spec.value.precision;
        CountExplains(args, refs + [ref], w, 0, next0);
        CountExplains(args, refs + [ref] + CountRefs(w), q, -1, EvalCount(args, w, 0, next0).value.1);
        assert refs + [ref] + CountRefs(w) + CountRefs(q) == refs + PieceRefs(p);
      }
  }

  lemma {:induction false} RunExplains(args: seq<Entry>, render: Renderer, refs: seq<Ref>, pieces: seq<Piece>, st: State)
    requires Explains(refs, st.next) && Eval(args, render, pieces, st).Some?
    ensures Explains(refs + Refs(pieces), Eval(args, render, pieces, st).value.next)
    decreases |pieces|
  {
    if pieces == [] {
      assert refs + [] == refs;
    } else {
      PieceExplains(args, render, refs, pieces[0], st);
      RunExplains(args, render, refs + PieceRefs(pieces[0]), pieces[1..], EvalPiece(args, render, pieces[0], st).value);
      Regroup(refs, PieceRefs(pieces[0]), Refs(pieces[1..]));
    }
  }

  lemma CountInRange(args: seq<Entry>, c: Option<Count>, absent: int, next: int)
    requires next <= |args| && EvalCount(args, c, absent, next).Some?
    ensures EvalCount(args, c, absent, next).value.1 <= |args|
  {
  }

  lemma {:induction false} AutomaticInRange(args: seq<Entry>, render: Renderer, pieces: seq<Piece>, st: State)
    requires st.next <= |args| && Eval(args, render, pieces, st).Some?
    ensures Eval(args, render, pieces, st).value.next <= |args|
    decreases |pieces|
  {
    if pieces != [] {
      match pieces[0] {
        case Literal(_) =>
        case Field(ref, spec) =>
          if spec.Some? {
            var next0 := Lookup(args, ref, st.next).value.1;
            CountInRange(args, spec.value.width, 0, next0);
            CountInRange(args, spec.value.precision, -1, EvalCount(args, spec.value.width, 0, next0).value.1);
          }
      }
      AutomaticInRange(args, render, pieces[1..], EvalPiece(args, render, pieces[0], st).value);
    }
  }

  lemma RunFromStart(args: seq<Entry>, render: Renderer, pieces: seq<Piece>)
    requires Eval(args, render, pieces, State("", 0)).Some?
    ensures Explains(Refs(pieces), Eval(args, render, pieces, State("", 0)).value.next)
    ensures Eval(args, render, pieces, State("", 0)).value.next <= |args|
  {
    RunExplains(args, render, [], pieces, State("", 0));
    assert [] + Refs(pieces) == Refs(pieces);
    AutomaticInRange(args, render, pieces, State("", 0));
  }

  /** A format string that does not throw numbers all its arguments itself, nested widths
      and precisions included, or none of them. */
  lemma NumberingIsNeverMixed(args: seq<Entry>, render: Renderer, text: string)
    requires Reference(args, render, text).Some?
    ensures ParsePieces(text).Some?
    ensures var refs := Refs(ParsePieces(text).value);
      && (AllAutomatic(refs) || NoneAutomatic(refs))
      && (AllAutomatic(refs) && refs != [] ==> Reference(args, render, text).value.next == |refs| <= |args|)
  {
    var refs := Refs(ParsePieces(text).value);
    RunFromStart(args, render, ParsePieces(text).value);
    if refs != [] {
      assert refs[0].Auto? || !refs[0].Auto?;
    }
  }
}
