// Format strings as printed from their pieces: they read back as those pieces, and
// automatic argument numbers can be written out without changing the output.
module FmtRoundTrip {
  import opened Words
  import opened Lists
  import opened Wrappers
  import opened Numerals
  import opened FmtSyntax
  import opened FmtLaws
  import W = FmtWriter

  // ----- writing automatic numbers out -----

  function NumberRef(ref: Ref, k: nat): (Ref, nat) {
    if ref.Auto? then (Index(k), k + 1) else (ref, k)
  }

  function NumberCount(c: Option<Count>, k: nat): (Option<Count>, nat) {
    if c.Some? && c.value.FromArg? then
      var (ref, next) := NumberRef(c.value.ref, k);
      (Some(FromArg(ref)), next)
    else (c, k)
  }

  function NumberPiece(p: Piece, k: nat): (Piece, nat) {
    match p
    case Literal(_) => (p, k)
    case Field(ref, None) => var (r, next) := NumberRef(ref, k); (Field(r, None), next)
    case Field(ref, Some(spec)) =>
      var (r, k1) := NumberRef(ref, k);
      var (width, k2) := NumberCount(spec.width, k1);
      var (precision, k3) := NumberCount(spec.precision, k2);
      (Field(r, Some(spec.(width := width, precision := precision))), k3)
  }

  function Numbered(pieces: seq<Piece>, k: nat): seq<Piece> {
    if pieces == [] then []
    else [NumberPiece(pieces[0], k).0] + Numbered(pieces[1..], NumberPiece(pieces[0], k).1)
  }

  predicate SameOutput(a: Option<State>, b: Option<State>) {
    (a.Some? <==> b.Some?) && (a.Some? ==> a.value.output == b.value.output)
  }

  lemma CountNumbered(args: seq<Entry>, c: Option<Count>, absent: int, k: nat, e: int)
    requires AllAutomatic(CountRefs(c)) && -1 <= e <= 0
    ensures var a := EvalCount(args, c, absent, k); var b := EvalCount(args, NumberCount(c, k).0, absent, e);
      && (a.Some? <==> b.Some?)
      && (a.Some? ==> a.value.0 == b.value.0 && a.value.1 == NumberCount(c, k).1 && -1 <= b.value.1 <= 0)
  {
    if c.Some? && c.value.FromArg? {
      assert CountRefs(c)[0].Auto?;
    }
  }

  lemma SpecNumbered(args: seq<Entry>, t: ArgType, spec: SpecText, k: nat, e: int)
    requires AllAutomatic(CountRefs(spec.width)) && AllAutomatic(CountRefs(spec.precision)) && -1 <= e <= 0
    ensures var (width, k1) := NumberCount(spec.width, k); var (precision, k2) := NumberCount(spec.precision, k1);
      var a := EvalSpec(args, t, spec, k);
      var b := EvalSpec(args, t, spec.(width := width, precision := precision), e);
      && (a.Some? <==> b.Some?)
      && (a.Some? ==> a.value.0 == b.value.0 && a.value.1 == k2 && -1 <= b.value.1 <= 0)
  {
    CountNumbered(args, spec.width, 0, k, e);
    var b := EvalCount(args, NumberCount(spec.width, k).0, 0, e);
    if b.Some? {
      CountNumbered(args, spec.precision, -1, NumberCount(spec.width, k).1, b.value.1);
    }
  }

  lemma TailNumbered(args: seq<Entry>, render: Renderer, arg: Arg, spec: SpecText, output: string, k: nat, e: int)
    requires AllAutomatic(CountRefs(spec.width)) && AllAutomatic(CountRefs(spec.precision)) && -1 <= e <= 0
    ensures var (width, k1) := NumberCount(spec.width, k); var (precision, k2) := NumberCount(spec.precision, k1);
      var a := EvalTail(args, render, arg, Some(spec), State(output, k));
      var b := EvalTail(args, render, arg, Some(spec.(width := width, precision := precision)), State(output, e));
      SameOutput(a, b) && (a.Some? ==> a.value.next == k2 && -1 <= b.value.next <= 0)
  {
    SpecNumbered(args, arg.typ, spec, k, e);
  }

  lemma FieldRefs(ref: Ref, spec: SpecText)
    requires AllAutomatic(PieceRefs(Field(ref, Some(spec))))
    ensures ref.Auto? && AllAutomatic(CountRefs(spec.width)) && AllAutomatic(CountRefs(spec.precision))
  {
    var refs := PieceRefs(Field(ref, Some(spec)));
    var w, q := CountRefs(spec.width), CountRefs(spec.precision);
    assert refs[0] == ref;
    assert forall i :: 0 <= i < |w| ==> w[i] == refs[1 + i];
    assert forall i :: 0 <= i < |q| ==> q[i] == refs[1 + |w| + i];
  }

  lemma PieceNumbered(args: seq<Entry>, render: Renderer, p: Piece, output: string, k: nat, e: int)
    requires AllAutomatic(PieceRefs(p)) && -1 <= e <= 0
    ensures var a := EvalPiece(args, render, p, State(output, k));
      var b := EvalPiece(args, render, NumberPiece(p, k).0, State(output, e));
      SameOutput(a, b) && (a.Some? ==> a.value.next == NumberPiece(p, k).1 && -1 <= b.value.next <= 0)
  {
    match p
    case Literal(_) =>
    case Field(ref, None) => assert PieceRefs(p)[0].Auto?;
    case Field(ref, Some(spec)) => FieldNumbered(args, render, ref, spec, output, k, e);
  }

  lemma FieldNumbered(args: seq<Entry>, render: Renderer, ref: Ref, spec: SpecText, output: string, k: nat, e: int)
    requires AllAutomatic(PieceRefs(Field(ref, Some(spec)))) && -1 <= e <= 0
    ensures var p := Field(ref, Some(spec));
      var a := EvalPiece(args, render, p, State(output, k));
      var b := EvalPiece(args, render, NumberPiece(p, k).0, State(output, e));
      SameOutput(a, b) && (a.Some? ==> a.value.next == NumberPiece(p, k).1 && -1 <= b.value.next <= 0)
  {
    FieldRefs(ref, spec);
    if k < |args| {
      TailNumbered(args, render, args[k].arg, spec, output, k + 1, -1);
    }
  }

  /** "{} {:{}}" and "{0} {1:{2}}" write the same and fail together. */
  lemma {:induction false} NumberedWritesTheSame(args: seq<Entry>, render: Renderer, pieces: seq<Piece>,
                                                 output: string, k: nat, e: int)
    requires AllAutomatic(Refs(pieces)) && -1 <= e <= 0
    ensures SameOutput(Eval(args, render, pieces, State(output, k)),
                       Eval(args, render, Numbered(pieces, k), State(output, e)))
    decreases |pieces|
  {
    if pieces != [] {
      var p, rest := pieces[0], pieces[1..];
      var refs := Refs(pieces);
      assert forall i :: 0 <= i < |PieceRefs(p)| ==> PieceRefs(p)[i] == refs[i];
      assert forall i :: 0 <= i < |Refs(rest)| ==> Refs(rest)[i] == refs[|PieceRefs(p)| + i];
      PieceNumbered(args, render, p, output, k, e);
      var b := EvalPiece(args, render, NumberPiece(p, k).0, State(output, e));
      assert Numbered(pieces, k)[1..] == Numbered(rest, NumberPiece(p, k).1);
      if b.Some? {
        NumberedWritesTheSame(args, render, rest, b.value.output, NumberPiece(p, k).1, b.value.next);
      }
    }
  }

  // ----- printing pieces -----

  function RefText(ref: Ref): string {
    match ref
    case Auto => ""
    case Index(n) => Decimal(n)
    case Name(name) => name
  }

  function CountText(c: Count): string {
    match c
    case Fixed(n) => Decimal(n)
    case FromArg(ref) => "{" + (RefText(ref) + "}")
  }

  function AlignChar(a: W.Alignment): char
    requires !a.Default?
  {
    match a
    case Left => '<'
    case Right => '>'
    case Numeric => '='
    case Center => '^'
  }

  function WidthText(c: Option<Count>): string {
    if c.Some? then CountText(c.value) else ""
  }

  function PrecisionText(c: Option<Count>): string {
    if c.Some? then "." + CountText(c.value) else ""
  }

  function CharText(c: char): string {
    if c == '\0' then "" else [c]
  }

  function FlagsText(f: Flags): string {
    CharText(f.sign) + ((if f.hash then "#" else "") + (if f.zero then "0" else ""))
  }

  function AlignmentText(a: AlignText): string
    requires a.explicit ==> !a.align.Default?
  {
    if a.explicit then [a.fill, AlignChar(a.align)] else ""
  }

  predicate CanonicalRef(ref: Ref) {
    match ref
    case Auto => true
    case Index(n) => n <= INT_MAX
    case Name(name) => name != "" && IsNameStart(name[0]) && forall c :: c in name ==> IsNameChar(c)
  }

  predicate CanonicalCount(c: Option<Count>) {
    match c
    case None => true
    case Some(Fixed(n)) => n <= INT_MAX
    case Some(FromArg(ref)) => CanonicalRef(ref)
  }

  /** Specifications whose text can be read in one way only; one that asks for nothing
      is written as the absent specification. */
  predicate CanonicalSpec(s: SpecText) {
    && (if s.align.explicit then !s.align.align.Default? && s.align.fill !in "{}\0" else s.align == NO_ALIGN)
    && (s.flags.sign == '\0' || s.flags.sign == '+' || s.flags.sign == '-' || s.flags.sign == ' ')
    && CanonicalCount(s.width) && (s.width == Some(Fixed(0)) ==> s.flags.zero)
    && CanonicalCount(s.precision)
    && (s.typ == '\0' || IsNameStart(s.typ))
    && s != SpecText(NO_ALIGN, Flags('\0', false, false), None, None, '\0')
  }

  function SpecString(s: SpecText): string
    requires CanonicalSpec(s)
  {
    AlignmentText(s.align) + (FlagsText(s.flags) + (WidthText(s.width) + (PrecisionText(s.precision) + CharText(s.typ))))
  }

  function TailText(spec: Option<SpecText>): string
    requires spec.Some? ==> CanonicalSpec(spec.value)
  {
    if spec.Some? then ":" + (SpecString(spec.value) + "}") else "}"
  }

  predicate CanonicalPiece(p: Piece) {
    match p
    case Literal(c) => c != '\0'
    case Field(ref, spec) => CanonicalRef(ref) && (spec.Some? ==> CanonicalSpec(spec.value))
  }

  function PieceText(p: Piece): string
    requires CanonicalPiece(p)
  {
    match p
    case Literal(c) => if IsBrace(c) then [c, c] else [c]
    case Field(ref, spec) => "{" + (RefText(ref) + TailText(spec))
  }

  function Text(pieces: seq<Piece>): string
    requires forall i :: 0 <= i < |pieces| ==> CanonicalPiece(pieces[i])
  {
    if pieces == [] then "" else PieceText(pieces[0]) + Text(pieces[1..])
  }

  // ----- reading printed pieces -----

  lemma {:induction false} WholeName(name: string, rest: string)
    requires (forall c :: c in name ==> IsNameChar(c)) && !IsNameChar(Peek(rest))
    ensures NameRun(name + rest) == |name| && (name + rest)[..|name|] == name && (name + rest)[|name|..] == rest
    decreases |name|
  {
    if name == "" {
      assert name + rest == rest;
    } else {
      assert (name + rest)[1..] == name[1..] + rest && name[0] in name;
      WholeName(name[1..], rest);
    }
  }

  lemma RefReads(ref: Ref, rest: string)
    requires CanonicalRef(ref) && !IsNameChar(Peek(rest))
    ensures ParseRef(RefText(ref) + rest) == Got(ref, rest)
  {
    match ref
    case Auto => assert "" + rest == rest;
    case Index(n) =>
      NumberReadsBack(n, rest);
      DecimalStarts(n, rest);
    case Name(name) =>
      WholeName(name, rest);
      assert (name + rest)[0] == name[0];
  }

  lemma DecimalStarts(n: nat, rest: string)
    ensures IsDigit(Peek(Decimal(n) + rest)) && Peek(Decimal(n) + rest) == Decimal(n)[0]
    ensures Peek(Decimal(n) + rest) == '0' ==> n == 0
  {
    DecimalDigits(n);
    assert (Decimal(n) + rest)[0] == Decimal(n)[0] && Decimal(n)[0] in Decimal(n);
  }

  lemma NestedReads(ref: Ref, rest: string)
    requires CanonicalRef(ref)
    ensures ParseCount("{" + (RefText(ref) + "}") + rest) == Got(Some(FromArg(ref)), rest)
  {
    var end := "}" + rest;
    RefReads(ref, end);
    Regroup("{", RefText(ref) + "}", rest);
    Regroup(RefText(ref), "}", rest);
    NestedStep(ref, RefText(ref) + end, rest);
  }

  lemma NestedStep(ref: Ref, inner: string, rest: string)
    requires ParseRef(inner) == Got(ref, "}" + rest)
    ensures ParseCount("{" + inner) == Got(Some(FromArg(ref)), rest)
  {
    assert ("{" + inner)[1..] == inner && ("}" + rest)[1..] == rest;
  }

  lemma CountReads(c: Count, rest: string)
    requires CanonicalCount(Some(c)) && !IsDigit(Peek(rest))
    ensures ParseCount(CountText(c) + rest) == Got(Some(c), rest)
  {
    match c
    case Fixed(n) =>
      NumberReadsBack(n, rest);
      DecimalStarts(n, rest);
    case FromArg(ref) =>
      NestedReads(ref, rest);
  }

  lemma CountStarts(c: Count, rest: string)
    ensures CountText(c) != "" && (Peek(CountText(c) + rest) == '{' || IsDigit(Peek(CountText(c) + rest)))
    ensures Peek(CountText(c) + rest) == '0' ==> c == Fixed(0)
  {
    match c
    case Fixed(n) => DecimalStarts(n, rest);
    case FromArg(ref) => assert (CountText(c) + rest)[0] == '{';
  }

  lemma WidthReads(c: Option<Count>, rest: string)
    requires CanonicalCount(c) && !IsDigit(Peek(rest)) && Peek(rest) != '{'
    ensures ParseCount(WidthText(c) + rest) == Got(c, rest)
  {
    if c.Some? {
      CountReads(c.value, rest);
    } else {
      assert "" + rest == rest;
    }
  }

  lemma DotStep(c: Option<Count>, x: string, rest: string)
    requires c.Some? && ParseCount(x) == Got(c, rest)
    ensures ParsePrecision("." + x) == Got(c, rest)
  {
    assert ("." + x)[1..] == x;
  }

  lemma PrecisionReads(c: Option<Count>, rest: string)
    requires CanonicalCount(c) && !IsDigit(Peek(rest)) && Peek(rest) != '.'
    ensures ParsePrecision(PrecisionText(c) + rest) == Got(c, rest)
    ensures Peek(PrecisionText(c) + rest) == if c.Some? then '.' else Peek(rest)
  {
    if c.Some? {
      CountReads(c.value, rest);
      DotStep(c, CountText(c.value) + rest, rest);
      Regroup(".", CountText(c.value), rest);
    } else {
      assert "" + rest == rest;
    }
  }

  predicate IsSign(c: char) {
    c == '+' || c == '-' || c == ' '
  }

  lemma FlagsRead(f: Flags, s: string, s1: string, s2: string, rest: string)
    requires f.sign == '\0' || IsSign(f.sign)
    requires !IsSign(Peek(rest)) && Peek(rest) != '#' && (Peek(rest) == '0' ==> f.zero)
    requires s == CharText(f.sign) + s1
    requires s1 == (if f.hash then "#" else "") + s2
    requires s2 == (if f.zero then "0" else "") + rest
    ensures ParseFlags(s) == (f, rest)
  {
    assert if f.zero then s2[1..] == rest else s2 == rest;
    assert if f.hash then s1[1..] == s2 else s1 == s2;
    assert if f.sign != '\0' then s[1..] == s1 else s == s1;
  }

  lemma FlagsReadBack(f: Flags, rest: string)
    requires f.sign == '\0' || IsSign(f.sign)
    requires !IsSign(Peek(rest)) && Peek(rest) != '#' && (Peek(rest) == '0' ==> f.zero)
    ensures ParseFlags(FlagsText(f) + rest) == (f, rest)
  {
    var hash, zero := if f.hash then "#" else "", if f.zero then "0" else "";
    FlagsRead(f, CharText(f.sign) + (hash + (zero + rest)), hash + (zero + rest), zero + rest, rest);
    Regroup(hash, zero, rest);
    Regroup(CharText(f.sign), hash + zero, rest);
  }

  /** No alignment character: what may follow an alignment that is not there. */
  predicate NoAlignIn(s: string) {
    forall i :: 0 <= i < |s| ==> AlignOf(s[i]).Default?
  }

  lemma AlignReads(a: AlignText, body: string, rest: string)
    requires if a.explicit then !a.align.Default? && a.fill !in "{}\0" else a == NO_ALIGN
    requires a.explicit || (|body| >= 1 && NoAlignIn(body))
    ensures ParseAlign(AlignmentText(a) + (body + ("}" + rest))) == Got(a, body + ("}" + rest))
  {
    var tail := body + ("}" + rest);
    if a.explicit {
      var s := AlignmentText(a) + tail;
      assert s[0] == a.fill && s[1] == AlignChar(a.align) && s[2..] == tail;
    } else {
      assert "" + tail == tail;
      assert tail[0] == body[0] && tail[1] == if |body| > 1 then body[1] else '}';
    }
  }

  lemma DecimalHasNoAlign(n: nat)
    ensures NoAlignIn(Decimal(n))
  {
    DecimalDigits(n);
    assert forall i :: 0 <= i < |Decimal(n)| ==> Decimal(n)[i] in Decimal(n);
  }

  lemma RefHasNoAlign(ref: Ref)
    requires CanonicalRef(ref)
    ensures NoAlignIn(RefText(ref))
  {
    match ref
    case Auto =>
    case Index(n) => DecimalHasNoAlign(n);
    case Name(name) =>
      assert forall i :: 0 <= i < |name| ==> name[i] in name;
  }

  lemma CountHasNoAlign(c: Option<Count>)
    requires CanonicalCount(c)
    ensures NoAlignIn(WidthText(c)) && NoAlignIn(PrecisionText(c))
  {
    match c
    case None =>
    case Some(Fixed(n)) => DecimalHasNoAlign(n);
    case Some(FromArg(ref)) => RefHasNoAlign(ref);
  }

  function BodyText(s: SpecText): string {
    FlagsText(s.flags) + (WidthText(s.width) + (PrecisionText(s.precision) + CharText(s.typ)))
  }

  lemma BodyHasNoAlign(s: SpecText)
    requires CanonicalSpec(s)
    ensures NoAlignIn(BodyText(s))
  {
    CountHasNoAlign(s.width);
    CountHasNoAlign(s.precision);
    var end := PrecisionText(s.precision) + CharText(s.typ);
    NoAlignAppend(PrecisionText(s.precision), CharText(s.typ));
    NoAlignAppend(WidthText(s.width), end);
    NoAlignAppend(FlagsText(s.flags), WidthText(s.width) + end);
  }

  lemma NoAlignAppend(a: string, b: string)
    requires NoAlignIn(a) && NoAlignIn(b)
    ensures NoAlignIn(a + b)
  {
  }

  lemma BodyIsNotEmpty(s: SpecText)
    requires CanonicalSpec(s) && !s.align.explicit
    ensures |BodyText(s)| >= 1
  {
    if s.width.Some? {
      CountStarts(s.width.value, "");
    }
  }

  lemma TypeReads(typ: char, rest: string)
    requires typ == '\0' || IsNameStart(typ)
    ensures ParseType(CharText(typ) + ("}" + rest)) == (typ, "}" + rest)
    ensures Peek(CharText(typ) + ("}" + rest)) == if typ == '\0' then '}' else typ
  {
    if typ == '\0' {
      assert "" + ("}" + rest) == "}" + rest;
    }
  }

  /** The stages of a specification, each leaving the text of the next. */
  lemma Stages(s: SpecText, t0: string, t1: string, t2: string, t3: string, t4: string, t5: string)
    requires ParseAlign(t0) == Got(s.align, t1) && ParseFlags(t1) == (s.flags, t2)
    requires ParseCount(t2) == Got(s.width, t3) && ParsePrecision(t3) == Got(s.precision, t4)
    requires ParseType(t4) == (s.typ, t5)
    ensures ParseSpec(t0) == Got(s, t5)
  {
  }

  lemma AlignStage(s: SpecText, rest: string)
    requires CanonicalSpec(s)
    ensures ParseAlign(SpecString(s) + ("}" + rest)) == Got(s.align, BodyText(s) + ("}" + rest))
  {
    BodyHasNoAlign(s);
    if !s.align.explicit {
      BodyIsNotEmpty(s);
    }
    AlignReads(s.align, BodyText(s), rest);
    Regroup(AlignmentText(s.align), BodyText(s), "}" + rest);
  }

  lemma CountStages(s: SpecText, rest: string)
    requires CanonicalSpec(s)
    ensures var t5 := "}" + rest; var t4 := CharText(s.typ) + t5; var t3 := PrecisionText(s.precision) + t4;
      && ParseType(t4) == (s.typ, t5)
      && ParsePrecision(t3) == Got(s.precision, t4)
      && ParseCount(WidthText(s.width) + t3) == Got(s.width, t3)
  {
    var t4 := CharText(s.typ) + ("}" + rest);
    TypeReads(s.typ, rest);
    PrecisionReads(s.precision, t4);
    WidthReads(s.width, PrecisionText(s.precision) + t4);
  }

  lemma FlagsStage(s: SpecText, rest: string)
    requires CanonicalSpec(s)
    ensures var t5 := "}" + rest; var t2 := WidthText(s.width) + (PrecisionText(s.precision) + (CharText(s.typ) + t5));
      ParseFlags(BodyText(s) + t5) == (s.flags, t2)
  {
    var t5 := "}" + rest;
    var t4 := CharText(s.typ) + t5;
    var t3 := PrecisionText(s.precision) + t4;
    TypeReads(s.typ, rest);
    PrecisionReads(s.precision, t4);
    FirstOfWidth(s, t3);
    FlagsReadBack(s.flags, WidthText(s.width) + t3);
    BodyGroups(s, t5);
  }

  lemma SpecReads(s: SpecText, rest: string)
    requires CanonicalSpec(s)
    ensures ParseSpec(SpecString(s) + ("}" + rest)) == Got(s, "}" + rest)
  {
    var t5 := "}" + rest;
    var t4 := CharText(s.typ) + t5;
    var t3 := PrecisionText(s.precision) + t4;
    var t2 := WidthText(s.width) + t3;
    var t1 := BodyText(s) + t5;
    CountStages(s, rest);
    FlagsStage(s, rest);
    AlignStage(s, rest);
    Stages(s, SpecString(s) + t5, t1, t2, t3, t4, t5);
  }

  lemma BodyGroups(s: SpecText, end: string)
    ensures BodyText(s) + end
         == FlagsText(s.flags) + (WidthText(s.width) + (PrecisionText(s.precision) + (CharText(s.typ) + end)))
  {
  }

  /** Only the zero flag can stand before a width that starts with 0. */
  lemma FirstOfWidth(s: SpecText, t3: string)
    requires CanonicalSpec(s) && !IsSign(Peek(t3)) && Peek(t3) != '#' && Peek(t3) != '0'
    ensures !IsSign(Peek(WidthText(s.width) + t3)) && Peek(WidthText(s.width) + t3) != '#'
    ensures Peek(WidthText(s.width) + t3) == '0' ==> s.flags.zero
  {
    if s.width.Some? {
      CountStarts(s.width.value, t3);
    } else {
      assert "" + t3 == t3;
    }
  }

  lemma ColonStep(spec: SpecText, x: string, rest: string)
    requires ParseSpec(x) == Got(spec, "}" + rest)
    ensures ParseTail(":" + x) == Got(Some(spec), rest)
  {
    assert (":" + x)[1..] == x && ("}" + rest)[1..] == rest;
  }

  lemma TailReads(spec: Option<SpecText>, rest: string)
    requires spec.Some? ==> CanonicalSpec(spec.value)
    ensures ParseTail(TailText(spec) + rest) == Got(spec, rest)
    ensures Peek(TailText(spec) + rest) == if spec.Some? then ':' else '}'
  {
    if spec.Some? {
      var x := SpecString(spec.value) + ("}" + rest);
      SpecReads(spec.value, rest);
      ColonStep(spec.value, x, rest);
      Regroup(SpecString(spec.value), "}", rest);
      Regroup(":", SpecString(spec.value) + "}", rest);
    } else {
      assert ("}" + rest)[1..] == rest;
    }
  }

  lemma FieldStep(ref: Ref, spec: Option<SpecText>, x: string, t: string, rest: string)
    requires ParseRef(x) == Got(ref, t) && ParseTail(t) == Got(spec, rest)
    ensures ParseField(x) == Got(Field(ref, spec), rest) && ("{" + x)[1..] == x
  {
  }

  lemma FieldReads(ref: Ref, spec: Option<SpecText>, rest: string)
    requires CanonicalPiece(Field(ref, spec))
    ensures var s := PieceText(Field(ref, spec)) + rest;
      s[0] == '{' && Peek(s[1..]) != '{' && ParseField(s[1..]) == Got(Field(ref, spec), rest)
  {
    var tail := TailText(spec) + rest;
    var x := RefText(ref) + tail;
    TailReads(spec, rest);
    RefReads(ref, tail);
    RefStarts(ref, tail);
    FieldStep(ref, spec, x, tail, rest);
    Regroup(RefText(ref), TailText(spec), rest);
    Regroup("{", RefText(ref) + TailText(spec), rest);
  }

  lemma RefStarts(ref: Ref, tail: string)
    requires CanonicalRef(ref) && Peek(tail) != '{'
    ensures Peek(RefText(ref) + tail) != '{'
  {
    match ref
    case Auto => assert "" + tail == tail;
    case Index(n) => DecimalStarts(n, tail);
    case Name(name) => assert (name + tail)[0] == name[0];
  }

  function PrependAll(pieces: seq<Piece>, tail: Option<seq<Piece>>): Option<seq<Piece>> {
    if tail.Some? then Some(pieces + tail.value) else None
  }

  lemma PrependMore(p: Piece, pieces: seq<Piece>, tail: Option<seq<Piece>>)
    ensures Prepend(p, PrependAll(pieces, tail)) == PrependAll([p] + pieces, tail)
  {
    if tail.Some? {
      Regroup([p], pieces, tail.value);
    }
  }

  lemma PieceReads(p: Piece, rest: string)
    requires CanonicalPiece(p)
    ensures ParsePieces(PieceText(p) + rest) == Prepend(p, ParsePieces(rest))
  {
    var s := PieceText(p) + rest;
    match p
    case Field(ref, spec) => FieldReads(ref, spec, rest);
    case Literal(c) =>
      if IsBrace(c) {
        assert s[0] == c && s[1] == c && s[2..] == rest;
      } else {
        assert s[0] == c && s[1..] == rest;
      }
  }

  /** Printed pieces read as themselves, whatever follows them. */
  lemma {:induction false} TextReadsOn(pieces: seq<Piece>, rest: string)
    requires forall i :: 0 <= i < |pieces| ==> CanonicalPiece(pieces[i])
    ensures ParsePieces(Text(pieces) + rest) == PrependAll(pieces, ParsePieces(rest))
    decreases |pieces|
  {
    if pieces == [] {
      DropEmpty(rest);
      if ParsePieces(rest).Some? {
        DropEmpty(ParsePieces(rest).value);
      }
    } else {
      TextReadsOn(pieces[1..], rest);
      PieceReads(pieces[0], Text(pieces[1..]) + rest);
      Regroup(PieceText(pieces[0]), Text(pieces[1..]), rest);
      PrependMore(pieces[0], pieces[1..], ParsePieces(rest));
      assert [pieces[0]] + pieces[1..] == pieces;
    }
  }

  /** The printed pieces read back as themselves. */
  lemma TextReadsBack(pieces: seq<Piece>)
    requires forall i :: 0 <= i < |pieces| ==> CanonicalPiece(pieces[i])
    ensures ParsePieces(Text(pieces)) == Some(pieces)
  {
    TextReadsOn(pieces, "");
    assert Text(pieces) + "" == Text(pieces) && pieces + [] == pieces;
  }

  /** A printed format string does what its pieces say, for all arguments. */
  lemma PrintedStringMeansItsPieces(args: seq<Entry>, render: Renderer, pieces: seq<Piece>)
    requires forall i :: 0 <= i < |pieces| ==> CanonicalPiece(pieces[i])
    ensures Reference(args, render, Text(pieces)) == Eval(args, render, pieces, State("", 0))
  {
    TextReadsBack(pieces);
  }

  lemma PieceStaysCanonical(p: Piece, k: nat)
    requires CanonicalPiece(p) && k + |PieceRefs(p)| <= INT_MAX
    ensures CanonicalPiece(NumberPiece(p, k).0) && NumberPiece(p, k).1 <= k + |PieceRefs(p)|
  {
  }

  lemma {:induction false} NumberedStaysCanonical(pieces: seq<Piece>, k: nat)
    requires (forall i :: 0 <= i < |pieces| ==> CanonicalPiece(pieces[i])) && k + |Refs(pieces)| <= INT_MAX
    ensures |Numbered(pieces, k)| == |pieces|
    ensures forall i :: 0 <= i < |pieces| ==> CanonicalPiece(Numbered(pieces, k)[i])
    decreases |pieces|
  {
    if pieces != [] {
      PieceStaysCanonical(pieces[0], k);
      NumberedStaysCanonical(pieces[1..], NumberPiece(pieces[0], k).1);
    }
  }

  /** Writing 0, 1, 2, ... into the fields of an automatically numbered string, nested
      fields included, changes neither what it writes nor whether it throws. */
  lemma AutomaticIsZeroOneTwo(args: seq<Entry>, render: Renderer, pieces: seq<Piece>)
    requires (forall i :: 0 <= i < |pieces| ==> CanonicalPiece(pieces[i])) && |Refs(pieces)| <= INT_MAX
    requires AllAutomatic(Refs(pieces))
    ensures forall i :: 0 <= i < |Numbered(pieces, 0)| ==> CanonicalPiece(Numbered(pieces, 0)[i])
    ensures SameOutput(Reference(args, render, Text(pieces)), Reference(args, render, Text(Numbered(pieces, 0))))
  {
    NumberedStaysCanonical(pieces, 0);
    PrintedStringMeansItsPieces(args, render, pieces);
    PrintedStringMeansItsPieces(args, render, Numbered(pieces, 0));
    NumberedWritesTheSame(args, render, pieces, "", 0, 0);
  }

  /** "{:}" looks one character past its own end: the argument is formatted with the
      alignment that character would stand for, so with the default specification exactly
      when the text behind the field does not begin with one of < > = ^. */
  lemma EmptySpecificationLooksAhead(args: seq<Entry>, t: ArgType, rest: string, next: int)
    ensures var p := ParseTail(":}" + rest);
      && p.Got? && p.rest == rest && p.value.Some?
      && var spec := EvalSpec(args, t, p.value.value, next);
      && spec == Some((DEFAULT_SPEC.(align := AlignOf(Peek(rest))), next))
      && (spec.value.0 == DEFAULT_SPEC <==> Peek(rest) !in "<>=^")
  {
    var s := ":}" + rest;
    var body := "}" + rest;
    assert s[1..] == body && body[1..] == rest;
    assert ParseAlign(body) == Got(AlignText(' ', AlignOf(Peek(rest)), false), body);
  }
}
