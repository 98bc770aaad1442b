// What a format string asks for, said of its pieces without evaluating them: which
// argument a field selects, which specification stands in its text, and that the output
// is what the renderer makes of the one with the other, piece by piece.
module FmtMeaning {
  import opened Lists
  import opened Wrappers
  import opened Numerals
  import opened FmtSyntax
  import opened FmtLaws
  import opened FmtRoundTrip
  import W = FmtWriter

  // ----- arguments -----

  ghost predicate FirstNamed(args: seq<Entry>, name: string, arg: Arg) {
    exists k ::
      && 0 <= k < |args| && args[k].name == Some(name) && args[k].arg == arg
      && forall j :: 0 <= j < k ==> args[j].name != Some(name)
  }

  /** The argument of a reference with `k` references before it. */
  ghost predicate Selects(args: seq<Entry>, ref: Ref, k: nat, arg: Arg) {
    match ref
    case Auto => k < |args| && args[k].arg == arg
    case Index(n) => n < |args| && args[n].arg == arg
    case Name(name) => FirstNamed(args, name, arg)
  }

  predicate Unmixed(refs: seq<Ref>) {
    AllAutomatic(refs) || NoneAutomatic(refs)
  }

  lemma {:induction false} FindIsFirst(args: seq<Entry>, name: string, arg: Arg)
    ensures Find(args, name) == Some(arg) <==> FirstNamed(args, name, arg)
    decreases |args|
  {
    if args != [] && args[0].name != Some(name) {
      var rest := args[1..];
      FindIsFirst(rest, name, arg);
      if FirstNamed(rest, name, arg) {
        var k :| 0 <= k < |rest| && rest[k].name == Some(name) && rest[k].arg == arg
          && forall j :: 0 <= j < k ==> rest[j].name != Some(name);
        assert args[k + 1] == rest[k];
        assert forall j :: 0 < j < k + 1 ==> args[j] == rest[j - 1];
      }
      if FirstNamed(args, name, arg) {
        var k :| 0 <= k < |args| && args[k].name == Some(name) && args[k].arg == arg
          && forall j :: 0 <= j < k ==> args[j].name != Some(name);
        assert rest[k - 1] == args[k];
        assert forall j :: 0 <= j < k - 1 ==> rest[j] == args[j + 1];
      }
    }
  }

  // ----- specifications -----

  predicate IsWhole(t: ArgType) {
    t.Int? || t.UInt? || t.LongLong? || t.ULongLong?
  }

  /** A width or a precision: absent, as written, or the value of an integer argument
      between 0 and the largest int. */
  ghost predicate CountStands(args: seq<Entry>, c: Option<Count>, absent: int, k: nat, n: int) {
    match c
    case None => n == absent
    case Some(Fixed(m)) => n == m
    case Some(FromArg(ref)) =>
      exists arg :: Selects(args, ref, k, arg) && IsWhole(arg.typ) && 0 <= arg.value <= 0x7FFF_FFFF && n == arg.value
  }

  /** Which argument types accept a specification. */
  predicate Accepts(t: ArgType, s: SpecText) {
    && (s.flags.sign != '\0' ==> t in {Int, LongLong, Bool, Char, Double, LongDouble})
    && (s.flags.hash || s.flags.zero || (s.align.explicit && s.align.align == W.Numeric) ==>
          t in {Int, UInt, LongLong, ULongLong, Bool, Char, Double, LongDouble})
    && (s.precision.Some? ==> t in {Double, LongDouble, CString, String, WString})
  }

  /** The specification handed to the argument formatter: with the zero flag it fills with
      zeros between sign and digits, otherwise with fill and alignment as written; sign, '#'
      and type are as written, and so are width and precision or the arguments they name. */
  ghost predicate Stands(args: seq<Entry>, t: ArgType, text: Option<SpecText>, k: nat, st: Spec) {
    match text
    case None => st == Spec(0, -1, ' ', W.Default, '\0', false, '\0')
    case Some(s) =>
      && Accepts(t, s)
      && (if s.flags.zero then st.fill == '0' && st.align == W.Numeric
          else st.fill == s.align.fill && st.align == s.align.align)
      && st.sign == s.flags.sign && st.hash == s.flags.hash && st.typ == s.typ
      && CountStands(args, s.width, 0, k, st.width)
      && CountStands(args, s.precision, -1, k + |CountRefs(s.width)|, st.precision)
  }

  // ----- pieces -----

  /** The text that a piece with `k` references before it contributes. */
  ghost predicate Contributes(args: seq<Entry>, render: Renderer, p: Piece, k: nat, chunk: string) {
    match p
    case Literal(c) => chunk == [c]
    case Field(ref, text) =>
      exists arg, st ::
        Selects(args, ref, k, arg) && Stands(args, arg.typ, text, k + 1, st) && render(arg, st) == Some(chunk)
  }

  ghost predicate ContributeAll(args: seq<Entry>, render: Renderer, pieces: seq<Piece>, k: nat, chunks: seq<string>) {
    && |chunks| == |pieces|
    && (pieces != [] ==>
          && Contributes(args, render, pieces[0], k, chunks[0])
          && ContributeAll(args, render, pieces[1..], k + |PieceRefs(pieces[0])|, chunks[1..]))
  }

  function Joined(chunks: seq<string>): string {
    if chunks == [] then "" else chunks[0] + Joined(chunks[1..])
  }

  /** The pieces ask for this output. */
  ghost predicate AsksFor(args: seq<Entry>, render: Renderer, pieces: seq<Piece>, output: string) {
    Unmixed(Refs(pieces)) && exists chunks :: ContributeAll(args, render, pieces, 0, chunks) && output == Joined(chunks)
  }

  // ----- the scanner's state says the same -----

  /** The index state `next` after `k` references, when the others are all automatic or
      all explicit. */
  predicate InMode(auto: bool, refs: seq<Ref>, next: int, k: nat) {
    if auto then AllAutomatic(refs) && next == k else NoneAutomatic(refs) && -1 <= next <= 0
  }

  lemma ModeSplit(auto: bool, a: seq<Ref>, b: seq<Ref>, next: int, k: nat)
    requires InMode(auto, a + b, next, k)
    ensures InMode(auto, a, next, k)
    ensures auto ==> AllAutomatic(b)
    ensures !auto ==> NoneAutomatic(b)
  {
    assert forall i :: 0 <= i < |a| ==> a[i] == (a + b)[i];
    assert forall i :: 0 <= i < |b| ==> b[i] == (a + b)[|a| + i];
  }

  lemma LookupSelects(auto: bool, args: seq<Entry>, ref: Ref, next: int, k: nat, arg: Arg)
    requires InMode(auto, [ref], next, k)
    ensures Selects(args, ref, k, arg) <==> Lookup(args, ref, next).Some? && Lookup(args, ref, next).value.0 == arg
  {
    assert [ref][0] == ref;
    if ref.Name? {
      FindIsFirst(args, ref.name, arg);
    }
  }

  lemma LookupKeepsMode(auto: bool, args: seq<Entry>, ref: Ref, next: int, k: nat)
    requires InMode(auto, [ref], next, k) && Lookup(args, ref, next).Some?
    ensures InMode(auto, [], Lookup(args, ref, next).value.1, k + 1)
  {
    assert [ref][0] == ref;
  }

  lemma CountMeans(auto: bool, args: seq<Entry>, c: Option<Count>, absent: int, next: int, k: nat, n: int)
    requires InMode(auto, CountRefs(c), next, k)
    ensures CountStands(args, c, absent, k, n) <==>
      EvalCount(args, c, absent, next).Some? && EvalCount(args, c, absent, next).value.0 == n
  {
    if c.Some? && c.value.FromArg? {
      var ref := c.value.ref;
      assert CountRefs(c) == [ref];
      if Lookup(args, ref, next).Some? {
        LookupSelects(auto, args, ref, next, k, Lookup(args, ref, next).value.0);
      }
      if CountStands(args, c, absent, k, n) {
        var arg :| Selects(args, ref, k, arg) && IsWhole(arg.typ) && 0 <= arg.value <= 0x7FFF_FFFF && n == arg.value;
        LookupSelects(auto, args, ref, next, k, arg);
      }
    }
  }

  lemma CountKeepsMode(auto: bool, args: seq<Entry>, c: Option<Count>, absent: int, next: int, k: nat)
    requires InMode(auto, CountRefs(c), next, k) && EvalCount(args, c, absent, next).Some?
    ensures InMode(auto, [], EvalCount(args, c, absent, next).value.1, k + |CountRefs(c)|)
  {
    if c.Some? && c.value.FromArg? {
      assert CountRefs(c) == [c.value.ref];
      LookupKeepsMode(auto, args, c.value.ref, next, k);
    }
  }

  /** The conditions in the scanner's terms. */
  lemma AcceptsIff(t: ArgType, s: SpecText)
    ensures Accepts(t, s) <==>
      && AlignAllowed(s.align, t) && FlagsAllowed(s.flags, t)
      && !(s.precision.Some? && (IsInteger(t) || t.Pointer?))
  {
  }

  lemma CountsMean(auto: bool, args: seq<Entry>, s: SpecText, next: int, k: nat, w: int, p: int)
    requires InMode(auto, CountRefs(s.width) + CountRefs(s.precision), next, k)
    ensures var a := EvalCount(args, s.width, 0, next);
      CountStands(args, s.width, 0, k, w) && CountStands(args, s.precision, -1, k + |CountRefs(s.width)|, p) <==>
        a.Some? && a.value.0 == w && EvalCount(args, s.precision, -1, a.value.1).Some?
        && EvalCount(args, s.precision, -1, a.value.1).value.0 == p
  {
    ModeSplit(auto, CountRefs(s.width), CountRefs(s.precision), next, k);
    CountMeans(auto, args, s.width, 0, next, k, w);
    var a := EvalCount(args, s.width, 0, next);
    if a.Some? {
      CountKeepsMode(auto, args, s.width, 0, next, k);
      CountMeans(auto, args, s.precision, -1, a.value.1, k + |CountRefs(s.width)|, p);
    }
  }

  lemma SpecMeans(auto: bool, args: seq<Entry>, t: ArgType, s: SpecText, next: int, k: nat, st: Spec)
    requires InMode(auto, CountRefs(s.width) + CountRefs(s.precision), next, k)
    ensures Stands(args, t, Some(s), k, st) <==>
      EvalSpec(args, t, s, next).Some? && EvalSpec(args, t, s, next).value.0 == st
  {
    AcceptsIff(t, s);
    CountsMean(auto, args, s, next, k, st.width, st.precision);
  }

  lemma SpecKeepsMode(auto: bool, args: seq<Entry>, t: ArgType, s: SpecText, next: int, k: nat)
    requires InMode(auto, CountRefs(s.width) + CountRefs(s.precision), next, k) && EvalSpec(args, t, s, next).Some?
    ensures InMode(auto, [], EvalSpec(args, t, s, next).value.1, k + |CountRefs(s.width)| + |CountRefs(s.precision)|)
  {
    ModeSplit(auto, CountRefs(s.width), CountRefs(s.precision), next, k);
    CountKeepsMode(auto, args, s.width, 0, next, k);
    var a := EvalCount(args, s.width, 0, next);
    CountKeepsMode(auto, args, s.precision, -1, a.value.1, k + |CountRefs(s.width)|);
  }

  /** What follows the argument, given the argument. */
  function TailRefs(text: Option<SpecText>): seq<Ref> {
    if text.Some? then CountRefs(text.value.width) + CountRefs(text.value.precision) else []
  }

  lemma FieldRefsOf(ref: Ref, text: Option<SpecText>)
    ensures PieceRefs(Field(ref, text)) == [ref] + TailRefs(text)
  {
    if text.Some? {
      Regroup([ref], CountRefs(text.value.width), CountRefs(text.value.precision));
    }
  }

  lemma TailMeans(auto: bool, args: seq<Entry>, render: Renderer, arg: Arg, text: Option<SpecText>, next: int, k: nat,
                  output: string, st: Spec, chunk: string)
    requires InMode(auto, TailRefs(text), next, k)
    requires Stands(args, arg.typ, text, k, st) && render(arg, st) == Some(chunk)
    ensures var r := EvalTail(args, render, arg, text, State(output, next));
      r.Some? && r.value.output == output + chunk && InMode(auto, [], r.value.next, k + |TailRefs(text)|)
  {
    if text.Some? {
      SpecMeans(auto, args, arg.typ, text.value, next, k, st);
      SpecKeepsMode(auto, args, arg.typ, text.value, next, k);
    }
  }

  lemma TailIsMeant(auto: bool, args: seq<Entry>, render: Renderer, arg: Arg, text: Option<SpecText>, next: int, k: nat,
                    output: string) returns (st: Spec, chunk: string)
    requires InMode(auto, TailRefs(text), next, k)
    requires EvalTail(args, render, arg, text, State(output, next)).Some?
    ensures Stands(args, arg.typ, text, k, st) && render(arg, st) == Some(chunk)
  {
    if text.Some? {
      st := EvalSpec(args, arg.typ, text.value, next).value.0;
      SpecMeans(auto, args, arg.typ, text.value, next, k, st);
    } else {
      st := DEFAULT_SPEC;
    }
    chunk := render(arg, st).value;
  }

  /** What a piece contributes is what the scanner appends for it. */
  lemma PieceMeans(auto: bool, args: seq<Entry>, render: Renderer, p: Piece, st: State, k: nat, chunk: string)
    requires InMode(auto, PieceRefs(p), st.next, k) && Contributes(args, render, p, k, chunk)
    ensures var r := EvalPiece(args, render, p, st);
      r.Some? && r.value.output == st.output + chunk && InMode(auto, [], r.value.next, k + |PieceRefs(p)|)
  {
    if p.Field? {
      var arg, full :| Selects(args, p.ref, k, arg) && Stands(args, arg.typ, p.spec, k + 1, full)
        && render(arg, full) == Some(chunk);
      FieldRefsOf(p.ref, p.spec);
      ModeSplit(auto, [p.ref], TailRefs(p.spec), st.next, k);
      LookupSelects(auto, args, p.ref, st.next, k, arg);
      LookupKeepsMode(auto, args, p.ref, st.next, k);
      TailMeans(auto, args, render, arg, p.spec, Lookup(args, p.ref, st.next).value.1, k + 1, st.output, full, chunk);
    }
  }

  /** And conversely. */
  lemma PieceIsMeant(auto: bool, args: seq<Entry>, render: Renderer, p: Piece, st: State, k: nat) returns (chunk: string)
    requires InMode(auto, PieceRefs(p), st.next, k) && EvalPiece(args, render, p, st).Some?
    ensures Contributes(args, render, p, k, chunk)
  {
    match p
    case Literal(c) => chunk := [c];
    case Field(ref, text) =>
      FieldRefsOf(ref, text);
      ModeSplit(auto, [ref], TailRefs(text), st.next, k);
      var found := Lookup(args, ref, st.next).value;
      LookupSelects(auto, args, ref, st.next, k, found.0);
      LookupKeepsMode(auto, args, ref, st.next, k);
      var full;
      full, chunk := TailIsMeant(auto, args, render, found.0, text, found.1, k + 1, st.output);
  }

  lemma {:induction false} AllMean(auto: bool, args: seq<Entry>, render: Renderer, pieces: seq<Piece>, st: State, k: nat,
                                   chunks: seq<string>)
    requires InMode(auto, Refs(pieces), st.next, k) && ContributeAll(args, render, pieces, k, chunks)
    ensures Eval(args, render, pieces, st).Some?
    ensures Eval(args, render, pieces, st).value.output == st.output + Joined(chunks)
    decreases |pieces|
  {
    if pieces == [] {
      assert st.output + "" == st.output;
    } else {
      ModeSplit(auto, PieceRefs(pieces[0]), Refs(pieces[1..]), st.next, k);
      PieceMeans(auto, args, render, pieces[0], st, k, chunks[0]);
      AllMean(auto, args, render, pieces[1..], EvalPiece(args, render, pieces[0], st).value,
        k + |PieceRefs(pieces[0])|, chunks[1..]);
      Regroup(st.output, chunks[0], Joined(chunks[1..]));
    }
  }

  lemma {:induction false} AllAreMeant(auto: bool, args: seq<Entry>, render: Renderer, pieces: seq<Piece>, st: State, k: nat)
    returns (chunks: seq<string>)
    requires InMode(auto, Refs(pieces), st.next, k) && Eval(args, render, pieces, st).Some?
    ensures ContributeAll(args, render, pieces, k, chunks)
    decreases |pieces|
  {
    chunks := [];
    if pieces != [] {
      ModeSplit(auto, PieceRefs(pieces[0]), Refs(pieces[1..]), st.next, k);
      var chunk := PieceIsMeant(auto, args, render, pieces[0], st, k);
      PieceMeans(auto, args, render, pieces[0], st, k, chunk);
      var rest := AllAreMeant(auto, args, render, pieces[1..], EvalPiece(args, render, pieces[0], st).value,
        k + |PieceRefs(pieces[0])|);
      chunks := [chunk] + rest;
      assert chunks[1..] == rest;
    }
  }

  // ----- main results -----

  /** Pieces are written as the output they ask for, and throw if and only if they ask for none. */
  lemma PiecesMean(args: seq<Entry>, render: Renderer, pieces: seq<Piece>, output: string)
    ensures var r := Eval(args, render, pieces, State("", 0));
      AsksFor(args, render, pieces, output) <==> r.Some? && r.value.output == output
  {
    var r := Eval(args, render, pieces, State("", 0));
    if AsksFor(args, render, pieces, output) {
      var chunks :| ContributeAll(args, render, pieces, 0, chunks) && output == Joined(chunks);
      AllMean(AllAutomatic(Refs(pieces)), args, render, pieces, State("", 0), 0, chunks);
      DropEmpty(output);
    }
    if r.Some? {
      RunFromStart(args, render, pieces);
      var chunks := AllAreMeant(AllAutomatic(Refs(pieces)), args, render, pieces, State("", 0), 0);
      AllMean(AllAutomatic(Refs(pieces)), args, render, pieces, State("", 0), 0, chunks);
      DropEmpty(Joined(chunks));
    }
  }

  /** So for every format string printed from its pieces. */
  lemma FormatMeans(args: seq<Entry>, render: Renderer, pieces: seq<Piece>, output: string)
    requires forall i :: 0 <= i < |pieces| ==> CanonicalPiece(pieces[i])
    ensures var r := Reference(args, render, Text(pieces));
      AsksFor(args, render, pieces, output) <==> r.Some? && r.value.output == output
  {
    PrintedStringMeansItsPieces(args, render, pieces);
    PiecesMean(args, render, pieces, output);
  }

  // ----- integers -----

  /** The parts of a specification that write_int uses. */
  function IntSpec(st: Spec): W.FormatSpec {
    W.FormatSpec(st.width, st.fill, st.align, st.sign == '+' || st.sign == ' ', st.sign == '+', st.hash, false, st.typ)
  }

  /** An argument formatter that hands integers to write_int. */
  ghost predicate WritesIntegers(render: Renderer) {
    forall arg: Arg, st: Spec :: IsWhole(arg.typ) ==>
      render(arg, st) == if W.IsIntType(st.typ) then Some(W.IntField(arg.value, IntSpec(st))) else None
  }

  /** Behind sign and base prefix stands nothing but one numeral of the value's magnitude,
      every character a digit of the base, and the field is as wide as asked for. */
  predicate IsZeroPadded(value: int, st: Spec, text: string) {
    var prefix := W.SignText(value, IntSpec(st)) + W.BaseText(IntSpec(st));
    && W.IsIntType(st.typ) && prefix <= text && |text| >= st.width
    && Denotes(text[|prefix|..], W.Base(st.typ)) == W.Magnitude(value)
    && forall i :: |prefix| <= i < |text| ==> DigitValue(text[i]) < W.Base(st.typ)
  }

  lemma ZeroPadded(value: int, st: Spec)
    requires st.fill == '0' && st.align == W.Numeric && W.IsIntType(st.typ)
    ensures IsZeroPadded(value, st, W.IntField(value, IntSpec(st)))
  {
    W.ZeroPaddingKeepsValue(value, IntSpec(st));
    W.FieldMeansValue(value, IntSpec(st));
  }

  lemma RenderedPadded(render: Renderer, arg: Arg, st: Spec, chunk: string)
    requires WritesIntegers(render) && IsWhole(arg.typ) && render(arg, st) == Some(chunk)
    requires st.fill == '0' && st.align == W.Numeric
    ensures IsZeroPadded(arg.value, st, chunk)
  {
    ZeroPadded(arg.value, st);
  }

  lemma SelectsOne(args: seq<Entry>, ref: Ref, k: nat, a: Arg, b: Arg)
    requires Selects(args, ref, k, a) && Selects(args, ref, k, b)
    ensures a == b
  {
    if ref.Name? {
      FindIsFirst(args, ref.name, a);
      FindIsFirst(args, ref.name, b);
    }
  }

  /** The argument is written as one numeral, for a specification that the field stands for. */
  ghost predicate IsPaddedField(args: seq<Entry>, p: Piece, k: nat, arg: Arg, text: string)
    requires p.Field?
  {
    exists st :: Stands(args, arg.typ, p.spec, k + 1, st) && IsZeroPadded(arg.value, st, text)
  }

  lemma ZeroFlagStands(args: seq<Entry>, t: ArgType, text: Option<SpecText>, k: nat, st: Spec)
    requires text.Some? && text.value.flags.zero && Stands(args, t, text, k, st)
    ensures st.fill == '0' && st.align == W.Numeric
  {
  }

  /** An integer argument of a field with the zero flag is written as one numeral. */
  lemma ZeroFlagChunk(args: seq<Entry>, render: Renderer, p: Piece, k: nat, arg: Arg, chunk: string)
    requires p.Field? && p.spec.Some? && p.spec.value.flags.zero && WritesIntegers(render)
    requires Selects(args, p.ref, k, arg) && IsWhole(arg.typ) && Contributes(args, render, p, k, chunk)
    ensures IsPaddedField(args, p, k, arg, chunk)
  {
    var found, st :| Selects(args, p.ref, k, found) && Stands(args, found.typ, p.spec, k + 1, st)
      && render(found, st) == Some(chunk);
    SelectsOne(args, p.ref, k, arg, found);
    ZeroFlagStands(args, arg.typ, p.spec, k + 1, st);
    RenderedPadded(render, arg, st, chunk);
  }

  lemma OnePiece(args: seq<Entry>, render: Renderer, p: Piece, output: string)
    requires AsksFor(args, render, [p], output)
    ensures Contributes(args, render, p, 0, output)
  {
    var chunks :| ContributeAll(args, render, [p], 0, chunks) && output == Joined(chunks);
    assert [p][0] == p && chunks[1..] == [];
    assert Joined(chunks) == chunks[0] + Joined(chunks[1..]) && chunks[0] + "" == chunks[0];
  }

  lemma OneField(args: seq<Entry>, render: Renderer, p: Piece, output: string)
    requires CanonicalPiece(p)
    requires var r := Reference(args, render, Text([p])); r.Some? && r.value.output == output
    ensures Contributes(args, render, p, 0, output)
  {
    FormatMeans(args, render, [p], output);
    OnePiece(args, render, p, output);
  }

  /** Formatting an integer with "{:05}", or with any other single field that has the zero flag. */
  lemma ZeroFlagFormats(args: seq<Entry>, render: Renderer, p: Piece, arg: Arg, output: string)
    requires p.Field? && p.spec.Some? && p.spec.value.flags.zero && CanonicalPiece(p)
    requires Selects(args, p.ref, 0, arg) && IsWhole(arg.typ) && WritesIntegers(render)
    requires var r := Reference(args, render, Text([p])); r.Some? && r.value.output == output
    ensures IsPaddedField(args, p, 0, arg, output)
  {
    OneField(args, render, p, output);
    ZeroFlagChunk(args, render, p, 0, arg, output);
  }
}
