// Format strings other than the printed ones (format.cc): a brace that is not doubled and
// belongs to no field throws, and an alignment may be written without its fill.
module FmtSpelling {
  import opened Lists
  import opened Wrappers
  import opened FmtSyntax
  import opened FmtRoundTrip
  import W = FmtWriter

  // ----- stray braces -----

  /** "}" behind any text and fields, but not doubled. */
  lemma StrayBraceThrows(args: seq<Entry>, render: Renderer, pieces: seq<Piece>, rest: string)
    requires (forall i :: 0 <= i < |pieces| ==> CanonicalPiece(pieces[i])) && Peek(rest) != '}'
    ensures Reference(args, render, Text(pieces) + ("}" + rest)) == None
  {
    TextReadsOn(pieces, "}" + rest);
    assert ("}" + rest)[1..] == rest;
  }

  predicate Within(part: string, whole: string) {
    forall c :: c in part ==> c in whole
  }

  lemma RefWithin(s: string)
    ensures ParseRef(s).Got? ==> Within(ParseRef(s).rest, s)
  {
  }

  lemma CountWithin(s: string)
    ensures ParseCount(s).Got? ==> Within(ParseCount(s).rest, s)
  {
    if Peek(s) == '{' {
      RefWithin(s[1..]);
    }
  }

  lemma CountsWithin(s: string)
    ensures ParseCounts(s).Got? ==> Within(ParseCounts(s).rest, s)
  {
    CountWithin(s);
    if ParseCount(s).Got? {
      var s1 := ParseCount(s).rest;
      if Peek(s1) == '.' {
        CountWithin(s1[1..]);
      }
    }
  }

  lemma AlignWithin(s: string)
    ensures ParseAlign(s).Got? ==> Within(ParseAlign(s).rest, s)
  {
  }

  lemma FlagsWithin(s: string)
    ensures Within(ParseFlags(s).1, s)
  {
  }

  lemma TypeWithin(s: string)
    ensures Within(ParseType(s).1, s)
  {
  }

  lemma WithinAll(a: string, b: string, c: string, d: string, e: string)
    requires Within(e, d) && Within(d, c) && Within(c, b) && Within(b, a)
    ensures Within(e, a)
  {
  }

  lemma SpecWithin(s: string)
    ensures ParseSpec(s).Got? ==> Within(ParseSpec(s).rest, s)
  {
    AlignWithin(s);
    if ParseSpec(s).Got? {
      var s1 := ParseAlign(s).rest;
      var s2 := ParseFlags(s1).1;
      var s3 := ParseCounts(s2).rest;
      FlagsWithin(s1);
      CountsWithin(s2);
      TypeWithin(s3);
      WithinAll(s, s1, s2, s3, ParseType(s3).1);
    }
  }

  /** A field ends with its brace. */
  lemma FieldNeedsBrace(s: string)
    requires '}' !in s
    ensures ParseField(s) == Bad
  {
    RefWithin(s);
    if ParseRef(s).Got? {
      TailNeedsBrace(ParseRef(s).rest);
    }
  }

  lemma TailNeedsBrace(s: string)
    requires '}' !in s
    ensures ParseTail(s) == Bad
  {
    if Peek(s) == ':' && ParseSpec(s[1..]).Got? {
      SpecWithin(s[1..]);
      NoBraceIn(ParseSpec(s[1..]).rest, s);
    }
  }

  lemma NoBraceIn(part: string, whole: string)
    requires '}' !in whole && whole != "" && Within(part, whole[1..])
    ensures Peek(part) != '}'
  {
    assert part != "" ==> part[0] in part;
  }

  /** "{" behind any text and fields, neither doubled nor closed by anything behind it. */
  lemma UnclosedFieldThrows(args: seq<Entry>, render: Renderer, pieces: seq<Piece>, rest: string)
    requires (forall i :: 0 <= i < |pieces| ==> CanonicalPiece(pieces[i])) && Peek(rest) != '{' && '}' !in rest
    ensures Reference(args, render, Text(pieces) + ("{" + rest)) == None
  {
    TextReadsOn(pieces, "{" + rest);
    FieldNeedsBrace(rest);
    assert ("{" + rest)[1..] == rest;
  }

  lemma BadSpec(ref: Ref, x: string, tail: string)
    requires ParseRef(x) == Got(ref, tail) && tail != "" && tail[0] == ':' && ParseAlign(tail[1..]) == Bad
    ensures ParseField(x) == Bad
  {
  }

  lemma BadField(x: string)
    requires ParseField(x) == Bad && Peek(x) != '{'
    ensures ParsePieces("{" + x) == None
  {
    assert ("{" + x)[1..] == x;
  }

  lemma BadFill(a: W.Alignment, rest: string)
    requires !a.Default?
    ensures var tail := ":{" + ([AlignChar(a)] + rest); tail[0] == ':' && ParseAlign(tail[1..]) == Bad
  {
    var tail := ":{" + ([AlignChar(a)] + rest);
    assert tail[1..][0] == '{' && tail[1..][1] == AlignChar(a);
  }

  lemma ThrowsBehind(args: seq<Entry>, render: Renderer, pieces: seq<Piece>, rest: string)
    requires (forall i :: 0 <= i < |pieces| ==> CanonicalPiece(pieces[i])) && ParsePieces(rest) == None
    ensures Reference(args, render, Text(pieces) + rest) == None
  {
    TextReadsOn(pieces, rest);
  }

  /** "{" in place of the fill character. */
  lemma BraceFillThrows(args: seq<Entry>, render: Renderer, pieces: seq<Piece>, ref: Ref, a: W.Alignment, rest: string)
    requires (forall i :: 0 <= i < |pieces| ==> CanonicalPiece(pieces[i])) && CanonicalRef(ref) && !a.Default?
    ensures Reference(args, render, Text(pieces) + ("{" + (RefText(ref) + (":{" + ([AlignChar(a)] + rest))))) == None
  {
    var tail := ":{" + ([AlignChar(a)] + rest);
    var x := RefText(ref) + tail;
    BadFill(a, rest);
    RefReads(ref, tail);
    RefStarts(ref, tail);
    BadSpec(ref, x, tail);
    BadField(x);
    ThrowsBehind(args, render, pieces, "{" + x);
  }

  // ----- an alignment without a fill -----

  lemma ShortAlignReads(a: W.Alignment, body: string, rest: string)
    requires !a.Default? && NoAlignIn(body)
    ensures ParseAlign([AlignChar(a)] + (body + ("}" + rest))) == Got(AlignText(' ', a, true), body + ("}" + rest))
  {
    var tail := body + ("}" + rest);
    var s := [AlignChar(a)] + tail;
    assert s[0] == AlignChar(a) && s[1..] == tail;
    assert s[1] == tail[0] == if body == "" then '}' else body[0];
  }

  predicate FillsWithSpaces(s: SpecText) {
    s.align.explicit && s.align.fill == ' ' && CanonicalSpec(s)
  }

  lemma ShortSpecReads(s: SpecText, rest: string)
    requires FillsWithSpaces(s)
    ensures ParseSpec([AlignChar(s.align.align)] + (BodyText(s) + ("}" + rest))) == Got(s, "}" + rest)
  {
    var t5 := "}" + rest;
    var t4 := CharText(s.typ) + t5;
    var t3 := PrecisionText(s.precision) + t4;
    CountStages(s, rest);
    FlagsStage(s, rest);
    BodyHasNoAlign(s);
    ShortAlignReads(s.align.align, BodyText(s), rest);
    Stages(s, [AlignChar(s.align.align)] + (BodyText(s) + t5), BodyText(s) + t5, WidthText(s.width) + t3, t3, t4, t5);
  }

  /** The field as usually written: "{:<5}" for "{: <5}". */
  function ShortText(ref: Ref, s: SpecText): string
    requires FillsWithSpaces(s)
  {
    "{" + (RefText(ref) + (":" + ([AlignChar(s.align.align)] + (BodyText(s) + "}"))))
  }

  lemma ShortTailReads(s: SpecText, rest: string)
    requires FillsWithSpaces(s)
    ensures ParseTail((":" + ([AlignChar(s.align.align)] + (BodyText(s) + "}"))) + rest) == Got(Some(s), rest)
  {
    var align := [AlignChar(s.align.align)];
    ShortSpecReads(s, rest);
    ColonStep(s, align + (BodyText(s) + ("}" + rest)), rest);
    Regroup(BodyText(s), "}", rest);
    Regroup(align, BodyText(s) + "}", rest);
    Regroup(":", align + (BodyText(s) + "}"), rest);
  }

  lemma ShortFieldReads(ref: Ref, s: SpecText, rest: string)
    requires CanonicalRef(ref) && FillsWithSpaces(s)
    ensures ParsePieces(ShortText(ref, s) + rest) == Prepend(Field(ref, Some(s)), ParsePieces(rest))
  {
    var colon := ":" + ([AlignChar(s.align.align)] + (BodyText(s) + "}"));
    var tail := colon + rest;
    var x := RefText(ref) + tail;
    ShortTailReads(s, rest);
    assert tail[0] == ':';
    RefReads(ref, tail);
    RefStarts(ref, tail);
    FieldStep(ref, Some(s), x, tail, rest);
    Regroup(RefText(ref), colon, rest);
    Regroup("{", RefText(ref) + colon, rest);
    assert ("{" + x)[0] == '{';
  }

  /** It means the same, whatever stands before and behind it. */
  lemma ShortFormMeansTheSame(args: seq<Entry>, render: Renderer, pieces: seq<Piece>, ref: Ref, s: SpecText, rest: string)
    requires forall i :: 0 <= i < |pieces| ==> CanonicalPiece(pieces[i])
    requires CanonicalRef(ref) && FillsWithSpaces(s)
    ensures Reference(args, render, Text(pieces) + (ShortText(ref, s) + rest))
         == Reference(args, render, Text(pieces) + (PieceText(Field(ref, Some(s))) + rest))
  {
    ShortFieldReads(ref, s, rest);
    PieceReads(Field(ref, Some(s)), rest);
    TextReadsOn(pieces, ShortText(ref, s) + rest);
    TextReadsOn(pieces, PieceText(Field(ref, Some(s))) + rest);
  }
}
