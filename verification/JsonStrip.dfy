// Removing the whitespace outside strings from a JSON text, the measure by which
// jsoncpp's printers are compared.
module JsonStrip {
  import opened Lists
  import opened Rfc8259
  import opened JsonText
  import opened JsonRoundTrip
  import opened Numerals

  /** Where a position lies: between tokens, in a string, or after a reverse solidus. */
  datatype Mode = Outside | Inside | Escaping

  function NextMode(m: Mode, c: char): Mode {
    match m
    case Outside => if c == '\"' then Inside else Outside
    case Inside => if c == '\"' then Outside else if c == '\\' then Escaping else Inside
    case Escaping => Inside
  }

  function ModeAfter(t: string, m: Mode): Mode {
    if t == "" then m else ModeAfter(t[1..], NextMode(m, t[0]))
  }

  function Strip(t: string, m: Mode): string {
    if t == "" then ""
    else
      var rest := Strip(t[1..], NextMode(m, t[0]));
      if m == Outside && IsWs(t[0]) then rest else [t[0]] + rest
  }

  /** The text without whitespace outside strings. */
  function Bare(t: string): string {
    Strip(t, Outside)
  }

  /** No string is left open. */
  predicate Closed(t: string) {
    ModeAfter(t, Outside) == Outside
  }

  predicate Blank(t: string) {
    forall c :: c in t ==> IsWs(c)
  }

  lemma {:induction false} ModeAppend(a: string, b: string, m: Mode)
    ensures ModeAfter(a + b, m) == ModeAfter(b, ModeAfter(a, m))
  {
    if a == "" {
      assert a + b == b;
    } else {
      ModeAppend(a[1..], b, NextMode(m, a[0]));
      assert (a + b)[1..] == a[1..] + b;
    }
  }

  lemma {:induction false} StripAppend(a: string, b: string, m: Mode)
    ensures ModeAfter(a + b, m) == ModeAfter(b, ModeAfter(a, m))
    ensures Strip(a + b, m) == Strip(a, m) + Strip(b, ModeAfter(a, m))
  {
    ModeAppend(a, b, m);
    if a == "" {
      assert a + b == b;
    } else {
      var next := NextMode(m, a[0]);
      var front, back := Strip(a[1..], next), Strip(b, ModeAfter(a, m));
      StripAppend(a[1..], b, next);
      assert (a + b)[1..] == a[1..] + b && (a + b)[0] == a[0];
      Regroup([a[0]], front, back);
    }
  }

  lemma BareAppend(a: string, b: string)
    requires Closed(a)
    ensures Bare(a + b) == Bare(a) + Bare(b)
    ensures Closed(a + b) <==> Closed(b)
  {
    StripAppend(a, b, Outside);
  }

  lemma {:induction false} BlankIsBare(t: string)
    requires Blank(t)
    ensures Bare(t) == "" && Closed(t)
  {
    if t != "" {
      assert t[0] in t && forall c :: c in t[1..] ==> c in t;
      BlankIsBare(t[1..]);
    }
  }

  /** Whitespace and other neutral characters between tokens. */
  lemma {:induction false} TokenIsBare(t: string)
    requires forall c :: c in t ==> c != '\"'
    ensures Closed(t)
    ensures (forall c :: c in t ==> !IsWs(c)) ==> Bare(t) == t
  {
    if t != "" {
      assert t[0] in t && forall c :: c in t[1..] ==> c in t;
      TokenIsBare(t[1..]);
      assert t == [t[0]] + t[1..];
    }
  }

  lemma {:induction false} InsideKept(t: string)
    requires forall c :: c in t ==> c != '\"' && c != '\\'
    ensures ModeAfter(t, Inside) == Inside && Strip(t, Inside) == t
  {
    if t != "" {
      assert t[0] in t && forall c :: c in t[1..] ==> c in t;
      InsideKept(t[1..]);
      assert t == [t[0]] + t[1..];
    }
  }

  lemma EscapedCharKept(c: char)
    ensures ModeAfter(EscapeChar(c), Inside) == Inside && Strip(EscapeChar(c), Inside) == EscapeChar(c)
  {
    if IsSpecial(c) {
      var e := EscapeChar(c);
      EscapeIsKept(e[1], "");
      assert e == ['\\', e[1]] + "";
    } else if IsControlCharacter(c) {
      HexDigits(c as nat);
      DigitCharValue(c as nat / 16, true);
      DigitCharValue(c as nat % 16, true);
      EscapeIsKept('u', Pad4(Numeral(c as nat, 16, true)));
    } else {
      InsideKept([c]);
    }
  }

  lemma EscapeIsKept(c: char, tail: string)
    requires forall x :: x in tail ==> x != '\"' && x != '\\'
    ensures ModeAfter(['\\', c] + tail, Inside) == Inside && Strip(['\\', c] + tail, Inside) == ['\\', c] + tail
  {
    var e := ['\\', c] + tail;
    InsideKept(tail);
    assert e[1..] == [c] + tail && e[1..][1..] == tail;
    assert e == [e[0]] + ([e[1]] + tail);
  }

  lemma {:induction false} EscapeKept(s: string)
    ensures ModeAfter(Escape(s), Inside) == Inside && Strip(Escape(s), Inside) == Escape(s)
  {
    if s != "" {
      EscapedCharKept(s[0]);
      EscapeKept(s[1..]);
      StripAppend(EscapeChar(s[0]), Escape(s[1..]), Inside);
    }
  }

  lemma QuotedIsBare(s: string)
    ensures Closed(Quoted(s)) && Bare(Quoted(s)) == Quoted(s)
  {
    EscapeKept(s);
    ClosingQuote(Escape(s));
    OpeningQuote(Escape(s) + "\"");
    Regroup("\"", Escape(s), "\"");
  }

  lemma OpeningQuote(t: string)
    ensures Strip("\"" + t, Outside) == "\"" + Strip(t, Inside)
    ensures ModeAfter("\"" + t, Outside) == ModeAfter(t, Inside)
  {
    assert ("\"" + t)[1..] == t;
  }

  lemma ClosingQuote(t: string)
    requires ModeAfter(t, Inside) == Inside && Strip(t, Inside) == t
    ensures Strip(t + "\"", Inside) == t + "\"" && ModeAfter(t + "\"", Inside) == Outside
  {
    StripAppend(t, "\"", Inside);
    assert "\""[1..] == "";
  }

  lemma IntTextIsBare(i: int)
    ensures Closed(IntText(i)) && Bare(IntText(i)) == IntText(i)
  {
    DecimalIsDigits(if i < 0 then -i else i);
    TokenIsBare(IntText(i));
  }

  lemma SeparatorIsBare(sep: string)
    requires IsSeparator(sep)
    ensures Closed(sep) && Bare(sep) == ":"
  {
    TokenIsBare(":");
    BlankIsBare(" ");
    BareAppend(":", " ");
    assert ":" + " " == ": ";
  }

  /** Compact documents have whitespace at most after the colons. */
  lemma {:induction false} RenderIsBare(j: Json, sep: string)
    requires IsSeparator(sep)
    ensures Closed(Render(j, sep)) && Bare(Render(j, sep)) == Render(j, ":")
    decreases j, 1
  {
    match j
    case JNull => TokenIsBare("null");
    case JBool(b) => TokenIsBare(if b then "true" else "false");
    case JNumber(m, _) => IntTextIsBare(m);
    case JString(s) => QuotedIsBare(s);
    case JArray(items) =>
      ItemsAreBare(items, sep);
      Bracketed("[", RenderItems(items, sep), "]");
    case JObject(members) =>
      MembersAreBare(members, sep);
      Bracketed("{", RenderMembers(members, sep), "}");
  }

  lemma Bracketed(open: string, body: string, close: string)
    requires open in {"[", "{"} && close in {"]", "}"} && Closed(body)
    ensures Closed(open + body + close) && Bare(open + body + close) == open + Bare(body) + close
  {
    TokenIsBare(open);
    TokenIsBare(close);
    BareAppend(open, body);
    BareAppend(open + body, close);
  }

  lemma {:induction false} ItemsAreBare(items: seq<Json>, sep: string)
    requires IsSeparator(sep)
    ensures Closed(RenderItems(items, sep)) && Bare(RenderItems(items, sep)) == RenderItems(items, ":")
    decreases items, 0
  {
    if items != [] {
      RenderIsBare(items[0], sep);
      MoreItemsAreBare(items[1..], sep);
      BareAppend(Render(items[0], sep), RenderMoreItems(items[1..], sep));
    }
  }

  lemma {:induction false} MoreItemsAreBare(items: seq<Json>, sep: string)
    requires IsSeparator(sep)
    ensures Closed(RenderMoreItems(items, sep)) && Bare(RenderMoreItems(items, sep)) == RenderMoreItems(items, ":")
    decreases items, 0
  {
    if items != [] {
      RenderIsBare(items[0], sep);
      MoreItemsAreBare(items[1..], sep);
      BareAppend(Render(items[0], sep), RenderMoreItems(items[1..], sep));
      TokenIsBare(",");
      BareAppend(",", Render(items[0], sep) + RenderMoreItems(items[1..], sep));
    }
  }

  lemma {:induction false} MemberIsBare(m: (string, Json), sep: string)
    requires IsSeparator(sep)
    ensures Closed(RenderMember(m, sep)) && Bare(RenderMember(m, sep)) == RenderMember(m, ":")
    decreases m, 2
  {
    QuotedIsBare(m.0);
    SeparatorIsBare(sep);
    RenderIsBare(m.1, sep);
    BareAppend(Quoted(m.0), sep);
    BareAppend(Quoted(m.0) + sep, Render(m.1, sep));
  }

  lemma {:induction false} MembersAreBare(members: seq<(string, Json)>, sep: string)
    requires IsSeparator(sep)
    ensures Closed(RenderMembers(members, sep)) && Bare(RenderMembers(members, sep)) == RenderMembers(members, ":")
    decreases members, 0
  {
    if members != [] {
      MemberIsBare(members[0], sep);
      MoreMembersAreBare(members[1..], sep);
      BareAppend(RenderMember(members[0], sep), RenderMoreMembers(members[1..], sep));
    }
  }

  lemma {:induction false} MoreMembersAreBare(members: seq<(string, Json)>, sep: string)
    requires IsSeparator(sep)
    ensures Closed(RenderMoreMembers(members, sep))
    ensures Bare(RenderMoreMembers(members, sep)) == RenderMoreMembers(members, ":")
    decreases members, 0
  {
    if members != [] {
      MemberIsBare(members[0], sep);
      MoreMembersAreBare(members[1..], sep);
      BareAppend(RenderMember(members[0], sep), RenderMoreMembers(members[1..], sep));
      TokenIsBare(",");
      BareAppend(",", RenderMember(members[0], sep) + RenderMoreMembers(members[1..], sep));
    }
  }
}
