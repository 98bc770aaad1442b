// Reading back what jsoncpp's fast writer prints: the RFC 8259 parser returns the
// tree that was printed, whatever follows the document.
module JsonRoundTrip {
  import opened Lists
  import opened Numerals
  import opened Rfc8259
  import opened JsonText

  // ----- strings -----

  lemma ControlText(c: char)
    requires IsControlCharacter(c) && !IsSpecial(c)
    ensures EscapeChar(c)[1..] == ['u', '0', '0', DigitChar(c as nat / 16, true), DigitChar(c as nat % 16, true)]
  {
    HexDigits(c as nat);
    assert EscapeChar(c) == "\\u" + Pad4(Numeral(c as nat, 16, true));
  }

  lemma ControlParses(c: char, t: string)
    requires IsControlCharacter(c) && !IsSpecial(c)
    ensures ParseEscape(EscapeChar(c)[1..] + t) == Done(c, t)
  {
    var n := c as nat;
    var escape := EscapeChar(c)[1..];
    ControlText(c);
    var u := escape + t;
    assert u[1..] == ['0', '0', DigitChar(n / 16, true), DigitChar(n % 16, true)] + t;
    FourDigitsParse(n, u[1..], t);
    UnicodeStep(u, n, t);
  }

  lemma UnicodeStep(u: string, n: nat, t: string)
    requires u != "" && u[0] == 'u' && n < 0xD800 && Hex4(u[1..]) == Done(n, t)
    ensures ParseEscape(u) == Done(n as char, t)
  {
  }

  lemma FourDigitsParse(n: nat, u: string, t: string)
    requires n < 0x20 && u == ['0', '0', DigitChar(n / 16, true), DigitChar(n % 16, true)] + t
    ensures Hex4(u) == Done(n, t)
  {
    DigitCharValue(n / 16, true);
    DigitCharValue(n % 16, true);
    DigitCharValue(0, true);
    assert u[4..] == t;
  }

  lemma HexDigits(n: nat)
    requires n < 0x20
    ensures Pad4(Numeral(n, 16, true)) == ['0', '0', DigitChar(n / 16, true), DigitChar(n % 16, true)]
  {
    if n >= 16 {
      assert Numeral(n, 16, true) == Numeral(n / 16, 16, true) + [DigitChar(n % 16, true)];
    }
  }

  lemma SpecialParses(c: char, t: string)
    requires IsSpecial(c)
    ensures EscapeChar(c)[0] == '\\' && ParseEscape(EscapeChar(c)[1..] + t) == Done(c, t)
  {
    var e := EscapeChar(c);
    assert e[1..] == [e[1]] && (e[1..] + t)[0] == e[1] && (e[1..] + t)[1..] == t;
  }

  lemma EscapedCharParses(c: char, t: string)
    requires c != '\0'
    ensures ParseChars(EscapeChar(c) + t) == Prepend(c, ParseChars(t))
  {
    var e := EscapeChar(c);
    if IsSpecial(c) {
      SpecialParses(c, t);
      EscapeStep(e, c, t);
    } else if IsControlCharacter(c) {
      ControlParses(c, t);
      EscapeStep(e, c, t);
    } else {
      PlainCharParses(c, t);
    }
  }

  lemma EscapeStep(e: string, c: char, t: string)
    requires e != "" && e[0] == '\\' && ParseEscape(e[1..] + t) == Done(c, t)
    ensures ParseChars(e + t) == Prepend(c, ParseChars(t))
  {
    assert (e + t)[1..] == e[1..] + t;
  }

  lemma PlainCharParses(c: char, t: string)
    requires c != '\0' && !IsSpecial(c) && !IsControlCharacter(c)
    ensures ParseChars(EscapeChar(c) + t) == Prepend(c, ParseChars(t))
  {
    assert EscapeChar(c) == [c] && ([c] + t)[1..] == t;
  }

  lemma {:induction false} CharsParse(s: string, t: string)
    requires '\0' !in s
    ensures ParseChars(Escape(s) + ("\"" + t)) == Done(s, t)
  {
    if s == "" {
      assert Escape(s) + ("\"" + t) == "\"" + t && ("\"" + t)[1..] == t;
    } else {
      CharsParse(s[1..], t);
      Regroup(EscapeChar(s[0]), Escape(s[1..]), "\"" + t);
      EscapedCharParses(s[0], Escape(s[1..]) + ("\"" + t));
      assert s == [s[0]] + s[1..];
    }
  }

  lemma QuotedParses(s: string, t: string)
    requires '\0' !in s
    ensures (Quoted(s) + t)[0] == '\"'
    ensures ParseChars((Quoted(s) + t)[1..]) == Done(s, t)
  {
    CharsParse(s, t);
    assert (Quoted(s) + t)[1..] == Escape(s) + ("\"" + t);
  }

  // ----- numbers -----

  /** Cannot continue a number. */
  predicate Delimits(t: string) {
    t == "" || !(IsDigit(t[0]) || t[0] == '.' || t[0] == 'e' || t[0] == 'E')
  }

  lemma {:induction false} DigitsTaken(d: string, t: string)
    requires (forall i :: 0 <= i < |d| ==> IsDigit(d[i])) && Delimits(t)
    ensures DigitsOf(d + t) == d
  {
    if d == "" {
      assert d + t == t;
    } else {
      DigitsTaken(d[1..], t);
      assert (d + t)[1..] == d[1..] + t && d == [d[0]] + d[1..];
    }
  }

  lemma DecimalIsDigits(n: nat)
    ensures forall i :: 0 <= i < |Decimal(n)| ==> IsDigit(Decimal(n)[i])
    ensures Decimal(n)[0] == '0' ==> Decimal(n) == "0"
    ensures Denotes(Decimal(n), 10) == n
  {
    NumeralDigits(n, 10, false);
    NumeralDenotes(n, 10, false);
  }

  lemma UnsignedParses(n: nat, t: string)
    requires Delimits(t)
    ensures ParseUnsigned(Decimal(n) + t) == Done((n, 0), t)
  {
    var d := Decimal(n);
    DecimalIsDigits(n);
    DigitsTaken(d, t);
    assert (d + t)[0] == d[0];
    WholeParses(d, d + t, t);
  }

  lemma WholeParses(d: string, u: string, t: string)
    requires d != "" && u == d + t && Delimits(t)
    requires if u[0] == '0' then d == "0" else DigitsOf(u) == d
    ensures ParseUnsigned(u) == Done((Denotes(d, 10), 0), t)
  {
    assert u[|d|..] == t;
    assert d + "" == d;
  }

  lemma NegativeParses(n: nat, t: string)
    requires n > 0 && Delimits(t)
    ensures ParseNumber(("-" + Decimal(n)) + t) == Done(JNumber(0 - n, 0), t)
  {
    UnsignedParses(n, t);
    MinusParses(Decimal(n) + t, n, t);
    Regroup("-", Decimal(n), t);
  }

  lemma MinusParses(u: string, n: nat, t: string)
    requires ParseUnsigned(u) == Done((n, 0), t)
    ensures ParseNumber("-" + u) == Done(JNumber(0 - n, 0), t)
  {
    assert ("-" + u)[1..] == u;
  }

  lemma NonNegativeParses(n: nat, t: string)
    requires Delimits(t)
    ensures ParseNumber(Decimal(n) + t) == Done(JNumber(n, 0), t)
  {
    UnsignedParses(n, t);
    DecimalIsDigits(n);
    assert (Decimal(n) + t)[0] == Decimal(n)[0];
  }

  lemma NumberParses(i: int, t: string)
    requires Delimits(t)
    ensures ParseNumber(IntText(i) + t) == Done(JNumber(i, 0), t)
  {
    if i < 0 {
      var n: nat := -i;
      assert IntText(i) == "-" + Decimal(n);
      NegativeParses(n, t);
    } else {
      assert IntText(i) == Decimal(i);
      NonNegativeParses(i, t);
    }
  }

  // ----- values -----

  lemma RenderStarts(j: Json, sep: string)
    ensures var r := Render(j, sep);
      && r != "" && !IsWs(r[0]) && r[0] != ']' && r[0] != '}'
      && (j.JNumber? ==> (IsDigit(r[0]) || r[0] == '-'))
  {
    if j.JNumber? {
      DecimalIsDigits(if j.mantissa < 0 then -j.mantissa else j.mantissa);
    }
  }

  lemma NothingToSkip(t: string)
    requires t != "" && !IsWs(t[0])
    ensures SkipWs(t) == t
  {
  }

  lemma NumberValueParses(m: int, t: string)
    requires Delimits(t)
    ensures ParseValue(IntText(m) + t) == Done(JNumber(m, 0), t)
  {
    NumberParses(m, t);
    RenderStarts(JNumber(m, 0), ":");
    var u := IntText(m) + t;
    assert u[0] == IntText(m)[0];
  }

  lemma StringValueParses(s: string, t: string)
    requires '\0' !in s
    ensures ParseValue(Quoted(s) + t) == Done(JString(s), t)
  {
    QuotedParses(s, t);
  }

  lemma LiteralParses(j: Json, t: string)
    requires j.JNull? || j.JBool?
    ensures ParseValue(Render(j, ":") + t) == Done(j, t)
  {
    var r := Render(j, ":");
    var u := r + t;
    assert u[..|r|] == r && u[|r|..] == t;
    assert u[0] == r[0];
  }

  /** Main result, for a value inside a document. */
  lemma {:induction false} ValueParses(j: Json, sep: string, t: string)
    requires Plain(j) && IsSeparator(sep) && Delimits(t)
    ensures ParseValue(Render(j, sep) + t) == Done(j, t)
    decreases j, 1
  {
    match j
    case JNull => LiteralParses(j, t);
    case JBool(b) => LiteralParses(j, t);
    case JNumber(m, e) => NumberValueParses(m, t);
    case JString(s) => StringValueParses(s, t);
    case JArray(items) => ArrayParses(items, sep, t);
    case JObject(members) => ObjectParses(members, sep, t);
  }

  lemma {:induction false} ArrayParses(items: seq<Json>, sep: string, t: string)
    requires (forall i :: 0 <= i < |items| ==> Plain(items[i])) && IsSeparator(sep)
    ensures ParseValue(Render(JArray(items), sep) + t) == Done(JArray(items), t)
    decreases items, 1
  {
    var u := Render(JArray(items), sep) + t;
    var body := RenderItems(items, sep) + ("]" + t);
    assert u[0] == '[' && u[1..] == body;
    if items == [] {
      assert body == "]" + t && body[1..] == t;
    } else {
      RenderStarts(items[0], sep);
      assert body[0] == Render(items[0], sep)[0];
      NothingToSkip(body);
      ItemsParse(items, sep, t);
    }
  }

  lemma LastItem(text: string, v: Json, t: string)
    requires ParseValue(text) == Done(v, "]" + t)
    ensures ParseItems(text) == Done([v], t)
  {
    assert ("]" + t)[1..] == t;
  }

  lemma MoreItems(text: string, v: Json, body: string, items: seq<Json>, t: string)
    requires ParseValue(text) == Done(v, "," + body) && body != "" && !IsWs(body[0])
    requires ParseItems(body) == Done(items, t)
    ensures ParseItems(text) == Done([v] + items, t)
  {
    assert ("," + body)[1..] == body;
    NothingToSkip(body);
  }

  /** The text of a nonempty list is its first value and then a bracket, or a comma and
      the text of the remaining list. */
  lemma ItemsText(items: seq<Json>, sep: string, t: string) returns (more: string)
    requires items != []
    ensures RenderItems(items, sep) + ("]" + t) == Render(items[0], sep) + more && Delimits(more)
    ensures more == if |items| == 1 then "]" + t else "," + (RenderItems(items[1..], sep) + ("]" + t))
  {
    more := RenderMoreItems(items[1..], sep) + ("]" + t);
    Regroup(Render(items[0], sep), RenderMoreItems(items[1..], sep), "]" + t);
    if |items| > 1 {
      Regroup(",", RenderItems(items[1..], sep), "]" + t);
    } else {
      assert more == "]" + t;
    }
  }

  lemma ItemsStart(items: seq<Json>, sep: string, t: string)
    requires items != []
    ensures var r := RenderItems(items, sep) + t; r != "" && !IsWs(r[0])
  {
    RenderStarts(items[0], sep);
  }

  lemma {:induction false} ItemsParse(items: seq<Json>, sep: string, t: string)
    requires items != [] && (forall i :: 0 <= i < |items| ==> Plain(items[i])) && IsSeparator(sep)
    ensures ParseItems(RenderItems(items, sep) + ("]" + t)) == Done(items, t)
    decreases items, 0
  {
    var more := ItemsText(items, sep, t);
    var text := RenderItems(items, sep) + ("]" + t);
    ValueParses(items[0], sep, more);
    assert items == [items[0]] + items[1..];
    if |items| == 1 {
      assert items == [items[0]];
      LastItem(text, items[0], t);
    } else {
      ItemsStart(items[1..], sep, "]" + t);
      ItemsParse(items[1..], sep, t);
      MoreItems(text, items[0], RenderItems(items[1..], sep) + ("]" + t), items[1..], t);
    }
  }

  lemma {:induction false} ObjectParses(members: seq<(string, Json)>, sep: string, t: string)
    requires (forall i :: 0 <= i < |members| ==> PlainMember(members[i])) && IsSeparator(sep)
    ensures ParseValue(Render(JObject(members), sep) + t) == Done(JObject(members), t)
    decreases members, 1
  {
    var u := Render(JObject(members), sep) + t;
    var body := RenderMembers(members, sep) + ("}" + t);
    assert u[0] == '{' && u[1..] == body;
    if members == [] {
      assert body == "}" + t && body[1..] == t;
      NothingToSkip(body);
    } else {
      MemberStarts(members, sep, "}" + t);
      NothingToSkip(body);
      MembersParse(members, sep, t);
    }
    ObjectStep(u, body, members, t);
  }

  lemma ObjectStep(u: string, body: string, members: seq<(string, Json)>, t: string)
    requires u != "" && u[0] == '{' && u[1..] == body && body != "" && SkipWs(body) == body
    requires if members == [] then body == "}" + t else body[0] != '}' && ParseMembers(body) == Done(members, t)
    ensures ParseValue(u) == Done(JObject(members), t)
  {
    if members == [] {
      assert body[1..] == t;
    }
  }

  lemma MemberSteps(name: string, sep: string, v: Json, value: string, t: string)
    requires '\0' !in name && IsSeparator(sep)
    requires value != "" && !IsWs(value[0]) && ParseValue(value) == Done(v, t)
    ensures ParseMember(Quoted(name) + (sep + value)) == Done((name, v), t)
  {
    var afterName := sep + value;
    QuotedParses(name, afterName);
    SeparatorSkipped(sep, value);
    MemberStages(Quoted(name) + afterName, name, afterName, value, v, t);
  }

  lemma SeparatorSkipped(sep: string, value: string)
    requires IsSeparator(sep) && value != "" && !IsWs(value[0])
    ensures SkipWs(sep + value) == sep + value && (sep + value)[0] == ':' && SkipWs((sep + value)[1..]) == value
  {
    var s := sep + value;
    assert s[0] == ':';
    NothingToSkip(s);
    if sep == ":" {
      assert s[1..] == value;
      NothingToSkip(value);
    } else {
      assert s[1..] == " " + value;
      OneSpaceSkipped(value);
    }
  }

  lemma OneSpaceSkipped(value: string)
    requires value != "" && !IsWs(value[0])
    ensures SkipWs(" " + value) == value
  {
    assert (" " + value)[1..] == value;
    NothingToSkip(value);
  }

  lemma MemberStages(s: string, name: string, afterName: string, value: string, v: Json, t: string)
    requires s != "" && s[0] == '\"' && ParseChars(s[1..]) == Done(name, afterName)
    requires afterName != "" && SkipWs(afterName) == afterName && afterName[0] == ':'
    requires SkipWs(afterName[1..]) == value && ParseValue(value) == Done(v, t)
    ensures ParseMember(s) == Done((name, v), t)
  {
  }

  lemma MemberText(m: (string, Json), sep: string, t: string)
    ensures RenderMember(m, sep) + t == Quoted(m.0) + (sep + (Render(m.1, sep) + t))
    ensures var value := Render(m.1, sep) + t; value != "" && !IsWs(value[0])
  {
    RenderStarts(m.1, sep);
    Regroup(Quoted(m.0), sep, Render(m.1, sep));
  }

  lemma {:induction false} MemberParses(m: (string, Json), sep: string, t: string)
    requires PlainMember(m) && IsSeparator(sep) && Delimits(t)
    ensures ParseMember(RenderMember(m, sep) + t) == Done(m, t)
    decreases m, 2
  {
    ValueParses(m.1, sep, t);
    MemberText(m, sep, t);
    MemberSteps(m.0, sep, m.1, Render(m.1, sep) + t, t);
  }

  lemma MemberStarts(members: seq<(string, Json)>, sep: string, t: string)
    requires members != []
    ensures var r := RenderMembers(members, sep) + t; r != "" && r[0] == '\"'
  {
    var m := RenderMember(members[0], sep);
    assert m != "" && m[0] == Quoted(members[0].0)[0] == '\"';
  }

  lemma LastMember(text: string, m: (string, Json), t: string)
    requires ParseMember(text) == Done(m, "}" + t)
    ensures ParseMembers(text) == Done([m], t)
  {
    assert ("}" + t)[1..] == t;
  }

  lemma MoreMembers(text: string, m: (string, Json), body: string, members: seq<(string, Json)>, t: string)
    requires ParseMember(text) == Done(m, "," + body) && body != "" && !IsWs(body[0])
    requires ParseMembers(body) == Done(members, t)
    ensures ParseMembers(text) == Done([m] + members, t)
  {
    assert ("," + body)[1..] == body;
    NothingToSkip(body);
  }

  lemma MembersText(members: seq<(string, Json)>, sep: string, t: string) returns (more: string)
    requires members != []
    ensures RenderMembers(members, sep) + ("}" + t) == RenderMember(members[0], sep) + more && Delimits(more)
    ensures more == if |members| == 1 then "}" + t else "," + (RenderMembers(members[1..], sep) + ("}" + t))
  {
    more := RenderMoreMembers(members[1..], sep) + ("}" + t);
    Regroup(RenderMember(members[0], sep), RenderMoreMembers(members[1..], sep), "}" + t);
    if |members| > 1 {
      Regroup(",", RenderMembers(members[1..], sep), "}" + t);
    } else {
      assert more == "}" + t;
    }
  }

  lemma {:induction false} MembersParse(members: seq<(string, Json)>, sep: string, t: string)
    requires members != [] && (forall i :: 0 <= i < |members| ==> PlainMember(members[i])) && IsSeparator(sep)
    ensures ParseMembers(RenderMembers(members, sep) + ("}" + t)) == Done(members, t)
    decreases members, 0
  {
    var more := MembersText(members, sep, t);
    var text := RenderMembers(members, sep) + ("}" + t);
    MemberParses(members[0], sep, more);
    assert members == [members[0]] + members[1..];
    if |members| == 1 {
      assert members == [members[0]];
      LastMember(text, members[0], t);
    } else {
      MemberStarts(members[1..], sep, "}" + t);
      MembersParse(members[1..], sep, t);
      MoreMembers(text, members[0], RenderMembers(members[1..], sep) + ("}" + t), members[1..], t);
    }
  }

  /** A document of the fast writer, with its final newline, parses to the tree printed. */
  lemma DocumentParses(j: Json, sep: string)
    requires Plain(j) && IsSeparator(sep)
    ensures ParseText(Render(j, sep) + "\n") == Done(j, "")
  {
    var t := Render(j, sep) + "\n";
    RenderStarts(j, sep);
    assert t[0] == Render(j, sep)[0];
    NothingToSkip(t);
    ValueParses(j, sep, "\n");
    assert "\n"[1..] == "";
  }
}
