// How jsoncpp's indenting printers break and indent their lines, said of the text alone:
// every line is indented by as many steps as brackets are open where it starts, and there
// is a line for each child and each closing bracket of every container that is spread out.
module JsonIndent {
  import opened Lists
  import opened Rfc8259
  import opened JsonText
  import opened JsonStrip
  import opened JsonRoundTrip
  import opened JsonLayout
  import opened Numerals

  // ----- the text -----

  predicate IsClosing(c: char) {
    c == ']' || c == '}'
  }

  function Delta(c: char): int {
    if c == '[' || c == '{' then 1 else if IsClosing(c) then -1 else 0
  }

  /** Brackets opened minus brackets closed, outside strings. */
  function Net(t: string, m: Mode): int {
    if t == "" then 0 else (if m == Outside then Delta(t[0]) else 0) + Net(t[1..], NextMode(m, t[0]))
  }

  function Breaks(t: string): nat {
    if t == "" then 0 else (if t[0] == '\n' then 1 else 0) + Breaks(t[1..])
  }

  function Steps(unit: string, n: nat): string {
    if n == 0 then "" else Steps(unit, n - 1) + unit
  }

  /** What a line may begin with; the stream writer leaves the line of a nested container's
      opening bracket empty and starts another one. */
  predicate Starts(c: char, stream: bool) {
    (!IsWs(c) && c != ',' && c != ':') || (stream && c == '\n')
  }

  /** The line that starts here is indented by as many steps as brackets are open, one less if
      it starts by closing one. */
  predicate LineIndented(t: string, stream: bool, unit: string, depth: int) {
    || (depth >= 0 && Steps(unit, depth) < t
        && var c := t[|Steps(unit, depth)|]; Starts(c, stream) && !IsClosing(c))
    || (depth >= 1 && Steps(unit, depth - 1) < t && IsClosing(t[|Steps(unit, depth - 1)|]))
  }

  /** Every line of the text is, when `depth` brackets are open before it. */
  predicate Indented(t: string, stream: bool, unit: string, depth: int, m: Mode) {
    t == "" ||
    (&& (t[0] == '\n' && m == Outside ==> LineIndented(t[1..], stream, unit, depth))
     && Indented(t[1..], stream, unit, depth + (if m == Outside then Delta(t[0]) else 0), NextMode(m, t[0])))
  }

  lemma {:induction false} IndentedAppend(a: string, b: string, stream: bool, unit: string, depth: int, m: Mode)
    requires Indented(a, stream, unit, depth, m)
    requires Indented(b, stream, unit, depth + Net(a, m), ModeAfter(a, m))
    ensures Indented(a + b, stream, unit, depth, m)
    decreases |a|
  {
    if a == "" {
      DropEmpty(b);
    } else {
      var t := a + b;
      assert t[0] == a[0] && t[1..] == a[1..] + b;
      IndentedAppend(a[1..], b, stream, unit, depth + (if m == Outside then Delta(a[0]) else 0), NextMode(m, a[0]));
      LineAppend(a[1..], b, stream, unit, depth);
    }
  }

  lemma LineAppend(a: string, b: string, stream: bool, unit: string, depth: int)
    ensures LineIndented(a, stream, unit, depth) ==> LineIndented(a + b, stream, unit, depth)
  {
  }

  lemma {:induction false} NetAppend(a: string, b: string, m: Mode)
    ensures Net(a + b, m) == Net(a, m) + Net(b, ModeAfter(a, m))
    decreases |a|
  {
    if a == "" {
      DropEmpty(b);
    } else {
      assert (a + b)[0] == a[0] && (a + b)[1..] == a[1..] + b;
      NetAppend(a[1..], b, NextMode(m, a[0]));
    }
  }

  lemma {:induction false} BreaksAppend(a: string, b: string)
    ensures Breaks(a + b) == Breaks(a) + Breaks(b)
  {
    if a == "" {
      DropEmpty(b);
    } else {
      assert (a + b)[0] == a[0] && (a + b)[1..] == a[1..] + b;
      BreaksAppend(a[1..], b);
    }
  }

  /** All of it for a piece of text between tokens. */
  ghost predicate Neat(t: string, stream: bool, unit: string, depth: int, net: int, breaks: nat) {
    Indented(t, stream, unit, depth, Outside) && Closed(t) && Net(t, Outside) == net && Breaks(t) == breaks
  }

  lemma NeatAppend(a: string, b: string, stream: bool, unit: string, depth: int, n: int, k: int, x: nat, y: nat)
    requires Neat(a, stream, unit, depth, n, x) && Neat(b, stream, unit, depth + n, k, y)
    ensures Neat(a + b, stream, unit, depth, n + k, x + y)
  {
    IndentedAppend(a, b, stream, unit, depth, Outside);
    NetAppend(a, b, Outside);
    BreaksAppend(a, b);
    BareAppend(a, b);
  }

  lemma {:induction false} UnbrokenIsIndented(t: string, stream: bool, unit: string, depth: int, m: Mode)
    requires Unbroken(t)
    ensures Indented(t, stream, unit, depth, m) && Breaks(t) == 0
    decreases |t|
  {
    if t != "" {
      UnbrokenIsIndented(t[1..], stream, unit, depth + (if m == Outside then Delta(t[0]) else 0), NextMode(m, t[0]));
    }
  }

  // ----- texts on one line -----

  lemma {:induction false} TokenNet(t: string)
    requires forall c :: c in t ==> c != '\"' && Delta(c) == 0
    ensures Net(t, Outside) == 0
  {
    if t != "" {
      assert t[0] in t && forall c :: c in t[1..] ==> c in t;
      TokenNet(t[1..]);
    }
  }

  lemma {:induction false} InsideNet(t: string)
    requires forall c :: c in t ==> c != '\"' && c != '\\'
    ensures Net(t, Inside) == 0
  {
    if t != "" {
      assert t[0] in t && forall c :: c in t[1..] ==> c in t;
      InsideNet(t[1..]);
    }
  }

  lemma EscapeNet(c: char, tail: string)
    requires forall x :: x in tail ==> x != '\"' && x != '\\'
    ensures Net(['\\', c] + tail, Inside) == 0
  {
    var e := ['\\', c] + tail;
    InsideNet(tail);
    assert e[1..] == [c] + tail && e[1..][1..] == tail;
  }

  lemma EscapedCharNet(c: char)
    ensures Net(EscapeChar(c), Inside) == 0
  {
    if IsSpecial(c) {
      var e := EscapeChar(c);
      EscapeNet(e[1], "");
      assert e == ['\\', e[1]] + "";
    } else if IsControlCharacter(c) {
      HexDigits(c as nat);
      DigitCharValue(c as nat / 16, true);
      DigitCharValue(c as nat % 16, true);
      EscapeNet('u', Pad4(Numeral(c as nat, 16, true)));
    } else {
      InsideNet([c]);
    }
  }

  lemma {:induction false} EscapedNet(s: string)
    ensures Net(Escape(s), Inside) == 0
  {
    if s != "" {
      EscapedCharKept(s[0]);
      EscapedCharNet(s[0]);
      EscapedNet(s[1..]);
      NetAppend(EscapeChar(s[0]), Escape(s[1..]), Inside);
    }
  }

  lemma QuotedNet(s: string)
    ensures Net(Quoted(s), Outside) == 0
  {
    EscapedNet(s);
    EscapeKept(s);
    NetAppend(Escape(s), "\"", Inside);
    assert "\""[1..] == "";
    var t := Escape(s) + "\"";
    Regroup("\"", Escape(s), "\"");
    assert ("\"" + t)[1..] == t;
  }

  lemma LeafNet(j: Json)
    requires IsLeaf(j)
    ensures Net(Render(j, ":"), Outside) == 0
  {
    match j
    case JNull => TokenNet("null");
    case JBool(b) => TokenNet(if b then "true" else "false");
    case JNumber(m, _) =>
      DecimalIsDigits(if m < 0 then -m else m);
      TokenNet(Render(j, ":"));
    case JString(s) => QuotedNet(s);
    case JArray(_) => BracketPair();
    case JObject(_) => BracketPair();
  }

  lemma BracketPair()
    ensures Net("[]", Outside) == 0 && Net("{}", Outside) == 0
  {
    assert "[]"[1..] == "]" && "{}"[1..] == "}" && "]"[1..] == "" && "}"[1..] == "";
  }

  lemma LeafIsNeat(j: Json, stream: bool, unit: string, depth: int)
    requires IsLeaf(j)
    ensures Neat(Render(j, ":"), stream, unit, depth, 0, 0)
  {
    LeafUnbroken(j);
    UnbrokenIsIndented(Render(j, ":"), stream, unit, depth, Outside);
    LeafNet(j);
    RenderIsBare(j, ":");
  }

  lemma TokenIsNeat(t: string, stream: bool, unit: string, depth: int, net: int)
    requires Unbroken(t) && Closed(t) && Net(t, Outside) == net
    ensures Neat(t, stream, unit, depth, net, 0)
  {
    UnbrokenIsIndented(t, stream, unit, depth, Outside);
  }

  /** The fixed pieces of a layout. */
  lemma TokensAreNeat(stream: bool, unit: string, depth: int)
    ensures Neat("[", stream, unit, depth, 1, 0) && Neat("{", stream, unit, depth, 1, 0)
    ensures Neat("]", stream, unit, depth, -1, 0) && Neat("}", stream, unit, depth, -1, 0)
    ensures Neat(",", stream, unit, depth, 0, 0)
  {
    BracketsAreBare();
    assert forall t: string :: |t| == 1 ==> t[1..] == "";
    TokenIsNeat("[", stream, unit, depth, 1);
    TokenIsNeat("{", stream, unit, depth, 1);
    TokenIsNeat("]", stream, unit, depth, -1);
    TokenIsNeat("}", stream, unit, depth, -1);
    TokenIsNeat(",", stream, unit, depth, 0);
  }

  lemma SpacedAreNeat(stream: bool, unit: string, depth: int)
    ensures Neat(", ", stream, unit, depth, 0, 0) && Neat(" : ", stream, unit, depth, 0, 0)
    ensures Neat("[ ", stream, unit, depth, 1, 0) && Neat(" ]", stream, unit, depth, -1, 0)
  {
    CommaSpace();
    TokenNet(", ");
    TokenNet(" : ");
    SpacedBrackets();
    TokenIsNeat(", ", stream, unit, depth, 0);
    TokenIsNeat(" : ", stream, unit, depth, 0);
    TokenIsNeat("[ ", stream, unit, depth, 1);
    TokenIsNeat(" ]", stream, unit, depth, -1);
  }

  lemma SpacedBrackets()
    ensures Net("[ ", Outside) == 1 && Net(" ]", Outside) == -1
  {
    assert "[ "[1..] == " " && " "[1..] == "" && " ]"[1..] == "]" && "]"[1..] == "";
  }

  lemma JoinStep(text: string, more: string, stream: bool, unit: string, depth: int)
    requires Neat(text, stream, unit, depth, 0, 0) && Neat(more, stream, unit, depth, 0, 0)
    ensures Neat(", " + (text + more), stream, unit, depth, 0, 0)
  {
    NeatAppend(text, more, stream, unit, depth, 0, 0, 0, 0);
    SpacedAreNeat(stream, unit, depth);
    NeatAppend(", ", text + more, stream, unit, depth, 0, 0, 0, 0);
  }

  lemma {:induction false} JoinMoreIsNeat(js: seq<Json>, stream: bool, unit: string, depth: int)
    requires forall i :: 0 <= i < |js| ==> IsLeaf(js[i])
    ensures Neat(JoinMore(Texts(js)), stream, unit, depth, 0, 0)
  {
    if js == [] {
      assert Neat("", stream, unit, depth, 0, 0);
    } else {
      assert Texts(js)[1..] == Texts(js[1..]);
      JoinMoreIsNeat(js[1..], stream, unit, depth);
      LeafIsNeat(js[0], stream, unit, depth);
      JoinStep(Render(js[0], ":"), JoinMore(Texts(js[1..])), stream, unit, depth);
    }
  }

  lemma OneLineIsNeat(js: seq<Json>, stream: bool, unit: string, depth: int)
    requires js != [] && forall i :: 0 <= i < |js| ==> IsLeaf(js[i])
    ensures Neat(OneLine(js), stream, unit, depth, 0, 0)
  {
    var text, more := Render(js[0], ":"), JoinMore(Texts(js[1..]));
    assert Texts(js)[1..] == Texts(js[1..]);
    JoinMoreIsNeat(js[1..], stream, unit, depth + 1);
    LeafIsNeat(js[0], stream, unit, depth + 1);
    NeatAppend(text, more, stream, unit, depth + 1, 0, 0, 0, 0);
    SpacedAreNeat(stream, unit, depth);
    SpacedAreNeat(stream, unit, depth + 1);
    NeatAppend("[ ", text + more, stream, unit, depth, 1, 0, 0, 0);
    NeatAppend("[ " + (text + more), " ]", stream, unit, depth, 1, -1, 0, 0);
  }

  // ----- indented lines -----

  predicate IsUnit(unit: string) {
    forall c :: c in unit ==> c == ' ' || c == '\t'
  }

  lemma {:induction false} StepsAreBlank(unit: string, n: nat)
    requires IsUnit(unit)
    ensures IsUnit(Steps(unit, n))
    decreases n
  {
    if n > 0 {
      StepsAreBlank(unit, n - 1);
    }
  }

  lemma UnitIsBlank(unit: string)
    requires IsUnit(unit)
    ensures Blank(unit) && Unbroken(unit)
  {
    assert forall i :: 0 <= i < |unit| ==> unit[i] in unit;
  }

  lemma IndentIsNeat(indent: string, stream: bool, unit: string, depth: int)
    requires IsUnit(indent)
    ensures Neat(indent, stream, unit, depth, 0, 0)
  {
    UnitIsBlank(indent);
    BlankIsBare(indent);
    TokenNet(indent);
    TokenIsNeat(indent, stream, unit, depth, 0);
  }

  lemma BreakIsNeat(rest: string, stream: bool, unit: string, depth: int, net: int, breaks: nat)
    requires LineIndented(rest, stream, unit, depth) && Neat(rest, stream, unit, depth, net, breaks)
    ensures Neat("\n" + rest, stream, unit, depth, net, breaks + 1)
  {
    assert ("\n" + rest)[1..] == rest;
  }

  lemma LineStart(indent: string, text: string, stream: bool, unit: string, depth: int)
    requires text != "" && Starts(text[0], stream)
    requires if IsClosing(text[0]) then depth >= 1 && indent == Steps(unit, depth - 1)
             else depth >= 0 && indent == Steps(unit, depth)
    ensures LineIndented(indent + text, stream, unit, depth)
  {
    assert (indent + text)[|indent|] == text[0] && indent < indent + text;
  }

  lemma LineIsNeat(indent: string, text: string, stream: bool, unit: string, depth: int, net: int, breaks: nat)
    requires text != "" && Starts(text[0], stream) && IsUnit(unit) && Neat(text, stream, unit, depth, net, breaks)
    requires if IsClosing(text[0]) then depth >= 1 && indent == Steps(unit, depth - 1)
             else depth >= 0 && indent == Steps(unit, depth)
    ensures Neat(Line(indent, text), stream, unit, depth, net, breaks + 1)
  {
    StepsAreBlank(unit, if IsClosing(text[0]) then depth - 1 else depth);
    IndentIsNeat(indent, stream, unit, depth);
    NeatAppend(indent, text, stream, unit, depth, 0, net, 0, breaks);
    LineStart(indent, text, stream, unit, depth);
    BreakIsNeat(indent + text, stream, unit, depth, net, breaks);
    Regroup("\n", indent, text);
  }

  lemma LayoutStarts(style: Style, j: Json, indent: string)
    ensures var t := Layout(style, j, indent); t != "" && Starts(t[0], style.stream) && !IsClosing(t[0])
  {
    if IsLeaf(j) {
      RenderStarts(j, ":");
      LeafStarts(j);
    }
  }

  lemma LeafStarts(j: Json)
    requires IsLeaf(j)
    ensures Starts(Render(j, ":")[0], false) && !IsClosing(Render(j, ":")[0])
  {
    if j.JNumber? {
      DecimalIsDigits(if j.mantissa < 0 then -j.mantissa else j.mantissa);
    }
  }

  // ----- layouts -----

  /** Line breaks of a layout: one before each child and one before the closing bracket of every
      container that is spread out; and one before its opening bracket in the stream writer. */
  function LineBreaks(stream: bool, j: Json): nat
    decreases j, 1
  {
    match j
    case JArray(items) =>
      if Flat(j) then 0 else ItemBreaks(stream, items) + (if stream then 2 else 1)
    case JObject(members) =>
      if Flat(j) then 0 else MemberBreaks(stream, members) + (if stream then 2 else 1)
    case _ => 0
  }

  function ItemBreaks(stream: bool, items: seq<Json>): nat
    decreases items, 0
  {
    if items == [] then 0 else (1 + LineBreaks(stream, items[0])) + ItemBreaks(stream, items[1..])
  }

  function MemberBreaks(stream: bool, members: seq<(string, Json)>): nat
    decreases members, 0
  {
    if members == [] then 0 else (1 + PairBreaks(stream, members[0])) + MemberBreaks(stream, members[1..])
  }

  function PairBreaks(stream: bool, m: (string, Json)): nat
    decreases m, 2
  {
    LineBreaks(stream, m.1)
  }

  lemma OpeningIsNeat(style: Style, indent: string, bracket: string, depth: nat)
    requires IsUnit(style.indentation) && indent == Steps(style.indentation, depth) && bracket in {"[", "{"}
    ensures Neat(Opening(style, indent, bracket), style.stream, style.indentation, depth, 1, if style.stream then 1 else 0)
  {
    TokensAreNeat(style.stream, style.indentation, depth);
    if style.stream {
      LineIsNeat(indent, bracket, style.stream, style.indentation, depth, 1, 0);
    }
  }

  lemma EnclosedIsNeat(style: Style, indent: string, open: string, body: string, close: string, depth: nat, breaks: nat)
    requires IsUnit(style.indentation) && indent == Steps(style.indentation, depth)
    requires open in {"[", "{"} && close in {"]", "}"}
    requires Neat(body, style.stream, style.indentation, depth + 1, 0, breaks)
    ensures Neat((Opening(style, indent, open) + body) + Line(indent, close), style.stream, style.indentation, depth, 0,
                 breaks + (if style.stream then 2 else 1))
  {
    var unit, first := style.indentation, if style.stream then 1 else 0;
    OpeningIsNeat(style, indent, open, depth);
    NeatAppend(Opening(style, indent, open), body, style.stream, unit, depth, 1, 0, first, breaks);
    TokensAreNeat(style.stream, unit, depth + 1);
    LineIsNeat(indent, close, style.stream, unit, depth + 1, -1, 0);
    NeatAppend(Opening(style, indent, open) + body, Line(indent, close), style.stream, unit, depth,
      1, -1, first + breaks, 1);
  }

  /** A value laid out at some depth. */
  lemma {:induction false} LayoutIsNeat(style: Style, j: Json, indent: string, depth: nat)
    requires IsUnit(style.indentation) && indent == Steps(style.indentation, depth)
    ensures Neat(Layout(style, j, indent), style.stream, style.indentation, depth, 0, LineBreaks(style.stream, j))
    decreases j, 1
  {
    var deeper := indent + style.indentation;
    assert deeper == Steps(style.indentation, depth + 1);
    if Flat(j) {
      FlatIsNeat(style, j, indent, depth);
    } else if j.JArray? {
      ItemLinesAreNeat(style, j.items, deeper, depth + 1);
      EnclosedIsNeat(style, indent, "[", ItemLines(style, j.items, deeper), "]", depth, ItemBreaks(style.stream, j.items));
    } else {
      MemberLinesAreNeat(style, j.members, deeper, depth + 1);
      EnclosedIsNeat(style, indent, "{", MemberLines(style, j.members, deeper), "}", depth,
        MemberBreaks(style.stream, j.members));
    }
  }

  lemma FlatIsNeat(style: Style, j: Json, indent: string, depth: int)
    requires Flat(j)
    ensures LineBreaks(style.stream, j) == 0
    ensures Neat(Layout(style, j, indent), style.stream, style.indentation, depth, 0, 0)
  {
    if j.JArray? && j.items != [] {
      OneLineIsNeat(j.items, style.stream, style.indentation, depth);
    } else {
      LeafLayout(style, j, indent);
      LeafIsNeat(j, style.stream, style.indentation, depth);
    }
  }

  lemma {:induction false} ItemLineIsNeat(style: Style, j: Json, indent: string, depth: nat)
    requires IsUnit(style.indentation) && indent == Steps(style.indentation, depth)
    ensures Neat(Line(indent, Layout(style, j, indent)), style.stream, style.indentation, depth, 0,
                 1 + LineBreaks(style.stream, j))
    decreases j, 2
  {
    LayoutIsNeat(style, j, indent, depth);
    LayoutStarts(style, j, indent);
    LineIsNeat(indent, Layout(style, j, indent), style.stream, style.indentation, depth, 0, LineBreaks(style.stream, j));
  }

  /** One line and those after it, and the same after a comma. */
  lemma LinesStep(line: string, more: string, stream: bool, unit: string, depth: int, here: nat, below: nat)
    requires Neat(line, stream, unit, depth, 0, here) && Neat(more, stream, unit, depth, 0, below)
    ensures Neat(line + more, stream, unit, depth, 0, here + below)
    ensures Neat("," + (line + more), stream, unit, depth, 0, here + below)
  {
    NeatAppend(line, more, stream, unit, depth, 0, 0, here, below);
    TokensAreNeat(stream, unit, depth);
    NeatAppend(",", line + more, stream, unit, depth, 0, 0, 0, here + below);
  }

  lemma {:induction false} ItemLinesAreNeat(style: Style, items: seq<Json>, indent: string, depth: nat)
    requires IsUnit(style.indentation) && indent == Steps(style.indentation, depth)
    ensures Neat(ItemLines(style, items, indent), style.stream, style.indentation, depth, 0, ItemBreaks(style.stream, items))
    ensures Neat(MoreItemLines(style, items, indent), style.stream, style.indentation, depth, 0,
                 ItemBreaks(style.stream, items))
    decreases items, 0
  {
    if items == [] {
      assert Neat("", style.stream, style.indentation, depth, 0, 0);
    } else {
      var line, more := Line(indent, Layout(style, items[0], indent)), MoreItemLines(style, items[1..], indent);
      var here, below := 1 + LineBreaks(style.stream, items[0]), ItemBreaks(style.stream, items[1..]);
      ItemLineIsNeat(style, items[0], indent, depth);
      ItemLinesAreNeat(style, items[1..], indent, depth);
      LinesStep(line, more, style.stream, style.indentation, depth, here, below);
    }
  }

  lemma NameIsNeat(name: string, stream: bool, unit: string, depth: int)
    ensures Neat(Quoted(name) + " : ", stream, unit, depth, 0, 0)
  {
    LeafIsNeat(JString(name), stream, unit, depth);
    SpacedAreNeat(stream, unit, depth);
    NeatAppend(Quoted(name), " : ", stream, unit, depth, 0, 0, 0, 0);
  }

  lemma {:induction false} MemberLineIsNeat(style: Style, m: (string, Json), indent: string, depth: nat)
    requires IsUnit(style.indentation) && indent == Steps(style.indentation, depth)
    ensures Neat(MemberLine(style, m, indent), style.stream, style.indentation, depth, 0, 1 + PairBreaks(style.stream, m))
    decreases m, 2
  {
    var name, value := Quoted(m.0) + " : ", Layout(style, m.1, indent);
    NameIsNeat(m.0, style.stream, style.indentation, depth);
    LayoutIsNeat(style, m.1, indent, depth);
    NeatAppend(name, value, style.stream, style.indentation, depth, 0, 0, 0, LineBreaks(style.stream, m.1));
    assert (name + value)[0] == '\"';
    LineIsNeat(indent, name + value, style.stream, style.indentation, depth, 0, PairBreaks(style.stream, m));
  }

  lemma {:induction false} MemberLinesAreNeat(style: Style, members: seq<(string, Json)>, indent: string, depth: nat)
    requires IsUnit(style.indentation) && indent == Steps(style.indentation, depth)
    ensures Neat(MemberLines(style, members, indent), style.stream, style.indentation, depth, 0,
                 MemberBreaks(style.stream, members))
    ensures Neat(MoreMemberLines(style, members, indent), style.stream, style.indentation, depth, 0,
                 MemberBreaks(style.stream, members))
    decreases members, 0
  {
    if members == [] {
      assert Neat("", style.stream, style.indentation, depth, 0, 0);
    } else {
      var line, more := MemberLine(style, members[0], indent), MoreMemberLines(style, members[1..], indent);
      var here, below := 1 + PairBreaks(style.stream, members[0]), MemberBreaks(style.stream, members[1..]);
      MemberLineIsNeat(style, members[0], indent, depth);
      MemberLinesAreNeat(style, members[1..], indent, depth);
      LinesStep(line, more, style.stream, style.indentation, depth, here, below);
    }
  }

  /** A whole document, its final line break aside: every line is indented by the brackets open
      where it starts, all brackets are closed at the end, and it has a line for every child and
      closing bracket of the containers that are spread out. */
  lemma DocumentIsIndented(style: Style, j: Json)
    requires IsUnit(style.indentation)
    ensures var t := Layout(style, j, "");
      && Indented(t, style.stream, style.indentation, 0, Outside)
      && Net(t, Outside) == 0 && Breaks(t) == LineBreaks(style.stream, j)
  {
    LayoutIsNeat(style, j, "", 0);
  }
}
