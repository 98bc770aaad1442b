// The layout of jsoncpp's indenting printers (json_writer.cpp) as a function of the
// tree: which arrays stand on one line, where the others and the objects break,
// and what is left once the whitespace outside strings is removed.
module JsonLayout {
  import opened Numerals
  import opened Rfc8259
  import opened JsonText
  import opened JsonStrip
  import opened JsonRoundTrip

  const RIGHT_MARGIN := 74

  /** Not an array or object with content. */
  predicate IsLeaf(j: Json) {
    !(j.JArray? && j.items != []) && !(j.JObject? && j.members != [])
  }

  function Texts(js: seq<Json>): (ts: seq<string>)
    ensures |ts| == |js| && forall i :: 0 <= i < |js| ==> ts[i] == Render(js[i], ":")
  {
    if js == [] then [] else [Render(js[0], ":")] + Texts(js[1..])
  }

  function JoinMore(ts: seq<string>): string {
    if ts == [] then "" else ", " + (ts[0] + JoinMore(ts[1..]))
  }

  function Join(ts: seq<string>): string {
    if ts == [] then "" else ts[0] + JoinMore(ts[1..])
  }

  /** The array on a single line. */
  function OneLine(js: seq<Json>): string {
    "[ " + Join(Texts(js)) + " ]"
  }

  /** The layout rule: one line for arrays of leaves whose line is shorter than the margin. */
  predicate Fits(js: seq<Json>) {
    js != [] && (forall i :: 0 <= i < |js| ==> IsLeaf(js[i])) && |OneLine(js)| < RIGHT_MARGIN
  }

  function TotalLength(ts: seq<string>): nat {
    if ts == [] then 0 else TotalLength(ts[..|ts| - 1]) + |ts[|ts| - 1]|
  }

  lemma {:induction false} JoinMoreLength(ts: seq<string>)
    ensures |JoinMore(ts)| == 2 * |ts| + TotalLength(ts)
  {
    if ts != [] {
      JoinMoreLength(ts[1..]);
      TotalFromFront(ts);
    }
  }

  lemma {:induction false} TotalFromFront(ts: seq<string>)
    requires ts != []
    ensures TotalLength(ts) == |ts[0]| + TotalLength(ts[1..])
  {
    var n := |ts| - 1;
    if n > 0 {
      TotalFromFront(ts[..n]);
      assert ts[..n][1..] == ts[1..][..n - 1];
    }
  }

  lemma OneLineLength(js: seq<Json>)
    requires js != []
    ensures |OneLine(js)| == 4 + (|js| - 1) * 2 + TotalLength(Texts(js))
  {
    var ts := Texts(js);
    JoinMoreLength(ts[1..]);
    TotalFromFront(ts);
  }

  lemma {:induction false} TotalAtLeast(ts: seq<string>)
    requires forall i :: 0 <= i < |ts| ==> |ts[i]| >= 1
    ensures TotalLength(ts) >= |ts|
  {
    if ts != [] {
      TotalAtLeast(ts[..|ts| - 1]);
    }
  }

  /** The early test on the number of elements never rules out an array that would fit. */
  lemma ManyNeverFit(js: seq<Json>)
    requires |js| * 3 >= RIGHT_MARGIN
    ensures !Fits(js)
  {
    forall i | 0 <= i < |js| ensures |Texts(js)[i]| >= 1 {
      RenderNotEmpty(js[i]);
    }
    TotalAtLeast(Texts(js));
    OneLineLength(js);
  }

  lemma RenderNotEmpty(j: Json)
    ensures |Render(j, ":")| >= 1
  {
  }

  lemma {:induction false} JoinMoreIsBare(js: seq<Json>)
    ensures Closed(JoinMore(Texts(js))) && Bare(JoinMore(Texts(js))) == RenderMoreItems(js, ":")
  {
    if js != [] {
      JoinMoreIsBare(js[1..]);
      assert Texts(js)[1..] == Texts(js[1..]);
      RenderIsBare(js[0], ":");
      CommaSpace();
      BareAppend(Render(js[0], ":"), JoinMore(Texts(js[1..])));
      BareAppend(", ", Render(js[0], ":") + JoinMore(Texts(js[1..])));
    }
  }

  lemma CommaSpace()
    ensures Closed(", ") && Bare(", ") == ","
    ensures Closed("[ ") && Bare("[ ") == "["
    ensures Closed(" ]") && Bare(" ]") == "]"
    ensures Closed(" : ") && Bare(" : ") == ":"
  {
    assert ", "[1..] == " " && "[ "[1..] == " " && " "[1..] == "";
    assert " ]"[1..] == "]" && "]"[1..] == "" && " : "[1..] == ": " && ": "[1..] == " ";
  }

  lemma BracketsAreBare()
    ensures forall t :: t in {"[", "]", "{", "}", ","} ==> Closed(t) && Bare(t) == t
  {
    TokenIsBare("[");
    TokenIsBare("]");
    TokenIsBare("{");
    TokenIsBare("}");
    TokenIsBare(",");
  }

  lemma OneLineIsBare(js: seq<Json>)
    requires js != []
    ensures Closed(OneLine(js)) && Bare(OneLine(js)) == Render(JArray(js), ":")
  {
    JoinMoreIsBare(js[1..]);
    assert Texts(js)[1..] == Texts(js[1..]);
    RenderIsBare(js[0], ":");
    CommaSpace();
    BareAppend(Render(js[0], ":"), JoinMore(Texts(js[1..])));
    BareAppend("[ ", Join(Texts(js)));
    BareAppend("[ " + Join(Texts(js)), " ]");
  }

  lemma NewlineIsBare(t: string)
    requires Closed(t)
    ensures Closed(t + "\n") && Bare(t + "\n") == Bare(t)
  {
    BlankIsBare("\n");
    BareAppend(t, "\n");
  }

  // ----- the layout -----

  /** StyledWriter indents by three spaces, the stream writer by what the caller wants, and
      it breaks the line before an opening bracket too. */
  datatype AnyStyle = Style(stream: bool, indentation: string)

  const STYLED: AnyStyle := Style(false, "   ")

  type Style = s: AnyStyle | s.stream || s == STYLED witness STYLED

  function Line(indent: string, text: string): string {
    ("\n" + indent) + text
  }

  function Opening(style: Style, indent: string, bracket: string): string {
    if style.stream then Line(indent, bracket) else bracket
  }

  /** A value at some depth: containers with content that do not fit on a line break before
      every element and before the closing bracket. */
  function Layout(style: Style, j: Json, indent: string): string
    decreases j, 1
  {
    match j
    case JArray(items) =>
      if items == [] then "[]"
      else if Fits(items) then OneLine(items)
      else (Opening(style, indent, "[") + ItemLines(style, items, indent + style.indentation)) + Line(indent, "]")
    case JObject(members) =>
      if members == [] then "{}"
      else (Opening(style, indent, "{") + MemberLines(style, members, indent + style.indentation)) + Line(indent, "}")
    case _ => Render(j, ":")
  }

  function ItemLines(style: Style, items: seq<Json>, indent: string): string
    decreases items, 0
  {
    if items == [] then ""
    else Line(indent, Layout(style, items[0], indent)) + MoreItemLines(style, items[1..], indent)
  }

  function MoreItemLines(style: Style, items: seq<Json>, indent: string): string
    decreases items, 0
  {
    if items == [] then ""
    else "," + (Line(indent, Layout(style, items[0], indent)) + MoreItemLines(style, items[1..], indent))
  }

  function MemberLine(style: Style, m: (string, Json), indent: string): string
    decreases m, 2
  {
    Line(indent, (Quoted(m.0) + " : ") + Layout(style, m.1, indent))
  }

  function MemberLines(style: Style, members: seq<(string, Json)>, indent: string): string
    decreases members, 0
  {
    if members == [] then ""
    else MemberLine(style, members[0], indent) + MoreMemberLines(style, members[1..], indent)
  }

  function MoreMemberLines(style: Style, members: seq<(string, Json)>, indent: string): string
    decreases members, 0
  {
    if members == [] then ""
    else "," + (MemberLine(style, members[0], indent) + MoreMemberLines(style, members[1..], indent))
  }

  /** Printed on one line: scalars, empty containers and arrays that fit. */
  predicate Flat(j: Json) {
    IsLeaf(j) || (j.JArray? && Fits(j.items))
  }

  lemma LeafLayout(style: Style, j: Json, indent: string)
    requires IsLeaf(j)
    ensures Layout(style, j, indent) == Render(j, ":")
  {
  }

  // ----- where a layout ends -----

  predicate EndsSolid(t: string) {
    t != "" && t[|t| - 1] != ' ' && t[|t| - 1] != '\n'
  }

  lemma RenderEnds(j: Json)
    ensures EndsSolid(Render(j, ":"))
  {
    match j
    case JNumber(m, _) => DecimalIsDigits(if m < 0 then -m else m);
    case _ =>
  }

  lemma LayoutEnds(style: Style, j: Json, indent: string)
    ensures EndsSolid(Layout(style, j, indent))
  {
    if Flat(j) {
      RenderEnds(j);
    }
  }

  // ----- blank indentation: nothing but whitespace is added -----

  lemma LineIsBare(indent: string, text: string)
    requires Blank(indent) && Closed(text)
    ensures Closed(Line(indent, text)) && Bare(Line(indent, text)) == Bare(text)
  {
    assert Blank("\n" + indent);
    BlankIsBare("\n" + indent);
    BareAppend("\n" + indent, text);
  }

  lemma OpeningIsBare(style: Style, indent: string, bracket: string)
    requires Blank(indent) && bracket in {"[", "{"}
    ensures Closed(Opening(style, indent, bracket)) && Bare(Opening(style, indent, bracket)) == bracket
  {
    BracketsAreBare();
    LineIsBare(indent, bracket);
  }

  lemma {:induction false} LayoutIsBare(style: Style, j: Json, indent: string)
    requires Blank(indent) && Blank(style.indentation)
    ensures Closed(Layout(style, j, indent)) && Bare(Layout(style, j, indent)) == Render(j, ":")
    decreases j, 1
  {
    var deeper := indent + style.indentation;
    if Flat(j) {
      FlatIsBare(style, j, indent);
    } else if j.JArray? {
      ItemLinesAreBare(style, j.items, deeper);
      EnclosedIsBare(style, indent, "[", ItemLines(style, j.items, deeper), "]");
    } else {
      MemberLinesAreBare(style, j.members, deeper);
      EnclosedIsBare(style, indent, "{", MemberLines(style, j.members, deeper), "}");
    }
  }

  lemma FlatIsBare(style: Style, j: Json, indent: string)
    requires Flat(j)
    ensures Closed(Layout(style, j, indent)) && Bare(Layout(style, j, indent)) == Render(j, ":")
  {
    if j.JArray? && j.items != [] {
      OneLineIsBare(j.items);
    } else {
      RenderIsBare(j, ":");
    }
  }

  lemma EnclosedIsBare(style: Style, indent: string, open: string, body: string, close: string)
    requires Blank(indent) && open in {"[", "{"} && close in {"]", "}"} && Closed(body)
    ensures var t := (Opening(style, indent, open) + body) + Line(indent, close);
      Closed(t) && Bare(t) == open + Bare(body) + close
  {
    BracketsAreBare();
    OpeningIsBare(style, indent, open);
    LineIsBare(indent, close);
    BareAppend(Opening(style, indent, open), body);
    BareAppend(Opening(style, indent, open) + body, Line(indent, close));
  }

  lemma {:induction false} ItemLinesAreBare(style: Style, items: seq<Json>, indent: string)
    requires Blank(indent) && Blank(style.indentation)
    ensures Closed(ItemLines(style, items, indent)) && Bare(ItemLines(style, items, indent)) == RenderItems(items, ":")
    decreases items, 0
  {
    if items != [] {
      LayoutIsBare(style, items[0], indent);
      LineIsBare(indent, Layout(style, items[0], indent));
      MoreItemLinesAreBare(style, items[1..], indent);
      BareAppend(Line(indent, Layout(style, items[0], indent)), MoreItemLines(style, items[1..], indent));
    }
  }

  lemma {:induction false} MoreItemLinesAreBare(style: Style, items: seq<Json>, indent: string)
    requires Blank(indent) && Blank(style.indentation)
    ensures Closed(MoreItemLines(style, items, indent))
    ensures Bare(MoreItemLines(style, items, indent)) == RenderMoreItems(items, ":")
    decreases items, 0
  {
    if items != [] {
      LayoutIsBare(style, items[0], indent);
      LineIsBare(indent, Layout(style, items[0], indent));
      MoreItemLinesAreBare(style, items[1..], indent);
      BareAppend(Line(indent, Layout(style, items[0], indent)), MoreItemLines(style, items[1..], indent));
      TokenIsBare(",");
      BareAppend(",", Line(indent, Layout(style, items[0], indent)) + MoreItemLines(style, items[1..], indent));
    }
  }

  lemma {:induction false} MemberLineIsBare(style: Style, m: (string, Json), indent: string)
    requires Blank(indent) && Blank(style.indentation)
    ensures Closed(MemberLine(style, m, indent)) && Bare(MemberLine(style, m, indent)) == RenderMember(m, ":")
    decreases m, 2
  {
    QuotedIsBare(m.0);
    CommaSpace();
    BareAppend(Quoted(m.0), " : ");
    LayoutIsBare(style, m.1, indent);
    BareAppend(Quoted(m.0) + " : ", Layout(style, m.1, indent));
    LineIsBare(indent, (Quoted(m.0) + " : ") + Layout(style, m.1, indent));
  }

  lemma {:induction false} MemberLinesAreBare(style: Style, members: seq<(string, Json)>, indent: string)
    requires Blank(indent) && Blank(style.indentation)
    ensures Closed(MemberLines(style, members, indent))
    ensures Bare(MemberLines(style, members, indent)) == RenderMembers(members, ":")
    decreases members, 0
  {
    if members != [] {
      MemberLineIsBare(style, members[0], indent);
      MoreMemberLinesAreBare(style, members[1..], indent);
      BareAppend(MemberLine(style, members[0], indent), MoreMemberLines(style, members[1..], indent));
    }
  }

  lemma {:induction false} MoreMemberLinesAreBare(style: Style, members: seq<(string, Json)>, indent: string)
    requires Blank(indent) && Blank(style.indentation)
    ensures Closed(MoreMemberLines(style, members, indent))
    ensures Bare(MoreMemberLines(style, members, indent)) == RenderMoreMembers(members, ":")
    decreases members, 0
  {
    if members != [] {
      MemberLineIsBare(style, members[0], indent);
      MoreMemberLinesAreBare(style, members[1..], indent);
      BareAppend(MemberLine(style, members[0], indent), MoreMemberLines(style, members[1..], indent));
      TokenIsBare(",");
      BareAppend(",", MemberLine(style, members[0], indent) + MoreMemberLines(style, members[1..], indent));
    }
  }

  // ----- any other indentation shows -----

  /** The number of characters that are not whitespace. */
  function Ink(t: string): nat {
    if t == "" then 0 else (if IsWs(t[0]) then 0 else 1) + Ink(t[1..])
  }

  lemma {:induction false} InkAppend(a: string, b: string)
    ensures Ink(a + b) == Ink(a) + Ink(b)
  {
    if a == "" {
      assert a + b == b;
    } else {
      assert (a + b)[1..] == a[1..] + b;
      InkAppend(a[1..], b);
    }
  }

  /** Removing whitespace loses no ink. */
  lemma {:induction false} StripKeepsInk(t: string, m: Mode)
    ensures Ink(Strip(t, m)) == Ink(t)
    decreases |t|
  {
    if t != "" {
      var rest := Strip(t[1..], NextMode(m, t[0]));
      StripKeepsInk(t[1..], NextMode(m, t[0]));
      if !(m == Outside && IsWs(t[0])) {
        assert ([t[0]] + rest)[1..] == rest;
      } else {
        assert "" + rest == rest;
      }
    }
  }

  lemma {:induction false} BlankIffNoInk(t: string)
    ensures Blank(t) <==> Ink(t) == 0
  {
    if t != "" {
      BlankIffNoInk(t[1..]);
      assert t == [t[0]] + t[1..];
    }
  }

  lemma LineInk(indent: string, text: string)
    ensures Ink(Line(indent, text)) == Ink(indent) + Ink(text)
  {
    InkAppend("\n", indent);
    InkAppend("\n" + indent, text);
    assert "\n"[1..] == "";
  }

  lemma InkAppend3(a: string, b: string, c: string)
    ensures Ink((a + b) + c) == Ink(a) + Ink(b) + Ink(c)
  {
    InkAppend(a, b);
    InkAppend(a + b, c);
  }

  lemma {:induction false} LayoutInk(style: Style, j: Json, indent: string)
    ensures Ink(Layout(style, j, indent)) >= Ink(Render(j, ":")) + (if Flat(j) then 0 else Ink(style.indentation))
    decreases j, 1
  {
    var deeper := indent + style.indentation;
    InkAppend(indent, style.indentation);
    if Flat(j) {
      FlatIsBare(style, j, indent);
      StripKeepsInk(Layout(style, j, indent), Outside);
    } else if j.JArray? {
      ItemLinesInk(style, j.items, deeper);
      EnclosedInk(style, indent, "[", ItemLines(style, j.items, deeper), "]");
      InkAppend3("[", RenderItems(j.items, ":"), "]");
    } else {
      MemberLinesInk(style, j.members, deeper);
      EnclosedInk(style, indent, "{", MemberLines(style, j.members, deeper), "}");
      InkAppend3("{", RenderMembers(j.members, ":"), "}");
    }
  }

  lemma EnclosedInk(style: Style, indent: string, open: string, body: string, close: string)
    ensures Ink((Opening(style, indent, open) + body) + Line(indent, close)) >= Ink(open) + Ink(body) + Ink(close)
  {
    LineInk(indent, open);
    LineInk(indent, close);
    InkAppend3(Opening(style, indent, open), body, Line(indent, close));
  }

  lemma {:induction false} ItemLinesInk(style: Style, items: seq<Json>, indent: string)
    ensures Ink(ItemLines(style, items, indent)) >= Ink(RenderItems(items, ":")) + (if items == [] then 0 else Ink(indent))
    decreases items, 0
  {
    if items != [] {
      LayoutInk(style, items[0], indent);
      LineInk(indent, Layout(style, items[0], indent));
      MoreItemLinesInk(style, items[1..], indent);
      InkAppend(Line(indent, Layout(style, items[0], indent)), MoreItemLines(style, items[1..], indent));
      InkAppend(Render(items[0], ":"), RenderMoreItems(items[1..], ":"));
    }
  }

  lemma {:induction false} MoreItemLinesInk(style: Style, items: seq<Json>, indent: string)
    ensures Ink(MoreItemLines(style, items, indent)) >= Ink(RenderMoreItems(items, ":"))
    decreases items, 0
  {
    if items != [] {
      LayoutInk(style, items[0], indent);
      LineInk(indent, Layout(style, items[0], indent));
      MoreItemLinesInk(style, items[1..], indent);
      InkAppend(Line(indent, Layout(style, items[0], indent)), MoreItemLines(style, items[1..], indent));
      InkAppend(Render(items[0], ":"), RenderMoreItems(items[1..], ":"));
      InkAppend(",", Line(indent, Layout(style, items[0], indent)) + MoreItemLines(style, items[1..], indent));
      InkAppend(",", Render(items[0], ":") + RenderMoreItems(items[1..], ":"));
    }
  }

  lemma {:induction false} MemberLineInk(style: Style, m: (string, Json), indent: string)
    ensures Ink(MemberLine(style, m, indent)) >= Ink(RenderMember(m, ":")) + Ink(indent)
    decreases m, 2
  {
    LayoutInk(style, m.1, indent);
    InkAppend3(Quoted(m.0), " : ", Layout(style, m.1, indent));
    LineInk(indent, (Quoted(m.0) + " : ") + Layout(style, m.1, indent));
    InkAppend3(Quoted(m.0), ":", Render(m.1, ":"));
    ColonInk();
  }

  lemma ColonInk()
    ensures Ink(" : ") == Ink(":") == 1
  {
    assert " : "[1..] == ": " && ": "[1..] == " " && " "[1..] == "" && ":"[1..] == "";
  }

  lemma {:induction false} MemberLinesInk(style: Style, members: seq<(string, Json)>, indent: string)
    ensures Ink(MemberLines(style, members, indent))
         >= Ink(RenderMembers(members, ":")) + (if members == [] then 0 else Ink(indent))
    decreases members, 0
  {
    if members != [] {
      MemberLineInk(style, members[0], indent);
      MoreMemberLinesInk(style, members[1..], indent);
      InkAppend(MemberLine(style, members[0], indent), MoreMemberLines(style, members[1..], indent));
      InkAppend(RenderMember(members[0], ":"), RenderMoreMembers(members[1..], ":"));
    }
  }

  lemma {:induction false} MoreMemberLinesInk(style: Style, members: seq<(string, Json)>, indent: string)
    ensures Ink(MoreMemberLines(style, members, indent)) >= Ink(RenderMoreMembers(members, ":"))
    decreases members, 0
  {
    if members != [] {
      MemberLineInk(style, members[0], indent);
      MoreMemberLinesInk(style, members[1..], indent);
      InkAppend(MemberLine(style, members[0], indent), MoreMemberLines(style, members[1..], indent));
      InkAppend(RenderMember(members[0], ":"), RenderMoreMembers(members[1..], ":"));
      InkAppend(",", MemberLine(style, members[0], indent) + MoreMemberLines(style, members[1..], indent));
      InkAppend(",", RenderMember(members[0], ":") + RenderMoreMembers(members[1..], ":"));
    }
  }

  /** A document is the compact text plus whitespace outside strings exactly when the
      indentation is blank or nothing in it is indented. */
  lemma DocumentIsBareIff(style: Style, j: Json)
    ensures Bare(Layout(style, j, "") + "\n") == Render(j, ":") <==> Blank(style.indentation) || Flat(j)
  {
    var t := Layout(style, j, "");
    if Blank(style.indentation) {
      LayoutIsBare(style, j, "");
      NewlineIsBare(t);
    } else if Flat(j) {
      FlatIsBare(style, j, "");
      NewlineIsBare(t);
    } else {
      BlankIffNoInk(style.indentation);
      LayoutInk(style, j, "");
      InkAppend(t, "\n");
      StripKeepsInk(t + "\n", Outside);
    }
  }

  // ----- one line or several -----

  predicate Unbroken(t: string) {
    forall i :: 0 <= i < |t| ==> t[i] != '\n'
  }

  lemma EscapeCharUnbroken(c: char)
    ensures Unbroken(EscapeChar(c))
  {
    if IsControlCharacter(c) && !IsSpecial(c) {
      HexDigits(c as nat);
      DigitCharValue(c as nat / 16, true);
      DigitCharValue(c as nat % 16, true);
    }
  }

  lemma {:induction false} EscapeUnbroken(s: string)
    ensures Unbroken(Escape(s))
  {
    if s != "" {
      EscapeCharUnbroken(s[0]);
      EscapeUnbroken(s[1..]);
    }
  }

  lemma QuotedUnbroken(s: string)
    requires Unbroken(Escape(s))
    ensures Unbroken(Quoted(s))
  {
  }

  lemma LeafUnbroken(j: Json)
    requires IsLeaf(j)
    ensures Unbroken(Render(j, ":"))
  {
    match j
    case JNumber(m, _) => DecimalIsDigits(if m < 0 then -m else m);
    case JString(s) =>
      EscapeUnbroken(s);
      QuotedUnbroken(s);
    case _ =>
  }

  lemma {:induction false} JoinMoreUnbroken(js: seq<Json>)
    requires forall i :: 0 <= i < |js| ==> IsLeaf(js[i])
    ensures Unbroken(JoinMore(Texts(js)))
  {
    if js != [] {
      LeafUnbroken(js[0]);
      assert Texts(js)[1..] == Texts(js[1..]);
      JoinMoreUnbroken(js[1..]);
    }
  }

  /** A value is printed on one line exactly when it is flat, in particular an array with
      elements exactly when it fits, and then its line is shorter than the margin. */
  lemma OneLineIffFlat(style: Style, j: Json, indent: string)
    ensures Unbroken(Layout(style, j, indent)) <==> Flat(j)
    ensures j.JArray? && j.items != [] && Flat(j) ==> |Layout(style, j, indent)| < RIGHT_MARGIN
  {
    var t := Layout(style, j, indent);
    if IsLeaf(j) {
      LeafUnbroken(j);
    } else if Flat(j) {
      LeafUnbroken(j.items[0]);
      assert Texts(j.items)[1..] == Texts(j.items[1..]);
      JoinMoreUnbroken(j.items[1..]);
    } else {
      var close := Line(indent, if j.JArray? then "]" else "}");
      var before := |t| - |close|;
      assert t[before..] == close && t[before] == close[0] == '\n';
    }
  }
}
