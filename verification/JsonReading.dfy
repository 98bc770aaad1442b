// Reading back what jsoncpp's indenting printers write: with blank indentation the
// RFC 8259 parser finds in a layout the tree that was laid out, whatever follows it.
module JsonReading {
  import opened Lists
  import opened Rfc8259
  import opened JsonText
  import opened JsonStrip
  import opened JsonRoundTrip
  import opened JsonLayout

  // ----- whitespace -----

  lemma {:induction false} BlankSkipped(b: string, t: string)
    requires Blank(b)
    ensures SkipWs(b + t) == SkipWs(t)
  {
    if b == "" {
      DropEmpty(t);
    } else {
      assert (b + t)[1..] == b[1..] + t && b[0] in b && forall c :: c in b[1..] ==> c in b;
      BlankSkipped(b[1..], t);
    }
  }

  lemma LineSkipped(indent: string, text: string, t: string)
    requires Blank(indent)
    ensures SkipWs(Line(indent, text) + t) == SkipWs(text + t)
  {
    assert Blank("\n" + indent);
    Regroup("\n" + indent, text, t);
    BlankSkipped("\n" + indent, text + t);
  }

  lemma OpeningSkipped(style: Style, indent: string, bracket: string, t: string)
    requires Blank(indent) && bracket in {"[", "{"}
    ensures SkipWs(Opening(style, indent, bracket) + t) == bracket + t
  {
    if style.stream {
      LineSkipped(indent, bracket, t);
    }
    NothingToSkip(bracket + t);
  }

  /** The line of a closing bracket ends any value before it. */
  lemma ClosingLine(indent: string, bracket: string, t: string)
    requires Blank(indent) && bracket in {"]", "}"}
    ensures SkipWs(Line(indent, bracket) + t) == bracket + t && Delimits(Line(indent, bracket) + t)
  {
    LineSkipped(indent, bracket, t);
    NothingToSkip(bracket + t);
    assert (Line(indent, bracket) + t)[0] == '\n';
  }

  // ----- one step of the parser -----

  lemma LastValue(text: string, v: Json, rest: string, t: string)
    requires ParseValue(text) == Done(v, rest) && SkipWs(rest) == "]" + t
    ensures ParseItems(text) == Done([v], t)
  {
    assert ("]" + t)[1..] == t;
  }

  lemma MoreValues(text: string, v: Json, body: string, items: seq<Json>, t: string)
    requires ParseValue(text) == Done(v, "," + body) && ParseItems(SkipWs(body)) == Done(items, t)
    ensures ParseItems(text) == Done([v] + items, t)
  {
    assert ("," + body)[1..] == body;
    NothingToSkip("," + body);
  }

  lemma LastPair(text: string, m: (string, Json), rest: string, t: string)
    requires ParseMember(text) == Done(m, rest) && SkipWs(rest) == "}" + t
    ensures ParseMembers(text) == Done([m], t)
  {
    assert ("}" + t)[1..] == t;
  }

  lemma MorePairs(text: string, m: (string, Json), body: string, members: seq<(string, Json)>, t: string)
    requires ParseMember(text) == Done(m, "," + body) && ParseMembers(SkipWs(body)) == Done(members, t)
    ensures ParseMembers(text) == Done([m] + members, t)
  {
    assert ("," + body)[1..] == body;
    NothingToSkip("," + body);
  }

  lemma ArrayStep(body: string, u: string, items: seq<Json>, t: string)
    requires SkipWs(body) == u && u != "" && u[0] != ']' && ParseItems(u) == Done(items, t)
    ensures ParseValue("[" + body) == Done(JArray(items), t)
  {
    assert ("[" + body)[1..] == body;
  }

  lemma BraceStep(body: string, u: string, members: seq<(string, Json)>, t: string)
    requires SkipWs(body) == u && u != "" && u[0] != '}' && ParseMembers(u) == Done(members, t)
    ensures ParseValue("{" + body) == Done(JObject(members), t)
  {
    assert ("{" + body)[1..] == body;
  }

  // ----- arrays on one line -----

  lemma LeafParses(j: Json, t: string)
    requires Plain(j) && Delimits(t)
    ensures ParseValue(Render(j, ":") + t) == Done(j, t)
    ensures SkipWs(Render(j, ":") + t) == Render(j, ":") + t
    ensures Render(j, ":") + t != "" && (Render(j, ":") + t)[0] != ']'
  {
    ValueParses(j, ":", t);
    RenderStarts(j, ":");
    assert (Render(j, ":") + t)[0] == Render(j, ":")[0];
    NothingToSkip(Render(j, ":") + t);
  }

  lemma JoinSplit(js: seq<Json>, end: string) returns (more: string)
    requires js != []
    ensures Join(Texts(js)) + end == Render(js[0], ":") + more
    ensures |js| == 1 ==> more == end
    ensures |js| > 1 ==> more == "," + (" " + (Join(Texts(js[1..])) + end))
  {
    var rest := js[1..];
    assert Texts(js)[1..] == Texts(rest);
    more := JoinMore(Texts(rest)) + end;
    Regroup(Render(js[0], ":"), JoinMore(Texts(rest)), end);
    if rest == [] {
      DropEmpty(end);
    } else {
      var line := Join(Texts(rest));
      assert JoinMore(Texts(rest)) == ", " + line;
      Regroup(", ", line, end);
      assert ", " == "," + " ";
      Regroup(",", " ", line + end);
    }
  }

  lemma {:induction false} JoinParses(js: seq<Json>, end: string, t: string)
    requires js != [] && (forall i :: 0 <= i < |js| ==> Plain(js[i]))
    requires SkipWs(end) == "]" + t && Delimits(end)
    ensures var text := Join(Texts(js)) + end;
      text != "" && text[0] != ']' && SkipWs(text) == text && ParseItems(text) == Done(js, t)
    decreases |js|
  {
    var text := Join(Texts(js)) + end;
    var more := JoinSplit(js, end);
    LeafParses(js[0], more);
    assert js == [js[0]] + js[1..];
    if |js| == 1 {
      assert js == [js[0]];
      LastValue(text, js[0], more, t);
    } else {
      var next := Join(Texts(js[1..])) + end;
      JoinParses(js[1..], end, t);
      BlankSkipped(" ", next);
      MoreValues(text, js[0], " " + next, js[1..], t);
    }
  }

  lemma OneLineParses(js: seq<Json>, t: string)
    requires js != [] && (forall i :: 0 <= i < |js| ==> Plain(js[i]))
    ensures ParseValue(OneLine(js) + t) == Done(JArray(js), t)
    ensures SkipWs(OneLine(js) + t) == OneLine(js) + t
  {
    var line, end := Join(Texts(js)), " ]" + t;
    SpaceBracket(t);
    JoinParses(js, end, t);
    BlankSkipped(" ", line + end);
    ArrayStep(" " + (line + end), line + end, js, t);
    OneLineText(line, t);
    NothingToSkip(OneLine(js) + t);
  }

  lemma SpaceBracket(t: string)
    ensures SkipWs(" ]" + t) == "]" + t && Delimits(" ]" + t)
  {
    assert " ]" + t == " " + ("]" + t);
    BlankSkipped(" ", "]" + t);
    NothingToSkip("]" + t);
  }

  lemma OneLineText(line: string, t: string)
    ensures ("[ " + line + " ]") + t == "[" + (" " + (line + (" ]" + t)))
  {
  }

  // ----- layouts -----

  /** A value laid out at any depth reads back as the tree, whatever follows it. */
  lemma {:induction false} LayoutParses(style: Style, j: Json, indent: string, t: string)
    requires Plain(j) && Blank(indent) && Blank(style.indentation) && Delimits(t)
    ensures ParseValue(SkipWs(Layout(style, j, indent) + t)) == Done(j, t)
    decreases j, 1
  {
    if Flat(j) {
      FlatParses(style, j, indent, t);
    } else if j.JArray? {
      ArrayLayoutParses(style, j.items, indent, t);
    } else {
      ObjectLayoutParses(style, j.members, indent, t);
    }
  }

  lemma FlatParses(style: Style, j: Json, indent: string, t: string)
    requires Plain(j) && Flat(j) && Delimits(t)
    ensures ParseValue(SkipWs(Layout(style, j, indent) + t)) == Done(j, t)
  {
    if j.JArray? && j.items != [] {
      OneLineParses(j.items, t);
    } else {
      LeafLayout(style, j, indent);
      LeafParses(j, t);
    }
  }

  lemma EnclosedText(open: string, body: string, close: string, t: string)
    ensures ((open + body) + close) + t == open + (body + (close + t))
  {
  }

  lemma {:induction false} ArrayLayoutParses(style: Style, items: seq<Json>, indent: string, t: string)
    requires items != [] && !Fits(items) && (forall i :: 0 <= i < |items| ==> Plain(items[i]))
    requires Blank(indent) && Blank(style.indentation)
    ensures ParseValue(SkipWs(Layout(style, JArray(items), indent) + t)) == Done(JArray(items), t)
    decreases items, 1
  {
    var deeper, end := indent + style.indentation, Line(indent, "]") + t;
    var body := ItemLines(style, items, deeper) + end;
    ClosingLine(indent, "]", t);
    ItemLinesParse(style, items, deeper, end, t);
    EnclosedText(Opening(style, indent, "["), ItemLines(style, items, deeper), Line(indent, "]"), t);
    OpeningSkipped(style, indent, "[", body);
    ArrayStep(body, SkipWs(body), items, t);
  }

  lemma ItemLinesSplit(style: Style, items: seq<Json>, indent: string, end: string) returns (more: string)
    requires items != [] && Blank(indent) && Delimits(end)
    ensures SkipWs(ItemLines(style, items, indent) + end) == SkipWs(Layout(style, items[0], indent) + more)
    ensures |items| == 1 ==> more == end
    ensures |items| > 1 ==> more == "," + (ItemLines(style, items[1..], indent) + end)
    ensures Delimits(more)
  {
    var first, rest := Layout(style, items[0], indent), MoreItemLines(style, items[1..], indent);
    more := rest + end;
    Regroup(Line(indent, first), rest, end);
    LineSkipped(indent, first, more);
    if |items| == 1 {
      DropEmpty(end);
    } else {
      Regroup(",", ItemLines(style, items[1..], indent), end);
    }
  }

  lemma {:induction false} ItemLinesParse(style: Style, items: seq<Json>, indent: string, end: string, t: string)
    requires items != [] && (forall i :: 0 <= i < |items| ==> Plain(items[i]))
    requires Blank(indent) && Blank(style.indentation) && SkipWs(end) == "]" + t && Delimits(end)
    ensures var u := SkipWs(ItemLines(style, items, indent) + end);
      u != "" && u[0] != ']' && ParseItems(u) == Done(items, t)
    decreases items, 0
  {
    var u := SkipWs(ItemLines(style, items, indent) + end);
    var more := ItemLinesSplit(style, items, indent, end);
    LayoutParses(style, items[0], indent, more);
    ValueStart(u);
    assert items == [items[0]] + items[1..];
    if |items| == 1 {
      assert items == [items[0]];
      LastValue(u, items[0], more, t);
    } else {
      ItemLinesParse(style, items[1..], indent, end, t);
      MoreValues(u, items[0], ItemLines(style, items[1..], indent) + end, items[1..], t);
    }
  }

  lemma ValueStart(u: string)
    ensures u == "" || u[0] == ']' ==> ParseValue(u) == Fail
  {
  }

  lemma {:induction false} ObjectLayoutParses(style: Style, members: seq<(string, Json)>, indent: string, t: string)
    requires members != [] && (forall i :: 0 <= i < |members| ==> PlainMember(members[i]))
    requires Blank(indent) && Blank(style.indentation)
    ensures ParseValue(SkipWs(Layout(style, JObject(members), indent) + t)) == Done(JObject(members), t)
    decreases members, 1
  {
    var deeper, end := indent + style.indentation, Line(indent, "}") + t;
    var body := MemberLines(style, members, deeper) + end;
    ClosingLine(indent, "}", t);
    MemberLinesParse(style, members, deeper, end, t);
    EnclosedText(Opening(style, indent, "{"), MemberLines(style, members, deeper), Line(indent, "}"), t);
    OpeningSkipped(style, indent, "{", body);
    BraceStep(body, SkipWs(body), members, t);
  }

  lemma MemberLinesSplit(style: Style, members: seq<(string, Json)>, indent: string, end: string) returns (more: string)
    requires members != [] && Delimits(end)
    ensures MemberLines(style, members, indent) + end == MemberLine(style, members[0], indent) + more
    ensures |members| == 1 ==> more == end
    ensures |members| > 1 ==> more == "," + (MemberLines(style, members[1..], indent) + end)
    ensures Delimits(more)
  {
    var rest := MoreMemberLines(style, members[1..], indent);
    more := rest + end;
    Regroup(MemberLine(style, members[0], indent), rest, end);
    if |members| == 1 {
      DropEmpty(end);
    } else {
      Regroup(",", MemberLines(style, members[1..], indent), end);
    }
  }

  /** The name and the colon between blanks. */
  lemma NameParses(name: string, v: Json, value: string, t: string)
    requires '\0' !in name && ParseValue(SkipWs(value)) == Done(v, t)
    ensures ParseMember(Quoted(name) + (" : " + value)) == Done((name, v), t)
  {
    var afterName := " : " + value;
    QuotedParses(name, afterName);
    ColonSkipped(value);
    NameStages(Quoted(name) + afterName, name, afterName, value, v, t);
  }

  lemma ColonSkipped(value: string)
    ensures SkipWs(" : " + value) == ":" + (" " + value) && SkipWs(" " + value) == SkipWs(value)
  {
    assert " : " + value == " " + (":" + (" " + value));
    BlankSkipped(" ", ":" + (" " + value));
    NothingToSkip(":" + (" " + value));
    BlankSkipped(" ", value);
  }

  lemma NameStages(s: string, name: string, afterName: string, value: string, v: Json, t: string)
    requires s != "" && s[0] == '\"' && ParseChars(s[1..]) == Done(name, afterName)
    requires SkipWs(afterName) == ":" + (" " + value) && SkipWs(" " + value) == SkipWs(value)
    requires ParseValue(SkipWs(value)) == Done(v, t)
    ensures ParseMember(s) == Done((name, v), t)
  {
    assert (":" + (" " + value))[1..] == " " + value;
  }

  lemma {:induction false} MemberLineParses(style: Style, m: (string, Json), indent: string, t: string)
    requires PlainMember(m) && Blank(indent) && Blank(style.indentation) && Delimits(t)
    ensures var u := SkipWs(MemberLine(style, m, indent) + t);
      u != "" && u[0] == '\"' && ParseMember(u) == Done(m, t)
    decreases m, 2
  {
    var value := Layout(style, m.1, indent);
    LayoutParses(style, m.1, indent, t);
    NameParses(m.0, m.1, value + t, t);
    LineSkipped(indent, (Quoted(m.0) + " : ") + value, t);
    MemberGroups(Quoted(m.0), value, t);
    NothingToSkip(Quoted(m.0) + (" : " + (value + t)));
  }

  lemma MemberGroups(name: string, value: string, t: string)
    ensures ((name + " : ") + value) + t == name + (" : " + (value + t))
  {
  }

  lemma {:induction false} MemberLinesParse(style: Style, members: seq<(string, Json)>, indent: string,
                                            end: string, t: string)
    requires members != [] && (forall i :: 0 <= i < |members| ==> PlainMember(members[i]))
    requires Blank(indent) && Blank(style.indentation) && SkipWs(end) == "}" + t && Delimits(end)
    ensures var u := SkipWs(MemberLines(style, members, indent) + end);
      u != "" && u[0] != '}' && ParseMembers(u) == Done(members, t)
    decreases members, 0
  {
    var u := SkipWs(MemberLines(style, members, indent) + end);
    var more := MemberLinesSplit(style, members, indent, end);
    MemberLineParses(style, members[0], indent, more);
    assert members == [members[0]] + members[1..];
    if |members| == 1 {
      assert members == [members[0]];
      LastPair(u, members[0], more, t);
    } else {
      MemberLinesParse(style, members[1..], indent, end, t);
      MorePairs(u, members[0], MemberLines(style, members[1..], indent) + end, members[1..], t);
    }
  }

  /** A document of an indenting writer parses to the tree printed, if the indentation is
      blank; or if nothing is indented. */
  lemma StyledDocumentParses(style: Style, j: Json)
    requires Plain(j) && (Blank(style.indentation) || Flat(j))
    ensures ParseText(Layout(style, j, "") + "\n") == Done(j, "")
  {
    if Flat(j) {
      FlatParses(style, j, "", "\n");
    } else {
      LayoutParses(style, j, "", "\n");
    }
    assert "\n"[1..] == "";
  }
}
