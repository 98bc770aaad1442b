// jsoncpp's indenting printers (json_writer.cpp): StyledWriter, which builds a
// string, and StyledStreamWriter, which writes to a stream with an indentation of
// the caller's choice. They differ only in how an indented line is started, so one
// class models both. The document of the stream writer is the text it has written.
module JsonStyled {
  import opened Words
  import opened Lists
  import opened Wrappers
  import V = JsonValue
  import opened Rfc8259
  import opened JsonText
  import opened JsonStrip
  import opened JsonWriters
  import opened JsonLayout
  import opened JsonMeaning
  import opened JsonReading

  // ----- measuring a line in int -----

  /** `size*3 >= rightMargin_` on ints gives the intended answer for just these sizes. */
  lemma MarginTestRightIff(size: nat)
    requires size <= INT_MAX
    ensures (IntOf(size * 3) >= RIGHT_MARGIN <==> size * 3 >= RIGHT_MARGIN)
      <==> size <= 715827882 || size >= 1431655790
  {
  }

  predicate AllLeaves(js: seq<Json>) {
    forall i :: 0 <= i < |js| ==> IsLeaf(js[i])
  }

  /** No int overflows while arrays are measured: neither size*3 nor the length of a line
      of leaves that is added up. */
  ghost predicate Measurable(v: V.Value)
    decreases v, 1
  {
    match v
    case Array(es) =>
      && IndicesBelow(es, 715827882)
      && (ArraySize(es) * 3 < RIGHT_MARGIN && AllLeaves(Dense(es, 0)) ==> |OneLine(Dense(es, 0))| <= INT_MAX)
      && forall i :: 0 <= i < |es| ==> MeasurableEntry(es[i])
    case Object(es) => forall i :: 0 <= i < |es| ==> MeasurableEntry(es[i])
    case _ => true
  }

  ghost predicate MeasurableEntry(e: V.Entry)
    decreases e, 2
  {
    Measurable(e.value)
  }

  lemma SizeIsSmall(es: seq<V.Entry>)
    requires Legal(V.Array(es)) && Measurable(V.Array(es))
    ensures |Dense(es, 0)| == ArraySize(es) <= 715827882 && (es != [] ==> ArraySize(es) > 0)
  {
    DenseAt(es, 0, 0);
    if es != [] {
      assert LegalEntry(es[|es| - 1], false);
    }
  }

  lemma ElementIsMeasurable(es: seq<V.Entry>, i: nat)
    requires Legal(V.Array(es)) && Measurable(V.Array(es)) && i < ArraySize(es)
    ensures Legal(At(es, i)) && Measurable(At(es, i)) && V.Size(At(es, i)) <= V.SizeAll(es)
    ensures |Dense(es, 0)| == ArraySize(es) && Dense(es, 0)[i] == ToJson(At(es, i))
  {
    AtIsSmaller(es, i);
    FoundIsSmaller(es, V.Index(i));
    DenseAt(es, 0, i);
    assert Dense(es, 0)[i..][0] == Dense(es, 0)[i];
    assert forall k :: 0 <= k < |es| ==> MeasurableEntry(es[k]);
  }

  lemma MemberIsMeasurable(es: seq<V.Entry>, i: nat)
    requires Legal(V.Object(es)) && Measurable(V.Object(es)) && i < |es|
    ensures es[i].key.Name? && Find(es, es[i].key) == Some(es[i].value)
    ensures Legal(es[i].value) && Measurable(es[i].value) && V.Size(es[i].value) <= V.SizeAll(es)
    ensures Member(es[i]) == (es[i].key.cstr, ToJson(es[i].value))
  {
    assert LegalEntry(es[i], true) && MeasurableEntry(es[i]);
    assert forall k :: 0 <= k < |es| ==> LegalEntry(es[k], true);
    FindListed(es, i, true);
    FoundIsSmaller(es, es[i].key);
  }

  lemma DocumentSays(style: Style, root: V.Value)
    requires Legal(root)
    ensures Blank(style.indentation) || Flat(ToJson(root)) ==> Says(Layout(style, ToJson(root), "") + "\n", root)
  {
    ToJsonIsPlain(root);
    ToJsonMeans(root);
    if Blank(style.indentation) || Flat(ToJson(root)) {
      StyledDocumentParses(style, ToJson(root));
    }
  }

  // ----- the writer -----

  class StyledWriter {
    const style: Style
    var document: string
    var childValues: seq<string>
    var indentString: string
    var addChildValues: bool

    /** A value may start here: nothing is written yet, or the line is indented already. */
    ghost predicate Ready()
      reads this
    {
      && !addChildValues
      && (style.stream || (document == "" && indentString == "") || EndsBlank(document))
    }

    /** The next indentation starts a line of its own. */
    ghost predicate AtLineEnd()
      reads this
    {
      !addChildValues && (style.stream || EndsSolid(document))
    }

    /** Inside a container. */
    ghost predicate Deep()
      reads this
    {
      style.stream || EndsBlank(indentString)
    }

    /** StyledWriter(); its indentSize_ is 3. */
    constructor Styled()
      ensures style == STYLED
    {
      style := STYLED;
      document, childValues, indentString, addChildValues := "", [], "", false;
    }

    /** StyledStreamWriter( indentation ) */
    constructor Stream(indentation: string)
      ensures style == Style(true, indentation)
    {
      style := Style(true, indentation);
      document, childValues, indentString, addChildValues := "", [], "", false;
    }

    /** The document has the specified layout. Apart from whitespace outside strings it is
        that of the fast writer, and it says the value, unless a nonblank indentation shows
        in it. */
    method Write(root: V.Value) returns (r: string)
      requires Legal(root) && Measurable(root)
      modifies this
      ensures r == Layout(style, ToJson(root), "") + "\n"
      ensures Bare(r) == Render(ToJson(root), ":") <==> Blank(style.indentation) || Flat(ToJson(root))
      ensures Blank(style.indentation) || Flat(ToJson(root)) ==> Says(r, root)
    {
      document := "";
      addChildValues := false;
      indentString := "";
      WriteValue(root);
      DropEmpty(Layout(style, ToJson(root), ""));
      DocumentIsBareIff(style, ToJson(root));
      DocumentSays(style, root);
      document := document + "\n";
      r := document;
    }

    /** Prints a value with its layout, or, while the texts of an array's elements are
        collected, adds the text of a leaf to them. */
    method WriteValue(value: V.Value)
      requires Legal(value) && Measurable(value)
      requires if addChildValues then IsLeaf(ToJson(value)) else Ready()
      modifies this`document, this`childValues, this`indentString, this`addChildValues
      ensures indentString == old(indentString) && addChildValues == old(addChildValues)
      ensures addChildValues ==>
        document == old(document) && childValues == old(childValues) + [Render(ToJson(value), ":")]
      ensures !addChildValues ==> document == old(document) + Layout(style, ToJson(value), indentString)
      decreases V.Size(value), 5
    {
      EmptyContainers();
      match value
      case Array(es) => WriteArrayValue(es);
      case Object(es) =>
        if es == [] {
          PushValue("{}");
        } else {
          MembersAt(es, 0);
          WriteObjectValue(es);
        }
      case _ =>
        var s := ScalarText(value);
        PushValue(s);
    }

    method PushValue(text: string)
      modifies this`document, this`childValues
      ensures addChildValues ==> document == old(document) && childValues == old(childValues) + [text]
      ensures !addChildValues ==> document == old(document) + text && childValues == old(childValues)
    {
      if addChildValues {
        childValues := childValues + [text];
      } else {
        document := document + text;
      }
    }

    /** Starts an indented line, unless StyledWriter finds itself on one. */
    method WriteIndent()
      modifies this`document
      ensures old(AtLineEnd()) ==> document == old(document) + ("\n" + indentString)
      ensures !style.stream && old(Ready()) ==> document == old(document)
    {
      if style.stream {
        document := document + ("\n" + indentString);
        return;
      }
      if document != "" {
        var last := document[|document| - 1];
        if last == ' ' {
          return;
        }
        if last != '\n' {
          Regroup(document, "\n", indentString);
          document := document + "\n";
        }
      }
      document := document + indentString;
    }

    method WriteWithIndent(text: string)
      modifies this`document
      ensures old(AtLineEnd()) ==> document == old(document) + Line(indentString, text)
      ensures old(Ready()) ==> document == old(document) + Opening(style, indentString, text)
    {
      WriteIndent();
      Regroup(old(document), "\n" + indentString, text);
      document := document + text;
    }

    method Indent()
      modifies this`indentString
      ensures indentString == old(indentString) + style.indentation
      ensures Deep()
    {
      indentString := indentString + style.indentation;
    }

    method Unindent()
      requires |indentString| >= |style.indentation|
      modifies this`indentString
      ensures indentString == old(indentString)[..|old(indentString)| - |style.indentation|]
    {
      indentString := indentString[..|indentString| - |style.indentation|];
    }

    /** isMultineArray: the element texts are collected exactly when no element is a
        nonempty container and there are few enough of them. */
    method IsMultilineArray(es: seq<V.Entry>) returns (isMultiLine: bool)
      requires Legal(V.Array(es)) && Measurable(V.Array(es)) && es != [] && !addChildValues
      modifies this`document, this`childValues, this`indentString, this`addChildValues
      ensures document == old(document) && indentString == old(indentString) && !addChildValues
      ensures isMultiLine <==> !Fits(Dense(es, 0))
      ensures childValues == [] || (childValues == Texts(Dense(es, 0)) && AllLeaves(Dense(es, 0)))
      ensures !isMultiLine ==> childValues == Texts(Dense(es, 0))
      decreases V.Size(V.Array(es)), 3
    {
      ghost var js := Dense(es, 0);
      SizeIsSmall(es);
      var size := ArraySize(es);
      assert IsInt(size * 3);
      isMultiLine := size * 3 >= RIGHT_MARGIN;
      childValues := [];
      if isMultiLine {
        ManyNeverFit(js);
      }
      if !isMultiLine {
        isMultiLine := HasContainer(es);
      }
      if !isMultiLine {
        isMultiLine := CollectTexts(es);
      }
    }

    /** The loop that looks for an element that is a container with content. */
    method HasContainer(es: seq<V.Entry>) returns (found: bool)
      requires Legal(V.Array(es)) && Measurable(V.Array(es))
      ensures found <==> !AllLeaves(Dense(es, 0))
    {
      found := false;
      SizeIsSmall(es);
      var index := 0;
      while index < ArraySize(es) && !found
        invariant index <= ArraySize(es) == |Dense(es, 0)|
        invariant found ==> !AllLeaves(Dense(es, 0))
        invariant !found ==> forall k :: 0 <= k < index ==> IsLeaf(Dense(es, 0)[k])
      {
        ElementIsMeasurable(es, index);
        var child := At(es, index);
        found := (child.Array? || child.Object?) && ChildSize(child) > 0;
        LeafIffEmpty(child);
        index := index + 1;
      }
    }

    /** The second half of isMultineArray: collects the texts and measures the line. */
    method CollectTexts(es: seq<V.Entry>) returns (isMultiLine: bool)
      requires Legal(V.Array(es)) && Measurable(V.Array(es)) && !addChildValues && childValues == []
      requires 0 < ArraySize(es) == |Dense(es, 0)| && ArraySize(es) * 3 < RIGHT_MARGIN && AllLeaves(Dense(es, 0))
      modifies this`document, this`childValues, this`indentString, this`addChildValues
      ensures document == old(document) && indentString == old(indentString) && !addChildValues
      ensures isMultiLine <==> !Fits(Dense(es, 0))
      ensures childValues == Texts(Dense(es, 0))
      decreases V.Size(V.Array(es)), 2
    {
      ghost var js := Dense(es, 0);
      addChildValues := true;
      var lineLength := AddTexts(es);
      addChildValues := false;
      OneLineLength(js);
      assert IsInt(lineLength);
      isMultiLine := lineLength >= RIGHT_MARGIN;
    }

    /** Its loop: the length of "[ ", of ", " between the elements, of " ]" and of all texts. */
    method AddTexts(es: seq<V.Entry>) returns (lineLength: nat)
      requires Legal(V.Array(es)) && Measurable(V.Array(es)) && addChildValues && childValues == []
      requires 0 < ArraySize(es) == |Dense(es, 0)| && AllLeaves(Dense(es, 0))
      modifies this`document, this`childValues, this`indentString, this`addChildValues
      ensures document == old(document) && indentString == old(indentString) && addChildValues
      ensures childValues == Texts(Dense(es, 0))
      ensures lineLength == 4 + (ArraySize(es) - 1) * 2 + TotalLength(Texts(Dense(es, 0)))
      decreases V.Size(V.Array(es)), 1, 1
    {
      ghost var ts := Texts(Dense(es, 0));
      var size := ArraySize(es);
      lineLength := 4 + (size - 1) * 2;
      var index := 0;
      ghost var total: nat := 0;
      while index < size
        invariant index <= size && addChildValues
        invariant document == old(document) && indentString == old(indentString)
        invariant Collected(ts, index, childValues, total) && lineLength == 4 + (size - 1) * 2 + total
        modifies this`document, this`childValues, this`indentString, this`addChildValues
      {
        OneMoreText(ts, index, childValues, total);
        CollectOne(es, index);
        lineLength := lineLength + |childValues[index]|;
        total := total + |ts[index]|;
        index := index + 1;
      }
      AllTexts(ts, childValues, total);
    }

    /** Collects the text of one element. */
    method CollectOne(es: seq<V.Entry>, index: nat)
      requires Legal(V.Array(es)) && Measurable(V.Array(es)) && addChildValues
      requires index < |Dense(es, 0)| == ArraySize(es) && IsLeaf(Dense(es, 0)[index])
      modifies this`document, this`childValues, this`indentString, this`addChildValues
      ensures document == old(document) && indentString == old(indentString) && addChildValues
      ensures childValues == old(childValues) + [Texts(Dense(es, 0))[index]]
      decreases V.Size(V.Array(es)), 1, 0
    {
      ElementIsMeasurable(es, index);
      WriteValue(At(es, index));
    }

    /** An array with elements stands on one line if and only if it fits. */
    method WriteArrayValue(es: seq<V.Entry>)
      requires Legal(V.Array(es)) && Measurable(V.Array(es))
      requires if addChildValues then IsLeaf(JArray(Dense(es, 0))) else Ready()
      modifies this`document, this`childValues, this`indentString, this`addChildValues
      ensures indentString == old(indentString) && addChildValues == old(addChildValues)
      ensures addChildValues ==>
        document == old(document) && childValues == old(childValues) + [Render(JArray(Dense(es, 0)), ":")]
      ensures !addChildValues ==> document == old(document) + Layout(style, JArray(Dense(es, 0)), indentString)
      ensures !addChildValues && Dense(es, 0) != [] ==>
        old(document) <= document && (Unbroken(document[|old(document)|..]) <==> Fits(Dense(es, 0)))
      decreases V.Size(V.Array(es)), 4
    {
      SizeIsSmall(es);
      EmptyContainers();
      OneLineIffFlat(style, JArray(Dense(es, 0)), indentString);
      var size := ArraySize(es);
      if size == 0 {
        PushValue("[]");
      } else {
        var isArrayMultiLine := IsMultilineArray(es);
        if isArrayMultiLine {
          WriteLines(es);
        } else {
          WriteOneLine();
        }
        assert !addChildValues ==>
          document[|old(document)|..] == Layout(style, JArray(Dense(es, 0)), indentString);
      }
    }

    /** One element per line, from the collected texts if there are any. */
    method WriteLines(es: seq<V.Entry>)
      requires Legal(V.Array(es)) && Measurable(V.Array(es)) && es != [] && Ready()
      requires childValues == [] || (childValues == Texts(Dense(es, 0)) && AllLeaves(Dense(es, 0)))
      modifies this`document, this`childValues, this`indentString, this`addChildValues
      ensures indentString == old(indentString) && !addChildValues
      ensures document == old(document)
        + ((Opening(style, indentString, "[") + ItemLines(style, Dense(es, 0), indentString + style.indentation))
           + Line(indentString, "]"))
      decreases V.Size(V.Array(es)), 2
    {
      ghost var indent := indentString;
      SizeIsSmall(es);
      WriteWithIndent("[");
      Indent();
      ghost var body := ItemLines(style, Dense(es, 0), indentString);
      WriteElements(es, childValues != []);
      Unindent();
      WriteWithIndent("]");
      Enclose(old(document), Opening(style, indent, "["), body, Line(indent, "]"));
    }

    method WriteElements(es: seq<V.Entry>, hasChildValue: bool)
      requires Legal(V.Array(es)) && Measurable(V.Array(es)) && |Dense(es, 0)| == ArraySize(es) > 0
      requires AtLineEnd() && Deep()
      requires hasChildValue ==> childValues == Texts(Dense(es, 0)) && AllLeaves(Dense(es, 0))
      modifies this`document, this`childValues, this`indentString, this`addChildValues
      ensures indentString == old(indentString) && AtLineEnd()
      ensures document == old(document) + ItemLines(style, Dense(es, 0), indentString)
      decreases V.Size(V.Array(es)), 1
    {
      ghost var js := Dense(es, 0);
      var size := ArraySize(es);
      var index := 0;
      ghost var target := document + ItemLines(style, js, indentString);
      while true
        invariant index < size == |js| && AtLineEnd() && Deep() && indentString == old(indentString)
        invariant hasChildValue ==> childValues == Texts(js)
        invariant ItemsToCome(style, js, index, indentString, document, target)
        decreases size - index
      {
        ghost var before := document;
        WriteElement(es, index, hasChildValue);
        ItemsStep(style, js, index, indentString, before, target);
        index := index + 1;
        if index == size {
          break;
        }
        document := document + ",";
      }
    }

    method WriteElement(es: seq<V.Entry>, index: nat, hasChildValue: bool)
      requires Legal(V.Array(es)) && Measurable(V.Array(es)) && index < ArraySize(es) == |Dense(es, 0)|
      requires AtLineEnd() && Deep()
      requires hasChildValue ==> childValues == Texts(Dense(es, 0)) && AllLeaves(Dense(es, 0))
      modifies this`document, this`childValues, this`indentString, this`addChildValues
      ensures indentString == old(indentString) && AtLineEnd()
      ensures hasChildValue ==> childValues == old(childValues)
      ensures document == old(document) + Line(indentString, Layout(style, Dense(es, 0)[index], indentString))
      decreases V.Size(V.Array(es)), 0
    {
      ElementIsMeasurable(es, index);
      ghost var text := Layout(style, Dense(es, 0)[index], indentString);
      LayoutEnds(style, Dense(es, 0)[index], indentString);
      if hasChildValue {
        LeafLayout(style, Dense(es, 0)[index], indentString);
        WriteWithIndent(childValues[index]);
      } else {
        WriteIndent();
        EndsAppend(old(document), "\n" + indentString);
        Regroup(old(document), "\n" + indentString, text);
        WriteValue(At(es, index));
      }
      EndsAppend(old(document) + ("\n" + indentString), text);
      Regroup(old(document), "\n" + indentString, text);
    }

    /** An object with members, one per line. */
    method WriteObjectValue(es: seq<V.Entry>)
      requires Legal(V.Object(es)) && Measurable(V.Object(es)) && es != [] && Ready()
      modifies this`document, this`childValues, this`indentString, this`addChildValues
      ensures indentString == old(indentString) && !addChildValues
      ensures document == old(document)
        + ((Opening(style, indentString, "{") + MemberLines(style, Members(es), indentString + style.indentation))
           + Line(indentString, "}"))
      decreases V.Size(V.Object(es)), 2
    {
      ghost var indent := indentString;
      WriteWithIndent("{");
      Indent();
      ghost var body := MemberLines(style, Members(es), indentString);
      WriteMembers(es);
      Unindent();
      WriteWithIndent("}");
      Enclose(old(document), Opening(style, indent, "{"), body, Line(indent, "}"));
    }

    method WriteMembers(es: seq<V.Entry>)
      requires Legal(V.Object(es)) && Measurable(V.Object(es)) && es != [] && AtLineEnd() && Deep()
      modifies this`document, this`childValues, this`indentString, this`addChildValues
      ensures indentString == old(indentString) && AtLineEnd()
      ensures document == old(document) + MemberLines(style, Members(es), indentString)
      decreases V.Size(V.Object(es)), 1
    {
      ghost var target := document + MemberLines(style, Members(es), indentString);
      var i := 0;
      assert es[0..] == es;
      while true
        invariant i < |es| && AtLineEnd() && Deep() && indentString == old(indentString)
        invariant MembersToCome(style, es, i, indentString, document, target)
        decreases |es| - i
      {
        ghost var before := document;
        WriteMember(es, i);
        MembersTextStep(style, es, i, indentString, before, target);
        i := i + 1;
        if i == |es| {
          break;
        }
        document := document + ",";
      }
    }

    /** The name and the value of one member, on a line of their own. */
    method WriteMember(es: seq<V.Entry>, i: nat)
      requires Legal(V.Object(es)) && Measurable(V.Object(es)) && i < |es| && AtLineEnd() && Deep()
      modifies this`document, this`childValues, this`indentString, this`addChildValues
      ensures indentString == old(indentString) && AtLineEnd()
      ensures document == old(document) + MemberLine(style, Member(es[i]), indentString)
      decreases V.Size(V.Object(es)), 0
    {
      MemberIsMeasurable(es, i);
      var name := ValueToQuotedString(es[i].key.cstr);
      WriteWithIndent(name);
      document := document + " : ";
      ghost var text := Layout(style, ToJson(es[i].value), indentString);
      WriteValue(Find(es, es[i].key).value);
      LayoutEnds(style, ToJson(es[i].value), indentString);
      EndsAppend((old(document) + Line(indentString, name)) + " : ", text);
      NameThenValue(old(document), indentString, name, text);
    }

    /** Output on a single line, from the collected texts. */
    method WriteOneLine()
      requires childValues != []
      modifies this`document
      ensures document == old(document) + ("[ " + Join(childValues) + " ]")
    {
      document := document + "[ ";
      WriteTexts();
      document := document + " ]";
      Enclose(old(document), "[ ", Join(childValues), " ]");
    }

    /** The collected texts with commas between them. */
    method WriteTexts()
      requires childValues != []
      modifies this`document
      ensures document == old(document) + Join(childValues)
    {
      ghost var target := document + Join(childValues);
      var index := 0;
      while index < |childValues|
        invariant index <= |childValues|
        invariant document + (if index == 0 then Join(childValues) else JoinMore(childValues[index..])) == target
        modifies this`document
      {
        assert childValues[index..][0] == childValues[index] && childValues[index..][1..] == childValues[index + 1..];
        ghost var more := JoinMore(childValues[index + 1..]);
        if index > 0 {
          Regroup(document, ", ", childValues[index] + more);
          document := document + ", ";
        }
        Regroup(document, childValues[index], more);
        document := document + childValues[index];
        index := index + 1;
      }
    }
  }

  predicate EndsBlank(t: string) {
    t != "" && t[|t| - 1] == ' '
  }

  lemma EndsAppend(a: string, b: string)
    ensures EndsSolid(b) ==> EndsSolid(a + b)
    ensures EndsBlank(b) ==> EndsBlank(a + b)
  {
  }

  lemma EmptyContainers()
    ensures Render(JArray([]), ":") == "[]" && Render(JObject([]), ":") == "{}"
  {
  }

  lemma Enclose(before: string, open: string, body: string, close: string)
    ensures ((before + open) + body) + close == before + ((open + body) + close)
  {
  }

  lemma NameThenValue(before: string, indent: string, name: string, text: string)
    ensures ((before + Line(indent, name)) + " : ") + text == before + Line(indent, (name + " : ") + text)
  {
    var start := "\n" + indent;
    Regroup(start, name, " : ");
    Regroup(start, name + " : ", text);
    Regroup(before, Line(indent, name), " : ");
    Regroup(before, Line(indent, name) + " : ", text);
  }

  /** Once element i is printed, a comma and the lines of the rest are still to come. */
  /** What is written so far and the elements from i on make up the target. */
  ghost predicate ItemsToCome(style: Style, js: seq<Json>, i: nat, indent: string, written: string, target: string) {
    i < |js| && written + ItemLines(style, js[i..], indent) == target
  }

  ghost predicate MembersToCome(style: Style, es: seq<V.Entry>, i: nat, indent: string, written: string,
                                target: string) {
    i < |es| && written + MemberLines(style, Members(es[i..]), indent) == target
  }

  lemma ItemsStep(style: Style, js: seq<Json>, i: nat, indent: string, before: string, target: string)
    requires i < |js| && ItemsToCome(style, js, i, indent, before, target)
    ensures var after := before + Line(indent, Layout(style, js[i], indent));
      if i + 1 == |js| then after == target else ItemsToCome(style, js, i + 1, indent, after + ",", target)
  {
    var rest, line := js[i + 1..], Line(indent, Layout(style, js[i], indent));
    assert js[i..][0] == js[i] && js[i..][1..] == rest;
    Regroup(before, line, MoreItemLines(style, rest, indent));
    Regroup(before + line, ",", ItemLines(style, rest, indent));
  }

  lemma MembersTextStep(style: Style, es: seq<V.Entry>, i: nat, indent: string, before: string, target: string)
    requires i < |es| && MembersToCome(style, es, i, indent, before, target)
    ensures var after := before + MemberLine(style, Member(es[i]), indent);
      if i + 1 == |es| then after == target else MembersToCome(style, es, i + 1, indent, after + ",", target)
  {
    var rest, line := Members(es[i + 1..]), MemberLine(style, Member(es[i]), indent);
    MembersStep(es, i);
    Regroup(before, line, MoreMemberLines(style, rest, indent));
    Regroup(before + line, ",", MemberLines(style, rest, indent));
  }

  /** Value::size of a container. */
  function ChildSize(v: V.Value): nat
    requires v.Array? || v.Object?
  {
    if v.Array? then ArraySize(v.entries) else |v.entries|
  }

  /** The first texts, and the sum of their lengths. */
  predicate Collected(ts: seq<string>, index: nat, values: seq<string>, total: nat) {
    index <= |ts| && values == ts[..index] && total == TotalLength(values)
  }

  lemma AllTexts(ts: seq<string>, values: seq<string>, total: nat)
    requires Collected(ts, |ts|, values, total)
    ensures values == ts && total == TotalLength(ts)
  {
    assert ts[..|ts|] == ts;
  }

  lemma OneMoreText(ts: seq<string>, index: nat, values: seq<string>, total: nat)
    requires Collected(ts, index, values, total) && index < |ts|
    ensures Collected(ts, index + 1, values + [ts[index]], total + |ts[index]|)
  {
    assert ts[..index + 1][..index] == values;
  }

  lemma LeafIffEmpty(v: V.Value)
    ensures !IsLeaf(ToJson(v)) <==> (v.Array? || v.Object?) && ChildSize(v) > 0
  {
    if v.Array? {
      DenseAt(v.entries, 0, 0);
    } else if v.Object? {
      MembersAt(v.entries, 0);
    }
  }
}
