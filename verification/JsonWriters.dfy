// jsoncpp's value trees as the printers see them (counted in int, holes as null),
// and the compact FastWriter (json_writer.cpp), for trees without comments.
module JsonWriters {
  import opened Words
  import opened Lists
  import opened Wrappers
  import V = JsonValue
  import opened Rfc8259
  import opened JsonText
  import opened JsonStrip
  import opened JsonRoundTrip
  import opened JsonMeaning

  // ----- the document a value stands for -----

  ghost predicate Ascending(es: seq<V.Entry>) {
    forall i, j :: 0 <= i < j < |es| ==> V.KeyLess(es[i].key, es[j].key)
  }

  /** A tree as the library builds it: keys of the right kind in map order, C strings
      without an inner terminator, integers of the C types. */
  ghost predicate Legal(v: V.Value)
    decreases v, 1
  {
    match v
    case Int(i) => IsInt(i)
    case UInt(u) => u < WORD_32
    case Str(s) => V.IsCString(s)
    case Array(es) => Ascending(es) && forall i :: 0 <= i < |es| ==> LegalEntry(es[i], false)
    case Object(es) => Ascending(es) && forall i :: 0 <= i < |es| ==> LegalEntry(es[i], true)
    case _ => true
  }

  ghost predicate LegalEntry(e: V.Entry, names: bool)
    decreases e, 2
  {
    && (match e.key case Index(i) => !names && IsInt(i) case Name(n) => names && V.IsCString(n))
    && Legal(e.value)
  }

  // ----- counting in int -----

  /** What is left of a number in a 32-bit int. */
  function IntOf(n: int): (i: int)
    ensures IsInt(i) && (IsInt(n) ==> i == n)
  {
    (n + 0x8000_0000) % 0x1_0000_0000 - 0x8000_0000
  }

  /** The UInt that a caller passed to operator[] for the element with this key. */
  function UIntOf(index: int): int {
    if index < 0 then index + 0x1_0000_0000 else index
  }

  ghost predicate IndicesBelow(es: seq<V.Entry>, n: nat) {
    forall k :: 0 <= k < |es| && es[k].key.Index? ==> UIntOf(es[k].key.index) < n
  }

  /** The number of elements a writer counts, `int size = value.size()`: the last index in
      key order + 1, as an int, and none when that is negative. */
  function ArraySize(es: seq<V.Entry>): (n: nat)
    ensures n <= INT_MAX
  {
    if es == [] then 0
    else
      match es[|es| - 1].key
      case Index(i) => (var size := IntOf(i + 1); if size < 0 then 0 else size)
      case Name(_) => 0
  }

  /** Every element that was put into an array is among those counted exactly when every
      index is below 2^31 - 1. */
  lemma CountIsRightIff(es: seq<V.Entry>)
    requires Legal(V.Array(es))
    ensures IndicesBelow(es, ArraySize(es)) <==> IndicesBelow(es, INT_MAX)
  {
    if es != [] && IndicesBelow(es, INT_MAX) {
      var last := es[|es| - 1].key;
      assert LegalEntry(es[|es| - 1], false);
      assert ArraySize(es) == last.index + 1;
      forall k | 0 <= k < |es| ensures es[k].key.Index? && 0 <= es[k].key.index <= last.index {
        assert LegalEntry(es[k], false);
        assert k < |es| - 1 ==> V.KeyLess(es[k].key, last);
      }
    }
  }

  /** The array that v[2147483648u] = x makes is printed as if it were empty. */
  lemma LargeIndexIsNotCounted(x: V.Value)
    requires Legal(x)
    ensures var es := [V.Entry(V.Index(-0x8000_0000), x)];
      Legal(V.Array(es)) && UIntOf(-0x8000_0000) == 2147483648 && ToJson(V.Array(es)) == JArray([])
  {
    var es := [V.Entry(V.Index(-0x8000_0000), x)];
    assert LegalEntry(es[0], false);
  }

  /** std::map::find */
  function Find(es: seq<V.Entry>, key: V.CZString): Option<V.Value> {
    if es == [] then None else if es[0].key == key then Some(es[0].value) else Find(es[1..], key)
  }

  /** The const operator[]: an index without an entry reads as null. */
  function At(es: seq<V.Entry>, i: nat): V.Value {
    match Find(es, V.Index(i)) case Some(v) => v case None => V.Null
  }

  lemma {:induction false} FoundIsSmaller(es: seq<V.Entry>, key: V.CZString)
    ensures match Find(es, key) case Some(v) => V.Size(v) <= V.SizeAll(es) case None => true
    ensures Find(es, key).Some? ==> exists i :: 0 <= i < |es| && es[i].value == Find(es, key).value
  {
    if es != [] && es[0].key != key {
      FoundIsSmaller(es[1..], key);
      if Find(es[1..], key).Some? {
        var i :| 0 <= i < |es[1..]| && es[1..][i].value == Find(es[1..], key).value;
        assert es[i + 1].value == Find(es, key).value;
      }
    }
  }

  lemma AtIsSmaller(es: seq<V.Entry>, i: nat)
    requires es != []
    ensures V.Size(At(es, i)) <= V.SizeAll(es)
    ensures (forall k :: 0 <= k < |es| ==> LegalEntry(es[k], false)) ==> Legal(At(es, i))
  {
    FoundIsSmaller(es, V.Index(i));
  }

  function ToJson(v: V.Value): Json
    decreases V.Size(v), 0, 0
  {
    match v
    case Null => JNull
    case Int(i) => JNumber(i, 0)
    case UInt(u) => JNumber(u, 0)
    case Str(s) => JString(s)
    case Bool(b) => JBool(b)
    case Array(es) => JArray(Dense(es, 0))
    case Object(es) => JObject(Members(es))
  }

  /** The elements from an index on, holes included. */
  function Dense(es: seq<V.Entry>, i: nat): seq<Json>
    decreases V.SizeAll(es), 1, ArraySize(es) - i
  {
    if i < ArraySize(es) then
      AtIsSmaller(es, i);
      [ToJson(At(es, i))] + Dense(es, i + 1)
    else []
  }

  function Members(es: seq<V.Entry>): seq<(string, Json)>
    decreases V.SizeAll(es), 1, |es|
  {
    if es == [] then [] else [Member(es[0])] + Members(es[1..])
  }

  function Member(e: V.Entry): (string, Json)
    decreases V.SizeOf(e), 1, 0
  {
    (match e.key case Name(s) => s case Index(_) => "", ToJson(e.value))
  }

  lemma MembersStep(es: seq<V.Entry>, i: nat)
    requires i < |es|
    ensures Members(es[i..]) == [Member(es[i])] + Members(es[i + 1..])
    ensures es[0..] == es
  {
    assert es[i..][0] == es[i] && es[i..][1..] == es[i + 1..];
  }

  lemma {:induction false} DenseAt(es: seq<V.Entry>, i: nat, k: nat)
    requires i <= k <= ArraySize(es)
    ensures |Dense(es, i)| == ArraySize(es) - i
    ensures Dense(es, i)[k - i..] == Dense(es, k)
    decreases ArraySize(es) - i
  {
    if i < k {
      DenseAt(es, i + 1, k);
      assert Dense(es, i)[1..] == Dense(es, i + 1);
      assert Dense(es, i)[k - i..] == Dense(es, i)[1..][k - (i + 1)..];
    } else if i < ArraySize(es) {
      DenseAt(es, i + 1, i + 1);
    }
  }

  lemma {:induction false} MembersAt(es: seq<V.Entry>, k: nat)
    requires k <= |es|
    ensures |Members(es)| == |es| && Members(es)[k..] == Members(es[k..])
  {
    if es != [] {
      if k > 0 {
        MembersAt(es[1..], k - 1);
        assert Members(es)[k..] == Members(es)[1..][k - 1..] && es[1..][k - 1..] == es[k..];
      } else {
        MembersAt(es[1..], 0);
        assert es[0..] == es;
      }
    }
  }

  /** Looking up the key of an entry, a name or an index, finds the value listed with it. */
  lemma {:induction false} FindListed(es: seq<V.Entry>, i: nat, names: bool)
    requires i < |es| && Ascending(es) && forall k :: 0 <= k < |es| ==> es[k].key.Name? == names
    ensures Find(es, es[i].key) == Some(es[i].value)
  {
    if i > 0 {
      V.KeyTotal(es[0].key, es[i].key);
      FindListed(es[1..], i - 1, names);
    }
  }

  lemma {:induction false} FindAbsent(es: seq<V.Entry>, key: V.CZString)
    requires forall k :: 0 <= k < |es| ==> es[k].key != key
    ensures Find(es, key) == None
  {
    if es != [] {
      FindAbsent(es[1..], key);
    }
  }

  /** An element of a sparse array: the value listed for its index, or the null of a hole;
      and so in the tree printed. */
  lemma ElementIsListedOrNull(es: seq<V.Entry>, i: nat)
    requires Legal(V.Array(es)) && i < ArraySize(es)
    ensures |Dense(es, 0)| == ArraySize(es)
    ensures forall k :: 0 <= k < |es| && es[k].key == V.Index(i) ==>
      At(es, i) == es[k].value && Dense(es, 0)[i] == ToJson(es[k].value)
    ensures (forall k :: 0 <= k < |es| ==> es[k].key != V.Index(i)) ==>
      At(es, i) == V.Null && Dense(es, 0)[i] == JNull
  {
    DenseAt(es, 0, i);
    assert Dense(es, 0)[i..][0] == Dense(es, 0)[i] == ToJson(At(es, i));
    assert forall k :: 0 <= k < |es| ==> LegalEntry(es[k], false);
    forall k | 0 <= k < |es| && es[k].key == V.Index(i) ensures At(es, i) == es[k].value {
      FindListed(es, k, false);
    }
    if forall k :: 0 <= k < |es| ==> es[k].key != V.Index(i) {
      FindAbsent(es, V.Index(i));
    }
  }

  /** Documents are plain: integers only, and strings without NUL. */
  lemma {:induction false} ToJsonIsPlain(v: V.Value)
    requires Legal(v)
    ensures Plain(ToJson(v))
    decreases V.Size(v), 0, 0
  {
    match v
    case Array(es) => DenseIsPlain(es, 0);
    case Object(es) => MembersArePlain(es);
    case _ =>
  }

  lemma {:induction false} DenseIsPlain(es: seq<V.Entry>, i: nat)
    requires forall k :: 0 <= k < |es| ==> LegalEntry(es[k], false)
    ensures forall k :: 0 <= k < |Dense(es, i)| ==> Plain(Dense(es, i)[k])
    decreases V.SizeAll(es), 1, ArraySize(es) - i
  {
    if i < ArraySize(es) {
      AtIsSmaller(es, i);
      ToJsonIsPlain(At(es, i));
      DenseIsPlain(es, i + 1);
    }
  }

  lemma {:induction false} MembersArePlain(es: seq<V.Entry>)
    requires forall k :: 0 <= k < |es| ==> LegalEntry(es[k], true)
    ensures forall k :: 0 <= k < |Members(es)| ==> PlainMember(Members(es)[k])
    decreases V.SizeAll(es), 1, |es|
  {
    if es != [] {
      assert LegalEntry(es[0], true);
      ToJsonIsPlain(es[0].value);
      MembersArePlain(es[1..]);
    }
  }

  lemma CountIsElementCount(es: seq<V.Entry>)
    requires Legal(V.Array(es))
    ensures ArraySize(es) == ElementCount(es)
  {
    if es != [] {
      assert LegalEntry(es[|es| - 1], false);
    }
  }

  /** The tree printed stands for the value. */
  lemma {:induction false} ToJsonMeans(v: V.Value)
    requires Legal(v)
    ensures Means(ToJson(v), v)
    decreases v, 1
  {
    match v
    case Array(es) =>
      CountIsElementCount(es);
      DenseAt(es, 0, 0);
      forall k | 0 <= k < |es| ensures EntryMeans(ToJson(es[k].value), es[k]) {
        assert LegalEntry(es[k], false);
        EntryToJsonMeans(es[k]);
      }
      forall i | 0 <= i < ArraySize(es)
        ensures forall k :: 0 <= k < |es| && es[k].key == V.Index(i) ==> Dense(es, 0)[i] == ToJson(es[k].value)
        ensures Unlisted(es, i) ==> Dense(es, 0)[i] == JNull
      {
        ElementIsListedOrNull(es, i);
      }
    case Object(es) =>
      forall k | 0 <= k < |es|
        ensures |Members(es)| == |es| && es[k].key == V.Name(Members(es)[k].0) && EntryMeans(Members(es)[k].1, es[k])
      {
        assert LegalEntry(es[k], true);
        MemberIsListed(es, k);
        EntryToJsonMeans(es[k]);
      }
    case _ =>
  }

  lemma {:induction false} EntryToJsonMeans(e: V.Entry)
    requires Legal(e.value)
    ensures EntryMeans(ToJson(e.value), e)
    decreases e, 2
  {
    ToJsonMeans(e.value);
  }

  lemma MemberIsListed(es: seq<V.Entry>, k: nat)
    requires k < |es|
    ensures |Members(es)| == |es| && Members(es)[k] == Member(es[k])
  {
    MembersAt(es, k);
    assert Members(es)[k..][0] == Members(es)[k] && es[k..][0] == es[k];
  }

  /** The texts of values that are not nonempty containers, as the writers build them. */
  method ScalarText(v: V.Value) returns (s: string)
    requires Legal(v) && !v.Array? && !v.Object?
    ensures s == Render(ToJson(v), ":")
  {
    match v
    case Null => s := "null";
    case Int(i) => s := IntToString(i);
    case UInt(u) => s := UIntToString(u);
    case Str(t) => s := ValueToQuotedString(t);
    case Bool(b) => s := if b then "true" else "false";
  }

  // ----- FastWriter -----

  class FastWriter {
    var yamlCompatiblityEnabled: bool
    var document: string

    constructor ()
      ensures !yamlCompatiblityEnabled
    {
      yamlCompatiblityEnabled := false;
      document := "";
    }

    function Separator(): (sep: string)
      reads this
      ensures IsSeparator(sep)
    {
      if yamlCompatiblityEnabled then ": " else ":"
    }

    /** The document printed parses, as RFC 8259 says, to the tree of the value, and what it
        says is the value. */
    method Write(root: V.Value) returns (r: string)
      requires Legal(root)
      modifies this`document
      ensures r == Render(ToJson(root), Separator()) + "\n"
      ensures ParseText(r) == Done(ToJson(root), "") && Says(r, root)
      ensures Bare(r) == Render(ToJson(root), ":")
    {
      document := "";
      WriteValue(root);
      assert document == Render(ToJson(root), Separator());
      document := document + "\n";
      r := document;
      ToJsonIsPlain(root);
      ToJsonMeans(root);
      DocumentParses(ToJson(root), Separator());
      RenderIsBare(ToJson(root), Separator());
      BlankIsBare("\n");
      BareAppend(Render(ToJson(root), Separator()), "\n");
    }

    method WriteValue(value: V.Value)
      requires Legal(value)
      modifies this`document
      ensures document == old(document) + Render(ToJson(value), Separator())
      decreases V.Size(value), 1
    {
      match value
      case Array(es) => WriteArray(es);
      case Object(es) => WriteObject(es);
      case _ =>
        var s := ScalarText(value);
        document := document + s;
    }

    /** The array case of writeValue. */
    method WriteArray(es: seq<V.Entry>)
      requires Legal(V.Array(es))
      modifies this`document
      ensures document == old(document) + Render(JArray(Dense(es, 0)), Separator())
      decreases V.Size(V.Array(es)), 0, 1
    {
      ghost var items := RenderItems(Dense(es, 0), Separator());
      document := document + "[";
      WriteElements(es);
      document := document + "]";
      Enclosed(old(document), "[", items, "]");
    }

    /** Its loop over the elements. */
    method WriteElements(es: seq<V.Entry>)
      requires Legal(V.Array(es))
      modifies this`document
      ensures document == old(document) + RenderItems(Dense(es, 0), Separator())
      decreases V.Size(V.Array(es)), 0, 0
    {
      ghost var sep := Separator();
      ghost var target := document + RenderItems(Dense(es, 0), sep);
      var size := ArraySize(es);
      var index := 0;
      while index < size
        invariant index <= size && sep == Separator()
        invariant index == 0 ==> document + RenderItems(Dense(es, 0), sep) == target
        invariant index > 0 ==> document + RenderMoreItems(Dense(es, index), sep) == target
        modifies this`document
      {
        AtIsSmaller(es, index);
        ElementStep(es, index, document, sep, target);
        if index > 0 {
          document := document + ",";
        }
        WriteValue(At(es, index));
        index := index + 1;
      }
      assert document == target;
    }

    /** The object case of writeValue. */
    method WriteObject(es: seq<V.Entry>)
      requires Legal(V.Object(es))
      modifies this`document
      ensures document == old(document) + Render(JObject(Members(es)), Separator())
      decreases V.Size(V.Object(es)), 0
    {
      ghost var sep := Separator();
      document := document + "{";
      ghost var target := document + RenderMembers(Members(es), sep);
      var i := 0;
      while i < |es|
        invariant i <= |es| && sep == Separator()
        invariant MembersLeft(es, i, sep, document, target)
        modifies this`document
      {
        MemberWritten(es, i, sep, document, target);
        if i != 0 {
          document := document + ",";
        }
        WriteMember(es, i);
        i := i + 1;
      }
      NoMemberLeft(es, sep, document, target);
      document := document + "}";
      Enclosed(old(document), "{", RenderMembers(Members(es), sep), "}");
    }

    /** The name and the value of one member. */
    method WriteMember(es: seq<V.Entry>, i: nat)
      requires Legal(V.Object(es)) && i < |es|
      modifies this`document
      ensures document == old(document) + RenderMember(Member(es[i]), Separator())
      decreases V.Size(V.Object(es)), 0, 0
    {
      assert LegalEntry(es[i], true);
      FindListed(es, i, true);
      FoundIsSmaller(es, es[i].key);
      ghost var sep := Separator();
      var name := ValueToQuotedString(es[i].key.cstr);
      document := document + name;
      document := document + if yamlCompatiblityEnabled then ": " else ":";
      var value := Find(es, es[i].key);
      WriteValue(value.value);
      MemberTextOf(old(document), es[i], sep);
    }
  }

  /** Printing element i, after a comma unless it is the first, leaves the rest to print. */
  lemma ElementStep(es: seq<V.Entry>, i: nat, before: string, sep: string, target: string)
    requires i < ArraySize(es)
    requires before + (if i == 0 then RenderItems(Dense(es, 0), sep) else RenderMoreItems(Dense(es, i), sep)) == target
    ensures ((if i == 0 then before else before + ",") + Render(ToJson(At(es, i)), sep))
          + RenderMoreItems(Dense(es, i + 1), sep) == target
  {
    DenseAt(es, 0, i);
    var next, more := Render(ToJson(At(es, i)), sep), RenderMoreItems(Dense(es, i + 1), sep);
    assert Dense(es, i)[0] == ToJson(At(es, i)) && Dense(es, i)[1..] == Dense(es, i + 1);
    Regroup(before, ",", next + more);
    Regroup(before, next, more);
    Regroup(before + ",", next, more);
  }

  lemma Enclosed(before: string, open: string, body: string, close: string)
    ensures ((before + open) + body) + close == before + (open + body + close)
  {
  }

  lemma MemberTextOf(before: string, e: V.Entry, sep: string)
    requires e.key.Name?
    ensures ((before + Quoted(e.key.cstr)) + sep) + Render(ToJson(e.value), sep) == before + RenderMember(Member(e), sep)
  {
    Enclosed(before, Quoted(e.key.cstr), sep, Render(ToJson(e.value), sep));
  }

  /** What is written so far and the members from i on make up the target. */
  ghost predicate MembersLeft(es: seq<V.Entry>, i: nat, sep: string, written: string, target: string) {
    && i <= |es|
    && target == written + (if i == 0 then RenderMembers(Members(es), sep) else RenderMoreMembers(Members(es[i..]), sep))
  }

  lemma MemberWritten(es: seq<V.Entry>, i: nat, sep: string, written: string, target: string)
    requires i < |es| && MembersLeft(es, i, sep, written, target)
    ensures var start := if i == 0 then written else written + ",";
      MembersLeft(es, i + 1, sep, start + RenderMember(Member(es[i]), sep), target)
  {
    var text, more := RenderMember(Member(es[i]), sep), RenderMoreMembers(Members(es[i + 1..]), sep);
    MembersStep(es, i);
    if i == 0 {
      assert es[0..] == es;
      Regroup(written, text, more);
    } else {
      Regroup(written, ",", text + more);
      Regroup(written + ",", text, more);
    }
  }

  lemma NoMemberLeft(es: seq<V.Entry>, sep: string, written: string, target: string)
    requires MembersLeft(es, |es|, sep, written, target)
    ensures written == target
  {
    assert es[|es|..] == [] && written + "" == written;
  }
}
