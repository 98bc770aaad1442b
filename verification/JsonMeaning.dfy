// What a JSON text says about a jsoncpp value, from the reader's side: the relation
// between the tree that section 2 of RFC 8259 finds in a text and a value.
module JsonMeaning {
  import opened Words
  import opened Rfc8259
  import V = JsonValue

  /** The number of elements an array has for its printers: up to its last index in key
      order, and none when that index is negative as an int or the largest int. */
  function ElementCount(es: seq<V.Entry>): nat {
    if es == [] then 0
    else
      match es[|es| - 1].key
      case Index(i) => if 0 <= i < INT_MAX then i + 1 else 0
      case Name(_) => 0
  }

  /** The tree stands for the value: the same literal, number or string; in an array the
      value listed for each index, or null where none is; in an object the members in order. */
  ghost predicate Means(j: Json, v: V.Value)
    decreases v, 1
  {
    match v
    case Null => j == JNull
    case Bool(b) => j == JBool(b)
    case Int(i) => j == JNumber(i, 0)
    case UInt(u) => j == JNumber(u, 0)
    case Str(s) => j == JString(s)
    case Array(es) =>
      && j.JArray? && |j.items| == ElementCount(es)
      && (forall i, k :: 0 <= i < |j.items| && 0 <= k < |es| && es[k].key == V.Index(i) ==> EntryMeans(j.items[i], es[k]))
      && (forall i :: 0 <= i < |j.items| && Unlisted(es, i) ==> j.items[i] == JNull)
    case Object(es) =>
      && j.JObject? && |j.members| == |es|
      && forall k :: 0 <= k < |es| ==> es[k].key == V.Name(j.members[k].0) && EntryMeans(j.members[k].1, es[k])
  }

  ghost predicate EntryMeans(j: Json, e: V.Entry)
    decreases e, 2
  {
    Means(j, e.value)
  }

  ghost predicate Unlisted(es: seq<V.Entry>, i: int) {
    forall k :: 0 <= k < |es| ==> es[k].key != V.Index(i)
  }

  /** The text is one JSON text, and it says the value. */
  ghost predicate Says(text: string, v: V.Value) {
    exists j :: ParseText(text) == Done(j, "") && Means(j, v)
  }
}
