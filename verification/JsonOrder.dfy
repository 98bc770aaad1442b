// What operator< of jsoncpp's values says, written out: the types in their order,
// numbers by size, strings and containers by their first difference.
module JsonOrder {
  import opened JsonValue

  /** The strings agree before position k, where a ends or has the smaller character. */
  ghost predicate DiffersAt(a: string, b: string, k: nat) {
    k <= |a| && k < |b| && a[..k] == b[..k] && (k == |a| || a[k] < b[k])
  }

  ghost predicate Before(a: string, b: string) {
    exists k: nat :: DiffersAt(a, b, k)
  }

  lemma {:induction false} StrLessMeans(a: string, b: string)
    ensures StrLess(a, b) <==> Before(a, b)
  {
    if a == "" || b == "" || a[0] != b[0] {
      FirstDiffers(a, b);
    } else {
      StrLessMeans(a[1..], b[1..]);
      SameFirst(a, b);
    }
  }

  lemma FirstDiffers(a: string, b: string)
    requires a == "" || b == "" || a[0] != b[0]
    ensures StrLess(a, b) <==> Before(a, b)
  {
    if StrLess(a, b) {
      assert DiffersAt(a, b, 0);
    }
    if Before(a, b) {
      var k: nat :| DiffersAt(a, b, k);
      LaterSharesFirst(a, b, k);
    }
  }

  lemma LaterSharesFirst<T>(a: seq<T>, b: seq<T>, k: nat)
    requires k <= |a| && k <= |b| && a[..k] == b[..k]
    ensures k > 0 ==> a[0] == b[0]
  {
    if k > 0 {
      assert a[0] == a[..k][0];
    }
  }

  lemma SameFirst(a: string, b: string)
    requires a != "" && b != "" && a[0] == b[0]
    ensures Before(a, b) <==> Before(a[1..], b[1..])
  {
    if Before(a, b) {
      var k: nat :| DiffersAt(a, b, k);
      assert k > 0;
      assert a[1..][..k - 1] == a[..k][1..] == b[..k][1..] == b[1..][..k - 1];
      assert DiffersAt(a[1..], b[1..], k - 1);
    }
    if Before(a[1..], b[1..]) {
      var k: nat :| DiffersAt(a[1..], b[1..], k);
      assert a[..k + 1] == [a[0]] + a[1..][..k] && b[..k + 1] == [b[0]] + b[1..][..k];
      assert DiffersAt(a, b, k + 1);
    }
  }

  ghost predicate KeyBefore(a: CZString, b: CZString) {
    (a.Index? && b.Index? && a.index < b.index) || (a.Name? && b.Name? && Before(a.cstr, b.cstr))
  }

  lemma KeyLessMeans(a: CZString, b: CZString)
    ensures KeyLess(a, b) <==> KeyBefore(a, b)
  {
    if a.Name? && b.Name? {
      StrLessMeans(a.cstr, b.cstr);
    }
  }

  /** The entries agree before position k, where the first list has the smaller key, or the
      same key and the smaller value. */
  ghost predicate EntriesDifferAt(es: seq<Entry>, fs: seq<Entry>, k: nat) {
    && k < |es| && k < |fs| && es[..k] == fs[..k]
    && (KeyBefore(es[k].key, fs[k].key) || (es[k].key == fs[k].key && Less(es[k].value, fs[k].value)))
  }

  ghost predicate EntriesBefore(es: seq<Entry>, fs: seq<Entry>) {
    exists k: nat :: EntriesDifferAt(es, fs, k)
  }

  lemma EntryLessMeans(e: Entry, f: Entry, names: bool)
    requires EntryFits(e, names) && EntryFits(f, names)
    ensures EntryLess(e, f) <==> KeyBefore(e.key, f.key) || (e.key == f.key && Less(e.value, f.value))
  {
    KeyTotal(e.key, f.key);
    KeyLessMeans(e.key, f.key);
    KeyLessMeans(f.key, e.key);
  }

  lemma {:induction false} EntriesLessMeans(es: seq<Entry>, fs: seq<Entry>, names: bool)
    requires |es| == |fs| && AllKeysFit(es, names) && AllKeysFit(fs, names)
    ensures EntriesLess(es, fs) <==> EntriesBefore(es, fs)
  {
    if es != [] {
      EntryTotal(es[0], fs[0], names);
      EntryLessMeans(es[0], fs[0], names);
      EntryLessMeans(fs[0], es[0], names);
      if es[0] == fs[0] {
        EntriesLessMeans(es[1..], fs[1..], names);
        SameFirstEntry(es, fs);
      } else {
        FirstEntryDiffers(es, fs, names);
      }
    }
  }

  lemma FirstEntryDiffers(es: seq<Entry>, fs: seq<Entry>, names: bool)
    requires |es| == |fs| > 0 && es[0] != fs[0] && EntryFits(es[0], names) && EntryFits(fs[0], names)
    ensures EntryLess(es[0], fs[0]) <==> EntriesBefore(es, fs)
  {
    EntryLessMeans(es[0], fs[0], names);
    if EntryLess(es[0], fs[0]) {
      assert EntriesDifferAt(es, fs, 0);
    }
    if EntriesBefore(es, fs) {
      var k: nat :| EntriesDifferAt(es, fs, k);
      LaterSharesFirst(es, fs, k);
    }
  }

  lemma SameFirstEntry(es: seq<Entry>, fs: seq<Entry>)
    requires |es| == |fs| > 0 && es[0] == fs[0]
    requires !KeyBefore(es[0].key, fs[0].key) && !Less(es[0].value, fs[0].value)
    ensures EntriesBefore(es, fs) <==> EntriesBefore(es[1..], fs[1..])
  {
    if EntriesBefore(es, fs) {
      var k: nat :| EntriesDifferAt(es, fs, k);
      assert k > 0;
      assert es[1..][..k - 1] == es[..k][1..] == fs[..k][1..] == fs[1..][..k - 1];
      assert EntriesDifferAt(es[1..], fs[1..], k - 1);
    }
    if EntriesBefore(es[1..], fs[1..]) {
      var k: nat :| EntriesDifferAt(es[1..], fs[1..], k);
      assert es[..k + 1] == [es[0]] + es[1..][..k] && fs[..k + 1] == [fs[0]] + fs[1..][..k];
      assert EntriesDifferAt(es, fs, k + 1);
    }
  }

  /** A container with fewer entries comes first, and of two with equally many the one whose
      first different entry does. */
  ghost predicate ContainerBefore(es: seq<Entry>, fs: seq<Entry>) {
    |es| < |fs| || (|es| == |fs| && EntriesBefore(es, fs))
  }

  /** null, Int, UInt, string, bool, array, object: values of an earlier type come first. */
  lemma LessMeans(a: Value, b: Value)
    requires KeysFit(a) && KeysFit(b)
    ensures Less(a, b) <==>
      match a
      case Null => !b.Null?
      case Int(i) => if b.Int? then i < b.int_ else !b.Null?
      case UInt(u) => if b.UInt? then u < b.uint_ else b.Str? || b.Bool? || b.Array? || b.Object?
      case Str(s) => if b.Str? then Before(s, b.string_) else b.Bool? || b.Array? || b.Object?
      case Bool(x) => if b.Bool? then !x && b.bool_ else b.Array? || b.Object?
      case Array(es) => if b.Array? then ContainerBefore(es, b.entries) else b.Object?
      case Object(es) => b.Object? && ContainerBefore(es, b.entries)
  {
    match (a, b)
    case (Str(s), Str(r)) => StrLessMeans(s, r);
    case (Array(es), Array(fs)) =>
      if |es| == |fs| {
        EntriesLessMeans(es, fs, false);
      }
    case (Object(es), Object(fs)) =>
      if |es| == |fs| {
        EntriesLessMeans(es, fs, true);
      }
    case _ =>
  }
}
