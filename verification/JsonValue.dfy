// jsoncpp's value tree without reals and comments (json_value.cpp) and its order.
// Arrays and objects are both ordered maps from CZString keys, listed in key order.
module JsonValue {

  /** An array index, kept in an int, or a member name: a C string, compared up to its
      terminator. */
  datatype CZString = Index(index: int) | Name(cstr: string)

  datatype Entry = Entry(key: CZString, value: Value)

  datatype Value =
    | Null
    | Int(int_: int)
    | UInt(uint_: nat)
    | Str(string_: string)
    | Bool(bool_: bool)
    | Array(entries: seq<Entry>)
    | Object(entries: seq<Entry>)

  /** The position of the type in the enumeration ValueType; real is 3. */
  function TypeOf(v: Value): nat {
    match v
    case Null => 0
    case Int(_) => 1
    case UInt(_) => 2
    case Str(_) => 4
    case Bool(_) => 5
    case Array(_) => 6
    case Object(_) => 7
  }

  predicate IsCString(s: string) {
    '\0' !in s
  }

  /** strcmp(a, b) < 0. */
  predicate StrLess(a: string, b: string) {
    if b == "" then false
    else if a == "" then true
    else if a[0] != b[0] then a[0] < b[0]
    else StrLess(a[1..], b[1..])
  }

  predicate KeyLess(a: CZString, b: CZString) {
    if a.Name? && b.Name? then StrLess(a.cstr, b.cstr)
    else a.Index? && b.Index? && a.index < b.index
  }

  function Size(v: Value): (n: nat)
    ensures n >= 1
  {
    match v
    case Array(es) => 1 + SizeAll(es)
    case Object(es) => 1 + SizeAll(es)
    case _ => 1
  }

  function SizeOf(e: Entry): (n: nat)
    ensures n == Size(e.value)
  {
    Size(e.value)
  }

  function SizeAll(es: seq<Entry>): nat {
    if es == [] then 0 else SizeOf(es[0]) + SizeAll(es[1..])
  }

  /** operator< of Value. */
  predicate Less(a: Value, b: Value)
    decreases Size(a) + Size(b), 0
  {
    if TypeOf(a) != TypeOf(b) then TypeOf(a) < TypeOf(b)
    else
      match a
      case Null => false
      case Int(i) => i < b.int_
      case UInt(u) => u < b.uint_
      case Str(s) => StrLess(s, b.string_)
      case Bool(x) => !x && b.bool_
      case Array(es) => if |es| != |b.entries| then |es| < |b.entries| else EntriesLess(es, b.entries)
      case Object(es) => if |es| != |b.entries| then |es| < |b.entries| else EntriesLess(es, b.entries)
  }

  /** operator< of std::pair. */
  predicate EntryLess(a: Entry, b: Entry)
    decreases Size(a.value) + Size(b.value), 1
  {
    KeyLess(a.key, b.key) || (!KeyLess(b.key, a.key) && Less(a.value, b.value))
  }

  /** operator< of std::map: std::lexicographical_compare with the pairs' operator<. */
  predicate EntriesLess(es: seq<Entry>, fs: seq<Entry>)
    decreases SizeAll(es) + SizeAll(fs), 2
  {
    if fs == [] then false
    else if es == [] then true
    else if EntryLess(es[0], fs[0]) then true
    else if EntryLess(fs[0], es[0]) then false
    else EntriesLess(es[1..], fs[1..])
  }

  /** strcmp(a, b) == 0. */
  predicate StrEqual(a: string, b: string) {
    if a == "" || b == "" then a == b
    else a[0] == b[0] && StrEqual(a[1..], b[1..])
  }

  predicate KeyEqual(a: CZString, b: CZString) {
    if a.Name? && b.Name? then StrEqual(a.cstr, b.cstr)
    else a.Index? && b.Index? && a.index == b.index
  }

  /** operator== of Value. */
  predicate Equal(a: Value, b: Value)
    decreases a, 1
  {
    && TypeOf(a) == TypeOf(b)
    && match a
       case Null => true
       case Int(i) => i == b.int_
       case UInt(u) => u == b.uint_
       case Str(s) => StrEqual(s, b.string_)
       case Bool(x) => x == b.bool_
       case Array(es) => |es| == |b.entries| && EntriesEqual(es, b.entries)
       case Object(es) => |es| == |b.entries| && EntriesEqual(es, b.entries)
  }

  /** operator== of std::pair. */
  predicate EntryEqual(a: Entry, b: Entry)
    decreases a, 2
  {
    KeyEqual(a.key, b.key) && Equal(a.value, b.value)
  }

  /** operator== of std::map on maps of one size. */
  predicate EntriesEqual(es: seq<Entry>, fs: seq<Entry>)
    requires |es| == |fs|
    decreases es, 0
  {
    es == [] || (EntryEqual(es[0], fs[0]) && EntriesEqual(es[1..], fs[1..]))
  }

  /** Arrays have index keys and objects name keys, as the accessors ensure. */
  predicate KeysFit(v: Value)
    decreases v, 1
  {
    match v
    case Array(es) => AllKeysFit(es, false)
    case Object(es) => AllKeysFit(es, true)
    case _ => true
  }

  predicate EntryFits(e: Entry, names: bool)
    decreases e, 2
  {
    e.key.Name? == names && KeysFit(e.value)
  }

  predicate AllKeysFit(es: seq<Entry>, names: bool)
    decreases es, 0
  {
    es == [] || (EntryFits(es[0], names) && AllKeysFit(es[1..], names))
  }

  // ----- the order on strings and keys -----

  lemma {:induction false} StrTotal(a: string, b: string)
    ensures StrEqual(a, b) <==> a == b
    ensures !(StrLess(a, b) && StrLess(b, a))
    ensures StrLess(a, b) || a == b || StrLess(b, a)
    ensures a == b ==> !StrLess(a, b)
  {
    if a != "" && b != "" {
      StrTotal(a[1..], b[1..]);
      assert a == [a[0]] + a[1..] && b == [b[0]] + b[1..];
    }
  }

  lemma {:induction false} StrTransitive(a: string, b: string, c: string)
    requires StrLess(a, b) && StrLess(b, c)
    ensures StrLess(a, c)
  {
    if a != "" && a[0] == b[0] == c[0] {
      StrTransitive(a[1..], b[1..], c[1..]);
    }
  }

  lemma KeyTotal(a: CZString, b: CZString)
    requires a.Name? == b.Name?
    ensures KeyEqual(a, b) <==> a == b
    ensures !(KeyLess(a, b) && KeyLess(b, a))
    ensures KeyLess(a, b) || a == b || KeyLess(b, a)
    ensures a == b ==> !KeyLess(a, b)
  {
    if a.Name? {
      StrTotal(a.cstr, b.cstr);
    }
  }

  lemma KeyTransitive(a: CZString, b: CZString, c: CZString)
    requires KeyLess(a, b) && KeyLess(b, c)
    ensures KeyLess(a, c)
  {
    if a.Name? {
      StrTransitive(a.cstr, b.cstr, c.cstr);
    }
  }

  // ----- the order on values -----

  /** operator== holds exactly between trees with the same content, so it is an equivalence. */
  lemma {:induction false} EqualIsIdentity(a: Value, b: Value)
    requires KeysFit(a) && KeysFit(b)
    ensures Equal(a, b) <==> a == b
    decreases a, 1
  {
    if TypeOf(a) == TypeOf(b) {
      match a
      case Str(s) => StrTotal(s, b.string_);
      case Array(es) =>
        if |es| == |b.entries| {
          EntriesEqualIsIdentity(es, b.entries, false);
        }
      case Object(es) =>
        if |es| == |b.entries| {
          EntriesEqualIsIdentity(es, b.entries, true);
        }
      case _ =>
    }
  }

  lemma {:induction false} EntryEqualIsIdentity(a: Entry, b: Entry, names: bool)
    requires EntryFits(a, names) && EntryFits(b, names)
    ensures EntryEqual(a, b) <==> a == b
    decreases a, 2
  {
    KeyTotal(a.key, b.key);
    EqualIsIdentity(a.value, b.value);
  }

  lemma {:induction false} EntriesEqualIsIdentity(es: seq<Entry>, fs: seq<Entry>, names: bool)
    requires |es| == |fs| && AllKeysFit(es, names) && AllKeysFit(fs, names)
    ensures EntriesEqual(es, fs) <==> es == fs
    decreases es, 0
  {
    if es != [] {
      EntryEqualIsIdentity(es[0], fs[0], names);
      EntriesEqualIsIdentity(es[1..], fs[1..], names);
      assert es == [es[0]] + es[1..] && fs == [fs[0]] + fs[1..];
    }
  }

  /** Exactly one of a < b, a == b, b < a. */
  ghost predicate Trichotomy(less: bool, same: bool, greater: bool) {
    && (less || same || greater)
    && !(less && same) && !(same && greater) && !(less && greater)
  }

  /** operator< is irreflexive, asymmetric and total up to operator==. */
  lemma {:induction false} LessIsTotal(a: Value, b: Value)
    requires KeysFit(a) && KeysFit(b)
    ensures Trichotomy(Less(a, b), Equal(a, b), Less(b, a))
    decreases a, 2
  {
    EqualIsIdentity(a, b);
    if TypeOf(a) == TypeOf(b) {
      match a
      case Str(s) => StrTotal(s, b.string_);
      case Array(es) =>
        if |es| == |b.entries| {
          EntriesTotal(es, b.entries, false);
        }
      case Object(es) =>
        if |es| == |b.entries| {
          EntriesTotal(es, b.entries, true);
        }
      case _ =>
    }
  }

  lemma {:induction false} EntryTotal(a: Entry, b: Entry, names: bool)
    requires EntryFits(a, names) && EntryFits(b, names)
    ensures Trichotomy(EntryLess(a, b), a == b, EntryLess(b, a))
    decreases a, 3
  {
    KeyTotal(a.key, b.key);
    LessIsTotal(a.value, b.value);
    EqualIsIdentity(a.value, b.value);
  }

  lemma {:induction false} EntriesTotal(es: seq<Entry>, fs: seq<Entry>, names: bool)
    requires |es| == |fs| && AllKeysFit(es, names) && AllKeysFit(fs, names)
    ensures Trichotomy(EntriesLess(es, fs), es == fs, EntriesLess(fs, es))
    decreases es, 4
  {
    if es != [] {
      EntryTotal(es[0], fs[0], names);
      EntriesTotal(es[1..], fs[1..], names);
      assert es == [es[0]] + es[1..] && fs == [fs[0]] + fs[1..];
    }
  }

  lemma {:induction false} LessIsTransitive(a: Value, b: Value, c: Value)
    requires KeysFit(a) && KeysFit(b) && KeysFit(c)
    requires Less(a, b) && Less(b, c)
    ensures Less(a, c)
    decreases a, 2
  {
    if TypeOf(a) == TypeOf(b) == TypeOf(c) {
      match a
      case Str(s) => StrTransitive(s, b.string_, c.string_);
      case Array(es) =>
        if |es| == |b.entries| == |c.entries| {
          EntriesTransitive(es, b.entries, c.entries, false);
        }
      case Object(es) =>
        if |es| == |b.entries| == |c.entries| {
          EntriesTransitive(es, b.entries, c.entries, true);
        }
      case _ =>
    }
  }

  lemma {:induction false} EntryTransitive(a: Entry, b: Entry, c: Entry, names: bool)
    requires EntryFits(a, names) && EntryFits(b, names) && EntryFits(c, names)
    requires EntryLess(a, b) && EntryLess(b, c)
    ensures EntryLess(a, c)
    decreases a, 3
  {
    KeyTotal(a.key, b.key);
    KeyTotal(b.key, c.key);
    KeyTotal(a.key, c.key);
    if KeyLess(a.key, b.key) && KeyLess(b.key, c.key) {
      KeyTransitive(a.key, b.key, c.key);
    } else if !KeyLess(a.key, b.key) && !KeyLess(b.key, c.key) {
      LessIsTransitive(a.value, b.value, c.value);
    }
  }

  lemma {:induction false} EntriesTransitive(es: seq<Entry>, fs: seq<Entry>, gs: seq<Entry>, names: bool)
    requires |es| == |fs| == |gs|
    requires AllKeysFit(es, names) && AllKeysFit(fs, names) && AllKeysFit(gs, names)
    requires EntriesLess(es, fs) && EntriesLess(fs, gs)
    ensures EntriesLess(es, gs)
    decreases es, 4
  {
    EntryTotal(es[0], fs[0], names);
    EntryTotal(fs[0], gs[0], names);
    EntryTotal(es[0], gs[0], names);
    if EntryLess(es[0], fs[0]) && EntryLess(fs[0], gs[0]) {
      EntryTransitive(es[0], fs[0], gs[0], names);
    } else if !EntryLess(es[0], fs[0]) && !EntryLess(fs[0], gs[0]) {
      EntriesTransitive(es[1..], fs[1..], gs[1..], names);
    }
  }

  /** operator== is an equivalence, and operator< does not tell equal trees apart. */
  lemma EqualIsCongruence(a: Value, b: Value, c: Value)
    requires KeysFit(a) && KeysFit(b) && KeysFit(c)
    ensures Equal(a, a)
    ensures Equal(a, b) <==> Equal(b, a)
    ensures Equal(a, b) && Equal(b, c) ==> Equal(a, c)
    ensures Equal(a, b) ==> (Less(a, c) <==> Less(b, c)) && (Less(c, a) <==> Less(c, b))
  {
    EqualIsIdentity(a, a);
    EqualIsIdentity(a, b);
    EqualIsIdentity(b, a);
    EqualIsIdentity(b, c);
    EqualIsIdentity(a, c);
  }
}
