// The texts of jsoncpp's printers (json_writer.cpp) for single numbers and strings.
module JsonText {
  import opened Lists
  import opened Numerals
  import opened Rfc8259

  // ----- numbers -----

  /** uintToString: writes the terminator and the digits backwards from `current`. */
  method UintToString(value: nat, buffer: array<char>, current: nat) returns (start: nat)
    requires value < 0x1_0000_0000 && 11 <= current <= buffer.Length
    modifies buffer
    ensures start + |Decimal(value)| + 1 == current
    ensures buffer[start..current] == Decimal(value) + ['\0']
    ensures forall i :: 0 <= i < start || current <= i < buffer.Length ==> buffer[i] == old(buffer[i])
  {
    NumeralLength(value, 10, false, 10);
    assert Power(10, 10) == 10_000_000_000;
    start := current - 1;
    buffer[start] := '\0';
    var v := value;
    var first := true;
    while first || v != 0
      invariant 0 <= start < current && buffer[current - 1] == '\0'
      invariant first ==> v == value && start == current - 1
      invariant !first && v == 0 ==> buffer[start..current] == Decimal(value) + ['\0']
      invariant first || v != 0 ==>
        |Decimal(v)| <= start && Decimal(v) + buffer[start..current] == Decimal(value) + ['\0']
      invariant start + |Decimal(value)| + 1 == current + (if first || v != 0 then |Decimal(v)| else 0)
      invariant forall i :: 0 <= i < start || current <= i < buffer.Length ==> buffer[i] == old(buffer[i])
      decreases first, v
    {
      ghost var tail := buffer[start..current];
      LastDigit(v, tail);
      start := start - 1;
      buffer[start] := (v % 10) as char + '0';
      v := v / 10;
      first := false;
      assert buffer[start..current] == [buffer[start]] + tail;
    }
  }

  lemma LastDigit(v: nat, tail: string)
    ensures Decimal(v) + tail ==
      (if v / 10 == 0 then "" else Decimal(v / 10)) + ([(v % 10) as char + '0'] + tail)
    ensures |Decimal(v)| == 1 + (if v / 10 == 0 then 0 else |Decimal(v / 10)|)
  {
    if v >= 10 {
      assert Decimal(v) == Decimal(v / 10) + [DigitChar(v % 10, false)];
    } else {
      assert Decimal(v) == [DigitChar(v, false)];
    }
  }

  /** valueToString( Int ); the magnitude of the least int is what the negation wraps to
      as an unsigned number. */
  method IntToString(value: int) returns (s: string)
    requires -0x8000_0000 <= value < 0x8000_0000
    ensures s == IntText(value)
  {
    var buffer := new char[32];
    var isNegative := value < 0;
    var magnitude := if isNegative then -value else value;
    NumeralLength(magnitude, 10, false, 10);
    assert Power(10, 10) == 10_000_000_000;
    var current := UintToString(magnitude, buffer, buffer.Length);
    ghost var text := buffer[current..buffer.Length];
    if isNegative {
      current := current - 1;
      buffer[current] := '-';
      assert buffer[current..] == ['-'] + text == ("-" + Decimal(magnitude)) + ['\0'];
    }
    s := buffer[current..buffer.Length - 1];
    assert buffer[current..] == s + ['\0'];
    SameBody(s, IntText(value));
  }

  /** valueToString( UInt ) */
  method UIntToString(value: nat) returns (s: string)
    requires value < 0x1_0000_0000
    ensures s == IntText(value)
  {
    var buffer := new char[32];
    var current := UintToString(value, buffer, buffer.Length);
    s := buffer[current..buffer.Length - 1];
    assert buffer[current..buffer.Length] == s + ['\0'];
    SameBody(s, IntText(value));
  }

  lemma SameBody(a: string, b: string)
    requires a + ['\0'] == b + ['\0']
    ensures a == b
  {
    assert a == (a + ['\0'])[..|a|] && b == (b + ['\0'])[..|b|];
    assert |a + ['\0']| == |b + ['\0']|;
  }

  // ----- strings -----

  predicate IsControlCharacter(c: char) {
    '\0' < c && c as int <= 0x1F
  }

  /** Has a two-character escape. */
  predicate IsSpecial(c: char) {
    c == '\"' || c == '\\' || c as int in {8, 12} || c == '\n' || c == '\r' || c == '\t'
  }

  function Pad4(digits: string): string {
    seq(if |digits| < 4 then 4 - |digits| else 0, _ => '0') + digits
  }

  function EscapeChar(c: char): string {
    if c == '\"' then "\\\""
    else if c == '\\' then "\\\\"
    else if c as int == 8 then "\\b"
    else if c as int == 12 then "\\f"
    else if c == '\n' then "\\n"
    else if c == '\r' then "\\r"
    else if c == '\t' then "\\t"
    else if IsControlCharacter(c) then "\\u" + Pad4(Numeral(c as nat, 16, true))
    else [c]
  }

  function Escape(s: string): string {
    if s == "" then "" else EscapeChar(s[0]) + Escape(s[1..])
  }

  function Quoted(s: string): string {
    "\"" + Escape(s) + "\""
  }

  lemma {:induction false} EscapePlain(s: string)
    requires forall c :: c in s ==> !IsSpecial(c) && !IsControlCharacter(c)
    ensures Escape(s) == s
  {
    if s != "" {
      assert s[0] in s && forall c :: c in s[1..] ==> c in s;
      EscapePlain(s[1..]);
      assert s == [s[0]] + s[1..];
    }
  }

  lemma {:induction false} EscapeAppend(s: string, c: char)
    ensures Escape(s + [c]) == Escape(s) + EscapeChar(c)
  {
    if s == "" {
      assert s + [c] == [c] && [c][1..] == "" && EscapeChar(c) + "" == "" + EscapeChar(c);
    } else {
      EscapeAppend(s[1..], c);
      assert (s + [c])[1..] == s[1..] + [c];
      Regroup(EscapeChar(s[0]), Escape(s[1..]), EscapeChar(c));
    }
  }

  lemma EscapeOneMore(value: string, i: nat)
    requires i < |value|
    ensures "\"" + Escape(value[..i + 1]) == ("\"" + Escape(value[..i])) + EscapeChar(value[i])
  {
    assert value[..i + 1] == value[..i] + [value[i]];
    EscapeAppend(value[..i], value[i]);
    Regroup("\"", Escape(value[..i]), EscapeChar(value[i]));
  }

  /** The fast path and the escaping loop: both give the quoted string. */
  method ValueToQuotedString(value: string) returns (result: string)
    ensures result == Quoted(value)
  {
    if (forall c :: c in value ==> !IsSpecial(c)) && (forall c :: c in value ==> !IsControlCharacter(c)) {
      EscapePlain(value);
      return "\"" + value + "\"";
    }
    result := "\"";
    var i := 0;
    while i < |value|
      invariant i <= |value| && result == "\"" + Escape(value[..i])
    {
      EscapeOneMore(value, i);
      result := result + EscapeChar(value[i]);
      i := i + 1;
    }
    assert value[..i] == value;
    result := result + "\"";
  }

  // ----- compact documents -----

  /** What the fast writer prints for a tree; `sep` is ":" or ": ". */
  function Render(j: Json, sep: string): string
    decreases j, 1
  {
    match j
    case JNull => "null"
    case JBool(b) => if b then "true" else "false"
    case JNumber(m, _) => IntText(m)
    case JString(s) => Quoted(s)
    case JArray(items) => "[" + RenderItems(items, sep) + "]"
    case JObject(members) => "{" + RenderMembers(members, sep) + "}"
  }

  function RenderItems(items: seq<Json>, sep: string): string
    decreases items, 0
  {
    if items == [] then "" else Render(items[0], sep) + RenderMoreItems(items[1..], sep)
  }

  function RenderMoreItems(items: seq<Json>, sep: string): string
    decreases items, 0
  {
    if items == [] then "" else "," + (Render(items[0], sep) + RenderMoreItems(items[1..], sep))
  }

  function RenderMember(m: (string, Json), sep: string): string
    decreases m, 2
  {
    Quoted(m.0) + sep + Render(m.1, sep)
  }

  function RenderMembers(members: seq<(string, Json)>, sep: string): string
    decreases members, 0
  {
    if members == [] then "" else RenderMember(members[0], sep) + RenderMoreMembers(members[1..], sep)
  }

  function RenderMoreMembers(members: seq<(string, Json)>, sep: string): string
    decreases members, 0
  {
    if members == [] then "" else "," + (RenderMember(members[0], sep) + RenderMoreMembers(members[1..], sep))
  }

  /** Integers only, and strings without NUL. */
  predicate Plain(j: Json)
    decreases j, 1
  {
    match j
    case JNumber(_, e) => e == 0
    case JString(s) => '\0' !in s
    case JArray(items) => forall i :: 0 <= i < |items| ==> Plain(items[i])
    case JObject(members) => forall i :: 0 <= i < |members| ==> PlainMember(members[i])
    case _ => true
  }

  predicate PlainMember(m: (string, Json))
    decreases m, 2
  {
    '\0' !in m.0 && Plain(m.1)
  }

  predicate IsSeparator(sep: string) {
    sep == ":" || sep == ": "
  }
}
