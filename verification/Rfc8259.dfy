// JSON texts as sections 2 to 7 of RFC 8259 define them: a parser from the
// grammar, written without regard to jsoncpp.
module Rfc8259 {
  import opened Numerals

  /** A number is mantissa * 10 ^ exponent, as its digits are written. */
  datatype Json =
    | JNull
    | JBool(b: bool)
    | JNumber(mantissa: int, exponent: int)
    | JString(s: string)
    | JArray(items: seq<Json>)
    | JObject(members: seq<(string, Json)>)

  datatype Parse<+T> = Fail | Done(value: T, rest: string)

  // ----- section 2: whitespace -----

  predicate IsWs(c: char) {
    c == ' ' || c == '\t' || c == '\n' || c == '\r'
  }

  function SkipWs(t: string): (r: string)
    ensures |r| <= |t|
    ensures r != "" ==> !IsWs(r[0])
  {
    if t != "" && IsWs(t[0]) then SkipWs(t[1..]) else t
  }

  /** A whole JSON text: whitespace, one value, whitespace. */
  function ParseText(t: string): Parse<Json> {
    match ParseValue(SkipWs(t))
    case Fail => Fail
    case Done(v, rest) => if SkipWs(rest) == "" then Done(v, "") else Fail
  }

  // ----- sections 3 to 5: values, objects, arrays -----

  function ParseValue(t: string): (r: Parse<Json>)
    ensures r.Done? ==> |r.rest| < |t|
    decreases |t|, 1
  {
    if t == "" then Fail
    else if "null" <= t then Done(JNull, t[4..])
    else if "true" <= t then Done(JBool(true), t[4..])
    else if "false" <= t then Done(JBool(false), t[5..])
    else if t[0] == '\"' then
      match ParseChars(t[1..])
      case Fail => Fail
      case Done(s, rest) => Done(JString(s), rest)
    else if t[0] == '[' then
      var u := SkipWs(t[1..]);
      if u != "" && u[0] == ']' then Done(JArray([]), u[1..])
      else
        match ParseItems(u)
        case Fail => Fail
        case Done(items, rest) => Done(JArray(items), rest)
    else if t[0] == '{' then
      var u := SkipWs(t[1..]);
      if u != "" && u[0] == '}' then Done(JObject([]), u[1..])
      else
        match ParseMembers(u)
        case Fail => Fail
        case Done(members, rest) => Done(JObject(members), rest)
    else ParseNumber(t)
  }

  /** value *( value-separator value ) end-array */
  function ParseItems(t: string): (r: Parse<seq<Json>>)
    ensures r.Done? ==> |r.rest| < |t|
    decreases |t|, 2
  {
    match ParseValue(t)
    case Fail => Fail
    case Done(v, rest) =>
      var u := SkipWs(rest);
      if u == "" then Fail
      else if u[0] == ']' then Done([v], u[1..])
      else if u[0] == ',' then
        match ParseItems(SkipWs(u[1..]))
        case Fail => Fail
        case Done(items, rest') => Done([v] + items, rest')
      else Fail
  }

  /** string name-separator value */
  function ParseMember(t: string): (r: Parse<(string, Json)>)
    ensures r.Done? ==> |r.rest| < |t|
    decreases |t|, 0
  {
    if t == "" || t[0] != '\"' then Fail
    else
      match ParseChars(t[1..])
      case Fail => Fail
      case Done(name, rest) =>
        var u := SkipWs(rest);
        if u == "" || u[0] != ':' then Fail
        else
          match ParseValue(SkipWs(u[1..]))
          case Fail => Fail
          case Done(v, rest') => Done((name, v), rest')
  }

  /** member *( value-separator member ) end-object */
  function ParseMembers(t: string): (r: Parse<seq<(string, Json)>>)
    ensures r.Done? ==> |r.rest| < |t|
    decreases |t|, 2
  {
    match ParseMember(t)
    case Fail => Fail
    case Done(m, rest) =>
      var u := SkipWs(rest);
      if u == "" then Fail
      else if u[0] == '}' then Done([m], u[1..])
      else if u[0] == ',' then
        match ParseMembers(SkipWs(u[1..]))
        case Fail => Fail
        case Done(members, rest') => Done([m] + members, rest')
      else Fail
  }

  // ----- section 6: numbers -----

  function DigitsOf(t: string): (d: string)
    ensures d <= t
  {
    if t != "" && IsDigit(t[0]) then [t[0]] + DigitsOf(t[1..]) else ""
  }

  function ParseNumber(t: string): (r: Parse<Json>)
    ensures r.Done? ==> |r.rest| < |t|
  {
    var negative := t != "" && t[0] == '-';
    match ParseUnsigned(if negative then t[1..] else t)
    case Fail => Fail
    case Done((m, e), rest) => Done(JNumber(if negative then 0 - m else m, e), rest)
  }

  /** int [ frac ] [ exp ], as mantissa and exponent */
  function ParseUnsigned(t: string): (r: Parse<(int, int)>)
    ensures r.Done? ==> |r.rest| < |t|
  {
    var whole := if t != "" && t[0] == '0' then "0" else DigitsOf(t);
    if whole == "" then Fail
    else
      var afterWhole := t[|whole|..];
      var hasFrac := afterWhole != "" && afterWhole[0] == '.';
      var frac := if hasFrac then DigitsOf(afterWhole[1..]) else "";
      if hasFrac && frac == "" then Fail
      else
        match ParseExponent(if hasFrac then afterWhole[1 + |frac|..] else afterWhole)
        case Fail => Fail
        case Done(e, rest) => Done((Denotes(whole + frac, 10), e - |frac|), rest)
  }

  /** The optional exponent part; zero when there is none. */
  function ParseExponent(t: string): (r: Parse<int>)
    ensures r.Done? ==> |r.rest| <= |t|
  {
    if t == "" || (t[0] != 'e' && t[0] != 'E') then Done(0, t)
    else
      var signed := |t| > 1 && (t[1] == '+' || t[1] == '-');
      var u := if signed then t[2..] else t[1..];
      var digits := DigitsOf(u);
      if digits == "" then Fail
      else
        var e := Denotes(digits, 10);
        Done(if signed && t[1] == '-' then 0 - e else e, u[|digits|..])
  }

  // ----- section 7: strings, from after the opening quotation mark -----

  function ParseChars(t: string): (r: Parse<string>)
    ensures r.Done? ==> |r.rest| < |t|
  {
    if t == "" then Fail
    else if t[0] == '\"' then Done("", t[1..])
    else if t[0] < ' ' then Fail
    else if t[0] == '\\' then
      match ParseEscape(t[1..])
      case Fail => Fail
      case Done(c, rest) => Prepend(c, ParseChars(rest))
    else Prepend(t[0], ParseChars(t[1..]))
  }

  function Prepend(c: char, p: Parse<string>): Parse<string> {
    if p.Fail? then Fail else Done([c] + p.value, p.rest)
  }

  /** What follows a reverse solidus; an unpaired surrogate is not accepted. */
  function ParseEscape(t: string): (r: Parse<char>)
    ensures r.Done? ==> |r.rest| < |t|
  {
    if t == "" then Fail
    else
      match t[0]
      case '\"' => Done('\"', t[1..])
      case '\\' => Done('\\', t[1..])
      case '/' => Done('/', t[1..])
      case 'b' => Done(8 as char, t[1..])
      case 'f' => Done(12 as char, t[1..])
      case 'n' => Done('\n', t[1..])
      case 'r' => Done('\r', t[1..])
      case 't' => Done('\t', t[1..])
      case 'u' =>
        (match Hex4(t[1..])
         case Fail => Fail
         case Done(u, rest) =>
           if u < 0xD800 || 0xE000 <= u then Done(u as char, rest)
           else if u < 0xDC00 && "\\u" <= rest then
             match Hex4(rest[2..])
             case Fail => Fail
             case Done(v, rest') =>
               if 0xDC00 <= v < 0xE000
               then Done((0x10000 + (u - 0xD800) * 0x400 + (v - 0xDC00)) as char, rest')
               else Fail
           else Fail)
      case _ => Fail
  }

  function Hex4(t: string): (r: Parse<nat>)
    ensures r.Done? ==> |r.rest| + 4 == |t| && r.value < 0x10000
  {
    if |t| < 4 then Fail
    else
      var a, b, c, d := DigitValue(t[0]), DigitValue(t[1]), DigitValue(t[2]), DigitValue(t[3]);
      if a < 16 && b < 16 && c < 16 && d < 16 then Done(a * 0x1000 + b * 0x100 + c * 0x10 + d, t[4..]) else Fail
  }
}
