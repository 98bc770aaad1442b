// The replacement-field language of fmt's format strings (format.cc), read off the
// text alone and then evaluated against an argument list. The one-pass scanner is
// proved against these two phases.
module FmtSyntax {
  import opened Words
  import opened Wrappers
  import opened Numerals
  import W = FmtWriter

  // ----- syntax -----

  datatype Ref = Auto | Index(n: nat) | Name(name: string)

  datatype Count = Fixed(n: nat) | FromArg(ref: Ref)

  /** `explicit` is false for an alignment that was only looked at. */
  datatype AlignText = AlignText(fill: char, align: W.Alignment, explicit: bool)

  /** '\0' stands for no sign. */
  datatype Flags = Flags(sign: char, hash: bool, zero: bool)

  datatype SpecText = SpecText(align: AlignText, flags: Flags, width: Option<Count>, precision: Option<Count>, typ: char)

  datatype Piece = Literal(c: char) | Field(ref: Ref, spec: Option<SpecText>)

  /** A reading of the front of a text and what is left of it. */
  datatype Scan<+T> = Got(value: T, rest: string) | Bad

  const NO_ALIGN: AlignText := AlignText(' ', W.Default, false)

  function Peek(s: string): char {
    if s == "" then '\0' else s[0]
  }

  predicate IsNameStart(c: char) {
    'a' <= c <= 'z' || 'A' <= c <= 'Z' || c == '_'
  }

  predicate IsNameChar(c: char) {
    IsNameStart(c) || IsDigit(c)
  }

  function AlignOf(c: char): W.Alignment {
    if c == '<' then W.Left else if c == '>' then W.Right else if c == '=' then W.Numeric
    else if c == '^' then W.Center else W.Default
  }

  function DigitRun(s: string): (n: nat)
    ensures n <= |s|
  {
    if s != "" && IsDigit(s[0]) then 1 + DigitRun(s[1..]) else 0
  }

  function NameRun(s: string): (n: nat)
    ensures n <= |s|
  {
    if s != "" && IsNameChar(s[0]) then 1 + NameRun(s[1..]) else 0
  }

  /** The 32-bit running value, and UINT_MAX once the test for a wrap strikes. */
  function Accumulate(value: nat, digits: string): nat
    requires forall c :: c in digits ==> IsDigit(c)
    decreases |digits|
  {
    if digits == "" then value
    else
      var newValue := (value * 10 + DigitValue(digits[0])) % WORD_32;
      if newValue < value then UINT_MAX else Accumulate(newValue, digits[1..])
  }

  lemma {:induction false} DigitRunIsDigits(s: string)
    ensures forall c :: c in s[..DigitRun(s)] ==> IsDigit(c)
    ensures !IsDigit(Peek(s[DigitRun(s)..]))
  {
    if s != "" && IsDigit(s[0]) {
      DigitRunIsDigits(s[1..]);
      var n := DigitRun(s[1..]);
      assert s[..n + 1] == [s[0]] + s[1..][..n] && s[n + 1..] == s[1..][n..];
    }
  }

  function ParseNumber(s: string): (r: Scan<nat>)
    ensures r.Got? ==> |r.rest| == |s| - DigitRun(s)
  {
    DigitRunIsDigits(s);
    var n := DigitRun(s);
    var value := Accumulate(0, s[..n]);
    if value > INT_MAX then Bad else Got(value, s[n..])
  }

  function ParseRef(s: string): (r: Scan<Ref>)
    ensures r.Got? ==> |r.rest| <= |s|
  {
    if IsNameStart(Peek(s)) then Got(Name(s[..NameRun(s)]), s[NameRun(s)..])
    else if IsDigit(Peek(s)) then
      match ParseNumber(s)
      case Got(n, rest) => Got(Index(n), rest)
      case Bad => Bad
    else Got(Auto, s)
  }

  /** Fill and alignment; the fill is the character before an alignment character. */
  function ParseAlign(s: string): (r: Scan<AlignText>)
    ensures r.Got? ==> |r.rest| <= |s|
  {
    if |s| > 1 && AlignOf(s[1]) != W.Default then
      if s[0] == '}' then Got(AlignText(' ', AlignOf(s[1]), false), s)
      else if s[0] == '{' then Bad
      else Got(AlignText(s[0], AlignOf(s[1]), true), s[2..])
    else if s != "" && AlignOf(s[0]) != W.Default then Got(AlignText(' ', AlignOf(s[0]), true), s[1..])
    else Got(NO_ALIGN, s)
  }

  function ParseFlags(s: string): (r: (Flags, string))
    ensures |r.1| <= |s|
  {
    var signed := Peek(s) == '+' || Peek(s) == '-' || Peek(s) == ' ';
    var s1 := if signed then s[1..] else s;
    var hash := Peek(s1) == '#';
    var s2 := if hash then s1[1..] else s1;
    var zero := Peek(s2) == '0';
    (Flags(if signed then s[0] else '\0', hash, zero), if zero then s2[1..] else s2)
  }

  /** A number, or a nested field that names the argument holding it. */
  function ParseCount(s: string): (r: Scan<Option<Count>>)
    ensures r.Got? ==> |r.rest| <= |s|
  {
    if IsDigit(Peek(s)) then
      match ParseNumber(s)
      case Got(n, rest) => Got(Some(Fixed(n)), rest)
      case Bad => Bad
    else if Peek(s) == '{' then
      match ParseRef(s[1..])
      case Got(ref, rest) => if Peek(rest) == '}' then Got(Some(FromArg(ref)), rest[1..]) else Bad
      case Bad => Bad
    else Got(None, s)
  }

  function ParsePrecision(s: string): (r: Scan<Option<Count>>)
    ensures r.Got? ==> |r.rest| <= |s|
  {
    if Peek(s) != '.' then Got(None, s)
    else
      var r := ParseCount(s[1..]);
      if r.Got? && r.value.None? then Bad else r
  }

  function ParseType(s: string): (r: (char, string))
    ensures |r.1| <= |s|
  {
    if s != "" && s[0] != '}' then (s[0], s[1..]) else ('\0', s)
  }

  /** Width, then precision. */
  function ParseCounts(s: string): (r: Scan<(Option<Count>, Option<Count>)>)
    ensures r.Got? ==> |r.rest| <= |s|
  {
    match ParseCount(s)
    case Bad => Bad
    case Got(width, s1) =>
      match ParsePrecision(s1)
      case Bad => Bad
      case Got(precision, s2) => Got((width, precision), s2)
  }

  function ParseSpec(s: string): (r: Scan<SpecText>)
    ensures r.Got? ==> |r.rest| <= |s|
  {
    match ParseAlign(s)
    case Bad => Bad
    case Got(align, s1) =>
      var (flags, s2) := ParseFlags(s1);
      match ParseCounts(s2)
      case Bad => Bad
      case Got((width, precision), s3) =>
        var (typ, s4) := ParseType(s3);
        Got(SpecText(align, flags, width, precision, typ), s4)
  }

  /** What follows the argument reference, up to the closing brace. */
  function ParseTail(s: string): (r: Scan<Option<SpecText>>)
    ensures r.Got? ==> |r.rest| < |s|
  {
    if Peek(s) == ':' then
      match ParseSpec(s[1..])
      case Bad => Bad
      case Got(spec, rest) => if Peek(rest) == '}' then Got(Some(spec), rest[1..]) else Bad
    else if Peek(s) == '}' then Got(None, s[1..])
    else Bad
  }

  function ParseField(s: string): (r: Scan<Piece>)
    ensures r.Got? ==> |r.rest| < |s|
  {
    match ParseRef(s)
    case Bad => Bad
    case Got(ref, s1) =>
      match ParseTail(s1)
      case Bad => Bad
      case Got(spec, rest) => Got(Field(ref, spec), rest)
  }

  function Prepend(p: Piece, tail: Option<seq<Piece>>): Option<seq<Piece>> {
    if tail.Some? then Some([p] + tail.value) else None
  }

  function ParsePieces(s: string): Option<seq<Piece>>
    decreases |s|
  {
    if s == "" then Some([])
    else if s[0] != '{' && s[0] != '}' then Prepend(Literal(s[0]), ParsePieces(s[1..]))
    else if Peek(s[1..]) == s[0] then Prepend(Literal(s[0]), ParsePieces(s[2..]))
    else if s[0] == '}' then None
    else
      match ParseField(s[1..])
      case Bad => None
      case Got(field, rest) => Prepend(field, ParsePieces(rest))
  }

  // ----- evaluation -----

  /** The argument types the scanner distinguishes, named arguments resolved. */
  datatype ArgType = Int | UInt | LongLong | ULongLong | Bool | Char | Double | LongDouble
                   | CString | String | WString | Pointer

  /** `value` matters for the first four types only; `content` is whatever else there is to print. */
  datatype Arg = Arg(typ: ArgType, value: int, content: string)

  datatype Entry = Entry(name: Option<string>, arg: Arg)

  datatype Spec = Spec(width: nat, precision: int, fill: char, align: W.Alignment, sign: char, hash: bool, typ: char)

  const DEFAULT_SPEC: Spec := Spec(0, -1, ' ', W.Default, '\0', false, '\0')

  /** What the argument formatter writes for an argument, None where it throws. */
  type Renderer = (Arg, Spec) -> Option<string>

  predicate IsInteger(t: ArgType) {
    t.Int? || t.UInt? || t.LongLong? || t.ULongLong? || t.Bool? || t.Char?
  }

  predicate IsNumeric(t: ArgType) {
    IsInteger(t) || t.Double? || t.LongDouble?
  }

  function Find(args: seq<Entry>, name: string): Option<Arg> {
    if args == [] then None
    else if args[0].name == Some(name) then Some(args[0].arg)
    else Find(args[1..], name)
  }

  /** The argument a reference selects and the index state after it: the next automatic
      index, or -1 once explicit references are in use. */
  function Lookup(args: seq<Entry>, ref: Ref, next: int): Option<(Arg, int)> {
    match ref
    case Auto => if 0 <= next < |args| then Some((args[next].arg, next + 1)) else None
    case Index(n) => if next <= 0 && n < |args| then Some((args[n].arg, -1)) else None
    case Name(name) =>
      if next <= 0 && Find(args, name).Some? then Some((Find(args, name).value, -1)) else None
  }

  predicate IsCount(a: Arg) {
    (a.typ.Int? || a.typ.UInt? || a.typ.LongLong? || a.typ.ULongLong?) && 0 <= a.value <= INT_MAX
  }

  function EvalCount(args: seq<Entry>, count: Option<Count>, absent: int, next: int): Option<(int, int)> {
    match count
    case None => Some((absent, next))
    case Some(Fixed(n)) => Some((n, next))
    case Some(FromArg(ref)) =>
      match Lookup(args, ref, next)
      case Some((arg, after)) => if IsCount(arg) then Some((arg.value, after)) else None
      case None => None
  }

  predicate AlignAllowed(a: AlignText, t: ArgType) {
    a.explicit && a.align == W.Numeric ==> IsNumeric(t)
  }

  predicate FlagsAllowed(f: Flags, t: ArgType) {
    && (f.sign != '\0' ==> IsNumeric(t) && !t.UInt? && !t.ULongLong?)
    && (f.hash || f.zero ==> IsNumeric(t))
  }

  function Assembled(spec: SpecText, width: int, precision: int): Spec
    requires width >= 0
  {
    Spec(width, precision, if spec.flags.zero then '0' else spec.align.fill,
         if spec.flags.zero then W.Numeric else spec.align.align, spec.flags.sign, spec.flags.hash, spec.typ)
  }

  /** Width and precision, and the index state after both; a precision is not for integers and pointers. */
  function EvalCounts(args: seq<Entry>, t: ArgType, width: Option<Count>, precision: Option<Count>, next: int):
    (r: Option<((int, int), int)>)
    ensures r.Some? ==> r.value.0.0 >= 0
  {
    match EvalCount(args, width, 0, next)
    case None => None
    case Some((w, next1)) =>
      match EvalCount(args, precision, -1, next1)
      case None => None
      case Some((p, next2)) =>
        if precision.Some? && (IsInteger(t) || t.Pointer?) then None else Some(((w, p), next2))
  }

  function EvalSpec(args: seq<Entry>, t: ArgType, spec: SpecText, next: int): Option<(Spec, int)> {
    if !AlignAllowed(spec.align, t) || !FlagsAllowed(spec.flags, t) then None
    else
      match EvalCounts(args, t, spec.width, spec.precision, next)
      case None => None
      case Some(((width, precision), after)) => Some((Assembled(spec, width, precision), after))
  }

  /** Output so far and index state. */
  datatype State = State(output: string, next: int)

  function Emit(render: Renderer, arg: Arg, spec: Spec, output: string, next: int): Option<State> {
    match render(arg, spec)
    case Some(text) => Some(State(output + text, next))
    case None => None
  }

  function EvalTail(args: seq<Entry>, render: Renderer, arg: Arg, spec: Option<SpecText>, st: State): Option<State> {
    match spec
    case None => Emit(render, arg, DEFAULT_SPEC, st.output, st.next)
    case Some(text) =>
      match EvalSpec(args, arg.typ, text, st.next)
      case None => None
      case Some((full, next)) => Emit(render, arg, full, st.output, next)
  }

  function EvalPiece(args: seq<Entry>, render: Renderer, p: Piece, st: State): Option<State> {
    match p
    case Literal(c) => Some(State(st.output + [c], st.next))
    case Field(ref, spec) =>
      match Lookup(args, ref, st.next)
      case None => None
      case Some((arg, next)) => EvalTail(args, render, arg, spec, State(st.output, next))
  }

  function Eval(args: seq<Entry>, render: Renderer, pieces: seq<Piece>, st: State): Option<State> {
    if pieces == [] then Some(st)
    else
      match EvalPiece(args, render, pieces[0], st)
      case None => None
      case Some(after) => Eval(args, render, pieces[1..], after)
  }

  /** Reads the rest of a format string, then evaluates it from the given state. */
  function Finish(args: seq<Entry>, render: Renderer, s: string, st: State): Option<State> {
    match ParsePieces(s)
    case None => None
    case Some(pieces) => Eval(args, render, pieces, st)
  }

  /** Reads the whole string, then evaluates it; None stands for an exception. */
  function Reference(args: seq<Entry>, render: Renderer, text: string): Option<State> {
    Finish(args, render, text, State("", 0))
  }
}
