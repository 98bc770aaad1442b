// The format-string scanner of fmt (BasicFormatter in format.cc): one pass that
// reads, looks arguments up and writes as it goes. It succeeds exactly when reading
// the whole string first and evaluating it afterwards succeeds, with the same output.
module FmtScanner {
  import opened Words
  import opened Wrappers
  import opened Numerals
  import opened FmtSyntax
  import W = FmtWriter

  /** The character at the scan pointer; the terminator sits at |text|. */
  function At(text: string, s: nat): (c: char)
    requires s <= |text|
    ensures c == Peek(text[s..])
  {
    (text + ['\0'])[s]
  }

  lemma Advance(text: string, s: nat, k: nat)
    requires s + k <= |text|
    ensures text[s..][k..] == text[s + k..]
  {
  }

  lemma RunEnds(text: string, s: nat, n: nat)
    requires s <= |text| && n == DigitRun(text[s..])
    ensures s + n <= |text|
    ensures forall k :: s <= k < s + n ==> IsDigit(text[k])
    ensures !IsDigit(At(text, s + n))
  {
    DigitRunIsDigits(text[s..]);
    Advance(text, s, n);
    var run := text[s..][..n];
    assert forall k :: s <= k < s + n ==> text[k] == run[k - s] && run[k - s] in run;
  }

  lemma AccumulateStep(text: string, i: nat, end: nat, value: nat)
    requires i < end <= |text| && forall k :: i <= k < end ==> IsDigit(text[k])
    ensures (forall c :: c in text[i..end] ==> IsDigit(c)) && (forall c :: c in text[i + 1..end] ==> IsDigit(c))
    ensures var newValue := (value * 10 + DigitValue(text[i])) % WORD_32;
      Accumulate(value, text[i..end]) == if newValue < value then UINT_MAX else Accumulate(newValue, text[i + 1..end])
  {
    assert text[i..end][1..] == text[i + 1..end];
  }

  /** parse_nonnegative_int, with the pointer after the number. */
  method ParseNonnegativeInt(text: string, s: nat) returns (r: Result<nat, string>, e: nat)
    requires s < |text| && IsDigit(text[s])
    ensures r.Ok? <==> ParseNumber(text[s..]).Got?
    ensures r.Ok? ==> e <= |text| && ParseNumber(text[s..]) == Got(r.value, text[e..])
  {
    ghost var end := s + DigitRun(text[s..]);
    RunEnds(text, s, end - s);
    assert text[s..][..end - s] == text[s..end];
    DigitRunIsDigits(text[s..]);
    var value: nat := 0;
    e := s;
    var more := true;
    while more
      invariant s <= e <= end <= |text|
      invariant more ==> e < end
      invariant more ==> Accumulate(value, text[e..end]) == Accumulate(0, text[s..end])
      invariant !more ==> value == Accumulate(0, text[s..end]) && (e == end || value == UINT_MAX)
      decreases end - e, more
    {
      AccumulateStep(text, e, end, value);
      var newValue := (value * 10 + DigitValue(text[e])) % WORD_32;
      e := e + 1;
      if newValue < value {
        value := UINT_MAX;
        break;
      }
      value := newValue;
      more := IsDigit(At(text, e));
    }
    Advance(text, s, end - s);
    if value > INT_MAX {
      return Err("number is too big"), e;
    }
    r := Ok(value);
  }

  lemma NameRunEnds(text: string, s: nat)
    requires s <= |text|
    ensures s + NameRun(text[s..]) <= |text|
    ensures NameRun(text[s..]) ==
      if IsNameChar(At(text, s)) then 1 + NameRun(text[s + 1..]) else 0
  {
    if s < |text| {
      Advance(text, s, 1);
    }
  }

  lemma NameReads(text: string, s: nat, e: nat)
    requires s < |text| && IsNameStart(text[s]) && e == s + NameRun(text[s..])
    ensures s <= e <= |text| && ParseRef(text[s..]) == Got(Name(text[s..e]), text[e..])
  {
    NameRunEnds(text, s);
    Advance(text, s, e - s);
    assert text[s..][..e - s] == text[s..e];
  }

  // ----- one step of reading and evaluating -----

  lemma FinishText(args: seq<Entry>, render: Renderer, s: string, st: State)
    requires s != "" && s[0] != '{' && s[0] != '}'
    ensures Finish(args, render, s, st) == Finish(args, render, s[1..], State(st.output + [s[0]], st.next))
  {
    FinishPiece(args, render, Literal(s[0]), s[1..], st);
  }

  lemma FinishDoubled(args: seq<Entry>, render: Renderer, s: string, st: State)
    requires s != "" && (s[0] == '{' || s[0] == '}') && Peek(s[1..]) == s[0]
    ensures |s| >= 2
    ensures Finish(args, render, s, st) == Finish(args, render, s[2..], State(st.output + [s[0]], st.next))
  {
    FinishPiece(args, render, Literal(s[0]), s[2..], st);
  }

  lemma FinishField(args: seq<Entry>, render: Renderer, s: string, st: State)
    requires s != "" && s[0] == '{' && Peek(s[1..]) != '{'
    ensures ParseField(s[1..]).Bad? ==> Finish(args, render, s, st).None?
    ensures ParseField(s[1..]).Got? && EvalPiece(args, render, ParseField(s[1..]).value, st).None? ==>
      Finish(args, render, s, st).None?
    ensures ParseField(s[1..]).Got? && EvalPiece(args, render, ParseField(s[1..]).value, st).Some? ==>
      Finish(args, render, s, st)
        == Finish(args, render, ParseField(s[1..]).rest, EvalPiece(args, render, ParseField(s[1..]).value, st).value)
  {
    var p := ParseField(s[1..]);
    if p.Got? {
      FinishPiece(args, render, p.value, p.rest, st);
    }
  }

  /** Formatting the rest of the text from s on, with this output so far, ends in `all`. */
  ghost predicate Finishes(args: seq<Entry>, render: Renderer, text: string, s: nat, output: string, next: int,
                           all: Option<State>)
  {
    s <= |text| && Finish(args, render, text[s..], State(output, next)) == all
  }

  lemma TextStep(args: seq<Entry>, render: Renderer, text: string, start: nat, s: nat, output: string, next: int,
                 all: Option<State>)
    requires start <= s < |text| && text[s] != '{' && text[s] != '}'
    requires Finishes(args, render, text, s, output + text[start..s], next, all)
    ensures Finishes(args, render, text, s + 1, output + text[start..s + 1], next, all)
  {
    Advance(text, s, 1);
    FinishText(args, render, text[s..], State(output + text[start..s], next));
    assert output + text[start..s + 1] == (output + text[start..s]) + [text[s]];
  }

  /** Both braces are read, and the first one ends the text that is written. */
  lemma DoubledStep(args: seq<Entry>, render: Renderer, text: string, start: nat, s: nat, output: string, next: int,
                    all: Option<State>)
    requires start <= s < |text| && (text[s] == '{' || text[s] == '}') && At(text, s + 1) == text[s]
    requires Finishes(args, render, text, s, output + text[start..s], next, all)
    ensures s + 2 <= |text|
    ensures Finishes(args, render, text, s + 2, (output + text[start..s + 1]) + text[s + 2..s + 2], next, all)
  {
    Advance(text, s, 1);
    FinishDoubled(args, render, text[s..], State(output + text[start..s], next));
    Advance(text, s, 2);
    assert (output + text[start..s + 1]) + text[s + 2..s + 2] == (output + text[start..s]) + [text[s]];
  }

  lemma StrayStep(args: seq<Entry>, render: Renderer, text: string, s: nat, output: string, next: int,
                  all: Option<State>)
    requires s < |text| && text[s] == '}' && At(text, s + 1) != '}'
    requires Finishes(args, render, text, s, output, next, all)
    ensures all.None?
  {
    Advance(text, s, 1);
  }

  lemma FieldStep(args: seq<Entry>, render: Renderer, text: string, s: nat, output: string, next: int,
                  all: Option<State>)
    requires s < |text| && text[s] == '{' && At(text, s + 1) != '{'
    requires Finishes(args, render, text, s, output, next, all)
    ensures var p, st := ParseField(text[s + 1..]), State(output, next);
      if p.Bad? || EvalPiece(args, render, p.value, st).None? then all.None?
      else
        var st' := EvalPiece(args, render, p.value, st).value;
        forall e: nat :: e <= |text| && p.rest == text[e..] ==>
          Finishes(args, render, text, e, st'.output + text[e..e], st'.next, all)
  {
    Advance(text, s, 1);
    var p, st := ParseField(text[s + 1..]), State(output, next);
    FinishField(args, render, text[s..], st);
    if p.Got? && EvalPiece(args, render, p.value, st).Some? {
      var st' := EvalPiece(args, render, p.value, st).value;
      forall e: nat | e <= |text| && p.rest == text[e..]
        ensures Finishes(args, render, text, e, st'.output + text[e..e], st'.next, all)
      {
        assert st'.output + text[e..e] == st'.output;
      }
    }
  }

  /** Evaluating a piece and then what the rest reads as. */
  lemma FinishPiece(args: seq<Entry>, render: Renderer, p: Piece, rest: string, st: State)
    ensures
      (match Prepend(p, ParsePieces(rest))
       case None => None
       case Some(pieces) => Eval(args, render, pieces, st))
      ==
      (match EvalPiece(args, render, p, st)
       case None => None
       case Some(after) => Finish(args, render, rest, after))
  {
    var tail := ParsePieces(rest);
    if tail.Some? {
      assert ([p] + tail.value)[1..] == tail.value;
    }
  }

  // ----- the scanner -----

  class BasicFormatter {
    const args: seq<Entry>
    const render: Renderer
    var output: string
    /** The next automatic index, -1 after the first explicit reference. */
    var nextArgIndex: int

    constructor (args: seq<Entry>, render: Renderer)
      ensures this.args == args && this.render == render && output == "" && nextArgIndex == 0
    {
      this.args, this.render, output, nextArgIndex := args, render, "", 0;
    }

    /** next_arg */
    method NextArg() returns (r: Result<Arg, string>)
      modifies this`nextArgIndex
      ensures r.Ok? <==> Lookup(args, Auto, old(nextArgIndex)).Some?
      ensures r.Ok? ==> Lookup(args, Auto, old(nextArgIndex)) == Some((r.value, nextArgIndex))
    {
      if nextArgIndex >= 0 {
        nextArgIndex := nextArgIndex + 1;
        return DoGetArg(nextArgIndex - 1);
      }
      r := Err("cannot switch from manual to automatic argument indexing");
    }

    function DoGetArg(index: int): Result<Arg, string>
      requires index >= 0
    {
      if index < |args| then Ok(args[index].arg) else Err("argument index out of range")
    }

    /** check_no_auto_index */
    method CheckNoAutoIndex() returns (ok: bool)
      modifies this`nextArgIndex
      ensures ok <==> old(nextArgIndex) <= 0
      ensures nextArgIndex == if ok then -1 else old(nextArgIndex)
    {
      if nextArgIndex > 0 {
        return false;
      }
      nextArgIndex := -1;
      ok := true;
    }

    /** get_arg by position */
    method GetArg(index: nat) returns (r: Result<Arg, string>)
      modifies this`nextArgIndex
      ensures r.Ok? <==> Lookup(args, Index(index), old(nextArgIndex)).Some?
      ensures r.Ok? ==> Lookup(args, Index(index), old(nextArgIndex)) == Some((r.value, nextArgIndex))
    {
      var ok := CheckNoAutoIndex();
      if ok {
        return DoGetArg(index);
      }
      r := Err("cannot switch from automatic to manual argument indexing");
    }

    /** get_arg by name */
    method GetNamedArg(name: string) returns (r: Result<Arg, string>)
      modifies this`nextArgIndex
      ensures r.Ok? <==> Lookup(args, Name(name), old(nextArgIndex)).Some?
      ensures r.Ok? ==> Lookup(args, Name(name), old(nextArgIndex)) == Some((r.value, nextArgIndex))
    {
      var ok := CheckNoAutoIndex();
      if ok {
        var found := Find(args, name);
        return if found.Some? then Ok(found.value) else Err("argument not found");
      }
      r := Err("cannot switch from automatic to manual argument indexing");
    }

    /** parse_arg_name */
    method ParseArgName(text: string, s: nat) returns (r: Result<Arg, string>, e: nat)
      requires s < |text| && IsNameStart(text[s])
      modifies this`nextArgIndex
      ensures r.Ok? <==> ParseRef(text[s..]).Got? && Lookup(args, ParseRef(text[s..]).value, old(nextArgIndex)).Some?
      ensures r.Ok? ==> e <= |text| && ParseRef(text[s..]).rest == text[e..]
      ensures r.Ok? ==> Lookup(args, ParseRef(text[s..]).value, old(nextArgIndex)) == Some((r.value, nextArgIndex))
    {
      NameRunEnds(text, s);
      e := s + 1;
      NameRunEnds(text, e);
      while IsNameChar(At(text, e))
        invariant s < e <= |text| && s + NameRun(text[s..]) == e + NameRun(text[e..])
        invariant nextArgIndex == old(nextArgIndex)
        decreases |text| - e
      {
        NameRunEnds(text, e);
        e := e + 1;
      }
      NameRunEnds(text, e);
      NameReads(text, s, e);
      r := GetNamedArg(text[s..e]);
    }

    /** parse_arg_index */
    method ParseArgIndex(text: string, s: nat) returns (r: Result<Arg, string>, e: nat)
      requires s <= |text| && !IsNameStart(At(text, s))
      modifies this`nextArgIndex
      ensures r.Ok? <==> ParseRef(text[s..]).Got? && Lookup(args, ParseRef(text[s..]).value, old(nextArgIndex)).Some?
      ensures r.Ok? ==> e <= |text| && ParseRef(text[s..]).rest == text[e..]
      ensures r.Ok? ==> Lookup(args, ParseRef(text[s..]).value, old(nextArgIndex)) == Some((r.value, nextArgIndex))
    {
      e := s;
      if IsDigit(At(text, s)) {
        var n;
        n, e := ParseNonnegativeInt(text, s);
        if n.Err? {
          return Err(n.error), e;
        }
        r := GetArg(n.value);
      } else {
        r := NextArg();
      }
      if r.Err? && At(text, e) != '}' && At(text, e) != ':' {
        r := Err("invalid format string");
      }
    }

    method ParseArg(text: string, s: nat) returns (r: Result<Arg, string>, e: nat)
      requires s <= |text|
      modifies this`nextArgIndex
      ensures r.Ok? <==> ParseRef(text[s..]).Got? && Lookup(args, ParseRef(text[s..]).value, old(nextArgIndex)).Some?
      ensures r.Ok? ==> e <= |text| && ParseRef(text[s..]).rest == text[e..]
      ensures r.Ok? ==> Lookup(args, ParseRef(text[s..]).value, old(nextArgIndex)) == Some((r.value, nextArgIndex))
    {
      if IsNameStart(At(text, s)) {
        r, e := ParseArgName(text, s);
      } else {
        r, e := ParseArgIndex(text, s);
      }
    }

    /** Fill and alignment: looks one character ahead, then at the character itself. */
    method ScanAlign(text: string, s: nat, arg: Arg) returns (r: Result<AlignText, string>, e: nat)
      requires s <= |text| && '\0' !in text
      ensures var p := ParseAlign(text[s..]);
        && (r.Ok? <==> p.Got? && AlignAllowed(p.value, arg.typ))
        && (r.Ok? ==> e <= |text| && p == Got(r.value, text[e..]))
    {
      var align := NO_ALIGN;
      e := s;
      var c := At(text, s);
      if c != '\0' {
        Advance(text, s, 1);
        if s + 1 < |text| {
          Advance(text, s, 2);
        }
        var p := s + 1;
        while p >= s
          invariant s - 1 <= p <= s + 1 && e == s
          invariant align == NO_ALIGN
          invariant p <= s ==> AlignOf(At(text, s + 1)) == W.Default
          invariant p < s ==> AlignOf(c) == W.Default
        {
          align := align.(align := AlignOf(At(text, p)));
          if align.align != W.Default {
            if p != s {
              if c == '}' {
                break;
              }
              if c == '{' {
                return Err("invalid fill character '{'"), e;
              }
              e := e + 2;
              align := align.(fill := c, explicit := true);
            } else {
              e := e + 1;
              align := align.(explicit := true);
            }
            if align.align == W.Numeric && !IsNumeric(arg.typ) {
              return Err("format specifier '=' requires numeric argument"), e;
            }
            break;
          }
          p := p - 1;
        }
      }
      r := Ok(align);
    }

    /** Sign, '#' and '0'. */
    method ScanFlags(text: string, s: nat, arg: Arg) returns (r: Result<Flags, string>, e: nat)
      requires s <= |text|
      ensures r.Ok? <==> FlagsAllowed(ParseFlags(text[s..]).0, arg.typ)
      ensures r.Ok? ==> e <= |text| && ParseFlags(text[s..]) == (r.value, text[e..])
    {
      var flags := Flags('\0', false, false);
      e := s;
      var c := At(text, e);
      if c == '+' || c == '-' || c == ' ' {
        if !IsNumeric(arg.typ) {
          return Err("format specifier requires numeric argument"), e;
        }
        if arg.typ.UInt? || arg.typ.ULongLong? {
          return Err("format specifier requires signed argument"), e;
        }
        Advance(text, e, 1);
        e := e + 1;
        flags := flags.(sign := c);
      }
      if At(text, e) == '#' {
        if !IsNumeric(arg.typ) {
          return Err("format specifier '#' requires numeric argument"), e;
        }
        Advance(text, e, 1);
        flags := flags.(hash := true);
        e := e + 1;
      }
      if At(text, e) == '0' {
        if !IsNumeric(arg.typ) {
          return Err("format specifier '0' requires numeric argument"), e;
        }
        Advance(text, e, 1);
        flags := flags.(zero := true);
        e := e + 1;
      }
      r := Ok(flags);
    }

    /** The width, or the precision behind its dot: digits, or an argument in braces. */
    method ScanCount(text: string, s: nat, what: string) returns (r: Result<Option<nat>, string>, e: nat)
      requires s <= |text|
      modifies this`nextArgIndex
      ensures r.Ok? <==>
        ParseCount(text[s..]).Got? && EvalCount(args, ParseCount(text[s..]).value, 0, old(nextArgIndex)).Some?
      ensures r.Ok? ==> e <= |text| && ParseCount(text[s..]).rest == text[e..]
      ensures r.Ok? ==> (r.value.None? <==> ParseCount(text[s..]).value.None?)
      ensures r.Ok? ==>
        EvalCount(args, ParseCount(text[s..]).value, 0, old(nextArgIndex))
          == Some((if r.value.Some? then r.value.value else 0, nextArgIndex))
    {
      e := s;
      if IsDigit(At(text, e)) {
        var n;
        n, e := ParseNonnegativeInt(text, e);
        return if n.Ok? then Ok(Some(n.value)) else Err(n.error), e;
      } else if At(text, e) == '{' {
        Advance(text, s, 1);
        var a;
        a, e := ParseArg(text, s + 1);
        if a.Err? {
          return Err(a.error), e;
        }
        if At(text, e) != '}' {
          return Err("invalid format string"), e;
        }
        Advance(text, e, 1);
        e := e + 1;
        if !(a.value.typ.Int? || a.value.typ.UInt? || a.value.typ.LongLong? || a.value.typ.ULongLong?) {
          return Err(what + " is not integer"), e;
        }
        if a.value.value < 0 {
          return Err("negative " + what), e;
        }
        if a.value.value > INT_MAX {
          return Err("number is too big"), e;
        }
        return Ok(Some(a.value.value)), e;
      }
      r := Ok(None);
    }

    /** The dot and what must follow it. */
    method ScanPrecision(text: string, s: nat) returns (r: Result<int, string>, e: nat)
      requires s <= |text|
      modifies this`nextArgIndex
      ensures r.Ok? <==>
        ParsePrecision(text[s..]).Got? && EvalCount(args, ParsePrecision(text[s..]).value, -1, old(nextArgIndex)).Some?
      ensures r.Ok? ==> e <= |text| && ParsePrecision(text[s..]).rest == text[e..]
      ensures r.Ok? ==> (r.value >= 0 <==> ParsePrecision(text[s..]).value.Some?)
      ensures r.Ok? ==>
        EvalCount(args, ParsePrecision(text[s..]).value, -1, old(nextArgIndex)) == Some((r.value, nextArgIndex))
    {
      e := s;
      if At(text, e) != '.' {
        return Ok(-1), e;
      }
      Advance(text, s, 1);
      var n;
      n, e := ScanCount(text, s + 1, "precision");
      if n.Err? {
        return Err(n.error), e;
      }
      if n.value.None? {
        return Err("missing precision specifier"), e;
      }
      r := Ok(n.value.value);
    }

    /** Width and precision. */
    method ScanCounts(text: string, s: nat, arg: Arg) returns (r: Result<(nat, int), string>, e: nat)
      requires s <= |text|
      modifies this`nextArgIndex
      ensures var p := ParseCounts(text[s..]);
        r.Ok? <==> p.Got? && EvalCounts(args, arg.typ, p.value.0, p.value.1, old(nextArgIndex)).Some?
      ensures r.Ok? ==> e <= |text| && ParseCounts(text[s..]).rest == text[e..]
      ensures r.Ok? ==>
        var p := ParseCounts(text[s..]).value;
        EvalCounts(args, arg.typ, p.0, p.1, old(nextArgIndex)) == Some((r.value, nextArgIndex))
    {
      var width;
      width, e := ScanCount(text, s, "width");
      if width.Err? {
        return Err(width.error), e;
      }
      var precision;
      precision, e := ScanPrecision(text, e);
      if precision.Err? {
        return Err(precision.error), e;
      }
      if precision.value >= 0 && (IsInteger(arg.typ) || arg.typ.Pointer?) {
        return Err("precision not allowed in format specifier"), e;
      }
      r := Ok((if width.value.Some? then width.value.value else 0, precision.value));
    }

    /** The type character, if there is one. */
    method ScanType(text: string, s: nat) returns (typ: char, e: nat)
      requires s <= |text| && '\0' !in text
      ensures s <= e <= |text| && ParseType(text[s..]) == (typ, text[e..])
    {
      typ, e := '\0', s;
      if At(text, e) != '}' && At(text, e) != '\0' {
        Advance(text, e, 1);
        typ := At(text, e);
        e := e + 1;
      }
    }

    /** Everything between the colon and the closing brace. */
    method ScanSpec(text: string, s: nat, arg: Arg) returns (r: Result<Spec, string>, e: nat)
      requires s <= |text| && '\0' !in text
      modifies this`nextArgIndex
      ensures r.Ok? <==>
        ParseSpec(text[s..]).Got? && EvalSpec(args, arg.typ, ParseSpec(text[s..]).value, old(nextArgIndex)).Some?
      ensures r.Ok? ==> e <= |text| && ParseSpec(text[s..]).rest == text[e..]
      ensures r.Ok? ==>
        EvalSpec(args, arg.typ, ParseSpec(text[s..]).value, old(nextArgIndex)) == Some((r.value, nextArgIndex))
    {
      var align;
      align, e := ScanAlign(text, s, arg);
      if align.Err? {
        return Err(align.error), e;
      }
      var flags;
      flags, e := ScanFlags(text, e, arg);
      if flags.Err? {
        return Err(flags.error), e;
      }
      var counts;
      counts, e := ScanCounts(text, e, arg);
      if counts.Err? {
        return Err(counts.error), e;
      }
      var typ;
      typ, e := ScanType(text, e);
      r := Ok(Spec(counts.value.0, counts.value.1,
                   if flags.value.zero then '0' else align.value.fill,
                   if flags.value.zero then W.Numeric else align.value.align,
                   flags.value.sign, flags.value.hash, typ));
    }

    /** format for one argument, from behind its reference to behind the closing brace. */
    method FormatArg(text: string, s: nat, arg: Arg) returns (r: Result<(), string>, e: nat)
      requires s <= |text| && '\0' !in text
      modifies this
      ensures var p := ParseTail(text[s..]); var was := State(old(output), old(nextArgIndex));
        r.Ok? <==> p.Got? && EvalTail(args, render, arg, p.value, was).Some?
      ensures r.Ok? ==> e <= |text| && ParseTail(text[s..]).rest == text[e..]
      ensures r.Ok? ==> EvalTail(args, render, arg, ParseTail(text[s..]).value,
                                 State(old(output), old(nextArgIndex))) == Some(State(output, nextArgIndex))
    {
      e := s;
      var spec := DEFAULT_SPEC;
      if At(text, e) == ':' {
        Advance(text, s, 1);
        var full;
        full, e := ScanSpec(text, s + 1, arg);
        if full.Err? {
          return Err(full.error), e;
        }
        spec := full.value;
      }
      if At(text, e) != '}' {
        return Err("missing '}' in format string"), e;
      }
      Advance(text, e, 1);
      e := e + 1;
      var piece := render(arg, spec);
      if piece.None? {
        return Err("argument formatter"), e;
      }
      output := output + piece.value;
      r := Ok(());
    }

    /** format: literal text is written when the next brace or the end is met. */
    method Format(text: string) returns (r: Result<(), string>)
      requires '\0' !in text
      modifies this
      ensures r.Ok? <==> Finish(args, render, text, State(old(output), old(nextArgIndex))).Some?
      ensures r.Ok? ==>
        Finish(args, render, text, State(old(output), old(nextArgIndex))) == Some(State(output, nextArgIndex))
    {
      ghost var all := Finish(args, render, text, State(output, nextArgIndex));
      var s: nat, start: nat := 0, 0;
      assert text[0..] == text && output + text[0..0] == output;
      while At(text, s) != '\0'
        invariant start <= s <= |text|
        invariant Finishes(args, render, text, s, output + text[start..s], nextArgIndex, all)
        decreases |text| - s
      {
        var c := At(text, s);
        s := s + 1;
        if c != '{' && c != '}' {
          TextStep(args, render, text, start, s - 1, output, nextArgIndex, all);
          continue;
        }
        if At(text, s) == c {
          DoubledStep(args, render, text, start, s - 1, output, nextArgIndex, all);
          output := output + text[start..s];
          s := s + 1;
          start := s;
          continue;
        }
        if c == '}' {
          StrayStep(args, render, text, s - 1, output + text[start..s - 1], nextArgIndex, all);
          return Err("unmatched '}' in format string");
        }
        FieldStep(args, render, text, s - 1, output + text[start..s - 1], nextArgIndex, all);
        output := output + text[start..s - 1];
        r, s := FormatField(text, s);
        if r.Err? {
          return;
        }
        start := s;
      }
      output := output + text[start..s];
      assert text[s..] == "";
      r := Ok(());
    }

    /** One replacement field, from behind its opening brace. */
    method FormatField(text: string, s: nat) returns (r: Result<(), string>, e: nat)
      requires s <= |text| && '\0' !in text
      modifies this
      ensures var p := ParseField(text[s..]); var was := State(old(output), old(nextArgIndex));
        r.Ok? <==> p.Got? && EvalPiece(args, render, p.value, was).Some?
      ensures r.Ok? ==> s < e <= |text| && ParseField(text[s..]).rest == text[e..]
      ensures r.Ok? ==> EvalPiece(args, render, ParseField(text[s..]).value,
                                  State(old(output), old(nextArgIndex))) == Some(State(output, nextArgIndex))
    {
      var arg;
      arg, e := ParseArg(text, s);
      if arg.Err? {
        return Err(arg.error), e;
      }
      r, e := FormatArg(text, e, arg.value);
    }
  }
}
