// write_int of fmt (format.h): the growing buffer it appends to, and the layout
// of sign, base prefix, digits and padding.
module FmtWriter {
  import opened Lists
  import opened Words
  import opened Wrappers
  import opened Bits
  import opened Numerals
  import opened FmtCount
  import opened FmtInt

  function Max(a: nat, b: nat): nat {
    if a < b then b else a
  }

  function Repeat(c: char, n: nat): (s: string)
    ensures |s| == n && forall i :: 0 <= i < n ==> s[i] == c
  {
    seq(n, _ => c)
  }

  // ----- the buffer -----

  /** MemoryBuffer; `store` is what ptr_ points to and its length is capacity_. */
  class MemoryBuffer {
    var store: array<char>
    var size: nat

    ghost predicate Valid()
      reads this
    {
      size <= store.Length
    }

    ghost function Contents(): string
      requires Valid()
      reads this, store
    {
      store[..size]
    }

    /** Either in the old storage or in new storage of its own. */
    twostate predicate Moved()
      reads this
    {
      store == old(store) || fresh(store)
    }

    constructor (inlineSize: nat)
      ensures Valid() && fresh(store) && store.Length == inlineSize && Contents() == ""
    {
      store := new char[inlineSize];
      size := 0;
    }

    method Grow(n: nat)
      requires Valid() && n > store.Length
      modifies this`store
      ensures Valid() && fresh(store)
      ensures store.Length == Max(n, old(store.Length) + old(store.Length) / 2)
      ensures Contents() == old(Contents())
    {
      var newCapacity := Max(n, store.Length + store.Length / 2);
      var p := new char[newCapacity];
      var i := 0;
      while i < size
        invariant i <= size && p[..i] == store[..i]
        modifies p
      {
        p[i] := store[i];
        i := i + 1;
      }
      store := p;
    }

    /** New elements are left uninitialised. */
    method Resize(n: nat)
      requires Valid()
      modifies this
      ensures Valid() && Moved() && size == n
      ensures n <= old(size) ==> Contents() == old(Contents())[..n]
      ensures n >= old(size) ==> Contents()[..old(size)] == old(Contents())
    {
      if n > store.Length {
        Grow(n);
      }
      size := n;
    }

    method Reserve(n: nat)
      requires Valid()
      modifies this`store
      ensures Valid() && Moved() && store.Length >= n && Contents() == old(Contents())
    {
      if n > store.Length {
        Grow(n);
      }
    }

    method PushBack(c: char)
      requires Valid()
      modifies this, store
      ensures Valid() && Moved() && Contents() == old(Contents()) + [c]
    {
      if size == store.Length {
        Grow(size + 1);
      }
      store[size] := c;
      size := size + 1;
    }

    method Append(s: string)
      requires Valid()
      modifies this, store
      ensures Valid() && Moved() && Contents() == old(Contents()) + s
    {
      if size + |s| > store.Length {
        Grow(size + |s|);
      }
      Copy(store, size, s);
      size := size + |s|;
    }
  }

  /** std::copy of a string to position `at`. */
  method Copy(a: array<char>, at: nat, s: string)
    requires at + |s| <= a.Length
    modifies a
    ensures forall k :: 0 <= k < a.Length ==> a[k] == if at <= k < at + |s| then s[k - at] else old(a[k])
  {
    var i := 0;
    while i < |s|
      invariant i <= |s|
      invariant forall k :: 0 <= k < a.Length ==> a[k] == if at <= k < at + i then s[k - at] else old(a[k])
    {
      a[at + i] := s[i];
      i := i + 1;
    }
  }

  /** std::fill of the cells from `from` up to `to`. */
  method Fill(a: array<char>, from: nat, to: nat, c: char)
    requires from <= to <= a.Length
    modifies a
    ensures forall k :: 0 <= k < a.Length ==> a[k] == if from <= k < to then c else old(a[k])
  {
    var i := from;
    while i < to
      invariant from <= i <= to
      invariant forall k :: 0 <= k < a.Length ==> a[k] == if from <= k < i then c else old(a[k])
    {
      a[i] := c;
      i := i + 1;
    }
  }

  // ----- specifications of the output -----

  datatype Alignment = Default | Left | Right | Center | Numeric

  /** The parts of a FormatSpec that write_int uses; '\0' is the absent type. */
  datatype FormatSpec = FormatSpec(width: nat, fill: char, align: Alignment,
                                   sign: bool, plus: bool, hash: bool, charFlag: bool, typ: char)

  datatype WriteError = UnknownType(code: char, kind: string)

  function Padding(spec: FormatSpec, contentSize: nat): nat {
    if spec.width > contentSize then spec.width - contentSize else 0
  }

  /** The field: padding after, around, between or before, as the alignment says. */
  function Layout(spec: FormatSpec, prefix: string, digits: string): string {
    var n := Padding(spec, |prefix| + |digits|);
    match spec.align
    case Left => prefix + digits + Repeat(spec.fill, n)
    case Center => Repeat(spec.fill, n / 2) + prefix + digits + Repeat(spec.fill, n - n / 2)
    case Numeric => prefix + Repeat(spec.fill, n) + digits
    case _ => Repeat(spec.fill, n) + prefix + digits
  }

  /** The sides of the digits in that field. */
  function Before(spec: FormatSpec, prefix: string, numDigits: nat): string {
    var n := Padding(spec, |prefix| + numDigits);
    match spec.align
    case Left => prefix
    case Center => Repeat(spec.fill, n / 2) + prefix
    case Numeric => prefix + Repeat(spec.fill, n)
    case _ => Repeat(spec.fill, n) + prefix
  }

  function After(spec: FormatSpec, prefix: string, numDigits: nat): string {
    var n := Padding(spec, |prefix| + numDigits);
    match spec.align
    case Left => Repeat(spec.fill, n)
    case Center => Repeat(spec.fill, n - n / 2)
    case _ => ""
  }

  lemma NarrowField(spec: FormatSpec, prefix: string, numDigits: nat)
    requires spec.width <= |prefix| + numDigits
    ensures Before(spec, prefix, numDigits) == prefix && After(spec, prefix, numDigits) == ""
  {
    DropEmpty(prefix);
    assert Repeat(spec.fill, 0) == "" && prefix + "" == prefix;
  }

  lemma LayoutAroundDigits(spec: FormatSpec, prefix: string, digits: string)
    ensures Layout(spec, prefix, digits) == Before(spec, prefix, |digits|) + digits + After(spec, prefix, |digits|)
    ensures |Layout(spec, prefix, digits)| == Max(spec.width, |prefix| + |digits|)
  {
  }

  predicate IsIntType(c: char) {
    c in "\0dxXbBo"
  }

  function Base(typ: char): nat {
    if typ == 'x' || typ == 'X' then 16 else if typ == 'b' || typ == 'B' then 2 else if typ == 'o' then 8 else 10
  }

  function Magnitude(value: int): nat {
    if value < 0 then -value else value
  }

  function Digits(value: int, spec: FormatSpec): string {
    Numeral(Magnitude(value), Base(spec.typ), spec.typ == 'X')
  }

  function SignText(value: int, spec: FormatSpec): string {
    if value < 0 then "-" else if spec.sign then (if spec.plus then "+" else " ") else ""
  }

  function BaseText(spec: FormatSpec): string {
    if !spec.hash || Base(spec.typ) == 10 then "" else if spec.typ == 'o' then "0" else ['0', spec.typ]
  }

  function IntField(value: int, spec: FormatSpec): string {
    Layout(spec, SignText(value, spec) + BaseText(spec), Digits(value, spec))
  }

  // ----- placing a number in its field -----

  /** fill_padding: pads both sides of a centred content and returns where the content goes. */
  method FillPadding(store: array<char>, at: nat, totalSize: nat, contentSize: nat, fill: char) returns (content: nat)
    requires contentSize <= totalSize && at + totalSize <= store.Length
    modifies store
    ensures content == at + (totalSize - contentSize) / 2
    ensures forall k :: 0 <= k < store.Length ==>
      store[k] == if at <= k < content || content + contentSize <= k < at + totalSize then fill else old(store[k])
  {
    var padding := totalSize - contentSize;
    var leftPadding := padding / 2;
    Fill(store, at, at + leftPadding, fill);
    content := at + leftPadding;
    Fill(store, content + contentSize, content + contentSize + (padding - leftPadding), fill);
  }

  /** The case of prepare_int_buffer in which the number is narrower than its field. */
  method PlaceInField(store: array<char>, at: nat, numDigits: nat, spec: FormatSpec, prefix: string)
    returns (last: nat)
    requires numDigits >= 1 && |prefix| + numDigits < spec.width && at + spec.width <= store.Length
    modifies store
    ensures at + numDigits <= last + 1 <= at + spec.width
    ensures store[..last + 1 - numDigits] == old(store[..at]) + Before(spec, prefix, numDigits)
    ensures store[last + 1..at + spec.width] == After(spec, prefix, numDigits)
  {
    var p, end, size := at, at + spec.width, |prefix| + numDigits;
    if spec.align == Left {
      Copy(store, p, prefix);
      p := p + size;
      Fill(store, p, end, spec.fill);
    } else if spec.align == Center {
      p := FillPadding(store, p, spec.width, size, spec.fill);
      Copy(store, p, prefix);
      p := p + size;
    } else {
      FillToTheRight(store, p, end, numDigits, spec, prefix);
      p := end;
    }
    last := p - 1;
  }

  /** The last branch above: the digits stand at the right end of the field. */
  method FillToTheRight(store: array<char>, at: nat, end: nat, numDigits: nat, spec: FormatSpec, prefix: string)
    requires numDigits >= 1 && |prefix| + numDigits < spec.width && end == at + spec.width <= store.Length
    requires spec.align != Left && spec.align != Center
    modifies store
    ensures store[..end - numDigits] == old(store[..at]) + Before(spec, prefix, numDigits)
  {
    var p, size := at, |prefix| + numDigits;
    if spec.align == Numeric {
      if |prefix| != 0 {
        Copy(store, p, prefix);
        p := p + |prefix|;
        size := size - |prefix|;
      }
    } else {
      Copy(store, end - size, prefix);
    }
    Fill(store, p, end - size, spec.fill);
  }

  // ----- the digits of the power-of-two bases -----

  lemma LowBits(n: nat, base: nat)
    requires base == 2 || base == 8 || base == 16
    ensures And(n, base - 1) == n % base
  {
    assert Pow2(1) == 2 && Pow2(3) == 8 && Pow2(4) == 16;
    MaskIsRemainder(n, if base == 2 then 1 else if base == 8 then 3 else 4);
  }

  lemma LastBaseDigit(m: nat, base: nat, upper: bool)
    requires 2 <= base
    ensures 0 <= m / base && (m / base > 0 ==> m / base < m) && (m / base == 0 ==> m % base == m < base)
    ensures base <= 16 ==>
      Numeral(m, base, upper) ==
        (if m / base == 0 then "" else Numeral(m / base, base, upper)) + [DigitChar(m % base, upper)]
  {
    if m < base {
      DivideSmall(m, base);
    } else {
      var q, r := SplitLast(m, base);
    }
  }

  lemma DivideSmall(m: nat, base: nat)
    requires m < base
    ensures m / base == 0 && m % base == m
  {
  }

  /** The counting loops: one digit for every shift until nothing is left. */
  method CountShifts(n: nat, base: nat, ghost upper: bool) returns (numDigits: nat)
    requires base == 2 || base == 8 || base == 16
    ensures numDigits == |Numeral(n, base, upper)|
  {
    numDigits := 0;
    var m: nat := n;
    while true
      invariant numDigits + |Numeral(m, base, upper)| == |Numeral(n, base, upper)|
      decreases m
    {
      LastBaseDigit(m, base, upper);
      numDigits := numDigits + 1;
      if m / base == 0 {
        return;
      }
      m := m / base;
    }
  }

  lemma BackwardStep(m: nat, base: nat, upper: bool, tail: string)
    requires base == 2 || base == 8 || base == 16
    ensures 0 <= m / base && (m / base > 0 ==> m / base < m)
    ensures m / base == 0 ==>
      |Numeral(m, base, upper)| == 1 && Numeral(m, base, upper) + tail == [DigitChar(m % base, upper)] + tail
    ensures m / base > 0 ==>
      && |Numeral(m, base, upper)| == 1 + |Numeral(m / base, base, upper)|
      && Numeral(m, base, upper) + tail == Numeral(m / base, base, upper) + ([DigitChar(m % base, upper)] + tail)
  {
    LastBaseDigit(m, base, upper);
    var d := [DigitChar(m % base, upper)];
    if m / base == 0 {
      JoinDigit("", d, tail);
    } else {
      JoinDigit(Numeral(m / base, base, upper), d, tail);
    }
  }

  lemma JoinDigit(a: string, d: string, tail: string)
    ensures (a + d) + tail == a + (d + tail) && (a == "" ==> a + d == d)
  {
  }

  /** One step of the loops below: a digit goes in front of what is written. */
  method PutDigit(store: array<char>, start: nat, end: nat, c: char) returns (p: nat)
    requires 1 <= start <= end <= store.Length
    modifies store
    ensures p == start - 1 && store[p..end] == [c] + old(store[start..end])
    ensures forall k :: 0 <= k < p || end <= k < store.Length ==> store[k] == old(store[k])
  {
    p := start - 1;
    store[p] := c;
  }

  /** The writing loops: the digits backwards from the place of the last one. */
  method WriteBackward(store: array<char>, last: nat, n: nat, base: nat, upper: bool)
    requires base == 2 || base == 8 || base == 16
    requires |Numeral(n, base, upper)| <= last + 1 <= store.Length
    modifies store
    ensures store[last + 1 - |Numeral(n, base, upper)|..last + 1] == Numeral(n, base, upper)
    ensures forall k :: 0 <= k <= last - |Numeral(n, base, upper)| || last < k < store.Length ==>
      store[k] == old(store[k])
  {
    var p := last + 1;
    var m: nat := n;
    ghost var all := Numeral(n, base, upper);
    while true
      invariant p <= last + 1 && p + |all| == last + 1 + |Numeral(m, base, upper)|
      invariant Numeral(m, base, upper) + store[p..last + 1] == all
      invariant forall k :: 0 <= k < p || last < k < store.Length ==> store[k] == old(store[k])
      decreases m
    {
      ghost var tail := store[p..last + 1];
      LowBits(m, base);
      BackwardStep(m, base, upper, tail);
      p := PutDigit(store, p, last + 1, DigitChar(And(m, base - 1), upper));
      m := m / base;
      if m == 0 {
        return;
      }
    }
  }

  /** Values of the signed and of the unsigned type of that width. */
  predicate InRange(value: int, bits: nat) {
    (bits == 32 && -0x8000_0000 <= value < WORD_32) || (bits == 64 && -0x8000_0000_0000_0000 <= value < WORD_64)
  }

  /** The number in the type's unsigned counterpart, negated there when it was negative. */
  function UnsignedMagnitude(value: int, bits: nat): (n: nat)
    requires InRange(value, bits)
    ensures n == Magnitude(value)
  {
    var word := if bits == 64 then WORD_64 else WORD_32;
    WrapAround(value, word);
    var absValue := value % word;
    if value < 0 then (0 - absValue) % word else absValue
  }

  lemma WrapAround(value: int, word: int)
    requires -word < value < word && word > 0
    ensures value >= 0 ==> value % word == value
    ensures value < 0 ==> (0 - value % word) % word == -value
  {
    if value >= 0 {
      RemainderUnique(value, word, 0, value);
    } else {
      RemainderUnique(value, word, -1, value + word);
      RemainderUnique(0 - (value + word), word, -1, -value);
    }
  }

  // ----- what a field says -----

  /** The digits denote the magnitude of the value without leading zero, a minus stands
      first exactly for negative values, and the field is as wide as asked for unless the
      number needs more. */
  lemma FieldMeansValue(value: int, spec: FormatSpec)
    requires IsIntType(spec.typ)
    ensures var digits := Digits(value, spec); var prefix := SignText(value, spec) + BaseText(spec);
      && Denotes(digits, Base(spec.typ)) == Magnitude(value)
      && (forall i :: 0 <= i < |digits| ==> DigitValue(digits[i]) < Base(spec.typ))
      && (digits[0] == '0' <==> value == 0) && (value == 0 ==> digits == "0")
      && (value < 0 <==> prefix != "" && prefix[0] == '-')
      && IntField(value, spec) == Before(spec, prefix, |digits|) + digits + After(spec, prefix, |digits|)
      && |IntField(value, spec)| == Max(spec.width, |prefix| + |digits|)
  {
    NumeralDenotes(Magnitude(value), Base(spec.typ), spec.typ == 'X');
    NumeralDigits(Magnitude(value), Base(spec.typ), spec.typ == 'X');
    LayoutAroundDigits(spec, SignText(value, spec) + BaseText(spec), Digits(value, spec));
  }

  /** The zero flag: all that follows the prefix is one numeral of the same number. */
  lemma ZeroPaddingKeepsValue(value: int, spec: FormatSpec)
    requires IsIntType(spec.typ) && spec.align == Numeric && spec.fill == '0'
    ensures var prefix := SignText(value, spec) + BaseText(spec); var field := IntField(value, spec);
      && prefix <= field
      && Denotes(field[|prefix|..], Base(spec.typ)) == Magnitude(value)
      && (forall i :: |prefix| <= i < |field| ==> DigitValue(field[i]) < Base(spec.typ))
  {
    var prefix, digits := SignText(value, spec) + BaseText(spec), Digits(value, spec);
    var zeros := Padding(spec, |prefix| + |digits|);
    FieldMeansValue(value, spec);
    Regroup(prefix, Repeat('0', zeros), digits);
    assert IntField(value, spec) == prefix + (Repeat('0', zeros) + digits);
    ZeroField(prefix, zeros, digits, Base(spec.typ));
  }

  lemma ZeroField(prefix: string, n: nat, digits: string, base: nat)
    requires base >= 2 && forall k :: 0 <= k < |digits| ==> DigitValue(digits[k]) < base
    ensures var field := prefix + (Repeat('0', n) + digits);
      && prefix <= field
      && Denotes(field[|prefix|..], base) == Denotes(digits, base)
      && forall i :: |prefix| <= i < |field| ==> DigitValue(field[i]) < base
  {
    var zeros := Repeat('0', n);
    var field := prefix + (zeros + digits);
    assert field[|prefix|..] == zeros + digits;
    LeadingZeros(n, digits, base);
    forall i | |prefix| <= i < |field| ensures DigitValue(field[i]) < base {
      ZerosThenDigits(zeros, digits, i - |prefix|, base);
    }
  }

  lemma ZerosThenDigits(zeros: string, digits: string, i: nat, base: nat)
    requires i < |zeros| + |digits| && base >= 2 && zeros == Repeat('0', |zeros|)
    requires forall k :: 0 <= k < |digits| ==> DigitValue(digits[k]) < base
    ensures DigitValue((zeros + digits)[i]) < base
  {
    if i < |zeros| {
      assert (zeros + digits)[i] == zeros[i] == '0';
    } else {
      assert (zeros + digits)[i] == digits[i - |zeros|];
    }
  }

  lemma {:induction false} LeadingZeros(n: nat, s: string, base: nat)
    ensures Denotes(Repeat('0', n) + s, base) == Denotes(s, base)
    decreases n + |s|
  {
    var z := Repeat('0', n);
    if s != "" {
      LeadingZeros(n, s[..|s| - 1], base);
      assert (z + s)[..|z + s| - 1] == z + s[..|s| - 1];
    } else if n > 0 {
      LeadingZeros(n - 1, s, base);
      assert (z + s)[..n - 1] == Repeat('0', n - 1) + s;
      assert (z + s)[n - 1] == '0' && Denotes(s, base) == 0;
    } else {
      assert z + s == s;
    }
  }

  // ----- the writer -----

  class BasicWriter {
    const buffer: MemoryBuffer

    constructor (buffer: MemoryBuffer)
      ensures this.buffer == buffer
    {
      this.buffer := buffer;
    }

    method GrowBuffer(n: nat) returns (p: nat)
      requires buffer.Valid()
      modifies buffer
      ensures buffer.Valid() && buffer.Moved() && p == old(buffer.size) && buffer.size == p + n
      ensures buffer.store[..p] == old(buffer.Contents())
    {
      p := buffer.size;
      buffer.Resize(p + n);
    }

    /** The prefix, and room for the digits behind it, when no padding is needed. */
    method PutPrefix(numDigits: nat, prefix: string) returns (last: nat)
      requires buffer.Valid() && numDigits >= 1
      modifies buffer, buffer.store
      ensures buffer.Valid() && buffer.Moved()
      ensures buffer.size == last + 1 == old(buffer.size) + |prefix| + numDigits
      ensures buffer.store[..last + 1 - numDigits] == old(buffer.Contents()) + prefix
    {
      var p := GrowBuffer(|prefix| + numDigits);
      ghost var was := buffer.store[..p];
      Copy(buffer.store, p, prefix);
      assert buffer.store[..p] == was && buffer.store[p..p + |prefix|] == prefix;
      return p + |prefix| + numDigits - 1;
    }

    /** Lays out everything but the digits, and returns the place of the last digit. */
    method PrepareIntBuffer(numDigits: nat, spec: FormatSpec, prefix: string) returns (last: nat)
      requires buffer.Valid() && numDigits >= 1
      modifies buffer, buffer.store
      ensures buffer.Valid() && buffer.Moved()
      ensures buffer.size == old(buffer.size) + Max(spec.width, |prefix| + numDigits)
      ensures old(buffer.size) + numDigits <= last + 1 <= buffer.size
      ensures buffer.store[..last + 1 - numDigits] == old(buffer.Contents()) + Before(spec, prefix, numDigits)
      ensures buffer.store[last + 1..buffer.size] == After(spec, prefix, numDigits)
    {
      var size := |prefix| + numDigits;
      if spec.width <= size {
        NarrowField(spec, prefix, numDigits);
        last := PutPrefix(numDigits, prefix);
        return;
      }
      var p := GrowBuffer(spec.width);
      last := PlaceInField(buffer.store, p, numDigits, spec, prefix);
    }

    method CountDigits(n: nat, bits: nat) returns (d: nat)
      requires InRange(n, bits)
      ensures d == |Decimal(n)|
    {
      if bits == 64 {
        d := CountDigits64(n);
      } else {
        d := CountDigits32(n);
      }
      DigitCountIsNumeralLength(n, d);
    }

    /** write_unsigned_decimal: leaves room for a sign in front of the digits. */
    method WriteUnsignedDecimal(n: nat, bits: nat, prefixSize: nat) returns (p: nat)
      requires buffer.Valid() && InRange(n, bits)
      modifies buffer, buffer.store
      ensures buffer.Valid() && buffer.Moved()
      ensures p == old(buffer.size) && buffer.size == p + prefixSize + |Decimal(n)|
      ensures buffer.store[..p] == old(buffer.Contents())
      ensures buffer.store[p + prefixSize..buffer.size] == Decimal(n)
    {
      var numDigits := CountDigits(n, bits);
      DigitCountIsNumeralLength(n, numDigits);
      p := GrowBuffer(prefixSize + numDigits);
      ghost var was := buffer.store[..p];
      FormatDecimal(buffer.store, p + prefixSize, n, numDigits);
      assert buffer.store[..p] == was;
    }

    /** write_decimal: the plain decimal text. */
    method WriteDecimal(value: int, bits: nat)
      requires buffer.Valid() && InRange(value, bits)
      modifies buffer, buffer.store
      ensures buffer.Valid() && buffer.Moved()
      ensures buffer.Contents() == old(buffer.Contents()) + IntText(value)
    {
      var absValue := UnsignedMagnitude(value, bits);
      if value < 0 {
        var p := WriteUnsignedDecimal(absValue, bits, 1);
        ghost var was := buffer.Contents();
        buffer.store[p] := '-';
        Joined(buffer.Contents(), was, old(buffer.Contents()), "-", Decimal(absValue));
      } else {
        var p := WriteUnsignedDecimal(absValue, bits, 0);
        Joined(buffer.Contents(), buffer.Contents(), old(buffer.Contents()), "", Decimal(absValue));
      }
    }

    static method SignPrefix(value: int, spec: FormatSpec) returns (prefix: string)
      ensures prefix == SignText(value, spec)
    {
      prefix := "";
      if value < 0 {
        prefix := prefix + ['-'];
      } else if spec.sign {
        prefix := prefix + [if spec.plus then '+' else ' '];
      }
    }

    /** write_int without precision, for an integer type of 32 or 64 bits, signed or not. */
    method WriteInt(value: int, bits: nat, spec: FormatSpec) returns (error: Option<WriteError>)
      requires buffer.Valid() && InRange(value, bits)
      modifies buffer, buffer.store
      ensures buffer.Valid() && buffer.Moved()
      ensures error.None? <==> IsIntType(spec.typ)
      ensures error.None? ==> buffer.Contents() == old(buffer.Contents()) + IntField(value, spec)
      ensures error.Some? ==> buffer.Contents() == old(buffer.Contents())
      ensures error.Some? ==> error.value == UnknownType(spec.typ, if spec.charFlag then "char" else "integer")
    {
      error := None;
      var absValue := UnsignedMagnitude(value, bits);
      var prefix := SignPrefix(value, spec);
      if spec.typ == '\0' || spec.typ == 'd' {
        FieldOf(value, spec, prefix, 10);
        WriteDecimalField(absValue, bits, spec, prefix);
      } else if spec.typ == 'x' || spec.typ == 'X' {
        if spec.hash {
          prefix := prefix + ['0'] + [spec.typ];
        }
        FieldOf(value, spec, prefix, 16);
        WriteShifted(absValue, 16, spec.typ == 'X', spec, prefix);
      } else if spec.typ == 'b' || spec.typ == 'B' {
        if spec.hash {
          prefix := prefix + ['0'] + [spec.typ];
        }
        FieldOf(value, spec, prefix, 2);
        WriteShifted(absValue, 2, false, spec, prefix);
      } else if spec.typ == 'o' {
        if spec.hash {
          prefix := prefix + ['0'];
        }
        FieldOf(value, spec, prefix, 8);
        WriteShifted(absValue, 8, false, spec, prefix);
      } else {
        error := Some(UnknownType(spec.typ, if spec.charFlag then "char" else "integer"));
      }
    }

    /** The three cases that count and write their digits by shifting. */
    method WriteShifted(n: nat, base: nat, upper: bool, spec: FormatSpec, prefix: string)
      requires buffer.Valid() && (base == 2 || base == 8 || base == 16)
      modifies buffer, buffer.store
      ensures buffer.Valid() && buffer.Moved()
      ensures buffer.Contents() == old(buffer.Contents()) + Layout(spec, prefix, Numeral(n, base, upper))
    {
      var numDigits := CountShifts(n, base, upper);
      var p := PrepareIntBuffer(numDigits, spec, prefix);
      ghost var was := buffer.store[..];
      WriteBackward(buffer.store, p, n, base, upper);
      Assemble(buffer.store[..], was, p + 1 - numDigits, Numeral(n, base, upper), buffer.size,
        old(buffer.Contents()), spec, prefix);
    }

    method WriteDecimalField(n: nat, bits: nat, spec: FormatSpec, prefix: string)
      requires buffer.Valid() && InRange(n, bits)
      modifies buffer, buffer.store
      ensures buffer.Valid() && buffer.Moved()
      ensures buffer.Contents() == old(buffer.Contents()) + Layout(spec, prefix, Decimal(n))
    {
      var numDigits := CountDigits(n, bits);
      DigitCountIsNumeralLength(n, numDigits);
      var p := PrepareIntBuffer(numDigits, spec, prefix);
      ghost var was := buffer.store[..];
      FormatDecimal(buffer.store, p + 1 - numDigits, n, numDigits);
      Assemble(buffer.store[..], was, p + 1 - numDigits, Decimal(n), buffer.size,
        old(buffer.Contents()), spec, prefix);
    }
  }

  /** A text that kept its front and its digits while the sign was written between them. */
  lemma Joined(now: string, was: string, front: string, sign: string, digits: string)
    requires |now| == |was| == |front| + |sign| + |digits|
    requires was[..|front|] == front && was[|front| + |sign|..] == digits
    requires forall k :: 0 <= k < |front| || |front| + |sign| <= k < |now| ==> now[k] == was[k]
    requires now[|front|..|front| + |sign|] == sign
    ensures now == front + (sign + digits)
  {
    assert now[..|front|] == was[..|front|];
    assert now[|front| + |sign|..] == was[|front| + |sign|..];
    assert now == now[..|front|] + (now[|front|..|front| + |sign|] + now[|front| + |sign|..]);
  }

  /** Sign and base prefix together, and the digits: the parts of the specified field. */
  lemma FieldOf(value: int, spec: FormatSpec, prefix: string, base: nat)
    requires base == Base(spec.typ)
    requires prefix == SignText(value, spec) + BaseText(spec)
    ensures IntField(value, spec) == Layout(spec, prefix, Numeral(Magnitude(value), base, spec.typ == 'X'))
  {
  }

  /** Writing the digits into the prepared place completes the field. */
  lemma Assemble(now: string, was: string, at: nat, digits: string, size: nat,
                 before: string, spec: FormatSpec, prefix: string)
    requires |now| == |was| && at + |digits| <= size <= |now|
    requires was[..at] == before + Before(spec, prefix, |digits|)
    requires was[at + |digits|..size] == After(spec, prefix, |digits|)
    requires now[at..at + |digits|] == digits
    requires forall k :: 0 <= k < at || at + |digits| <= k < |now| ==> now[k] == was[k]
    ensures now[..size] == before + Layout(spec, prefix, digits)
  {
    assert now[..at] == was[..at];
    assert now[at + |digits|..size] == was[at + |digits|..size];
    assert now[..size] == now[..at] + now[at..at + |digits|] + now[at + |digits|..size];
    LayoutAroundDigits(spec, prefix, digits);
    Regroup3(before, Before(spec, prefix, |digits|), digits, After(spec, prefix, |digits|));
  }

  lemma Regroup3(a: string, b: string, c: string, d: string)
    ensures a + b + c + d == a + (b + c + d)
  {
  }
}
