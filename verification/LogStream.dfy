/**
 Integers as text, and the fixed buffers log lines are built in.
 */
module Numerals {

  /** Decimal and hexadecimal. */
  type Base = b: nat | b == 10 || b == 16 witness 10

  /** `n` without its last digit, that digit, and a number with a digit appended. */
  function Front(n: nat, base: Base): nat {
    if base == 10 then n / 10 else n / 16
  }

  function Last(n: nat, base: Base): (d: nat)
    ensures d < base
  {
    if base == 10 then n % 10 else n % 16
  }

  function Join(n: nat, base: Base, d: nat): nat {
    if base == 10 then 10 * n + d else 16 * n + d
  }

  lemma JoinSplit(n: nat, base: Base)
    ensures Join(Front(n, base), base, Last(n, base)) == n && (n >= base ==> 0 < Front(n, base) < n)
  {
  }

  lemma SplitJoin(n: nat, base: Base, d: nat)
    requires d < base
    ensures Front(Join(n, base, d), base) == n && Last(Join(n, base, d), base) == d
    ensures n > 0 ==> Join(n, base, d) >= base
  {
  }

  /** The digits of both number systems, in order. */
  const HEX_DIGITS := "0123456789ABCDEF"

  function HexDigit(k: nat): char
    requires k < 16
  {
    HEX_DIGITS[k]
  }

  function DigitValue(c: char): int {
    if '0' <= c <= '9' then c as int - '0' as int
    else if 'A' <= c <= 'F' then c as int - 'A' as int + 10
    else -1
  }

  lemma DigitOf(k: nat)
    requires k < 16
    ensures DigitValue(HexDigit(k)) == k && HexDigit(k) != '-' && (HexDigit(k) == '0' <==> k == 0)
  {
    assert HEX_DIGITS == ['0', '1', '2', '3', '4', '5', '6', '7', '8', '9', 'A', 'B', 'C', 'D', 'E', 'F'];
  }

  /** The numeral of a natural number. */
  function Digits(n: nat, base: Base): (s: string)
    ensures s != []
    decreases n
  {
    if n < base then [HexDigit(n)] else Digits(Front(n, base), base) + [HexDigit(Last(n, base))]
  }

  predicate IsNumeral(s: string, base: Base) {
    forall i :: 0 <= i < |s| ==> 0 <= DigitValue(s[i]) < base
  }

  /** The value of a numeral, read from the left. */
  function Value(s: string, base: Base): nat
    requires IsNumeral(s, base)
  {
    if s == [] then 0 else Join(Value(s[..|s| - 1], base), base, DigitValue(s[|s| - 1]))
  }

  /** A numeral without leading zeros. */
  predicate Canonical(s: string, base: Base) {
    s != [] && IsNumeral(s, base) && (|s| > 1 ==> s[0] != '0')
  }

  /** The numeral of a number is canonical, and its value is the number. */
  lemma {:induction false} ValueOfDigits(n: nat, base: Base)
    ensures Canonical(Digits(n, base), base) && Value(Digits(n, base), base) == n
    ensures Digits(n, base)[0] == '0' <==> n == 0
    decreases n
  {
    hide Front, Last, Join, DigitValue, HexDigit;
    var s := Digits(n, base);
    JoinSplit(n, base);
    if n < base {
      DigitOf(n);
      SingleDigit(s[0], base);
    } else {
      var front := Digits(Front(n, base), base);
      DigitOf(Last(n, base));
      ValueOfDigits(Front(n, base), base);
      assert s[..|s| - 1] == front;
      assert s[0] == front[0];
    }
  }

  lemma SingleDigit(c: char, base: Base)
    requires 0 <= DigitValue(c) < base
    ensures Value([c], base) == DigitValue(c)
  {
    assert [c][..0] == [];
  }

  lemma DigitChar(c: char)
    requires 0 <= DigitValue(c)
    ensures DigitValue(c) < 16 && HexDigit(DigitValue(c)) == c && (DigitValue(c) == 0 <==> c == '0')
  {
    assert HEX_DIGITS == ['0', '1', '2', '3', '4', '5', '6', '7', '8', '9', 'A', 'B', 'C', 'D', 'E', 'F'];
  }

  /** And every canonical numeral is the one of its value. */
  lemma {:induction false} DigitsOfValue(s: string, base: Base)
    requires Canonical(s, base)
    ensures Digits(Value(s, base), base) == s && (Value(s, base) == 0 <==> s == "0")
  {
    hide Front, Last, Join, DigitValue, HexDigit;
    var front, last := s[..|s| - 1], s[|s| - 1];
    DigitChar(last);
    DigitChar(s[0]);
    assert s == front + [last];
    if |s| == 1 {
      SingleDigit(last, base);
      assert s == [last];
    } else {
      DigitsOfValue(front, base);
      SplitJoin(Value(front, base), base, DigitValue(last));
    }
  }

  /** A signed decimal numeral. */
  function Decimal(x: int): string {
    if x < 0 then "-" + Digits(-x, 10) else Digits(x, 10)
  }

  predicate CanonicalDecimal(s: string) {
    if s != [] && s[0] == '-' then Canonical(s[1..], 10) && s != "-0" else Canonical(s, 10)
  }

  function Parse(s: string): int
    requires CanonicalDecimal(s)
  {
    if s[0] == '-' then 0 - Value(s[1..], 10) else Value(s, 10)
  }

  /** Integers and canonical decimal numerals are in bijection. */
  lemma ParseDecimal(x: int)
    ensures CanonicalDecimal(Decimal(x)) && Parse(Decimal(x)) == x
  {
    ValueOfDigits(if x < 0 then -x else x, 10);
    if x < 0 {
      assert Decimal(x)[1..] == Digits(-x, 10);
    }
  }

  lemma DecimalParse(s: string)
    requires CanonicalDecimal(s)
    ensures Decimal(Parse(s)) == s
  {
    if s[0] == '-' {
      DigitsOfValue(s[1..], 10);
      assert s == "-" + s[1..];
    } else {
      DigitsOfValue(s, 10);
    }
  }

  /** How many numbers have numerals of at most `e` digits. */
  function Power(base: Base, e: nat): nat {
    if e == 0 then 1 else Join(Power(base, e - 1), base, 0)
  }

  lemma {:induction false} DigitsLength(n: nat, base: Base, e: nat)
    requires 1 <= e && n < Power(base, e)
    ensures |Digits(n, base)| <= e
    decreases e
  {
    if n >= base {
      DigitsLength(Front(n, base), base, e - 1);
    }
  }
}

module LogStreams {
  import opened MachineArithmetic
  import opened Numerals

  const INT64_MIN := -0x8000_0000_0000_0000
  const UINT64_MAX := 0xFFFF_FFFF_FFFF_FFFF
  const MAX_NUMERIC_SIZE: nat := 32

  /** Digits by remainder: `ZERO` is the middle of the table, remainders may be negative. */
  const DIGITS := "9876543210123456789"
  const ZERO := 9

  function DecimalDigit(lsd: int): (c: char)
    requires -10 < lsd < 10
    ensures c == HexDigit(Abs(lsd))
  {
    assert DIGITS == ['9', '8', '7', '6', '5', '4', '3', '2', '1', '0', '1', '2', '3', '4', '5', '6', '7', '8', '9'];
    assert HEX_DIGITS == ['0', '1', '2', '3', '4', '5', '6', '7', '8', '9', 'A', 'B', 'C', 'D', 'E', 'F'];
    DIGITS[ZERO + lsd]
  }

  function Reversed<T>(s: seq<T>): (r: seq<T>)
    ensures |r| == |s|
  {
    if s == [] then [] else Reversed(s[1..]) + [s[0]]
  }

  lemma {:induction false} ReversedAt<T>(s: seq<T>, k: nat)
    requires k < |s|
    ensures Reversed(s)[k] == s[|s| - 1 - k]
  {
    if k < |s| - 1 {
      ReversedAt(s[1..], k);
    }
  }

  lemma {:induction false} ReversedAppend<T>(s: seq<T>, x: T)
    ensures Reversed(s + [x]) == [x] + Reversed(s)
  {
    if s == [] {
      assert s + [x] == [x];
    } else {
      assert (s + [x])[1..] == s[1..] + [x];
      ReversedAppend(s[1..], x);
    }
  }

  function Abs(x: int): nat {
    if x < 0 then -x else x
  }

  /** No 64-bit integer, signed or unsigned, has a longer numeral. */
  lemma NumeralsFit(x: int)
    requires INT64_MIN <= x <= UINT64_MAX
    ensures |Decimal(x)| <= 20 && |Digits(Abs(x), 10)| <= 20
    ensures |Digits(Abs(x), 16)| <= 16
  {
    assert Power(10, 5) == 100000;
    assert Power(10, 10) == 10000000000;
    assert Power(10, 15) == 1000000000000000;
    assert Power(10, 19) == 10000000000000000000;
    assert Power(10, 20) == 100000000000000000000;
    assert Power(16, 4) == 0x10000;
    assert Power(16, 8) == 0x1_0000_0000;
    assert Power(16, 12) == 0x1_0000_0000_0000;
    assert Power(16, 16) == 0x1_0000_0000_0000_0000;
    DigitsLength(Abs(x), 10, if x < 0 then 19 else 20);
    DigitsLength(Abs(x), 16, 16);
    if x < 0 {
      DigitsLength(Abs(x), 10, 20);
    }
  }

  /** `std::reverse`. */
  method Reverse(buf: array<char>, first: nat, last: nat)
    requires first <= last <= buf.Length
    modifies buf
    ensures buf[first..last] == Reversed(old(buf[first..last]))
    ensures forall k :: 0 <= k < buf.Length && !(first <= k < last) ==> buf[k] == old(buf[k])
  {
    var i, j := first, last;
    while i < j && i < j - 1
      invariant first <= i <= j <= last && i - first == last - j
      invariant forall k :: first <= k < i || j <= k < last ==> buf[k] == old(buf[first + last - 1 - k])
      invariant forall k :: 0 <= k < buf.Length && !(first <= k < i || j <= k < last) ==> buf[k] == old(buf[k])
    {
      buf[i], buf[j - 1] := buf[j - 1], buf[i];
      i, j := i + 1, j - 1;
    }
    ghost var was := old(buf[first..last]);
    forall k | 0 <= k < last - first
      ensures buf[first + k] == Reversed(was)[k]
    {
      ReversedAt(was, k);
    }
  }

  /** Truncating division splits the digits of the magnitude, whatever the sign. */
  lemma MagnitudeSplits(i: int, base: Base)
    ensures Abs(Quot(i, base)) == Front(Abs(i), base) && Abs(Rem(i, base)) == Last(Abs(i), base)
    ensures Abs(Rem(i, base)) < base && (i >= 0 ==> Quot(i, base) >= 0 && Rem(i, base) >= 0)
  {
    if base == 10 {
      QuotRem(i, 10);
    } else {
      QuotRem(i, 16);
    }
  }

  /** The numeral of what is left to convert. */
  function Left(i: int, base: Base): string {
    if i == 0 then [] else Digits(Abs(i), base)
  }

  /** One turn of the digit loop, on `i` with its sign. */
  lemma DigitStep(i: int, base: Base, written: string)
    ensures Abs(Rem(i, base)) < base
    ensures Digits(Abs(i), base) + Reversed(written)
         == Left(Quot(i, base), base) + Reversed(written + [HexDigit(Abs(Rem(i, base)))])
    ensures if i == 0 then Quot(i, base) == 0 else Abs(Quot(i, base)) < Abs(i)
  {
    hide Quot, Rem, HexDigit;
    MagnitudeSplits(i, base);
    var digit := HexDigit(Abs(Rem(i, base)));
    ReversedAppend(written, digit);
    assert Digits(Abs(i), base) == Left(Quot(i, base), base) + [digit];
  }

  /** `*p++ = c`, after what was written from `at` on. */
  method Store(buf: array<char>, at: nat, p: nat, c: char) returns (next: nat)
    requires at <= p < buf.Length
    modifies buf
    ensures next == p + 1 && buf[at..next] == old(buf[at..p]) + [c]
    ensures forall k :: 0 <= k < buf.Length && k != p ==> buf[k] == old(buf[k])
  {
    buf[p] := c;
    next := p + 1;
    assert buf[at..p] == old(buf[at..p]);
  }

  /** The digit loop, least significant digit first. */
  method WriteDigits(buf: array<char>, at: nat, value: int) returns (p: nat)
    requires INT64_MIN <= value <= UINT64_MAX && at + 20 <= buf.Length
    modifies buf
    ensures at < p <= at + 20 && Reversed(buf[at..p]) == Digits(Abs(value), 10)
    ensures forall k :: 0 <= k < at || at + 20 <= k < buf.Length ==> buf[k] == old(buf[k])
  {
    hide Quot, Rem, Digits, Reversed, HexDigit, DecimalDigit;
    NumeralsFit(value);
    ghost var whole := Digits(Abs(value), 10);
    var i := value;
    p := at;
    var again := true;
    ReversedNothing();
    while again
      invariant at <= p <= at + 20 && (i != 0 ==> again) && (!again ==> at < p)
      invariant forall k :: 0 <= k < at || at + 20 <= k < buf.Length ==> buf[k] == old(buf[k])
      invariant whole == (if again then Digits(Abs(i), 10) else []) + Reversed(buf[at..p])
      decreases again, Abs(i)
    {
      DigitStep(i, 10, buf[at..p]);
      var lsd := Rem(i, 10);
      i := Quot(i, 10);
      p := Store(buf, at, p, DecimalDigit(lsd));
      again := i != 0;
    }
  }

  lemma ReversedNothing()
    ensures Reversed<char>([]) == []
  {
  }

  /** Writes the decimal numeral of a 64-bit integer, signed or not, and a NUL. */
  method Convert(buf: array<char>, at: nat, value: int) returns (len: nat)
    requires INT64_MIN <= value <= UINT64_MAX && at + MAX_NUMERIC_SIZE <= buf.Length
    modifies buf
    ensures 0 < len <= 20 && buf[at..at + len] == Decimal(value) && buf[at + len] == '\0'
    ensures forall k :: 0 <= k < at ==> buf[k] == old(buf[k])
  {
    hide Digits, Reversed;
    NumeralsFit(value);
    var p := WriteDigits(buf, at, value);
    if value < 0 {
      ReversedAppend(buf[at..p], '-');
      p := Store(buf, at, p, '-');
    }
    buf[p] := '\0';
    Reverse(buf, at, p);
    len := p - at;
  }

  method WriteHexDigits(buf: array<char>, at: nat, value: nat) returns (p: nat)
    requires value <= UINT64_MAX && at + 16 <= buf.Length
    modifies buf
    ensures at < p <= at + 16 && Reversed(buf[at..p]) == Digits(value, 16)
    ensures forall k :: 0 <= k < at || at + 16 <= k < buf.Length ==> buf[k] == old(buf[k])
  {
    hide Quot, Rem, Digits, Reversed, HexDigit, DecimalDigit;
    NumeralsFit(value);
    ghost var whole := Digits(value, 16);
    var i: nat := value;
    p := at;
    var again := true;
    ReversedNothing();
    while again
      invariant at <= p <= at + 16 && (i != 0 ==> again) && (!again ==> at < p)
      invariant forall k :: 0 <= k < at || at + 16 <= k < buf.Length ==> buf[k] == old(buf[k])
      invariant whole == (if again then Digits(i, 16) else []) + Reversed(buf[at..p])
      decreases again, i
    {
      DigitStep(i, 16, buf[at..p]);
      MagnitudeSplits(i, 16);
      var lsd := Rem(i, 16);
      i := Quot(i, 16);
      p := Store(buf, at, p, HexDigit(lsd));
      again := i != 0;
    }
  }

  /** Writes the hexadecimal numeral of a pointer-sized integer, and a NUL. */
  method ConvertHex(buf: array<char>, at: nat, value: nat) returns (len: nat)
    requires value <= UINT64_MAX && at + 17 <= buf.Length
    modifies buf
    ensures 0 < len <= 16 && buf[at..at + len] == Digits(value, 16) && buf[at + len] == '\0'
    ensures forall k :: 0 <= k < at ==> buf[k] == old(buf[k])
  {
    hide Digits, Reversed;
    var p := WriteHexDigits(buf, at, value);
    buf[p] := '\0';
    Reverse(buf, at, p);
    len := p - at;
  }

  // ---- Buffers ----

  /** Something written to a stream. */
  datatype Item =
    | Text(s: string)
    | Number(v: int)
    | Pointer(address: nat)

  predicate Representable(item: Item) {
    && (item.Number? ==> INT64_MIN <= item.v <= UINT64_MAX)
    && (item.Pointer? ==> item.address <= UINT64_MAX)
  }

  function Rendered(item: Item): string {
    match item
    case Text(s) => s
    case Number(v) => Decimal(v)
    case Pointer(address) => "0x" + Digits(address, 16)
  }

  /** Room an item asks for before it is written: more than a text's length, and for a number
      always the same. */
  function Room(item: Item): nat {
    match item
    case Text(s) => |s| + 1
    case _ => MAX_NUMERIC_SIZE
  }

  /** What a buffer of a size holds after items were written: those that found no room are
      left out whole. */
  function Logged(size: nat, items: seq<Item>): string {
    if items == [] then []
    else
      var before, item := Logged(size, items[..|items| - 1]), items[|items| - 1];
      if size >= |before| + Room(item) then before + Rendered(item) else before
  }

  /** An item fits in the room it asked for, with a byte to spare. */
  lemma RoomSuffices(item: Item)
    requires Representable(item)
    ensures |Rendered(item)| < Room(item)
  {
    match item {
      case Text(_) =>
      case Number(v) => NumeralsFit(v);
      case Pointer(address) => NumeralsFit(address);
    }
  }

  /** Whatever is written, at least one byte stays free. */
  lemma {:induction false} OneByteFree(size: nat, items: seq<Item>)
    requires size > 0 && forall i :: 0 <= i < |items| ==> Representable(items[i])
    ensures |Logged(size, items)| < size
  {
    hide Rendered, Room, Representable;
    if items != [] {
      OneByteFree(size, items[..|items| - 1]);
      RoomSuffices(items[|items| - 1]);
    }
  }

  function RenderedAll(items: seq<Item>): string {
    if items == [] then [] else RenderedAll(items[..|items| - 1]) + Rendered(items[|items| - 1])
  }

  /** All items are each item in turn: its text, a decimal numeral, or an address in
      hexadecimal. */
  lemma {:induction false} RenderedParts(a: seq<Item>, b: seq<Item>)
    ensures RenderedAll(a + b) == RenderedAll(a) + RenderedAll(b)
  {
    hide Rendered, RenderedAll;
    if b == [] {
      assert a + b == a;
      assert RenderedAll(a) + [] == RenderedAll(a);
      NothingRendered();
    } else {
      var front, last := b[..|b| - 1], b[|b| - 1];
      RenderedParts(a, front);
      assert b == front + [last];
      assert a + b == (a + front) + [last];
      RenderedMore(a + front, last);
      RenderedMore(front, last);
      Associates(RenderedAll(a), RenderedAll(front), Rendered(last));
    }
  }

  lemma NothingRendered()
    ensures RenderedAll([]) == []
  {
  }

  lemma Associates(a: string, b: string, c: string)
    ensures a + b + c == a + (b + c)
  {
  }

  lemma RenderedMore(items: seq<Item>, item: Item)
    ensures RenderedAll(items + [item]) == RenderedAll(items) + Rendered(item)
  {
    hide Rendered;
    assert (items + [item])[..|items|] == items;
  }

  lemma RenderedItem(item: Item)
    ensures RenderedAll([item]) == match item case Text(s) => s
                                              case Number(v) => Decimal(v)
                                              case Pointer(address) => "0x" + Digits(address, 16)
  {
    hide Decimal, Digits;
    RenderedMore([], item);
    assert [] + [item] == [item];
  }

  /** Nothing is left out of a line that leaves a number's reserve. */
  lemma {:induction false} NothingLost(size: nat, items: seq<Item>)
    requires |RenderedAll(items)| + MAX_NUMERIC_SIZE <= size
    ensures Logged(size, items) == RenderedAll(items)
  {
    if items != [] {
      NothingLost(size, items[..|items| - 1]);
    }
  }

  class FixedBuffer {
    const data: array<char>
    var cur: nat

    ghost predicate Valid()
      reads this
    {
      cur < data.Length
    }

    ghost function Contents(): string
      reads this, data
      requires Valid()
    {
      data[..cur]
    }

    constructor (size: nat)
      requires size > 0
      ensures Valid() && fresh(data) && data.Length == size && Contents() == []
    {
      data := new char[size];
      cur := 0;
    }

    function Avail(): nat
      reads this
      requires Valid()
    {
      data.Length - cur
    }

    /** Appends all of a text or none of it. */
    method Append(s: string)
      requires Valid()
      modifies this`cur, data
      ensures Valid() && Contents() == if old(Avail()) > |s| then old(Contents()) + s else old(Contents())
    {
      if Avail() > |s| {
        var from := cur;
        for i := 0 to |s|
          invariant cur == from && data[..from] == old(Contents())
          invariant data[from..from + i] == s[..i]
        {
          data[from + i] := s[i];
          assert s[..i + 1] == s[..i] + [s[i]];
        }
        cur := cur + |s|;
        assert data[..cur] == data[..from] + data[from..cur];
      }
    }

    method Reset()
      requires Valid()
      modifies this`cur
      ensures Valid() && Contents() == []
    {
      cur := 0;
    }
  }

  class LogStream {
    const buffer: FixedBuffer

    constructor (size: nat)
      requires size > 0
      ensures fresh(buffer) && fresh(buffer.data) && buffer.Valid() && buffer.Contents() == [] && buffer.data.Length == size
    {
      buffer := new FixedBuffer(size);
    }

    method FormatInteger(v: int)
      requires buffer.Valid() && INT64_MIN <= v <= UINT64_MAX
      modifies buffer`cur, buffer.data
      ensures buffer.Valid()
      ensures buffer.Contents() == if old(buffer.Avail()) >= MAX_NUMERIC_SIZE then old(buffer.Contents()) + Decimal(v)
                                   else old(buffer.Contents())
    {
      if buffer.Avail() >= MAX_NUMERIC_SIZE {
        ghost var from := buffer.cur;
        var len := Convert(buffer.data, buffer.cur, v);
        buffer.cur := buffer.cur + len;
        assert buffer.data[..buffer.cur] == buffer.data[..from] + buffer.data[from..buffer.cur];
        assert buffer.data[..from] == old(buffer.Contents());
      }
    }

    method FormatPointer(v: nat)
      requires buffer.Valid() && v <= UINT64_MAX
      modifies buffer`cur, buffer.data
      ensures buffer.Valid()
      ensures buffer.Contents() == if old(buffer.Avail()) >= MAX_NUMERIC_SIZE then old(buffer.Contents()) + ("0x" + Digits(v, 16))
                                   else old(buffer.Contents())
    {
      if buffer.Avail() >= MAX_NUMERIC_SIZE {
        ghost var from := buffer.cur;
        buffer.data[buffer.cur] := '0';
        buffer.data[buffer.cur + 1] := 'x';
        var len := ConvertHex(buffer.data, buffer.cur + 2, v);
        buffer.cur := buffer.cur + len + 2;
        assert buffer.data[..buffer.cur] == buffer.data[..from] + (buffer.data[from..from + 2] + buffer.data[from + 2..buffer.cur]);
        assert buffer.data[..from] == old(buffer.Contents());
        assert buffer.data[from..from + 2] == "0x";
      }
    }

    /** Any line: the buffer holds exactly the items that found room, in order, and keeps a
        byte free. */
    method Log(items: seq<Item>)
      requires buffer.Valid() && buffer.Contents() == []
      requires forall i :: 0 <= i < |items| ==> Representable(items[i])
      modifies buffer`cur, buffer.data
      ensures buffer.Valid() && buffer.Contents() == Logged(buffer.data.Length, items)
    {
      for n := 0 to |items|
        invariant buffer.Valid() && buffer.Contents() == Logged(buffer.data.Length, items[..n])
      {
        assert items[..n + 1][..n] == items[..n];
        match items[n] {
          case Text(s) => buffer.Append(s);
          case Number(v) => FormatInteger(v);
          case Pointer(address) => FormatPointer(address);
        }
      }
      assert items[..|items|] == items;
    }
  }
}
