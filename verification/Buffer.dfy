/**
 Bytes, the network's integer format, and the buffer every connection reads into and
 writes from.
 */
module Bytes {

  type Byte = b: int | 0 <= b < 256

  /** 256 to the power of the number of bytes. */
  function Bound(width: nat): (b: nat)
    ensures b >= 1
    ensures width > 0 ==> b % 2 == 0
  {
    if width == 0 then 1 else 256 * Bound(width - 1)
  }

  /** The `width` low-order bytes of x, most significant first. */
  function BigEndian(x: nat, width: nat): (s: seq<Byte>)
    ensures |s| == width
  {
    if width == 0 then [] else BigEndian(x / 256, width - 1) + [x % 256]
  }

  function FromBigEndian(s: seq<Byte>): nat {
    if s == [] then 0 else FromBigEndian(s[..|s| - 1]) * 256 + s[|s| - 1]
  }

  /** Integers a two's-complement type of `width` bytes holds. */
  predicate Fits(x: int, width: nat) {
    0 <= 2 * x + Bound(width) < 2 * Bound(width)
  }

  function Encode(x: int, width: nat): (s: seq<Byte>)
    requires Fits(x, width)
    ensures |s| == width
  {
    BigEndian(if x < 0 then x + Bound(width) else x, width)
  }

  function Decode(s: seq<Byte>): int {
    var u := FromBigEndian(s);
    if 2 * u < Bound(|s|) then u else u - Bound(|s|)
  }

  lemma {:induction false} BigEndianInverse(x: nat, width: nat)
    requires x < Bound(width)
    ensures FromBigEndian(BigEndian(x, width)) == x
  {
    if width > 0 {
      BigEndianInverse(x / 256, width - 1);
      var s := BigEndian(x, width);
      assert s[..|s| - 1] == BigEndian(x / 256, width - 1);
    }
  }

  lemma {:induction false} FromBigEndianBound(s: seq<Byte>)
    ensures FromBigEndian(s) < Bound(|s|)
  {
    if s != [] {
      FromBigEndianBound(s[..|s| - 1]);
    }
  }

  lemma {:induction false} FromBigEndianInverse(s: seq<Byte>)
    ensures BigEndian(FromBigEndian(s), |s|) == s
  {
    if s != [] {
      var front, last := s[..|s| - 1], s[|s| - 1];
      FromBigEndianInverse(front);
      var u := FromBigEndian(front);
      assert (u * 256 + last) / 256 == u && (u * 256 + last) % 256 == last;
      assert BigEndian(FromBigEndian(s), |s|) == BigEndian(u, |front|) + [last];
    }
  }

  /** Network order: the first byte is the most significant one. */
  lemma {:induction false} NetworkOrder(s: seq<Byte>)
    requires s != []
    ensures FromBigEndian(s) == s[0] * Bound(|s| - 1) + FromBigEndian(s[1..])
  {
    if |s| > 1 {
      var front, last := s[..|s| - 1], s[|s| - 1];
      NetworkOrder(front);
      assert s[1..][..|s| - 2] == front[1..] && s[1..][|s| - 2] == last;
      assert s[0] * Bound(|s| - 2) * 256 == s[0] * Bound(|s| - 1) by {
        assert Bound(|s| - 1) == 256 * Bound(|s| - 2);
      }
    }
  }

  /** The values of the types of 1, 2, 4 and 8 bytes. */
  lemma Widths(x: int)
    ensures Bound(0) == 1 && Bound(1) == 0x100 && Bound(2) == 0x1_0000 && Bound(3) == 0x100_0000 && Bound(4) == 0x1_0000_0000
    ensures Fits(x, 1) <==> -0x80 <= x < 0x80
    ensures Fits(x, 2) <==> -0x8000 <= x < 0x8000
    ensures Fits(x, 4) <==> -0x8000_0000 <= x < 0x8000_0000
    ensures Fits(x, 8) <==> -0x8000_0000_0000_0000 <= x < 0x8000_0000_0000_0000
  {
    assert Bound(5) == 0x100_0000_0000 && Bound(6) == 0x1_0000_0000_0000 && Bound(7) == 0x100_0000_0000_0000;
  }

  /** The 32-bit integer that four bytes stand for. */
  lemma FourBytes(s: seq<Byte>)
    requires |s| == 4
    ensures var a: int, b: int, c: int, d: int := s[0], s[1], s[2], s[3];
            Decode(s) == a * 0x100_0000 + b * 0x1_0000 + c * 0x100 + d - if a < 0x80 then 0 else 0x1_0000_0000
  {
    Widths(0);
    NetworkOrder(s);
    NetworkOrder(s[1..]);
    NetworkOrder(s[2..]);
    NetworkOrder(s[3..]);
    assert s[1..][1..] == s[2..] && s[2..][1..] == s[3..] && s[3..][1..] == [];
  }

  /** Integers and byte strings of their width are in bijection. */
  lemma DecodeEncode(x: int, width: nat)
    requires Fits(x, width)
    ensures Decode(Encode(x, width)) == x
  {
    BigEndianInverse(if x < 0 then x + Bound(width) else x, width);
  }

  lemma EncodeDecode(s: seq<Byte>)
    requires s != []
    ensures Fits(Decode(s), |s|) && Encode(Decode(s), |s|) == s
  {
    FromBigEndianBound(s);
    FromBigEndianInverse(s);
  }

  /** A stream that arrived chunk by chunk. */
  function Concat(chunks: seq<seq<Byte>>): seq<Byte> {
    if chunks == [] then [] else Concat(chunks[..|chunks| - 1]) + chunks[|chunks| - 1]
  }

  /** An integer and the width of the type it is sent as. */
  datatype Field = Field(value: int, width: nat)

  predicate Sendable(fields: seq<Field>) {
    forall i :: 0 <= i < |fields| ==> fields[i].width in {1, 2, 4, 8} && Fits(fields[i].value, fields[i].width)
  }

  function EncodeAll(fields: seq<Field>): seq<Byte>
    requires Sendable(fields)
  {
    if fields == [] then [] else Encode(fields[0].value, fields[0].width) + EncodeAll(fields[1..])
  }

  lemma EncodeNothing()
    ensures EncodeAll([]) == []
  {
  }

  lemma EncodeAllStep(fields: seq<Field>, i: nat)
    requires Sendable(fields) && i < |fields|
    ensures EncodeAll(fields[i..]) == Encode(fields[i].value, fields[i].width) + EncodeAll(fields[i + 1..])
  {
    hide Encode;
    assert fields[i..][1..] == fields[i + 1..];
  }

  lemma FirstEncoded(fields: seq<Field>, i: nat)
    requires Sendable(fields) && i < |fields|
    ensures var first, s := fields[i], EncodeAll(fields[i..]);
            first.width <= |s| && Decode(s[..first.width]) == first.value && s[first.width..] == EncodeAll(fields[i + 1..])
  {
    hide Decode, Encode, EncodeAll;
    EncodeAllStep(fields, i);
    DecodeEncode(fields[i].value, fields[i].width);
    var s := EncodeAll(fields[i..]);
    assert s[..fields[i].width] == Encode(fields[i].value, fields[i].width);
  }
}

module Buffers {
  import opened Bytes

  const CHEAP_PREPEND: nat := 8
  const INITIAL_SIZE: nat := 1024
  const EXTRA_SIZE: nat := 65536

  class Buffer {
    var buffer: array<Byte>
    var readerIndex: nat
    var writerIndex: nat

    ghost predicate Valid()
      reads this
    {
      CHEAP_PREPEND <= buffer.Length && readerIndex <= writerIndex <= buffer.Length
    }

    /** The readable bytes. */
    ghost function Contents(): seq<Byte>
      reads this, buffer
      requires Valid()
    {
      buffer[readerIndex..writerIndex]
    }

    constructor (initialSize: nat)
      ensures Valid() && fresh(buffer) && Contents() == []
      ensures WritableBytes() == initialSize && PrependableBytes() == CHEAP_PREPEND
    {
      buffer := new Byte[CHEAP_PREPEND + initialSize](_ => 0);
      readerIndex, writerIndex := CHEAP_PREPEND, CHEAP_PREPEND;
    }

    function ReadableBytes(): nat
      reads this
      requires Valid()
      ensures ReadableBytes() == |Contents()|
    {
      writerIndex - readerIndex
    }

    function WritableBytes(): nat
      reads this
      requires Valid()
    {
      buffer.Length - writerIndex
    }

    function PrependableBytes(): nat
      reads this
      requires Valid()
    {
      readerIndex
    }

    function ToStringPiece(): (s: seq<Byte>)
      reads this, buffer
      requires Valid()
      ensures s == Contents()
    {
      buffer[readerIndex..writerIndex]
    }

    method Swap(rhs: Buffer)
      requires Valid() && rhs.Valid()
      modifies this, rhs
      ensures Valid() && rhs.Valid()
      ensures buffer == old(rhs.buffer) && readerIndex == old(rhs.readerIndex) && writerIndex == old(rhs.writerIndex)
      ensures rhs.buffer == old(buffer) && rhs.readerIndex == old(readerIndex) && rhs.writerIndex == old(writerIndex)
    {
      buffer, rhs.buffer := rhs.buffer, buffer;
      readerIndex, rhs.readerIndex := rhs.readerIndex, readerIndex;
      writerIndex, rhs.writerIndex := rhs.writerIndex, writerIndex;
    }

    method RetrieveAll()
      requires Valid()
      modifies this`readerIndex, this`writerIndex
      ensures Valid() && Contents() == []
      ensures readerIndex == writerIndex == CHEAP_PREPEND
    {
      readerIndex, writerIndex := CHEAP_PREPEND, CHEAP_PREPEND;
    }

    method Retrieve(len: nat)
      requires Valid() && len <= ReadableBytes()
      modifies this`readerIndex, this`writerIndex
      ensures Valid() && Contents() == old(Contents())[len..]
    {
      if len < ReadableBytes() {
        readerIndex := readerIndex + len;
      } else {
        RetrieveAll();
      }
    }

    method RetrieveAsString(len: nat) returns (result: seq<Byte>)
      requires Valid() && len <= ReadableBytes()
      modifies this`readerIndex, this`writerIndex
      ensures Valid()
      ensures result == old(Contents())[..len] && Contents() == old(Contents())[len..]
    {
      result := buffer[readerIndex..readerIndex + len];
      Retrieve(len);
    }

    method Unwrite(len: nat)
      requires Valid() && len <= ReadableBytes()
      modifies this`writerIndex
      ensures Valid() && Contents() == old(Contents())[..|old(Contents())| - len]
    {
      writerIndex := writerIndex - len;
    }

    /** Copies the readable bytes forwards onto an overlapping range at the front. */
    method Slide()
      requires Valid() && CHEAP_PREPEND < readerIndex
      modifies this`readerIndex, this`writerIndex, buffer
      ensures Valid() && Contents() == old(Contents()) && readerIndex == CHEAP_PREPEND
    {
      ghost var readable := Contents();
      var from, n := readerIndex, ReadableBytes();
      for i := 0 to n
        invariant readerIndex == from && writerIndex == from + n
        invariant forall k :: 0 <= k < i ==> buffer[CHEAP_PREPEND + k] == readable[k]
        invariant forall k :: i <= k < n ==> buffer[from + k] == readable[k]
      {
        buffer[CHEAP_PREPEND + i] := buffer[from + i];
      }
      readerIndex := CHEAP_PREPEND;
      writerIndex := readerIndex + n;
      assert n == ReadableBytes();
    }

    /** Makes room for `len` more bytes, by growing the vector or by sliding the readable bytes
        to the front. */
    method MakeSpace(len: nat)
      requires Valid() && WritableBytes() < len
      modifies this, buffer
      ensures Valid() && (buffer == old(buffer) || fresh(buffer))
      ensures Contents() == old(Contents()) && WritableBytes() >= len
      ensures readerIndex == old(readerIndex) || readerIndex == CHEAP_PREPEND
    {
      if WritableBytes() + PrependableBytes() < len + CHEAP_PREPEND {
        var size := writerIndex + len;
        var before := buffer;
        buffer := new Byte[size](i requires 0 <= i < size reads before => if i < before.Length then before[i] else 0);
        assert buffer[readerIndex..writerIndex] == before[readerIndex..writerIndex];
      } else {
        assert CHEAP_PREPEND < readerIndex;
        Slide();
      }
    }

    method EnsureWritableBytes(len: nat)
      requires Valid()
      modifies this, buffer
      ensures Valid() && (buffer == old(buffer) || fresh(buffer))
      ensures Contents() == old(Contents()) && WritableBytes() >= len
      ensures readerIndex == old(readerIndex) || readerIndex == CHEAP_PREPEND
    {
      if WritableBytes() < len {
        MakeSpace(len);
      }
      assert WritableBytes() >= len;
    }

    /** Copies data to where writing begins; `hasWritten` then makes it readable. */
    method WriteBytes(data: seq<Byte>)
      requires Valid() && |data| <= WritableBytes()
      modifies this`writerIndex, buffer
      ensures Valid() && Contents() == old(Contents()) + data
    {
      var start := writerIndex;
      for i := 0 to |data|
        invariant writerIndex == start
        invariant buffer[readerIndex..start] == old(Contents())
        invariant buffer[start..start + i] == data[..i]
      {
        buffer[start + i] := data[i];
        assert data[..i + 1] == data[..i] + [data[i]];
      }
      writerIndex := writerIndex + |data|;
      assert buffer[readerIndex..writerIndex] == buffer[readerIndex..start] + buffer[start..writerIndex];
    }

    method Append(data: seq<Byte>)
      requires Valid()
      modifies this, buffer
      ensures Valid() && (buffer == old(buffer) || fresh(buffer))
      ensures Contents() == old(Contents()) + data
      ensures readerIndex == old(readerIndex) || readerIndex == CHEAP_PREPEND
    {
      EnsureWritableBytes(|data|);
      WriteBytes(data);
    }

    method Prepend(data: seq<Byte>)
      requires Valid() && |data| <= PrependableBytes()
      modifies this`readerIndex, buffer
      ensures Valid() && Contents() == data + old(Contents())
    {
      var end := readerIndex;
      readerIndex := readerIndex - |data|;
      for i := 0 to |data|
        invariant readerIndex == end - |data|
        invariant buffer[readerIndex..readerIndex + i] == data[..i]
        invariant buffer[end..writerIndex] == old(Contents())
      {
        buffer[readerIndex + i] := data[i];
        assert data[..i + 1] == data[..i] + [data[i]];
      }
      assert buffer[readerIndex..writerIndex] == buffer[readerIndex..end] + buffer[end..writerIndex];
    }

    /** Moves the readable bytes to a new buffer that has `reserve` bytes left to write. */
    method Shrink(reserve: nat)
      requires Valid()
      modifies this
      ensures Valid() && fresh(buffer)
      ensures Contents() == old(Contents()) && WritableBytes() >= reserve
    {
      var other := new Buffer(INITIAL_SIZE);
      other.EnsureWritableBytes(ReadableBytes() + reserve);
      other.WriteBytes(buffer[readerIndex..writerIndex]);
      Swap(other);
    }

    /** One `readv` into the writable bytes and a 64 KiB stack buffer; `received` is what the
        kernel delivers, at most what both hold.  An error delivers nothing. */
    method ReadFd(received: seq<Byte>, failed: bool) returns (n: int)
      requires Valid()
      requires |received| <= WritableBytes() + (if WritableBytes() < EXTRA_SIZE then EXTRA_SIZE else 0)
      modifies this, buffer
      ensures Valid() && (buffer == old(buffer) || fresh(buffer))
      ensures failed ==> n == -1 && Contents() == old(Contents())
      ensures !failed ==> n == |received| && Contents() == old(Contents()) + received
    {
      var writable := WritableBytes();
      if failed {
        return -1;
      }
      n := |received|;
      if n <= writable {
        WriteBytes(received);
      } else {
        WriteBytes(received[..writable]);
        assert writerIndex == buffer.Length;
        Append(received[writable..]);
        assert received == received[..writable] + received[writable..];
      }
    }

    // ---- Integers in network order ----

    method AppendInt(x: int, width: nat)
      requires Valid() && Fits(x, width)
      modifies this, buffer
      ensures Valid() && (buffer == old(buffer) || fresh(buffer))
      ensures Contents() == old(Contents()) + Encode(x, width)
      ensures readerIndex == old(readerIndex) || readerIndex == CHEAP_PREPEND
    {
      Append(Encode(x, width));
    }

    function PeekInt(width: nat): (x: int)
      reads this, buffer
      requires Valid() && ReadableBytes() >= width
      ensures x == Decode(Contents()[..width])
    {
      assert buffer[readerIndex..readerIndex + width] == Contents()[..width];
      Decode(buffer[readerIndex..readerIndex + width])
    }

    method ReadInt(width: nat) returns (x: int)
      requires Valid() && ReadableBytes() >= width
      modifies this`readerIndex, this`writerIndex
      ensures Valid() && x == Decode(old(Contents())[..width]) && Contents() == old(Contents())[width..]
    {
      x := PeekInt(width);
      Retrieve(width);
    }

    method PrependInt(x: int, width: nat)
      requires Valid() && Fits(x, width) && width <= PrependableBytes()
      modifies this`readerIndex, buffer
      ensures Valid() && Contents() == Encode(x, width) + old(Contents())
    {
      Prepend(Encode(x, width));
    }

    /** Any signed integers of 8, 16, 32 or 64 bits appended to a buffer are read back in order
        and unchanged, after what the buffer already held and through any growth or slide. */
    method Echo(fields: seq<Field>) returns (before: seq<Byte>, values: seq<int>)
      requires Valid() && Sendable(fields)
      modifies this, buffer
      ensures Valid() && Contents() == [] && before == old(Contents())
      ensures |values| == |fields| && forall i :: 0 <= i < |fields| ==> values[i] == fields[i].value
    {
      hide Encode, Decode, Fits;
      var length := ReadableBytes();
      AppendAll(fields);
      before := RetrieveAsString(length);
      assert before == old(Contents()) && Contents() == EncodeAll(fields);
      values := ReadAll(fields);
    }

    method ReadAll(fields: seq<Field>) returns (values: seq<int>)
      requires Valid() && Sendable(fields) && Contents() == EncodeAll(fields)
      modifies this`readerIndex, this`writerIndex
      ensures Valid() && Contents() == []
      ensures |values| == |fields| && forall i :: 0 <= i < |fields| ==> values[i] == fields[i].value
    {
      hide Encode, Decode, Fits, Buffer.Contents, Buffer.Valid;
      values := [];
      for i := 0 to |fields|
        invariant Valid()
        invariant Contents() == EncodeAll(fields[i..])
        invariant |values| == i && forall j :: 0 <= j < i ==> values[j] == fields[j].value
      {
        FirstEncoded(fields, i);
        var x := ReadInt(fields[i].width);
        values := values + [x];
      }
    }

    method AppendAll(fields: seq<Field>)
      requires Valid() && Sendable(fields)
      modifies this, buffer
      ensures Valid() && (buffer == old(buffer) || fresh(buffer))
      ensures Contents() == old(Contents()) + EncodeAll(fields)
    {
      hide Encode, Fits, EncodeAll, Buffer.Contents;
      EncodeNothing();
      for i := 0 to |fields|
        invariant Valid() && (buffer == old(buffer) || fresh(buffer))
        invariant Contents() + EncodeAll(fields[i..]) == old(Contents()) + EncodeAll(fields)
      {
        EncodeAllStep(fields, i);
        ghost var before := Contents();
        AppendInt(fields[i].value, fields[i].width);
        assert before + (Encode(fields[i].value, fields[i].width) + EncodeAll(fields[i + 1..]))
            == (before + Encode(fields[i].value, fields[i].width)) + EncodeAll(fields[i + 1..]);
      }
      assert Contents() + [] == Contents();
    }
  }
}
