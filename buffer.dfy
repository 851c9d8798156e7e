/**
 * The binary cursor every decoder in the client reads through: a byte
 * string, an offset into it and a recorded length. Reads advance the offset
 * in place; writes append to the data and grow the length.
 *
 * Fixed-width reads require the bytes they read to exist; the decoders check
 * that before each read and report a truncated input as `ReadPastEnd`.
 */
module Buffers {
  import opened Wrappers
  import opened Bytes
  import opened Errors

  /** Prefix bytes of a length-encoded ("coded binary") integer. */
  const UNSIGNED_CHAR_COLUMN: Byte := 251
  const UNSIGNED_SHORT_COLUMN: Byte := 252
  const UNSIGNED_INT24_COLUMN: Byte := 253
  const UNSIGNED_INT64_COLUMN: Byte := 254

  /** `readUInt64` returns an int below 2^63 and a decimal string above. */
  datatype Number = AsInt(i: int) | AsText(text: string)

  /** Bytes a coded binary occupies, prefix included. */
  function CodedWidth(prefix: Byte): nat
  {
    if prefix == UNSIGNED_SHORT_COLUMN then 3
    else if prefix == UNSIGNED_INT24_COLUMN then 4
    else if prefix == UNSIGNED_INT64_COLUMN then 9
    else 1
  }

  /** What the bytes of one coded binary denote: null, a count, or an exception. */
  function CodedValue(s: Bytes): Outcome<Option<nat>>
    requires |s| > 0 && |s| == CodedWidth(s[0])
  {
    var p := s[0];
    if p == UNSIGNED_CHAR_COLUMN then Ok(None)
    else if p < UNSIGNED_CHAR_COLUMN then Ok(Some(p))
    else if p == UNSIGNED_SHORT_COLUMN || p == UNSIGNED_INT24_COLUMN then Ok(Some(LE(s[1..])))
    else if p == UNSIGNED_INT64_COLUMN then
      // A value of 2^63 or more comes back from readUInt64 as a string, which
      // the `?int` return type of readCodedBinary rejects under strict types.
      if LE(s[1..]) < Half(8) then Ok(Some(LE(s[1..]))) else Err(TypeError)
    else Err(UnexpectedValue)
  }

  /** How MySQL writes a length-encoded integer: the shortest form that holds the value. */
  function EncodeCoded(v: Option<nat>): (s: Bytes)
    requires v.Some? ==> v.value < Half(8)
  {
    match v
    case None => [UNSIGNED_CHAR_COLUMN]
    case Some(n) =>
      if n < 251 then [n]
      else if n < 0x1_0000 then [UNSIGNED_SHORT_COLUMN] + LEBytes(n, 2)
      else if n < 0x100_0000 then [UNSIGNED_INT24_COLUMN] + LEBytes(n, 3)
      else [UNSIGNED_INT64_COLUMN] + LEBytes(n, 8)
  }

  /** Every value the protocol can carry decodes back from its encoding, null apart from 0. */
  lemma CodedRoundTrip(v: Option<nat>)
    requires v.Some? ==> v.value < Half(8)
    ensures var s := EncodeCoded(v);
      |s| > 0 && |s| == CodedWidth(s[0]) && CodedValue(s) == Ok(v)
  {
    var s := EncodeCoded(v);
    if v.Some? && v.value >= 251 {
      var n := v.value;
      var k := |s| - 1;
      assert s[1..] == LEBytes(n, k);
      LEBytesRoundTrip(n, k);
    }
  }

  /** PHP's `strpos($s, $needle, $from)` for a one-byte needle. */
  function Find(s: Bytes, needle: Byte, from: nat): (r: Option<nat>)
    decreases |s| - from
    ensures r.Some? ==> (from <= r.value < |s| && s[r.value] == needle
      && forall k :: from <= k < r.value ==> s[k] != needle)
    ensures r.None? ==> forall k :: from <= k < |s| ==> s[k] != needle
  {
    if from >= |s| then None
    else if s[from] == needle then Some(from)
    else Find(s, needle, from + 1)
  }

  /** Bit k of a byte as `$byte & (1 << $k)` sees it. */
  predicate BitSet(d: Byte, k: int)
  {
    0 <= k < 8 && (d / [1, 2, 4, 8, 16, 32, 64, 128][k]) % 2 == 1
  }

  function BitChar(d: Byte, k: int): char
  {
    if BitSet(d, k) then '1' else '0'
  }

  /** `strrev`. */
  function Rev(s: string): (r: string)
    ensures |r| == |s|
    ensures forall i :: 0 <= i < |s| ==> r[i] == s[|s| - 1 - i]
  {
    if s == [] then [] else Rev(s[1..]) + [s[0]]
  }

  /** The low `end` bits of a byte, least significant first, as the inner loop of readBit builds them. */
  function LowBits(d: Byte, end: int): (r: string)
    ensures |r| == if end > 0 then end else 0
  {
    if end <= 0 then [] else seq(end, k requires 0 <= k < end => BitChar(d, k))
  }

  /** The inner loop of readBit: the low `end` bits of d, least significant first. */
  method ByteBits(d: Byte, end: int) returns (current: string)
    ensures current == LowBits(d, end)
  {
    current := "";
    var bit := 0;
    while bit < end
      invariant 0 <= bit <= (if end > 0 then end else 0)
      invariant |current| == bit && forall k :: 0 <= k < bit ==> current[k] == BitChar(d, k)
      decreases end - bit
    {
      current := current + [BitChar(d, bit)];
      bit := bit + 1;
    }
  }

  /** How many bits the i-th byte of a BIT value contributes. */
  function BitEnd(i: nat, bytes: int, bits: int): int
  {
    if i != 0 then 8
    else if bytes == 1 then bits
    else if TMod(bits, 8) == 0 then 8
    else TMod(bits, 8)
  }

  /** The text readBit returns for the bytes `s`: each byte's bits, most significant first. */
  function BitsText(s: Bytes, bytes: int, bits: int): string
  {
    if |s| == 0 then []
    else BitsText(s[..|s| - 1], bytes, bits) + Rev(LowBits(s[|s| - 1], BitEnd(|s| - 1, bytes, bits)))
  }

  lemma BitsTextNone(data: Bytes, start: nat, bytes: int, bits: int)
    requires start <= |data|
    ensures BitsText(data[start..start], bytes, bits) == ""
  {
  }

  /** One more byte appends that byte's bits to the text of the bytes before it. */
  lemma BitsTextStep(data: Bytes, start: nat, at: nat, next: nat, bytes: int, bits: int)
    requires start <= at < |data| && next == at + 1
    ensures BitsText(data[start..next], bytes, bits)
      == BitsText(data[start..at], bytes, bits) + Rev(LowBits(data[at], BitEnd(at - start, bytes, bits)))
  {
    var t := data[start..next];
    assert t[|t| - 1] == data[at];
    assert t[..|t| - 1] == data[start..at];
  }

  /**
   * The shape of readBit's text: nothing but '0' and '1'; and, for a
   * non-negative bit count, BitEnd(0, …) characters for the first byte and
   * eight for every further one.
   */
  lemma {:induction false} BitsTextShape(s: Bytes, bytes: int, bits: int)
    ensures forall c :: c in BitsText(s, bytes, bits) ==> c == '0' || c == '1'
    ensures 0 <= bits ==>
      |BitsText(s, bytes, bits)| == if |s| == 0 then 0 else BitEnd(0, bytes, bits) + 8 * (|s| - 1)
  {
    if |s| > 0 {
      BitsTextShape(s[..|s| - 1], bytes, bits);
      var low := LowBits(s[|s| - 1], BitEnd(|s| - 1, bytes, bits));
      assert forall k :: 0 <= k < |low| ==> low[k] == '0' || low[k] == '1';
      var last := Rev(low);
      assert forall k :: 0 <= k < |last| ==> last[k] == '0' || last[k] == '1';
    }
  }

  /** `str_repeat`. */
  function Repeat(s: Bytes, n: nat): (r: Bytes)
    ensures |r| == |s| * n
  {
    if n == 0 then [] else s + Repeat(s, n - 1)
  }

  /** What readUntill returns and where it leaves the offset, as written. */
  function UntillAsWritten(data: Bytes, offset: nat, length: int, needle: Byte): (Bytes, int)
  {
    var position := Find(data, needle, offset);
    // `$position ? … : …` treats a match at index 0 like no match at all.
    if position.Some? && position.value != 0 then
      (if position.value - 1 >= 0 then Substr(data, offset, Some(position.value - 1)) else [],
       position.value + 1)
    else (Substr(data, offset, None), length)
  }

  /** What readUntill evidently intends: the bytes before the needle, and the offset just past it. */
  function Until(data: Bytes, offset: nat, length: int, needle: Byte): (r: (Bytes, int))
    requires offset <= |data|
    ensures needle !in r.0
    ensures |r.0| <= |data| - offset && r.0 == data[offset..offset + |r.0|]
    ensures offset + |r.0| < |data| ==> data[offset + |r.0|] == needle && r.1 == offset + |r.0| + 1
    ensures offset + |r.0| == |data| ==> r.1 == length
  {
    match Find(data, needle, offset)
    case Some(p) => (data[offset..p], p + 1)
    case None => (data[offset..], length)
  }

  /**
   * The as-written length argument `$position - 1` is right only when the
   * offset is 1: from offset 3 in "ab\0cd\0" it also takes the terminator.
   */
  lemma UntillTakesTerminator()
    ensures var data: Bytes := [0x61, 0x62, 0, 0x63, 0x64, 0];
      UntillAsWritten(data, 3, 6, 0).0 == [0x63, 0x64, 0]
      && Until(data, 3, 6, 0).0 == [0x63, 0x64]
  {
    var data: Bytes := [0x61, 0x62, 0, 0x63, 0x64, 0];
    assert Find(data, 0, 3) == Some(5);
    assert data[3..5] == [0x63, 0x64];
  }

  class Buffer {
    var data: Bytes
    var offset: nat
    var length: int

    /** `new Buffer($data, $length)`: the length defaults to the byte count. */
    constructor (data: Bytes, length: Option<int>)
      ensures this.data == data && offset == 0
      ensures this.length == if length.Some? then length.value else |data|
    {
      this.data := data;
      this.offset := 0;
      this.length := if length.Some? then length.value else |data|;
    }

    /** `getLeft`: bytes between the offset and the recorded length. */
    function Left(): int
      reads this
    {
      length - offset
    }

    /** Reads n bytes least significant first, stepping the offset one byte at a time. */
    method ReadLE(n: nat) returns (v: nat)
      requires offset + n <= |data|
      modifies this`offset
      ensures offset == old(offset) + n
      ensures v == LE(data[old(offset)..offset])
    {
      var start := offset;
      v := 0;
      var i := 0;
      while i < n
        invariant 0 <= i <= n && offset == start + i
        invariant v == LE(data[start..offset])
      {
        LEExtend(data, start, offset);
        // ord($this->data[++$this->offset]) << 8*i; the bytes occupy disjoint bits, so `|` adds
        v := v + Pow256(i) * data[offset];
        offset := offset + 1;
        i := i + 1;
      }
    }

    /** Reads n bytes most significant first. */
    method ReadBE(n: nat) returns (v: nat)
      requires offset + n <= |data|
      modifies this`offset
      ensures offset == old(offset) + n
      ensures v == BE(data[old(offset)..offset])
    {
      var start := offset;
      v := 0;
      var i := 0;
      while i < n
        invariant 0 <= i <= n && offset == start + i
        invariant v == BE(data[start..offset])
      {
        BEExtend(data, start, offset);
        v := 256 * v + data[offset];
        offset := offset + 1;
        i := i + 1;
      }
    }

    method ReadUInt8() returns (v: Byte)
      requires offset < |data|
      modifies this`offset
      ensures offset == old(offset) + 1
      ensures v == data[old(offset)]
    {
      v := data[offset];
      offset := offset + 1;
    }

    method ReadUInt16() returns (v: nat)
      requires offset + 2 <= |data|
      modifies this`offset
      ensures offset == old(offset) + 2
      ensures v == LE(data[old(offset)..offset]) && v < 0x1_0000
    {
      v := ReadLE(2);
    }

    method ReadUInt24() returns (v: nat)
      requires offset + 3 <= |data|
      modifies this`offset
      ensures offset == old(offset) + 3
      ensures v == LE(data[old(offset)..offset]) && v < 0x100_0000
    {
      v := ReadLE(3);
    }

    method ReadUInt32() returns (v: nat)
      requires offset + 4 <= |data|
      modifies this`offset
      ensures offset == old(offset) + 4
      ensures v == LE(data[old(offset)..offset]) && v < 0x1_0000_0000
    {
      v := ReadLE(4);
    }

    method ReadUInt40() returns (v: nat)
      requires offset + 5 <= |data|
      modifies this`offset
      ensures offset == old(offset) + 5
      ensures v == LE(data[old(offset)..offset]) && v < 0x100_0000_0000
    {
      v := ReadLE(5);
    }

    method ReadUInt48() returns (v: nat)
      requires offset + 6 <= |data|
      modifies this`offset
      ensures offset == old(offset) + 6
      ensures v == LE(data[old(offset)..offset]) && v < 0x1_0000_0000_0000
    {
      v := ReadLE(6);
    }

    method ReadUInt56() returns (v: nat)
      requires offset + 7 <= |data|
      modifies this`offset
      ensures offset == old(offset) + 7
      ensures v == LE(data[old(offset)..offset]) && v < 0x100_0000_0000_0000
    {
      v := ReadLE(7);
    }

    /**
     * The eight bytes wrap PHP's signed 64-bit integer when the top bit is
     * set; the value is then re-read from the same bytes as an unsigned
     * decimal string.
     */
    method ReadUInt64() returns (v: Number)
      requires offset + 8 <= |data|
      modifies this`offset
      ensures offset == old(offset) + 8
      ensures var u := LE(data[old(offset)..offset]);
        v == if u < Half(8) then AsInt(u) else AsText(NatToDec(u))
    {
      var u: int := ReadLE(8);
      var value: int := if u >= 0x8000_0000_0000_0000 then u - 0x1_0000_0000_0000_0000 else u;
      if value < 0 {
        offset := offset - 8;
        v := AsText(NatToDec(LE(Substr(data, offset, Some(8)))));
        offset := offset + 8;
      } else {
        v := AsInt(value);
      }
    }

    method ReadInt8() returns (v: int)
      requires offset < |data|
      modifies this`offset
      ensures offset == old(offset) + 1
      ensures v == ToSigned(data[old(offset)], 1)
    {
      var u: int := data[offset];
      offset := offset + 1;
      v := if u >= 0x80 then u - 0x100 else u;
    }

    method ReadInt16() returns (v: int)
      requires offset + 2 <= |data|
      modifies this`offset
      ensures offset == old(offset) + 2
      ensures v == ToSigned(LE(data[old(offset)..offset]), 2)
    {
      var u: int := ReadLE(2);
      LETopBit(data[offset - 2..offset]);
      v := if data[offset - 1] >= 0x80 then u - 0x1_0000 else u;
    }

    method ReadInt24() returns (v: int)
      requires offset + 3 <= |data|
      modifies this`offset
      ensures offset == old(offset) + 3
      ensures v == ToSigned(LE(data[old(offset)..offset]), 3)
    {
      var u: int := ReadLE(3);
      LETopBit(data[offset - 3..offset]);
      v := if data[offset - 1] >= 0x80 then u - 0x100_0000 else u;
    }

    method ReadInt32() returns (v: int)
      requires offset + 4 <= |data|
      modifies this`offset
      ensures offset == old(offset) + 4
      ensures v == ToSigned(LE(data[old(offset)..offset]), 4)
    {
      var u: int := ReadLE(4);
      LETopBit(data[offset - 4..offset]);
      v := if data[offset - 1] >= 0x80 then u - 0x1_0000_0000 else u;
    }

    /** The top byte's `<< 56` wraps PHP's 64-bit integer into the sign. */
    method ReadInt64() returns (v: int)
      requires offset + 8 <= |data|
      modifies this`offset
      ensures offset == old(offset) + 8
      ensures v == ToSigned(LE(data[old(offset)..offset]), 8)
    {
      var u: int := ReadLE(8);
      v := if u >= 0x8000_0000_0000_0000 then u - 0x1_0000_0000_0000_0000 else u;
    }

    method ReadInt16Be() returns (v: int)
      requires offset + 2 <= |data|
      modifies this`offset
      ensures offset == old(offset) + 2
      ensures v == ToSigned(BE(data[old(offset)..offset]), 2)
    {
      var u: int := ReadBE(2);
      BETopBit(data[offset - 2..offset]);
      v := if data[offset - 2] >= 0x80 then u - 0x1_0000 else u;
    }

    method ReadInt24Be() returns (v: int)
      requires offset + 3 <= |data|
      modifies this`offset
      ensures offset == old(offset) + 3
      ensures v == ToSigned(BE(data[old(offset)..offset]), 3)
    {
      var u: int := ReadBE(3);
      BETopBit(data[offset - 3..offset]);
      v := if data[offset - 3] >= 0x80 then u - 0x100_0000 else u;
    }

    method ReadInt32Be() returns (v: int)
      requires offset + 4 <= |data|
      modifies this`offset
      ensures offset == old(offset) + 4
      ensures v == ToSigned(BE(data[old(offset)..offset]), 4)
    {
      var u: int := ReadBE(4);
      BETopBit(data[offset - 4..offset]);
      v := if data[offset - 4] >= 0x80 then u - 0x1_0000_0000 else u;
    }

    method ReadInt40Be() returns (v: int)
      requires offset + 5 <= |data|
      modifies this`offset
      ensures offset == old(offset) + 5
      ensures v == ToSigned(BE(data[old(offset)..offset]), 5)
    {
      var u: int := ReadBE(5);
      BETopBit(data[offset - 5..offset]);
      v := if data[offset - 5] >= 0x80 then u - 0x100_0000_0000 else u;
    }

    method ReadCodedBinary() returns (r: Outcome<Option<nat>>)
      requires offset < |data| && offset + CodedWidth(data[offset]) <= |data|
      modifies this`offset
      ensures offset == old(offset) + CodedWidth(data[old(offset)])
      ensures r == CodedValue(data[old(offset)..offset])
    {
      ghost var s := data[offset..offset + CodedWidth(data[offset])];
      var size := ReadUInt8();
      if size == UNSIGNED_CHAR_COLUMN {
        return Ok(None);
      }
      if size < UNSIGNED_CHAR_COLUMN {
        return Ok(Some(size));
      }
      if size == UNSIGNED_SHORT_COLUMN {
        var v := ReadUInt16();
        assert s[1..] == data[offset - 2..offset];
        return Ok(Some(v));
      }
      if size == UNSIGNED_INT24_COLUMN {
        var v := ReadUInt24();
        assert s[1..] == data[offset - 3..offset];
        return Ok(Some(v));
      }
      if size == UNSIGNED_INT64_COLUMN {
        var v := ReadUInt64();
        assert s[1..] == data[offset - 8..offset];
        match v
        case AsInt(i) => return Ok(Some(i));
        case AsText(_) => return Err(TypeError);
      }
      return Err(UnexpectedValue);
    }

    /** Widths 1..7 read little-endian unsigned; any other width throws without reading. */
    method ReadUIntBySize(size: int) returns (r: Outcome<nat>)
      requires 1 <= size <= 7 ==> offset + size <= |data|
      modifies this`offset
      ensures 1 <= size <= 7 ==> offset == old(offset) + size && r == Ok(LE(data[old(offset)..offset]))
      ensures !(1 <= size <= 7) ==> offset == old(offset) && r == Err(UnexpectedValue)
    {
      if size == 1 {
        var v := ReadUInt8();
        return Ok(v);
      } else if size == 2 {
        var v := ReadUInt16();
        return Ok(v);
      } else if size == 3 {
        var v := ReadUInt24();
        return Ok(v);
      } else if size == 4 {
        var v := ReadUInt32();
        return Ok(v);
      } else if size == 5 {
        var v := ReadUInt40();
        return Ok(v);
      } else if size == 6 {
        var v := ReadUInt48();
        return Ok(v);
      } else if size == 7 {
        var v := ReadUInt56();
        return Ok(v);
      }
      return Err(UnexpectedValue);
    }

    /** Width 1 reads unsigned, widths 2..5 signed big-endian; any other width throws. */
    method ReadIntBeBySize(size: int) returns (r: Outcome<int>)
      requires 1 <= size <= 5 ==> offset + size <= |data|
      modifies this`offset
      ensures size == 1 ==> offset == old(offset) + 1 && r == Ok(data[old(offset)])
      ensures 2 <= size <= 5 ==>
        (offset == old(offset) + size && r == Ok(ToSigned(BE(data[old(offset)..offset]), size)))
      ensures !(1 <= size <= 5) ==> offset == old(offset) && r == Err(UnexpectedValue)
    {
      if size == 1 {
        var v := ReadUInt8();
        return Ok(v);
      } else if size == 2 {
        var v := ReadInt16Be();
        return Ok(v);
      } else if size == 3 {
        var v := ReadInt24Be();
        return Ok(v);
      } else if size == 4 {
        var v := ReadInt32Be();
        return Ok(v);
      } else if size == 5 {
        var v := ReadInt40Be();
        return Ok(v);
      }
      return Err(UnexpectedValue);
    }

    /**
     * `read(0)` is empty and does not move; `read(null)` takes the rest and
     * moves to the length; `read(n)` takes what `substr` gives and moves by
     * n, back when n is negative.
     */
    method Read(len: Option<int>) returns (r: Bytes)
      requires len.None? ==> length >= 0
      requires len.Some? ==> offset + len.value >= 0
      modifies this`offset
      ensures len == Some(0) ==> r == []
      ensures len.None? ==> r == Substr(data, old(offset), None) && offset == length
      ensures len.Some? ==> offset == old(offset) + len.value
      ensures len.Some? && 0 <= len.value ==> r == Substr(data, old(offset), Some(len.value))
      ensures len.Some? && 0 <= len.value && offset <= |data| ==> r == data[old(offset)..offset]
      ensures len.Some? && len.value < 0 ==> r == SubstrCut(data, old(offset), -len.value)
    {
      if len == Some(0) {
        return [];
      }
      if len.None? {
        r := Substr(data, offset, None);
        offset := length;
      } else if len.value < 0 {
        r := SubstrCut(data, offset, -len.value);
        offset := offset + len.value;
      } else {
        r := Substr(data, offset, Some(len.value));
        offset := offset + len.value;
      }
    }

    /** readUntill as written. */
    method ReadUntill(needle: Byte) returns (r: Bytes)
      requires UntillAsWritten(data, offset, length, needle).1 >= 0
      modifies this`offset
      ensures (r, offset as int) == UntillAsWritten(data, old(offset), old(length), needle)
    {
      var position := Find(data, needle, offset);
      if position.Some? && position.value != 0 {
        r := if position.value - 1 >= 0 then Substr(data, offset, Some(position.value - 1)) else [];
        offset := position.value + 1;
      } else {
        r := Substr(data, offset, None);
        offset := length;
      }
    }

    /** readUntill with the length measured from the offset: the bytes up to the needle, which is skipped. */
    method ReadUntil(needle: Byte) returns (r: Bytes)
      requires offset <= |data| && length >= 0
      modifies this`offset
      ensures (r, offset as int) == Until(data, old(offset), length, needle)
    {
      var position := Find(data, needle, offset);
      if position.Some? {
        r := data[offset..position.value];
        offset := position.value + 1;
      } else {
        r := data[offset..];
        offset := length;
      }
    }

    /** A coded-binary length, then that many bytes; a null length takes the rest. */
    method ReadVariableLengthString() returns (r: Outcome<Bytes>)
      requires offset < |data| && offset + CodedWidth(data[offset]) <= |data| && length >= 0
      modifies this`offset
      ensures var n := CodedValue(data[old(offset)..old(offset) + CodedWidth(data[old(offset)])]);
        && (n.Err? ==> r == Err(n.error))
        && (n.Ok? ==>
              (r.Ok? && r.value == Substr(data, old(offset) + CodedWidth(data[old(offset)]), n.value)
               && offset == if n.value.None? then length else old(offset) + CodedWidth(data[old(offset)]) + n.value.value))
    {
      var n :- ReadCodedBinary();
      var s := Read(n);
      return Ok(s);
    }

    /** A `size`-byte little-endian length, then that many bytes. */
    method ReadLengthString(size: int) returns (r: Outcome<Bytes>)
      requires 1 <= size <= 7 ==> offset + size <= |data|
      modifies this`offset
      ensures 1 <= size <= 7 ==>
        (var n := LE(data[old(offset)..old(offset) + size]);
         r == Ok(Substr(data, old(offset) + size, Some(n))) && offset == old(offset) + size + n)
      ensures !(1 <= size <= 7) ==> r == Err(UnexpectedValue) && offset == old(offset)
    {
      var n :- ReadUIntBySize(size);
      var s := Read(Some(n));
      return Ok(s);
    }

    /** A BIT value: `bytes` bytes, each rendered as '0'/'1' text, most significant bit first. */
    method ReadBit(bytes: int, bits: int) returns (r: string)
      requires offset <= |data| && (bytes <= 0 || offset + bytes <= |data|)
      modifies this`offset
      ensures offset == old(offset) + (if bytes > 0 then bytes else 0)
      ensures r == BitsText(data[old(offset)..offset], bytes, bits)
      ensures forall c :: c in r ==> c == '0' || c == '1'
      ensures 0 <= bits ==> |r| == if bytes <= 0 then 0 else BitEnd(0, bytes, bits) + 8 * (bytes - 1)
    {
      var start := offset;
      r := "";
      var byte := 0;
      BitsTextNone(data, start, bytes, bits);
      while byte < bytes
        invariant 0 <= byte <= (if bytes > 0 then bytes else 0) && offset == start + byte <= |data|
        invariant r == BitsText(data[start..offset], bytes, bits)
        decreases bytes - byte
      {
        ghost var at := offset;
        var d := ReadUInt8();
        var current := ByteBits(d, BitEnd(byte, bytes, bits));
        BitsTextStep(data, start, at, offset, bytes, bits);
        r := r + Rev(current);
        byte := byte + 1;
      }
      BitsTextShape(data[start..offset], bytes, bits);
    }

    /** A fresh buffer over the next n bytes, with offset 0 and length n; this one moves past them. */
    method Slice(n: nat) returns (b: Buffer)
      modifies this`offset
      ensures fresh(b) && b.offset == 0 && b.length == n
      ensures b.data == Substr(old(data), old(offset), Some(n))
      ensures offset == old(offset) + n
    {
      var s := Read(Some(n));
      b := new Buffer(s, Some(n));
    }

    method Skip(n: nat)
      modifies this`offset
      ensures offset == old(offset) + n
    {
      offset := offset + n;
    }

    /** Appends `repeat` copies of `value`, growing the length by as many bytes. */
    method Write(value: Bytes, repeat: nat)
      modifies this`data, this`length
      ensures data == old(data) + Repeat(value, repeat)
      ensures length == old(length) + |value| * repeat
    {
      data := data + Repeat(value, repeat);
      length := length + |value| * repeat;
    }

    /** Appends another buffer's bytes; the length becomes the byte count. */
    method Append(other: Buffer)
      modifies this`data, this`length
      ensures data == old(data) + old(other.data)
      ensures length == |data|
    {
      data := data + other.data;
      length := |data|;
    }

    /** `rewind()` returns to the start; `rewind(k)` steps back k bytes. */
    method Rewind(stepBack: nat)
      requires stepBack <= offset
      modifies this`offset
      ensures offset == if stepBack == 0 then 0 else old(offset) - stepBack
    {
      offset := if stepBack == 0 then 0 else offset - stepBack;
    }

    method WriteUInt8(value: int)
      modifies this`data, this`length
      ensures data == old(data) + LEBytes(value, 1)
      ensures length == old(length) + 1
    {
      LEBytesSmall(value);
      data := data + [value % 256];
      length := length + 1;
    }

    method WriteUint16(value: int)
      modifies this`data, this`length
      ensures data == old(data) + LEBytes(value, 2)
      ensures length == old(length) + 2
    {
      LEBytesSmall(value);
      data := data + [value % 256, (value / 0x100) % 256];
      length := length + 2;
    }

    method WriteUint24(value: int)
      modifies this`data, this`length
      ensures data == old(data) + LEBytes(value, 3)
      ensures length == old(length) + 3
    {
      LEBytesSmall(value);
      data := data + [value % 256, (value / 0x100) % 256, (value / 0x1_0000) % 256];
      length := length + 3;
    }

    method WriteUInt32(value: int)
      modifies this`data, this`length
      ensures data == old(data) + LEBytes(value, 4)
      ensures length == old(length) + 4
    {
      LEBytesSmall(value);
      data := data + [value % 256, (value / 0x100) % 256, (value / 0x1_0000) % 256, (value / 0x100_0000) % 256];
      length := length + 4;
    }
  }
}
