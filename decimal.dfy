/**
 * DECIMAL column values. MySQL packs a DECIMAL(precision, scale) as groups
 * ("legs") of nine decimal digits in four big-endian bytes each, with a
 * shorter leading leg for the integer digits left over and a shorter
 * trailing leg for the fraction digits left over. The top bit of the first
 * byte is set for non-negative values; a negative value has every byte
 * complemented. The reader flips that top bit in the buffer, reads each leg
 * signed and undoes the complement with `^ -1`.
 */
module Decimals {
  import opened Wrappers
  import opened Bytes
  import opened Errors
  import opened Buffers

  /** Bytes needed by a leg of x decimal digits (x <= 9): the table 0, 1, 1, 2, 2, 3, 3, 4, 4, 4. */
  function Dig2Bytes(x: int): (r: nat)
    requires 0 <= x <= 9
    ensures r <= 4 && (r == 0 <==> x == 0)
  {
    if x == 9 then 4 else (x + 1) / 2
  }

  /** The stored size of a DECIMAL(precision, scale). */
  function DecimalSize(precision: nat, scale: nat): nat
    requires scale <= precision
  {
    var intg := precision - scale;
    Dig2Bytes(intg % 9) + 4 * (intg / 9) + 4 * (scale / 9) + Dig2Bytes(scale % 9)
  }

  /**
   * Every decimal with at least one digit occupies at least one byte, laid
   * out as the leading leg, the full integer legs, the full fraction legs
   * and the trailing leg.
   */
  lemma DecimalSizePositive(precision: nat, scale: nat)
    requires 0 < precision && scale <= precision
    ensures DecimalSize(precision, scale) > 0
    ensures (precision - scale) / 9 >= 0 && scale / 9 >= 0
    ensures DecimalSize(precision, scale)
      == Dig2Bytes((precision - scale) % 9) + 4 * ((precision - scale) / 9) + 4 * (scale / 9) + Dig2Bytes(scale % 9)
  {
    var intg := precision - scale;
    if intg % 9 == 0 && intg / 9 == 0 {
      assert intg == 0;
      if scale % 9 == 0 {
        assert scale / 9 > 0;
      }
    }
  }

  /** `chr(ord($b) ^ 0x80)`: the sign bit toggled. */
  function FlipTop(b: Byte): (r: Byte)
    ensures (r >= 0x80) != (b >= 0x80)
  {
    if b >= 0x80 then b - 0x80 else b + 0x80
  }

  /** `$v ^ $mask` with a mask of 0 (non-negative) or -1 (negative): -1 XOR v is -v - 1. */
  function Unmask(v: int, negative: bool): int
  {
    if negative then -v - 1 else v
  }

  /**
   * A leg of 1 to 4 bytes as readIntBeBySize returns it: signed big-endian,
   * except that a single byte is read unsigned unless `signedOne` holds.
   */
  function LegValue(b: Bytes, signedOne: bool): int
    requires 1 <= |b| <= 4
  {
    if |b| == 1 then (if signedOne then ToSigned(b[0], 1) else b[0])
    else if |b| == 2 then ToSigned(BE(b), 2)
    else if |b| == 3 then ToSigned(BE(b), 3)
    else ToSigned(BE(b), 4)
  }

  /** Where n full legs from position at end. */
  function LegsEnd(at: nat, n: nat): nat
  {
    at + 4 * n
  }

  /** The full leg at d[p..p + 4], unmasked and rendered `%09d`. */
  function LegText(d: Bytes, p: nat, negative: bool): string
    requires p + 4 <= |d|
  {
    PadInt(Unmask(ToSigned(BE(d[p..p + 4]), 4), negative), 9)
  }

  /** The n full nine-digit legs of d from position at on, each rendered `%09d`. */
  function FullLegs(d: Bytes, at: nat, n: nat, negative: bool): string
    requires at + 4 * n <= |d|
  {
    if n == 0 then ""
    else
      FullLegs(d, at, n - 1, negative) + LegText(d, LegsEnd(at, n - 1), negative)
  }

  /** Appending the leg at p = LegsEnd(at, n) to the first n legs gives the first n + 1. */
  lemma FullLegsStep(d: Bytes, at: nat, n: nat, negative: bool, p: nat, r: string, leg: string)
    requires p == LegsEnd(at, n) && p + 4 <= |d|
    requires r == FullLegs(d, at, n, negative) && leg == LegText(d, p, negative)
    ensures r + leg == FullLegs(d, at, n + 1, negative)
  {
  }

  /** The leading leg of `lead` bytes at data[at..] in plain decimal, or nothing without one. */
  function HeadText(data: Bytes, at: nat, lead: nat, negative: bool, signedOne: bool): string
    requires lead <= 4 && at + lead <= |data|
  {
    if lead > 0 then IntToDec(Unmask(LegValue(data[at..at + lead], signedOne), negative)) else ""
  }

  /** The trailing leg of a fraction with `digits` digits left over, padded to that many digits. */
  function TailText(data: Bytes, at: nat, digits: nat, negative: bool, signedOne: bool): string
    requires digits <= 9 && at + Dig2Bytes(digits) <= |data|
  {
    if digits == 0 then ""
    else PadInt(Unmask(LegValue(data[at..at + Dig2Bytes(digits)], signedOne), negative), digits)
  }

  /**
   * The fraction for a scale split into `legs` full legs and a trailing leg
   * of `digits` digits, read from data[at..]: a '.', the full legs, and the
   * trailing leg.
   */
  function FractionText(data: Bytes, at: nat, legs: nat, digits: nat, negative: bool, signedOne: bool): string
    requires digits <= 9 && at + 4 * legs + Dig2Bytes(digits) <= |data|
  {
    "." + FullLegs(data, at, legs, negative) + TailText(data, LegsEnd(at, legs), digits, negative, signedOne)
  }

  /** Where the full integer legs begin: after the leading leg. */
  function LegsStart(start: nat, precision: nat, scale: nat): nat
    requires scale <= precision
  {
    start + Dig2Bytes((precision - scale) % 9)
  }

  /** Where the fraction begins: after the leading leg and the full integer legs. */
  function FracStart(start: nat, precision: nat, scale: nat): nat
    requires scale <= precision
  {
    LegsStart(start, precision, scale) + 4 * ((precision - scale) / 9)
  }

  /** Each leg of a DECIMAL stored at data[start..] lies within `len` bytes when the whole value does. */
  lemma DecimalBounds(len: nat, start: nat, precision: nat, scale: nat)
    requires 0 < precision && scale <= precision && start + DecimalSize(precision, scale) <= len
    ensures start < len && start + Dig2Bytes((precision - scale) % 9) <= len
    ensures LegsStart(start, precision, scale) + 4 * ((precision - scale) / 9) <= len
    ensures FracStart(start, precision, scale) + 4 * (scale / 9) + Dig2Bytes(scale % 9) <= len
  {
    DecimalSizePositive(precision, scale);
  }

  /**
   * The text the leg reader builds for a value at data[start..] whose sign
   * bit has already been toggled: a '-' when that bit is now set (it was
   * stored clear), the leading leg, the full integer legs, and for a
   * positive scale the fraction.
   */
  function DecimalText(e: Bytes, start: nat, precision: nat, scale: nat, signedOne: bool): string
    requires 0 < precision && scale <= precision && start + DecimalSize(precision, scale) <= |e|
  {
    DecimalBounds(|e|, start, precision, scale);
    var negative := e[start] >= 0x80;
    var fraction := if scale == 0 then "" else FractionText(e, FracStart(start, precision, scale), scale / 9, scale % 9, negative, signedOne);
    (if negative then "-" else "") + HeadText(e, start, Dig2Bytes((precision - scale) % 9), negative, signedOne)
    + FullLegs(e, LegsStart(start, precision, scale), (precision - scale) / 9, negative) + fraction
  }

  lemma EmptyRight(a: string)
    ensures a + "" == a
  {
  }

  /** The sign, leading leg, full legs and fraction, each read at its place, assemble DecimalText. */
  lemma DecimalTextOf(e: Bytes, start: nat, precision: nat, scale: nat, signedOne: bool,
                      negative: bool, head: string, legs: string, fraction: string)
    requires 0 < precision && scale <= precision && start + DecimalSize(precision, scale) <= |e|
    requires negative == (e[start] >= 0x80)
    requires head == HeadText(e, start, Dig2Bytes((precision - scale) % 9), negative, signedOne)
    requires legs == FullLegs(e, LegsStart(start, precision, scale), (precision - scale) / 9, negative)
    requires fraction == if scale == 0 then "" else
      FractionText(e, FracStart(start, precision, scale), scale / 9, scale % 9, negative, signedOne)
    ensures (if negative then "-" else "") + head + legs + fraction == DecimalText(e, start, precision, scale, signedOne)
  {
  }

  /** Reads one leg of `size` bytes, the single byte signed or not. */
  method ReadLeg(buf: Buffer, size: nat, signedOne: bool) returns (v: int)
    requires 1 <= size <= 4 && buf.offset + size <= |buf.data|
    modifies buf`offset
    ensures buf.offset == old(buf.offset) + size
    ensures v == LegValue(buf.data[old(buf.offset)..buf.offset], signedOne)
  {
    if size == 1 && signedOne {
      v := buf.ReadInt8();
    } else {
      var o := buf.ReadIntBeBySize(size);
      v := o.value;
    }
  }

  /** Reads n full legs, appending each `%09d` to r. */
  /** One full leg: four bytes read signed, unmasked and rendered `%09d`. */
  method ReadLegText(buf: Buffer, negative: bool) returns (s: string)
    requires buf.offset + 4 <= |buf.data|
    modifies buf`offset
    ensures buf.offset == old(buf.offset) + 4
    ensures s == LegText(buf.data, old(buf.offset), negative)
  {
    var v := buf.ReadInt32Be();
    s := PadInt(Unmask(v, negative), 9);
  }

  /** Reads n full legs, appending each `%09d`. */
  method ReadFullLegs(buf: Buffer, n: nat, negative: bool) returns (r: string)
    requires buf.offset + 4 * n <= |buf.data|
    modifies buf`offset
    ensures buf.offset == old(buf.offset) + 4 * n
    ensures r == FullLegs(buf.data, old(buf.offset), n, negative)
  {
    var start := buf.offset;
    r := "";
    for i := 0 to n
      invariant buf.offset == start + 4 * i
      invariant r == FullLegs(buf.data, start, i, negative)
    {
      ghost var p := buf.offset;
      var leg := ReadLegText(buf, negative);
      FullLegsStep(buf.data, start, i, negative, p, r, leg);
      r := r + leg;
    }
  }

  /** The leading leg, when the integer digits leave one. */
  method ReadHead(buf: Buffer, lead: nat, negative: bool, signedOne: bool) returns (head: string)
    requires lead <= 4 && buf.offset + lead <= |buf.data|
    modifies buf`offset
    ensures buf.offset == old(buf.offset) + lead
    ensures head == HeadText(buf.data, old(buf.offset), lead, negative, signedOne)
  {
    head := "";
    if lead > 0 {
      var v := ReadLeg(buf, lead, signedOne);
      head := IntToDec(Unmask(v, negative));
    }
  }

  /** The trailing leg, when the fraction digits leave one. */
  method ReadTail(buf: Buffer, digits: nat, negative: bool, signedOne: bool) returns (t: string)
    requires digits <= 9 && buf.offset + Dig2Bytes(digits) <= |buf.data|
    modifies buf`offset
    ensures buf.offset == old(buf.offset) + Dig2Bytes(digits)
    ensures t == TailText(buf.data, old(buf.offset), digits, negative, signedOne)
  {
    t := "";
    if digits > 0 {
      var v := ReadLeg(buf, Dig2Bytes(digits), signedOne);
      t := PadInt(Unmask(v, negative), digits);
    }
  }

  /** The '.', the full fraction legs and the trailing leg. */
  method ReadFractionLegs(buf: Buffer, legs: nat, digits: nat, negative: bool, signedOne: bool) returns (fraction: string)
    requires digits <= 9 && buf.offset + 4 * legs + Dig2Bytes(digits) <= |buf.data|
    modifies buf`offset
    ensures buf.offset == old(buf.offset) + 4 * legs + Dig2Bytes(digits)
    ensures fraction == FractionText(buf.data, old(buf.offset), legs, digits, negative, signedOne)
  {
    ghost var at := buf.offset;
    var full := ReadFullLegs(buf, legs, negative);
    ghost var p := buf.offset;
    assert p == LegsEnd(at, legs);
    var tail := ReadTail(buf, digits, negative, signedOne);
    fraction := "." + full + tail;
  }

  /** Everything after the sign bit is toggled: the legs in order. */
  method ReadDecimalBody(buf: Buffer, precision: int, scale: int, signedOne: bool) returns (r: string)
    requires 0 < precision && 0 <= scale <= precision
    requires buf.offset + DecimalSize(precision, scale) <= |buf.data|
    modifies buf`offset
    ensures buf.offset == old(buf.offset) + DecimalSize(precision, scale)
    ensures r == DecimalText(buf.data, old(buf.offset), precision, scale, signedOne)
  {
    DecimalSizePositive(precision, scale);
    var intg := precision - scale;
    var intg0, frac0 := intg / 9, scale / 9;
    var intg0x, frac0x := intg - intg0 * 9, scale - frac0 * 9;
    assert intg0x == intg % 9 && frac0x == scale % 9;
    var start := buf.offset;
    var negative := buf.data[start] >= 0x80;
    var sign := if negative then "-" else "";
    var head := ReadHead(buf, Dig2Bytes(intg0x), negative, signedOne);
    assert buf.offset == LegsStart(start, precision, scale);
    var legs := ReadFullLegs(buf, intg0, negative);
    assert buf.offset == FracStart(start, precision, scale);
    var fraction := "";
    if scale > 0 {
      fraction := ReadFractionLegs(buf, frac0, frac0x, negative, signedOne);
    }
    DecimalTextOf(buf.data, start, precision, scale, signedOne, negative, head, legs, fraction);
    r := sign + head + legs + fraction;
  }

  /**
   * readDecimal with the single-byte legs read unsigned (`signedOne` false,
   * as written) or signed (true). The sign is taken from the stored top bit,
   * which is then toggled in the buffer itself.
   */
  method ReadDecimalLegs(buf: Buffer, precision: int, scale: int, signedOne: bool) returns (r: string)
    requires 0 < precision && 0 <= scale <= precision
    requires buf.offset + DecimalSize(precision, scale) <= |buf.data|
    modifies buf`data, buf`offset
    ensures buf.offset == old(buf.offset) + DecimalSize(precision, scale)
    ensures buf.data == old(buf.data)[old(buf.offset) := FlipTop(old(buf.data)[old(buf.offset)])]
    ensures r == DecimalText(buf.data, old(buf.offset), precision, scale, signedOne)
  {
    DecimalSizePositive(precision, scale);
    buf.data := buf.data[buf.offset := FlipTop(buf.data[buf.offset])];
    r := ReadDecimalBody(buf, precision, scale, signedOne);
  }

  /** readDecimal as written: a one-byte leg is read unsigned. */
  method ReadDecimalAsWritten(buf: Buffer, precision: int, scale: int) returns (r: string)
    requires 0 < precision && 0 <= scale <= precision
    requires buf.offset + DecimalSize(precision, scale) <= |buf.data|
    modifies buf`data, buf`offset
    ensures buf.offset == old(buf.offset) + DecimalSize(precision, scale)
    ensures buf.data == old(buf.data)[old(buf.offset) := FlipTop(old(buf.data)[old(buf.offset)])]
    ensures r == DecimalText(buf.data, old(buf.offset), precision, scale, false)
  {
    r := ReadDecimalLegs(buf, precision, scale, false);
  }

  /** readDecimal with every leg read signed, so that `^ -1` undoes the complement. */
  method ReadDecimal(buf: Buffer, precision: int, scale: int) returns (r: string)
    requires 0 < precision && 0 <= scale <= precision
    requires buf.offset + DecimalSize(precision, scale) <= |buf.data|
    modifies buf`data, buf`offset
    ensures buf.offset == old(buf.offset) + DecimalSize(precision, scale)
    ensures buf.data == old(buf.data)[old(buf.offset) := FlipTop(old(buf.data)[old(buf.offset)])]
    ensures r == DecimalText(buf.data, old(buf.offset), precision, scale, true)
  {
    r := ReadDecimalLegs(buf, precision, scale, true);
  }

  // ---------------------------------------------------------------- properties

  /**
   * A leg whose bytes hold x (non-negative value) or the complement of x
   * (negative value) reads back as x when single bytes are read signed.
   */
  lemma LegRoundTrip(b: Bytes, x: nat, negative: bool)
    requires 1 <= |b| <= 4 && x < Half(|b|)
    requires BE(b) == if negative then Pow256(|b|) - 1 - x else x
    ensures Unmask(LegValue(b, true), negative) == x
  {
    if |b| == 1 {
      assert BE(b) == b[0] by { assert b[1..] == []; }
    }
  }

  /** Read unsigned, the complemented one-byte leg 45 of a negative value comes back as -211. */
  lemma OneByteLegAsWritten()
    ensures BE([210]) == Pow256(1) - 1 - 45
    ensures Unmask(LegValue([210], false), true) == -211
    ensures Unmask(LegValue([210], true), true) == 45
  {
    assert BE([210]) == 210 by { assert [210][1..] == []; }
  }

  /** -123.45 as a DECIMAL(10, 2) is stored 7F FF FF 84 D2; toggling the sign bit gives these bytes. */
  const Vector: Bytes := [0xFF, 0xFF, 0xFF, 0x84, 0xD2]

  lemma VectorLegs()
    ensures [0x7F, 0xFF, 0xFF, 0x84, 0xD2][0 := FlipTop(0x7F)] == Vector
    ensures BE(Vector[0..4]) == 0xFFFF_FF84
    ensures BE(Vector[4..5]) == 0xD2
  {
    var s: Bytes := [0xFF, 0xFF, 0xFF, 0x84];
    assert Vector[0..4] == s;
    assert s[..3][..2][..1][..0] == [];
    assert BE(s[..3][..2][..1]) == 0xFF;
    assert BE(s[..3][..2]) == 0xFFFF;
    assert BE(s[..3]) == 0xFF_FFFF;
    assert Vector[4..5][..0] == [];
  }

  lemma VectorDigits()
    ensures NatToDec(123) == "123" && NatToDec(211) == "211" && NatToDec(45) == "45"
  {
    assert NatToDec(12) == "12";
    assert NatToDec(21) == "21";
  }

  /** The leading leg reads -124, which unmasks to 123; the fraction leg reads 210 or -46. */
  lemma VectorPieces(signedOne: bool)
    ensures HeadText(Vector, 0, 4, true, signedOne) == "123"
    ensures FullLegs(Vector, 4, 0, true) == ""
    ensures FractionText(Vector, 4, 0, 2, true, signedOne) == if signedOne then ".45" else ".-211"
  {
    VectorLegs();
    VectorDigits();
    var tail := TailText(Vector, 4, 2, true, signedOne);
    assert tail == if signedOne then "45" else "-211";
    assert "." + "" + tail == if signedOne then ".45" else ".-211";
  }

  /** An integer rendering holds no '.': a '-' at most, then digits. */
  lemma IntToDecDotFree(i: int)
    ensures '.' !in IntToDec(i)
  {
    IntToDecShape(i);
    NatToDecDigits(if i < 0 then -i else i);
    var r := IntToDec(i);
    assert forall k :: 0 <= k < |r| ==> r[k] != '.';
  }

  /** Nor does a padded one. */
  lemma PadIntDotFree(v: int, w: nat)
    ensures '.' !in PadInt(v, w)
  {
    if v >= 0 {
      PadNatDigits(v, w);
    } else {
      var w' := if w > 0 then w - 1 else 0;
      PadNatDigits(-v, w');
      assert PadInt(v, w) == "-" + PadInt(-v, w');
    }
  }

  lemma {:induction false} FullLegsDotFree(d: Bytes, at: nat, n: nat, negative: bool)
    requires at + 4 * n <= |d|
    ensures '.' !in FullLegs(d, at, n, negative)
  {
    if n > 0 {
      FullLegsDotFree(d, at, n - 1, negative);
      PadIntDotFree(Unmask(ToSigned(BE(d[LegsEnd(at, n - 1)..LegsEnd(at, n - 1) + 4]), 4), negative), 9);
    }
  }

  /** The sign, the leading leg and the full integer legs hold no '.'. */
  lemma IntegerPartDotFree(e: Bytes, start: nat, lead: nat, at: nat, legs: nat, negative: bool, signedOne: bool)
    requires lead <= 4 && start + lead <= |e| && at + 4 * legs <= |e|
    ensures '.' !in (if negative then "-" else "") + HeadText(e, start, lead, negative, signedOne) + FullLegs(e, at, legs, negative)
  {
    if lead > 0 {
      IntToDecDotFree(Unmask(LegValue(e[start..start + lead], signedOne), negative));
    }
    FullLegsDotFree(e, at, legs, negative);
  }

  /** The text has a decimal point exactly when the column has a positive scale. */
  lemma DotIffScale(e: Bytes, start: nat, precision: nat, scale: nat, signedOne: bool)
    requires 0 < precision && scale <= precision && start + DecimalSize(precision, scale) <= |e|
    ensures '.' in DecimalText(e, start, precision, scale, signedOne) <==> scale > 0
  {
    DecimalBounds(|e|, start, precision, scale);
    var negative := e[start] >= 0x80;
    var head := HeadText(e, start, Dig2Bytes((precision - scale) % 9), negative, signedOne);
    var legs := FullLegs(e, LegsStart(start, precision, scale), (precision - scale) / 9, negative);
    IntegerPartDotFree(e, start, Dig2Bytes((precision - scale) % 9), LegsStart(start, precision, scale),
                       (precision - scale) / 9, negative, signedOne);
    var fraction := if scale == 0 then "" else
      FractionText(e, FracStart(start, precision, scale), scale / 9, scale % 9, negative, signedOne);
    DecimalTextOf(e, start, precision, scale, signedOne, negative, head, legs, fraction);
    var whole := (if negative then "-" else "") + head + legs;
    if scale > 0 {
      assert (whole + fraction)[|whole|] == '.';
    } else {
      EmptyRight(whole);
    }
  }

  lemma VectorStrings()
    ensures "-" + "123" + "" + ".-211" == "-123.-211"
    ensures "-" + "123" + "" + ".45" == "-123.45"
  {
    EmptyRight("-" + "123");
  }

  /**
   * Read as written, the fraction leg comes out as "-211"; with the
   * single-byte leg read signed it is "45".
   */
  lemma DecimalVector()
    ensures DecimalText(Vector, 0, 10, 2, false) == "-123.-211"
    ensures DecimalText(Vector, 0, 10, 2, true) == "-123.45"
  {
    assert LegsStart(0, 10, 2) == 4 && FracStart(0, 10, 2) == 4;
    VectorPieces(false);
    VectorStrings();
    DecimalTextOf(Vector, 0, 10, 2, false, true, "123", "", ".-211");
    VectorPieces(true);
    DecimalTextOf(Vector, 0, 10, 2, true, true, "123", "", ".45");
  }
}
