/**
 * Byte strings and the integer encodings the MySQL wire formats use:
 * little- and big-endian unsigned values, two's-complement reinterpretation,
 * the byte string a little-endian writer produces, PHP's `substr`, and the
 * decimal text PHP prints for an integer (`(string) $int`, `%0Nd`).
 */
module Bytes {
  import opened Wrappers

  /** A PHP string is a string of bytes; `ord` gives 0..255. */
  type Byte = x: int | 0 <= x < 256
  type Bytes = seq<Byte>

  /** 256^k, the range of a k-byte unsigned value. */
  function Pow256(k: nat): (r: nat)
    ensures r >= 1
  {
    if k == 0 then 1 else 256 * Pow256(k - 1)
  }

  lemma {:induction false} Pow256Add(a: nat, b: nat)
    ensures Pow256(a + b) == Pow256(a) * Pow256(b)
  {
    if a > 0 {
      Pow256Add(a - 1, b);
      assert Pow256(a + b) == 256 * Pow256(a - 1 + b);
    }
  }

  /** Half the range of a k-byte value: the two's-complement sign threshold 2^(8k-1). */
  function Half(k: nat): nat
    requires k > 0
  {
    128 * Pow256(k - 1)
  }

  /** Unsigned little-endian value: byte i weighs 256^i. */
  function LE(s: Bytes): (r: nat)
    ensures r < Pow256(|s|)
  {
    if |s| == 0 then 0 else s[0] + 256 * LE(s[1..])
  }

  /** Unsigned big-endian value: the last byte is the least significant. */
  function BE(s: Bytes): (r: nat)
    ensures r < Pow256(|s|)
  {
    if |s| == 0 then 0 else 256 * BE(s[..|s| - 1]) + s[|s| - 1]
  }

  lemma MulMonotone(a: int, b: int, c: nat)
    requires a <= b
    ensures a * c <= b * c
  {
  }

  /** The two's-complement reading of an unsigned k-byte value. */
  function ToSigned(u: int, k: nat): int
    requires k > 0
  {
    if u >= Half(k) then u - Pow256(k) else u
  }

  /** Signed readings lie in [-2^(8k-1), 2^(8k-1)) and agree with the unsigned value modulo 2^(8k). */
  lemma SignedRange(u: nat, k: nat)
    requires k > 0 && u < Pow256(k)
    ensures -(Half(k) as int) <= ToSigned(u, k) < Half(k)
    ensures (ToSigned(u, k) - u) % Pow256(k) == 0
  {
    if u >= Half(k) {
      DivUnique(-(Pow256(k) as int), Pow256(k), -1, 0);
    } else {
      DivUnique(0, Pow256(k), 0, 0);
    }
  }

  /** Splitting off the most significant (last) byte of a little-endian value. */
  lemma {:induction false} LELast(s: Bytes)
    requires |s| > 0
    ensures LE(s) == LE(s[..|s| - 1]) + Pow256(|s| - 1) * s[|s| - 1]
  {
    var n := |s|;
    if n > 1 {
      var t, init := s[1..], s[..n - 1];
      LELast(t);
      assert t[..n - 2] == init[1..];
      var top, w := s[n - 1], Pow256(n - 2);
      assert t[n - 2] == top;
      assert LE(t) == LE(init[1..]) + w * top;
      assert LE(init) == s[0] + 256 * LE(init[1..]);
      assert 256 * (w * top) == (256 * w) * top;
    } else {
      assert s[..0] == [];
    }
  }

  /** Reading one more byte of a little-endian value adds it at the next weight. */
  lemma LEExtend(s: Bytes, i: nat, j: nat)
    requires i <= j < |s|
    ensures LE(s[i..j + 1]) == LE(s[i..j]) + Pow256(j - i) * s[j]
  {
    LELast(s[i..j + 1]);
    assert s[i..j + 1][..j - i] == s[i..j];
  }

  /** Splitting off the most significant (first) byte of a big-endian value. */
  lemma {:induction false} BEFirst(s: Bytes)
    requires |s| > 0
    ensures BE(s) == s[0] * Pow256(|s| - 1) + BE(s[1..])
  {
    var n := |s|;
    if n > 1 {
      var t, tail := s[..n - 1], s[1..];
      BEFirst(t);
      assert t[1..] == tail[..n - 2];
      var first, w := s[0], Pow256(n - 2);
      assert t[0] == first && tail[n - 2] == s[n - 1];
      assert BE(t) == first * w + BE(t[1..]);
      assert BE(tail) == 256 * BE(t[1..]) + s[n - 1];
      assert 256 * (first * w) == first * (256 * w);
    } else {
      assert s[..0] == [];
    }
  }

  lemma BEExtend(s: Bytes, i: nat, j: nat)
    requires i <= j < |s|
    ensures BE(s[i..j + 1]) == 256 * BE(s[i..j]) + s[j]
  {
    assert s[i..j + 1][..j - i] == s[i..j];
  }

  /**
   * The sign test the little-endian readers perform on their last byte is
   * the test for "at least 2^(8k-1)".
   */
  lemma LETopBit(s: Bytes)
    requires |s| > 0
    ensures s[|s| - 1] >= 0x80 <==> LE(s) >= Half(|s|)
  {
    LELast(s);
    assert LE(s[..|s| - 1]) < Pow256(|s| - 1);
  }

  /** The big-endian readers take the sign from the first byte. */
  lemma BETopBit(s: Bytes)
    requires |s| > 0
    ensures s[0] >= 0x80 <==> BE(s) >= Half(|s|)
  {
    var p := Pow256(|s| - 1);
    BEFirst(s);
    assert BE(s[1..]) < p;
    if s[0] >= 0x80 {
      MulMonotone(128, s[0], p);
    } else {
      MulMonotone(s[0], 127, p);
    }
  }

  /**
   * The bytes a little-endian writer emits for `x`, lowest first: the low
   * byte, then the bytes of the value shifted right by eight. Byte i comes
   * out as `chr($x >> 8*i)` (see LEBytesAt).
   */
  function LEBytes(x: int, n: nat): (r: Bytes)
    ensures |r| == n
    decreases n
  {
    if n == 0 then [] else [x % 256] + LEBytes(x / 256, n - 1)
  }

  /** Two pieces that make up the slice from `at`, each where it starts. */
  lemma SplitSlice(data: Bytes, at: nat, a: Bytes, b: Bytes)
    requires at + |a| + |b| <= |data| && data[at..at + |a| + |b|] == a + b
    ensures data[at..at + |a|] == a && data[at + |a|..at + |a| + |b|] == b
  {
    assert data[at..at + |a|] == data[at..at + |a| + |b|][..|a|];
    assert data[at + |a|..at + |a| + |b|] == data[at..at + |a| + |b|][|a|..];
  }

  /** Two pieces that follow `at`, each where it starts. */
  lemma Split(data: Bytes, at: nat, a: Bytes, b: Bytes)
    requires at <= |data| && data[at..] == a + b
    ensures at + |a| <= |data| && data[at..at + |a|] == a && data[at + |a|..] == b
  {
    assert data[at..at + |a|] == data[at..][..|a|];
    assert data[at + |a|..] == data[at..][|a|..];
  }

  /** The writers' explicit `chr($v >> 8*i)` bytes for widths 1 to 4. */
  lemma LEBytesSmall(x: int)
    ensures LEBytes(x, 1) == [x % 256]
    ensures LEBytes(x, 2) == [x % 256, (x / 0x100) % 256]
    ensures LEBytes(x, 3) == [x % 256, (x / 0x100) % 256, (x / 0x1_0000) % 256]
    ensures LEBytes(x, 4) == [x % 256, (x / 0x100) % 256, (x / 0x1_0000) % 256, (x / 0x100_0000) % 256]
  {
    DivDiv(x, 0x100, 0x100);
    DivDiv(x, 0x1_0000, 0x100);
    assert LEBytes(x, 4) == [x % 256] + LEBytes(x / 0x100, 3);
    assert LEBytes(x / 0x100, 3) == [(x / 0x100) % 256] + LEBytes(x / 0x1_0000, 2);
    assert LEBytes(x / 0x1_0000, 2) == [(x / 0x1_0000) % 256] + LEBytes(x / 0x100_0000, 1);
    assert LEBytes(x / 0x100_0000, 1) == [(x / 0x100_0000) % 256];
  }

  lemma DivUnique(x: int, d: int, q: int, m: int)
    requires d > 0 && 0 <= m < d && x == d * q + m
    ensures x / d == q && x % d == m
  {
    var q', m' := x / d, x % d;
    assert d * (q - q') == m' - m;
    if q - q' >= 1 {
      MulMonotone(1, q - q', d);
    } else if q' - q >= 1 {
      MulMonotone(1, q' - q, d);
    }
  }

  lemma DivDiv(x: int, a: int, b: int)
    requires a > 0 && b > 0
    ensures x / a / b == x / (a * b)
  {
    var q, r := x / a, x % a;
    var q2, r2 := q / b, q % b;
    assert x == a * q + r;
    assert q == b * q2 + r2;
    assert a * q == (a * b) * q2 + a * r2 by {
      assert a * (b * q2 + r2) == a * (b * q2) + a * r2;
      assert a * (b * q2) == (a * b) * q2;
    }
    MulMonotone(r2, b - 1, a);
    assert a * (b - 1) == a * b - a;
    DivUnique(x, a * b, q2, a * r2 + r);
  }

  /** Writing `x` as n bytes peels one byte off the front at a time. */
  /** Byte i of the write is floor(x / 256^i) reduced modulo 256, as `chr($x >> 8*i)` gives it. */
  lemma {:induction false} LEBytesAt(x: int, n: nat, i: nat)
    requires i < n
    ensures LEBytes(x, n)[i] == (x / Pow256(i)) % 256
    decreases n
  {
    if i > 0 {
      LEBytesAt(x / 256, n - 1, i - 1);
      DivDiv(x, 256, Pow256(i - 1));
    }
  }

  /** Round trip: an n-byte little-endian write of an in-range value reads back as that value. */
  lemma {:induction false} LEBytesRoundTrip(x: nat, n: nat)
    requires x < Pow256(n)
    ensures LE(LEBytes(x, n)) == x
  {
    if n > 0 {
      LEBytesRoundTrip(x / 256, n - 1);
      assert LEBytes(x, n)[1..] == LEBytes(x / 256, n - 1);
    }
  }

  /** A write keeps only the value modulo 256^n, whatever its sign. */
  lemma {:induction false} LEBytesModulo(x: int, n: nat)
    decreases n
    ensures LEBytes(x, n) == LEBytes(x % Pow256(n), n)
  {
    if n > 0 {
      var p := Pow256(n - 1);
      var q, m := x / (256 * p), x % (256 * p);
      assert x == 256 * (p * q + m / 256) + m % 256;
      DivUnique(x, 256, p * q + m / 256, m % 256);
      assert x / 256 == p * q + m / 256;
      assert m / 256 < p;
      DivUnique(x / 256, p, q, m / 256);
      LEBytesModulo(x / 256, n - 1);
      LEBytesModulo(m / 256, n - 1);
    }
  }

  /** PHP's `intdiv`: the quotient rounded toward zero. */
  function TDiv(a: int, b: int): int
    requires b != 0
  {
    if a >= 0 then a / b
    else if b > 0 then -((-a) / b)
    else (-a) / (-b)
  }

  /** PHP's `%`: the remainder takes the sign of the dividend. */
  function TMod(a: int, b: int): int
    requires b != 0
  {
    a - b * TDiv(a, b)
  }

  /**
   * PHP's `substr($s, $start, $len)` for a non-negative start: the result is
   * clamped to the string, empty when the start lies past its end, and runs
   * to the end when no length is given.
   */
  function Substr(s: Bytes, start: nat, len: Option<nat>): (r: Bytes)
    ensures start <= |s| ==> |r| <= |s| - start && r == s[start..start + |r|]
    ensures start <= |s| && len.Some? && start + len.value <= |s| ==> |r| == len.value
    ensures len.None? ==> |r| == if start <= |s| then |s| - start else 0
    ensures len.Some? ==> |r| <= len.value
  {
    if start > |s| then []
    else match len
      case None => s[start..]
      case Some(n) => if start + n <= |s| then s[start..start + n] else s[start..]
  }

  /**
   * `substr($s, $start, -$k)`: a negative length stops that many bytes
   * before the end of the string, and gives nothing when that point lies
   * before the start.
   */
  function SubstrCut(s: Bytes, start: nat, k: nat): (r: Bytes)
    ensures |r| == if start + k <= |s| then |s| - k - start else 0
    ensures start + k <= |s| ==> r == s[start..|s| - k]
  {
    if start + k <= |s| then s[start..|s| - k] else []
  }

  /** `substr($s, $start, $n)` for any integer length n. */
  function PhpSubstr(s: Bytes, start: nat, n: int): (r: Bytes)
    ensures n >= 0 ==> r == Substr(s, start, Some(n))
    ensures n < 0 ==> r == SubstrCut(s, start, -n)
  {
    if n < 0 then SubstrCut(s, start, -n) else Substr(s, start, Some(n))
  }

  /** Characters of decimal text. */
  predicate IsDigit(c: char) { '0' <= c <= '9' }

  function DigitChar(d: nat): (c: char)
    requires d < 10
    ensures IsDigit(c)
  {
    ['0', '1', '2', '3', '4', '5', '6', '7', '8', '9'][d]
  }

  function DigitValue(c: char): nat
    requires IsDigit(c)
  {
    (c - '0') as nat
  }

  /** `(string) $n` for a natural number: no sign, no leading zeros. */
  function NatToDec(n: nat): (r: string)
    ensures |r| > 0
  {
    if n < 10 then [DigitChar(n)] else NatToDec(n / 10) + [DigitChar(n % 10)]
  }

  /** The rendering is all digits, with a leading zero only for zero itself. */
  lemma {:induction false} NatToDecDigits(n: nat)
    ensures AllDigits(NatToDec(n))
    ensures NatToDec(n)[0] == '0' ==> n == 0
  {
    if n >= 10 {
      NatToDecDigits(n / 10);
      var s := NatToDec(n);
      assert s[..|s| - 1] == NatToDec(n / 10);
      assert s[0] == NatToDec(n / 10)[0];
      assert forall i :: 0 <= i < |s| - 1 ==> s[i] == NatToDec(n / 10)[i];
    }
  }

  /** Reads a string of digits back as a number. */
  function DecToNat(s: string): nat
    requires AllDigits(s)
  {
    if |s| == 0 then 0 else 10 * DecToNat(s[..|s| - 1]) + DigitValue(s[|s| - 1])
  }

  lemma {:induction false} DecRoundTrip(n: nat)
    ensures AllDigits(NatToDec(n))
    ensures DecToNat(NatToDec(n)) == n
  {
    NatToDecDigits(n);
    var s := NatToDec(n);
    if n < 10 {
      assert DigitValue(DigitChar(n)) == n;
    } else {
      DecRoundTrip(n / 10);
      assert s[..|s| - 1] == NatToDec(n / 10);
      assert DigitValue(DigitChar(n % 10)) == n % 10;
    }
  }

  /** `(string) $i` for any integer: a '-' for negative values. */
  function IntToDec(i: int): (r: string)
    ensures |r| > 0
  {
    if i < 0 then "-" + NatToDec(-i) else NatToDec(i)
  }

  /** A '-' first exactly for negative values, digits everywhere else. */
  lemma IntToDecShape(i: int)
    ensures var r := IntToDec(i);
      (r[0] == '-' <==> i < 0) && forall k :: 0 < k < |r| ==> IsDigit(r[k])
  {
    var n := if i < 0 then -i else i;
    NatToDecDigits(n);
    var r := IntToDec(i);
    if i < 0 {
      assert forall k :: 0 < k < |r| ==> r[k] == NatToDec(n)[k - 1];
    }
  }

  /** n '0' characters. */
  function Zeros(n: nat): (r: string)
    ensures |r| == n
  {
    if n == 0 then "" else "0" + Zeros(n - 1)
  }

  /** Left-pads a text with '0' up to width w. */
  function ZeroPad(s: string, w: nat): (r: string)
    ensures |r| == if |s| < w then w else |s|
  {
    if |s| < w then Zeros(w - |s|) + s else s
  }

  /** The padding is all '0' and the text itself ends the result. */
  lemma ZeroPadShape(s: string, w: nat)
    ensures var r := ZeroPad(s, w);
      r[|r| - |s|..] == s && forall k :: 0 <= k < |r| - |s| ==> r[k] == '0'
  {
    if |s| < w {
      ZerosAll(w - |s|);
    }
  }

  lemma {:induction false} ZerosAll(n: nat)
    ensures forall k :: 0 <= k < n ==> Zeros(n)[k] == '0'
  {
    if n > 0 {
      ZerosAll(n - 1);
    }
  }

  /** `sprintf('%0wd', $v)`: the sign first, then zeros, filling w characters in all. */
  function PadInt(v: int, w: nat): (r: string)
    ensures |r| >= w && |r| > 0
  {
    if v >= 0 then ZeroPad(NatToDec(v), w)
    else "-" + ZeroPad(NatToDec(-v), if w > 0 then w - 1 else 0)
  }

  /** The rendering starts with '-' exactly for negative values. */
  lemma PadIntSign(v: int, w: nat)
    ensures PadInt(v, w)[0] == '-' <==> v < 0
  {
    var n := if v >= 0 then v else -v;
    NatToDecDigits(n);
    ZeroPadShape(NatToDec(n), if v >= 0 then w else if w > 0 then w - 1 else 0);
  }

  /** Text with no '-' in it, as every unsigned rendering is. */
  predicate AllDigits(s: string) { forall i :: 0 <= i < |s| ==> IsDigit(s[i]) }

  lemma PadNatDigits(v: nat, w: nat)
    ensures AllDigits(PadInt(v, w))
    ensures |NatToDec(v)| <= w ==> |PadInt(v, w)| == w
  {
    var s := NatToDec(v);
    var r := ZeroPad(s, w);
    NatToDecDigits(v);
    ZeroPadShape(s, w);
    forall i | 0 <= i < |r| ensures IsDigit(r[i]) {
      if i >= |r| - |s| {
        assert r[i] == r[|r| - |s|..][i - (|r| - |s|)];
      }
    }
  }

  /** A number below 10^w prints in at most w digits. */
  function Pow10(w: nat): (r: nat)
    ensures r >= 1
  {
    if w == 0 then 1 else 10 * Pow10(w - 1)
  }

  lemma {:induction false} DecLength(v: nat, w: nat)
    requires w > 0 && v < Pow10(w)
    ensures |NatToDec(v)| <= w
  {
    if v >= 10 {
      assert w > 1;
      DecLength(v / 10, w - 1);
    }
  }
}
