/**
 * The temporal column decoders: packed DATE, DATETIME2, TIME2 and
 * TIMESTAMP2 values rendered as MySQL's text forms, with an optional
 * fractional-seconds suffix.
 */
module Temporal {
  import opened Wrappers
  import opened Bytes
  import opened Errors
  import opened Buffers

  datatype DateTime = DateTime(year: int, month: int, day: int, hour: int, minute: int, second: int)

  /** A time of day as TIME2 stores it. */
  datatype Clock = Clock(hour: int, minute: int, second: int)

  /** `%04d-%02d-%02d`. */
  function DateText(year: int, month: int, day: int): string
  {
    PadInt(year, 4) + "-" + PadInt(month, 2) + "-" + PadInt(day, 2)
  }

  /** `%02d:%02d:%02d`. */
  function TimeText(hour: int, minute: int, second: int): string
  {
    PadInt(hour, 2) + ":" + PadInt(minute, 2) + ":" + PadInt(second, 2)
  }

  /** `%04d-%02d-%02d %02d:%02d:%02d`. */
  function DateTimeText(t: DateTime): string
  {
    DateText(t.year, t.month, t.day) + " " + TimeText(t.hour, t.minute, t.second)
  }

  // ---------------------------------------------------------------- DATE

  /** A DATE is a 3-byte value: day in bits 0-4, month in bits 5-8, year above. */
  function DateFields(v: nat): (int, int, int)
  {
    ((v / 0x200) % 0x8000, (v / 0x20) % 0x10, v % 0x20)
  }

  /** The text readDate returns for the 3-byte little-endian value v. */
  function DateValueText(v: nat): string
  {
    if v == 0 then "0000-00-00"
    else var (y, m, d) := DateFields(v); DateText(y, m, d)
  }

  /** MySQL's DATE packing: year * 512 + month * 32 + day. */
  function PackDate(year: nat, month: nat, day: nat): nat
  {
    year * 0x200 + month * 0x20 + day
  }

  /** Every in-range date reads back from its packing; only the all-zero date prints as zeros. */
  lemma DateRoundTrip(year: nat, month: nat, day: nat)
    requires year < 0x8000 && month < 0x10 && day < 0x20
    ensures PackDate(year, month, day) < 0x100_0000
    ensures DateFields(PackDate(year, month, day)) == (year, month, day)
  {
    var v := PackDate(year, month, day);
    DivUnique(v, 0x200, year, month * 0x20 + day);
    DivUnique(year, 0x8000, 0, year);
    DivUnique(v, 0x20, year * 0x10 + month, day);
    DivUnique(year * 0x10 + month, 0x10, year, month);
  }

  // ---------------------------------------------------------------- DATETIME2 / TIME2

  /**
   * DATETIME2 is 40 bits, most significant first: a sign bit, 17 bits of
   * year * 13 + month, then 5 bits of day, 5 of hour, 6 of minute and 6 of
   * second.
   */
  function DateTime2Fields(b: Bytes): DateTime
    requires |b| >= 5
  {
    var b0: int, b1: int, b2: int, b3: int, b4: int := b[0], b[1], b[2], b[3], b[4];
    var yearMonth := b2 / 0x40 + b1 * 4 + (b0 % 0x80) * 0x400;
    DateTime(
      yearMonth / 13,
      yearMonth % 13,
      (b2 % 0x40) / 2,
      b3 / 0x10 + (b2 % 2) * 0x10,
      b4 / 0x40 + (b3 % 0x10) * 4,
      b4 % 0x40)
  }

  predicate DateTime2InRange(t: DateTime)
  {
    0 <= t.year && 0 <= t.month < 13 && t.year * 13 + t.month < 0x2_0000
    && 0 <= t.day < 0x20 && 0 <= t.hour < 0x20 && 0 <= t.minute < 0x40 && 0 <= t.second < 0x40
  }

  /** The five bytes MySQL stores for a non-negative DATETIME2. */
  function PackDateTime2(t: DateTime): (r: Bytes)
    requires DateTime2InRange(t)
    ensures |r| == 5
  {
    var ym := t.year * 13 + t.month;
    [0x80 + ym / 0x400,
     (ym / 4) % 0x100,
     (ym % 4) * 0x40 + t.day * 2 + t.hour / 0x10,
     (t.hour % 0x10) * 0x10 + t.minute / 4,
     (t.minute % 4) * 0x40 + t.second]
  }

  /** The year-month word spread over 17 bits of the first three bytes reassembles. */
  lemma YearMonthSplit(ym: int, low: int)
    requires 0 <= ym < 0x2_0000 && 0 <= low < 0x40
    ensures ((ym % 4) * 0x40 + low) / 0x40 + ((ym / 4) % 0x100) * 4 + ((0x80 + ym / 0x400) % 0x80) * 0x400 == ym
  {
    var hi, mid, lo := ym / 0x400, (ym / 4) % 0x100, ym % 4;
    DivUnique(0x80 + hi, 0x80, 1, hi);
    DivUnique(lo * 0x40 + low, 0x40, lo, low);
    DivDiv(ym, 4, 0x100);
    assert ym / 4 == hi * 0x100 + mid;
  }

  lemma DateTime2RoundTrip(t: DateTime)
    requires DateTime2InRange(t)
    ensures DateTime2Fields(PackDateTime2(t)) == t
  {
    var b := PackDateTime2(t);
    var ym := t.year * 13 + t.month;
    var b0: int, b1: int, b2: int, b3: int, b4: int := b[0], b[1], b[2], b[3], b[4];
    DivUnique(b2, 0x40, ym % 4, t.day * 2 + t.hour / 0x10);
    YearMonthSplit(ym, t.day * 2 + t.hour / 0x10);
    assert b2 / 0x40 + b1 * 4 + (b0 % 0x80) * 0x400 == ym;
    DivUnique(ym, 13, t.year, t.month);
    DivUnique(b2 % 0x40, 2, t.day, t.hour / 0x10);
    DivUnique(b2, 2, (ym % 4) * 0x20 + t.day, t.hour / 0x10);
    DivUnique(b3, 0x10, t.hour % 0x10, t.minute / 4);
    DivUnique(b4, 0x40, t.minute % 4, t.second);
    assert b3 / 0x10 + (b2 % 2) * 0x10 == t.hour;
    assert b4 / 0x40 + (b3 % 0x10) * 4 == t.minute;
  }

  /** TIME2 as readTime2 decodes it: 5 bits of hour, 6 of minute, 6 of second. */
  function Time2Fields(b: Bytes): Clock
    requires |b| >= 3
  {
    var b0: int, b1: int, b2: int := b[0], b[1], b[2];
    Clock(b1 / 0x10 + (b0 % 2) * 0x10, b2 / 0x40 + (b1 % 0x10) * 4, b2 % 0x40)
  }

  /** `%02d:%02d:%02d` of a time of day. */
  function ClockText(t: Clock): string
  {
    TimeText(t.hour, t.minute, t.second)
  }

  /** The three bytes MySQL stores for a non-negative TIME2 below 32 hours. */
  function PackTime2(hour: nat, minute: nat, second: nat): (r: Bytes)
    requires hour < 0x20 && minute < 0x40 && second < 0x40
    ensures |r| == 3
  {
    [0x80 + hour / 0x10, (hour % 0x10) * 0x10 + minute / 4, (minute % 4) * 0x40 + second]
  }

  lemma Time2RoundTrip(hour: nat, minute: nat, second: nat)
    requires hour < 0x20 && minute < 0x40 && second < 0x40
    ensures Time2Fields(PackTime2(hour, minute, second)) == Clock(hour, minute, second)
  {
    var b := PackTime2(hour, minute, second);
    DivUnique(b[1], 0x10, hour % 0x10, minute / 4);
    DivUnique(b[2], 0x40, minute % 4, second);
  }

  // ---------------------------------------------------------------- TIMESTAMP2

  /** The date of a day count since the epoch, by the Julian-day arithmetic readTimestamp2 uses. */
  function CivilFromDays(days: int): (int, int, int)
  {
    var a := TDiv(4 * days + 102032, 146097) + 15;
    var b := days + 2442113 + a - TDiv(a, 4);
    var c := TDiv(20 * b - 2442, 7305);
    var d := b - 365 * c - TDiv(c, 4);
    var e := TDiv(d * 1000, 30601);
    var f := d - e * 30 - TDiv(e * 601, 1000);
    if e <= 13 then (c - 4716, e - 1, f) else (c - 4715, e - 13, f)
  }

  /** Seconds since the epoch to civil fields, with PHP's truncating `%` and `intdiv`. */
  function TimestampFields(t: int): DateTime
  {
    var second := TMod(t, 60);
    var t1 := TDiv(t, 60);
    var minute := TMod(t1, 60);
    var t2 := TDiv(t1, 60);
    var hour := TMod(t2, 24);
    var (year, month, day) := CivilFromDays(TDiv(t2, 24));
    DateTime(year, month, day, hour, minute, second)
  }

  /** The text of a TIMESTAMP2 without its fraction: zero prints as the zero timestamp. */
  function TimestampText(t: int): string
  {
    if t == 0 then "0000-00-00 00:00:00" else DateTimeText(TimestampFields(t))
  }

  /** For a timestamp after the epoch the time of day is the remainder of whole days. */
  lemma TimestampTimeOfDay(t: nat)
    ensures var f := TimestampFields(t);
      f.second == t % 60 && f.minute == (t / 60) % 60 && f.hour == (t / 3600) % 24
      && (f.year, f.month, f.day) == CivilFromDays(t / 86400)
  {
    DivDiv(t, 60, 60);
    DivDiv(t, 3600, 24);
  }

  /** Day 0 is the first of January 1970. */
  lemma CivilEpoch()
    ensures CivilFromDays(0) == (1970, 1, 1)
  {
    assert TDiv(102032, 146097) == 0;
    assert TDiv(20 * 2442125 - 2442, 7305) == 6685;
    assert TDiv(429 * 1000, 30601) == 14;
  }

  /** Day 19675 (the day of timestamp 1700000000) is the 14th of November 2023. */
  lemma CivilVector()
    ensures CivilFromDays(19675) == (2023, 11, 14)
  {
    assert TDiv(4 * 19675 + 102032, 146097) == 1;
    assert TDiv(20 * 2461800 - 2442, 7305) == 6739;
    assert TDiv(381 * 1000, 30601) == 12;
  }

  // ---------------------------------------------------------------- fraction

  /** Bytes of fractional seconds for a precision `fsp`: none when fsp is 0. */
  function FracWidth(fsp: int): int
  {
    if fsp > 0 then (fsp + 1) / 2 else 0
  }

  /** `sprintf('.%-03.3s', $v)`: at most three characters of v's text, right-padded with '0'. */
  function FracText(v: int): (r: string)
    ensures |r| == 4 && r[0] == '.'
  {
    var s := IntToDec(v);
    var t := if |s| >= 3 then s[..3] else s + seq(3 - |s|, _ => '0');
    "." + t
  }

  /** The suffix the readers append: the fraction's text, or nothing without fractional precision. */
  function FracSuffix(fsp: int, b: Bytes): Outcome<string>
    requires fsp > 0 && 1 <= FracWidth(fsp) <= 5 ==> |b| == FracWidth(fsp)
  {
    if fsp <= 0 then Ok("")
    else
      var size := FracWidth(fsp);
      if size == 1 then Ok(FracText(b[0]))
      else if 2 <= size <= 5 then Ok(FracText(ToSigned(BE(b), size)))
      else Err(UnexpectedValue)
  }

  predicate FracFits(buf: Buffer, at: int, fsp: int)
    reads buf
  {
    fsp > 0 && 1 <= FracWidth(fsp) <= 5 ==> 0 <= at && at + FracWidth(fsp) <= |buf.data|
  }

  /** The bytes the fraction occupies, when it is read at all. */
  function FracBytes(data: Bytes, at: nat, fsp: int): Bytes
    requires fsp > 0 && 1 <= FracWidth(fsp) <= 5 ==> at + FracWidth(fsp) <= |data|
  {
    if fsp > 0 && 1 <= FracWidth(fsp) <= 5 then data[at..at + FracWidth(fsp)] else []
  }

  /** Bytes the whole suffix consumes. */
  function FracConsumed(fsp: int): nat
  {
    if fsp > 0 && 1 <= FracWidth(fsp) <= 5 then FracWidth(fsp) else 0
  }

  method ReadFraction(buf: Buffer, fsp: int) returns (r: Outcome<string>)
    requires FracFits(buf, buf.offset, fsp)
    modifies buf`offset
    ensures buf.offset == old(buf.offset) + FracConsumed(fsp)
    ensures r == FracSuffix(fsp, FracBytes(buf.data, old(buf.offset), fsp))
  {
    if fsp > 0 {
      var v :- buf.ReadIntBeBySize((fsp + 1) / 2);
      return Ok(FracText(v));
    }
    return Ok("");
  }

  // ---------------------------------------------------------------- readers

  method ReadDate(buf: Buffer) returns (r: string)
    requires buf.offset + 3 <= |buf.data|
    modifies buf`offset
    ensures buf.offset == old(buf.offset) + 3
    ensures r == DateValueText(LE(buf.data[old(buf.offset)..buf.offset]))
  {
    var value := buf.ReadUInt24();
    if value == 0 {
      return "0000-00-00";
    }
    r := DateText((value / 0x200) % 0x8000, (value / 0x20) % 0x10, value % 0x20);
  }

  method ReadDateTime2(buf: Buffer, fsp: int) returns (r: Outcome<string>)
    requires buf.offset + 5 <= |buf.data| && FracFits(buf, buf.offset + 5, fsp)
    modifies buf`offset
    ensures buf.offset == old(buf.offset) + 5 + FracConsumed(fsp)
    ensures var frac := FracSuffix(fsp, FracBytes(buf.data, old(buf.offset) + 5, fsp));
      r == if frac.Err? then Err(frac.error)
           else Ok(DateTimeText(DateTime2Fields(buf.data[old(buf.offset)..])) + frac.value)
  {
    var value := DateTimeText(DateTime2Fields(buf.data[buf.offset..]));
    buf.Skip(5);
    var frac := ReadFraction(buf, fsp);
    if frac.Err? {
      return Err(frac.error);
    }
    return Ok(value + frac.value);
  }

  method ReadTime2(buf: Buffer, fsp: int) returns (r: Outcome<string>)
    requires buf.offset + 3 <= |buf.data| && FracFits(buf, buf.offset + 3, fsp)
    modifies buf`offset
    ensures buf.offset == old(buf.offset) + 3 + FracConsumed(fsp)
    ensures var frac := FracSuffix(fsp, FracBytes(buf.data, old(buf.offset) + 3, fsp));
      r == if frac.Err? then Err(frac.error) else Ok(ClockText(Time2Fields(buf.data[old(buf.offset)..])) + frac.value)
  {
    var value := ClockText(Time2Fields(buf.data[buf.offset..]));
    buf.Skip(3);
    var frac := ReadFraction(buf, fsp);
    if frac.Err? {
      return Err(frac.error);
    }
    return Ok(value + frac.value);
  }

  method ReadTimestamp2(buf: Buffer, fsp: int) returns (r: Outcome<string>)
    requires buf.offset + 4 <= |buf.data| && FracFits(buf, buf.offset + 4, fsp)
    modifies buf`offset
    ensures buf.offset == old(buf.offset) + 4 + FracConsumed(fsp)
    ensures var frac := FracSuffix(fsp, FracBytes(buf.data, old(buf.offset) + 4, fsp));
      var t := ToSigned(BE(buf.data[old(buf.offset)..old(buf.offset) + 4]), 4);
      r == if frac.Err? then Err(frac.error) else Ok(TimestampText(t) + frac.value)
  {
    var t := buf.ReadInt32Be();
    var frac :- ReadFraction(buf, fsp);
    if t == 0 {
      return Ok("0000-00-00 00:00:00" + frac);
    }
    return Ok(DateTimeText(TimestampFields(t)) + frac);
  }
}
