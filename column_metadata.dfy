/**
 * The table-map metadata decoder: the per-column type bytes and metadata
 * words, then the optional metadata blocks (signedness, charsets, names,
 * enum values, primary key) and the columns assembled from both.
 */
module ColumnMetadata {
  import opened Wrappers
  import opened Bytes
  import opened Errors
  import opened Buffers
  import opened Records
  import CT = ColumnTypes

  // ---------------------------------------------------------------- per-column metadata

  /** Metadata bytes the table map carries for a column of type t. */
  function MetaWidth(t: CT.ColumnType): (w: nat)
    ensures w <= 2
  {
    match t
    case DOUBLE | FLOAT | TIMESTAMP2 | DATETIME2 | TIME2 | BLOB | GEOMETRY | JSON => 1
    case VARCHAR | VAR_STRING | STRING | NEWDECIMAL | BIT => 2
    case _ => 0
  }

  /**
   * The maximum length of a STRING column from its 16-bit metadata word m:
   * `(((m >> 4) & 0x300) ^ 0x300) + (m & 0xff)`. MySQL stores bits 8 and 9 of
   * the length inverted in bits 12 and 13 of the word.
   */
  function StringMaxLength(m: nat): nat
  {
    (3 - (m / 0x10 / 0x100) % 4) * 0x100 + m % 0x100
  }

  /** The metadata a column of type t decodes to from its metadata bytes m. */
  function DecodeMeta(t: CT.ColumnType, m: Bytes): Meta
    requires |m| == MetaWidth(t)
  {
    match t
    case DOUBLE | FLOAT => SizedMeta(t, m[0])
    case TIMESTAMP2 | DATETIME2 | TIME2 => TimeMeta(t, m[0])
    case VARCHAR => TextMeta(t, LE(m))
    case VAR_STRING | STRING =>
      // the first byte is the real type: ENUM and SET travel as STRING
      var hi: int := m[0];
      if hi == 0xf8 then SizedMeta(CT.SET, m[1])
      else if hi == 0xf7 then SizedMeta(CT.ENUM, m[1])
      else TextMeta(t, StringMaxLength(hi * 0x100 + m[1]))
    case BLOB | GEOMETRY | JSON => BlobMeta(t, m[0])
    case NEWDECIMAL => DecimalMeta(t, m[0], m[1])
    case BIT =>
      var bytes: int := m[1];
      var bits := bytes * 8 + m[0];
      BitMeta(t, (bits + 7) / 8, bits)
    case _ => CommonMeta(t)
  }

  /** How MySQL writes the metadata of a STRING or VAR_STRING column of a given maximum length. */
  function EncodeStringMeta(t: CT.ColumnType, maxLength: nat): Bytes
    requires t == CT.STRING || t == CT.VAR_STRING
    requires maxLength < 0x400
  {
    [CT.Value(t) - (maxLength / 0x100) * 0x10, maxLength % 0x100]
  }

  /** A STRING column's maximum length survives MySQL's encoding of it. */
  lemma StringMetaRoundTrip(t: CT.ColumnType, maxLength: nat)
    requires t == CT.STRING || t == CT.VAR_STRING
    requires maxLength < 0x400
    ensures DecodeMeta(t, EncodeStringMeta(t, maxLength)) == TextMeta(t, maxLength)
  {
    var v := maxLength / 0x100;
    var b1 := maxLength % 0x100;
    DivUnique(maxLength, 0x100, v, b1);
    assert v < 4;
    var low := CT.Value(t) - 0xf0;
    var b0 := CT.Value(t) - v * 0x10;
    assert b0 == 0x10 * (15 - v) + low;
    var m := b0 * 0x100 + b1;
    assert EncodeStringMeta(t, maxLength) == [b0, b1];
    DivUnique(m, 0x100, b0, b1);
    DivUnique(b0, 0x10, 15 - v, low);
    DivDiv(m, 0x10, 0x100);
    DivDiv(m, 0x100, 0x10);
    assert m / 0x10 / 0x100 == 15 - v;
    DivUnique(15 - v, 4, 3, 3 - v);
    assert StringMaxLength(m) == maxLength;
  }

  /** ENUM and SET columns travel as STRING, with the real type in the first metadata byte. */
  lemma EnumSetMeta(t: CT.ColumnType, size: Byte)
    requires t == CT.STRING || t == CT.VAR_STRING
    ensures DecodeMeta(t, [0xf7, size]) == SizedMeta(CT.ENUM, size)
    ensures DecodeMeta(t, [0xf8, size]) == SizedMeta(CT.SET, size)
  {
  }

  /** A BIT column of `bits` bits occupies the fewest whole bytes that hold them. */
  lemma BitMetaBytes(m: Bytes)
    requires |m| == 2
    ensures var r := DecodeMeta(CT.BIT, m);
      r.bits == m[1] as int * 8 + m[0] && r.bytes * 8 >= r.bits && (r.bytes == 0 || (r.bytes - 1) * 8 < r.bits)
  {
  }

  // ---------------------------------------------------------------- readColumns

  /** `ord($typesData[$i])`: past the end of a short read PHP yields '' and `ord('')` is 0. */
  function TypeByte(types: Bytes, i: nat): Byte
  {
    if i < |types| then types[i] else 0
  }

  /** The metadata width a type byte calls for; 0 when the byte is no column type. */
  function ByteWidth(b: int): nat
  {
    match CT.From(b)
    case Ok(t) => MetaWidth(t)
    case Err(_) => 0
  }

  /** Where the metadata of column n starts: start plus the widths of the columns before it. */
  function MetaEnd(types: Bytes, n: nat, start: nat): (p: nat)
    ensures p >= start
  {
    if n == 0 then start else MetaEnd(types, n - 1, start) + ByteWidth(TypeByte(types, n - 1))
  }

  /** The metadata of the first n columns, read from `start`, and the position after them. */
  function Columns(data: Bytes, types: Bytes, n: nat, start: nat): Outcome<(seq<Meta>, nat)>
  {
    if n == 0 then Ok(([], start))
    else match Columns(data, types, n - 1, start)
      case Err(e) => Err(e)
      case Ok((ms, pos)) =>
        match CT.From(TypeByte(types, n - 1))
        case Err(e) => Err(e)
        case Ok(t) =>
          if pos + MetaWidth(t) > |data| then Err(ReadPastEnd)
          else Ok((ms + [DecodeMeta(t, data[pos..pos + MetaWidth(t)])], pos + MetaWidth(t)))
  }

  /** `readColumns` from `start`: the type bytes, an ignored coded length, then the metadata. */
  function ReadColumnsSpec(data: Bytes, start: nat, count: nat): Outcome<(seq<Meta>, nat)>
  {
    var types := Substr(data, start, Some(count));
    var p := start + count;
    if p >= |data| || p + CodedWidth(data[p]) > |data| then Err(ReadPastEnd)
    else
      var _ :- CodedValue(data[p..p + CodedWidth(data[p])]);
      Columns(data, types, count, p + CodedWidth(data[p]))
  }

  /** Once a column fails, the whole read fails with the same exception. */
  lemma {:induction false} ColumnsErrPersists(data: Bytes, types: Bytes, k: nat, n: nat, start: nat)
    requires k <= n && Columns(data, types, k, start).Err?
    ensures Columns(data, types, n, start) == Columns(data, types, k, start)
  {
    if k < n {
      ColumnsErrPersists(data, types, k, n - 1, start);
    }
  }

  /** A successful read yields exactly n metas and ends where the n columns' widths add up to. */
  lemma {:induction false} ColumnsShape(data: Bytes, types: Bytes, n: nat, start: nat)
    requires Columns(data, types, n, start).Ok?
    ensures |Columns(data, types, n, start).value.0| == n
    ensures Columns(data, types, n, start).value.1 == MetaEnd(types, n, start)
    ensures n > 0 ==> MetaEnd(types, n, start) <= |data|
  {
    if n > 0 {
      ColumnsShape(data, types, n - 1, start);
      var t := CT.From(TypeByte(types, n - 1)).value;
      assert ByteWidth(TypeByte(types, n - 1)) == MetaWidth(t);
    }
  }

  /**
   * Column i of a successful read is decoded from its own type byte and the
   * metadata bytes between MetaEnd(i) and MetaEnd(i + 1).
   */
  lemma {:induction false} ColumnAt(data: Bytes, types: Bytes, n: nat, start: nat, i: nat)
    requires Columns(data, types, n, start).Ok? && i < n
    ensures |Columns(data, types, n, start).value.0| == n
    ensures CT.From(TypeByte(types, i)).Ok?
    ensures MetaEnd(types, i + 1, start) == MetaEnd(types, i, start) + MetaWidth(CT.From(TypeByte(types, i)).value) <= |data|
    ensures Columns(data, types, n, start).value.0[i] ==
      DecodeMeta(CT.From(TypeByte(types, i)).value, data[MetaEnd(types, i, start)..MetaEnd(types, i + 1, start)])
  {
    ColumnsShape(data, types, n, start);
    ColumnsShape(data, types, n - 1, start);
    if i < n - 1 {
      ColumnAt(data, types, n - 1, start, i);
    } else {
      var t := CT.From(TypeByte(types, i)).value;
      assert ByteWidth(TypeByte(types, i)) == MetaWidth(t);
    }
  }

  /** The read succeeds exactly when every type byte names a column type and the metadata fits. */
  lemma {:induction false} ColumnsOk(data: Bytes, types: Bytes, n: nat, start: nat)
    ensures Columns(data, types, n, start).Ok? <==>
      (forall i :: 0 <= i < n ==> CT.From(TypeByte(types, i)).Ok?) && (n == 0 || MetaEnd(types, n, start) <= |data|)
  {
    if n > 0 {
      var b := TypeByte(types, n - 1);
      ColumnsOk(data, types, n - 1, start);
      assert (forall i :: 0 <= i < n ==> CT.From(TypeByte(types, i)).Ok?) <==>
        (forall i :: 0 <= i < n - 1 ==> CT.From(TypeByte(types, i)).Ok?) && CT.From(b).Ok?;
      match Columns(data, types, n - 1, start)
      case Err(_) =>
        MetaEndMonotone(types, n - 1, n, start);
      case Ok(_) =>
        ColumnsShape(data, types, n - 1, start);
        if CT.From(b).Ok? {
          assert ByteWidth(b) == MetaWidth(CT.From(b).value);
        }
    }
  }

  lemma {:induction false} MetaEndMonotone(types: Bytes, k: nat, n: nat, start: nat)
    requires k <= n
    ensures MetaEnd(types, k, start) <= MetaEnd(types, n, start)
  {
    if k < n {
      MetaEndMonotone(types, k, n - 1, start);
    }
  }

  /** One more column: its type byte names a type and its metadata bytes fit. */
  lemma ColumnsStep(data: Bytes, types: Bytes, i: nat, start: nat, ms: seq<Meta>, pos: nat, t: CT.ColumnType, m: Bytes)
    requires Columns(data, types, i, start) == Ok((ms, pos))
    requires CT.From(TypeByte(types, i)) == Ok(t)
    requires pos + MetaWidth(t) <= |data| && m == data[pos..pos + MetaWidth(t)]
    ensures Columns(data, types, i + 1, start) == Ok((ms + [DecodeMeta(t, m)], pos + |m|))
  {
  }

  /** The column after a successful prefix fails when its type byte is unknown or its metadata does not fit. */
  lemma ColumnsStepErr(data: Bytes, types: Bytes, i: nat, start: nat, ms: seq<Meta>, pos: nat, e: Exception)
    requires Columns(data, types, i, start) == Ok((ms, pos))
    requires CT.From(TypeByte(types, i)) == Err(e) ||
      (CT.From(TypeByte(types, i)).Ok? && pos + MetaWidth(CT.From(TypeByte(types, i)).value) > |data| && e == ReadPastEnd)
    ensures Columns(data, types, i + 1, start) == Err(e)
  {
  }

  /** Past the type bytes and a well-formed length, `readColumns` is the column loop. */
  lemma ReadColumnsSpecColumns(data: Bytes, start: nat, count: nat)
    requires start + count < |data| && start + count + CodedWidth(data[start + count]) <= |data|
    requires CodedValue(data[start + count..start + count + CodedWidth(data[start + count])]).Ok?
    ensures ReadColumnsSpec(data, start, count) ==
      Columns(data, Substr(data, start, Some(count)), count, start + count + CodedWidth(data[start + count]))
  {
  }

  /** Reads the metadata of `count` columns of the given types from the buffer's offset. */
  method ReadMetas(buf: Buffer, types: Bytes, count: nat) returns (r: Outcome<seq<Meta>>)
    modifies buf`offset
    ensures var spec := Columns(buf.data, types, count, old(buf.offset));
      (spec.Ok? ==> r == Ok(spec.value.0) && buf.offset == spec.value.1) && (spec.Err? ==> r == Err(spec.error))
  {
    ghost var p0 := buf.offset;
    var columns: seq<Meta> := [];
    var i := 0;
    while i < count
      invariant 0 <= i <= count
      invariant Columns(buf.data, types, i, p0) == Ok((columns, buf.offset))
    {
      var m := ReadMeta(buf, types, i, p0, columns);
      if m.Err? {
        ColumnsErrPersists(buf.data, types, i + 1, count, p0);
        return Err(m.error);
      }
      columns := columns + [m.value];
      i := i + 1;
    }
    return Ok(columns);
  }

  /** One step of the loop: column i's type, then its metadata bytes. */
  method ReadMeta(buf: Buffer, types: Bytes, i: nat, ghost p0: nat, ghost columns: seq<Meta>) returns (r: Outcome<Meta>)
    requires Columns(buf.data, types, i, p0) == Ok((columns, buf.offset))
    modifies buf`offset
    ensures r.Ok? ==> Columns(buf.data, types, i + 1, p0) == Ok((columns + [r.value], buf.offset))
    ensures r.Err? ==> Columns(buf.data, types, i + 1, p0) == Err(r.error)
  {
    var t := CT.From(TypeByte(types, i));
    if t.Err? {
      ColumnsStepErr(buf.data, types, i, p0, columns, buf.offset, t.error);
      return Err(t.error);
    }
    var width := MetaWidth(t.value);
    if buf.offset + width > |buf.data| {
      ColumnsStepErr(buf.data, types, i, p0, columns, buf.offset, ReadPastEnd);
      return Err(ReadPastEnd);
    }
    ghost var pos := buf.offset;
    var bytes := buf.Read(Some(width));
    assert bytes == buf.data[pos..pos + width];
    ColumnsStep(buf.data, types, i, p0, columns, pos, t.value, bytes);
    return Ok(DecodeMeta(t.value, bytes));
  }

  /** `readColumns`: the column types, the metadata length (ignored), then each column's metadata. */
  method ReadColumns(buf: Buffer, columnCount: nat) returns (r: Outcome<seq<Meta>>)
    modifies buf`offset
    ensures var spec := ReadColumnsSpec(buf.data, old(buf.offset), columnCount);
      (spec.Ok? ==> r == Ok(spec.value.0) && buf.offset == spec.value.1) && (spec.Err? ==> r == Err(spec.error))
  {
    ghost var start := buf.offset;
    var typesData := buf.Read(Some(columnCount));
    if buf.offset >= |buf.data| || buf.offset + CodedWidth(buf.data[buf.offset]) > |buf.data| {
      return Err(ReadPastEnd);
    }
    var length := buf.ReadCodedBinary();
    if length.Err? {
      return Err(length.error);
    }
    ReadColumnsSpecColumns(buf.data, start, columnCount);
    r := ReadMetas(buf, typesData, columnCount);
  }
}
