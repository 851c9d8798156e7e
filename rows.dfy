/**
 * The row images of WRITE_ROWS, UPDATE_ROWS and DELETE_ROWS events: the
 * present-columns bitmap, the null bitmap of each image, and the value of
 * every present, non-null column read with the width its type dictates.
 *
 * Each step is specified by a function over the event's bytes and a
 * position; the `RowFactory` methods walk the buffer and are proved equal to
 * those functions.
 */
module Rows {
  import opened Wrappers
  import opened Bytes
  import opened Errors
  import opened Buffers
  import opened Records
  import Bits
  import CT = ColumnTypes
  import Temporal

  // ---------------------------------------------------------------- bitmaps

  /** `ord($bitmap[$k >> 3])`: past the end PHP reads '' and `ord('')` is 0. */
  function BitmapByte(bitmap: Bytes, k: nat): Byte
  {
    if k / 8 < |bitmap| then bitmap[k / 8] else 0
  }

  /** `ord($bitmap[$k >> 3]) & (1 << ($k & 0x07))`: bit k, least significant first within each byte. */
  predicate BitmapBit(bitmap: Bytes, k: nat)
  {
    Bits.Bit(BitmapByte(bitmap, k), k % 8)
  }

  /** How many of the first n bits are set. */
  function PopCount(bitmap: Bytes, n: nat): (c: nat)
    ensures c <= n
  {
    if n == 0 then 0 else PopCount(bitmap, n - 1) + (if BitmapBit(bitmap, n - 1) then 1 else 0)
  }

  /** Bytes of an image's null bitmap: one bit per present column, rounded up to whole bytes. */
  function NullBitmapLength(bitmap: Bytes, columnCount: nat): (r: nat)
    ensures PopCount(bitmap, columnCount) <= 8 * r < PopCount(bitmap, columnCount) + 8
  {
    (PopCount(bitmap, columnCount) + 7) / 8
  }

  /** With every column present, the null bitmap has one bit per column. */
  lemma {:induction false} FullBitmapCount(bitmap: Bytes, n: nat)
    requires forall k :: 0 <= k < n ==> BitmapBit(bitmap, k)
    ensures PopCount(bitmap, n) == n
    ensures NullBitmapLength(bitmap, n) == (n + 7) / 8
  {
    if n > 0 {
      FullBitmapCount(bitmap, n - 1);
    }
  }

  /** A bitmap of 0xff bytes marks every column it covers as present. */
  lemma AllOnesBitmap(bitmap: Bytes, n: nat)
    requires n <= 8 * |bitmap| && forall j :: 0 <= j < |bitmap| ==> bitmap[j] == 0xff
    ensures forall k :: 0 <= k < n ==> BitmapBit(bitmap, k)
  {
    forall k | 0 <= k < n
      ensures BitmapBit(bitmap, k)
    {
      assert BitmapByte(bitmap, k) == 0xff;
      var b := k % 8;
      assert b == 0 || b == 1 || b == 2 || b == 3 || b == 4 || b == 5 || b == 6 || b == 7;
      assert Bits.Pow2(b) == [1, 2, 4, 8, 16, 32, 64, 128][b];
    }
  }

  /** `if ($s)` for a nullable string: null, '' and '0' are false. */
  predicate Truthy(s: Option<Bytes>)
  {
    s.Some? && s.value != [] && s.value != [0x30]
  }

  /** The after-image bitmap the decoder acts on, as written: only a truthy one counts. */
  function AfterBitmapAsWritten(columnsBitmapAfter: Option<Bytes>): Option<Bytes>
  {
    if Truthy(columnsBitmapAfter) then columnsBitmapAfter else None
  }

  /**
   * The after-image bitmap of an UPDATE_ROWS event is the single byte '0'
   * (0x30, columns 4 and 5 present) for a table of up to 8 columns whose
   * update changed those two: as written it is ignored.
   */
  lemma AfterBitmapZeroIgnored()
    ensures AfterBitmapAsWritten(Some([0x30])) == None
    ensures BitmapBit([0x30], 4) && BitmapBit([0x30], 5)
  {
    assert Bits.Pow2(4) == 16 && Bits.Pow2(5) == 32;
  }

  // ---------------------------------------------------------------- one field

  /** Bytes of an integer column type; 0 for the other types. */
  function IntegerWidth(t: CT.ColumnType): nat
  {
    match t
    case TINY => 1
    case SHORT => 2
    case INT24 => 3
    case LONG => 4
    case LONGLONG => 8
    case _ => 0
  }

  /** `$column->isSigned`: a property only integer columns have; PHP reads an undefined one as null. */
  predicate IsSigned(c: Column)
  {
    c.IntegerColumn? && c.isSigned
  }

  /** `$column->values`: only enum columns have values. */
  function EnumValues(c: Column): seq<Bytes>
  {
    if c.EnumColumn? then c.values else []
  }

  /** An integer column: `readIntN` when signed, else `readUIntN` (text from 2^63 up for 8 bytes). */
  function IntegerField(data: Bytes, pos: nat, w: nat, signed: bool): (r: Outcome<(Value, nat)>)
    requires w in {1, 2, 3, 4, 8}
    ensures r.Ok? <==> pos + w <= |data|
    ensures r.Ok? ==> r.value.1 == pos + w
    ensures r.Ok? && signed ==> r.value.0.Int? && -(Half(w) as int) <= r.value.0.i < Half(w)
    ensures r.Ok? && !signed && r.value.0.Int? ==> 0 <= r.value.0.i < Pow256(w)
  {
    if pos + w > |data| then Err(ReadPastEnd)
    else
      var u := LE(data[pos..pos + w]);
      SignedRange(u, w);
      if signed then Ok((Int(ToSigned(u, w)), pos + w))
      else if w == 8 && u >= Half(8) then Ok((Text(NatToDec(u)), pos + w))
      else Ok((Int(u), pos + w))
  }

  /** `readLengthString($size)`: a size-byte length, then that many bytes. */
  function LengthString(data: Bytes, pos: nat, size: int): (r: Outcome<(Value, nat)>)
    ensures !(1 <= size <= 7) ==> r == Err(UnexpectedValue)
    ensures 1 <= size <= 7 ==> (r.Ok? <==> pos + size <= |data|)
    ensures r.Ok? ==> var n := LE(data[pos..pos + size]);
      r.value.0 == Raw(Substr(data, pos + size, Some(n))) && r.value.1 == pos + size + n
  {
    if !(1 <= size <= 7) then Err(UnexpectedValue)
    else if pos + size > |data| then Err(ReadPastEnd)
    else
      var n := LE(data[pos..pos + size]);
      Ok((Raw(Substr(data, pos + size, Some(n))), pos + size + n))
  }

  /** The fractional suffix of a temporal value fits in the data. */
  predicate FracIn(data: Bytes, at: nat, fsp: int)
  {
    fsp > 0 && 1 <= Temporal.FracWidth(fsp) <= 5 ==> at + Temporal.FracWidth(fsp) <= |data|
  }

  /** DATE, DATETIME2 and TIMESTAMP2: the packed value, then the fraction for a positive precision. */
  function TemporalField(data: Bytes, pos: nat, t: CT.ColumnType, fsp: int): (r: Outcome<(Value, nat)>)
    requires t in {CT.DATE, CT.DATETIME2, CT.TIMESTAMP2}
    ensures r.Ok? ==> r.value.0.Text? && r.value.1 >= pos + 3
  {
    if t == CT.DATE then
      if pos + 3 > |data| then Err(ReadPastEnd)
      else Ok((Text(Temporal.DateValueText(LE(data[pos..pos + 3]))), pos + 3))
    else
      var w := if t == CT.DATETIME2 then 5 else 4;
      if pos + w > |data| || !FracIn(data, pos + w, fsp) then Err(ReadPastEnd)
      else match Temporal.FracSuffix(fsp, Temporal.FracBytes(data, pos + w, fsp))
        case Err(e) => Err(e)
        case Ok(frac) =>
          var text := if t == CT.DATETIME2 then Temporal.DateTimeText(Temporal.DateTime2Fields(data[pos..]))
                      else Temporal.TimestampText(ToSigned(BE(data[pos..pos + 4]), 4));
          Ok((Text(text + frac), pos + w + Temporal.FracConsumed(fsp)))
  }

  /** An ENUM column: the 1-based index of its value; an index with no value gives ''. */
  function EnumField(data: Bytes, pos: nat, size: int, values: seq<Bytes>): (r: Outcome<(Value, nat)>)
    ensures r.Ok? ==> r.value.0.Raw? && (r.value.0.bytes in values || r.value.0.bytes == [])
    ensures r.Ok? ==> 1 <= size <= 7 && pos + size <= |data| && r.value.1 == pos + size
    ensures r.Ok? && r.value.0.bytes != [] ==>
      var k := LE(data[pos..pos + size]); 1 <= k <= |values| && r.value.0.bytes == values[k - 1]
  {
    if !(1 <= size <= 7) then Err(UnexpectedValue)
    else if pos + size > |data| then Err(ReadPastEnd)
    else
      var v := LE(data[pos..pos + size]);
      Ok((Raw(if 1 <= v <= |values| then values[v - 1] else []), pos + size))
  }

  /**
   * One present, non-null field of column c at pos. A missing column has no
   * type and falls to the switch's default, and so does every type the
   * decoder has no branch for. A metadata property the column's metadata
   * lacks reads as PHP's null: a null width fails the typed reader.
   */
  function Field(data: Bytes, pos: nat, c: Option<Column>): (r: Outcome<(Value, nat)>)
    ensures r.Ok? ==> r.value.1 >= pos
    ensures c.None? ==> r == Err(UnexpectedValue)
  {
    if c.None? then Err(UnexpectedValue)
    else
      var col := c.value;
      var m := col.meta;
      match m.columnType
      case TINY | SHORT | INT24 | LONG | LONGLONG =>
        IntegerField(data, pos, IntegerWidth(m.columnType), IsSigned(col))
      case FLOAT =>
        if pos + 4 > |data| then Err(ReadPastEnd) else Ok((Raw(data[pos..pos + 4]), pos + 4))
      case DOUBLE =>
        if pos + 8 > |data| then Err(ReadPastEnd) else Ok((Raw(data[pos..pos + 8]), pos + 8))
      case BIT =>
        if !m.BitMeta? then Err(TypeError)
        else if pos + m.bytes > |data| then Err(ReadPastEnd)
        else Ok((Text(BitsText(data[pos..pos + m.bytes], m.bytes, m.bits)), pos + m.bytes))
      case VARCHAR | STRING =>
        LengthString(data, pos, if m.TextMeta? && m.maxLength > 255 then 2 else 1)
      case BLOB =>
        if !m.BlobMeta? then Err(TypeError) else LengthString(data, pos, m.length)
      case DATE =>
        TemporalField(data, pos, m.columnType, 0)
      case DATETIME2 | TIMESTAMP2 =>
        if !m.TimeMeta? then Err(TypeError) else TemporalField(data, pos, m.columnType, m.fsp)
      case ENUM =>
        if !m.SizedMeta? then Err(TypeError) else EnumField(data, pos, m.size, EnumValues(col))
      case _ => Err(UnexpectedValue)
  }

  /** VARCHAR and STRING values carry a 1-byte length up to a maximum length of 255, else a 2-byte one. */
  lemma TextPrefix(data: Bytes, pos: nat, c: Column)
    requires c.meta.columnType in {CT.VARCHAR, CT.STRING} && c.meta.TextMeta?
    requires Field(data, pos, Some(c)).Ok?
    ensures var size := if c.meta.maxLength <= 255 then 1 else 2;
      Field(data, pos, Some(c)) == LengthString(data, pos, size)
  {
  }

  // ---------------------------------------------------------------- one image

  /** `$row[$name] = $value`: an existing key keeps its place and takes the new value; a new key goes last. */
  function Put(image: Image, name: Bytes, v: Value): (r: Image)
  {
    if image == [] then [(name, v)]
    else if image[0].0 == name then [(name, v)] + image[1..]
    else [image[0]] + Put(image[1..], name, v)
  }

  /** The keys of an image, in order. */
  function Names(image: Image): (r: seq<Bytes>)
    ensures |r| == |image|
  {
    if image == [] then [] else [image[0].0] + Names(image[1..])
  }

  /** A new key is appended. */
  lemma {:induction false} PutFresh(image: Image, name: Bytes, v: Value)
    requires name !in Names(image)
    ensures Put(image, name, v) == image + [(name, v)]
  {
    if image != [] {
      assert Names(image) == [image[0].0] + Names(image[1..]);
      PutFresh(image[1..], name, v);
      assert [image[0]] + (image[1..] + [(name, v)]) == image + [(name, v)];
    }
  }

  lemma {:induction false} NamesAppend(image: Image, name: Bytes, v: Value)
    ensures Names(image + [(name, v)]) == Names(image) + [name]
  {
    if image != [] {
      assert (image + [(name, v)])[1..] == image[1..] + [(name, v)];
      NamesAppend(image[1..], name, v);
    }
  }

  /** `$columns[$i]`, null past the table map's columns. */
  function ColumnAt(columns: seq<Column>, i: nat): Option<Column>
  {
    if i < |columns| then Some(columns[i]) else None
  }

  /** `$column->name`; a missing column's name is null, which as an array key is ''. */
  function NameOf(c: Option<Column>): Bytes
  {
    if c.Some? then c.value.name else []
  }

  /** A reader of one present, non-null field: its value and the offset after it, never before where it started. */
  type FieldReader = read: (Bytes, nat, Option<Column>) -> Outcome<(Value, nat)>
    | forall data, pos, c :: read(data, pos, c).Ok? ==> read(data, pos, c).value.1 >= pos
    witness Field

  /**
   * `read` is the field decoder wherever the decoder is consulted. The
   * trigger keeps the decoder's body out of the column loop's reasoning.
   */
  ghost predicate IsFieldDecoder(read: FieldReader)
  {
    forall data, pos, c {:trigger Field(data, pos, c)} :: read(data, pos, c) == Field(data, pos, c)
  }

  /** The state of the column loop: the image so far, the running null index and the offset. */
  datatype Walk = Walk(image: Image, nullIndex: nat, pos: nat)

  /** Whether column i of an image is present: bit i of the bitmap, or, as written, the bit at the running null index. */
  predicate Present(bitmap: Bytes, w: Walk, i: nat, asWritten: bool)
  {
    BitmapBit(bitmap, if asWritten then w.nullIndex else i)
  }

  /**
   * Column i of an image. An absent column is null and reads nothing; a
   * present one consumes the next bit of the null bitmap, and reads its value
   * unless that bit is set.
   */
  function ImageStep(read: FieldReader, data: Bytes, columns: seq<Column>, bitmap: Bytes, nullBitmap: Bytes, w: Walk, i: nat, asWritten: bool)
    : (r: Outcome<Walk>)
    ensures r.Ok? ==> r.value.pos >= w.pos
    ensures r.Ok? ==> r.value.nullIndex == w.nullIndex + (if Present(bitmap, w, i, asWritten) then 1 else 0)
    ensures !Present(bitmap, w, i, asWritten) || BitmapBit(nullBitmap, w.nullIndex) ==>
      r == Ok(Walk(Put(w.image, NameOf(ColumnAt(columns, i)), Null),
                   w.nullIndex + (if Present(bitmap, w, i, asWritten) then 1 else 0), w.pos))
  {
    var c := ColumnAt(columns, i);
    if !Present(bitmap, w, i, asWritten) then
      Ok(w.(image := Put(w.image, NameOf(c), Null)))
    else if BitmapBit(nullBitmap, w.nullIndex) then
      Ok(Walk(Put(w.image, NameOf(c), Null), w.nullIndex + 1, w.pos))
    else match read(data, w.pos, c)
      case Err(e) => Err(e)
      case Ok((v, next)) => Ok(Walk(Put(w.image, NameOf(c), v), w.nullIndex + 1, next))
  }

  /** The first n columns of an image whose values start at `start`. */
  function ImageWalk(read: FieldReader, data: Bytes, columns: seq<Column>, bitmap: Bytes, nullBitmap: Bytes, start: nat, n: nat, asWritten: bool)
    : (r: Outcome<Walk>)
    ensures r.Ok? ==> r.value.pos >= start
  {
    if n == 0 then Ok(Walk([], 0, start))
    else match ImageWalk(read, data, columns, bitmap, nullBitmap, start, n - 1, asWritten)
      case Err(e) => Err(e)
      case Ok(w) => ImageStep(read, data, columns, bitmap, nullBitmap, w, n - 1, asWritten)
  }

  /** One image at pos: its null bitmap, then its columns; the image and the offset after it. */
  function ImageAt(read: FieldReader, data: Bytes, pos: nat, columns: seq<Column>, columnCount: nat, bitmap: Bytes, nullLength: nat)
    : (r: Outcome<(Image, nat)>)
    ensures r.Ok? ==> r.value.1 >= pos + nullLength
  {
    var nullBitmap := Substr(data, pos, Some(nullLength));
    match ImageWalk(read, data, columns, bitmap, nullBitmap, pos + nullLength, columnCount, false)
    case Err(e) => Err(e)
    case Ok(w) => Ok((w.image, w.pos))
  }

  /** One row at pos: a single image, or the before and after images when there is an after bitmap. */
  function RowAt(data: Bytes, pos: nat, columns: seq<Column>, columnCount: nat,
                 bitmap: Bytes, nullLength: nat, after: Option<Bytes>, nullLengthAfter: nat)
    : (r: Outcome<(Row, nat)>)
    ensures r.Ok? ==> r.value.1 >= pos && (r.value.0.Pair? <==> after.Some?)
  {
    match ImageAt(Field, data, pos, columns, columnCount, bitmap, nullLength)
    case Err(e) => Err(e)
    case Ok((before, next)) =>
      if after.None? then Ok((Single(before), next))
      else match ImageAt(Field, data, next, columns, columnCount, after.value, nullLengthAfter)
        case Err(e) => Err(e)
        case Ok((image, last)) => Ok((Pair(before, image), last))
  }

  /**
   * Rows from pos until the offset reaches the payload size. A row that
   * reads nothing would make the decoder loop forever; it stops with Stalled.
   */
  function RowsFrom(data: Bytes, payloadSize: int, pos: nat, columns: seq<Column>, columnCount: nat,
                    bitmap: Bytes, nullLength: nat, after: Option<Bytes>, nullLengthAfter: nat)
    : (r: Outcome<seq<Row>>)
    decreases payloadSize - pos
    ensures r.Ok? ==> forall j :: 0 <= j < |r.value| ==> (r.value[j].Pair? <==> after.Some?)
  {
    if payloadSize <= pos then Ok([])
    else match RowAt(data, pos, columns, columnCount, bitmap, nullLength, after, nullLengthAfter)
      case Err(e) => Err(e)
      case Ok((row, next)) =>
        if next == pos then Err(Stalled)
        else Prepend([row], RowsFrom(data, payloadSize, next, columns, columnCount, bitmap, nullLength, after, nullLengthAfter))
  }

  /** `readRows`: the null-bitmap lengths from the bitmaps, then the rows. */
  function RowsSpec(data: Bytes, payloadSize: int, pos: nat, columns: seq<Column>, columnCount: nat,
                    columnsBitmap: Bytes, columnsBitmapAfter: Option<Bytes>): (r: Outcome<seq<Row>>)
    ensures r.Ok? ==> forall j :: 0 <= j < |r.value| ==> (r.value[j].Pair? <==> columnsBitmapAfter.Some?)
  {
    var nullLength := NullBitmapLength(columnsBitmap, columnCount);
    var nullLengthAfter := if columnsBitmapAfter.Some? then NullBitmapLength(columnsBitmapAfter.value, columnCount) else 0;
    RowsFrom(data, payloadSize, pos, columns, columnCount, columnsBitmap, nullLength, columnsBitmapAfter, nullLengthAfter)
  }

  // ---------------------------------------------------------------- properties of the images

  /** Each present column takes one bit of the null bitmap, so the bitmap read holds every bit the walk consults. */
  lemma {:induction false} NullIndexCounts(read: FieldReader, data: Bytes, columns: seq<Column>, bitmap: Bytes, nullBitmap: Bytes, start: nat, n: nat)
    requires ImageWalk(read, data, columns, bitmap, nullBitmap, start, n, false).Ok?
    ensures ImageWalk(read, data, columns, bitmap, nullBitmap, start, n, false).value.nullIndex == PopCount(bitmap, n)
    ensures PopCount(bitmap, n) <= 8 * NullBitmapLength(bitmap, n)
  {
    if n > 0 {
      NullIndexCounts(read, data, columns, bitmap, nullBitmap, start, n - 1);
    }
  }

  /** With every column present, testing the running null index reads the same bits as testing the column index. */
  lemma {:induction false} FullImageAsWritten(read: FieldReader, data: Bytes, columns: seq<Column>, bitmap: Bytes, nullBitmap: Bytes, start: nat, n: nat)
    requires forall k :: 0 <= k < n ==> BitmapBit(bitmap, k)
    ensures ImageWalk(read, data, columns, bitmap, nullBitmap, start, n, true) == ImageWalk(read, data, columns, bitmap, nullBitmap, start, n, false)
    ensures ImageWalk(read, data, columns, bitmap, nullBitmap, start, n, false).Ok? ==>
      ImageWalk(read, data, columns, bitmap, nullBitmap, start, n, false).value.nullIndex == n
  {
    if n > 0 {
      FullImageAsWritten(read, data, columns, bitmap, nullBitmap, start, n - 1);
      var prev := ImageWalk(read, data, columns, bitmap, nullBitmap, start, n - 1, false);
      if prev.Ok? {
        var w := prev.value;
        assert Present(bitmap, w, n - 1, true) == Present(bitmap, w, n - 1, false);
        assert ImageStep(read, data, columns, bitmap, nullBitmap, w, n - 1, true)
            == ImageStep(read, data, columns, bitmap, nullBitmap, w, n - 1, false);
      }
    }
  }

  /**
   * Column 0 absent, column 1 present (bitmap 0x02): as written both columns
   * are judged by bit 0, so column 1's byte is left unread; judged by bit i,
   * column 1 reads its value.
   */
  lemma PresenceAsWrittenSkipsColumn()
    ensures var columns := [IntegerColumn(0, CommonMeta(CT.TINY), [0x61], false),
                            IntegerColumn(1, CommonMeta(CT.TINY), [0x62], false)];
      && ImageWalk(Field, [7], columns, [0x02], [0x00], 0, 2, true) == Ok(Walk([([0x61], Null), ([0x62], Null)], 0, 0))
      && ImageWalk(Field, [7], columns, [0x02], [0x00], 0, 2, false) == Ok(Walk([([0x61], Null), ([0x62], Int(7))], 1, 1))
  {
    var columns := [IntegerColumn(0, CommonMeta(CT.TINY), [0x61], false),
                    IntegerColumn(1, CommonMeta(CT.TINY), [0x62], false)];
    assert Bits.Pow2(1) == 2;
    assert !BitmapBit([0x02], 0) && BitmapBit([0x02], 1) && !BitmapBit([0x00], 0);
    var a: Image := [([0x61], Null)];
    var w := Walk(a, 0, 0);
    assert Put([], [0x61], Null) == a;
    assert ImageStep(Field, [7], columns, [0x02], [0x00], Walk([], 0, 0), 0, true) == Ok(w);
    assert ImageStep(Field, [7], columns, [0x02], [0x00], Walk([], 0, 0), 0, false) == Ok(w);
    assert ImageWalk(Field, [7], columns, [0x02], [0x00], 0, 1, true) == Ok(w);
    assert ImageWalk(Field, [7], columns, [0x02], [0x00], 0, 1, false) == Ok(w);
    assert Put(a, [0x62], Null) == [([0x61], Null), ([0x62], Null)];
    assert ImageStep(Field, [7], columns, [0x02], [0x00], w, 1, true) == Ok(Walk([([0x61], Null), ([0x62], Null)], 0, 0));
    assert Put(a, [0x62], Int(7)) == [([0x61], Null), ([0x62], Int(7))];
    TinyField();
    assert ImageStep(Field, [7], columns, [0x02], [0x00], w, 1, false) == Ok(Walk([([0x61], Null), ([0x62], Int(7))], 1, 1));
  }

  /** An unsigned TINY column holding 7 reads as 7 and takes one byte. */
  lemma TinyField()
    ensures Field([7], 0, Some(IntegerColumn(1, CommonMeta(CT.TINY), [0x62], false))) == Ok((Int(7), 1))
  {
    assert [7][0..1] == [7] && LE([7]) == 7;
  }

  /** Absent and null columns read nothing: an image of no read values ends where its values start. */
  lemma {:induction false} NullsReadNothing(read: FieldReader, data: Bytes, columns: seq<Column>, bitmap: Bytes, nullBitmap: Bytes, start: nat, n: nat)
    requires ImageWalk(read, data, columns, bitmap, nullBitmap, start, n, false).Ok?
    requires forall k :: 0 <= k < n ==> !BitmapBit(bitmap, k) || BitmapBit(nullBitmap, PopCount(bitmap, k))
    ensures ImageWalk(read, data, columns, bitmap, nullBitmap, start, n, false).value.pos == start
  {
    if n > 0 {
      NullsReadNothing(read, data, columns, bitmap, nullBitmap, start, n - 1);
      NullIndexCounts(read, data, columns, bitmap, nullBitmap, start, n - 1);
      NullStep(read, data, columns, bitmap, nullBitmap, start, n - 1);
    }
  }

  /** An absent or null column leaves the offset where it was. */
  lemma NullStep(read: FieldReader, data: Bytes, columns: seq<Column>, bitmap: Bytes, nullBitmap: Bytes, start: nat, i: nat)
    requires ImageWalk(read, data, columns, bitmap, nullBitmap, start, i, false).Ok?
    requires var w := ImageWalk(read, data, columns, bitmap, nullBitmap, start, i, false).value;
      !BitmapBit(bitmap, i) || BitmapBit(nullBitmap, w.nullIndex)
    ensures ImageWalk(read, data, columns, bitmap, nullBitmap, start, i + 1, false).Ok?
    ensures ImageWalk(read, data, columns, bitmap, nullBitmap, start, i + 1, false).value.pos
         == ImageWalk(read, data, columns, bitmap, nullBitmap, start, i, false).value.pos
  {
  }

  /** The names of the first n columns, `$column->name` of each (null past the table map's columns). */
  function ColumnNames(columns: seq<Column>, n: nat): (r: seq<Bytes>)
    ensures |r| == n
  {
    if n == 0 then [] else ColumnNames(columns, n - 1) + [NameOf(ColumnAt(columns, n - 1))]
  }

  /** With distinct column names, an image has one entry per column, keyed by the column names in order. */
  lemma {:induction false} ImageNames(read: FieldReader, data: Bytes, columns: seq<Column>, bitmap: Bytes, nullBitmap: Bytes, start: nat, n: nat, asWritten: bool)
    requires forall j, k :: 0 <= j < k < n ==> NameOf(ColumnAt(columns, j)) != NameOf(ColumnAt(columns, k))
    requires ImageWalk(read, data, columns, bitmap, nullBitmap, start, n, asWritten).Ok?
    ensures Names(ImageWalk(read, data, columns, bitmap, nullBitmap, start, n, asWritten).value.image) == ColumnNames(columns, n)
  {
    if n > 0 {
      WalkPrefixOk(read, data, columns, bitmap, nullBitmap, start, n, asWritten);
      ImageNames(read, data, columns, bitmap, nullBitmap, start, n - 1, asWritten);
      FreshName(columns, n);
      NamesGrow(read, data, columns, bitmap, nullBitmap, start, n, asWritten);
    }
  }

  /** A walk over n columns that succeeds succeeded over the first n - 1. */
  lemma WalkPrefixOk(read: FieldReader, data: Bytes, columns: seq<Column>, bitmap: Bytes, nullBitmap: Bytes, start: nat, n: nat, asWritten: bool)
    requires n > 0 && ImageWalk(read, data, columns, bitmap, nullBitmap, start, n, asWritten).Ok?
    ensures ImageWalk(read, data, columns, bitmap, nullBitmap, start, n - 1, asWritten).Ok?
  {
  }

  /** Column n - 1 under a name not yet in the image appends that name. */
  lemma NamesGrow(read: FieldReader, data: Bytes, columns: seq<Column>, bitmap: Bytes, nullBitmap: Bytes, start: nat, n: nat, asWritten: bool)
    requires n > 0 && ImageWalk(read, data, columns, bitmap, nullBitmap, start, n, asWritten).Ok?
    requires ImageWalk(read, data, columns, bitmap, nullBitmap, start, n - 1, asWritten).Ok?
    requires Names(ImageWalk(read, data, columns, bitmap, nullBitmap, start, n - 1, asWritten).value.image) == ColumnNames(columns, n - 1)
    requires NameOf(ColumnAt(columns, n - 1)) !in ColumnNames(columns, n - 1)
    ensures Names(ImageWalk(read, data, columns, bitmap, nullBitmap, start, n, asWritten).value.image) == ColumnNames(columns, n)
  {
    var w := ImageWalk(read, data, columns, bitmap, nullBitmap, start, n - 1, asWritten).value;
    StepNames(read, data, columns, bitmap, nullBitmap, w, n - 1, asWritten);
  }

  /** The last of n distinctly named columns is not among the names before it. */
  lemma FreshName(columns: seq<Column>, n: nat)
    requires n > 0 && forall j, k :: 0 <= j < k < n ==> NameOf(ColumnAt(columns, j)) != NameOf(ColumnAt(columns, k))
    ensures NameOf(ColumnAt(columns, n - 1)) !in ColumnNames(columns, n - 1)
  {
    var names := ColumnNames(columns, n - 1);
    forall j | 0 <= j < n - 1
      ensures names[j] != NameOf(ColumnAt(columns, n - 1))
    {
      ColumnNameAt(columns, n - 1, j);
    }
  }

  /** A step under a fresh name adds that name after the others. */
  lemma StepNames(read: FieldReader, data: Bytes, columns: seq<Column>, bitmap: Bytes, nullBitmap: Bytes, w: Walk, i: nat, asWritten: bool)
    requires ImageStep(read, data, columns, bitmap, nullBitmap, w, i, asWritten).Ok?
    requires NameOf(ColumnAt(columns, i)) !in Names(w.image)
    ensures Names(ImageStep(read, data, columns, bitmap, nullBitmap, w, i, asWritten).value.image) == Names(w.image) + [NameOf(ColumnAt(columns, i))]
  {
    var v := StepValue(read, data, columns, bitmap, nullBitmap, w, i, asWritten);
    PutFresh(w.image, NameOf(ColumnAt(columns, i)), v);
    NamesAppend(w.image, NameOf(ColumnAt(columns, i)), v);
  }

  lemma {:induction false} ColumnNameAt(columns: seq<Column>, n: nat, j: nat)
    requires j < n
    ensures ColumnNames(columns, n)[j] == NameOf(ColumnAt(columns, j))
  {
    if j < n - 1 {
      ColumnNameAt(columns, n - 1, j);
    }
  }

  /** Once a column fails, the rest of the image fails the same way. */
  lemma {:induction false} ImageWalkErrPersists(read: FieldReader, data: Bytes, columns: seq<Column>, bitmap: Bytes, nullBitmap: Bytes,
                                                start: nat, k: nat, n: nat, asWritten: bool)
    requires k <= n && ImageWalk(read, data, columns, bitmap, nullBitmap, start, k, asWritten).Err?
    ensures ImageWalk(read, data, columns, bitmap, nullBitmap, start, n, asWritten) == ImageWalk(read, data, columns, bitmap, nullBitmap, start, k, asWritten)
  {
    if k < n {
      ImageWalkErrPersists(read, data, columns, bitmap, nullBitmap, start, k, n - 1, asWritten);
    }
  }

  /** The value a successful step puts under the column's name. */
  function StepValue(read: FieldReader, data: Bytes, columns: seq<Column>, bitmap: Bytes, nullBitmap: Bytes, w: Walk, i: nat, asWritten: bool)
    : (v: Value)
    requires ImageStep(read, data, columns, bitmap, nullBitmap, w, i, asWritten).Ok?
    ensures ImageStep(read, data, columns, bitmap, nullBitmap, w, i, asWritten).value.image == Put(w.image, NameOf(ColumnAt(columns, i)), v)
  {
    if !Present(bitmap, w, i, asWritten) || BitmapBit(nullBitmap, w.nullIndex) then Null
    else read(data, w.pos, ColumnAt(columns, i)).value.0
  }

  /** A column that decodes extends the image walk by one step. */
  lemma ImageWalkNext(read: FieldReader, data: Bytes, columns: seq<Column>, bitmap: Bytes, nullBitmap: Bytes, start: nat, i: nat, w: Walk, w': Walk)
    requires ImageWalk(read, data, columns, bitmap, nullBitmap, start, i, false) == Ok(w)
    requires ImageStep(read, data, columns, bitmap, nullBitmap, w, i, false) == Ok(w')
    ensures ImageWalk(read, data, columns, bitmap, nullBitmap, start, i + 1, false) == Ok(w')
  {
  }

  /** A finished walk over the columns is the image ImageAt describes. */
  lemma ImageDone(read: FieldReader, data: Bytes, pos: nat, columns: seq<Column>, columnCount: nat, bitmap: Bytes, nullLength: nat,
                  nullBitmap: Bytes, w: Walk)
    requires nullBitmap == Substr(data, pos, Some(nullLength))
    requires ImageWalk(read, data, columns, bitmap, nullBitmap, pos + nullLength, columnCount, false) == Ok(w)
    ensures ImageAt(read, data, pos, columns, columnCount, bitmap, nullLength) == Ok((w.image, w.pos))
  {
  }

  /** An image walk that fails fails the image ImageAt describes. */
  lemma ImageFails(read: FieldReader, data: Bytes, pos: nat, columns: seq<Column>, columnCount: nat, bitmap: Bytes, nullLength: nat,
                   nullBitmap: Bytes, e: Exception)
    requires nullBitmap == Substr(data, pos, Some(nullLength))
    requires ImageWalk(read, data, columns, bitmap, nullBitmap, pos + nullLength, columnCount, false) == Err(e)
    ensures ImageAt(read, data, pos, columns, columnCount, bitmap, nullLength) == Err(e)
  {
  }

  /** A column that fails to decode fails the whole image with its error. */
  lemma ImageWalkFails(read: FieldReader, data: Bytes, columns: seq<Column>, bitmap: Bytes, nullBitmap: Bytes, start: nat, i: nat, n: nat,
                       w: Walk, e: Exception)
    requires i < n && ImageWalk(read, data, columns, bitmap, nullBitmap, start, i, false) == Ok(w)
    requires ImageStep(read, data, columns, bitmap, nullBitmap, w, i, false) == Err(e)
    ensures ImageWalk(read, data, columns, bitmap, nullBitmap, start, n, false) == Err(e)
  {
    assert ImageWalk(read, data, columns, bitmap, nullBitmap, start, i + 1, false) == Err(e);
    ImageWalkErrPersists(read, data, columns, bitmap, nullBitmap, start, i + 1, n, false);
  }

  // ---------------------------------------------------------------- the decoder

  /** The null-bitmap length loop: one count per set bit among the first columnCount, then rounded up to bytes. */
  method NullBitmapLengthOf(bitmap: Bytes, columnCount: nat) returns (len: nat)
    ensures len == NullBitmapLength(bitmap, columnCount)
  {
    var count := 0;
    var i := 0;
    while i < columnCount
      invariant i <= columnCount && count == PopCount(bitmap, i)
    {
      Bits.AndPow2(BitmapByte(bitmap, i), i % 8);
      count := count + if Bits.And(BitmapByte(bitmap, i), Bits.Pow2(i % 8)) != 0 then 1 else 0;
      i := i + 1;
    }
    len := (count + 7) / 8;
  }

  /** An integer field: the signed reader for a signed column, else the unsigned one. */
  method ReadIntegerField(buf: Buffer, w: nat, signed: bool) returns (r: Outcome<Value>)
    requires w in {1, 2, 3, 4, 8}
    modifies buf`offset
    ensures var spec := IntegerField(buf.data, old(buf.offset), w, signed);
      (spec.Ok? ==> r == Ok(spec.value.0) && buf.offset == spec.value.1) && (spec.Err? ==> r == Err(spec.error))
  {
    if buf.offset + w > |buf.data| {
      return Err(ReadPastEnd);
    }
    ghost var s := buf.data[buf.offset..buf.offset + w];
    if w == 1 {
      assert LE(s) == s[0];
      if signed {
        var v := buf.ReadInt8();
        return Ok(Int(v));
      }
      var v := buf.ReadUInt8();
      return Ok(Int(v));
    } else if w == 2 {
      if signed {
        var v := buf.ReadInt16();
        return Ok(Int(v));
      }
      var v := buf.ReadUInt16();
      return Ok(Int(v));
    } else if w == 3 {
      if signed {
        var v := buf.ReadInt24();
        return Ok(Int(v));
      }
      var v := buf.ReadUInt24();
      return Ok(Int(v));
    } else if w == 4 {
      if signed {
        var v := buf.ReadInt32();
        return Ok(Int(v));
      }
      var v := buf.ReadUInt32();
      return Ok(Int(v));
    }
    if signed {
      var v := buf.ReadInt64();
      return Ok(Int(v));
    }
    var v := buf.ReadUInt64();
    match v
    case AsInt(i) => return Ok(Int(i));
    case AsText(t) => return Ok(Text(t));
  }

  /** `readLengthString($size)`, failing on a length prefix past the data. */
  method ReadLengthField(buf: Buffer, size: int) returns (r: Outcome<Value>)
    modifies buf`offset
    ensures var spec := LengthString(buf.data, old(buf.offset), size);
      (spec.Ok? ==> r == Ok(spec.value.0) && buf.offset == spec.value.1) && (spec.Err? ==> r == Err(spec.error))
  {
    if 1 <= size <= 7 && buf.offset + size > |buf.data| {
      return Err(ReadPastEnd);
    }
    var s := buf.ReadLengthString(size);
    if s.Err? {
      return Err(s.error);
    }
    return Ok(Raw(s.value));
  }

  /** DATE, DATETIME2 and TIMESTAMP2 through the temporal readers. */
  method ReadTemporalField(buf: Buffer, t: CT.ColumnType, fsp: int) returns (r: Outcome<Value>)
    requires t in {CT.DATE, CT.DATETIME2, CT.TIMESTAMP2}
    modifies buf`offset
    ensures var spec := TemporalField(buf.data, old(buf.offset), t, fsp);
      (spec.Ok? ==> r == Ok(spec.value.0) && buf.offset == spec.value.1) && (spec.Err? ==> r == Err(spec.error))
  {
    if t == CT.DATE {
      if buf.offset + 3 > |buf.data| {
        return Err(ReadPastEnd);
      }
      var text := Temporal.ReadDate(buf);
      return Ok(Text(text));
    }
    var w := if t == CT.DATETIME2 then 5 else 4;
    if buf.offset + w > |buf.data| || !FracIn(buf.data, buf.offset + w, fsp) {
      return Err(ReadPastEnd);
    }
    var text;
    if t == CT.DATETIME2 {
      text := Temporal.ReadDateTime2(buf, fsp);
    } else {
      text := Temporal.ReadTimestamp2(buf, fsp);
    }
    if text.Err? {
      return Err(text.error);
    }
    return Ok(Text(text.value));
  }

  /** `$column->values[$buffer->readUIntBySize($size) - 1] ?? ''` */
  method ReadEnumField(buf: Buffer, size: int, values: seq<Bytes>) returns (r: Outcome<Value>)
    modifies buf`offset
    ensures var spec := EnumField(buf.data, old(buf.offset), size, values);
      (spec.Ok? ==> r == Ok(spec.value.0) && buf.offset == spec.value.1) && (spec.Err? ==> r == Err(spec.error))
  {
    if 1 <= size <= 7 && buf.offset + size > |buf.data| {
      return Err(ReadPastEnd);
    }
    var v := buf.ReadUIntBySize(size);
    if v.Err? {
      return Err(v.error);
    }
    var index := v.value as int - 1;
    return Ok(Raw(if 0 <= index < |values| then values[index] else []));
  }

  /** The decoder's switch on the column's type, for a present, non-null field. */
  method ReadField(buf: Buffer, c: Option<Column>) returns (r: Outcome<Value>)
    modifies buf`offset
    ensures var spec := Field(buf.data, old(buf.offset), c);
      (spec.Ok? ==> r == Ok(spec.value.0) && buf.offset == spec.value.1) && (spec.Err? ==> r == Err(spec.error))
  {
    if c.None? {
      return Err(UnexpectedValue);
    }
    var t := c.value.meta.columnType;
    if IntegerWidth(t) > 0 {
      r := ReadIntegerField(buf, IntegerWidth(t), IsSigned(c.value));
    } else if t == CT.FLOAT || t == CT.DOUBLE {
      var w := if t == CT.FLOAT then 4 else 8;
      if buf.offset + w > |buf.data| {
        return Err(ReadPastEnd);
      }
      var b := buf.Read(Some(w));
      r := Ok(Raw(b));
    } else {
      r := ReadSizedField(buf, c.value);
    }
  }

  /** The branches of the switch whose width comes from the column's metadata. */
  method ReadSizedField(buf: Buffer, c: Column) returns (r: Outcome<Value>)
    requires IntegerWidth(c.meta.columnType) == 0 && c.meta.columnType !in {CT.FLOAT, CT.DOUBLE}
    modifies buf`offset
    ensures var spec := Field(buf.data, old(buf.offset), Some(c));
      (spec.Ok? ==> r == Ok(spec.value.0) && buf.offset == spec.value.1) && (spec.Err? ==> r == Err(spec.error))
  {
    var m := c.meta;
    var t := m.columnType;
    assert !t.TINY? && !t.SHORT? && !t.INT24? && !t.LONG? && !t.LONGLONG?;
    if t == CT.BIT {
      if !m.BitMeta? {
        return Err(TypeError);
      }
      if buf.offset + m.bytes > |buf.data| {
        return Err(ReadPastEnd);
      }
      var v := ReadBitField(buf, m.bytes, m.bits);
      r := Ok(v);
    } else if t == CT.VARCHAR || t == CT.STRING {
      r := ReadLengthField(buf, if m.TextMeta? && m.maxLength > 255 then 2 else 1);
    } else if t == CT.BLOB {
      if !m.BlobMeta? {
        return Err(TypeError);
      }
      r := ReadLengthField(buf, m.length);
    } else {
      r := ReadTimedField(buf, c);
    }
  }

  /** A BIT field: its bytes as text, one character per bit. */
  method ReadBitField(buf: Buffer, bytes: nat, bits: int) returns (v: Value)
    requires buf.offset + bytes <= |buf.data|
    modifies buf`offset
    ensures buf.offset == old(buf.offset) + bytes
    ensures v == Text(BitsText(buf.data[old(buf.offset)..buf.offset], bytes, bits))
  {
    var text := buf.ReadBit(bytes, bits);
    v := Text(text);
  }

  /** The remaining branches of the switch: the temporal types, ENUM, and the types the decoder does not support. */
  method ReadTimedField(buf: Buffer, c: Column) returns (r: Outcome<Value>)
    requires IntegerWidth(c.meta.columnType) == 0
    requires c.meta.columnType !in {CT.FLOAT, CT.DOUBLE, CT.BIT, CT.VARCHAR, CT.STRING, CT.BLOB}
    modifies buf`offset
    ensures var spec := Field(buf.data, old(buf.offset), Some(c));
      (spec.Ok? ==> r == Ok(spec.value.0) && buf.offset == spec.value.1) && (spec.Err? ==> r == Err(spec.error))
  {
    var m := c.meta;
    var t := m.columnType;
    assert !t.TINY? && !t.SHORT? && !t.INT24? && !t.LONG? && !t.LONGLONG?;
    if t == CT.DATE {
      r := ReadTemporalField(buf, t, 0);
    } else if t == CT.DATETIME2 || t == CT.TIMESTAMP2 {
      if !m.TimeMeta? {
        return Err(TypeError);
      }
      r := ReadTemporalField(buf, t, m.fsp);
    } else if t == CT.ENUM {
      if !m.SizedMeta? {
        return Err(TypeError);
      }
      r := ReadEnumField(buf, m.size, EnumValues(c));
    } else {
      r := Err(UnexpectedValue);
    }
  }

  /** Column i of an image: absent, null, or its value read at the offset. */
  method ReadColumn(buf: Buffer, columns: seq<Column>, bitmap: Bytes, nullBitmap: Bytes, image: Image, nullIndex: nat, i: nat,
                    ghost read: FieldReader)
    returns (r: Outcome<(Image, nat)>)
    requires IsFieldDecoder(read)
    modifies buf`offset
    ensures var spec := ImageStep(read, buf.data, columns, bitmap, nullBitmap, Walk(image, nullIndex, old(buf.offset)), i, false);
      (spec.Ok? ==> r == Ok((spec.value.image, spec.value.nullIndex)) && buf.offset == spec.value.pos) &&
      (spec.Err? ==> r == Err(spec.error))
  {
    var column := ColumnAt(columns, i);
    Bits.AndPow2(BitmapByte(bitmap, i), i % 8);
    Bits.AndPow2(BitmapByte(nullBitmap, nullIndex), nullIndex % 8);
    if Bits.And(BitmapByte(bitmap, i), Bits.Pow2(i % 8)) == 0 {
      return Ok((Put(image, NameOf(column), Null), nullIndex));
    }
    if Bits.And(BitmapByte(nullBitmap, nullIndex), Bits.Pow2(nullIndex % 8)) != 0 {
      return Ok((Put(image, NameOf(column), Null), nullIndex + 1));
    }
    var v := ReadField(buf, column);
    if v.Err? {
      return Err(v.error);
    }
    return Ok((Put(image, NameOf(column), v.value), nullIndex + 1));
  }

  /** One image: its null bitmap, then the column loop with the running null index. */
  method ReadImage(buf: Buffer, columns: seq<Column>, columnCount: nat, bitmap: Bytes, nullLength: nat,
                   ghost read: FieldReader)
    returns (r: Outcome<Image>)
    requires IsFieldDecoder(read)
    modifies buf`offset
    ensures var spec := ImageAt(read, buf.data, old(buf.offset), columns, columnCount, bitmap, nullLength);
      (spec.Ok? ==> r == Ok(spec.value.0) && buf.offset == spec.value.1) && (spec.Err? ==> r == Err(spec.error))
  {
    ghost var start := buf.offset;
    var nullBitmap := buf.Read(Some(nullLength));
    assert nullBitmap == Substr(buf.data, start, Some(nullLength));
    var image := [];
    var nullIndex := 0;
    var i := 0;
    while i < columnCount
      invariant i <= columnCount && nullBitmap == Substr(old(buf.data), start, Some(nullLength))
      invariant ImageWalk(read, buf.data, columns, bitmap, nullBitmap, start + nullLength, i, false)
             == Ok(Walk(image, nullIndex, buf.offset))
    {
      var step := WalkColumn(buf, columns, columnCount, bitmap, nullBitmap, start + nullLength, image, nullIndex, i, read);
      if step.Err? {
        ImageFails(read, buf.data, start, columns, columnCount, bitmap, nullLength, nullBitmap, step.error);
        return Err(step.error);
      }
      image, nullIndex := step.value.0, step.value.1;
      i := i + 1;
    }
    ImageDone(read, buf.data, start, columns, columnCount, bitmap, nullLength, nullBitmap, Walk(image, nullIndex, buf.offset));
    return Ok(image);
  }

  /** One step of the image loop: column i extends the walk, or its failure fails the walk over all n columns. */
  method WalkColumn(buf: Buffer, columns: seq<Column>, n: nat, bitmap: Bytes, nullBitmap: Bytes, ghost start: nat,
                    image: Image, nullIndex: nat, i: nat, ghost read: FieldReader)
    returns (r: Outcome<(Image, nat)>)
    requires IsFieldDecoder(read) && i < n
    requires ImageWalk(read, buf.data, columns, bitmap, nullBitmap, start, i, false) == Ok(Walk(image, nullIndex, buf.offset))
    modifies buf`offset
    ensures r.Ok? ==>
      ImageWalk(read, buf.data, columns, bitmap, nullBitmap, start, i + 1, false) == Ok(Walk(r.value.0, r.value.1, buf.offset))
    ensures r.Err? ==> ImageWalk(read, buf.data, columns, bitmap, nullBitmap, start, n, false) == Err(r.error)
  {
    ghost var w := Walk(image, nullIndex, buf.offset);
    r := ReadColumn(buf, columns, bitmap, nullBitmap, image, nullIndex, i, read);
    if r.Err? {
      ImageWalkFails(read, buf.data, columns, bitmap, nullBitmap, start, i, n, w, r.error);
    } else {
      ImageWalkNext(read, buf.data, columns, bitmap, nullBitmap, start, i, w, Walk(r.value.0, r.value.1, buf.offset));
    }
  }

  /** One row: the before image, and the after image when there is an after bitmap. */
  method ReadRow(buf: Buffer, columns: seq<Column>, columnCount: nat, bitmap: Bytes, nullLength: nat,
                 after: Option<Bytes>, nullLengthAfter: nat)
    returns (r: Outcome<Row>)
    modifies buf`offset
    ensures var spec := RowAt(buf.data, old(buf.offset), columns, columnCount, bitmap, nullLength, after, nullLengthAfter);
      (spec.Ok? ==> r == Ok(spec.value.0) && buf.offset == spec.value.1) && (spec.Err? ==> r == Err(spec.error))
  {
    var before := ReadImage(buf, columns, columnCount, bitmap, nullLength, Field);
    if before.Err? {
      return Err(before.error);
    }
    if after.None? {
      return Ok(Single(before.value));
    }
    var image := ReadImage(buf, columns, columnCount, after.value, nullLengthAfter, Field);
    if image.Err? {
      return Err(image.error);
    }
    return Ok(Pair(before.value, image.value));
  }

  /** The row decoder and its cache of table maps by table id. */
  class RowFactory {
    var tableMaps: map<nat, TableMap>

    constructor ()
      ensures tableMaps == map[]
    {
      tableMaps := map[];
    }

    /** Stores the table map under its id, replacing an earlier one; the other entries stay. */
    method AddTableMap(tableMap: TableMap)
      modifies this
      ensures tableMaps == old(tableMaps)[tableMap.tableId := tableMap]
      ensures forall id :: id in old(tableMaps) && id != tableMap.tableId ==> id in tableMaps && tableMaps[id] == old(tableMaps)[id]
    {
      tableMaps := tableMaps[tableMap.tableId := tableMap];
    }

    /** Forgets every table map; the events iterator calls this on a rotation (the class as written lacks it). */
    method DropTableMaps()
      modifies this
      ensures tableMaps == map[]
    {
      tableMaps := map[];
    }

    /**
     * `readRows` for the table of `tableId`, whose map the events iterator
     * has stored before any rows event of it: the rows from the offset
     * until the payload size.
     */
    method ReadRows(buf: Buffer, header: Header, tableId: nat, columnCount: nat,
                    columnsBitmap: Bytes, columnsBitmapAfter: Option<Bytes>)
      returns (r: Outcome<seq<Row>>)
      requires tableId in tableMaps
      modifies buf`offset
      ensures r == RowsSpec(buf.data, header.payloadSize, old(buf.offset), tableMaps[tableId].columns, columnCount,
                            columnsBitmap, columnsBitmapAfter)
    {
      var columns := tableMaps[tableId].columns;
      var nullLength := NullBitmapLengthOf(columnsBitmap, columnCount);
      var nullLengthAfter := 0;
      if columnsBitmapAfter.Some? {
        nullLengthAfter := NullBitmapLengthOf(columnsBitmapAfter.value, columnCount);
      }
      ghost var d, start := buf.data, buf.offset;
      ghost var spec := RowsFrom(d, header.payloadSize, start, columns, columnCount,
                                 columnsBitmap, nullLength, columnsBitmapAfter, nullLengthAfter);
      var rows := [];
      PrependNil(spec);
      while header.payloadSize > buf.offset
        invariant buf.data == d
        invariant spec == Prepend(rows, RowsFrom(d, header.payloadSize, buf.offset, columns, columnCount,
                                                 columnsBitmap, nullLength, columnsBitmapAfter, nullLengthAfter))
        decreases header.payloadSize - buf.offset
      {
        var at := buf.offset;
        var row := ReadRow(buf, columns, columnCount, columnsBitmap, nullLength, columnsBitmapAfter, nullLengthAfter);
        if row.Err? {
          return Err(row.error);
        }
        if buf.offset == at {
          // the decoder would read this row again forever
          return Err(Stalled);
        }
        PrependTwice(rows, [row.value], RowsFrom(d, header.payloadSize, buf.offset, columns, columnCount,
                                                 columnsBitmap, nullLength, columnsBitmapAfter, nullLengthAfter));
        rows := rows + [row.value];
      }
      PrependAll(rows);
      return Ok(rows);
    }
  }
}
