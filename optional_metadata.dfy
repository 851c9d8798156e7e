/**
 * The optional metadata of a TABLE_MAP event: a run of (type, length, slice)
 * blocks carrying signedness bits, charsets, column names, enum values and the
 * primary key, and the described columns assembled from them with running
 * counters per column category.
 *
 * Each block is specified by a function over the slice's bytes `d`, its
 * recorded length `len` and a position; the methods walk a sliced `Buffer`
 * the way the decoder does and are proved equal to those functions.
 */
module OptionalMetadata {
  import opened Wrappers
  import opened Bytes
  import opened Errors
  import opened Buffers
  import opened Records
  import Bits
  import CT = ColumnTypes
  import OMT = OptionalMetadataTypes

  /** The blocks read so far, one field per block type (the decoder's `$metadata` array). */
  datatype Metadata = Metadata(
    signedness: Option<Bytes>,
    defaultCharset: Option<nat>,
    columnCharset: Option<seq<nat>>,
    columnName: Option<seq<Bytes>>,
    enumStrValue: Option<seq<seq<Bytes>>>,
    simplePrimaryKey: Option<seq<Option<nat>>>,
    enumAndSetDefaultCharset: Option<nat>,
    enumAndSetColumnCharset: Option<seq<nat>>)

  const NoMetadata := Metadata(None, None, None, None, None, None, None, None)

  // ---------------------------------------------------------------- items of a slice

  /** A coded binary starting at pos lies wholly inside d. */
  predicate CodedFits(d: Bytes, pos: nat)
  {
    pos < |d| && pos + CodedWidth(d[pos]) <= |d|
  }

  /** The coded binary at pos. */
  function CodedAt(d: Bytes, pos: nat): Outcome<Option<nat>>
    requires CodedFits(d, pos)
  {
    CodedValue(d[pos..pos + CodedWidth(d[pos])])
  }

  /**
   * `readVariableLengthString` at pos: a coded length, then that many bytes
   * (clamped to the data); a null length takes the rest and moves to `len`.
   */
  function VarString(d: Bytes, len: nat, pos: nat): (r: Outcome<(Bytes, nat)>)
    requires |d| <= len
    ensures r.Ok? ==> r.value.1 > pos
  {
    if !CodedFits(d, pos) then Err(ReadPastEnd)
    else match CodedAt(d, pos)
      case Err(e) => Err(e)
      case Ok(n) =>
        var p := pos + CodedWidth(d[pos]);
        Ok((Substr(d, p, n), if n.None? then len else p + n.value))
  }

  /** SIMPLE_PRIMARY_KEY: coded binaries, null included, until nothing is left. */
  function Keys(d: Bytes, len: nat, pos: nat): Outcome<seq<Option<nat>>>
    requires |d| <= len
    decreases len - pos
  {
    if pos == len then Ok([])
    else if !CodedFits(d, pos) then Err(ReadPastEnd)
    else match CodedAt(d, pos)
      case Err(e) => Err(e)
      case Ok(v) => Prepend([v], Keys(d, len, pos + CodedWidth(d[pos])))
  }

  /** COLUMN_CHARSET and ENUM_AND_SET_COLUMN_CHARSET: collation ids until nothing is left; a null id fails. */
  function Charsets(d: Bytes, len: nat, pos: nat): Outcome<seq<nat>>
    requires |d| <= len
    decreases len - pos
  {
    if pos == len then Ok([])
    else if !CodedFits(d, pos) then Err(ReadPastEnd)
    else match CodedAt(d, pos)
      case Err(e) => Err(e)
      case Ok(None) => Err(OutOfBounds)
      case Ok(Some(id)) => Prepend([id], Charsets(d, len, pos + CodedWidth(d[pos])))
  }

  /** COLUMN_NAME: variable-length strings until nothing is left. */
  function Names(d: Bytes, len: nat, pos: nat): Outcome<seq<Bytes>>
    requires |d| <= len
    decreases len - pos
  {
    if pos == len then Ok([])
    else match VarString(d, len, pos)
      case Err(e) => Err(e)
      case Ok((name, next)) => Prepend([name], Names(d, len, next))
  }

  /** `count` variable-length strings from pos, and the position after them. */
  function Strings(d: Bytes, len: nat, pos: nat, count: nat): (r: Outcome<(seq<Bytes>, nat)>)
    requires |d| <= len
    ensures r.Ok? ==> |r.value.0| == count && r.value.1 >= pos
    decreases count
  {
    if count == 0 then Ok(([], pos))
    else match Strings(d, len, pos, count - 1)
      case Err(e) => Err(e)
      case Ok((ss, q)) =>
        match VarString(d, len, q)
        case Err(e) => Err(e)
        case Ok((s, next)) => Ok((ss + [s], next))
  }

  /** Once a string fails, reading more fails the same way. */
  lemma {:induction false} StringsErrPersists(d: Bytes, len: nat, pos: nat, k: nat, count: nat)
    requires |d| <= len && k <= count && Strings(d, len, pos, k).Err?
    ensures Strings(d, len, pos, count) == Strings(d, len, pos, k)
  {
    if k < count {
      StringsErrPersists(d, len, pos, k, count - 1);
    }
  }

  /** The string after the first i extends them by one, or fails the count with its error. */
  lemma StringsNext(d: Bytes, len: nat, pos: nat, i: nat, values: seq<Bytes>, at: nat)
    requires |d| <= len && Strings(d, len, pos, i) == Ok((values, at))
    ensures var v := VarString(d, len, at);
      Strings(d, len, pos, i + 1) == if v.Ok? then Ok((values + [v.value.0], v.value.1)) else Err(v.error)
  {
  }

  /**
   * ENUM_STR_VALUE: per enum column a coded count, then that many strings,
   * until nothing is left. A null or zero count gives an empty group: the
   * decoder stores nothing under that column's key.
   */
  function EnumGroups(d: Bytes, len: nat, pos: nat): Outcome<seq<seq<Bytes>>>
    requires |d| <= len
    decreases len - pos
  {
    if pos == len then Ok([])
    else if !CodedFits(d, pos) then Err(ReadPastEnd)
    else match CodedAt(d, pos)
      case Err(e) => Err(e)
      case Ok(count) =>
        match Strings(d, len, pos + CodedWidth(d[pos]), count.GetOr(0))
        case Err(e) => Err(e)
        case Ok((values, next)) => Prepend([values], EnumGroups(d, len, next))
  }

  /** `$metadata[$type][] = ...`: appending to a list that exists only once it has an entry. */
  function Appended(list: Option<seq<nat>>, ids: seq<nat>): Option<seq<nat>>
  {
    if ids == [] then list else Some(list.GetOr([]) + ids)
  }

  /** One block of type t over its slice `d` of recorded length `len`. */
  function ApplyBlock(md: Metadata, t: OMT.OptionalMetadataType, d: Bytes, len: nat, columnCount: nat): (r: Outcome<Metadata>)
    requires |d| <= len
    ensures t in {OMT.SET_STR_VALUE, OMT.GEOMETRY_TYPE, OMT.PRIMARY_KEY_WITH_PREFIX} ==> r == Err(UnexpectedValue)
    ensures t == OMT.COLUMN_NAME ==> r == (match Names(d, len, 0) case Ok(ns) => Ok(md.(columnName := Some(ns))) case Err(e) => Err(e))
  {
    match t
    case SIGNEDNESS =>
      Ok(md.(signedness := Some(Substr(d, 0, Some((columnCount + 7) / 8)))))
    case DEFAULT_CHARSET | ENUM_AND_SET_DEFAULT_CHARSET =>
      if !CodedFits(d, 0) then Err(ReadPastEnd)
      else
        (match CodedAt(d, 0)
         case Err(e) => Err(e)
         case Ok(None) => Err(OutOfBounds)
         case Ok(Some(id)) =>
           Ok(if t == OMT.DEFAULT_CHARSET then md.(defaultCharset := Some(id))
              else md.(enumAndSetDefaultCharset := Some(id))))
    case COLUMN_CHARSET | ENUM_AND_SET_COLUMN_CHARSET =>
      (match Charsets(d, len, 0)
       case Err(e) => Err(e)
       case Ok(ids) =>
         Ok(if t == OMT.COLUMN_CHARSET then md.(columnCharset := Appended(md.columnCharset, ids))
            else md.(enumAndSetColumnCharset := Appended(md.enumAndSetColumnCharset, ids))))
    case COLUMN_NAME =>
      (match Names(d, len, 0)
       case Err(e) => Err(e)
       case Ok(names) => Ok(md.(columnName := Some(names))))
    case ENUM_STR_VALUE =>
      (match EnumGroups(d, len, 0)
       case Err(e) => Err(e)
       case Ok(groups) => Ok(md.(enumStrValue := Some(groups))))
    case SIMPLE_PRIMARY_KEY =>
      (match Keys(d, len, 0)
       case Err(e) => Err(e)
       case Ok(keys) => Ok(md.(simplePrimaryKey := Some(keys))))
    case _ => Err(UnexpectedValue)
  }

  // ---------------------------------------------------------------- the block run

  /** Where the slice of the block at pos starts, past its type byte and coded length. */
  function SliceStart(data: Bytes, pos: nat): nat
    requires CodedFits(data, pos + 1)
  {
    pos + 1 + CodedWidth(data[pos + 1])
  }

  /**
   * The block at pos: its type byte, its coded length, then that many bytes
   * applied to md; the metadata after it and the position just past it.
   */
  function BlockAt(data: Bytes, pos: nat, columnCount: nat, md: Metadata): (r: Outcome<(Metadata, nat)>)
    requires pos < |data|
    ensures r.Ok? ==> r.value.1 > pos
  {
    match OMT.From(data[pos])
    case Err(e) => Err(e)
    case Ok(t) =>
      if !CodedFits(data, pos + 1) then Err(ReadPastEnd)
      else match CodedAt(data, pos + 1)
        case Err(e) => Err(e)
        case Ok(None) => Err(LengthError)
        case Ok(Some(n)) =>
          var start := SliceStart(data, pos);
          match ApplyBlock(md, t, Substr(data, start, Some(n)), n, columnCount)
          case Err(e) => Err(e)
          case Ok(next) => Ok((next, start + n))
  }

  /** The blocks from pos until the offset reaches the payload size, applied in order to md. */
  function Blocks(data: Bytes, payloadSize: int, pos: nat, columnCount: nat, md: Metadata): Outcome<Metadata>
    decreases payloadSize - pos
  {
    if payloadSize <= pos then Ok(md)
    else if pos >= |data| then Err(ReadPastEnd)
    else
      var b := BlockAt(data, pos, columnCount, md);
      if b.Err? then Err(b.error) else Blocks(data, payloadSize, b.value.1, columnCount, b.value.0)
  }

  // ---------------------------------------------------------------- columns

  /** The kinds of column the decoder describes, each with its own running counter where it has one. */
  datatype Category = Integer | Float | Time | Character | Enum | Unsupported

  function CategoryOf(t: CT.ColumnType): Category
  {
    match t
    case TINY | SHORT | INT24 | LONG | LONGLONG => Integer
    case FLOAT | DOUBLE => Float
    case DATE | DATETIME2 | TIMESTAMP2 => Time
    case BLOB | VARCHAR | STRING => Character
    case ENUM => Enum
    case _ => Unsupported
  }

  /** How many of the first n columns are of category c: the value of that category's counter at column n. */
  function Counted(metas: seq<Meta>, n: nat, c: Category): (k: nat)
    requires n <= |metas|
    ensures k <= n
  {
    if n == 0 then 0
    else Counted(metas, n - 1, c) + (if CategoryOf(metas[n - 1].columnType) == c then 1 else 0)
  }

  /** `ord($bitmap[$k >> 3])`: past the end PHP reads '' and `ord('')` is 0. */
  function SignednessByte(bitmap: Bytes, k: nat): Byte
  {
    if k / 8 < |bitmap| then bitmap[k / 8] else 0
  }

  /** `!(ord($bitmap[$k >> 3]) & (1 << (7 - ($k & 0x07))))` */
  function IsSigned(bitmap: Bytes, k: nat): bool
  {
    Bits.And(SignednessByte(bitmap, k), Bits.Pow2(7 - k % 8)) == 0
  }

  /** The k-th integer column is signed exactly when bit 7 - k mod 8 of byte k div 8 is clear. */
  lemma IsSignedBit(bitmap: Bytes, k: nat)
    ensures IsSigned(bitmap, k) <==> !Bits.Bit(SignednessByte(bitmap, k), 7 - k % 8)
  {
    Bits.AndPow2(SignednessByte(bitmap, k), 7 - k % 8);
  }

  /** Entry k of a list block, if the block was read and has one. */
  function Entry<T>(list: Option<seq<T>>, k: nat): Option<T>
  {
    if list.Some? && k < |list.value| then Some(list.value[k]) else None
  }

  /** The charset of the k-th character column: the default charset, else entry k of the column charsets. */
  function CharsetOf(md: Metadata, k: nat): (r: Outcome<nat>)
    ensures md.defaultCharset.Some? ==> r == Ok(md.defaultCharset.value)
    ensures md.defaultCharset.None? ==> (r.Ok? <==> Entry(md.columnCharset, k).Some?)
  {
    if md.defaultCharset.Some? then Ok(md.defaultCharset.value)
    else match Entry(md.columnCharset, k)
      case Some(id) => Ok(id)
      case None => Err(OutOfBounds)
  }

  /** The values of the k-th enum column; a group without values was never stored. */
  function EnumValuesOf(md: Metadata, k: nat): (r: Outcome<seq<Bytes>>)
    ensures r.Ok? ==> r.value != [] && Entry(md.enumStrValue, k) == Some(r.value)
  {
    match Entry(md.enumStrValue, k)
    case Some(values) => if values == [] then Err(OutOfBounds) else Ok(values)
    case None => Err(OutOfBounds)
  }

  /** Column i described from its metadata, the names and the blocks. */
  function DescribeColumn(md: Metadata, names: seq<Bytes>, metas: seq<Meta>, i: nat): (r: Outcome<Column>)
    requires i < |metas|
    ensures r.Ok? ==> i < |names| && r.value.index == i && r.value.name == names[i] && r.value.meta == metas[i]
    ensures CategoryOf(metas[i].columnType) == Unsupported ==> r == Err(UnexpectedValue)
    ensures CategoryOf(metas[i].columnType) != Unsupported && i >= |names| ==> r == Err(OutOfBounds)
  {
    var m := metas[i];
    var category := CategoryOf(m.columnType);
    if category == Unsupported then Err(UnexpectedValue)
    else if i >= |names| then Err(OutOfBounds)
    else
      var name := names[i];
      match category
      case Integer =>
        if md.signedness.None? then Err(TypeError)
        else Ok(IntegerColumn(i, m, name, IsSigned(md.signedness.value, Counted(metas, i, Integer))))
      case Float => Ok(FloatColumn(i, m, name))
      case Time => Ok(TimeColumn(i, m, name))
      case Character =>
        (match CharsetOf(md, Counted(metas, i, Character))
         case Err(e) => Err(e)
         case Ok(id) => Ok(if m.columnType == CT.BLOB then BlobColumn(i, m, name, id) else TextColumn(i, m, name, id)))
      case Enum =>
        (match md.enumAndSetDefaultCharset
         case None => Err(OutOfBounds)
         case Some(id) =>
           match EnumValuesOf(md, Counted(metas, i, Enum))
           case Err(e) => Err(e)
           case Ok(values) => Ok(EnumColumn(i, m, name, id, values)))
  }

  /** The first n columns described, failing at the first column that fails. */
  function Describe(md: Metadata, names: seq<Bytes>, metas: seq<Meta>, n: nat): (r: Outcome<seq<Column>>)
    requires n <= |metas|
    ensures r.Ok? ==> |r.value| == n
  {
    if n == 0 then Ok([])
    else match Describe(md, names, metas, n - 1)
      case Err(e) => Err(e)
      case Ok(columns) =>
        match DescribeColumn(md, names, metas, n - 1)
        case Err(e) => Err(e)
        case Ok(c) => Ok(columns + [c])
  }

  /** The primary-key columns: a null index fails the typed callback; an index past the end gives null. */
  function PrimaryKeyOf(keys: seq<Option<nat>>, columns: seq<Column>): (r: Outcome<PrimaryKey>)
    ensures r.Ok? <==> forall j :: 0 <= j < |keys| ==> keys[j].Some?
    ensures r.Ok? ==> |r.value| == |keys|
    ensures r.Ok? ==> forall j :: 0 <= j < |keys| ==>
      r.value[j] == (if keys[j].value < |columns| then Some(columns[keys[j].value]) else None)
    ensures r.Err? ==> r.error == TypeError
  {
    if keys == [] then Ok([])
    else match PrimaryKeyOf(keys[1..], columns)
      case Err(e) => Err(e)
      case Ok(rest) =>
        match keys[0]
        case None => Err(TypeError)
        case Some(k) => Ok([if k < |columns| then Some(columns[k]) else None] + rest)
  }

  /** `readOptionalMetadata` from pos: the blocks, then the described columns and the primary key. */
  function OptionalMetadataSpec(data: Bytes, payloadSize: int, pos: nat, metas: seq<Meta>, columnCount: nat)
    : (r: Outcome<(seq<Column>, Option<PrimaryKey>)>)
    ensures r.Ok? ==> |r.value.0| == |metas|
  {
    match Blocks(data, payloadSize, pos, columnCount, NoMetadata)
    case Err(e) => Err(e)
    case Ok(md) =>
      if md.columnName.None? then Err(Runtime)
      else
        match Describe(md, md.columnName.value, metas, |metas|)
        case Err(e) => Err(e)
        case Ok(columns) =>
          if md.simplePrimaryKey.None? then Ok((columns, None))
          else match PrimaryKeyOf(md.simplePrimaryKey.value, columns)
            case Err(e) => Err(e)
            case Ok(key) => Ok((columns, Some(key)))
  }

  // ---------------------------------------------------------------- properties of the columns

  /** A successful description has one column per metadata entry, each the description of its own index. */
  lemma {:induction false} DescribeShape(md: Metadata, names: seq<Bytes>, metas: seq<Meta>, n: nat)
    requires n <= |metas| && Describe(md, names, metas, n).Ok?
    ensures |Describe(md, names, metas, n).value| == n
    ensures forall i :: 0 <= i < n ==> DescribeColumn(md, names, metas, i) == Ok(Describe(md, names, metas, n).value[i])
  {
    if n > 0 {
      DescribeShape(md, names, metas, n - 1);
    }
  }

  /** Once a column fails, describing more columns fails the same way. */
  lemma {:induction false} DescribeErrPersists(md: Metadata, names: seq<Bytes>, metas: seq<Meta>, k: nat, n: nat)
    requires k <= n <= |metas| && Describe(md, names, metas, k).Err?
    ensures Describe(md, names, metas, n) == Describe(md, names, metas, k)
  {
    if k < n {
      DescribeErrPersists(md, names, metas, k, n - 1);
    }
  }

  /** The description succeeds exactly when every column's does, and otherwise fails as the first failing column does. */
  lemma {:induction false} DescribeFirstError(md: Metadata, names: seq<Bytes>, metas: seq<Meta>, n: nat)
    requires n <= |metas|
    ensures Describe(md, names, metas, n).Ok? <==> forall i :: 0 <= i < n ==> DescribeColumn(md, names, metas, i).Ok?
    ensures Describe(md, names, metas, n).Err? ==>
      exists k :: 0 <= k < n && DescribeColumn(md, names, metas, k) == Err(Describe(md, names, metas, n).error) &&
        (forall i :: 0 <= i < k ==> DescribeColumn(md, names, metas, i).Ok?)
  {
    if n > 0 {
      DescribeFirstError(md, names, metas, n - 1);
      var last := DescribeColumn(md, names, metas, n - 1);
      if Describe(md, names, metas, n - 1).Err? {
        assert Describe(md, names, metas, n) == Describe(md, names, metas, n - 1);
      } else if last.Err? {
        assert Describe(md, names, metas, n) == Err(last.error);
      } else {
        assert Describe(md, names, metas, n).Ok?;
      }
    }
  }

  /** Integer column i is signed exactly when its bit, counted among the integer columns only, is clear. */
  lemma DescribedSignedness(md: Metadata, names: seq<Bytes>, metas: seq<Meta>, i: nat)
    requires i < |metas| && DescribeColumn(md, names, metas, i).Ok?
    requires CategoryOf(metas[i].columnType) == Integer
    ensures md.signedness.Some?
    ensures var k := Counted(metas, i, Integer);
      DescribeColumn(md, names, metas, i).value.isSigned <==> !Bits.Bit(SignednessByte(md.signedness.value, k), 7 - k % 8)
  {
    IsSignedBit(md.signedness.value, Counted(metas, i, Integer));
  }

  /** A character column takes the default charset when there is one, else the entry of its own counter. */
  lemma DescribedCharset(md: Metadata, names: seq<Bytes>, metas: seq<Meta>, i: nat)
    requires i < |metas| && DescribeColumn(md, names, metas, i).Ok?
    requires CategoryOf(metas[i].columnType) == Character
    ensures var c := DescribeColumn(md, names, metas, i).value;
      (c.BlobColumn? <==> metas[i].columnType == CT.BLOB) && (c.BlobColumn? || c.TextColumn?) &&
      c.charset == (if md.defaultCharset.Some? then md.defaultCharset.value
                    else md.columnCharset.value[Counted(metas, i, Character)])
  {
  }

  /** An enum column takes the enum default charset and the value group of its own counter. */
  lemma DescribedEnum(md: Metadata, names: seq<Bytes>, metas: seq<Meta>, i: nat)
    requires i < |metas| && DescribeColumn(md, names, metas, i).Ok?
    requires CategoryOf(metas[i].columnType) == Enum
    ensures var c := DescribeColumn(md, names, metas, i).value;
      c.EnumColumn? && Some(c.charset) == md.enumAndSetDefaultCharset &&
      Entry(md.enumStrValue, Counted(metas, i, Enum)) == Some(c.values) && c.values != []
  {
  }

  // ---------------------------------------------------------------- encodings the blocks decode

  /** How the server writes a SIMPLE_PRIMARY_KEY block: one coded binary per key. */
  function EncodeKeys(keys: seq<Option<nat>>): Bytes
    requires forall k <- keys :: k.Some? ==> k.value < Half(8)
  {
    if keys == [] then [] else EncodeCoded(keys[0]) + EncodeKeys(keys[1..])
  }

  /** The keys from pos: the coded binary there, then the keys after it. */
  lemma KeysCons(d: Bytes, pos: nat, v: Option<nat>, rest: seq<Option<nat>>)
    requires v.Some? ==> v.value < Half(8)
    requires pos + |EncodeCoded(v)| <= |d| && d[pos..pos + |EncodeCoded(v)|] == EncodeCoded(v)
    requires Keys(d, |d|, pos + |EncodeCoded(v)|) == Ok(rest)
    ensures Keys(d, |d|, pos) == Ok([v] + rest)
  {
    CodedAtEncoded(d, pos, v);
  }

  /** A coded binary written at pos reads back there, and spans exactly its encoding. */
  lemma CodedAtEncoded(d: Bytes, pos: nat, v: Option<nat>)
    requires v.Some? ==> v.value < Half(8)
    requires pos + |EncodeCoded(v)| <= |d| && d[pos..pos + |EncodeCoded(v)|] == EncodeCoded(v)
    ensures CodedFits(d, pos) && CodedWidth(d[pos]) == |EncodeCoded(v)| && CodedAt(d, pos) == Ok(v)
  {
    var e := EncodeCoded(v);
    CodedRoundTrip(v);
    assert d[pos] == e[0];
    assert CodedFits(d, pos) && CodedAt(d, pos) == CodedValue(e);
  }

  /** Whatever follows pos is the encoding of `keys`: reading to the end gives the keys back. */
  lemma {:induction false} KeysRoundTrip(d: Bytes, pos: nat, keys: seq<Option<nat>>)
    requires forall k <- keys :: k.Some? ==> k.value < Half(8)
    requires pos <= |d| && d[pos..] == EncodeKeys(keys)
    ensures Keys(d, |d|, pos) == Ok(keys)
    decreases |keys|
  {
    if keys == [] {
      assert pos == |d|;
    } else {
      var e, rest := EncodeCoded(keys[0]), EncodeKeys(keys[1..]);
      Split(d, pos, e, rest);
      KeysRoundTrip(d, pos + |e|, keys[1..]);
      KeysCons(d, pos, keys[0], keys[1..]);
      assert [keys[0]] + keys[1..] == keys;
    }
  }

  /** A variable-length string as the server writes it: its coded length, then its bytes. */
  function EncodeString(s: Bytes): Bytes
    requires |s| < Half(8)
  {
    EncodeCoded(Some(|s|)) + s
  }

  /** How the server writes a COLUMN_NAME block: one variable-length string per column. */
  function EncodeNames(names: seq<Bytes>): Bytes
    requires forall n <- names :: |n| < Half(8)
  {
    if names == [] then [] else EncodeString(names[0]) + EncodeNames(names[1..])
  }

  /** A string written at pos reads back whole, and reading continues just past it. */
  lemma StringRoundTrip(d: Bytes, len: nat, pos: nat, s: Bytes)
    requires |d| <= len && |s| < Half(8)
    requires pos + |EncodeString(s)| <= |d| && d[pos..pos + |EncodeString(s)|] == EncodeString(s)
    ensures VarString(d, len, pos) == Ok((s, pos + |EncodeString(s)|))
  {
    var e := EncodeCoded(Some(|s|));
    assert EncodeString(s) == e + s;
    SplitSlice(d, pos, e, s);
    CodedAtEncoded(d, pos, Some(|s|));
    VarStringOf(d, len, pos, |e|, s);
  }

  /** A string whose coded length, w bytes wide, reads as |s| and is followed by s: s, and the offset past it. */
  lemma VarStringOf(d: Bytes, len: nat, pos: nat, w: nat, s: Bytes)
    requires |d| <= len && CodedFits(d, pos) && CodedWidth(d[pos]) == w && CodedAt(d, pos) == Ok(Some(|s|))
    requires pos + w + |s| <= |d| && d[pos + w..pos + w + |s|] == s
    ensures VarString(d, len, pos) == Ok((s, pos + w + |s|))
  {
  }

  /** The names from pos: the string there, then the names after it. */
  lemma NamesCons(d: Bytes, pos: nat, s: Bytes, next: nat, rest: seq<Bytes>)
    requires pos != |d| && VarString(d, |d|, pos) == Ok((s, next)) && Names(d, |d|, next) == Ok(rest)
    ensures Names(d, |d|, pos) == Ok([s] + rest)
  {
  }

  /** Whatever follows pos is the encoding of `names`: reading to the end gives the names back. */
  lemma {:induction false} NamesRoundTrip(d: Bytes, pos: nat, names: seq<Bytes>)
    requires forall n <- names :: |n| < Half(8)
    requires pos <= |d| && d[pos..] == EncodeNames(names)
    ensures Names(d, |d|, pos) == Ok(names)
    decreases |names|
  {
    if names == [] {
      assert pos == |d|;
    } else {
      var e, rest := EncodeString(names[0]), EncodeNames(names[1..]);
      Split(d, pos, e, rest);
      StringRoundTrip(d, |d|, pos, names[0]);
      NamesRoundTrip(d, pos + |e|, names[1..]);
      NamesCons(d, pos, names[0], pos + |e|, names[1..]);
      assert [names[0]] + names[1..] == names;
    }
  }

  // ---------------------------------------------------------------- methods over a sliced buffer

  /** A slice: the data holds at most the recorded length. */
  predicate IsSlice(sub: Buffer)
    reads sub
  {
    0 <= sub.length && |sub.data| <= sub.length
  }

  /** Reads SIMPLE_PRIMARY_KEY entries until nothing is left of the slice. */
  method ReadKeys(sub: Buffer) returns (r: Outcome<seq<Option<nat>>>)
    requires IsSlice(sub)
    modifies sub`offset
    ensures r == Keys(sub.data, sub.length, old(sub.offset))
    ensures r.Ok? ==> sub.Left() == 0
  {
    ghost var d, len, start := sub.data, sub.length as nat, sub.offset;
    var keys := [];
    PrependNil(Keys(d, len, start));
    while sub.Left() != 0
      invariant sub.data == d && sub.length == len
      invariant Keys(d, len, start) == Prepend(keys, Keys(d, len, sub.offset))
      decreases len - sub.offset
    {
      if !CodedFits(sub.data, sub.offset) {
        return Err(ReadPastEnd);
      }
      var v := sub.ReadCodedBinary();
      if v.Err? {
        return Err(v.error);
      }
      PrependTwice(keys, [v.value], Keys(d, len, sub.offset));
      keys := keys + [v.value];
    }
    PrependAll(keys);
    return Ok(keys);
  }

  /** Reads collation ids until nothing is left of the slice. */
  method ReadCharsets(sub: Buffer) returns (r: Outcome<seq<nat>>)
    requires IsSlice(sub)
    modifies sub`offset
    ensures r == Charsets(sub.data, sub.length, old(sub.offset))
    ensures r.Ok? ==> sub.Left() == 0
  {
    ghost var d, len, start := sub.data, sub.length as nat, sub.offset;
    var ids := [];
    PrependNil(Charsets(d, len, start));
    while sub.Left() != 0
      invariant sub.data == d && sub.length == len
      invariant Charsets(d, len, start) == Prepend(ids, Charsets(d, len, sub.offset))
      decreases len - sub.offset
    {
      if !CodedFits(sub.data, sub.offset) {
        return Err(ReadPastEnd);
      }
      var v := sub.ReadCodedBinary();
      if v.Err? {
        return Err(v.error);
      }
      if v.value.None? {
        return Err(OutOfBounds);
      }
      PrependTwice(ids, [v.value.value], Charsets(d, len, sub.offset));
      ids := ids + [v.value.value];
    }
    PrependAll(ids);
    return Ok(ids);
  }

  /** One variable-length string of the slice, as VarString describes it. */
  method ReadString(sub: Buffer) returns (r: Outcome<Bytes>)
    requires IsSlice(sub)
    modifies sub`offset
    ensures var spec := VarString(sub.data, sub.length, old(sub.offset));
      (spec.Ok? ==> r == Ok(spec.value.0) && sub.offset == spec.value.1) && (spec.Err? ==> r == Err(spec.error))
  {
    if !CodedFits(sub.data, sub.offset) {
      return Err(ReadPastEnd);
    }
    r := sub.ReadVariableLengthString();
  }

  /** Reads column names until nothing is left of the slice. */
  method ReadNames(sub: Buffer) returns (r: Outcome<seq<Bytes>>)
    requires IsSlice(sub)
    modifies sub`offset
    ensures r == Names(sub.data, sub.length, old(sub.offset))
    ensures r.Ok? ==> sub.Left() == 0
  {
    ghost var d, len, start := sub.data, sub.length as nat, sub.offset;
    var names := [];
    PrependNil(Names(d, len, start));
    while sub.Left() != 0
      invariant sub.data == d && sub.length == len
      invariant Names(d, len, start) == Prepend(names, Names(d, len, sub.offset))
      decreases len - sub.offset
    {
      ghost var at := sub.offset;
      var name := ReadString(sub);
      if name.Err? {
        return Err(name.error);
      }
      PrependTwice(names, [name.value], Names(d, len, sub.offset));
      names := names + [name.value];
    }
    PrependAll(names);
    return Ok(names);
  }

  /** Reads `count` variable-length strings. */
  method ReadStrings(sub: Buffer, count: nat) returns (r: Outcome<seq<Bytes>>)
    requires IsSlice(sub)
    modifies sub`offset
    ensures var spec := Strings(sub.data, sub.length, old(sub.offset), count);
      (spec.Ok? ==> r == Ok(spec.value.0) && sub.offset == spec.value.1) && (spec.Err? ==> r == Err(spec.error))
  {
    ghost var d, len, start := sub.data, sub.length as nat, sub.offset;
    var values := [];
    var i := 0;
    while i < count
      invariant i <= count && sub.data == d && sub.length == len
      invariant Strings(d, len, start, i) == Ok((values, sub.offset))
    {
      ghost var at := sub.offset;
      var s := ReadString(sub);
      StringsNext(d, len, start, i, values, at);
      if s.Err? {
        StringsErrPersists(d, len, start, i + 1, count);
        return Err(s.error);
      }
      values := values + [s.value];
      i := i + 1;
    }
    return Ok(values);
  }

  /** Reads the enum value groups until nothing is left of the slice. */
  method ReadEnumGroups(sub: Buffer) returns (r: Outcome<seq<seq<Bytes>>>)
    requires IsSlice(sub)
    modifies sub`offset
    ensures r == EnumGroups(sub.data, sub.length, old(sub.offset))
    ensures r.Ok? ==> sub.Left() == 0
  {
    ghost var d, len, start := sub.data, sub.length as nat, sub.offset;
    var groups := [];
    PrependNil(EnumGroups(d, len, start));
    while sub.Left() != 0
      invariant sub.data == d && sub.length == len
      invariant EnumGroups(d, len, start) == Prepend(groups, EnumGroups(d, len, sub.offset))
      decreases len - sub.offset
    {
      if !CodedFits(sub.data, sub.offset) {
        return Err(ReadPastEnd);
      }
      var count := sub.ReadCodedBinary();
      if count.Err? {
        return Err(count.error);
      }
      var values := ReadStrings(sub, count.value.GetOr(0));
      if values.Err? {
        return Err(values.error);
      }
      PrependTwice(groups, [values.value], EnumGroups(d, len, sub.offset));
      groups := groups + [values.value];
    }
    PrependAll(groups);
    return Ok(groups);
  }

  /** One block of type t over a fresh slice, dispatched as the decoder's switch does. */
  method ReadBlock(sub: Buffer, md: Metadata, t: OMT.OptionalMetadataType, columnCount: nat) returns (r: Outcome<Metadata>)
    requires IsSlice(sub) && sub.offset == 0
    modifies sub`offset
    ensures r == ApplyBlock(md, t, sub.data, sub.length, columnCount)
  {
    if t == OMT.SIGNEDNESS {
      var bitmap := sub.Read(Some((columnCount + 7) / 8));
      return Ok(md.(signedness := Some(bitmap)));
    } else if t == OMT.DEFAULT_CHARSET || t == OMT.ENUM_AND_SET_DEFAULT_CHARSET {
      if !CodedFits(sub.data, sub.offset) {
        return Err(ReadPastEnd);
      }
      var id := sub.ReadCodedBinary();
      if id.Err? {
        return Err(id.error);
      }
      if id.value.None? {
        return Err(OutOfBounds);
      }
      if t == OMT.DEFAULT_CHARSET {
        return Ok(md.(defaultCharset := id.value));
      }
      return Ok(md.(enumAndSetDefaultCharset := id.value));
    } else if t == OMT.COLUMN_CHARSET || t == OMT.ENUM_AND_SET_COLUMN_CHARSET {
      var ids := ReadCharsets(sub);
      if ids.Err? {
        return Err(ids.error);
      }
      if t == OMT.COLUMN_CHARSET {
        return Ok(md.(columnCharset := Appended(md.columnCharset, ids.value)));
      }
      return Ok(md.(enumAndSetColumnCharset := Appended(md.enumAndSetColumnCharset, ids.value)));
    } else if t == OMT.COLUMN_NAME {
      var names := ReadNames(sub);
      if names.Err? {
        return Err(names.error);
      }
      return Ok(md.(columnName := Some(names.value)));
    } else if t == OMT.ENUM_STR_VALUE {
      var groups := ReadEnumGroups(sub);
      if groups.Err? {
        return Err(groups.error);
      }
      return Ok(md.(enumStrValue := Some(groups.value)));
    } else if t == OMT.SIMPLE_PRIMARY_KEY {
      var keys := ReadKeys(sub);
      if keys.Err? {
        return Err(keys.error);
      }
      return Ok(md.(simplePrimaryKey := Some(keys.value)));
    }
    return Err(UnexpectedValue);
  }

  /** One block read: the metadata after it and the position past it, or the error that ends the run. */
  method ReadBlockAt(buf: Buffer, columnCount: nat, md: Metadata) returns (r: Outcome<(Metadata, nat)>)
    requires buf.offset < |buf.data|
    modifies buf`offset
    ensures r == BlockAt(buf.data, old(buf.offset), columnCount, md)
    ensures r.Ok? ==> buf.offset == r.value.1
  {
    ghost var pos := buf.offset;
    var b := buf.ReadUInt8();
    var t := OMT.From(b);
    if t.Err? {
      return Err(t.error);
    }
    if !CodedFits(buf.data, buf.offset) {
      return Err(ReadPastEnd);
    }
    var length := buf.ReadCodedBinary();
    if length.Err? {
      return Err(length.error);
    }
    if length.value.None? {
      return Err(LengthError);
    }
    var n := length.value.value;
    ghost var d, start := buf.data, buf.offset;
    assert start == SliceStart(d, pos);
    ghost var spec := ApplyBlock(md, t.value, Substr(d, start, Some(n)), n, columnCount);
    BlockAtApplied(d, pos, columnCount, md, t.value, n, spec);
    var sub := buf.Slice(n);
    var next := ReadBlock(sub, md, t.value, columnCount);
    assert next == spec;
    if next.Err? {
      return Err(next.error);
    }
    return Ok((next.value, buf.offset));
  }

  /** A block whose type and length are read: what the type's reader makes of the slice, and the position past it. */
  lemma BlockAtApplied(data: Bytes, pos: nat, columnCount: nat, md: Metadata, t: OMT.OptionalMetadataType, n: nat,
                       spec: Outcome<Metadata>)
    requires pos < |data| && OMT.From(data[pos]) == Ok(t)
    requires CodedFits(data, pos + 1) && CodedAt(data, pos + 1) == Ok(Some(n))
    requires spec == ApplyBlock(md, t, Substr(data, SliceStart(data, pos), Some(n)), n, columnCount)
    ensures BlockAt(data, pos, columnCount, md) == if spec.Err? then Err(spec.error) else Ok((spec.value, SliceStart(data, pos) + n))
  {
  }

  /** The block run: blocks are read until the offset reaches the payload size. */
  method ReadBlocks(buf: Buffer, payloadSize: int, columnCount: nat) returns (r: Outcome<Metadata>)
    modifies buf`offset
    ensures r == Blocks(buf.data, payloadSize, old(buf.offset), columnCount, NoMetadata)
    ensures r.Ok? ==> buf.offset >= payloadSize
  {
    ghost var d, start := buf.data, buf.offset;
    var md := NoMetadata;
    while payloadSize > buf.offset
      invariant buf.data == d
      invariant Blocks(d, payloadSize, start, columnCount, NoMetadata) == Blocks(d, payloadSize, buf.offset, columnCount, md)
      decreases payloadSize - buf.offset
    {
      if buf.offset >= |buf.data| {
        return Err(ReadPastEnd);
      }
      var b := ReadBlockAt(buf, columnCount, md);
      if b.Err? {
        return Err(b.error);
      }
      md := b.value.0;
    }
    return Ok(md);
  }

  /**
   * One turn of the decoder's column switch: column i described, and the
   * running counters of integer, character and enum columns moved past it.
   */
  method DescribeNext(md: Metadata, names: seq<Bytes>, metas: seq<Meta>, i: nat,
                      integerColumn: nat, characterColumn: nat, enumOrSetColumn: nat)
    returns (r: Outcome<Column>, integerNext: nat, characterNext: nat, enumOrSetNext: nat)
    requires i < |metas| && integerColumn == Counted(metas, i, Integer)
    requires characterColumn == Counted(metas, i, Character) && enumOrSetColumn == Counted(metas, i, Enum)
    ensures r == DescribeColumn(md, names, metas, i)
    ensures r.Ok? ==> integerNext == Counted(metas, i + 1, Integer)
    ensures r.Ok? ==> characterNext == Counted(metas, i + 1, Character)
    ensures r.Ok? ==> enumOrSetNext == Counted(metas, i + 1, Enum)
  {
    integerNext, characterNext, enumOrSetNext := integerColumn, characterColumn, enumOrSetColumn;
    var m := metas[i];
    var category := CategoryOf(m.columnType);
    if category == Unsupported {
      return Err(UnexpectedValue), integerNext, characterNext, enumOrSetNext;
    }
    if i >= |names| {
      return Err(OutOfBounds), integerNext, characterNext, enumOrSetNext;
    }
    if category == Integer {
      if md.signedness.None? {
        return Err(TypeError), integerNext, characterNext, enumOrSetNext;
      }
      var bitmap := md.signedness.value;
      var byte := if integerColumn / 8 < |bitmap| then bitmap[integerColumn / 8] else 0;
      r := Ok(IntegerColumn(i, m, names[i], Bits.And(byte, Bits.Pow2(7 - integerColumn % 8)) == 0));
      integerNext := integerColumn + 1;
    } else if category == Float {
      r := Ok(FloatColumn(i, m, names[i]));
    } else if category == Time {
      r := Ok(TimeColumn(i, m, names[i]));
    } else if category == Character {
      var charset := CharsetOf(md, characterColumn);
      if charset.Err? {
        return Err(charset.error), integerNext, characterNext, enumOrSetNext;
      }
      r := Ok(if m.columnType == CT.BLOB then BlobColumn(i, m, names[i], charset.value)
              else TextColumn(i, m, names[i], charset.value));
      characterNext := characterColumn + 1;
    } else {
      if md.enumAndSetDefaultCharset.None? {
        return Err(OutOfBounds), integerNext, characterNext, enumOrSetNext;
      }
      var values := EnumValuesOf(md, enumOrSetColumn);
      if values.Err? {
        return Err(values.error), integerNext, characterNext, enumOrSetNext;
      }
      r := Ok(EnumColumn(i, m, names[i], md.enumAndSetDefaultCharset.value, values.value));
      enumOrSetNext := enumOrSetColumn + 1;
    }
  }

  /** The columns described in order, failing at the first column that fails. */
  method DescribeColumns(md: Metadata, names: seq<Bytes>, metas: seq<Meta>) returns (r: Outcome<seq<Column>>)
    ensures r == Describe(md, names, metas, |metas|)
  {
    var columns := [];
    var integerColumn, characterColumn, enumOrSetColumn := 0, 0, 0;
    var i := 0;
    while i < |metas|
      invariant i <= |metas| && Describe(md, names, metas, i) == Ok(columns)
      invariant integerColumn == Counted(metas, i, Integer)
      invariant characterColumn == Counted(metas, i, Character)
      invariant enumOrSetColumn == Counted(metas, i, Enum)
    {
      var c;
      c, integerColumn, characterColumn, enumOrSetColumn :=
        DescribeNext(md, names, metas, i, integerColumn, characterColumn, enumOrSetColumn);
      if c.Err? {
        DescribeErrPersists(md, names, metas, i + 1, |metas|);
        return Err(c.error);
      }
      columns := columns + [c.value];
      i := i + 1;
    }
    return Ok(columns);
  }

  /** `readOptionalMetadata`: the block run, then the columns and the primary key. */
  method ReadOptionalMetadata(buf: Buffer, payloadSize: int, columnCount: nat, metas: seq<Meta>)
    returns (r: Outcome<(seq<Column>, Option<PrimaryKey>)>)
    modifies buf`offset
    ensures r == OptionalMetadataSpec(buf.data, payloadSize, old(buf.offset), metas, columnCount)
    ensures r.Ok? ==> |r.value.0| == |metas| && buf.offset >= payloadSize
  {
    var md := ReadBlocks(buf, payloadSize, columnCount);
    if md.Err? {
      return Err(md.error);
    }
    if md.value.columnName.None? {
      return Err(Runtime);
    }
    var columns := DescribeColumns(md.value, md.value.columnName.value, metas);
    if columns.Err? {
      return Err(columns.error);
    }
    if md.value.simplePrimaryKey.None? {
      return Ok((columns.value, None));
    }
    var key := PrimaryKeyOf(md.value.simplePrimaryKey.value, columns.value);
    if key.Err? {
      return Err(key.error);
    }
    return Ok((columns.value, Some(key.value)));
  }
}
