/**
 * The event readers of the binlog stream: the common event header, the
 * FORMAT_DESCRIPTION, ROTATE, QUERY, XID and TABLE_MAP bodies and the
 * write/update/delete rows bodies of versions 1 and 2, together with the
 * table filter and the resume position that the events iterator consults.
 * Each reader is a function from the bytes and the offset to the event,
 * and a method that reads the same event off a buffer.
 */
module Events {
  import opened Wrappers
  import opened Bytes
  import opened Errors
  import opened Buffers
  import opened Records
  import ET = EventTypes
  import ColumnMetadata
  import OptionalMetadata
  import Rows

  // ---------------------------------------------------------------- configuration

  /**
   * The client's configuration: the replication account and the slave id
   * the connection registers with, where to resume, and which tables to keep.
   */
  datatype Config = Config(
    user: Bytes,
    password: Bytes,
    port: int,
    slaveId: int,
    binlogFile: Option<Bytes>,
    binlogPosition: Option<int>,
    tables: Option<seq<Bytes>>,
    excludeTables: Option<seq<Bytes>>,
    databases: Option<seq<Bytes>>,
    excludeDatabases: Option<seq<Bytes>>)

  /** A list that is set and holds at least one name. */
  predicate Listed(list: Option<seq<Bytes>>)
  {
    list.Some? && |list.value| > 0
  }

  predicate Include(c: Config)
  {
    Listed(c.tables) || Listed(c.databases)
  }

  predicate Exclude(c: Config)
  {
    Listed(c.excludeTables) || Listed(c.excludeDatabases)
  }

  /** `"{schema}.{table}"`. */
  function QualifiedName(t: TableMap): (r: Bytes)
    ensures |r| == |t.schema| + 1 + |t.table| && r[|t.schema|] == '.' as Byte
  {
    t.schema + ['.' as Byte] + t.table
  }

  /**
   * `check`: whether the rows of this table are dropped. With an include
   * list, a schema or a qualified name missing from a set list drops the
   * table; with an exclude list, one present in a set list drops it.
   */
  predicate Filtered(c: Config, t: TableMap)
  {
    if !(Include(c) || Exclude(c)) then false
    else if Include(c) && c.databases.Some? && t.schema !in c.databases.value then true
    else if Include(c) && c.tables.Some? && QualifiedName(t) !in c.tables.value then true
    else if Exclude(c) && c.excludeDatabases.Some? && t.schema in c.excludeDatabases.value then true
    else if Exclude(c) && c.excludeTables.Some? && QualifiedName(t) in c.excludeTables.value then true
    else false
  }

  /** PHP truthiness of an optional integer. */
  predicate TruthyInt(v: Option<int>)
  {
    v.Some? && v.value != 0
  }

  /** Whether the iterator is still before the configured resume point of the same file. */
  predicate Resuming(c: Config, position: BinlogPosition)
  {
    && TruthyInt(c.binlogPosition) && Rows.Truthy(c.binlogFile)
    && c.binlogFile.value == position.filename
    && c.binlogPosition.value > position.position
  }

  /** `getPosition`: the configured position while resuming, the current one otherwise. */
  function ReportedPosition(c: Config, position: BinlogPosition): (r: BinlogPosition)
    ensures r.filename == position.filename && r.position >= position.position
    ensures r != position <==> Resuming(c, position)
    ensures Resuming(c, position) ==> r == BinlogPosition(c.binlogFile.value, c.binlogPosition.value)
  {
    if Resuming(c, position) then BinlogPosition(c.binlogFile.value, c.binlogPosition.value) else position
  }

  // ---------------------------------------------------------------- the event header

  /** Bytes of the common header after the packet's status byte. */
  const HEADER_SIZE: nat := 19

  /** The unsigned little-endian integer of n bytes at pos. */
  function UIntAt(data: Bytes, pos: nat, n: nat): (v: nat)
    requires pos + n <= |data|
    ensures v < Pow256(n)
  {
    LE(data[pos..pos + n])
  }

  /** The header's checksum applies once a FORMAT_DESCRIPTION with a non-zero algorithm has been seen. */
  predicate ChecksumEnabled(fd: Option<Event>)
  {
    fd.Some? && fd.value.FormatDescription? && fd.value.checksumAlgorithmType > 0
  }

  /**
   * `readEventHeader` at pos: timestamp, type code, server id, event size,
   * the event's own 32-bit next position and the flags. The type code is
   * checked (`Type::from`) before the fields after it are read. The next position
   * the iterator tracks grows by the event size, except for a heartbeat.
   */
  function HeaderAt(data: Bytes, pos: nat, fd: Option<Event>, position: BinlogPosition, nextOffset: int)
    : (r: Outcome<Header>)
    ensures r.Ok? <==> pos + HEADER_SIZE <= |data| && ET.From(data[pos + 4]).Ok?
    ensures pos + 5 <= |data| && ET.From(data[pos + 4]).Err? ==> r == Err(ET.From(data[pos + 4]).error)
    ensures pos + HEADER_SIZE > |data| && (pos + 5 > |data| || ET.From(data[pos + 4]).Ok?) ==> r == Err(ReadPastEnd)
    ensures r.Ok? ==>
      var h := r.value;
      && h.position == position
      && ET.Value(h.eventType) == data[pos + 4]
      && (h.checksumSize == 4 <==> ChecksumEnabled(fd))
      && (h.checksumSize == 0 <==> !ChecksumEnabled(fd))
      && h.payloadSize == h.eventSize + 1 - h.checksumSize
      && h.nextPosition.filename == h.nextPositionShort.filename == position.filename
      && h.nextPosition.position == nextOffset + (if h.eventType == ET.HEARTBEAT_EVENT then 0 else h.eventSize)
      && h.eventSize < 0x1_0000_0000 && h.nextPositionShort.position < 0x1_0000_0000
  {
    if pos + 5 > |data| then Err(ReadPastEnd)
    else match ET.From(data[pos + 4])
      case Err(e) => Err(e)
      case Ok(t) =>
        if pos + HEADER_SIZE > |data| then Err(ReadPastEnd)
        else
          ET.FromSound(data[pos + 4]);
          Ok(MakeHeader(position, UIntAt(data, pos, 4), t, UIntAt(data, pos + 5, 4), UIntAt(data, pos + 9, 4),
                        UIntAt(data, pos + 13, 4), nextOffset, UIntAt(data, pos + 17, 2), fd))
  }

  /** The header built from its fields, the running offset before it and the current FORMAT_DESCRIPTION. */
  function MakeHeader(position: BinlogPosition, timestamp: nat, t: ET.EventType, serverId: nat, eventSize: nat,
                      nextPositionShort: nat, nextOffset: int, flags: nat, fd: Option<Event>): Header
  {
    var checksumSize := if ChecksumEnabled(fd) then 4 else 0;
    Header(
      position,
      timestamp,
      t,
      serverId,
      eventSize,
      BinlogPosition(position.filename, nextPositionShort),
      BinlogPosition(position.filename, if t == ET.HEARTBEAT_EVENT then nextOffset else nextOffset + eventSize),
      flags,
      checksumSize,
      eventSize + 1 - checksumSize)
  }

  /** A slice of a slice is a slice of the whole. */
  lemma SliceOf(data: Bytes, pos: nat, len: nat, k: nat, n: nat)
    requires pos + len <= |data| && k + n <= len
    ensures data[pos..pos + len][k..k + n] == data[pos + k..pos + k + n]
  {
    var u, v := data[pos..pos + len][k..k + n], data[pos + k..pos + k + n];
    assert forall i | 0 <= i < n :: u[i] == v[i];
  }

  /** The 19 header bytes a server writes for these fields. */
  function EncodeHeader(timestamp: nat, t: ET.EventType, serverId: nat, eventSize: nat, nextPosition: nat, flags: nat): (s: Bytes)
    ensures |s| == HEADER_SIZE
  {
    LEBytes(timestamp, 4) + [ET.Value(t) as Byte] + LEBytes(serverId, 4) + LEBytes(eventSize, 4)
      + LEBytes(nextPosition, 4) + LEBytes(flags, 2)
  }

  /** The pieces of an encoded header sit at their offsets. */
  lemma EncodedPieces(timestamp: nat, t: ET.EventType, serverId: nat, eventSize: nat, nextPosition: nat, flags: nat,
                      data: Bytes, pos: nat)
    requires pos + HEADER_SIZE <= |data| && data[pos..pos + HEADER_SIZE] == EncodeHeader(timestamp, t, serverId, eventSize, nextPosition, flags)
    ensures data[pos + 4] == ET.Value(t)
    ensures data[pos..pos + 4] == LEBytes(timestamp, 4) && data[pos + 5..pos + 9] == LEBytes(serverId, 4)
    ensures data[pos + 9..pos + 13] == LEBytes(eventSize, 4) && data[pos + 13..pos + 17] == LEBytes(nextPosition, 4)
    ensures data[pos + 17..pos + 19] == LEBytes(flags, 2)
  {
    HeaderPieces(LEBytes(timestamp, 4), ET.Value(t) as Byte, LEBytes(serverId, 4), LEBytes(eventSize, 4),
                 LEBytes(nextPosition, 4), LEBytes(flags, 2));
    SliceOf(data, pos, HEADER_SIZE, 0, 4);
    SliceOf(data, pos, HEADER_SIZE, 5, 4);
    SliceOf(data, pos, HEADER_SIZE, 9, 4);
    SliceOf(data, pos, HEADER_SIZE, 13, 4);
    SliceOf(data, pos, HEADER_SIZE, 17, 2);
  }

  /** Where each piece of a 19-byte header sits. */
  lemma HeaderPieces(a: Bytes, b: Byte, c: Bytes, d: Bytes, f: Bytes, g: Bytes)
    requires |a| == 4 && |c| == 4 && |d| == 4 && |f| == 4 && |g| == 2
    ensures var w := a + [b] + c + d + f + g;
      w[0..4] == a && w[4] == b && w[5..9] == c && w[9..13] == d && w[13..17] == f && w[17..19] == g
  {
  }

  /** The fields of an encoded header decode to the values written. */
  lemma EncodedFields(timestamp: nat, t: ET.EventType, serverId: nat, eventSize: nat, nextPosition: nat, flags: nat,
                      data: Bytes, pos: nat)
    requires timestamp < 0x1_0000_0000 && serverId < 0x1_0000_0000 && eventSize < 0x1_0000_0000
    requires nextPosition < 0x1_0000_0000 && flags < 0x1_0000
    requires pos + HEADER_SIZE <= |data| && data[pos..pos + HEADER_SIZE] == EncodeHeader(timestamp, t, serverId, eventSize, nextPosition, flags)
    ensures data[pos + 4] == ET.Value(t)
    ensures UIntAt(data, pos, 4) == timestamp && UIntAt(data, pos + 5, 4) == serverId && UIntAt(data, pos + 9, 4) == eventSize
    ensures UIntAt(data, pos + 13, 4) == nextPosition && UIntAt(data, pos + 17, 2) == flags
  {
    EncodedPieces(timestamp, t, serverId, eventSize, nextPosition, flags, data, pos);
    assert Pow256(4) == 0x1_0000_0000 && Pow256(2) == 0x1_0000 by {
      assert Pow256(1) == 0x100;
      assert Pow256(2) == 0x1_0000;
      assert Pow256(3) == 0x100_0000;
    }
    LEBytesRoundTrip(timestamp, 4);
    LEBytesRoundTrip(serverId, 4);
    LEBytesRoundTrip(eventSize, 4);
    LEBytesRoundTrip(nextPosition, 4);
    LEBytesRoundTrip(flags, 2);
  }

  /** Decoding the bytes of an encoded header gives back every field the server wrote. */
  lemma HeaderRoundTrip(timestamp: nat, t: ET.EventType, serverId: nat, eventSize: nat, nextPosition: nat, flags: nat,
                        fd: Option<Event>, position: BinlogPosition, nextOffset: int, data: Bytes, pos: nat)
    requires timestamp < 0x1_0000_0000 && serverId < 0x1_0000_0000 && eventSize < 0x1_0000_0000
    requires nextPosition < 0x1_0000_0000 && flags < 0x1_0000
    requires pos + HEADER_SIZE <= |data| && data[pos..pos + HEADER_SIZE] == EncodeHeader(timestamp, t, serverId, eventSize, nextPosition, flags)
    ensures var r := HeaderAt(data, pos, fd, position, nextOffset);
      && r.Ok? && r.value.timestamp == timestamp && r.value.eventType == t && r.value.serverId == serverId
      && r.value.eventSize == eventSize && r.value.nextPositionShort.position == nextPosition && r.value.flags == flags
  {
    EncodedFields(timestamp, t, serverId, eventSize, nextPosition, flags, data, pos);
    ET.FromValue(t);
  }

  // ---------------------------------------------------------------- NUL trimming

  /** The number of NUL bytes s starts with. */
  function LeadingNuls(s: Bytes): (k: nat)
    ensures k <= |s|
    ensures forall i :: 0 <= i < k ==> s[i] == 0
    ensures k < |s| ==> s[k] != 0
  {
    if s == [] || s[0] != 0 then 0 else 1 + LeadingNuls(s[1..])
  }

  /** The number of NUL bytes s ends with. */
  function TrailingNuls(s: Bytes): (k: nat)
    ensures k <= |s|
    ensures forall i :: |s| - k <= i < |s| ==> s[i] == 0
    ensures k < |s| ==> s[|s| - k - 1] != 0
  {
    if s == [] || s[|s| - 1] != 0 then 0 else 1 + TrailingNuls(s[..|s| - 1])
  }

  /** `trim($s, "\0")`: s without its leading and trailing NUL bytes. */
  function TrimNul(s: Bytes): (r: Bytes)
    ensures r == [] || (r[0] != 0 && r[|r| - 1] != 0)
    ensures |r| <= |s|
  {
    var t := s[LeadingNuls(s)..];
    t[..|t| - TrailingNuls(t)]
  }

  /** n NUL bytes. */
  function NulBytes(n: nat): (r: Bytes)
    ensures |r| == n && forall i :: 0 <= i < n ==> r[i] == 0
  {
    seq(n, _ => 0)
  }

  /** The leading-NUL count is the one k whose prefix is all NUL and which stops at a non-NUL byte. */
  lemma LeadingNulsUnique(s: Bytes, k: nat)
    requires k <= |s| && (forall i :: 0 <= i < k ==> s[i] == 0) && (k < |s| ==> s[k] != 0)
    ensures LeadingNuls(s) == k
  {
    var l := LeadingNuls(s);
  }

  lemma TrailingNulsUnique(s: Bytes, k: nat)
    requires k <= |s| && (forall i :: |s| - k <= i < |s| ==> s[i] == 0) && (k < |s| ==> s[|s| - k - 1] != 0)
    ensures TrailingNuls(s) == k
  {
    var l := TrailingNuls(s);
  }

  /** A value that neither starts nor ends with NUL comes back from any NUL padding around it. */
  lemma TrimNulPadded(a: nat, v: Bytes, b: nat)
    requires v == [] || (v[0] != 0 && v[|v| - 1] != 0)
    ensures TrimNul(NulBytes(a) + v + NulBytes(b)) == v
  {
    var s := NulBytes(a) + v + NulBytes(b);
    if v == [] {
      LeadingNulsUnique(s, |s|);
    } else {
      LeadingNulsUnique(s, a);
      var t := s[a..];
      assert t == v + NulBytes(b);
      TrailingNulsUnique(t, b);
      assert t[..|t| - b] == v;
    }
  }

  // ---------------------------------------------------------------- event bodies

  /** PHP_INT_MAX: what `(int)` makes of a decimal string beyond the 64-bit signed range. */
  const PHP_INT_MAX: int := 0x7fff_ffff_ffff_ffff

  /** What `readUInt64` returns for the unsigned value u: an integer below 2^63, its decimal string above. */
  function NumberOf(u: nat): Number
  {
    if u < Half(8) then AsInt(u) else AsText(NatToDec(u))
  }

  /** `(int)` of a `readUInt64` result. */
  function IntOf(v: Number): int
  {
    match v
    case AsInt(i) => i
    case AsText(_) => PHP_INT_MAX
  }

  /** `(string)` of a `readUInt64` result. */
  function TextOf(v: Number): string
  {
    match v
    case AsInt(i) => IntToDec(i)
    case AsText(t) => t
  }

  /** A 64-bit position as `(int) readUInt64()` gives it: the value itself below 2^63, PHP_INT_MAX above. */
  lemma IntOfNumber(u: nat)
    ensures IntOf(NumberOf(u)) == if u <= PHP_INT_MAX then u else PHP_INT_MAX
  {
    assert Half(8) == PHP_INT_MAX + 1 by {
      assert Pow256(7) == 0x100_0000_0000_0000 by {
        assert Pow256(1) == 0x100;
        assert Pow256(3) == 0x100_0000;
        assert Pow256(5) == 0x100_0000_0000;
      }
    }
  }

  /**
   * `readRotateEvent`: the 64-bit position, then the file name up to the
   * payload end. A payload size short of the position field gives `read` a
   * negative length, which `substr` turns into that many bytes cut off the
   * end of the data.
   */
  function RotateAt(data: Bytes, pos: nat, h: Header): (r: Outcome<Event>)
    ensures pos + 8 <= |data| <==> r.Ok?
    ensures r.Ok? ==> (
      && r.value.Rotate? && r.value.header == h
      && 0 <= r.value.position <= PHP_INT_MAX
      && (UIntAt(data, pos, 8) <= PHP_INT_MAX ==> r.value.position == UIntAt(data, pos, 8))
      && (pos + 8 <= h.payloadSize <= |data| ==> r.value.filename == data[pos + 8..h.payloadSize])
      && (h.payloadSize < pos + 8 ==> r.value.filename == SubstrCut(data, pos + 8, pos + 8 - h.payloadSize)))
  {
    if pos + 8 > |data| then Err(ReadPastEnd)
    else
      IntOfNumber(UIntAt(data, pos, 8));
      Ok(Rotate(h, IntOf(NumberOf(UIntAt(data, pos, 8))), PhpSubstr(data, pos + 8, h.payloadSize - (pos + 8))))
  }

  /** `readXidEvent`: the transaction id as decimal text. */
  function XidAt(data: Bytes, pos: nat, h: Header): (r: Outcome<Event>)
    ensures pos + 8 <= |data| <==> r.Ok?
    ensures r.Ok? ==> r.value == Xid(h, NatToDec(UIntAt(data, pos, 8)))
  {
    if pos + 8 > |data| then Err(ReadPastEnd)
    else Ok(Xid(h, TextOf(NumberOf(UIntAt(data, pos, 8)))))
  }

  /**
   * `readQueryEvent`: proxy id, execution time, schema length, error code
   * and status-variables length; the status variables are skipped, then
   * come the schema and the query text up to the payload end.
   */
  function QueryAt(data: Bytes, pos: nat, h: Header): (r: Outcome<Event>)
    ensures r.Ok? <==> pos + 13 <= |data|
    ensures r.Ok? ==> (
      var schemaAt := pos + 13 + UIntAt(data, pos + 11, 2);
      var queryAt := schemaAt + data[pos + 8];
      && r.value.Query? && r.value.header == h
      && r.value.schemaLength == data[pos + 8] && r.value.statusVarsLength == UIntAt(data, pos + 11, 2)
      && r.value.schema == Substr(data, schemaAt, Some(data[pos + 8]))
      && (queryAt <= h.payloadSize <= |data| ==> r.value.query == data[queryAt..h.payloadSize])
      && (h.payloadSize < queryAt <= |data| ==> r.value.query == SubstrCut(data, queryAt, queryAt - h.payloadSize))
      && (queryAt > |data| ==> r.value.query == []))
  {
    if pos + 13 > |data| then Err(ReadPastEnd)
    else
      var schemaLength := data[pos + 8];
      var statusVarsLength := UIntAt(data, pos + 11, 2);
      var schemaAt := pos + 13 + statusVarsLength;
      var queryAt := schemaAt + schemaLength;
      Ok(Query(h, UIntAt(data, pos, 4), UIntAt(data, pos + 4, 4), schemaLength, UIntAt(data, pos + 9, 2),
                    statusVarsLength, Substr(data, schemaAt, Some(schemaLength)),
                    PhpSubstr(data, queryAt, h.payloadSize - queryAt)))
  }

  /** A QUERY body that holds its fixed fields is read field by field. */
  lemma QueryAtOf(data: Bytes, pos: nat, h: Header)
    requires pos + 13 <= |data|
    ensures var schemaAt := pos + 13 + UIntAt(data, pos + 11, 2);
      var queryAt := schemaAt + data[pos + 8];
      QueryAt(data, pos, h)
      == Ok(Query(h, UIntAt(data, pos, 4), UIntAt(data, pos + 4, 4), data[pos + 8], UIntAt(data, pos + 9, 2),
                  UIntAt(data, pos + 11, 2), Substr(data, schemaAt, Some(data[pos + 8])),
                  PhpSubstr(data, queryAt, h.payloadSize - queryAt)))
  {
  }

  /** Bytes of a FORMAT_DESCRIPTION body before the post-header lengths: version, server version, timestamp, header length. */
  const FD_FIXED: nat := 2 + 50 + 4 + 1

  /**
   * `readFormatDescriptionEvent`: binlog version, the NUL-padded 50-byte
   * server version, creation time, header length, the post-header lengths
   * (the event size less the header, the fixed part, the algorithm byte and
   * the 4-byte checksum), then the checksum algorithm. When that count is
   * negative, `read` takes what `substr` leaves and moves the offset back,
   * so the algorithm byte is read from before the post-header lengths.
   */
  function FormatDescriptionAt(data: Bytes, pos: nat, h: Header): (r: Outcome<Event>)
    ensures pos + FD_FIXED <= |data| ==>
      (var n := h.eventSize - data[pos + FD_FIXED - 1] - FD_FIXED - 1 - 4;
       r.Ok? <==> 0 <= pos + FD_FIXED + n < |data|)
    ensures r.Ok? ==> pos + FD_FIXED <= |data|
    ensures r.Ok? ==> (
      var n := h.eventSize - data[pos + FD_FIXED - 1] - FD_FIXED - 1 - 4;
      && r.value.FormatDescription? && r.value.header == h
      && r.value.eventHeaderLength == data[pos + FD_FIXED - 1]
      && (0 <= n ==> r.value.postHeaderEventLengths == data[pos + FD_FIXED..pos + FD_FIXED + n])
      && (n < 0 ==> r.value.postHeaderEventLengths == SubstrCut(data, pos + FD_FIXED, -n))
      && r.value.checksumAlgorithmType == data[pos + FD_FIXED + n]
      && |r.value.serverVersion| <= 50)
  {
    if pos + FD_FIXED > |data| then Err(ReadPastEnd)
    else
      var headerLength := data[pos + FD_FIXED - 1];
      var n := h.eventSize - headerLength - FD_FIXED - 1 - 4;
      if pos + FD_FIXED + n < 0 || pos + FD_FIXED + n >= |data| then Err(ReadPastEnd)
      else Ok(FormatDescription(h, UIntAt(data, pos, 2), TrimNul(data[pos + 2..pos + 52]), UIntAt(data, pos + 52, 4),
                                headerLength, PhpSubstr(data, pos + FD_FIXED, n), data[pos + FD_FIXED + n]))
  }

  /** The FORMAT_DESCRIPTION fields once the fixed part is known to be present. */
  lemma FormatDescriptionAtOf(data: Bytes, pos: nat, h: Header, n: int)
    requires pos + FD_FIXED <= |data| && n == h.eventSize - data[pos + FD_FIXED - 1] - FD_FIXED - 1 - 4
    ensures FormatDescriptionAt(data, pos, h)
      == if pos + FD_FIXED + n < 0 || pos + FD_FIXED + n >= |data| then Err(ReadPastEnd)
         else Ok(FormatDescription(h, UIntAt(data, pos, 2), TrimNul(data[pos + 2..pos + 52]), UIntAt(data, pos + 52, 4),
                                   data[pos + FD_FIXED - 1], PhpSubstr(data, pos + FD_FIXED, n), data[pos + FD_FIXED + n]))
  {
  }

  /** `readColumns` yields one metadata entry per counted column. */
  lemma ReadColumnsCount(data: Bytes, start: nat, count: nat)
    requires ColumnMetadata.ReadColumnsSpec(data, start, count).Ok?
    ensures |ColumnMetadata.ReadColumnsSpec(data, start, count).value.0| == count
  {
    var p := start + count;
    ColumnMetadata.ReadColumnsSpecColumns(data, start, count);
    ColumnMetadata.ColumnsShape(data, Substr(data, start, Some(count)), count, p + CodedWidth(data[p]));
  }

  /**
   * `readTableMapEvent`: table id, flags, the schema and table names (each
   * with a length byte before it and a NUL after it), the column count, the
   * column metadata, the nullability bitmap, then the optional metadata up
   * to the payload end. A null column count is refused by `readColumns`.
   */
  function TableMapAt(data: Bytes, pos: nat, h: Header): (r: Outcome<TableMap>)
    ensures pos + 9 > |data| ==> r == Err(ReadPastEnd)
    ensures r.Ok? ==> (
      && pos + 9 <= |data| && r.value.header == h && r.value.tableId == UIntAt(data, pos, 6)
      && r.value.flags == UIntAt(data, pos + 6, 2)
      && r.value.schema == Substr(data, pos + 9, Some(data[pos + 8]))
      && |r.value.columns| == r.value.columnCount)
  {
    if pos + 9 > |data| then Err(ReadPastEnd)
    else TableMapNamed(data, pos + 9 + data[pos + 8] + 1, h, UIntAt(data, pos, 6), UIntAt(data, pos + 6, 2),
                       Substr(data, pos + 9, Some(data[pos + 8])))
  }

  /** A table map from the table name's length byte on. */
  function TableMapNamed(data: Bytes, tableLengthAt: nat, h: Header, tableId: nat, flags: nat, schema: Bytes)
    : (r: Outcome<TableMap>)
    ensures tableLengthAt >= |data| ==> r == Err(ReadPastEnd)
  {
    if tableLengthAt >= |data| then Err(ReadPastEnd)
    else TableMapBody(data, tableLengthAt + 1 + data[tableLengthAt] + 1, h, tableId, flags, schema,
                      Substr(data, tableLengthAt + 1, Some(data[tableLengthAt])))
  }

  /** Once the table name is read, a table map continues with its column count. */
  lemma TableMapNamedBody(data: Bytes, at: nat, h: Header, tableId: nat, flags: nat, schema: Bytes, table: Bytes, countAt: nat)
    requires at < |data| && table == Substr(data, at + 1, Some(data[at])) && countAt == at + 1 + data[at] + 1
    ensures TableMapNamed(data, at, h, tableId, flags, schema) == TableMapBody(data, countAt, h, tableId, flags, schema, table)
  {
  }

  /** A table map from its column count on. */
  function TableMapBody(data: Bytes, countAt: nat, h: Header, tableId: nat, flags: nat, schema: Bytes, table: Bytes)
    : (r: Outcome<TableMap>)
    ensures r.Ok? ==> (
      && r.value.header == h && r.value.tableId == tableId && r.value.flags == flags
      && r.value.schema == schema && r.value.table == table
      && |r.value.columns| == r.value.columnCount)
  {
    if countAt >= |data| || countAt + CodedWidth(data[countAt]) > |data| then Err(ReadPastEnd)
    else TableMapCounted(CodedValue(data[countAt..countAt + CodedWidth(data[countAt])]), data,
                         countAt + CodedWidth(data[countAt]), h, tableId, flags, schema, table)
  }

  /** A table map once its column count is decoded; a null count is refused by `readColumns`. */
  function TableMapCounted(count: Outcome<Option<nat>>, data: Bytes, start: nat, h: Header, tableId: nat, flags: nat,
                           schema: Bytes, table: Bytes): (r: Outcome<TableMap>)
    ensures count.Err? ==> r == Err(count.error)
    ensures count == Ok(None) ==> r == Err(TypeError)
    ensures r.Ok? ==> (
      && count.Ok? && count.value.Some? && r.value.columnCount == count.value.value
      && r.value.header == h && r.value.tableId == tableId && r.value.flags == flags
      && r.value.schema == schema && r.value.table == table
      && |r.value.columns| == r.value.columnCount)
  {
    match count
    case Err(e) => Err(e)
    case Ok(None) => Err(TypeError)
    case Ok(Some(n)) => TableMapColumns(data, start, h, tableId, flags, schema, table, n)
  }

  /** A table map from its column types on, for `columnCount` columns. */
  function TableMapColumns(data: Bytes, start: nat, h: Header, tableId: nat, flags: nat, schema: Bytes, table: Bytes,
                           columnCount: nat): (r: Outcome<TableMap>)
    ensures r.Ok? ==> (
      && r.value.header == h && r.value.tableId == tableId && r.value.flags == flags
      && r.value.schema == schema && r.value.table == table && r.value.columnCount == columnCount
      && |r.value.columns| == columnCount)
  {
    match ColumnMetadata.ReadColumnsSpec(data, start, columnCount)
    case Err(e) => Err(e)
    case Ok(read) =>
      ReadColumnsCount(data, start, columnCount);
      TableMapRead(data, read.1, h, tableId, flags, schema, table, columnCount, read.0)
  }

  /** The table map once the column metadata `metas` is read and ends at `at`: the nullability bitmap, then the optional metadata. */
  function TableMapRead(data: Bytes, at: nat, h: Header, tableId: nat, flags: nat, schema: Bytes, table: Bytes,
                        columnCount: nat, metas: seq<Meta>): Outcome<TableMap>
  {
    TableMapOf(h, tableId, flags, schema, table, columnCount, Substr(data, at, Some((columnCount + 7) / 8)),
               OptionalMetadata.OptionalMetadataSpec(data, h.payloadSize, at + (columnCount + 7) / 8, metas, columnCount))
  }

  /** The table map from its fixed fields, the nullability bitmap and the described columns, or the describer's exception. */
  function TableMapOf(h: Header, tableId: nat, flags: nat, schema: Bytes, table: Bytes, columnCount: nat,
                      nullable: Bytes, described: Outcome<(seq<Column>, Option<PrimaryKey>)>): (r: Outcome<TableMap>)
    ensures r.Ok? <==> described.Ok?
    ensures r.Err? ==> r.error == described.error
    ensures r.Ok? ==> r.value == TableMap(h, tableId, flags, schema, table, columnCount, described.value.0, nullable, described.value.1)
  {
    match described
    case Err(e) => Err(e)
    case Ok(d) => Ok(TableMap(h, tableId, flags, schema, table, columnCount, d.0, nullable, d.1))
  }

  /** Once the column metadata is read, a table map is its bitmap and whatever the describer makes of the bytes after it. */
  lemma TableMapColumnsRead(data: Bytes, start: nat, h: Header, tableId: nat, flags: nat, schema: Bytes, table: Bytes,
                            columnCount: nat, metas: seq<Meta>, at: nat)
    requires ColumnMetadata.ReadColumnsSpec(data, start, columnCount) == Ok((metas, at))
    ensures TableMapColumns(data, start, h, tableId, flags, schema, table, columnCount)
         == TableMapRead(data, at, h, tableId, flags, schema, table, columnCount, metas)
  {
  }

  // ---------------------------------------------------------------- rows events

  predicate IsRowsType(t: ET.EventType)
  {
    || t == ET.WRITE_ROWS_EVENTv1 || t == ET.WRITE_ROWS_EVENTv2
    || t == ET.UPDATE_ROWS_EVENTv1 || t == ET.UPDATE_ROWS_EVENTv2
    || t == ET.DELETE_ROWS_EVENTv1 || t == ET.DELETE_ROWS_EVENTv2
  }

  /** Version 2 bodies carry an extra-data length after the flags. */
  predicate IsVersion2(t: ET.EventType)
  {
    t == ET.WRITE_ROWS_EVENTv2 || t == ET.UPDATE_ROWS_EVENTv2 || t == ET.DELETE_ROWS_EVENTv2
  }

  function KindOf(t: ET.EventType): RowsKind
  {
    if t == ET.WRITE_ROWS_EVENTv1 || t == ET.WRITE_ROWS_EVENTv2 then WriteRows
    else if t == ET.UPDATE_ROWS_EVENTv1 || t == ET.UPDATE_ROWS_EVENTv2 then UpdateRows
    else DeleteRows
  }

  /** Where the column count of a rows body starts: after the flags, and in version 2 after `floor(extra length / 8)` more bytes. */
  function CountAt(data: Bytes, flagsAt: nat, v2: bool): nat
    requires flagsAt + (if v2 then 4 else 2) <= |data|
  {
    if v2 then flagsAt + 4 + UIntAt(data, flagsAt + 2, 2) / 8 else flagsAt + 2
  }

  /** The shape every decoded rows event has. */
  predicate RowsEventShaped(e: Event, h: Header, tableId: nat, tableMap: TableMap, flags: nat)
  {
    && e.RowsEvent? && e.header == h && e.kind == KindOf(h.eventType)
    && e.tableId == tableId && e.tableMap == tableMap && e.flags == flags
    && e.count == |e.rows|
    && |e.columnsBitmap| <= (e.columnCount + 7) / 8
    && (e.columnsBitmapAfter.Some? <==> e.kind == UpdateRows)
    && forall j :: 0 <= j < |e.rows| ==> (e.rows[j].Pair? <==> e.kind == UpdateRows)
  }

  /**
   * The `read{Write,Update,Delete}RowsEventV{1,2}` readers: the table id, the
   * table's map (a missing one reaches `check` as null, a TypeError), the
   * filter, the flags, the column count, the columns bitmap (twice for
   * an update: before and after), then the rows up to the payload end.
   * The result is nothing exactly when the table is filtered out.
   */
  function RowsEventAt(data: Bytes, pos: nat, h: Header, tableMaps: map<nat, TableMap>, config: Config)
    : (r: Outcome<Option<Event>>)
    requires IsRowsType(h.eventType)
    ensures pos + 6 <= |data| && UIntAt(data, pos, 6) !in tableMaps ==> r == Err(TypeError)
    ensures r == Ok(None) <==> pos + 6 <= |data| && UIntAt(data, pos, 6) in tableMaps && Filtered(config, tableMaps[UIntAt(data, pos, 6)])
    ensures r.Ok? && r.value.Some? ==> (
      && pos + 8 <= |data| && UIntAt(data, pos, 6) in tableMaps
      && !Filtered(config, tableMaps[UIntAt(data, pos, 6)])
      && RowsEventShaped(r.value.value, h, UIntAt(data, pos, 6), tableMaps[UIntAt(data, pos, 6)], UIntAt(data, pos + 6, 2)))
  {
    if pos + 6 > |data| then Err(ReadPastEnd)
    else if UIntAt(data, pos, 6) !in tableMaps then Err(TypeError)
    else if Filtered(config, tableMaps[UIntAt(data, pos, 6)]) then Ok(None)
    else match RowsFlagged(data, pos + 6, h, UIntAt(data, pos, 6), tableMaps[UIntAt(data, pos, 6)])
      case Err(e) => Err(e)
      case Ok(e) => Ok(Some(e))
  }

  /** A rows event from its flags on. */
  function RowsFlagged(data: Bytes, flagsAt: nat, h: Header, tableId: nat, tableMap: TableMap): (r: Outcome<Event>)
    requires IsRowsType(h.eventType)
    ensures r.Ok? ==> flagsAt + 2 <= |data| && RowsEventShaped(r.value, h, tableId, tableMap, UIntAt(data, flagsAt, 2))
  {
    var v2 := IsVersion2(h.eventType);
    if flagsAt + (if v2 then 4 else 2) > |data| then Err(ReadPastEnd)
    else RowsBody(data, CountAt(data, flagsAt, v2), h, tableId, tableMap, UIntAt(data, flagsAt, 2))
  }

  /** A rows body from its column count on. */
  function RowsBody(data: Bytes, countAt: nat, h: Header, tableId: nat, tableMap: TableMap, flags: nat): (r: Outcome<Event>)
    requires IsRowsType(h.eventType)
    ensures r.Ok? ==> RowsEventShaped(r.value, h, tableId, tableMap, flags)
  {
    if countAt >= |data| || countAt + CodedWidth(data[countAt]) > |data| then Err(ReadPastEnd)
    else match CodedValue(data[countAt..countAt + CodedWidth(data[countAt])])
      case Err(e) => Err(e)
      case Ok(count) =>
        if count.None? then Err(TypeError)
        else RowsOf(data, countAt + CodedWidth(data[countAt]), h, tableId, tableMap, flags, count.value)
  }

  /** The bitmaps and the rows of a rows body. */
  function RowsOf(data: Bytes, bitmapAt: nat, h: Header, tableId: nat, tableMap: TableMap, flags: nat, count: nat)
    : (r: Outcome<Event>)
    requires IsRowsType(h.eventType)
    ensures r.Ok? ==> RowsEventShaped(r.value, h, tableId, tableMap, flags)
  {
    var bitmapLength := (count + 7) / 8;
    var bitmap := Substr(data, bitmapAt, Some(bitmapLength));
    var kind := KindOf(h.eventType);
    var after := if kind == UpdateRows then Some(Substr(data, bitmapAt + bitmapLength, Some(bitmapLength))) else None;
    var rowsAt := bitmapAt + bitmapLength + (if kind == UpdateRows then bitmapLength else 0);
    RowsEventOf(h, tableId, tableMap, flags, count, bitmap, after,
                Rows.RowsSpec(data, h.payloadSize, rowsAt, tableMap.columns, count, bitmap, after))
  }

  /** The rows event for the bitmaps and the rows decoded after them, or the rows decoder's exception. */
  function RowsEventOf(h: Header, tableId: nat, tableMap: TableMap, flags: nat, count: nat,
                       bitmap: Bytes, after: Option<Bytes>, rows: Outcome<seq<Row>>): (r: Outcome<Event>)
    requires IsRowsType(h.eventType)
    requires |bitmap| <= (count + 7) / 8 && (after.Some? <==> KindOf(h.eventType) == UpdateRows)
    requires rows.Ok? ==> forall j :: 0 <= j < |rows.value| ==> (rows.value[j].Pair? <==> after.Some?)
    ensures r.Ok? <==> rows.Ok?
    ensures r.Ok? ==> RowsEventShaped(r.value, h, tableId, tableMap, flags) && r.value.rows == rows.value
    ensures r.Err? ==> r.error == rows.error
  {
    match rows
    case Err(e) => Err(e)
    case Ok(rows) => Ok(RowsEvent(KindOf(h.eventType), h, tableId, tableMap, flags, count, bitmap, after, |rows|, rows))
  }

  // ---------------------------------------------------------------- properties of the filter

  /** With no list configured, no table is filtered. */
  lemma NothingFilteredUnconfigured(c: Config, t: TableMap)
    requires !Listed(c.tables) && !Listed(c.databases) && !Listed(c.excludeTables) && !Listed(c.excludeDatabases)
    ensures !Filtered(c, t)
  {
  }

  /** With only a database list, exactly the tables of other schemas are filtered. */
  lemma DatabasesOnly(c: Config, t: TableMap)
    requires Listed(c.databases) && c.tables.None? && c.excludeTables.None? && c.excludeDatabases.None?
    ensures Filtered(c, t) <==> t.schema !in c.databases.value
  {
  }

  /** With only a table list, exactly the tables whose qualified name is missing from it are filtered. */
  lemma TablesOnly(c: Config, t: TableMap)
    requires Listed(c.tables) && c.databases.None? && c.excludeTables.None? && c.excludeDatabases.None?
    ensures Filtered(c, t) <==> QualifiedName(t) !in c.tables.value
  {
  }

  /** With only exclude lists, exactly the tables named in them, by schema or qualified name, are filtered. */
  lemma ExcludesOnly(c: Config, t: TableMap)
    requires c.tables.None? && c.databases.None?
    ensures Filtered(c, t) <==>
      (c.excludeDatabases.Some? && t.schema in c.excludeDatabases.value)
      || (c.excludeTables.Some? && QualifiedName(t) in c.excludeTables.value)
  {
  }

  // ---------------------------------------------------------------- the readers on a buffer

  method ReadRotateEvent(buf: Buffer, h: Header) returns (r: Outcome<Event>)
    modifies buf`offset
    ensures r == RotateAt(buf.data, old(buf.offset), h)
  {
    if buf.offset + 8 > |buf.data| {
      return Err(ReadPastEnd);
    }
    var position := buf.ReadUInt64();
    var filename := ReadRest(buf, h.payloadSize - buf.offset);
    return Ok(Rotate(h, IntOf(position), filename));
  }

  /**
   * `read($n)` for a length that may be negative. The offset is a natural
   * number here: when it would go below zero the bytes are the same, but
   * the offset is left where it was; this happens only for the last read
   * of a ROTATE or QUERY body, after which the buffer is not read again.
   */
  method ReadRest(buf: Buffer, n: int) returns (s: Bytes)
    modifies buf`offset
    ensures s == PhpSubstr(buf.data, old(buf.offset), n)
    ensures buf.offset == if old(buf.offset) + n >= 0 then old(buf.offset) + n else old(buf.offset)
  {
    if buf.offset + n >= 0 {
      s := buf.Read(Some(n));
    } else {
      s := SubstrCut(buf.data, buf.offset, -n);
    }
  }

  method ReadXidEvent(buf: Buffer, h: Header) returns (r: Outcome<Event>)
    modifies buf`offset
    ensures r == XidAt(buf.data, old(buf.offset), h)
  {
    if buf.offset + 8 > |buf.data| {
      return Err(ReadPastEnd);
    }
    var xid := buf.ReadUInt64();
    IntToDecNat(UIntAt(buf.data, buf.offset - 8, 8));
    return Ok(Xid(h, TextOf(xid)));
  }

  /** A non-negative integer prints as its digits. */
  lemma IntToDecNat(u: nat)
    ensures TextOf(NumberOf(u)) == NatToDec(u)
  {
  }

  method ReadQueryEvent(buf: Buffer, h: Header) returns (r: Outcome<Event>)
    modifies buf`offset
    ensures r == QueryAt(buf.data, old(buf.offset), h)
  {
    ghost var pos := buf.offset;
    if buf.offset + 13 > |buf.data| {
      return Err(ReadPastEnd);
    }
    var slaveProxyId, executionTime, schemaLength, errorCode, statusVarsLength := ReadQueryFixed(buf);
    buf.Skip(statusVarsLength);
    var schema, query := ReadQueryTexts(buf, schemaLength, h.payloadSize);
    QueryAtOf(buf.data, pos, h);
    return Ok(Query(h, slaveProxyId, executionTime, schemaLength, errorCode, statusVarsLength, schema, query));
  }

  /** The 13 fixed bytes of a QUERY body: proxy id, execution time, schema length, error code, status-variables length. */
  method ReadQueryFixed(buf: Buffer) returns (slaveProxyId: nat, executionTime: nat, schemaLength: Byte, errorCode: nat,
                                              statusVarsLength: nat)
    requires buf.offset + 13 <= |buf.data|
    modifies buf`offset
    ensures buf.offset == old(buf.offset) + 13
    ensures var pos := old(buf.offset);
      && slaveProxyId == UIntAt(buf.data, pos, 4) && executionTime == UIntAt(buf.data, pos + 4, 4)
      && schemaLength == buf.data[pos + 8] && errorCode == UIntAt(buf.data, pos + 9, 2)
      && statusVarsLength == UIntAt(buf.data, pos + 11, 2)
  {
    slaveProxyId := buf.ReadUInt32();
    executionTime := buf.ReadUInt32();
    schemaLength := buf.ReadUInt8();
    errorCode := buf.ReadUInt16();
    statusVarsLength := buf.ReadUInt16();
  }

  /** The schema name of `schemaLength` bytes, then the query text up to the payload end. */
  method ReadQueryTexts(buf: Buffer, schemaLength: nat, payloadSize: int) returns (schema: Bytes, query: Bytes)
    modifies buf`offset
    ensures schema == Substr(buf.data, old(buf.offset), Some(schemaLength))
    ensures query == PhpSubstr(buf.data, old(buf.offset) + schemaLength, payloadSize - (old(buf.offset) + schemaLength))
  {
    schema := buf.Read(Some(schemaLength));
    query := ReadRest(buf, payloadSize - buf.offset);
  }

  method ReadFormatDescriptionEvent(buf: Buffer, h: Header) returns (r: Outcome<Event>)
    modifies buf`offset
    ensures r == FormatDescriptionAt(buf.data, old(buf.offset), h)
  {
    ghost var pos := buf.offset;
    if buf.offset + FD_FIXED > |buf.data| {
      return Err(ReadPastEnd);
    }
    var formatVersion := buf.ReadUInt16();
    assert formatVersion == UIntAt(buf.data, pos, 2);
    var serverVersion := buf.Read(Some(50));
    assert serverVersion == buf.data[pos + 2..pos + 52];
    var createTimestamp := buf.ReadUInt32();
    assert createTimestamp == UIntAt(buf.data, pos + 52, 4);
    var headerLength := buf.ReadUInt8();
    assert headerLength == buf.data[pos + FD_FIXED - 1] && buf.offset == pos + FD_FIXED;
    var n := h.eventSize - headerLength - FD_FIXED - 1 - 4;
    FormatDescriptionAtOf(buf.data, pos, h, n);
    if buf.offset + n < 0 || buf.offset + n >= |buf.data| {
      return Err(ReadPastEnd);
    }
    var postHeaderEventLengths := ReadRest(buf, n);
    assert postHeaderEventLengths == PhpSubstr(buf.data, pos + FD_FIXED, n);
    var checksumAlgorithmType := buf.ReadUInt8();
    assert checksumAlgorithmType == buf.data[pos + FD_FIXED + n];
    return Ok(FormatDescription(h, formatVersion, TrimNul(serverVersion), createTimestamp, headerLength,
                                postHeaderEventLengths, checksumAlgorithmType));
  }

  /** A name with its length byte before it, as `read(readUInt8())` reads it. */
  method ReadName(buf: Buffer) returns (name: Bytes)
    requires buf.offset < |buf.data|
    modifies buf`offset
    ensures name == Substr(buf.data, old(buf.offset) + 1, Some(buf.data[old(buf.offset)]))
    ensures buf.offset == old(buf.offset) + 1 + buf.data[old(buf.offset)]
  {
    var length := buf.ReadUInt8();
    name := buf.Read(Some(length));
  }

  method ReadTableMapEvent(buf: Buffer, h: Header) returns (r: Outcome<TableMap>)
    modifies buf`offset
    ensures r == TableMapAt(buf.data, old(buf.offset), h)
  {
    if buf.offset + 9 > |buf.data| {
      return Err(ReadPastEnd);
    }
    var tableId := buf.ReadUInt48();
    var flags := buf.ReadUInt16();
    var schema := ReadName(buf);
    buf.Skip(1);
    r := ReadTableMapNamed(buf, h, tableId, flags, schema);
  }

  method ReadTableMapNamed(buf: Buffer, h: Header, tableId: nat, flags: nat, schema: Bytes) returns (r: Outcome<TableMap>)
    modifies buf`offset
    ensures r == TableMapNamed(buf.data, old(buf.offset), h, tableId, flags, schema)
  {
    ghost var at := buf.offset;
    if buf.offset >= |buf.data| {
      return Err(ReadPastEnd);
    }
    var table := ReadName(buf);
    buf.Skip(1);
    TableMapNamedBody(buf.data, at, h, tableId, flags, schema, table, buf.offset);
    r := ReadTableMapBody(buf, h, tableId, flags, schema, table);
  }

  method ReadTableMapBody(buf: Buffer, h: Header, tableId: nat, flags: nat, schema: Bytes, table: Bytes)
    returns (r: Outcome<TableMap>)
    modifies buf`offset
    ensures r == TableMapBody(buf.data, old(buf.offset), h, tableId, flags, schema, table)
  {
    if buf.offset >= |buf.data| || buf.offset + CodedWidth(buf.data[buf.offset]) > |buf.data| {
      return Err(ReadPastEnd);
    }
    var count := buf.ReadCodedBinary();
    if count.Err? {
      return Err(count.error);
    }
    if count.value.None? {
      return Err(TypeError);
    }
    r := ReadTableMapColumns(buf, h, tableId, flags, schema, table, count.value.value);
  }

  method ReadTableMapColumns(buf: Buffer, h: Header, tableId: nat, flags: nat, schema: Bytes, table: Bytes,
                             columnCount: nat) returns (r: Outcome<TableMap>)
    modifies buf`offset
    ensures r == TableMapColumns(buf.data, old(buf.offset), h, tableId, flags, schema, table, columnCount)
  {
    ghost var start, d := buf.offset, buf.data;
    var metas := ColumnMetadata.ReadColumns(buf, columnCount);
    if metas.Err? {
      return Err(metas.error);
    }
    ghost var spec := TableMapRead(d, buf.offset, h, tableId, flags, schema, table, columnCount, metas.value);
    TableMapColumnsRead(d, start, h, tableId, flags, schema, table, columnCount, metas.value, buf.offset);
    r := ReadTableMapDescribed(buf, h, tableId, flags, schema, table, columnCount, metas.value);
    assert buf.data == d && r == spec;
  }

  method ReadTableMapDescribed(buf: Buffer, h: Header, tableId: nat, flags: nat, schema: Bytes, table: Bytes,
                               columnCount: nat, metas: seq<Meta>) returns (r: Outcome<TableMap>)
    modifies buf`offset
    ensures r == TableMapRead(buf.data, old(buf.offset), h, tableId, flags, schema, table, columnCount, metas)
  {
    ghost var at := buf.offset;
    ghost var n: nat := (columnCount + 7) / 8;
    var nullBitMap := buf.Read(Some((columnCount + 7) / 8));
    assert nullBitMap == Substr(buf.data, at, Some(n)) && buf.offset == at + n;
    var described := OptionalMetadata.ReadOptionalMetadata(buf, h.payloadSize, columnCount, metas);
    if described.Err? {
      return Err(described.error);
    }
    return Ok(TableMap(h, tableId, flags, schema, table, columnCount, described.value.0, nullBitMap, described.value.1));
  }


  /** The six rows readers: the table id, the filter, the flags, the version 2 extra data, then the body. */
  method ReadRowsEvent(buf: Buffer, h: Header, tableMaps: map<nat, TableMap>, config: Config, rowFactory: Rows.RowFactory)
    returns (r: Outcome<Option<Event>>)
    requires IsRowsType(h.eventType) && rowFactory.tableMaps == tableMaps
    modifies buf`offset
    ensures r == RowsEventAt(buf.data, old(buf.offset), h, tableMaps, config)
  {
    if buf.offset + 6 > |buf.data| {
      return Err(ReadPastEnd);
    }
    var tableId := buf.ReadUInt48();
    if tableId !in tableMaps {
      return Err(TypeError);
    }
    var tableMap := tableMaps[tableId];
    if Filtered(config, tableMap) {
      return Ok(None);
    }
    var e := ReadRowsFlagged(buf, h, tableId, tableMap, rowFactory);
    if e.Err? {
      return Err(e.error);
    }
    return Ok(Some(e.value));
  }

  method ReadRowsFlagged(buf: Buffer, h: Header, tableId: nat, tableMap: TableMap, rowFactory: Rows.RowFactory)
    returns (r: Outcome<Event>)
    requires IsRowsType(h.eventType) && tableId in rowFactory.tableMaps && rowFactory.tableMaps[tableId] == tableMap
    modifies buf`offset
    ensures r == RowsFlagged(buf.data, old(buf.offset), h, tableId, tableMap)
  {
    ghost var flagsAt := buf.offset;
    var v2 := IsVersion2(h.eventType);
    if buf.offset + (if v2 then 4 else 2) > |buf.data| {
      return Err(ReadPastEnd);
    }
    var flags := buf.ReadUInt16();
    assert flags == UIntAt(buf.data, flagsAt, 2);
    if v2 {
      var extraLength := buf.ReadUInt16();
      assert extraLength == UIntAt(buf.data, flagsAt + 2, 2);
      buf.Skip(extraLength / 8);
    }
    assert buf.offset == CountAt(buf.data, flagsAt, v2);
    r := ReadRowsBody(buf, h, tableId, tableMap, flags, rowFactory);
    assert RowsFlagged(buf.data, flagsAt, h, tableId, tableMap)
        == RowsBody(buf.data, CountAt(buf.data, flagsAt, v2), h, tableId, tableMap, UIntAt(buf.data, flagsAt, 2));
  }

  method ReadRowsBody(buf: Buffer, h: Header, tableId: nat, tableMap: TableMap, flags: nat, rowFactory: Rows.RowFactory)
    returns (r: Outcome<Event>)
    requires IsRowsType(h.eventType) && tableId in rowFactory.tableMaps && rowFactory.tableMaps[tableId] == tableMap
    modifies buf`offset
    ensures r == RowsBody(buf.data, old(buf.offset), h, tableId, tableMap, flags)
  {
    ghost var countAt := buf.offset;
    if buf.offset >= |buf.data| || buf.offset + CodedWidth(buf.data[buf.offset]) > |buf.data| {
      return Err(ReadPastEnd);
    }
    var count := buf.ReadCodedBinary();
    if count.Err? {
      return Err(count.error);
    }
    // a null count makes both bitmaps empty before `readRows` refuses it
    if count.value.None? {
      return Err(TypeError);
    }
    RowsBodyCounted(buf.data, countAt, h, tableId, tableMap, flags, count.value.value);
    r := ReadRowsOf(buf, h, tableId, tableMap, flags, count.value.value, rowFactory);
  }

  /** Once the column count is decoded, a rows body continues with its bitmaps. */
  lemma RowsBodyCounted(data: Bytes, countAt: nat, h: Header, tableId: nat, tableMap: TableMap, flags: nat, count: nat)
    requires IsRowsType(h.eventType)
    requires countAt < |data| && countAt + CodedWidth(data[countAt]) <= |data|
    requires CodedValue(data[countAt..countAt + CodedWidth(data[countAt])]) == Ok(Some(count))
    ensures RowsBody(data, countAt, h, tableId, tableMap, flags)
         == RowsOf(data, countAt + CodedWidth(data[countAt]), h, tableId, tableMap, flags, count)
  {
  }


  /** The rows event RowsOf describes: the bitmaps, then whatever the rows decoder makes of the bytes after them. */
  lemma RowsOfParts(data: Bytes, bitmapAt: nat, h: Header, tableId: nat, tableMap: TableMap, flags: nat, count: nat,
                    bitmap: Bytes, after: Option<Bytes>, rowsAt: nat)
    requires IsRowsType(h.eventType)
    requires bitmap == Substr(data, bitmapAt, Some((count + 7) / 8))
    requires after == if KindOf(h.eventType) == UpdateRows then Some(Substr(data, bitmapAt + (count + 7) / 8, Some((count + 7) / 8))) else None
    requires rowsAt == bitmapAt + (count + 7) / 8 + (if KindOf(h.eventType) == UpdateRows then (count + 7) / 8 else 0)
    ensures RowsOf(data, bitmapAt, h, tableId, tableMap, flags, count)
         == RowsEventOf(h, tableId, tableMap, flags, count, bitmap, after,
                        Rows.RowsSpec(data, h.payloadSize, rowsAt, tableMap.columns, count, bitmap, after))
  {
    if KindOf(h.eventType) == UpdateRows {
      assert after.Some?;
    } else {
      assert after.None?;
    }
  }

  method ReadRowsOf(buf: Buffer, h: Header, tableId: nat, tableMap: TableMap, flags: nat, count: nat, rowFactory: Rows.RowFactory)
    returns (r: Outcome<Event>)
    requires IsRowsType(h.eventType) && tableId in rowFactory.tableMaps && rowFactory.tableMaps[tableId] == tableMap
    modifies buf`offset
    ensures r == RowsOf(buf.data, old(buf.offset), h, tableId, tableMap, flags, count)
  {
    ghost var bitmapAt := buf.offset;
    var bitmapLength := (count + 7) / 8;
    var columnsBitmap := buf.Read(Some(bitmapLength));
    var columnsBitmapAfter := None;
    if KindOf(h.eventType) == UpdateRows {
      var after := buf.Read(Some(bitmapLength));
      columnsBitmapAfter := Some(after);
    }
    RowsOfParts(buf.data, bitmapAt, h, tableId, tableMap, flags, count, columnsBitmap, columnsBitmapAfter, buf.offset);
    r := ReadRowsAfterBitmaps(buf, h, tableId, tableMap, flags, count, columnsBitmap, columnsBitmapAfter, rowFactory);
  }

  /** The rows after the columns bitmaps, wrapped into the event. */
  method ReadRowsAfterBitmaps(buf: Buffer, h: Header, tableId: nat, tableMap: TableMap, flags: nat, count: nat,
                              bitmap: Bytes, after: Option<Bytes>, rowFactory: Rows.RowFactory)
    returns (r: Outcome<Event>)
    requires IsRowsType(h.eventType) && tableId in rowFactory.tableMaps && rowFactory.tableMaps[tableId] == tableMap
    requires |bitmap| <= (count + 7) / 8 && (after.Some? <==> KindOf(h.eventType) == UpdateRows)
    modifies buf`offset
    ensures r == RowsEventOf(h, tableId, tableMap, flags, count, bitmap, after,
                             Rows.RowsSpec(buf.data, h.payloadSize, old(buf.offset), tableMap.columns, count, bitmap, after))
  {
    var rows := rowFactory.ReadRows(buf, h, tableId, count, bitmap, after);
    r := RowsEventOf(h, tableId, tableMap, flags, count, bitmap, after, rows);
  }

}
