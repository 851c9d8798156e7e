/**
 * The plain records of the replication client: binlog positions, event
 * headers, table-map column metadata and columns, decoded rows, the
 * events themselves and the server's handshake information.
 */
module Records {
  import opened Wrappers
  import opened Bytes
  import ColumnTypes
  import EventTypes

  /** A file name and a byte offset in it. */
  datatype BinlogPosition = BinlogPosition(filename: Bytes, position: int)

  /**
   * The common event header as the events iterator builds it: `nextPositionShort`
   * is the 32-bit next position carried by the event, `nextPosition` the one the
   * iterator tracks itself.
   */
  datatype Header = Header(
    position: BinlogPosition,
    timestamp: nat,
    eventType: EventTypes.EventType,
    serverId: nat,
    eventSize: nat,
    nextPositionShort: BinlogPosition,
    nextPosition: BinlogPosition,
    flags: nat,
    checksumSize: nat,
    payloadSize: int)

  /** Per-column metadata of a TABLE_MAP event (the `TableMap\Meta` classes). */
  datatype Meta =
    | SizedMeta(columnType: ColumnTypes.ColumnType, size: nat)
    | TimeMeta(columnType: ColumnTypes.ColumnType, fsp: nat)
    | TextMeta(columnType: ColumnTypes.ColumnType, maxLength: nat)
    | BlobMeta(columnType: ColumnTypes.ColumnType, length: nat)
    | DecimalMeta(columnType: ColumnTypes.ColumnType, precision: nat, decimals: nat)
    | BitMeta(columnType: ColumnTypes.ColumnType, bytes: nat, bits: nat)
    | CommonMeta(columnType: ColumnTypes.ColumnType)

  /** A described column (the `TableMap\Column` classes); collations are kept as their numeric ids. */
  datatype Column =
    | IntegerColumn(index: nat, meta: Meta, name: Bytes, isSigned: bool)
    | FloatColumn(index: nat, meta: Meta, name: Bytes)
    | TimeColumn(index: nat, meta: Meta, name: Bytes)
    | BlobColumn(index: nat, meta: Meta, name: Bytes, charset: nat)
    | TextColumn(index: nat, meta: Meta, name: Bytes, charset: nat)
    | EnumColumn(index: nat, meta: Meta, name: Bytes, charset: nat, values: seq<Bytes>)

  /** The primary-key columns; an index past the last column gives PHP's null. */
  type PrimaryKey = seq<Option<Column>>

  datatype TableMap = TableMap(
    header: Header,
    tableId: nat,
    flags: nat,
    schema: Bytes,
    table: Bytes,
    columnCount: nat,
    columns: seq<Column>,
    nullBitMap: Bytes,
    primaryKeyColumns: Option<PrimaryKey>)

  /** A decoded field value: SQL NULL, an integer, raw bytes, or text the decoder rendered. */
  datatype Value = Null | Int(i: int) | Raw(bytes: Bytes) | Text(text: string)

  /** One row image: a value per column name, in column order. */
  type Image = seq<(Bytes, Value)>

  /** A row of a write or delete event, or the before and after images of an update. */
  datatype Row = Single(image: Image) | Pair(before: Image, after: Image)

  datatype RowsKind = WriteRows | UpdateRows | DeleteRows

  datatype Event =
    | FormatDescription(header: Header, formatVersion: nat, serverVersion: Bytes, createTimestamp: nat,
                        eventHeaderLength: nat, postHeaderEventLengths: Bytes, checksumAlgorithmType: nat)
    | Rotate(header: Header, position: int, filename: Bytes)
    | Xid(header: Header, xid: string)
    | Query(header: Header, slaveProxyId: nat, executionTime: nat, schemaLength: nat, errorCode: nat,
            statusVarsLength: nat, schema: Bytes, query: Bytes)
    | TableMapEvent(tableMap: TableMap)
    | RowsEvent(kind: RowsKind, header: Header, tableId: nat, tableMap: TableMap, flags: nat,
                columnCount: nat, columnsBitmap: Bytes, columnsBitmapAfter: Option<Bytes>,
                count: nat, rows: seq<Row>)

  /** The fields of the server's initial handshake packet. */
  datatype ServerInfo = ServerInfo(
    protocolVersion: nat,
    serverVersion: Bytes,
    connectionId: nat,
    authPluginData: Bytes,
    serverCapabilities: nat,
    charset: nat,
    statusFlags: nat,
    authPluginName: Option<Bytes>)
}
