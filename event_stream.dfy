/**
 * The events iterator: one step reads the common header of a packet from
 * the binlog stream and dispatches on the event type. It keeps the last
 * FORMAT_DESCRIPTION (whose checksum algorithm sizes every later header),
 * the table maps seen so far, the binlog position reported with each row
 * event, and the running offset the next header's position is computed
 * from. Only row events are handed to the caller; every other event just
 * updates that state.
 */
module EventStream {
  import opened Wrappers
  import opened Bytes
  import opened Errors
  import opened Buffers
  import opened Records
  import ET = EventTypes
  import opened Events
  import Rows

  /** What the iterator remembers between two packets. */
  datatype State = State(
    formatDescription: Option<Event>,
    tableMaps: map<nat, TableMap>,
    position: BinlogPosition,
    nextOffset: int)

  /** The outcome of one step: the row event handed out (if any) or the exception, and the state after it. */
  datatype Step = Step(result: Outcome<Option<Event>>, state: State)

  /** The state right after construction: resume at the connection's binlog file and position. */
  function Start(binlogFile: Bytes, binlogPosition: int): (st: State)
    ensures st.formatDescription.None? && st.tableMaps == map[]
    ensures st.position == BinlogPosition(binlogFile, binlogPosition) && st.nextOffset == binlogPosition
  {
    State(None, map[], BinlogPosition(binlogFile, binlogPosition), binlogPosition)
  }

  /** The tracked next position agrees with the event's own 32-bit one, directly or modulo 2^32. */
  predicate PositionsAgree(h: Header)
  {
    || h.nextPosition.position == h.nextPositionShort.position
    || TMod(h.nextPosition.position, 0x1_0000_0000) == h.nextPositionShort.position
  }

  /** Event types read past without a body: user variables, stop, GTID bookkeeping. */
  predicate Skipped(t: ET.EventType)
  {
    t == ET.USER_VAR_EVENT || t == ET.STOP_EVENT || t == ET.PREVIOUS_GTIDS_EVENT || t == ET.ANONYMOUS_GTID_EVENT
  }

  /**
   * `parse`: the header, then the body its type calls for. A header that
   * cannot be read leaves the state as it was; once it is read the running
   * offset has moved on, whatever the body does.
   */
  function ParseSpec(c: Config, st: State, data: Bytes, pos: nat): (r: Step)
    ensures HeaderAt(data, pos, st.formatDescription, st.position, st.nextOffset).Err? ==> r.state == st && r.result.Err?
    ensures HeaderAt(data, pos, st.formatDescription, st.position, st.nextOffset).Ok? ==>
      var h := HeaderAt(data, pos, st.formatDescription, st.position, st.nextOffset).value;
      r == Dispatch(c, st.(nextOffset := h.nextPosition.position), data, pos + HEADER_SIZE, h)
  {
    match HeaderAt(data, pos, st.formatDescription, st.position, st.nextOffset)
    case Err(e) => Step(Err(e), st)
    case Ok(h) => Dispatch(c, st.(nextOffset := h.nextPosition.position), data, pos + HEADER_SIZE, h)
  }

  /**
   * The events every stream starts with and the ones read before the
   * position check: a FORMAT_DESCRIPTION must come first, a heartbeat is
   * ignored and a ROTATE moves to the new file; every other event must
   * agree on its next position.
   */
  function Dispatch(c: Config, st: State, data: Bytes, pos: nat, h: Header): (r: Step)
    ensures st.formatDescription.None? && h.eventType != ET.FORMAT_DESCRIPTION_EVENT ==> r == Step(Err(UnexpectedValue), st)
    ensures r.state.nextOffset == st.nextOffset || (h.eventType == ET.ROTATE_EVENT && r.result == Ok(None))
    ensures r.state.formatDescription == st.formatDescription || h.eventType == ET.FORMAT_DESCRIPTION_EVENT
    ensures r.state.tableMaps == st.tableMaps || h.eventType in {ET.TABLE_MAP_EVENT, ET.ROTATE_EVENT}
    ensures r.result.Ok? && r.result.value.Some? ==> r.result.value.value.RowsEvent? && r.state.position == h.nextPosition
  {
    if st.formatDescription.None? && h.eventType != ET.FORMAT_DESCRIPTION_EVENT then Step(Err(UnexpectedValue), st)
    else if h.eventType == ET.FORMAT_DESCRIPTION_EVENT then StoreFormatDescription(st, FormatDescriptionAt(data, pos, h))
    else if h.eventType == ET.HEARTBEAT_EVENT then Step(Ok(None), st)
    else if h.eventType == ET.ROTATE_EVENT then RotateStep(st, RotateAt(data, pos, h))
    else if !PositionsAgree(h) then Step(Err(Runtime), st)
    else Tracked(c, st, data, pos, h)
  }

  /** A FORMAT_DESCRIPTION is kept; nothing is handed out. */
  function StoreFormatDescription(st: State, e: Outcome<Event>): (r: Step)
    ensures e.Err? ==> r == Step(Err(e.error), st)
    ensures e.Ok? ==> r.result == Ok(None) && r.state == st.(formatDescription := Some(e.value))
  {
    match e
    case Err(err) => Step(Err(err), st)
    case Ok(fd) => Step(Ok(None), st.(formatDescription := Some(fd)))
  }

  /**
   * A ROTATE forgets every table map, in the iterator and in the row
   * factory, and continues at the file and position it names.
   */
  function RotateStep(st: State, e: Outcome<Event>): (r: Step)
    requires e.Ok? ==> e.value.Rotate?
    ensures e.Err? ==> r == Step(Err(e.error), st)
    ensures e.Ok? ==> (
      && r.result == Ok(None) && r.state.tableMaps == map[]
      && r.state.position == BinlogPosition(e.value.filename, e.value.position)
      && r.state.nextOffset == e.value.position && r.state.formatDescription == st.formatDescription)
  {
    match e
    case Err(err) => Step(Err(err), st)
    case Ok(rotate) =>
      Step(Ok(None), st.(tableMaps := map[], position := BinlogPosition(rotate.filename, rotate.position),
                         nextOffset := rotate.position))
  }

  /**
   * The ROTATE branch as it is written: after emptying its own table maps
   * the iterator calls `dropTableMaps` on the row factory, which defines
   * no such method, so every ROTATE that decodes ends in an `Error` and
   * the position never moves to the new file.
   */
  function RotateAsWritten(st: State, e: Outcome<Event>): (r: Step)
    ensures e.Err? ==> r == Step(Err(e.error), st)
    ensures e.Ok? ==> r.result == Err(UndefinedMethod) && r.state.position == st.position && r.state.tableMaps == map[]
  {
    match e
    case Err(err) => Step(Err(err), st)
    case Ok(_) => Step(Err(UndefinedMethod), st.(tableMaps := map[]))
  }

  /** The events after the position check: table maps, the resume skip, row events and the rest. */
  function Tracked(c: Config, st: State, data: Bytes, pos: nat, h: Header): (r: Step)
    ensures r.state.nextOffset == st.nextOffset && r.state.formatDescription == st.formatDescription
    ensures r.state.tableMaps == st.tableMaps || h.eventType == ET.TABLE_MAP_EVENT
    ensures r.result.Ok? ==> r.state.position == h.nextPosition || (r.result == Ok(None) && r.state.position == st.position)
    ensures r.result.Ok? && r.result.value.Some? ==> r.result.value.value.RowsEvent? && r.state.position == h.nextPosition
    ensures r.result.Err? ==> r.state == st
  {
    if h.eventType == ET.TABLE_MAP_EVENT then StoreTableMap(st, h, TableMapAt(data, pos, h))
    else if Resuming(c, st.position) then Step(Ok(None), st.(position := h.nextPosition))
    else if IsRowsType(h.eventType) then EmitRows(st, h, RowsEventAt(data, pos, h, st.tableMaps, c))
    else if h.eventType == ET.QUERY_EVENT then Advance(st, h, QueryAt(data, pos, h))
    else if h.eventType == ET.XID_EVENT then Advance(st, h, XidAt(data, pos, h))
    else if Skipped(h.eventType) then Step(Ok(None), st.(position := h.nextPosition))
    else Step(Err(TypeError), st)
  }

  /** A TABLE_MAP is stored under its table id, replacing an earlier one, and the position moves past it. */
  function StoreTableMap(st: State, h: Header, t: Outcome<TableMap>): (r: Step)
    ensures t.Err? ==> r == Step(Err(t.error), st)
    ensures t.Ok? ==> (
      && r.result == Ok(None) && r.state.position == h.nextPosition
      && r.state.tableMaps == st.tableMaps[t.value.tableId := t.value]
      && r.state.nextOffset == st.nextOffset && r.state.formatDescription == st.formatDescription)
  {
    match t
    case Err(err) => Step(Err(err), st)
    case Ok(tableMap) =>
      Step(Ok(None), st.(tableMaps := st.tableMaps[tableMap.tableId := tableMap], position := h.nextPosition))
  }

  /** A row event is handed out and the position moves past it; a filtered one leaves the position where it was. */
  function EmitRows(st: State, h: Header, e: Outcome<Option<Event>>): (r: Step)
    ensures e.Err? ==> r == Step(Err(e.error), st)
    ensures e == Ok(None) ==> r == Step(Ok(None), st)
    ensures e.Ok? && e.value.Some? ==> r == Step(e, st.(position := h.nextPosition))
  {
    match e
    case Err(err) => Step(Err(err), st)
    case Ok(None) => Step(Ok(None), st)
    case Ok(Some(_)) => Step(e, st.(position := h.nextPosition))
  }

  /** A QUERY or XID is read, counted and passed over: the position moves past it. */
  function Advance(st: State, h: Header, e: Outcome<Event>): (r: Step)
    ensures e.Err? ==> r == Step(Err(e.error), st)
    ensures e.Ok? ==> r == Step(Ok(None), st.(position := h.nextPosition))
  {
    match e
    case Err(err) => Step(Err(err), st)
    case Ok(_) => Step(Ok(None), st.(position := h.nextPosition))
  }

  // ---------------------------------------------------------------- properties of a step

  /** Until a FORMAT_DESCRIPTION has been read, every other event is refused. */
  lemma FormatDescriptionFirst(c: Config, st: State, data: Bytes, pos: nat)
    requires st.formatDescription.None?
    requires HeaderAt(data, pos, st.formatDescription, st.position, st.nextOffset).Ok?
    requires HeaderAt(data, pos, st.formatDescription, st.position, st.nextOffset).value.eventType != ET.FORMAT_DESCRIPTION_EVENT
    ensures ParseSpec(c, st, data, pos).result == Err(UnexpectedValue)
  {
  }

  /** Once read, a FORMAT_DESCRIPTION is never forgotten: a later one can only replace it. */
  lemma FormatDescriptionPersists(c: Config, st: State, data: Bytes, pos: nat)
    requires st.formatDescription.Some?
    ensures ParseSpec(c, st, data, pos).state.formatDescription.Some?
  {
  }

  /** A heartbeat changes nothing: the running offset does not grow by its size. */
  lemma HeartbeatChangesNothing(c: Config, st: State, data: Bytes, pos: nat)
    requires st.formatDescription.Some?
    requires HeaderAt(data, pos, st.formatDescription, st.position, st.nextOffset).Ok?
    requires HeaderAt(data, pos, st.formatDescription, st.position, st.nextOffset).value.eventType == ET.HEARTBEAT_EVENT
    ensures ParseSpec(c, st, data, pos) == Step(Ok(None), st)
  {
  }

  /** Any other event that is not a ROTATE grows the running offset by its event size. */
  lemma NextOffsetGrows(c: Config, st: State, data: Bytes, pos: nat)
    requires HeaderAt(data, pos, st.formatDescription, st.position, st.nextOffset).Ok?
    requires HeaderAt(data, pos, st.formatDescription, st.position, st.nextOffset).value.eventType !in
      {ET.HEARTBEAT_EVENT, ET.ROTATE_EVENT}
    ensures ParseSpec(c, st, data, pos).state.nextOffset
      == st.nextOffset + HeaderAt(data, pos, st.formatDescription, st.position, st.nextOffset).value.eventSize
  {
  }

  /** An event whose next position disagrees with the tracked one stops the stream and moves nothing but the offset. */
  lemma PositionMismatchFails(c: Config, st: State, data: Bytes, pos: nat, h: Header)
    requires st.formatDescription.Some? && !PositionsAgree(h)
    requires h.eventType !in {ET.FORMAT_DESCRIPTION_EVENT, ET.HEARTBEAT_EVENT, ET.ROTATE_EVENT}
    ensures Dispatch(c, st, data, pos, h) == Step(Err(Runtime), st)
  {
  }

  /** The tracked and the carried position agree exactly when they are equal modulo 2^32. */
  lemma PositionsAgreeModulo(h: Header)
    requires h.nextPosition.position >= 0 && 0 <= h.nextPositionShort.position < 0x1_0000_0000
    ensures PositionsAgree(h) <==> h.nextPosition.position % 0x1_0000_0000 == h.nextPositionShort.position
  {
    var p := h.nextPosition.position;
    assert TMod(p, 0x1_0000_0000) == p % 0x1_0000_0000 by {
      assert TDiv(p, 0x1_0000_0000) == p / 0x1_0000_0000;
    }
  }

  /** While resuming before the configured position, every event past the check is skipped and only moves the position. */
  lemma ResumeSkips(c: Config, st: State, data: Bytes, pos: nat, h: Header)
    requires st.formatDescription.Some? && PositionsAgree(h) && Resuming(c, st.position)
    requires h.eventType !in {ET.FORMAT_DESCRIPTION_EVENT, ET.HEARTBEAT_EVENT, ET.ROTATE_EVENT, ET.TABLE_MAP_EVENT}
    ensures Dispatch(c, st, data, pos, h) == Step(Ok(None), st.(position := h.nextPosition))
  {
  }

  /** After a ROTATE no table map is known, so a row event fails until a TABLE_MAP arrives again. */
  lemma RowsNeedTableMap(c: Config, st: State, data: Bytes, pos: nat, h: Header)
    requires st.formatDescription.Some? && st.tableMaps == map[] && PositionsAgree(h) && !Resuming(c, st.position)
    requires IsRowsType(h.eventType) && pos + 6 <= |data|
    ensures Dispatch(c, st, data, pos, h) == Step(Err(TypeError), st)
  {
  }

  /**
   * A row event is read against the latest table map stored under its
   * table id; it is handed out exactly when that table is not filtered,
   * and a filtered one leaves the position where it was.
   */
  lemma RowsUseStoredTableMap(c: Config, st: State, data: Bytes, pos: nat, h: Header)
    requires st.formatDescription.Some? && PositionsAgree(h) && !Resuming(c, st.position)
    requires IsRowsType(h.eventType) && pos + 6 <= |data| && UIntAt(data, pos, 6) in st.tableMaps
    ensures var r := Dispatch(c, st, data, pos, h);
      && (r.result == Ok(None) <==> Filtered(c, st.tableMaps[UIntAt(data, pos, 6)]))
      && (r.result == Ok(None) ==> r.state == st)
      && (r.result.Ok? && r.result.value.Some? ==>
            r.result.value.value.tableMap == st.tableMaps[UIntAt(data, pos, 6)] && r.state.position == h.nextPosition)
  {
  }

  // ---------------------------------------------------------------- the iterator

  /**
   * `EventsIterator`: the configuration, the row factory it shares its table
   * maps with, and the state a step updates in place. The row factory's
   * table maps are always the iterator's own.
   */
  class EventsIterator {
    const config: Config
    const rowFactory: Rows.RowFactory
    var formatDescription: Option<Event>
    var tableMaps: map<nat, TableMap>
    var position: BinlogPosition
    var nextOffset: int

    ghost predicate Valid()
      reads this, rowFactory
    {
      rowFactory.tableMaps == tableMaps
    }

    /** The iterator's state as a value. */
    function Snapshot(): State
      reads this
    {
      State(formatDescription, tableMaps, position, nextOffset)
    }

    /** Starts at the binlog file and position the connection settled on. */
    constructor (config: Config, binlogFile: Bytes, binlogPosition: int)
      ensures this.config == config && Snapshot() == Start(binlogFile, binlogPosition)
      ensures Valid() && fresh(rowFactory)
    {
      this.config := config;
      rowFactory := new Rows.RowFactory();
      formatDescription := None;
      tableMaps := map[];
      position := BinlogPosition(binlogFile, binlogPosition);
      nextOffset := binlogPosition;
    }

    /** `getPosition`: where a consumer should resume from. */
    method GetPosition() returns (r: BinlogPosition)
      ensures r == ReportedPosition(config, position)
    {
      if Resuming(config, position) {
        return BinlogPosition(config.binlogFile.value, config.binlogPosition.value);
      }
      return position;
    }

    /** `readEventHeader`: the header fields, moving the running offset on by the event size unless it is a heartbeat. */
    method ReadEventHeader(buf: Buffer) returns (r: Outcome<Header>)
      modifies buf`offset, this`nextOffset
      ensures r == HeaderAt(buf.data, old(buf.offset), formatDescription, position, old(nextOffset))
      ensures nextOffset == if r.Ok? then r.value.nextPosition.position else old(nextOffset)
      ensures r.Ok? ==> buf.offset == old(buf.offset) + HEADER_SIZE
    {
      if buf.offset + 5 > |buf.data| {
        return Err(ReadPastEnd);
      }
      ghost var pos := buf.offset;
      var timestamp := buf.ReadUInt32();
      assert timestamp == UIntAt(buf.data, pos, 4);
      var code := buf.ReadUInt8();
      var t := ET.From(code);
      if t.Err? {
        return Err(t.error);
      }
      if buf.offset + HEADER_SIZE - 5 > |buf.data| {
        return Err(ReadPastEnd);
      }
      ET.FromSound(code);
      var serverId := buf.ReadUInt32();
      assert serverId == UIntAt(buf.data, pos + 5, 4);
      var eventSize := buf.ReadUInt32();
      assert eventSize == UIntAt(buf.data, pos + 9, 4);
      var nextPositionShort := buf.ReadUInt32();
      assert nextPositionShort == UIntAt(buf.data, pos + 13, 4);
      var flags := buf.ReadUInt16();
      assert flags == UIntAt(buf.data, pos + 17, 2);
      var header := MakeHeader(position, timestamp, t.value, serverId, eventSize, nextPositionShort, nextOffset, flags,
                               formatDescription);
      nextOffset := header.nextPosition.position;
      return Ok(header);
    }

    /** `parse`: one packet of the stream, from just after its status byte. */
    method Parse(buf: Buffer) returns (r: Outcome<Option<Event>>)
      requires Valid()
      modifies buf`offset, this, rowFactory
      ensures Valid()
      ensures Step(r, Snapshot()) == ParseSpec(config, old(Snapshot()), buf.data, old(buf.offset))
    {
      ghost var st, pos := Snapshot(), buf.offset;
      var h := ReadEventHeader(buf);
      assert h == HeaderAt(buf.data, pos, st.formatDescription, st.position, st.nextOffset);
      if h.Err? {
        assert Snapshot() == st;
        return Err(h.error);
      }
      assert Snapshot() == st.(nextOffset := h.value.nextPosition.position);
      r := DispatchEvent(buf, h.value);
    }

    method DispatchEvent(buf: Buffer, h: Header) returns (r: Outcome<Option<Event>>)
      requires Valid()
      modifies buf`offset, this, rowFactory
      ensures Valid()
      ensures Step(r, Snapshot()) == Dispatch(config, old(Snapshot()), buf.data, old(buf.offset), h)
    {
      if formatDescription.None? && h.eventType != ET.FORMAT_DESCRIPTION_EVENT {
        return Err(UnexpectedValue);
      }
      if h.eventType == ET.FORMAT_DESCRIPTION_EVENT {
        var fd := ReadFormatDescriptionEvent(buf, h);
        if fd.Err? {
          return Err(fd.error);
        }
        formatDescription := Some(fd.value);
        return Ok(None);
      }
      if h.eventType == ET.HEARTBEAT_EVENT {
        return Ok(None);
      }
      if h.eventType == ET.ROTATE_EVENT {
        var rotate := ReadRotateEvent(buf, h);
        if rotate.Err? {
          return Err(rotate.error);
        }
        tableMaps := map[];
        rowFactory.DropTableMaps();
        position := BinlogPosition(rotate.value.filename, rotate.value.position);
        nextOffset := rotate.value.position;
        return Ok(None);
      }
      if !PositionsAgree(h) {
        return Err(Runtime);
      }
      r := DispatchTracked(buf, h);
    }

    method DispatchTracked(buf: Buffer, h: Header) returns (r: Outcome<Option<Event>>)
      requires Valid()
      modifies buf`offset, this`tableMaps, this`position, rowFactory
      ensures Valid()
      ensures Step(r, Snapshot()) == Tracked(config, old(Snapshot()), buf.data, old(buf.offset), h)
    {
      if h.eventType == ET.TABLE_MAP_EVENT {
        var tableMap := ReadTableMapEvent(buf, h);
        if tableMap.Err? {
          return Err(tableMap.error);
        }
        tableMaps := tableMaps[tableMap.value.tableId := tableMap.value];
        rowFactory.AddTableMap(tableMap.value);
        position := h.nextPosition;
        return Ok(None);
      }
      if Resuming(config, position) {
        position := h.nextPosition;
        return Ok(None);
      }
      if IsRowsType(h.eventType) {
        var e := ReadRowsEvent(buf, h, tableMaps, config, rowFactory);
        if e.Err? {
          return Err(e.error);
        }
        if e.value.None? {
          return Ok(None);
        }
        position := h.nextPosition;
        return e;
      }
      if h.eventType == ET.QUERY_EVENT || h.eventType == ET.XID_EVENT {
        var e;
        if h.eventType == ET.QUERY_EVENT {
          e := ReadQueryEvent(buf, h);
        } else {
          e := ReadXidEvent(buf, h);
        }
        if e.Err? {
          return Err(e.error);
        }
        position := h.nextPosition;
        return Ok(None);
      }
      if Skipped(h.eventType) {
        position := h.nextPosition;
        return Ok(None);
      }
      return Err(TypeError);
    }
  }
}
