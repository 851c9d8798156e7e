/**
 * Binlog event types (MySQL and MariaDB), as the type code of each event
 * header carries them.
 */
module EventTypes {
  import opened Wrappers
  import opened Errors

  datatype EventType =
    | UNKNOWN_EVENT
    | START_EVENT_V3
    | QUERY_EVENT
    | STOP_EVENT
    | ROTATE_EVENT
    | INTVAR_EVENT
    | LOAD_EVENT
    | SLAVE_EVENT
    | CREATE_FILE_EVENT
    | APPEND_BLOCK_EVENT
    | EXEC_LOAD_EVENT
    | DELETE_FILE_EVENT
    | NEW_LOAD_EVENT
    | RAND_EVENT
    | USER_VAR_EVENT
    | FORMAT_DESCRIPTION_EVENT
    | XID_EVENT
    | BEGIN_LOAD_QUERY_EVENT
    | EXECUTE_LOAD_QUERY_EVENT
    | TABLE_MAP_EVENT
    | WRITE_ROWS_EVENTv0
    | UPDATE_ROWS_EVENTv0
    | DELETE_ROWS_EVENTv0
    | WRITE_ROWS_EVENTv1
    | UPDATE_ROWS_EVENTv1
    | DELETE_ROWS_EVENTv1
    | INCIDENT_EVENT
    | HEARTBEAT_EVENT
    | IGNORABLE_EVENT
    | ROWS_QUERY_EVENT
    | WRITE_ROWS_EVENTv2
    | UPDATE_ROWS_EVENTv2
    | DELETE_ROWS_EVENTv2
    | GTID_EVENT
    | ANONYMOUS_GTID_EVENT
    | PREVIOUS_GTIDS_EVENT
    | MARIA_BINLOG_CHECKPOINT_EVENT
    | MARIA_GTID_EVENT
    | MARIA_GTID_LIST_EVENT
    | MARIA_START_ENCRYPTION_EVENT
    | MARIA_QUERY_COMPRESSED_EVENT
    | MARIA_WRITE_ROWS_COMPRESSED_EVENT_V1
    | MARIA_UPDATE_ROWS_COMPRESSED_EVENT_V1
    | MARIA_DELETE_ROWS_COMPRESSED_EVENT_V1
    | MARIA_WRITE_ROWS_COMPRESSED_EVENT
    | MARIA_UPDATE_ROWS_COMPRESSED_EVENT
    | MARIA_DELETE_ROWS_COMPRESSED_EVENT

  /** The type code in byte 4 of an event header. */
  function Value(t: EventType): (r: int)
    ensures 0 <= r < 0x100
  {
    match t
    case UNKNOWN_EVENT => 0x00
    case START_EVENT_V3 => 0x01
    case QUERY_EVENT => 0x02
    case STOP_EVENT => 0x03
    case ROTATE_EVENT => 0x04
    case INTVAR_EVENT => 0x05
    case LOAD_EVENT => 0x06
    case SLAVE_EVENT => 0x07
    case CREATE_FILE_EVENT => 0x08
    case APPEND_BLOCK_EVENT => 0x09
    case EXEC_LOAD_EVENT => 0x0a
    case DELETE_FILE_EVENT => 0x0b
    case NEW_LOAD_EVENT => 0x0c
    case RAND_EVENT => 0x0d
    case USER_VAR_EVENT => 0x0e
    case FORMAT_DESCRIPTION_EVENT => 0x0f
    case XID_EVENT => 0x10
    case BEGIN_LOAD_QUERY_EVENT => 0x11
    case EXECUTE_LOAD_QUERY_EVENT => 0x12
    case TABLE_MAP_EVENT => 0x13
    case WRITE_ROWS_EVENTv0 => 0x14
    case UPDATE_ROWS_EVENTv0 => 0x15
    case DELETE_ROWS_EVENTv0 => 0x16
    case WRITE_ROWS_EVENTv1 => 0x17
    case UPDATE_ROWS_EVENTv1 => 0x18
    case DELETE_ROWS_EVENTv1 => 0x19
    case INCIDENT_EVENT => 0x1a
    case HEARTBEAT_EVENT => 0x1b
    case IGNORABLE_EVENT => 0x1c
    case ROWS_QUERY_EVENT => 0x1d
    case WRITE_ROWS_EVENTv2 => 0x1e
    case UPDATE_ROWS_EVENTv2 => 0x1f
    case DELETE_ROWS_EVENTv2 => 0x20
    case GTID_EVENT => 0x21
    case ANONYMOUS_GTID_EVENT => 0x22
    case PREVIOUS_GTIDS_EVENT => 0x23
    case MARIA_BINLOG_CHECKPOINT_EVENT => 0xa1
    case MARIA_GTID_EVENT => 0xa2
    case MARIA_GTID_LIST_EVENT => 0xa3
    case MARIA_START_ENCRYPTION_EVENT => 0xa4
    case MARIA_QUERY_COMPRESSED_EVENT => 0xa5
    case MARIA_WRITE_ROWS_COMPRESSED_EVENT_V1 => 0xa6
    case MARIA_UPDATE_ROWS_COMPRESSED_EVENT_V1 => 0xa7
    case MARIA_DELETE_ROWS_COMPRESSED_EVENT_V1 => 0xa8
    case MARIA_WRITE_ROWS_COMPRESSED_EVENT => 0xa9
    case MARIA_UPDATE_ROWS_COMPRESSED_EVENT => 0xaa
    case MARIA_DELETE_ROWS_COMPRESSED_EVENT => 0xab
  }

  /** `EventType::from($v)`: the case with that value; a ValueError for any other. */
  function From(v: int): (r: Outcome<EventType>)
    ensures r.Err? ==> r.error == ValueError
  {
    match v
    case 0x00 => Ok(UNKNOWN_EVENT)
    case 0x01 => Ok(START_EVENT_V3)
    case 0x02 => Ok(QUERY_EVENT)
    case 0x03 => Ok(STOP_EVENT)
    case 0x04 => Ok(ROTATE_EVENT)
    case 0x05 => Ok(INTVAR_EVENT)
    case 0x06 => Ok(LOAD_EVENT)
    case 0x07 => Ok(SLAVE_EVENT)
    case 0x08 => Ok(CREATE_FILE_EVENT)
    case 0x09 => Ok(APPEND_BLOCK_EVENT)
    case 0x0a => Ok(EXEC_LOAD_EVENT)
    case 0x0b => Ok(DELETE_FILE_EVENT)
    case 0x0c => Ok(NEW_LOAD_EVENT)
    case 0x0d => Ok(RAND_EVENT)
    case 0x0e => Ok(USER_VAR_EVENT)
    case 0x0f => Ok(FORMAT_DESCRIPTION_EVENT)
    case 0x10 => Ok(XID_EVENT)
    case 0x11 => Ok(BEGIN_LOAD_QUERY_EVENT)
    case 0x12 => Ok(EXECUTE_LOAD_QUERY_EVENT)
    case 0x13 => Ok(TABLE_MAP_EVENT)
    case 0x14 => Ok(WRITE_ROWS_EVENTv0)
    case 0x15 => Ok(UPDATE_ROWS_EVENTv0)
    case 0x16 => Ok(DELETE_ROWS_EVENTv0)
    case 0x17 => Ok(WRITE_ROWS_EVENTv1)
    case 0x18 => Ok(UPDATE_ROWS_EVENTv1)
    case 0x19 => Ok(DELETE_ROWS_EVENTv1)
    case 0x1a => Ok(INCIDENT_EVENT)
    case 0x1b => Ok(HEARTBEAT_EVENT)
    case 0x1c => Ok(IGNORABLE_EVENT)
    case 0x1d => Ok(ROWS_QUERY_EVENT)
    case 0x1e => Ok(WRITE_ROWS_EVENTv2)
    case 0x1f => Ok(UPDATE_ROWS_EVENTv2)
    case 0x20 => Ok(DELETE_ROWS_EVENTv2)
    case 0x21 => Ok(GTID_EVENT)
    case 0x22 => Ok(ANONYMOUS_GTID_EVENT)
    case 0x23 => Ok(PREVIOUS_GTIDS_EVENT)
    case 0xa1 => Ok(MARIA_BINLOG_CHECKPOINT_EVENT)
    case 0xa2 => Ok(MARIA_GTID_EVENT)
    case 0xa3 => Ok(MARIA_GTID_LIST_EVENT)
    case 0xa4 => Ok(MARIA_START_ENCRYPTION_EVENT)
    case 0xa5 => Ok(MARIA_QUERY_COMPRESSED_EVENT)
    case 0xa6 => Ok(MARIA_WRITE_ROWS_COMPRESSED_EVENT_V1)
    case 0xa7 => Ok(MARIA_UPDATE_ROWS_COMPRESSED_EVENT_V1)
    case 0xa8 => Ok(MARIA_DELETE_ROWS_COMPRESSED_EVENT_V1)
    case 0xa9 => Ok(MARIA_WRITE_ROWS_COMPRESSED_EVENT)
    case 0xaa => Ok(MARIA_UPDATE_ROWS_COMPRESSED_EVENT)
    case 0xab => Ok(MARIA_DELETE_ROWS_COMPRESSED_EVENT)
    case _ => Err(ValueError)
  }

  /** The `CASES` table: the name held under each case's value, and nothing under any other key. */
  function Cases(key: int): Option<string>
  {
    match key
    case 0x00 => Some("UNKNOWN_EVENT")
    case 0x01 => Some("START_EVENT_V3")
    case 0x02 => Some("QUERY_EVENT")
    case 0x03 => Some("STOP_EVENT")
    case 0x04 => Some("ROTATE_EVENT")
    case 0x05 => Some("INTVAR_EVENT")
    case 0x06 => Some("LOAD_EVENT")
    case 0x07 => Some("SLAVE_EVENT")
    case 0x08 => Some("CREATE_FILE_EVENT")
    case 0x09 => Some("APPEND_BLOCK_EVENT")
    case 0x0a => Some("EXEC_LOAD_EVENT")
    case 0x0b => Some("DELETE_FILE_EVENT")
    case 0x0c => Some("NEW_LOAD_EVENT")
    case 0x0d => Some("RAND_EVENT")
    case 0x0e => Some("USER_VAR_EVENT")
    case 0x0f => Some("FORMAT_DESCRIPTION_EVENT")
    case 0x10 => Some("XID_EVENT")
    case 0x11 => Some("BEGIN_LOAD_QUERY_EVENT")
    case 0x12 => Some("EXECUTE_LOAD_QUERY_EVENT")
    case 0x13 => Some("TABLE_MAP_EVENT")
    case 0x14 => Some("WRITE_ROWS_EVENTv0")
    case 0x15 => Some("UPDATE_ROWS_EVENTv0")
    case 0x16 => Some("DELETE_ROWS_EVENTv0")
    case 0x17 => Some("WRITE_ROWS_EVENTv1")
    case 0x18 => Some("UPDATE_ROWS_EVENTv1")
    case 0x19 => Some("DELETE_ROWS_EVENTv1")
    case 0x1a => Some("INCIDENT_EVENT")
    case 0x1b => Some("HEARTBEAT_EVENT")
    case 0x1c => Some("IGNORABLE_EVENT")
    case 0x1d => Some("ROWS_QUERY_EVENT")
    case 0x1e => Some("WRITE_ROWS_EVENTv2")
    case 0x1f => Some("UPDATE_ROWS_EVENTv2")
    case 0x20 => Some("DELETE_ROWS_EVENTv2")
    case 0x21 => Some("GTID_EVENT")
    case 0x22 => Some("ANONYMOUS_GTID_EVENT")
    case 0x23 => Some("PREVIOUS_GTIDS_EVENT")
    case 0xa1 => Some("MARIA_BINLOG_CHECKPOINT_EVENT")
    case 0xa2 => Some("MARIA_GTID_EVENT")
    case 0xa3 => Some("MARIA_GTID_LIST_EVENT")
    case 0xa4 => Some("MARIA_START_ENCRYPTION_EVENT")
    case 0xa5 => Some("MARIA_QUERY_COMPRESSED_EVENT")
    case 0xa6 => Some("MARIA_WRITE_ROWS_COMPRESSED_EVENT_V1")
    case 0xa7 => Some("MARIA_UPDATE_ROWS_COMPRESSED_EVENT_V1")
    case 0xa8 => Some("MARIA_DELETE_ROWS_COMPRESSED_EVENT_V1")
    case 0xa9 => Some("MARIA_WRITE_ROWS_COMPRESSED_EVENT")
    case 0xaa => Some("MARIA_UPDATE_ROWS_COMPRESSED_EVENT")
    case 0xab => Some("MARIA_DELETE_ROWS_COMPRESSED_EVENT")
    case _ => None
  }

  /** `toString()`: the name `CASES` holds under the case's value. */
  function ToString(t: EventType): (r: string)
    ensures Cases(Value(t)) == Some(r)
  {
    match Cases(Value(t))
    case Some(name) => name
    case None => ""
  }

  /**
   * `array_search($name, CASES, true)`: the first key, in declaration
   * order, whose name is identical to `name` (`===` on strings compares
   * the lengths before the bytes).
   */
  function Search(name: string): Option<int>
  {
    if |name| == 13 && name == "UNKNOWN_EVENT" then Some(0x00) else
    if |name| == 14 && name == "START_EVENT_V3" then Some(0x01) else
    if |name| == 11 && name == "QUERY_EVENT" then Some(0x02) else
    if |name| == 10 && name == "STOP_EVENT" then Some(0x03) else
    if |name| == 12 && name == "ROTATE_EVENT" then Some(0x04) else
    if |name| == 12 && name == "INTVAR_EVENT" then Some(0x05) else
    if |name| == 10 && name == "LOAD_EVENT" then Some(0x06) else
    if |name| == 11 && name == "SLAVE_EVENT" then Some(0x07) else
    if |name| == 17 && name == "CREATE_FILE_EVENT" then Some(0x08) else
    if |name| == 18 && name == "APPEND_BLOCK_EVENT" then Some(0x09) else
    if |name| == 15 && name == "EXEC_LOAD_EVENT" then Some(0x0a) else
    if |name| == 17 && name == "DELETE_FILE_EVENT" then Some(0x0b) else
    if |name| == 14 && name == "NEW_LOAD_EVENT" then Some(0x0c) else
    if |name| == 10 && name == "RAND_EVENT" then Some(0x0d) else
    if |name| == 14 && name == "USER_VAR_EVENT" then Some(0x0e) else
    if |name| == 24 && name == "FORMAT_DESCRIPTION_EVENT" then Some(0x0f) else
    if |name| == 9 && name == "XID_EVENT" then Some(0x10) else
    if |name| == 22 && name == "BEGIN_LOAD_QUERY_EVENT" then Some(0x11) else
    if |name| == 24 && name == "EXECUTE_LOAD_QUERY_EVENT" then Some(0x12) else
    if |name| == 15 && name == "TABLE_MAP_EVENT" then Some(0x13) else
    if |name| == 18 && name == "WRITE_ROWS_EVENTv0" then Some(0x14) else
    if |name| == 19 && name == "UPDATE_ROWS_EVENTv0" then Some(0x15) else
    if |name| == 19 && name == "DELETE_ROWS_EVENTv0" then Some(0x16) else
    if |name| == 18 && name == "WRITE_ROWS_EVENTv1" then Some(0x17) else
    if |name| == 19 && name == "UPDATE_ROWS_EVENTv1" then Some(0x18) else
    if |name| == 19 && name == "DELETE_ROWS_EVENTv1" then Some(0x19) else
    if |name| == 14 && name == "INCIDENT_EVENT" then Some(0x1a) else
    if |name| == 15 && name == "HEARTBEAT_EVENT" then Some(0x1b) else
    if |name| == 15 && name == "IGNORABLE_EVENT" then Some(0x1c) else
    if |name| == 16 && name == "ROWS_QUERY_EVENT" then Some(0x1d) else
    if |name| == 18 && name == "WRITE_ROWS_EVENTv2" then Some(0x1e) else
    if |name| == 19 && name == "UPDATE_ROWS_EVENTv2" then Some(0x1f) else
    if |name| == 19 && name == "DELETE_ROWS_EVENTv2" then Some(0x20) else
    if |name| == 10 && name == "GTID_EVENT" then Some(0x21) else
    if |name| == 20 && name == "ANONYMOUS_GTID_EVENT" then Some(0x22) else
    if |name| == 20 && name == "PREVIOUS_GTIDS_EVENT" then Some(0x23) else
    if |name| == 29 && name == "MARIA_BINLOG_CHECKPOINT_EVENT" then Some(0xa1) else
    if |name| == 16 && name == "MARIA_GTID_EVENT" then Some(0xa2) else
    if |name| == 21 && name == "MARIA_GTID_LIST_EVENT" then Some(0xa3) else
    if |name| == 28 && name == "MARIA_START_ENCRYPTION_EVENT" then Some(0xa4) else
    if |name| == 28 && name == "MARIA_QUERY_COMPRESSED_EVENT" then Some(0xa5) else
    if |name| == 36 && name == "MARIA_WRITE_ROWS_COMPRESSED_EVENT_V1" then Some(0xa6) else
    if |name| == 37 && name == "MARIA_UPDATE_ROWS_COMPRESSED_EVENT_V1" then Some(0xa7) else
    if |name| == 37 && name == "MARIA_DELETE_ROWS_COMPRESSED_EVENT_V1" then Some(0xa8) else
    if |name| == 33 && name == "MARIA_WRITE_ROWS_COMPRESSED_EVENT" then Some(0xa9) else
    if |name| == 34 && name == "MARIA_UPDATE_ROWS_COMPRESSED_EVENT" then Some(0xaa) else
    if |name| == 34 && name == "MARIA_DELETE_ROWS_COMPRESSED_EVENT" then Some(0xab) else
    None
  }

  /**
   * `tryFromString($name)` as written: `$found = array_search(...) ? from($found) : null`
   * assigns the whole conditional, so `from` sees `$found` still unset. A
   * name not found, and the name stored under key 0, give null; any other
   * known name passes null to `from`, a TypeError under strict types.
   */
  function TryFromStringAsWritten(name: string): (r: Outcome<Option<EventType>>)
    ensures r.Ok? ==> r.value.None?
    ensures r.Err? <==> Search(name).Some? && Search(name).value != 0
    ensures r.Err? ==> r.error == TypeError
  {
    match Search(name)
    case None => Ok(None)
    case Some(key) => if key == 0 then Ok(None) else Err(TypeError)
  }

  /** `tryFromString($name)` as intended: the case whose name it is, or null. */
  function TryFromString(name: string): (r: Outcome<Option<EventType>>)
    ensures Search(name).None? ==> r == Ok(None)
    ensures r.Err? ==> r.error == ValueError
  {
    match Search(name)
    case None => Ok(None)
    case Some(key) =>
      match From(key)
      case Ok(t) => Ok(Some(t))
      case Err(e) => Err(e)
  }

  /** `fromString($name)`: the case whose name it is; InvalidArgumentException otherwise. */
  function FromString(name: string): (r: Outcome<EventType>)
    ensures r.Ok? ==> TryFromString(name) == Ok(Some(r.value))
    ensures TryFromString(name) == Ok(None) ==> r == Err(InvalidArgument)
  {
    match TryFromString(name)
    case Err(e) => Err(e)
    case Ok(None) => Err(InvalidArgument)
    case Ok(Some(t)) => Ok(t)
  }

  /**
   * `fromString($name)` as written, over the `tryFromString` above: it
   * never returns a case, since that `tryFromString` never does.
   */
  function FromStringAsWritten(name: string): (r: Outcome<EventType>)
    ensures r.Err?
    ensures Search(name).None? ==> r == Err(InvalidArgument)
  {
    match TryFromStringAsWritten(name)
    case Err(e) => Err(e)
    case Ok(None) => Err(InvalidArgument)
    case Ok(Some(t)) => Ok(t)
  }

  // ---------------------------------------------------------------- properties

  /** `from` inverts the value: the values are pairwise distinct. */
  lemma FromValue(t: EventType)
    ensures From(Value(t)) == Ok(t)
  {
  }

  /** `from` accepts exactly the case values, and returns the case with that value. */
  lemma FromSound(v: int)
    ensures From(v).Ok? ==> Value(From(v).value) == v
  {
  }

  /** `CASES` holds exactly one entry per case: under every case's value, and under no other key. */
  lemma CasesExact()
    ensures forall t :: Cases(Value(t)) == Some(ToString(t))
    ensures forall k :: Cases(k).Some? ==> From(k).Ok?
  {
  }

  /**
   * A name `array_search` does not find: `tryFromString` gives null and
   * `fromString` raises InvalidArgumentException, both as intended and as
   * written.
   */
  lemma UnknownName(name: string)
    requires Search(name).None?
    ensures TryFromString(name) == Ok(None) && FromString(name) == Err(InvalidArgument)
    ensures TryFromStringAsWritten(name) == Ok(None) && FromStringAsWritten(name) == Err(InvalidArgument)
  {
  }

  /** `tryFromString` and `fromString` invert `toString`. */
  lemma RoundTrip(t: EventType)
    ensures TryFromString(ToString(t)) == Ok(Some(t))
    ensures FromString(ToString(t)) == Ok(t)
  {
    SearchToString(t);
    FromValue(t);
  }

  /** Searching for a case's name finds that case's value: no earlier entry has the same name. */
  lemma SearchToString(t: EventType)
    ensures Search(ToString(t)) == Some(Value(t))
  {
    FromValue(t);
    if Value(t) <= 0x0b { SearchToString1(t); }
    else if Value(t) <= 0x10 { SearchToString2(t); }
    else if Value(t) <= 0x15 { SearchToString3(t); }
    else if Value(t) <= 0x1a { SearchToString4(t); }
    else if Value(t) <= 0x1e { SearchToString5(t); }
    else if Value(t) <= 0x21 { SearchToString6(t); }
    else if Value(t) <= 0xa1 { SearchToString7(t); }
    else if Value(t) <= 0xa4 { SearchToString8(t); }
    else if Value(t) <= 0xa7 { SearchToString9(t); }
    else { SearchToString10(t); }
  }

  lemma SearchToString1(t: EventType)
    requires 0x00 <= Value(t) <= 0x0b
    ensures Search(ToString(t)) == Some(Value(t))
  {
  }

  lemma SearchToString2(t: EventType)
    requires 0x0c <= Value(t) <= 0x10
    ensures Search(ToString(t)) == Some(Value(t))
  {
  }

  lemma SearchToString3(t: EventType)
    requires 0x11 <= Value(t) <= 0x15
    ensures Search(ToString(t)) == Some(Value(t))
  {
  }

  lemma SearchToString4(t: EventType)
    requires 0x16 <= Value(t) <= 0x1a
    ensures Search(ToString(t)) == Some(Value(t))
  {
  }

  lemma SearchToString5(t: EventType)
    requires 0x1b <= Value(t) <= 0x1e
    ensures Search(ToString(t)) == Some(Value(t))
  {
  }

  lemma SearchToString6(t: EventType)
    requires 0x1f <= Value(t) <= 0x21
    ensures Search(ToString(t)) == Some(Value(t))
  {
  }

  lemma SearchToString7(t: EventType)
    requires 0x22 <= Value(t) <= 0xa1
    ensures Search(ToString(t)) == Some(Value(t))
  {
  }

  lemma SearchToString8(t: EventType)
    requires 0xa2 <= Value(t) <= 0xa4
    ensures Search(ToString(t)) == Some(Value(t))
  {
  }

  lemma SearchToString9(t: EventType)
    requires 0xa5 <= Value(t) <= 0xa7
    ensures Search(ToString(t)) == Some(Value(t))
  {
  }

  lemma SearchToString10(t: EventType)
    requires 0xa8 <= Value(t)
    ensures Search(ToString(t)) == Some(Value(t))
  {
  }

  /** As written, every known name but UNKNOWN_EVENT's makes `tryFromString` throw. */
  lemma TryFromStringAsWrittenThrows(t: EventType)
    ensures TryFromStringAsWritten(ToString(t)) == if t == UNKNOWN_EVENT then Ok(None) else Err(TypeError)
  {
    SearchToString(t);
  }

  /**
   * As written, `fromString` of a known name fails too: InvalidArgumentException
   * for UNKNOWN_EVENT, the TypeError from `tryFromString` for every other case.
   */
  lemma FromStringAsWrittenThrows(t: EventType)
    ensures FromStringAsWritten(ToString(t)) == if t == UNKNOWN_EVENT then Err(InvalidArgument) else Err(TypeError)
  {
    TryFromStringAsWrittenThrows(t);
  }

  /** QUERY_EVENT: as written a TypeError, as intended the QUERY_EVENT case. */
  lemma QueryEventName()
    ensures TryFromStringAsWritten("QUERY_EVENT") == Err(TypeError)
    ensures TryFromString("QUERY_EVENT") == Ok(Some(QUERY_EVENT))
  {
  }
}
