/**
 * MySQL column types as table-map and row events carry them, one byte per
 * column, with the names the client prints and parses.
 */
module ColumnTypes {
  import opened Wrappers
  import opened Errors

  datatype ColumnType =
    | DECIMAL
    | TINY
    | SHORT
    | LONG
    | FLOAT
    | DOUBLE
    | NULL
    | TIMESTAMP
    | LONGLONG
    | INT24
    | DATE
    | TIME
    | DATETIME
    | YEAR
    | NEWDATE
    | VARCHAR
    | BIT
    | TIMESTAMP2
    | DATETIME2
    | TIME2
    | JSON
    | NEWDECIMAL
    | ENUM
    | SET
    | TINY_BLOB
    | MEDIUM_BLOB
    | LONG_BLOB
    | BLOB
    | VAR_STRING
    | STRING
    | GEOMETRY

  /** The byte a column of this type is tagged with. */
  function Value(t: ColumnType): int
  {
    match t
    case DECIMAL => 0x00
    case TINY => 0x01
    case SHORT => 0x02
    case LONG => 0x03
    case FLOAT => 0x04
    case DOUBLE => 0x05
    case NULL => 0x06
    case TIMESTAMP => 0x07
    case LONGLONG => 0x08
    case INT24 => 0x09
    case DATE => 0x0a
    case TIME => 0x0b
    case DATETIME => 0x0c
    case YEAR => 0x0d
    case NEWDATE => 0x0e
    case VARCHAR => 0x0f
    case BIT => 0x10
    case TIMESTAMP2 => 0x11
    case DATETIME2 => 0x12
    case TIME2 => 0x13
    case JSON => 0xf5
    case NEWDECIMAL => 0xf6
    case ENUM => 0xf7
    case SET => 0xf8
    case TINY_BLOB => 0xf9
    case MEDIUM_BLOB => 0xfa
    case LONG_BLOB => 0xfb
    case BLOB => 0xfc
    case VAR_STRING => 0xfd
    case STRING => 0xfe
    case GEOMETRY => 0xff
  }

  /** `ColumnType::from($v)`: the case with that value; a ValueError for any other. */
  function From(v: int): (r: Outcome<ColumnType>)
    ensures r.Err? ==> r.error == ValueError
  {
    match v
    case 0x00 => Ok(DECIMAL)
    case 0x01 => Ok(TINY)
    case 0x02 => Ok(SHORT)
    case 0x03 => Ok(LONG)
    case 0x04 => Ok(FLOAT)
    case 0x05 => Ok(DOUBLE)
    case 0x06 => Ok(NULL)
    case 0x07 => Ok(TIMESTAMP)
    case 0x08 => Ok(LONGLONG)
    case 0x09 => Ok(INT24)
    case 0x0a => Ok(DATE)
    case 0x0b => Ok(TIME)
    case 0x0c => Ok(DATETIME)
    case 0x0d => Ok(YEAR)
    case 0x0e => Ok(NEWDATE)
    case 0x0f => Ok(VARCHAR)
    case 0x10 => Ok(BIT)
    case 0x11 => Ok(TIMESTAMP2)
    case 0x12 => Ok(DATETIME2)
    case 0x13 => Ok(TIME2)
    case 0xf5 => Ok(JSON)
    case 0xf6 => Ok(NEWDECIMAL)
    case 0xf7 => Ok(ENUM)
    case 0xf8 => Ok(SET)
    case 0xf9 => Ok(TINY_BLOB)
    case 0xfa => Ok(MEDIUM_BLOB)
    case 0xfb => Ok(LONG_BLOB)
    case 0xfc => Ok(BLOB)
    case 0xfd => Ok(VAR_STRING)
    case 0xfe => Ok(STRING)
    case 0xff => Ok(GEOMETRY)
    case _ => Err(ValueError)
  }

  /** The `CASES` table: the name held under each case's value, and nothing under any other key. */
  function Cases(key: int): Option<string>
  {
    match key
    case 0x00 => Some("DECIMAL")
    case 0x01 => Some("TINY")
    case 0x02 => Some("SHORT")
    case 0x03 => Some("LONG")
    case 0x04 => Some("FLOAT")
    case 0x05 => Some("DOUBLE")
    case 0x06 => Some("NULL")
    case 0x07 => Some("TIMESTAMP")
    case 0x08 => Some("LONGLONG")
    case 0x09 => Some("INT24")
    case 0x0a => Some("DATE")
    case 0x0b => Some("TIME")
    case 0x0c => Some("DATETIME")
    case 0x0d => Some("YEAR")
    case 0x0e => Some("NEWDATE")
    case 0x0f => Some("VARCHAR")
    case 0x10 => Some("BIT")
    case 0x11 => Some("TIMESTAMP2")
    case 0x12 => Some("DATETIME2")
    case 0x13 => Some("TIME2")
    case 0xf5 => Some("JSON")
    case 0xf6 => Some("NEWDECIMAL")
    case 0xf7 => Some("ENUM")
    case 0xf8 => Some("SET")
    case 0xf9 => Some("TINY_BLOB")
    case 0xfa => Some("MEDIUM_BLOB")
    case 0xfb => Some("LONG_BLOB")
    case 0xfc => Some("BLOB")
    case 0xfd => Some("VAR_STRING")
    case 0xfe => Some("STRING")
    case 0xff => Some("GEOMETRY")
    case _ => None
  }

  /** `toString()`: the name `CASES` holds under the case's value. */
  function ToString(t: ColumnType): (r: string)
    ensures Cases(Value(t)) == Some(r)
  {
    match Cases(Value(t))
    case Some(name) => name
    case None => ""
  }

  /**
   * `array_search($name, CASES, true)`: the first key, in declaration
   * order, whose name is identical to `name` (`===` on strings compares
   * the lengths before the bytes).
   */
  function Search(name: string): Option<int>
  {
    if |name| == 7 && name == "DECIMAL" then Some(0x00) else
    if |name| == 4 && name == "TINY" then Some(0x01) else
    if |name| == 5 && name == "SHORT" then Some(0x02) else
    if |name| == 4 && name == "LONG" then Some(0x03) else
    if |name| == 5 && name == "FLOAT" then Some(0x04) else
    if |name| == 6 && name == "DOUBLE" then Some(0x05) else
    if |name| == 4 && name == "NULL" then Some(0x06) else
    if |name| == 9 && name == "TIMESTAMP" then Some(0x07) else
    if |name| == 8 && name == "LONGLONG" then Some(0x08) else
    if |name| == 5 && name == "INT24" then Some(0x09) else
    if |name| == 4 && name == "DATE" then Some(0x0a) else
    if |name| == 4 && name == "TIME" then Some(0x0b) else
    if |name| == 8 && name == "DATETIME" then Some(0x0c) else
    if |name| == 4 && name == "YEAR" then Some(0x0d) else
    if |name| == 7 && name == "NEWDATE" then Some(0x0e) else
    if |name| == 7 && name == "VARCHAR" then Some(0x0f) else
    if |name| == 3 && name == "BIT" then Some(0x10) else
    if |name| == 10 && name == "TIMESTAMP2" then Some(0x11) else
    if |name| == 9 && name == "DATETIME2" then Some(0x12) else
    if |name| == 5 && name == "TIME2" then Some(0x13) else
    if |name| == 4 && name == "JSON" then Some(0xf5) else
    if |name| == 10 && name == "NEWDECIMAL" then Some(0xf6) else
    if |name| == 4 && name == "ENUM" then Some(0xf7) else
    if |name| == 3 && name == "SET" then Some(0xf8) else
    if |name| == 9 && name == "TINY_BLOB" then Some(0xf9) else
    if |name| == 11 && name == "MEDIUM_BLOB" then Some(0xfa) else
    if |name| == 9 && name == "LONG_BLOB" then Some(0xfb) else
    if |name| == 4 && name == "BLOB" then Some(0xfc) else
    if |name| == 10 && name == "VAR_STRING" then Some(0xfd) else
    if |name| == 6 && name == "STRING" then Some(0xfe) else
    if |name| == 8 && name == "GEOMETRY" then Some(0xff) else
    None
  }

  /** `tryFromString($name)`: the case whose name it is, or null. */
  function TryFromString(name: string): (r: Outcome<Option<ColumnType>>)
    ensures Search(name).None? ==> r == Ok(None)
    ensures r.Err? ==> r.error == ValueError
  {
    match Search(name)
    case None => Ok(None)
    case Some(key) =>
      match From(key)
      case Ok(t) => Ok(Some(t))
      case Err(e) => Err(e)
  }

  /** `fromString($name)`: the case whose name it is; InvalidArgumentException otherwise. */
  function FromString(name: string): (r: Outcome<ColumnType>)
    ensures r.Ok? ==> TryFromString(name) == Ok(Some(r.value))
    ensures TryFromString(name) == Ok(None) ==> r == Err(InvalidArgument)
  {
    match TryFromString(name)
    case Err(e) => Err(e)
    case Ok(None) => Err(InvalidArgument)
    case Ok(Some(t)) => Ok(t)
  }

  // ---------------------------------------------------------------- properties

  /** `from` inverts the value: the values are pairwise distinct. */
  lemma FromValue(t: ColumnType)
    ensures From(Value(t)) == Ok(t)
  {
  }

  /** `from` accepts exactly the case values, and returns the case with that value. */
  lemma FromSound(v: int)
    ensures From(v).Ok? ==> Value(From(v).value) == v
  {
  }

  /** `CASES` holds exactly one entry per case: under every case's value, and under no other key. */
  lemma CasesExact()
    ensures forall t :: Cases(Value(t)) == Some(ToString(t))
    ensures forall k :: Cases(k).Some? ==> From(k).Ok?
  {
  }

  /** The key `array_search` returns holds the name searched for. */
  lemma SearchSound(name: string)
    ensures Search(name).Some? ==> Cases(Search(name).value) == Some(name)
  {
  }

  /** `tryFromString` never throws, and the case it returns has the name it was given. */
  lemma TryFromStringSound(name: string)
    ensures TryFromString(name).Ok?
    ensures TryFromString(name).value.Some? ==> ToString(TryFromString(name).value.value) == name
  {
    SearchSound(name);
    CasesExact();
    if Search(name).Some? {
      FromSound(Search(name).value);
    }
  }

  /** A name `CASES` does not hold gives null, and `fromString` throws InvalidArgumentException. */
  lemma UnknownName(name: string)
    requires forall k :: Cases(k) != Some(name)
    ensures TryFromString(name) == Ok(None)
    ensures FromString(name) == Err(InvalidArgument)
  {
    SearchSound(name);
  }

  /** `tryFromString` and `fromString` invert `toString`. */
  lemma RoundTrip(t: ColumnType)
    ensures TryFromString(ToString(t)) == Ok(Some(t))
    ensures FromString(ToString(t)) == Ok(t)
  {
    SearchToString(t);
    FromValue(t);
  }

  /** Searching for a case's name finds that case's value: no earlier entry has the same name. */
  lemma SearchToString(t: ColumnType)
    ensures Search(ToString(t)) == Some(Value(t))
  {
    FromValue(t);
    if Value(t) <= 0x0b { SearchToString1(t); }
    else if Value(t) <= 0x11 { SearchToString2(t); }
    else if Value(t) <= 0xf6 { SearchToString3(t); }
    else if Value(t) <= 0xf9 { SearchToString4(t); }
    else if Value(t) <= 0xfc { SearchToString5(t); }
    else { SearchToString6(t); }
  }

  lemma SearchToString1(t: ColumnType)
    requires 0x00 <= Value(t) <= 0x0b
    ensures Search(ToString(t)) == Some(Value(t))
  {
  }

  lemma SearchToString2(t: ColumnType)
    requires 0x0c <= Value(t) <= 0x11
    ensures Search(ToString(t)) == Some(Value(t))
  {
  }

  lemma SearchToString3(t: ColumnType)
    requires 0x12 <= Value(t) <= 0xf6
    ensures Search(ToString(t)) == Some(Value(t))
  {
  }

  lemma SearchToString4(t: ColumnType)
    requires 0xf7 <= Value(t) <= 0xf9
    ensures Search(ToString(t)) == Some(Value(t))
  {
  }

  lemma SearchToString5(t: ColumnType)
    requires 0xfa <= Value(t) <= 0xfc
    ensures Search(ToString(t)) == Some(Value(t))
  {
  }

  lemma SearchToString6(t: ColumnType)
    requires 0xfd <= Value(t)
    ensures Search(ToString(t)) == Some(Value(t))
  {
  }
}
