/**
 * The kinds of optional metadata block a table-map event may end with
 * (signedness, charsets, column names, enum values, primary key).
 */
module OptionalMetadataTypes {
  import opened Wrappers
  import opened Errors

  datatype OptionalMetadataType =
    | SIGNEDNESS
    | DEFAULT_CHARSET
    | COLUMN_CHARSET
    | COLUMN_NAME
    | SET_STR_VALUE
    | ENUM_STR_VALUE
    | GEOMETRY_TYPE
    | SIMPLE_PRIMARY_KEY
    | PRIMARY_KEY_WITH_PREFIX
    | ENUM_AND_SET_DEFAULT_CHARSET
    | ENUM_AND_SET_COLUMN_CHARSET

  /** The type byte that opens a block of this kind. */
  function Value(t: OptionalMetadataType): int
  {
    match t
    case SIGNEDNESS => 1
    case DEFAULT_CHARSET => 2
    case COLUMN_CHARSET => 3
    case COLUMN_NAME => 4
    case SET_STR_VALUE => 5
    case ENUM_STR_VALUE => 6
    case GEOMETRY_TYPE => 7
    case SIMPLE_PRIMARY_KEY => 8
    case PRIMARY_KEY_WITH_PREFIX => 9
    case ENUM_AND_SET_DEFAULT_CHARSET => 10
    case ENUM_AND_SET_COLUMN_CHARSET => 11
  }

  /** `OptionalMetadataType::from($v)`: the case with that value; a ValueError for any other. */
  function From(v: int): (r: Outcome<OptionalMetadataType>)
    ensures r.Err? ==> r.error == ValueError
  {
    match v
    case 1 => Ok(SIGNEDNESS)
    case 2 => Ok(DEFAULT_CHARSET)
    case 3 => Ok(COLUMN_CHARSET)
    case 4 => Ok(COLUMN_NAME)
    case 5 => Ok(SET_STR_VALUE)
    case 6 => Ok(ENUM_STR_VALUE)
    case 7 => Ok(GEOMETRY_TYPE)
    case 8 => Ok(SIMPLE_PRIMARY_KEY)
    case 9 => Ok(PRIMARY_KEY_WITH_PREFIX)
    case 10 => Ok(ENUM_AND_SET_DEFAULT_CHARSET)
    case 11 => Ok(ENUM_AND_SET_COLUMN_CHARSET)
    case _ => Err(ValueError)
  }

  /** The `CASES` table: the name held under each case's value, and nothing under any other key. */
  function Cases(key: int): Option<string>
  {
    match key
    case 1 => Some("SIGNEDNESS")
    case 2 => Some("DEFAULT_CHARSET")
    case 3 => Some("COLUMN_CHARSET")
    case 4 => Some("COLUMN_NAME")
    case 5 => Some("SET_STR_VALUE")
    case 6 => Some("ENUM_STR_VALUE")
    case 7 => Some("GEOMETRY_TYPE")
    case 8 => Some("SIMPLE_PRIMARY_KEY")
    case 9 => Some("PRIMARY_KEY_WITH_PREFIX")
    case 10 => Some("ENUM_AND_SET_DEFAULT_CHARSET")
    case 11 => Some("ENUM_AND_SET_COLUMN_CHARSET")
    case _ => None
  }

  /** `toString()`: the name `CASES` holds under the case's value. */
  function ToString(t: OptionalMetadataType): (r: string)
    ensures Cases(Value(t)) == Some(r)
  {
    match Cases(Value(t))
    case Some(name) => name
    case None => ""
  }

  /**
   * `array_search($name, CASES, true)`: the first key, in declaration
   * order, whose name is identical to `name` (`===` on strings compares
   * the lengths before the bytes).
   */
  function Search(name: string): Option<int>
  {
    if |name| == 10 && name == "SIGNEDNESS" then Some(1) else
    if |name| == 15 && name == "DEFAULT_CHARSET" then Some(2) else
    if |name| == 14 && name == "COLUMN_CHARSET" then Some(3) else
    if |name| == 11 && name == "COLUMN_NAME" then Some(4) else
    if |name| == 13 && name == "SET_STR_VALUE" then Some(5) else
    if |name| == 14 && name == "ENUM_STR_VALUE" then Some(6) else
    if |name| == 13 && name == "GEOMETRY_TYPE" then Some(7) else
    if |name| == 18 && name == "SIMPLE_PRIMARY_KEY" then Some(8) else
    if |name| == 23 && name == "PRIMARY_KEY_WITH_PREFIX" then Some(9) else
    if |name| == 28 && name == "ENUM_AND_SET_DEFAULT_CHARSET" then Some(10) else
    if |name| == 27 && name == "ENUM_AND_SET_COLUMN_CHARSET" then Some(11) else
    None
  }

  /** `tryFromString($name)`: the case whose name it is, or null. */
  function TryFromString(name: string): (r: Outcome<Option<OptionalMetadataType>>)
    ensures Search(name).None? ==> r == Ok(None)
    ensures r.Err? ==> r.error == ValueError
  {
    match Search(name)
    case None => Ok(None)
    case Some(key) =>
      match From(key)
      case Ok(t) => Ok(Some(t))
      case Err(e) => Err(e)
  }

  /** `fromString($name)`: the case whose name it is; InvalidArgumentException otherwise. */
  function FromString(name: string): (r: Outcome<OptionalMetadataType>)
    ensures r.Ok? ==> TryFromString(name) == Ok(Some(r.value))
    ensures TryFromString(name) == Ok(None) ==> r == Err(InvalidArgument)
  {
    match TryFromString(name)
    case Err(e) => Err(e)
    case Ok(None) => Err(InvalidArgument)
    case Ok(Some(t)) => Ok(t)
  }

  // ---------------------------------------------------------------- properties

  /** `from` inverts the value: the values are pairwise distinct. */
  lemma FromValue(t: OptionalMetadataType)
    ensures From(Value(t)) == Ok(t)
  {
  }

  /** `from` accepts exactly the case values, and returns the case with that value. */
  lemma FromSound(v: int)
    ensures From(v).Ok? ==> Value(From(v).value) == v
  {
  }

  /** `CASES` holds exactly one entry per case: under every case's value, and under no other key. */
  lemma CasesExact()
    ensures forall t :: Cases(Value(t)) == Some(ToString(t))
    ensures forall k :: Cases(k).Some? ==> From(k).Ok?
  {
  }

  /** The key `array_search` returns holds the name searched for. */
  lemma SearchSound(name: string)
    ensures Search(name).Some? ==> Cases(Search(name).value) == Some(name)
  {
  }

  /** `tryFromString` never throws, and the case it returns has the name it was given. */
  lemma TryFromStringSound(name: string)
    ensures TryFromString(name).Ok?
    ensures TryFromString(name).value.Some? ==> ToString(TryFromString(name).value.value) == name
  {
    SearchSound(name);
    CasesExact();
    if Search(name).Some? {
      FromSound(Search(name).value);
    }
  }

  /** A name `CASES` does not hold gives null, and `fromString` throws InvalidArgumentException. */
  lemma UnknownName(name: string)
    requires forall k :: Cases(k) != Some(name)
    ensures TryFromString(name) == Ok(None)
    ensures FromString(name) == Err(InvalidArgument)
  {
    SearchSound(name);
  }

  /** `tryFromString` and `fromString` invert `toString`. */
  lemma RoundTrip(t: OptionalMetadataType)
    ensures TryFromString(ToString(t)) == Ok(Some(t))
    ensures FromString(ToString(t)) == Ok(t)
  {
    SearchToString(t);
    FromValue(t);
  }

  /** Searching for a case's name finds that case's value: no earlier entry has the same name. */
  lemma SearchToString(t: OptionalMetadataType)
    ensures Search(ToString(t)) == Some(Value(t))
  {
  }

  /** The values are exactly 1 to 11. */
  lemma ValuesOneToEleven()
    ensures forall t :: 1 <= Value(t) <= 11
    ensures forall v :: 1 <= v <= 11 ==> From(v).Ok?
  {
  }
}
