/** Python and pandas values as the import scripts meet them in a spreadsheet row, the
    exceptions their conversions raise, and the parameter values they hand to the database. */
module Values {
  import opened Wrappers
  import opened Strings

  /** A cell of a pandas row, or what `row.get` returns: `None`, the float NaN pandas puts in
      an empty cell, a str, an int, or a float with no fractional part (`whole` followed by
      ".0"), which is how pandas stores the numbers of a numeric column that has empty cells. */
  datatype Value = PyNone | NaN | Str(s: string) | Int(i: int) | Float(whole: int)

  /** A pandas row: column header (exact, case- and diacritic-sensitive) to value. */
  type Row = map<string, Value>

  /** The exceptions a row conversion can raise. */
  datatype Error =
    | KeyError(key: string)          // `row[key]` for a column the sheet does not have
    | ValueError                     // `int(...)` of a value that is not an integer, or a bad unpacking
    | TypeError                      // `int(None)`
    | AttributeError(attr: string)   // a str method called on a value that is not a str
    | IndexError                     // a list index out of range
    | ValidationError(field: string) // a pydantic model refused a field

  /** `pd.isna(v)`. */
  predicate IsNa(v: Value) { v.PyNone? || v.NaN? }

  /** `str(v)`. */
  function PyStr(v: Value): string {
    match v
    case PyNone => "None"
    case NaN => "nan"
    case Str(s) => s
    case Int(i) => IntToString(i)
    case Float(w) => IntToString(w) + ".0"
  }

  /** `int(v)`: a float is truncated, which keeps a whole float's value. */
  function PyInt(v: Value): (r: Result<int, Error>)
    ensures v.Int? ==> r == Success(v.i)
    ensures v.Float? ==> r == Success(v.whole)
    ensures IsNa(v) ==> r.Failure?
  {
    match v
    case PyNone => Failure(TypeError)
    case NaN => Failure(ValueError)
    case Int(i) => Success(i)
    case Float(w) => Success(w)
    case Str(s) => if ParseInt(s).Some? then Success(ParseInt(s).value) else Failure(ValueError)
  }

  /** `row[key]`. */
  function GetItem(row: Row, key: string): (r: Result<Value, Error>)
    ensures r.Success? <==> key in row
    ensures r.Success? ==> r.value == row[key]
    ensures r.Failure? ==> r.error == KeyError(key)
  {
    if key in row then Success(row[key]) else Failure(KeyError(key))
  }

  /** `row.get(key, default)`; `row.get(key)` is `Get(row, key, PyNone)`. */
  function Get(row: Row, key: string, default: Value): (v: Value)
    ensures key in row ==> v == row[key]
    ensures key !in row ==> v == default
  {
    if key in row then row[key] else default
  }

  /** `v.replace(" ", "")`: only a str has the method. */
  function PyRemoveSpaces(v: Value): (r: Result<string, Error>)
    ensures r.Success? <==> v.Str?
  {
    if v.Str? then Success(RemoveChar(v.s, ' ')) else Failure(AttributeError("replace"))
  }

  /** A parameter of a parameterised SQL statement. */
  datatype SqlValue = SqlNull | SqlInt(i: int) | SqlText(s: string) | SqlTimestamp(raw: Value)

  function OptionalText(o: Option<string>): SqlValue {
    if o.Some? then SqlText(o.value) else SqlNull
  }

  function OptionalInt(o: Option<int>): SqlValue {
    if o.Some? then SqlInt(o.value) else SqlNull
  }

  /** pydantic's lax check of a `str` field: a str is kept, anything else is refused. */
  function StrField(field: string, v: Value): (r: Result<string, Error>)
    ensures r.Success? <==> v.Str?
    ensures r.Success? ==> r.value == v.s
  {
    if v.Str? then Success(v.s) else Failure(ValidationError(field))
  }

  /** pydantic's lax check of an `int` field: an int, a float without fractional part, or a
      str holding an integer. */
  function IntField(field: string, v: Value): (r: Result<int, Error>)
    ensures v.Int? ==> r == Success(v.i)
    ensures v.Float? ==> r == Success(v.whole)
    ensures IsNa(v) ==> r.Failure?
  {
    match v
    case Int(i) => Success(i)
    case Float(w) => Success(w)
    case Str(s) => if ParseInt(s).Some? then Success(ParseInt(s).value) else Failure(ValidationError(field))
    case _ => Failure(ValidationError(field))
  }

  /** pydantic's lax check of an `Optional[int]` field: `None` stays `None`. */
  function OptionalIntField(field: string, v: Value): (r: Result<Option<int>, Error>)
    ensures v.PyNone? ==> r == Success(None)
    ensures v.Int? ==> r == Success(Some(v.i))
    ensures v.Float? ==> r == Success(Some(v.whole))
    ensures v.NaN? ==> r.Failure?
  {
    if v.PyNone? then Success(None)
    else match IntField(field, v)
      case Success(i) => Success(Some(i))
      case Failure(e) => Failure(e)
  }

  /** `int(str(i)) == i` for every Python int. */
  lemma {:induction false} PyIntOfPyStr(i: int)
    ensures PyInt(Str(PyStr(Int(i)))) == Success(i)
  {
    ParseIntToString(i);
  }
}
