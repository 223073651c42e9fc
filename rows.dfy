/**
 * The row accessor of rows.go: lenient, typed reads of a row whose fields
 * were decoded from JSON into an untyped Go value.
 */
module Rows {
  import opened Wrappers

  /** A Go float64, kept as its IEEE 754 bit pattern; the model never computes with it. */
  datatype Float64 = Float64(bits: bv64)

  /** A value of Go type `interface{}` as JSON decoding or a caller may leave it. */
  datatype Value =
    | Nil                                  // the nil interface
    | Str(s: string)                       // string
    | Bool(b: bool)                        // bool
    | Number(f: Float64)                   // float64
    | Object(entries: map<string, Value>)  // map[string]interface{}
    | Array(items: seq<Value>)             // []interface{}
    | Other                                // any other dynamic type (int, a struct, ...)

  /** Row: an Airtable record, its id and its loosely typed fields. */
  datatype Row = Row(id: string, fields: Value)

  /** A time.Time in UTC, by its civil fields. */
  datatype Time = Time(year: int, month: int, day: int, hour: int, minute: int, second: int, nanosecond: int)

  /** The layout handed to time.Parse. */
  const AirtableDateFormat: string := "2006-01-02T15:04:05.000Z"

  /**
   * DefaultBlankTime is time.Date(1, 0, 0, 0, 0, 0, 0, time.UTC). time.Date
   * normalises month 0 to December of year 0 and day 0 to the last day of
   * the month before, so the value it denotes is 0000-11-30 00:00:00 UTC.
   */
  const DefaultBlankTime: Time := Time(0, 11, 30, 0, 0, 0, 0)

  /** GetField: the stored value, or nil when the fields are not a string-keyed map or lack the key. */
  function GetField(r: Row, fieldName: string): (v: Value)
    ensures r.fields.Object? && fieldName in r.fields.entries ==> v == r.fields.entries[fieldName]
    ensures !r.fields.Object? || fieldName !in r.fields.entries ==> v == Nil
  {
    match r.fields
    case Object(entries) => if fieldName in entries then entries[fieldName] else Nil
    case _ => Nil
  }

  /**
   * GetFieldString: strings as stored, booleans as "true"/"false", floats
   * through `formatFloat` (Go's fmt.Sprintf("%f", ·)), everything else "".
   */
  function GetFieldString(r: Row, fieldName: string, formatFloat: Float64 -> string): (s: string)
    ensures GetField(r, fieldName).Str? ==> s == GetField(r, fieldName).s
    ensures GetField(r, fieldName).Bool? ==> (s == "true" || s == "false") && (s == "true" <==> GetField(r, fieldName).b)
    ensures GetField(r, fieldName).Number? ==> s == formatFloat(GetField(r, fieldName).f)
    ensures !GetField(r, fieldName).Str? && !GetField(r, fieldName).Bool? && !GetField(r, fieldName).Number? ==> s == ""
  {
    match GetField(r, fieldName)
    case Str(str) => str
    case Bool(b) => if b then "true" else "false"
    case Number(f) => formatFloat(f)
    case _ => ""
  }

  /**
   * GetFieldTime: the string form parsed by `parse` (Go's time.Parse, which
   * yields a time or an error) with AirtableDateFormat; DefaultBlankTime when
   * the string form is empty or does not parse.
   */
  function GetFieldTime(r: Row, fieldName: string, formatFloat: Float64 -> string,
                        parse: (string, string) -> Option<Time>): (t: Time)
    ensures GetFieldString(r, fieldName, formatFloat) == "" ==> t == DefaultBlankTime
    ensures GetFieldString(r, fieldName, formatFloat) != "" ==>
      match parse(AirtableDateFormat, GetFieldString(r, fieldName, formatFloat))
      case Some(parsed) => t == parsed
      case None => t == DefaultBlankTime
    ensures t == DefaultBlankTime || parse(AirtableDateFormat, GetFieldString(r, fieldName, formatFloat)) == Some(t)
  {
    var timeStr := GetFieldString(r, fieldName, formatFloat);
    if timeStr == "" then DefaultBlankTime
    else
      match parse(AirtableDateFormat, timeStr)
      case Some(parsed) => parsed
      case None => DefaultBlankTime
  }

  /**
   * The string form of a field is "" exactly when the field is absent or of
   * an uncoercible type, is the empty string, or is a float that formats to "".
   */
  lemma FieldStringEmpty(r: Row, fieldName: string, formatFloat: Float64 -> string)
    ensures GetFieldString(r, fieldName, formatFloat) == "" <==>
      match GetField(r, fieldName)
      case Str(s) => s == ""
      case Bool(_) => false
      case Number(f) => formatFloat(f) == ""
      case _ => true
  {
  }
}
