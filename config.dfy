/**
 * The key/value lookup of config.go: the config table is a list of rows
 * with a "Key" and a "Value" field, both read through the lenient string
 * coercion of the row accessor.
 */
module Config {
  import opened Wrappers
  import Rows

  /** The error GetConfig returns when no row carries the key. */
  const ConfigKeyNotFound: Error := Error("config key not found")

  /** The string form of a config row's "Key" field. */
  function KeyOf(row: Rows.Row, formatFloat: Rows.Float64 -> string): string {
    Rows.GetFieldString(row, "Key", formatFloat)
  }

  /** The string form of a config row's "Value" field. */
  function ValueOf(row: Rows.Row, formatFloat: Rows.Float64 -> string): string {
    Rows.GetFieldString(row, "Value", formatFloat)
  }

  /** Row i carries the key and no row before it does. */
  predicate IsFirstMatch(rows: seq<Rows.Row>, key: string, formatFloat: Rows.Float64 -> string, i: nat) {
    i < |rows| && KeyOf(rows[i], formatFloat) == key &&
    forall k :: 0 <= k < i ==> KeyOf(rows[k], formatFloat) != key
  }

  /**
   * The loop of GetConfig: the first row, in list order, whose key equals
   * `key` yields its value; None when no row does.
   */
  function FindValue(rows: seq<Rows.Row>, key: string, formatFloat: Rows.Float64 -> string): (r: Option<string>)
    ensures r.None? <==> forall k :: 0 <= k < |rows| ==> KeyOf(rows[k], formatFloat) != key
    ensures forall i: nat :: IsFirstMatch(rows, key, formatFloat, i) ==> r == Some(ValueOf(rows[i], formatFloat))
  {
    if rows == [] then None
    else if KeyOf(rows[0], formatFloat) == key then Some(ValueOf(rows[0], formatFloat))
    else
      var r := FindValue(rows[1..], key, formatFloat);
      assert forall i: nat :: IsFirstMatch(rows, key, formatFloat, i) ==> i > 0 && IsFirstMatch(rows[1..], key, formatFloat, i - 1);
      assert forall k :: 0 < k < |rows| ==> rows[k] == rows[1..][k - 1];
      r
  }

  /**
   * GetConfig, given what listing the config table returned: the listing's
   * error unchanged; the value of the first row whose key matches; the
   * ConfigKeyNotFound error when none does. Errors come with "".
   */
  function GetConfig(listed: Result<seq<Rows.Row>>, key: string, formatFloat: Rows.Float64 -> string): (r: Outcome<string>)
    ensures listed.Err? ==> r == Outcome("", Some(listed.error))
    ensures listed.Ok? ==>
      (r.err.None? <==> exists k :: 0 <= k < |listed.value| && KeyOf(listed.value[k], formatFloat) == key)
    ensures listed.Ok? && r.err.Some? ==> r == Outcome("", Some(ConfigKeyNotFound))
    ensures listed.Ok? ==> forall i: nat :: IsFirstMatch(listed.value, key, formatFloat, i) ==>
      r == Outcome(ValueOf(listed.value[i], formatFloat), None)
  {
    match listed
    case Err(e) => Outcome("", Some(e))
    case Ok(rows) =>
      match FindValue(rows, key, formatFloat)
      case Some(value) => Outcome(value, None)
      case None => Outcome("", Some(ConfigKeyNotFound))
  }

  /** Rows after a matching row do not change the result. */
  lemma {:induction false} ConfigIgnoresLaterRows(rows: seq<Rows.Row>, later: seq<Rows.Row>, key: string,
                                                  formatFloat: Rows.Float64 -> string, k: nat)
    requires k < |rows| && KeyOf(rows[k], formatFloat) == key
    ensures GetConfig(Ok(rows + later), key, formatFloat) == GetConfig(Ok(rows), key, formatFloat)
  {
    FindValueIgnoresLaterRows(rows, later, key, formatFloat, k);
  }

  lemma {:induction false} FindValueIgnoresLaterRows(rows: seq<Rows.Row>, later: seq<Rows.Row>, key: string,
                                                     formatFloat: Rows.Float64 -> string, k: nat)
    requires k < |rows| && KeyOf(rows[k], formatFloat) == key
    ensures FindValue(rows + later, key, formatFloat) == FindValue(rows, key, formatFloat)
  {
    assert (rows + later)[0] == rows[0];
    if KeyOf(rows[0], formatFloat) != key {
      assert rows[1..][k - 1] == rows[k];
      assert (rows + later)[1..] == rows[1..] + later;
      FindValueIgnoresLaterRows(rows[1..], later, key, formatFloat, k - 1);
    }
  }

  /**
   * GetConfig("") is matched by a row whose "Key" is absent, empty or of an
   * uncoercible type, as long as no earlier row's key coerces to "".
   */
  lemma EmptyKeyMatchesKeylessRow(rows: seq<Rows.Row>, i: nat, formatFloat: Rows.Float64 -> string)
    requires i < |rows|
    requires match Rows.GetField(rows[i], "Key")
             case Str(s) => s == ""
             case Bool(_) => false
             case Number(_) => false
             case _ => true
    requires forall k :: 0 <= k < i ==> KeyOf(rows[k], formatFloat) != ""
    ensures GetConfig(Ok(rows), "", formatFloat) == Outcome(ValueOf(rows[i], formatFloat), None)
  {
    assert IsFirstMatch(rows, "", formatFloat, i);
  }
}
