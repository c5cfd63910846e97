// orchestrator/src/server/services/settings-update/serializers.ts: how a
// setting's value is written to the settings table, where every value is
// text or null. Only null and undefined become null; 0 and false are stored.
module Serializers {
  import opened Wrappers
  import opened Text
  import opened JsParse
  import opened Json
  import EnvSettings

  /** `toNormalizedStringOrNull`: the value normalised as an environment input. */
  function ToNormalizedStringOrNull(value: Option<string>): Option<string>
  {
    EnvSettings.NormalizeEnvInput(value)
  }

  /** `toStringOrNull` for the integer settings: the decimal text, or null. */
  function ToStringOrNull(value: Option<int>): (r: Option<string>)
    ensures r.None? <==> value.None?
  {
    if value.Some? then Some(IntToString(value.value)) else None
  }

  /** Reading a stored number back with `parseInt` gives the number that was stored; zero is stored as "0". */
  lemma ToStringOrNullRoundTrip(value: Option<int>)
    ensures ToStringOrNull(value).Some? ==> ParseInt(ToStringOrNull(value).value) == value
    ensures ToStringOrNull(Some(0)) == Some("0")
  {
    if value.Some? {
      ParseIntOfString(value.value, []);
      assert IntToString(value.value) + [] == IntToString(value.value);
    }
  }

  /** `toJsonOrNull`: the JSON text of the value, or null for null and undefined; `stringify` is `JSON.stringify`. */
  function ToJsonOrNull(value: Json, stringify: Json -> string): (r: Option<string>)
    ensures r.None? <==> value.Null? || value.Undefined?
    ensures r.Some? ==> r.value == stringify(value)
  {
    if !value.Null? && !value.Undefined? then Some(stringify(value)) else None
  }

  /** `toBitBoolOrNull`: "1" for true, "0" for false, null for null. */
  function ToBitBoolOrNull(value: Option<bool>): (r: Option<string>)
  {
    if value.None? then None
    else if value.value then Some("1") else Some("0")
  }

  /** How the server start-up reads a stored flag back: "true" or "1" is true, anything else false. */
  function FromBitBool(stored: Option<string>): Option<bool>
  {
    if stored.None? then None else Some(stored.value == "true" || stored.value == "1")
  }

  /** Storing a flag and reading it back gives the flag; null stays null and only the two digits are ever stored. */
  lemma BitBoolRoundTrip(value: Option<bool>)
    ensures FromBitBool(ToBitBoolOrNull(value)) == value
    ensures ToBitBoolOrNull(value).None? <==> value.None?
    ensures ToBitBoolOrNull(value).Some? ==> ToBitBoolOrNull(value).value in {"1", "0"}
  {
    assert "0" != "1" by { assert "0"[0] != "1"[0]; }
    assert "0" != "true" by { assert |"0"| != |"true"|; }
  }
}
