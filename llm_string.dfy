// orchestrator/src/server/services/llm/utils/string.ts: shortening text for
// logs and pulling a readable message out of a provider's error body.
// JSON.parse is a parameter.
module LlmString {
  import opened Wrappers
  import opened Text
  import opened Seqs
  import opened Json
  import opened ObjectPath

  const ELLIPSIS: char := '…'

  /** `truncate`: values that fit are kept; longer ones keep `maxLength - 1` characters and an ellipsis. */
  function Truncate(value: string, maxLength: int): string
  {
    if |value| <= maxLength then value else SliceTo(value, maxLength - 1) + [ELLIPSIS]
  }

  /**
    * A value that fits is unchanged; a longer one becomes exactly
    * `maxLength` characters, its prefix followed by the ellipsis, so
    * truncating twice is truncating once.
    */
  lemma TruncateSpec(value: string, maxLength: int)
    ensures |value| <= maxLength ==> Truncate(value, maxLength) == value
    ensures |value| > maxLength >= 1 ==>
      var r := Truncate(value, maxLength);
      |r| == maxLength && r[..maxLength - 1] == value[..maxLength - 1] && r[maxLength - 1] == ELLIPSIS
    ensures maxLength >= 1 ==> |Truncate(value, maxLength)| <= maxLength
    ensures maxLength >= 1 ==> Truncate(Truncate(value, maxLength), maxLength) == Truncate(value, maxLength)
  {
    if |value| > maxLength >= 1 {
      var r := Truncate(value, maxLength);
      assert r[..maxLength - 1] == value[..maxLength - 1];
    }
  }

  /** The places an error body may carry its message, in the order they are tried. */
  function ErrorCandidates(payload: Json): seq<Json>
  {
    [NestedValue(payload, [Key("error"), Key("message")]),
     NestedValue(payload, [Key("error"), Key("error"), Key("message")]),
     NestedValue(payload, [Key("error")]),
     NestedValue(payload, [Key("message")]),
     NestedValue(payload, [Key("detail")]),
     NestedValue(payload, [Key("msg")])]
  }

  /** A string whose trim is not empty. */
  predicate NonBlankString(v: Json)
  {
    v.Str? && Trim(v.s) != ""
  }

  /** The position of the first non-blank string candidate, or -1. */
  function FirstNonBlank(candidates: seq<Json>): (r: int)
    ensures -1 <= r < |candidates|
    ensures r >= 0 ==> NonBlankString(candidates[r])
    ensures forall j :: 0 <= j < (if r < 0 then |candidates| else r) ==> !NonBlankString(candidates[j])
  {
    if candidates == [] then -1
    else if NonBlankString(candidates[0]) then 0
    else
      var k := FirstNonBlank(candidates[1..]);
      if k < 0 then -1 else k + 1
  }

  /** `parseErrorMessage`. */
  function ParseErrorMessage(raw: string, parse: string -> Option<Json>): string
  {
    var trimmed := Trim(raw);
    if trimmed == "" then ""
    else if parse(trimmed).None? then trimmed
    else
      var payload := parse(trimmed).value;
      var cs := ErrorCandidates(payload);
      var found := FirstNonBlank(cs);
      if found >= 0 then Trim(cs[found].s)
      else if NonBlankString(payload) then Trim(payload.s)
      else trimmed
  }

  /**
    * The message is empty exactly for a blank body and is always trimmed; a
    * body that is not JSON comes back trimmed; otherwise it is the first
    * non-blank candidate, else a non-blank string payload, else the body.
    */
  lemma ParseErrorMessageSpec(raw: string, parse: string -> Option<Json>)
    ensures ParseErrorMessage(raw, parse) == "" <==> Trim(raw) == ""
    ensures IsTrimmedBy(ParseErrorMessage(raw, parse), Js)
    ensures Trim(raw) != "" && parse(Trim(raw)).None? ==> ParseErrorMessage(raw, parse) == Trim(raw)
    ensures Trim(raw) != "" && parse(Trim(raw)).Some? ==>
      var cs := ErrorCandidates(parse(Trim(raw)).value);
      (forall k :: 0 <= k < |cs| ==> !NonBlankString(cs[k])) ==>
        ParseErrorMessage(raw, parse) ==
          if NonBlankString(parse(Trim(raw)).value) then Trim(parse(Trim(raw)).value.s) else Trim(raw)
    ensures (Trim(raw) != "" && parse(Trim(raw)).Some? &&
             NonBlankString(NestedValue(parse(Trim(raw)).value, [Key("error"), Key("message")]))) ==>
      ParseErrorMessage(raw, parse) == Trim(NestedValue(parse(Trim(raw)).value, [Key("error"), Key("message")]).s)
  {
    var trimmed := Trim(raw);
    TrimByTrimmed(raw, Js);
    if trimmed != "" && parse(trimmed).Some? {
      var payload := parse(trimmed).value;
      var cs := ErrorCandidates(payload);
      var found := FirstNonBlank(cs);
      if found >= 0 {
        TrimByTrimmed(cs[found].s, Js);
      } else if NonBlankString(payload) {
        TrimByTrimmed(payload.s, Js);
      }
    }
  }
}
