// orchestrator/src/server/services/llm/policies/capability-fallback.ts:
// recognising a 400 that means the provider does not support the requested
// response mode, so that the next mode can be tried.
module CapabilityFallback {
  import opened Wrappers
  import opened Text
  import opened LlmTypes

  /** The lower-case body fragments that name a structured-output feature. */
  const CAPABILITY_MARKERS: seq<string> := ["response_format", "json_schema", "json_object", "text.format",
                                           "response schema", "responseschema", "responsemime", "response_mime"]

  /** `isCapabilityError`. */
  function IsCapabilityError(mode: ResponseMode, status: Option<int>, body: Option<string>): bool
  {
    if mode.NoneMode? then false
    else if status != Some(400) then false
    else
      var b := Lower(body.GetOr(""));
      if Contains(b, "model") && Contains(b, "not") then false
      else if Contains(b, "unknown model") then false
      else
        Contains(b, "response_format") || Contains(b, "json_schema") || Contains(b, "json_object") ||
        Contains(b, "text.format") || Contains(b, "response schema") || Contains(b, "responseschema") ||
        Contains(b, "responsemime") || Contains(b, "response_mime")
  }

  /**
    * A capability error is a 400 in a structured mode whose lower-cased body
    * names one of the markers and does not complain about the model.
    */
  lemma IsCapabilityErrorSpec(mode: ResponseMode, status: Option<int>, body: Option<string>)
    ensures var b := Lower(body.GetOr(""));
      IsCapabilityError(mode, status, body) <==>
        !mode.NoneMode? && status == Some(400) &&
        !(Contains(b, "model") && Contains(b, "not")) && !Contains(b, "unknown model") &&
        exists k :: 0 <= k < |CAPABILITY_MARKERS| && Contains(b, CAPABILITY_MARKERS[k])
    ensures mode.NoneMode? ==> !IsCapabilityError(mode, status, body)
    ensures status != Some(400) ==> !IsCapabilityError(mode, status, body)
  {
    var b := Lower(body.GetOr(""));
    if exists k :: 0 <= k < |CAPABILITY_MARKERS| && Contains(b, CAPABILITY_MARKERS[k]) {
      var k :| 0 <= k < |CAPABILITY_MARKERS| && Contains(b, CAPABILITY_MARKERS[k]);
      assert CAPABILITY_MARKERS[k] in CAPABILITY_MARKERS;
    }
    if Contains(b, "response_format") { assert Contains(b, CAPABILITY_MARKERS[0]); }
    if Contains(b, "json_schema") { assert Contains(b, CAPABILITY_MARKERS[1]); }
    if Contains(b, "json_object") { assert Contains(b, CAPABILITY_MARKERS[2]); }
    if Contains(b, "text.format") { assert Contains(b, CAPABILITY_MARKERS[3]); }
    if Contains(b, "response schema") { assert Contains(b, CAPABILITY_MARKERS[4]); }
    if Contains(b, "responseschema") { assert Contains(b, CAPABILITY_MARKERS[5]); }
    if Contains(b, "responsemime") { assert Contains(b, CAPABILITY_MARKERS[6]); }
    if Contains(b, "response_mime") { assert Contains(b, CAPABILITY_MARKERS[7]); }
  }
}
