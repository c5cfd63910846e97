// orchestrator/src/server/services/llm/utils/http.ts: URL joining, query
// parameters and request headers for the LLM providers. `encodeURIComponent`
// is a parameter.
module LlmHttp {
  import opened Wrappers
  import opened Text

  /** `s.replace(/\/+$/, "")`: every trailing "/" removed. */
  function StripTrailingSlashes(s: string): (r: string)
    ensures |r| <= |s| && r == s[..|r|]
    ensures r == [] || r[|r| - 1] != '/'
    ensures forall i :: |r| <= i < |s| ==> s[i] == '/'
  {
    if |s| > 0 && s[|s| - 1] == '/' then StripTrailingSlashes(s[..|s| - 1]) else s
  }

  /** `joinUrl`. */
  function JoinUrl(baseUrl: string, path: string): string
  {
    var suffix := if |path| > 0 && path[0] == '/' then path else "/" + path;
    StripTrailingSlashes(baseUrl) + suffix
  }

  /**
    * The base without its trailing slashes, then the path with exactly one
    * "/" in front of it; extra slashes at the end of the base and a leading
    * "/" on the path make no difference.
    */
  lemma JoinUrlSpec(baseUrl: string, path: string)
    requires path == [] || path[0] != '/'
    ensures JoinUrl(baseUrl, path) == StripTrailingSlashes(baseUrl) + "/" + path
    ensures JoinUrl(baseUrl, "/" + path) == JoinUrl(baseUrl, path)
    ensures JoinUrl(baseUrl + "/", path) == JoinUrl(baseUrl, path)
  {
    var withSlash := baseUrl + "/";
    assert withSlash[..|withSlash| - 1] == baseUrl;
  }

  /** `addQueryParam`: "&" when the URL already has a query, "?" otherwise. */
  function AddQueryParam(url: string, key: string, value: string, encode: string -> string): string
  {
    var connector := if Contains(url, "?") then '&' else '?';
    url + [connector] + (encode(key) + "=" + encode(value))
  }

  /** The URL is kept as a prefix, followed by the right connector and the encoded pair. */
  lemma AddQueryParamSpec(url: string, key: string, value: string, encode: string -> string)
    ensures var r := AddQueryParam(url, key, value, encode);
      r[..|url|] == url &&
      r[|url|] == (if Contains(url, "?") then '&' else '?') &&
      r[|url| + 1..] == encode(key) + "=" + encode(value)
  {
    var tail := encode(key) + "=" + encode(value);
    var connector := if Contains(url, "?") then '&' else '?';
    var r := url + [connector] + tail;
    assert r[..|url|] == url;
    assert r[|url| + 1..] == tail;
  }

  /** After one parameter the URL has a query, so a second parameter is joined with "&". */
  lemma AddQueryParamTwice(url: string, k1: string, v1: string, k2: string, v2: string, encode: string -> string)
    ensures var once := AddQueryParam(url, k1, v1, encode);
      Contains(once, "?") && AddQueryParam(once, k2, v2, encode)[|once|] == '&'
  {
    var tail := encode(k1) + "=" + encode(v1);
    var connector := if Contains(url, "?") then '&' else '?';
    var once := url + [connector] + tail;
    if Contains(url, "?") {
      ContainsExtend(url, [connector] + tail, "?");
      assert once == url + ([connector] + tail);
    } else {
      assert once[|url|..|url| + 1] == "?";
      ContainsAt(once, "?", |url|);
    }
  }

  /** `buildHeaders`: the JSON content type, the bearer token when there is a key, and the OpenRouter headers. */
  method BuildHeaders(apiKey: Option<string>, provider: string) returns (headers: map<string, string>)
    ensures headers.Keys <= {"Content-Type", "Authorization", "HTTP-Referer", "X-Title"}
    ensures "Content-Type" in headers && headers["Content-Type"] == "application/json"
    ensures "Authorization" in headers <==> apiKey.Some? && apiKey.value != ""
    ensures "Authorization" in headers ==> headers["Authorization"] == "Bearer " + apiKey.value
    ensures ("HTTP-Referer" in headers <==> provider == "openrouter") && ("X-Title" in headers <==> provider == "openrouter")
    ensures provider == "openrouter" ==> headers["HTTP-Referer"] == "JobOps" && headers["X-Title"] == "JobOpsOrchestrator"
  {
    headers := map["Content-Type" := "application/json"];
    if apiKey.Some? && apiKey.value != "" {
      headers := headers["Authorization" := "Bearer " + apiKey.value];
    }
    if provider == "openrouter" {
      headers := headers["HTTP-Referer" := "JobOps"];
      headers := headers["X-Title" := "JobOpsOrchestrator"];
    }
  }
}
