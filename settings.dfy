// orchestrator/src/server/services/settings.ts: the effective settings
// combine stored overrides with the environment. The model covers the LLM
// base-URL default per provider and the fallback chains of the per-task
// models, the base URL and the search cities.
module Settings {
  import opened Wrappers
  import opened Text

  const OLLAMA_URL := "http://localhost:11434"
  const LMSTUDIO_URL := "http://localhost:1234"
  const OPENAI_URL := "https://api.openai.com"
  const GEMINI_URL := "https://generativelanguage.googleapis.com"
  const OPENROUTER_URL := "https://openrouter.ai"

  /** `resolveDefaultLlmBaseUrl`: the provider's well-known URL, OpenRouter's for any other name. */
  function ResolveDefaultLlmBaseUrl(provider: string): string
  {
    var normalized := Lower(Trim(provider));
    if normalized == "ollama" then OLLAMA_URL
    else if normalized == "lmstudio" then LMSTUDIO_URL
    else if normalized == "openai" then OPENAI_URL
    else if normalized == "gemini" then GEMINI_URL
    else OPENROUTER_URL
  }

  /** Each known provider name, whatever its case and surrounding whitespace, has its own URL; every other name gets OpenRouter's. */
  lemma ResolveDefaultLlmBaseUrlSpec(provider: string)
    ensures var n := Lower(Trim(provider));
      var r := ResolveDefaultLlmBaseUrl(provider);
      (r == OLLAMA_URL <==> n == "ollama") &&
      (r == LMSTUDIO_URL <==> n == "lmstudio") &&
      (r == OPENAI_URL <==> n == "openai") &&
      (r == GEMINI_URL <==> n == "gemini") &&
      (r == OPENROUTER_URL <==> n !in {"ollama", "lmstudio", "openai", "gemini"})
  {
    assert OLLAMA_URL[4] != OPENAI_URL[4] && LMSTUDIO_URL[4] != OPENROUTER_URL[4];
  }

  /** Lower-casing a trimmed string leaves it trimmed. */
  lemma LowerTrimmed(s: string)
    requires IsTrimmedBy(s, Js)
    ensures IsTrimmedBy(Lower(s), Js)
  {
    if s != [] {
      LowerKeepsSpace(s[0]);
      LowerKeepsSpace(s[|s| - 1]);
    }
  }

  /** The provider is compared after trimming and lower-casing, so a normalised name resolves as the raw one. */
  lemma ResolveNormalizedProvider(provider: string)
    ensures ResolveDefaultLlmBaseUrl(Lower(Trim(provider))) == ResolveDefaultLlmBaseUrl(provider)
  {
    var t := Trim(provider);
    var n := Lower(t);
    TrimByTrimmed(provider, Js);
    LowerTrimmed(t);
    TrimByOfTrimmed(n, Js);
    LowerIdempotent(t);
    assert Lower(Trim(n)) == n;
  }

  /** `override || fallback`: a non-empty override wins, an absent or empty one falls back. */
  function OrElse(override: Option<string>, fallback: string): (r: string)
    ensures override.Some? && override.value != [] ==> r == override.value
    ensures override.None? || override.value == [] ==> r == fallback
  {
    if override.Some? && override.value != [] then override.value else fallback
  }

  /** `overrides[key] ?? null`. */
  function Lookup(overrides: map<string, string>, key: string): (r: Option<string>)
    ensures r.Some? <==> key in overrides
    ensures r.Some? ==> r.value == overrides[key]
  {
    if key in overrides then Some(overrides[key]) else None
  }

  /** The models used for scoring, tailoring and project selection. */
  datatype TaskModels = TaskModels(modelScorer: string, modelTailoring: string, modelProjectSelection: string)

  /** Each per-task model is its own override when that is non-empty, else the effective model. */
  function TaskModelsOf(overrides: map<string, string>, model: string): (r: TaskModels)
    ensures "modelScorer" in overrides && overrides["modelScorer"] != [] ==> r.modelScorer == overrides["modelScorer"]
    ensures !("modelScorer" in overrides && overrides["modelScorer"] != []) ==> r.modelScorer == model
    ensures "modelTailoring" in overrides && overrides["modelTailoring"] != [] ==> r.modelTailoring == overrides["modelTailoring"]
    ensures !("modelTailoring" in overrides && overrides["modelTailoring"] != []) ==> r.modelTailoring == model
    ensures "modelProjectSelection" in overrides && overrides["modelProjectSelection"] != [] ==>
      r.modelProjectSelection == overrides["modelProjectSelection"]
    ensures !("modelProjectSelection" in overrides && overrides["modelProjectSelection"] != []) ==> r.modelProjectSelection == model
  {
    TaskModels(OrElse(Lookup(overrides, "modelScorer"), model),
               OrElse(Lookup(overrides, "modelTailoring"), model),
               OrElse(Lookup(overrides, "modelProjectSelection"), model))
  }

  /** The LLM base URL: a non-empty override, else a non-empty `LLM_BASE_URL`, else the provider's default. */
  function LlmBaseUrl(overrides: map<string, string>, env: map<string, string>, llmProvider: string): (r: string)
    ensures "llmBaseUrl" in overrides && overrides["llmBaseUrl"] != [] ==> r == overrides["llmBaseUrl"]
    ensures !("llmBaseUrl" in overrides && overrides["llmBaseUrl"] != []) && "LLM_BASE_URL" in env && env["LLM_BASE_URL"] != [] ==>
      r == env["LLM_BASE_URL"]
    ensures !("llmBaseUrl" in overrides && overrides["llmBaseUrl"] != []) && !("LLM_BASE_URL" in env && env["LLM_BASE_URL"] != []) ==>
      r == ResolveDefaultLlmBaseUrl(llmProvider)
  {
    var defaultLlmBaseUrl := OrElse(Lookup(env, "LLM_BASE_URL"), ResolveDefaultLlmBaseUrl(llmProvider));
    OrElse(Lookup(overrides, "llmBaseUrl"), defaultLlmBaseUrl)
  }

  /** The raw search-cities override: `searchCities`, else the legacy `jobspyLocation`, even when the former is empty. */
  function SearchCitiesOverride(overrides: map<string, string>): (r: Option<string>)
    ensures "searchCities" in overrides ==> r == Some(overrides["searchCities"])
    ensures "searchCities" !in overrides ==> r == Lookup(overrides, "jobspyLocation")
  {
    var searchCities := Lookup(overrides, "searchCities");
    if searchCities.Some? then searchCities else Lookup(overrides, "jobspyLocation")
  }
}
