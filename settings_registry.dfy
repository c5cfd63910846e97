// orchestrator/src/server/services/settings-update/registry.ts: one handler
// per updatable setting. A handler turns the submitted value into persist
// actions (the text to store, and an optional environment update to make
// once it is stored) and into deferred side effects to run after all
// updates. The handlers come in a few shapes, so the registry maps each key to
// its shape and `Handle` gives each shape's result.
module SettingsRegistry {
  import opened Wrappers
  import opened Text
  import opened Json
  import opened EnvSettings
  import opened Serializers

  /** The only deferred side effect: re-reading the backup schedule. */
  datatype Deferred = RefreshBackupScheduler

  /** What to do once an action's value is stored: nothing, or `applyEnvValue(envKey, value)`. */
  datatype SideEffect = NoSideEffect | SetEnv(envKey: string, value: Option<string>)

  /** `persistAction`: store `value` (null clears) under `settingKey`, then run the side effect. */
  datatype Action = Action(settingKey: string, value: Option<string>, sideEffect: SideEffect)

  datatype UpdateResult = UpdateResult(actions: seq<Action>, deferred: set<Deferred>)

  /** A submitted value as the request schema types it; Missing stands for null and undefined. */
  datatype Input = Missing | Text(text: string) | Number(number: int) | Flag(flag: bool) | Value(json: Json)

  /** The shapes of the handlers. */
  datatype Handler =
    | PlainText                                  // value ?? null
    | NormalizedText(envKey: Option<string>)     // trimmed or null, mirrored into the environment
    | ResumeProjects                             // normalised against the profile's projects
    | Count(refreshesBackup: bool)               // decimal text
    | JsonText                                   // JSON text
    | BitBool(refreshesBackup: bool)             // "1" / "0"
    | LegacyApiKey                               // the deprecated OpenRouter key

  /** The value has the type the handler's key declares. */
  predicate Fits(h: Handler, value: Input)
  {
    value.Missing? ||
    match h
    case PlainText => value.Text?
    case NormalizedText(_) => value.Text?
    case LegacyApiKey => value.Text?
    case Count(_) => value.Number?
    case BitBool(_) => value.Flag?
    case JsonText => value.Value?
    case ResumeProjects => value.Value?
  }

  function TextOf(value: Input): Option<string>
  {
    if value.Text? then Some(value.text) else None
  }

  function NumberOf(value: Input): Option<int>
  {
    if value.Number? then Some(value.number) else None
  }

  function FlagOf(value: Input): Option<bool>
  {
    if value.Flag? then Some(value.flag) else None
  }

  function JsonOf(value: Input): Json
  {
    if value.Value? then value.json else Undefined
  }

  /** `settingsUpdateRegistry`, key by key in the order it is written. */
  const REGISTRY: map<string, Handler> := map[
    "model" := PlainText,
    "modelScorer" := PlainText,
    "modelTailoring" := PlainText,
    "modelProjectSelection" := PlainText,
    "llmProvider" := NormalizedText(Some("LLM_PROVIDER")),
    "llmBaseUrl" := NormalizedText(Some("LLM_BASE_URL")),
    "pipelineWebhookUrl" := PlainText,
    "jobCompleteWebhookUrl" := PlainText,
    "rxresumeBaseResumeId" := NormalizedText(None),
    "resumeProjects" := ResumeProjects,
    "ukvisajobsMaxJobs" := Count(false),
    "gradcrackerMaxJobsPerTerm" := Count(false),
    "searchTerms" := JsonText,
    "jobspyLocation" := PlainText,
    "jobspyResultsWanted" := Count(false),
    "jobspyHoursOld" := Count(false),
    "jobspyCountryIndeed" := PlainText,
    "jobspySites" := JsonText,
    "jobspyLinkedinFetchDescription" := BitBool(false),
    "jobspyIsRemote" := BitBool(false),
    "showSponsorInfo" := BitBool(false),
    "openrouterApiKey" := LegacyApiKey,
    "llmApiKey" := NormalizedText(Some("LLM_API_KEY")),
    "rxresumeEmail" := NormalizedText(Some("RXRESUME_EMAIL")),
    "rxresumePassword" := NormalizedText(Some("RXRESUME_PASSWORD")),
    "basicAuthUser" := NormalizedText(Some("BASIC_AUTH_USER")),
    "basicAuthPassword" := NormalizedText(Some("BASIC_AUTH_PASSWORD")),
    "ukvisajobsEmail" := NormalizedText(Some("UKVISAJOBS_EMAIL")),
    "ukvisajobsPassword" := NormalizedText(Some("UKVISAJOBS_PASSWORD")),
    "webhookSecret" := NormalizedText(Some("WEBHOOK_SECRET")),
    "backupEnabled" := BitBool(true),
    "backupHour" := Count(true),
    "backupMaxCount" := Count(true)
  ]

  function Deferrals(refreshesBackup: bool): set<Deferred>
  {
    if refreshesBackup then {RefreshBackupScheduler} else {}
  }

  /**
    * The result of the handler of shape `h` for `key`. `stringify` is
    * `JSON.stringify`; `normalizeProjects` stands for reading the profile,
    * normalising the selection against its projects and printing it.
    */
  function Handle(h: Handler, key: string, value: Input, stringify: Json -> string, normalizeProjects: Json -> string): UpdateResult
    requires Fits(h, value)
  {
    match h
    case PlainText => UpdateResult([Action(key, TextOf(value), NoSideEffect)], {})
    case NormalizedText(envKey) =>
      var normalized := ToNormalizedStringOrNull(TextOf(value));
      var effect := if envKey.Some? then SetEnv(envKey.value, normalized) else NoSideEffect;
      UpdateResult([Action(key, normalized, effect)], {})
    case ResumeProjects =>
      var projects := JsonOf(value);
      if projects.Null? || projects.Undefined? then UpdateResult([Action(key, None, NoSideEffect)], {})
      else UpdateResult([Action(key, Some(normalizeProjects(projects)), NoSideEffect)], {})
    case Count(refreshes) => UpdateResult([Action(key, ToStringOrNull(NumberOf(value)), NoSideEffect)], Deferrals(refreshes))
    case JsonText => UpdateResult([Action(key, ToJsonOrNull(JsonOf(value), stringify), NoSideEffect)], {})
    case BitBool(refreshes) => UpdateResult([Action(key, ToBitBoolOrNull(FlagOf(value)), NoSideEffect)], Deferrals(refreshes))
    case LegacyApiKey =>
      var normalized := ToNormalizedStringOrNull(TextOf(value));
      UpdateResult([Action("llmApiKey", normalized, SetEnv("LLM_API_KEY", normalized)),
                    Action("openrouterApiKey", None, SetEnv("OPENROUTER_API_KEY", None))], {})
  }

  /** The handler of a registered key, applied; None for a key with no handler. */
  function HandleKey(key: string, value: Input, stringify: Json -> string, normalizeProjects: Json -> string): (r: Option<UpdateResult>)
    requires key in REGISTRY ==> Fits(REGISTRY[key], value)
    ensures r.Some? <==> key in REGISTRY
  {
    if key in REGISTRY then Some(Handle(REGISTRY[key], key, value, stringify, normalizeProjects)) else None
  }

  /** Whether a handler shape defers the backup refresh. */
  predicate RefreshesBackup(h: Handler)
  {
    (h.Count? || h.BitBool?) && h.refreshesBackup
  }

  // ---------------------------------------------------------------- handlers

  /**
    * Every handler yields exactly one action, stored under its own key,
    * except the legacy OpenRouter key, which stores the normalised value as
    * the LLM key and clears itself, each mirrored into the environment.
    */
  lemma HandleActions(h: Handler, key: string, value: Input, stringify: Json -> string, normalizeProjects: Json -> string)
    requires Fits(h, value)
    ensures var r := Handle(h, key, value, stringify, normalizeProjects);
      if h.LegacyApiKey? then
        var normalized := NormalizeEnvInput(TextOf(value));
        r.actions == [Action("llmApiKey", normalized, SetEnv("LLM_API_KEY", normalized)),
                      Action("openrouterApiKey", None, SetEnv("OPENROUTER_API_KEY", None))]
      else |r.actions| == 1 && r.actions[0].settingKey == key
  {
  }

  /** A handler defers the backup refresh exactly when its shape says so. */
  lemma HandleDeferred(h: Handler, key: string, value: Input, stringify: Json -> string, normalizeProjects: Json -> string)
    requires Fits(h, value)
    ensures var r := Handle(h, key, value, stringify, normalizeProjects);
      (RefreshBackupScheduler in r.deferred <==> RefreshesBackup(h)) && r.deferred <= {RefreshBackupScheduler}
  {
  }

  /** Credentials are stored trimmed, and a blank one is stored as null. */
  lemma NormalizedStored(envKey: Option<string>, key: string, value: Input, stringify: Json -> string, normalizeProjects: Json -> string)
    requires Fits(NormalizedText(envKey), value)
    ensures var a := Handle(NormalizedText(envKey), key, value, stringify, normalizeProjects).actions[0];
      (a.value.None? <==> value.Missing? || AllIn(value.text, Js)) &&
      (a.value.Some? ==> a.value.value == Trim(value.text) && IsTrimmedBy(a.value.value, Js)) &&
      (envKey.Some? ==> a.sideEffect == SetEnv(envKey.value, a.value))
  {
  }

  /** Counts are stored as decimal text that `parseInt` reads back; flags as "1" or "0"; null as null. */
  lemma ScalarsStored(h: Handler, key: string, value: Input, stringify: Json -> string, normalizeProjects: Json -> string)
    requires (h.Count? || h.BitBool?) && Fits(h, value)
    ensures var a := Handle(h, key, value, stringify, normalizeProjects).actions[0];
      (a.value.None? <==> value.Missing?) &&
      (h.Count? && value.Number? ==> JsParse.ParseInt(a.value.value) == Some(value.number)) &&
      (h.BitBool? && value.Flag? ==> FromBitBool(a.value) == Some(value.flag))
  {
    if h.Count? {
      ToStringOrNullRoundTrip(NumberOf(value));
    } else {
      BitBoolRoundTrip(FlagOf(value));
    }
  }

  /** Lists are stored as their JSON text; null and undefined as null. */
  lemma JsonStored(key: string, value: Input, stringify: Json -> string, normalizeProjects: Json -> string)
    requires Fits(JsonText, value)
    ensures var a := Handle(JsonText, key, value, stringify, normalizeProjects).actions[0];
      (a.value.None? <==> value.Missing? || value.json.Null? || value.json.Undefined?) &&
      (a.value.Some? ==> a.value.value == stringify(value.json))
  {
  }

  /** A null project selection is stored as null, and the profile is not consulted for it. */
  lemma NullResumeProjects(key: string, value: Input, stringify: Json -> string, normalizeProjects: Json -> string, other: Json -> string)
    requires Fits(ResumeProjects, value)
    requires value.Missing? || value.json.Null?
    ensures Handle(ResumeProjects, key, value, stringify, normalizeProjects).actions == [Action(key, None, NoSideEffect)]
    ensures Handle(ResumeProjects, key, value, stringify, normalizeProjects) == Handle(ResumeProjects, key, value, stringify, other)
  {
  }

  // ---------------------------------------------------------------- the table

  /** Only the legacy OpenRouter key has the two-action handler. */
  lemma OnlyOpenRouterIsLegacy(key: string)
    requires key in REGISTRY
    ensures REGISTRY[key].LegacyApiKey? <==> key == "openrouterApiKey"
  {
    assert "openrouterApiKey" != "rxresumePassword" by { assert "openrouterApiKey"[0] != "rxresumePassword"[0]; }
  }

  /** Whether `key` is one of the three backup settings. */
  predicate IsBackupKey(key: string)
  {
    key == "backupEnabled" || key == "backupHour" || key == "backupMaxCount"
  }

  /** The three backup settings are registered, and only they defer the backup refresh. */
  lemma OnlyBackupRefreshes(key: string)
    ensures IsBackupKey(key) ==> key in REGISTRY
    ensures key in REGISTRY ==> (RefreshesBackup(REGISTRY[key]) <==> IsBackupKey(key))
  {
  }

  /** The credentials of the settings page are mirrored into their environment variables. */
  lemma CredentialsMirrored()
    ensures REGISTRY["llmApiKey"] == NormalizedText(Some("LLM_API_KEY"))
    ensures REGISTRY["basicAuthUser"] == NormalizedText(Some("BASIC_AUTH_USER"))
    ensures REGISTRY["basicAuthPassword"] == NormalizedText(Some("BASIC_AUTH_PASSWORD"))
    ensures REGISTRY["webhookSecret"] == NormalizedText(Some("WEBHOOK_SECRET"))
  {
  }
}
