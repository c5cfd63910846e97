// orchestrator/src/server/services/envSettings.ts: settings that also live
// in the process environment. A stored setting overrides the environment
// variable it is tied to; clearing it restores the value the process started
// with. The settings page receives readable values in full, secrets only as a
// short hint, and whether basic authentication is switched on.
module EnvSettings {
  import opened Wrappers
  import opened Text

  /** `normalizeEnvInput`: the trimmed value, or null when nothing is left. */
  function NormalizeEnvInput(value: Option<string>): (r: Option<string>)
    ensures r.None? <==> value.None? || AllIn(value.value, Js)
    ensures r.Some? ==> r.value == Trim(value.value) && r.value != [] && IsTrimmedBy(r.value, Js)
  {
    if value.None? then None
    else
      var trimmed := Trim(value.value);
      TrimEmpty(value.value);
      TrimByTrimmed(value.value, Js);
      if trimmed == [] then None else Some(trimmed)
  }

  /** Normalising twice is normalising once. */
  lemma NormalizeEnvInputIdempotent(value: Option<string>)
    ensures NormalizeEnvInput(NormalizeEnvInput(value)) == NormalizeEnvInput(value)
  {
    if value.Some? {
      TrimIdempotent(value.value);
    }
  }

  /** One setting of the shared registry: its key, the environment variable it maps to, and whether it is a secret. */
  datatype EnvSetting = EnvSetting(key: string, envKey: Option<string>, secret: bool)

  /** `"envKey" in def && def.envKey`: the setting is tied to a non-empty variable name. */
  predicate HasEnvKey(def: EnvSetting)
  {
    def.envKey.Some? && def.envKey.value != []
  }

  /** The environment after `applyEnvValue(envKey, value)`; `defaults` is the snapshot taken at start-up. */
  function Applied(vars: map<string, string>, defaults: map<string, string>, envKey: string, value: Option<string>): (r: map<string, string>)
    ensures forall k :: k != envKey ==> (k in r <==> k in vars)
    ensures forall k :: k != envKey && k in vars ==> r[k] == vars[k]
    ensures value.Some? ==> envKey in r && r[envKey] == value.value
    ensures value.None? ==> (envKey in r <==> envKey in defaults)
    ensures value.None? && envKey in defaults ==> r[envKey] == defaults[envKey]
  {
    if value.Some? then vars[envKey := value.value]
    else if envKey in defaults then vars[envKey := defaults[envKey]]
    else vars - {envKey}
  }

  /** Setting a variable and then clearing it leaves an environment that still agreed with the snapshot on it unchanged. */
  lemma ApplyThenRestore(vars: map<string, string>, defaults: map<string, string>, envKey: string, value: string)
    requires envKey in vars <==> envKey in defaults
    requires envKey in vars ==> vars[envKey] == defaults[envKey]
    ensures Applied(Applied(vars, defaults, envKey, Some(value)), defaults, envKey, None) == vars
  {
    var r := Applied(Applied(vars, defaults, envKey, Some(value)), defaults, envKey, None);
    assert r.Keys == vars.Keys;
  }

  /** Applying the same value twice is applying it once. */
  lemma AppliedIdempotent(vars: map<string, string>, defaults: map<string, string>, envKey: string, value: Option<string>)
    ensures Applied(Applied(vars, defaults, envKey, value), defaults, envKey, value) == Applied(vars, defaults, envKey, value)
  {
    var once := Applied(vars, defaults, envKey, value);
    assert Applied(once, defaults, envKey, value).Keys == once.Keys;
  }

  /** The environment after every stored override of `defs` has been applied in registry order. */
  function OverridesApplied(vars: map<string, string>, defaults: map<string, string>, defs: seq<EnvSetting>, stored: map<string, string>): map<string, string>
  {
    if defs == [] then vars
    else
      var prev := OverridesApplied(vars, defaults, defs[..|defs| - 1], stored);
      var def := defs[|defs| - 1];
      if !HasEnvKey(def) || def.key !in stored then prev
      else Applied(prev, defaults, def.envKey.value, NormalizeEnvInput(Some(stored[def.key])))
  }

  /** Whether some setting of `defs` is tied to `envKey`. */
  predicate Targets(defs: seq<EnvSetting>, envKey: string)
  {
    exists i :: 0 <= i < |defs| && HasEnvKey(defs[i]) && defs[i].envKey.value == envKey
  }

  /** A variable no setting is tied to is left as it was. */
  lemma {:induction false} OverridesUntouched(vars: map<string, string>, defaults: map<string, string>, defs: seq<EnvSetting>, stored: map<string, string>, k: string)
    requires !Targets(defs, k)
    ensures var r := OverridesApplied(vars, defaults, defs, stored);
      (k in r <==> k in vars) && (k in vars ==> r[k] == vars[k])
  {
    if defs != [] {
      var init := defs[..|defs| - 1];
      OverridesUntouched(vars, defaults, init, stored, k);
    }
  }

  /** No two settings of `defs` are tied to the same variable. */
  predicate DistinctEnvKeys(defs: seq<EnvSetting>)
  {
    forall i, j :: 0 <= i < j < |defs| && HasEnvKey(defs[i]) && HasEnvKey(defs[j]) ==> defs[i].envKey != defs[j].envKey
  }

  /** The variable `envKey` of `r` holds what `applyEnvValue(envKey, value)` leaves there. */
  predicate HoldsApplied(r: map<string, string>, defaults: map<string, string>, envKey: string, value: Option<string>)
  {
    if value.Some? then envKey in r && r[envKey] == value.value
    else (envKey in r <==> envKey in defaults) && (envKey in defaults ==> r[envKey] == defaults[envKey])
  }

  /**
    * With one setting per variable, a stored override with text in it sets
    * the variable to the trimmed text, and a blank one restores the start-up
    * value, whatever the position of the setting in the registry.
    */
  lemma {:induction false} OverrideApplied(vars: map<string, string>, defaults: map<string, string>, defs: seq<EnvSetting>, stored: map<string, string>, i: nat)
    requires DistinctEnvKeys(defs)
    requires i < |defs| && HasEnvKey(defs[i]) && defs[i].key in stored
    ensures HoldsApplied(OverridesApplied(vars, defaults, defs, stored), defaults,
                         defs[i].envKey.value, NormalizeEnvInput(Some(stored[defs[i].key])))
  {
    if i < |defs| - 1 {
      var init := defs[..|defs| - 1];
      assert init[i] == defs[i];
      OverrideApplied(vars, defaults, init, stored, i);
      var last := defs[|defs| - 1];
      if HasEnvKey(last) {
        assert last.envKey.value != defs[i].envKey.value;
      }
    }
  }

  // ---------------------------------------------------------------- settings page

  /** `activeOverrides[key] ?? process.env[envKey]`: a stored override, even an empty one, wins over the variable. */
  function RawValue(overrides: map<string, string>, vars: map<string, string>, def: EnvSetting): (r: Option<string>)
    requires HasEnvKey(def)
    ensures def.key in overrides ==> r == Some(overrides[def.key])
    ensures def.key !in overrides ==> (r.Some? <==> def.envKey.value in vars)
    ensures def.key !in overrides && r.Some? ==> r.value == vars[def.envKey.value]
  {
    if def.key in overrides then Some(overrides[def.key])
    else if def.envKey.value in vars then Some(vars[def.envKey.value])
    else None
  }

  /** The first characters of a secret: never more than four, and never the whole secret once it has two characters. */
  function SecretHint(raw: Option<string>): (r: Option<string>)
    ensures r.None? <==> raw.None? || raw.value == []
    ensures r.Some? ==> raw.Some? && 1 <= |r.value| <= 4 && |r.value| <= |raw.value| && r.value == raw.value[..|r.value|]
    ensures r.Some? && |raw.value| > 4 ==> |r.value| == 4
    ensures r.Some? && |raw.value| >= 2 ==> |r.value| < |raw.value|
    ensures r.Some? && |raw.value| <= 4 ==> |r.value| == if |raw.value| == 1 then 1 else |raw.value| - 1
  {
    if raw.None? || raw.value == [] then None
    else
      var hintLength := if |raw.value| > 4 then 4 else if |raw.value| - 1 > 1 then |raw.value| - 1 else 1;
      Some(raw.value[..hintLength])
  }

  /** The readable values of `defs`: each non-secret setting tied to a variable, normalised. */
  function ReadableOf(defs: seq<EnvSetting>, overrides: map<string, string>, vars: map<string, string>): map<string, Option<string>>
  {
    if defs == [] then map[]
    else
      var prev := ReadableOf(defs[..|defs| - 1], overrides, vars);
      var def := defs[|defs| - 1];
      if !HasEnvKey(def) || def.secret then prev
      else prev[def.key := NormalizeEnvInput(RawValue(overrides, vars, def))]
  }

  /** The secret hints of `defs`, each under its key followed by "Hint". */
  function PrivateOf(defs: seq<EnvSetting>, overrides: map<string, string>, vars: map<string, string>): map<string, Option<string>>
  {
    if defs == [] then map[]
    else
      var prev := PrivateOf(defs[..|defs| - 1], overrides, vars);
      var def := defs[|defs| - 1];
      if !HasEnvKey(def) || !def.secret then prev
      else prev[def.key + "Hint" := SecretHint(RawValue(overrides, vars, def))]
  }

  /** Basic authentication is on when both the user and the password, override first, are non-empty. */
  function BasicAuthActive(overrides: map<string, string>, vars: map<string, string>): (r: bool)
    ensures r <==> RawValue(overrides, vars, EnvSetting("basicAuthUser", Some("BASIC_AUTH_USER"), false)).Some? &&
                   RawValue(overrides, vars, EnvSetting("basicAuthUser", Some("BASIC_AUTH_USER"), false)).value != [] &&
                   RawValue(overrides, vars, EnvSetting("basicAuthPassword", Some("BASIC_AUTH_PASSWORD"), true)).Some? &&
                   RawValue(overrides, vars, EnvSetting("basicAuthPassword", Some("BASIC_AUTH_PASSWORD"), true)).value != []
  {
    var user := if "basicAuthUser" in overrides then overrides["basicAuthUser"]
                else if "BASIC_AUTH_USER" in vars then vars["BASIC_AUTH_USER"] else "";
    var password := if "basicAuthPassword" in overrides then overrides["basicAuthPassword"]
                    else if "BASIC_AUTH_PASSWORD" in vars then vars["BASIC_AUTH_PASSWORD"] else "";
    user != [] && password != []
  }

  /** The settings-page record: readable values, then hints, then the basic-auth flag, later entries winning. */
  datatype PageValue = Text(text: Option<string>) | Flag(flag: bool)

  function PageData(readable: map<string, Option<string>>, hints: map<string, Option<string>>, basicAuthActive: bool): (r: map<string, PageValue>)
    ensures "basicAuthActive" in r && r["basicAuthActive"] == Flag(basicAuthActive)
    ensures forall k :: k in r <==> k in readable || k in hints || k == "basicAuthActive"
    ensures forall k :: k in hints && k != "basicAuthActive" ==> r[k] == Text(hints[k])
    ensures forall k :: k in readable && k !in hints && k != "basicAuthActive" ==> r[k] == Text(readable[k])
  {
    (map k | k in readable :: Text(readable[k])) + (map k | k in hints :: Text(hints[k])) + map["basicAuthActive" := Flag(basicAuthActive)]
  }

  /** No two settings of `defs` share a key. */
  predicate DistinctKeys(defs: seq<EnvSetting>)
  {
    forall i, j :: 0 <= i < j < |defs| ==> defs[i].key != defs[j].key
  }

  /** Each non-secret setting tied to a variable appears with its normalised value (override first). */
  lemma {:induction false} ReadableEntry(defs: seq<EnvSetting>, overrides: map<string, string>, vars: map<string, string>, i: nat)
    requires DistinctKeys(defs)
    requires i < |defs| && HasEnvKey(defs[i]) && !defs[i].secret
    ensures var r := ReadableOf(defs, overrides, vars);
      defs[i].key in r && r[defs[i].key] == NormalizeEnvInput(RawValue(overrides, vars, defs[i]))
  {
    if i < |defs| - 1 {
      var init := defs[..|defs| - 1];
      assert init[i] == defs[i];
      ReadableEntry(init, overrides, vars, i);
      assert defs[|defs| - 1].key != defs[i].key;
    }
  }

  /** Only settings that are tied to a variable and not secret appear among the readable values. */
  lemma {:induction false} ReadableKeys(defs: seq<EnvSetting>, overrides: map<string, string>, vars: map<string, string>, k: string)
    requires k in ReadableOf(defs, overrides, vars)
    ensures exists i :: 0 <= i < |defs| && defs[i].key == k && HasEnvKey(defs[i]) && !defs[i].secret
  {
    var init := defs[..|defs| - 1];
    var def := defs[|defs| - 1];
    if HasEnvKey(def) && !def.secret && def.key == k {
    } else {
      ReadableKeys(init, overrides, vars, k);
      var i :| 0 <= i < |init| && init[i].key == k && HasEnvKey(init[i]) && !init[i].secret;
      assert defs[i] == init[i];
    }
  }

  /** Each secret tied to a variable appears only as its hint. */
  lemma {:induction false} HintEntry(defs: seq<EnvSetting>, overrides: map<string, string>, vars: map<string, string>, i: nat)
    requires DistinctKeys(defs)
    requires i < |defs| && HasEnvKey(defs[i]) && defs[i].secret
    ensures var r := PrivateOf(defs, overrides, vars);
      defs[i].key + "Hint" in r && r[defs[i].key + "Hint"] == SecretHint(RawValue(overrides, vars, defs[i]))
  {
    if i < |defs| - 1 {
      var init := defs[..|defs| - 1];
      assert init[i] == defs[i];
      HintEntry(init, overrides, vars, i);
      var last := defs[|defs| - 1].key;
      assert last != defs[i].key;
      SameSuffixCancels(last, defs[i].key, "Hint");
    }
  }

  lemma SameSuffixCancels(a: string, b: string, suffix: string)
    ensures a + suffix == b + suffix ==> a == b
  {
    if a + suffix == b + suffix {
      assert a == (a + suffix)[..|a|];
      assert b == (b + suffix)[..|b|];
    }
  }

  /** A process environment: its variables, and the snapshot taken when the process started. */
  class Env {
    var vars: map<string, string>
    const defaults: map<string, string>

    constructor(initial: map<string, string>)
      ensures vars == initial && defaults == initial
    {
      vars := initial;
      defaults := initial;
    }

    /** `applyEnvValue`: set the variable, or restore its start-up value when given null. */
    method ApplyEnvValue(envKey: string, value: Option<string>)
      modifies this
      ensures vars == Applied(old(vars), defaults, envKey, value)
    {
      if value.None? {
        if envKey !in defaults {
          vars := vars - {envKey};
        } else {
          vars := vars[envKey := defaults[envKey]];
        }
        return;
      }
      vars := vars[envKey := value.value];
    }

    /**
      * `applyStoredEnvOverrides`: every setting tied to a variable whose
      * override is stored has that override, normalised, applied.
      */
    method ApplyStoredEnvOverrides(defs: seq<EnvSetting>, stored: map<string, string>)
      modifies this
      ensures vars == OverridesApplied(old(vars), defaults, defs, stored)
    {
      ghost var start := vars;
      for i := 0 to |defs|
        invariant vars == OverridesApplied(start, defaults, defs[..i], stored)
      {
        assert defs[..i + 1][..i] == defs[..i];
        var def := defs[i];
        if !HasEnvKey(def) {
          continue;
        }
        if def.key !in stored {
          continue;
        }
        ApplyEnvValue(def.envKey.value, NormalizeEnvInput(Some(stored[def.key])));
      }
      assert defs[..|defs|] == defs;
    }

    /** `getEnvSettingsData`: the settings-page record for the current environment and `overrides`. */
    method GetEnvSettingsData(defs: seq<EnvSetting>, overrides: map<string, string>) returns (data: map<string, PageValue>)
      ensures data == PageData(ReadableOf(defs, overrides, vars), PrivateOf(defs, overrides, vars), BasicAuthActive(overrides, vars))
    {
      var readableValues: map<string, Option<string>> := map[];
      var privateValues: map<string, Option<string>> := map[];
      for i := 0 to |defs|
        invariant readableValues == ReadableOf(defs[..i], overrides, vars)
        invariant privateValues == PrivateOf(defs[..i], overrides, vars)
      {
        assert defs[..i + 1][..i] == defs[..i];
        var def := defs[i];
        if !HasEnvKey(def) {
          continue;
        }
        var rawValue := RawValue(overrides, vars, def);
        if def.secret {
          var hintKey := def.key + "Hint";
          if rawValue.None? || rawValue.value == [] {
            privateValues := privateValues[hintKey := None];
            continue;
          }
          var hintLength := if |rawValue.value| > 4 then 4 else if |rawValue.value| - 1 > 1 then |rawValue.value| - 1 else 1;
          privateValues := privateValues[hintKey := Some(rawValue.value[..hintLength])];
        } else {
          readableValues := readableValues[def.key := NormalizeEnvInput(rawValue)];
        }
      }
      assert defs[..|defs|] == defs;
      data := PageData(readableValues, privateValues, BasicAuthActive(overrides, vars));
    }
  }
}
