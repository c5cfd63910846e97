// orchestrator/src/server/services/settings-update/apply-updates.ts: a
// settings update runs the handler of every submitted key that has one,
// collects their actions in key order and the union of their deferred side
// effects, then runs the actions, each storing its value before its own side
// effect, and reports whether the backup schedule must be re-read.
module ApplyUpdates {
  import opened Wrappers
  import opened Json
  import opened SettingsRegistry

  /** What running an action does, in order: store the value, then update the environment. */
  datatype Effect = Stored(settingKey: string, value: Option<string>) | EnvApplied(envKey: string, value: Option<string>)

  /** `runAction`: the stored value comes first, the side effect, if any, after it. */
  function RunAction(action: Action): (r: seq<Effect>)
    ensures |r| >= 1 && r[0] == Stored(action.settingKey, action.value)
    ensures action.sideEffect.NoSideEffect? ==> |r| == 1
    ensures action.sideEffect.SetEnv? ==> r == [r[0], EnvApplied(action.sideEffect.envKey, action.sideEffect.value)]
  {
    var persisted := [Stored(action.settingKey, action.value)];
    if action.sideEffect.SetEnv? then persisted + [EnvApplied(action.sideEffect.envKey, action.sideEffect.value)]
    else persisted
  }

  /** Every submitted value has the type its key declares. */
  predicate InputFits(input: seq<(string, Input)>)
  {
    forall i :: 0 <= i < |input| && input[i].0 in REGISTRY ==> Fits(REGISTRY[input[i].0], input[i].1)
  }

  /** The actions of the handlers of `input`, in key order; keys with no handler add none. */
  function CollectedActions(input: seq<(string, Input)>, stringify: Json -> string, normalizeProjects: Json -> string): seq<Action>
    requires InputFits(input)
  {
    if input == [] then []
    else
      var (key, value) := input[|input| - 1];
      var prev := CollectedActions(input[..|input| - 1], stringify, normalizeProjects);
      if key in REGISTRY then prev + Handle(REGISTRY[key], key, value, stringify, normalizeProjects).actions
      else prev
  }

  /** The union of the deferred side effects of the handlers of `input`. */
  function CollectedDeferred(input: seq<(string, Input)>, stringify: Json -> string, normalizeProjects: Json -> string): set<Deferred>
    requires InputFits(input)
  {
    if input == [] then {}
    else
      var (key, value) := input[|input| - 1];
      var prev := CollectedDeferred(input[..|input| - 1], stringify, normalizeProjects);
      if key in REGISTRY then prev + Handle(REGISTRY[key], key, value, stringify, normalizeProjects).deferred
      else prev
  }

  /** `applySettingsUpdates`: the actions in the order they were collected, how running each goes, and the refresh flag. */
  method ApplySettingsUpdates(input: seq<(string, Input)>, stringify: Json -> string, normalizeProjects: Json -> string)
    returns (actions: seq<Action>, runs: seq<seq<Effect>>, shouldRefreshBackupScheduler: bool)
    requires InputFits(input)
    ensures actions == CollectedActions(input, stringify, normalizeProjects)
    ensures |runs| == |actions| && forall i :: 0 <= i < |actions| ==> runs[i] == RunAction(actions[i])
    ensures shouldRefreshBackupScheduler <==> exists i :: 0 <= i < |input| && IsBackupKey(input[i].0)
  {
    actions := [];
    var deferredSideEffects: set<Deferred> := {};
    for i := 0 to |input|
      invariant InputFits(input[..i])
      invariant actions == CollectedActions(input[..i], stringify, normalizeProjects)
      invariant deferredSideEffects == CollectedDeferred(input[..i], stringify, normalizeProjects)
    {
      assert input[..i + 1][..i] == input[..i];
      var (key, value) := input[i];
      if key !in REGISTRY {
        continue;
      }
      var result := Handle(REGISTRY[key], key, value, stringify, normalizeProjects);
      actions := actions + result.actions;
      deferredSideEffects := deferredSideEffects + result.deferred;
    }
    assert input[..|input|] == input;
    runs := seq(|actions|, i requires 0 <= i < |actions| => RunAction(actions[i]));
    DeferredRefresh(input, stringify, normalizeProjects);
    shouldRefreshBackupScheduler := RefreshBackupScheduler in deferredSideEffects;
  }

  /** The backup refresh is deferred exactly when one of the backup settings was submitted. */
  lemma {:induction false} DeferredRefresh(input: seq<(string, Input)>, stringify: Json -> string, normalizeProjects: Json -> string)
    requires InputFits(input)
    ensures RefreshBackupScheduler in CollectedDeferred(input, stringify, normalizeProjects) <==>
      exists i :: 0 <= i < |input| && IsBackupKey(input[i].0)
  {
    if input != [] {
      var init := input[..|input| - 1];
      var (key, value) := input[|input| - 1];
      InputFitsPrefix(input, |input| - 1);
      DeferredRefresh(init, stringify, normalizeProjects);
      KeyDeferral(key, value, stringify, normalizeProjects);
      BackupKeySnoc(input, init);
    }
  }

  /** A run of keys holds a backup setting when its first part does or its last key is one. */
  lemma BackupKeySnoc(input: seq<(string, Input)>, init: seq<(string, Input)>)
    requires input != [] && init == input[..|input| - 1]
    ensures (exists i :: 0 <= i < |input| && IsBackupKey(input[i].0)) <==>
      (exists i :: 0 <= i < |init| && IsBackupKey(init[i].0)) || IsBackupKey(input[|input| - 1].0)
  {
    if exists i :: 0 <= i < |input| && IsBackupKey(input[i].0) {
      var i :| 0 <= i < |input| && IsBackupKey(input[i].0);
      if i < |init| {
        assert init[i] == input[i];
      }
    }
    if exists i :: 0 <= i < |init| && IsBackupKey(init[i].0) {
      var i :| 0 <= i < |init| && IsBackupKey(init[i].0);
      assert input[i] == init[i];
    }
  }

  lemma InputFitsPrefix(input: seq<(string, Input)>, n: nat)
    requires InputFits(input) && n <= |input|
    ensures InputFits(input[..n])
  {
    forall i | 0 <= i < n && input[..n][i].0 in REGISTRY ensures Fits(REGISTRY[input[..n][i].0], input[..n][i].1) {
      assert input[..n][i] == input[i];
    }
  }

  /** One submitted key defers the backup refresh exactly when it is a backup setting. */
  lemma KeyDeferral(key: string, value: Input, stringify: Json -> string, normalizeProjects: Json -> string)
    requires key in REGISTRY ==> Fits(REGISTRY[key], value)
    ensures (key in REGISTRY && RefreshBackupScheduler in Handle(REGISTRY[key], key, value, stringify, normalizeProjects).deferred)
      <==> IsBackupKey(key)
  {
    OnlyBackupRefreshes(key);
    if key in REGISTRY {
      HandleDeferred(REGISTRY[key], key, value, stringify, normalizeProjects);
    }
  }

  /** Collecting over two runs of keys is collecting over each in turn. */
  lemma {:induction false} CollectedAppend(a: seq<(string, Input)>, b: seq<(string, Input)>, stringify: Json -> string, normalizeProjects: Json -> string)
    requires InputFits(a + b)
    ensures InputFits(a) && InputFits(b)
    ensures CollectedActions(a + b, stringify, normalizeProjects) ==
      CollectedActions(a, stringify, normalizeProjects) + CollectedActions(b, stringify, normalizeProjects)
    decreases |b|
  {
    assert InputFits(a) by {
      forall i | 0 <= i < |a| && a[i].0 in REGISTRY ensures Fits(REGISTRY[a[i].0], a[i].1) {
        assert a[i] == (a + b)[i];
      }
    }
    assert InputFits(b) by {
      forall i | 0 <= i < |b| && b[i].0 in REGISTRY ensures Fits(REGISTRY[b[i].0], b[i].1) {
        assert b[i] == (a + b)[|a| + i];
      }
    }
    if b == [] {
      assert a + b == a;
    } else {
      var b0 := b[..|b| - 1];
      assert (a + b)[..|a + b| - 1] == a + b0;
      CollectedAppend(a, b0, stringify, normalizeProjects);
    }
  }

  /** A key without a handler contributes nothing, wherever it stands. */
  lemma UnhandledIgnored(a: seq<(string, Input)>, key: string, value: Input, b: seq<(string, Input)>, stringify: Json -> string, normalizeProjects: Json -> string)
    requires key !in REGISTRY
    requires InputFits(a + b)
    ensures InputFits(a + [(key, value)] + b)
    ensures CollectedActions(a + [(key, value)] + b, stringify, normalizeProjects) == CollectedActions(a + b, stringify, normalizeProjects)
  {
    var s := a + [(key, value)] + b;
    assert InputFits(s) by {
      forall i | 0 <= i < |s| && s[i].0 in REGISTRY ensures Fits(REGISTRY[s[i].0], s[i].1) {
        if i < |a| {
          assert s[i] == (a + b)[i];
        } else if i > |a| {
          assert s[i] == (a + b)[i - 1];
        }
      }
    }
    CollectedAppend(a + [(key, value)], b, stringify, normalizeProjects);
    CollectedAppend(a, b, stringify, normalizeProjects);
    assert (a + [(key, value)])[..|a|] == a;
  }
}
