// orchestrator/src/server/pipeline/steps/discover-jobs.ts: the discovery
// step. The requested sources are filtered by the selected country, grouped
// by extractor manifest in first-seen order and run (the extractors are
// passed in); their jobs and errors are aggregated, jobs from blocked
// employers are dropped, and the step fails when only errors remain.
module DiscoverJobs {
  import opened Wrappers
  import opened Text
  import opened Seqs
  import opened Json
  import opened Dedupe
  import opened NormalizeStringArray

  // ---------------------------------------------------------------- blocked employers

  /** The string entries of a JSON array, in order. */
  function StringEntries(items: seq<Json>): (r: seq<string>)
    ensures |r| <= |items|
    ensures forall s :: s in r <==> Str(s) in items
  {
    if items == [] then []
    else
      assert items == [items[0]] + items[1..];
      (if items[0].Str? then [items[0].s] else []) + StringEntries(items[1..])
  }

  /** `parseBlockedCompanyKeywords`; `parse` is JSON.parse, None when it throws. */
  function BlockedCompanyKeywords(raw: Option<string>, parse: string -> Option<Json>): seq<string>
  {
    if raw.None? || raw.value == "" then []
    else
      match parse(raw.value)
      case Some(Arr(items)) => Normalized(Some(StringEntries(items)))
      case _ => []
  }

  /**
    * A missing, empty, unparsable or non-array setting gives no keywords;
    * otherwise the keywords are the array's string entries normalised:
    * trimmed, non-empty, one per case-insensitive key, and every key among
    * the entries is kept.
    */
  lemma BlockedCompanyKeywordsSpec(raw: Option<string>, parse: string -> Option<Json>)
    ensures raw.None? || raw.value == "" || parse(raw.value).None? || !parse(raw.value).value.Arr? ==>
      BlockedCompanyKeywords(raw, parse) == []
    ensures forall s :: s in BlockedCompanyKeywords(raw, parse) ==> IsClean(s)
    ensures DistinctKeys(BlockedCompanyKeywords(raw, parse))
    ensures raw.Some? && raw.value != "" && parse(raw.value).Some? && parse(raw.value).value.Arr? ==>
      Keys(BlockedCompanyKeywords(raw, parse)) == Keys(TrimmedNonEmpty(StringEntries(parse(raw.value).value.items)))
  {
    var r := BlockedCompanyKeywords(raw, parse);
    if raw.Some? && raw.value != "" && parse(raw.value).Some? && parse(raw.value).value.Arr? {
      var entries := StringEntries(parse(raw.value).value.items);
      if entries == [] {
        assert r == [];
      } else {
        forall i | 0 <= i < |r| ensures IsClean(r[i]) && Lower(r[i]) in Keys(TrimmedNonEmpty(entries)) {
          NormalizedShape(entries, i);
        }
        if r != [] {
          NormalizedShape(entries, 0);
        }
        NormalizedCovers(entries);
      }
    }
  }

  /** `keywords.some((k) => hay.includes(k))`. */
  function AnyContained(hay: string, keywords: seq<string>): bool
  {
    keywords != [] && (Contains(hay, keywords[0]) || AnyContained(hay, keywords[1..]))
  }

  lemma {:induction false} AnyContainedSpec(hay: string, keywords: seq<string>)
    ensures AnyContained(hay, keywords) <==> exists i :: 0 <= i < |keywords| && Contains(hay, keywords[i])
    decreases |keywords|
  {
    if keywords != [] {
      AnyContainedSpec(hay, keywords[1..]);
      if AnyContained(hay, keywords[1..]) {
        var j :| 0 <= j < |keywords| - 1 && Contains(hay, keywords[1..][j]);
        assert keywords[j + 1] == keywords[1..][j];
      }
      if i :| 0 <= i < |keywords| && Contains(hay, keywords[i]) {
        if i > 0 {
          assert keywords[1..][i - 1] == keywords[i];
        }
      }
    }
  }

  /** The keywords lower-cased, as the step hands them to `isBlockedEmployer`. */
  function LowerAll(keywords: seq<string>): (r: seq<string>)
    ensures |r| == |keywords|
  {
    seq(|keywords|, i requires 0 <= i < |keywords| => Lower(keywords[i]))
  }

  /** `isBlockedEmployer`, with the keywords already lower-cased. */
  function IsBlockedEmployer(employer: Option<string>, keywordsLower: seq<string>): bool
  {
    if employer.None? || employer.value == "" then false
    else if |keywordsLower| == 0 then false
    else AnyContained(Lower(employer.value), keywordsLower)
  }

  /** Blocked exactly when there is a non-empty employer whose lower-cased name contains a keyword. */
  lemma IsBlockedEmployerSpec(employer: Option<string>, keywordsLower: seq<string>)
    ensures IsBlockedEmployer(employer, keywordsLower) <==>
      employer.Some? && employer.value != "" &&
      exists i :: 0 <= i < |keywordsLower| && Contains(Lower(employer.value), keywordsLower[i])
  {
    if employer.Some? {
      AnyContainedSpec(Lower(employer.value), keywordsLower);
    }
  }

  /** Matching ignores case: an employer name holding a blocked keyword, in any case, is blocked. */
  lemma BlockedByInfix(before: string, name: string, after: string, keywords: seq<string>, i: nat)
    requires i < |keywords| && Lower(name) == Lower(keywords[i])
    requires before + name + after != ""
    ensures IsBlockedEmployer(Some(before + name + after), LowerAll(keywords))
  {
    var lowered := LowerAll(keywords);
    LowerConcat(before, name);
    LowerConcat(before + name, after);
    ContainsInfix(Lower(before), Lower(name), Lower(after));
    assert Contains(Lower(before + name + after), lowered[i]);
    AnyContainedSpec(Lower(before + name + after), lowered);
  }

  // ---------------------------------------------------------------- search terms and country

  const DEFAULT_SEARCH_TERMS := "web developer"
  const DEFAULT_COUNTRY := "united kingdom"

  /**
    * The search terms: the JSON setting when it is set (None when JSON.parse
    * throws), otherwise `JOBSPY_SEARCH_TERMS` (or the default) split on "|",
    * trimmed, with the empty pieces dropped.
    */
  function SearchTerms(setting: Option<string>, envTerms: Option<string>, parse: string -> Option<Json>)
    : Option<seq<string>>
  {
    if setting.Some? && setting.value != "" then
      match parse(setting.value)
      case None => None
      case Some(Arr(items)) => Some(StringEntries(items))
      case Some(_) => Some([])
    else Some(EnvSearchTerms(envTerms))
  }

  /** `JOBSPY_SEARCH_TERMS`, or the default when unset or empty, split on "|", trimmed, empty pieces dropped. */
  function EnvSearchTerms(envTerms: Option<string>): seq<string>
  {
    var raw := if envTerms.None? || envTerms.value == "" then DEFAULT_SEARCH_TERMS else envTerms.value;
    TrimmedNonEmpty(Split(raw, {'|'}))
  }

  /** Without the setting, every term is trimmed, non-empty and free of "|". */
  lemma SearchTermsFromEnv(envTerms: Option<string>, parse: string -> Option<Json>)
    ensures SearchTerms(None, envTerms, parse).Some?
    ensures forall t :: t in SearchTerms(None, envTerms, parse).value ==> IsClean(t) && NoneIn(t, {'|'})
  {
    var raw := if envTerms.None? || envTerms.value == "" then DEFAULT_SEARCH_TERMS else envTerms.value;
    TrimmedNonEmptyClean(Split(raw, {'|'}));
    TrimmedNonEmptyNoneIn(Split(raw, {'|'}), {'|'});
  }

  /** With neither the setting nor the environment variable, the one default term. */
  lemma SearchTermsDefault(parse: string -> Option<Json>)
    ensures SearchTerms(None, None, parse) == Some([DEFAULT_SEARCH_TERMS])
  {
    SearchTermsEnvRoundTrip([DEFAULT_SEARCH_TERMS], parse);
  }

  lemma EnvSplitJoin(terms: seq<string>)
    requires terms != []
    requires forall k :: 0 <= k < |terms| ==> IsClean(terms[k]) && NoneIn(terms[k], {'|'})
    ensures TrimmedNonEmpty(Split(Join(terms, "|"), {'|'})) == terms
    ensures Join(terms, "|") != ""
  {
    SplitJoin(terms, '|', {'|'});
    TrimmedNonEmptyOfClean(terms);
  }

  /** Terms written to the environment joined by "|" are read back unchanged. */
  lemma SearchTermsEnvRoundTrip(terms: seq<string>, parse: string -> Option<Json>)
    requires terms != []
    requires forall k :: 0 <= k < |terms| ==> IsClean(terms[k]) && NoneIn(terms[k], {'|'})
    ensures SearchTerms(None, Some(Join(terms, "|")), parse) == Some(terms)
  {
    EnvSplitJoin(terms);
    EnvSearchTermsSet(Join(terms, "|"));
  }

  /** A non-empty environment variable is split as it is. */
  lemma EnvSearchTermsSet(raw: string)
    requires raw != ""
    ensures EnvSearchTerms(Some(raw)) == TrimmedNonEmpty(Split(raw, {'|'}))
  {
  }

  /** The country setting: the first of the three that is set (an empty string counts as set), else the default. */
  function CountrySetting(indeed: Option<string>, cities: Option<string>, location: Option<string>): string
  {
    if indeed.Some? then indeed.value
    else if cities.Some? then cities.value
    else if location.Some? then location.value
    else DEFAULT_COUNTRY
  }

  // ---------------------------------------------------------------- grouping by manifest

  datatype Manifest = Manifest(id: string, displayName: string)

  /** The extractor registry: the manifest each source belongs to, and the manifests by id. */
  datatype Registry = Registry(manifestBySource: map<string, Manifest>, manifests: map<string, Manifest>)

  /** An entry of `groupedByManifest`. */
  datatype Group = Group(manifestId: string, sources: seq<string>, detail: string, termsTotal: nat)

  const NOT_REGISTERED := ": extractor manifest not registered"

  /** The position of the group for manifest `id`, or -1: the `groupedByManifest.get` lookup. */
  function GroupIndex(groups: seq<Group>, id: string): (r: int)
    ensures -1 <= r < |groups|
    ensures r >= 0 ==> groups[r].manifestId == id
    ensures r < 0 <==> forall i :: 0 <= i < |groups| ==> groups[i].manifestId != id
  {
    if groups == [] then -1
    else if groups[0].manifestId == id then 0
    else
      var j := GroupIndex(groups[1..], id);
      if j < 0 then -1 else j + 1
  }

  /** One iteration of the grouping loop: an error for an unregistered source, else join or open its manifest's group. */
  function AddSource(acc: (seq<Group>, seq<string>), source: string, bySource: map<string, Manifest>, termsTotal: nat)
    : (seq<Group>, seq<string>)
  {
    if source !in bySource then (acc.0, acc.1 + [source + NOT_REGISTERED])
    else
      var m := bySource[source];
      var i := GroupIndex(acc.0, m.id);
      if i >= 0 then (acc.0[i := acc.0[i].(sources := acc.0[i].sources + [source])], acc.1)
      else (acc.0 + [Group(m.id, [source], m.displayName + ": fetching jobs...", termsTotal)], acc.1)
  }

  /** The groups and the not-registered errors after the grouping loop over `sources`. */
  function Grouping(sources: seq<string>, bySource: map<string, Manifest>, termsTotal: nat): (seq<Group>, seq<string>)
  {
    if sources == [] then ([], [])
    else AddSource(Grouping(sources[..|sources| - 1], bySource, termsTotal), sources[|sources| - 1], bySource, termsTotal)
  }

  /** The grouping loop, with `groupedByManifest` held in insertion order. */
  method GroupByManifest(sources: seq<string>, bySource: map<string, Manifest>, termsTotal: nat)
    returns (groups: seq<Group>, errors: seq<string>)
    ensures (groups, errors) == Grouping(sources, bySource, termsTotal)
  {
    groups, errors := [], [];
    for k := 0 to |sources|
      invariant (groups, errors) == Grouping(sources[..k], bySource, termsTotal)
    {
      assert sources[..k + 1][..k] == sources[..k];
      var source := sources[k];
      if source !in bySource {
        errors := errors + [source + NOT_REGISTERED];
        continue;
      }
      var manifest := bySource[source];
      var existing := GroupIndex(groups, manifest.id);
      if existing >= 0 {
        groups := groups[existing := groups[existing].(sources := groups[existing].sources + [source])];
        continue;
      }
      groups := groups + [Group(manifest.id, [source], manifest.displayName + ": fetching jobs...", termsTotal)];
    }
    assert sources[..|sources|] == sources;
  }

  /** The sources registered under manifest `id`, in order. */
  function SourcesOf(sources: seq<string>, bySource: map<string, Manifest>, id: string): seq<string>
  {
    Filter(sources, s => s in bySource && bySource[s].id == id)
  }

  /** The sources with no manifest, in order. */
  function Unregistered(sources: seq<string>, bySource: map<string, Manifest>): seq<string>
  {
    Filter(sources, s => s !in bySource)
  }

  predicate DistinctIds(groups: seq<Group>)
  {
    forall i, j :: 0 <= i < j < |groups| ==> groups[i].manifestId != groups[j].manifestId
  }

  /** The grouping invariant: one group per manifest, holding exactly that manifest's sources in order. */
  predicate GroupsOf(groups: seq<Group>, sources: seq<string>, bySource: map<string, Manifest>)
  {
    DistinctIds(groups) &&
    (forall i :: 0 <= i < |groups| ==>
       groups[i].sources == SourcesOf(sources, bySource, groups[i].manifestId) && groups[i].sources != []) &&
    (forall s :: s in sources && s in bySource ==> GroupIndex(groups, bySource[s].id) >= 0)
  }

  lemma FilterSnoc<T(!new)>(s: seq<T>, x: T, keep: T -> bool)
    ensures Filter(s + [x], keep) == Filter(s, keep) + if keep(x) then [x] else []
  {
    FilterAppend(s, [x], keep);
    assert [x][1..] == [];
  }

  /** The sources registered under `id` after one more source. */
  lemma SourcesOfSnoc(init: seq<string>, source: string, bySource: map<string, Manifest>, id: string)
    ensures SourcesOf(init + [source], bySource, id) ==
      SourcesOf(init, bySource, id) + if source in bySource && bySource[source].id == id then [source] else []
  {
    FilterSnoc(init, source, s => s in bySource && bySource[s].id == id);
  }

  /** An unregistered source leaves the groups as they are. */
  lemma AddUnregisteredKeeps(groups: seq<Group>, init: seq<string>, source: string, bySource: map<string, Manifest>)
    requires GroupsOf(groups, init, bySource) && source !in bySource
    ensures GroupsOf(groups, init + [source], bySource)
  {
    forall i | 0 <= i < |groups|
      ensures groups[i].sources == SourcesOf(init + [source], bySource, groups[i].manifestId)
    {
      SourcesOfSnoc(init, source, bySource, groups[i].manifestId);
    }
  }

  /** A source whose manifest has a group is appended to that group. */
  lemma AddToGroupKeeps(groups: seq<Group>, init: seq<string>, source: string, bySource: map<string, Manifest>, i: nat)
    requires GroupsOf(groups, init, bySource) && source in bySource
    requires i < |groups| && groups[i].manifestId == bySource[source].id
    ensures GroupsOf(groups[i := groups[i].(sources := groups[i].sources + [source])], init + [source], bySource)
  {
    var next := groups[i := groups[i].(sources := groups[i].sources + [source])];
    assert forall j :: 0 <= j < |next| ==> next[j].manifestId == groups[j].manifestId;
    forall j | 0 <= j < |next|
      ensures next[j].sources == SourcesOf(init + [source], bySource, next[j].manifestId)
    {
      SourcesOfSnoc(init, source, bySource, next[j].manifestId);
    }
    forall s | s in init + [source] && s in bySource ensures GroupIndex(next, bySource[s].id) >= 0 {
      if s in init {
        var k := GroupIndex(groups, bySource[s].id);
        assert next[k].manifestId == bySource[s].id;
      } else {
        assert next[i].manifestId == bySource[s].id;
      }
    }
  }

  /** A source whose manifest has no group yet opens a new group at the end. */
  lemma AddNewGroupKeeps(groups: seq<Group>, init: seq<string>, source: string, bySource: map<string, Manifest>, g: Group)
    requires GroupsOf(groups, init, bySource) && source in bySource
    requires GroupIndex(groups, bySource[source].id) < 0
    requires g.manifestId == bySource[source].id && g.sources == [source]
    ensures GroupsOf(groups + [g], init + [source], bySource)
  {
    var id := g.manifestId;
    var next := groups + [g];
    forall s | s in init && s in bySource ensures bySource[s].id != id {
      assert GroupIndex(groups, bySource[s].id) >= 0;
    }
    FilterNone(init, s => s in bySource && bySource[s].id == id);
    forall j | 0 <= j < |next|
      ensures next[j].sources == SourcesOf(init + [source], bySource, next[j].manifestId)
    {
      SourcesOfSnoc(init, source, bySource, next[j].manifestId);
    }
    NewGroupCovers(groups, init, source, bySource, g);
  }

  /** After a new group opens, every registered source seen so far still has a group. */
  lemma NewGroupCovers(groups: seq<Group>, init: seq<string>, source: string, bySource: map<string, Manifest>, g: Group)
    requires forall s :: s in init && s in bySource ==> GroupIndex(groups, bySource[s].id) >= 0
    requires source in bySource && g.manifestId == bySource[source].id
    ensures forall s :: s in init + [source] && s in bySource ==> GroupIndex(groups + [g], bySource[s].id) >= 0
  {
    var next := groups + [g];
    forall s | s in init + [source] && s in bySource ensures GroupIndex(next, bySource[s].id) >= 0 {
      if s in init {
        var k := GroupIndex(groups, bySource[s].id);
        assert next[k].manifestId == bySource[s].id;
      } else {
        assert next[|groups|].manifestId == bySource[s].id;
      }
    }
  }

  /** Adding a source keeps the grouping invariant. */
  lemma AddSourceKeeps(groups: seq<Group>, errors: seq<string>, init: seq<string>, source: string,
                       bySource: map<string, Manifest>, termsTotal: nat)
    requires GroupsOf(groups, init, bySource)
    ensures GroupsOf(AddSource((groups, errors), source, bySource, termsTotal).0, init + [source], bySource)
  {
    if source !in bySource {
      AddUnregisteredKeeps(groups, init, source, bySource);
    } else {
      var m := bySource[source];
      var i := GroupIndex(groups, m.id);
      if i >= 0 {
        AddToGroupKeeps(groups, init, source, bySource, i);
      } else {
        AddNewGroupKeeps(groups, init, source, bySource, Group(m.id, [source], m.displayName + ": fetching jobs...", termsTotal));
      }
    }
  }

  /** The groups have distinct manifests, each holds exactly its manifest's sources in order, and every registered source has a group. */
  lemma {:induction false} GroupingSpec(sources: seq<string>, bySource: map<string, Manifest>, termsTotal: nat)
    ensures GroupsOf(Grouping(sources, bySource, termsTotal).0, sources, bySource)
    decreases |sources|
  {
    if sources != [] {
      var init := sources[..|sources| - 1];
      var acc := Grouping(init, bySource, termsTotal);
      GroupingSpec(init, bySource, termsTotal);
      AddSourceKeeps(acc.0, acc.1, init, sources[|sources| - 1], bySource, termsTotal);
      assert init + [sources[|sources| - 1]] == sources;
    }
  }

  /** One error per unregistered source, in order: "<source>: extractor manifest not registered". */
  lemma {:induction false} GroupingErrors(sources: seq<string>, bySource: map<string, Manifest>, termsTotal: nat)
    ensures var errors := Grouping(sources, bySource, termsTotal).1;
      var missing := Unregistered(sources, bySource);
      |errors| == |missing| && forall k :: 0 <= k < |errors| ==> errors[k] == missing[k] + NOT_REGISTERED
    decreases |sources|
  {
    if sources != [] {
      var init := sources[..|sources| - 1];
      GroupingErrors(init, bySource, termsTotal);
      FilterSnoc(init, sources[|sources| - 1], s => s !in bySource);
      assert init + [sources[|sources| - 1]] == sources;
    }
  }

  // ---------------------------------------------------------------- tasks

  /** A discovery task: the manifest it runs, its sources, and the progress detail. */
  datatype Task = Task(source: string, sources: seq<string>, termsTotal: nat, detail: string)

  function TaskFor(group: Group, manifest: Manifest): Task
  {
    Task(manifest.id, group.sources, group.termsTotal,
         if |group.sources| > 1 then manifest.displayName + ": " + Join(group.sources, ", ") + "..." else group.detail)
  }

  /** The tasks, one per group whose manifest is registered, in group order. */
  function Tasks(groups: seq<Group>, manifests: map<string, Manifest>): seq<Task>
  {
    if groups == [] then []
    else
      var g := groups[|groups| - 1];
      Tasks(groups[..|groups| - 1], manifests) + (if g.manifestId in manifests then [TaskFor(g, manifests[g.manifestId])] else [])
  }

  /** The loop over `groupedByManifest` building the tasks. */
  method BuildTasks(groups: seq<Group>, manifests: map<string, Manifest>) returns (tasks: seq<Task>)
    ensures tasks == Tasks(groups, manifests)
  {
    tasks := [];
    for k := 0 to |groups|
      invariant tasks == Tasks(groups[..k], manifests)
    {
      assert groups[..k + 1][..k] == groups[..k];
      var grouped := groups[k];
      if grouped.manifestId !in manifests {
        continue;
      }
      tasks := tasks + [TaskFor(grouped, manifests[grouped.manifestId])];
    }
    assert groups[..|groups|] == groups;
  }

  /** Groups whose manifest is missing are skipped; otherwise there is one task per group, with its sources. */
  lemma TasksSpec(groups: seq<Group>, manifests: map<string, Manifest>)
    ensures |Tasks(groups, manifests)| <= |groups|
    ensures (forall i :: 0 <= i < |groups| ==> groups[i].manifestId in manifests) ==>
      |Tasks(groups, manifests)| == |groups| &&
      forall i :: 0 <= i < |groups| ==> Tasks(groups, manifests)[i] == TaskFor(groups[i], manifests[groups[i].manifestId])
  {
    TasksAtMost(groups, manifests);
    if forall i :: 0 <= i < |groups| ==> groups[i].manifestId in manifests {
      TasksAllRegistered(groups, manifests);
    }
  }

  lemma {:induction false} TasksAtMost(groups: seq<Group>, manifests: map<string, Manifest>)
    ensures |Tasks(groups, manifests)| <= |groups|
    decreases |groups|
  {
    if groups != [] {
      TasksAtMost(groups[..|groups| - 1], manifests);
    }
  }

  lemma {:induction false} TasksAllRegistered(groups: seq<Group>, manifests: map<string, Manifest>)
    requires forall i :: 0 <= i < |groups| ==> groups[i].manifestId in manifests
    ensures |Tasks(groups, manifests)| == |groups|
    ensures forall i :: 0 <= i < |groups| ==> Tasks(groups, manifests)[i] == TaskFor(groups[i], manifests[groups[i].manifestId])
    decreases |groups|
  {
    if groups != [] {
      var init, g := groups[..|groups| - 1], groups[|groups| - 1];
      assert forall i :: 0 <= i < |init| ==> init[i] == groups[i];
      TasksAllRegistered(init, manifests);
      var t := Tasks(init, manifests);
      assert Tasks(groups, manifests) == t + [TaskFor(g, manifests[g.manifestId])];
      forall i | 0 <= i < |groups|
        ensures Tasks(groups, manifests)[i] == TaskFor(groups[i], manifests[groups[i].manifestId])
      {
        if i < |init| {
          assert init[i] == groups[i];
        }
      }
    }
  }

  // ---------------------------------------------------------------- running and aggregating

  /** The fields of a discovered job the step reads. */
  datatype Job = Job(source: string, title: string, employer: Option<string>, jobUrl: string)

  /** What a task's run settles to: a result object, or a thrown error with its message when it is an Error. */
  datatype RunOutcome =
    | Finished(success: bool, jobs: seq<Job>, error: Option<string>)
    | Threw(message: Option<string>)

  datatype TaskResult = TaskResult(discoveredJobs: seq<Job>, sourceErrors: seq<string>)

  const UNKNOWN_ERROR := "unknown error"

  /**
    * A task's result: its jobs on success; otherwise no jobs and one error,
    * "<sources joined by ,>: <error>" for an unsuccessful result and
    * "<manifest id>: <message>" for a thrown error.
    */
  function TaskResultOf(task: Task, outcome: RunOutcome): (r: TaskResult)
    ensures r.sourceErrors == [] <==> outcome.Finished? && outcome.success
    ensures r.sourceErrors == [] ==> r.discoveredJobs == outcome.jobs
    ensures r.sourceErrors != [] ==> r.discoveredJobs == [] && |r.sourceErrors| == 1
    ensures outcome.Finished? && !outcome.success ==>
      r.sourceErrors == [Join(task.sources, ",") + ": " + outcome.error.GetOr(UNKNOWN_ERROR)]
    ensures outcome.Threw? ==> r.sourceErrors == [task.source + ": " + outcome.message.GetOr(UNKNOWN_ERROR)]
  {
    match outcome
    case Finished(success, jobs, error) =>
      if !success then TaskResult([], [Join(task.sources, ",") + ": " + error.GetOr(UNKNOWN_ERROR)])
      else TaskResult(jobs, [])
    case Threw(message) => TaskResult([], [task.source + ": " + message.GetOr(UNKNOWN_ERROR)])
  }

  /** `asyncPool`: the first `started` tasks (those begun before it was told to stop) settle, in task order. */
  function PoolResults(tasks: seq<Task>, started: nat, run: Task -> RunOutcome): seq<TaskResult>
  {
    var n := if started < |tasks| then started else |tasks|;
    seq(n, i requires 0 <= i < n => TaskResultOf(tasks[i], run(tasks[i])))
  }

  /** The jobs of all results, in order. */
  function AllJobs(results: seq<TaskResult>): seq<Job>
  {
    if results == [] then [] else AllJobs(results[..|results| - 1]) + results[|results| - 1].discoveredJobs
  }

  /** The errors of all results, in order. */
  function AllErrors(results: seq<TaskResult>): seq<string>
  {
    if results == [] then [] else AllErrors(results[..|results| - 1]) + results[|results| - 1].sourceErrors
  }

  /** The aggregation loop: push each result's jobs and errors. */
  method Aggregate(results: seq<TaskResult>, jobs0: seq<Job>, errors0: seq<string>)
    returns (jobs: seq<Job>, errors: seq<string>)
    ensures jobs == jobs0 + AllJobs(results) && errors == errors0 + AllErrors(results)
  {
    jobs, errors := jobs0, errors0;
    for k := 0 to |results|
      invariant jobs == jobs0 + AllJobs(results[..k]) && errors == errors0 + AllErrors(results[..k])
    {
      assert results[..k + 1][..k] == results[..k];
      jobs := jobs + results[k].discoveredJobs;
      errors := errors + results[k].sourceErrors;
    }
    assert results[..|results|] == results;
  }

  /** The aggregate has no errors exactly when no result has one, and no jobs exactly when no result has any. */
  lemma {:induction false} AggregateEmpty(results: seq<TaskResult>)
    ensures AllErrors(results) == [] <==> forall i :: 0 <= i < |results| ==> results[i].sourceErrors == []
    ensures AllJobs(results) == [] <==> forall i :: 0 <= i < |results| ==> results[i].discoveredJobs == []
    decreases |results|
  {
    if results != [] {
      var init := results[..|results| - 1];
      AggregateEmpty(init);
      assert forall i :: 0 <= i < |init| ==> init[i] == results[i];
    }
  }

  // ---------------------------------------------------------------- the step

  /** The settings the step reads. */
  datatype Settings = Settings(
    searchTerms: Option<string>,
    jobspyCountryIndeed: Option<string>,
    searchCities: Option<string>,
    jobspyLocation: Option<string>,
    blockedCompanyKeywords: Option<string>)

  /** The calls the step makes into code outside the model. */
  datatype Externals = Externals(
    parseJson: string -> Option<Json>,
    normalizeCountryKey: string -> string,
    formatCountryLabel: string -> string,
    isSourceAllowedForCountry: (string, string) -> bool,
    run: Task -> RunOutcome)

  /** What `shouldCancel` answers: before the pool, how many tasks the pool starts, after the pool. */
  datatype Cancellation = Cancellation(beforePool: bool, started: nat, afterPool: bool)

  datatype StepError =
    | SearchTermsUnparsable
    | NoCompatibleSources(countryLabel: string)
    | AllSourcesFailed(message: string)

  datatype Discovery = Discovery(discoveredJobs: seq<Job>, sourceErrors: seq<string>)

  /** What runs before the pool: the tasks and the not-registered errors, or the step's early failure. */
  function Plan(sources: seq<string>, settings: Settings, envTerms: Option<string>, registry: Registry, ext: Externals)
    : Result<(seq<Task>, seq<string>), StepError>
  {
    var terms := SearchTerms(settings.searchTerms, envTerms, ext.parseJson);
    if terms.None? then Failure(SearchTermsUnparsable)
    else
      var country := ext.normalizeCountryKey(
        CountrySetting(settings.jobspyCountryIndeed, settings.searchCities, settings.jobspyLocation));
      var compatible := Filter(sources, s => ext.isSourceAllowedForCountry(s, country));
      if |sources| > 0 && compatible == [] then Failure(NoCompatibleSources(ext.formatCountryLabel(country)))
      else
        var grouping := Grouping(compatible, registry.manifestBySource, |terms.value|);
        Success((Tasks(grouping.0, registry.manifests), grouping.1))
  }

  /** The lower-cased blocked keywords. */
  function BlockedLower(settings: Settings, ext: Externals): seq<string>
  {
    LowerAll(BlockedCompanyKeywords(settings.blockedCompanyKeywords, ext.parseJson))
  }

  /** The jobs kept by the blocked-employer filter, in order. */
  function Unblocked(jobs: seq<Job>, blockedLower: seq<string>): seq<Job>
  {
    Filter(jobs, (j: Job) => !IsBlockedEmployer(j.employer, blockedLower))
  }

  /** `discoverJobsStep`. */
  function Discover(sources: seq<string>, settings: Settings, envTerms: Option<string>, registry: Registry,
                    ext: Externals, cancel: Cancellation): Result<Discovery, StepError>
  {
    var plan := Plan(sources, settings, envTerms, registry, ext);
    if plan.Failure? then Failure(plan.error)
    else
      var (tasks, missing) := plan.value;
      if cancel.beforePool then Success(Discovery([], missing))
      else
        var results := PoolResults(tasks, cancel.started, ext.run);
        var errors := missing + AllErrors(results);
        var filtered := Unblocked(AllJobs(results), BlockedLower(settings, ext));
        if cancel.afterPool then Success(Discovery(filtered, errors))
        else if |filtered| == 0 && |errors| > 0 then Failure(AllSourcesFailed("All sources failed: " + Join(errors, "; ")))
        else Success(Discovery(filtered, errors))
  }

  /** The part of the step before the pool: search terms, country filter, grouping and task building. */
  method PlanStep(sources: seq<string>, settings: Settings, envTerms: Option<string>, registry: Registry, ext: Externals)
    returns (r: Result<(seq<Task>, seq<string>), StepError>)
    ensures r == Plan(sources, settings, envTerms, registry, ext)
  {
    var searchTerms := SearchTerms(settings.searchTerms, envTerms, ext.parseJson);
    if searchTerms.None? {
      return Failure(SearchTermsUnparsable);
    }
    var selectedCountry := ext.normalizeCountryKey(
      CountrySetting(settings.jobspyCountryIndeed, settings.searchCities, settings.jobspyLocation));
    var compatibleSources := Filter(sources, s => ext.isSourceAllowedForCountry(s, selectedCountry));
    if |sources| > 0 && |compatibleSources| == 0 {
      return Failure(NoCompatibleSources(ext.formatCountryLabel(selectedCountry)));
    }
    var groups, sourceErrors := GroupByManifest(compatibleSources, registry.manifestBySource, |searchTerms.value|);
    var sourceTasks := BuildTasks(groups, registry.manifests);
    r := Success((sourceTasks, sourceErrors));
  }

  /** `discoverJobsStep`: plan, run the pool, aggregate, filter blocked employers, apply the all-failed rule. */
  method DiscoverJobsStep(sources: seq<string>, settings: Settings, envTerms: Option<string>, registry: Registry,
                          ext: Externals, cancel: Cancellation)
    returns (r: Result<Discovery, StepError>)
    ensures r == Discover(sources, settings, envTerms, registry, ext, cancel)
  {
    var plan := PlanStep(sources, settings, envTerms, registry, ext);
    if plan.Failure? {
      return Failure(plan.error);
    }
    var (sourceTasks, sourceErrors) := plan.value;
    if cancel.beforePool {
      return Success(Discovery([], sourceErrors));
    }
    var sourceResults := PoolResults(sourceTasks, cancel.started, ext.run);
    var discoveredJobs;
    discoveredJobs, sourceErrors := Aggregate(sourceResults, [], sourceErrors);
    assert discoveredJobs == AllJobs(sourceResults);
    var filtered := Unblocked(discoveredJobs, BlockedLower(settings, ext));
    if cancel.afterPool {
      return Success(Discovery(filtered, sourceErrors));
    }
    if |filtered| == 0 && |sourceErrors| > 0 {
      return Failure(AllSourcesFailed("All sources failed: " + Join(sourceErrors, "; ")));
    }
    r := Success(Discovery(filtered, sourceErrors));
  }

  /**
    * Incompatible sources are skipped, and the step fails when sources were
    * requested but none is compatible with the selected country.
    */
  lemma PlanCountry(sources: seq<string>, settings: Settings, envTerms: Option<string>, registry: Registry, ext: Externals)
    requires SearchTerms(settings.searchTerms, envTerms, ext.parseJson).Some?
    ensures var country := ext.normalizeCountryKey(
        CountrySetting(settings.jobspyCountryIndeed, settings.searchCities, settings.jobspyLocation));
      (Plan(sources, settings, envTerms, registry, ext).Failure? <==>
         |sources| > 0 && forall k :: 0 <= k < |sources| ==> !ext.isSourceAllowedForCountry(sources[k], country)) &&
      (Plan(sources, settings, envTerms, registry, ext).Success? ==>
         forall t, s :: t in Plan(sources, settings, envTerms, registry, ext).value.0 && s in t.sources ==>
           s in sources && ext.isSourceAllowedForCountry(s, country))
  {
    var terms := SearchTerms(settings.searchTerms, envTerms, ext.parseJson);
    var country := ext.normalizeCountryKey(
      CountrySetting(settings.jobspyCountryIndeed, settings.searchCities, settings.jobspyLocation));
    var keep := s => ext.isSourceAllowedForCountry(s, country);
    var compatible := Filter(sources, keep);
    if compatible == [] {
      assert forall k :: 0 <= k < |sources| ==> !keep(sources[k]) by {
        forall k | 0 <= k < |sources| ensures !keep(sources[k]) {
          assert sources[k] in sources;
        }
      }
    } else {
      assert compatible[0] in sources;
    }
    var grouping := Grouping(compatible, registry.manifestBySource, |terms.value|);
    GroupingSpec(compatible, registry.manifestBySource, |terms.value|);
    TasksMembers(grouping.0, registry.manifests);
    forall t, s | t in Tasks(grouping.0, registry.manifests) && s in t.sources
      ensures s in sources && keep(s)
    {
      var i :| 0 <= i < |grouping.0| && t.sources == grouping.0[i].sources;
      assert s in SourcesOf(compatible, registry.manifestBySource, grouping.0[i].manifestId);
    }
  }

  /** Every task carries the sources of one of the groups. */
  lemma {:induction false} TasksMembers(groups: seq<Group>, manifests: map<string, Manifest>)
    ensures forall t :: t in Tasks(groups, manifests) ==> exists i :: 0 <= i < |groups| && t.sources == groups[i].sources
    decreases |groups|
  {
    if groups != [] {
      var init := groups[..|groups| - 1];
      TasksMembers(init, manifests);
      assert forall i :: 0 <= i < |init| ==> init[i] == groups[i];
    }
  }

  /**
    * The all-failed rule: once the pool has run and the step is not
    * cancelled, it fails exactly when no job survives the filter and some
    * source reported an error, with the errors joined by "; ".
    */
  lemma AllSourcesFailedRule(sources: seq<string>, settings: Settings, envTerms: Option<string>, registry: Registry,
                             ext: Externals, cancel: Cancellation)
    requires Plan(sources, settings, envTerms, registry, ext).Success?
    requires !cancel.beforePool && !cancel.afterPool
    ensures var plan := Plan(sources, settings, envTerms, registry, ext).value;
      var results := PoolResults(plan.0, cancel.started, ext.run);
      var errors := plan.1 + AllErrors(results);
      var jobs := Unblocked(AllJobs(results), BlockedLower(settings, ext));
      var r := Discover(sources, settings, envTerms, registry, ext, cancel);
      (r.Failure? <==> jobs == [] && errors != []) &&
      (r.Failure? ==> r.error == AllSourcesFailed("All sources failed: " + Join(errors, "; "))) &&
      (r.Success? ==> r.value == Discovery(jobs, errors))
  {
  }

  /**
    * The returned jobs are the discovered jobs without the blocked
    * employers, in order: each kept job is unblocked, and every unblocked
    * discovered job is kept.
    */
  lemma DiscoveredJobsFiltered(sources: seq<string>, settings: Settings, envTerms: Option<string>, registry: Registry,
                               ext: Externals, cancel: Cancellation)
    requires Plan(sources, settings, envTerms, registry, ext).Success? && !cancel.beforePool
    requires Discover(sources, settings, envTerms, registry, ext, cancel).Success?
    ensures var plan := Plan(sources, settings, envTerms, registry, ext).value;
      var all := AllJobs(PoolResults(plan.0, cancel.started, ext.run));
      var kept := Discover(sources, settings, envTerms, registry, ext, cancel).value.discoveredJobs;
      IsSubseq(kept, all) &&
      forall j :: j in kept <==> j in all && !IsBlockedEmployer(j.employer, BlockedLower(settings, ext))
  {
    var plan := Plan(sources, settings, envTerms, registry, ext).value;
    var all := AllJobs(PoolResults(plan.0, cancel.started, ext.run));
    var blocked := BlockedLower(settings, ext);
    FilterSubseq(all, (j: Job) => !IsBlockedEmployer(j.employer, blocked));
  }

  /** A single registered source opens one group. */
  lemma GroupingOne(source: string, bySource: map<string, Manifest>, termsTotal: nat)
    requires source in bySource
    ensures Grouping([source], bySource, termsTotal) ==
      ([Group(bySource[source].id, [source], bySource[source].displayName + ": fetching jobs...", termsTotal)], [])
  {
    assert [source][..0] == [];
    var acc := Grouping([], bySource, termsTotal);
    assert Grouping([source], bySource, termsTotal) == AddSource(acc, source, bySource, termsTotal);
    assert acc.0 == [] && acc.1 == [];
    var m := bySource[source];
    var g := Group(m.id, [source], m.displayName + ": fetching jobs...", termsTotal);
    assert GroupIndex(acc.0, m.id) == -1;
    assert AddSource(acc, source, bySource, termsTotal) == (acc.0 + [g], acc.1);
    assert acc.0 + [g] == [g];
  }

  /** A single compatible, registered source plans one task for its manifest. */
  lemma PlanOne(source: string, m: Manifest, settings: Settings, envTerms: Option<string>, ext: Externals)
    requires SearchTerms(settings.searchTerms, envTerms, ext.parseJson).Some?
    requires ext.isSourceAllowedForCountry(source, ext.normalizeCountryKey(
      CountrySetting(settings.jobspyCountryIndeed, settings.searchCities, settings.jobspyLocation)))
    ensures var terms := SearchTerms(settings.searchTerms, envTerms, ext.parseJson).value;
      Plan([source], settings, envTerms, Registry(map[source := m], map[m.id := m]), ext) ==
      Success(([Task(m.id, [source], |terms|, m.displayName + ": fetching jobs...")], []))
  {
    var registry := Registry(map[source := m], map[m.id := m]);
    var terms := SearchTerms(settings.searchTerms, envTerms, ext.parseJson).value;
    var country := ext.normalizeCountryKey(
      CountrySetting(settings.jobspyCountryIndeed, settings.searchCities, settings.jobspyLocation));
    assert Filter([source], s => ext.isSourceAllowedForCountry(s, country)) == [source];
    GroupingOne(source, registry.manifestBySource, |terms|);
    var g := Group(m.id, [source], m.displayName + ": fetching jobs...", |terms|);
    assert [g][..0] == [];
    assert Tasks([g], registry.manifests) == [TaskFor(g, m)];
  }

  /** A failing source alone: "All sources failed: <source>: <error>", as the step's own example shows. */
  lemma SingleFailingSource(source: string, m: Manifest, error: string, settings: Settings, envTerms: Option<string>,
                            ext: Externals, cancel: Cancellation)
    requires SearchTerms(settings.searchTerms, envTerms, ext.parseJson).Some?
    requires ext.isSourceAllowedForCountry(source, ext.normalizeCountryKey(
      CountrySetting(settings.jobspyCountryIndeed, settings.searchCities, settings.jobspyLocation)))
    requires !cancel.beforePool && !cancel.afterPool && cancel.started >= 1
    requires forall t :: ext.run(t) == Finished(false, [], Some(error))
    ensures Discover([source], settings, envTerms, Registry(map[source := m], map[m.id := m]), ext, cancel) ==
      Failure(AllSourcesFailed("All sources failed: " + source + ": " + error))
  {
    var terms := SearchTerms(settings.searchTerms, envTerms, ext.parseJson).value;
    PlanOne(source, m, settings, envTerms, ext);
    var task := Task(m.id, [source], |terms|, m.displayName + ": fetching jobs...");
    var results := PoolResults([task], cancel.started, ext.run);
    assert results == [TaskResult([], [source + ": " + error])];
    assert results[..0] == [];
    var e := source + ": " + error;
    assert AllErrors(results) == [e];
    assert AllJobs(results) == [];
    assert Unblocked([], BlockedLower(settings, ext)) == [];
    assert [] + AllErrors(results) == [e];
    assert Join([e], "; ") == e;
    var r := Discover([source], settings, envTerms, Registry(map[source := m], map[m.id := m]), ext, cancel);
    assert r == Failure(AllSourcesFailed("All sources failed: " + e));
    AppendAssoc("All sources failed: " + source, ": ", error);
    AppendAssoc("All sources failed: ", source, ": " + error);
    AppendAssoc(source, ": ", error);
  }
}
