// orchestrator/src/client/pages/orchestrator/useFilteredJobs.ts: the job
// list the orchestrator page shows — the jobs of the active tab, narrowed by
// source, sponsor category, salary floor and search text, then sorted.
// `jobMatchesQuery` and `compareJobs` live in utils.ts, which is not part of
// this model: they arrive as parameters.
module FilteredJobs {
  import opened Wrappers
  import opened Text
  import Seqs
  import opened ComparatorSort

  /** The fields of a job this hook reads; `None` stands for null, a non-number or a non-finite amount. */
  datatype Job = Job(
    id: string,
    status: string,
    source: string,
    sponsorMatchScore: Option<real>,
    salaryMinAmount: Option<int>,
    salaryMaxAmount: Option<int>,
    salary: Option<string>)

  datatype FilterTab = ReadyTab | DiscoveredTab | AppliedTab | AllTab

  datatype SponsorFilter = AllSponsors | Confirmed | Potential | NotFound | Unknown

  // ---------------------------------------------------------------- sponsor

  /** `getSponsorCategory`. */
  function SponsorCategory(score: Option<real>): SponsorFilter
  {
    if score.None? then Unknown
    else if score.value >= 95.0 then Confirmed
    else if score.value >= 80.0 then Potential
    else NotFound
  }

  /**
    * The categories partition the scores: no score is unknown, 95 and up is
    * confirmed, 80 up to 95 potential, below 80 not found; "all" is never a
    * category.
    */
  lemma SponsorCategoryPartition(score: Option<real>)
    ensures SponsorCategory(score) != AllSponsors
    ensures SponsorCategory(score) == Unknown <==> score.None?
    ensures SponsorCategory(score) == Confirmed <==> score.Some? && score.value >= 95.0
    ensures SponsorCategory(score) == Potential <==> score.Some? && 80.0 <= score.value < 95.0
    ensures SponsorCategory(score) == NotFound <==> score.Some? && score.value < 80.0
  {
  }

  // ---------------------------------------------------------------- salary text

  /** `\w`: a letter, digit or underscore. */
  predicate IsWordChar(c: char)
  {
    ('a' <= c <= 'z') || ('A' <= c <= 'Z') || IsDigit(c) || c == '_'
  }

  /** The end of the run of digits starting at `i`. */
  function DigitsEnd(s: string, i: nat): (j: nat)
    requires i <= |s|
    ensures i <= j <= |s| && AllDigits(s[i..j]) && (j < |s| ==> !IsDigit(s[j]))
    decreases |s| - i
  {
    if i < |s| && IsDigit(s[i]) then DigitsEnd(s, i + 1) else i
  }

  /** The end of the run of `\s` characters starting at `i`. */
  function SpacesEnd(s: string, i: nat): (j: nat)
    requires i <= |s|
    ensures i <= j <= |s| && (j < |s| ==> !IsJsSpace(s[j]))
    decreases |s| - i
  {
    if i < |s| && IsJsSpace(s[i]) then SpacesEnd(s, i + 1) else i
  }

  /**
    * The digits captured by each match of `/(\d+)\s*k\b/g` from `i` on: a
    * whole run of digits followed by optional spaces, a `k`, and then the end
    * of the text or a character that is not a word character.
    */
  function KMatches(s: string, i: nat): (r: seq<string>)
    requires i <= |s|
    ensures forall k :: 0 <= k < |r| ==> |r[k]| >= 1 && AllDigits(r[k])
    decreases |s| - i
  {
    if i == |s| then []
    else if !IsDigit(s[i]) then KMatches(s, i + 1)
    else
      var j := DigitsEnd(s, i);
      var w := SpacesEnd(s, j);
      if w < |s| && s[w] == 'k' && (w + 1 == |s| || !IsWordChar(s[w + 1]))
      then [s[i..j]] + KMatches(s, w + 1)
      else KMatches(s, j)
  }

  /**
    * The matches of `/(\d{4,6})/g` from `i` on: each run of digits is cut
    * into pieces of six from the left, and a last piece is kept when it
    * still has four digits.
    */
  function PlainMatches(s: string, i: nat): (r: seq<string>)
    requires i <= |s|
    ensures forall k :: 0 <= k < |r| ==> 4 <= |r[k]| <= 6 && AllDigits(r[k])
    decreases |s| - i
  {
    if i == |s| then []
    else if !IsDigit(s[i]) then PlainMatches(s, i + 1)
    else
      var j := DigitsEnd(s, i);
      if j - i >= 4 then
        var m := if j - i >= 6 then i + 6 else j;
        assert forall k :: 0 <= k < m - i ==> s[i..m][k] == s[i..j][k];
        [s[i..m]] + PlainMatches(s, m)
      else PlainMatches(s, j)
  }

  /** `salary.toLowerCase().replace(/,/g, "")`. */
  function Normalize(salary: string): (r: string)
    ensures forall c :: c in r ==> c != ','
  {
    Seqs.Filter(Lower(salary), (c: char) => c != ',')
  }

  /** Each matched run of digits read as a number and scaled. */
  function Amounts(matches: seq<string>, scale: nat): (r: seq<int>)
    requires forall k :: 0 <= k < |matches| ==> AllDigits(matches[k])
    ensures |r| == |matches| && forall k :: 0 <= k < |matches| ==> r[k] == DigitsValue(matches[k]) * scale
  {
    seq(|matches|, k requires 0 <= k < |matches| => DigitsValue(matches[k]) * scale)
  }

  /** Every amount the salary text mentions: thousands written with `k` first, then plain figures. */
  function TextAmounts(salary: string): seq<int>
  {
    var normalized := Normalize(salary);
    Amounts(KMatches(normalized, 0), 1000) + Amounts(PlainMatches(normalized, 0), 1)
  }

  /** `Math.min(...values)`. */
  function MinOf(values: seq<int>): (r: int)
    requires values != []
    ensures r in values && forall k :: 0 <= k < |values| ==> r <= values[k]
  {
    if |values| == 1 then values[0]
    else
      var rest := MinOf(values[1..]);
      if values[0] <= rest then values[0] else rest
  }

  /**
    * The salary floor of a job: its minimum amount when it has one, else its
    * maximum amount, else the smallest amount its salary text mentions;
    * `None` when there is no text or it mentions no amount.
    */
  function SalaryFloor(job: Job): (r: Option<int>)
    ensures job.salaryMinAmount.Some? ==> r == job.salaryMinAmount
    ensures job.salaryMinAmount.None? && job.salaryMaxAmount.Some? ==> r == job.salaryMaxAmount
    ensures job.salaryMinAmount.None? && job.salaryMaxAmount.None? ==>
      (r.None? <==> job.salary.None? || job.salary.value == [] || TextAmounts(job.salary.value) == [])
    ensures job.salaryMinAmount.None? && job.salaryMaxAmount.None? && r.Some? ==>
      r.value in TextAmounts(job.salary.value) &&
      forall k :: 0 <= k < |TextAmounts(job.salary.value)| ==> r.value <= TextAmounts(job.salary.value)[k]
  {
    if job.salaryMinAmount.Some? then job.salaryMinAmount
    else if job.salaryMaxAmount.Some? then job.salaryMaxAmount
    else if job.salary.None? || job.salary.value == [] then None
    else
      var values := TextAmounts(job.salary.value);
      if values == [] then None else Some(MinOf(values))
  }

  /**
    * `parseSalaryFloor`: the typed amounts first, then the two scans of the
    * normalised text pushing every amount found, then the smallest of them.
    */
  method ParseSalaryFloor(job: Job) returns (floor: Option<int>)
    ensures floor == SalaryFloor(job)
  {
    if job.salaryMinAmount.Some? {
      return job.salaryMinAmount;
    }
    if job.salaryMaxAmount.Some? {
      return job.salaryMaxAmount;
    }
    if job.salary.None? || job.salary.value == [] {
      return None;
    }
    var normalized := Normalize(job.salary.value);
    var values: seq<int> := [];
    var kMatches := KMatches(normalized, 0);
    for i := 0 to |kMatches|
      invariant values == Amounts(kMatches[..i], 1000)
    {
      values := values + [DigitsValue(kMatches[i]) * 1000];
    }
    var plainMatches := PlainMatches(normalized, 0);
    for i := 0 to |plainMatches|
      invariant values == Amounts(kMatches, 1000) + Amounts(plainMatches[..i], 1)
    {
      values := values + [DigitsValue(plainMatches[i])];
    }
    assert kMatches[..|kMatches|] == kMatches && plainMatches[..|plainMatches|] == plainMatches;
    if |values| == 0 {
      return None;
    }
    return Some(MinOf(values));
  }

  /** In "50k" the thousands pattern finds "50" and the plain pattern finds nothing. */
  lemma FiftyKMatches()
    ensures KMatches("50k", 0) == ["50"]
    ensures PlainMatches("50k", 0) == []
  {
    var s := "50k";
    assert DigitsEnd(s, 2) == 2;
    assert DigitsEnd(s, 1) == 2;
    assert DigitsEnd(s, 0) == 2;
    assert SpacesEnd(s, 2) == 2;
    assert KMatches(s, 3) == [];
    assert s[0..2] == "50";
    assert PlainMatches(s, 3) == [];
    assert PlainMatches(s, 2) == [];
  }

  /** A salary written "50k" has the floor 50000. */
  lemma ThousandsExample()
    ensures SalaryFloor(Job("j", "ready", "linkedin", None, None, None, Some("50k"))) == Some(50000)
  {
    FiftyKAmounts();
    SingleAmountFloor(Job("j", "ready", "linkedin", None, None, None, Some("50k")), 50000);
  }

  /** Without typed amounts, a text mentioning one amount has that amount as its floor. */
  lemma SingleAmountFloor(job: Job, amount: int)
    requires job.salaryMinAmount.None? && job.salaryMaxAmount.None? && job.salary.Some?
    requires TextAmounts(job.salary.value) == [amount]
    ensures SalaryFloor(job) == Some(amount)
  {
    assert job.salary.value != [];
  }

  /** The only amount in "50k" is 50000. */
  lemma FiftyKAmounts()
    ensures TextAmounts("50k") == [50000]
  {
    FiftyKNormal();
    FiftyKMatches();
    FiftyValue();
    assert Amounts(["50"], 1000) == [50000];
  }

  /** "50k" is already in normal form. */
  lemma FiftyKNormal()
    ensures Normalize("50k") == "50k"
  {
    var s := "50k";
    assert Lower(s) == s;
    Seqs.FilterAll(s, (c: char) => c != ',');
  }

  /** The digits "50" read as fifty. */
  lemma FiftyValue()
    ensures DigitsValue("50") == 50
  {
    assert "50"[..1] == "5";
  }

  // ---------------------------------------------------------------- filter chain

  /** What the page is showing: tab, source ("all" is `None`), sponsor category, minimum salary, search text. */
  datatype View = View(
    activeTab: FilterTab,
    sourceFilter: Option<string>,
    sponsorFilter: SponsorFilter,
    minSalary: Option<int>,
    searchQuery: string)

  predicate InTab(job: Job, tab: FilterTab)
  {
    match tab
    case ReadyTab => job.status == "ready"
    case DiscoveredTab => job.status == "discovered" || job.status == "processing"
    case AppliedTab => job.status == "applied"
    case AllTab => true
  }

  predicate FromSource(job: Job, sourceFilter: Option<string>)
  {
    sourceFilter.None? || job.source == sourceFilter.value
  }

  predicate InSponsorCategory(job: Job, sponsorFilter: SponsorFilter)
  {
    sponsorFilter == AllSponsors || SponsorCategory(job.sponsorMatchScore) == sponsorFilter
  }

  /** The job's salary floor is known and at least `least`. */
  predicate FloorReaches(job: Job, least: int)
  {
    var floor := SalaryFloor(job);
    floor.Some? && floor.value >= least
  }

  /** A positive minimum keeps only jobs whose known floor reaches it; any other minimum keeps all. */
  predicate PaysAtLeast(job: Job, minSalary: Option<int>)
  {
    minSalary.None? || minSalary.value <= 0 || FloorReaches(job, minSalary.value)
  }

  predicate MatchesSearch(job: Job, searchQuery: string, matchesQuery: (Job, string) -> bool)
  {
    Trim(searchQuery) == [] || matchesQuery(job, searchQuery)
  }

  /** A job is listed when it passes every filter the view turns on. */
  predicate Listed(job: Job, view: View, matchesQuery: (Job, string) -> bool)
  {
    InTab(job, view.activeTab) && FromSource(job, view.sourceFilter) &&
    InSponsorCategory(job, view.sponsorFilter) && PaysAtLeast(job, view.minSalary) &&
    MatchesSearch(job, view.searchQuery, matchesQuery)
  }

  /** The condition of filter number `stage` of the chain (0: tab, 1: source, 2: sponsor, 3: salary, 4: search). */
  predicate StageCondition(job: Job, view: View, matchesQuery: (Job, string) -> bool, stage: nat)
  {
    if stage == 0 then InTab(job, view.activeTab)
    else if stage == 1 then FromSource(job, view.sourceFilter)
    else if stage == 2 then InSponsorCategory(job, view.sponsorFilter)
    else if stage == 3 then PaysAtLeast(job, view.minSalary)
    else MatchesSearch(job, view.searchQuery, matchesQuery)
  }

  /** The conditions of the first `stage` filters of the chain. */
  predicate PassesStages(job: Job, view: View, matchesQuery: (Job, string) -> bool, stage: nat)
  {
    stage == 0 || (PassesStages(job, view, matchesQuery, stage - 1) && StageCondition(job, view, matchesQuery, stage - 1))
  }

  /** The jobs left after the first `stage` filters. */
  function AfterStages(jobs: seq<Job>, view: View, matchesQuery: (Job, string) -> bool, stage: nat): seq<Job>
  {
    Seqs.Filter(jobs, (j: Job) => PassesStages(j, view, matchesQuery, stage))
  }

  /** The jobs the view lists, in input order. */
  function ListedJobs(jobs: seq<Job>, view: View, matchesQuery: (Job, string) -> bool): (r: seq<Job>)
    ensures forall j :: j in r <==> j in jobs && Listed(j, view, matchesQuery)
  {
    Seqs.Filter(jobs, (j: Job) => Listed(j, view, matchesQuery))
  }

  /**
    * One filter of the chain: when it is on, filtering the list after
    * `stage` filters by `keep` gives the list after `stage + 1`; when it is
    * off it keeps every job and the list stays as it is.
    */
  lemma NarrowStep(jobs: seq<Job>, view: View, matchesQuery: (Job, string) -> bool, stage: nat, on: bool, keep: Job -> bool)
    requires on ==> forall j :: keep(j) == StageCondition(j, view, matchesQuery, stage)
    requires !on ==> forall j :: StageCondition(j, view, matchesQuery, stage)
    ensures Narrowed(AfterStages(jobs, view, matchesQuery, stage), on, keep) == AfterStages(jobs, view, matchesQuery, stage + 1)
  {
    if on {
      Seqs.FilterFilter(jobs, (j: Job) => PassesStages(j, view, matchesQuery, stage), keep,
                        (j: Job) => PassesStages(j, view, matchesQuery, stage + 1));
    } else {
      Seqs.FilterSame(jobs, (j: Job) => PassesStages(j, view, matchesQuery, stage),
                      (j: Job) => PassesStages(j, view, matchesQuery, stage + 1));
    }
  }

  /** `if (on) filtered = filtered.filter(keep)`. */
  function Narrowed(filtered: seq<Job>, on: bool, keep: Job -> bool): seq<Job>
  {
    if on then Seqs.Filter(filtered, keep) else filtered
  }

  /** Before any filter the list is the input; after all five it is the listed jobs. */
  lemma StageEnds(jobs: seq<Job>, view: View, matchesQuery: (Job, string) -> bool)
    ensures AfterStages(jobs, view, matchesQuery, 0) == jobs
    ensures AfterStages(jobs, view, matchesQuery, 5) == ListedJobs(jobs, view, matchesQuery)
  {
    Seqs.FilterAll(jobs, (j: Job) => PassesStages(j, view, matchesQuery, 0));
    forall j ensures PassesStages(j, view, matchesQuery, 5) == Listed(j, view, matchesQuery) {
      assert PassesStages(j, view, matchesQuery, 1) == InTab(j, view.activeTab);
      assert PassesStages(j, view, matchesQuery, 3) ==
        (InTab(j, view.activeTab) && FromSource(j, view.sourceFilter) && InSponsorCategory(j, view.sponsorFilter));
    }
    Seqs.FilterSame(jobs, (j: Job) => PassesStages(j, view, matchesQuery, 5), (j: Job) => Listed(j, view, matchesQuery));
  }

  /** The tab, source and sponsor filters of the `useFilteredJobs` memo, each narrowing the list when the view turns it on. */
  method NarrowFirstStages(jobs: seq<Job>, view: View, matchesQuery: (Job, string) -> bool) returns (filtered: seq<Job>)
    ensures filtered == AfterStages(jobs, view, matchesQuery, 3)
  {
    StageEnds(jobs, view, matchesQuery);
    filtered := jobs;

    var tabOn := !view.activeTab.AllTab?;
    var byTab := (j: Job) => InTab(j, view.activeTab);
    NarrowStep(jobs, view, matchesQuery, 0, tabOn, byTab);
    filtered := Narrowed(filtered, tabOn, byTab);
    assert filtered == AfterStages(jobs, view, matchesQuery, 1);

    var bySource := (j: Job) => FromSource(j, view.sourceFilter);
    NarrowStep(jobs, view, matchesQuery, 1, view.sourceFilter.Some?, bySource);
    filtered := Narrowed(filtered, view.sourceFilter.Some?, bySource);
    assert filtered == AfterStages(jobs, view, matchesQuery, 2);

    var bySponsor := (j: Job) => InSponsorCategory(j, view.sponsorFilter);
    NarrowStep(jobs, view, matchesQuery, 2, view.sponsorFilter != AllSponsors, bySponsor);
    filtered := Narrowed(filtered, view.sponsorFilter != AllSponsors, bySponsor);
    assert filtered == AfterStages(jobs, view, matchesQuery, 3);
  }

  /** The salary and search filters, narrowing what the first three left. */
  method NarrowJobs(jobs: seq<Job>, view: View, matchesQuery: (Job, string) -> bool) returns (filtered: seq<Job>)
    ensures filtered == ListedJobs(jobs, view, matchesQuery)
  {
    StageEnds(jobs, view, matchesQuery);
    filtered := NarrowFirstStages(jobs, view, matchesQuery);

    var salaryOn := view.minSalary.Some? && view.minSalary.value > 0;
    var bySalary := (j: Job) => PaysAtLeast(j, view.minSalary);
    NarrowStep(jobs, view, matchesQuery, 3, salaryOn, bySalary);
    filtered := Narrowed(filtered, salaryOn, bySalary);
    assert filtered == AfterStages(jobs, view, matchesQuery, 4);

    var searchOn := Trim(view.searchQuery) != [];
    var byQuery := (j: Job) => MatchesSearch(j, view.searchQuery, matchesQuery);
    NarrowStep(jobs, view, matchesQuery, 4, searchOn, byQuery);
    filtered := Narrowed(filtered, searchOn, byQuery);
    assert filtered == AfterStages(jobs, view, matchesQuery, 5);
  }

  /** The `useFilteredJobs` memo: the filter chain, then a sorted copy. */
  method FilterJobs(jobs: seq<Job>, view: View, matchesQuery: (Job, string) -> bool, compare: (Job, Job) -> int)
    returns (result: seq<Job>)
    ensures multiset(result) == multiset(ListedJobs(jobs, view, matchesQuery))
    ensures forall j :: j in result <==> j in jobs && Listed(j, view, matchesQuery)
    ensures RankedBy(result, compare)
  {
    var filtered := NarrowJobs(jobs, view, matchesQuery);
    result := SortBy(filtered, compare);
    SortByProps(filtered, compare);
    forall j ensures j in result <==> j in filtered {
      assert j in result <==> j in multiset(result);
    }
  }
}
