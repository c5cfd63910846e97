// orchestrator/src/client/components/charts/ResponseRateBySourceChart.tsx:
// for each job source, the share of applications that reached a
// non-rejection response stage. Rates are percentages; the rows are ranked
// by rate, then by volume, and sources with few applications are hidden by
// default, though they still count in the totals.
module ResponseRateBySource {
  import opened Wrappers
  import opened Seqs

  /** A job as the chart sees it: the stages its events moved to. */
  datatype ChartJob = ChartJob(id: string, source: string, appliedAt: Option<string>, toStages: seq<string>)

  /** The stages that count as a response: screening, interview or offer. */
  const RESPONSE_STAGES: set<string> :=
    {"recruiter_screen", "assessment", "hiring_manager_screen", "technical_interview", "onsite", "offer"}

  /** Sources with fewer applications than this are hidden unless asked for. */
  const MIN_SAMPLE_DEFAULT := 5

  /** `SOURCE_LABELS[source] ?? source`. */
  function SourceLabel(source: string): string
  {
    var labels := map["gradcracker" := "Gradcracker", "indeed" := "Indeed", "linkedin" := "LinkedIn",
                      "glassdoor" := "Glassdoor", "ukvisajobs" := "UKVisaJobs", "adzuna" := "Adzuna",
                      "hiringcafe" := "HiringCafe", "manual" := "Manual"];
    if source in labels then labels[source] else source
  }

  /** `!job.appliedAt` skips null and the empty string. */
  predicate IsApplied(job: ChartJob)
  {
    job.appliedAt.Some? && job.appliedAt.value != ""
  }

  /** `job.events.some((e) => RESPONSE_STAGES.has(e.toStage))`. */
  predicate HasResponse(toStages: seq<string>)
  {
    exists i :: 0 <= i < |toStages| && toStages[i] in RESPONSE_STAGES
  }

  /** The applied jobs from `source`. */
  function AppliedCount(jobs: seq<ChartJob>, source: string): nat
  {
    if jobs == [] then 0
    else AppliedCount(jobs[..|jobs| - 1], source) + (if IsApplied(jobs[|jobs| - 1]) && jobs[|jobs| - 1].source == source then 1 else 0)
  }

  /** The applied jobs from `source` that got a response. */
  function RespondedCount(jobs: seq<ChartJob>, source: string): nat
  {
    if jobs == [] then 0
    else
      var job := jobs[|jobs| - 1];
      RespondedCount(jobs[..|jobs| - 1], source) + (if IsApplied(job) && job.source == source && HasResponse(job.toStages) then 1 else 0)
  }

  /** All applied jobs. */
  function AppliedTotal(jobs: seq<ChartJob>): nat
  {
    if jobs == [] then 0
    else AppliedTotal(jobs[..|jobs| - 1]) + (if IsApplied(jobs[|jobs| - 1]) then 1 else 0)
  }

  /** All applied jobs that got a response. */
  function RespondedTotal(jobs: seq<ChartJob>): nat
  {
    if jobs == [] then 0
    else
      var job := jobs[|jobs| - 1];
      RespondedTotal(jobs[..|jobs| - 1]) + (if IsApplied(job) && HasResponse(job.toStages) then 1 else 0)
  }

  /** A source's counters in the `bySource` map. */
  datatype Tally = Tally(source: string, applied: nat, responded: nat)

  /** One bar of the chart. */
  datatype SourceRate = SourceRate(source: string, applied: nat, responded: nat, rate: real)

  /** `applied > 0 ? (responded / applied) * 100 : 0`. */
  function Rate(applied: nat, responded: nat): real
  {
    if applied > 0 then (responded as real / applied as real) * 100.0 else 0.0
  }

  /** A rate lies between 0 and 100 whenever no more responded than applied. */
  lemma RateBounds(applied: nat, responded: nat)
    requires responded <= applied
    ensures 0.0 <= Rate(applied, responded) <= 100.0
  {
    if applied > 0 {
      var q := responded as real / applied as real;
      assert q * applied as real == responded as real;
      assert q <= 1.0;
    }
  }

  function ToRow(t: Tally): SourceRate
  {
    SourceRate(SourceLabel(t.source), t.applied, t.responded, Rate(t.applied, t.responded))
  }

  /** The bar for `source`, from the counts over all of `jobs`. */
  function RowOf(jobs: seq<ChartJob>, source: string): SourceRate
  {
    ToRow(Tally(source, AppliedCount(jobs, source), RespondedCount(jobs, source)))
  }

  function TallyApplied(t: Tally): int { t.applied }
  function TallyResponded(t: Tally): int { t.responded }
  function RowApplied(r: SourceRate): int { r.applied }
  function RowResponded(r: SourceRate): int { r.responded }

  /** `array.reduce((sum, d) => sum + f(d), 0)`. */
  function SumBy<T>(s: seq<T>, f: T -> int): int
  {
    if s == [] then 0 else f(s[0]) + SumBy(s[1..], f)
  }

  lemma {:induction false} SumByAppend<T>(s: seq<T>, x: T, f: T -> int)
    ensures SumBy(s + [x], f) == SumBy(s, f) + f(x)
  {
    if s != [] {
      assert (s + [x])[1..] == s[1..] + [x];
      SumByAppend(s[1..], x, f);
    }
  }

  lemma {:induction false} SumByUpdate<T>(s: seq<T>, k: nat, x: T, f: T -> int)
    requires k < |s|
    ensures SumBy(s[k := x], f) == SumBy(s, f) - f(s[k]) + f(x)
  {
    if k > 0 {
      assert s[k := x][1..] == s[1..][k - 1 := x];
      SumByUpdate(s[1..], k - 1, x, f);
    }
  }

  /** `Array.from(bySource.entries()).map(...)`: one bar per entry, in the map's insertion order. */
  function Rows(t: seq<Tally>): (r: seq<SourceRate>)
    ensures |r| == |t| && forall j :: 0 <= j < |t| ==> r[j] == ToRow(t[j])
    ensures SumBy(r, RowApplied) == SumBy(t, TallyApplied)
    ensures SumBy(r, RowResponded) == SumBy(t, TallyResponded)
  {
    if t == [] then [] else [ToRow(t[0])] + Rows(t[1..])
  }

  // ---------------------------------------------------------------- ranking

  /** `a` sorts strictly before `b`: a higher rate, or the same rate and more applications. */
  predicate Ahead(a: SourceRate, b: SourceRate)
  {
    a.rate > b.rate || (a.rate == b.rate && a.applied > b.applied)
  }

  /** No bar is ahead of one before it. */
  predicate Ranked(s: seq<SourceRate>)
  {
    forall i, j :: 0 <= i < j < |s| ==> !Ahead(s[j], s[i])
  }

  /** Puts `x` in front of the first bar that is not ahead of it. */
  function InsertRow(x: SourceRate, s: seq<SourceRate>): seq<SourceRate>
  {
    if s == [] || !Ahead(s[0], x) then [x] + s else [s[0]] + InsertRow(x, s[1..])
  }

  /** The stable `sort((a, b) => b.rate - a.rate || b.applied - a.applied)`. */
  function SortRows(s: seq<SourceRate>): seq<SourceRate>
  {
    if s == [] then [] else InsertRow(s[0], SortRows(s[1..]))
  }

  lemma RankedCons(y: SourceRate, r: seq<SourceRate>)
    requires Ranked(r)
    requires forall i :: 0 <= i < |r| ==> !Ahead(r[i], y)
    ensures Ranked([y] + r)
  {
    forall i, j | 0 <= i < j < |[y] + r| ensures !Ahead(([y] + r)[j], ([y] + r)[i]) {
      if i > 0 {
        assert ([y] + r)[i] == r[i - 1];
      }
      assert ([y] + r)[j] == r[j - 1];
    }
  }

  lemma {:induction false} InsertRowProps(x: SourceRate, s: seq<SourceRate>)
    requires Ranked(s)
    ensures Ranked(InsertRow(x, s))
    ensures multiset(InsertRow(x, s)) == multiset(s) + multiset{x}
    ensures SumBy(InsertRow(x, s), RowApplied) == SumBy(s, RowApplied) + x.applied
    ensures SumBy(InsertRow(x, s), RowResponded) == SumBy(s, RowResponded) + x.responded
  {
    if s == [] || !Ahead(s[0], x) {
      if s != [] {
        RankedCons(x, s);
      }
    } else {
      var tail := s[1..];
      assert Ranked(tail);
      InsertRowProps(x, tail);
      var r := InsertRow(x, tail);
      forall i | 0 <= i < |r| ensures !Ahead(r[i], s[0]) {
        assert r[i] in multiset(r);
        if r[i] != x {
          assert r[i] in multiset(tail);
          var k :| 0 <= k < |tail| && tail[k] == r[i];
          assert s[k + 1] == r[i];
        }
      }
      RankedCons(s[0], r);
      assert s == [s[0]] + tail;
    }
  }

  /** The sort ranks the bars, keeps them all, and keeps both sums. */
  lemma {:induction false} SortRowsProps(s: seq<SourceRate>)
    ensures Ranked(SortRows(s))
    ensures multiset(SortRows(s)) == multiset(s)
    ensures SumBy(SortRows(s), RowApplied) == SumBy(s, RowApplied)
    ensures SumBy(SortRows(s), RowResponded) == SumBy(s, RowResponded)
  {
    if s != [] {
      SortRowsProps(s[1..]);
      InsertRowProps(s[0], SortRows(s[1..]));
      assert s == [s[0]] + s[1..];
    }
  }

  // ---------------------------------------------------------------- counting

  /** The entry for `source`, if the map has one. */
  function FindSource(t: seq<Tally>, source: string): (r: Option<nat>)
    ensures r.Some? ==> r.value < |t| && t[r.value].source == source
    ensures r.None? ==> forall j :: 0 <= j < |t| ==> t[j].source != source
  {
    if t == [] then None
    else if t[|t| - 1].source == source then Some(|t| - 1)
    else FindSource(t[..|t| - 1], source)
  }

  /** The `bySource` map after the jobs `seen`: one entry per source that has an applied job, with its counts. */
  ghost predicate TalliesOf(t: seq<Tally>, seen: seq<ChartJob>)
  {
    Tallied(t, seen) && Summed(t, seen)
  }

  /** The entries: one per source with an applied job, each with that source's counts. */
  ghost predicate Tallied(t: seq<Tally>, seen: seq<ChartJob>)
  {
    (forall a, b :: 0 <= a < b < |t| ==> t[a].source != t[b].source) &&
    (forall j :: 0 <= j < |t| ==> t[j].applied > 0) &&
    (forall j :: 0 <= j < |t| ==> t[j].applied == AppliedCount(seen, t[j].source) && t[j].responded == RespondedCount(seen, t[j].source)) &&
    (forall s :: AppliedCount(seen, s) > 0 ==> FindSource(t, s).Some?)
  }

  /** The entries add up to all applied jobs and all responses. */
  predicate Summed(t: seq<Tally>, seen: seq<ChartJob>)
  {
    SumBy(t, TallyApplied) == AppliedTotal(seen) && SumBy(t, TallyResponded) == RespondedTotal(seen)
  }

  /** Counting one more job adds it to its own source only. */
  lemma CountStep(seen: seq<ChartJob>, job: ChartJob, s: string)
    ensures AppliedCount(seen + [job], s) == AppliedCount(seen, s) + (if IsApplied(job) && job.source == s then 1 else 0)
    ensures RespondedCount(seen + [job], s) == RespondedCount(seen, s) + (if IsApplied(job) && job.source == s && HasResponse(job.toStages) then 1 else 0)
    ensures AppliedTotal(seen + [job]) == AppliedTotal(seen) + (if IsApplied(job) then 1 else 0)
    ensures RespondedTotal(seen + [job]) == RespondedTotal(seen) + (if IsApplied(job) && HasResponse(job.toStages) then 1 else 0)
  {
    assert (seen + [job])[..|seen|] == seen;
  }

  /** A job that was not applied for leaves every count as it was. */
  lemma SkipStep(t: seq<Tally>, seen: seq<ChartJob>, job: ChartJob)
    requires TalliesOf(t, seen) && !IsApplied(job)
    ensures TalliesOf(t, seen + [job])
  {
    forall s ensures AppliedCount(seen + [job], s) == AppliedCount(seen, s) && RespondedCount(seen + [job], s) == RespondedCount(seen, s) {
      CountStep(seen, job, s);
    }
    CountStep(seen, job, "");
  }

  /** An applied job from a source already in the map bumps that entry. */
  lemma BumpStep(t: seq<Tally>, seen: seq<ChartJob>, job: ChartJob, k: nat, bumped: Tally)
    requires Tallied(t, seen) && IsApplied(job)
    requires k < |t| && t[k].source == job.source
    requires bumped == Tally(job.source, t[k].applied + 1, t[k].responded + (if HasResponse(job.toStages) then 1 else 0))
    ensures Tallied(t[k := bumped], seen + [job])
  {
    var next := t[k := bumped];
    var seen' := seen + [job];
    assert forall j :: 0 <= j < |next| ==> next[j].source == t[j].source;
    forall j | 0 <= j < |next|
      ensures next[j].applied == AppliedCount(seen', next[j].source) && next[j].responded == RespondedCount(seen', next[j].source)
    {
      CountStep(seen, job, next[j].source);
    }
    forall s | AppliedCount(seen', s) > 0 ensures FindSource(next, s).Some? {
      CountStep(seen, job, s);
      if s == job.source {
        FindKept(next, s, k);
      } else {
        FindKept(next, s, FindSource(t, s).value);
      }
    }
  }

  lemma BumpSums(t: seq<Tally>, seen: seq<ChartJob>, job: ChartJob, k: nat, bumped: Tally)
    requires Summed(t, seen) && IsApplied(job)
    requires k < |t|
    requires bumped == Tally(job.source, t[k].applied + 1, t[k].responded + (if HasResponse(job.toStages) then 1 else 0))
    ensures Summed(t[k := bumped], seen + [job])
  {
    SumByUpdate(t, k, bumped, TallyApplied);
    SumByUpdate(t, k, bumped, TallyResponded);
    CountStep(seen, job, job.source);
  }

  /** An applied job from a source not yet in the map adds an entry for it at the end. */
  lemma AppendStep(t: seq<Tally>, seen: seq<ChartJob>, job: ChartJob, added: Tally)
    requires Tallied(t, seen) && IsApplied(job)
    requires FindSource(t, job.source).None?
    requires added == Tally(job.source, 1, if HasResponse(job.toStages) then 1 else 0)
    ensures Tallied(t + [added], seen + [job])
  {
    var next := t + [added];
    var seen' := seen + [job];
    RespondedAtMostApplied(seen, job.source);
    forall j | 0 <= j < |next|
      ensures next[j].applied == AppliedCount(seen', next[j].source) && next[j].responded == RespondedCount(seen', next[j].source)
    {
      CountStep(seen, job, next[j].source);
    }
    forall s | AppliedCount(seen', s) > 0 ensures FindSource(next, s).Some? {
      CountStep(seen, job, s);
      if s == job.source {
        FindKept(next, s, |t|);
      } else {
        FindKept(next, s, FindSource(t, s).value);
      }
    }
  }

  lemma AppendSums(t: seq<Tally>, seen: seq<ChartJob>, job: ChartJob, added: Tally)
    requires Summed(t, seen) && IsApplied(job)
    requires added == Tally(job.source, 1, if HasResponse(job.toStages) then 1 else 0)
    ensures Summed(t + [added], seen + [job])
  {
    SumByAppend(t, added, TallyApplied);
    SumByAppend(t, added, TallyResponded);
    CountStep(seen, job, job.source);
  }

  /** A source present at some index is found. */
  lemma FindKept(t: seq<Tally>, s: string, m: nat)
    requires m < |t| && t[m].source == s
    ensures FindSource(t, s).Some?
  {
  }

  /**
    * `buildResponseRateBySource`: one bar per source with an applied job,
    * counting that source's applied jobs and those among them that got a
    * response, ranked by rate and then volume.
    */
  method BuildResponseRateBySource(jobs: seq<ChartJob>) returns (rows: seq<SourceRate>)
    ensures Ranked(rows)
    ensures forall r :: r in rows ==> exists s :: AppliedCount(jobs, s) > 0 && r == RowOf(jobs, s)
    ensures forall s :: AppliedCount(jobs, s) > 0 ==> RowOf(jobs, s) in rows
    ensures SumBy(rows, RowApplied) == AppliedTotal(jobs)
    ensures SumBy(rows, RowResponded) == RespondedTotal(jobs)
  {
    var bySource: seq<Tally> := [];
    for i := 0 to |jobs|
      invariant TalliesOf(bySource, jobs[..i])
    {
      var job := jobs[i];
      assert jobs[..i + 1] == jobs[..i] + [job];
      if job.appliedAt.None? || job.appliedAt.value == "" {
        SkipStep(bySource, jobs[..i], job);
        continue;
      }
      var k := FindSource(bySource, job.source);
      var existing := if k.Some? then bySource[k.value] else Tally(job.source, 0, 0);
      existing := existing.(applied := existing.applied + 1);
      var hasResponse := exists e :: 0 <= e < |job.toStages| && job.toStages[e] in RESPONSE_STAGES;
      if hasResponse {
        existing := existing.(responded := existing.responded + 1);
      }
      if k.Some? {
        BumpStep(bySource, jobs[..i], job, k.value, existing);
        BumpSums(bySource, jobs[..i], job, k.value, existing);
        bySource := bySource[k.value := existing];
      } else {
        AppendStep(bySource, jobs[..i], job, existing);
        AppendSums(bySource, jobs[..i], job, existing);
        bySource := bySource + [existing];
      }
    }
    assert jobs[..|jobs|] == jobs;
    rows := SortRows(Rows(bySource));
    SortedRowsOfTallies(bySource, jobs);
  }

  /** The ranked bars made from the final map are the bars of the sources with an applied job, and keep the totals. */
  lemma SortedRowsOfTallies(t: seq<Tally>, jobs: seq<ChartJob>)
    requires TalliesOf(t, jobs)
    ensures Ranked(SortRows(Rows(t)))
    ensures forall r :: r in SortRows(Rows(t)) ==> exists s :: AppliedCount(jobs, s) > 0 && r == RowOf(jobs, s)
    ensures forall s :: AppliedCount(jobs, s) > 0 ==> RowOf(jobs, s) in SortRows(Rows(t))
    ensures SumBy(SortRows(Rows(t)), RowApplied) == AppliedTotal(jobs)
    ensures SumBy(SortRows(Rows(t)), RowResponded) == RespondedTotal(jobs)
  {
    var unsorted := Rows(t);
    var rows := SortRows(unsorted);
    SortRowsProps(unsorted);
    RowsOfTallies(t, jobs);
    forall r | r in rows ensures exists s :: AppliedCount(jobs, s) > 0 && r == RowOf(jobs, s) {
      assert r in multiset(unsorted);
    }
    forall s | AppliedCount(jobs, s) > 0 ensures RowOf(jobs, s) in rows {
      assert RowOf(jobs, s) in multiset(unsorted);
    }
  }

  /** Every bar made from the final map is the bar of a source with an applied job, and every such source has its bar. */
  lemma RowsOfTallies(t: seq<Tally>, jobs: seq<ChartJob>)
    requires TalliesOf(t, jobs)
    ensures forall r :: r in Rows(t) ==> exists s :: AppliedCount(jobs, s) > 0 && r == RowOf(jobs, s)
    ensures forall s :: AppliedCount(jobs, s) > 0 ==> RowOf(jobs, s) in Rows(t)
  {
    var rows := Rows(t);
    forall r | r in rows ensures exists s :: AppliedCount(jobs, s) > 0 && r == RowOf(jobs, s) {
      var j :| 0 <= j < |rows| && rows[j] == r;
      assert t[j] == Tally(t[j].source, AppliedCount(jobs, t[j].source), RespondedCount(jobs, t[j].source));
      assert r == RowOf(jobs, t[j].source);
    }
    forall s | AppliedCount(jobs, s) > 0 ensures RowOf(jobs, s) in rows {
      var m := FindSource(t, s).value;
      assert rows[m] == RowOf(jobs, s);
    }
  }

  /** A source never has more responses than applications. */
  lemma {:induction false} RespondedAtMostApplied(jobs: seq<ChartJob>, source: string)
    ensures RespondedCount(jobs, source) <= AppliedCount(jobs, source)
    ensures RespondedTotal(jobs) <= AppliedTotal(jobs)
  {
    if jobs != [] {
      RespondedAtMostApplied(jobs[..|jobs| - 1], source);
    }
  }

  /** The bar of a source with an applied job: at least one application, no more responses than applications, a rate in [0, 100]. */
  lemma RowOfBounds(jobs: seq<ChartJob>, source: string)
    requires AppliedCount(jobs, source) > 0
    ensures var r := RowOf(jobs, source);
      r.applied >= 1 && r.responded <= r.applied && 0.0 <= r.rate <= 100.0
      && r.rate == (r.responded as real / r.applied as real) * 100.0
  {
    RespondedAtMostApplied(jobs, source);
    RateBounds(AppliedCount(jobs, source), RespondedCount(jobs, source));
  }

  // ---------------------------------------------------------------- the chart

  predicate IsLarge(r: SourceRate)
  {
    r.applied >= MIN_SAMPLE_DEFAULT
  }

  predicate IsSmall(r: SourceRate)
  {
    r.applied < MIN_SAMPLE_DEFAULT
  }

  /** What the card shows: the bars drawn, how many are hidden, and the totals over every bar. */
  datatype ChartSummary = ChartSummary(data: seq<SourceRate>, hiddenCount: int, totalApplied: int, totalResponded: int, overallRate: real)

  /** The chart's memos: small sources hidden unless `includeSmall`; the totals over all bars. */
  function Summarize(allData: seq<SourceRate>, includeSmall: bool): ChartSummary
  {
    var data := if includeSmall then allData else Filter(allData, IsLarge);
    var totalApplied := SumBy(allData, RowApplied);
    var totalResponded := SumBy(allData, RowResponded);
    ChartSummary(data, |allData| - |data|, totalApplied, totalResponded,
                 if totalApplied > 0 then (totalResponded as real / totalApplied as real) * 100.0 else 0.0)
  }

  lemma {:induction false} FilterSplit(s: seq<SourceRate>)
    ensures |Filter(s, IsLarge)| + |Filter(s, IsSmall)| == |s|
  {
    if s != [] {
      FilterSplit(s[1..]);
    }
  }

  /**
    * Hidden bars are exactly the small ones, the bars drawn keep their
    * order, and the totals are those of the jobs themselves, hidden sources
    * included, so the overall rate lies in [0, 100].
    */
  lemma SummarizeProps(jobs: seq<ChartJob>, allData: seq<SourceRate>, includeSmall: bool)
    requires SumBy(allData, RowApplied) == AppliedTotal(jobs)
    requires SumBy(allData, RowResponded) == RespondedTotal(jobs)
    ensures var c := Summarize(allData, includeSmall);
      c.totalApplied == AppliedTotal(jobs) && c.totalResponded == RespondedTotal(jobs) &&
      0.0 <= c.overallRate <= 100.0 &&
      IsSubseq(c.data, allData) &&
      (includeSmall ==> c.data == allData && c.hiddenCount == 0) &&
      (!includeSmall ==> (forall r :: r in c.data <==> r in allData && r.applied >= MIN_SAMPLE_DEFAULT) &&
                          c.hiddenCount == |Filter(allData, IsSmall)|)
  {
    RespondedAtMostApplied(jobs, "");
    RateBounds(AppliedTotal(jobs), RespondedTotal(jobs));
    FilterSplit(allData);
    if includeSmall {
      SubseqRefl(allData);
    } else {
      FilterSubseq(allData, IsLarge);
    }
  }
}
