// orchestrator/src/server/pipeline/steps/score-jobs.ts: the scoring step's
// task body, run over the unscored jobs one after another. A cached score
// is reused; otherwise the scorer and the sponsor search are consulted
// (both passed in) and the job row is updated, with status "skipped" when
// the score falls under the auto-skip threshold.
module ScoreJobs {
  import opened Wrappers
  import opened Text
  import opened JsParse

  /** The job fields the step reads. `suitabilityScore == None` covers a missing or NaN score. */
  datatype Job = Job(
    id: string,
    title: string,
    employer: Option<string>,
    status: string,
    suitabilityScore: Option<int>,
    suitabilityReason: Option<string>)

  /** A job with its score and reason, as pushed onto `scoredJobs`. */
  datatype ScoredJob = ScoredJob(job: Job, score: int, reason: string)

  /** The fields `jobsRepo.updateJob` writes; `status == Some("skipped")` only on auto-skip. */
  datatype JobUpdate = JobUpdate(
    jobId: string,
    suitabilityScore: int,
    suitabilityReason: string,
    sponsorMatchScore: int,
    sponsorMatchNames: Option<string>,
    status: Option<string>)

  /** What the sponsor search summary gives for an employer. */
  datatype SponsorSummary = SponsorSummary(sponsorMatchScore: int, sponsorMatchNames: Option<string>)

  /** The `autoSkipScoreThreshold` setting: unset or "" gives null, otherwise `parseInt` (None for NaN). */
  function AutoSkipThreshold(raw: Option<string>): Option<int>
  {
    if raw.None? || raw.value == "" then None else ParseInt(raw.value)
  }

  /** `shouldAutoSkip`. */
  predicate ShouldAutoSkip(status: string, threshold: Option<int>, score: int)
  {
    status != "applied" && threshold.Some? && score < threshold.value
  }

  /**
    * A job is skipped exactly when it is not applied, the threshold setting
    * parses to a number, and the score is below it; an unset, blank or
    * non-numeric setting never skips.
    */
  lemma AutoSkipSpec(status: string, raw: Option<string>, score: int)
    ensures ShouldAutoSkip(status, AutoSkipThreshold(raw), score) <==>
      status != "applied" && raw.Some? && raw.value != "" && ParseInt(raw.value).Some? &&
      score < ParseInt(raw.value).value
    ensures raw.None? ==> !ShouldAutoSkip(status, AutoSkipThreshold(raw), score)
  {
  }

  /** A threshold written as a number skips a non-applied job exactly when its score is lower. */
  lemma AutoSkipPrinted(status: string, threshold: int, score: int)
    requires status != "applied"
    ensures ShouldAutoSkip(status, AutoSkipThreshold(Some(IntToString(threshold))), score) <==> score < threshold
  {
    ParseIntOfString(threshold, "");
    assert IntToString(threshold) + "" == IntToString(threshold);
  }

  /** The sponsor fields: the search summary when the job has a (truthy) employer, else 0 and none. */
  function SponsorFields(job: Job, search: string -> SponsorSummary): (r: SponsorSummary)
    ensures job.employer.None? || job.employer.value == "" ==> r == SponsorSummary(0, None)
  {
    if job.employer.Some? && job.employer.value != "" then search(job.employer.value) else SponsorSummary(0, None)
  }

  /** The task body for one job: what it pushes onto `scoredJobs`, and the row update it makes, if any. */
  function ScoreOne(job: Job, threshold: Option<int>, scorer: Job -> (int, string), search: string -> SponsorSummary)
    : (r: (ScoredJob, Option<JobUpdate>))
    ensures r.0.job == job
    ensures job.suitabilityScore.Some? ==>
      r.1.None? && r.0.score == job.suitabilityScore.value && r.0.reason == job.suitabilityReason.GetOr("")
    ensures job.suitabilityScore.None? ==>
      r.1.Some? && r.0.score == scorer(job).0 && r.0.reason == scorer(job).1 &&
      r.1.value.jobId == job.id && r.1.value.suitabilityScore == scorer(job).0 &&
      r.1.value.suitabilityReason == scorer(job).1 &&
      (r.1.value.status == Some("skipped") <==> ShouldAutoSkip(job.status, threshold, scorer(job).0)) &&
      (r.1.value.status.Some? ==> r.1.value.status == Some("skipped"))
  {
    if job.suitabilityScore.Some? then
      (ScoredJob(job, job.suitabilityScore.value, job.suitabilityReason.GetOr("")), None)
    else
      var (score, reason) := scorer(job);
      var sponsor := SponsorFields(job, search);
      var skip := ShouldAutoSkip(job.status, threshold, score);
      (ScoredJob(job, score, reason),
       Some(JobUpdate(job.id, score, reason, sponsor.sponsorMatchScore, sponsor.sponsorMatchNames,
                      if skip then Some("skipped") else None)))
  }

  /** The row updates the step makes for `jobs`, in order. */
  function Updates(jobs: seq<Job>, threshold: Option<int>, scorer: Job -> (int, string), search: string -> SponsorSummary)
    : seq<JobUpdate>
  {
    if jobs == [] then []
    else
      var u := ScoreOne(jobs[|jobs| - 1], threshold, scorer, search).1;
      Updates(jobs[..|jobs| - 1], threshold, scorer, search) + (if u.Some? then [u.value] else [])
  }

  /** `scoreJobsStep` without cancellation: each job is scored once, in order, and counted. */
  method ScoreJobsStep(jobs: seq<Job>, thresholdRaw: Option<string>,
                       scorer: Job -> (int, string), search: string -> SponsorSummary)
    returns (scoredJobs: seq<ScoredJob>, updates: seq<JobUpdate>, completed: nat)
    ensures completed == |scoredJobs| == |jobs|
    ensures forall k :: 0 <= k < |jobs| ==>
      scoredJobs[k] == ScoreOne(jobs[k], AutoSkipThreshold(thresholdRaw), scorer, search).0
    ensures updates == Updates(jobs, AutoSkipThreshold(thresholdRaw), scorer, search)
  {
    var threshold := AutoSkipThreshold(thresholdRaw);
    scoredJobs, updates, completed := [], [], 0;
    for k := 0 to |jobs|
      invariant completed == |scoredJobs| == k
      invariant forall i :: 0 <= i < k ==> scoredJobs[i] == ScoreOne(jobs[i], threshold, scorer, search).0
      invariant updates == Updates(jobs[..k], threshold, scorer, search)
    {
      var job := jobs[k];
      assert jobs[..k + 1][..k] == jobs[..k];
      if job.suitabilityScore.Some? {
        completed := completed + 1;
        scoredJobs := scoredJobs + [ScoredJob(job, job.suitabilityScore.value, job.suitabilityReason.GetOr(""))];
      } else {
        var (score, reason) := scorer(job);
        var sponsor := SponsorFields(job, search);
        var skip := ShouldAutoSkip(job.status, threshold, score);
        updates := updates + [JobUpdate(job.id, score, reason, sponsor.sponsorMatchScore, sponsor.sponsorMatchNames,
                                        if skip then Some("skipped") else None)];
        completed := completed + 1;
        scoredJobs := scoredJobs + [ScoredJob(job, score, reason)];
      }
    }
    assert jobs[..|jobs|] == jobs;
  }

  /** One update per unscored job. */
  lemma {:induction false} UpdatesCount(jobs: seq<Job>, threshold: Option<int>, scorer: Job -> (int, string),
                                        search: string -> SponsorSummary)
    ensures |Updates(jobs, threshold, scorer, search)| == |set k | 0 <= k < |jobs| && jobs[k].suitabilityScore.None?|
    decreases |jobs|
  {
    if jobs != [] {
      var init := jobs[..|jobs| - 1];
      var last := jobs[|jobs| - 1];
      UpdatesCount(init, threshold, scorer, search);
      UnscoredStep(jobs, init);
    }
  }

  /** One more job adds one unscored index when it has no score. */
  lemma UnscoredStep(jobs: seq<Job>, init: seq<Job>)
    requires jobs != [] && init == jobs[..|jobs| - 1]
    ensures |set k | 0 <= k < |jobs| && jobs[k].suitabilityScore.None?| ==
      |set k | 0 <= k < |init| && init[k].suitabilityScore.None?| + (if jobs[|jobs| - 1].suitabilityScore.None? then 1 else 0)
  {
    var before := set k | 0 <= k < |init| && init[k].suitabilityScore.None?;
    var after := set k | 0 <= k < |jobs| && jobs[k].suitabilityScore.None?;
    if jobs[|jobs| - 1].suitabilityScore.None? {
      assert after == before + {|jobs| - 1};
    } else {
      assert after == before;
    }
  }

  /** Every update is for an unscored job of the input: a cached score is never rescored. */
  lemma {:induction false} UpdatesOnlyUnscored(jobs: seq<Job>, threshold: Option<int>, scorer: Job -> (int, string),
                                               search: string -> SponsorSummary)
    ensures forall u :: u in Updates(jobs, threshold, scorer, search) ==>
      exists k :: 0 <= k < |jobs| && jobs[k].id == u.jobId && jobs[k].suitabilityScore.None?
    decreases |jobs|
  {
    if jobs != [] {
      var init := jobs[..|jobs| - 1];
      UpdatesOnlyUnscored(init, threshold, scorer, search);
      assert forall k :: 0 <= k < |init| ==> init[k] == jobs[k];
    }
  }
}
