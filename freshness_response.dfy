// orchestrator/src/client/components/charts/FreshnessResponseChart.tsx: the
// positive-response rate of applications grouped by how many whole days
// passed between a job's posting and its discovery. The six buckets cover
// every non-negative day count once; jobs that cannot be placed are skipped.
module FreshnessResponse {
  import opened Wrappers

  /** A job as the chart sees it. */
  datatype JobSummary = JobSummary(id: string, datePosted: Option<string>, discoveredAt: string,
                                   appliedAt: Option<string>, positiveResponse: bool)

  /** A day range; `max` is absent for the open-ended last bucket. */
  datatype Bucket = Bucket(caption: string, min: int, max: Option<int>)

  const BUCKETS: seq<Bucket> := [
    Bucket("0-1d", 0, Some(1)),
    Bucket("2-3d", 2, Some(3)),
    Bucket("4-7d", 4, Some(7)),
    Bucket("8-14d", 8, Some(14)),
    Bucket("15-30d", 15, Some(30)),
    Bucket("30+d", 31, None)
  ]

  /** `1000 * 60 * 60 * 24`, one day in milliseconds. */
  const MS_PER_DAY: int := 86_400_000

  /** `diffDays >= entry.min && diffDays <= entry.max`. */
  predicate InBucket(days: int, b: Bucket)
  {
    days >= b.min && (b.max.None? || days <= b.max.value)
  }

  /** `freshnessBuckets.find(...)`: the index of the first bucket holding `days`. */
  function FindBucket(days: int): (r: Option<nat>)
    ensures r.Some? ==> r.value < |BUCKETS| && InBucket(days, BUCKETS[r.value])
    ensures r.Some? ==> forall k :: 0 <= k < r.value ==> !InBucket(days, BUCKETS[k])
    ensures r.None? ==> forall k :: 0 <= k < |BUCKETS| ==> !InBucket(days, BUCKETS[k])
  {
    FindBucketFrom(days, 0)
  }

  function FindBucketFrom(days: int, from: nat): (r: Option<nat>)
    requires from <= |BUCKETS|
    ensures r.Some? ==> from <= r.value < |BUCKETS| && InBucket(days, BUCKETS[r.value])
    ensures r.Some? ==> forall k :: from <= k < r.value ==> !InBucket(days, BUCKETS[k])
    ensures r.None? ==> forall k :: from <= k < |BUCKETS| ==> !InBucket(days, BUCKETS[k])
    decreases |BUCKETS| - from
  {
    if from == |BUCKETS| then None
    else if InBucket(days, BUCKETS[from]) then Some(from)
    else FindBucketFrom(days, from + 1)
  }

  /** Every non-negative day count lies in exactly one bucket, which `find` returns; negative counts lie in none. */
  lemma BucketsPartition(days: int)
    ensures days >= 0 ==> FindBucket(days).Some?
    ensures forall k :: 0 <= k < |BUCKETS| && InBucket(days, BUCKETS[k]) ==> FindBucket(days) == Some(k)
    ensures days < 0 ==> FindBucket(days).None?
  {
  }

  /** The bucket a job counts in: applied, with a posting date, both dates valid and in order; `parseDate` is `new Date(s).getTime()`, absent for NaN. */
  function BucketOf(job: JobSummary, parseDate: string -> Option<int>): Option<nat>
  {
    if job.appliedAt.None? || job.appliedAt.value == "" then None
    else if job.datePosted.None? || job.datePosted.value == "" then None
    else
      var posted := parseDate(job.datePosted.value);
      var discovered := parseDate(job.discoveredAt);
      if posted.None? || discovered.None? then None
      else
        var diffMs := discovered.value - posted.value;
        if diffMs < 0 then None else FindBucket(diffMs / MS_PER_DAY)
  }

  /** The jobs of `jobs` counted in bucket `b`. */
  function TotalIn(jobs: seq<JobSummary>, b: nat, parseDate: string -> Option<int>): nat
  {
    if jobs == [] then 0
    else TotalIn(jobs[..|jobs| - 1], b, parseDate) + (if BucketOf(jobs[|jobs| - 1], parseDate) == Some(b) then 1 else 0)
  }

  /** The jobs of `jobs` counted in bucket `b` that had a positive response. */
  function PositiveIn(jobs: seq<JobSummary>, b: nat, parseDate: string -> Option<int>): nat
  {
    if jobs == [] then 0
    else
      var job := jobs[|jobs| - 1];
      PositiveIn(jobs[..|jobs| - 1], b, parseDate) + (if BucketOf(job, parseDate) == Some(b) && job.positiveResponse then 1 else 0)
  }

  /** The jobs that are counted at all. */
  function CountedJobs(jobs: seq<JobSummary>, parseDate: string -> Option<int>): nat
  {
    if jobs == [] then 0
    else CountedJobs(jobs[..|jobs| - 1], parseDate) + (if BucketOf(jobs[|jobs| - 1], parseDate).Some? then 1 else 0)
  }

  /** A job is skipped exactly when it lacks an application or a posting date, a date is invalid, or it was discovered before it was posted. */
  lemma SkippedJobs(job: JobSummary, parseDate: string -> Option<int>)
    ensures BucketOf(job, parseDate).None? <==>
      job.appliedAt.None? || job.appliedAt.value == "" || job.datePosted.None? || job.datePosted.value == "" ||
      parseDate(job.datePosted.value).None? || parseDate(job.discoveredAt).None? ||
      parseDate(job.discoveredAt).value < parseDate(job.datePosted.value).value
  {
    if job.appliedAt.Some? && job.appliedAt.value != "" && job.datePosted.Some? && job.datePosted.value != "" {
      var posted := parseDate(job.datePosted.value);
      var discovered := parseDate(job.discoveredAt);
      if posted.Some? && discovered.Some? && discovered.value >= posted.value {
        BucketsPartition((discovered.value - posted.value) / MS_PER_DAY);
      }
    }
  }

  /** A job that passes every check lands in the bucket of its whole-day gap, which always exists. */
  lemma PlacedJob(job: JobSummary, parseDate: string -> Option<int>)
    requires job.appliedAt.Some? && job.appliedAt.value != "" && job.datePosted.Some? && job.datePosted.value != ""
    requires parseDate(job.datePosted.value).Some? && parseDate(job.discoveredAt).Some?
    requires parseDate(job.discoveredAt).value >= parseDate(job.datePosted.value).value
    ensures var days := (parseDate(job.discoveredAt).value - parseDate(job.datePosted.value).value) / MS_PER_DAY;
      FindBucket(days).Some? && BucketOf(job, parseDate) == FindBucket(days)
  {
    BucketsPartition((parseDate(job.discoveredAt).value - parseDate(job.datePosted.value).value) / MS_PER_DAY);
  }

  /** Each counted job is in exactly one bucket, so the bucket totals add up to the counted jobs. */
  lemma {:induction false} TotalsAddUp(jobs: seq<JobSummary>, parseDate: string -> Option<int>)
    ensures TotalIn(jobs, 0, parseDate) + TotalIn(jobs, 1, parseDate) + TotalIn(jobs, 2, parseDate) +
            TotalIn(jobs, 3, parseDate) + TotalIn(jobs, 4, parseDate) + TotalIn(jobs, 5, parseDate) == CountedJobs(jobs, parseDate)
  {
    if jobs != [] {
      TotalsAddUp(jobs[..|jobs| - 1], parseDate);
    }
  }

  /** A bucket never has more positive responses than jobs. */
  lemma {:induction false} PositiveAtMostTotal(jobs: seq<JobSummary>, b: nat, parseDate: string -> Option<int>)
    ensures PositiveIn(jobs, b, parseDate) <= TotalIn(jobs, b, parseDate)
  {
    if jobs != [] {
      PositiveAtMostTotal(jobs[..|jobs| - 1], b, parseDate);
    }
  }

  /** A bucket's counters in the `counts` map. */
  datatype Count = Count(total: nat, positive: nat)

  /** One bar of the chart. */
  datatype FreshnessRow = FreshnessRow(bucket: string, positiveRate: real, total: nat, positive: nat)

  /** `entry.total > 0 ? (entry.positive / entry.total) * 100 : 0`. */
  function PositiveRate(c: Count): real
  {
    if c.total > 0 then (c.positive as real / c.total as real) * 100.0 else 0.0
  }

  lemma PositiveRateBounds(c: Count)
    requires c.positive <= c.total
    ensures 0.0 <= PositiveRate(c) <= 100.0
    ensures c.total == 0 ==> PositiveRate(c) == 0.0
  {
    if c.total > 0 {
      var q := c.positive as real / c.total as real;
      assert q * c.total as real == c.positive as real;
    }
  }

  lemma LabelsDistinct()
    ensures forall a, b :: 0 <= a < b < |BUCKETS| ==> BUCKETS[a].caption != BUCKETS[b].caption
  {
    assert BUCKETS[0].caption[0] == '0' && BUCKETS[1].caption[0] == '2' && BUCKETS[2].caption[0] == '4';
    assert BUCKETS[3].caption[0] == '8' && BUCKETS[4].caption[0] == '1' && BUCKETS[5].caption[1] == '0';
    assert BUCKETS[0].caption[1] == '-';
  }

  /** The bar for bucket `b`. */
  function RowOf(jobs: seq<JobSummary>, b: nat, parseDate: string -> Option<int>): FreshnessRow
    requires b < |BUCKETS|
  {
    var c := Count(TotalIn(jobs, b, parseDate), PositiveIn(jobs, b, parseDate));
    FreshnessRow(BUCKETS[b].caption, PositiveRate(c), c.total, c.positive)
  }

  /** The `counts` map holds, for each bucket label, the counts of that bucket over `seen`. */
  predicate CountsOf(counts: map<string, Count>, seen: seq<JobSummary>, parseDate: string -> Option<int>)
  {
    forall b :: 0 <= b < |BUCKETS| ==>
      BUCKETS[b].caption in counts && counts[BUCKETS[b].caption] == Count(TotalIn(seen, b, parseDate), PositiveIn(seen, b, parseDate))
  }

  /** A job that is not counted leaves every entry as it was. */
  lemma CountSkip(counts: map<string, Count>, seen: seq<JobSummary>, job: JobSummary, parseDate: string -> Option<int>)
    requires CountsOf(counts, seen, parseDate)
    requires BucketOf(job, parseDate).None?
    ensures CountsOf(counts, seen + [job], parseDate)
  {
    assert (seen + [job])[..|seen|] == seen;
  }

  /** Counting a job of bucket `b` bumps that bucket's entry and no other. */
  lemma CountBump(counts: map<string, Count>, seen: seq<JobSummary>, job: JobSummary, b: nat, parseDate: string -> Option<int>)
    requires CountsOf(counts, seen, parseDate)
    requires b < |BUCKETS| && BucketOf(job, parseDate) == Some(b)
    ensures var c := counts[BUCKETS[b].caption];
      CountsOf(counts[BUCKETS[b].caption := Count(c.total + 1, c.positive + (if job.positiveResponse then 1 else 0))], seen + [job], parseDate)
  {
    LabelsDistinct();
    assert (seen + [job])[..|seen|] == seen;
  }

  /** A map with a zero entry for every label counts no jobs. */
  lemma CountsOfNone(counts: map<string, Count>, parseDate: string -> Option<int>)
    requires forall b :: 0 <= b < |BUCKETS| ==> BUCKETS[b].caption in counts && counts[BUCKETS[b].caption] == Count(0, 0)
    ensures CountsOf(counts, [], parseDate)
  {
  }

  /**
    * `buildFreshnessData`: six bars in bucket order; each counts the jobs
    * whose posting-to-discovery gap falls in it, and those of them with a
    * positive response.
    */
  method BuildFreshnessData(jobs: seq<JobSummary>, parseDate: string -> Option<int>) returns (rows: seq<FreshnessRow>)
    ensures |rows| == |BUCKETS|
    ensures forall b :: 0 <= b < |BUCKETS| ==> rows[b] == RowOf(jobs, b, parseDate)
  {
    var counts: map<string, Count> := map[];
    for i := 0 to |BUCKETS|
      invariant forall b :: 0 <= b < i ==> BUCKETS[b].caption in counts && counts[BUCKETS[b].caption] == Count(0, 0)
    {
      counts := counts[BUCKETS[i].caption := Count(0, 0)];
    }
    CountsOfNone(counts, parseDate);
    assert jobs[..0] == [];
    for j := 0 to |jobs|
      invariant CountsOf(counts, jobs[..j], parseDate)
    {
      var job := jobs[j];
      assert jobs[..j + 1] == jobs[..j] + [job];
      if job.appliedAt.None? || job.appliedAt.value == "" {
        CountSkip(counts, jobs[..j], job, parseDate);
        continue;
      }
      if job.datePosted.None? || job.datePosted.value == "" {
        CountSkip(counts, jobs[..j], job, parseDate);
        continue;
      }
      var posted := parseDate(job.datePosted.value);
      var discovered := parseDate(job.discoveredAt);
      if posted.None? || discovered.None? {
        CountSkip(counts, jobs[..j], job, parseDate);
        continue;
      }
      var diffMs := discovered.value - posted.value;
      if diffMs < 0 {
        CountSkip(counts, jobs[..j], job, parseDate);
        continue;
      }
      var diffDays := diffMs / MS_PER_DAY;
      var bucket := FindBucket(diffDays);
      PlacedJob(job, parseDate);
      if bucket.None? {
        assert false;
        continue;
      }
      CountBump(counts, jobs[..j], job, bucket.value, parseDate);
      var caption := BUCKETS[bucket.value].caption;
      var current := counts[caption];
      current := current.(total := current.total + 1);
      if job.positiveResponse {
        current := current.(positive := current.positive + 1);
      }
      assert current == Count(counts[caption].total + 1, counts[caption].positive + (if job.positiveResponse then 1 else 0));
      counts := counts[caption := current];
    }
    assert jobs[..|jobs|] == jobs;
    rows := [];
    for b := 0 to |BUCKETS|
      invariant |rows| == b
      invariant forall k :: 0 <= k < b ==> rows[k] == RowOf(jobs, k, parseDate)
    {
      assert counts[BUCKETS[b].caption] == Count(TotalIn(jobs, b, parseDate), PositiveIn(jobs, b, parseDate));
      var entry := counts[BUCKETS[b].caption];
      rows := rows + [FreshnessRow(BUCKETS[b].caption, PositiveRate(entry), entry.total, entry.positive)];
    }
  }

  /** Each bar has no more positives than jobs, a rate in [0, 100] that is 0 for an empty bucket, and the six totals add up to the counted jobs. */
  lemma RowsProps(jobs: seq<JobSummary>, parseDate: string -> Option<int>)
    ensures forall b :: 0 <= b < |BUCKETS| ==>
      var r := RowOf(jobs, b, parseDate);
      r.positive <= r.total && 0.0 <= r.positiveRate <= 100.0 && (r.total == 0 ==> r.positiveRate == 0.0)
    ensures RowOf(jobs, 0, parseDate).total + RowOf(jobs, 1, parseDate).total + RowOf(jobs, 2, parseDate).total +
            RowOf(jobs, 3, parseDate).total + RowOf(jobs, 4, parseDate).total + RowOf(jobs, 5, parseDate).total
            == CountedJobs(jobs, parseDate)
  {
    forall b | 0 <= b < |BUCKETS|
      ensures var r := RowOf(jobs, b, parseDate);
        r.positive <= r.total && 0.0 <= r.positiveRate <= 100.0 && (r.total == 0 ==> r.positiveRate == 0.0)
    {
      PositiveAtMostTotal(jobs, b, parseDate);
      PositiveRateBounds(Count(TotalIn(jobs, b, parseDate), PositiveIn(jobs, b, parseDate)));
    }
    TotalsAddUp(jobs, parseDate);
  }
}
