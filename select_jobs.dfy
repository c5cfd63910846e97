// orchestrator/src/server/pipeline/steps/select-jobs.ts: the pipeline keeps
// the jobs scoring at least the minimum, best first, and takes the top N.
module SelectJobs {
  import opened Wrappers
  import opened Seqs
  import opened Sorting

  /** A scored job; a missing score counts as 0. */
  datatype ScoredJob = ScoredJob(id: string, suitabilityScore: Option<int>)

  function ScoreOf(job: ScoredJob): int
  {
    job.suitabilityScore.GetOr(0)
  }

  /** The jobs whose score reaches the minimum, in input order. */
  function Eligible(jobs: seq<ScoredJob>, minScore: int): (r: seq<ScoredJob>)
    ensures forall j :: j in r <==> j in jobs && ScoreOf(j) >= minScore
  {
    Filter(jobs, j => ScoreOf(j) >= minScore)
  }

  /** `selectJobsStep`. */
  function SelectJobsStep(jobs: seq<ScoredJob>, minScore: int, topN: int): seq<ScoredJob>
  {
    SliceTo(SortDesc(Eligible(jobs, minScore), ScoreOf), topN)
  }

  /** In a descending sequence, nothing after a prefix outranks anything in it. */
  lemma PrefixDominates<T>(sorted: seq<T>, n: nat, key: T -> int)
    requires SortedDesc(sorted, key) && n <= |sorted|
    ensures forall x, y :: x in multiset(sorted) - multiset(sorted[..n]) && y in sorted[..n] ==> key(x) <= key(y)
  {
    var r := sorted[..n];
    var rest := sorted[n..];
    assert sorted == r + rest;
    assert multiset(sorted) == multiset(r) + multiset(rest);
    forall x, y | x in multiset(sorted) - multiset(r) && y in r ensures key(x) <= key(y) {
      assert x in multiset(rest);
      assert x in rest;
      var i :| 0 <= i < |rest| && rest[i] == x;
      var k :| 0 <= k < n && r[k] == y;
      assert sorted[n + i] == x && sorted[k] == y;
    }
  }

  lemma PrefixSubMultiset<T>(s: seq<T>, n: nat)
    requires n <= |s|
    ensures multiset(s[..n]) <= multiset(s)
  {
    assert s == s[..n] + s[n..];
  }

  /** The selection is a prefix of the eligible jobs sorted best first. */
  lemma SelectJobsPrefix(jobs: seq<ScoredJob>, minScore: int, topN: int)
    ensures var sorted := SortDesc(Eligible(jobs, minScore), ScoreOf);
      var r := SelectJobsStep(jobs, minScore, topN);
      |r| <= |sorted| && r == sorted[..|r|]
  {
  }

  /** Every selected job reaches the minimum, the best come first, and each is taken from the input without duplication. */
  lemma SelectJobsSpec(jobs: seq<ScoredJob>, minScore: int, topN: int)
    ensures forall j :: j in SelectJobsStep(jobs, minScore, topN) ==> ScoreOf(j) >= minScore
    ensures SortedDesc(SelectJobsStep(jobs, minScore, topN), ScoreOf)
    ensures multiset(SelectJobsStep(jobs, minScore, topN)) <= multiset(jobs)
  {
    var eligible := Eligible(jobs, minScore);
    var sorted := SortDesc(eligible, ScoreOf);
    var r := SelectJobsStep(jobs, minScore, topN);
    SortDescProps(eligible, ScoreOf);
    FilterSubMultiset(jobs, j => ScoreOf(j) >= minScore);
    SelectJobsPrefix(jobs, minScore, topN);
    PrefixSubMultiset(sorted, |r|);
    forall j | j in r ensures ScoreOf(j) >= minScore {
      assert j in multiset(r);
    }
  }

  /** With a non-negative topN, as many jobs as possible up to topN. */
  lemma SelectJobsSize(jobs: seq<ScoredJob>, minScore: int, topN: int)
    requires topN >= 0
    ensures var n := |Eligible(jobs, minScore)|;
      |SelectJobsStep(jobs, minScore, topN)| == if n <= topN then n else topN
  {
    SortDescProps(Eligible(jobs, minScore), ScoreOf);
  }

  /** No eligible job left out scores higher than one kept. */
  lemma SelectJobsMaximal(jobs: seq<ScoredJob>, minScore: int, topN: int)
    ensures var r := SelectJobsStep(jobs, minScore, topN);
      forall x, y :: x in multiset(Eligible(jobs, minScore)) - multiset(r) && y in r ==> ScoreOf(x) <= ScoreOf(y)
  {
    var eligible := Eligible(jobs, minScore);
    var sorted := SortDesc(eligible, ScoreOf);
    SortDescProps(eligible, ScoreOf);
    SelectJobsPrefix(jobs, minScore, topN);
    PrefixDominates(sorted, |SelectJobsStep(jobs, minScore, topN)|, ScoreOf);
  }

  lemma {:induction false} FilterSubMultiset<T(!new)>(s: seq<T>, keep: T -> bool)
    ensures multiset(Filter(s, keep)) <= multiset(s)
    decreases |s|
  {
    if s != [] {
      FilterSubMultiset(s[1..], keep);
      assert s == [s[0]] + s[1..];
    }
  }
}
