// orchestrator/src/server/services/post-application/mapping/engine.ts:
// scoring applied jobs against a post-application email and deciding
// which job, if any, the email belongs to.
module MappingEngine {
  import opened Wrappers
  import opened Text
  import opened Seqs
  import opened Json
  import opened JsNumber
  import opened Sorting

  const HIGH_CONFIDENCE_THRESHOLD := 95
  const MIN_CONFIDENCE_THRESHOLD := 60
  const MAX_CANDIDATES := 5
  const MS_PER_DAY := 86400000

  // ---------------------------------------------------------------- tokens

  /** `normalize`: trimmed and lower-cased. */
  function Normalize(value: string): string
  {
    Lower(Trim(value))
  }

  /** A character of `[a-z0-9]`. */
  predicate IsTokenChar(c: char)
  {
    'a' <= c <= 'z' || '0' <= c <= '9'
  }

  predicate AllTokenChars(s: string)
  {
    forall i :: 0 <= i < |s| ==> IsTokenChar(s[i])
  }

  /** The pieces between non-token characters; `cur` is the piece read so far. */
  function Pieces(s: string, cur: string): seq<string>
    decreases |s|
  {
    if s == [] then [cur]
    else if IsTokenChar(s[0]) then Pieces(s[1..], cur + [s[0]])
    else [cur] + Pieces(s[1..], "")
  }

  /**
    * `tokenize`: split on runs of characters outside `[a-z0-9]`, keeping
    * the pieces longer than one character. Splitting on each such
    * character instead only adds empty pieces, which the length filter
    * drops as well.
    */
  function Tokenize(value: string): seq<string>
  {
    Filter(Pieces(Normalize(value), ""), (t: string) => |t| > 1)
  }

  lemma {:induction false} PiecesShape(s: string, cur: string)
    requires AllTokenChars(cur)
    ensures forall p :: p in Pieces(s, cur) ==> AllTokenChars(p)
    decreases |s|
  {
    if s != [] {
      if IsTokenChar(s[0]) {
        PiecesShape(s[1..], cur + [s[0]]);
      } else {
        PiecesShape(s[1..], "");
      }
    }
  }

  /** Every token has at least two characters, all of them in `[a-z0-9]`. */
  lemma TokenizeShape(value: string)
    ensures forall t :: t in Tokenize(value) ==> |t| > 1 && AllTokenChars(t)
  {
    PiecesShape(Normalize(value), "");
  }

  lemma {:induction false} PiecesOfWord(w: string, cur: string)
    requires AllTokenChars(w)
    ensures Pieces(w, cur) == [cur + w]
    decreases |w|
  {
    if w == [] {
      assert cur + w == cur;
    } else {
      PiecesOfWord(w[1..], cur + [w[0]]);
      assert cur + [w[0]] + w[1..] == cur + w;
    }
  }

  lemma PiecesOfWholeWord(w: string)
    requires AllTokenChars(w)
    ensures Pieces(w, []) == [w]
  {
    PiecesOfWord(w, []);
    assert [] + w == w;
  }

  /** A word of token characters is unchanged by normalising. */
  lemma NormalizeWord(w: string)
    requires AllTokenChars(w)
    ensures Normalize(w) == w
  {
    TokenWordTrimmed(w);
    TokenWordLower(w);
    LowerOfLower(w);
  }

  lemma TokenWordTrimmed(w: string)
    requires AllTokenChars(w)
    ensures Trim(w) == w
  {
    if w != [] {
      TokenCharPlain(w[0]);
      TokenCharPlain(w[|w| - 1]);
    }
    TrimByOfTrimmed(w, Js);
  }

  lemma TokenWordLower(w: string)
    requires AllTokenChars(w)
    ensures IsLower(w)
  {
    forall c | c in w ensures LowerChar(c) == c {
      TokenCharIn(w, c);
      TokenCharPlain(c);
    }
  }

  lemma TokenCharIn(w: string, c: char)
    requires AllTokenChars(w) && c in w
    ensures IsTokenChar(c)
  {
    var i :| 0 <= i < |w| && w[i] == c;
  }

  /** A token character is neither whitespace nor changed by lower-casing. */
  lemma TokenCharPlain(c: char)
    requires IsTokenChar(c)
    ensures !IsJsSpace(c) && LowerChar(c) == c
  {
  }

  /** A normalised word of two or more token characters is its own single token. */
  lemma TokenizeWord(w: string)
    requires AllTokenChars(w) && |w| > 1
    ensures Tokenize(w) == [w]
  {
    NormalizeWord(w);
    PiecesOfWholeWord(w);
    assert [w][1..] == [];
  }

  /** The distinct elements of a sequence. */
  function ToSet(s: seq<string>): (r: set<string>)
    ensures forall t :: t in r <==> t in s
  {
    set t | t in s
  }

  /** The distinct tokens of a value. */
  function TokenSet(value: string): set<string>
  {
    ToSet(Tokenize(value))
  }

  // ---------------------------------------------------------------- overlap

  /** `n / d` for counts with `n <= d`. */
  function Ratio(n: nat, d: nat): (r: real)
    requires 0 < d
    ensures 0.0 <= r
    ensures n <= d ==> r <= 1.0
    ensures r == 1.0 <==> n == d
  {
    n as real / d as real
  }

  /** Shared tokens over the larger token count, 0 when either side has none. */
  function SetOverlap(left: set<string>, right: set<string>): real
  {
    if |left| == 0 || |right| == 0 then 0.0
    else Ratio(|left * right|, Max(|left|, |right|))
  }

  /** What `overlapScore` returns. */
  function OverlapScoreOf(a: string, b: string): real
  {
    SetOverlap(TokenSet(a), TokenSet(b))
  }

  /** `overlapScore`: the loop counting the left tokens the right side also has. */
  method OverlapScore(a: string, b: string) returns (score: real)
    ensures score == OverlapScoreOf(a, b)
  {
    var left := TokenSet(a);
    var right := TokenSet(b);
    if |left| == 0 || |right| == 0 {
      return 0.0;
    }
    var shared := 0;
    var remaining := left;
    while remaining != {}
      invariant remaining <= left
      invariant shared == |(left - remaining) * right|
      decreases |remaining|
    {
      var token :| token in remaining;
      SharedStep(left, remaining, right, token);
      if token in right {
        shared := shared + 1;
      }
      remaining := remaining - {token};
    }
    assert left - {} == left;
    score := Ratio(shared, Max(|left|, |right|));
  }

  /** Moving one token out of `remaining` adds one shared token exactly when the right side has it. */
  lemma SharedStep(left: set<string>, remaining: set<string>, right: set<string>, token: string)
    requires token in remaining && remaining <= left
    ensures |(left - (remaining - {token})) * right| ==
      |(left - remaining) * right| + (if token in right then 1 else 0)
  {
    var before := (left - remaining) * right;
    var after := (left - (remaining - {token})) * right;
    if token in right {
      assert after == before + {token};
      assert token !in before;
    } else {
      assert after == before;
    }
  }

  lemma SubsetCard<T>(a: set<T>, b: set<T>)
    requires a <= b
    ensures |a| <= |b|
  {
    assert b == a + (b - a);
    assert a !! (b - a);
  }

  /** The set overlap lies in [0, 1], is symmetric, and is 1 on equal non-empty sets. */
  lemma SetOverlapSpec(left: set<string>, right: set<string>)
    ensures 0.0 <= SetOverlap(left, right) <= 1.0
    ensures SetOverlap(left, right) == SetOverlap(right, left)
    ensures left == {} || right == {} ==> SetOverlap(left, right) == 0.0
    ensures left != {} && left == right ==> SetOverlap(left, right) == 1.0
    ensures SetOverlap(left, right) == 1.0 ==> left == right
  {
    assert left * right == right * left;
    if |left| != 0 && |right| != 0 {
      SubsetCard(left * right, left);
      SubsetCard(left * right, right);
      if left == right {
        assert left * right == left;
      }
      if SetOverlap(left, right) == 1.0 {
        var m := Max(|left|, |right|);
        assert |left * right| == m;
        SubsetEqual(left * right, left);
        SubsetEqual(left * right, right);
      }
    }
  }

  lemma SubsetEqual<T>(a: set<T>, b: set<T>)
    requires a <= b && |a| >= |b|
    ensures a == b
  {
    assert b == a + (b - a);
    assert |b - a| == 0;
  }

  /**
    * The overlap of two values lies in [0, 1], is symmetric, is 0 when
    * either has no token, and is 1 exactly when both have the same
    * non-empty token set.
    */
  lemma OverlapScoreSpec(a: string, b: string)
    ensures 0.0 <= OverlapScoreOf(a, b) <= 1.0
    ensures OverlapScoreOf(a, b) == OverlapScoreOf(b, a)
    ensures TokenSet(a) == {} || TokenSet(b) == {} ==> OverlapScoreOf(a, b) == 0.0
    ensures OverlapScoreOf(a, b) == 1.0 <==> TokenSet(a) != {} && TokenSet(a) == TokenSet(b)
  {
    SetOverlapSpec(TokenSet(a), TokenSet(b));
  }

  // ---------------------------------------------------------------- signals and jobs

  /** The message fields the engine reads; `classificationPayload` is Null when absent. */
  datatype Message = Message(
    id: string,
    fromDomain: Option<string>,
    subject: string,
    snippet: string,
    receivedAt: int,
    classificationPayload: Json)

  datatype Signals = Signals(
    companyName: string,
    jobTitle: string,
    fromDomain: string,
    subject: string,
    snippet: string,
    receivedAt: int)

  /** A payload field when it is a string, else "". */
  function StringField(payload: Json, key: string): string
  {
    var v := Field(payload, key);
    if v.Str? then v.s else ""
  }

  /** `deriveSignals`. */
  function DeriveSignals(message: Message): (s: Signals)
    ensures s.subject == message.subject && s.snippet == message.snippet && s.receivedAt == message.receivedAt
    ensures message.fromDomain.None? ==> s.fromDomain == ""
  {
    Signals(
      StringField(message.classificationPayload, "companyName"),
      StringField(message.classificationPayload, "jobTitle"),
      Normalize(message.fromDomain.GetOr("")),
      message.subject,
      message.snippet,
      message.receivedAt)
  }

  datatype Job = Job(
    id: string,
    employer: string,
    title: string,
    companyUrlDirect: Option<string>,
    employerUrl: Option<string>,
    appliedAt: Option<string>)

  /** `s` without the prefix `p`, when it starts with it. */
  function StripPrefix(s: string, p: string): (r: string)
    ensures p <= s ==> p + r == s
    ensures !(p <= s) ==> r == s
  {
    if p <= s then s[|p|..] else s
  }

  /** `replace(/^https?:\/\//, "")`. */
  function StripScheme(s: string): string
  {
    if "http://" <= s then s[7..] else StripPrefix(s, "https://")
  }

  /**
    * `employerDomainCandidate`: the host of the company URL without "www.";
    * `hostname` stands for `new URL(direct).hostname` and is None where the
    * URL does not parse, in which case the scheme is stripped by hand.
    */
  function EmployerDomainCandidate(job: Job, hostname: string -> Option<string>): string
  {
    var direct := if job.companyUrlDirect.Some? then job.companyUrlDirect.value else job.employerUrl.GetOr("");
    if direct == "" then ""
    else match hostname(direct)
      case Some(host) => Normalize(StripPrefix(host, "www."))
      case None => Normalize(StripPrefix(StripScheme(direct), "www."))
  }

  // ---------------------------------------------------------------- the candidate score

  function RMax(a: real, b: real): (r: real)
    ensures r >= a && r >= b && (r == a || r == b)
  {
    if a >= b then a else b
  }

  /** The employer similarity: the better of the payload's company name and the subject. */
  function EmployerSimilarity(signals: Signals, job: Job): real
  {
    RMax(OverlapScoreOf(signals.companyName, job.employer), OverlapScoreOf(signals.subject, job.employer))
  }

  /** The title similarity: the best of the payload's job title, the subject and the snippet. */
  function TitleSimilarity(signals: Signals, job: Job): real
  {
    RMax(RMax(OverlapScoreOf(signals.jobTitle, job.title), OverlapScoreOf(signals.subject, job.title)),
         OverlapScoreOf(signals.snippet, job.title))
  }

  /** `Math.round(x * 40)` for a similarity `x` in [0, 1] lies in [0, 40]. */
  lemma Round40(x: real)
    requires 0.0 <= x <= 1.0
    ensures 0 <= Round(x * 40.0) <= 40
  {
    RoundMonotone(0.0, x * 40.0);
    RoundMonotone(x * 40.0, 40.0);
    RoundSpec(0.0, 0);
    RoundSpec(40.0, 40);
  }

  /** `Math.round(x * 30)` for a similarity `x` in [0, 1] lies in [0, 30]. */
  lemma Round30(x: real)
    requires 0.0 <= x <= 1.0
    ensures 0 <= Round(x * 30.0) <= 30
  {
    RoundMonotone(0.0, x * 30.0);
    RoundMonotone(x * 30.0, 30.0);
    RoundSpec(0.0, 0);
    RoundSpec(30.0, 30);
  }

  /** The company score, `Math.round(employerSimilarity * 40)`, lies in [0, 40]. */
  function CompanyScore(signals: Signals, job: Job): (r: int)
    ensures 0 <= r <= 40
  {
    OverlapScoreSpec(signals.companyName, job.employer);
    OverlapScoreSpec(signals.subject, job.employer);
    Round40(EmployerSimilarity(signals, job));
    Round(EmployerSimilarity(signals, job) * 40.0)
  }

  /** The title score, `Math.round(titleSimilarity * 30)`, lies in [0, 30]. */
  function TitleScore(signals: Signals, job: Job): (r: int)
    ensures 0 <= r <= 30
  {
    OverlapScoreSpec(signals.jobTitle, job.title);
    OverlapScoreSpec(signals.subject, job.title);
    OverlapScoreSpec(signals.snippet, job.title);
    Round30(TitleSimilarity(signals, job));
    Round(TitleSimilarity(signals, job) * 30.0)
  }

  /** Some employer token occurs in the sender's domain. */
  predicate FromDomainMatch(signals: Signals, job: Job)
  {
    exists t :: t in Tokenize(job.employer) && Contains(signals.fromDomain, t)
  }

  /** 20 when an employer token or the employer's own domain occurs in the sender's domain, else 0. */
  function DomainScore(signals: Signals, job: Job, hostname: string -> Option<string>): (r: int)
    ensures r == 20 <==> (FromDomainMatch(signals, job) ||
      (EmployerDomainCandidate(job, hostname) != "" && Contains(signals.fromDomain, EmployerDomainCandidate(job, hostname))))
    ensures r == 0 || r == 20
  {
    var employerDomain := EmployerDomainCandidate(job, hostname);
    if FromDomainMatch(signals, job) || (employerDomain != "" && Contains(signals.fromDomain, employerDomain)) then 20 else 0
  }

  /** `Date.parse(job.appliedAt)` when `appliedAt` is set; None stands for NaN. */
  function ReferenceTime(job: Job, parseDate: string -> Option<int>): Option<int>
  {
    if job.appliedAt.None? || job.appliedAt.value == "" then None else parseDate(job.appliedAt.value)
  }

  function Abs(x: int): nat
  {
    if x < 0 then -x else x
  }

  /** The time score: 2 without a reference time, else by the gap in days. */
  function TimeScore(receivedAt: int, reference: Option<int>): int
  {
    if reference.None? then 2
    else
      var diffDays := (Abs(receivedAt - reference.value) as real) / (MS_PER_DAY as real);
      if diffDays <= 3.0 then 10
      else if diffDays <= 14.0 then 7
      else if diffDays <= 45.0 then 4
      else 1
  }

  /** The time score takes one of five values, by the gap in whole milliseconds. */
  lemma TimeScoreSpec(receivedAt: int, reference: Option<int>)
    ensures TimeScore(receivedAt, reference) in {1, 2, 4, 7, 10}
    ensures reference.None? <==> TimeScore(receivedAt, reference) == 2
    ensures reference.Some? ==> var gap := Abs(receivedAt - reference.value);
      TimeScore(receivedAt, reference) ==
        if gap <= 3 * MS_PER_DAY then 10
        else if gap <= 14 * MS_PER_DAY then 7
        else if gap <= 45 * MS_PER_DAY then 4
        else 1
  {
  }

  /** The four components of a candidate's score. */
  datatype Components = Components(company: int, title: int, domain: int, time: int)
  {
    function Sum(): int
    {
      company + title + domain + time
    }
  }

  function ComponentsOf(message: Message, job: Job, hostname: string -> Option<string>, parseDate: string -> Option<int>): Components
  {
    var signals := DeriveSignals(message);
    Components(CompanyScore(signals, job), TitleScore(signals, job), DomainScore(signals, job, hostname),
               TimeScore(signals.receivedAt, ReferenceTime(job, parseDate)))
  }

  datatype Candidate = Candidate(jobId: string, score: int, reasons: seq<string>)

  /** A reason is pushed for a component only when it is positive. */
  function ReasonIf(prefix: string, value: int): seq<string>
  {
    if value > 0 then [prefix + NatToString(value)] else []
  }

  /** The reasons of a candidate: one per positive component, then always the time. */
  function Reasons(c: Components): seq<string>
  {
    ReasonIf("company:", c.company) + ReasonIf("title:", c.title) + ReasonIf("domain:", c.domain)
      + ["time:" + NatToString(if c.time < 0 then 0 else c.time)]
  }

  /** What `scoreJobCandidate` returns. */
  function CandidateOf(message: Message, job: Job, hostname: string -> Option<string>, parseDate: string -> Option<int>): Candidate
  {
    var c := ComponentsOf(message, job, hostname, parseDate);
    Candidate(job.id, Max(0, Min(100, c.Sum())), Reasons(c))
  }

  /** The company score as `scoreJobCandidate` computes it. */
  method ComputeCompanyScore(signals: Signals, job: Job) returns (score: int)
    ensures score == CompanyScore(signals, job)
  {
    var s1 := OverlapScore(signals.companyName, job.employer);
    var s2 := OverlapScore(signals.subject, job.employer);
    score := Round(RMax(s1, s2) * 40.0);
  }

  /** The title score as `scoreJobCandidate` computes it. */
  method ComputeTitleScore(signals: Signals, job: Job) returns (score: int)
    ensures score == TitleScore(signals, job)
  {
    var t1 := OverlapScore(signals.jobTitle, job.title);
    var t2 := OverlapScore(signals.subject, job.title);
    var t3 := OverlapScore(signals.snippet, job.title);
    score := Round(RMax(RMax(t1, t2), t3) * 30.0);
  }

  /** The first half of `scoreJobCandidate`: the four component scores. */
  method ComputeComponents(signals: Signals, job: Job, hostname: string -> Option<string>, parseDate: string -> Option<int>)
    returns (parts: Components)
    ensures parts == Components(CompanyScore(signals, job), TitleScore(signals, job), DomainScore(signals, job, hostname),
                                TimeScore(signals.receivedAt, ReferenceTime(job, parseDate)))
  {
    var companyScore := ComputeCompanyScore(signals, job);
    var titleScore := ComputeTitleScore(signals, job);
    var domainScore := DomainScore(signals, job, hostname);
    var timeScore := TimeScore(signals.receivedAt, ReferenceTime(job, parseDate));
    parts := Components(companyScore, titleScore, domainScore, timeScore);
  }

  /** The second half of `scoreJobCandidate`: a reason per positive component, then the time. */
  method BuildReasons(parts: Components) returns (reasons: seq<string>)
    ensures reasons == Reasons(parts)
  {
    reasons := [];
    if parts.company > 0 {
      reasons := reasons + ["company:" + NatToString(parts.company)];
    }
    assert reasons == ReasonIf("company:", parts.company);
    var head := reasons;
    if parts.title > 0 {
      reasons := reasons + ["title:" + NatToString(parts.title)];
    }
    assert reasons == head + ReasonIf("title:", parts.title);
    head := reasons;
    if parts.domain > 0 {
      reasons := reasons + ["domain:" + NatToString(parts.domain)];
    }
    assert reasons == head + ReasonIf("domain:", parts.domain);
    reasons := reasons + ["time:" + NatToString(if parts.time < 0 then 0 else parts.time)];
  }

  /** `scoreJobCandidate`: the component scores, their reasons, and the clamped sum. */
  method ScoreJobCandidate(message: Message, job: Job, hostname: string -> Option<string>, parseDate: string -> Option<int>)
    returns (c: Candidate)
    ensures c == CandidateOf(message, job, hostname, parseDate)
  {
    var signals := DeriveSignals(message);
    var parts := ComputeComponents(signals, job, hostname, parseDate);
    var reasons := BuildReasons(parts);
    c := Candidate(job.id, Max(0, Min(100, parts.Sum())), reasons);
  }

  /**
    * The components lie in their ranges (company 0..40, title 0..30,
    * domain 0 or 20, time one of 1, 2, 4, 7, 10), so the clamp never cuts:
    * the score is their sum, within [0, 100], and the last reason is the
    * time score.
    */
  lemma CandidateScoreSpec(message: Message, job: Job, hostname: string -> Option<string>, parseDate: string -> Option<int>)
    ensures var c := ComponentsOf(message, job, hostname, parseDate);
      0 <= c.company <= 40 && 0 <= c.title <= 30 && c.domain in {0, 20} && c.time in {1, 2, 4, 7, 10} &&
      CandidateOf(message, job, hostname, parseDate).score == c.Sum()
    ensures 0 <= CandidateOf(message, job, hostname, parseDate).score <= 100
    ensures CandidateOf(message, job, hostname, parseDate).jobId == job.id
    ensures var r := CandidateOf(message, job, hostname, parseDate).reasons;
      |r| >= 1 && r[|r| - 1] == "time:" + NatToString(ComponentsOf(message, job, hostname, parseDate).time)
  {
    var c := ComponentsOf(message, job, hostname, parseDate);
    ComponentsRange(message, job, hostname, parseDate);
    assert CandidateOf(message, job, hostname, parseDate) == Candidate(job.id, Max(0, Min(100, c.Sum())), Reasons(c));
    SumInRange(c);
    ReasonsEndWithTime(c);
  }

  lemma SumInRange(c: Components)
    requires 0 <= c.company <= 40 && 0 <= c.title <= 30 && 0 <= c.domain <= 20 && 0 <= c.time <= 10
    ensures 0 <= c.Sum() <= 100 && Max(0, Min(100, c.Sum())) == c.Sum()
  {
  }

  lemma ComponentsRange(message: Message, job: Job, hostname: string -> Option<string>, parseDate: string -> Option<int>)
    ensures var c := ComponentsOf(message, job, hostname, parseDate);
      0 <= c.company <= 40 && 0 <= c.title <= 30 && c.domain in {0, 20} && c.time in {1, 2, 4, 7, 10}
  {
    var signals := DeriveSignals(message);
    TimeScoreSpec(signals.receivedAt, ReferenceTime(job, parseDate));
  }

  lemma ReasonsEndWithTime(c: Components)
    requires c.time >= 0
    ensures |Reasons(c)| >= 1 && Reasons(c)[|Reasons(c)| - 1] == "time:" + NatToString(c.time)
  {
  }

  // ---------------------------------------------------------------- top candidates

  function CandidateScore(c: Candidate): int
  {
    c.score
  }

  /** Every job scored, in the order given. */
  function CandidatesOf(message: Message, jobs: seq<Job>, hostname: string -> Option<string>, parseDate: string -> Option<int>): (r: seq<Candidate>)
    ensures |r| == |jobs|
    ensures forall i :: 0 <= i < |jobs| ==> r[i] == CandidateOf(message, jobs[i], hostname, parseDate)
  {
    seq(|jobs|, i requires 0 <= i < |jobs| => CandidateOf(message, jobs[i], hostname, parseDate))
  }

  /** `pickTopCandidates`: score every job, sort by score descending, keep the first five. */
  function PickTopCandidates(message: Message, jobs: seq<Job>, hostname: string -> Option<string>, parseDate: string -> Option<int>): seq<Candidate>
  {
    TopK(CandidatesOf(message, jobs, hostname, parseDate), CandidateScore, MAX_CANDIDATES)
  }

  /** Every scored job has a score in [0, 100] and the id of one of the jobs. */
  lemma CandidatesOfSpec(message: Message, jobs: seq<Job>, hostname: string -> Option<string>, parseDate: string -> Option<int>)
    ensures forall c :: c in CandidatesOf(message, jobs, hostname, parseDate) ==> 0 <= c.score <= 100 && c.jobId in JobIds(jobs)
  {
    var all := CandidatesOf(message, jobs, hostname, parseDate);
    forall c | c in all
      ensures 0 <= c.score <= 100 && c.jobId in JobIds(jobs)
    {
      var k :| 0 <= k < |all| && all[k] == c;
      CandidateScoreSpec(message, jobs[k], hostname, parseDate);
      assert jobs[k] in jobs;
    }
  }

  /** The top five of any candidate list are sorted by score, non-increasing. */
  lemma TopCandidatesOrder(all: seq<Candidate>)
    ensures var top := TopK(all, CandidateScore, MAX_CANDIDATES);
      |top| == Min(|all|, MAX_CANDIDATES) &&
      forall i, j :: 0 <= i < j < |top| ==> top[i].score >= top[j].score
  {
    TopKProps(all, CandidateScore, MAX_CANDIDATES);
    var top := TopK(all, CandidateScore, MAX_CANDIDATES);
    forall i, j | 0 <= i < j < |top| ensures top[i].score >= top[j].score {
      assert CandidateScore(top[i]) >= CandidateScore(top[j]);
    }
  }

  lemma PickTopCandidatesOrder(message: Message, jobs: seq<Job>, hostname: string -> Option<string>, parseDate: string -> Option<int>)
    ensures var top := PickTopCandidates(message, jobs, hostname, parseDate);
      |top| == Min(|jobs|, MAX_CANDIDATES) &&
      forall i, j :: 0 <= i < j < |top| ==> top[i].score >= top[j].score
  {
    TopCandidatesOrder(CandidatesOf(message, jobs, hostname, parseDate));
  }

  lemma PickTopCandidatesMembers(message: Message, jobs: seq<Job>, hostname: string -> Option<string>, parseDate: string -> Option<int>)
    ensures var top := PickTopCandidates(message, jobs, hostname, parseDate);
      forall c :: c in top ==> c in CandidatesOf(message, jobs, hostname, parseDate) && 0 <= c.score <= 100 && c.jobId in JobIds(jobs)
  {
    var all := CandidatesOf(message, jobs, hostname, parseDate);
    TopKProps(all, CandidateScore, MAX_CANDIDATES);
    CandidatesOfSpec(message, jobs, hostname, parseDate);
  }

  /**
    * At most five candidates, none only when there is no job, sorted by
    * score non-increasing, each the score of one of the jobs, in [0, 100].
    */
  lemma PickTopCandidatesSpec(message: Message, jobs: seq<Job>, hostname: string -> Option<string>, parseDate: string -> Option<int>)
    ensures var top := PickTopCandidates(message, jobs, hostname, parseDate);
      |top| == Min(|jobs|, MAX_CANDIDATES) &&
      (forall i, j :: 0 <= i < j < |top| ==> top[i].score >= top[j].score) &&
      (forall c :: c in top ==> c in CandidatesOf(message, jobs, hostname, parseDate)) &&
      (forall c :: c in top ==> 0 <= c.score <= 100 && c.jobId in JobIds(jobs))
  {
    PickTopCandidatesOrder(message, jobs, hostname, parseDate);
    PickTopCandidatesMembers(message, jobs, hostname, parseDate);
  }

  // ---------------------------------------------------------------- LLM rerank

  datatype MatchMethod = Keyword | LlmRerank | Hybrid

  datatype MappingResult = MappingResult(matchedJobId: Option<string>, score: int, matchMethod: MatchMethod)

  /** The parsed reply of a successful LLM call: a job id and a score. */
  datatype LlmReply = LlmReply(jobId: string, score: real)

  /** The ids of the jobs the run looks at (the keys of `jobsById`). */
  function JobIds(jobs: seq<Job>): set<string>
  {
    set j | j in jobs :: j.id
  }

  /**
    * What `rerankWithLlm` returns once the call is made: `reply` is None when
    * the call failed. The score is clamped to [0, 100] after rounding, an
    * unknown job id discards the reply, and a score under 60 keeps no match.
    */
  function RerankResult(candidates: seq<Candidate>, jobIds: set<string>, reply: Option<LlmReply>): Option<MappingResult>
  {
    if |candidates| == 0 || reply.None? then None
    else
      var score := Max(0, Min(100, Round(reply.value.score)));
      if reply.value.jobId !in jobIds then None
      else Some(MappingResult(if score >= MIN_CONFIDENCE_THRESHOLD then Some(reply.value.jobId) else None, score, LlmRerank))
  }

  lemma RerankResultSpec(candidates: seq<Candidate>, jobIds: set<string>, reply: Option<LlmReply>)
    ensures RerankResult(candidates, jobIds, reply).Some? <==>
      |candidates| > 0 && reply.Some? && reply.value.jobId in jobIds
    ensures RerankResult(candidates, jobIds, reply).Some? ==>
      var r := RerankResult(candidates, jobIds, reply).value;
      0 <= r.score <= 100 && r.matchMethod == LlmRerank &&
      r.score == Max(0, Min(100, Round(reply.value.score))) &&
      (r.matchedJobId.Some? <==> r.score >= MIN_CONFIDENCE_THRESHOLD) &&
      (r.matchedJobId.Some? ==> r.matchedJobId.value == reply.value.jobId)
  {
  }

  // ---------------------------------------------------------------- persistence

  /** One row handed to `replacePostApplicationMessageCandidates`. */
  datatype CandidateRow = CandidateRow(
    jobId: string,
    score: int,
    rank: nat,
    reasons: seq<string>,
    matchMethod: MatchMethod,
    isHighConfidence: bool)

  /** The candidate is the job the result chose. */
  predicate IsChosen(c: Candidate, result: Option<MappingResult>)
  {
    result.Some? && result.value.matchedJobId == Some(c.jobId)
  }

  function RowOf(c: Candidate, index: nat, result: Option<MappingResult>): CandidateRow
  {
    var chosenScore := if result.Some? then result.value.score else 0;
    var chosenMethod := if result.Some? then result.value.matchMethod else Keyword;
    var selected := IsChosen(c, result);
    CandidateRow(
      c.jobId,
      if selected then chosenScore else c.score,
      index + 1,
      c.reasons,
      if selected then chosenMethod else if chosenMethod == LlmRerank then Hybrid else Keyword,
      selected && chosenScore >= HIGH_CONFIDENCE_THRESHOLD)
  }

  /** The rows `persistMappingResult` writes, one per deterministic candidate in order. */
  function PersistRows(candidates: seq<Candidate>, result: Option<MappingResult>): (rows: seq<CandidateRow>)
    ensures |rows| == |candidates|
    ensures forall i :: 0 <= i < |candidates| ==> rows[i] == RowOf(candidates[i], i, result)
  {
    seq(|candidates|, i requires 0 <= i < |candidates| => RowOf(candidates[i], i, result))
  }

  /**
    * Rows keep the candidates' order with ranks 1..n and their reasons; only
    * the chosen job takes the result's score and method and only it, with a
    * score of at least 95, is high-confidence; every other row keeps its
    * own score and is labelled hybrid after an LLM rerank, keyword otherwise.
    */
  lemma PersistRowsSpec(candidates: seq<Candidate>, result: Option<MappingResult>)
    ensures forall i :: 0 <= i < |candidates| ==>
      var row := PersistRows(candidates, result)[i];
      row.jobId == candidates[i].jobId && row.rank == i + 1 && row.reasons == candidates[i].reasons &&
      (row.isHighConfidence <==> IsChosen(candidates[i], result) && result.value.score >= HIGH_CONFIDENCE_THRESHOLD) &&
      (IsChosen(candidates[i], result) ==> row.score == result.value.score && row.matchMethod == result.value.matchMethod) &&
      (!IsChosen(candidates[i], result) ==>
        row.score == candidates[i].score &&
        row.matchMethod == (if result.Some? && result.value.matchMethod == LlmRerank then Hybrid else Keyword))
  {
  }

  // ---------------------------------------------------------------- the run

  /**
    * What a run writes and returns. `rows` is None when the candidate rows
    * are not replaced; `suggestedJobId` is the matched job the message's
    * suggestion is updated to.
    */
  datatype RunOutcome = RunOutcome(
    matchedJobId: Option<string>,
    score: int,
    usedLlmRerank: bool,
    rows: Option<seq<CandidateRow>>,
    suggestedJobId: Option<string>)

  /** The outcome of persisting `result` and returning it. */
  function Persisted(top: seq<Candidate>, result: MappingResult, used: bool): RunOutcome
  {
    RunOutcome(result.matchedJobId, result.score, used, Some(PersistRows(top, Some(result))), result.matchedJobId)
  }

  /**
    * The decision tree of `runJobMappingForMessage` once the top candidates
    * are known; `reply` stands for the LLM rerank call, which is made only
    * when the top score is in [60, 95).
    */
  function Decide(top: seq<Candidate>, jobIds: set<string>, reply: Option<LlmReply>): RunOutcome
  {
    if |top| == 0 then RunOutcome(None, 0, false, None, None)
    else if top[0].score >= HIGH_CONFIDENCE_THRESHOLD then
      Persisted(top, MappingResult(Some(top[0].jobId), top[0].score, Keyword), false)
    else if top[0].score < MIN_CONFIDENCE_THRESHOLD then
      RunOutcome(None, top[0].score, false, Some(PersistRows(top, None)), None)
    else
      match RerankResult(top, jobIds, reply)
        case Some(result) => Persisted(top, result, true)
        case None =>
          Persisted(top, MappingResult(if top[0].score >= MIN_CONFIDENCE_THRESHOLD then Some(top[0].jobId) else None,
                                       top[0].score, Keyword), false)
  }

  /** `runJobMappingForMessage` over the given jobs. */
  function RunJobMapping(message: Message, jobs: seq<Job>, hostname: string -> Option<string>,
                         parseDate: string -> Option<int>, reply: Option<LlmReply>): RunOutcome
  {
    Decide(PickTopCandidates(message, jobs, hostname, parseDate), JobIds(jobs), reply)
  }

  /**
    * The decision tree: no candidate gives no match, score 0, no LLM call
    * and no rows; a top score of at least 95 matches the top job by
    * keyword; one under 60 matches nothing; in between an accepted LLM
    * reply decides, with its clamped, rounded score and its job from a
    * score of 60, and otherwise the top job matches by keyword.
    */
  lemma DecideSpec(top: seq<Candidate>, jobIds: set<string>, reply: Option<LlmReply>)
    ensures var out := Decide(top, jobIds, reply);
      (|top| == 0 <==> out.rows.None?) && out.suggestedJobId == out.matchedJobId &&
      (|top| == 0 ==> out == RunOutcome(None, 0, false, None, None)) &&
      (|top| > 0 && top[0].score >= HIGH_CONFIDENCE_THRESHOLD ==>
        out.matchedJobId == Some(top[0].jobId) && out.score == top[0].score && !out.usedLlmRerank) &&
      (|top| > 0 && top[0].score < MIN_CONFIDENCE_THRESHOLD ==>
        out.matchedJobId.None? && out.score == top[0].score && !out.usedLlmRerank) &&
      (|top| > 0 && MIN_CONFIDENCE_THRESHOLD <= top[0].score < HIGH_CONFIDENCE_THRESHOLD ==>
        (out.usedLlmRerank <==> reply.Some? && reply.value.jobId in jobIds) &&
        (out.usedLlmRerank ==>
          out.score == Max(0, Min(100, Round(reply.value.score))) &&
          out.matchedJobId == (if out.score >= MIN_CONFIDENCE_THRESHOLD then Some(reply.value.jobId) else None)) &&
        (!out.usedLlmRerank ==> out.matchedJobId == Some(top[0].jobId) && out.score == top[0].score))
  {
    RerankResultSpec(top, jobIds, reply);
  }

  /** Outside the [60, 95) band the LLM's reply plays no part. */
  lemma DecideIgnoresReplyOutsideBand(top: seq<Candidate>, jobIds: set<string>, r1: Option<LlmReply>, r2: Option<LlmReply>)
    requires |top| == 0 || top[0].score >= HIGH_CONFIDENCE_THRESHOLD || top[0].score < MIN_CONFIDENCE_THRESHOLD
    ensures Decide(top, jobIds, r1) == Decide(top, jobIds, r2)
  {
  }

  /**
    * When every candidate's score is in [0, 100] and names a known job, a
    * match has a score of at least 60 and names a known job, and the score
    * returned is in [0, 100].
    */
  lemma DecideSound(top: seq<Candidate>, jobIds: set<string>, reply: Option<LlmReply>)
    requires forall c :: c in top ==> 0 <= c.score <= 100 && c.jobId in jobIds
    ensures var out := Decide(top, jobIds, reply);
      0 <= out.score <= 100 &&
      (out.matchedJobId.Some? ==> out.score >= MIN_CONFIDENCE_THRESHOLD && out.matchedJobId.value in jobIds)
  {
    if |top| > 0 {
      assert top[0] in top;
      RerankResultSpec(top, jobIds, reply);
    }
  }

  /** With no job there is no match, a score of 0, no LLM call and no candidate rows. */
  lemma RunWithoutJobs(message: Message, hostname: string -> Option<string>, parseDate: string -> Option<int>, reply: Option<LlmReply>)
    ensures RunJobMapping(message, [], hostname, parseDate, reply) == RunOutcome(None, 0, false, None, None)
  {
    PickTopCandidatesOrder(message, [], hostname, parseDate);
  }

  /**
    * Over any jobs, a match has a score of at least 60 and names one of
    * the jobs, the score lies in [0, 100], and the suggestion written is
    * the match returned; candidate rows are written exactly when there is
    * a job.
    */
  lemma RunJobMappingSound(message: Message, jobs: seq<Job>, hostname: string -> Option<string>,
                           parseDate: string -> Option<int>, reply: Option<LlmReply>)
    ensures var out := RunJobMapping(message, jobs, hostname, parseDate, reply);
      0 <= out.score <= 100 && out.suggestedJobId == out.matchedJobId &&
      (out.rows.Some? <==> |jobs| > 0) &&
      (out.matchedJobId.Some? ==> out.score >= MIN_CONFIDENCE_THRESHOLD && out.matchedJobId.value in JobIds(jobs))
  {
    var top := PickTopCandidates(message, jobs, hostname, parseDate);
    PickTopCandidatesOrder(message, jobs, hostname, parseDate);
    PickTopCandidatesMembers(message, jobs, hostname, parseDate);
    DecideSpec(top, JobIds(jobs), reply);
    DecideSound(top, JobIds(jobs), reply);
  }
}
