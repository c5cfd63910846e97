// orchestrator/src/client/pages/TrackingInboxPage.tsx: the inbox page's
// pure helpers (default candidate, sender label, score colour, applied-job
// label), the loop that primes each message's candidate selection, the
// sync-form validation and the rule for enabling approve/deny.
module TrackingInbox {
  import opened Wrappers
  import opened Text
  import opened JsParse

  /** A job candidate offered for a message. */
  datatype Candidate = Candidate(id: string, jobId: string)

  /** An inbox row as the page sees it. */
  datatype Item = Item(messageId: string, matchedJobId: Option<string>, reviewStatus: string, candidates: seq<Candidate>)

  /** The first candidate whose job id is `jobId`, as an index, or -1. */
  function FindCandidateByJob(cs: seq<Candidate>, jobId: string): (r: int)
    ensures -1 <= r < |cs|
    ensures r >= 0 ==> cs[r].jobId == jobId
    ensures forall k :: 0 <= k < (if r < 0 then |cs| else r) ==> cs[k].jobId != jobId
  {
    if cs == [] then -1
    else if cs[0].jobId == jobId then 0
    else
      var k := FindCandidateByJob(cs[1..], jobId);
      if k < 0 then -1 else k + 1
  }

  /** `candidates.some(c => c.id === id)`. */
  predicate HasCandidate(cs: seq<Candidate>, id: string)
  {
    exists k :: 0 <= k < |cs| && cs[k].id == id
  }

  /** `getFirstCandidateId`. */
  function FirstCandidateId(item: Item): string
  {
    var matched := if item.matchedJobId.Some? && item.matchedJobId.value != ""
                   then FindCandidateByJob(item.candidates, item.matchedJobId.value) else -1;
    if matched >= 0 then item.candidates[matched].id
    else if item.candidates != [] then item.candidates[0].id
    else ""
  }

  /**
    * The candidate for the matched job comes first; without one, the first
    * candidate; with no candidates, "". Whenever there are candidates, the
    * result names one of them.
    */
  lemma FirstCandidateIdSpec(item: Item)
    ensures item.candidates == [] ==> FirstCandidateId(item) == ""
    ensures item.candidates != [] ==> HasCandidate(item.candidates, FirstCandidateId(item))
    ensures (item.matchedJobId.Some? && item.matchedJobId.value != "" &&
             exists k :: 0 <= k < |item.candidates| && item.candidates[k].jobId == item.matchedJobId.value) ==>
      exists k :: 0 <= k < |item.candidates| && item.candidates[k].jobId == item.matchedJobId.value &&
                  FirstCandidateId(item) == item.candidates[k].id
    ensures ((item.matchedJobId.None? || item.matchedJobId.value == "" ||
              forall k :: 0 <= k < |item.candidates| ==> item.candidates[k].jobId != item.matchedJobId.value) &&
             item.candidates != []) ==> FirstCandidateId(item) == item.candidates[0].id
  {
    if item.candidates != [] {
      var m := if item.matchedJobId.Some? && item.matchedJobId.value != ""
               then FindCandidateByJob(item.candidates, item.matchedJobId.value) else -1;
      if m >= 0 {
        assert item.candidates[m].id == FirstCandidateId(item);
      } else {
        assert item.candidates[0].id == FirstCandidateId(item);
      }
    }
  }

  // ---------------------------------------------------------------- labels

  /** `getSenderLabel`. */
  function SenderLabel(senderName: Option<string>, fromAddress: string): string
  {
    var preferred := Trim(senderName.GetOr(""));
    if preferred != "" then preferred
    else
      var trimmed := Trim(fromAddress);
      if trimmed == "" then "Unknown sender"
      else
        var bracket := IndexOf(trimmed, '<');
        if bracket > 0 then
          var before := Trim(trimmed[..bracket]);
          if before != "" then before else trimmed
        else trimmed
  }

  lemma TrimNonBlankStart(s: string, n: nat)
    requires 0 < n <= |s| && !IsJsSpace(s[0])
    ensures Trim(s[..n]) != ""
  {
    TrimEmpty(s[..n]);
    assert !IsSpace(Js, s[..n][0]);
  }

  /**
    * The label is never blank: a non-blank sender name wins, trimmed; a blank
    * address gives "Unknown sender"; an address with "<" after its first
    * character shows the trimmed text before it; otherwise the trimmed address.
    */
  lemma SenderLabelSpec(senderName: Option<string>, fromAddress: string)
    ensures SenderLabel(senderName, fromAddress) != ""
    ensures Trim(senderName.GetOr("")) != "" ==> SenderLabel(senderName, fromAddress) == Trim(senderName.GetOr(""))
    ensures Trim(senderName.GetOr("")) == "" && Trim(fromAddress) == "" ==>
      SenderLabel(senderName, fromAddress) == "Unknown sender"
    ensures (Trim(senderName.GetOr("")) == "" && Trim(fromAddress) != "" && IndexOf(Trim(fromAddress), '<') > 0) ==>
      SenderLabel(senderName, fromAddress) == Trim(Trim(fromAddress)[..IndexOf(Trim(fromAddress), '<')])
    ensures (Trim(senderName.GetOr("")) == "" && IndexOf(Trim(fromAddress), '<') <= 0 && Trim(fromAddress) != "") ==>
      SenderLabel(senderName, fromAddress) == Trim(fromAddress)
  {
    var trimmed := Trim(fromAddress);
    if Trim(senderName.GetOr("")) == "" && trimmed != "" {
      var bracket := IndexOf(trimmed, '<');
      if bracket > 0 {
        TrimByTrimmed(fromAddress, Js);
        assert !IsSpace(Js, trimmed[0]);
        TrimNonBlankStart(trimmed, bracket);
      }
    }
  }

  /** The text colours `scoreTextClass` picks. */
  const MUTED := "text-muted-foreground/60"
  const EMERALD := "text-emerald-400/90"
  const FOREGROUND := "text-foreground/60"

  /** `scoreTextClass`; None is a null score. */
  function ScoreTextClass(score: Option<real>): string
  {
    if score.None? then MUTED
    else if score.value >= 70.0 then EMERALD
    else if score.value >= 50.0 then FOREGROUND
    else MUTED
  }

  /** Scores of 70 and up are emerald, 50 up to 70 foreground, and the rest and null muted. */
  lemma ScoreTextClassSpec(score: Option<real>)
    ensures ScoreTextClass(score) == EMERALD <==> score.Some? && score.value >= 70.0
    ensures ScoreTextClass(score) == FOREGROUND <==> score.Some? && 50.0 <= score.value < 70.0
    ensures ScoreTextClass(score) == MUTED <==> score.None? || score.value < 50.0
  {
  }

  /** The job fields the applied-job picker shows. */
  datatype AppliedJob = AppliedJob(id: string, employer: string, title: string)

  /** `formatAppliedJobLabel`. */
  function AppliedJobLabel(job: AppliedJob): string
  {
    var employer := Trim(job.employer);
    var title := Trim(job.title);
    if employer != "" && title != "" then employer + " - " + title
    else if title != "" then title
    else if employer != "" then employer
    else job.id
  }

  /** Both parts joined by " - " when both are non-blank; else whichever is; else the job id. */
  lemma AppliedJobLabelSpec(job: AppliedJob)
    ensures Trim(job.employer) != "" && Trim(job.title) != "" ==>
      AppliedJobLabel(job) == Trim(job.employer) + " - " + Trim(job.title)
    ensures Trim(job.employer) == "" && Trim(job.title) != "" ==> AppliedJobLabel(job) == Trim(job.title)
    ensures Trim(job.employer) != "" && Trim(job.title) == "" ==> AppliedJobLabel(job) == Trim(job.employer)
    ensures Trim(job.employer) == "" && Trim(job.title) == "" ==> AppliedJobLabel(job) == job.id
  {
  }

  lemma TrimmedJoin(a: string, sep: string, b: string)
    requires a != "" && b != "" && IsTrimmedBy(a, Js) && IsTrimmedBy(b, Js)
    ensures Trim(a + sep + b) == a + sep + b
  {
    var s := a + sep + b;
    assert s[0] == a[0];
    assert s[|s| - 1] == b[|b| - 1];
    TrimByOfTrimmed(s, Js);
  }

  /** Apart from the bare job id, the label has no surrounding whitespace. */
  lemma AppliedJobLabelTrimmed(job: AppliedJob)
    ensures AppliedJobLabel(job) == job.id || Trim(AppliedJobLabel(job)) == AppliedJobLabel(job)
  {
    var employer := Trim(job.employer);
    var title := Trim(job.title);
    TrimIdempotent(job.employer);
    TrimIdempotent(job.title);
    if employer != "" && title != "" {
      TrimByTrimmed(job.employer, Js);
      TrimByTrimmed(job.title, Js);
      TrimmedJoin(employer, " - ", title);
    }
  }

  // ---------------------------------------------------------------- selections

  /** The selection one item leaves in `next`: a truthy selection naming a current candidate stays. */
  function PrimeOne(next: map<string, string>, item: Item): map<string, string>
  {
    var selected := if item.messageId in next then next[item.messageId] else "";
    if selected == "" || !HasCandidate(item.candidates, selected)
    then next[item.messageId := FirstCandidateId(item)]
    else next
  }

  /** The selections after priming every item in order. */
  function Primed(next: map<string, string>, items: seq<Item>): (r: map<string, string>)
    ensures next.Keys <= r.Keys
    ensures forall k :: 0 <= k < |items| ==> items[k].messageId in r
    decreases |items|
  {
    if items == [] then next
    else
      var r := Primed(PrimeOne(next, items[0]), items[1..]);
      assert forall k :: 1 <= k < |items| ==> items[k] == items[1..][k - 1];
      r
  }

  /** `primeCandidateSelections`: the updater's loop over the items, on a copy of the previous record. */
  method PrimeCandidateSelections(previous: map<string, string>, items: seq<Item>)
    returns (next: map<string, string>)
    ensures next == Primed(previous, items)
  {
    next := previous;
    for k := 0 to |items|
      invariant Primed(next, items[k..]) == Primed(previous, items)
    {
      assert items[k..][1..] == items[k + 1..];
      var item := items[k];
      var selected := if item.messageId in next then next[item.messageId] else "";
      if selected == "" || !HasCandidate(item.candidates, selected) {
        next := next[item.messageId := FirstCandidateId(item)];
      }
    }
    assert items[|items|..] == [];
  }

  /** Priming touches only the items' message ids. */
  lemma {:induction false} PrimedFrame(next: map<string, string>, items: seq<Item>, key: string)
    requires forall k :: 0 <= k < |items| ==> items[k].messageId != key
    ensures key in Primed(next, items) <==> key in next
    ensures key in next ==> Primed(next, items)[key] == next[key]
    decreases |items|
  {
    if items != [] {
      PrimedFrame(PrimeOne(next, items[0]), items[1..], key);
    }
  }

  /** What priming leaves for one message of a list whose message ids are distinct. */
  lemma {:induction false} PrimedEntry(next: map<string, string>, items: seq<Item>, i: nat)
    requires i < |items|
    requires forall a, b :: 0 <= a < b < |items| ==> items[a].messageId != items[b].messageId
    ensures var id := items[i].messageId;
      var selected := if id in next then next[id] else "";
      id in Primed(next, items) &&
      Primed(next, items)[id] ==
        (if selected != "" && HasCandidate(items[i].candidates, selected) then selected
         else FirstCandidateId(items[i]))
    decreases |items|
  {
    if i == 0 {
      PrimedFrame(PrimeOne(next, items[0]), items[1..], items[0].messageId);
    } else {
      PrimedEntry(PrimeOne(next, items[0]), items[1..], i - 1);
    }
  }

  /**
    * After priming, each message (ids distinct) has a selection that names
    * one of its candidates, or "" when it has none; a valid earlier
    * selection is kept.
    */
  lemma PrimedValid(next: map<string, string>, items: seq<Item>, i: nat)
    requires i < |items|
    requires forall a, b :: 0 <= a < b < |items| ==> items[a].messageId != items[b].messageId
    ensures var sel := Primed(next, items)[items[i].messageId];
      (items[i].candidates != [] ==> HasCandidate(items[i].candidates, sel)) &&
      (items[i].candidates == [] ==> sel == "")
    ensures (items[i].messageId in next && next[items[i].messageId] != "" &&
             HasCandidate(items[i].candidates, next[items[i].messageId])) ==>
      Primed(next, items)[items[i].messageId] == next[items[i].messageId]
  {
    PrimedEntry(next, items, i);
    FirstCandidateIdSpec(items[i]);
  }

  // ---------------------------------------------------------------- sync form and decisions

  /** The sync button's validation: both fields parse to integers, in [1, 500] and [1, 365]. */
  function SyncInput(maxMessages: string, searchDays: string): (r: Option<(int, int)>)
    ensures r.Some? <==>
      (ParseInt(maxMessages).Some? && 1 <= ParseInt(maxMessages).value <= 500 &&
       ParseInt(searchDays).Some? && 1 <= ParseInt(searchDays).value <= 365)
    ensures r.Some? ==> r.value == (ParseInt(maxMessages).value, ParseInt(searchDays).value)
  {
    var m := ParseInt(maxMessages);
    var d := ParseInt(searchDays);
    if m.None? || m.value < 1 || m.value > 500 || d.None? || d.value < 1 || d.value > 365 then None
    else Some((m.value, d.value))
  }

  /** Printed limits inside the ranges pass the validation unchanged. */
  lemma SyncInputAccepts(maxMessages: int, searchDays: int)
    requires 1 <= maxMessages <= 500 && 1 <= searchDays <= 365
    ensures SyncInput(IntToString(maxMessages), IntToString(searchDays)) == Some((maxMessages, searchDays))
  {
    ParseIntOfString(maxMessages, "");
    ParseIntOfString(searchDays, "");
    assert IntToString(maxMessages) + "" == IntToString(maxMessages);
    assert IntToString(searchDays) + "" == IntToString(searchDays);
  }

  /** `canDecide`: a pending message with a candidate selected, or a job picked when it has no candidates. */
  function CanDecide(item: Item, selectedCandidateId: string, selectedAppliedJobId: string): (r: bool)
    ensures r ==> item.reviewStatus == "pending_review"
    ensures item.reviewStatus == "pending_review" && item.candidates != [] ==> (r <==> selectedCandidateId != "")
    ensures item.reviewStatus == "pending_review" && item.candidates == [] ==> (r <==> selectedAppliedJobId != "")
  {
    item.reviewStatus == "pending_review" &&
    (if |item.candidates| > 0 then selectedCandidateId != "" else selectedAppliedJobId != "")
  }

  /** A primed message with candidates can be decided as soon as it is pending, unless its chosen candidate id is "". */
  lemma PrimedCanDecide(next: map<string, string>, items: seq<Item>, i: nat, appliedJobId: string)
    requires i < |items| && items[i].reviewStatus == "pending_review" && items[i].candidates != []
    requires forall a, b :: 0 <= a < b < |items| ==> items[a].messageId != items[b].messageId
    requires forall c :: c in items[i].candidates ==> c.id != ""
    ensures CanDecide(items[i], Primed(next, items)[items[i].messageId], appliedJobId)
  {
    PrimedValid(next, items, i);
  }
}
