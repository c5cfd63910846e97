// orchestrator/src/server/services/post-application/review/service.ts: the
// inbox of messages waiting for a user decision, and the approve/deny state
// machine that moves a message out of `pending_user`, over an in-memory store
// standing in for the message, job, stage-event and sync-run tables.
module ReviewService {
  import opened Wrappers

  /** The application stages a stage event can record. */
  datatype Stage = Applied | RecruiterScreen | Assessment | HiringManagerScreen
                 | TechnicalInterview | Onsite | Offer | Closed

  /** `STAGE_TO_JOB_STATUS`: every stage keeps the job in status "applied". */
  function JobStatusOf(stage: Stage): (r: string)
    ensures r == "applied"
  {
    match stage
    case Applied => "applied"
    case RecruiterScreen => "applied"
    case Assessment => "applied"
    case HiringManagerScreen => "applied"
    case TechnicalInterview => "applied"
    case Onsite => "applied"
    case Offer => "applied"
    case Closed => "applied"
  }

  /** `inferStageFromMessageType`. */
  function InferStage(messageType: string): (r: Option<Stage>)
    ensures r.Some? <==> messageType == "interview" || messageType == "offer" ||
                         messageType == "rejection" || messageType == "update"
  {
    if messageType == "interview" then Some(TechnicalInterview)
    else if messageType == "offer" then Some(Offer)
    else if messageType == "rejection" then Some(Closed)
    else if messageType == "update" then Some(RecruiterScreen)
    else None
  }

  /** The four message types that name a stage, and the stage each names. */
  lemma InferStageSpec(messageType: string)
    ensures messageType == "interview" ==> InferStage(messageType) == Some(TechnicalInterview)
    ensures messageType == "offer" ==> InferStage(messageType) == Some(Offer)
    ensures messageType == "rejection" ==> InferStage(messageType) == Some(Closed)
    ensures messageType == "update" ==> InferStage(messageType) == Some(RecruiterScreen)
    ensures InferStage(messageType) != Some(Applied)
  {
  }

  // ---------------------------------------------------------------- store rows

  /** A post-application message; `receivedAt == None` stands for a non-finite number. */
  datatype Message = Message(
    id: string,
    provider: string,
    accountKey: string,
    syncRunId: Option<string>,
    messageType: string,
    processingStatus: string,
    matchedJobId: Option<string>,
    receivedAt: Option<int>,
    decidedAt: Option<int>,
    decidedBy: Option<string>)

  /** The job columns a decision touches; times are epoch milliseconds. */
  datatype Job = Job(status: string, appliedAt: Option<int>)

  /** A row of the stage-event table; `occurredAt` is in epoch seconds. */
  datatype StageEvent = StageEvent(
    id: string,
    applicationId: string,
    title: string,
    groupId: string,
    fromStage: Option<Stage>,
    toStage: Stage,
    occurredAt: int,
    note: Option<string>)

  /** The HTTP errors the service throws. */
  datatype ReviewError = NotFound | Conflict | Unprocessable

  /** What an approval returns. */
  datatype Approval = Approval(message: Message, stageEventId: Option<string>)

  // ---------------------------------------------------------------- decision guards

  /** The three guards shared by approve and deny: the message exists, belongs to the account, and is undecided. */
  function FindPending(messages: map<string, Message>, messageId: string, provider: string, accountKey: string)
    : (r: Result<Message, ReviewError>)
    ensures r.Success? <==>
      (messageId in messages && messages[messageId].provider == provider &&
       messages[messageId].accountKey == accountKey && messages[messageId].processingStatus == "pending_user")
    ensures r.Success? ==> r.value == messages[messageId]
    ensures r == Failure(NotFound) <==>
      (messageId !in messages || messages[messageId].provider != provider ||
       messages[messageId].accountKey != accountKey)
  {
    if messageId !in messages then Failure(NotFound)
    else if messages[messageId].provider != provider || messages[messageId].accountKey != accountKey then Failure(NotFound)
    else if messages[messageId].processingStatus != "pending_user" then Failure(Conflict)
    else Success(messages[messageId])
  }

  /** `args.jobId ?? message.matchedJobId`, kept only when truthy. */
  function ResolveJobId(jobId: Option<string>, matchedJobId: Option<string>): (r: Option<string>)
    ensures r.Some? ==> r.value != ""
    ensures jobId.Some? ==> (r.Some? <==> jobId.value != "") && (r.Some? ==> r.value == jobId.value)
    ensures jobId.None? ==> (r.Some? <==> matchedJobId.Some? && matchedJobId.value != "")
    ensures jobId.None? && r.Some? ==> r.value == matchedJobId.value
  {
    var resolved := if jobId.Some? then jobId else matchedJobId;
    if resolved.Some? && resolved.value != "" then resolved else None
  }

  /** Every guard of an approval, in the order the service checks them; on success, the message and the job id. */
  function ApproveCheck(messages: map<string, Message>, jobs: map<string, Job>, messageId: string,
                        provider: string, accountKey: string, jobId: Option<string>)
    : (r: Result<(Message, string), ReviewError>)
    ensures r.Success? ==>
      messageId in messages && r.value.0 == messages[messageId] &&
      r.value.0.processingStatus == "pending_user" && r.value.1 in jobs &&
      ResolveJobId(jobId, r.value.0.matchedJobId) == Some(r.value.1)
    ensures FindPending(messages, messageId, provider, accountKey).Failure? ==>
      r == Failure(FindPending(messages, messageId, provider, accountKey).error)
    ensures (FindPending(messages, messageId, provider, accountKey).Success? &&
             ResolveJobId(jobId, messages[messageId].matchedJobId).None?) ==> r == Failure(Unprocessable)
  {
    match FindPending(messages, messageId, provider, accountKey)
    case Failure(e) => Failure(e)
    case Success(message) =>
      match ResolveJobId(jobId, message.matchedJobId)
      case None => Failure(Unprocessable)
      case Some(id) => if id in jobs then Success((message, id)) else Failure(NotFound)
  }

  /** `toStage ?? inferred ?? latest stage ?? "applied"`. */
  function TargetStage(toStage: Option<Stage>, messageType: string, fromStage: Option<Stage>): Stage
  {
    if toStage.Some? then toStage.value
    else if InferStage(messageType).Some? then InferStage(messageType).value
    else if fromStage.Some? then fromStage.value
    else Applied
  }

  /**
    * An explicit stage always wins; a message type that names no stage keeps
    * the application where its latest event left it, or at "applied".
    */
  lemma TargetStageSpec(toStage: Option<Stage>, messageType: string, fromStage: Option<Stage>)
    ensures toStage.Some? ==> TargetStage(toStage, messageType, fromStage) == toStage.value
    ensures toStage.None? && messageType == "rejection" ==> TargetStage(toStage, messageType, fromStage) == Closed
    ensures toStage.None? && InferStage(messageType).None? ==>
      TargetStage(toStage, messageType, fromStage) == fromStage.GetOr(Applied)
  {
  }

  /** `Math.floor(ms / 1000)` of the received time, or of the decision time when that is not finite. */
  function OccurredAtSeconds(receivedAt: Option<int>, decidedAt: int): (r: int)
    ensures var ms := if receivedAt.Some? then receivedAt.value else decidedAt;
      r * 1000 <= ms < r * 1000 + 1000
  {
    (if receivedAt.Some? then receivedAt.value else decidedAt) / 1000
  }

  /**
    * The event `orderBy(desc(occurredAt)).limit(1)` returns for a job: one
    * with the latest time; among equal times the earliest inserted.
    */
  function LatestEvent(events: seq<StageEvent>, jobId: string): (r: Option<StageEvent>)
    ensures r.None? <==> forall k :: 0 <= k < |events| ==> events[k].applicationId != jobId
    ensures r.Some? ==> r.value in events && r.value.applicationId == jobId
    ensures r.Some? ==> forall k :: 0 <= k < |events| && events[k].applicationId == jobId ==>
      events[k].occurredAt <= r.value.occurredAt
  {
    if events == [] then None
    else
      var rest := LatestEvent(events[1..], jobId);
      assert forall k :: 1 <= k < |events| ==> events[k] == events[1..][k - 1];
      if events[0].applicationId != jobId then rest
      else if rest.None? || rest.value.occurredAt <= events[0].occurredAt then Some(events[0])
      else rest
  }

  /** The message row after `updatePostApplicationMessageDecision`. */
  function Decided(m: Message, status: string, matchedJobId: Option<string>, decidedAt: int, decidedBy: Option<string>)
    : (r: Message)
    ensures r.id == m.id && r.provider == m.provider && r.accountKey == m.accountKey
    ensures r.syncRunId == m.syncRunId && r.messageType == m.messageType && r.receivedAt == m.receivedAt
    ensures r.processingStatus == status && r.matchedJobId == matchedJobId
    ensures r.decidedAt == Some(decidedAt) && r.decidedBy == decidedBy
  {
    m.(processingStatus := status, matchedJobId := matchedJobId, decidedAt := Some(decidedAt), decidedBy := decidedBy)
  }

  /** A decided message is final: deciding it again is a conflict. */
  lemma DecisionIsFinal(messages: map<string, Message>, messageId: string, status: string,
                        matchedJobId: Option<string>, decidedAt: int, decidedBy: Option<string>)
    requires messageId in messages && status != "pending_user"
    ensures var after := messages[messageId := Decided(messages[messageId], status, matchedJobId, decidedAt, decidedBy)];
      FindPending(after, messageId, messages[messageId].provider, messages[messageId].accountKey) == Failure(Conflict)
  {
  }

  /** `SET counter = counter + 1 WHERE id = key`: no row, no change. */
  function Bumped(counts: map<string, nat>, key: string): (r: map<string, nat>)
    ensures r.Keys == counts.Keys
    ensures key in counts ==> r[key] == counts[key] + 1
    ensures forall k :: k in counts && k != key ==> r[k] == counts[k]
  {
    if key in counts then counts[key := counts[key] + 1] else counts
  }

  /** The stage event an approval inserts. */
  function ApprovalEvent(eventId: string, jobId: string, message: Message, fromStage: Option<Stage>,
                         toStage: Option<Stage>, decidedAt: int, note: Option<string>): StageEvent
  {
    StageEvent(eventId, jobId, "Post-application: " + message.messageType, "post_application_router",
               fromStage, TargetStage(toStage, message.messageType, fromStage),
               OccurredAtSeconds(message.receivedAt, decidedAt), note)
  }

  /** The job row after an approval that writes a stage event. */
  function ApprovedJob(job: Job, stage: Stage, decidedAt: int): (r: Job)
    ensures r.status == "applied"
    ensures job.appliedAt.None? ==> r.appliedAt == Some(decidedAt)
    ensures job.appliedAt.Some? ==> r.appliedAt == job.appliedAt
  {
    Job(JobStatusOf(stage), if job.appliedAt.None? then Some(decidedAt) else job.appliedAt)
  }

  /** The stage the latest event left the job in. */
  function FromStage(events: seq<StageEvent>, jobId: string): Option<Stage>
  {
    var latest := LatestEvent(events, jobId);
    if latest.Some? then Some(latest.value.toStage) else None
  }

  // ---------------------------------------------------------------- the store

  /** The message, job, stage-event and sync-run tables the decisions update. */
  class ReviewStore {
    var messages: map<string, Message>
    var jobs: map<string, Job>
    var events: seq<StageEvent>
    /** `messagesApproved` per sync run id. */
    var approvedCount: map<string, nat>
    /** `messagesDenied` per sync run id. */
    var deniedCount: map<string, nat>

    constructor (messages: map<string, Message>, jobs: map<string, Job>, events: seq<StageEvent>,
                 approvedCount: map<string, nat>, deniedCount: map<string, nat>)
      ensures this.messages == messages && this.jobs == jobs && this.events == events
      ensures this.approvedCount == approvedCount && this.deniedCount == deniedCount
    {
      this.messages := messages;
      this.jobs := jobs;
      this.events := events;
      this.approvedCount := approvedCount;
      this.deniedCount := deniedCount;
    }

    /**
      * `approvePostApplicationInboxItem`. `newEventId` stands for
      * `randomUUID()` and `decidedAt` for `Date.now()`.
      */
    method Approve(messageId: string, provider: string, accountKey: string, jobId: Option<string>,
                   toStage: Option<Stage>, note: Option<string>, decidedBy: Option<string>,
                   decidedAt: int, newEventId: string)
      returns (r: Result<Approval, ReviewError>)
      modifies this
      ensures var check := ApproveCheck(old(messages), old(jobs), messageId, provider, accountKey, jobId);
        (r.Failure? <==> check.Failure?) && (r.Failure? ==> r.error == check.error)
      ensures r.Failure? ==>
        messages == old(messages) && jobs == old(jobs) && events == old(events) &&
        approvedCount == old(approvedCount) && deniedCount == old(deniedCount)
      ensures r.Success? ==>
        var message := old(messages)[messageId];
        var jid := ApproveCheck(old(messages), old(jobs), messageId, provider, accountKey, jobId).value.1;
        r.value.message == Decided(message, "manual_linked", Some(jid), decidedAt, decidedBy) &&
        messages == old(messages)[messageId := r.value.message] &&
        approvedCount == Bumped(old(approvedCount), message.syncRunId.GetOr("")) &&
        deniedCount == old(deniedCount)
      ensures r.Success? && old(messages)[messageId].messageType == "other" ==>
        r.value.stageEventId.None? && events == old(events) && jobs == old(jobs)
      ensures r.Success? && old(messages)[messageId].messageType != "other" ==>
        var message := old(messages)[messageId];
        var jid := ApproveCheck(old(messages), old(jobs), messageId, provider, accountKey, jobId).value.1;
        var fromStage := FromStage(old(events), jid);
        r.value.stageEventId == Some(newEventId) &&
        events == old(events) + [ApprovalEvent(newEventId, jid, message, fromStage, toStage, decidedAt, note)] &&
        jobs == old(jobs)[jid := ApprovedJob(old(jobs)[jid], TargetStage(toStage, message.messageType, fromStage), decidedAt)]
    {
      if messageId !in messages {
        return Failure(NotFound);
      }
      var message := messages[messageId];
      if message.provider != provider || message.accountKey != accountKey {
        return Failure(NotFound);
      }
      if message.processingStatus != "pending_user" {
        return Failure(Conflict);
      }
      var resolved := if jobId.Some? then jobId else message.matchedJobId;
      if resolved.None? || resolved.value == "" {
        return Failure(Unprocessable);
      }
      var jid := resolved.value;
      if jid !in jobs {
        return Failure(NotFound);
      }
      assert ApproveCheck(messages, jobs, messageId, provider, accountKey, jobId) == Success((message, jid));
      var approval := Link(messageId, message, jid, toStage, note, decidedBy, decidedAt, newEventId);
      r := Success(approval);
    }

    /**
      * The writes of the approval transaction once the checks have passed:
      * the stage event and job update (not for an "other" message), the run
      * counter, then the decided message.
      */
    method Link(messageId: string, message: Message, jid: string, toStage: Option<Stage>, note: Option<string>,
                decidedBy: Option<string>, decidedAt: int, newEventId: string)
      returns (approval: Approval)
      modifies this
      requires jid in jobs
      ensures approval.message == Decided(message, "manual_linked", Some(jid), decidedAt, decidedBy)
      ensures messages == old(messages)[messageId := approval.message]
      ensures approvedCount == Bumped(old(approvedCount), message.syncRunId.GetOr(""))
      ensures deniedCount == old(deniedCount)
      ensures message.messageType == "other" ==>
        approval.stageEventId.None? && events == old(events) && jobs == old(jobs)
      ensures message.messageType != "other" ==>
        var fromStage := FromStage(old(events), jid);
        approval.stageEventId == Some(newEventId) &&
        events == old(events) + [ApprovalEvent(newEventId, jid, message, fromStage, toStage, decidedAt, note)] &&
        jobs == old(jobs)[jid := ApprovedJob(old(jobs)[jid], TargetStage(toStage, message.messageType, fromStage), decidedAt)]
    {
      var stageEventId: Option<string> := None;
      if message.messageType != "other" {
        var fromStage := FromStage(events, jid);
        var event := ApprovalEvent(newEventId, jid, message, fromStage, toStage, decidedAt, note);
        stageEventId := Some(newEventId);
        events := events + [event];
        jobs := jobs[jid := ApprovedJob(jobs[jid], event.toStage, decidedAt)];
      }
      approvedCount := Bumped(approvedCount, message.syncRunId.GetOr(""));

      var updated := Decided(message, "manual_linked", Some(jid), decidedAt, decidedBy);
      messages := messages[messageId := updated];
      approval := Approval(updated, stageEventId);
    }

    /** `denyPostApplicationInboxItem`. */
    method Deny(messageId: string, provider: string, accountKey: string, decidedBy: Option<string>, decidedAt: int)
      returns (r: Result<Message, ReviewError>)
      modifies this
      ensures var check := FindPending(old(messages), messageId, provider, accountKey);
        (r.Failure? <==> check.Failure?) && (r.Failure? ==> r.error == check.error)
      ensures r.Failure? ==> messages == old(messages) && deniedCount == old(deniedCount)
      ensures r.Success? ==>
        var message := old(messages)[messageId];
        r.value == Decided(message, "ignored", None, decidedAt, decidedBy) &&
        messages == old(messages)[messageId := r.value] &&
        deniedCount == (if message.syncRunId.Some? && message.syncRunId.value != ""
                        then Bumped(old(deniedCount), message.syncRunId.value) else old(deniedCount))
      ensures jobs == old(jobs) && events == old(events) && approvedCount == old(approvedCount)
    {
      if messageId !in messages {
        return Failure(NotFound);
      }
      var message := messages[messageId];
      if message.provider != provider || message.accountKey != accountKey {
        return Failure(NotFound);
      }
      if message.processingStatus != "pending_user" {
        return Failure(Conflict);
      }
      if message.syncRunId.Some? && message.syncRunId.value != "" {
        deniedCount := Bumped(deniedCount, message.syncRunId.value);
      }
      var updated := Decided(message, "ignored", None, decidedAt, decidedBy);
      messages := messages[messageId := updated];
      r := Success(updated);
    }
  }

  // ---------------------------------------------------------------- the inbox

  /** The job columns the inbox shows. */
  datatype JobSummary = JobSummary(id: string, title: string, employer: string)

  /** An inbox row: the message and its matched job, if that job is known. */
  datatype InboxItem = InboxItem(message: Message, matchedJob: Option<JobSummary>)

  /** The position of the last job with this id, or -1. */
  function LastWithId(jobs: seq<JobSummary>, id: string): (r: int)
    ensures -1 <= r < |jobs|
    ensures r >= 0 ==> jobs[r].id == id
    ensures forall l :: r < l < |jobs| ==> jobs[l].id != id
  {
    if jobs == [] then -1
    else if jobs[|jobs| - 1].id == id then |jobs| - 1
    else LastWithId(jobs[..|jobs| - 1], id)
  }

  /** `new Map(jobs.map(j => [j.id, j])).get(id)`: a later entry with the same id overwrites an earlier one. */
  function JobById(jobs: seq<JobSummary>, id: string): (r: Option<JobSummary>)
    ensures r.None? <==> forall k :: 0 <= k < |jobs| ==> jobs[k].id != id
    ensures r.Some? ==> r.value.id == id && r.value in jobs
  {
    var k := LastWithId(jobs, id);
    if k >= 0 then Some(jobs[k]) else None
  }

  /** A truthy `matchedJobId`. */
  predicate HasMatch(m: Message)
  {
    m.matchedJobId.Some? && m.matchedJobId.value != ""
  }

  /** `buildMatchedJobMap`. */
  function BuildMatchedJobMap(items: seq<Message>, jobs: seq<JobSummary>): (r: seq<InboxItem>)
    ensures |r| == |items|
    ensures forall k :: 0 <= k < |r| ==> r[k].message == items[k]
    ensures forall k :: 0 <= k < |r| ==>
      r[k].matchedJob == (if HasMatch(items[k]) then JobById(jobs, items[k].matchedJobId.value) else None)
  {
    seq(|items|, k requires 0 <= k < |items| =>
      InboxItem(items[k], if HasMatch(items[k]) then JobById(jobs, items[k].matchedJobId.value) else None))
  }

  /** A matched job is always the job the message names. */
  lemma MatchedJobNamed(items: seq<Message>, jobs: seq<JobSummary>, k: nat)
    requires k < |items|
    ensures var item := BuildMatchedJobMap(items, jobs)[k];
      item.matchedJob.Some? ==> HasMatch(items[k]) && item.matchedJob.value.id == items[k].matchedJobId.value &&
                                item.matchedJob.value in jobs
    ensures !HasMatch(items[k]) ==> BuildMatchedJobMap(items, jobs)[k].matchedJob.None?
  {
  }

  /** `Array.from(new Set(ids.filter(Boolean)))`: the truthy matched job ids, first occurrences in order. */
  function MatchedJobIds(items: seq<Message>, seen: set<string>): (r: seq<string>)
    ensures forall k :: 0 <= k < |r| ==> r[k] !in seen && r[k] != ""
    ensures forall i, j :: 0 <= i < j < |r| ==> r[i] != r[j]
    ensures forall id :: id in r <==>
      id !in seen && exists k :: 0 <= k < |items| && HasMatch(items[k]) && items[k].matchedJobId.value == id
  {
    if items == [] then []
    else
      assert forall k :: 1 <= k < |items| ==> items[k] == items[1..][k - 1];
      if HasMatch(items[0]) && items[0].matchedJobId.value !in seen then
        var id := items[0].matchedJobId.value;
        var rest := MatchedJobIds(items[1..], seen + {id});
        [id] + rest
      else
        MatchedJobIds(items[1..], seen)
  }

  /** `listJobSummariesByIds`: the jobs whose id is one of `ids`. */
  function JobsWithIds(allJobs: seq<JobSummary>, ids: seq<string>): (r: seq<JobSummary>)
    ensures forall j :: j in r <==> j in allJobs && j.id in ids
  {
    if allJobs == [] then []
    else
      var rest := JobsWithIds(allJobs[1..], ids);
      assert allJobs == [allJobs[0]] + allJobs[1..];
      if allJobs[0].id in ids then [allJobs[0]] + rest else rest
  }

  /** Appending a job overrides the earlier ones with its id and no other. */
  lemma JobByIdSnoc(init: seq<JobSummary>, last: JobSummary, id: string)
    ensures JobById(init + [last], id) == if last.id == id then Some(last) else JobById(init, id)
  {
    var all := init + [last];
    assert all[..|all| - 1] == init;
    if last.id != id {
      var k := LastWithId(init, id);
      if k >= 0 {
        assert all[k] == init[k];
      }
    }
  }

  lemma {:induction false} JobByIdRestricted(allJobs: seq<JobSummary>, ids: seq<string>, id: string)
    requires id in ids
    ensures JobById(JobsWithIds(allJobs, ids), id) == JobById(allJobs, id)
    decreases |allJobs|
  {
    if allJobs != [] {
      var last := allJobs[|allJobs| - 1];
      var init := allJobs[..|allJobs| - 1];
      assert allJobs == init + [last];
      var kept := JobsWithIds(init, ids);
      JobsWithIdsSnoc(init, last, ids);
      JobByIdSnoc(init, last, id);
      if last.id in ids {
        assert JobsWithIds(allJobs, ids) == kept + [last];
        JobByIdSnoc(kept, last, id);
      } else {
        assert JobsWithIds(allJobs, ids) == kept;
      }
      if last.id != id {
        JobByIdRestricted(init, ids, id);
      }
    }
  }

  lemma {:induction false} JobsWithIdsSnoc(init: seq<JobSummary>, last: JobSummary, ids: seq<string>)
    ensures JobsWithIds(init + [last], ids) ==
      JobsWithIds(init, ids) + (if last.id in ids then [last] else [])
    decreases |init|
  {
    if init != [] {
      assert (init + [last])[1..] == init[1..] + [last];
      JobsWithIdsSnoc(init[1..], last, ids);
    }
  }

  /**
    * `listPostApplicationInbox` after the repository reads: looking up only
    * the deduplicated matched ids loses no match, so every row carries the
    * job it would get from the full job table.
    */
  lemma InboxLookupComplete(items: seq<Message>, allJobs: seq<JobSummary>)
    ensures BuildMatchedJobMap(items, JobsWithIds(allJobs, MatchedJobIds(items, {}))) ==
            BuildMatchedJobMap(items, allJobs)
  {
    var ids := MatchedJobIds(items, {});
    var a := BuildMatchedJobMap(items, JobsWithIds(allJobs, ids));
    var b := BuildMatchedJobMap(items, allJobs);
    forall k | 0 <= k < |items| ensures a[k] == b[k] {
      if HasMatch(items[k]) {
        JobByIdRestricted(allJobs, ids, items[k].matchedJobId.value);
      }
    }
  }
}
