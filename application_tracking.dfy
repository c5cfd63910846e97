// orchestrator/src/server/services/applicationTracking.ts: moving an
// application to a new stage. The jobs, stage_events and tasks tables are the
// fields of a Store; one transition validates its input, appends a stage
// event, updates the job row and appends the automatic tasks its action asks
// for. The clock and randomUUID are parameters.
module ApplicationTracking {
  import opened Wrappers
  import opened Text
  import opened Json

  /** The application stages, each of which maps to job status "applied". */
  const STAGES: set<string> := {"applied", "recruiter_screen", "assessment", "hiring_manager_screen",
                               "technical_interview", "onsite", "offer", "closed"}

  const STAGE_TO_STATUS: map<string, string> := map[
    "applied" := "applied",
    "recruiter_screen" := "applied",
    "assessment" := "applied",
    "hiring_manager_screen" := "applied",
    "technical_interview" := "applied",
    "onsite" := "applied",
    "offer" := "applied",
    "closed" := "applied"]

  const DEFAULT_GROUP_LABEL := "Online assessment"
  const DAY := 24 * 60 * 60

  /** A job row's fields the transition reads or writes. */
  datatype JobRecord = JobRecord(status: string, appliedAt: Option<string>, outcome: Option<string>, closedAt: Option<int>)

  /** A stage_events row; `metadata` is Null when there is none. */
  datatype StageEvent = StageEvent(
    id: string,
    applicationId: string,
    fromStage: Option<string>,
    toStage: string,
    occurredAt: int,
    metadata: Json)

  /** A tasks row. */
  datatype TaskRow = TaskRow(
    id: string,
    applicationId: string,
    taskType: string,
    title: string,
    dueDate: Option<int>,
    isCompleted: bool,
    notes: Option<string>)

  datatype TransitionError = InvalidInput | JobNotFound

  // ---------------------------------------------------------------- metadata

  /** JavaScript falsiness of a JSON value. */
  predicate Falsy(v: Json)
  {
    v.Undefined? || v.Null? || v == Bool(false) || v == Num(0.0) || v == Str("")
  }

  /** `a ?? b`. */
  function Coalesce(a: Json, b: Json): Json
  {
    if a.Undefined? || a.Null? then b else a
  }

  predicate AbsentOrNull(v: Json)
  {
    v.Undefined? || v.Null?
  }

  predicate OptionalString(v: Json)
  {
    AbsentOrNull(v) || v.Str?
  }

  /** The keys `stageEventMetadataSchema` admits; it is strict, so no other key may appear. */
  const METADATA_KEYS: set<string> := {"note", "actor", "groupId", "groupLabel", "eventLabel", "externalUrl",
                                      "reasonCode", "eventType"}

  /** `stageEventMetadataSchema`: `isUrl` is zod's URL check. */
  predicate ValidMetadata(m: Json, isUrl: string -> bool)
  {
    m.Obj? &&
    (forall i :: 0 <= i < |m.fields| ==> m.fields[i].0 in METADATA_KEYS) &&
    OptionalString(Field(m, "note")) &&
    (Field(m, "actor").Undefined? || Field(m, "actor") in {Str("system"), Str("user")}) &&
    OptionalString(Field(m, "groupId")) &&
    OptionalString(Field(m, "groupLabel")) &&
    OptionalString(Field(m, "eventLabel")) &&
    (AbsentOrNull(Field(m, "externalUrl")) || (Field(m, "externalUrl").Str? && isUrl(Field(m, "externalUrl").s))) &&
    OptionalString(Field(m, "reasonCode")) &&
    (AbsentOrNull(Field(m, "eventType")) ||
     Field(m, "eventType") in {Str("interview_log"), Str("status_update"), Str("note")})
  }

  /** The input check at the top of `transitionStage`. */
  predicate ValidInput(applicationId: string, toStage: string, metadata: Json, isUrl: string -> bool)
  {
    applicationId != "" && toStage in STAGES && (Falsy(metadata) || ValidMetadata(metadata, isUrl))
  }

  /** `parseMetadata`: falsy is null, a string is JSON-parsed (null when that throws), anything else passes through. */
  function ParseMetadata(raw: Json, parse: string -> Option<Json>): Json
  {
    if Falsy(raw) then Null
    else if raw.Str? then parse(raw.s).GetOr(Null)
    else raw
  }

  /**
    * Falsy input is null, an unparsable string is null, a parsable one is
    * its parse, and any other value, an object in particular, is returned
    * as it is, so parsing an object twice changes nothing.
    */
  lemma ParseMetadataSpec(raw: Json, parse: string -> Option<Json>)
    ensures Falsy(raw) ==> ParseMetadata(raw, parse) == Null
    ensures raw.Str? && raw.s != "" && parse(raw.s).None? ==> ParseMetadata(raw, parse) == Null
    ensures raw.Str? && raw.s != "" && parse(raw.s).Some? ==> ParseMetadata(raw, parse) == parse(raw.s).value
    ensures raw.Obj? || raw.Arr? || raw == Bool(true) ==> ParseMetadata(raw, parse) == raw
    ensures raw.Obj? ==> ParseMetadata(ParseMetadata(raw, parse), parse) == ParseMetadata(raw, parse)
  {
  }

  /**
    * `ensureAssessmentGroup`: outside the assessment stage the metadata is
    * kept (null when absent); for an assessment, groupId and groupLabel are
    * filled in over the metadata's other keys.
    */
  function EnsureAssessmentGroup(stage: string, metadata: Json, lastAssessmentGroupId: Json, timestamp: int): Json
  {
    if stage != "assessment" then (if metadata.Undefined? then Null else metadata)
    else
      var fields := if metadata.Obj? then metadata.fields else [];
      var groupId := Coalesce(Coalesce(Field(metadata, "groupId"), lastAssessmentGroupId),
                              Str("oa_" + IntToString(timestamp)));
      var groupLabel := Coalesce(Field(metadata, "groupLabel"), Str(DEFAULT_GROUP_LABEL));
      Obj(Put(Put(fields, "groupId", groupId), "groupLabel", groupLabel))
  }

  /**
    * Non-assessment metadata is unchanged. An assessment's metadata is an
    * object whose groupId is the given one, else the last assessment's, else
    * "oa_<timestamp>", whose groupLabel defaults to "Online assessment",
    * and whose other keys are those of the given metadata.
    */
  lemma EnsureAssessmentGroupSpec(stage: string, metadata: Json, lastAssessmentGroupId: Json, timestamp: int)
    requires metadata.Null? || metadata.Obj?
    ensures var r := EnsureAssessmentGroup(stage, metadata, lastAssessmentGroupId, timestamp);
      (stage != "assessment" ==> r == metadata) &&
      (stage == "assessment" ==>
        r.Obj? &&
        (!AbsentOrNull(Field(metadata, "groupId")) ==> Field(r, "groupId") == Field(metadata, "groupId")) &&
        (AbsentOrNull(Field(metadata, "groupId")) && !AbsentOrNull(lastAssessmentGroupId) ==>
           Field(r, "groupId") == lastAssessmentGroupId) &&
        (AbsentOrNull(Field(metadata, "groupId")) && AbsentOrNull(lastAssessmentGroupId) ==>
           Field(r, "groupId") == Str("oa_" + IntToString(timestamp))) &&
        Field(r, "groupLabel") == Coalesce(Field(metadata, "groupLabel"), Str(DEFAULT_GROUP_LABEL)) &&
        !AbsentOrNull(Field(r, "groupLabel")) &&
        forall k :: k != "groupId" && k != "groupLabel" ==> Field(r, k) == Field(metadata, k))
  {
    if stage == "assessment" {
      var fields := if metadata.Obj? then metadata.fields else [];
      var groupId := Coalesce(Coalesce(Field(metadata, "groupId"), lastAssessmentGroupId),
                              Str("oa_" + IntToString(timestamp)));
      var groupLabel := Coalesce(Field(metadata, "groupLabel"), Str(DEFAULT_GROUP_LABEL));
      assert |"groupId"| != |"groupLabel"|;
      PutTwoFields(fields, "groupId", groupId, "groupLabel", groupLabel);
      assert forall k :: Field(Obj(fields), k) == Field(metadata, k);
    }
  }

  /** Two puts of distinct keys: each key holds its value and every other key is as it was. */
  lemma PutTwoFields(fields: seq<(string, Json)>, k1: string, v1: Json, k2: string, v2: Json)
    requires k1 != k2
    ensures var r := Obj(Put(Put(fields, k1, v1), k2, v2));
      Field(r, k1) == v1 && Field(r, k2) == v2 &&
      forall k :: k != k1 && k != k2 ==> Field(r, k) == Field(Obj(fields), k)
  {
  }

  // ---------------------------------------------------------------- latest events

  /** An event of the application, restricted to one stage when `stage` is given. */
  predicate Matches(e: StageEvent, applicationId: string, stage: Option<string>)
  {
    e.applicationId == applicationId && (stage.None? || e.toStage == stage.value)
  }

  /**
    * `ORDER BY occurredAt DESC LIMIT 1` over the matching events; among
    * events with the same time the later-inserted one is taken.
    */
  function Latest(events: seq<StageEvent>, applicationId: string, stage: Option<string>): (r: Option<StageEvent>)
    ensures r.Some? ==>
      r.value in events && Matches(r.value, applicationId, stage) &&
      forall e :: e in events && Matches(e, applicationId, stage) ==> e.occurredAt <= r.value.occurredAt
    ensures r.None? <==> forall e :: e in events ==> !Matches(e, applicationId, stage)
  {
    if events == [] then None
    else
      var init := events[..|events| - 1];
      var last := events[|events| - 1];
      var best := Latest(init, applicationId, stage);
      assert events == init + [last];
      if Matches(last, applicationId, stage) && (best.None? || best.value.occurredAt <= last.occurredAt) then Some(last)
      else best
  }

  /** fromStage: the toStage of the application's latest event, or null when it has none. */
  function FromStage(events: seq<StageEvent>, applicationId: string): Option<string>
  {
    var last := Latest(events, applicationId, None);
    if last.Some? then Some(last.value.toStage) else None
  }

  /** `getLastAssessmentGroupId`: the groupId in the latest assessment event's metadata, or null. */
  function LastAssessmentGroupId(events: seq<StageEvent>, applicationId: string, parse: string -> Option<Json>): Json
  {
    var last := Latest(events, applicationId, Some("assessment"));
    var metadata := ParseMetadata(if last.Some? then last.value.metadata else Undefined, parse);
    Coalesce(Field(metadata, "groupId"), Null)
  }

  /** `getLastEventTimestamp`: the latest event's time, or now when the application has none. */
  function LastEventTimestamp(events: seq<StageEvent>, applicationId: string, nowSec: int): int
  {
    var last := Latest(events, applicationId, None);
    if last.Some? then last.value.occurredAt else nowSec
  }

  /**
    * An event at or after every earlier event of its application becomes
    * the latest: the next transition's fromStage is its toStage.
    */
  lemma FromStageAfter(events: seq<StageEvent>, e: StageEvent)
    requires forall x :: x in events && x.applicationId == e.applicationId ==> x.occurredAt <= e.occurredAt
    ensures FromStage(events + [e], e.applicationId) == Some(e.toStage)
  {
    var all := events + [e];
    assert all[..|all| - 1] == events;
  }

  // ---------------------------------------------------------------- job update and automatic tasks

  /**
    * The `updates` record applied to the job row: status from the stage,
    * appliedAt the first time the stage is "applied", and with an outcome
    * the outcome and closedAt (the last event's time for "ghosted", else the
    * transition's time).
    */
  function Transitioned(job: JobRecord, stage: string, outcome: Option<string>, timestamp: int,
                        lastEventTimestamp: int, nowIso: string): JobRecord
    requires stage in STAGES
  {
    var withStatus := job.(status := STAGE_TO_STATUS[stage]);
    var withApplied :=
      if stage == "applied" && (job.appliedAt.None? || job.appliedAt.value == "") then withStatus.(appliedAt := Some(nowIso))
      else withStatus;
    if outcome.Some? && outcome.value != "" then
      withApplied.(outcome := outcome,
                   closedAt := Some(if outcome.value == "ghosted" then lastEventTimestamp else timestamp))
    else withApplied
  }

  /**
    * Every stage leaves the job "applied"; appliedAt is set only on the
    * first "applied" and never overwritten; without an outcome, outcome and
    * closedAt stay as they were.
    */
  lemma TransitionedSpec(job: JobRecord, stage: string, outcome: Option<string>, timestamp: int,
                         lastEventTimestamp: int, nowIso: string)
    requires stage in STAGES
    ensures var r := Transitioned(job, stage, outcome, timestamp, lastEventTimestamp, nowIso);
      r.status == "applied" &&
      (stage == "applied" && (job.appliedAt.None? || job.appliedAt.value == "") ==> r.appliedAt == Some(nowIso)) &&
      (stage != "applied" || (job.appliedAt.Some? && job.appliedAt.value != "") ==> r.appliedAt == job.appliedAt) &&
      ((outcome.None? || outcome.value == "") ==> r.outcome == job.outcome && r.closedAt == job.closedAt) &&
      (outcome.Some? && outcome.value != "" ==>
         r.outcome == outcome &&
         r.closedAt == Some(if outcome.value == "ghosted" then lastEventTimestamp else timestamp))
  {
  }

  /** An open task of the type already exists for the application. */
  predicate HasOpenTask(tasks: seq<TaskRow>, applicationId: string, taskType: string)
  {
    exists t :: t in tasks && t.applicationId == applicationId && t.taskType == taskType && !t.isCompleted
  }

  /** The automatic task an action asks for: its type, title and due offset in seconds. */
  function AutoTaskRule(actionId: Option<string>): Option<(string, string, int)>
  {
    if actionId == Some("book_recruiter_screen") then Some(("prep", "Prep for Recruiter Call", -DAY))
    else if actionId == Some("log_oa_received") then Some(("todo", "Complete Assessment", 3 * DAY))
    else if actionId == Some("log_screen_completed") then Some(("follow_up", "Send Thank You Note", DAY))
    else if actionId == Some("log_oa_submitted") then Some(("check_status", "Check Assessment Status", 7 * DAY))
    else if actionId == Some("book_interview_round") then Some(("prep", "Prep for Interview", -2 * DAY))
    else None
  }

  /** The tasks `buildAutoTasks` creates. */
  function AutoTasks(tasks: seq<TaskRow>, applicationId: string, actionId: Option<string>, timestamp: int,
                     taskId: string): seq<TaskRow>
  {
    var rule := AutoTaskRule(actionId);
    if rule.None? || HasOpenTask(tasks, applicationId, rule.value.0) then []
    else [TaskRow(taskId, applicationId, rule.value.0, rule.value.1, Some(timestamp + rule.value.2), false, None)]
  }

  /**
    * At most one task is created, open, for the application, due at the
    * action's offset from the transition; none when the action has no rule
    * or an open task of that type already exists. Recruiter-screen prep is
    * due a day before, an assessment three days after.
    */
  lemma AutoTasksSpec(tasks: seq<TaskRow>, applicationId: string, actionId: Option<string>, timestamp: int, taskId: string)
    ensures var r := AutoTasks(tasks, applicationId, actionId, timestamp, taskId);
      |r| <= 1 &&
      (r == [] <==> AutoTaskRule(actionId).None? || HasOpenTask(tasks, applicationId, AutoTaskRule(actionId).value.0)) &&
      (forall t :: t in r ==>
         (t.applicationId == applicationId && !t.isCompleted && t.notes.None? &&
          !HasOpenTask(tasks, applicationId, t.taskType) &&
          t.dueDate == Some(timestamp + AutoTaskRule(actionId).value.2)))
    ensures actionId == Some("book_recruiter_screen") && !HasOpenTask(tasks, applicationId, "prep") ==>
      AutoTasks(tasks, applicationId, actionId, timestamp, taskId)[0].dueDate == Some(timestamp - 86400)
    ensures actionId == Some("log_oa_received") && !HasOpenTask(tasks, applicationId, "todo") ==>
      AutoTasks(tasks, applicationId, actionId, timestamp, taskId)[0].dueDate == Some(timestamp + 259200)
  {
  }

  /** The event the transition inserts. */
  function NewEvent(events: seq<StageEvent>, applicationId: string, toStage: string, timestamp: int,
                    metadata: Json, eventId: string, parse: string -> Option<Json>): StageEvent
  {
    var parsed := if Falsy(metadata) then Null else metadata;
    StageEvent(eventId, applicationId, FromStage(events, applicationId), toStage, timestamp,
               EnsureAssessmentGroup(toStage, parsed, LastAssessmentGroupId(events, applicationId, parse), timestamp))
  }

  /** The jobs, stage_events and tasks tables. */
  class Store {
    var jobs: map<string, JobRecord>
    var events: seq<StageEvent>
    var tasks: seq<TaskRow>

    /** Every stage event and task belongs to a job. */
    predicate Valid()
      reads this
    {
      (forall e :: e in events ==> e.applicationId in jobs) &&
      (forall t :: t in tasks ==> t.applicationId in jobs)
    }

    constructor(jobs0: map<string, JobRecord>, events0: seq<StageEvent>, tasks0: seq<TaskRow>)
      ensures jobs == jobs0 && events == events0 && tasks == tasks0
    {
      jobs, events, tasks := jobs0, events0, tasks0;
    }

    /** `buildAutoTasks`: the rules in order, each skipped when an open task of its type exists. */
    method BuildAutoTasks(applicationId: string, actionId: Option<string>, timestamp: int, taskId: string)
      returns (tasksToCreate: seq<TaskRow>)
      ensures tasksToCreate == AutoTasks(tasks, applicationId, actionId, timestamp, taskId)
    {
      tasksToCreate := [];
      if actionId == Some("book_recruiter_screen") && !HasOpenTask(tasks, applicationId, "prep") {
        tasksToCreate := tasksToCreate + [TaskRow(taskId, applicationId, "prep", "Prep for Recruiter Call", Some(timestamp - DAY), false, None)];
      }
      if actionId == Some("log_oa_received") && !HasOpenTask(tasks, applicationId, "todo") {
        tasksToCreate := tasksToCreate + [TaskRow(taskId, applicationId, "todo", "Complete Assessment", Some(timestamp + 3 * DAY), false, None)];
      }
      if actionId == Some("log_screen_completed") && !HasOpenTask(tasks, applicationId, "follow_up") {
        tasksToCreate := tasksToCreate + [TaskRow(taskId, applicationId, "follow_up", "Send Thank You Note", Some(timestamp + DAY), false, None)];
      }
      if actionId == Some("log_oa_submitted") && !HasOpenTask(tasks, applicationId, "check_status") {
        tasksToCreate := tasksToCreate + [TaskRow(taskId, applicationId, "check_status", "Check Assessment Status", Some(timestamp + 7 * DAY), false, None)];
      }
      if actionId == Some("book_interview_round") && !HasOpenTask(tasks, applicationId, "prep") {
        tasksToCreate := tasksToCreate + [TaskRow(taskId, applicationId, "prep", "Prep for Interview", Some(timestamp - 2 * DAY), false, None)];
      }
    }

    /** The `updates` record built step by step and applied to the job row. */
    method JobUpdates(job: JobRecord, stage: string, outcome: Option<string>, timestamp: int,
                      applicationId: string, nowSec: int, nowIso: string)
      returns (updated: JobRecord)
      requires stage in STAGES
      ensures updated == Transitioned(job, stage, outcome, timestamp, LastEventTimestamp(events, applicationId, nowSec), nowIso)
    {
      updated := job.(status := STAGE_TO_STATUS[stage]);
      if stage == "applied" && (job.appliedAt.None? || job.appliedAt.value == "") {
        updated := updated.(appliedAt := Some(nowIso));
      }
      if outcome.Some? && outcome.value != "" {
        var closedAt := if outcome.value == "ghosted" then LastEventTimestamp(events, applicationId, nowSec) else timestamp;
        updated := updated.(outcome := outcome, closedAt := Some(closedAt));
      }
    }

    /**
      * `transitionStage`: invalid input or a missing job changes nothing;
      * otherwise the event is appended, the job row updated and the
      * automatic tasks appended, all as one transaction.
      */
    method TransitionStage(applicationId: string, toStage: string, occurredAt: Option<int>, metadata: Json,
                           outcome: Option<string>, actionId: Option<string>,
                           isUrl: string -> bool, parse: string -> Option<Json>,
                           nowSec: int, nowIso: string, eventId: string, taskId: string)
      returns (r: Result<StageEvent, TransitionError>)
      modifies this
      ensures r.Failure? ==> jobs == old(jobs) && events == old(events) && tasks == old(tasks)
      ensures r == Failure(InvalidInput) <==> !ValidInput(applicationId, toStage, metadata, isUrl)
      ensures r == Failure(JobNotFound) <==> ValidInput(applicationId, toStage, metadata, isUrl) && applicationId !in old(jobs)
      ensures r.Success? ==>
        var timestamp := occurredAt.GetOr(nowSec);
        toStage in STAGES && applicationId in old(jobs) &&
        r.value == NewEvent(old(events), applicationId, toStage, timestamp, metadata, eventId, parse) &&
        events == old(events) + [r.value] &&
        jobs == old(jobs)[applicationId := Transitioned(old(jobs)[applicationId], toStage, outcome, timestamp,
                                                        LastEventTimestamp(events, applicationId, nowSec), nowIso)] &&
        tasks == old(tasks) + AutoTasks(old(tasks), applicationId, actionId, timestamp, taskId)
      ensures old(Valid()) ==> Valid()
    {
      if !ValidInput(applicationId, toStage, metadata, isUrl) {
        return Failure(InvalidInput);
      }
      var timestamp := if occurredAt.Some? then occurredAt.value else nowSec;
      if applicationId !in jobs {
        return Failure(JobNotFound);
      }
      var job := jobs[applicationId];
      var event := NewEvent(events, applicationId, toStage, timestamp, metadata, eventId, parse);
      events := events + [event];

      var updated := JobUpdates(job, toStage, outcome, timestamp, applicationId, nowSec, nowIso);
      jobs := jobs[applicationId := updated];

      var autoTasks := BuildAutoTasks(applicationId, actionId, timestamp, taskId);
      tasks := tasks + autoTasks;
      r := Success(event);
    }
  }

  /**
    * A ghosted close-out takes the latest event time after the insert, which
    * is never earlier than the transition itself; the clock fallback is
    * never used.
    */
  lemma GhostedClosedAt(events: seq<StageEvent>, e: StageEvent, nowSec: int)
    ensures LastEventTimestamp(events + [e], e.applicationId, nowSec) >= e.occurredAt
    ensures forall x :: x in events && x.applicationId == e.applicationId ==>
      x.occurredAt <= LastEventTimestamp(events + [e], e.applicationId, nowSec)
  {
    assert e in events + [e];
  }
}
