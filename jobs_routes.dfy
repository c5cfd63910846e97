// orchestrator/src/server/api/routes/jobs.ts: the helpers of the jobs routes
// (status filter, request origin, error mapping), the per-job action with its
// status gates, the bulk action and its streaming variant, the
// score-threshold and close-out inputs, and the tailoredSkills check.
module JobsRoutes {
  import opened Wrappers
  import opened Text
  import opened Seqs
  import opened Json
  import opened JsParse
  import JobActions

  // ---------------------------------------------------------------- status filter

  predicate NonEmpty(p: string)
  {
    p != ""
  }

  /** `parseStatusFilter`: split on ",", drop empty pieces; no filter or nothing left is None. */
  function ParseStatusFilter(statusFilter: Option<string>): Option<seq<string>>
  {
    if statusFilter.None? then None
    else
      var parsed := Filter(Split(statusFilter.value, {','}), NonEmpty);
      if |parsed| > 0 then Some(parsed) else None
  }

  /**
    * A parsed filter is a non-empty list of non-empty statuses without ",";
    * it is None exactly when there is no filter or every piece is empty.
    */
  lemma ParseStatusFilterSpec(statusFilter: Option<string>)
    ensures var r := ParseStatusFilter(statusFilter);
      r.Some? ==> |r.value| > 0 && forall k :: 0 <= k < |r.value| ==> r.value[k] != "" && NoneIn(r.value[k], {','})
    ensures ParseStatusFilter(statusFilter).None? <==>
      (statusFilter.None? ||
       forall k :: 0 <= k < |Split(statusFilter.value, {','})| ==> Split(statusFilter.value, {','})[k] == "")
  {
    if statusFilter.Some? {
      var pieces := Split(statusFilter.value, {','});
      var parsed := Filter(pieces, NonEmpty);
      forall k | 0 <= k < |parsed| ensures NoneIn(parsed[k], {','}) {
        assert parsed[k] in pieces;
      }
      if |parsed| > 0 {
        assert parsed[0] in pieces;
        var j :| 0 <= j < |pieces| && pieces[j] == parsed[0];
        assert pieces[j] != "";
        assert Split(statusFilter.value, {','})[j] != "";
        assert ParseStatusFilter(statusFilter).Some?;
      } else {
        forall k | 0 <= k < |pieces| ensures pieces[k] == "" {
          assert pieces[k] in pieces;
        }
      }
    }
  }

  /** Statuses joined with "," parse back to the same list. */
  lemma ParseStatusFilterRoundTrip(statuses: seq<string>)
    requires statuses != []
    requires forall k :: 0 <= k < |statuses| ==> statuses[k] != "" && NoneIn(statuses[k], {','})
    ensures ParseStatusFilter(Some(Join(statuses, ","))) == Some(statuses)
  {
    SplitJoin(statuses, ',', {','});
    FilterAll(statuses, NonEmpty);
  }

  // ---------------------------------------------------------------- errors

  /** An `AppError`: HTTP status, code, message and optional details. */
  datatype AppError = AppError(status: int, code: string, message: string, details: Option<Json>)

  /** What a `catch` receives: an AppError, another Error with its message, or a non-Error value. */
  datatype Thrown = App(error: AppError) | PlainError(message: string) | NonError

  datatype ErrorInfo = ErrorInfo(code: string, message: string, details: Option<Json>)

  const INTERNAL_ERROR := "INTERNAL_ERROR"
  const UNKNOWN_ERROR := "Unknown error"

  /** `badRequest(message)`. */
  function BadRequest(message: string): Thrown
  {
    App(AppError(400, "INVALID_REQUEST", message, None))
  }

  function NotFound(message: string): Thrown
  {
    App(AppError(404, "NOT_FOUND", message, None))
  }

  /**
    * `mapErrorForResult`: an AppError keeps its code, message and details;
    * anything else is INTERNAL_ERROR with the Error's message, or
    * "Unknown error" when there is none.
    */
  function MapErrorForResult(thrown: Thrown): (r: ErrorInfo)
    ensures thrown.App? ==> r == ErrorInfo(thrown.error.code, thrown.error.message, thrown.error.details)
    ensures !thrown.App? ==> r.code == INTERNAL_ERROR && r.message != "" && r.details.None?
    ensures thrown.PlainError? && thrown.message != "" ==> r.message == thrown.message
  {
    match thrown
    case App(e) => ErrorInfo(e.code, e.message, e.details)
    case PlainError(m) => ErrorInfo(INTERNAL_ERROR, if m == "" then UNKNOWN_ERROR else m, None)
    case NonError => ErrorInfo(INTERNAL_ERROR, UNKNOWN_ERROR, None)
  }

  /** The status of each known error code, as `mapJobActionFailure` tabulates it. */
  const STATUS_BY_CODE: map<string, int> := map[
    "INVALID_REQUEST" := 400,
    "UNAUTHORIZED" := 401,
    "FORBIDDEN" := 403,
    "NOT_FOUND" := 404,
    "REQUEST_TIMEOUT" := 408,
    "CONFLICT" := 409,
    "UNPROCESSABLE_ENTITY" := 422,
    "SERVICE_UNAVAILABLE" := 503,
    "UPSTREAM_ERROR" := 502,
    "INTERNAL_ERROR" := 500]

  /** `mapJobActionFailure`: a known code keeps its tabulated status; an unknown one becomes INTERNAL_ERROR/500. */
  function MapJobActionFailure(code: string, message: string): (r: AppError)
    ensures r.code in STATUS_BY_CODE && r.status == STATUS_BY_CODE[r.code]
    ensures r.message == message && r.details.None?
    ensures code in STATUS_BY_CODE ==> r.code == code
    ensures code !in STATUS_BY_CODE ==> r.code == INTERNAL_ERROR && r.status == 500
  {
    var c := if code in STATUS_BY_CODE then code else INTERNAL_ERROR;
    AppError(STATUS_BY_CODE[c], c, message, None)
  }

  /**
    * Mapping an AppError into a per-job result and back restores it (without
    * details) whenever its status is the one tabulated for its code.
    */
  lemma ErrorMappingRoundTrip(e: AppError)
    requires e.code in STATUS_BY_CODE && e.status == STATUS_BY_CODE[e.code]
    ensures var info := MapErrorForResult(App(e));
      MapJobActionFailure(info.code, info.message) == e.(details := None)
  {
  }

  // ---------------------------------------------------------------- one job's action

  datatype Action = Skip | Rescore | MoveToReady

  /** The job row fields the action reads. */
  datatype JobRow = JobRow(id: string, status: string)

  /** What processJob (or simulateProcessJob in demo mode) reports. */
  datatype ProcessResult = ProcessResult(success: bool, error: Option<string>)

  /**
    * What the repository and services answer during one job's action; each
    * call returns or throws. `updateJob` is the one update the action makes
    * (status "skipped" for skip, the new score for rescore).
    */
  datatype Services = Services(
    getJob: Result<Option<JobRow>, Thrown>,
    updateJob: Result<Option<JobRow>, Thrown>,
    process: Result<ProcessResult, Thrown>,
    reloadJob: Result<Option<JobRow>, Thrown>,
    demo: bool,
    simulateRescore: Result<JobRow, Thrown>,
    profile: Result<Json, Thrown>,
    score: Result<(int, string), Thrown>)

  /** A per-job result: the updated job, or the error's code and message. */
  datatype ActionResult =
    | Succeeded(jobId: string, job: JobRow)
    | Failed(jobId: string, code: string, message: string)

  /** The statuses skip accepts. */
  const SKIPPABLE_STATUSES: set<string> := {"discovered", "ready"}

  /** The status gate of each action. */
  predicate Allowed(action: Action, status: string)
  {
    match action
    case Skip => status in SKIPPABLE_STATUSES
    case MoveToReady => status == "discovered"
    case Rescore => status != "processing"
  }

  /** The gate refusal each action raises. */
  function GateError(action: Action, status: string): Thrown
  {
    match action
    case Skip => BadRequest("Job is not skippable from status \"" + status + "\"")
    case MoveToReady => BadRequest("Job is not movable to Ready from status \"" + status + "\"")
    case Rescore => BadRequest("Job is not rescorable from status \"" + status + "\"")
  }

  /** The catch block: any thrown error becomes a failed result. */
  function FailWith(jobId: string, thrown: Thrown): ActionResult
  {
    var mapped := MapErrorForResult(thrown);
    Failed(jobId, mapped.code, mapped.message)
  }

  /** An update that found no row is "Job not found". */
  function UpdatedOrNotFound(jobId: string, updated: Result<Option<JobRow>, Thrown>, message: string): ActionResult
  {
    match updated
    case Failure(t) => FailWith(jobId, t)
    case Success(None) => FailWith(jobId, NotFound(message))
    case Success(Some(job)) => Succeeded(jobId, job)
  }

  /** `executeJobActionForJob`: every outcome, thrown errors included, is a result. */
  function ExecuteJobAction(action: Action, jobId: string, s: Services): ActionResult
  {
    match s.getJob
    case Failure(t) => FailWith(jobId, t)
    case Success(None) => FailWith(jobId, NotFound("Job not found"))
    case Success(Some(job)) =>
      if !Allowed(action, job.status) then FailWith(jobId, GateError(action, job.status))
      else
        match action
        case Skip => UpdatedOrNotFound(jobId, s.updateJob, "Job not found")
        case MoveToReady =>
          (match s.process
           case Failure(t) => FailWith(jobId, t)
           case Success(p) =>
             if !p.success then
               var text := if p.error.None? || p.error.value == "" then "Failed to process job" else p.error.value;
               FailWith(jobId, App(AppError(500, INTERNAL_ERROR, text, None)))
             else UpdatedOrNotFound(jobId, s.reloadJob, "Job not found after processing"))
        case Rescore =>
          if s.demo then
            (match s.simulateRescore
             case Failure(t) => FailWith(jobId, t)
             case Success(j) => Succeeded(jobId, j))
          else
            match s.profile
            case Failure(t) => FailWith(jobId, t)
            case Success(profile) =>
              if !profile.Obj? then FailWith(jobId, BadRequest("Invalid resume profile format"))
              else if s.score.Failure? then FailWith(jobId, s.score.error)
              else UpdatedOrNotFound(jobId, s.updateJob, "Job not found")
  }

  /**
    * The result is always for the requested job; it succeeds only for an
    * existing job whose status passes the action's gate; a missing job is
    * NOT_FOUND, and a refused gate is INVALID_REQUEST naming the status.
    */
  lemma ExecuteJobActionSpec(action: Action, jobId: string, s: Services)
    ensures ExecuteJobAction(action, jobId, s).jobId == jobId
    ensures ExecuteJobAction(action, jobId, s).Succeeded? ==>
      s.getJob.Success? && s.getJob.value.Some? && Allowed(action, s.getJob.value.value.status)
    ensures s.getJob == Success(None) ==> ExecuteJobAction(action, jobId, s) == Failed(jobId, "NOT_FOUND", "Job not found")
    ensures s.getJob.Success? && s.getJob.value.Some? && !Allowed(action, s.getJob.value.value.status) ==>
      ExecuteJobAction(action, jobId, s) == Failed(jobId, "INVALID_REQUEST", GateError(action, s.getJob.value.value.status).error.message)
  {
  }

  /** The server's gates agree with the client's checks on a single job. */
  lemma GatesMatchClient(status: string)
    ensures Allowed(Skip, status) <==> JobActions.CanSkip([status])
    ensures Allowed(MoveToReady, status) <==> JobActions.CanMoveToReady([status])
    ensures Allowed(Rescore, status) <==> JobActions.CanRescore([status])
  {
    JobActions.ActionChecksSingle(status);
  }

  // ---------------------------------------------------------------- bulk actions

  /** `Array.from(new Set(ids))`: the first occurrence of each id, in order. */
  function Unique(ids: seq<string>): seq<string>
  {
    if ids == [] then []
    else
      var u := Unique(ids[..|ids| - 1]);
      if ids[|ids| - 1] in u then u else u + [ids[|ids| - 1]]
  }

  /** The deduplicated ids are distinct, cover exactly the requested ids, and are no more. */
  lemma {:induction false} UniqueSpec(ids: seq<string>)
    ensures forall x :: x in Unique(ids) <==> x in ids
    ensures forall i, j :: 0 <= i < j < |Unique(ids)| ==> Unique(ids)[i] != Unique(ids)[j]
    ensures |Unique(ids)| <= |ids|
    decreases |ids|
  {
    if ids != [] {
      var init := ids[..|ids| - 1];
      UniqueSpec(init);
      assert ids == init + [ids[|ids| - 1]];
    }
  }

  const MAX_JOB_IDS := 100

  /** The request schema: 1 to 100 ids, none empty. */
  predicate ValidJobIds(jobIds: seq<string>)
  {
    1 <= |jobIds| <= MAX_JOB_IDS && forall k :: 0 <= k < |jobIds| ==> |jobIds[k]| >= 1
  }

  datatype ActionResponse = ActionResponse(
    action: Action,
    requested: nat,
    succeeded: nat,
    failed: nat,
    results: seq<ActionResult>)

  /** How many results succeeded. */
  function CountSucceeded(results: seq<ActionResult>): (r: nat)
    ensures r <= |results|
  {
    if results == [] then 0
    else CountSucceeded(results[..|results| - 1]) + if results[|results| - 1].Succeeded? then 1 else 0
  }

  /** The per-job results, in id order; `services` gives what the world answers for each job. */
  function RunActions(action: Action, ids: seq<string>, services: string -> Services): (r: seq<ActionResult>)
    ensures |r| == |ids|
  {
    seq(|ids|, i requires 0 <= i < |ids| => ExecuteJobAction(action, ids[i], services(ids[i])))
  }

  /** `POST /api/jobs/actions`. */
  function BulkAction(action: Action, jobIds: seq<string>, services: string -> Services): Result<ActionResponse, AppError>
  {
    if !ValidJobIds(jobIds) then Failure(AppError(400, "INVALID_REQUEST", "Invalid job action request", None))
    else
      var ids := Unique(jobIds);
      var results := RunActions(action, ids, services);
      var succeeded := CountSucceeded(results);
      Success(ActionResponse(action, |ids|, succeeded, |results| - succeeded, results))
  }

  /**
    * A valid request gets one result per distinct id, each for that id;
    * succeeded + failed = results = requested, between 1 and 100.
    */
  lemma BulkActionSpec(action: Action, jobIds: seq<string>, services: string -> Services)
    ensures BulkAction(action, jobIds, services).Success? <==> ValidJobIds(jobIds)
    ensures BulkAction(action, jobIds, services).Success? ==>
      var r := BulkAction(action, jobIds, services).value;
      r.succeeded + r.failed == |r.results| == r.requested &&
      1 <= r.requested <= MAX_JOB_IDS &&
      (forall k :: 0 <= k < |r.results| ==> r.results[k].jobId in jobIds) &&
      (forall i, j :: 0 <= i < j < |r.results| ==> r.results[i].jobId != r.results[j].jobId) &&
      (forall id :: id in jobIds ==> exists k :: 0 <= k < |r.results| && r.results[k].jobId == id)
  {
    if ValidJobIds(jobIds) {
      var ids := Unique(jobIds);
      UniqueSpec(jobIds);
      assert jobIds[0] in ids;
      var results := RunActions(action, ids, services);
      forall k | 0 <= k < |results| ensures results[k].jobId == ids[k] {
        ExecuteJobActionSpec(action, ids[k], services(ids[k]));
      }
      forall id | id in jobIds ensures exists k :: 0 <= k < |results| && results[k].jobId == id {
        var k :| 0 <= k < |ids| && ids[k] == id;
        assert results[k].jobId == id;
      }
    }
  }

  /**
    * `POST /api/jobs/actions/stream` after the "started" event: the first
    * `started` ids (those begun while the client was connected) run in order,
    * pushing each result and counting successes and failures.
    */
  method StreamActions(action: Action, ids: seq<string>, services: string -> Services, started: nat)
    returns (results: seq<ActionResult>, succeeded: nat, failed: nat)
    ensures |results| == if started < |ids| then started else |ids|
    ensures results == RunActions(action, ids[..|results|], services)
    ensures succeeded == CountSucceeded(results) && succeeded + failed == |results|
  {
    var n := if started < |ids| then started else |ids|;
    results, succeeded, failed := [], 0, 0;
    for k := 0 to n
      invariant results == RunActions(action, ids[..k], services)
      invariant succeeded == CountSucceeded(results) && succeeded + failed == k
    {
      var result := ExecuteJobAction(action, ids[k], services(ids[k]));
      assert RunActions(action, ids[..k + 1], services) == RunActions(action, ids[..k], services) + [result];
      results := results + [result];
      assert results[..|results| - 1] == RunActions(action, ids[..k], services);
      if result.Succeeded? {
        succeeded := succeeded + 1;
      } else {
        failed := failed + 1;
      }
    }
  }

  /** A stream that runs to completion reports what the plain bulk action reports. */
  lemma StreamMatchesBulk(action: Action, jobIds: seq<string>, services: string -> Services)
    requires ValidJobIds(jobIds)
    ensures var ids := Unique(jobIds);
      var r := BulkAction(action, jobIds, services).value;
      r.results == RunActions(action, ids[..|ids|], services) && r.succeeded == CountSucceeded(r.results)
  {
    var ids := Unique(jobIds);
    assert ids[..|ids|] == ids;
  }

  // ---------------------------------------------------------------- request origin

  /** `header?.split(",")[0]?.trim() ?? ""`. */
  function FirstForwarded(header: Option<string>): string
  {
    if header.None? then "" else Trim(Split(header.value, {','})[0])
  }

  /** Only the first comma-separated element of a forwarded header counts. */
  lemma FirstForwardedSpec(first: string, rest: string)
    requires NoneIn(first, {','})
    ensures FirstForwarded(Some(first + "," + rest)) == Trim(first)
  {
    SplitAppend(first, ',', rest, {','});
    assert FirstIndexIn(first, {','}) == -1;
  }

  /** The origin from a configured base URL: kept when it parses with a protocol and a host. */
  function ConfiguredOrigin(configured: Option<string>, parseUrl: string -> Option<(string, string)>): Option<string>
  {
    if configured.None? then None
    else
      var base := Trim(configured.value);
      if base == "" || parseUrl(base).None? then None
      else
        var (protocol, host) := parseUrl(base).value;
        if protocol != "" && host != "" then Some(protocol + "//" + host) else None
  }

  /** A non-empty candidate wins over the fallback. */
  function Prefer(candidate: string, fallback: string): string
  {
    if candidate != "" then candidate else fallback
  }

  /** `${protocol}://${host}`, or null when either is empty. */
  function OriginOf(protocol: string, host: string): Option<string>
  {
    if host == "" || protocol == "" then None else Some(protocol + "://" + host)
  }

  /**
    * `resolveRequestOrigin`: a usable configured base URL wins; otherwise the
    * request's protocol and host, each replaced by the first forwarded value
    * only when proxies are trusted and that value is non-empty.
    */
  method ResolveRequestOrigin(configured: Option<string>, parseUrl: string -> Option<(string, string)>, trustProxy: bool,
                              reqProtocol: Option<string>, hostHeader: Option<string>,
                              forwardedProto: Option<string>, forwardedHost: Option<string>)
    returns (r: Option<string>)
    ensures ConfiguredOrigin(configured, parseUrl).Some? ==> r == ConfiguredOrigin(configured, parseUrl)
    ensures ConfiguredOrigin(configured, parseUrl).None? && !trustProxy ==>
      r == OriginOf(Trim(reqProtocol.GetOr("")), Trim(hostHeader.GetOr("")))
    ensures ConfiguredOrigin(configured, parseUrl).None? && trustProxy ==>
      r == OriginOf(Prefer(FirstForwarded(forwardedProto), Trim(reqProtocol.GetOr(""))),
                    Prefer(FirstForwarded(forwardedHost), Trim(hostHeader.GetOr(""))))
  {
    var fromConfig := ConfiguredOrigin(configured, parseUrl);
    if fromConfig.Some? {
      return fromConfig;
    }
    var protocol := Trim(reqProtocol.GetOr(""));
    var host := Trim(hostHeader.GetOr(""));
    if trustProxy {
      var proto := FirstForwarded(forwardedProto);
      var fHost := FirstForwarded(forwardedHost);
      if proto != "" {
        protocol := proto;
      }
      if fHost != "" {
        host := fHost;
      }
    }
    if host == "" || protocol == "" {
      return None;
    }
    r := Some(protocol + "://" + host);
  }

  /** Without a configured URL the origin is null exactly when the chosen protocol or host is empty. */
  lemma OriginNullWhenEmpty(protocol: string, host: string)
    ensures OriginOf(protocol, host).None? <==> protocol == "" || host == ""
    ensures OriginOf(protocol, host).Some? ==> OriginOf(protocol, host).value[..|protocol|] == protocol
  {
  }

  // ---------------------------------------------------------------- threshold and close-out

  /** `DELETE /api/jobs/score/:threshold`: the threshold, or the 400 error. */
  function ClearThreshold(param: string): Result<int, AppError>
  {
    var t := ParseInt(param);
    if t.None? || t.value < 0 || t.value > 100 then
      Failure(AppError(400, "INVALID_REQUEST", "Threshold must be a number between 0 and 100", None))
    else Success(t.value)
  }

  /** The threshold is accepted exactly when `parseInt` gives a number in [0, 100], and is that number. */
  lemma ClearThresholdSpec(param: string)
    ensures ClearThreshold(param).Success? <==> ParseInt(param).Some? && 0 <= ParseInt(param).value <= 100
    ensures ClearThreshold(param).Success? ==> ClearThreshold(param).value == ParseInt(param).value
    ensures ClearThreshold(param).Failure? ==> ClearThreshold(param).error.status == 400
  {
  }

  /** A printed threshold in range is accepted as that number, whatever non-digit text follows it. */
  lemma ClearThresholdPrinted(n: int, tail: string)
    requires 0 <= n <= 100
    requires tail == [] || !IsDigit(tail[0])
    ensures ClearThreshold(IntToString(n) + tail) == Success(n)
  {
    ParseIntOfString(n, tail);
  }

  /**
    * `closedAt` for `PATCH /api/jobs/:id/outcome`: null without an outcome,
    * otherwise the given value, or now in whole seconds.
    */
  function CloseOutClosedAt(outcome: Option<string>, closedAt: Option<int>, nowMs: int): (r: Option<int>)
    ensures outcome.None? ==> r.None?
    ensures outcome.Some? && outcome.value != "" && closedAt.Some? ==> r == closedAt
    ensures outcome.Some? && outcome.value != "" && closedAt.None? ==>
      r.Some? && r.value * 1000 <= nowMs < r.value * 1000 + 1000
  {
    if outcome.Some? && outcome.value != "" then Some(if closedAt.Some? then closedAt.value else nowMs / 1000)
    else None
  }

  // ---------------------------------------------------------------- tailoredSkills

  const TAILORED_SKILLS_ISSUE := "tailoredSkills must be a JSON array of { name, keywords } objects"

  /** One element of the tailoredSkills payload schema: an object with a string name and a string array of keywords. */
  predicate IsSkillGroup(v: Json)
  {
    Field(v, "name").Str? && Field(v, "keywords").Arr? &&
    forall k :: 0 <= k < |Field(v, "keywords").items| ==> Field(v, "keywords").items[k].Str?
  }

  /** The tailoredSkills refinement: the issue it raises, if any; `parse` is JSON.parse, None when it throws. */
  function TailoredSkillsIssue(value: Option<string>, parse: string -> Option<Json>): Option<string>
  {
    if value.None? || Trim(value.value) == "" then None
    else
      var parsed := parse(value.value);
      if parsed.None? then Some(TAILORED_SKILLS_ISSUE)
      else if parsed.value.Arr? && forall k :: 0 <= k < |parsed.value.items| ==> IsSkillGroup(parsed.value.items[k]) then None
      else Some(TAILORED_SKILLS_ISSUE)
  }

  /**
    * Blank or missing passes; otherwise the value passes exactly when it
    * parses to an array of skill groups, so a single group object is
    * refused.
    */
  lemma TailoredSkillsIssueSpec(value: Option<string>, parse: string -> Option<Json>)
    ensures TailoredSkillsIssue(value, parse).Some? ==> TailoredSkillsIssue(value, parse).value == TAILORED_SKILLS_ISSUE
    ensures value.Some? && Trim(value.value) != "" ==>
      (TailoredSkillsIssue(value, parse).None? <==>
         parse(value.value).Some? && parse(value.value).value.Arr? &&
         forall v :: v in parse(value.value).value.items ==> IsSkillGroup(v))
    ensures value.Some? && Trim(value.value) != "" && parse(value.value).Some? && parse(value.value).value.Obj? ==>
      TailoredSkillsIssue(value, parse).Some?
  {
  }
}
