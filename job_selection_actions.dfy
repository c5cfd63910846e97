// orchestrator/src/client/pages/orchestrator/useJobSelectionActions.tsx:
// the selection of jobs on the orchestrator page and the streamed bulk job
// action run on it. React state becomes the fields of `JobSelection`; each
// effect, callback and state updater becomes one of its methods.
module JobSelectionActions {
  import opened Wrappers
  import opened Text
  import opened JobActions
  import opened Selection

  /** The most jobs one action (and one select-all) may take. */
  const MAX_JOB_ACTION_JOB_IDS: nat := 100

  datatype JobAction = MoveToReady | Skip | Rescore

  /** `jobActionLabel`: the title of the progress toast. */
  function ActionLabel(action: JobAction): string
  {
    match action
    case MoveToReady => "Moving jobs to Ready..."
    case Skip => "Skipping selected jobs..."
    case Rescore => "Calculating match scores..."
  }

  /** `jobActionSuccessLabel`: the tail of the success toast. */
  function SuccessLabel(action: JobAction): string
  {
    match action
    case MoveToReady => "jobs moved to Ready"
    case Skip => "jobs skipped"
    case Rescore => "matches recalculated"
  }

  /** The counters a stream event carries. */
  datatype Progress = Progress(requested: int, completed: int, succeeded: int, failed: int)

  datatype JobActionResponse = JobActionResponse(action: JobAction, requested: int, succeeded: int, failed: int, results: seq<ActionResult>)

  /** The events of the job action stream; anything not error/started/progress completes it. */
  datatype StreamEvent =
    | ErrorEvent(message: string)
    | Started(progress: Progress)
    | ProgressEvent(progress: Progress)
    | Completed(progress: Progress, action: JobAction, results: seq<ActionResult>)

  /** `clampNumber(value, min, max)`: `value` brought into `[min, max]`. */
  function ClampNumber(value: int, lo: int, hi: int): (r: int)
    requires lo <= hi
    ensures lo <= r <= hi
    ensures lo <= value <= hi ==> r == value
    ensures value < lo ==> r == lo
    ensures value > hi ==> r == hi
  {
    if value < lo then lo else if value > hi then hi else value
  }

  /**
    * The two numbers of the progress title: at least one job requested, and
    * a completed count between zero and that; both as reported when they
    * already make sense.
    */
  function SafeCounts(p: Progress): (r: (nat, nat))
    ensures r.0 >= 1 && r.1 <= r.0
    ensures p.requested >= 1 ==> r.0 == p.requested
    ensures 0 <= p.completed <= r.0 ==> r.1 == p.completed
  {
    var safeRequested := if p.requested > 1 then p.requested else 1;
    (safeRequested, ClampNumber(p.completed, 0, safeRequested))
  }

  /** `getProgressTitle`: "completed/requested label". */
  function ProgressTitle(p: Progress, action: JobAction): string
  {
    var (safeRequested, safeCompleted) := SafeCounts(p);
    NatToString(safeCompleted) + "/" + NatToString(safeRequested) + " " + ActionLabel(action)
  }

  /** The title always reads "c/r label" with `1 <= r` and `c <= r`. */
  lemma ProgressTitleShape(p: Progress, action: JobAction)
    ensures exists c: nat, r: nat ::
              (1 <= r && c <= r && ProgressTitle(p, action) == NatToString(c) + "/" + NatToString(r) + " " + ActionLabel(action))
  {
    var counts := SafeCounts(p);
    assert ProgressTitle(p, action) == NatToString(counts.1) + "/" + NatToString(counts.0) + " " + ActionLabel(action);
  }

  /** The message an error event leaves. */
  function ErrorText(message: string): (r: string)
    ensures r != []
    ensures message != [] ==> r == message
  {
    if message != [] then message else "Failed to run job action"
  }

  /** The stream error after `events`: the message of the last error event. */
  function StreamError(events: seq<StreamEvent>): Option<string>
  {
    if events == [] then None
    else
      var e := events[|events| - 1];
      if e.ErrorEvent? then Some(ErrorText(e.message)) else StreamError(events[..|events| - 1])
  }

  /** The final result after `events`: built from the last completion event. */
  function FinalResult(events: seq<StreamEvent>): Option<JobActionResponse>
  {
    if events == [] then None
    else
      var e := events[|events| - 1];
      if e.Completed? then Some(ResponseOf(e)) else FinalResult(events[..|events| - 1])
  }

  function ResponseOf(e: StreamEvent): JobActionResponse
    requires e.Completed?
  {
    JobActionResponse(e.action, e.progress.requested, e.progress.succeeded, e.progress.failed, e.results)
  }

  /** The latest progress after `events`: that of the last non-error event, else `initial`. */
  function LatestProgress(events: seq<StreamEvent>, initial: Progress): Progress
  {
    if events == [] then initial
    else
      var e := events[|events| - 1];
      if e.ErrorEvent? then LatestProgress(events[..|events| - 1], initial) else e.progress
  }

  /**
    * The stream error is set exactly when an error event arrived, and it is
    * the message of the last one.
    */
  lemma {:induction false} StreamErrorLast(events: seq<StreamEvent>)
    ensures StreamError(events).None? <==> forall k :: 0 <= k < |events| ==> !events[k].ErrorEvent?
    ensures StreamError(events).Some? ==>
      exists k :: 0 <= k < |events| && events[k].ErrorEvent? && StreamError(events).value == ErrorText(events[k].message) &&
        forall j :: k < j < |events| ==> !events[j].ErrorEvent?
    decreases |events|
  {
    if events != [] {
      var init := events[..|events| - 1];
      StreamErrorLast(init);
      assert forall k :: 0 <= k < |init| ==> init[k] == events[k];
    }
  }

  /**
    * The final result is set exactly when a completion event arrived, and it
    * is built from the last one.
    */
  lemma {:induction false} FinalResultLast(events: seq<StreamEvent>)
    ensures FinalResult(events).None? <==> forall k :: 0 <= k < |events| ==> !events[k].Completed?
    ensures FinalResult(events).Some? ==>
      exists k :: 0 <= k < |events| && events[k].Completed? && FinalResult(events).value == ResponseOf(events[k]) &&
        forall j :: k < j < |events| ==> !events[j].Completed?
    decreases |events|
  {
    if events != [] {
      var init := events[..|events| - 1];
      FinalResultLast(init);
      assert forall k :: 0 <= k < |init| ==> init[k] == events[k];
    }
  }

  /**
    * The `onEvent` handler over the whole stream: error events set the
    * error, every other event replaces the progress, and a completion event
    * also sets the final result.
    */
  method ConsumeStream(events: seq<StreamEvent>, requested: nat)
    returns (streamError: Option<string>, finalResult: Option<JobActionResponse>, latestProgress: Progress)
    ensures streamError == StreamError(events)
    ensures finalResult == FinalResult(events)
    ensures latestProgress == LatestProgress(events, Progress(requested, 0, 0, 0))
  {
    streamError := None;
    finalResult := None;
    latestProgress := Progress(requested, 0, 0, 0);
    var i := 0;
    while i < |events|
      invariant 0 <= i <= |events|
      invariant streamError == StreamError(events[..i])
      invariant finalResult == FinalResult(events[..i])
      invariant latestProgress == LatestProgress(events[..i], Progress(requested, 0, 0, 0))
    {
      var event := events[i];
      assert events[..i + 1][..i] == events[..i];
      match event {
        case ErrorEvent(message) =>
          streamError := Some(ErrorText(message));
        case Started(p) =>
          latestProgress := p;
        case ProgressEvent(p) =>
          latestProgress := p;
        case Completed(p, action, results) =>
          latestProgress := p;
          finalResult := Some(JobActionResponse(action, p.requested, p.succeeded, p.failed, results));
      }
      i := i + 1;
    }
    assert events[..i] == events;
  }

  /** What the action ends with once the stream closes: the result, or the error thrown. */
  function StreamOutcome(events: seq<StreamEvent>): Result<JobActionResponse, string>
  {
    match StreamError(events)
    case Some(message) => Failure(message)
    case None =>
      match FinalResult(events)
      case None => Failure("Job action stream ended before completion")
      case Some(result) => Success(result)
  }

  /**
    * The action succeeds exactly when no error event arrived and a
    * completion event did; a stream with neither ends in the "ended before
    * completion" error.
    */
  lemma StreamOutcomeProps(events: seq<StreamEvent>)
    ensures StreamOutcome(events).Success? <==>
      (forall k :: 0 <= k < |events| ==> !events[k].ErrorEvent?) && (exists k :: 0 <= k < |events| && events[k].Completed?)
    ensures (forall k :: 0 <= k < |events| ==> !events[k].ErrorEvent? && !events[k].Completed?) ==>
      StreamOutcome(events) == Failure("Job action stream ended before completion")
  {
    StreamErrorLast(events);
    FinalResultLast(events);
  }

  /** The hook's state: the selected ids, the action in flight, and the last tab seen. */
  class JobSelection {
    var selectedJobIds: set<string>
    var jobActionInFlight: Option<JobAction>
    var previousActiveTab: string

    constructor (activeTab: string)
      ensures selectedJobIds == {} && jobActionInFlight == None && previousActiveTab == activeTab
    {
      selectedJobIds := {};
      jobActionInFlight := None;
      previousActiveTab := activeTab;
    }

    /** Which actions the selected active jobs allow. */
    function Allowed(activeJobs: seq<ListedJob>): (bool, bool, bool)
      reads this
    {
      var statuses := Statuses(SelectedJobs(activeJobs, selectedJobIds));
      (CanSkip(statuses), CanMoveToReady(statuses), CanRescore(statuses))
    }

    /** The tab effect: a new tab clears the selection; the same tab changes nothing. */
    method OnActiveTabChange(activeTab: string)
      modifies this
      ensures previousActiveTab == activeTab
      ensures old(previousActiveTab) == activeTab ==> selectedJobIds == old(selectedJobIds)
      ensures old(previousActiveTab) != activeTab ==> selectedJobIds == {}
      ensures jobActionInFlight == old(jobActionInFlight)
    {
      if previousActiveTab == activeTab {
        return;
      }
      previousActiveTab := activeTab;
      selectedJobIds := {};
    }

    /** The active-jobs effect: drop selected ids no longer listed. */
    method OnActiveJobsChange(activeJobs: seq<ListedJob>)
      modifies this
      ensures selectedJobIds == old(selectedJobIds) * Elements(Ids(activeJobs))
      ensures previousActiveTab == old(previousActiveTab) && jobActionInFlight == old(jobActionInFlight)
    {
      selectedJobIds := Pruned(selectedJobIds, Elements(Ids(activeJobs)));
    }

    method ToggleSelectJob(jobId: string)
      modifies this
      ensures selectedJobIds == Toggle(old(selectedJobIds), jobId)
      ensures previousActiveTab == old(previousActiveTab) && jobActionInFlight == old(jobActionInFlight)
    {
      selectedJobIds := Toggle(selectedJobIds, jobId);
    }

    /** Select all active jobs, at most the first 100 of them; or none when unchecked. */
    method ToggleSelectAll(checked: bool, activeJobs: seq<ListedJob>)
      modifies this
      ensures selectedJobIds == SelectAllCapped(checked, Ids(activeJobs), MAX_JOB_ACTION_JOB_IDS)
      ensures |selectedJobIds| <= MAX_JOB_ACTION_JOB_IDS
      ensures previousActiveTab == old(previousActiveTab) && jobActionInFlight == old(jobActionInFlight)
    {
      selectedJobIds := SelectAllCapped(checked, Ids(activeJobs), MAX_JOB_ACTION_JOB_IDS);
    }

    method ClearSelection()
      modifies this
      ensures selectedJobIds == {}
      ensures previousActiveTab == old(previousActiveTab) && jobActionInFlight == old(jobActionInFlight)
    {
      selectedJobIds := {};
    }

    /**
      * The start of `runJobAction`: nothing happens for an empty selection
      * or one over 100 ids; otherwise the action is in flight and the
      * selection at the start is returned.
      */
    method StartJobAction(action: JobAction) returns (selectedAtStart: Option<set<string>>)
      modifies this
      ensures selectedJobIds == old(selectedJobIds) && previousActiveTab == old(previousActiveTab)
      ensures selectedAtStart.None? <==> |selectedJobIds| == 0 || |selectedJobIds| > MAX_JOB_ACTION_JOB_IDS
      ensures selectedAtStart.None? ==> jobActionInFlight == old(jobActionInFlight)
      ensures selectedAtStart.Some? ==> selectedAtStart.value == selectedJobIds && jobActionInFlight == Some(action)
    {
      if |selectedJobIds| == 0 {
        return None;
      }
      if |selectedJobIds| > MAX_JOB_ACTION_JOB_IDS {
        return None;
      }
      jobActionInFlight := Some(action);
      return Some(selectedJobIds);
    }

    /**
      * The end of `runJobAction` once the stream has closed: on success the
      * selection keeps the failed ids plus the user's own changes made
      * during the request; on failure it is left alone. Either way no
      * action is in flight afterwards.
      */
    method FinishJobAction(selectedAtStart: set<string>, events: seq<StreamEvent>)
      returns (outcome: Result<JobActionResponse, string>)
      modifies this
      ensures outcome == StreamOutcome(events)
      ensures outcome.Success? ==>
        selectedJobIds == Reconciled(selectedAtStart, old(selectedJobIds), FailedJobIds(outcome.value.results))
      ensures outcome.Failure? ==> selectedJobIds == old(selectedJobIds)
      ensures jobActionInFlight == None && previousActiveTab == old(previousActiveTab)
    {
      var streamError, finalResult, _ := ConsumeStream(events, |selectedAtStart|);
      if streamError.Some? {
        outcome := Failure(streamError.value);
      } else if finalResult.None? {
        outcome := Failure("Job action stream ended before completion");
      } else {
        var result := finalResult.value;
        var failedIds := FailedJobIds(result.results);
        selectedJobIds := ReconcileSelection(selectedAtStart, selectedJobIds, failedIds);
        outcome := Success(result);
      }
      jobActionInFlight := None;
    }
  }
}
