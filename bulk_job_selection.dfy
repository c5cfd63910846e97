// orchestrator/src/client/pages/orchestrator/useBulkJobSelection.tsx: the
// job selection of the orchestrator page with a capped select-all and a
// bulk action whose progress toast follows an estimated curve.
// bulkActions.ts (the eligibility checks and `getFailedJobIds`) is not part
// of this model: the ids an action failed on arrive as a parameter.
module BulkJobSelection {
  import opened Wrappers
  import opened Selection

  const MAX_BULK_ACTION_JOB_IDS: nat := 100
  const BULK_PROGRESS_START: real := 6.0
  const BULK_PROGRESS_MAX_IN_FLIGHT: real := 96.0
  const BULK_PROGRESS_TICK_MS: nat := 200
  const BULK_PROGRESS_TARGET_MS: nat := 10_000

  datatype BulkJobAction = Skip | MoveToReady | Rescore

  /** The success toast's tail: skip, move to Ready, anything else rescoring. */
  function SuccessLabel(action: BulkJobAction): string
  {
    if action == Skip then "jobs skipped"
    else if action == MoveToReady then "jobs moved to Ready"
    else "matches recalculated"
  }

  /** Each action has its own success label, so the toast names the action run. */
  lemma SuccessLabelDecides(a: BulkJobAction, b: BulkJobAction)
    ensures SuccessLabel(a) == SuccessLabel(b) <==> a == b
  {
    if a != b {
      var la, lb := SuccessLabel(a), SuccessLabel(b);
      if la[0] == lb[0] {
        assert la[5] != lb[5];
      }
    }
  }

  /**
    * `getEstimatedBulkProgress`, given `decay = Math.exp(-elapsedMs /
    * BULK_PROGRESS_TARGET_MS)`: the ratio `1 - decay` stretched over
    * [6, 96] and clamped there.
    */
  function EstimatedBulkProgress(decay: real): (r: real)
    ensures BULK_PROGRESS_START <= r <= BULK_PROGRESS_MAX_IN_FLIGHT
    ensures 0.0 <= decay <= 1.0 ==> r == BULK_PROGRESS_START + (1.0 - decay) * (BULK_PROGRESS_MAX_IN_FLIGHT - BULK_PROGRESS_START)
  {
    var ratio := 1.0 - decay;
    ClampReal(BULK_PROGRESS_START + ratio * (BULK_PROGRESS_MAX_IN_FLIGHT - BULK_PROGRESS_START),
              BULK_PROGRESS_START, BULK_PROGRESS_MAX_IN_FLIGHT)
  }

  /**
    * As time passes the decay shrinks, so the estimate never goes back; it
    * starts at 6 and reaches 96 only in the limit.
    */
  lemma EstimateNeverDecreases(earlier: real, later: real)
    requires later <= earlier
    ensures EstimatedBulkProgress(earlier) <= EstimatedBulkProgress(later)
    ensures EstimatedBulkProgress(1.0) == BULK_PROGRESS_START
    ensures 0.0 < later ==> EstimatedBulkProgress(later) < BULK_PROGRESS_MAX_IN_FLIGHT
  {
  }

  /** The hook's state: the selected ids, the action in flight, and the last tab seen. */
  class BulkSelection {
    var selectedJobIds: set<string>
    var bulkActionInFlight: Option<BulkJobAction>
    var previousActiveTab: string

    constructor (activeTab: string)
      ensures selectedJobIds == {} && bulkActionInFlight == None && previousActiveTab == activeTab
    {
      selectedJobIds := {};
      bulkActionInFlight := None;
      previousActiveTab := activeTab;
    }

    /** The tab effect: a new tab clears the selection; the same tab changes nothing. */
    method OnActiveTabChange(activeTab: string)
      modifies this
      ensures previousActiveTab == activeTab
      ensures old(previousActiveTab) == activeTab ==> selectedJobIds == old(selectedJobIds)
      ensures old(previousActiveTab) != activeTab ==> selectedJobIds == {}
      ensures bulkActionInFlight == old(bulkActionInFlight)
    {
      if previousActiveTab == activeTab {
        return;
      }
      previousActiveTab := activeTab;
      selectedJobIds := {};
    }

    /** The active-jobs effect: drop selected ids no longer listed. */
    method OnActiveJobsChange(activeJobs: seq<ListedJob>)
      modifies this
      ensures selectedJobIds == old(selectedJobIds) * Elements(Ids(activeJobs))
      ensures previousActiveTab == old(previousActiveTab) && bulkActionInFlight == old(bulkActionInFlight)
    {
      selectedJobIds := Pruned(selectedJobIds, Elements(Ids(activeJobs)));
    }

    method ToggleSelectJob(jobId: string)
      modifies this
      ensures selectedJobIds == Toggle(old(selectedJobIds), jobId)
      ensures previousActiveTab == old(previousActiveTab) && bulkActionInFlight == old(bulkActionInFlight)
    {
      selectedJobIds := Toggle(selectedJobIds, jobId);
    }

    /** Select all active jobs, at most the first 100 of them; or none when unchecked. */
    method ToggleSelectAll(checked: bool, activeJobs: seq<ListedJob>)
      modifies this
      ensures selectedJobIds == SelectAllCapped(checked, Ids(activeJobs), MAX_BULK_ACTION_JOB_IDS)
      ensures |selectedJobIds| <= MAX_BULK_ACTION_JOB_IDS
      ensures previousActiveTab == old(previousActiveTab) && bulkActionInFlight == old(bulkActionInFlight)
    {
      selectedJobIds := SelectAllCapped(checked, Ids(activeJobs), MAX_BULK_ACTION_JOB_IDS);
    }

    method ClearSelection()
      modifies this
      ensures selectedJobIds == {}
      ensures previousActiveTab == old(previousActiveTab) && bulkActionInFlight == old(bulkActionInFlight)
    {
      selectedJobIds := {};
    }

    /**
      * The start of `runBulkAction`: refused for an empty selection or one
      * over 100 ids; otherwise the action is in flight and the selection at
      * the start is returned.
      */
    method StartBulkAction(action: BulkJobAction) returns (selectedAtStart: Option<set<string>>)
      modifies this
      ensures selectedJobIds == old(selectedJobIds) && previousActiveTab == old(previousActiveTab)
      ensures selectedAtStart.None? <==> |selectedJobIds| == 0 || |selectedJobIds| > MAX_BULK_ACTION_JOB_IDS
      ensures selectedAtStart.None? ==> bulkActionInFlight == old(bulkActionInFlight)
      ensures selectedAtStart.Some? ==> selectedAtStart.value == selectedJobIds && bulkActionInFlight == Some(action)
    {
      if |selectedJobIds| == 0 {
        return None;
      }
      if |selectedJobIds| > MAX_BULK_ACTION_JOB_IDS {
        return None;
      }
      bulkActionInFlight := Some(action);
      return Some(selectedJobIds);
    }

    /**
      * The end of `runBulkAction`: when the request returned, the selection
      * keeps the failed ids plus the user's own changes made during the
      * request; when it threw, the selection is left alone. Either way no
      * action is in flight afterwards.
      */
    method FinishBulkAction(selectedAtStart: set<string>, outcome: Result<set<string>, string>)
      modifies this
      ensures outcome.Success? ==> selectedJobIds == Reconciled(selectedAtStart, old(selectedJobIds), outcome.value)
      ensures outcome.Failure? ==> selectedJobIds == old(selectedJobIds)
      ensures bulkActionInFlight == None && previousActiveTab == old(previousActiveTab)
    {
      if outcome.Success? {
        selectedJobIds := ReconcileSelection(selectedAtStart, selectedJobIds, outcome.value);
      }
      bulkActionInFlight := None;
    }
  }
}
