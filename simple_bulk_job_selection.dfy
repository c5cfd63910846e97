// orchestrator/src/client/pages/orchestrator/useBulkJobSelection.ts: the
// older bulk-selection hook. Select-all is uncapped, any tab change clears
// the selection, a finished action replaces the selection with the failed
// ids, and a hint explains why an action is unavailable. bulkActions.ts is
// not part of this model: its two eligibility checks and the failed ids
// arrive as parameters.
module SimpleBulkJobSelection {
  import opened Wrappers
  import opened Selection

  datatype BulkJobAction = Skip | MoveToReady | Rescore

  const NOT_ELIGIBLE_HINT: string := "Selected jobs are not eligible for bulk actions."
  const MOVE_HINT: string := "Move to Ready only works for discovered jobs."
  const SKIP_HINT: string := "Skip only works for discovered or ready jobs."

  /** The `bulkActionHint` memo. */
  function BulkActionHint(selectedCount: nat, canMove: bool, canSkip: bool): Option<string>
  {
    if selectedCount == 0 then None
    else if !canMove && !canSkip then Some(NOT_ELIGIBLE_HINT)
    else if !canMove then Some(MOVE_HINT)
    else if !canSkip then Some(SKIP_HINT)
    else None
  }

  /**
    * No hint without a selection or when both actions are allowed; otherwise
    * the one message that names what is not allowed.
    */
  lemma BulkActionHintCases(selectedCount: nat, canMove: bool, canSkip: bool)
    ensures BulkActionHint(selectedCount, canMove, canSkip).None? <==> selectedCount == 0 || (canMove && canSkip)
    ensures BulkActionHint(selectedCount, canMove, canSkip) == Some(NOT_ELIGIBLE_HINT) <==> selectedCount > 0 && !canMove && !canSkip
    ensures BulkActionHint(selectedCount, canMove, canSkip) == Some(MOVE_HINT) <==> selectedCount > 0 && !canMove && canSkip
    ensures BulkActionHint(selectedCount, canMove, canSkip) == Some(SKIP_HINT) <==> selectedCount > 0 && canMove && !canSkip
  {
    assert |NOT_ELIGIBLE_HINT| == 48 && |MOVE_HINT| == 45 && |SKIP_HINT| == 45 && MOVE_HINT[38] == 'd' && SKIP_HINT[38] == 'y';
  }

  /** The success toast's tail: skip, and every other action reads as a move to Ready. */
  function SuccessLabel(action: BulkJobAction): (r: string)
    ensures r == "jobs skipped" || r == "jobs moved to Ready"
    ensures action == Skip <==> r == "jobs skipped"
  {
    if action == Skip then "jobs skipped" else (assert "jobs moved to Ready"[5] != "jobs skipped"[5]; "jobs moved to Ready")
  }

  /** The hook's state. */
  class SimpleBulkSelection {
    var selectedJobIds: set<string>
    var bulkActionInFlight: Option<BulkJobAction>

    constructor ()
      ensures selectedJobIds == {} && bulkActionInFlight == None
    {
      selectedJobIds := {};
      bulkActionInFlight := None;
    }

    /** The tab effect: runs on every tab change and always clears. */
    method OnActiveTabChange()
      modifies this
      ensures selectedJobIds == {} && bulkActionInFlight == old(bulkActionInFlight)
    {
      selectedJobIds := {};
    }

    /** The active-jobs effect: drop selected ids no longer listed. */
    method OnActiveJobsChange(activeJobs: seq<ListedJob>)
      modifies this
      ensures selectedJobIds == old(selectedJobIds) * Elements(Ids(activeJobs))
      ensures bulkActionInFlight == old(bulkActionInFlight)
    {
      selectedJobIds := Pruned(selectedJobIds, Elements(Ids(activeJobs)));
    }

    method ToggleSelectJob(jobId: string)
      modifies this
      ensures selectedJobIds == Toggle(old(selectedJobIds), jobId)
      ensures bulkActionInFlight == old(bulkActionInFlight)
    {
      selectedJobIds := Toggle(selectedJobIds, jobId);
    }

    /** Select every active job, with no cap; or none when unchecked. */
    method ToggleSelectAll(checked: bool, activeJobs: seq<ListedJob>)
      modifies this
      ensures checked ==> forall id :: id in selectedJobIds <==> exists k :: 0 <= k < |activeJobs| && activeJobs[k].id == id
      ensures !checked ==> selectedJobIds == {}
      ensures bulkActionInFlight == old(bulkActionInFlight)
    {
      selectedJobIds := if checked then Elements(Ids(activeJobs)) else {};
    }

    method ClearSelection()
      modifies this
      ensures selectedJobIds == {} && bulkActionInFlight == old(bulkActionInFlight)
    {
      selectedJobIds := {};
    }

    /**
      * `runBulkAction` given what the request came back with: nothing
      * happens for an empty selection; otherwise a returned request leaves
      * exactly the failed ids selected, a thrown one leaves the selection,
      * and no action is in flight at the end.
      */
    method RunBulkAction(action: BulkJobAction, outcome: Result<set<string>, string>)
      modifies this
      ensures old(|selectedJobIds|) == 0 ==> selectedJobIds == old(selectedJobIds) && bulkActionInFlight == old(bulkActionInFlight)
      ensures old(|selectedJobIds|) > 0 && outcome.Success? ==> selectedJobIds == outcome.value
      ensures old(|selectedJobIds|) > 0 && outcome.Failure? ==> selectedJobIds == old(selectedJobIds)
      ensures old(|selectedJobIds|) > 0 ==> bulkActionInFlight == None
    {
      if |selectedJobIds| == 0 {
        return;
      }
      bulkActionInFlight := Some(action);
      if outcome.Success? {
        selectedJobIds := outcome.value;
      }
      bulkActionInFlight := None;
    }
  }
}
