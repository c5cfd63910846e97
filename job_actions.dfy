// orchestrator/src/client/pages/orchestrator/jobActions.ts: which bulk
// actions the selected jobs allow, and the ids a bulk action failed on.
module JobActions {

  /** `canSkip`: at least one job, and every status is "discovered" or "ready". */
  predicate CanSkip(statuses: seq<string>)
  {
    |statuses| > 0 && forall k :: 0 <= k < |statuses| ==> statuses[k] == "discovered" || statuses[k] == "ready"
  }

  /** `canMoveToReady`: at least one job, all "discovered". */
  predicate CanMoveToReady(statuses: seq<string>)
  {
    |statuses| > 0 && forall k :: 0 <= k < |statuses| ==> statuses[k] == "discovered"
  }

  /** `canRescore`: at least one job, none "processing". */
  predicate CanRescore(statuses: seq<string>)
  {
    |statuses| > 0 && forall k :: 0 <= k < |statuses| ==> statuses[k] != "processing"
  }

  /** The three checks are nested, and all refuse an empty selection. */
  lemma ActionChecksNested(statuses: seq<string>)
    ensures CanMoveToReady(statuses) ==> CanSkip(statuses)
    ensures CanSkip(statuses) ==> CanRescore(statuses)
    ensures statuses == [] ==> !CanSkip(statuses) && !CanMoveToReady(statuses) && !CanRescore(statuses)
  {
  }

  /** One job's status decides each check on its own. */
  lemma ActionChecksSingle(status: string)
    ensures CanSkip([status]) <==> status == "discovered" || status == "ready"
    ensures CanMoveToReady([status]) <==> status == "discovered"
    ensures CanRescore([status]) <==> status != "processing"
  {
    assert [status][0] == status;
  }

  /** Adding a job can only take permissions away. */
  lemma ActionChecksAppend(statuses: seq<string>, status: string)
    requires statuses != []
    ensures CanSkip(statuses + [status]) <==> CanSkip(statuses) && CanSkip([status])
    ensures CanMoveToReady(statuses + [status]) <==> CanMoveToReady(statuses) && CanMoveToReady([status])
    ensures CanRescore(statuses + [status]) <==> CanRescore(statuses) && CanRescore([status])
  {
    var all := statuses + [status];
    assert all[|statuses|] == status;
    assert forall k :: 0 <= k < |statuses| ==> all[k] == statuses[k];
    ActionChecksSingle(status);
  }

  /** One entry of a bulk action's results. */
  datatype ActionResult = ActionResult(jobId: string, ok: bool)

  /** `getFailedJobIds`. */
  function FailedJobIds(results: seq<ActionResult>): (r: set<string>)
    ensures forall id :: id in r <==> exists k :: 0 <= k < |results| && results[k].jobId == id && !results[k].ok
  {
    set k | 0 <= k < |results| && !results[k].ok :: results[k].jobId
  }

  /** The failed set grows with each failed result and ignores successes. */
  lemma FailedJobIdsSnoc(results: seq<ActionResult>, last: ActionResult)
    ensures FailedJobIds(results + [last]) == FailedJobIds(results) + (if last.ok then {} else {last.jobId})
  {
    var all := results + [last];
    assert all[|results|] == last;
    assert forall k :: 0 <= k < |results| ==> all[k] == results[k];
  }
}
