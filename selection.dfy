// The selection of job ids shared by the job-list hooks
// (orchestrator/src/client/pages/orchestrator/useJobSelectionActions.tsx,
// useBulkJobSelection.tsx and useBulkJobSelection.ts): a Set of ids that
// the user toggles, fills from the active jobs, prunes to the active jobs,
// and reconciles with the outcome of an action.
module Selection {
  import Seqs

  /** The part of a listed job the selection hooks look at. */
  datatype ListedJob = ListedJob(id: string, status: string)

  /** The `selectedJobs` memo: the active jobs whose id is selected, in list order. */
  function SelectedJobs(activeJobs: seq<ListedJob>, selected: set<string>): (r: seq<ListedJob>)
    ensures forall j :: j in r <==> j in activeJobs && j.id in selected
    ensures Seqs.IsSubseq(r, activeJobs)
  {
    Seqs.FilterSubseq(activeJobs, (j: ListedJob) => j.id in selected);
    Seqs.Filter(activeJobs, (j: ListedJob) => j.id in selected)
  }

  /** The statuses of a list of jobs, in order. */
  function Statuses(jobs: seq<ListedJob>): (r: seq<string>)
    ensures |r| == |jobs| && forall k :: 0 <= k < |jobs| ==> r[k] == jobs[k].status
  {
    seq(|jobs|, k requires 0 <= k < |jobs| => jobs[k].status)
  }

  /** The active job ids (`activeJobs.map((job) => job.id)`). */
  function Ids(jobs: seq<ListedJob>): (r: seq<string>)
    ensures |r| == |jobs| && forall k :: 0 <= k < |jobs| ==> r[k] == jobs[k].id
  {
    seq(|jobs|, k requires 0 <= k < |jobs| => jobs[k].id)
  }

  /** `new Set(ids)`. */
  function Elements(ids: seq<string>): (r: set<string>)
    ensures forall x :: x in r <==> x in ids
    ensures |r| <= |ids|
  {
    if ids == [] then {} else Elements(ids[..|ids| - 1]) + {ids[|ids| - 1]}
  }

  /** The toggle updater: drop `id` when selected, add it otherwise. */
  function Toggle(selected: set<string>, id: string): (r: set<string>)
    ensures id in r <==> id !in selected
    ensures forall x :: x != id ==> (x in r <==> x in selected)
  {
    if id in selected then selected - {id} else selected + {id}
  }

  /** Toggling the same id twice restores the selection. */
  lemma ToggleTwice(selected: set<string>, id: string)
    ensures Toggle(Toggle(selected, id), id) == selected
  {
  }

  /** A subset is no larger than its superset. */
  lemma {:induction false} SubsetCard(a: set<string>, b: set<string>)
    requires a <= b
    ensures |a| <= |b|
    decreases |b|
  {
    if a != {} {
      var x :| x in a;
      SubsetCard(a - {x}, b - {x});
    }
  }

  /** A subset as large as its superset is the superset. */
  lemma SubsetSameSize(a: set<string>, b: set<string>)
    requires a <= b && |a| == |b|
    ensures a == b
  {
    if a != b {
      var x :| x in b && x !in a;
      SubsetCard(a, b - {x});
    }
  }

  /**
    * The prune updater: an empty selection is kept as is; otherwise the ids
    * still active, and the old selection itself when none was dropped.
    */
  function Pruned(selected: set<string>, active: set<string>): (r: set<string>)
    ensures r == selected * active
    ensures selected <= active ==> r == selected
  {
    if |selected| == 0 then selected
    else
      var next := set id | id in selected && id in active;
      if |next| == |selected| then (SubsetSameSize(next, selected); selected) else next
  }

  /**
    * The capped select-all updater: nothing when unchecked; every active id
    * when there are at most `cap` of them, else the first `cap`.
    */
  function SelectAllCapped(checked: bool, ids: seq<string>, cap: nat): (r: set<string>)
    ensures !checked ==> r == {}
    ensures checked && |ids| <= cap ==> r == Elements(ids)
    ensures checked && |ids| > cap ==> r == Elements(ids[..cap])
    ensures |r| <= cap && r <= Elements(ids)
  {
    if !checked then {}
    else if |ids| <= cap then Elements(ids)
    else Elements(ids[..cap])
  }

  /** The selection after an action: (failed ∪ added during the request) minus the ids removed during it. */
  function Reconciled(start: set<string>, current: set<string>, failed: set<string>): set<string>
  {
    (failed + (current - start)) - (start - current)
  }

  /**
    * An id selected when the action started stays selected only if it
    * failed and the user kept it; any other id is selected if it failed or
    * the user added it. With no change during the request the selection
    * becomes the failed ids.
    */
  lemma ReconciledProps(start: set<string>, current: set<string>, failed: set<string>)
    ensures forall id :: id in start ==> (id in Reconciled(start, current, failed) <==> id in failed && id in current)
    ensures forall id :: id !in start ==> (id in Reconciled(start, current, failed) <==> id in failed || id in current)
    ensures current == start ==> Reconciled(start, current, failed) == failed
  {
  }

  /**
    * The reconcile updater: the failed ids and the ids added during the
    * request, then each id removed during the request deleted in turn.
    */
  method ReconcileSelection(start: set<string>, current: set<string>, failed: set<string>) returns (next: set<string>)
    ensures next == Reconciled(start, current, failed)
  {
    var addedDuringRequest := set id | id in current && id !in start;
    var removedDuringRequest := set id | id in start && id !in current;
    next := failed + addedDuringRequest;
    var remaining := removedDuringRequest;
    while remaining != {}
      invariant remaining <= removedDuringRequest
      invariant next == (failed + addedDuringRequest) - (removedDuringRequest - remaining)
      decreases |remaining|
    {
      var jobId :| jobId in remaining;
      next := next - {jobId};
      remaining := remaining - {jobId};
    }
    assert removedDuringRequest - remaining == start - current;
    assert addedDuringRequest == current - start;
  }

  /** `Math.max(min, Math.min(max, value))` on reals. */
  function ClampReal(value: real, lo: real, hi: real): (r: real)
    requires lo <= hi
    ensures lo <= r <= hi
    ensures lo <= value <= hi ==> r == value
  {
    if value < lo then lo else if value > hi then hi else value
  }
}
