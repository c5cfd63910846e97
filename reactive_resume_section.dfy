// orchestrator/src/client/pages/settings/components/ReactiveResumeSection.tsx:
// the handlers of the resume-projects form field. Each copies the locked and
// AI-selectable id lists, pushes or filters, and emits the new record; no
// handler runs while the field has no value. `clampInt` (lib/utils.ts) is not
// part of this model and arrives as a parameter; the lemmas ask of it only
// that it brings a number into a non-empty range and leaves one already
// inside alone.
module ReactiveResumeSection {
  import opened Wrappers
  import opened Seqs

  /** The `resumeProjects` setting the field edits. */
  datatype ResumeProjects = ResumeProjects(
    maxProjects: int,
    lockedProjectIds: seq<string>,
    aiSelectableProjectIds: seq<string>)

  /** A checkbox's `checked` value: only `true` counts as checked. */
  datatype CheckState = Checked | Unchecked | Indeterminate

  /** What the lemmas ask of `clampInt(value, min, max)`. */
  ghost predicate IsClamp(clampInt: (int, int, int) -> int)
  {
    forall value, lo, hi :: lo <= hi ==>
      lo <= clampInt(value, lo, hi) <= hi && (lo <= value <= hi ==> clampInt(value, lo, hi) == value)
  }

  /** No id appears twice. */
  predicate NoDuplicates(ids: seq<string>)
  {
    forall i, j :: 0 <= i < j < |ids| ==> ids[i] != ids[j]
  }

  /** No id is both locked and AI-selectable. */
  predicate Disjoint(v: ResumeProjects)
  {
    forall id :: id in v.lockedProjectIds ==> id !in v.aiSelectableProjectIds
  }

  // ---------------------------------------------------------------- list steps

  /** `if (!ids.includes(id)) ids.push(id)`: the id is there once it was not. */
  function WithId(ids: seq<string>, id: string): (r: seq<string>)
    ensures id in r
    ensures forall x :: x in r <==> x in ids || x == id
    ensures NoDuplicates(ids) ==> NoDuplicates(r)
    ensures id !in ids ==> |r| == |ids| + 1 && r[..|ids|] == ids
    ensures id in ids ==> r == ids
  {
    if id in ids then ids else ids + [id]
  }

  /** `ids.filter((x) => x !== id)`: every copy of the id gone, the rest in order. */
  function WithoutId(ids: seq<string>, id: string): (r: seq<string>)
    ensures id !in r
    ensures forall x :: x in r <==> x in ids && x != id
    ensures IsSubseq(r, ids)
    ensures id !in ids ==> r == ids
  {
    var keep := (x: string) => x != id;
    FilterSubseq(ids, keep);
    if id in ids then Filter(ids, keep)
    else
      FilterAll(ids, keep);
      Filter(ids, keep)
  }

  // ---------------------------------------------------------------- the records emitted

  /** The record the "Must Include" checkbox emits when checked. */
  function Locked(v: ResumeProjects, projectId: string): ResumeProjects
  {
    var lockedIds := WithId(v.lockedProjectIds, projectId);
    v.(lockedProjectIds := lockedIds,
       aiSelectableProjectIds := WithoutId(v.aiSelectableProjectIds, projectId),
       maxProjects := if v.maxProjects >= |lockedIds| then v.maxProjects else |lockedIds|)
  }

  /** The record the "Must Include" checkbox emits when unchecked. */
  function Unlocked(v: ResumeProjects, projectId: string, maxProjectsTotal: int, clampInt: (int, int, int) -> int): ResumeProjects
  {
    var nextLocked := WithoutId(v.lockedProjectIds, projectId);
    v.(lockedProjectIds := nextLocked,
       aiSelectableProjectIds := WithId(v.aiSelectableProjectIds, projectId),
       maxProjects := clampInt(v.maxProjects, |nextLocked|, maxProjectsTotal))
  }

  /** The record the "AI selectable" checkbox emits. */
  function SelectableToggled(v: ResumeProjects, projectId: string, isChecked: bool): ResumeProjects
  {
    v.(aiSelectableProjectIds :=
         if isChecked then WithId(v.aiSelectableProjectIds, projectId)
         else WithoutId(v.aiSelectableProjectIds, projectId))
  }

  /**
    * Locking puts the id among the locked ones once, takes it out of the
    * AI-selectable ones, and raises the maximum to at least the number
    * locked without ever lowering it. The two lists then never share the
    * id, and stay apart if they were.
    */
  lemma LockedProps(v: ResumeProjects, projectId: string)
    ensures var r := Locked(v, projectId);
      projectId in r.lockedProjectIds && projectId !in r.aiSelectableProjectIds
      && (forall x :: x in r.lockedProjectIds <==> x in v.lockedProjectIds || x == projectId)
      && (forall x :: x in r.aiSelectableProjectIds <==> x in v.aiSelectableProjectIds && x != projectId)
      && (NoDuplicates(v.lockedProjectIds) ==> NoDuplicates(r.lockedProjectIds))
      && r.maxProjects >= v.maxProjects && r.maxProjects >= |r.lockedProjectIds|
      && (r.maxProjects == v.maxProjects || r.maxProjects == |r.lockedProjectIds|)
      && (Disjoint(v) ==> Disjoint(r))
  {
  }

  /**
    * Unlocking takes every copy of the id out of the locked ones, makes it
    * AI-selectable once, and clamps the maximum into [locked, total]; a
    * maximum already inside stays. The lists stay apart if they were.
    */
  lemma UnlockedProps(v: ResumeProjects, projectId: string, maxProjectsTotal: int, clampInt: (int, int, int) -> int)
    requires IsClamp(clampInt)
    ensures var r := Unlocked(v, projectId, maxProjectsTotal, clampInt);
      projectId !in r.lockedProjectIds && projectId in r.aiSelectableProjectIds
      && (forall x :: x in r.lockedProjectIds <==> x in v.lockedProjectIds && x != projectId)
      && (forall x :: x in r.aiSelectableProjectIds <==> x in v.aiSelectableProjectIds || x == projectId)
      && (|r.lockedProjectIds| <= maxProjectsTotal ==> |r.lockedProjectIds| <= r.maxProjects <= maxProjectsTotal)
      && (|r.lockedProjectIds| <= v.maxProjects <= maxProjectsTotal ==> r.maxProjects == v.maxProjects)
      && (Disjoint(v) ==> Disjoint(r))
  {
    var r := Unlocked(v, projectId, maxProjectsTotal, clampInt);
    var lo := |r.lockedProjectIds|;
    if lo <= maxProjectsTotal {
      assert lo <= clampInt(v.maxProjects, lo, maxProjectsTotal) <= maxProjectsTotal;
    }
  }

  /**
    * Unlocking an id that a lock just added gives back the locked list as it
    * was, and leaves the id AI-selectable.
    */
  lemma {:induction false} LockThenUnlock(v: ResumeProjects, projectId: string, maxProjectsTotal: int, clampInt: (int, int, int) -> int)
    requires projectId !in v.lockedProjectIds
    ensures Unlocked(Locked(v, projectId), projectId, maxProjectsTotal, clampInt).lockedProjectIds == v.lockedProjectIds
    ensures forall x :: x in Unlocked(Locked(v, projectId), projectId, maxProjectsTotal, clampInt).aiSelectableProjectIds
                        <==> x in v.aiSelectableProjectIds || x == projectId
  {
    var keep := (x: string) => x != projectId;
    var locked := v.lockedProjectIds + [projectId];
    assert Locked(v, projectId).lockedProjectIds == locked;
    FilterAppend(v.lockedProjectIds, [projectId], keep);
    FilterAll(v.lockedProjectIds, keep);
    assert Filter([projectId], keep) == [];
  }

  /**
    * The AI-selectable toggle adds the id once or removes every copy, and
    * changes nothing else; checking an id that is not locked keeps the
    * lists apart.
    */
  lemma SelectableToggledProps(v: ResumeProjects, projectId: string, isChecked: bool)
    ensures var r := SelectableToggled(v, projectId, isChecked);
      r.lockedProjectIds == v.lockedProjectIds && r.maxProjects == v.maxProjects
      && (isChecked ==> forall x :: x in r.aiSelectableProjectIds <==> x in v.aiSelectableProjectIds || x == projectId)
      && (isChecked && NoDuplicates(v.aiSelectableProjectIds) ==> NoDuplicates(r.aiSelectableProjectIds))
      && (!isChecked ==> forall x :: x in r.aiSelectableProjectIds <==> x in v.aiSelectableProjectIds && x != projectId)
      && (Disjoint(v) && (isChecked ==> projectId !in v.lockedProjectIds) ==> Disjoint(r))
  {
  }

  /** Checking and then unchecking the AI-selectable box on an id that was not selectable restores the list. */
  lemma SelectableToggleBack(v: ResumeProjects, projectId: string)
    requires projectId !in v.aiSelectableProjectIds
    ensures SelectableToggled(SelectableToggled(v, projectId, true), projectId, false) == v
  {
    var keep := (x: string) => x != projectId;
    FilterAppend(v.aiSelectableProjectIds, [projectId], keep);
    FilterAll(v.aiSelectableProjectIds, keep);
    assert Filter([projectId], keep) == [];
  }

  // ---------------------------------------------------------------- the handlers

  /** The "Must Include" checkbox's `onCheckedChange`: nothing is emitted while the field is empty. */
  method OnLockedChange(value: Option<ResumeProjects>, projectId: string, checked: CheckState,
                        maxProjectsTotal: int, clampInt: (int, int, int) -> int)
    returns (emitted: Option<ResumeProjects>)
    ensures value.None? ==> emitted.None?
    ensures value.Some? && checked == Checked ==> emitted == Some(Locked(value.value, projectId))
    ensures value.Some? && checked != Checked ==> emitted == Some(Unlocked(value.value, projectId, maxProjectsTotal, clampInt))
  {
    if value.None? {
      return None;
    }
    var field := value.value;
    var isChecked := checked == Checked;
    var lockedIds := field.lockedProjectIds;
    var selectableIds := field.aiSelectableProjectIds;

    if isChecked {
      if projectId !in lockedIds {
        lockedIds := lockedIds + [projectId];
      }
      var nextSelectable := WithoutId(selectableIds, projectId);
      var minCap := |lockedIds|;
      var maxProjects := if field.maxProjects >= minCap then field.maxProjects else minCap;
      return Some(field.(lockedProjectIds := lockedIds, aiSelectableProjectIds := nextSelectable, maxProjects := maxProjects));
    }

    var nextLocked := WithoutId(lockedIds, projectId);
    if projectId !in selectableIds {
      selectableIds := selectableIds + [projectId];
    }
    return Some(field.(lockedProjectIds := nextLocked, aiSelectableProjectIds := selectableIds,
                       maxProjects := clampInt(field.maxProjects, |nextLocked|, maxProjectsTotal)));
  }

  /** The "AI selectable" checkbox's `onCheckedChange`. */
  method OnSelectableChange(value: Option<ResumeProjects>, projectId: string, checked: CheckState)
    returns (emitted: Option<ResumeProjects>)
    ensures value.None? ==> emitted.None?
    ensures value.Some? ==> emitted == Some(SelectableToggled(value.value, projectId, checked == Checked))
  {
    if value.None? {
      return None;
    }
    var field := value.value;
    var selectableIds := field.aiSelectableProjectIds;
    var nextSelectable := if checked == Checked then
        (if projectId in selectableIds then selectableIds else selectableIds + [projectId])
      else WithoutId(selectableIds, projectId);
    return Some(field.(aiSelectableProjectIds := nextSelectable));
  }

  /**
    * The max-projects input's `onChange`, given the number typed: clamped
    * into [lockedCount, maxProjectsTotal] and nothing else changed.
    */
  method OnMaxProjectsChange(value: Option<ResumeProjects>, next: int, lockedCount: int, maxProjectsTotal: int,
                             clampInt: (int, int, int) -> int)
    returns (emitted: Option<ResumeProjects>)
    requires IsClamp(clampInt)
    ensures value.None? ==> emitted.None?
    ensures value.Some? ==> emitted.Some?
    ensures value.Some? ==> emitted.value.lockedProjectIds == value.value.lockedProjectIds
    ensures value.Some? ==> emitted.value.aiSelectableProjectIds == value.value.aiSelectableProjectIds
    ensures value.Some? && lockedCount <= maxProjectsTotal ==> lockedCount <= emitted.value.maxProjects <= maxProjectsTotal
    ensures value.Some? && lockedCount <= next <= maxProjectsTotal ==> emitted.value.maxProjects == next
  {
    if value.None? {
      return None;
    }
    var clamped := clampInt(next, lockedCount, maxProjectsTotal);
    return Some(value.value.(maxProjects := clamped));
  }
}
