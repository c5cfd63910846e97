// orchestrator/src/client/components/tailoring/useTailoringDraft.ts: the
// tailoring editor's draft, its saved snapshot, and the rules that keep the
// two in step with the job shown.
module TailoringDraft {
  import opened Wrappers
  import opened Text
  import opened Seqs
  import opened Json
  import opened Dedupe
  import opened TailoringUtils

  /** The job fields the editor reads; None stands for null or undefined. */
  datatype Job = Job(
    id: string,
    tailoredSummary: Option<string>,
    tailoredHeadline: Option<string>,
    jobDescription: Option<string>,
    selectedProjectIds: Option<string>,
    tailoredSkills: Option<string>)

  /** The field being edited; `activeField == None` is `null`. */
  datatype ActiveField = Summary | Headline | Description | Skills

  /** `value || ""` on an optional string. */
  function OrEmpty(o: Option<string>): (r: string)
    ensures o.Some? ==> r == o.value
    ensures o.None? ==> r == ""
  {
    if o.Some? then o.value else ""
  }

  // ---------------------------------------------------------------- selected project ids

  /** `parseSelectedIds`: the non-empty comma-separated pieces, as a set. */
  function ParseSelectedIds(value: Option<string>): (r: set<string>)
    ensures forall id :: id in r ==> id != "" && NoneIn(id, {','})
  {
    if value.None? then {} else set p | p in Split(value.value, {','}) && p != ""
  }

  /** Ids joined with "," read back as the set of those ids. */
  lemma SelectedIdsRoundTrip(ids: seq<string>)
    requires forall k :: 0 <= k < |ids| ==> ids[k] != "" && NoneIn(ids[k], {','})
    ensures ParseSelectedIds(Some(Join(ids, ","))) == set k | 0 <= k < |ids| :: ids[k]
  {
    if ids == [] {
      assert Split("", {','}) == [""];
    } else {
      assert "," == [','];
      SplitJoin(ids, ',', {','});
      var r := ParseSelectedIds(Some(Join(ids, ",")));
      forall id | id in r ensures id in set k | 0 <= k < |ids| :: ids[k] {
        var k :| 0 <= k < |ids| && ids[k] == id;
      }
    }
  }

  /** `hasSelectionDiff`: a different size, or an id of `current` missing from `saved`. */
  function HasSelectionDiff(current: set<string>, saved: set<string>): bool
  {
    |current| != |saved| || exists id :: id in current && id !in saved
  }

  /** The selection differs exactly when the two sets are not equal. */
  lemma HasSelectionDiffSpec(current: set<string>, saved: set<string>)
    ensures HasSelectionDiff(current, saved) <==> current != saved
  {
    if !HasSelectionDiff(current, saved) {
      assert current <= saved;
      assert saved == current + (saved - current);
      assert |saved - current| == 0;
    }
  }

  /** `handleToggleProject`'s updater: remove the id when present, add it otherwise. */
  function Toggled(ids: set<string>, id: string): set<string>
  {
    if id in ids then ids - {id} else ids + {id}
  }

  /** Toggling flips the one id, leaves every other id alone, and undoes itself. */
  lemma ToggledSpec(ids: set<string>, id: string)
    ensures id in Toggled(ids, id) <==> id !in ids
    ensures forall other :: other != id ==> (other in Toggled(ids, id) <==> other in ids)
    ensures Toggled(Toggled(ids, id), id) == ids
  {
  }

  // ---------------------------------------------------------------- skill groups in the draft

  /** Some draft group has this id. */
  predicate HasGroup(groups: seq<EditableSkillGroup>, id: string)
  {
    exists i :: 0 <= i < |groups| && groups[i].id == id
  }

  /** The effect that clears `openSkillGroupId` once its group is gone. */
  function OpenAfterReset(open: string, groups: seq<EditableSkillGroup>): string
  {
    if |open| > 0 && !HasGroup(groups, open) then "" else open
  }

  /** After the effect the open id is empty or names a group; it only changes when its group is gone. */
  lemma OpenAfterResetSpec(open: string, groups: seq<EditableSkillGroup>)
    ensures OpenAfterReset(open, groups) == "" || HasGroup(groups, OpenAfterReset(open, groups))
    ensures OpenAfterReset(open, groups) != open <==> open != "" && !HasGroup(groups, open)
  {
  }

  datatype GroupKey = Name | KeywordsText

  /** `handleUpdateSkillGroup`'s updater: set one field of the groups with this id. */
  function UpdatedGroups(groups: seq<EditableSkillGroup>, id: string, key: GroupKey, value: string): (r: seq<EditableSkillGroup>)
    ensures |r| == |groups|
  {
    seq(|groups|, i requires 0 <= i < |groups| =>
      if groups[i].id != id then groups[i]
      else if key == Name then groups[i].(name := value)
      else groups[i].(keywordsText := value))
  }

  /** Updating keeps every id and position; only the named field of the matching groups changes. */
  lemma UpdatedGroupsSpec(groups: seq<EditableSkillGroup>, id: string, key: GroupKey, value: string, i: nat)
    requires i < |groups|
    ensures UpdatedGroups(groups, id, key, value)[i].id == groups[i].id
    ensures groups[i].id != id ==> UpdatedGroups(groups, id, key, value)[i] == groups[i]
    ensures groups[i].id == id && key == Name ==>
      UpdatedGroups(groups, id, key, value)[i] == EditableSkillGroup(id, value, groups[i].keywordsText)
    ensures groups[i].id == id && key == KeywordsText ==>
      UpdatedGroups(groups, id, key, value)[i] == EditableSkillGroup(id, groups[i].name, value)
  {
  }

  /** `handleRemoveSkillGroup`'s updater: keep the groups with another id. */
  function RemovedGroups(groups: seq<EditableSkillGroup>, id: string): seq<EditableSkillGroup>
  {
    Filter(groups, (g: EditableSkillGroup) => g.id != id)
  }

  /** Removing drops exactly the groups with that id and keeps the others in order. */
  lemma RemovedGroupsSpec(groups: seq<EditableSkillGroup>, id: string)
    ensures !HasGroup(RemovedGroups(groups, id), id)
    ensures IsSubseq(RemovedGroups(groups, id), groups)
    ensures forall g :: g in groups && g.id != id ==> g in RemovedGroups(groups, id)
  {
    FilterSubseq(groups, (g: EditableSkillGroup) => g.id != id);
  }

  /** A blank group added to the draft is dropped when the draft is normalised. */
  lemma BlankGroupIgnored(groups: seq<EditableSkillGroup>, id: string)
    ensures FromEditable(groups + [EditableSkillGroup(id, "", "")]) == FromEditable(groups)
  {
    FromEditableSnoc(groups, EditableSkillGroup(id, "", ""));
    SplitFree("", {','});
    assert [""][1..] == [];
    assert Trim("") == "";
    assert TrimmedNonEmpty([""]) == [];
  }

  // ---------------------------------------------------------------- incoming jobs

  /** What `parseIncomingDraft` returns. */
  datatype IncomingDraft = IncomingDraft(
    summary: string,
    headline: string,
    description: string,
    selectedIds: set<string>,
    skillsDraft: seq<EditableSkillGroup>,
    skillsJson: string)

  /** The incoming draft of `job` when the id counter stands at `start`. */
  function IncomingDraftOf(job: Job, start: nat, parse: string -> Option<Json>, stringify: Json -> string): IncomingDraft
  {
    var skillsDraft := EditableOf(ParsedSkills(job.tailoredSkills, parse), start);
    IncomingDraft(
      OrEmpty(job.tailoredSummary),
      OrEmpty(job.tailoredHeadline),
      OrEmpty(job.jobDescription),
      ParseSelectedIds(job.selectedProjectIds),
      skillsDraft,
      SerializeTailoredSkills(FromEditable(skillsDraft), stringify))
  }

  /** `parseIncomingDraft`: one fresh draft id per parsed group. */
  method ParseIncomingDraft(job: Job, ids: DraftIdCounter, parse: string -> Option<Json>, stringify: Json -> string)
    returns (next: IncomingDraft)
    modifies ids
    ensures ids.count == old(ids.count) + |ParsedSkills(job.tailoredSkills, parse)|
    ensures next == IncomingDraftOf(job, old(ids.count), parse, stringify)
  {
    var groups := ParseTailoredSkills(job.tailoredSkills, parse);
    var skillsDraft := ToEditableSkillGroups(groups, ids);
    var normalized := FromEditableSkillGroups(skillsDraft);
    next := IncomingDraft(
      OrEmpty(job.tailoredSummary),
      OrEmpty(job.tailoredHeadline),
      OrEmpty(job.jobDescription),
      ParseSelectedIds(job.selectedProjectIds),
      skillsDraft,
      SerializeTailoredSkills(normalized, stringify));
  }

  /** The skills snapshot as the mount code builds it: from the parsed groups directly. */
  function MountSavedSkillsJson(raw: Option<string>, parse: string -> Option<Json>, stringify: Json -> string): string
  {
    SerializeTailoredSkills(ParsedSkills(raw, parse), stringify)
  }

  /** The skills JSON of a freshly built draft: the parsed groups made editable and read back. */
  function DraftSkillsJson(raw: Option<string>, start: nat, parse: string -> Option<Json>, stringify: Json -> string): string
  {
    SerializeTailoredSkills(FromEditable(EditableOf(ParsedSkills(raw, parse), start)), stringify)
  }

  /** When no stored keyword holds a ",", both ways of building the snapshot agree. */
  lemma MountSnapshotAgrees(raw: Option<string>, start: nat, parse: string -> Option<Json>, stringify: Json -> string)
    requires forall g :: g in ParsedSkills(raw, parse) ==> forall k :: k in g.keywords ==> NoneIn(k, {','})
    ensures MountSavedSkillsJson(raw, parse, stringify) == DraftSkillsJson(raw, start, parse, stringify)
  {
    var groups := ParsedSkills(raw, parse);
    if raw.Some? && Trim(raw.value) != "" && parse(raw.value).Some? && parse(raw.value).value.Arr? {
      ParsedSkillsShape(parse(raw.value).value.items);
    }
    EditableRoundTrip(groups, start);
  }

  /**
    * A stored keyword "a,b" inside a keywords array: the mount snapshot keeps
    * it as one keyword while the draft reads it back as two, so the two JSON
    * texts differ.
    */
  lemma MountSnapshotMismatch(raw: string, start: nat, parse: string -> Option<Json>, stringify: Json -> string,
                               name: string, a: string, b: string)
    requires !AllIn(raw, Js)
    requires IsKeyword(a) && IsKeyword(b) && IsClean(name)
    requires parse(raw) == Some(GroupsJson([SkillGroup(name, [a + "," + b])]))
    requires forall x: Json, y: Json :: stringify(x) == stringify(y) ==> x == y
    ensures MountSavedSkillsJson(Some(raw), parse, stringify) != DraftSkillsJson(Some(raw), start, parse, stringify)
  {
    var k := a + "," + b;
    var stored := SkillGroup(name, [k]);
    MountStoredGroup(raw, parse, name, a, b);
    var split := SkillGroup(name, [a, b]);
    DraftReadsTwoKeywords(name, a, b, start);
    assert [k] != [a, b] by {
      assert k != a by {
        assert |k| > |a|;
      }
    }
    assert GroupsJson([stored]) != GroupsJson([split]) by {
      assert GroupsJson([stored]).items[0] == GroupJson(stored);
      assert GroupsJson([split]).items[0] == GroupJson(split);
      assert |KeywordsJson(stored.keywords).items| == 1;
      assert |KeywordsJson(split.keywords).items| == 2;
    }
  }

  /** The mount parse keeps the comma keyword as stored. */
  lemma MountStoredGroup(raw: string, parse: string -> Option<Json>, name: string, a: string, b: string)
    requires !AllIn(raw, Js)
    requires IsKeyword(a) && IsKeyword(b) && IsClean(name)
    requires parse(raw) == Some(GroupsJson([SkillGroup(name, [a + "," + b])]))
    ensures ParsedSkills(Some(raw), parse) == [SkillGroup(name, [a + "," + b])]
  {
    TrimEmpty(raw);
    CommaGroupClean(name, a, b);
    ObjectGroupsOfGroupsJson([SkillGroup(name, [a + "," + b])]);
  }

  lemma CommaGroupClean(name: string, a: string, b: string)
    requires IsKeyword(a) && IsKeyword(b) && IsClean(name)
    ensures IsCleanGroup(SkillGroup(name, [a + "," + b]))
  {
    var k := a + "," + b;
    assert IsTrimmedBy(k, Js) by {
      assert k[0] == a[0];
      assert k[|k| - 1] == b[|b| - 1];
    }
  }

  /** The draft splits the comma keyword into its two halves. */
  lemma DraftReadsTwoKeywords(name: string, a: string, b: string, start: nat)
    requires IsKeyword(a) && IsKeyword(b) && IsClean(name)
    ensures FromEditable(EditableOf([SkillGroup(name, [a + "," + b])], start)) == [SkillGroup(name, [a, b])]
  {
    var k := a + "," + b;
    var editable := EditableOf([SkillGroup(name, [k])], start);
    assert editable == [] + [editable[0]];
    assert editable[0].keywordsText == k;
    assert k == a + [','] + b;
    SplitAppend(a, ',', b, {','});
    SplitFree(a, {','});
    SplitFree(b, {','});
    assert forall i :: 0 <= i < |[a, b]| ==> IsClean([a, b][i]);
    TrimmedNonEmptyOfClean([a, b]);
    TrimByOfTrimmed(name, Js);
    FromEditableSnoc([], editable[0]);
  }

  // ---------------------------------------------------------------- the draft state

  /** Every field of the hook's state, for stating a whole new state at once. */
  datatype DraftState = DraftState(
    summary: string,
    headline: string,
    jobDescription: string,
    selectedIds: set<string>,
    skillsDraft: seq<EditableSkillGroup>,
    openSkillGroupId: string,
    savedSummary: string,
    savedHeadline: string,
    savedDescription: string,
    savedSelectedIds: set<string>,
    savedSkillsJson: string,
    activeField: Option<ActiveField>,
    lastJobId: string)

  /**
    * The state of `useTailoringDraft`. `ids` is the module counter behind
    * `createTailoredSkillDraftId`; `parse` and `stringify` stand for
    * JSON.parse and JSON.stringify.
    */
  class Draft {
    var summary: string
    var headline: string
    var jobDescription: string
    var selectedIds: set<string>
    var skillsDraft: seq<EditableSkillGroup>
    var openSkillGroupId: string
    var savedSummary: string
    var savedHeadline: string
    var savedDescription: string
    var savedSelectedIds: set<string>
    var savedSkillsJson: string
    var activeField: Option<ActiveField>
    var lastJobId: string
    const ids: DraftIdCounter
    const parse: string -> Option<Json>
    const stringify: Json -> string

    function State(): DraftState
      reads this
    {
      DraftState(summary, headline, jobDescription, selectedIds, skillsDraft, openSkillGroupId,
                 savedSummary, savedHeadline, savedDescription, savedSelectedIds, savedSkillsJson,
                 activeField, lastJobId)
    }

    /** The `skillsJson` memo: the draft normalised and serialised. */
    function SkillsJson(): string
      reads this
    {
      SerializeTailoredSkills(FromEditable(skillsDraft), stringify)
    }

    /** The `isDirty` memo. */
    predicate IsDirty()
      reads this
    {
      if summary != savedSummary then true
      else if headline != savedHeadline then true
      else if jobDescription != savedDescription then true
      else if SkillsJson() != savedSkillsJson then true
      else HasSelectionDiff(selectedIds, savedSelectedIds)
    }

    /** Dirty exactly when some field differs from its saved copy. */
    lemma IsDirtySpec()
      ensures IsDirty() <==>
        summary != savedSummary || headline != savedHeadline || jobDescription != savedDescription ||
        SkillsJson() != savedSkillsJson || selectedIds != savedSelectedIds
    {
      HasSelectionDiffSpec(selectedIds, savedSelectedIds);
    }

    /** Every current field and its saved copy both hold the incoming draft. */
    predicate Holds(next: IncomingDraft)
      reads this
    {
      summary == next.summary && savedSummary == next.summary &&
      headline == next.headline && savedHeadline == next.headline &&
      jobDescription == next.description && savedDescription == next.description &&
      selectedIds == next.selectedIds && savedSelectedIds == next.selectedIds &&
      skillsDraft == next.skillsDraft && savedSkillsJson == next.skillsJson
    }

    /**
      * Mounting the hook on `job`, with the skills snapshot taken from the
      * draft's own JSON so that an untouched editor is clean.
      */
    constructor (job: Job, ids: DraftIdCounter, parse: string -> Option<Json>, stringify: Json -> string)
      modifies ids
      ensures this.ids == ids && this.parse == parse && this.stringify == stringify
      ensures ids.count == old(ids.count) + |ParsedSkills(job.tailoredSkills, parse)|
      ensures Holds(IncomingDraftOf(job, old(ids.count), parse, stringify))
      ensures openSkillGroupId == "" && activeField == None && lastJobId == job.id
      ensures !IsDirty()
    {
      this.ids := ids;
      this.parse := parse;
      this.stringify := stringify;
      var groups := ParseTailoredSkills(job.tailoredSkills, parse);
      var draft := ToEditableSkillGroups(groups, ids);
      var normalized := FromEditableSkillGroups(draft);
      summary := OrEmpty(job.tailoredSummary);
      headline := OrEmpty(job.tailoredHeadline);
      jobDescription := OrEmpty(job.jobDescription);
      selectedIds := ParseSelectedIds(job.selectedProjectIds);
      skillsDraft := draft;
      openSkillGroupId := "";
      savedSummary := OrEmpty(job.tailoredSummary);
      savedHeadline := OrEmpty(job.tailoredHeadline);
      savedDescription := OrEmpty(job.jobDescription);
      savedSelectedIds := ParseSelectedIds(job.selectedProjectIds);
      savedSkillsJson := SerializeTailoredSkills(normalized, stringify);
      activeField := None;
      lastJobId := job.id;
    }

    /** Mounting as the hook is written: the skills snapshot is serialised from the parsed groups. */
    constructor MountAsWritten(job: Job, ids: DraftIdCounter, parse: string -> Option<Json>, stringify: Json -> string)
      modifies ids
      ensures this.ids == ids && this.parse == parse && this.stringify == stringify
      ensures ids.count == old(ids.count) + |ParsedSkills(job.tailoredSkills, parse)|
      ensures skillsDraft == EditableOf(ParsedSkills(job.tailoredSkills, parse), old(ids.count))
      ensures savedSkillsJson == MountSavedSkillsJson(job.tailoredSkills, parse, stringify)
      ensures SkillsJson() == DraftSkillsJson(job.tailoredSkills, old(ids.count), parse, stringify)
      ensures summary == savedSummary == OrEmpty(job.tailoredSummary)
      ensures headline == savedHeadline == OrEmpty(job.tailoredHeadline)
      ensures jobDescription == savedDescription == OrEmpty(job.jobDescription)
      ensures selectedIds == savedSelectedIds == ParseSelectedIds(job.selectedProjectIds)
      ensures openSkillGroupId == "" && activeField == None && lastJobId == job.id
    {
      this.ids := ids;
      this.parse := parse;
      this.stringify := stringify;
      var groups := ParseTailoredSkills(job.tailoredSkills, parse);
      var draft := ToEditableSkillGroups(groups, ids);
      summary := OrEmpty(job.tailoredSummary);
      headline := OrEmpty(job.tailoredHeadline);
      jobDescription := OrEmpty(job.jobDescription);
      selectedIds := ParseSelectedIds(job.selectedProjectIds);
      skillsDraft := draft;
      openSkillGroupId := "";
      savedSummary := OrEmpty(job.tailoredSummary);
      savedHeadline := OrEmpty(job.tailoredHeadline);
      savedDescription := OrEmpty(job.jobDescription);
      savedSelectedIds := ParseSelectedIds(job.selectedProjectIds);
      savedSkillsJson := SerializeTailoredSkills(groups, stringify);
      activeField := None;
      lastJobId := job.id;
    }

    /** The first five setter calls of `applyIncomingDraft`: the current fields. */
    method LoadCurrent(next: IncomingDraft)
      modifies this
      ensures summary == next.summary && headline == next.headline && jobDescription == next.description
      ensures selectedIds == next.selectedIds && skillsDraft == next.skillsDraft
      ensures savedSummary == old(savedSummary) && savedHeadline == old(savedHeadline)
      ensures savedDescription == old(savedDescription) && savedSelectedIds == old(savedSelectedIds)
      ensures savedSkillsJson == old(savedSkillsJson)
      ensures openSkillGroupId == old(openSkillGroupId) && activeField == old(activeField) && lastJobId == old(lastJobId)
    {
      summary, headline, jobDescription, selectedIds, skillsDraft :=
        next.summary, next.headline, next.description, next.selectedIds, next.skillsDraft;
    }

    /** The last five setter calls of `applyIncomingDraft`: the saved copies. */
    method LoadSaved(next: IncomingDraft)
      modifies this
      ensures savedSummary == next.summary && savedHeadline == next.headline && savedDescription == next.description
      ensures savedSelectedIds == next.selectedIds && savedSkillsJson == next.skillsJson
      ensures summary == old(summary) && headline == old(headline) && jobDescription == old(jobDescription)
      ensures selectedIds == old(selectedIds) && skillsDraft == old(skillsDraft)
      ensures openSkillGroupId == old(openSkillGroupId) && activeField == old(activeField) && lastJobId == old(lastJobId)
    {
      savedSummary, savedHeadline, savedDescription, savedSelectedIds, savedSkillsJson :=
        next.summary, next.headline, next.description, next.selectedIds, next.skillsJson;
    }

    /** `applyIncomingDraft`: each field and its saved copy take the incoming value, so the draft is clean. */
    method ApplyIncomingDraft(job: Job)
      modifies this, ids
      ensures ids.count == old(ids.count) + |ParsedSkills(job.tailoredSkills, parse)|
      ensures Holds(IncomingDraftOf(job, old(ids.count), parse, stringify))
      ensures openSkillGroupId == old(openSkillGroupId) && activeField == old(activeField) && lastJobId == old(lastJobId)
      ensures !IsDirty()
    {
      var next := ParseIncomingDraft(job, ids, parse, stringify);
      LoadCurrent(next);
      LoadSaved(next);
    }

    /**
      * The rehydration effect: a new job id always reloads the draft; the
      * same id reloads it only when it is clean and no field is being edited.
      */
    method Rehydrate(job: Job)
      modifies this, ids
      ensures job.id != old(lastJobId) || (!old(IsDirty()) && old(activeField).None?) ==>
        Holds(IncomingDraftOf(job, old(ids.count), parse, stringify)) && lastJobId == job.id && !IsDirty() &&
        openSkillGroupId == old(openSkillGroupId) && activeField == old(activeField)
      ensures job.id == old(lastJobId) && (old(IsDirty()) || old(activeField).Some?) ==>
        State() == old(State()) && ids.count == old(ids.count)
    {
      if job.id != lastJobId {
        lastJobId := job.id;
        ApplyIncomingDraft(job);
        return;
      }
      if IsDirty() || activeField.Some? {
        return;
      }
      ApplyIncomingDraft(job);
    }

    /** `markCurrentAsSaved`: the saved snapshot takes the current values. */
    method MarkCurrentAsSaved()
      modifies this
      ensures savedSummary == summary && savedHeadline == headline && savedDescription == jobDescription
      ensures savedSelectedIds == selectedIds && savedSkillsJson == SkillsJson()
      ensures summary == old(summary) && headline == old(headline) && jobDescription == old(jobDescription)
      ensures selectedIds == old(selectedIds) && skillsDraft == old(skillsDraft)
      ensures openSkillGroupId == old(openSkillGroupId) && activeField == old(activeField) && lastJobId == old(lastJobId)
      ensures !IsDirty()
    {
      savedSummary, savedHeadline, savedDescription, savedSelectedIds, savedSkillsJson :=
        summary, headline, jobDescription, selectedIds, SkillsJson();
    }

    /** The effect that closes a skill group whose id no longer exists. */
    method ResetOpenSkillGroup()
      modifies this
      ensures State() == old(State()).(openSkillGroupId := OpenAfterReset(old(openSkillGroupId), skillsDraft))
    {
      if |openSkillGroupId| > 0 && !HasGroup(skillsDraft, openSkillGroupId) {
        openSkillGroupId := "";
      }
    }

    /** `handleToggleProject`. */
    method ToggleProject(id: string)
      modifies this
      ensures State() == old(State()).(selectedIds := Toggled(old(selectedIds), id))
    {
      var next := selectedIds;
      if id in next {
        next := next - {id};
      } else {
        next := next + {id};
      }
      selectedIds := next;
    }

    /** `handleAddSkillGroup`: a blank group with a fresh id, opened; the skills JSON does not change. */
    method AddSkillGroup()
      modifies this, ids
      ensures ids.count == old(ids.count) + 1
      ensures State() == old(State()).(skillsDraft := old(skillsDraft) + [EditableSkillGroup(DraftId(ids.count), "", "")],
        openSkillGroupId := DraftId(ids.count))
      ensures SkillsJson() == old(SkillsJson())
    {
      var nextId := ids.CreateId();
      BlankGroupIgnored(skillsDraft, nextId);
      skillsDraft := skillsDraft + [EditableSkillGroup(nextId, "", "")];
      openSkillGroupId := nextId;
    }

    /** `handleUpdateSkillGroup`. */
    method UpdateSkillGroup(id: string, key: GroupKey, value: string)
      modifies this
      ensures State() == old(State()).(skillsDraft := UpdatedGroups(old(skillsDraft), id, key, value))
    {
      skillsDraft := UpdatedGroups(skillsDraft, id, key, value);
    }

    /** `handleRemoveSkillGroup`. */
    method RemoveSkillGroup(id: string)
      modifies this
      ensures State() == old(State()).(skillsDraft := RemovedGroups(old(skillsDraft), id))
    {
      skillsDraft := RemovedGroups(skillsDraft, id);
    }
  }
}
