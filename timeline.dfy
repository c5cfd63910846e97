// orchestrator/src/client/pages/job/Timeline.tsx: the entries of a job's
// stage-event timeline. Events without a group id stand alone; events that
// share a group id are collected into one group entry, labelled by the first
// of them, with its events in time order and the time of its earliest event.
// All entries are then ordered by time.
module Timeline {
  import opened Wrappers
  import opened Sorting
  import opened Seqs

  /** A stage event; `groupId` and `groupLabel` are `metadata?.groupId` and `metadata?.groupLabel`. */
  datatype TimelineEvent = TimelineEvent(id: string, toStage: string, occurredAt: int,
                                         groupId: Option<string>, groupLabel: Option<string>)

  /** A value of the `groups` Map. */
  datatype Group = Group(caption: string, events: seq<TimelineEvent>)

  /** `TimelineEntry`. */
  datatype Entry =
    | EventEntry(event: TimelineEvent)
    | GroupEntry(id: string, caption: string, events: seq<TimelineEvent>, occurredAt: int)

  const DEFAULT_GROUP_LABEL := "Grouped events"

  /** `!groupId`: no group id, or an empty one. */
  predicate IsStandalone(e: TimelineEvent)
  {
    e.groupId.None? || e.groupId.value == ""
  }

  /** The event belongs to group `id`. */
  predicate InGroup(e: TimelineEvent, id: string)
  {
    e.groupId == Some(id) && id != ""
  }

  /** `event.metadata?.groupLabel || "Grouped events"`. */
  function LabelOf(e: TimelineEvent): string
  {
    if e.groupLabel.Some? && e.groupLabel.value != "" then e.groupLabel.value else DEFAULT_GROUP_LABEL
  }

  // ---------------------------------------------------------------- what the forEach collects

  /** The standalone events of `s`, in order. */
  function StandaloneOf(s: seq<TimelineEvent>): seq<TimelineEvent>
  {
    if s == [] then []
    else StandaloneOf(s[..|s| - 1]) + (if IsStandalone(s[|s| - 1]) then [s[|s| - 1]] else [])
  }

  /** The events of group `id`, in order. */
  function Members(s: seq<TimelineEvent>, id: string): seq<TimelineEvent>
  {
    if s == [] then []
    else Members(s[..|s| - 1], id) + (if InGroup(s[|s| - 1], id) then [s[|s| - 1]] else [])
  }

  /** The group ids of `s` in the order they are first seen: the `groups` Map's key order. */
  function GroupIds(s: seq<TimelineEvent>): seq<string>
  {
    if s == [] then []
    else
      var ids := GroupIds(s[..|s| - 1]);
      var e := s[|s| - 1];
      if !IsStandalone(e) && e.groupId.value !in ids then ids + [e.groupId.value] else ids
  }

  /** The group collected for `id`: the label of its first event, and its events in order. */
  function GroupOf(s: seq<TimelineEvent>, id: string): Group
  {
    var members := Members(s, id);
    if members == [] then Group(DEFAULT_GROUP_LABEL, []) else Group(LabelOf(members[0]), members)
  }

  /** The Map holds a group exactly for each id of `order`, and each group is the one collected from `s`. */
  ghost predicate Collected(groups: map<string, Group>, order: seq<string>, s: seq<TimelineEvent>)
  {
    order == GroupIds(s) &&
    (forall id :: id in groups <==> id in order) &&
    (forall id :: id in groups ==> groups[id] == GroupOf(s, id))
  }

  /** A group id is listed exactly when the group has events. */
  lemma {:induction false} GroupIdsProps(s: seq<TimelineEvent>)
    ensures forall id :: id in GroupIds(s) <==> Members(s, id) != []
  {
    if s != [] {
      GroupIdsProps(s[..|s| - 1]);
    }
  }

  /** No group id is listed twice. */
  lemma {:induction false} GroupIdsDistinct(s: seq<TimelineEvent>)
    ensures forall i, j :: 0 <= i < j < |GroupIds(s)| ==> GroupIds(s)[i] != GroupIds(s)[j]
  {
    if s != [] {
      GroupIdsDistinct(s[..|s| - 1]);
    }
  }

  /** Collecting a standalone event leaves the Map alone. */
  lemma CollectAlone(groups: map<string, Group>, order: seq<string>, s: seq<TimelineEvent>, e: TimelineEvent)
    requires Collected(groups, order, s) && IsStandalone(e)
    ensures Collected(groups, order, s + [e])
  {
    assert (s + [e])[..|s|] == s;
  }

  /** Collecting a grouped event appends it to its group, which is created, and its id listed, on first sight. */
  lemma CollectGrouped(groups: map<string, Group>, order: seq<string>, s: seq<TimelineEvent>, e: TimelineEvent,
                       groups': map<string, Group>, order': seq<string>)
    requires Collected(groups, order, s) && !IsStandalone(e)
    requires var g := e.groupId.value;
      var group := if g in groups then groups[g] else Group(LabelOf(e), []);
      groups' == groups[g := group.(events := group.events + [e])] && order' == if g in groups then order else order + [g]
    ensures Collected(groups', order', s + [e])
  {
    assert (s + [e])[..|s|] == s;
    GroupIdsProps(s);
  }

  // ---------------------------------------------------------------- entries

  /** The time an entry is sorted by. */
  function EntryTime(entry: Entry): int
  {
    match entry
    case EventEntry(event) => event.occurredAt
    case GroupEntry(_, _, _, occurredAt) => occurredAt
  }

  /** The sort key of `(a, b) => timeA - timeB`, stated as a descending key. */
  function EntryKey(entry: Entry): int
  {
    -EntryTime(entry)
  }

  /** The sort key of `(a, b) => a.occurredAt - b.occurredAt`, stated as a descending key. */
  function EventKey(e: TimelineEvent): int
  {
    -e.occurredAt
  }

  /** `standalone.map((event) => ({ kind: "event", event }))`. */
  function StandaloneEntries(standalone: seq<TimelineEvent>): (r: seq<Entry>)
    ensures |r| == |standalone| && forall k :: 0 <= k < |r| ==> r[k] == EventEntry(standalone[k])
  {
    if standalone == [] then [] else [EventEntry(standalone[0])] + StandaloneEntries(standalone[1..])
  }

  /** The entry of group `id`: its events in ascending time, ties in input order, and the first one's time. */
  function GroupEntryOf(s: seq<TimelineEvent>, id: string): Entry
  {
    var group := GroupOf(s, id);
    var sorted := SortDesc(group.events, EventKey);
    GroupEntry(id, group.caption, sorted, if sorted == [] then 0 else sorted[0].occurredAt)
  }

  /** The group entries pushed for the ids of `ids`, in that order. */
  function GroupEntries(s: seq<TimelineEvent>, ids: seq<string>): seq<Entry>
  {
    if ids == [] then [] else GroupEntries(s, ids[..|ids| - 1]) + [GroupEntryOf(s, ids[|ids| - 1])]
  }

  /** The `entries` memo: the standalone entries and then the groups in Map order, sorted by ascending time. */
  function EntriesOf(events: seq<TimelineEvent>): seq<Entry>
  {
    SortDesc(StandaloneEntries(StandaloneOf(events)) + GroupEntries(events, GroupIds(events)), EntryKey)
  }

  /** The `entries` memo, step by step as the component builds it. */
  method BuildEntries(events: seq<TimelineEvent>) returns (entries: seq<Entry>)
    ensures entries == EntriesOf(events)
  {
    var groups, order, standalone := CollectEvents(events);
    var mapped := PushEntries(events, groups, order, standalone);
    entries := SortDesc(mapped, EntryKey);
  }

  /** The `forEach` over the events filling `standalone` and the `groups` Map. */
  method CollectEvents(events: seq<TimelineEvent>) returns (groups: map<string, Group>, order: seq<string>, standalone: seq<TimelineEvent>)
    ensures standalone == StandaloneOf(events)
    ensures Collected(groups, order, events)
  {
    groups, order, standalone := map[], [], [];
    assert events[..0] == [];
    for i := 0 to |events|
      invariant standalone == StandaloneOf(events[..i])
      invariant Collected(groups, order, events[..i])
    {
      var event := events[i];
      assert events[..i + 1] == events[..i] + [event];
      if event.groupId.None? || event.groupId.value == "" {
        CollectAlone(groups, order, events[..i], event);
        standalone := standalone + [event];
        continue;
      }
      ghost var (groups0, order0) := (groups, order);
      var groupId := event.groupId.value;
      var caption := LabelOf(event);
      var group := if groupId in groups then groups[groupId] else Group(caption, []);
      group := group.(events := group.events + [event]);
      if groupId !in groups {
        order := order + [groupId];
      }
      groups := groups[groupId := group];
      CollectGrouped(groups0, order0, events[..i], event, groups, order);
    }
    assert events[..|events|] == events;
  }

  /** The standalone entries, then one entry per group of the Map in its key order. */
  method PushEntries(events: seq<TimelineEvent>, groups: map<string, Group>, order: seq<string>, standalone: seq<TimelineEvent>)
    returns (mapped: seq<Entry>)
    requires Collected(groups, order, events)
    ensures mapped == StandaloneEntries(standalone) + GroupEntries(events, order)
  {
    mapped := StandaloneEntries(standalone);
    for k := 0 to |order|
      invariant mapped == StandaloneEntries(standalone) + GroupEntries(events, order[..k])
    {
      var id := order[k];
      PushGroupStep(groups, order, events, k);
      var sorted := SortDesc(groups[id].events, EventKey);
      var entry := GroupEntry(id, groups[id].caption, sorted, if sorted == [] then 0 else sorted[0].occurredAt);
      AppendAssoc(StandaloneEntries(standalone), GroupEntries(events, order[..k]), [entry]);
      mapped := mapped + [entry];
    }
    assert order[..|order|] == order;
  }

  /** Pushing the entry of the `k`-th group of the Map extends the group entries by that group's. */
  lemma PushGroupStep(groups: map<string, Group>, order: seq<string>, events: seq<TimelineEvent>, k: nat)
    requires Collected(groups, order, events) && k < |order|
    ensures order[k] in groups
    ensures var g := groups[order[k]];
      var sorted := SortDesc(g.events, EventKey);
      GroupEntries(events, order[..k + 1]) ==
        GroupEntries(events, order[..k]) + [GroupEntry(order[k], g.caption, sorted, if sorted == [] then 0 else sorted[0].occurredAt)]
  {
    GroupEntriesSnoc(events, order, k);
    assert order[k] in order;
  }

  lemma GroupEntriesSnoc(events: seq<TimelineEvent>, order: seq<string>, k: nat)
    requires k < |order|
    ensures GroupEntries(events, order[..k + 1]) == GroupEntries(events, order[..k]) + [GroupEntryOf(events, order[k])]
  {
    assert order[..k + 1][..k] == order[..k];
  }

  // ---------------------------------------------------------------- properties

  /** A standalone event is collected exactly when it is in the input and has no group id. */
  lemma {:induction false} StandaloneOfMembers(s: seq<TimelineEvent>)
    ensures forall e :: e in StandaloneOf(s) <==> e in s && IsStandalone(e)
  {
    if s != [] {
      StandaloneOfMembers(s[..|s| - 1]);
      assert s == s[..|s| - 1] + [s[|s| - 1]];
    }
  }

  /** `s[p]` is the first event of `s` in group `id`. */
  predicate FirstInGroup(s: seq<TimelineEvent>, p: int, id: string)
  {
    0 <= p < |s| && InGroup(s[p], id) && forall q :: 0 <= q < p ==> !InGroup(s[q], id)
  }

  /** The first event of a group is the first event of the input that carries its id. */
  lemma {:induction false} MembersFirst(s: seq<TimelineEvent>, id: string)
    requires Members(s, id) != []
    ensures exists p :: FirstInGroup(s, p, id) && s[p] == Members(s, id)[0]
  {
    var init := s[..|s| - 1];
    if Members(init, id) != [] {
      MembersFirst(init, id);
      var p :| FirstInGroup(init, p, id) && init[p] == Members(init, id)[0];
      assert s[p] == init[p];
      assert forall q :: 0 <= q < p ==> s[q] == init[q];
      assert FirstInGroup(s, p, id);
    } else {
      MembersNone(init, id);
      assert forall q :: 0 <= q < |init| ==> s[q] == init[q];
      assert FirstInGroup(s, |s| - 1, id);
    }
  }

  lemma {:induction false} MembersNone(s: seq<TimelineEvent>, id: string)
    requires Members(s, id) == []
    ensures forall q :: 0 <= q < |s| ==> !InGroup(s[q], id)
  {
    if s != [] {
      var init := s[..|s| - 1];
      MembersNone(init, id);
      assert forall q :: 0 <= q < |init| ==> s[q] == init[q];
    }
  }

  /** A group holds exactly the events carrying its id, as often as they occur. */
  lemma {:induction false} MembersCount(s: seq<TimelineEvent>, id: string, e: TimelineEvent)
    ensures multiset(Members(s, id))[e] == if InGroup(e, id) then multiset(s)[e] else 0
  {
    if s != [] {
      MembersCount(s[..|s| - 1], id, e);
      assert s == s[..|s| - 1] + [s[|s| - 1]];
    }
  }

  /**
    * Each group entry: its events are those carrying its id, in ascending
    * time; it is labelled by the first of them in input order; its time is
    * the earliest of theirs.
    */
  lemma GroupEntryProps(events: seq<TimelineEvent>, id: string)
    requires id in GroupIds(events)
    ensures var entry := GroupEntryOf(events, id);
      entry.events != [] &&
      multiset(entry.events) == multiset(Members(events, id)) &&
      (forall e :: e in entry.events ==> InGroup(e, id) && entry.occurredAt <= e.occurredAt) &&
      (forall i, j :: 0 <= i < j < |entry.events| ==> entry.events[i].occurredAt <= entry.events[j].occurredAt) &&
      entry.occurredAt == entry.events[0].occurredAt &&
      entry.caption == LabelOf(Members(events, id)[0])
  {
    GroupIdsProps(events);
    var members := Members(events, id);
    var sorted := SortDesc(members, EventKey);
    SortDescProps(members, EventKey);
    forall e | e in sorted ensures InGroup(e, id) && sorted[0].occurredAt <= e.occurredAt {
      assert e in multiset(members);
      MembersCount(events, id, e);
      var k :| 0 <= k < |sorted| && sorted[k] == e;
      if k > 0 {
        assert EventKey(sorted[0]) >= EventKey(sorted[k]);
      }
    }
    forall i, j | 0 <= i < j < |sorted| ensures sorted[i].occurredAt <= sorted[j].occurredAt {
      assert EventKey(sorted[i]) >= EventKey(sorted[j]);
    }
  }

  /** Each group entry is the entry of one of the listed ids. */
  lemma {:induction false} GroupEntriesMembers(s: seq<TimelineEvent>, ids: seq<string>)
    ensures forall entry :: entry in GroupEntries(s, ids) ==> entry.GroupEntry? && entry.id in ids && entry == GroupEntryOf(s, entry.id)
  {
    if ids != [] {
      GroupEntriesMembers(s, ids[..|ids| - 1]);
    }
  }

  /** The sorted entries are the standalone entries and the group entries. */
  lemma EntriesFrom(events: seq<TimelineEvent>)
    ensures forall entry :: entry in EntriesOf(events) <==>
      entry in StandaloneEntries(StandaloneOf(events)) || entry in GroupEntries(events, GroupIds(events))
  {
    var m := StandaloneEntries(StandaloneOf(events)) + GroupEntries(events, GroupIds(events));
    SortDescProps(m, EntryKey);
    forall entry ensures entry in EntriesOf(events) <==> entry in m {
      assert entry in EntriesOf(events) <==> entry in multiset(EntriesOf(events));
      assert entry in m <==> entry in multiset(m);
    }
  }

  /** An event entry shows a standalone input event, and each standalone input event has one. */
  lemma EventEntries(events: seq<TimelineEvent>)
    ensures forall entry :: entry in EntriesOf(events) && entry.EventEntry? ==>
      IsStandalone(entry.event) && entry.event in events
    ensures forall e :: e in events && IsStandalone(e) ==> EventEntry(e) in EntriesOf(events)
  {
    var st := StandaloneEntries(StandaloneOf(events));
    EntriesFrom(events);
    StandaloneOfMembers(events);
    GroupEntriesMembers(events, GroupIds(events));
    forall e | e in events && IsStandalone(e) ensures EventEntry(e) in st {
      var k :| 0 <= k < |StandaloneOf(events)| && StandaloneOf(events)[k] == e;
      assert st[k] == EventEntry(e);
    }
  }

  /** A group entry is the entry of a group id of the input. */
  lemma GroupEntriesListed(events: seq<TimelineEvent>)
    ensures forall entry :: entry in EntriesOf(events) && entry.GroupEntry? ==>
      entry.id in GroupIds(events) && entry == GroupEntryOf(events, entry.id)
  {
    EntriesFrom(events);
    GroupEntriesMembers(events, GroupIds(events));
  }

  /** Entries are in ascending time order. */
  lemma EntriesSorted(events: seq<TimelineEvent>)
    ensures forall i, j :: 0 <= i < j < |EntriesOf(events)| ==> EntryTime(EntriesOf(events)[i]) <= EntryTime(EntriesOf(events)[j])
  {
    var m := StandaloneEntries(StandaloneOf(events)) + GroupEntries(events, GroupIds(events));
    SortDescProps(m, EntryKey);
    forall i, j | 0 <= i < j < |EntriesOf(events)| ensures EntryTime(EntriesOf(events)[i]) <= EntryTime(EntriesOf(events)[j]) {
      assert EntryKey(EntriesOf(events)[i]) >= EntryKey(EntriesOf(events)[j]);
    }
  }

  /** The events an entry shows. */
  function Shown(entry: Entry): seq<TimelineEvent>
  {
    match entry
    case EventEntry(event) => [event]
    case GroupEntry(_, _, events, _) => events
  }

  /** All the events shown by `entries`, in entry order. */
  function Flatten(entries: seq<Entry>): seq<TimelineEvent>
  {
    if entries == [] then [] else Shown(entries[0]) + Flatten(entries[1..])
  }

  lemma {:induction false} FlattenAppend(a: seq<Entry>, b: seq<Entry>)
    ensures Flatten(a + b) == Flatten(a) + Flatten(b)
  {
    if a == [] {
      assert a + b == b;
    } else {
      assert (a + b)[0] == a[0];
      assert (a + b)[1..] == a[1..] + b;
      FlattenAppend(a[1..], b);
    }
  }

  lemma {:induction false} FlattenInsert(x: Entry, m: seq<Entry>)
    ensures multiset(Flatten(Insert(x, m, EntryKey))) == multiset(Shown(x)) + multiset(Flatten(m))
  {
    if m != [] && EntryKey(x) < EntryKey(m[0]) {
      FlattenInsert(x, m[1..]);
      assert ([m[0]] + Insert(x, m[1..], EntryKey))[1..] == Insert(x, m[1..], EntryKey);
    } else {
      assert ([x] + m)[1..] == m;
    }
  }

  /** Sorting the entries keeps the events they show. */
  lemma {:induction false} FlattenSort(m: seq<Entry>)
    ensures multiset(Flatten(SortDesc(m, EntryKey))) == multiset(Flatten(m))
  {
    if m != [] {
      FlattenSort(m[1..]);
      FlattenInsert(m[0], SortDesc(m[1..], EntryKey));
    }
  }

  lemma {:induction false} FlattenStandalone(st: seq<TimelineEvent>)
    ensures multiset(Flatten(StandaloneEntries(st))) == multiset(st)
  {
    if st != [] {
      FlattenStandalone(st[1..]);
      assert st == [st[0]] + st[1..];
    }
  }

  /** The events of the groups of `ids`, counted with multiplicity. */
  function Grouped(s: seq<TimelineEvent>, ids: seq<string>): multiset<TimelineEvent>
  {
    if ids == [] then multiset{} else Grouped(s, ids[..|ids| - 1]) + multiset(Members(s, ids[|ids| - 1]))
  }

  lemma {:induction false} FlattenGroups(s: seq<TimelineEvent>, ids: seq<string>)
    ensures multiset(Flatten(GroupEntries(s, ids))) == Grouped(s, ids)
  {
    if ids != [] {
      var init := ids[..|ids| - 1];
      FlattenGroups(s, init);
      FlattenAppend(GroupEntries(s, init), [GroupEntryOf(s, ids[|ids| - 1])]);
      SortDescProps(Members(s, ids[|ids| - 1]), EventKey);
      assert Flatten([GroupEntryOf(s, ids[|ids| - 1])]) == Shown(GroupEntryOf(s, ids[|ids| - 1]));
    }
  }

  lemma MembersSnoc(s: seq<TimelineEvent>, e: TimelineEvent, id: string)
    ensures Members(s + [e], id) == Members(s, id) + if InGroup(e, id) then [e] else []
  {
    assert (s + [e])[..|s|] == s;
  }

  /** An event outside the groups of `ids` leaves their events as they were. */
  lemma {:induction false} GroupedOutside(s: seq<TimelineEvent>, e: TimelineEvent, ids: seq<string>)
    requires forall i :: 0 <= i < |ids| ==> !InGroup(e, ids[i])
    ensures Grouped(s + [e], ids) == Grouped(s, ids)
  {
    if ids != [] {
      GroupedOutside(s, e, ids[..|ids| - 1]);
      MembersSnoc(s, e, ids[|ids| - 1]);
    }
  }

  /** An event of one of the groups of `ids`, listed once, is added to their events once. */
  lemma {:induction false} GroupedInside(s: seq<TimelineEvent>, e: TimelineEvent, ids: seq<string>, k: nat)
    requires k < |ids| && InGroup(e, ids[k])
    requires forall i, j :: 0 <= i < j < |ids| ==> ids[i] != ids[j]
    ensures Grouped(s + [e], ids) == Grouped(s, ids) + multiset{e}
  {
    var init := ids[..|ids| - 1];
    var last := ids[|ids| - 1];
    MembersSnoc(s, e, last);
    GroupedUnfold(s + [e], ids);
    GroupedUnfold(s, ids);
    if k == |ids| - 1 {
      OnlyInLast(e, ids, init);
      GroupedOutside(s, e, init);
      assert multiset(Members(s + [e], last)) == multiset(Members(s, last)) + multiset{e};
    } else {
      DistinctInit(e, ids, init, k);
      GroupedInside(s, e, init, k);
    }
  }

  lemma GroupedUnfold(s: seq<TimelineEvent>, ids: seq<string>)
    requires ids != []
    ensures Grouped(s, ids) == Grouped(s, ids[..|ids| - 1]) + multiset(Members(s, ids[|ids| - 1]))
  {
  }

  /** An event of the last of distinct ids is in none of the others. */
  lemma OnlyInLast(e: TimelineEvent, ids: seq<string>, init: seq<string>)
    requires ids != [] && init == ids[..|ids| - 1] && InGroup(e, ids[|ids| - 1])
    requires forall i, j :: 0 <= i < j < |ids| ==> ids[i] != ids[j]
    ensures forall i :: 0 <= i < |init| ==> !InGroup(e, init[i])
  {
    forall i | 0 <= i < |init| ensures !InGroup(e, init[i]) {
      assert init[i] == ids[i];
    }
  }

  /** Dropping the last of distinct ids keeps them distinct and keeps an earlier group of the event. */
  lemma DistinctInit(e: TimelineEvent, ids: seq<string>, init: seq<string>, k: nat)
    requires k < |ids| - 1 && init == ids[..|ids| - 1] && InGroup(e, ids[k])
    requires forall i, j :: 0 <= i < j < |ids| ==> ids[i] != ids[j]
    ensures init[k] == ids[k] && !InGroup(e, ids[|ids| - 1])
    ensures forall i, j :: 0 <= i < j < |init| ==> init[i] != init[j]
  {
    forall i, j | 0 <= i < j < |init| ensures init[i] != init[j] {
      assert init[i] == ids[i] && init[j] == ids[j];
    }
  }

  /** The standalone events and the grouped events together are the input, each event exactly once. */
  lemma {:induction false} Partition(s: seq<TimelineEvent>)
    ensures multiset(StandaloneOf(s)) + Grouped(s, GroupIds(s)) == multiset(s)
  {
    if s != [] {
      var init := s[..|s| - 1];
      var e := s[|s| - 1];
      assert s == init + [e];
      Partition(init);
      PartitionStep(init, e);
    }
  }

  /** One more event joins either the standalone events or exactly one group. */
  lemma PartitionStep(init: seq<TimelineEvent>, e: TimelineEvent)
    ensures multiset(StandaloneOf(init + [e])) + Grouped(init + [e], GroupIds(init + [e])) ==
      multiset(StandaloneOf(init)) + Grouped(init, GroupIds(init)) + multiset{e}
  {
    var s := init + [e];
    assert s[..|s| - 1] == init;
    if IsStandalone(e) {
      assert StandaloneOf(s) == StandaloneOf(init) + [e];
      PartitionAlone(init, e);
    } else if e.groupId.value in GroupIds(init) {
      assert StandaloneOf(s) == StandaloneOf(init);
      PartitionJoin(init, e);
    } else {
      assert StandaloneOf(s) == StandaloneOf(init);
      PartitionNew(init, e);
    }
  }

  /** A standalone event leaves the groups alone. */
  lemma PartitionAlone(init: seq<TimelineEvent>, e: TimelineEvent)
    requires IsStandalone(e)
    ensures Grouped(init + [e], GroupIds(init + [e])) == Grouped(init, GroupIds(init))
  {
    var s := init + [e];
    assert s[..|s| - 1] == init;
    assert GroupIds(s) == GroupIds(init);
    GroupedOutside(init, e, GroupIds(init));
  }

  /** An event of a group already seen joins that group. */
  lemma PartitionJoin(init: seq<TimelineEvent>, e: TimelineEvent)
    requires !IsStandalone(e) && e.groupId.value in GroupIds(init)
    ensures Grouped(init + [e], GroupIds(init + [e])) == Grouped(init, GroupIds(init)) + multiset{e}
  {
    var s := init + [e];
    var ids := GroupIds(init);
    assert s[..|s| - 1] == init;
    assert GroupIds(s) == ids;
    var k :| 0 <= k < |ids| && ids[k] == e.groupId.value;
    GroupIdsDistinct(init);
    GroupedInside(init, e, ids, k);
  }

  /** An event of a group not seen before starts that group, listed last. */
  lemma PartitionNew(init: seq<TimelineEvent>, e: TimelineEvent)
    requires !IsStandalone(e) && e.groupId.value !in GroupIds(init)
    ensures Grouped(init + [e], GroupIds(init + [e])) == Grouped(init, GroupIds(init)) + multiset{e}
  {
    var s := init + [e];
    assert s[..|s| - 1] == init;
    var ids := GroupIds(init);
    var g := e.groupId.value;
    GroupedOutside(init, e, ids);
    MembersSnoc(init, e, g);
    GroupIdsProps(init);
    assert Members(s, g) == [e];
    assert GroupIds(s) == ids + [g];
    assert (ids + [g])[..|ids|] == ids;
  }

  /** Every input event is shown by exactly one entry, as often as it occurs in the input. */
  lemma ShownOnce(events: seq<TimelineEvent>)
    ensures multiset(Flatten(EntriesOf(events))) == multiset(events)
  {
    var st := StandaloneEntries(StandaloneOf(events));
    var gr := GroupEntries(events, GroupIds(events));
    FlattenSort(st + gr);
    FlattenAppend(st, gr);
    FlattenStandalone(StandaloneOf(events));
    FlattenGroups(events, GroupIds(events));
    Partition(events);
  }
}
