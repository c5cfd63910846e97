// orchestrator/src/client/pages/InProgressBoardPage.tsx: the kanban board
// of in-progress applications. Each job becomes a card placed in the stage
// of its latest stage event (or "applied" when it has none); the lanes hold
// the cards of one stage each, most recent first.
module InProgressBoard {
  import opened Wrappers
  import opened Sorting
  import ReviewService

  type Stage = ReviewService.Stage

  /** `APPLICATION_STAGES`, in board order. */
  const APPLICATION_STAGES: seq<Stage> := [
    ReviewService.Applied, ReviewService.RecruiterScreen, ReviewService.Assessment,
    ReviewService.HiringManagerScreen, ReviewService.TechnicalInterview,
    ReviewService.Onsite, ReviewService.Offer, ReviewService.Closed
  ]

  /** The fields of a stage event the board reads; `occurredAt` is a number of seconds. */
  datatype BoardEvent = BoardEvent(toStage: Stage, occurredAt: int)

  /** The fields of a job list item the board reads. */
  datatype BoardJob = BoardJob(id: string, discoveredAt: string)

  /** `BoardCard`: `latestEventAt` is absent when the job has no events. */
  datatype BoardCard = BoardCard(job: BoardJob, stage: Stage, latestEventAt: Option<int>)

  lemma StagesDistinct()
    ensures forall i, j :: 0 <= i < j < |APPLICATION_STAGES| ==> APPLICATION_STAGES[i] != APPLICATION_STAGES[j]
  {
  }

  /** Every stage has a lane. */
  lemma EveryStageListed(s: Stage)
    ensures s in APPLICATION_STAGES
  {
    match s
    case Applied => assert APPLICATION_STAGES[0] == s;
    case RecruiterScreen => assert APPLICATION_STAGES[1] == s;
    case Assessment => assert APPLICATION_STAGES[2] == s;
    case HiringManagerScreen => assert APPLICATION_STAGES[3] == s;
    case TechnicalInterview => assert APPLICATION_STAGES[4] == s;
    case Onsite => assert APPLICATION_STAGES[5] == s;
    case Offer => assert APPLICATION_STAGES[6] == s;
    case Closed => assert APPLICATION_STAGES[7] == s;
  }

  // ---------------------------------------------------------------- ordering

  /**
    * `sortByRecent(a, b)`: both with events, the later event first; a card
    * with events before one without; neither, the later discovery first.
    * `parseTime` is `Date.parse`.
    */
  function SortByRecent(a: BoardCard, b: BoardCard, parseTime: string -> int): int
  {
    if a.latestEventAt.Some? && b.latestEventAt.Some? then b.latestEventAt.value - a.latestEventAt.value
    else if a.latestEventAt.Some? then -1
    else if b.latestEventAt.Some? then 1
    else parseTime(b.job.discoveredAt) - parseTime(a.job.discoveredAt)
  }

  /** `a` sorts strictly before `b`. */
  predicate Ahead(a: BoardCard, b: BoardCard, parseTime: string -> int)
  {
    (a.latestEventAt.Some? && b.latestEventAt.Some? && a.latestEventAt.value > b.latestEventAt.value) ||
    (a.latestEventAt.Some? && b.latestEventAt.None?) ||
    (a.latestEventAt.None? && b.latestEventAt.None? && parseTime(a.job.discoveredAt) > parseTime(b.job.discoveredAt))
  }

  /** The comparator is negative exactly when `a` goes first, positive exactly when `b` does, and antisymmetric. */
  lemma SortByRecentOrder(a: BoardCard, b: BoardCard, parseTime: string -> int)
    ensures SortByRecent(a, b, parseTime) < 0 <==> Ahead(a, b, parseTime)
    ensures SortByRecent(a, b, parseTime) > 0 <==> Ahead(b, a, parseTime)
    ensures SortByRecent(a, b, parseTime) == -SortByRecent(b, a, parseTime)
  {
  }

  /** No card is ahead of one before it. */
  predicate Ranked(s: seq<BoardCard>, parseTime: string -> int)
  {
    forall i, j :: 0 <= i < j < |s| ==> !Ahead(s[j], s[i], parseTime)
  }

  /** Puts `x` in front of the first card that is not ahead of it. */
  function InsertCard(x: BoardCard, s: seq<BoardCard>, parseTime: string -> int): seq<BoardCard>
  {
    if s == [] || !Ahead(s[0], x, parseTime) then [x] + s else [s[0]] + InsertCard(x, s[1..], parseTime)
  }

  /** The stable `sort(sortByRecent)`. */
  function SortCards(s: seq<BoardCard>, parseTime: string -> int): seq<BoardCard>
  {
    if s == [] then [] else InsertCard(s[0], SortCards(s[1..], parseTime), parseTime)
  }

  lemma RankedCons(y: BoardCard, r: seq<BoardCard>, parseTime: string -> int)
    requires Ranked(r, parseTime)
    requires forall i :: 0 <= i < |r| ==> !Ahead(r[i], y, parseTime)
    ensures Ranked([y] + r, parseTime)
  {
    forall i, j | 0 <= i < j < |[y] + r| ensures !Ahead(([y] + r)[j], ([y] + r)[i], parseTime) {
      if i > 0 {
        assert ([y] + r)[i] == r[i - 1];
      }
      assert ([y] + r)[j] == r[j - 1];
    }
  }

  lemma InsertCardProps(x: BoardCard, s: seq<BoardCard>, parseTime: string -> int)
    requires Ranked(s, parseTime)
    ensures Ranked(InsertCard(x, s, parseTime), parseTime)
    ensures multiset(InsertCard(x, s, parseTime)) == multiset(s) + multiset{x}
  {
    InsertCardMultiset(x, s, parseTime);
    InsertCardRanked(x, s, parseTime);
  }

  lemma {:induction false} InsertCardMultiset(x: BoardCard, s: seq<BoardCard>, parseTime: string -> int)
    ensures multiset(InsertCard(x, s, parseTime)) == multiset(s) + multiset{x}
  {
    if s != [] && Ahead(s[0], x, parseTime) {
      InsertCardMultiset(x, s[1..], parseTime);
      MultisetOfCons(s);
    }
  }

  lemma {:induction false} InsertCardRanked(x: BoardCard, s: seq<BoardCard>, parseTime: string -> int)
    requires Ranked(s, parseTime)
    ensures Ranked(InsertCard(x, s, parseTime), parseTime)
  {
    if s == [] || !Ahead(s[0], x, parseTime) {
      if s != [] {
        RankedCons(x, s, parseTime);
      }
    } else {
      var tail := s[1..];
      assert Ranked(tail, parseTime);
      InsertCardRanked(x, tail, parseTime);
      InsertCardMultiset(x, tail, parseTime);
      NoneAheadOfHead(x, s, InsertCard(x, tail, parseTime), parseTime);
      RankedCons(s[0], InsertCard(x, tail, parseTime), parseTime);
    }
  }

  /** The cards after the head, with `x` inserted, are none of them ahead of the head. */
  lemma NoneAheadOfHead(x: BoardCard, s: seq<BoardCard>, r: seq<BoardCard>, parseTime: string -> int)
    requires s != [] && Ranked(s, parseTime) && Ahead(s[0], x, parseTime)
    requires multiset(r) == multiset(s[1..]) + multiset{x}
    ensures forall i :: 0 <= i < |r| ==> !Ahead(r[i], s[0], parseTime)
  {
    var tail := s[1..];
    forall i | 0 <= i < |r| ensures !Ahead(r[i], s[0], parseTime) {
      assert r[i] in multiset(r);
      if r[i] != x {
        assert r[i] in multiset(tail);
        var k :| 0 <= k < |tail| && tail[k] == r[i];
        assert s[k + 1] == r[i];
      }
    }
  }

  /** The sort ranks the cards by `sortByRecent` and keeps every card. */
  lemma {:induction false} SortCardsProps(s: seq<BoardCard>, parseTime: string -> int)
    ensures Ranked(SortCards(s, parseTime), parseTime)
    ensures multiset(SortCards(s, parseTime)) == multiset(s)
  {
    if s != [] {
      SortCardsProps(s[1..], parseTime);
      InsertCardProps(s[0], SortCards(s[1..], parseTime), parseTime);
      MultisetOfCons(s);
    }
  }

  // ---------------------------------------------------------------- cards

  /** The sort key of `sort((a, b) => a.occurredAt - b.occurredAt)`, stated as a descending key. */
  function NegTime(e: BoardEvent): int
  {
    -e.occurredAt
  }

  /** The events in ascending `occurredAt` order, ties kept in fetch order. */
  function SortEvents(events: seq<BoardEvent>): seq<BoardEvent>
  {
    SortDesc(events, NegTime)
  }

  /** `resolveCurrentStage`: the last event's stage and time, or "applied" with no time. */
  function ResolveCurrentStage(events: Option<seq<BoardEvent>>): (r: (Stage, Option<int>))
    ensures events.None? || events.value == [] ==> r == (ReviewService.Applied, None)
    ensures events.Some? && events.value != [] ==>
      r.0 == events.value[|events.value| - 1].toStage && r.1 == Some(events.value[|events.value| - 1].occurredAt)
  {
    if events.Some? && events.value != [] then
      var latest := events.value[|events.value| - 1];
      (latest.toStage, Some(latest.occurredAt))
    else (ReviewService.Applied, None)
  }

  /** The card of one job; `result` is absent when fetching its events was rejected. */
  function CardOf(job: BoardJob, result: Option<seq<BoardEvent>>): BoardCard
  {
    var events := if result.Some? then Some(SortEvents(result.value)) else None;
    var resolved := ResolveCurrentStage(events);
    BoardCard(job, resolved.0, resolved.1)
  }

  /**
    * A job with no events, or whose events could not be fetched, is in
    * "applied" with no time; otherwise its card carries the latest event
    * time, and the stage of an event with that time.
    */
  lemma CardOfLatest(job: BoardJob, result: Option<seq<BoardEvent>>)
    ensures CardOf(job, result).job == job
    ensures result.None? || result.value == [] ==>
      CardOf(job, result).stage == ReviewService.Applied && CardOf(job, result).latestEventAt.None?
    ensures result.Some? && result.value != [] ==>
      var card := CardOf(job, result);
      card.latestEventAt.Some? &&
      (forall e :: e in result.value ==> e.occurredAt <= card.latestEventAt.value) &&
      BoardEvent(card.stage, card.latestEventAt.value) in result.value
  {
    if result.Some? && result.value != [] {
      LastIsLatest(result.value);
    }
  }

  /** The last of the sorted events is one of them, and no event is later. */
  lemma LastIsLatest(events: seq<BoardEvent>)
    requires events != []
    ensures SortEvents(events) != []
    ensures var last := SortEvents(events)[|SortEvents(events)| - 1];
      last in events && forall e :: e in events ==> e.occurredAt <= last.occurredAt
  {
    var sorted := SortEvents(events);
    SortDescProps(events, NegTime);
    var last := sorted[|sorted| - 1];
    assert last in multiset(events) by {
      assert last in multiset(sorted);
    }
    forall e | e in events ensures e.occurredAt <= last.occurredAt {
      assert e in multiset(sorted);
      var k :| 0 <= k < |sorted| && sorted[k] == e;
      if k < |sorted| - 1 {
        assert NegTime(sorted[k]) >= NegTime(sorted[|sorted| - 1]);
      }
    }
  }

  /** `nextCards`: one card per job, in job order; `results[i]` is the outcome of fetching job `i`'s events. */
  function NextCards(jobs: seq<BoardJob>, results: seq<Option<seq<BoardEvent>>>): (r: seq<BoardCard>)
    requires |results| == |jobs|
    ensures |r| == |jobs| && forall i :: 0 <= i < |jobs| ==> r[i].job == jobs[i]
  {
    seq(|jobs|, i requires 0 <= i < |jobs| => CardOf(jobs[i], results[i]))
  }

  // ---------------------------------------------------------------- lanes

  /** The cards of `cards` in stage `s`, in order. */
  function LaneOf(cards: seq<BoardCard>, s: Stage): seq<BoardCard>
  {
    if cards == [] then []
    else LaneOf(cards[..|cards| - 1], s) + (if cards[|cards| - 1].stage == s then [cards[|cards| - 1]] else [])
  }

  /** A lane holds every card of its stage, as often as it occurs, and no other card. */
  lemma {:induction false} LaneOfCount(cards: seq<BoardCard>, s: Stage, c: BoardCard)
    ensures multiset(LaneOf(cards, s))[c] == if c.stage == s then multiset(cards)[c] else 0
  {
    if cards != [] {
      var init := cards[..|cards| - 1];
      LaneOfCount(init, s, c);
      assert cards == init + [cards[|cards| - 1]];
    }
  }

  /** The `grouped` record before any card is pushed. */
  const EMPTY_LANES: map<Stage, seq<BoardCard>> := map[
    ReviewService.Applied := [], ReviewService.RecruiterScreen := [], ReviewService.Assessment := [],
    ReviewService.HiringManagerScreen := [], ReviewService.TechnicalInterview := [],
    ReviewService.Onsite := [], ReviewService.Offer := [], ReviewService.Closed := []
  ]

  lemma EmptyLanes()
    ensures forall s :: s in EMPTY_LANES && EMPTY_LANES[s] == []
  {
    forall s ensures s in EMPTY_LANES && EMPTY_LANES[s] == [] {
      match s
      case Applied =>
      case RecruiterScreen =>
      case Assessment =>
      case HiringManagerScreen =>
      case TechnicalInterview =>
      case Onsite =>
      case Offer =>
      case Closed =>
    }
  }

  /**
    * The lanes memo: each card is pushed onto its stage's lane in card order,
    * then every lane is sorted with `sortByRecent`.
    */
  method BuildLanes(cards: seq<BoardCard>, parseTime: string -> int) returns (grouped: map<Stage, seq<BoardCard>>)
    ensures forall s :: s in grouped && grouped[s] == SortCards(LaneOf(cards, s), parseTime)
  {
    grouped := EMPTY_LANES;
    EmptyLanes();
    assert cards[..0] == [];
    for i := 0 to |cards|
      invariant forall s :: s in grouped && grouped[s] == LaneOf(cards[..i], s)
    {
      assert cards[..i + 1][..i] == cards[..i];
      var card := cards[i];
      grouped := grouped[card.stage := grouped[card.stage] + [card]];
    }
    assert cards[..|cards|] == cards;
    StagesDistinct();
    for k := 0 to |APPLICATION_STAGES|
      invariant forall s :: s in grouped
      invariant forall j :: 0 <= j < k ==> grouped[APPLICATION_STAGES[j]] == SortCards(LaneOf(cards, APPLICATION_STAGES[j]), parseTime)
      invariant forall j :: k <= j < |APPLICATION_STAGES| ==> grouped[APPLICATION_STAGES[j]] == LaneOf(cards, APPLICATION_STAGES[j])
    {
      var stage := APPLICATION_STAGES[k];
      grouped := grouped[stage := SortCards(grouped[stage], parseTime)];
    }
    forall s ensures grouped[s] == SortCards(LaneOf(cards, s), parseTime) {
      EveryStageListed(s);
    }
  }

  /**
    * Every card appears, as often as it occurs, in the lane of its stage and
    * in no other, and each lane is ranked by `sortByRecent`.
    */
  lemma LanesPartition(cards: seq<BoardCard>, parseTime: string -> int, s: Stage, c: BoardCard)
    ensures Ranked(SortCards(LaneOf(cards, s), parseTime), parseTime)
    ensures multiset(SortCards(LaneOf(cards, s), parseTime))[c] == if c.stage == s then multiset(cards)[c] else 0
  {
    SortCardsProps(LaneOf(cards, s), parseTime);
    LaneOfCount(cards, s, c);
  }
}
