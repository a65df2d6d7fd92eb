/** Saving scorecards, and who may read whose. */
module Panel {
  import opened Wrappers
  import opened Transitions
  import Ledger
  import opened Scorecards

  type UserId = Transitions.UserId
  type InterviewId = Ledger.InterviewId

  datatype Recommendation = StrongNo | No | Yes | StrongYes

  /** What a scorecard says. */
  datatype Content = Content(
    recommendation: Option<Recommendation>,
    summary: Option<string>,
    score: Option<real>,
    ratings: seq<Rating>)

  datatype Card = Card(
    id: nat,
    interview: InterviewId,
    interviewer: UserId,
    submittedAt: Option<nat>,
    content: Content)

  datatype Meeting = Meeting(status: Ledger.InterviewStatus, panel: set<UserId>)

  /** The part of the database the scorecard service works on. */
  datatype Room = Room(now: nat, criteria: seq<Criterion>, meetings: map<InterviewId, Meeting>, cards: seq<Card>)

  datatype Caller = Caller(id: UserId, role: Role, ownsRequisition: bool)

  datatype Input = Input(
    ratings: seq<Rating>,
    recommendation: Option<Recommendation>,
    summary: Option<string>,
    submit: bool)

  datatype Refusal = NotFound | Forbidden | Conflict | Unprocessable | DatabaseError

  datatype Seat = Seat(user: UserId, hasSubmitted: bool)

  datatype Reply =
    | Refused(why: Refusal)
    | Saved(id: nat, submitted: bool, score: Option<real>)
    | PanelView(data: seq<Card>, submittedCount: nat, withheldCount: int, lean: Option<real>)
    | MyView(status: Ledger.InterviewStatus, criteria: seq<Criterion>, scorecard: Option<Card>)
    | Listing(meetings: map<InterviewId, (Ledger.InterviewStatus, set<Seat>)>)
    | Done

  datatype Op =
    | Save(caller: Caller, interview: InterviewId, input: Input)
    | AskPanel(caller: Caller, interview: InterviewId)
    | AskMine(caller: Caller, interview: InterviewId)
    | AskList(caller: Caller)
    | Schedule(interview: InterviewId, panel: set<UserId>)
    | SetStatus(interview: InterviewId, status: Ledger.InterviewStatus)
    | Tick(ms: nat)

  // ----- reading

  function Filter(cards: seq<Card>, keep: Card -> bool): seq<Card> {
    if cards == [] then []
    else
      var last := cards[|cards| - 1];
      Filter(cards[..|cards| - 1], keep) + if keep(last) then [last] else []
  }

  function On(interview: InterviewId): Card -> bool {
    (card: Card) => card.interview == interview
  }

  function OneOf(ids: set<nat>): Card -> bool {
    (card: Card) => card.id in ids
  }

  function ReadableBy(viewer: UserId, ownSubmitted: bool): Card -> bool {
    (card: Card) => card.interviewer == viewer || (ownSubmitted && card.submittedAt.Some?)
  }

  predicate IsSubmitted(card: Card) {
    card.submittedAt.Some?
  }

  function Ids(cards: seq<Card>): set<nat> {
    set k | 0 <= k < |cards| :: cards[k].id
  }

  function CardsOn(room: Room, interview: InterviewId): seq<Card> {
    Filter(room.cards, On(interview))
  }

  predicate OwnSubmitted(viewer: UserId, cards: seq<Card>) {
    exists k :: 0 <= k < |cards| && cards[k].interviewer == viewer && cards[k].submittedAt.Some?
  }

  /** The anchoring rule: a colleague's card only once one's own is submitted. */
  function VisibleScorecards(caller: Caller, cards: seq<Card>): seq<Card> {
    if caller.role == Recruiter then Filter(cards, IsSubmitted)
    else Filter(cards, ReadableBy(caller.id, OwnSubmitted(caller.id, cards)))
  }

  function WeightOf(recommendation: Recommendation): real {
    match recommendation
    case StrongNo => -2.0
    case No => -1.0
    case Yes => 1.0
    case StrongYes => 2.0
  }

  function LeanTotal(cards: seq<Card>): (real, nat) {
    if cards == [] then (0.0, 0)
    else
      var (total, count) := LeanTotal(cards[..|cards| - 1]);
      var recommendation := cards[|cards| - 1].content.recommendation;
      if recommendation.None? then (total, count) else (total + WeightOf(recommendation.value), count + 1)
  }

  function PanelLean(cards: seq<Card>): Option<real> {
    var (total, count) := LeanTotal(cards);
    if count == 0 then None else Some(total / count as real)
  }

  lemma {:induction false} LeanTotalWithinScale(cards: seq<Card>)
    ensures var (total, count) := LeanTotal(cards);
            && -2.0 * count as real <= total <= 2.0 * count as real
            && (count > 0 <==> exists k :: 0 <= k < |cards| && cards[k].content.recommendation.Some?)
  {
    if cards != [] {
      var last := |cards| - 1;
      LeanTotalWithinScale(cards[..last]);
      if LeanTotal(cards[..last]).1 > 0 {
        var k :| 0 <= k < last && cards[..last][k].content.recommendation.Some?;
        assert cards[k].content.recommendation.Some?;
      }
      if exists k :: 0 <= k < |cards| && cards[k].content.recommendation.Some? {
        var k :| 0 <= k < |cards| && cards[k].content.recommendation.Some?;
        assert k < last ==> cards[..last][k] == cards[k];
      }
    }
  }

  lemma QuotientWithinScale(total: real, count: nat)
    requires count > 0 && -2.0 * count as real <= total <= 2.0 * count as real
    ensures -2.0 <= total / count as real <= 2.0
  {
    MeanOfEquals(2.0, count);
    MeanOfEquals(-2.0, count);
    if total < 2.0 * count as real {
      QuotientGrows(total, 2.0 * count as real, count as real);
    }
    if total > -2.0 * count as real {
      QuotientGrows(-2.0 * count as real, total, count as real);
    }
  }

  /** A lean is there as soon as one readable card recommends anything, and stays on the scale. */
  lemma LeanIsOnTheScale(cards: seq<Card>)
    ensures PanelLean(cards).Some? <==> exists k :: 0 <= k < |cards| && cards[k].content.recommendation.Some?
    ensures PanelLean(cards).Some? ==> -2.0 <= PanelLean(cards).value <= 2.0
  {
    LeanTotalWithinScale(cards);
    var (total, count) := LeanTotal(cards);
    if count > 0 {
      QuotientWithinScale(total, count);
    }
  }

  lemma OneMore(weight: real, count: nat)
    ensures weight * (count + 1) as real == weight * count as real + weight
  {
  }

  lemma MeanOfEquals(weight: real, count: nat)
    requires count > 0
    ensures weight * count as real / count as real == weight
  {
  }

  lemma {:induction false} UnanimousTotal(cards: seq<Card>, recommendation: Recommendation)
    requires forall k :: 0 <= k < |cards| ==>
               cards[k].content.recommendation == None || cards[k].content.recommendation == Some(recommendation)
    ensures LeanTotal(cards).0 == WeightOf(recommendation) * LeanTotal(cards).1 as real
  {
    if cards != [] {
      var rest := cards[..|cards| - 1];
      UnanimousTotal(rest, recommendation);
      OneMore(WeightOf(recommendation), LeanTotal(rest).1);
    }
  }

  /** Where everybody who recommends says the same, that is the lean. */
  lemma UnanimousLean(cards: seq<Card>, recommendation: Recommendation)
    requires forall k :: 0 <= k < |cards| ==>
               cards[k].content.recommendation == None || cards[k].content.recommendation == Some(recommendation)
    ensures PanelLean(cards).Some? ==> PanelLean(cards).value == WeightOf(recommendation)
  {
    UnanimousTotal(cards, recommendation);
    if LeanTotal(cards).1 > 0 {
      MeanOfEquals(WeightOf(recommendation), LeanTotal(cards).1);
    }
  }

  predicate Viewable(room: Room, caller: Caller, interview: InterviewId) {
    && interview in room.meetings
    && if caller.role == Interviewer then caller.id in room.meetings[interview].panel else caller.ownsRequisition
  }

  function PanelReply(room: Room, caller: Caller, interview: InterviewId): Reply {
    if !Viewable(room, caller, interview) then Refused(NotFound)
    else
      var all := CardsOn(room, interview);
      var readable := VisibleScorecards(caller, all);
      var data := Filter(all, OneOf(Ids(readable)));
      var submittedCount := |Filter(all, IsSubmitted)|;
      PanelView(data, submittedCount, submittedCount - |Filter(data, IsSubmitted)|, PanelLean(data))
  }

  /** Where a user's card on an interview is, if there is one. */
  function IndexOf(cards: seq<Card>, interview: InterviewId, user: UserId): (index: Option<nat>)
    ensures index.Some? ==>
              index.value < |cards| && cards[index.value].interview == interview
              && cards[index.value].interviewer == user
    ensures index.None? ==>
              forall k :: 0 <= k < |cards| ==> !(cards[k].interview == interview && cards[k].interviewer == user)
  {
    if cards == [] then None
    else
      var last := |cards| - 1;
      if cards[last].interview == interview && cards[last].interviewer == user then Some(last)
      else IndexOf(cards[..last], interview, user)
  }

  function MineReply(room: Room, caller: Caller, interview: InterviewId): Reply {
    if !Viewable(room, caller, interview) then Refused(NotFound)
    else
      var index := IndexOf(room.cards, interview, caller.id);
      MyView(room.meetings[interview].status, room.criteria,
             if index.None? then None else Some(room.cards[index.value]))
  }

  predicate HasSubmitted(room: Room, interview: InterviewId, user: UserId) {
    exists k :: 0 <= k < |room.cards| && room.cards[k].interview == interview
      && room.cards[k].interviewer == user && room.cards[k].submittedAt.Some?
  }

  function SeatsOf(room: Room, interview: InterviewId): set<Seat>
    requires interview in room.meetings
  {
    set user | user in room.meetings[interview].panel :: Seat(user, HasSubmitted(room, interview, user))
  }

  function ListReply(room: Room, caller: Caller): Reply {
    Listing(map id | id in room.meetings && Viewable(room, caller, id) :: (room.meetings[id].status, SeatsOf(room, id)))
  }

  // ----- saving

  /** What the database takes for the ratings of one card: known criteria, each at most once. */
  predicate Storable(criteria: seq<Criterion>, ratings: seq<Rating>) {
    && (forall i :: 0 <= i < |ratings| ==> Find(criteria, ratings[i].criterion).Some?)
    && (forall i, j :: 0 <= i < j < |ratings| ==> ratings[i].criterion != ratings[j].criterion)
  }

  /** The checks in their order; none of them reads what anybody's card says. */
  ghost function SaveRefusal(room: Room, caller: Caller, interview: InterviewId, input: Input): Option<Refusal> {
    if !Viewable(room, caller, interview) then Some(NotFound)
    else if caller.id !in room.meetings[interview].panel then Some(Forbidden)
    else if !Ledger.OwesScorecards(room.meetings[interview].status) then Some(Conflict)
    else
      var index := IndexOf(room.cards, interview, caller.id);
      if index.Some? && room.cards[index.value].submittedAt.Some? then Some(Conflict)
      else if input.submit && !Complete(room.criteria, input.ratings) then Some(Unprocessable)
      else if input.submit && input.recommendation.None? then Some(Unprocessable)
      else if !Storable(room.criteria, input.ratings) then Some(DatabaseError)
      else None
  }

  function Written(room: Room, caller: Caller, interview: InterviewId, input: Input, id: nat): Card {
    Card(id, interview, caller.id, if input.submit then Some(room.now) else None,
         Content(input.recommendation, input.summary, Score(room.criteria, input.ratings), input.ratings))
  }

  /** Insert or replace: a card is saved in full. */
  function Upserted(room: Room, caller: Caller, interview: InterviewId, input: Input): seq<Card> {
    var index := IndexOf(room.cards, interview, caller.id);
    if index.None? then room.cards + [Written(room, caller, interview, input, |room.cards|)]
    else room.cards[index.value := Written(room, caller, interview, input, room.cards[index.value].id)]
  }

  function SavedId(room: Room, caller: Caller, interview: InterviewId): nat {
    var index := IndexOf(room.cards, interview, caller.id);
    if index.None? then |room.cards| else room.cards[index.value].id
  }

  ghost function After(room: Room, op: Op): Room {
    match op
    case Save(caller, interview, input) =>
      if SaveRefusal(room, caller, interview, input).Some? then room
      else room.(cards := Upserted(room, caller, interview, input))
    case Schedule(interview, panel) =>
      if interview in room.meetings then room
      else room.(meetings := room.meetings[interview := Meeting(Ledger.Scheduled, panel)])
    case SetStatus(interview, status) =>
      if interview !in room.meetings then room
      else room.(meetings := room.meetings[interview := room.meetings[interview].(status := status)])
    case Tick(ms) => room.(now := room.now + ms)
    case _ => room
  }

  ghost function ReplyTo(room: Room, op: Op): Reply {
    match op
    case Save(caller, interview, input) =>
      var refusal := SaveRefusal(room, caller, interview, input);
      if refusal.Some? then Refused(refusal.value)
      else Saved(SavedId(room, caller, interview), input.submit, Score(room.criteria, input.ratings))
    case AskPanel(caller, interview) => PanelReply(room, caller, interview)
    case AskMine(caller, interview) => MineReply(room, caller, interview)
    case AskList(caller) => ListReply(room, caller)
    case _ => Done
  }

  // ----- invariants

  /** Ids name cards, and a user has at most one card on an interview. */
  ghost predicate Tidy(room: Room) {
    && (forall k :: 0 <= k < |room.cards| ==> room.cards[k].id == k)
    && (forall j, k :: 0 <= j < k < |room.cards| && room.cards[j].interview == room.cards[k].interview ==>
          room.cards[j].interviewer != room.cards[k].interviewer)
  }

  lemma StepKeepsTidy(room: Room, op: Op)
    requires Tidy(room)
    ensures Tidy(After(room, op))
  {
  }

  /** A submitted scorecard is a record: nothing that happens later changes it. */
  lemma StepKeepsSubmitted(room: Room, op: Op, k: nat)
    requires Tidy(room) && k < |room.cards| && room.cards[k].submittedAt.Some?
    ensures k < |After(room, op).cards| && After(room, op).cards[k] == room.cards[k]
  {
  }

  ghost function AfterAll(room: Room, ops: seq<Op>): Room
    decreases |ops|
  {
    if ops == [] then room else AfterAll(After(room, ops[0]), ops[1..])
  }

  lemma {:induction false} SubmittedIsFinal(room: Room, ops: seq<Op>, k: nat)
    requires Tidy(room) && k < |room.cards| && room.cards[k].submittedAt.Some?
    ensures k < |AfterAll(room, ops).cards| && AfterAll(room, ops).cards[k] == room.cards[k]
    decreases |ops|
  {
    if ops != [] {
      StepKeepsTidy(room, ops[0]);
      StepKeepsSubmitted(room, ops[0], k);
      SubmittedIsFinal(After(room, ops[0]), ops[1..], k);
    }
  }
}
