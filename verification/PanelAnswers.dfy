/** What every answer of the scorecard service says, in terms of the rows themselves. */
module PanelAnswers {
  import opened Wrappers
  import opened Sizes
  import opened Transitions
  import Ledger
  import opened Scorecards
  import opened Panel
  import opened PanelAnchoring

  // ----- who may look

  /** An interviewer looks at interviews of the own panels, a recruiter at those of own requisitions. */
  ghost predicate MayLook(room: Room, caller: Caller, on: InterviewId) {
    && on in room.meetings
    && (caller.role == Interviewer ==> caller.id in room.meetings[on].panel)
    && (caller.role == Recruiter ==> caller.ownsRequisition)
  }

  /** A submitted card, for a recruiter; for an interviewer the own card, and with it submitted the others. */
  ghost predicate MaySee(room: Room, caller: Caller, on: InterviewId, card: Card) {
    && card in room.cards && card.interview == on
    && match caller.role
       case Recruiter => card.submittedAt.Some?
       case Interviewer =>
         card.interviewer == caller.id || (card.submittedAt.Some? && HasSubmitted(room, on, caller.id))
  }

  // ----- the panel

  /** The cards that recommend this. */
  ghost function Saying(cards: seq<Card>, recommendation: Recommendation): set<Card> {
    set card | card in cards && card.content.recommendation == Some(recommendation)
  }

  lemma SayingSnoc(cards: seq<Card>, card: Card, recommendation: Recommendation)
    requires card !in cards
    ensures |Saying(cards + [card], recommendation)|
         == |Saying(cards, recommendation)| + if card.content.recommendation == Some(recommendation) then 1 else 0
  {
    var before, after := Saying(cards, recommendation), Saying(cards + [card], recommendation);
    if card.content.recommendation == Some(recommendation) {
      assert after == before + {card};
    } else {
      assert after == before;
    }
  }

  /** Two points for a strong yes and one for a yes, as many off for the noes. */
  ghost function Points(cards: seq<Card>): int {
    2 * |Saying(cards, StrongYes)| + |Saying(cards, Yes)| - |Saying(cards, No)| - 2 * |Saying(cards, StrongNo)|
  }

  ghost function Voices(cards: seq<Card>): nat {
    |Saying(cards, StrongYes)| + |Saying(cards, Yes)| + |Saying(cards, No)| + |Saying(cards, StrongNo)|
  }

  lemma CountsSnoc(cards: seq<Card>, card: Card)
    requires card !in cards
    ensures Points(cards + [card]) - Points(cards) ==
            match card.content.recommendation
            case None => 0
            case Some(StrongNo) => -2
            case Some(No) => -1
            case Some(Yes) => 1
            case Some(StrongYes) => 2
    ensures Voices(cards + [card]) == Voices(cards) + if card.content.recommendation.Some? then 1 else 0
  {
    SayingSnoc(cards, card, StrongYes);
    SayingSnoc(cards, card, Yes);
    SayingSnoc(cards, card, No);
    SayingSnoc(cards, card, StrongNo);
  }

  lemma {:induction false} LeanCounts(cards: seq<Card>)
    requires DistinctCards(cards)
    ensures LeanTotal(cards).0 == Points(cards) as real && LeanTotal(cards).1 == Voices(cards)
  {
    if cards != [] {
      var last := |cards| - 1;
      LeanCounts(cards[..last]);
      assert cards == cards[..last] + [cards[last]];
      CountsSnoc(cards[..last], cards[last]);
    }
  }

  /** The mean of what the cards recommend, if any recommends something. */
  ghost predicate IsLean(cards: seq<Card>, lean: Option<real>) {
    && (lean.Some? <==> Voices(cards) > 0)
    && (lean.Some? ==> lean.value * Voices(cards) as real == Points(cards) as real)
  }

  lemma LeanIsMean(cards: seq<Card>)
    requires DistinctCards(cards)
    ensures IsLean(cards, PanelLean(cards))
  {
    LeanCounts(cards);
    if Voices(cards) > 0 {
      QuotientTimes(Points(cards) as real, Voices(cards) as real);
    }
  }

  /** Picking the cards out by the ids of those kept keeps the same cards. */
  lemma PickedById(cards: seq<Card>, keep: Card -> bool, card: Card)
    requires DistinctCards(cards)
    ensures card in Filter(cards, OneOf(Ids(Filter(cards, keep)))) <==> card in cards && keep(card)
  {
    var kept := Filter(cards, keep);
    FilterKeeps(cards, OneOf(Ids(kept)), card);
    FilterKeeps(cards, keep, card);
    if card in cards && card.id in Ids(kept) {
      var k :| 0 <= k < |kept| && kept[k].id == card.id;
      assert kept[k] in kept;
      FilterKeeps(cards, keep, kept[k]);
      SameId(cards, card, kept[k]);
    }
    if card in kept {
      var k :| 0 <= k < |kept| && kept[k] == card;
    }
  }

  lemma SameId(cards: seq<Card>, one: Card, two: Card)
    requires DistinctCards(cards) && one in cards && two in cards && one.id == two.id
    ensures one == two
  {
  }

  function Keeping(room: Room, caller: Caller, on: InterviewId): Card -> bool {
    if caller.role == Recruiter then IsSubmitted
    else ReadableBy(caller.id, OwnSubmitted(caller.id, CardsOn(room, on)))
  }

  lemma KeepingIs(room: Room, caller: Caller, on: InterviewId, card: Card)
    ensures card in CardsOn(room, on) && Keeping(room, caller, on)(card) <==> MaySee(room, caller, on, card)
  {
    FilterKeeps(room.cards, On(on), card);
    OwnSubmittedMeans(room, caller.id, on);
  }

  ghost function Data(room: Room, caller: Caller, on: InterviewId): seq<Card> {
    var all := CardsOn(room, on);
    Filter(all, OneOf(Ids(Filter(all, Keeping(room, caller, on)))))
  }

  lemma DataIs(room: Room, caller: Caller, on: InterviewId)
    requires Tidy(room)
    ensures DistinctCards(CardsOn(room, on)) && DistinctCards(Data(room, caller, on))
    ensures forall card :: card in Data(room, caller, on) <==> MaySee(room, caller, on, card)
  {
    var all := CardsOn(room, on);
    FilterStaysDistinct(room.cards, On(on));
    FilterStaysDistinct(all, OneOf(Ids(Filter(all, Keeping(room, caller, on)))));
    forall card ensures card in Data(room, caller, on) <==> MaySee(room, caller, on, card) {
      PickedById(all, Keeping(room, caller, on), card);
      KeepingIs(room, caller, on, card);
    }
  }

  /** How many of the submitted cards the caller is not shown. */
  ghost function Withheld(room: Room, caller: Caller, on: InterviewId): nat {
    if caller.role == Recruiter || HasSubmitted(room, on, caller.id) then 0 else |SubmittedOn(room, on)|
  }

  lemma SubmittedCount(room: Room, on: InterviewId)
    requires Tidy(room)
    ensures |Filter(CardsOn(room, on), IsSubmitted)| == |SubmittedOn(room, on)|
  {
    FilterStaysDistinct(room.cards, On(on));
    CountsCards(CardsOn(room, on), IsSubmitted);
    forall card ensures card in CardsOn(room, on) <==> card in room.cards && card.interview == on {
      FilterKeeps(room.cards, On(on), card);
    }
    assert Kept(CardsOn(room, on), IsSubmitted) == SubmittedOn(room, on);
  }

  lemma ShownCount(room: Room, caller: Caller, on: InterviewId)
    requires Tidy(room)
    ensures |Filter(Data(room, caller, on), IsSubmitted)| + Withheld(room, caller, on) == |SubmittedOn(room, on)|
  {
    DataIs(room, caller, on);
    var data := Data(room, caller, on);
    CountsCards(data, IsSubmitted);
    var shown := Kept(data, IsSubmitted);
    forall card ensures card in shown <==> card in SubmittedOn(room, on) && Withheld(room, caller, on) == 0 {
      if card in SubmittedOn(room, on) && Withheld(room, caller, on) == 0 {
        assert card in SubmittedOn(room, on);
        assert MaySee(room, caller, on, card);
      }
      if card in shown && caller.role == Interviewer && card.interviewer == caller.id {
        var k :| 0 <= k < |room.cards| && room.cards[k] == card;
        assert HasSubmitted(room, on, caller.id);
      }
    }
    assert shown == if Withheld(room, caller, on) == 0 then SubmittedOn(room, on) else {};
  }

  /**
   The answer to the panel query: refused to whoever may not look; otherwise exactly the cards the
   caller may see, each once, how many are submitted and how many of those are withheld, and the
   mean of what the cards shown recommend.
   */
  lemma PanelAnswerIs(room: Room, caller: Caller, on: InterviewId)
    requires Tidy(room)
    ensures PanelReply(room, caller, on) == Refused(NotFound) <==> !MayLook(room, caller, on)
    ensures MayLook(room, caller, on) ==>
              && PanelReply(room, caller, on).PanelView?
              && var reply := PanelReply(room, caller, on);
              && DistinctCards(reply.data)
              && (forall card :: card in reply.data <==> MaySee(room, caller, on, card))
              && reply.submittedCount == |SubmittedOn(room, on)|
              && reply.withheldCount == Withheld(room, caller, on)
              && IsLean(reply.data, reply.lean)
  {
    if MayLook(room, caller, on) {
      assert PanelReply(room, caller, on).data == Data(room, caller, on);
      DataIs(room, caller, on);
      SubmittedCount(room, on);
      ShownCount(room, caller, on);
      LeanIsMean(Data(room, caller, on));
    }
  }

  // ----- one's own form, and the list

  /** The form: the interview's status, the criteria, and one's own card if there is one. */
  lemma MineAnswerIs(room: Room, caller: Caller, on: InterviewId)
    requires Tidy(room)
    ensures MineReply(room, caller, on) == Refused(NotFound) <==> !MayLook(room, caller, on)
    ensures MayLook(room, caller, on) ==>
              && MineReply(room, caller, on).MyView?
              && var reply := MineReply(room, caller, on);
              && reply.status == room.meetings[on].status && reply.criteria == room.criteria
              && forall card :: reply.scorecard == Some(card) <==>
                   card in room.cards && card.interview == on && card.interviewer == caller.id
  {
    var index := IndexOf(room.cards, on, caller.id);
    forall card | card in room.cards && card.interview == on && card.interviewer == caller.id
      ensures index.Some? && room.cards[index.value] == card
    {
      var k :| 0 <= k < |room.cards| && room.cards[k] == card;
    }
  }

  /** The list: the interviews the caller may look at, and who of each panel has submitted. */
  lemma ListAnswerIs(room: Room, caller: Caller, on: InterviewId)
    ensures ListReply(room, caller).Listing?
    ensures var listed := ListReply(room, caller).meetings;
            && (on in listed <==> MayLook(room, caller, on))
            && (on in listed ==>
                  && listed[on].0 == room.meetings[on].status
                  && forall seat :: seat in listed[on].1 <==>
                       seat.user in room.meetings[on].panel && seat.hasSubmitted == HasSubmitted(room, on, seat.user))
  {
  }

  // ----- saving

  ghost predicate HasCard(room: Room, on: InterviewId, user: UserId, card: Card) {
    card in room.cards && card.interview == on && card.interviewer == user
  }

  ghost predicate OnPanel(room: Room, caller: Caller, on: InterviewId) {
    MayLook(room, caller, on) && caller.id in room.meetings[on].panel
  }

  /** An interview that is still to be scored, and no submitted card of the caller's. */
  ghost predicate StillOpen(room: Room, caller: Caller, on: InterviewId) {
    && OnPanel(room, caller, on)
    && (room.meetings[on].status == Ledger.Scheduled || room.meetings[on].status == Ledger.Completed)
    && !HasSubmitted(room, on, caller.id)
  }

  ghost predicate IncompleteSubmission(room: Room, input: Input) {
    input.submit && (!Complete(room.criteria, input.ratings) || input.recommendation.None?)
  }

  ghost predicate HasCriterion(room: Room, id: CriterionId) {
    exists k :: 0 <= k < |room.criteria| && room.criteria[k].id == id
  }

  /** Ratings the tables take: of criteria there are, and of none twice. */
  ghost predicate Takes(room: Room, ratings: seq<Rating>) {
    && (forall i :: 0 <= i < |ratings| ==> HasCriterion(room, ratings[i].criterion))
    && (forall i, j :: 0 <= i < j < |ratings| ==> ratings[i].criterion != ratings[j].criterion)
  }

  lemma TakesIsStorable(room: Room, ratings: seq<Rating>)
    ensures Takes(room, ratings) <==> Storable(room.criteria, ratings)
  {
    forall i | 0 <= i < |ratings|
      ensures Find(room.criteria, ratings[i].criterion).Some? <==> HasCriterion(room, ratings[i].criterion)
    {
      FindFinds(room.criteria, ratings[i].criterion);
    }
  }

  lemma OwnCard(room: Room, on: InterviewId, user: UserId)
    requires Tidy(room)
    ensures var index := IndexOf(room.cards, on, user);
            (index.Some? && room.cards[index.value].submittedAt.Some?) <==> HasSubmitted(room, on, user)
  {
    var index := IndexOf(room.cards, on, user);
    if HasSubmitted(room, on, user) {
      var k :| 0 <= k < |room.cards| && room.cards[k].interview == on
        && room.cards[k].interviewer == user && room.cards[k].submittedAt.Some?;
      assert index.Some? && index.value == k;
    }
  }

  /** What is wrong with a save, once for each refusal; no two of them hold of the same one. */
  ghost predicate SaveWrong(room: Room, caller: Caller, on: InterviewId, input: Input, why: Refusal) {
    match why
    case NotFound => !MayLook(room, caller, on)
    case Forbidden => MayLook(room, caller, on) && !OnPanel(room, caller, on)
    case Conflict => OnPanel(room, caller, on) && !StillOpen(room, caller, on)
    case Unprocessable => StillOpen(room, caller, on) && IncompleteSubmission(room, input)
    case DatabaseError =>
      StillOpen(room, caller, on) && !IncompleteSubmission(room, input) && !Takes(room, input.ratings)
  }

  /** A save is refused exactly for what is wrong with it. */
  lemma SaveRefusedExactlyWhen(room: Room, caller: Caller, on: InterviewId, input: Input, why: Refusal)
    requires Tidy(room)
    ensures SaveRefusal(room, caller, on, input) == Some(why) <==> SaveWrong(room, caller, on, input, why)
  {
    OwnCard(room, on, caller.id);
    TakesIsStorable(room, input.ratings);
  }

  /** The card a save leaves behind. */
  ghost predicate Holds(card: Card, room: Room, on: InterviewId, user: UserId, input: Input) {
    && card.interview == on && card.interviewer == user
    && card.submittedAt == (if input.submit then Some(room.now) else None)
    && card.content.recommendation == input.recommendation && card.content.summary == input.summary
    && card.content.ratings == input.ratings && card.content.score == Score(room.criteria, input.ratings)
  }

  /**
   A save that is not refused leaves the caller one card on the interview, under the old id if
   there was one, with what was sent and its score; nobody else's card changes.
   */
  lemma SaveLeaves(room: Room, caller: Caller, on: InterviewId, input: Input, card: Card)
    requires Tidy(room) && SaveRefusal(room, caller, on, input).None?
    ensures var after, reply := After(room, Save(caller, on, input)), ReplyTo(room, Save(caller, on, input));
            && after.now == room.now && after.criteria == room.criteria && after.meetings == room.meetings
            && reply == Saved(SavedId(room, caller, on), input.submit, Score(room.criteria, input.ratings))
            && (HasCard(after, on, caller.id, card) <==>
                  Holds(card, room, on, caller.id, input) && card.id == SavedId(room, caller, on))
            && (!(card.interview == on && card.interviewer == caller.id) ==>
                  (card in after.cards <==> card in room.cards))
    ensures HasCard(room, on, caller.id, card) ==> SavedId(room, caller, on) == card.id
    ensures (forall other :: !HasCard(room, on, caller.id, other)) ==>
              forall k :: 0 <= k < |room.cards| ==> room.cards[k].id != SavedId(room, caller, on)
  {
    var after := After(room, Save(caller, on, input));
    var index := IndexOf(room.cards, on, caller.id);
    var at := if index.Some? then index.value else |room.cards|;
    assert after.cards[at] == Written(room, caller, on, input, SavedId(room, caller, on));
    StepKeepsTidy(room, Save(caller, on, input));
    if card in after.cards {
      var k :| 0 <= k < |after.cards| && after.cards[k] == card;
    }
    if card in room.cards {
      var k :| 0 <= k < |room.cards| && room.cards[k] == card;
      assert k != at ==> after.cards[k] == card;
    }
    if index.Some? {
      assert HasCard(room, on, caller.id, room.cards[index.value]);
    }
  }
}
