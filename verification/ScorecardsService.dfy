/** The scorecard service as it runs, and what its check outside the transaction leaves open. */
module ScorecardsServices {
  import opened Wrappers
  import opened Transitions
  import Ledger
  import opened Scorecards
  import opened Panel

  class ScorecardsService {
    var room: Room

    constructor (room: Room)
      ensures this.room == room
    {
      this.room := room;
    }

    /** Check, score, then replace the card and its ratings together or not at all. */
    method Save(caller: Caller, interview: InterviewId, input: Input) returns (reply: Reply)
      modifies this
      ensures room == After(old(room), Op.Save(caller, interview, input))
      ensures reply == ReplyTo(old(room), Op.Save(caller, interview, input))
    {
      if !Viewable(room, caller, interview) {
        return Refused(NotFound);
      }
      if caller.id !in room.meetings[interview].panel {
        return Refused(Forbidden);
      }
      if !Ledger.OwesScorecards(room.meetings[interview].status) {
        return Refused(Conflict);
      }
      var existing := IndexOf(room.cards, interview, caller.id);
      if existing.Some? && room.cards[existing.value].submittedAt.Some? {
        return Refused(Conflict);
      }
      if input.submit {
        var verdict := ValidateRatings(room.criteria, input.ratings);
        if verdict.Invalid? || input.recommendation.None? {
          return Refused(Unprocessable);
        }
      }
      var score := SummarizeScorecard(room.criteria, input.ratings);
      var before := room;
      var id := Upsert(caller.id, interview, input, score);
      ReplaceRatings(id.0, []);
      if !Storable(room.criteria, input.ratings) {
        room := before;
        return Refused(DatabaseError);
      }
      ReplaceRatings(id.0, input.ratings);
      assert room.cards == Upserted(before, caller, interview, input);
      reply := Saved(id.1, input.submit, score);
    }

    /** The row itself; the ratings it had stay until they are replaced. */
    method Upsert(user: UserId, interview: InterviewId, input: Input, score: Option<real>)
      returns (at: (nat, nat))
      modifies this
      ensures var index := IndexOf(old(room).cards, interview, user);
              var submittedAt := if input.submit then Some(old(room).now) else None;
              && at.0 == (if index.Some? then index.value else |old(room).cards|)
              && at.1 == (if index.Some? then old(room).cards[index.value].id else |old(room).cards|)
              && (exists ratings ::
                    var card := Card(at.1, interview, user, submittedAt,
                                     Content(input.recommendation, input.summary, score, ratings));
                    room == old(room).(cards := if index.Some? then old(room).cards[at.0 := card]
                                                else old(room).cards + [card]))
    {
      var index := IndexOf(room.cards, interview, user);
      var submittedAt := if input.submit then Some(room.now) else None;
      if index.Some? {
        var was := room.cards[index.value];
        at := (index.value, was.id);
        room := room.(cards := room.cards[at.0 := Card(was.id, interview, user, submittedAt,
          Content(input.recommendation, input.summary, score, was.content.ratings))]);
      } else {
        at := (|room.cards|, |room.cards|);
        room := room.(cards := room.cards + [Card(at.1, interview, user, submittedAt,
          Content(input.recommendation, input.summary, score, []))]);
      }
    }

    method ReplaceRatings(k: nat, ratings: seq<Rating>)
      requires k < |room.cards|
      modifies this
      ensures var card := old(room).cards[k];
              room == old(room).(cards := old(room).cards[k := card.(content := card.content.(ratings := ratings))])
    {
      var card := room.cards[k];
      room := room.(cards := room.cards[k := card.(content := card.content.(ratings := ratings))]);
    }
  }

  /** A save whose checks saw one state of the room and whose write met another. */
  ghost function WrittenLate(checked: Room, current: Room, caller: Caller, interview: InterviewId, input: Input): Room {
    if SaveRefusal(checked, caller, interview, input).Some? then current
    else current.(cards := Upserted(current, caller, interview, input))
  }

  /**
   The checks are made before the transaction. A save that passed them rewrites whatever card its
   caller has by then: the record of a submission survives it exactly when the save was refused,
   or submits the same answers once more at the very time of the submission.
   */
  lemma RecordSurvivesLateSaveExactlyWhen(checked: Room, current: Room, caller: Caller, interview: InterviewId,
                                          input: Input, k: nat)
    requires Tidy(current) && k < |current.cards| && current.cards[k].submittedAt.Some?
    requires current.cards[k].interview == interview && current.cards[k].interviewer == caller.id
    ensures WrittenLate(checked, current, caller, interview, input).cards[k] == current.cards[k] <==>
            || SaveRefusal(checked, caller, interview, input).Some?
            || (&& input.submit && current.cards[k].submittedAt == Some(current.now)
                && current.cards[k].content.recommendation == input.recommendation
                && current.cards[k].content.summary == input.summary
                && current.cards[k].content.ratings == input.ratings
                && current.cards[k].content.score == Score(current.criteria, input.ratings))
  {
    assert IndexOf(current.cards, interview, caller.id) == Some(k);
  }

  /** Two forms open at once: the draft saved last takes the submission back. */
  lemma DraftUndoesSubmission(caller: Caller, interview: InterviewId, content: Content, now: nat)
    requires caller.role == Interviewer
    ensures var meetings := map[interview := Meeting(Ledger.Scheduled, {caller.id})];
            var checked := Room(now, [], meetings, []);
            var submission := Input([], Some(Yes), None, true);
            var draft := Input([], None, None, false);
            var current := After(checked, Op.Save(caller, interview, submission));
            && HasSubmitted(current, interview, caller.id)
            && !HasSubmitted(WrittenLate(checked, current, caller, interview, draft), interview, caller.id)
  {
    var meetings := map[interview := Meeting(Ledger.Scheduled, {caller.id})];
    var checked := Room(now, [], meetings, []);
    var submission := Input([], Some(Yes), None, true);
    var current := After(checked, Op.Save(caller, interview, submission));
    assert SaveRefusal(checked, caller, interview, submission) == None;
    assert current.cards == [Written(checked, caller, interview, submission, 0)];
    assert current.cards[0].submittedAt.Some?;
  }
}
