/** Counting the scorecards that hold a stage back. */
module ScorecardGate {
  import opened Wrappers
  import opened Transitions
  import opened Ledger

  datatype Card = Card(interviewer: UserId, submittedAt: Option<nat>)

  datatype Panelist = Panelist(user: UserId, isRequired: bool)

  datatype InterviewRef = InterviewRef(id: InterviewId, status: InterviewStatus, panelists: seq<Panelist>,
                                       cards: seq<Card>)

  function Submitted(cards: seq<Card>): set<UserId> {
    set i | 0 <= i < |cards| && cards[i].submittedAt.Some? :: cards[i].interviewer
  }

  predicate Owes(interview: InterviewRef, panelist: Panelist) {
    OwesScorecards(interview.status) && panelist.isRequired && panelist.user !in Submitted(interview.cards)
  }

  /** The users among the first panelists of one interview who owe it a scorecard. */
  function Owing(interview: InterviewRef, upTo: nat): set<(InterviewId, UserId)>
    requires upTo <= |interview.panelists|
  {
    set k | 0 <= k < upTo && Owes(interview, interview.panelists[k]) :: (interview.id, interview.panelists[k].user)
  }

  function OwingSeats(interviews: seq<InterviewRef>): set<(InterviewId, UserId)> {
    set i, k | 0 <= i < |interviews| && 0 <= k < |interviews[i].panelists|
               && Owes(interviews[i], interviews[i].panelists[k])
      :: (interviews[i].id, interviews[i].panelists[k].user)
  }

  /** Rows have their own ids, and nobody sits on a panel twice: unique indexes both. */
  ghost predicate UniqueSeats(interviews: seq<InterviewRef>) {
    && (forall i, j :: 0 <= i < j < |interviews| ==> interviews[i].id != interviews[j].id)
    && (forall i :: 0 <= i < |interviews| ==> forall k, l :: 0 <= k < l < |interviews[i].panelists| ==>
          interviews[i].panelists[k].user != interviews[i].panelists[l].user)
  }

  /** The counter is the number of required seats without a submitted card on open interviews. */
  method CountPendingScorecards(interviews: seq<InterviewRef>) returns (pending: nat)
    requires UniqueSeats(interviews)
    ensures pending == |OwingSeats(interviews)|
  {
    pending := 0;
    for i := 0 to |interviews|
      invariant pending == |OwingSeats(interviews[..i])|
    {
      var here := CountOne(interviews, i);
      SeatsSplit(interviews, i);
      pending := pending + here;
    }
    assert interviews[..|interviews|] == interviews;
  }

  method CountOne(interviews: seq<InterviewRef>, i: nat) returns (pending: nat)
    requires UniqueSeats(interviews) && i < |interviews|
    ensures pending == |Owing(interviews[i], |interviews[i].panelists|)|
  {
    var interview := interviews[i];
    pending := 0;
    if !OwesScorecards(interview.status) {
      assert Owing(interview, |interview.panelists|) == {};
      return;
    }
    var submitted := Submitted(interview.cards);
    for k := 0 to |interview.panelists|
      invariant pending == |Owing(interview, k)|
    {
      var panelist := interview.panelists[k];
      if panelist.isRequired && panelist.user !in submitted {
        assert (interview.id, panelist.user) !in Owing(interview, k);
        assert Owing(interview, k + 1) == Owing(interview, k) + {(interview.id, panelist.user)};
        pending := pending + 1;
      } else {
        assert Owing(interview, k + 1) == Owing(interview, k);
      }
    }
  }

  lemma SeatsSplit(interviews: seq<InterviewRef>, i: nat)
    requires UniqueSeats(interviews) && i < |interviews|
    ensures |OwingSeats(interviews[..i + 1])|
         == |OwingSeats(interviews[..i])| + |Owing(interviews[i], |interviews[i].panelists|)|
  {
    var before, here := OwingSeats(interviews[..i]), Owing(interviews[i], |interviews[i].panelists|);
    var all := OwingSeats(interviews[..i + 1]);
    forall seat | seat in all ensures seat in before + here {
      var j, k :| 0 <= j < i + 1 && 0 <= k < |interviews[..i + 1][j].panelists|
        && Owes(interviews[..i + 1][j], interviews[..i + 1][j].panelists[k])
        && seat == (interviews[..i + 1][j].id, interviews[..i + 1][j].panelists[k].user);
      if j < i {
        assert interviews[..i][j] == interviews[j];
      }
    }
    forall seat | seat in before ensures seat in all && seat !in here {
      var j, k :| 0 <= j < i && 0 <= k < |interviews[..i][j].panelists|
        && Owes(interviews[..i][j], interviews[..i][j].panelists[k])
        && seat == (interviews[..i][j].id, interviews[..i][j].panelists[k].user);
      assert interviews[..i + 1][j] == interviews[..i][j];
    }
    forall seat | seat in here ensures seat in all {
      var k :| 0 <= k < |interviews[i].panelists| && Owes(interviews[i], interviews[i].panelists[k])
        && seat == (interviews[i].id, interviews[i].panelists[k].user);
      assert interviews[..i + 1][i] == interviews[i];
    }
    assert all == before + here;
  }

  /** A listing of the interviews an application has at one stage, as the query returns it. */
  ghost predicate Lists(interviews: seq<InterviewRef>, rows: map<InterviewId, InterviewRow>,
                        app: AppId, stage: StageId) {
    && (forall i :: 0 <= i < |interviews| ==>
          && interviews[i].id in rows
          && var row := rows[interviews[i].id];
          && row.app == app && row.stage == stage && row.status == interviews[i].status
          && row.submitted == Submitted(interviews[i].cards)
          && (forall user :: user in row.required <==>
                exists k :: 0 <= k < |interviews[i].panelists| && interviews[i].panelists[k] == Panelist(user, true)))
    && (forall id :: id in rows && rows[id].app == app && rows[id].stage == stage ==>
          exists i :: 0 <= i < |interviews| && interviews[i].id == id)
  }

  /** The seats counted from any listing are the seats the transition gate is about. */
  lemma ListingShowsTheSeats(interviews: seq<InterviewRef>, rows: map<InterviewId, InterviewRow>,
                             app: AppId, stage: StageId)
    requires Lists(interviews, rows, app, stage)
    ensures OwingSeats(interviews) == Seats(rows, app, stage)
  {
    forall seat | seat in OwingSeats(interviews) ensures seat in Seats(rows, app, stage) {
      var i, k :| 0 <= i < |interviews| && 0 <= k < |interviews[i].panelists|
        && Owes(interviews[i], interviews[i].panelists[k])
        && seat == (interviews[i].id, interviews[i].panelists[k].user);
      assert interviews[i].panelists[k] == Panelist(seat.1, true);
      assert seat.1 in rows[seat.0].required - rows[seat.0].submitted;
    }
    forall seat | seat in Seats(rows, app, stage) ensures seat in OwingSeats(interviews) {
      var i :| 0 <= i < |interviews| && interviews[i].id == seat.0;
      assert seat.1 in rows[seat.0].required;
      var k :| 0 <= k < |interviews[i].panelists| && interviews[i].panelists[k] == Panelist(seat.1, true);
      assert Owes(interviews[i], interviews[i].panelists[k]);
    }
  }
}
