/**
 The anchoring rule as a statement about two runs: until an interviewer has submitted, nothing
 a colleague writes about the interview reaches any answer that interviewer gets.
 */
module PanelAnchoring {
  import opened Wrappers
  import opened Sizes
  import opened Transitions
  import Ledger
  import opened Scorecards
  import opened Panel

  /** The same card, except for what a colleague of the viewer says on the interview. */
  ghost predicate CardsAlike(viewer: UserId, interview: InterviewId, a: Card, b: Card) {
    && a.id == b.id && a.interview == b.interview && a.interviewer == b.interviewer
    && a.submittedAt == b.submittedAt
    && (a.content == b.content || (a.interview == interview && a.interviewer != viewer))
  }

  ghost predicate AllAlike(viewer: UserId, interview: InterviewId, a: seq<Card>, b: seq<Card>) {
    |a| == |b| && forall k :: 0 <= k < |a| ==> CardsAlike(viewer, interview, a[k], b[k])
  }

  /** Two rooms that differ at most in what colleagues say on the interview. */
  ghost predicate Alike(viewer: UserId, interview: InterviewId, s: Room, t: Room) {
    s.now == t.now && s.criteria == t.criteria && s.meetings == t.meetings
    && AllAlike(viewer, interview, s.cards, t.cards)
  }

  predicate AskedBy(op: Op, user: UserId) {
    match op
    case Save(caller, _, _) => caller.id == user
    case AskPanel(caller, _) => caller.id == user
    case AskMine(caller, _) => caller.id == user
    case AskList(caller) => caller.id == user
    case _ => false
  }

  function CallerOf(op: Op): Caller
    requires op.Save? || op.AskPanel? || op.AskMine? || op.AskList?
  {
    op.caller
  }

  /** The same step, or a colleague saving something else on the interview to the same effect. */
  ghost predicate Counterparts(viewer: UserId, interview: InterviewId, s: Room, t: Room, a: Op, b: Op) {
    || a == b
    || (&& a.Save? && b.Save? && a.caller == b.caller && a.caller.id != viewer
        && a.interview == b.interview == interview && a.input.submit == b.input.submit
        && (SaveRefusal(s, a.caller, a.interview, a.input).Some? <==>
            SaveRefusal(t, b.caller, b.interview, b.input).Some?))
  }

  /** Two runs in which the viewer, an interviewer yet to submit, does the same things. */
  ghost predicate TwinRuns(viewer: UserId, interview: InterviewId, s: Room, t: Room, left: seq<Op>, right: seq<Op>)
    decreases |left|
  {
    && |left| == |right|
    && (left != [] ==>
          && !HasSubmitted(s, interview, viewer)
          && (AskedBy(left[0], viewer) ==> CallerOf(left[0]).role == Interviewer)
          && Counterparts(viewer, interview, s, t, left[0], right[0])
          && TwinRuns(viewer, interview, After(s, left[0]), After(t, right[0]), left[1..], right[1..]))
  }

  /** Every answer the viewer gets over a run. */
  ghost function Answers(viewer: UserId, room: Room, ops: seq<Op>): seq<Reply>
    decreases |ops|
  {
    if ops == [] then []
    else
      (if AskedBy(ops[0], viewer) then [ReplyTo(room, ops[0])] else [])
      + Answers(viewer, After(room, ops[0]), ops[1..])
  }

  // ----- filtering

  lemma {:induction false} FilterKeeps(cards: seq<Card>, keep: Card -> bool, card: Card)
    ensures card in Filter(cards, keep) <==> card in cards && keep(card)
  {
    if cards != [] {
      var last := |cards| - 1;
      FilterKeeps(cards[..last], keep, card);
      assert cards == cards[..last] + [cards[last]];
    }
  }

  lemma {:induction false} FilterAlike(viewer: UserId, interview: InterviewId, a: seq<Card>, b: seq<Card>,
                                       keepA: Card -> bool, keepB: Card -> bool)
    requires AllAlike(viewer, interview, a, b)
    requires forall k :: 0 <= k < |a| ==> keepA(a[k]) == keepB(b[k])
    ensures AllAlike(viewer, interview, Filter(a, keepA), Filter(b, keepB))
  {
    if a != [] {
      var last := |a| - 1;
      FilterAlike(viewer, interview, a[..last], b[..last], keepA, keepB);
    }
  }

  /** Cards alike that nobody but the viewer wrote on the interview are the same cards. */
  lemma AlikeIsSame(viewer: UserId, interview: InterviewId, a: seq<Card>, b: seq<Card>)
    requires AllAlike(viewer, interview, a, b)
    requires forall card :: card in a ==> card.interview != interview || card.interviewer == viewer
    ensures a == b
  {
    forall k | 0 <= k < |a| ensures a[k] == b[k] {
      assert a[k] in a;
    }
  }

  lemma {:induction false} IndexAlike(viewer: UserId, interview: InterviewId, a: seq<Card>, b: seq<Card>,
                                      on: InterviewId, user: UserId)
    requires AllAlike(viewer, interview, a, b)
    ensures IndexOf(a, on, user) == IndexOf(b, on, user)
  {
    if a != [] {
      var last := |a| - 1;
      IndexAlike(viewer, interview, a[..last], b[..last], on, user);
    }
  }

  // ----- answers

  lemma SubmittedAlike(viewer: UserId, interview: InterviewId, s: Room, t: Room, on: InterviewId, user: UserId)
    requires Alike(viewer, interview, s, t)
    ensures HasSubmitted(s, on, user) == HasSubmitted(t, on, user)
  {
    if HasSubmitted(s, on, user) {
      var k :| 0 <= k < |s.cards| && s.cards[k].interview == on
        && s.cards[k].interviewer == user && s.cards[k].submittedAt.Some?;
      assert CardsAlike(viewer, interview, s.cards[k], t.cards[k]);
    }
    if HasSubmitted(t, on, user) {
      var k :| 0 <= k < |t.cards| && t.cards[k].interview == on
        && t.cards[k].interviewer == user && t.cards[k].submittedAt.Some?;
      assert CardsAlike(viewer, interview, s.cards[k], t.cards[k]);
    }
  }

  lemma OwnSubmittedAlike(viewer: UserId, interview: InterviewId, a: seq<Card>, b: seq<Card>)
    requires AllAlike(viewer, interview, a, b)
    ensures OwnSubmitted(viewer, a) == OwnSubmitted(viewer, b)
  {
    if OwnSubmitted(viewer, a) {
      var k :| 0 <= k < |a| && a[k].interviewer == viewer && a[k].submittedAt.Some?;
      assert CardsAlike(viewer, interview, a[k], b[k]);
    }
    if OwnSubmitted(viewer, b) {
      var k :| 0 <= k < |b| && b[k].interviewer == viewer && b[k].submittedAt.Some?;
      assert CardsAlike(viewer, interview, a[k], b[k]);
    }
  }

  /** Which cards on an interview a caller is shown, for a caller who is not a recruiter. */
  function Shown(room: Room, viewer: UserId, on: InterviewId): seq<Card> {
    var all := CardsOn(room, on);
    Filter(all, OneOf(Ids(Filter(all, ReadableBy(viewer, OwnSubmitted(viewer, all))))))
  }

  lemma OwnSubmittedMeans(room: Room, viewer: UserId, on: InterviewId)
    ensures OwnSubmitted(viewer, CardsOn(room, on)) <==> HasSubmitted(room, on, viewer)
  {
    var all := CardsOn(room, on);
    if OwnSubmitted(viewer, all) {
      var k :| 0 <= k < |all| && all[k].interviewer == viewer && all[k].submittedAt.Some?;
      FilterKeeps(room.cards, On(on), all[k]);
      assert all[k] in all;
    }
    if HasSubmitted(room, on, viewer) {
      var k :| 0 <= k < |room.cards| && room.cards[k].interview == on
        && room.cards[k].interviewer == viewer && room.cards[k].submittedAt.Some?;
      FilterKeeps(room.cards, On(on), room.cards[k]);
    }
  }

  /** A colleague's card is shown exactly once both have submitted; one's own always is. */
  lemma ShownExactlyWhen(room: Room, viewer: UserId, on: InterviewId, card: Card)
    requires Tidy(room) && card in room.cards && card.interview == on
    ensures card in Shown(room, viewer, on) <==>
            card.interviewer == viewer || (HasSubmitted(room, on, viewer) && card.submittedAt.Some?)
  {
    var all := CardsOn(room, on);
    var keep := ReadableBy(viewer, OwnSubmitted(viewer, all));
    var readable := Filter(all, keep);
    OwnSubmittedMeans(room, viewer, on);
    FilterKeeps(room.cards, On(on), card);
    FilterKeeps(all, OneOf(Ids(readable)), card);
    FilterKeeps(all, keep, card);
    if card.id in Ids(readable) {
      var k :| 0 <= k < |readable| && readable[k].id == card.id;
      assert readable[k] in readable;
      FilterKeeps(all, keep, readable[k]);
      FilterKeeps(room.cards, On(on), readable[k]);
      assert readable[k] == card;
    } else {
      assert card !in readable;
    }
  }

  ghost predicate DistinctCards(cards: seq<Card>) {
    forall j, k :: 0 <= j < k < |cards| ==> cards[j].id != cards[k].id
  }

  lemma {:induction false} FilterStaysDistinct(cards: seq<Card>, keep: Card -> bool)
    requires DistinctCards(cards)
    ensures DistinctCards(Filter(cards, keep))
  {
    if cards != [] {
      var last := |cards| - 1;
      FilterStaysDistinct(cards[..last], keep);
      forall card | card in Filter(cards[..last], keep) ensures card.id != cards[last].id {
        FilterKeeps(cards[..last], keep, card);
      }
    }
  }

  /** The submitted cards on an interview. */
  ghost function SubmittedOn(room: Room, on: InterviewId): set<Card> {
    set card | card in room.cards && card.interview == on && card.submittedAt.Some?
  }

  ghost function Kept(cards: seq<Card>, keep: Card -> bool): set<Card> {
    set card | card in cards && keep(card)
  }

  lemma CountsCards(cards: seq<Card>, keep: Card -> bool)
    requires DistinctCards(cards)
    ensures |Filter(cards, keep)| == |Kept(cards, keep)|
  {
    FilterStaysDistinct(cards, keep);
    DistinctSize(Filter(cards, keep));
    forall card ensures card in Filter(cards, keep) <==> card in cards && keep(card) {
      FilterKeeps(cards, keep, card);
    }
    assert Elements(Filter(cards, keep)) == Kept(cards, keep);
  }

  /**
   The counts an interviewer gets are how many colleagues have finished, and how many of those
   the interviewer cannot read yet: all of them but the own one until submitting, none after.
   */
  lemma CountsAreSubmissions(room: Room, caller: Caller, on: InterviewId)
    requires Tidy(room) && caller.role == Interviewer && Viewable(room, caller, on)
    ensures var reply := PanelReply(room, caller, on);
            && reply.submittedCount == |SubmittedOn(room, on)|
            && reply.withheldCount == if HasSubmitted(room, on, caller.id) then 0 else |SubmittedOn(room, on)|
  {
    var all, shown := CardsOn(room, on), Shown(room, caller.id, on);
    assert DistinctCards(room.cards);
    FilterStaysDistinct(room.cards, On(on));
    CountsCards(all, IsSubmitted);
    var finished := Kept(all, IsSubmitted);
    forall card ensures card in all <==> card in room.cards && card.interview == on {
      FilterKeeps(room.cards, On(on), card);
    }
    assert finished == SubmittedOn(room, on);
    var readable := OneOf(Ids(Filter(all, ReadableBy(caller.id, OwnSubmitted(caller.id, all)))));
    FilterStaysDistinct(all, readable);
    CountsCards(shown, IsSubmitted);
    var read := Kept(shown, IsSubmitted);
    forall card ensures card in read <==> card in finished && HasSubmitted(room, on, caller.id) {
      FilterKeeps(all, readable, card);
      if card in all {
        ShownExactlyWhen(room, caller.id, on, card);
      }
      if card in read && card.interviewer == caller.id {
        var k :| 0 <= k < |room.cards| && room.cards[k] == card;
      }
    }
    assert read == if HasSubmitted(room, on, caller.id) then finished else {};
  }

  lemma ShownIsSame(viewer: UserId, interview: InterviewId, s: Room, t: Room, on: InterviewId)
    requires Alike(viewer, interview, s, t) && Tidy(s) && !HasSubmitted(s, interview, viewer)
    ensures Shown(s, viewer, on) == Shown(t, viewer, on)
    ensures |Filter(CardsOn(s, on), IsSubmitted)| == |Filter(CardsOn(t, on), IsSubmitted)|
  {
    var a, b := CardsOn(s, on), CardsOn(t, on);
    FilterAlike(viewer, interview, s.cards, t.cards, On(on), On(on));
    FilterAlike(viewer, interview, a, b, IsSubmitted, IsSubmitted);
    OwnSubmittedAlike(viewer, interview, a, b);
    var keep := ReadableBy(viewer, OwnSubmitted(viewer, a));
    FilterAlike(viewer, interview, a, b, keep, keep);
    SameIds(viewer, interview, Filter(a, keep), Filter(b, keep));
    var shown := OneOf(Ids(Filter(a, keep)));
    FilterAlike(viewer, interview, a, b, shown, shown);
    forall card | card in Filter(a, shown) ensures card.interview != interview || card.interviewer == viewer {
      FilterKeeps(a, shown, card);
      FilterKeeps(s.cards, On(on), card);
      ShownExactlyWhen(s, viewer, on, card);
    }
    AlikeIsSame(viewer, interview, Filter(a, shown), Filter(b, shown));
  }

  lemma SameIds(viewer: UserId, interview: InterviewId, a: seq<Card>, b: seq<Card>)
    requires AllAlike(viewer, interview, a, b)
    ensures Ids(a) == Ids(b)
  {
    forall id | id in Ids(a) ensures id in Ids(b) {
      var k :| 0 <= k < |a| && a[k].id == id;
      assert CardsAlike(viewer, interview, a[k], b[k]);
    }
    forall id | id in Ids(b) ensures id in Ids(a) {
      var k :| 0 <= k < |b| && b[k].id == id;
      assert CardsAlike(viewer, interview, a[k], b[k]);
    }
  }

  lemma RefusalAlike(viewer: UserId, interview: InterviewId, s: Room, t: Room,
                     caller: Caller, on: InterviewId, input: Input)
    requires Alike(viewer, interview, s, t)
    ensures SaveRefusal(s, caller, on, input) == SaveRefusal(t, caller, on, input)
    ensures SavedId(s, caller, on) == SavedId(t, caller, on)
  {
    IndexAlike(viewer, interview, s.cards, t.cards, on, caller.id);
    var index := IndexOf(s.cards, on, caller.id);
    if index.Some? {
      assert CardsAlike(viewer, interview, s.cards[index.value], t.cards[index.value]);
    }
  }

  /** No single answer tells two rooms apart that differ only in what colleagues say. */
  lemma AnswerIsSame(viewer: UserId, interview: InterviewId, s: Room, t: Room, op: Op)
    requires Alike(viewer, interview, s, t) && Tidy(s) && !HasSubmitted(s, interview, viewer)
    requires AskedBy(op, viewer) && CallerOf(op).role == Interviewer
    ensures ReplyTo(s, op) == ReplyTo(t, op)
  {
    match op
    case Save(caller, on, input) => RefusalAlike(viewer, interview, s, t, caller, on, input);
    case AskPanel(caller, on) => ShownIsSame(viewer, interview, s, t, on);
    case AskMine(caller, on) =>
      IndexAlike(viewer, interview, s.cards, t.cards, on, viewer);
      var index := IndexOf(s.cards, on, viewer);
      if index.Some? {
        assert CardsAlike(viewer, interview, s.cards[index.value], t.cards[index.value]);
      }
    case AskList(caller) =>
      forall id | id in s.meetings ensures SeatsOf(s, id) == SeatsOf(t, id) {
        SeatsAlike(viewer, interview, s, t, id);
      }
  }

  lemma SeatsAlike(viewer: UserId, interview: InterviewId, s: Room, t: Room, id: InterviewId)
    requires Alike(viewer, interview, s, t) && id in s.meetings
    ensures SeatsOf(s, id) == SeatsOf(t, id)
  {
    forall user ensures HasSubmitted(s, id, user) == HasSubmitted(t, id, user) {
      SubmittedAlike(viewer, interview, s, t, id, user);
    }
  }

  lemma StepKeepsAlike(viewer: UserId, interview: InterviewId, s: Room, t: Room, a: Op, b: Op)
    requires Alike(viewer, interview, s, t) && Counterparts(viewer, interview, s, t, a, b)
    ensures Alike(viewer, interview, After(s, a), After(t, b))
  {
    if a.Save? {
      RefusalAlike(viewer, interview, s, t, a.caller, a.interview, a.input);
      RefusalAlike(viewer, interview, s, t, b.caller, b.interview, b.input);
      IndexAlike(viewer, interview, s.cards, t.cards, a.interview, a.caller.id);
      var index := IndexOf(s.cards, a.interview, a.caller.id);
      if index.Some? {
        assert CardsAlike(viewer, interview, s.cards[index.value], t.cards[index.value]);
      }
    }
  }

  /**
   Anchoring noninterference: as long as the interviewer has not submitted, two runs that differ
   only in what colleagues say about the interview give that interviewer the same answers.
   */
  lemma {:induction false} NothingSaidReachesTheInterviewer(
      viewer: UserId, interview: InterviewId, s: Room, t: Room, left: seq<Op>, right: seq<Op>)
    requires Tidy(s) && Tidy(t) && Alike(viewer, interview, s, t)
    requires TwinRuns(viewer, interview, s, t, left, right)
    ensures Answers(viewer, s, left) == Answers(viewer, t, right)
    ensures Alike(viewer, interview, AfterAll(s, left), AfterAll(t, right))
    decreases |left|
  {
    if left != [] {
      if AskedBy(left[0], viewer) {
        AnswerIsSame(viewer, interview, s, t, left[0]);
      }
      StepKeepsAlike(viewer, interview, s, t, left[0], right[0]);
      StepKeepsTidy(s, left[0]);
      StepKeepsTidy(t, right[0]);
      NothingSaidReachesTheInterviewer(viewer, interview, After(s, left[0]), After(t, right[0]), left[1..], right[1..]);
    }
  }
}
