/** Runs of the ledger that end in a state a reader would not expect. */
module LedgerCases {
  import opened Wrappers
  import opened Transitions
  import opened Ledger
  import opened LedgerShape
  import opened LedgerHistory
  import opened LedgerEffects
  import opened Funnel

  // ----- one requisition, applied to once

  ghost predicate OneApplication(db: Db, stages: seq<StageRef>)
    requires stages != []
  {
    && db.jobs == map[0 := Job(Open, 1, Some(0), None, stages)]
    && db.apps == map[0 := App(0, 0, stages[0].id, Active, None, map[1 := ReceivedEvent(stages[0].id)])]
    && db.interviews == map[] && db.txs == map[]
  }

  predicate Creatable(stages: seq<StageRef>) {
    && ProperJob(Job(Draft, 1, None, None, stages))
    && forall i :: 0 <= i < |stages| ==> stages[i].position == i
  }

  lemma Opens(stages: seq<StageRef>) returns (db: Db)
    requires Creatable(stages)
    ensures Reachable(db) && db == Db(0, map[0 := Job(Open, 1, Some(0), None, stages)], map[], map[], multiset{}, map[])
  {
    EmptyIsReachable();
    db := Take(Empty, CreateJob(0, 1, stages));
    db := Take(db, ChangeStatus(0, Open));
  }

  lemma AppliesOnce(stages: seq<StageRef>) returns (db: Db)
    requires Creatable(stages)
    ensures Reachable(db) && OneApplication(db, stages)
  {
    db := Opens(stages);
    db := Take(db, SubmitBegin(0, 0));
    db := Take(db, SubmitCommit(0, 0, 0));
  }

  // ----- a pipeline that starts with a terminal stage

  const SCREEN_LAST := [StageRef(0, 0, RejectedStage, false), StageRef(1, 1, Screen, false),
                        StageRef(2, 2, HiredStage, false)]

  /**
   A stage list has to hold a hired and a rejected stage, in any order. With the rejected one
   first, an application that has just come in is active in a rejection stage, and the funnel of
   its requisition has no row at all, although somebody applied.
   */
  lemma RejectionFirstIsMissed()
    ensures exists db ::
              && Reachable(db) && 0 in db.jobs && 0 in db.apps && db.apps[0].job == 0 && db.apps[0].status == Active
              && Lookup(db.jobs[0].stages, db.apps[0].stage).Some?
              && !Matches(db.apps[0].status, Lookup(db.jobs[0].stages, db.apps[0].stage).value)
              && Applications(db, 0) == {0} && Report(db, 0) == []
  {
    var db := AppliesOnce(SCREEN_LAST);
    LookupUnique(SCREEN_LAST, 0);
    NobodyCounted(db, SCREEN_LAST);
  }

  lemma SomeElement<T>(list: seq<T>) returns (x: T)
    requires list != []
    ensures x in list
  {
    x := list[0];
  }

  lemma NobodyCounted(db: Db, stages: seq<StageRef>)
    requires stages != [] && DistinctIds(stages) && stages[0].kind == RejectedStage && OneApplication(db, stages)
    ensures Applications(db, 0) == {0} && Report(db, 0) == []
  {
    forall row | row in stages && row.kind != RejectedStage ensures Reached(db, 0, row.id) == {} {
      assert row.id != stages[0].id;
    }
    var rows := Counted(db, 0, stages);
    if rows != [] {
      var row := SomeElement(rows);
    }
  }

  // ----- scorecards that owe again

  const SCORED := [StageRef(0, 0, Screen, true), StageRef(1, 1, HiredStage, false),
                   StageRef(2, 2, RejectedStage, false)]

  /** A log writer that has read the number it will take. */
  function Writing(write: LogWrite, seqNo: Option<nat>): Tx {
    Appending(0, write, seqNo)
  }

  ghost predicate MayWrite(db: Db, write: LogWrite, latest: nat) {
    && 0 in db.apps && !Locked(db, 0) && IsLatest(db.apps[0].log, latest)
    && (write.Schedule? ==> write.interview !in db.interviews)
  }

  lemma ReadsNumber(db: Db, tx: TxId, write: LogWrite, latest: nat) returns (read: Db)
    requires Reachable(db) && tx !in db.txs && MayBegin(db, 0, write) && MayWrite(db, write, latest)
    ensures Reachable(read) && read == db.(txs := db.txs[tx := Writing(write, Some(latest + 1))])
  {
    var begun := Take(db, AppendBegin(tx, 0, write));
    assert begun.txs[tx] == Writing(write, None);
    read := Take(begun, ReadSeq(tx, latest));
    assert begun.txs[tx := Writing(write, Some(latest + 1))] == db.txs[tx := Writing(write, Some(latest + 1))];
  }

  lemma MayAppend(db: Db, read: Db, tx: TxId, write: LogWrite, latest: nat)
    requires tx !in db.txs && MayWrite(db, write, latest)
    requires read == db.(txs := db.txs[tx := Writing(write, Some(latest + 1))])
    ensures Enabled(read, AppendCommit(tx))
  {
  }

  /** Only the log of the application differs. */
  predicate SameButLog(row: App, after: App) {
    after.(log := row.log) == row
  }

  lemma Appended(db: Db, read: Db, tx: TxId, write: LogWrite, latest: nat, after: Db)
    requires tx !in db.txs && MayWrite(db, write, latest)
    requires read == db.(txs := db.txs[tx := Writing(write, Some(latest + 1))])
    requires Enabled(read, AppendCommit(tx)) && after == Apply(read, AppendCommit(tx))
    ensures after.txs == db.txs && after.jobs == db.jobs && after.apps.Keys == db.apps.Keys
    ensures after.interviews == Interviews(db.interviews, 0, write)
    ensures SameButLog(db.apps[0], after.apps[0]) && IsLatest(after.apps[0].log, latest + 1)
  {
    assert read.txs - {tx} == db.txs;
  }

  /** A writer's entry, with nobody else doing anything between its statements. */
  lemma Appends(db: Db, tx: TxId, write: LogWrite, latest: nat) returns (after: Db)
    requires Reachable(db) && tx !in db.txs && MayBegin(db, 0, write) && MayWrite(db, write, latest)
    ensures Reachable(after) && after.txs == db.txs && after.jobs == db.jobs && after.apps.Keys == db.apps.Keys
    ensures after.interviews == Interviews(db.interviews, 0, write)
    ensures SameButLog(db.apps[0], after.apps[0]) && IsLatest(after.apps[0].log, latest + 1)
  {
    var read := ReadsNumber(db, tx, write, latest);
    MayAppend(db, read, tx, write, latest);
    after := Take(read, AppendCommit(tx));
    Appended(db, read, tx, write, latest, after);
  }

  function Interviewed(status: InterviewStatus): InterviewRow {
    InterviewRow(0, 0, status, {7}, {7}, {})
  }

  /** One applicant for one opening, still in the first stage, whatever the log holds by now. */
  predicate OneActive(db: Db) {
    && db.jobs == map[0 := Job(Open, 1, Some(0), None, SCORED)]
    && db.apps.Keys == {0} && SameButLog(App(0, 0, 0, Active, None, map[]), db.apps[0])
  }

  /** User 7 is to interview the one applicant, and owes a scorecard. */
  lemma Schedules() returns (db: Db)
    ensures Reachable(db) && db.interviews == map[0 := Interviewed(Scheduled)] && db.txs == map[]
    ensures OneActive(db) && IsLatest(db.apps[0].log, 2)
  {
    db := AppliesOnce(SCORED);
    db := Appends(db, 0, Schedule(0, 0, {7}, {7}), 1);
  }

  lemma SeatsOf(interviews: map<InterviewId, InterviewRow>, status: InterviewStatus)
    requires interviews == map[0 := Interviewed(status)]
    ensures Seats(interviews, 0, 0) == if OwesScorecards(status) then {(0, 7)} else {}
  {
  }

  /** The seat of a conclude that is about to commit: nobody owed before, user 7 does after. */
  ghost predicate AboutToReopen(db: Db, tx: TxId) {
    && Enabled(db, AppendCommit(tx)) && db.txs[tx].app == 0 && db.txs[tx].write == Conclude(0, Completed)
    && Seats(db.interviews, 0, 0) == {} && Seats(Apply(db, AppendCommit(tx)).interviews, 0, 0) == {(0, 7)}
  }

  lemma ConcludesLast(db: Db, tx: TxId, status: InterviewStatus, latest: nat) returns (after: Db)
    requires Reachable(db) && 0 in db.apps && IsLatest(db.apps[0].log, latest)
    requires db.txs == map[tx := Writing(Conclude(0, Completed), None)]
    requires db.interviews == map[0 := Interviewed(status)] && !OwesScorecards(status)
    ensures Reachable(after) && AboutToReopen(after, tx) && after.interviews == db.interviews
  {
    after := Take(db, ReadSeq(tx, latest));
    assert after.txs[tx] == Writing(Conclude(0, Completed), Some(latest + 1));
    SeatsOf(after.interviews, status);
    SeatsOf(Apply(after, AppendCommit(tx)).interviews, Completed);
  }

  /** An interview recorded as a no-show is concluded as completed after all. */
  lemma NoShowOwesAgain()
    ensures exists db ::
              Reachable(db) && AboutToReopen(db, 1) && 0 in db.interviews && db.interviews[0].status == NoShow
  {
    var db := Schedules();
    db := Appends(db, 0, Conclude(0, NoShow), 2);
    db := Take(db, AppendBegin(1, 0, Conclude(0, Completed)));
    db := ConcludesLast(db, 1, NoShow, 3);
  }

  /** An interview is cancelled between the check of a conclude and its update. */
  lemma CancelledOwesAgain(note: string)
    ensures exists db ::
              Reachable(db) && AboutToReopen(db, 1) && 0 in db.interviews && db.interviews[0].status == Cancelled
  {
    var db := Schedules();
    db := Take(db, AppendBegin(1, 0, Conclude(0, Completed)));
    db := Appends(db, 0, Cancel(0, note), 2);
    db := ConcludesLast(db, 1, Cancelled, 3);
  }

  // ----- a hire past a card that was taken back

  const HIRING := Allowed(Hire, SCORED[0], SCORED[1], Status.Hired)

  function Mover(hired: Option<nat>, pending: Option<nat>, decision: Option<Decision>, seqNo: Option<nat>): Tx {
    Moving(0, Request(0, 1, None), Actor(0, Recruiter, true), 0, Job(Open, 1, Some(0), None, SCORED), Active, 0,
           hired, pending, decision, seqNo)
  }

  lemma Allows(t: Tx)
    requires t == Mover(Some(0), Some(0), None, None)
    ensures DecisionOf(t) == HIRING
  {
    LookupUnique(SCORED, 0);
    LookupUnique(SCORED, 1);
  }

  function With(db: Db, t: Tx): Db {
    db.(txs := map[1 := t])
  }

  lemma BeginsMove(db: Db) returns (after: Db)
    requires Reachable(db) && OneActive(db) && db.txs == map[]
    ensures Reachable(after) && after == With(db, Mover(None, None, None, None))
  {
    after := Take(db, MoveBegin(1, 0, Request(0, 1, None), Actor(0, Recruiter, true)));
  }

  lemma CountsNobody(db: Db, read: Db) returns (after: Db)
    requires OneActive(db) && Reachable(read) && read == With(db, Mover(None, None, None, None))
    ensures Reachable(after) && after == With(db, Mover(Some(0), None, None, None))
  {
    assert HiredAt(read, 0) == {};
    after := Take(read, MoveCount(1));
  }

  lemma GathersNobody(db: Db, read: Db) returns (after: Db)
    requires Seats(db.interviews, 0, 0) == {}
    requires Reachable(read) && read == With(db, Mover(Some(0), None, None, None))
    ensures Reachable(after) && after == With(db, Mover(Some(0), Some(0), None, None))
  {
    after := Take(read, MoveGather(1));
  }

  /** Lock, count, gather and decide, with nobody else doing anything. */
  lemma DecidesToHire(db: Db) returns (after: Db)
    requires Reachable(db) && OneActive(db) && db.txs == map[] && Seats(db.interviews, 0, 0) == {}
    ensures Reachable(after) && after == With(db, Mover(Some(0), Some(0), Some(HIRING), None))
  {
    after := BeginsMove(db);
    after := CountsNobody(db, after);
    after := GathersNobody(db, after);
    Allows(after.txs[1]);
    after := Take(after, MoveDecide(1));
  }

  lemma MayHire(db: Db, seqNo: nat)
    requires OneActive(db) && seqNo !in db.apps[0].log
    requires db.txs == map[1 := Mover(Some(0), Some(0), Some(HIRING), Some(seqNo))]
    ensures Enabled(db, MoveCommit(1))
  {
  }

  /**
   The one required card is submitted and a hire is about to commit; a draft whose check came
   before the submission takes the card back, and the hire commits past a seat that owes one.
   */
  lemma LateDraftLetsHireThrough()
    ensures exists db ::
              && Reachable(db) && Enabled(db, MoveCommit(1)) && db.txs[1].app == 0
              && db.txs[1].decision.value.kind == Hire && db.txs[1].decision.value.from.requiresScorecard
              && Seats(db.interviews, 0, 0) == {} && Seats(DraftedLate(db.interviews, 0, 7), 0, 0) == {(0, 7)}
  {
    var db := Schedules();
    db := Appends(db, 0, SubmitCard(0, 7), 2);
    assert db.interviews[0].submitted == {7};
    db := DecidesToHire(db);
    db := Take(db, ReadSeq(1, 3));
    MayHire(db, 4);
  }
}
