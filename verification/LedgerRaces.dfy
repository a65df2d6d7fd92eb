/**
 Runs in which several transitions on one requisition have counted its hires before any of them
 hired: how many openings can be overdrawn, and when a full requisition is left open.
 */
module LedgerRaces {
  import opened Wrappers
  import opened Sizes
  import opened Transitions
  import opened Ledger
  import opened LedgerShape
  import opened LedgerHires
  import opened LedgerFilled

  /** Reached with never more than `k` transitions on requisition 0 in flight. */
  ghost predicate Within(k: nat, db: Db) {
    exists trace :: Runs(Empty, trace) && After(Empty, trace) == db && AtMostInFlight(Empty, trace, 0, k)
  }

  lemma {:induction false} AtMostSnoc(db: Db, trace: seq<Step>, step: Step, k: nat)
    requires Runs(db, trace) && Enabled(After(db, trace), step) && AtMostInFlight(db, trace, 0, k)
    requires |InFlight(Apply(After(db, trace), step), 0)| <= k
    ensures Runs(db, trace + [step]) && AtMostInFlight(db, trace + [step], 0, k)
    decreases |trace|
  {
    var longer := trace + [step];
    RunsSnoc(db, trace, step);
    if trace == [] {
      assert longer[0] == step && longer[1..] == [];
    } else {
      assert longer[0] == trace[0] && longer[1..] == trace[1..] + [step];
      AtMostSnoc(Apply(db, trace[0]), trace[1..], step, k);
    }
  }

  lemma WithinNext(k: nat, db: Db, step: Step, after: Db)
    requires Within(k, db) && Enabled(db, step) && Apply(db, step) == after && |InFlight(after, 0)| <= k
    ensures Within(k, after)
  {
    var trace :| Runs(Empty, trace) && After(Empty, trace) == db && AtMostInFlight(Empty, trace, 0, k);
    AtMostSnoc(Empty, trace, step, k);
    RunsSnoc(Empty, trace, step);
  }

  lemma TakeWithin(k: nat, db: Db, step: Step) returns (after: Db)
    requires Within(k, db) && Enabled(db, step) && |Apply(db, step).txs.Keys| <= k
    ensures after == Apply(db, step) && Within(k, after)
  {
    after := Apply(db, step);
    SubsetSize(InFlight(after, 0), after.txs.Keys);
    WithinNext(k, db, step, after);
  }

  // ----- one requisition, its first applications hired and the others in the first stage

  const SCREEN := StageRef(0, 0, Screen, false)
  const HIRED := StageRef(1, 1, HiredStage, false)
  const REJECTED := StageRef(2, 2, RejectedStage, false)
  const STAGES := [SCREEN, HIRED, REJECTED]

  const RECRUITER := Actor(0, Recruiter, true)
  const REQUEST := Request(0, 1, None)
  const DECISION := Allowed(Hire, SCREEN, HIRED, Status.Hired)

  function JobRow(openings: nat, filled: bool): Job {
    Job(if filled then Filled else Open, openings, Some(0), if filled then Some(0) else None, STAGES)
  }

  function AppRow(app: AppId, hired: nat): App {
    if app < hired then
      App(0, app, 1, Status.Hired, Some(0), map[1 := ReceivedEvent(0), 2 := MoveEvent(DECISION, None)])
    else App(0, app, 0, Active, None, map[1 := ReceivedEvent(0)])
  }

  /** A transition on its way to a hire, with what it has read so far. */
  function Mover(openings: nat, app: AppId, hired: Option<nat>, pending: Option<nat>, decision: Option<Decision>,
                 seqNo: Option<nat>): Tx
  {
    Moving(app, REQUEST, RECRUITER, 0, JobRow(openings, false), Active, 0, hired, pending, decision, seqNo)
  }

  function Begun(openings: nat, app: AppId): Tx {
    Mover(openings, app, None, None, None, None)
  }

  function Decided(openings: nat, app: AppId, counted: nat): Tx {
    Mover(openings, app, Some(counted), Some(0), Some(DECISION), None)
  }

  /** A transition that has counted the hires, decided on one more and read the next number. */
  function Ready(openings: nat, app: AppId, counted: nat): Tx {
    Mover(openings, app, Some(counted), Some(0), Some(DECISION), Some(2))
  }

  /** A batch of transitions that all find `counted` people hired, on the applications after those. */
  datatype Plan = Plan(openings: nat, total: nat, counted: nat)

  ghost predicate Rows(p: Plan, db: Db, filled: bool, hired: nat) {
    && db.now == 0 && db.interviews == map[]
    && 0 in db.jobs && db.jobs[0] == JobRow(p.openings, filled)
    && (forall app: AppId :: app in db.apps <==> app < p.total)
    && (forall app :: app in db.apps ==> db.apps[app] == AppRow(app, hired))
  }

  /** The transitions from `next` to `last` are ready, and one more may be on its way. */
  ghost predicate Batch(p: Plan, db: Db, next: nat, last: nat, coming: Option<Tx>) {
    && (forall tx: TxId :: tx in db.txs <==> next <= tx < last || (coming.Some? && tx == last))
    && (forall tx: TxId :: next <= tx < last ==> db.txs[tx] == Ready(p.openings, p.counted + tx, p.counted))
    && (coming.Some? ==> db.txs[last] == coming.value)
  }

  lemma FewInFlight(p: Plan, db: Db, next: nat, last: nat, coming: Option<Tx>)
    requires Batch(p, db, next, last, coming)
    ensures |db.txs.Keys| <= last + if coming.Some? then 1 else 0
  {
    SubsetSize(db.txs.Keys, Below(last + if coming.Some? then 1 else 0));
  }

  lemma HiredIs(p: Plan, db: Db, filled: bool, hired: nat)
    requires Rows(p, db, filled, hired) && hired <= p.total
    ensures |HiredAt(db, 0)| == hired
  {
    assert HiredAt(db, 0) == Below(hired);
  }

  // ----- applications come in

  lemma Publishes(k: nat, openings: nat) returns (db: Db)
    requires openings >= 1
    ensures Within(k, db) && Rows(Plan(openings, 0, 0), db, false, 0) && db.txs == map[]
  {
    assert InFlight(Empty, 0) == {};
    assert Runs(Empty, []) && After(Empty, []) == Empty && AtMostInFlight(Empty, [], 0, k);
    assert ProperJob(Job(Draft, openings, None, None, STAGES));
    db := TakeWithin(k, Empty, CreateJob(0, openings, STAGES));
    db := TakeWithin(k, db, ChangeStatus(0, Open));
  }

  lemma Submits(db: Db, openings: nat, total: nat)
    requires Rows(Plan(openings, total, 0), db, false, 0) && db.txs == map[]
    ensures Enabled(db, SubmitBegin(0, 0))
    ensures var begun := Apply(db, SubmitBegin(0, 0));
            && begun.txs.Keys == {0} && Enabled(begun, SubmitCommit(0, total, total))
            && var after := Apply(begun, SubmitCommit(0, total, total));
            after.txs == map[] && Rows(Plan(openings, total + 1, 0), after, false, 0)
  {
    var after := Apply(Apply(db, SubmitBegin(0, 0)), SubmitCommit(0, total, total));
    assert after.apps == db.apps[total := AppRow(total, 0)];
  }

  lemma OneApplies(k: nat, openings: nat, total: nat, db: Db) returns (after: Db)
    requires k >= 1 && Within(k, db) && Rows(Plan(openings, total, 0), db, false, 0) && db.txs == map[]
    ensures Within(k, after) && Rows(Plan(openings, total + 1, 0), after, false, 0) && after.txs == map[]
  {
    Submits(db, openings, total);
    after := TakeWithin(k, db, SubmitBegin(0, 0));
    after := TakeWithin(k, after, SubmitCommit(0, total, total));
  }

  lemma {:induction false} AllApply(k: nat, openings: nat, total: nat) returns (db: Db)
    requires openings >= 1 && k >= 1
    ensures Within(k, db) && Rows(Plan(openings, total, 0), db, false, 0) && db.txs == map[]
    decreases total
  {
    if total == 0 {
      db := Publishes(k, openings);
    } else {
      db := AllApply(k, openings, total - 1);
      db := OneApplies(k, openings, total - 1, db);
    }
  }

  // ----- transitions get ready

  lemma FindsStages()
    ensures Lookup(STAGES, 0) == Some(SCREEN) && Lookup(STAGES, 1) == Some(HIRED)
  {
    assert DistinctIds(STAGES);
    LookupUnique(STAGES, 0);
    LookupUnique(STAGES, 1);
  }

  lemma Begins(p: Plan, db: Db, hired: nat, last: nat)
    requires Rows(p, db, false, hired) && Batch(p, db, 0, last, None)
    requires hired <= p.counted && p.counted + last < p.total
    ensures var app := p.counted + last;
            var step := MoveBegin(last, app, REQUEST, RECRUITER);
            && Enabled(db, step) && Rows(p, Apply(db, step), false, hired)
            && Batch(p, Apply(db, step), 0, last, Some(Begun(p.openings, app)))
  {
    forall tx | tx in db.txs ensures db.txs[tx].app != p.counted + last {
    }
  }

  lemma Counts(p: Plan, db: Db, last: nat, app: AppId)
    requires Rows(p, db, false, p.counted) && Batch(p, db, 0, last, Some(Begun(p.openings, app)))
    requires p.counted <= p.total
    ensures var step, t := MoveCount(last), Mover(p.openings, app, Some(p.counted), None, None, None);
            Enabled(db, step) && Rows(p, Apply(db, step), false, p.counted)
            && Batch(p, Apply(db, step), 0, last, Some(t))
  {
    HiredIs(p, db, false, p.counted);
  }

  lemma Gathers(p: Plan, db: Db, last: nat, app: AppId)
    requires Rows(p, db, false, p.counted)
    requires Batch(p, db, 0, last, Some(Mover(p.openings, app, Some(p.counted), None, None, None)))
    ensures var step, t := MoveGather(last), Mover(p.openings, app, Some(p.counted), Some(0), None, None);
            Enabled(db, step) && Rows(p, Apply(db, step), false, p.counted)
            && Batch(p, Apply(db, step), 0, last, Some(t))
  {
    assert Seats(db.interviews, app, 0) == {};
  }

  lemma Decides(p: Plan, db: Db, last: nat, app: AppId)
    requires Rows(p, db, false, p.counted) && p.counted < p.openings
    requires Batch(p, db, 0, last, Some(Mover(p.openings, app, Some(p.counted), Some(0), None, None)))
    ensures var step, t := MoveDecide(last), Decided(p.openings, app, p.counted);
            Enabled(db, step) && Rows(p, Apply(db, step), false, p.counted)
            && Batch(p, Apply(db, step), 0, last, Some(t))
  {
    FindsStages();
    assert DecisionOf(db.txs[last]) == DECISION;
  }

  lemma Numbers(p: Plan, db: Db, last: nat)
    requires Rows(p, db, false, p.counted) && p.counted + last < p.total
    requires Batch(p, db, 0, last, Some(Decided(p.openings, p.counted + last, p.counted)))
    ensures var step := ReadSeq(last, 1);
            && Enabled(db, step) && Rows(p, Apply(db, step), false, p.counted)
            && Batch(p, Apply(db, step), 0, last + 1, None)
  {
    assert IsLatest(db.apps[p.counted + last].log, 1);
  }

  lemma OneCounts(k: nat, p: Plan, db: Db, last: nat, app: AppId) returns (after: Db)
    requires Within(k, db) && Rows(p, db, false, p.counted) && last < k && p.counted <= p.total
    requires Batch(p, db, 0, last, Some(Begun(p.openings, app)))
    ensures Within(k, after) && Rows(p, after, false, p.counted)
    ensures Batch(p, after, 0, last, Some(Mover(p.openings, app, Some(p.counted), None, None, None)))
  {
    Counts(p, db, last, app);
    FewInFlight(p, Apply(db, MoveCount(last)), 0, last,
                Some(Mover(p.openings, app, Some(p.counted), None, None, None)));
    after := TakeWithin(k, db, MoveCount(last));
  }

  lemma OneGathers(k: nat, p: Plan, db: Db, last: nat, app: AppId) returns (after: Db)
    requires Within(k, db) && Rows(p, db, false, p.counted) && last < k
    requires Batch(p, db, 0, last, Some(Mover(p.openings, app, Some(p.counted), None, None, None)))
    ensures Within(k, after) && Rows(p, after, false, p.counted)
    ensures Batch(p, after, 0, last, Some(Mover(p.openings, app, Some(p.counted), Some(0), None, None)))
  {
    Gathers(p, db, last, app);
    FewInFlight(p, Apply(db, MoveGather(last)), 0, last,
                Some(Mover(p.openings, app, Some(p.counted), Some(0), None, None)));
    after := TakeWithin(k, db, MoveGather(last));
  }

  lemma OneDecides(k: nat, p: Plan, db: Db, last: nat, app: AppId) returns (after: Db)
    requires Within(k, db) && Rows(p, db, false, p.counted) && last < k && p.counted < p.openings
    requires Batch(p, db, 0, last, Some(Mover(p.openings, app, Some(p.counted), Some(0), None, None)))
    ensures Within(k, after) && Rows(p, after, false, p.counted)
    ensures Batch(p, after, 0, last, Some(Decided(p.openings, app, p.counted)))
  {
    Decides(p, db, last, app);
    FewInFlight(p, Apply(db, MoveDecide(last)), 0, last, Some(Decided(p.openings, app, p.counted)));
    after := TakeWithin(k, db, MoveDecide(last));
  }

  lemma OneBegins(k: nat, p: Plan, db: Db, last: nat) returns (after: Db)
    requires Within(k, db) && Rows(p, db, false, p.counted) && Batch(p, db, 0, last, None)
    requires last < k && p.counted + last < p.total
    ensures Within(k, after) && Rows(p, after, false, p.counted)
    ensures Batch(p, after, 0, last, Some(Begun(p.openings, p.counted + last)))
  {
    var step := MoveBegin(last, p.counted + last, REQUEST, RECRUITER);
    Begins(p, db, p.counted, last);
    FewInFlight(p, Apply(db, step), 0, last, Some(Begun(p.openings, p.counted + last)));
    after := TakeWithin(k, db, step);
  }

  lemma OneNumbers(k: nat, p: Plan, db: Db, last: nat) returns (after: Db)
    requires Within(k, db) && Rows(p, db, false, p.counted) && last < k && p.counted + last < p.total
    requires Batch(p, db, 0, last, Some(Decided(p.openings, p.counted + last, p.counted)))
    ensures Within(k, after) && Rows(p, after, false, p.counted) && Batch(p, after, 0, last + 1, None)
  {
    Numbers(p, db, last);
    FewInFlight(p, Apply(db, ReadSeq(last, 1)), 0, last + 1, None);
    after := TakeWithin(k, db, ReadSeq(last, 1));
  }

  /** Lock, count, gather, decide and read the number, with nobody else doing anything. */
  lemma OneGetsReady(k: nat, p: Plan, db: Db, last: nat) returns (after: Db)
    requires Within(k, db) && Rows(p, db, false, p.counted) && Batch(p, db, 0, last, None)
    requires p.counted < p.openings && last < k && p.counted + last < p.total
    ensures Within(k, after) && Rows(p, after, false, p.counted) && Batch(p, after, 0, last + 1, None)
  {
    var app := p.counted + last;
    after := OneBegins(k, p, db, last);
    after := OneCounts(k, p, after, last, app);
    after := OneGathers(k, p, after, last, app);
    after := OneDecides(k, p, after, last, app);
    after := OneNumbers(k, p, after, last);
  }

  lemma {:induction false} AllGetReady(k: nat, p: Plan, db: Db, last: nat) returns (after: Db)
    requires Within(k, db) && Rows(p, db, false, p.counted) && db.txs == map[]
    requires p.counted < p.openings && last <= k && p.counted + last <= p.total
    ensures Within(k, after) && Rows(p, after, false, p.counted) && Batch(p, after, 0, last, None)
    decreases last
  {
    after := db;
    if last > 0 {
      after := AllGetReady(k, p, db, last - 1);
      after := OneGetsReady(k, p, after, last - 1);
    }
  }

  // ----- and hire

  lemma MayHire(p: Plan, db: Db, filled: bool, app: AppId, tx: TxId)
    requires Rows(p, db, filled, app) && app < p.total && tx in db.txs
    requires db.txs[tx] == Ready(p.openings, app, p.counted)
    ensures Enabled(db, MoveCommit(tx))
  {
  }

  lemma AppsAfterHire(p: Plan, db: Db, filled: bool, app: AppId, tx: TxId)
    requires Rows(p, db, filled, app) && app < p.total && tx in db.txs
    requires db.txs[tx] == Ready(p.openings, app, p.counted)
    requires Enabled(db, MoveCommit(tx))
    ensures var after := Apply(db, MoveCommit(tx));
            after.apps == db.apps[app := AppRow(app, app + 1)] && after.now == db.now
            && after.interviews == db.interviews
  {
    assert db.apps[app].log[2 := MoveEvent(DECISION, None)] == AppRow(app, app + 1).log;
  }

  lemma RowsAfterHire(p: Plan, db: Db, filled: bool, app: AppId, tx: TxId)
    requires Rows(p, db, filled, app) && app < p.total && tx in db.txs
    requires db.txs[tx] == Ready(p.openings, app, p.counted)
    requires Enabled(db, MoveCommit(tx))
    ensures Rows(p, Apply(db, MoveCommit(tx)), filled || p.counted + 1 >= p.openings, app + 1)
  {
    MoveLeaves(db, tx);
    AppsAfterHire(p, db, filled, app, tx);
  }

  lemma BatchAfterHire(p: Plan, db: Db, after: Db, next: nat, last: nat)
    requires Batch(p, db, next, last, None) && next < last && after.txs == db.txs - {next}
    ensures Batch(p, after, next + 1, last, None)
  {
  }

  /** The next of a batch commits, and is the last to have an application of this number hired. */
  lemma Hires(p: Plan, db: Db, filled: bool, app: AppId, next: nat, last: nat)
    requires Rows(p, db, filled, app) && Batch(p, db, next, last, None)
    requires app == p.counted + next < p.total && next < last
    ensures Enabled(db, MoveCommit(next))
    ensures Rows(p, Apply(db, MoveCommit(next)), filled || p.counted + 1 >= p.openings, app + 1)
    ensures Batch(p, Apply(db, MoveCommit(next)), next + 1, last, None)
  {
    assert db.txs[next] == Ready(p.openings, app, p.counted);
    MayHire(p, db, filled, app, next);
    RowsAfterHire(p, db, filled, app, next);
    MoveLeaves(db, next);
    BatchAfterHire(p, db, Apply(db, MoveCommit(next)), next, last);
  }

  lemma OneHires(k: nat, p: Plan, db: Db, filled: bool, app: AppId, next: nat, last: nat) returns (after: Db)
    requires Within(k, db) && Rows(p, db, filled, app) && Batch(p, db, next, last, None)
    requires app == p.counted + next < p.total && next < last <= k
    ensures Within(k, after) && Batch(p, after, next + 1, last, None)
    ensures Rows(p, after, filled || p.counted + 1 >= p.openings, app + 1)
  {
    Hires(p, db, filled, app, next, last);
    FewInFlight(p, Apply(db, MoveCommit(next)), next + 1, last, None);
    after := TakeWithin(k, db, MoveCommit(next));
  }

  lemma {:induction false} AllHire(k: nat, p: Plan, db: Db, filled: bool, app: AppId, next: nat, last: nat)
    returns (after: Db)
    requires Within(k, db) && Rows(p, db, filled, app) && Batch(p, db, next, last, None)
    requires app == p.counted + next && next <= last <= k && p.counted + last <= p.total
    ensures Within(k, after) && after.txs == map[]
    ensures Rows(p, after, filled || (next < last && p.counted + 1 >= p.openings), p.counted + last)
    decreases last - next
  {
    if next == last {
      after := db;
    } else {
      after := OneHires(k, p, db, filled, app, next, last);
      after := AllHire(k, p, after, filled || p.counted + 1 >= p.openings, app + 1, next + 1, last);
    }
  }

  /** A batch of transitions that all count the same hires and all hire. */
  lemma BatchHires(k: nat, p: Plan, db: Db, batch: nat) returns (after: Db)
    requires Within(k, db) && Rows(p, db, false, p.counted) && db.txs == map[]
    requires p.counted < p.openings && 0 < batch <= k && p.counted + batch <= p.total
    ensures Within(k, after) && Rows(p, after, p.counted + 1 >= p.openings, p.counted + batch) && after.txs == map[]
  {
    after := AllGetReady(k, p, db, batch);
    after := AllHire(k, p, after, false, p.counted, 0, batch);
  }

  lemma {:induction false} OneByOne(k: nat, openings: nat, total: nat, hired: nat) returns (db: Db)
    requires k >= 1 && hired < openings && hired <= total
    ensures Within(k, db) && Rows(Plan(openings, total, hired), db, false, hired) && db.txs == map[]
    decreases hired
  {
    if hired == 0 {
      db := AllApply(k, openings, total);
    } else {
      db := OneByOne(k, openings, total, hired - 1);
      db := BatchHires(k, Plan(openings, total, hired - 1), db, 1);
    }
  }

  /**
   The bound on hires is the best there is: for any number of openings and any k there is a run,
   with at most k transitions in flight, that hires openings + k - 1 people.
   */
  lemma HiresReachTheBound(openings: nat, k: nat)
    requires openings >= 1 && k >= 1
    ensures exists db ::
              && Within(k, db) && 0 in db.jobs && db.jobs[0].openings == openings
              && |HiredAt(db, 0)| == openings + k - 1
  {
    var p := Plan(openings, openings + k - 1, openings - 1);
    var db := OneByOne(k, openings, p.total, p.counted);
    db := BatchHires(k, p, db, k);
    HiredIs(p, db, true, p.counted + k);
  }

  /**
   A requisition with two openings or more can be full and still open: every opening is taken by
   a transition that had counted none of the others.
   */
  lemma FullStaysOpen(openings: nat)
    requires openings >= 2
    ensures exists db ::
              && Within(openings, db) && 0 in db.jobs && db.jobs[0].openings == openings
              && |HiredAt(db, 0)| == openings && db.jobs[0].status == Open
  {
    var p := Plan(openings, openings, 0);
    var db := AllApply(openings, openings, openings);
    db := BatchHires(openings, p, db, openings);
    HiredIs(p, db, false, openings);
  }

  /** A pause that read the row before the last hire, written after it. */
  lemma LateAfterHire(p: Plan, before: Db, after: Db)
    requires p == Plan(1, 1, 0) && Rows(p, before, false, 0) && Rows(p, after, true, 1)
    ensures Paused in LegalChanges(before.jobs[0].status) && after.jobs[0].status == Filled
    ensures |HiredAt(after, 0)| == after.jobs[0].openings
    ensures ChangedLate(before.jobs[0], after.jobs[0], Paused, after.now).status == Paused
  {
    HiredIs(p, after, true, 1);
  }

  /** The one opening is filled between the two statements of a pause, which takes FILLED back. */
  lemma LatePauseUndoesFilled()
    ensures exists before, after ::
              && Within(1, before) && Enabled(before, MoveCommit(0)) && Apply(before, MoveCommit(0)) == after
              && 0 in before.jobs && Paused in LegalChanges(before.jobs[0].status)
              && 0 in after.jobs && after.jobs[0].status == Filled
              && |HiredAt(after, 0)| == after.jobs[0].openings
              && ChangedLate(before.jobs[0], after.jobs[0], Paused, after.now).status == Paused
  {
    var p := Plan(1, 1, 0);
    var before := OneIsReady(p);
    Hires(p, before, false, 0, 0, 1);
    LateAfterHire(p, before, Apply(before, MoveCommit(0)));
  }

  lemma OneIsReady(p: Plan) returns (db: Db)
    requires p == Plan(1, 1, 0)
    ensures Within(1, db) && Rows(p, db, false, 0) && Batch(p, db, 0, 1, None)
  {
    db := AllApply(1, 1, 1);
    db := AllGetReady(1, p, db, 1);
  }
}
