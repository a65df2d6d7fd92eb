/**
 The services that write to the ledger, statement by statement: between any two of their
 statements other transactions may read, commit and abort.
 */
module LedgerServices {
  import opened Wrappers
  import opened Transitions
  import opened Ledger
  import opened LedgerShape

  datatype Failure = NotFound | Conflict | Forbidden | Unprocessable | DatabaseError

  function ToHttp(code: Denial): Failure {
    match code
    case StaleStage => Conflict
    case NoScope => Forbidden
    case RoleNotPermitted => Forbidden
    case UnknownStage => NotFound
    case _ => Unprocessable
  }

  /** The steps of one transaction. */
  predicate Of(step: Step, tx: TxId) {
    !step.Tick? && !step.CreateJob? && !step.ChangeStatus? && !step.AppendStage? && step.tx == tx
  }

  predicate IsCommit(step: Step) {
    step.SubmitCommit? || step.MoveCommit? || step.AppendCommit?
  }

  /** How often a transaction has committed. */
  ghost function CommitsOf(trace: seq<Step>, tx: TxId): nat {
    if trace == [] then 0
    else
      CommitsOf(trace[..|trace| - 1], tx)
      + if Of(trace[|trace| - 1], tx) && IsCommit(trace[|trace| - 1]) then 1 else 0
  }

  lemma CommitsSnoc(trace: seq<Step>, step: Step, tx: TxId)
    ensures CommitsOf(trace + [step], tx) == CommitsOf(trace, tx) + if Of(step, tx) && IsCommit(step) then 1 else 0
  {
    assert (trace + [step])[..|trace|] == trace;
  }

  lemma {:induction false} OthersDoNotCommit(trace: seq<Step>, more: seq<Step>, tx: TxId)
    requires forall step :: step in more ==> !Of(step, tx)
    ensures CommitsOf(trace + more, tx) == CommitsOf(trace, tx)
  {
    if more == [] {
      assert trace + more == trace;
    } else {
      var last := |more| - 1;
      OthersDoNotCommit(trace, more[..last], tx);
      CommitsSnoc(trace + more[..last], more[last], tx);
      assert trace + more == (trace + more[..last]) + [more[last]];
    }
  }

  lemma {:induction false} OthersKeepTx(db: Db, more: seq<Step>, tx: TxId)
    requires Runs(db, more) && forall step :: step in more ==> !Of(step, tx)
    ensures tx in After(db, more).txs <==> tx in db.txs
    ensures tx in db.txs ==> After(db, more).txs[tx] == db.txs[tx]
    decreases |more|
  {
    if more != [] {
      assert more[0] in more;
      OneOtherKeepsTx(db, more[0], tx);
      OthersKeepTx(Apply(db, more[0]), more[1..], tx);
    }
  }

  lemma OneOtherKeepsTx(db: Db, step: Step, tx: TxId)
    requires Enabled(db, step) && !Of(step, tx)
    ensures tx in Apply(db, step).txs <==> tx in db.txs
    ensures tx in db.txs ==> Apply(db, step).txs[tx] == db.txs[tx]
  {
  }

  lemma {:induction false} RunsSplit(db: Db, trace: seq<Step>, more: seq<Step>)
    requires Runs(db, trace) && Runs(db, trace + more)
    ensures Runs(After(db, trace), more)
    ensures After(db, trace + more) == After(After(db, trace), more)
    decreases |trace|
  {
    if trace == [] {
      assert trace + more == more;
    } else {
      assert (trace + more)[1..] == trace[1..] + more;
      RunsSplit(Apply(db, trace[0]), trace[1..], more);
    }
  }

  /** The database as it was after the first steps of a run. */
  ghost function StateAt(trace: seq<Step>, i: nat): Db
    requires i <= |trace|
  {
    if Runs(Empty, trace[..i]) then After(Empty, trace[..i]) else Empty
  }

  lemma Moment(past: seq<Step>, trace: seq<Step>)
    requires past <= trace && Runs(Empty, past)
    ensures StateAt(trace, |past|) == After(Empty, past)
  {
    assert trace[..|past|] == past;
  }

  lemma SameMoments(trace: seq<Step>, longer: seq<Step>, i: nat)
    requires i <= |trace| && trace <= longer
    ensures StateAt(longer, i) == StateAt(trace, i)
  {
    assert longer[..i] == trace[..i];
  }

  // ----- what a transition answers

  /** The facts as read: row and requisition under the lock, then the hires, then the scorecards. */
  ghost function FactsRead(locked: Db, counted: Db, gathered: Db, app: AppId, actor: Actor): Facts
    requires app in locked.apps && locked.apps[app].job in locked.jobs
  {
    var row := locked.apps[app];
    var job := locked.jobs[row.job];
    Facts(row.status, row.stage, job.status, job.openings - |HiredAt(counted, row.job)|,
          |Seats(gathered.interviews, app, row.stage)|, job.stages, actor)
  }

  lemma FactsAre(locked: Db, counted: Db, gathered: Db, begun: Tx, t: Tx)
    requires begun.Moving? && begun.app in locked.apps && locked.apps[begun.app].job in locked.jobs
    requires var row := locked.apps[begun.app];
             begun == Moving(begun.app, begun.request, begun.actor, row.job, locked.jobs[row.job], row.status,
                             row.stage, None, None, None, None)
    requires t == begun.(hired := Some(|HiredAt(counted, begun.jobId)|),
                         pending := Some(|Seats(gathered.interviews, begun.app, begun.stage)|))
    ensures FactsOf(t) == FactsRead(locked, counted, gathered, begun.app, begun.actor)
  {
  }

  /** The answer that belongs to the facts: 409, 403 and 404 each for their own reasons, 422 for the rest. */
  ghost predicate Fits(facts: Facts, request: Request, verdict: Result<Kind, Failure>) {
    match verdict
    case Ok(kind) => exists from, to :: Justified(facts, request, kind, from, to)
    case Err(NotFound) => Refused(facts, request, UnknownStage)
    case Err(Conflict) => Refused(facts, request, StaleStage)
    case Err(Forbidden) => Refused(facts, request, NoScope)
    case Err(Unprocessable) =>
      || Refused(facts, request, SameStage) || Refused(facts, request, TerminalApplication)
      || Refused(facts, request, ReasonRequired) || Refused(facts, request, JobNotAccepting)
      || Refused(facts, request, ScorecardRequired) || Refused(facts, request, NoOpeningsRemaining)
    case Err(DatabaseError) => false
  }

  lemma DecisionFits(facts: Facts, request: Request)
    ensures match Evaluate(facts, request)
            case Allowed(kind, _, _, _) => Fits(facts, request, Ok(kind))
            case Denied(code) => Fits(facts, request, Err(ToHttp(code)))
  {
    match Evaluate(facts, request)
    case Allowed(_, _, _, _) => AllowedExactlyWhenJustified(facts, request);
    case Denied(code) => DeniedExactlyWhenRefused(facts, request, code);
  }

  /** No facts fit two answers. */
  lemma OneVerdictFits(facts: Facts, request: Request, one: Result<Kind, Failure>, two: Result<Kind, Failure>)
    requires Fits(facts, request, one) && Fits(facts, request, two)
    ensures one == two
  {
    AllowedExactlyWhenJustified(facts, request);
    forall code: Denial ensures Refused(facts, request, code) ==> Evaluate(facts, request) == Denied(code) {
      DeniedExactlyWhenRefused(facts, request, code);
    }
  }

  /** The facts were read at three moments, one after another, since the run had `start` steps. */
  ghost predicate ReadSince(start: nat, trace: seq<Step>, app: AppId, actor: Actor, facts: Facts) {
    exists i, j, k :: ReadAt(i, j, k, trace, app, actor, facts) && start <= i
  }

  ghost predicate ReadAt(i: nat, j: nat, k: nat, trace: seq<Step>, app: AppId, actor: Actor, facts: Facts) {
    && i <= j <= k <= |trace|
    && var locked := StateAt(trace, i);
    && app in locked.apps && locked.apps[app].job in locked.jobs
    && facts == FactsRead(locked, StateAt(trace, j), StateAt(trace, k), app, actor)
  }

  lemma ReadStill(start: nat, trace: seq<Step>, earlier: nat, longer: seq<Step>, app: AppId, actor: Actor,
                  facts: Facts)
    requires ReadSince(start, trace, app, actor, facts) && earlier <= start && trace <= longer
    ensures ReadSince(earlier, longer, app, actor, facts)
  {
    var i: nat, j: nat, k: nat :| ReadAt(i, j, k, trace, app, actor, facts) && start <= i;
    SameMoments(trace, longer, i);
    SameMoments(trace, longer, j);
    SameMoments(trace, longer, k);
    assert ReadAt(i, j, k, longer, app, actor, facts);
  }

  lemma ReadInOrder(locked: seq<Step>, counted: seq<Step>, gathered: seq<Step>, trace: seq<Step>, app: AppId,
                    actor: Actor)
    requires locked <= counted <= gathered <= trace
    requires Runs(Empty, locked) && Runs(Empty, counted) && Runs(Empty, gathered)
    requires app in After(Empty, locked).apps
    requires After(Empty, locked).apps[app].job in After(Empty, locked).jobs
    ensures ReadSince(|locked|, trace, app, actor,
                      FactsRead(After(Empty, locked), After(Empty, counted), After(Empty, gathered), app, actor))
  {
    Moment(locked, trace);
    Moment(counted, trace);
    Moment(gathered, trace);
    assert ReadAt(|locked|, |counted|, |gathered|, trace, app, actor,
                  FactsRead(After(Empty, locked), After(Empty, counted), After(Empty, gathered), app, actor));
  }

  /** The verdict fits facts read since then. */
  ghost predicate Judged(start: nat, trace: seq<Step>, app: AppId, request: Request, actor: Actor,
                         verdict: Result<Kind, Failure>)
  {
    exists facts :: ReadSince(start, trace, app, actor, facts) && Fits(facts, request, verdict)
  }

  lemma JudgedStill(start: nat, trace: seq<Step>, earlier: nat, longer: seq<Step>, app: AppId, request: Request,
                    actor: Actor, verdict: Result<Kind, Failure>)
    requires Judged(start, trace, app, request, actor, verdict) && earlier <= start && trace <= longer
    ensures Judged(earlier, longer, app, request, actor, verdict)
  {
    var facts :| ReadSince(start, trace, app, actor, facts) && Fits(facts, request, verdict);
    ReadStill(start, trace, earlier, longer, app, actor, facts);
  }

  ghost predicate MissingSince(start: nat, trace: seq<Step>, app: AppId) {
    exists i :: start <= i && MissingAt(trace, i, app)
  }

  ghost predicate MissingAt(trace: seq<Step>, i: nat, app: AppId) {
    i <= |trace| && app !in StateAt(trace, i).apps
  }

  method LatestSeq(log: Log) returns (latest: nat)
    requires forall n :: n in log ==> n >= 1
    ensures IsLatest(log, latest)
  {
    latest := 0;
    var rest := log.Keys;
    while rest != {}
      invariant rest <= log.Keys
      invariant latest == 0 || latest in log
      invariant forall n :: n in log ==> n <= latest || n in rest
      decreases rest
    {
      var n :| n in rest;
      if n > latest {
        latest := n;
      }
      rest := rest - {n};
    }
  }

  /** The database, with every step taken on it so far. */
  class Database {
    var db: Db
    ghost var trace: seq<Step>
    /** How many statements failed for reasons outside the program: a lost connection, a lock never got. */
    ghost var faults: nat

    ghost predicate Valid()
      reads this
    {
      Runs(Empty, trace) && db == After(Empty, trace)
    }

    constructor ()
      ensures Valid() && trace == [] && faults == 0
    {
      db := Empty;
      trace := [];
      faults := 0;
    }

    method Breaks() returns (broken: bool)
      requires Valid()
      modifies this`faults
      ensures Valid() && faults == old(faults) + if broken then 1 else 0
    {
      broken := *;
      if broken {
        faults := faults + 1;
      }
    }

    /** A row lock another transaction keeps too long. */
    method TimesOut(app: AppId) returns (inVain: bool)
      requires Valid()
      modifies this`faults
      ensures Valid() && (inVain <==> Locked(db, app)) && faults == old(faults) + if inVain then 1 else 0
    {
      inVain := Locked(db, app);
      if inVain {
        faults := faults + 1;
      }
    }

    lemma Shaped()
      requires Valid()
      ensures Shape(db)
    {
      RunKeepsShape(Empty, trace);
    }

    ghost function Commits(tx: TxId): nat
      reads this
    {
      CommitsOf(trace, tx)
    }

    method Perform(step: Step)
      requires Valid() && Enabled(db, step)
      modifies this`db, this`trace
      ensures Valid() && db == Apply(old(db), step) && trace == old(trace) + [step]
      ensures forall tx :: Commits(tx)
                == old(Commits(tx)) + if Of(step, tx) && IsCommit(step) then 1 else 0
    {
      RunsSnoc(Empty, trace, step);
      forall tx { CommitsSnoc(trace, step, tx); }
      db := Apply(db, step);
      trace := trace + [step];
    }

    /** Whatever other transactions and the clock do meanwhile. */
    method Others(tx: TxId)
      requires Valid()
      modifies this`db, this`trace
      ensures Valid() && old(trace) <= trace
      ensures forall step :: step in trace[|old(trace)|..] ==> !Of(step, tx)
      ensures tx in db.txs <==> tx in old(db).txs
      ensures tx in db.txs ==> db.txs[tx] == old(db).txs[tx]
      ensures Commits(tx) == old(Commits(tx))
    {
      // Left to the environment; whatever it adds, these facts follow from the rest.
      assert trace == old(trace) + trace[|old(trace)|..];
      RunsSplit(Empty, old(trace), trace[|old(trace)|..]);
      OthersKeepTx(old(db), trace[|old(trace)|..], tx);
      OthersDoNotCommit(old(trace), trace[|old(trace)|..], tx);
    }

    method Rollback(tx: TxId)
      requires Valid() && tx in db.txs
      modifies this`db, this`trace
      ensures Valid() && old(trace) <= trace && Commits(tx) == old(Commits(tx))
      ensures db == old(db).(txs := old(db).txs - {tx})
    {
      Perform(Abort(tx));
    }

    method LockAndRead(tx: TxId, app: AppId, request: Request, actor: Actor)
      requires Valid() && tx !in db.txs && app in db.apps && !Locked(db, app)
      modifies this`db, this`trace
      ensures Valid() && old(trace) <= trace && Commits(tx) == old(Commits(tx))
      ensures var row := old(db).apps[app];
              && row.job in old(db).jobs && tx in db.txs
              && db.txs[tx] == Moving(app, request, actor, row.job, old(db).jobs[row.job], row.status, row.stage,
                                      None, None, None, None)
    {
      Shaped();
      assert AppShape(db, app);
      Perform(MoveBegin(tx, app, request, actor));
    }

    /** Others act, then the hires are counted; `at` is the run up to the count. */
    method CountHires(tx: TxId) returns (ghost at: seq<Step>)
      requires Valid() && tx in db.txs && db.txs[tx].Moving? && db.txs[tx].hired.None?
      modifies this`db, this`trace
      ensures Valid() && old(trace) <= at <= trace && Runs(Empty, at) && Commits(tx) == old(Commits(tx))
      ensures tx in db.txs
      ensures var t := old(db).txs[tx];
              db.txs[tx] == t.(hired := Some(|HiredAt(After(Empty, at), t.jobId)|))
    {
      Others(tx);
      at := trace;
      Perform(MoveCount(tx));
    }

    /** Others act, then the scorecards are gathered. */
    method GatherScorecards(tx: TxId) returns (ghost at: seq<Step>)
      requires Valid() && tx in db.txs && db.txs[tx].Moving? && db.txs[tx].hired.Some? && db.txs[tx].pending.None?
      modifies this`db, this`trace
      ensures Valid() && old(trace) <= at <= trace && Runs(Empty, at) && Commits(tx) == old(Commits(tx))
      ensures tx in db.txs
      ensures var t := old(db).txs[tx];
              db.txs[tx] == t.(pending := Some(|Seats(After(Empty, at).interviews, t.app, t.stage)|))
    {
      Others(tx);
      at := trace;
      Perform(MoveGather(tx));
    }

    method Settle(tx: TxId)
      requires Valid() && tx in db.txs && db.txs[tx].Moving? && db.txs[tx].hired.Some? && db.txs[tx].pending.Some?
      requires db.txs[tx].decision.None? && DecisionOf(db.txs[tx]).Allowed?
      modifies this`db, this`trace
      ensures Valid() && old(trace) <= trace && Commits(tx) == old(Commits(tx))
      ensures tx in db.txs && db.txs[tx] == old(db).txs[tx].(decision := Some(DecisionOf(old(db).txs[tx])))
    {
      Perform(MoveDecide(tx));
    }

    method BeginSubmission(tx: TxId, job: JobId)
      requires Valid() && tx !in db.txs && job in db.jobs && db.jobs[job].status == Open && db.jobs[job].stages != []
      modifies this`db, this`trace
      ensures Valid() && old(trace) <= trace && Commits(tx) == old(Commits(tx))
      ensures tx in db.txs && db.txs[tx] == Submitting(job, old(db).jobs[job].stages[0].id)
    {
      Perform(SubmitBegin(tx, job));
    }

    method CommitSubmission(tx: TxId, app: AppId, candidate: CandidateId)
      requires Valid() && tx in db.txs && db.txs[tx].Submitting? && app !in db.apps
      requires NoOtherActive(db, None, candidate, db.txs[tx].jobId)
      modifies this`db, this`trace
      ensures Valid() && old(trace) + [SubmitCommit(tx, app, candidate)] == trace
      ensures Commits(tx) == old(Commits(tx)) + 1 && tx !in db.txs
      ensures var t := old(db).txs[tx];
              && db.apps == old(db).apps[app := App(t.jobId, candidate, t.firstStage, Active, None,
                                                    map[1 := ReceivedEvent(t.firstStage)])]
              && t.jobId in db.jobs && db.jobs[t.jobId].stages != [] && t.firstStage == db.jobs[t.jobId].stages[0].id
    {
      Shaped();
      assert TxShape(db, tx);
      Perform(SubmitCommit(tx, app, candidate));
    }

    method CommitMove(tx: TxId)
      requires Valid() && Enabled(db, MoveCommit(tx))
      modifies this`db, this`trace
      ensures Valid() && old(trace) + [MoveCommit(tx)] == trace && Commits(tx) == old(Commits(tx)) + 1 && tx !in db.txs
      ensures var t := old(db).txs[tx];
              var d := t.decision.value;
              && t.app in db.apps
              && Answers(db.apps[t.app], t.request,
                         TransitionResult(d.kind, d.from.id, d.to.id, d.result, t.seqNo.value))
    {
      Shaped();
      WriteAnswers(db, tx);
      Perform(MoveCommit(tx));
    }

    method CommitEntry(tx: TxId)
      requires Valid() && tx in db.txs && db.txs[tx].Appending? && db.txs[tx].app in db.apps
      requires !Locked(db, db.txs[tx].app)
      requires db.txs[tx].seqNo.Some? && db.txs[tx].seqNo.value !in db.apps[db.txs[tx].app].log
      requires db.txs[tx].write.Schedule? ==> db.txs[tx].write.interview !in db.interviews
      modifies this`db, this`trace
      ensures Valid() && old(trace) + [AppendCommit(tx)] == trace
      ensures Commits(tx) == old(Commits(tx)) + 1 && tx !in db.txs
      ensures var t := old(db).txs[tx];
              Entered(trace, db, tx, t.app, t.write, t.seqNo.value)
    {
      Shaped();
      assert TxShape(db, tx) && AppShape(db, db.txs[tx].app);
      EntryTakesEffect(db, tx);
      Perform(AppendCommit(tx));
    }

    /** Others act before the number is read, and again after it. */
    method NumberMove(tx: TxId)
      requires Valid() && tx in db.txs && db.txs[tx].Moving? && db.txs[tx].seqNo.None? && db.txs[tx].decision.Some?
      modifies this`db, this`trace
      ensures Valid() && old(trace) <= trace && Commits(tx) == old(Commits(tx))
      ensures tx in db.txs && db.txs[tx].Moving? && db.txs[tx].seqNo.Some?
      ensures var t, was := db.txs[tx], old(db).txs[tx];
              t.app == was.app && t.jobId == was.jobId && t.request == was.request && t.decision == was.decision
    {
      Others(tx);
      NextSeq(tx);
      Others(tx);
    }

    /** Read the highest number in the log inside the transaction that will write the next. */
    method NextSeq(tx: TxId)
      requires Valid() && tx in db.txs && !db.txs[tx].Submitting? && db.txs[tx].seqNo.None?
      requires db.txs[tx].Moving? ==> db.txs[tx].decision.Some?
      modifies this`db, this`trace
      ensures Valid() && old(trace) <= trace && Commits(tx) == old(Commits(tx))
      ensures tx in db.txs && !db.txs[tx].Submitting? && db.txs[tx].app in db.apps
      ensures db.txs[tx].seqNo == Some(|db.apps[db.txs[tx].app].log| + 1)
      ensures db.txs[tx] == old(db).txs[tx].(seqNo := db.txs[tx].seqNo)
    {
      Shaped();
      assert TxShape(db, tx) && AppShape(db, db.txs[tx].app);
      var latest := LatestSeq(db.apps[db.txs[tx].app].log);
      Numbered(db, tx, latest);
      Perform(ReadSeq(tx, latest));
    }
  }

  lemma Numbered(db: Db, tx: TxId, latest: nat)
    requires tx in db.txs && !db.txs[tx].Submitting? && db.txs[tx].seqNo.None? && db.txs[tx].app in db.apps
    requires db.txs[tx].Moving? ==> db.txs[tx].decision.Some?
    requires Dense(db.apps[db.txs[tx].app].log) && IsLatest(db.apps[db.txs[tx].app].log, latest)
    ensures Enabled(db, ReadSeq(tx, latest)) && Apply(db, ReadSeq(tx, latest)).apps == db.apps
    ensures var after := Apply(db, ReadSeq(tx, latest)).txs;
            tx in after && after[tx] == db.txs[tx].(seqNo := Some(|db.apps[db.txs[tx].app].log| + 1))
  {
    LatestIsSize(db.apps[db.txs[tx].app].log, latest);
  }

  /** A transition that has read its number commits unless the index on active applications objects. */
  lemma MayCommit(db: Db, tx: TxId)
    requires Shape(db) && tx in db.txs && db.txs[tx].Moving? && db.txs[tx].seqNo.Some?
    requires db.txs[tx].decision.Some? && db.txs[tx].decision.value.Allowed?
    ensures var t := db.txs[tx];
            && t.app in db.apps && t.jobId in db.jobs && db.apps[t.app].job == t.jobId
            && (Enabled(db, MoveCommit(tx))
                || (t.decision.value.result == Active
                    && !NoOtherActive(db, Some(t.app), db.apps[t.app].candidate, t.jobId)))
  {
    assert TxShape(db, tx);
    TransitionNeverLosesTheRace(db, tx);
  }

  datatype TransitionResult = TransitionResult(kind: Kind, from: StageId, to: StageId, status: Status, seqNo: nat)

  /** Its candidate has another application for the role that is active. */
  ghost predicate Blocked(db: Db, app: AppId) {
    app in db.apps && exists other :: IsRival(db, app, other)
  }

  ghost predicate IsRival(db: Db, app: AppId, other: AppId)
    requires app in db.apps
  {
    && other in db.apps && other != app && db.apps[other].status == Active
    && db.apps[other].candidate == db.apps[app].candidate && db.apps[other].job == db.apps[app].job
  }

  lemma RivalsBlock(db: Db, app: AppId)
    requires app in db.apps && !NoOtherActive(db, Some(app), db.apps[app].candidate, db.apps[app].job)
    ensures Blocked(db, app)
  {
    var other :| other in db.apps && other != app && db.apps[other].status == Active
      && db.apps[other].candidate == db.apps[app].candidate && db.apps[other].job == db.apps[app].job;
    assert IsRival(db, app, other);
  }

  /** The last thing that happened is the commit, and the answer says what it wrote. */
  ghost predicate MoveDone(trace: seq<Step>, db: Db, tx: TxId, app: AppId, request: Request, answer: TransitionResult) {
    && trace != [] && trace[|trace| - 1] == MoveCommit(tx)
    && app in db.apps && Answers(db.apps[app], request, answer)
  }

  /**
   How a transition ends: with a move that was justified by what it read, with a refusal that fits
   what it read, or, by a fault or the index on active applications, with an error of the database.
   */
  ghost predicate Finished(start: nat, trace: seq<Step>, db: Db, tx: TxId, app: AppId, request: Request, actor: Actor,
                           result: Result<TransitionResult, Failure>, faulty: bool)
  {
    match result
    case Ok(answer) =>
      MoveDone(trace, db, tx, app, request, answer) && Judged(start, trace, app, request, actor, Ok(answer.kind))
    case Err(DatabaseError) => faulty || Blocked(db, app)
    case Err(failure) =>
      || Judged(start, trace, app, request, actor, Err(failure))
      || (failure == NotFound && MissingSince(start, trace, app))
  }

  lemma FinishedStill(start: nat, earlier: nat, trace: seq<Step>, db: Db, tx: TxId, app: AppId, request: Request,
                      actor: Actor, result: Result<TransitionResult, Failure>, faulty: bool)
    requires Finished(start, trace, db, tx, app, request, actor, result, faulty) && earlier <= start
    ensures Finished(earlier, trace, db, tx, app, request, actor, result, faulty)
  {
    var verdict := if result.Ok? then Ok(result.value.kind) else Err(result.error);
    if Judged(start, trace, app, request, actor, verdict) {
      JudgedStill(start, trace, earlier, trace, app, request, actor, verdict);
    }
  }

  class PipelineService {
    const store: Database

    constructor (store: Database)
      ensures this.store == store
    {
      this.store := store;
    }

    /**
     A transition that succeeds has committed once, and last of all: row, log and answer then
     agree. One that fails has committed nothing, and says what was wrong with the request.
     */
    method Transition(tx: TxId, app: AppId, request: Request, actor: Actor)
      returns (result: Result<TransitionResult, Failure>)
      requires store.Valid() && tx !in store.db.txs
      modifies store
      ensures store.Valid() && old(store.trace) <= store.trace && tx !in store.db.txs
      ensures store.Commits(tx) == old(store.Commits(tx)) + if result.Ok? then 1 else 0
      ensures Finished(|old(store.trace)|, store.trace, store.db, tx, app, request, actor, result,
                       store.faults > old(store.faults))
    {
      store.Others(tx);
      ghost var start := store.trace;
      if app !in store.db.apps {
        Moment(start, start);
        assert MissingAt(store.trace, |start|, app);
        return Err(NotFound);
      }
      var inVain := store.TimesOut(app);
      if inVain {
        return Err(DatabaseError);
      }
      result := DecideAndWrite(tx, app, request, actor);
      FinishedStill(|start|, |old(store.trace)|, store.trace, store.db, tx, app, request, actor, result,
                    store.faults > old(store.faults));
    }

    method DecideAndWrite(tx: TxId, app: AppId, request: Request, actor: Actor)
      returns (result: Result<TransitionResult, Failure>)
      requires store.Valid() && tx !in store.db.txs && app in store.db.apps && !Locked(store.db, app)
      modifies store
      ensures store.Valid() && old(store.trace) <= store.trace && tx !in store.db.txs
      ensures store.Commits(tx) == old(store.Commits(tx)) + if result.Ok? then 1 else 0
      ensures Finished(|old(store.trace)|, store.trace, store.db, tx, app, request, actor, result,
                       store.faults > old(store.faults))
    {
      var decided := Decide(tx, app, request, actor);
      if decided.Err? {
        return Err(decided.error);
      }
      ghost var earlier, kind := store.trace, store.db.txs[tx].decision.value.kind;
      result := Write(tx, app, request);
      JudgedStill(|old(store.trace)|, earlier, |old(store.trace)|, store.trace, app, request, actor, Ok(kind));
    }

    /** Lock, and gather the facts one query at a time. */
    method Gather(tx: TxId, app: AppId, request: Request, actor: Actor)
      requires store.Valid() && tx !in store.db.txs && app in store.db.apps && !Locked(store.db, app)
      modifies store`db, store`trace
      ensures store.Valid() && old(store.trace) <= store.trace && store.Commits(tx) == old(store.Commits(tx))
      ensures tx in store.db.txs && store.db.txs[tx].Moving?
      ensures var t := store.db.txs[tx];
              && t.app == app && t.request == request && t.hired.Some? && t.pending.Some?
              && t.decision.None? && t.seqNo.None?
              && ReadSince(|old(store.trace)|, store.trace, app, actor, FactsOf(t))
    {
      ghost var locked := store.trace;
      store.LockAndRead(tx, app, request, actor);
      ghost var t := store.db.txs[tx];
      ghost var counted := store.CountHires(tx);
      ghost var gathered := store.GatherScorecards(tx);
      FactsAre(After(Empty, locked), After(Empty, counted), After(Empty, gathered), t, store.db.txs[tx]);
      ReadInOrder(locked, counted, gathered, store.trace, app, actor);
    }

    /** Gather the facts and ask for a decision; a denial gives up the transaction. */
    method Decide(tx: TxId, app: AppId, request: Request, actor: Actor) returns (decided: Result<(), Failure>)
      requires store.Valid() && tx !in store.db.txs && app in store.db.apps && !Locked(store.db, app)
      modifies store`db, store`trace
      ensures store.Valid() && old(store.trace) <= store.trace && store.Commits(tx) == old(store.Commits(tx))
      ensures decided.Err? ==>
                && tx !in store.db.txs && decided.error != DatabaseError
                && Judged(|old(store.trace)|, store.trace, app, request, actor, Err(decided.error))
      ensures decided.Ok? ==>
                && tx in store.db.txs && store.db.txs[tx].Moving?
                && var t := store.db.txs[tx];
                t.app == app && t.request == request && t.decision.Some? && t.decision.value.Allowed? && t.seqNo.None?
                && Judged(|old(store.trace)|, store.trace, app, request, actor, Ok(t.decision.value.kind))
    {
      Gather(tx, app, request, actor);
      ghost var gathered, facts := store.trace, FactsOf(store.db.txs[tx]);
      var decision := DecisionOf(store.db.txs[tx]);
      DecisionFits(facts, request);
      if decision.Denied? {
        store.Rollback(tx);
        ReadStill(|old(store.trace)|, gathered, |old(store.trace)|, store.trace, app, actor, facts);
        return Err(ToHttp(decision.code));
      }
      store.Settle(tx);
      ReadStill(|old(store.trace)|, gathered, |old(store.trace)|, store.trace, app, actor, facts);
      decided := Ok(());
    }

    method Write(tx: TxId, app: AppId, request: Request) returns (result: Result<TransitionResult, Failure>)
      requires store.Valid() && tx in store.db.txs && store.db.txs[tx].Moving?
      requires store.db.txs[tx].app == app && store.db.txs[tx].request == request
      requires store.db.txs[tx].decision.Some? && store.db.txs[tx].decision.value.Allowed?
      requires store.db.txs[tx].seqNo.None?
      modifies store
      ensures store.Valid() && old(store.trace) <= store.trace && tx !in store.db.txs
      ensures store.Commits(tx) == old(store.Commits(tx)) + if result.Ok? then 1 else 0
      ensures result.Err? ==>
                result.error == DatabaseError && (store.faults > old(store.faults) || Blocked(store.db, app))
      ensures result.Ok? ==>
                && MoveDone(store.trace, store.db, tx, app, request, result.value)
                && result.value.kind == old(store.db).txs[tx].decision.value.kind
    {
      store.NumberMove(tx);
      var t := store.db.txs[tx];
      var d := t.decision.value;
      store.Shaped();
      assert TxShape(store.db, tx);
      MayCommit(store.db, tx);
      var broken := store.Breaks();
      if broken || (d.result == Active && !NoOtherActive(store.db, Some(app), store.db.apps[app].candidate, t.jobId)) {
        store.Rollback(tx);
        if !broken {
          RivalsBlock(store.db, app);
        }
        return Err(DatabaseError);
      }
      store.CommitMove(tx);
      result := Ok(TransitionResult(d.kind, d.from.id, d.to.id, d.result, t.seqNo.value));
    }
  }

  class JobsService {
    const store: Database

    constructor (store: Database)
      ensures this.store == store
    {
      this.store := store;
    }

    /**
     Publish, pause, close or fill. Drafts can be published or closed, open ones paused, closed or
     filled, paused ones resumed or closed, closed ones reopened; a filled one stays as it is.
     */
    method ChangeStatus(job: JobId, to: JobStatus) returns (result: Result<Job, Failure>)
      requires store.Valid()
      modifies store
      ensures store.Valid() && old(store.trace) <= store.trace
      ensures result.Ok? <==>
                && job in old(store.db).jobs
                && (old(store.db).jobs[job].status, to) in
                     {(JobStatus.Draft, JobStatus.Open), (JobStatus.Draft, Closed), (JobStatus.Open, Paused),
                      (JobStatus.Open, Closed), (JobStatus.Open, Filled), (Paused, JobStatus.Open),
                      (Paused, Closed), (Closed, JobStatus.Open)}
      ensures result.Err? ==>
                && store.db == old(store.db)
                && (result.error == NotFound <==> job !in old(store.db).jobs)
      ensures result.Ok? ==>
                && job in store.db.jobs && store.db.jobs[job] == result.value
                && var before := old(store.db).jobs[job];
                && result.value.status == to && result.value.stages == before.stages
                && (result.value.openedAt == before.openedAt
                    || (before.openedAt.None? && to == Open && result.value.openedAt == Some(store.db.now)))
                && (to == Open ==> result.value.openedAt.Some?)
                && (result.value.closedAt == if to == Closed || to == Filled then Some(store.db.now) else None)
                && result.value.openings == before.openings
                && store.db == old(store.db).(jobs := old(store.db).jobs[job := result.value])
    {
      if job !in store.db.jobs {
        return Err(NotFound);
      }
      var row := store.db.jobs[job];
      if row.status == to || to !in LegalChanges(row.status) {
        return Err(Unprocessable);
      }
      store.Shaped();
      if to == Open && row.stages == [] {
        return Err(Unprocessable);
      }
      store.Perform(Step.ChangeStatus(job, to));
      result := Ok(store.db.jobs[job]);
    }

    /** A stage goes after every other, and no stage already there moves. */
    method AppendStage(job: JobId, id: StageId, kind: StageType, requiresScorecard: bool)
      returns (result: Result<StageRef, Failure>)
      requires store.Valid()
      requires forall other :: other in store.db.jobs ==>
                 forall i :: 0 <= i < |store.db.jobs[other].stages| ==> store.db.jobs[other].stages[i].id != id
      modifies store
      ensures store.Valid() && old(store.trace) <= store.trace
      ensures result.Ok? <==> job in old(store.db).jobs
      ensures result.Err? ==> store.db == old(store.db)
      ensures result.Ok? ==>
                && job in store.db.jobs
                && result.value.id == id && result.value.kind == kind
                && result.value.requiresScorecard == requiresScorecard
                && store.db == old(store.db).(jobs := old(store.db).jobs[job :=
                     old(store.db).jobs[job].(stages := old(store.db).jobs[job].stages + [result.value])])
                && Increasing(store.db.jobs[job].stages)
    {
      if job !in store.db.jobs {
        return Err(NotFound);
      }
      store.Shaped();
      var stages := store.db.jobs[job].stages;
      var stage := StageRef(id, if stages == [] then 0 else stages[|stages| - 1].position + 1, kind, requiresScorecard);
      store.Perform(Step.AppendStage(job, stage));
      store.Shaped();
      result := Ok(stage);
    }
  }

  class ApplicationIntakeService {
    const store: Database
    /** The keys of the files in storage. */
    var files: set<nat>

    constructor (store: Database)
      ensures this.store == store && files == {}
    {
      this.store := store;
      files := {};
    }

    /**
     The file is written first and the rows commit together: an application never exists without
     its file, and a refused submission leaves no row.
     */
    method Submit(tx: TxId, job: JobId, app: AppId, candidate: CandidateId, key: nat)
      returns (result: Result<AppId, Failure>)
      requires store.Valid() && tx !in store.db.txs && key !in files
      modifies store, this
      ensures store.Valid() && old(store.trace) <= store.trace && tx !in store.db.txs
      ensures old(files) <= files <= old(files) + {key}
      ensures store.Commits(tx) == old(store.Commits(tx)) + if result.Ok? then 1 else 0
      ensures result.Ok? ==> key in files
      ensures result.Err? ==> files == old(files) || store.faults > old(store.faults)
      ensures Handed(|old(store.trace)|, store.trace, store.db, tx, job, app, candidate, result,
                       store.faults > old(store.faults))
    {
      var refusal := FindPosting(tx, job);
      if refusal.Some? {
        return Err(refusal.value);
      }
      files := files + {key};
      result := Enter(tx, job, app, candidate);
      if result.Err? {
        var litter := store.Breaks();
        if !litter {
          files := files - {key};
        }
      }
    }

    /** A posting that is open has stages, so the answer for one without is never given. */
    method FindPosting(tx: TxId, job: JobId) returns (refusal: Option<Failure>)
      requires store.Valid() && tx !in store.db.txs
      modifies store`db, store`trace
      ensures store.Valid() && old(store.trace) <= store.trace && store.Commits(tx) == old(store.Commits(tx))
      ensures refusal.None? ==> tx in store.db.txs && store.db.txs[tx].Submitting? && store.db.txs[tx].jobId == job
      ensures refusal.Some? ==>
                refusal.value == NotFound && tx !in store.db.txs
                && ClosedSince(|old(store.trace)|, store.trace, job)
    {
      store.Others(tx);
      if job !in store.db.jobs || store.db.jobs[job].status != Open {
        Moment(store.trace, store.trace);
        assert ClosedAt(store.trace, |store.trace|, job);
        return Some(NotFound);
      }
      store.Shaped();
      if store.db.jobs[job].stages == [] {
        return Some(Unprocessable);
      }
      store.BeginSubmission(tx, job);
      refusal := None;
    }

    /** The rows of a submission, all of them or none. */
    method Enter(tx: TxId, job: JobId, app: AppId, candidate: CandidateId) returns (result: Result<AppId, Failure>)
      requires store.Valid() && tx in store.db.txs && store.db.txs[tx].Submitting? && store.db.txs[tx].jobId == job
      modifies store
      ensures store.Valid() && old(store.trace) <= store.trace && tx !in store.db.txs
      ensures store.Commits(tx) == old(store.Commits(tx)) + if result.Ok? then 1 else 0
      ensures store.faults >= old(store.faults)
      ensures result.Err? ==> result.error == Conflict || result.error == DatabaseError
      ensures Handed(|old(store.trace)|, store.trace, store.db, tx, job, app, candidate, result,
                     store.faults > old(store.faults))
    {
      store.Others(tx);
      var broken := store.Breaks();
      if broken || app in store.db.apps {
        store.Rollback(tx);
        return Err(DatabaseError);
      }
      if !NoOtherActive(store.db, None, candidate, job) {
        store.Rollback(tx);
        return Err(Conflict);
      }
      store.CommitSubmission(tx, app, candidate);
      result := Ok(app);
    }
  }

  /** An application in the first stage of its requisition, with one entry in its log. */
  ghost predicate JustReceived(db: Db, job: JobId, app: AppId, candidate: CandidateId) {
    && app in db.apps && job in db.jobs && db.jobs[job].stages != []
    && var first := db.jobs[job].stages[0].id;
    db.apps[app] == App(job, candidate, first, Active, None,
                        map[1 := Event(ApplicationReceived, None, Some(first), None, None)])
  }

  /** How a submission ends. */
  ghost predicate Handed(start: nat, trace: seq<Step>, db: Db, tx: TxId, job: JobId, app: AppId,
                         candidate: CandidateId, result: Result<AppId, Failure>, faulty: bool)
  {
    match result
    case Ok(id) =>
      && trace != [] && trace[|trace| - 1] == SubmitCommit(tx, app, candidate)
      && id == app && JustReceived(db, job, app, candidate)
    case Err(NotFound) => ClosedSince(start, trace, job)
    case Err(Conflict) => HasApplied(db, candidate, job)
    case Err(DatabaseError) => faulty || app in db.apps
    case _ => false
  }

  ghost predicate HasApplied(db: Db, candidate: CandidateId, job: JobId) {
    exists other :: other in db.apps && db.apps[other].status == Active
      && db.apps[other].candidate == candidate && db.apps[other].job == job
  }

  ghost predicate ClosedSince(start: nat, trace: seq<Step>, job: JobId) {
    exists i :: start <= i && ClosedAt(trace, i, job)
  }

  ghost predicate ClosedAt(trace: seq<Step>, i: nat, job: JobId) {
    i <= |trace| && (job !in StateAt(trace, i).jobs || StateAt(trace, i).jobs[job].status != Open)
  }

  /** What a log writer does, and what its entry calls it. */
  predicate TookEffect(db: Db, app: AppId, write: LogWrite, entry: Event) {
    && entry.from.None? && entry.to.None? && entry.move.None?
    && entry.reason == (if write.Cancel? then Some(write.note) else None)
    && match write
       case Schedule(id, stage, panel, required) =>
         && id in db.interviews && db.interviews[id] == InterviewRow(app, stage, Scheduled, panel, required, {})
         && Written(InterviewInvited, app) in db.outbox && entry.kind == InterviewScheduled
       case Cancel(id, _) =>
         id in db.interviews && db.interviews[id].status == Cancelled && entry.kind == InterviewCancelled
       case Conclude(id, outcome) =>
         id in db.interviews && db.interviews[id].status == outcome && entry.kind == InterviewConcluded
       case SubmitCard(id, user) =>
         id in db.interviews && user in db.interviews[id].submitted && entry.kind == ScorecardSubmitted
       case Parse(extracted) => entry.kind == if extracted then ResumeParsed else ResumeParseFailed
  }

  /**
   What a writer asks for: an active application and its current stage, to schedule; otherwise an
   interview of the application that is not cancelled, with somebody on its panel who has yet to
   submit, for a scorecard, and then not a no-show either.
   */
  ghost predicate Acceptable(db: Db, app: AppId, write: LogWrite) {
    && app in db.apps
    && (write.Schedule? ==>
          && db.apps[app].status == Active && db.apps[app].stage == write.stage
          && write.required != {} && write.required <= write.panel)
    && (write.Cancel? || write.Conclude? || write.SubmitCard? ==>
          && write.interview in db.interviews && db.interviews[write.interview].app == app
          && db.interviews[write.interview].status != Cancelled)
    && (write.Conclude? ==> write.outcome in {Completed, NoShow})
    && (write.SubmitCard? ==>
          && db.interviews[write.interview].status != NoShow
          && write.user in db.interviews[write.interview].panel - db.interviews[write.interview].submitted)
  }

  /** The checks of a writer turned out this way at some moment. */
  ghost predicate CheckedAt(trace: seq<Step>, i: nat, app: AppId, write: LogWrite, passed: bool) {
    i <= |trace| && Acceptable(StateAt(trace, i), app, write) == passed
  }

  ghost predicate CheckedSince(start: nat, trace: seq<Step>, app: AppId, write: LogWrite, passed: bool) {
    exists i :: start <= i && CheckedAt(trace, i, app, write, passed)
  }

  lemma CheckedNow(trace: seq<Step>, longer: seq<Step>, app: AppId, write: LogWrite)
    requires trace <= longer && Runs(Empty, trace)
    ensures CheckedSince(|trace|, longer, app, write, MayBegin(After(Empty, trace), app, write))
  {
    Moment(trace, longer);
    assert CheckedAt(longer, |trace|, app, write, MayBegin(After(Empty, trace), app, write));
  }

  lemma CheckedStill(start: nat, trace: seq<Step>, earlier: nat, longer: seq<Step>, app: AppId, write: LogWrite,
                     passed: bool)
    requires CheckedSince(start, trace, app, write, passed) && earlier <= start && trace <= longer
    ensures CheckedSince(earlier, longer, app, write, passed)
  {
    var i: nat :| start <= i && CheckedAt(trace, i, app, write, passed);
    SameMoments(trace, longer, i);
    assert CheckedAt(longer, i, app, write, passed);
  }

  ghost predicate GrewSince(start: nat, trace: seq<Step>, app: AppId) {
    exists i, j :: start <= i && GrewBetween(trace, i, j, app)
  }

  lemma Overtaken(numbered: seq<Step>, trace: seq<Step>, app: AppId)
    requires numbered <= trace && Runs(Empty, numbered) && Runs(Empty, trace)
    requires app in After(Empty, numbered).apps && app in After(Empty, trace).apps
    ensures |After(Empty, numbered).apps[app].log| < |After(Empty, trace).apps[app].log| ==>
              GrewSince(|numbered|, trace, app)
  {
    Moment(numbered, trace);
    Moment(trace, trace);
    if |After(Empty, numbered).apps[app].log| < |After(Empty, trace).apps[app].log| {
      assert GrewBetween(trace, |numbered|, |trace|, app);
    }
  }

  lemma GrewIfOvertaken(start: nat, numbered: seq<Step>, trace: seq<Step>, app: AppId)
    requires start <= |numbered| && numbered <= trace && Runs(Empty, numbered) && Runs(Empty, trace)
    requires app in After(Empty, numbered).apps && app in After(Empty, trace).apps
    ensures |After(Empty, numbered).apps[app].log| < |After(Empty, trace).apps[app].log| ==>
              GrewSince(start, trace, app)
  {
    Overtaken(numbered, trace, app);
    if GrewSince(|numbered|, trace, app) {
      EndedIn(start, numbered, trace, app);
    }
  }

  /** Somebody else added to the log between two moments. */
  ghost predicate GrewBetween(trace: seq<Step>, i: nat, j: nat, app: AppId) {
    && i <= j <= |trace| && app in StateAt(trace, i).apps && app in StateAt(trace, j).apps
    && |StateAt(trace, i).apps[app].log| < |StateAt(trace, j).apps[app].log|
  }

  /** The last thing that happened is the commit of the entry, as the last of its log. */
  ghost predicate Entered(trace: seq<Step>, db: Db, tx: TxId, app: AppId, write: LogWrite, seqNo: nat) {
    && trace != [] && trace[|trace| - 1] == AppendCommit(tx)
    && app in db.apps && IsLatest(db.apps[app].log, seqNo) && seqNo in db.apps[app].log
    && TookEffect(db, app, write, db.apps[app].log[seqNo])
  }

  /**
   How an append ends: with its entry, with a check that failed at some moment, or with an error
   of the database for which there was a reason: a fault, another entry, an interview's id taken.
   */
  ghost predicate Ended(start: nat, trace: seq<Step>, db: Db, tx: TxId, app: AppId, write: LogWrite,
                        result: Result<nat, Failure>, faulty: bool)
  {
    match result
    case Ok(seqNo) => Entered(trace, db, tx, app, write, seqNo) && CheckedSince(start, trace, app, write, true)
    case Err(Conflict) => CheckedSince(start, trace, app, write, false)
    case Err(DatabaseError) =>
      faulty || GrewSince(start, trace, app) || (write.Schedule? && write.interview in db.interviews)
    case _ => false
  }

  lemma EntryTakesEffect(db: Db, tx: TxId)
    requires Enabled(db, AppendCommit(tx)) && TxShape(db, tx) && AppShape(db, db.txs[tx].app)
    ensures var t, after := db.txs[tx], Apply(db, AppendCommit(tx));
            && t.app in after.apps && IsLatest(after.apps[t.app].log, t.seqNo.value)
            && t.seqNo.value in after.apps[t.app].log
            && TookEffect(after, t.app, t.write, after.apps[t.app].log[t.seqNo.value])
  {
    var t := db.txs[tx];
    DenseSnoc(db.apps[t.app].log, t.seqNo.value, NoteEvent(t.write));
  }

  lemma EndedIn(start: nat, numbered: seq<Step>, trace: seq<Step>, app: AppId)
    requires start <= |numbered| && GrewSince(|numbered|, trace, app)
    ensures GrewSince(start, trace, app)
  {
    var i: nat, j: nat :| |numbered| <= i && GrewBetween(trace, i, j, app);
    assert GrewBetween(trace, i, j, app);
  }

  /** The writers that append to a log without locking the application first. */
  class LogWriter {
    const store: Database

    constructor (store: Database)
      ensures this.store == store
    {
      this.store := store;
    }

    /**
     Scheduling, cancelling and concluding interviews, submitting scorecards and recording a
     parse: checked before the transaction, then the entry takes the next number or nothing is
     written at all. Without a fault that is so because the check failed, the log grew
     meanwhile, or the interview's id was taken.
     */
    method Append(tx: TxId, app: AppId, write: LogWrite) returns (result: Result<nat, Failure>)
      requires store.Valid() && tx !in store.db.txs
      modifies store
      ensures store.Valid() && old(store.trace) <= store.trace && tx !in store.db.txs
      ensures store.Commits(tx) == old(store.Commits(tx)) + if result.Ok? then 1 else 0
      ensures Ended(|old(store.trace)|, store.trace, store.db, tx, app, write, result,
                    store.faults > old(store.faults))
    {
      var checked := Begin(tx, app, write);
      if !checked {
        return Err(Conflict);
      }
      ghost var begun := store.trace;
      result := Write(tx, app, write);
      CheckedStill(|old(store.trace)|, begun, |old(store.trace)|, store.trace, app, write, true);
      if GrewSince(|begun|, store.trace, app) {
        EndedIn(|old(store.trace)|, begun, store.trace, app);
      }
    }

    /** Read the number and take it, others acting in between. */
    method Write(tx: TxId, app: AppId, write: LogWrite) returns (result: Result<nat, Failure>)
      requires store.Valid() && tx in store.db.txs && store.db.txs[tx] == Appending(app, write, None)
      modifies store
      ensures store.Valid() && old(store.trace) <= store.trace && tx !in store.db.txs
      ensures store.Commits(tx) == old(store.Commits(tx)) + if result.Ok? then 1 else 0
      ensures result.Err? ==>
                && result.error == DatabaseError
                && (|| store.faults > old(store.faults) || GrewSince(|old(store.trace)|, store.trace, app)
                    || (write.Schedule? && write.interview in store.db.interviews))
      ensures result.Ok? ==> Entered(store.trace, store.db, tx, app, write, result.value)
    {
      store.NextSeq(tx);
      ghost var numbered := store.trace;
      store.Others(tx);
      result := Insert(tx, app, write);
      GrewIfOvertaken(|old(store.trace)|, numbered, store.trace, app);
    }

    /** The checks, made before the transaction begins. */
    method Begin(tx: TxId, app: AppId, write: LogWrite) returns (allowed: bool)
      requires store.Valid() && tx !in store.db.txs
      modifies store`db, store`trace
      ensures store.Valid() && old(store.trace) <= store.trace && store.Commits(tx) == old(store.Commits(tx))
      ensures allowed ==> tx in store.db.txs && store.db.txs[tx] == Appending(app, write, None)
      ensures !allowed ==> tx !in store.db.txs
      ensures CheckedSince(|old(store.trace)|, store.trace, app, write, allowed)
    {
      store.Others(tx);
      allowed := MayBegin(store.db, app, write);
      ghost var checked := store.trace;
      if allowed {
        store.Perform(AppendBegin(tx, app, write));
        store.Others(tx);
      }
      CheckedNow(checked, store.trace, app, write);
      CheckedStill(|checked|, store.trace, |old(store.trace)|, store.trace, app, write, allowed);
    }

    /** Refused when held back by a row lock, beaten to the number, or when the connection breaks. */
    method Insert(tx: TxId, app: AppId, write: LogWrite) returns (result: Result<nat, Failure>)
      requires store.Valid() && tx in store.db.txs && store.db.txs[tx].Appending? && store.db.txs[tx].seqNo.Some?
      requires store.db.txs[tx].app == app && store.db.txs[tx].write == write
      modifies store
      ensures store.Valid() && old(store.trace) <= store.trace && tx !in store.db.txs
      ensures store.Commits(tx) == old(store.Commits(tx)) + if result.Ok? then 1 else 0
      ensures app in store.db.apps
      ensures result.Err? ==>
                && result.error == DatabaseError
                && (|| store.faults > old(store.faults)
                    || old(store.db).txs[tx].seqNo.value <= |store.db.apps[app].log|
                    || (write.Schedule? && write.interview in store.db.interviews))
      ensures result.Ok? ==> Entered(store.trace, store.db, tx, app, write, result.value)
    {
      store.Shaped();
      assert TxShape(store.db, tx) && AppShape(store.db, app);
      var seqNo := store.db.txs[tx].seqNo.value;
      var broken := store.Breaks();
      var inVain := store.TimesOut(app);
      if broken || inVain || seqNo in store.db.apps[app].log
         || (write.Schedule? && write.interview in store.db.interviews) {
        store.Rollback(tx);
        return Err(DatabaseError);
      }
      store.CommitEntry(tx);
      result := Ok(seqNo);
    }
  }

  /** What a transition reports is what row and log then say. */
  ghost predicate Answers(row: App, request: Request, answer: TransitionResult) {
    && answer.from == request.fromStage && row.stage == answer.to == request.toStage
    && row.status == answer.status
    && IsLatest(row.log, answer.seqNo) && answer.seqNo in row.log
    && var entry := row.log[answer.seqNo];
    && entry.from == Some(answer.from) && entry.to == Some(answer.to) && entry.move == Some(answer.kind)
    && (entry.reason.Some? <==> HasReason(request))
    && (entry.reason.Some? ==> TrimmedTo(request.reason.value, entry.reason.value))
    && match answer.kind
       case Reject => row.status == Rejected && entry.kind == RejectedEvent
       case Hire => row.status == Status.Hired && entry.kind == HiredEvent
       case Withdraw => row.status == Withdrawn && entry.kind == WithdrawnEvent
       case Reopen => row.status == Active && entry.kind == ReopenedEvent
       case _ => row.status == Active && entry.kind == StageChanged
  }

  lemma RowAnswers(row: App, d: Decision, request: Request, now: nat)
    requires Dense(row.log) && d.Allowed? && d.result == StatusAfter(d.kind)
    requires d.from.id == request.fromStage && d.to.id == request.toStage
    ensures Answers(RowAfter(row, Decided(d, request.reason), now), request,
                    TransitionResult(d.kind, d.from.id, d.to.id, d.result, |row.log| + 1))
  {
    ExtendedDense(row.log, MoveEvent(d, request.reason));
    StoredExactlyWhen(request);
  }

  lemma WriteAnswers(db: Db, tx: TxId)
    requires Shape(db) && Enabled(db, MoveCommit(tx))
    ensures var t := db.txs[tx];
            var d := t.decision.value;
            && t.app in Apply(db, MoveCommit(tx)).apps
            && Answers(Apply(db, MoveCommit(tx)).apps[t.app], t.request,
                       TransitionResult(d.kind, d.from.id, d.to.id, d.result, t.seqNo.value))
  {
    var t := db.txs[tx];
    assert TxShape(db, tx) && AppShape(db, t.app);
    LookupFinds(t.job.stages, t.request.fromStage);
    LookupFinds(t.job.stages, t.request.toStage);
    NextNumber(db, MoveCommit(tx));
    MoveChanges(db, tx);
    RowAnswers(db.apps[t.app], t.decision.value, t.request, db.now);
  }
}
