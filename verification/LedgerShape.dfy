/** The structure every reachable database has, and dense logs in particular. */
module LedgerShape {
  import opened Wrappers
  import opened Transitions
  import opened Ledger

  /** Numbered 1..n with no gap and no repeat. */
  ghost predicate Dense(log: Log) {
    forall n :: n in log <==> 1 <= n <= |log|
  }

  lemma DenseSnoc(log: Log, n: nat, event: Event)
    requires Dense(log) && n !in log && 1 <= n <= |log| + 1
    ensures n == |log| + 1 && |log[n := event]| == n && Dense(log[n := event])
  {
    var more := log[n := event];
    assert more.Keys == log.Keys + {n};
    assert n == |log| + 1 && |more| == n;
    forall m ensures m in more <==> 1 <= m <= n {
      assert m in more <==> m in log || m == n;
    }
  }

  ghost predicate AppShape(db: Db, app: AppId)
    requires app in db.apps
  {
    var row := db.apps[app];
    && row.job in db.jobs
    && Dense(row.log) && row.log != map[]
    && Lookup(db.jobs[row.job].stages, row.stage).Some?
  }

  ghost predicate GoodDecision(facts: Facts, request: Request, d: Decision) {
    d.Allowed? && Justified(facts, request, d.kind, d.from, d.to) && d.result == StatusAfter(d.kind)
  }

  /** What a transaction has read is still good, as far as the locks make it so. */
  ghost predicate TxShape(db: Db, tx: TxId)
    requires tx in db.txs
  {
    var t := db.txs[tx];
    match t
    case Submitting(job, firstStage) =>
      job in db.jobs && db.jobs[job].stages != [] && firstStage == db.jobs[job].stages[0].id
    case Moving(app, request, _, jobId, job, status, stage, hired, pending, decision, seqNo) =>
      && app in db.apps && jobId in db.jobs
      && db.apps[app].job == jobId && db.apps[app].status == status && db.apps[app].stage == stage
      && job.stages <= db.jobs[jobId].stages && job.openings == db.jobs[jobId].openings
      && (seqNo.Some? ==> seqNo.value == |db.apps[app].log| + 1)
      && (pending.Some? ==> pending.value == |Seats(db.interviews, app, stage)|)
      && (decision.Some? ==> hired.Some? && pending.Some? && GoodDecision(FactsOf(t), request, decision.value))
    case Appending(app, write, seqNo) =>
      && app in db.apps
      && (seqNo.Some? ==> 1 <= seqNo.value <= |db.apps[app].log| + 1)
      && (write.Cancel? || write.Conclude? || write.SubmitCard? ==>
            write.interview in db.interviews && db.interviews[write.interview].app == app)
  }

  ghost predicate LocksExclusive(db: Db) {
    forall t1, t2 ::
      t1 in db.txs && t2 in db.txs && db.txs[t1].Moving? && db.txs[t2].Moving? && t1 != t2 ==>
        db.txs[t1].app != db.txs[t2].app
  }

  ghost predicate Shape(db: Db) {
    && (forall job :: job in db.jobs ==> ProperJob(db.jobs[job]))
    && (forall app :: app in db.apps ==> AppShape(db, app))
    && (forall id :: id in db.interviews ==> db.interviews[id].app in db.apps)
    && (forall tx :: tx in db.txs ==> TxShape(db, tx))
    && LocksExclusive(db)
  }

  lemma LatestIsSize(log: Log, latest: nat)
    requires Dense(log) && IsLatest(log, latest)
    ensures latest == |log|
  {
    if |log| > 0 {
      assert |log| in log;
    }
  }

  /** Requisitions are never deleted, and of their stages only the end can change. */
  lemma StepKeepsJob(db: Db, step: Step, job: JobId)
    requires Enabled(db, step) && job in db.jobs && ProperJob(db.jobs[job])
    ensures job in Apply(db, step).jobs && ProperJob(Apply(db, step).jobs[job])
    ensures db.jobs[job].stages <= Apply(db, step).jobs[job].stages
    ensures db.jobs[job].openings == Apply(db, step).jobs[job].openings
  {
    if step.AppendStage? && step.job == job {
      IncreasingSnoc(db.jobs[job].stages, step.stage);
    }
  }

  lemma IncreasingSnoc(stages: seq<StageRef>, stage: StageRef)
    requires Increasing(stages) && stages != [] && stage.position > stages[|stages| - 1].position
    ensures Increasing(stages + [stage])
  {
    var last := |stages| - 1;
    forall i | 0 <= i < |stages| ensures stages[i].position < stage.position {
      assert i < last ==> stages[i].position < stages[last].position;
    }
  }

  lemma StepAddsProperJobs(db: Db, step: Step, job: JobId)
    requires Enabled(db, step) && job !in db.jobs && job in Apply(db, step).jobs
    ensures ProperJob(Apply(db, step).jobs[job])
  {
  }

  /** The stage lists only grow, which keeps every lookup. */
  lemma {:induction false} LookupPrefix(stages: seq<StageRef>, more: seq<StageRef>, id: StageId)
    requires stages <= more && DistinctIds(more)
    ensures Lookup(stages, id).Some? ==> Lookup(more, id) == Lookup(stages, id)
    decreases |more| - |stages|
  {
    if stages != more {
      assert stages + [more[|stages|]] <= more;
      LookupAppended(stages, more[|stages|], id);
      LookupPrefix(stages + [more[|stages|]], more, id);
    }
  }

  /** What one step does to one application. */
  datatype Change = Same | Created | Noted(event: Event) | Decided(decision: Decision, reason: Option<string>)

  ghost function ChangeOf(db: Db, step: Step, app: AppId): Change
    requires Enabled(db, step)
  {
    if step.SubmitCommit? && step.app == app then Created
    else if step.MoveCommit? && db.txs[step.tx].app == app then
      Decided(db.txs[step.tx].decision.value, db.txs[step.tx].request.reason)
    else if step.AppendCommit? && db.txs[step.tx].app == app then Noted(NoteEvent(db.txs[step.tx].write))
    else Same
  }

  /** The log after an entry took the next number. */
  function Extended(log: Log, event: Event): Log {
    log[|log| + 1 := event]
  }

  ghost function RowAfter(row: App, change: Change, now: nat): App {
    match change
    case Noted(event) => row.(log := Extended(row.log, event))
    case Decided(d, reason) =>
      if !d.Allowed? then row
      else row.(stage := d.to.id, status := d.result, decidedAt := if d.result != Active then Some(now) else None,
                log := Extended(row.log, MoveEvent(d, reason)))
    case _ => row
  }

  /** The number a committing transaction brings is always the next one. */
  lemma NextNumber(db: Db, step: Step)
    requires Shape(db) && Enabled(db, step) && (step.MoveCommit? || step.AppendCommit?)
    ensures db.txs[step.tx].seqNo == Some(|db.apps[db.txs[step.tx].app].log| + 1)
  {
    var t := db.txs[step.tx];
    assert TxShape(db, step.tx);
    assert AppShape(db, t.app);
    DenseSnoc(db.apps[t.app].log, t.seqNo.value, ReceivedEvent(0));
  }

  /** Every step but a commit leaves the applications alone. */
  lemma QuietStep(db: Db, step: Step)
    requires Enabled(db, step)
    ensures !step.SubmitCommit? && !step.MoveCommit? && !step.AppendCommit? ==> Apply(db, step).apps == db.apps
    ensures !step.AppendCommit? ==> Apply(db, step).interviews == db.interviews
  {
  }

  lemma MoveChanges(db: Db, tx: TxId)
    requires Shape(db) && Enabled(db, MoveCommit(tx))
    ensures var app := db.txs[tx].app;
            && app in db.apps
            && Apply(db, MoveCommit(tx)).apps
               == db.apps[app := RowAfter(db.apps[app], ChangeOf(db, MoveCommit(tx), app), db.now)]
  {
    NextNumber(db, MoveCommit(tx));
  }

  lemma AppendChanges(db: Db, tx: TxId)
    requires Shape(db) && Enabled(db, AppendCommit(tx))
    ensures var app := db.txs[tx].app;
            && app in db.apps
            && Apply(db, AppendCommit(tx)).apps
               == db.apps[app := RowAfter(db.apps[app], ChangeOf(db, AppendCommit(tx), app), db.now)]
  {
    NextNumber(db, AppendCommit(tx));
  }

  /** Applications are never deleted, and only intake adds one. */
  lemma OnlyIntakeCreates(db: Db, step: Step, app: AppId)
    requires Enabled(db, step)
    ensures app in Apply(db, step).apps <==> app in db.apps || ChangeOf(db, step, app) == Created
    ensures ChangeOf(db, step, app) == Created ==> app !in db.apps
  {
  }

  /** A step that does nothing to an application leaves its row alone. */
  lemma OthersLeaveRow(db: Db, step: Step, app: AppId)
    requires Enabled(db, step) && app in db.apps && ChangeOf(db, step, app) == Same
    ensures app in Apply(db, step).apps && Apply(db, step).apps[app] == db.apps[app]
  {
  }

  lemma CommitChangesRow(db: Db, step: Step)
    requires Shape(db) && Enabled(db, step) && (step.MoveCommit? || step.AppendCommit?)
    ensures var app := db.txs[step.tx].app;
            && app in db.apps && app in Apply(db, step).apps
            && Apply(db, step).apps[app] == RowAfter(db.apps[app], ChangeOf(db, step, app), db.now)
  {
    if step.MoveCommit? {
      MoveChanges(db, step.tx);
    } else {
      AppendChanges(db, step.tx);
    }
  }

  lemma RowChanges(db: Db, step: Step, app: AppId)
    requires Shape(db) && Enabled(db, step) && app in db.apps && app in Apply(db, step).apps
    ensures Apply(db, step).apps[app] == RowAfter(db.apps[app], ChangeOf(db, step, app), db.now)
  {
    if ChangeOf(db, step, app) == Same {
      OthersLeaveRow(db, step, app);
    } else {
      CommitChangesRow(db, step);
    }
  }

  /** Only a move changes a status, and only its own application's; nothing changes the requisition. */
  lemma OnlyMovesDecide(db: Db, step: Step, app: AppId)
    requires Shape(db) && Enabled(db, step) && app in db.apps
    ensures app in Apply(db, step).apps && Apply(db, step).apps[app].job == db.apps[app].job
    ensures Apply(db, step).apps[app].status != db.apps[app].status ==> step.MoveCommit? && db.txs[step.tx].app == app
  {
    if ChangeOf(db, step, app) == Same {
      OthersLeaveRow(db, step, app);
    } else {
      CommitChangesRow(db, step);
    }
  }

  lemma NewOnesAreActive(db: Db, step: Step, app: AppId)
    requires Enabled(db, step) && app !in db.apps && app in Apply(db, step).apps
    ensures Apply(db, step).apps[app].status == Active
  {
  }

  lemma Changes(db: Db, step: Step, app: AppId)
    requires Shape(db) && Enabled(db, step) && app in Apply(db, step).apps
    ensures ChangeOf(db, step, app) == Created <==> app !in db.apps
    ensures app in db.apps ==> Apply(db, step).apps[app] == RowAfter(db.apps[app], ChangeOf(db, step, app), db.now)
  {
    OnlyIntakeCreates(db, step, app);
    if app in db.apps {
      RowChanges(db, step, app);
    }
  }

  /** A decided move is one the guards justify on the row as it stands, not just as it was read. */
  lemma DecidedOnCurrentRow(db: Db, step: Step)
    requires Shape(db) && Enabled(db, step) && step.MoveCommit?
    ensures var t := db.txs[step.tx];
            var d := t.decision.value;
            && t.pending.Some? && GoodDecision(FactsOf(t), t.request, d)
            && t.app in db.apps && d.from.id == db.apps[t.app].stage && d.from.id != d.to.id
            && db.apps[t.app].status == t.status
            && db.apps[t.app].job == t.jobId
            && Lookup(db.jobs[t.jobId].stages, d.to.id) == Some(d.to)
            && Lookup(db.jobs[t.jobId].stages, d.from.id) == Some(d.from)
  {
    var t := db.txs[step.tx];
    var d := t.decision.value;
    assert TxShape(db, step.tx);
    LookupExactlyWhen(t.job.stages, t.request.fromStage, d.from);
    LookupExactlyWhen(t.job.stages, t.request.toStage, d.to);
    LookupPrefix(t.job.stages, db.jobs[t.jobId].stages, d.to.id);
    LookupPrefix(t.job.stages, db.jobs[t.jobId].stages, d.from.id);
  }

  lemma ExtendedDense(log: Log, event: Event)
    requires Dense(log)
    ensures Dense(Extended(log, event)) && |Extended(log, event)| == |log| + 1
    ensures forall n :: n in log ==> n in Extended(log, event) && Extended(log, event)[n] == log[n]
  {
    assert |log| + 1 !in log;
    DenseSnoc(log, |log| + 1, event);
  }

  lemma ResultDense(row: App, change: Change, now: nat)
    requires Dense(row.log)
    ensures Dense(RowAfter(row, change, now).log)
    ensures |row.log| <= |RowAfter(row, change, now).log| <= |row.log| + 1
    ensures forall n :: n in row.log ==>
              n in RowAfter(row, change, now).log && RowAfter(row, change, now).log[n] == row.log[n]
  {
    if change.Noted? {
      ExtendedDense(row.log, change.event);
    } else if change.Decided? && change.decision.Allowed? {
      ExtendedDense(row.log, MoveEvent(change.decision, change.reason));
    }
  }

  /** Earlier entries never change: a step adds at most the next one. */
  lemma LogGrows(db: Db, step: Step, app: AppId)
    requires Shape(db) && Enabled(db, step) && app in db.apps
    ensures app in Apply(db, step).apps && Dense(Apply(db, step).apps[app].log)
    ensures |db.apps[app].log| <= |Apply(db, step).apps[app].log| <= |db.apps[app].log| + 1
    ensures forall n :: n in db.apps[app].log ==>
              n in Apply(db, step).apps[app].log && Apply(db, step).apps[app].log[n] == db.apps[app].log[n]
  {
    Changes(db, step, app);
    assert AppShape(db, app);
    ResultDense(db.apps[app], ChangeOf(db, step, app), db.now);
  }

  lemma StageStaysKnown(db: Db, step: Step, app: AppId)
    requires Shape(db) && Enabled(db, step) && app in db.apps && app in Apply(db, step).apps
    ensures db.apps[app].job in Apply(db, step).jobs && Apply(db, step).apps[app].job == db.apps[app].job
    ensures Lookup(Apply(db, step).jobs[db.apps[app].job].stages, Apply(db, step).apps[app].stage).Some?
  {
    assert AppShape(db, app);
    Changes(db, step, app);
    var job := db.apps[app].job;
    StepKeepsJob(db, step, job);
    if ChangeOf(db, step, app).Decided? {
      DecidedOnCurrentRow(db, step);
    }
    LookupPrefix(db.jobs[job].stages, Apply(db, step).jobs[job].stages, Apply(db, step).apps[app].stage);
  }

  lemma StepKeepsApp(db: Db, step: Step, app: AppId)
    requires Shape(db) && Enabled(db, step) && app in db.apps
    ensures app in Apply(db, step).apps && AppShape(Apply(db, step), app)
  {
    assert AppShape(db, app);
    LogGrows(db, step, app);
    StageStaysKnown(db, step, app);
  }

  lemma StepAddsApp(db: Db, step: Step, app: AppId)
    requires Shape(db) && Enabled(db, step) && app !in db.apps && app in Apply(db, step).apps
    ensures AppShape(Apply(db, step), app)
  {
    assert step.SubmitCommit?;
    assert TxShape(db, step.tx);
    NewRowShape(db, step.tx, step.app, step.candidate);
  }

  lemma NewRowShape(db: Db, tx: TxId, app: AppId, candidate: CandidateId)
    requires Enabled(db, SubmitCommit(tx, app, candidate)) && TxShape(db, tx)
    requires ProperJob(db.jobs[db.txs[tx].jobId])
    ensures AppShape(Apply(db, SubmitCommit(tx, app, candidate)), app)
  {
    var t := db.txs[tx];
    LookupUnique(db.jobs[t.jobId].stages, 0);
    FirstEntryDense(ReceivedEvent(t.firstStage));
  }

  lemma FirstEntryDense(event: Event)
    ensures Dense(map[1 := event]) && |map[1 := event]| == 1
  {
    var log := map[1 := event];
    assert log.Keys == {1};
  }

  /** A write on one application leaves the seats of every other as they were. */
  lemma SeatsElsewhere(interviews: map<InterviewId, InterviewRow>, writer: AppId, write: LogWrite,
                       app: AppId, stage: StageId)
    requires app != writer
    requires write.Schedule? ==> write.interview !in interviews
    requires write.Cancel? || write.Conclude? || write.SubmitCard? ==>
               write.interview in interviews && interviews[write.interview].app == writer
    ensures Seats(Interviews(interviews, writer, write), app, stage) == Seats(interviews, app, stage)
  {
  }

  lemma StepKeepsInterview(db: Db, step: Step, id: InterviewId)
    requires Enabled(db, step) && id in db.interviews
    ensures id in Apply(db, step).interviews
    ensures Apply(db, step).interviews[id].app == db.interviews[id].app
    ensures Apply(db, step).interviews[id].stage == db.interviews[id].stage
  {
  }

  lemma StepAddsInterview(db: Db, step: Step, id: InterviewId)
    requires Shape(db) && Enabled(db, step) && id !in db.interviews && id in Apply(db, step).interviews
    ensures Apply(db, step).interviews[id].app in db.apps
  {
    assert step.AppendCommit? && TxShape(db, step.tx);
  }

  /** Whatever else commits is about another application. */
  lemma CommitsElsewhere(db: Db, step: Step, tx: TxId)
    requires LocksExclusive(db) && Enabled(db, step) && tx in db.txs && db.txs[tx].Moving?
    requires (step.MoveCommit? && step.tx != tx) || step.AppendCommit?
    ensures db.txs[step.tx].app != db.txs[tx].app
  {
    assert Locked(db, db.txs[tx].app);
  }

  /** No step but its own commit changes a locked application. */
  lemma LockedRowStays(db: Db, step: Step, tx: TxId)
    requires Shape(db) && Enabled(db, step) && tx in db.txs && db.txs[tx].Moving?
    requires step.MoveCommit? ==> step.tx != tx
    ensures db.txs[tx].app in db.apps && db.txs[tx].app in Apply(db, step).apps
    ensures Apply(db, step).apps[db.txs[tx].app] == db.apps[db.txs[tx].app]
    ensures step.AppendCommit? ==> db.txs[step.tx].app != db.txs[tx].app
  {
    assert TxShape(db, tx);
    if step.MoveCommit? {
      CommitsElsewhere(db, step, tx);
      MoveChanges(db, step.tx);
    } else if step.AppendCommit? {
      CommitsElsewhere(db, step, tx);
      AppendChanges(db, step.tx);
    } else {
      QuietStep(db, step);
    }
  }

  /** While an application is locked, only the transaction holding the lock changes it. */
  lemma LockedStaysPut(db: Db, step: Step, tx: TxId)
    requires Shape(db) && Enabled(db, step) && tx in db.txs && db.txs[tx].Moving?
    requires step.MoveCommit? ==> step.tx != tx
    ensures db.txs[tx].app in db.apps && db.txs[tx].app in Apply(db, step).apps
    ensures Apply(db, step).apps[db.txs[tx].app] == db.apps[db.txs[tx].app]
    ensures Seats(Apply(db, step).interviews, db.txs[tx].app, db.txs[tx].stage)
         == Seats(db.interviews, db.txs[tx].app, db.txs[tx].stage)
  {
    LockedRowStays(db, step, tx);
    if step.AppendCommit? {
      assert TxShape(db, step.tx);
      SeatsElsewhere(db.interviews, db.txs[step.tx].app, db.txs[step.tx].write, db.txs[tx].app, db.txs[tx].stage);
    } else {
      QuietStep(db, step);
    }
  }

  lemma MovingStays(db: Db, step: Step, tx: TxId)
    requires Shape(db) && Enabled(db, step) && tx in db.txs && tx in Apply(db, step).txs
    requires Apply(db, step).txs[tx] == db.txs[tx] && db.txs[tx].Moving?
    ensures TxShape(Apply(db, step), tx)
  {
    assert TxShape(db, tx);
    if step.MoveCommit? {
      NotItsOwnCommit(db, step, tx);
    }
    StepKeepsJob(db, step, db.txs[tx].jobId);
    LockedStaysPut(db, step, tx);
  }

  lemma NotItsOwnCommit(db: Db, step: Step, tx: TxId)
    requires Enabled(db, step) && tx in Apply(db, step).txs && step.MoveCommit?
    ensures step.tx != tx
  {
  }

  lemma AppendingStays(db: Db, step: Step, tx: TxId)
    requires Shape(db) && Enabled(db, step) && tx in db.txs && tx in Apply(db, step).txs
    requires Apply(db, step).txs[tx] == db.txs[tx] && db.txs[tx].Appending?
    ensures TxShape(Apply(db, step), tx)
  {
    var write := db.txs[tx].write;
    assert TxShape(db, tx);
    LogGrows(db, step, db.txs[tx].app);
    if write.Cancel? || write.Conclude? || write.SubmitCard? {
      StepKeepsInterview(db, step, write.interview);
    }
  }

  /** A transaction other than the one stepping. */
  lemma StepKeepsOtherTx(db: Db, step: Step, tx: TxId)
    requires Shape(db) && Enabled(db, step) && tx in db.txs && tx in Apply(db, step).txs
    requires Apply(db, step).txs[tx] == db.txs[tx]
    ensures TxShape(Apply(db, step), tx)
  {
    if db.txs[tx].Moving? {
      MovingStays(db, step, tx);
    } else if db.txs[tx].Appending? {
      AppendingStays(db, step, tx);
    } else {
      assert TxShape(db, tx);
      StepKeepsJob(db, step, db.txs[tx].jobId);
    }
  }

  lemma DecidingIsGood(db: Db, tx: TxId)
    requires Enabled(db, MoveDecide(tx)) && TxShape(db, tx)
    ensures TxShape(Apply(db, MoveDecide(tx)), tx)
  {
    AllowedExactlyWhenJustified(FactsOf(db.txs[tx]), db.txs[tx].request);
  }

  lemma NumberingIsGood(db: Db, tx: TxId, latest: nat)
    requires Enabled(db, ReadSeq(tx, latest)) && TxShape(db, tx) && Dense(db.apps[db.txs[tx].app].log)
    ensures TxShape(Apply(db, ReadSeq(tx, latest)), tx)
  {
    LatestIsSize(db.apps[db.txs[tx].app].log, latest);
  }

  lemma BeginningIsGood(db: Db, step: Step, tx: TxId)
    requires Shape(db) && Enabled(db, step) && tx !in db.txs && tx in Apply(db, step).txs
    ensures TxShape(Apply(db, step), tx)
  {
    QuietStep(db, step);
  }

  lemma ReadingIsGood(db: Db, step: Step, tx: TxId)
    requires Enabled(db, step) && (step.MoveCount? || step.MoveGather?) && step.tx == tx && TxShape(db, tx)
    ensures TxShape(Apply(db, step), tx)
  {
  }

  /** A transaction only changes by what it does itself. */
  lemma OnlyItself(db: Db, step: Step, tx: TxId)
    requires Enabled(db, step) && tx in db.txs && tx in Apply(db, step).txs && Apply(db, step).txs[tx] != db.txs[tx]
    ensures (step.MoveCount? || step.MoveGather? || step.MoveDecide? || step.ReadSeq?) && step.tx == tx
  {
  }

  lemma StepKeepsOwnTx(db: Db, step: Step, tx: TxId)
    requires Shape(db) && Enabled(db, step) && tx in Apply(db, step).txs
    requires tx !in db.txs || Apply(db, step).txs[tx] != db.txs[tx]
    ensures TxShape(Apply(db, step), tx)
  {
    if tx !in db.txs {
      BeginningIsGood(db, step, tx);
    } else {
      OnlyItself(db, step, tx);
      assert TxShape(db, tx);
      if step.MoveDecide? {
        DecidingIsGood(db, tx);
      } else if step.ReadSeq? {
        assert AppShape(db, db.txs[tx].app);
        NumberingIsGood(db, tx, step.latest);
      } else {
        ReadingIsGood(db, step, tx);
      }
    }
  }

  /** A transition is on one application from its beginning to its end. */
  lemma StepKeepsLock(db: Db, step: Step, tx: TxId)
    requires Enabled(db, step) && tx in Apply(db, step).txs && Apply(db, step).txs[tx].Moving?
    ensures var t := Apply(db, step).txs[tx];
            if tx in db.txs then
              && db.txs[tx].Moving? && db.txs[tx].app == t.app && db.txs[tx].jobId == t.jobId && db.txs[tx].job == t.job
              && (db.txs[tx].hired == t.hired
                  || (step == MoveCount(tx) && t.hired == Some(|HiredAt(db, t.jobId)|)))
            else step.MoveBegin? && step.tx == tx && !Locked(db, t.app) && t.hired.None?
  {
  }

  lemma StepKeepsLocks(db: Db, step: Step)
    requires Shape(db) && Enabled(db, step)
    ensures LocksExclusive(Apply(db, step))
  {
    var after := Apply(db, step);
    forall t1, t2 | t1 in after.txs && t2 in after.txs && after.txs[t1].Moving? && after.txs[t2].Moving? && t1 != t2
      ensures after.txs[t1].app != after.txs[t2].app
    {
      StepKeepsLock(db, step, t1);
      StepKeepsLock(db, step, t2);
    }
  }

  lemma StepKeepsTables(db: Db, step: Step)
    requires Shape(db) && Enabled(db, step)
    ensures forall job :: job in Apply(db, step).jobs ==> ProperJob(Apply(db, step).jobs[job])
    ensures forall app :: app in Apply(db, step).apps ==> AppShape(Apply(db, step), app)
  {
    var after := Apply(db, step);
    forall job | job in after.jobs ensures ProperJob(after.jobs[job]) {
      if job in db.jobs { StepKeepsJob(db, step, job); } else { StepAddsProperJobs(db, step, job); }
    }
    forall app | app in after.apps ensures AppShape(after, app) {
      if app in db.apps { StepKeepsApp(db, step, app); } else { StepAddsApp(db, step, app); }
    }
  }

  lemma StepKeepsInterviews(db: Db, step: Step)
    requires Shape(db) && Enabled(db, step)
    ensures forall id :: id in Apply(db, step).interviews ==> Apply(db, step).interviews[id].app in Apply(db, step).apps
  {
    var after := Apply(db, step);
    forall id | id in after.interviews ensures after.interviews[id].app in after.apps {
      if id in db.interviews { StepKeepsInterview(db, step, id); } else { StepAddsInterview(db, step, id); }
      StepKeepsApp(db, step, after.interviews[id].app);
    }
  }

  lemma StepKeepsTxs(db: Db, step: Step)
    requires Shape(db) && Enabled(db, step)
    ensures forall tx :: tx in Apply(db, step).txs ==> TxShape(Apply(db, step), tx)
  {
    var after := Apply(db, step);
    forall tx | tx in after.txs ensures TxShape(after, tx) {
      if tx in db.txs && after.txs[tx] == db.txs[tx] {
        StepKeepsOtherTx(db, step, tx);
      } else {
        StepKeepsOwnTx(db, step, tx);
      }
    }
  }

  lemma StepKeepsShape(db: Db, step: Step)
    requires Shape(db) && Enabled(db, step)
    ensures Shape(Apply(db, step))
  {
    StepKeepsTables(db, step);
    StepKeepsInterviews(db, step);
    StepKeepsTxs(db, step);
    StepKeepsLocks(db, step);
  }

  lemma {:induction false} RunKeepsShape(db: Db, trace: seq<Step>)
    requires Shape(db) && Runs(db, trace)
    ensures Shape(After(db, trace))
    decreases |trace|
  {
    if trace != [] {
      StepKeepsShape(db, trace[0]);
      RunKeepsShape(Apply(db, trace[0]), trace[1..]);
    }
  }

  /**
   Over every run, with any number of writers that each read the last number and insert the
   next: each log is numbered 1..n, and what was once written is never rewritten.
   */
  lemma {:induction false} LogsAreAppendOnly(db: Db, trace: seq<Step>, app: AppId)
    requires Shape(db) && Runs(db, trace) && app in db.apps
    ensures app in After(db, trace).apps && Dense(After(db, trace).apps[app].log)
    ensures forall n :: n in db.apps[app].log ==>
              n in After(db, trace).apps[app].log && After(db, trace).apps[app].log[n] == db.apps[app].log[n]
    decreases |trace|
  {
    assert AppShape(db, app);
    if trace != [] {
      StepKeepsShape(db, trace[0]);
      LogGrows(db, trace[0], app);
      LogsAreAppendOnly(Apply(db, trace[0]), trace[1..], app);
    }
  }

  /**
   The race is lost only by writers without the row lock: the number a transition reads is
   still free when it commits, so the unique index never refuses one.
   */
  lemma TransitionNeverLosesTheRace(db: Db, tx: TxId)
    requires Shape(db) && tx in db.txs && db.txs[tx].Moving? && db.txs[tx].seqNo.Some?
    ensures db.txs[tx].app in db.apps && db.txs[tx].seqNo.value !in db.apps[db.txs[tx].app].log
  {
    assert TxShape(db, tx) && AppShape(db, db.txs[tx].app);
  }

  /** Exactly when another writer loses it: someone else has taken its number meanwhile. */
  lemma WriterLosesTheRaceExactlyWhenOvertaken(db: Db, tx: TxId)
    requires Shape(db) && tx in db.txs && db.txs[tx].Appending? && db.txs[tx].seqNo.Some?
    ensures db.txs[tx].app in db.apps
    ensures db.txs[tx].seqNo.value in db.apps[db.txs[tx].app].log <==>
            db.txs[tx].seqNo.value <= |db.apps[db.txs[tx].app].log|
  {
    assert TxShape(db, tx) && AppShape(db, db.txs[tx].app);
  }
}
