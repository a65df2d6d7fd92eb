/** The requisition's clocks, and what FILLED means. */
module LedgerFilled {
  import opened Wrappers
  import opened Sizes
  import opened Transitions
  import opened Ledger
  import opened LedgerShape
  import opened LedgerHires

  // ----- in every interleaving

  predicate JobClock(job: Job, now: nat) {
    && (job.openedAt.Some? ==> job.openedAt.value <= now)
    && (job.closedAt.Some? ==> job.closedAt.value <= now)
    && (job.status == Open || job.status == Paused || job.status == Filled ==> job.openedAt.Some?)
    && (job.status == Closed || job.status == Filled ==> job.closedAt.Some?)
    && (job.status == Filled ==> job.openedAt.value <= job.closedAt.value)
  }

  /** A transition that saw the requisition open will find its opening time set. */
  ghost predicate SawItOpen(db: Db, tx: TxId)
    requires tx in db.txs
  {
    var t := db.txs[tx];
    t.Moving? && TakesForwardMoves(t.job.status) ==> t.jobId in db.jobs && db.jobs[t.jobId].openedAt.Some?
  }

  ghost predicate Clocked(db: Db) {
    && Shape(db)
    && (forall job :: job in db.jobs ==> JobClock(db.jobs[job], db.now))
    && (forall tx :: tx in db.txs ==> SawItOpen(db, tx))
  }

  /** FILLED is left by no step, and the opening time once set is set for good. */
  lemma StepKeepsFilled(db: Db, step: Step, job: JobId)
    requires Enabled(db, step) && job in db.jobs
    ensures job in Apply(db, step).jobs
    ensures db.jobs[job].status == Filled ==> Apply(db, step).jobs[job].status == Filled
    ensures db.jobs[job].openedAt.Some? ==> Apply(db, step).jobs[job].openedAt == db.jobs[job].openedAt
  {
  }

  /** Only a hire closes a requisition by a transition, and a hire saw it open. */
  lemma MoveKeepsJobClock(db: Db, tx: TxId)
    requires Clocked(db) && Enabled(db, MoveCommit(tx))
    ensures db.txs[tx].jobId in Apply(db, MoveCommit(tx)).jobs
    ensures JobClock(Apply(db, MoveCommit(tx)).jobs[db.txs[tx].jobId], db.now)
  {
    assert JobClock(db.jobs[db.txs[tx].jobId], db.now);
    assert SawItOpen(db, tx);
    DecidedOnCurrentRow(db, MoveCommit(tx));
  }

  lemma OthersKeepJobClock(db: Db, step: Step, job: JobId)
    requires Enabled(db, step) && job in Apply(db, step).jobs
    requires job in db.jobs ==> JobClock(db.jobs[job], db.now)
    requires step.MoveCommit? ==> db.txs[step.tx].jobId != job
    ensures JobClock(Apply(db, step).jobs[job], Apply(db, step).now)
  {
  }

  lemma StepKeepsJobClock(db: Db, step: Step, job: JobId)
    requires Clocked(db) && Enabled(db, step) && job in Apply(db, step).jobs
    ensures JobClock(Apply(db, step).jobs[job], Apply(db, step).now)
  {
    if step.MoveCommit? && db.txs[step.tx].jobId == job {
      MoveKeepsJobClock(db, step.tx);
    } else {
      OthersKeepJobClock(db, step, job);
    }
  }

  lemma BeginningSawItOpen(db: Db, tx: TxId, app: AppId, request: Request, actor: Actor)
    requires Clocked(db) && Enabled(db, MoveBegin(tx, app, request, actor))
    ensures var after := Apply(db, MoveBegin(tx, app, request, actor));
            tx in after.txs && SawItOpen(after, tx)
  {
    assert JobClock(db.jobs[db.apps[app].job], db.now);
  }

  lemma StepKeepsSawItOpen(db: Db, step: Step, tx: TxId)
    requires Clocked(db) && Enabled(db, step) && tx in Apply(db, step).txs
    ensures SawItOpen(Apply(db, step), tx)
  {
    if Apply(db, step).txs[tx].Moving? {
      StepKeepsLock(db, step, tx);
      if tx in db.txs {
        assert SawItOpen(db, tx);
        assert TxShape(db, tx);
        StepKeepsFilled(db, step, db.txs[tx].jobId);
      } else {
        BeginningSawItOpen(db, tx, step.app, step.request, step.actor);
      }
    }
  }

  lemma StepKeepsClocked(db: Db, step: Step)
    requires Clocked(db) && Enabled(db, step)
    ensures Clocked(Apply(db, step))
  {
    StepKeepsShape(db, step);
    forall job | job in Apply(db, step).jobs ensures JobClock(Apply(db, step).jobs[job], Apply(db, step).now) {
      StepKeepsJobClock(db, step, job);
    }
    forall tx | tx in Apply(db, step).txs ensures SawItOpen(Apply(db, step), tx) {
      StepKeepsSawItOpen(db, step, tx);
    }
  }

  /** From any point of any run on: FILLED is absorbing and the time-to-fill clock starts once. */
  lemma {:induction false} FilledIsFinal(db: Db, trace: seq<Step>, job: JobId)
    requires Runs(db, trace) && job in db.jobs
    ensures job in After(db, trace).jobs
    ensures db.jobs[job].status == Filled ==> After(db, trace).jobs[job].status == Filled
    ensures db.jobs[job].openedAt.Some? ==> After(db, trace).jobs[job].openedAt == db.jobs[job].openedAt
    decreases |trace|
  {
    if trace != [] {
      StepKeepsFilled(db, trace[0], job);
      FilledIsFinal(Apply(db, trace[0]), trace[1..], job);
    }
  }

  lemma {:induction false} RunKeepsClocked(db: Db, trace: seq<Step>)
    requires Clocked(db) && Runs(db, trace)
    ensures Clocked(After(db, trace))
    decreases |trace|
  {
    if trace != [] {
      StepKeepsClocked(db, trace[0]);
      RunKeepsClocked(Apply(db, trace[0]), trace[1..]);
    }
  }

  /** Over every run a filled requisition has both times, in order. */
  lemma FilledHasBothTimes(trace: seq<Step>, job: JobId)
    requires Runs(Empty, trace) && job in After(Empty, trace).jobs
    requires After(Empty, trace).jobs[job].status == Filled
    ensures var row := After(Empty, trace).jobs[job];
            && row.openedAt.Some? && row.closedAt.Some?
            && row.openedAt.value <= row.closedAt.value <= After(Empty, trace).now
  {
    RunKeepsClocked(Empty, trace);
    assert JobClock(After(Empty, trace).jobs[job], After(Empty, trace).now);
  }

  /** A status change whose read of the row and whose update of it are some time apart. */
  function ChangedLate(read: Job, current: Job, to: JobStatus, now: nat): Job {
    var meant := Changed(read, to, now);
    current.(status := meant.status, openedAt := meant.openedAt, closedAt := meant.closedAt)
  }

  /**
   FILLED is absorbing because a step reads and writes at once. When the last opening is filled
   between the two, the requisition stays FILLED exactly when the change meant to fill it, and
   keeps its opening time exactly when the change read that time or set it anew just then.
   */
  lemma LateChangeKeepsFilledExactlyWhen(read: Job, current: Job, to: JobStatus, now: nat)
    requires to in LegalChanges(read.status) && current.status == Filled && current.openedAt.Some?
    ensures ChangedLate(read, current, to, now).status == Filled <==> to == Filled
    ensures ChangedLate(read, current, to, now).openedAt == current.openedAt <==>
            || read.openedAt == current.openedAt
            || (to == Open && read.openedAt.None? && current.openedAt == Some(now))
  {
  }

  // ----- when transitions on the requisition run one at a time

  /** What the one transition in flight has read of the requisition is still so. */
  ghost predicate ReadsHold(db: Db, tx: TxId, job: JobId)
    requires job in db.jobs && tx in InFlight(db, job)
  {
    var t := db.txs[tx];
    && (t.hired.Some? ==> t.hired.value == |HiredAt(db, job)|)
    && (TakesForwardMoves(t.job.status) ==> |HiredAt(db, job)| < db.jobs[job].openings)
  }

  ghost predicate Serial(db: Db, job: JobId)
    requires job in db.jobs
  {
    && (|HiredAt(db, job)| >= db.jobs[job].openings ==> db.jobs[job].status == Filled)
    && (forall tx :: tx in InFlight(db, job) ==> ReadsHold(db, tx, job))
  }

  lemma TheOnlyOne<T>(items: set<T>, one: T, two: T)
    requires |items| <= 1 && one in items && two in items
    ensures one == two
  {
    if one != two {
      SubsetSize({one, two}, items);
    }
  }

  lemma HireUnchanged(db: Db, step: Step, job: JobId, app: AppId)
    requires Shape(db) && Enabled(db, step) && job in db.jobs && app in Apply(db, step).apps
    requires step.MoveCommit? ==> db.txs[step.tx].jobId != job
    ensures app in HiredAt(Apply(db, step), job) <==> app in HiredAt(db, job)
  {
    if app !in db.apps {
      NewOnesAreActive(db, step, app);
    } else {
      OnlyMovesDecide(db, step, app);
      if step.MoveCommit? {
        assert TxShape(db, step.tx);
      }
    }
  }

  /** Steps that commit no transition on this requisition leave who is hired as it was. */
  lemma HiresUnchanged(db: Db, step: Step, job: JobId)
    requires Shape(db) && Enabled(db, step) && job in db.jobs
    requires step.MoveCommit? ==> db.txs[step.tx].jobId != job
    ensures HiredAt(Apply(db, step), job) == HiredAt(db, job)
  {
    var before, after := HiredAt(db, job), HiredAt(Apply(db, step), job);
    forall app | app in before ensures app in after {
      StepKeepsApp(db, step, app);
      HireUnchanged(db, step, job, app);
    }
    forall app | app in after ensures app in before {
      HireUnchanged(db, step, job, app);
    }
  }

  /** After the one transition in flight commits, none is. */
  lemma CommitKeepsSerial(db: Db, tx: TxId, job: JobId)
    requires Shape(db) && Enabled(db, MoveCommit(tx)) && job in db.jobs && Serial(db, job)
    requires db.txs[tx].jobId == job && |InFlight(db, job)| <= 1
    ensures job in Apply(db, MoveCommit(tx)).jobs && Serial(Apply(db, MoveCommit(tx)), job)
  {
    var step := MoveCommit(tx);
    var after := Apply(db, step);
    assert TxShape(db, tx);
    assert tx in InFlight(db, job);
    assert ReadsHold(db, tx, job);
    forall other | other in InFlight(after, job) ensures false {
      assert other in InFlight(db, job);
      TheOnlyOne(InFlight(db, job), tx, other);
    }
    StepKeepsFilled(db, step, job);
    if IsHire(db, tx) {
      HireCommits(db, tx);
      HireAddsOne(db, after, tx);
    } else {
      OthersDoNotHire(db, step, job);
      SubsetSize(HiredAt(after, job), HiredAt(db, job));
    }
  }

  /** A transition that begins on an open or paused requisition finds it has an opening left. */
  lemma BeginningReads(db: Db, tx: TxId, app: AppId, request: Request, actor: Actor)
    requires Enabled(db, MoveBegin(tx, app, request, actor)) && Serial(db, db.apps[app].job)
    ensures var after := Apply(db, MoveBegin(tx, app, request, actor));
            && tx in InFlight(after, db.apps[app].job) && db.apps[app].job in after.jobs
            && (HiredAt(after, db.apps[app].job) == HiredAt(db, db.apps[app].job) ==>
                  ReadsHold(after, tx, db.apps[app].job))
  {
  }

  lemma StepKeepsReads(db: Db, step: Step, job: JobId, tx: TxId)
    requires Shape(db) && Enabled(db, step) && job in db.jobs && Serial(db, job)
    requires step.MoveCommit? ==> db.txs[step.tx].jobId != job
    requires job in Apply(db, step).jobs && tx in InFlight(Apply(db, step), job)
    ensures ReadsHold(Apply(db, step), tx, job)
  {
    HiresUnchanged(db, step, job);
    assert ProperJob(db.jobs[job]);
    StepKeepsJob(db, step, job);
    StepKeepsLock(db, step, tx);
    if tx in db.txs {
      assert tx in InFlight(db, job);
      assert ReadsHold(db, tx, job);
    } else {
      BeginningReads(db, tx, step.app, step.request, step.actor);
    }
  }

  lemma StepKeepsSerial(db: Db, step: Step, job: JobId)
    requires Shape(db) && Enabled(db, step) && job in db.jobs && Serial(db, job) && |InFlight(db, job)| <= 1
    ensures job in Apply(db, step).jobs && Serial(Apply(db, step), job)
  {
    if step.MoveCommit? && db.txs[step.tx].jobId == job {
      CommitKeepsSerial(db, step.tx, job);
    } else {
      StepKeepsFilled(db, step, job);
      HiresUnchanged(db, step, job);
      assert ProperJob(db.jobs[job]);
      StepKeepsJob(db, step, job);
      forall tx | tx in InFlight(Apply(db, step), job) ensures ReadsHold(Apply(db, step), tx, job) {
        StepKeepsReads(db, step, job, tx);
      }
    }
  }

  lemma {:induction false} RunKeepsSerial(db: Db, trace: seq<Step>, job: JobId)
    requires Shape(db) && Runs(db, trace) && (job in db.jobs ==> Serial(db, job))
    requires AtMostInFlight(db, trace, job, 1)
    ensures job in After(db, trace).jobs ==> Serial(After(db, trace), job)
    decreases |trace|
  {
    if trace != [] {
      StepKeepsShape(db, trace[0]);
      if job in db.jobs {
        StepKeepsSerial(db, trace[0], job);
      } else if job in Apply(db, trace[0]).jobs {
        NothingYet(db, trace[0], job, 1);
        assert ProperJob(Apply(db, trace[0]).jobs[job]);
      }
      RunKeepsSerial(Apply(db, trace[0]), trace[1..], job);
    }
  }

  /** One at a time: never more hires than openings, and full means FILLED. */
  lemma FullMeansFilled(trace: seq<Step>, job: JobId)
    requires Runs(Empty, trace) && AtMostInFlight(Empty, trace, job, 1) && job in After(Empty, trace).jobs
    ensures var db := After(Empty, trace);
            && |HiredAt(db, job)| <= db.jobs[job].openings
            && (|HiredAt(db, job)| == db.jobs[job].openings ==> db.jobs[job].status == Filled)
  {
    RunKeepsSerial(Empty, trace, job);
    HiresNeverExceed(trace, job, 1);
  }

  lemma CountLeavesRoom(db: Db, tx: TxId)
    requires tx in db.txs && TxShape(db, tx) && db.txs[tx].Moving? && db.txs[tx].hired.Some? && db.txs[tx].pending.Some?
    requires db.txs[tx].jobId in db.jobs && tx in InFlight(db, db.txs[tx].jobId) && ReadsHold(db, tx, db.txs[tx].jobId)
    ensures DecisionOf(db.txs[tx]) != Denied(NoOpeningsRemaining)
  {
  }

  /** One at a time, nobody is ever told that no openings remain: the requisition says so first. */
  lemma NoOpeningsIsNeverTheDenial(trace: seq<Step>, tx: TxId)
    requires Runs(Empty, trace) && tx in After(Empty, trace).txs
    requires After(Empty, trace).txs[tx].Moving? && AtMostInFlight(Empty, trace, After(Empty, trace).txs[tx].jobId, 1)
    requires After(Empty, trace).txs[tx].hired.Some? && After(Empty, trace).txs[tx].pending.Some?
    ensures DecisionOf(After(Empty, trace).txs[tx]) != Denied(NoOpeningsRemaining)
  {
    var db := After(Empty, trace);
    RunKeepsShape(Empty, trace);
    RunKeepsSerial(Empty, trace, db.txs[tx].jobId);
    assert TxShape(db, tx);
    assert tx in InFlight(db, db.txs[tx].jobId);
    CountLeavesRoom(db, tx);
  }
}
