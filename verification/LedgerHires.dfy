/** How many people a requisition hires, and when it is FILLED. */
module LedgerHires {
  import opened Wrappers
  import opened Sizes
  import opened Transitions
  import opened Ledger
  import opened LedgerShape

  ghost function InFlight(db: Db, job: JobId): set<TxId> {
    set tx | tx in db.txs && db.txs[tx].Moving? && db.txs[tx].jobId == job
  }

  /** The transitions whose count of the hires left an opening. */
  ghost function CouldHire(db: Db, job: JobId): (txs: set<TxId>)
    requires job in db.jobs
    ensures txs <= InFlight(db, job)
  {
    set tx | tx in db.txs && db.txs[tx].Moving? && db.txs[tx].jobId == job
      && db.txs[tx].hired.Some? && db.txs[tx].hired.value < db.jobs[job].openings
  }

  /** At every point of the run, at most `k` transitions on the requisition are in flight. */
  ghost predicate AtMostInFlight(db: Db, trace: seq<Step>, job: JobId, k: nat)
    requires Runs(db, trace)
    decreases |trace|
  {
    |InFlight(db, job)| <= k && (trace != [] ==> AtMostInFlight(Apply(db, trace[0]), trace[1..], job, k))
  }

  ghost predicate Bounded(db: Db, job: JobId, k: nat)
    requires job in db.jobs
  {
    |HiredAt(db, job)| + |CouldHire(db, job)| <= db.jobs[job].openings + k - 1
  }

  ghost predicate IsHire(db: Db, tx: TxId) {
    && tx in db.txs && db.txs[tx].Moving?
    && db.txs[tx].decision.Some? && db.txs[tx].decision.value.Allowed? && db.txs[tx].decision.value.kind == Hire
    && db.txs[tx].hired.Some?
  }

  /** What committing a hire does, without the rest of the step. */
  ghost predicate HireEffect(db: Db, after: Db, tx: TxId)
    requires IsHire(db, tx)
  {
    var t := db.txs[tx];
    && t.app in db.apps && db.apps[t.app].status == Active && db.apps[t.app].job == t.jobId
    && t.hired.value < t.job.openings
    && t.jobId in db.jobs && t.job.openings == db.jobs[t.jobId].openings
    && after.apps.Keys == db.apps.Keys
    && after.apps[t.app].status == Hired && after.apps[t.app].job == t.jobId
    && (forall app :: app in db.apps && app != t.app ==> after.apps[app] == db.apps[app])
    && after.jobs == (if t.hired.value + 1 >= t.job.openings
                      then db.jobs[t.jobId := db.jobs[t.jobId].(status := Filled, closedAt := Some(db.now))]
                      else db.jobs)
    && after.txs == db.txs - {tx}
  }

  /** What committing a move does to requisitions and transactions. */
  lemma MoveLeaves(db: Db, tx: TxId)
    requires Enabled(db, MoveCommit(tx))
    ensures var t, after := db.txs[tx], Apply(db, MoveCommit(tx));
            && after.txs == db.txs - {tx}
            && after.jobs == (if t.decision.value.kind == Hire && t.hired.value + 1 >= t.job.openings
                              then db.jobs[t.jobId := db.jobs[t.jobId].(status := Filled, closedAt := Some(db.now))]
                              else db.jobs)
  {
  }

  lemma HireEffectFrom(db: Db, after: Db, tx: TxId)
    requires IsHire(db, tx) && TxShape(db, tx)
    requires var t := db.txs[tx];
             && t.jobId in db.jobs
             && after.apps ==
                 db.apps[t.app := RowAfter(db.apps[t.app], Decided(t.decision.value, t.request.reason), db.now)]
             && after.txs == db.txs - {tx}
             && after.jobs == (if t.hired.value + 1 >= t.job.openings
                               then db.jobs[t.jobId := db.jobs[t.jobId].(status := Filled, closedAt := Some(db.now))]
                               else db.jobs)
    ensures HireEffect(db, after, tx)
  {
  }

  lemma HireCommits(db: Db, tx: TxId)
    requires Shape(db) && Enabled(db, MoveCommit(tx)) && IsHire(db, tx)
    ensures HireEffect(db, Apply(db, MoveCommit(tx)), tx)
  {
    assert TxShape(db, tx);
    MoveChanges(db, tx);
    MoveLeaves(db, tx);
    HireEffectFrom(db, Apply(db, MoveCommit(tx)), tx);
  }

  lemma HireAddsOne(db: Db, after: Db, tx: TxId)
    requires IsHire(db, tx) && HireEffect(db, after, tx)
    ensures db.txs[tx].app !in HiredAt(db, db.txs[tx].jobId)
    ensures HiredAt(after, db.txs[tx].jobId) == HiredAt(db, db.txs[tx].jobId) + {db.txs[tx].app}
  {
  }

  /** A hire takes one of those that could: the sum does not move. */
  lemma HireKeepsBound(db: Db, after: Db, tx: TxId, k: nat)
    requires IsHire(db, tx) && HireEffect(db, after, tx) && Bounded(db, db.txs[tx].jobId, k)
    ensures db.txs[tx].jobId in after.jobs && Bounded(after, db.txs[tx].jobId, k)
  {
    HireAddsOne(db, after, tx);
    var job := db.txs[tx].jobId;
    assert tx in CouldHire(db, job);
    assert CouldHire(after, job) == CouldHire(db, job) - {tx};
  }

  lemma OtherMovesDoNotHire(db: Db, tx: TxId, job: JobId)
    requires Shape(db) && Enabled(db, MoveCommit(tx)) && !(db.txs[tx].jobId == job && IsHire(db, tx))
    ensures var app := db.txs[tx].app;
            app in HiredAt(Apply(db, MoveCommit(tx)), job) ==> app in HiredAt(db, job)
  {
    assert TxShape(db, tx);
    DecidedOnCurrentRow(db, MoveCommit(tx));
    MoveChanges(db, tx);
  }

  /** A step that is not a hire on this requisition hires nobody. */
  lemma OthersDoNotHire(db: Db, step: Step, job: JobId)
    requires Shape(db) && Enabled(db, step) && job in db.jobs
    requires !(step.MoveCommit? && db.txs[step.tx].jobId == job && IsHire(db, step.tx))
    ensures HiredAt(Apply(db, step), job) <= HiredAt(db, job)
  {
    forall app | app in HiredAt(Apply(db, step), job) ensures app in HiredAt(db, job) {
      if app !in db.apps {
        NewOnesAreActive(db, step, app);
      } else {
        OnlyMovesDecide(db, step, app);
        if step.MoveCommit? && db.txs[step.tx].app == app {
          OtherMovesDoNotHire(db, step.tx, job);
        }
      }
    }
  }

  /** Only counting adds to those that could hire. */
  lemma OthersDoNotCount(db: Db, step: Step, job: JobId)
    requires Enabled(db, step) && job in db.jobs && !step.MoveCount?
    ensures job in Apply(db, step).jobs && Apply(db, step).jobs[job].openings == db.jobs[job].openings
    ensures CouldHire(Apply(db, step), job) <= CouldHire(db, job)
  {
  }

  lemma CountingKeepsBound(db: Db, tx: TxId, job: JobId, k: nat)
    requires Enabled(db, MoveCount(tx)) && job in db.jobs && Bounded(db, job, k)
    requires |InFlight(Apply(db, MoveCount(tx)), job)| <= k
    ensures Bounded(Apply(db, MoveCount(tx)), job, k)
  {
    var after := Apply(db, MoveCount(tx));
    assert HiredAt(after, job) == HiredAt(db, job);
    SubsetSize(CouldHire(after, job), InFlight(after, job));
    if |HiredAt(db, job)| >= db.jobs[job].openings || db.txs[tx].jobId != job {
      SubsetSize(CouldHire(after, job), CouldHire(db, job));
    }
  }

  lemma StepKeepsBound(db: Db, step: Step, job: JobId, k: nat)
    requires Shape(db) && Enabled(db, step) && job in db.jobs && Bounded(db, job, k)
    requires |InFlight(Apply(db, step), job)| <= k
    ensures job in Apply(db, step).jobs && Bounded(Apply(db, step), job, k)
  {
    if step.MoveCount? {
      CountingKeepsBound(db, step.tx, job, k);
    } else {
      OthersDoNotCount(db, step, job);
      SubsetSize(CouldHire(Apply(db, step), job), CouldHire(db, job));
      if step.MoveCommit? && db.txs[step.tx].jobId == job && IsHire(db, step.tx) {
        HireCommits(db, step.tx);
        HireKeepsBound(db, Apply(db, step), step.tx, k);
      } else {
        OthersDoNotHire(db, step, job);
        SubsetSize(HiredAt(Apply(db, step), job), HiredAt(db, job));
      }
    }
  }

  lemma {:induction false} RunKeepsBound(db: Db, trace: seq<Step>, job: JobId, k: nat)
    requires Shape(db) && Runs(db, trace) && job in db.jobs && Bounded(db, job, k)
    requires AtMostInFlight(db, trace, job, k)
    ensures job in After(db, trace).jobs && Bounded(After(db, trace), job, k)
    decreases |trace|
  {
    if trace != [] {
      StepKeepsShape(db, trace[0]);
      StepKeepsBound(db, trace[0], job, k);
      RunKeepsBound(Apply(db, trace[0]), trace[1..], job, k);
    }
  }

  /** From the requisition's creation on. */
  lemma {:induction false} HiresAreBounded(db: Db, trace: seq<Step>, job: JobId, k: nat)
    requires Shape(db) && Runs(db, trace) && job !in db.jobs
    requires AtMostInFlight(db, trace, job, k)
    ensures job in After(db, trace).jobs ==>
              |HiredAt(After(db, trace), job)| + 1 <= After(db, trace).jobs[job].openings + k
    decreases |trace|
  {
    if trace != [] {
      var after := Apply(db, trace[0]);
      StepKeepsShape(db, trace[0]);
      if job in after.jobs {
        NothingYet(db, trace[0], job, k);
        RunKeepsBound(after, trace[1..], job, k);
      } else {
        HiresAreBounded(after, trace[1..], job, k);
      }
    }
  }

  lemma NothingYet(db: Db, step: Step, job: JobId, k: nat)
    requires Shape(db) && Enabled(db, step) && job !in db.jobs && job in Apply(db, step).jobs
    ensures HiredAt(Apply(db, step), job) == {} && InFlight(Apply(db, step), job) == {}
    ensures Bounded(Apply(db, step), job, k)
  {
    assert step.CreateJob?;
    forall app | app in db.apps ensures db.apps[app].job != job {
      assert AppShape(db, app);
    }
    forall tx | tx in db.txs && db.txs[tx].Moving? ensures db.txs[tx].jobId != job {
      assert TxShape(db, tx);
    }
    assert HiredAt(Apply(db, step), job) == {};
    assert InFlight(Apply(db, step), job) == {};
  }

  /**
   With any number of transitions of which at most `k` are in flight at once, hires never
   exceed openings + k - 1, whatever status changes and reopenings interleave.
   */
  lemma HiresNeverExceed(trace: seq<Step>, job: JobId, k: nat)
    requires Runs(Empty, trace) && job in After(Empty, trace).jobs
    requires AtMostInFlight(Empty, trace, job, k)
    ensures |HiredAt(After(Empty, trace), job)| + 1 <= After(Empty, trace).jobs[job].openings + k
  {
    HiresAreBounded(Empty, trace, job, k);
  }

  /** The openings after one more hire, full or not. */
  lemma HireFillsExactlyWhen(db: Db, after: Db, tx: TxId)
    requires IsHire(db, tx) && HireEffect(db, after, tx)
    ensures var job := db.txs[tx].jobId;
            && job in after.jobs && after.jobs[job].openings == db.jobs[job].openings
            && |HiredAt(after, job)| == |HiredAt(db, job)| + 1
            && (after.jobs[job].status == Filled <==>
                  db.jobs[job].status == Filled || db.txs[tx].hired.value + 1 >= db.jobs[job].openings)
  {
    HireAddsOne(db, after, tx);
  }

  /**
   Exactly when a hire goes wrong, on the rows as they are when it commits: hires pass the
   openings when these were taken already, and a requisition is full without being FILLED when
   this hire takes the last opening but had counted fewer hires than there were.
   */
  lemma HireOverfillsExactlyWhen(db: Db, tx: TxId)
    requires Shape(db) && Enabled(db, MoveCommit(tx)) && IsHire(db, tx)
    ensures var job, after := db.txs[tx].jobId, Apply(db, MoveCommit(tx));
            && job in db.jobs && job in after.jobs && after.jobs[job].openings == db.jobs[job].openings
            && (|HiredAt(after, job)| > after.jobs[job].openings <==> |HiredAt(db, job)| >= db.jobs[job].openings)
            && (|HiredAt(after, job)| >= after.jobs[job].openings && after.jobs[job].status != Filled <==>
                  && |HiredAt(db, job)| + 1 >= db.jobs[job].openings
                  && db.jobs[job].status != Filled
                  && db.txs[tx].hired.value + 1 < db.jobs[job].openings)
  {
    HireCommits(db, tx);
    HireFillsExactlyWhen(db, Apply(db, MoveCommit(tx)), tx);
  }

  lemma OtherHireStillGood(db: Db, t1: TxId, t2: TxId)
    requires Enabled(db, MoveCommit(t1)) && IsHire(db, t1) && HireEffect(db, Apply(db, MoveCommit(t1)), t1)
    requires Enabled(db, MoveCommit(t2)) && IsHire(db, t2) && db.txs[t2].decision.value.result == Hired
    requires t1 != t2 && db.txs[t1].app != db.txs[t2].app
    ensures Enabled(Apply(db, MoveCommit(t1)), MoveCommit(t2)) && IsHire(Apply(db, MoveCommit(t1)), t2)
  {
    var middle := Apply(db, MoveCommit(t1));
    assert middle.txs[t2] == db.txs[t2];
  }

  lemma TwoHires(db: Db, middle: Db, after: Db, t1: TxId, t2: TxId)
    requires IsHire(db, t1) && HireEffect(db, middle, t1)
    requires IsHire(db, t2) && IsHire(middle, t2) && HireEffect(middle, after, t2)
    requires t1 != t2 && db.txs[t1].jobId == db.txs[t2].jobId
    ensures var job := db.txs[t1].jobId;
            && |HiredAt(after, job)| == |HiredAt(db, job)| + 2
            && job in after.jobs
            && (after.jobs[job].status == Filled <==>
                  || db.jobs[job].status == Filled
                  || db.txs[t1].hired.value + 1 >= db.jobs[job].openings
                  || db.txs[t2].hired.value + 1 >= db.jobs[job].openings)
  {
    HireAddsOne(db, middle, t1);
    HireAddsOne(middle, after, t2);
  }

  /**
   The bound has to grow with k: two transitions on different applications that are each ready
   to hire both commit, since the lock is on the application and not on the requisition. And
   they leave the requisition short of FILLED unless one of them had counted enough hires.
   */
  lemma BothHire(db: Db, t1: TxId, t2: TxId)
    requires Shape(db) && t1 != t2
    requires Enabled(db, MoveCommit(t1)) && IsHire(db, t1)
    requires Enabled(db, MoveCommit(t2)) && IsHire(db, t2)
    requires db.txs[t1].jobId == db.txs[t2].jobId
    ensures var job := db.txs[t1].jobId;
            var middle := Apply(db, MoveCommit(t1));
            && Enabled(middle, MoveCommit(t2))
            && var after := Apply(middle, MoveCommit(t2));
            && |HiredAt(after, job)| == |HiredAt(db, job)| + 2
            && job in db.jobs && job in after.jobs
            && (after.jobs[job].status == Filled <==>
                  || db.jobs[job].status == Filled
                  || db.txs[t1].hired.value + 1 >= db.jobs[job].openings
                  || db.txs[t2].hired.value + 1 >= db.jobs[job].openings)
  {
    var middle := Apply(db, MoveCommit(t1));
    assert TxShape(db, t1) && TxShape(db, t2);
    HireCommits(db, t1);
    OtherHireStillGood(db, t1, t2);
    StepKeepsShape(db, MoveCommit(t1));
    HireCommits(middle, t2);
    TwoHires(db, middle, Apply(middle, MoveCommit(t2)), t1, t2);
  }
}
