/** The conversion funnel of one requisition, as a function of the event logs. */
module Funnel {
  import opened Wrappers
  import opened Sizes
  import opened Transitions
  import opened Ledger
  import opened LedgerShape
  import opened LedgerHistory

  datatype Row = Row(position: nat, reached: nat, reachRate: real, conversionToNext: Option<real>)

  function Applications(db: Db, job: JobId): set<AppId> {
    set app | app in db.apps && db.apps[app].job == job
  }

  predicate Entered(log: Log, stage: StageId) {
    exists n :: n in log && log[n].to == Some(stage)
  }

  /** The applications with an entry into the stage, whether or not they are still there. */
  function Reached(db: Db, job: JobId, stage: StageId): set<AppId> {
    set app | app in db.apps && db.apps[app].job == job && Entered(db.apps[app].log, stage)
  }

  /** The query's rows: stages somebody entered, rejections aside, by position. */
  function Counted(db: Db, job: JobId, stages: seq<StageRef>): (rows: seq<StageRef>)
    ensures forall row :: row in rows <==>
              row in stages && row.kind != RejectedStage && Reached(db, job, row.id) != {}
    ensures |stages| > 0 && stages[0].kind != RejectedStage && Reached(db, job, stages[0].id) != {} ==>
              |rows| > 0 && rows[0] == stages[0]
  {
    if stages == [] then []
    else
      (if stages[0].kind != RejectedStage && Reached(db, job, stages[0].id) != {} then [stages[0]] else [])
      + Counted(db, job, stages[1..])
  }

  function Percent(part: nat, whole: nat): real
    requires whole > 0
  {
    part as real / whole as real * 100.0
  }

  function Conversion(next: nat, reached: nat): real
    requires reached > 0
  {
    var rate := Percent(next, reached);
    if rate < 100.0 then rate else 100.0
  }

  function RowAt(db: Db, job: JobId, rows: seq<StageRef>, i: nat): Row
    requires i < |rows|
  {
    var entryCount, reached := |Reached(db, job, rows[0].id)|, |Reached(db, job, rows[i].id)|;
    Row(rows[i].position, reached,
        if entryCount == 0 then 0.0 else Percent(reached, entryCount),
        if i + 1 < |rows| && reached > 0 then Some(Conversion(|Reached(db, job, rows[i + 1].id)|, reached)) else None)
  }

  function Report(db: Db, job: JobId): (report: seq<Row>)
    requires job in db.jobs
  {
    var rows := Counted(db, job, db.jobs[job].stages);
    seq(|rows|, i requires 0 <= i < |rows| => RowAt(db, job, rows, i))
  }

  lemma {:induction false} MovesAreEntries(events: seq<Event>, event: Event)
    requires event in Moves(events)
    ensures event in events
  {
    var last := |events| - 1;
    if event in Moves(events[..last]) {
      MovesAreEntries(events[..last], event);
    }
  }

  lemma RowEnteredFirst(row: App, stages: seq<StageRef>)
    requires RowHistory(row, stages)
    ensures Entered(row.log, stages[0].id)
  {
    var events := Ordered(row.log);
    var first := Moves(events)[0];
    MovesAreEntries(events, first);
    var i :| 0 <= i < |events| && events[i] == first;
    assert row.log[i + 1] == first;
  }

  /** Every application entered the first stage of its requisition. */
  lemma EveryoneEnteredFirst(db: Db, app: AppId)
    requires Historical(db) && app in db.apps
    ensures db.apps[app].job in db.jobs && db.jobs[db.apps[app].job].stages != []
    ensures Entered(db.apps[app].log, db.jobs[db.apps[app].job].stages[0].id)
  {
    assert AppShape(db, app) && AppHistory(db, app);
    RowEnteredFirst(db.apps[app], db.jobs[db.apps[app].job].stages);
  }

  lemma PercentOfLarger(part: nat, whole: nat)
    requires 0 < part <= whole
    ensures 0.0 < Percent(part, whole) <= 100.0
  {
    assert 0.0 < part as real / whole as real <= 1.0;
  }

  /** The first row, when the pipeline does not start with a rejection stage. */
  lemma FirstRow(db: Db, job: JobId)
    requires Historical(db) && job in db.jobs && db.jobs[job].stages != []
    requires db.jobs[job].stages[0].kind != RejectedStage
    ensures var rows := Counted(db, job, db.jobs[job].stages);
            && Reached(db, job, db.jobs[job].stages[0].id) == Applications(db, job)
            && (Applications(db, job) != {} ==> rows != [])
            && (rows != [] ==> rows[0] == db.jobs[job].stages[0] && Applications(db, job) != {})
  {
    var first := db.jobs[job].stages[0];
    forall app | app in Applications(db, job) ensures app in Reached(db, job, first.id) {
      EveryoneEnteredFirst(db, app);
    }
    var rows := Counted(db, job, db.jobs[job].stages);
    if rows != [] {
      assert rows[0] in rows;
      assert Reached(db, job, rows[0].id) <= Applications(db, job);
    }
  }

  lemma RowSizes(db: Db, job: JobId, rows: seq<StageRef>, i: nat)
    requires job in db.jobs && rows == Counted(db, job, db.jobs[job].stages) && i < |rows|
    ensures 0 < |Reached(db, job, rows[i].id)| <= |Applications(db, job)|
  {
    assert rows[i] in rows;
    SubsetSize(Reached(db, job, rows[i].id), Applications(db, job));
  }

  lemma RowBounds(db: Db, job: JobId, i: nat)
    requires job in db.jobs && i < |Report(db, job)|
    requires var rows := Counted(db, job, db.jobs[job].stages);
             Reached(db, job, rows[0].id) == Applications(db, job)
    ensures Report(db, job)[i].reached <= Report(db, job)[0].reached == |Applications(db, job)|
    ensures 0.0 < Report(db, job)[i].reachRate <= 100.0
  {
    var rows := Counted(db, job, db.jobs[job].stages);
    RowSizes(db, job, rows, i);
    PercentOfLarger(|Reached(db, job, rows[i].id)|, |Applications(db, job)|);
  }

  /** The exact share, cut off at 100 when more applications entered the later stage. */
  ghost predicate ExactOrCut(rate: real, next: nat, reached: nat) {
    if next < reached then rate < 100.0 && rate * reached as real == next as real * 100.0 else rate == 100.0
  }

  lemma ShareIsExact(next: nat, reached: nat)
    requires reached > 0
    ensures var share := next as real / reached as real;
            share * reached as real == next as real && (share < 1.0 <==> next < reached)
  {
    var share, whole := next as real / reached as real, reached as real;
    if share < 1.0 {
      assert share * whole < 1.0 * whole;
    } else {
      assert share * whole >= 1.0 * whole;
    }
  }

  lemma ConversionIs(next: nat, reached: nat)
    requires reached > 0
    ensures ExactOrCut(Conversion(next, reached), next, reached)
  {
    ShareIsExact(next, reached);
  }

  lemma ConversionAt(db: Db, job: JobId, rows: seq<StageRef>, i: nat)
    requires i < |rows| && |Reached(db, job, rows[i].id)| > 0
    ensures RowAt(db, job, rows, i).conversionToNext.Some? <==> i + 1 < |rows|
    ensures i + 1 < |rows| ==>
              ExactOrCut(RowAt(db, job, rows, i).conversionToNext.value, RowAt(db, job, rows, i + 1).reached,
                         RowAt(db, job, rows, i).reached)
  {
    if i + 1 < |rows| {
      ConversionIs(|Reached(db, job, rows[i + 1].id)|, |Reached(db, job, rows[i].id)|);
    }
  }

  /**
   Conversion is given between adjacent rows, never above 100, and is the exact share unless
   more applications entered the later stage, which is when it is cut off.
   */
  lemma ConversionIsExactOrCut(db: Db, job: JobId, i: nat)
    requires job in db.jobs && i < |Report(db, job)|
    ensures var report := Report(db, job);
            && (report[i].conversionToNext.Some? <==> i + 1 < |report|)
            && (i + 1 < |report| ==>
                  ExactOrCut(report[i].conversionToNext.value, report[i + 1].reached, report[i].reached))
  {
    var rows := Counted(db, job, db.jobs[job].stages);
    RowSizes(db, job, rows, i);
    ConversionAt(db, job, rows, i);
    ReportedAt(db, job, rows, i);
  }

  lemma ReportedAt(db: Db, job: JobId, rows: seq<StageRef>, i: nat)
    requires job in db.jobs && rows == Counted(db, job, db.jobs[job].stages) && i < |rows|
    ensures |Report(db, job)| == |rows| && Report(db, job)[i] == RowAt(db, job, rows, i)
    ensures i + 1 < |rows| ==> Report(db, job)[i + 1] == RowAt(db, job, rows, i + 1)
  {
  }

  /** What a funnel shows when everybody is in its first row. */
  ghost predicate CountsEveryone(db: Db, job: JobId)
    requires job in db.jobs && db.jobs[job].stages != []
  {
    var report := Report(db, job);
    && (Applications(db, job) != {} ==> report != [] && report[0].position == db.jobs[job].stages[0].position)
    && (forall i :: 0 <= i < |report| ==>
          && report[i].reached <= report[0].reached == |Applications(db, job)|
          && 0.0 < report[i].reachRate <= 100.0)
  }

  lemma FirstRowCounts(db: Db, job: JobId)
    requires Historical(db) && job in db.jobs && db.jobs[job].stages != []
    requires db.jobs[job].stages[0].kind != RejectedStage
    ensures CountsEveryone(db, job)
  {
    FirstRow(db, job);
    forall i | 0 <= i < |Report(db, job)|
      ensures Report(db, job)[i].reached <= Report(db, job)[0].reached == |Applications(db, job)|
      ensures 0.0 < Report(db, job)[i].reachRate <= 100.0
    {
      RowBounds(db, job, i);
    }
  }

  /**
   Over every run, stages appended on the way included: when the pipeline does not start with a
   rejection stage, the first row counts every application, no row counts more, and no rate
   exceeds 100.
   */
  lemma FirstRowCountsEveryone(trace: seq<Step>, job: JobId)
    requires Runs(Empty, trace) && job in After(Empty, trace).jobs
    requires After(Empty, trace).jobs[job].stages != []
    requires After(Empty, trace).jobs[job].stages[0].kind != RejectedStage
    ensures CountsEveryone(After(Empty, trace), job)
  {
    RunKeepsHistorical(Empty, trace);
    FirstRowCounts(After(Empty, trace), job);
  }

  /**
   The hypothesis is needed: an application that has not moved yet is counted for the first
   stage only, so where that is a rejection stage it is counted in no row at all.
   */
  lemma UnmovedCountsForFirstStageOnly(row: App, stages: seq<StageRef>, k: nat)
    requires RowHistory(row, stages) && |Moves(Ordered(row.log))| == 1 && k < |stages|
    ensures Entered(row.log, stages[k].id) <==> k == 0
  {
    var events := Ordered(row.log);
    if Entered(row.log, stages[k].id) {
      var n :| n in row.log && row.log[n].to == Some(stages[k].id);
      assert events[n - 1] == row.log[n];
      assert row.log[n] in Moves(events);
    }
    MovesAreEntries(events, Moves(events)[0]);
    var i :| 0 <= i < |events| && events[i] == Moves(events)[0];
    assert row.log[i + 1] == events[i];
  }

  /** Such an application is in no row of the report exactly when the first stage is a rejection. */
  lemma UnmovedIsMissedExactlyWhen(db: Db, app: AppId)
    requires Historical(db) && app in db.apps && |Moves(Ordered(db.apps[app].log))| == 1
    ensures var job := db.apps[app].job;
            && job in db.jobs && db.jobs[job].stages != []
            && ((forall row :: row in Counted(db, job, db.jobs[job].stages) ==> app !in Reached(db, job, row.id))
                <==> db.jobs[job].stages[0].kind == RejectedStage)
  {
    EveryoneEnteredFirst(db, app);
    var job := db.apps[app].job;
    var stages := db.jobs[job].stages;
    forall row | row in stages && app in Reached(db, job, row.id) ensures row == stages[0] {
      assert AppHistory(db, app);
      var k :| 0 <= k < |stages| && stages[k] == row;
      UnmovedCountsForFirstStageOnly(db.apps[app], stages, k);
    }
    assert app in Reached(db, job, stages[0].id);
    assert stages[0] in stages;
  }

  // ----- the rows

  lemma {:induction false} CountedIncreases(db: Db, job: JobId, stages: seq<StageRef>)
    requires Increasing(stages)
    ensures Increasing(Counted(db, job, stages))
  {
    if stages != [] {
      CountedIncreases(db, job, stages[1..]);
      var rest := Counted(db, job, stages[1..]);
      forall k | 0 <= k < |rest| ensures stages[0].position < rest[k].position {
        assert rest[k] in stages[1..];
      }
    }
  }

  lemma ShareTimes(part: nat, whole: nat)
    requires whole > 0
    ensures Percent(part, whole) * whole as real == 100.0 * part as real
  {
    assert part as real / whole as real * whole as real == part as real;
  }

  /** The row of a stage: everybody who entered it, as a share of those in the first row. */
  ghost predicate IsRowOf(db: Db, job: JobId, row: Row, stage: StageRef, first: nat) {
    && row.position == stage.position && row.reached == |Reached(db, job, stage.id)|
    && row.reachRate * first as real == 100.0 * row.reached as real
  }

  ghost predicate Shows(report: seq<Row>, position: nat) {
    exists i :: 0 <= i < |report| && report[i].position == position
  }

  lemma RowAtIs(db: Db, job: JobId, rows: seq<StageRef>, i: nat)
    requires i < |rows| && |Reached(db, job, rows[0].id)| > 0
    ensures IsRowOf(db, job, RowAt(db, job, rows, i), rows[i], RowAt(db, job, rows, 0).reached)
  {
    ShareTimes(|Reached(db, job, rows[i].id)|, |Reached(db, job, rows[0].id)|);
  }

  /** Each row of the report is the row of a stage, one that is no rejection. */
  lemma RowIs(db: Db, job: JobId, i: nat)
    requires job in db.jobs && i < |Report(db, job)|
    ensures exists stage ::
              && stage in db.jobs[job].stages && stage.kind != RejectedStage
              && IsRowOf(db, job, Report(db, job)[i], stage, Report(db, job)[0].reached)
  {
    var rows := Counted(db, job, db.jobs[job].stages);
    RowSizes(db, job, rows, 0);
    ReportedAt(db, job, rows, 0);
    ReportedAt(db, job, rows, i);
    RowAtIs(db, job, rows, i);
    assert rows[i] in rows;
  }

  /** The rows are in the order of the pipeline. */
  lemma RowsIncrease(db: Db, job: JobId, i: nat, j: nat)
    requires Historical(db) && job in db.jobs && i < j < |Report(db, job)|
    ensures Report(db, job)[i].position < Report(db, job)[j].position
  {
    var rows := Counted(db, job, db.jobs[job].stages);
    CountedIncreases(db, job, db.jobs[job].stages);
    ReportedAt(db, job, rows, i);
    ReportedAt(db, job, rows, j);
  }

  ghost predicate HasPosition(rows: seq<StageRef>, position: nat) {
    exists i :: 0 <= i < |rows| && rows[i].position == position
  }

  lemma PositionsAre(db: Db, job: JobId, stages: seq<StageRef>, rows: seq<StageRef>, k: nat)
    requires Increasing(stages) && k < |stages| && forall row :: row in rows ==> row in stages
    ensures stages[k] in rows <==> HasPosition(rows, stages[k].position)
  {
    if i :| 0 <= i < |rows| && rows[i].position == stages[k].position {
      assert rows[i] in rows;
      var l :| 0 <= l < |stages| && stages[l] == rows[i];
    }
  }

  lemma ShowsRows(db: Db, job: JobId, position: nat)
    requires job in db.jobs
    ensures var rows := Counted(db, job, db.jobs[job].stages);
            Shows(Report(db, job), position) <==> HasPosition(rows, position)
  {
    var rows := Counted(db, job, db.jobs[job].stages);
    forall i | 0 <= i < |rows| ensures |Report(db, job)| == |rows| && Report(db, job)[i].position == rows[i].position {
      ReportedAt(db, job, rows, i);
    }
    assert |Report(db, job)| == |rows|;
  }

  ghost predicate HasEntered(db: Db, job: JobId, app: AppId, stage: StageId) {
    app in db.apps && db.apps[app].job == job && Entered(db.apps[app].log, stage)
  }

  lemma HasRowIfCounted(db: Db, job: JobId, k: nat)
    requires job in db.jobs && Increasing(db.jobs[job].stages) && k < |db.jobs[job].stages|
    ensures var stage := db.jobs[job].stages[k];
            Shows(Report(db, job), stage.position) <==>
            stage.kind != RejectedStage && Reached(db, job, stage.id) != {}
  {
    var stages := db.jobs[job].stages;
    ShowsRows(db, job, stages[k].position);
    var rows := Counted(db, job, stages);
    PositionsAre(db, job, stages, rows, k);
    assert stages[k] in rows <==> stages[k].kind != RejectedStage && Reached(db, job, stages[k].id) != {};
  }

  /** A stage has a row exactly when it is no rejection and somebody entered it. */
  lemma StageHasRowExactlyWhen(db: Db, job: JobId, k: nat)
    requires Historical(db) && job in db.jobs && k < |db.jobs[job].stages|
    ensures var stage := db.jobs[job].stages[k];
            Shows(Report(db, job), stage.position) <==>
            stage.kind != RejectedStage && exists app :: HasEntered(db, job, app, stage.id)
  {
    InOrder(db, job);
    HasRowIfCounted(db, job, k);
    SomebodyEntered(db, job, db.jobs[job].stages[k].id);
  }

  lemma InOrder(db: Db, job: JobId)
    requires Historical(db) && job in db.jobs
    ensures Increasing(db.jobs[job].stages)
  {
    assert ProperJob(db.jobs[job]);
  }

  lemma SomebodyEntered(db: Db, job: JobId, stage: StageId)
    ensures Reached(db, job, stage) != {} <==> exists app :: HasEntered(db, job, app, stage)
  {
    if app :| HasEntered(db, job, app, stage) {
      assert app in Reached(db, job, stage);
    }
    if Reached(db, job, stage) != {} {
      var app :| app in Reached(db, job, stage);
      assert HasEntered(db, job, app, stage);
    }
  }
}
