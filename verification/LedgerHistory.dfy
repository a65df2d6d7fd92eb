/** What the log says, and how the application row and the outbox follow from it. */
module LedgerHistory {
  import opened Wrappers
  import opened Transitions
  import opened Ledger
  import opened LedgerShape

  /** A log as a list, in sequence order. */
  function Ordered(log: Log): (events: seq<Event>)
    requires Dense(log)
    ensures |events| == |log|
  {
    seq(|log|, i requires 0 <= i < |log| => log[i + 1])
  }

  lemma OrderedExtended(log: Log, event: Event)
    requires Dense(log)
    ensures Dense(Extended(log, event))
    ensures Ordered(Extended(log, event)) == Ordered(log) + [event]
  {
    ExtendedDense(log, event);
  }

  lemma OrderedFirst(event: Event)
    ensures Dense(map[1 := event]) && Ordered(map[1 := event]) == [event]
  {
    FirstEntryDense(event);
  }

  // ----- replay

  /** The part of an application row the log is said to determine. */
  datatype View = View(stage: StageId, status: Status)

  predicate BearsStage(kind: EventType) {
    kind == ApplicationReceived || kind == StageChanged || kind == RejectedEvent || kind == WithdrawnEvent ||
    kind == HiredEvent || kind == ReopenedEvent
  }

  function StatusFrom(kind: EventType): Status {
    match kind
    case RejectedEvent => Rejected
    case HiredEvent => Hired
    case WithdrawnEvent => Withdrawn
    case _ => Active
  }

  /** Folding the log from nothing, oldest entry first. */
  function Replay(events: seq<Event>): Option<View> {
    if events == [] then None
    else
      var event := events[|events| - 1];
      if BearsStage(event.kind) && event.to.Some? then Some(View(event.to.value, StatusFrom(event.kind)))
      else Replay(events[..|events| - 1])
  }

  /** The entries that carry a stage. */
  function Moves(events: seq<Event>): seq<Event> {
    if events == [] then []
    else
      var event := events[|events| - 1];
      Moves(events[..|events| - 1]) + if BearsStage(event.kind) then [event] else []
  }

  lemma Snoc(events: seq<Event>, event: Event)
    ensures Moves(events + [event]) == Moves(events) + if BearsStage(event.kind) then [event] else []
    ensures Replay(events + [event])
         == if BearsStage(event.kind) && event.to.Some? then Some(View(event.to.value, StatusFrom(event.kind)))
            else Replay(events)
  {
    assert (events + [event])[..|events|] == events;
  }

  // ----- the language of stage-bearing entries

  predicate Closes(kind: EventType) {
    kind == HiredEvent || kind == RejectedEvent
  }

  predicate Explained(event: Event) {
    event.kind == RejectedEvent || event.kind == ReopenedEvent || event.move == Some(Regress) ==>
      event.reason.Some? && event.reason.value != ""
  }

  /** One entry after another: it leaves the stage just entered, and reopens exactly what was closed. */
  predicate Follows(previous: Event, event: Event) {
    && (event.kind == StageChanged || event.kind == RejectedEvent || event.kind == HiredEvent
        || event.kind == ReopenedEvent)
    && event.to.Some? && event.from == previous.to && event.from != event.to
    && (event.kind == ReopenedEvent <==> Closes(previous.kind))
    && event.move.Some? && event.kind == EventTypeFor(event.move.value)
    && Explained(event)
  }

  ghost predicate InLanguage(moves: seq<Event>) {
    && moves != []
    && moves[0].kind == ApplicationReceived && moves[0].from == None && moves[0].to.Some?
    && forall k :: 0 < k < |moves| ==> Follows(moves[k - 1], moves[k])
  }

  lemma InLanguageSnoc(moves: seq<Event>, event: Event)
    requires InLanguage(moves) && Follows(moves[|moves| - 1], event)
    ensures InLanguage(moves + [event])
  {
    forall k | 0 < k < |moves + [event]| ensures Follows((moves + [event])[k - 1], (moves + [event])[k]) {
      if k < |moves| {
        assert Follows(moves[k - 1], moves[k]);
      }
    }
  }

  /** Replaying comes down to the last stage-bearing entry. */
  lemma {:induction false} ReplayIsLastMove(events: seq<Event>)
    requires InLanguage(Moves(events))
    ensures var last := Moves(events)[|Moves(events)| - 1];
            && last.to.Some?
            && Replay(events) == Some(View(last.to.value, StatusFrom(last.kind)))
            && last.kind != WithdrawnEvent
  {
    var moves := Moves(events);
    assert |moves| > 1 ==> Follows(moves[|moves| - 2], moves[|moves| - 1]);
    var event := events[|events| - 1];
    if !BearsStage(event.kind) {
      assert Moves(events) == Moves(events[..|events| - 1]);
      ReplayIsLastMove(events[..|events| - 1]);
    }
  }

  // ----- the invariant

  predicate Matches(status: Status, stage: StageRef) {
    && (status == Hired <==> stage.kind == HiredStage)
    && (status == Rejected <==> stage.kind == RejectedStage)
    && status != Withdrawn
  }

  ghost predicate OnlyMovesNameStages(events: seq<Event>) {
    forall event :: event in events && event.to.Some? ==> event in Moves(events)
  }

  lemma OnlyMovesSnoc(events: seq<Event>, event: Event)
    requires OnlyMovesNameStages(events) && (event.to.Some? ==> BearsStage(event.kind))
    ensures OnlyMovesNameStages(events + [event])
  {
    Snoc(events, event);
  }

  ghost predicate RowHistory(row: App, stages: seq<StageRef>) {
    && stages != [] && DistinctIds(stages)
    && Dense(row.log)
    && OnlyMovesNameStages(Ordered(row.log))
    && Lookup(stages, row.stage).Some?
    && var moves := Moves(Ordered(row.log));
    && InLanguage(moves)
    && moves[0].to == Some(stages[0].id)
    && Replay(Ordered(row.log)) == Some(View(row.stage, row.status))
    && (row.decidedAt.Some? <==> row.status != Active)
    && (|moves| == 1 ==> row.stage == stages[0].id && row.status == Active)
    && (|moves| > 1 ==> Matches(row.status, Lookup(stages, row.stage).value))
  }

  ghost predicate AppHistory(db: Db, app: AppId)
    requires app in db.apps && AppShape(db, app)
  {
    RowHistory(db.apps[app], db.jobs[db.apps[app].job].stages)
  }

  ghost predicate Historical(db: Db) {
    Shape(db) && forall app :: app in db.apps ==> AppHistory(db, app)
  }

  /** A justified move on the row as it is makes an entry the language allows next. */
  lemma NextFollows(row: App, stages: seq<StageRef>, facts: Facts, request: Request, d: Decision)
    requires RowHistory(row, stages)
    requires d.Allowed? && Justified(facts, request, d.kind, d.from, d.to)
    requires facts.status == row.status && d.from.id == row.stage && d.from.id != d.to.id
    ensures Follows(Moves(Ordered(row.log))[|Moves(Ordered(row.log))| - 1], MoveEvent(d, request.reason))
  {
    ReplayIsLastMove(Ordered(row.log));
    JustifiedFollows(facts, request, d);
  }

  /** Reasons are asked for exactly where the language wants them explained. */
  lemma JustifiedFollows(facts: Facts, request: Request, d: Decision)
    requires d.Allowed? && Justified(facts, request, d.kind, d.from, d.to)
    ensures Explained(MoveEvent(d, request.reason))
    ensures BearsStage(EventTypeFor(d.kind)) && StatusFrom(EventTypeFor(d.kind)) == StatusAfter(d.kind)
    ensures EventTypeFor(d.kind) == ReopenedEvent <==> facts.status != Active
    ensures EventTypeFor(d.kind) != WithdrawnEvent && EventTypeFor(d.kind) != ApplicationReceived
    ensures Matches(StatusAfter(d.kind), d.to)
  {
    StoredExactlyWhen(request);
  }

  lemma FirstStageStays(db: Db, step: Step, app: AppId)
    requires Shape(db) && Enabled(db, step) && app in db.apps
    ensures app in Apply(db, step).apps && db.apps[app].job in db.jobs
    ensures Apply(db, step).apps[app].job == db.apps[app].job && db.apps[app].job in Apply(db, step).jobs
    ensures db.jobs[db.apps[app].job].stages <= Apply(db, step).jobs[db.apps[app].job].stages
    ensures DistinctIds(Apply(db, step).jobs[db.apps[app].job].stages)
  {
    assert AppShape(db, app);
    Changes(db, step, app);
    StepKeepsApp(db, step, app);
    StepKeepsJob(db, step, db.apps[app].job);
  }

  lemma StagesMayGrow(row: App, stages: seq<StageRef>, stages': seq<StageRef>)
    requires RowHistory(row, stages) && stages <= stages' && DistinctIds(stages')
    ensures RowHistory(row, stages')
  {
    LookupPrefix(stages, stages', row.stage);
  }

  lemma NotingKeepsHistory(row: App, stages: seq<StageRef>, write: LogWrite, now: nat)
    requires RowHistory(row, stages)
    ensures RowHistory(RowAfter(row, Noted(NoteEvent(write)), now), stages)
  {
    OrderedExtended(row.log, NoteEvent(write));
    Snoc(Ordered(row.log), NoteEvent(write));
    OnlyMovesSnoc(Ordered(row.log), NoteEvent(write));
  }

  lemma DecidingKeepsHistory(row: App, stages: seq<StageRef>, facts: Facts, request: Request, d: Decision, now: nat)
    requires RowHistory(row, stages)
    requires d.Allowed? && Justified(facts, request, d.kind, d.from, d.to) && d.result == StatusAfter(d.kind)
    requires Lookup(stages, d.to.id) == Some(d.to)
    requires Follows(Moves(Ordered(row.log))[|Moves(Ordered(row.log))| - 1], MoveEvent(d, request.reason))
    ensures RowHistory(RowAfter(row, Decided(d, request.reason), now), stages)
  {
    var event := MoveEvent(d, request.reason);
    JustifiedFollows(facts, request, d);
    OrderedExtended(row.log, event);
    Snoc(Ordered(row.log), event);
    OnlyMovesSnoc(Ordered(row.log), event);
    InLanguageSnoc(Moves(Ordered(row.log)), event);
  }

  lemma DecidedKeepsRowHistory(db: Db, tx: TxId)
    requires Shape(db) && Enabled(db, MoveCommit(tx)) && AppShape(db, db.txs[tx].app) && AppHistory(db, db.txs[tx].app)
    ensures var t := db.txs[tx];
            && t.app in db.apps && t.jobId in db.jobs && db.apps[t.app].job == t.jobId
            && RowHistory(RowAfter(db.apps[t.app], Decided(t.decision.value, t.request.reason), db.now),
                          db.jobs[t.jobId].stages)
  {
    var t := db.txs[tx];
    DecidedOnCurrentRow(db, MoveCommit(tx));
    var row, stages := db.apps[t.app], db.jobs[t.jobId].stages;
    NextFollows(row, stages, FactsOf(t), t.request, t.decision.value);
    DecidingKeepsHistory(row, stages, FactsOf(t), t.request, t.decision.value, db.now);
  }

  lemma NotedKeepsRowHistory(db: Db, tx: TxId)
    requires Enabled(db, AppendCommit(tx)) && AppShape(db, db.txs[tx].app) && AppHistory(db, db.txs[tx].app)
    ensures var t := db.txs[tx];
            RowHistory(RowAfter(db.apps[t.app], Noted(NoteEvent(t.write)), db.now), db.jobs[db.apps[t.app].job].stages)
  {
    var t := db.txs[tx];
    NotingKeepsHistory(db.apps[t.app], db.jobs[db.apps[t.app].job].stages, t.write, db.now);
  }

  /** The row a step leaves, against the stages before it. */
  lemma StepKeepsRowHistory(db: Db, step: Step, app: AppId)
    requires Shape(db) && Enabled(db, step) && app in db.apps && AppShape(db, app) && AppHistory(db, app)
    ensures RowHistory(RowAfter(db.apps[app], ChangeOf(db, step, app), db.now), db.jobs[db.apps[app].job].stages)
  {
    if step.AppendCommit? && db.txs[step.tx].app == app {
      NotedKeepsRowHistory(db, step.tx);
    } else if step.MoveCommit? && db.txs[step.tx].app == app {
      DecidedKeepsRowHistory(db, step.tx);
    } else {
      assert RowAfter(db.apps[app], ChangeOf(db, step, app), db.now) == db.apps[app];
    }
  }

  lemma StepKeepsHistory(db: Db, step: Step, app: AppId)
    requires Historical(db) && Enabled(db, step) && app in db.apps
    requires app in Apply(db, step).apps && AppShape(Apply(db, step), app)
    ensures AppHistory(Apply(db, step), app)
  {
    assert AppShape(db, app) && AppHistory(db, app);
    FirstStageStays(db, step, app);
    StepKeepsRowHistory(db, step, app);
    Changes(db, step, app);
    StagesMayGrow(Apply(db, step).apps[app], db.jobs[db.apps[app].job].stages,
                  Apply(db, step).jobs[db.apps[app].job].stages);
  }

  /** A log of nothing but its first entry. */
  lemma FirstEntryHistory(stage: StageId)
    ensures var log := map[1 := ReceivedEvent(stage)];
            && Dense(log) && Ordered(log) == [ReceivedEvent(stage)] && Moves(Ordered(log)) == [ReceivedEvent(stage)]
            && OnlyMovesNameStages(Ordered(log)) && Replay(Ordered(log)) == Some(View(stage, Active))
  {
    var event := ReceivedEvent(stage);
    OrderedFirst(event);
    Snoc([], event);
    OnlyMovesSnoc([], event);
    assert [] + [event] == [event] && Moves([]) == [];
  }

  lemma NewRowHistory(stages: seq<StageRef>, job: JobId, candidate: CandidateId)
    requires stages != [] && DistinctIds(stages)
    ensures RowHistory(App(job, candidate, stages[0].id, Active, None, map[1 := ReceivedEvent(stages[0].id)]), stages)
  {
    var log := map[1 := ReceivedEvent(stages[0].id)];
    FirstEntryHistory(stages[0].id);
    assert InLanguage(Moves(Ordered(log)));
    LookupUnique(stages, 0);
  }

  lemma StepStartsHistory(db: Db, step: Step, app: AppId)
    requires Shape(db) && Enabled(db, step) && app !in db.apps
    requires app in Apply(db, step).apps && AppShape(Apply(db, step), app)
    ensures AppHistory(Apply(db, step), app)
  {
    assert step.SubmitCommit? && step.app == app;
    var t := db.txs[step.tx];
    assert TxShape(db, step.tx);
    NewRowHistory(db.jobs[t.jobId].stages, t.jobId, step.candidate);
  }

  lemma StepKeepsHistorical(db: Db, step: Step)
    requires Historical(db) && Enabled(db, step)
    ensures Historical(Apply(db, step))
  {
    StepKeepsShape(db, step);
    forall app | app in Apply(db, step).apps ensures AppHistory(Apply(db, step), app) {
      if app in db.apps { StepKeepsHistory(db, step, app); } else { StepStartsHistory(db, step, app); }
    }
  }

  lemma {:induction false} RunKeepsHistorical(db: Db, trace: seq<Step>)
    requires Historical(db) && Runs(db, trace)
    ensures Historical(After(db, trace))
    decreases |trace|
  {
    if trace != [] {
      StepKeepsHistorical(db, trace[0]);
      RunKeepsHistorical(Apply(db, trace[0]), trace[1..]);
    }
  }

  // ----- what follows from it, over every run

  /** The application row is a read model: replaying its log gives exactly the row. */
  lemma ReplayAgrees(trace: seq<Step>, app: AppId)
    requires Runs(Empty, trace) && app in After(Empty, trace).apps
    ensures var row := After(Empty, trace).apps[app];
            && Dense(row.log)
            && Replay(Ordered(row.log)) == Some(View(row.stage, row.status))
            && (row.decidedAt.Some? <==> row.status != Active)
  {
    RunKeepsHistorical(Empty, trace);
    assert AppShape(After(Empty, trace), app) && AppHistory(After(Empty, trace), app);
  }

  /** Every log's stage-bearing entries form a word of the language. */
  lemma LogsAreInTheLanguage(trace: seq<Step>, app: AppId)
    requires Runs(Empty, trace) && app in After(Empty, trace).apps
    ensures Dense(After(Empty, trace).apps[app].log)
    ensures InLanguage(Moves(Ordered(After(Empty, trace).apps[app].log)))
  {
    RunKeepsHistorical(Empty, trace);
    assert AppShape(After(Empty, trace), app) && AppHistory(After(Empty, trace), app);
  }

  /**
   Exactly when an application's status agrees with the kind of stage it is in: always, except
   before its first move on a requisition whose pipeline starts with a terminal stage.
   */
  lemma StatusMatchesStageExactly(trace: seq<Step>, app: AppId)
    requires Runs(Empty, trace) && app in After(Empty, trace).apps
    ensures var db := After(Empty, trace);
            var row := db.apps[app];
            && row.job in db.jobs && db.jobs[row.job].stages != [] && Dense(row.log)
            && Lookup(db.jobs[row.job].stages, row.stage).Some?
            && (Matches(row.status, Lookup(db.jobs[row.job].stages, row.stage).value) <==>
                  |Moves(Ordered(row.log))| > 1 || !db.jobs[row.job].stages[0].Terminal())
  {
    RunKeepsHistorical(Empty, trace);
    var db := After(Empty, trace);
    assert AppShape(db, app) && AppHistory(db, app);
    LookupUnique(db.jobs[db.apps[app].job].stages, 0);
  }
}
