/** The log against the outbox, and the scorecard gate, over every run. */
module LedgerEffects {
  import opened Wrappers
  import opened Transitions
  import opened Routing
  import opened Ledger
  import opened LedgerShape
  import opened LedgerHistory

  /** The log entry each kind of outbox row announces. */
  function Announced(kind: OutboxKind): EventType {
    match kind
    case ResumeParseRequested => ApplicationReceived
    case Received => ApplicationReceived
    case InterviewInvited => InterviewScheduled
    case Rejection => RejectedEvent
  }

  function Name(kind: OutboxKind): string {
    match kind
    case ResumeParseRequested => "resume.parse.requested"
    case Received => "application.received"
    case InterviewInvited => "interview.scheduled"
    case Rejection => "application.rejected"
  }

  /** Everything the services write is routed, and nothing else they could write is. */
  lemma WrittenIsRouted(kind: OutboxKind)
    ensures Name(kind) in PRODUCED && Routed(Name(kind))
  {
    ProducedAreRouted(Name(kind));
  }

  function CountOf(events: seq<Event>, kind: EventType): nat {
    if events == [] then 0
    else CountOf(events[..|events| - 1], kind) + if events[|events| - 1].kind == kind then 1 else 0
  }

  lemma CountSnoc(events: seq<Event>, event: Event, kind: EventType)
    ensures CountOf(events + [event], kind) == CountOf(events, kind) + if event.kind == kind then 1 else 0
  {
    assert (events + [event])[..|events|] == events;
  }

  ghost predicate AppConserved(db: Db, app: AppId, kind: OutboxKind)
    requires Shape(db)
  {
    assert app in db.apps ==> AppShape(db, app);
    db.outbox[Written(kind, app)]
    == if app in db.apps then CountOf(Ordered(db.apps[app].log), Announced(kind)) else 0
  }

  ghost predicate Conserved(db: Db) {
    && Shape(db)
    && (forall app, kind :: AppConserved(db, app, kind))
    && (forall app :: app in db.apps ==>
          AppShape(db, app) && CountOf(Ordered(db.apps[app].log), ApplicationReceived) == 1)
  }

  /** How many entries announced by this kind of row a change adds to the log. */
  ghost function Added(change: Change, kind: EventType): nat {
    match change
    case Noted(event) => if event.kind == kind then 1 else 0
    case Decided(d, reason) => if d.Allowed? && EventTypeFor(d.kind) == kind then 1 else 0
    case _ => 0
  }

  lemma ExtendedAdds(log: Log, event: Event, kind: EventType)
    requires Dense(log)
    ensures Dense(Extended(log, event))
    ensures CountOf(Ordered(Extended(log, event)), kind) ==
            CountOf(Ordered(log), kind) + if event.kind == kind then 1 else 0
  {
    OrderedExtended(log, event);
    CountSnoc(Ordered(log), event, kind);
  }

  lemma LogAdds(row: App, change: Change, now: nat, kind: EventType)
    requires Dense(row.log)
    ensures Dense(RowAfter(row, change, now).log)
    ensures CountOf(Ordered(RowAfter(row, change, now).log), kind)
         == CountOf(Ordered(row.log), kind) + Added(change, kind)
  {
    if change.Noted? {
      ExtendedAdds(row.log, change.event, kind);
    } else if change.Decided? && change.decision.Allowed? {
      ExtendedAdds(row.log, MoveEvent(change.decision, change.reason), kind);
    } else {
      assert RowAfter(row, change, now) == row;
    }
  }

  lemma OutboxAdds(db: Db, step: Step, app: AppId, kind: OutboxKind)
    requires Enabled(db, step) && app in db.apps
    ensures Apply(db, step).outbox[Written(kind, app)]
         == db.outbox[Written(kind, app)] + Added(ChangeOf(db, step, app), Announced(kind))
  {
    if step.MoveCommit? || step.AppendCommit? || step.SubmitCommit? {
    } else {
      assert Apply(db, step).outbox == db.outbox;
    }
  }

  /** The log gains what the step's change says, and nothing else. */
  lemma StepAddsToLog(db: Db, step: Step, app: AppId, kind: EventType)
    requires Shape(db) && Enabled(db, step) && app in db.apps
    ensures app in Apply(db, step).apps && Dense(db.apps[app].log) && Dense(Apply(db, step).apps[app].log)
    ensures CountOf(Ordered(Apply(db, step).apps[app].log), kind)
         == CountOf(Ordered(db.apps[app].log), kind) + Added(ChangeOf(db, step, app), kind)
  {
    LogGrows(db, step, app);
    assert AppShape(db, app);
    Changes(db, step, app);
    LogAdds(db.apps[app], ChangeOf(db, step, app), db.now, kind);
  }

  lemma StepKeepsReceived(db: Db, step: Step, app: AppId)
    requires Shape(db) && Enabled(db, step) && app in db.apps
    ensures app in Apply(db, step).apps && Dense(db.apps[app].log) && Dense(Apply(db, step).apps[app].log)
    ensures CountOf(Ordered(Apply(db, step).apps[app].log), ApplicationReceived)
         == CountOf(Ordered(db.apps[app].log), ApplicationReceived)
  {
    StepAddsToLog(db, step, app, ApplicationReceived);
    OnlyIntakeReceives(db, step, app);
  }

  lemma StepKeepsAppConserved(db: Db, step: Step, app: AppId, kind: OutboxKind)
    requires Shape(db) && AppConserved(db, app, kind) && Enabled(db, step) && Shape(Apply(db, step))
    requires app in db.apps
    ensures AppConserved(Apply(db, step), app, kind)
  {
    OutboxAdds(db, step, app, kind);
    StepAddsToLog(db, step, app, Announced(kind));
  }

  lemma OnlyIntakeReceives(db: Db, step: Step, app: AppId)
    requires Enabled(db, step)
    ensures Added(ChangeOf(db, step, app), ApplicationReceived) == 0
  {
  }

  lemma IntakeWrites(db: Db, tx: TxId, intake: AppId, candidate: CandidateId, app: AppId, kind: OutboxKind)
    requires Enabled(db, SubmitCommit(tx, intake, candidate))
    ensures Apply(db, SubmitCommit(tx, intake, candidate)).outbox[Written(kind, app)]
         == db.outbox[Written(kind, app)] + if intake == app && Announced(kind) == ApplicationReceived then 1 else 0
  {
  }

  /** A move or a note writes about its own application only. */
  lemma WritesAboutItself(db: Db, step: Step, app: AppId, kind: OutboxKind)
    requires Enabled(db, step) && (step.AppendCommit? || step.MoveCommit?) && db.txs[step.tx].app != app
    ensures Apply(db, step).outbox[Written(kind, app)] == db.outbox[Written(kind, app)]
  {
  }

  /** Every other step writes nothing. */
  lemma WritesNothing(db: Db, step: Step)
    requires Enabled(db, step) && !step.SubmitCommit? && !step.AppendCommit? && !step.MoveCommit?
    ensures Apply(db, step).outbox == db.outbox
  {
  }

  /** An application that is not there yet has no rows, unless this is its intake. */
  lemma OutboxStarts(db: Db, step: Step, app: AppId, kind: OutboxKind)
    requires Shape(db) && Enabled(db, step) && app !in db.apps && db.outbox[Written(kind, app)] == 0
    ensures Apply(db, step).outbox[Written(kind, app)]
         == if step.SubmitCommit? && step.app == app && Announced(kind) == ApplicationReceived then 1 else 0
  {
    if step.SubmitCommit? {
      IntakeWrites(db, step.tx, step.app, step.candidate, app, kind);
    } else if step.AppendCommit? || step.MoveCommit? {
      assert TxShape(db, step.tx);
      WritesAboutItself(db, step, app, kind);
    } else {
      WritesNothing(db, step);
    }
  }

  lemma IntakeStarts(db: Db, tx: TxId, app: AppId, candidate: CandidateId, kind: EventType)
    requires Enabled(db, SubmitCommit(tx, app, candidate))
    ensures var after := Apply(db, SubmitCommit(tx, app, candidate));
            && app in after.apps && Dense(after.apps[app].log)
            && CountOf(Ordered(after.apps[app].log), kind) == if kind == ApplicationReceived then 1 else 0
  {
    var event := ReceivedEvent(db.txs[tx].firstStage);
    OrderedFirst(event);
    CountSnoc([], event, kind);
    assert [] + [event] == [event];
  }

  lemma StepStartsConserved(db: Db, step: Step, app: AppId, kind: OutboxKind)
    requires Shape(db) && AppConserved(db, app, kind) && Enabled(db, step) && Shape(Apply(db, step))
    requires app !in db.apps
    ensures AppConserved(Apply(db, step), app, kind)
    ensures app in Apply(db, step).apps ==>
              Dense(Apply(db, step).apps[app].log)
              && CountOf(Ordered(Apply(db, step).apps[app].log), ApplicationReceived) == 1
  {
    OutboxStarts(db, step, app, kind);
    if app in Apply(db, step).apps {
      Changes(db, step, app);
      IntakeStarts(db, step.tx, app, step.candidate, Announced(kind));
      IntakeStarts(db, step.tx, app, step.candidate, ApplicationReceived);
    }
  }

  lemma StepKeepsConserved(db: Db, step: Step)
    requires Conserved(db) && Enabled(db, step)
    ensures Conserved(Apply(db, step))
  {
    StepKeepsShape(db, step);
    forall app, kind ensures AppConserved(Apply(db, step), app, kind) {
      assert AppConserved(db, app, kind);
      if app in db.apps { StepKeepsAppConserved(db, step, app, kind); }
      else { StepStartsConserved(db, step, app, kind); }
    }
    forall app | app in Apply(db, step).apps
      ensures AppShape(Apply(db, step), app)
      ensures CountOf(Ordered(Apply(db, step).apps[app].log), ApplicationReceived) == 1
    {
      assert AppConserved(db, app, Received);
      if app in db.apps { StepKeepsReceived(db, step, app); }
      else { StepStartsConserved(db, step, app, Received); }
    }
  }

  lemma {:induction false} RunKeepsConserved(db: Db, trace: seq<Step>)
    requires Conserved(db) && Runs(db, trace)
    ensures Conserved(After(db, trace))
    decreases |trace|
  {
    if trace != [] {
      StepKeepsConserved(db, trace[0]);
      RunKeepsConserved(Apply(db, trace[0]), trace[1..]);
    }
  }

  ghost predicate Agree(db: Db, app: AppId, kind: OutboxKind) {
    && (app in db.apps ==> Dense(db.apps[app].log))
    && db.outbox[Written(kind, app)]
       == (if app in db.apps then CountOf(Ordered(db.apps[app].log), Announced(kind)) else 0)
    && (app in db.apps ==>
          db.outbox[Written(Received, app)] == 1 && db.outbox[Written(ResumeParseRequested, app)] == 1)
  }

  lemma ConservedAgrees(db: Db, app: AppId, kind: OutboxKind)
    requires Conserved(db)
    ensures Agree(db, app, kind)
  {
    assert AppConserved(db, app, kind) && AppConserved(db, app, Received)
        && AppConserved(db, app, ResumeParseRequested);
    assert app in db.apps ==> AppShape(db, app);
  }

  /**
   Over every run, commits and aborts included: an application has as many outbox rows of each
   kind as log entries they announce, and exactly one of each kind intake writes.
   */
  lemma LogAndOutboxAgree(trace: seq<Step>, app: AppId, kind: OutboxKind)
    requires Runs(Empty, trace)
    ensures Agree(After(Empty, trace), app, kind)
  {
    RunKeepsConserved(Empty, trace);
    ConservedAgrees(After(Empty, trace), app, kind);
  }

  // ----- the partial unique index

  ghost predicate OneActive(db: Db) {
    forall a, b :: a in db.apps && b in db.apps && a != b && db.apps[a].status == Active == db.apps[b].status ==>
      db.apps[a].candidate != db.apps[b].candidate || db.apps[a].job != db.apps[b].job
  }

  lemma ReplacingKeepsOneActive(db: Db, apps: map<AppId, App>, app: AppId, row: App)
    requires OneActive(db) && app in db.apps && apps == db.apps[app := row]
    requires row.candidate == db.apps[app].candidate && row.job == db.apps[app].job
    requires row.status == Active ==> NoOtherActive(db, Some(app), row.candidate, row.job)
    ensures OneActive(db.(apps := apps))
  {
  }

  lemma MoveKeepsOneActive(db: Db, tx: TxId)
    requires Shape(db) && OneActive(db) && Enabled(db, MoveCommit(tx))
    ensures OneActive(Apply(db, MoveCommit(tx)))
  {
    var app := db.txs[tx].app;
    assert TxShape(db, tx);
    MoveChanges(db, tx);
    var apps := Apply(db, MoveCommit(tx)).apps;
    ReplacingKeepsOneActive(db, apps, app, apps[app]);
  }

  lemma StepKeepsOneActive(db: Db, step: Step)
    requires Shape(db) && OneActive(db) && Enabled(db, step)
    ensures OneActive(Apply(db, step))
  {
    if step.MoveCommit? {
      MoveKeepsOneActive(db, step.tx);
    } else if step.AppendCommit? {
      AppendChanges(db, step.tx);
    } else {
      QuietStep(db, step);
    }
  }

  /** Over every run nobody holds two live applications for one role, reopened ones included. */
  lemma {:induction false} NobodyAppliesTwiceAtOnce(db: Db, trace: seq<Step>)
    requires Shape(db) && OneActive(db) && Runs(db, trace)
    ensures OneActive(After(db, trace))
    decreases |trace|
  {
    if trace != [] {
      StepKeepsShape(db, trace[0]);
      StepKeepsOneActive(db, trace[0]);
      NobodyAppliesTwiceAtOnce(Apply(db, trace[0]), trace[1..]);
    }
  }

  // ----- the scorecard gate

  /**
   No hire is ever logged out of a stage that requires scorecards while a required seat there
   owes one: not only as it was counted, but when the hire commits.
   */
  lemma HireFindsNoSeatOwing(trace: seq<Step>, tx: TxId)
    requires Runs(Empty, trace) && Enabled(After(Empty, trace), MoveCommit(tx))
    requires After(Empty, trace).txs[tx].decision.value.kind == Hire
    ensures var db := After(Empty, trace);
            var d := db.txs[tx].decision.value;
            var app := db.txs[tx].app;
            && app in db.apps && d.from.id == db.apps[app].stage
            && (d.from.requiresScorecard ==> Seats(db.interviews, app, d.from.id) == {})
  {
    RunKeepsShape(Empty, trace);
    var db := After(Empty, trace);
    assert TxShape(db, tx);
    DecidedOnCurrentRow(db, MoveCommit(tx));
  }

  /** Submitting a scorecard or cancelling an interview never adds a seat that owes one. */
  lemma SeatsOnlyShrink(interviews: map<InterviewId, InterviewRow>, writer: AppId, write: LogWrite,
                        app: AppId, stage: StageId)
    requires write.SubmitCard? || write.Cancel?
    ensures Seats(Interviews(interviews, writer, write), app, stage) <= Seats(interviews, app, stage)
    ensures write.SubmitCard? && write.interview in interviews ==>
              Seats(Interviews(interviews, writer, write), app, stage)
              == Seats(interviews, app, stage) - {(write.interview, write.user)}
  {
  }

  /**
   Concluding adds owing seats exactly when it makes an interview owe scorecards that did not, and
   some required seat has none. Its check is made before the transaction and its update looks at
   nothing, so the interview may be recorded as a no-show or even cancelled by then.
   */
  lemma ConcludingAddsSeatsExactlyWhen(interviews: map<InterviewId, InterviewRow>, writer: AppId, write: LogWrite)
    requires write.Conclude? && write.interview in interviews
    ensures var row := interviews[write.interview];
            Seats(Interviews(interviews, writer, write), row.app, row.stage) <= Seats(interviews, row.app, row.stage)
            <==> !(!OwesScorecards(row.status) && OwesScorecards(write.outcome) && row.required - row.submitted != {})
  {
    var row := interviews[write.interview];
    if !OwesScorecards(row.status) && OwesScorecards(write.outcome) && row.required - row.submitted != {} {
      var user :| user in row.required - row.submitted;
      assert (write.interview, user) in Seats(Interviews(interviews, writer, write), row.app, row.stage);
      assert (write.interview, user) !in Seats(interviews, row.app, row.stage);
    }
  }

  /** A draft whose check came before its user's submission and whose update comes after it. */
  function DraftedLate(interviews: map<InterviewId, InterviewRow>, id: InterviewId, user: UserId)
    : map<InterviewId, InterviewRow>
  {
    if id in interviews then interviews[id := interviews[id].(submitted := interviews[id].submitted - {user})]
    else interviews
  }

  /**
   A draft is no log entry, so no row lock holds it back: between the count and the hire it can
   take a submission back. The hire then still finds no seat owing exactly when the draft was not
   one of a submitted, required card on an open interview of that stage.
   */
  lemma HireGateSurvivesLateDraftExactlyWhen(trace: seq<Step>, tx: TxId, id: InterviewId, user: UserId)
    requires Runs(Empty, trace) && Enabled(After(Empty, trace), MoveCommit(tx))
    requires After(Empty, trace).txs[tx].decision.value.kind == Hire
    requires After(Empty, trace).txs[tx].decision.value.from.requiresScorecard
    ensures var db := After(Empty, trace);
            var app, stage := db.txs[tx].app, db.txs[tx].decision.value.from.id;
            Seats(DraftedLate(db.interviews, id, user), app, stage) == {} <==>
              !(&& id in db.interviews && db.interviews[id].app == app && db.interviews[id].stage == stage
                && OwesScorecards(db.interviews[id].status)
                && user in db.interviews[id].required && user in db.interviews[id].submitted)
  {
    HireFindsNoSeatOwing(trace, tx);
    var db := After(Empty, trace);
    var app, stage := db.txs[tx].app, db.txs[tx].decision.value.from.id;
    var before, after := Seats(db.interviews, app, stage), Seats(DraftedLate(db.interviews, id, user), app, stage);
    assert forall seat :: seat in after && seat != (id, user) ==> seat in before;
    if id in db.interviews {
      assert (id, user) in after <==>
             (&& db.interviews[id].app == app && db.interviews[id].stage == stage
              && OwesScorecards(db.interviews[id].status) && user in db.interviews[id].required);
      assert (id, user) in after && user !in db.interviews[id].submitted ==> (id, user) in before;
    }
  }
}
