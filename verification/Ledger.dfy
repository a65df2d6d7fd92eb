/**
 Requisitions, applications and their event logs as one database used by concurrent
 transactions.

 A transaction reads in several steps and then commits or aborts; between its steps anything
 else may commit. What the database itself guarantees is part of `Enabled`: the unique index
 on (application, seq), the partial unique index on active applications, and the row lock a
 transition takes, which also holds back every insert that references the locked row.
 */
module Ledger {
  import opened Wrappers
  import opened Transitions

  type AppId = nat
  type JobId = nat
  type CandidateId = nat
  type InterviewId = nat
  type TxId = nat

  datatype EventType =
    | ApplicationReceived
    | StageChanged
    | RejectedEvent
    | WithdrawnEvent
    | HiredEvent
    | ReopenedEvent
    | ResumeParsed
    | ResumeParseFailed
    | InterviewScheduled
    | InterviewCancelled
    | InterviewConcluded
    | ScorecardSubmitted

  datatype Event = Event(
    kind: EventType,
    from: Option<StageId>,
    to: Option<StageId>,
    reason: Option<string>,
    move: Option<Kind>)

  /** The rows of one application's log. The unique index makes the sequence number a key. */
  type Log = map<nat, Event>

  datatype App = App(
    job: JobId,
    candidate: CandidateId,
    stage: StageId,
    status: Status,
    decidedAt: Option<nat>,
    log: Log)

  datatype Job = Job(
    status: JobStatus,
    openings: nat,
    openedAt: Option<nat>,
    closedAt: Option<nat>,
    stages: seq<StageRef>)

  datatype InterviewStatus = Scheduled | Completed | Cancelled | NoShow

  datatype InterviewRow = InterviewRow(
    app: AppId,
    stage: StageId,
    status: InterviewStatus,
    panel: set<UserId>,
    required: set<UserId>,
    submitted: set<UserId>)

  datatype OutboxKind = ResumeParseRequested | Received | InterviewInvited | Rejection

  /** An outbox row, as far as the application it is about. */
  datatype Written = Written(kind: OutboxKind, app: AppId)

  /** What a transaction other than a transition writes beside its log entry. */
  datatype LogWrite =
    | Schedule(interview: InterviewId, stage: StageId, panel: set<UserId>, required: set<UserId>)
    | Cancel(interview: InterviewId, note: string)
    | Conclude(interview: InterviewId, outcome: InterviewStatus)
    | SubmitCard(interview: InterviewId, user: UserId)
    | Parse(extracted: bool)

  /** A transaction in flight, with what it has read so far. */
  datatype Tx =
    | Submitting(jobId: JobId, firstStage: StageId)
    | Moving(app: AppId, request: Request, actor: Actor, jobId: JobId, job: Job, status: Status, stage: StageId,
             hired: Option<nat>, pending: Option<nat>, decision: Option<Decision>, seqNo: Option<nat>)
    | Appending(app: AppId, write: LogWrite, seqNo: Option<nat>)

  datatype Db = Db(
    now: nat,
    jobs: map<JobId, Job>,
    apps: map<AppId, App>,
    interviews: map<InterviewId, InterviewRow>,
    outbox: multiset<Written>,
    txs: map<TxId, Tx>)

  datatype Step =
    | Tick(ms: nat)
    | CreateJob(job: JobId, openings: nat, stages: seq<StageRef>)
    | ChangeStatus(job: JobId, to: JobStatus)
    | AppendStage(job: JobId, stage: StageRef)
    | SubmitBegin(tx: TxId, job: JobId)
    | SubmitCommit(tx: TxId, app: AppId, candidate: CandidateId)
    | MoveBegin(tx: TxId, app: AppId, request: Request, actor: Actor)
    | MoveCount(tx: TxId)
    | MoveGather(tx: TxId)
    | MoveDecide(tx: TxId)
    | MoveCommit(tx: TxId)
    | AppendBegin(tx: TxId, app: AppId, write: LogWrite)
    | AppendCommit(tx: TxId)
    | ReadSeq(tx: TxId, latest: nat)
    | Abort(tx: TxId)

  const Empty: Db := Db(0, map[], map[], map[], multiset{}, map[])

  // ----- requisitions

  function LegalChanges(from: JobStatus): set<JobStatus> {
    match from
    case Draft => {Open, Closed}
    case Open => {Paused, Closed, Filled}
    case Paused => {Open, Closed}
    case Closed => {Open}
    case Filled => {}
  }

  predicate Increasing(stages: seq<StageRef>) {
    forall i, j :: 0 <= i < j < |stages| ==> stages[i].position < stages[j].position
  }

  /** The contract asks for at least one opening and a stage list; positions follow the list. */
  predicate ProperJob(job: Job) {
    job.openings >= 1 && job.stages != [] && DistinctIds(job.stages) && Increasing(job.stages)
  }

  function Changed(job: Job, to: JobStatus, now: nat): Job {
    job.(status := to,
         openedAt := if to == Open && job.openedAt.None? then Some(now) else job.openedAt,
         closedAt := if to == Closed || to == Filled then Some(now) else None)
  }

  // ----- queries

  function HiredAt(db: Db, job: JobId): set<AppId> {
    set app | app in db.apps && db.apps[app].job == job && db.apps[app].status == Hired
  }

  predicate OwesScorecards(status: InterviewStatus) {
    status == Scheduled || status == Completed
  }

  /** The required seats at one stage of an application that owe a scorecard. */
  function Seats(interviews: map<InterviewId, InterviewRow>, app: AppId, stage: StageId): set<(InterviewId, UserId)> {
    set id, user | id in interviews && interviews[id].app == app && interviews[id].stage == stage
      && OwesScorecards(interviews[id].status) && user in interviews[id].required - interviews[id].submitted
      :: (id, user)
  }

  ghost predicate IsLatest(log: Log, latest: nat) {
    (latest == 0 || latest in log) && forall n :: n in log ==> 1 <= n <= latest
  }

  predicate Locked(db: Db, app: AppId) {
    exists tx :: tx in db.txs && db.txs[tx].Moving? && db.txs[tx].app == app
  }

  /** The partial unique index: one active application per candidate and requisition. */
  predicate NoOtherActive(db: Db, self: Option<AppId>, candidate: CandidateId, job: JobId) {
    forall app :: app in db.apps && Some(app) != self ==>
      !(db.apps[app].status == Active && db.apps[app].candidate == candidate && db.apps[app].job == job)
  }

  function FactsOf(tx: Tx): Facts
    requires tx.Moving? && tx.hired.Some? && tx.pending.Some?
  {
    Facts(tx.status, tx.stage, tx.job.status, tx.job.openings - tx.hired.value, tx.pending.value, tx.job.stages,
          tx.actor)
  }

  function DecisionOf(tx: Tx): Decision
    requires tx.Moving? && tx.hired.Some? && tx.pending.Some?
  {
    Evaluate(FactsOf(tx), tx.request)
  }

  // ----- log entries

  function EventTypeFor(kind: Kind): EventType {
    match kind
    case Reject => RejectedEvent
    case Hire => HiredEvent
    case Withdraw => WithdrawnEvent
    case Reopen => ReopenedEvent
    case _ => StageChanged
  }

  function MoveEvent(d: Decision, reason: Option<string>): Event
    requires d.Allowed?
  {
    Event(EventTypeFor(d.kind), Some(d.from.id), Some(d.to.id), StoredReason(reason), Some(d.kind))
  }

  function NoteEvent(write: LogWrite): Event {
    match write
    case Schedule(_, _, _, _) => Event(InterviewScheduled, None, None, None, None)
    case Cancel(_, note) => Event(InterviewCancelled, None, None, Some(note), None)
    case Conclude(_, _) => Event(InterviewConcluded, None, None, None, None)
    case SubmitCard(_, _) => Event(ScorecardSubmitted, None, None, None, None)
    case Parse(extracted) => Event(if extracted then ResumeParsed else ResumeParseFailed, None, None, None, None)
  }

  function ReceivedEvent(stage: StageId): Event {
    Event(ApplicationReceived, None, Some(stage), None, None)
  }

  // ----- steps

  /** The checks a log writer makes before its transaction, on what it reads then. */
  predicate MayBegin(db: Db, app: AppId, write: LogWrite) {
    && app in db.apps
    && match write
       case Schedule(_, stage, panel, required) =>
         db.apps[app].status == Active && stage == db.apps[app].stage && required <= panel && required != {}
       case Cancel(id, _) =>
         id in db.interviews && db.interviews[id].app == app && db.interviews[id].status != Cancelled
       case Conclude(id, outcome) =>
         && id in db.interviews && db.interviews[id].app == app && db.interviews[id].status != Cancelled
         && (outcome == Completed || outcome == NoShow)
       case SubmitCard(id, user) =>
         && id in db.interviews && db.interviews[id].app == app && OwesScorecards(db.interviews[id].status)
         && user in db.interviews[id].panel && user !in db.interviews[id].submitted
       case Parse(_) => true
  }

  /** The writes themselves look at nothing: they update by id. */
  function Interviews(interviews: map<InterviewId, InterviewRow>, app: AppId, write: LogWrite)
    : map<InterviewId, InterviewRow>
  {
    match write
    case Schedule(id, stage, panel, required) =>
      interviews[id := InterviewRow(app, stage, Scheduled, panel, required, {})]
    case Cancel(id, _) =>
      if id in interviews then interviews[id := interviews[id].(status := Cancelled)] else interviews
    case Conclude(id, outcome) =>
      if id in interviews then interviews[id := interviews[id].(status := outcome)] else interviews
    case SubmitCard(id, user) =>
      if id in interviews then interviews[id := interviews[id].(submitted := interviews[id].submitted + {user})]
      else interviews
    case Parse(_) => interviews
  }

  ghost predicate Enabled(db: Db, step: Step) {
    match step
    case Tick(_) => true
    case CreateJob(job, openings, stages) =>
      job !in db.jobs && ProperJob(Job(Draft, openings, None, None, stages))
      && forall i :: 0 <= i < |stages| ==> stages[i].position == i
    case ChangeStatus(job, to) =>
      job in db.jobs && to in LegalChanges(db.jobs[job].status) && (to == Open ==> db.jobs[job].stages != [])
    case AppendStage(job, stage) =>
      && job in db.jobs && db.jobs[job].stages != []
      && DistinctIds(db.jobs[job].stages + [stage])
      && stage.position == db.jobs[job].stages[|db.jobs[job].stages| - 1].position + 1
    case SubmitBegin(tx, job) =>
      tx !in db.txs && job in db.jobs && db.jobs[job].status == Open && db.jobs[job].stages != []
    case SubmitCommit(tx, app, candidate) =>
      && tx in db.txs && db.txs[tx].Submitting?
      && app !in db.apps && NoOtherActive(db, None, candidate, db.txs[tx].jobId)
    case MoveBegin(tx, app, _, _) =>
      tx !in db.txs && app in db.apps && db.apps[app].job in db.jobs && !Locked(db, app)
    case MoveCount(tx) => tx in db.txs && db.txs[tx].Moving? && db.txs[tx].hired.None?
    case MoveGather(tx) =>
      tx in db.txs && db.txs[tx].Moving? && db.txs[tx].hired.Some? && db.txs[tx].pending.None?
    case MoveDecide(tx) =>
      && tx in db.txs && db.txs[tx].Moving?
      && db.txs[tx].hired.Some? && db.txs[tx].pending.Some? && db.txs[tx].decision.None?
      && DecisionOf(db.txs[tx]).Allowed?
    case MoveCommit(tx) =>
      && tx in db.txs && db.txs[tx].Moving?
      && var t := db.txs[tx];
      && t.app in db.apps && t.jobId in db.jobs
      && t.decision.Some? && t.decision.value.Allowed? && t.hired.Some?
      && t.seqNo.Some? && t.seqNo.value !in db.apps[t.app].log
      && (t.decision.value.result == Active ==>
            NoOtherActive(db, Some(t.app), db.apps[t.app].candidate, t.jobId))
    case AppendBegin(tx, app, write) => tx !in db.txs && MayBegin(db, app, write)
    case AppendCommit(tx) =>
      && tx in db.txs && db.txs[tx].Appending?
      && var t := db.txs[tx];
      && t.app in db.apps && !Locked(db, t.app)
      && t.seqNo.Some? && t.seqNo.value !in db.apps[t.app].log
      && (t.write.Schedule? ==> t.write.interview !in db.interviews)
    case ReadSeq(tx, latest) =>
      && tx in db.txs && !db.txs[tx].Submitting? && db.txs[tx].seqNo.None?
      && (db.txs[tx].Moving? ==> db.txs[tx].decision.Some?)
      && db.txs[tx].app in db.apps && IsLatest(db.apps[db.txs[tx].app].log, latest)
    case Abort(tx) => tx in db.txs
  }

  function Moved(db: Db, t: Tx): Db
    requires t.Moving? && t.app in db.apps && t.jobId in db.jobs
    requires t.hired.Some? && t.decision.Some? && t.decision.value.Allowed? && t.seqNo.Some?
  {
    var d := t.decision.value;
    var app := db.apps[t.app];
    db.(apps := db.apps[t.app := app.(
          stage := d.to.id,
          status := d.result,
          decidedAt := if d.result != Active then Some(db.now) else None,
          log := app.log[t.seqNo.value := MoveEvent(d, t.request.reason)])],
        outbox := if d.kind == Reject then db.outbox + multiset{Written(Rejection, t.app)} else db.outbox,
        jobs := if d.kind == Hire && t.hired.value + 1 >= t.job.openings
                then db.jobs[t.jobId := db.jobs[t.jobId].(status := Filled, closedAt := Some(db.now))]
                else db.jobs)
  }

  function Apply(db: Db, step: Step): Db
    requires Enabled(db, step)
  {
    match step
    case Tick(ms) => db.(now := db.now + ms)
    case CreateJob(job, openings, stages) =>
      db.(jobs := db.jobs[job := Job(Draft, openings, None, None, stages)])
    case ChangeStatus(job, to) => db.(jobs := db.jobs[job := Changed(db.jobs[job], to, db.now)])
    case AppendStage(job, stage) =>
      db.(jobs := db.jobs[job := db.jobs[job].(stages := db.jobs[job].stages + [stage])])
    case SubmitBegin(tx, job) => db.(txs := db.txs[tx := Submitting(job, db.jobs[job].stages[0].id)])
    case SubmitCommit(tx, app, candidate) =>
      var t := db.txs[tx];
      db.(apps := db.apps[app := App(t.jobId, candidate, t.firstStage, Active, None,
                                     map[1 := ReceivedEvent(t.firstStage)])],
          outbox := db.outbox + multiset{Written(ResumeParseRequested, app), Written(Received, app)},
          txs := db.txs - {tx})
    case MoveBegin(tx, app, request, actor) =>
      var row := db.apps[app];
      db.(txs := db.txs[tx := Moving(app, request, actor, row.job, db.jobs[row.job], row.status, row.stage,
                                     None, None, None, None)])
    case MoveCount(tx) =>
      db.(txs := db.txs[tx := db.txs[tx].(hired := Some(|HiredAt(db, db.txs[tx].jobId)|))])
    case MoveGather(tx) =>
      db.(txs := db.txs[tx := db.txs[tx].(pending := Some(|Seats(db.interviews, db.txs[tx].app, db.txs[tx].stage)|))])
    case MoveDecide(tx) => db.(txs := db.txs[tx := db.txs[tx].(decision := Some(DecisionOf(db.txs[tx])))])
    case MoveCommit(tx) => Moved(db, db.txs[tx]).(txs := db.txs - {tx})
    case AppendBegin(tx, app, write) => db.(txs := db.txs[tx := Appending(app, write, None)])
    case AppendCommit(tx) =>
      var t := db.txs[tx];
      var app := db.apps[t.app];
      db.(apps := db.apps[t.app := app.(log := app.log[t.seqNo.value := NoteEvent(t.write)])],
          interviews := Interviews(db.interviews, t.app, t.write),
          outbox := if t.write.Schedule? then db.outbox + multiset{Written(InterviewInvited, t.app)} else db.outbox,
          txs := db.txs - {tx})
    case ReadSeq(tx, latest) => db.(txs := db.txs[tx := db.txs[tx].(seqNo := Some(latest + 1))])
    case Abort(tx) => db.(txs := db.txs - {tx})
  }

  ghost predicate Runs(db: Db, trace: seq<Step>)
    decreases |trace|
  {
    trace == [] || (Enabled(db, trace[0]) && Runs(Apply(db, trace[0]), trace[1..]))
  }

  ghost function After(db: Db, trace: seq<Step>): Db
    requires Runs(db, trace)
    decreases |trace|
  {
    if trace == [] then db else After(Apply(db, trace[0]), trace[1..])
  }

  lemma {:induction false} RunsSnoc(db: Db, trace: seq<Step>, step: Step)
    requires Runs(db, trace) && Enabled(After(db, trace), step)
    ensures Runs(db, trace + [step])
    ensures After(db, trace + [step]) == Apply(After(db, trace), step)
    decreases |trace|
  {
    if trace == [] {
      assert (trace + [step])[1..] == [];
    } else {
      assert (trace + [step])[1..] == trace[1..] + [step];
      RunsSnoc(Apply(db, trace[0]), trace[1..], step);
    }
  }

  ghost predicate Reachable(db: Db) {
    exists trace :: Runs(Empty, trace) && After(Empty, trace) == db
  }

  lemma EmptyIsReachable()
    ensures Reachable(Empty)
  {
    assert Runs(Empty, []) && After(Empty, []) == Empty;
  }

  lemma Take(db: Db, step: Step) returns (after: Db)
    requires Reachable(db) && Enabled(db, step)
    ensures after == Apply(db, step) && Reachable(after)
  {
    var trace :| Runs(Empty, trace) && After(Empty, trace) == db;
    RunsSnoc(Empty, trace, step);
    after := Apply(db, step);
  }
}
