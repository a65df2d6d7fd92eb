/**
 The outbox, its relays and the parse handler together: an intake commits a document with its
 outbox row, relays enqueue the row, and only an enqueued row is ever delivered, any number of
 times.
 */
module ResumeDelivery {
  import opened Wrappers
  import Routing
  import Outbox
  import OutboxSafety
  import Candidates
  import ResumeEvents

  type DocumentId = Candidates.DocumentId
  type RowId = Outbox.RowId

  /** `rowOf` is the document a row's payload names, the other way round. */
  datatype World = World(outbox: Outbox.State, people: Candidates.Db, rowOf: map<DocumentId, RowId>)

  datatype Move =
    | Intake(settle: Candidates.Step, id: RowId)
    | Handle(step: Candidates.Step)
    | Relay(relayed: Outbox.Step)

  const PARSE_REQUESTED := "resume.parse.requested"

  const Nothing: World := World(Outbox.Empty, Candidates.NothingYet, map[])

  ghost predicate Enabled(c: Outbox.Config, w: World, move: Move) {
    match move
    case Intake(settle, id) =>
      && settle.Settle? && Candidates.Enabled(w.people, settle)
      && Outbox.Enabled(c, w.outbox, Outbox.Write(id, PARSE_REQUESTED))
    case Handle(step) =>
      && !step.Settle? && Candidates.Enabled(w.people, step)
      && (step.Deliver? ==> step.document in w.rowOf && w.rowOf[step.document] in w.outbox.jobs)
    case Relay(step) => Outbox.Enabled(c, w.outbox, step)
  }

  ghost function Apply(c: Outbox.Config, w: World, move: Move): World
    requires Enabled(c, w, move)
  {
    match move
    case Intake(settle, id) =>
      World(Outbox.Apply(c, w.outbox, Outbox.Write(id, PARSE_REQUESTED)), Candidates.Apply(w.people, settle),
            w.rowOf[settle.document := id])
    case Handle(step) => w.(people := Candidates.Apply(w.people, step))
    case Relay(step) => w.(outbox := Outbox.Apply(c, w.outbox, step))
  }

  ghost predicate Runs(c: Outbox.Config, w: World, moves: seq<Move>)
    decreases |moves|
  {
    moves == [] || (Enabled(c, w, moves[0]) && Runs(c, Apply(c, w, moves[0]), moves[1..]))
  }

  ghost function After(c: Outbox.Config, w: World, moves: seq<Move>): World
    requires Runs(c, w, moves)
    decreases |moves|
  {
    if moves == [] then w else After(c, Apply(c, w, moves[0]), moves[1..])
  }

  // ----- each part of a run is a run of that part

  function OutboxPart(moves: seq<Move>): seq<Outbox.Step> {
    if moves == [] then []
    else
      (match moves[0]
       case Intake(_, id) => [Outbox.Write(id, PARSE_REQUESTED)]
       case Handle(_) => []
       case Relay(step) => [step])
      + OutboxPart(moves[1..])
  }

  function PeoplePart(moves: seq<Move>): seq<Candidates.Step> {
    if moves == [] then []
    else
      (match moves[0]
       case Intake(settle, _) => [settle]
       case Handle(step) => [step]
       case Relay(_) => [])
      + PeoplePart(moves[1..])
  }

  lemma {:induction false} OutboxPartRuns(c: Outbox.Config, w: World, moves: seq<Move>)
    requires Runs(c, w, moves)
    ensures Outbox.Runs(c, w.outbox, OutboxPart(moves))
    ensures Outbox.After(c, w.outbox, OutboxPart(moves)) == After(c, w, moves).outbox
    decreases |moves|
  {
    if moves != [] {
      OutboxPartRuns(c, Apply(c, w, moves[0]), moves[1..]);
      var part := OutboxPart(moves);
      if !moves[0].Handle? {
        assert part[1..] == OutboxPart(moves[1..]);
      } else {
        assert part == OutboxPart(moves[1..]);
      }
    }
  }

  lemma {:induction false} PeoplePartRuns(c: Outbox.Config, w: World, moves: seq<Move>)
    requires Runs(c, w, moves)
    ensures Candidates.Runs(w.people, PeoplePart(moves))
    ensures Candidates.After(w.people, PeoplePart(moves)) == After(c, w, moves).people
    decreases |moves|
  {
    if moves != [] {
      PeoplePartRuns(c, Apply(c, w, moves[0]), moves[1..]);
      var part := PeoplePart(moves);
      if !moves[0].Relay? {
        assert part[1..] == PeoplePart(moves[1..]);
      } else {
        assert part == PeoplePart(moves[1..]);
      }
    }
  }

  /** At every point of the run, at most one delivery of the document is being handled. */
  ghost predicate TakingTurns(c: Outbox.Config, w: World, moves: seq<Move>, document: DocumentId)
    requires Runs(c, w, moves)
    decreases |moves|
  {
    && |ResumeEvents.Deliveries(w.people, document)| <= 1
    && (moves != [] ==> TakingTurns(c, Apply(c, w, moves[0]), moves[1..], document))
  }

  lemma {:induction false} TurnsAreTakenByPeople(c: Outbox.Config, w: World, moves: seq<Move>, document: DocumentId)
    requires Runs(c, w, moves) && TakingTurns(c, w, moves, document)
    ensures Candidates.Runs(w.people, PeoplePart(moves))
    ensures ResumeEvents.AtMostDeliveries(w.people, PeoplePart(moves), document, 1)
    decreases |moves|
  {
    PeoplePartRuns(c, w, moves);
    if moves != [] {
      TurnsAreTakenByPeople(c, Apply(c, w, moves[0]), moves[1..], document);
      var part := PeoplePart(moves);
      if !moves[0].Relay? {
        assert part[1..] == PeoplePart(moves[1..]);
      } else {
        assert part == PeoplePart(moves[1..]);
      }
    }
  }

  // ----- what joins the parts

  /** Every document has its own row, of the type that asks for a parse. */
  ghost predicate HasRows(w: World) {
    && w.rowOf.Keys == w.people.documents.Keys
    && (forall document :: document in w.rowOf ==>
          && w.rowOf[document] in w.outbox.rows
          && w.outbox.rows[w.rowOf[document]].eventType == PARSE_REQUESTED)
    && (forall a, b :: a in w.rowOf && b in w.rowOf && a != b ==> w.rowOf[a] != w.rowOf[b])
  }

  /** A document is only worked on once its row was enqueued. */
  ghost predicate EnqueuedFirst(w: World)
    requires HasRows(w)
  {
    && (forall tx :: tx in w.people.txs && w.people.txs[tx].Parsing? ==>
          w.people.txs[tx].document in w.rowOf && w.rowOf[w.people.txs[tx].document] in w.outbox.jobs)
    && (forall document :: ResumeEvents.Handled(w.people, document) ==> w.rowOf[document] in w.outbox.jobs)
  }

  ghost predicate Joined(w: World) {
    HasRows(w) && EnqueuedFirst(w)
  }

  lemma RelayKeepsJoined(c: Outbox.Config, w: World, step: Outbox.Step)
    requires Outbox.ValidConfig(c) && OutboxSafety.Safe(c, w.outbox) && Joined(w) && Enabled(c, w, Relay(step))
    ensures Joined(Apply(c, w, Relay(step)))
  {
    OutboxSafety.StepKeepsJobs(c, w.outbox, step);
    OutboxSafety.StepKeepsRows(c, w.outbox, step);
  }

  lemma HandlerKeepsRows(c: Outbox.Config, w: World, step: Candidates.Step)
    requires Joined(w) && Enabled(c, w, Handle(step))
    ensures HasRows(Apply(c, w, Handle(step)))
  {
    assert Apply(c, w, Handle(step)).people.documents.Keys == w.people.documents.Keys;
  }

  lemma HandlerKeepsWork(c: Outbox.Config, w: World, step: Candidates.Step, tx: Candidates.TxId)
    requires Joined(w) && Enabled(c, w, Handle(step))
    requires var after := Apply(c, w, Handle(step)).people;
             tx in after.txs && after.txs[tx].Parsing?
    ensures var after := Apply(c, w, Handle(step)).people;
            after.txs[tx].document in w.rowOf && w.rowOf[after.txs[tx].document] in w.outbox.jobs
  {
  }

  lemma HandlerKeepsJoined(c: Outbox.Config, w: World, step: Candidates.Step)
    requires Candidates.Sound(w.people) && Joined(w) && Enabled(c, w, Handle(step))
    ensures Joined(Apply(c, w, Handle(step)))
  {
    var after := Apply(c, w, Handle(step));
    HandlerKeepsRows(c, w, step);
    forall tx | tx in after.people.txs && after.people.txs[tx].Parsing?
      ensures after.people.txs[tx].document in w.rowOf && w.rowOf[after.people.txs[tx].document] in w.outbox.jobs
    {
      HandlerKeepsWork(c, w, step, tx);
    }
    forall document | ResumeEvents.Handled(after.people, document) ensures w.rowOf[document] in w.outbox.jobs {
      if step.Record? && w.people.txs[step.tx].document == document {
        assert w.rowOf[w.people.txs[step.tx].document] in w.outbox.jobs;
      } else {
        ResumeEvents.OthersDoNotRecord(w.people, step, document);
      }
    }
  }

  /** What an intake changes: its own document and row, and one transaction less. */
  lemma IntakeAdds(c: Outbox.Config, w: World, settle: Candidates.Step, id: RowId)
    requires Enabled(c, w, Intake(settle, id))
    ensures var after := Apply(c, w, Intake(settle, id));
            && settle.document !in w.people.documents && id !in w.outbox.rows
            && after.outbox.jobs == w.outbox.jobs
            && after.outbox.rows == w.outbox.rows[id := after.outbox.rows[id]]
            && after.outbox.rows[id].eventType == PARSE_REQUESTED
            && after.people.documents == w.people.documents[settle.document := after.people.documents[settle.document]]
            && after.people.documents[settle.document].status == Candidates.Pending
            && after.people.txs == w.people.txs - {settle.tx}
  {
  }

  lemma IntakeKeepsJoined(c: Outbox.Config, w: World, settle: Candidates.Step, id: RowId)
    requires Joined(w) && Enabled(c, w, Intake(settle, id))
    ensures Joined(Apply(c, w, Intake(settle, id)))
  {
    var after := Apply(c, w, Intake(settle, id));
    IntakeAdds(c, w, settle, id);
    RowsAfterIntake(w, after, settle.document, id);
    forall document | ResumeEvents.Handled(after.people, document) ensures after.rowOf[document] in after.outbox.jobs {
      assert document != settle.document && ResumeEvents.Handled(w.people, document);
    }
  }

  lemma RowsAfterIntake(w: World, after: World, document: DocumentId, id: RowId)
    requires HasRows(w) && document !in w.people.documents && id !in w.outbox.rows
    requires after.rowOf == w.rowOf[document := id]
    requires after.people.documents.Keys == w.people.documents.Keys + {document}
    requires id in after.outbox.rows && after.outbox.rows == w.outbox.rows[id := after.outbox.rows[id]]
    requires after.outbox.rows[id].eventType == PARSE_REQUESTED
    ensures HasRows(after)
  {
  }

  lemma {:induction false} RunKeepsJoined(c: Outbox.Config, w: World, moves: seq<Move>)
    requires Outbox.ValidConfig(c) && OutboxSafety.Safe(c, w.outbox) && Candidates.Sound(w.people) && Joined(w)
    requires Runs(c, w, moves)
    ensures Joined(After(c, w, moves))
    decreases |moves|
  {
    if moves != [] {
      match moves[0]
      case Intake(settle, id) =>
        IntakeKeepsJoined(c, w, settle, id);
        OutboxSafety.StepKeepsSafe(c, w.outbox, Outbox.Write(id, PARSE_REQUESTED));
        Candidates.StepKeepsSound(w.people, settle);
        RunKeepsJoined(c, Apply(c, w, moves[0]), moves[1..]);
      case Handle(step) =>
        HandlerKeepsJoined(c, w, step);
        Candidates.StepKeepsSound(w.people, step);
        RunKeepsJoined(c, Apply(c, w, moves[0]), moves[1..]);
      case Relay(step) =>
        RelayKeepsJoined(c, w, step);
        OutboxSafety.StepKeepsSafe(c, w.outbox, step);
        RunKeepsJoined(c, Apply(c, w, moves[0]), moves[1..]);
    }
  }

  /** One job at most for the document's row, and none lost: enqueued, pending or FAILED. */
  ghost predicate Relayed(w: World, document: DocumentId)
    requires document in w.rowOf && w.rowOf[document] in w.outbox.rows
  {
    var id := w.rowOf[document];
    && multiset(w.outbox.jobs)[id] <= 1
    && (id in w.outbox.jobs || w.outbox.rows[id].status == Outbox.Pending || w.outbox.rows[id].status == Outbox.Failed)
  }

  /** Recorded once exactly when handled, which needs the row to have been enqueued. */
  ghost predicate RecordedAfterRelay(w: World, document: DocumentId)
    requires document in w.rowOf
  {
    && ResumeEvents.EventsOf(w.people, document) == (if ResumeEvents.Handled(w.people, document) then 1 else 0)
    && (ResumeEvents.Handled(w.people, document) ==> w.rowOf[document] in w.outbox.jobs)
  }

  lemma RunKeepsRelayed(c: Outbox.Config, moves: seq<Move>, document: DocumentId)
    requires Outbox.ValidConfig(c) && Runs(c, Nothing, moves)
    requires document in After(c, Nothing, moves).rowOf
    requires After(c, Nothing, moves).rowOf[document] in After(c, Nothing, moves).outbox.rows
    ensures Relayed(After(c, Nothing, moves), document)
  {
    var w := After(c, Nothing, moves);
    OutboxPartRuns(c, Nothing, moves);
    OutboxSafety.RunKeepsSafe(c, Outbox.Empty, OutboxPart(moves));
    assert OutboxSafety.RowSafe(c, w.outbox, w.rowOf[document]);
    OutboxSafety.DistinctCount(w.outbox.jobs, w.rowOf[document]);
  }

  lemma RunKeepsRecorded(c: Outbox.Config, moves: seq<Move>, document: DocumentId)
    requires Runs(c, Nothing, moves) && TakingTurns(c, Nothing, moves, document)
    requires document in After(c, Nothing, moves).rowOf && Joined(After(c, Nothing, moves))
    ensures RecordedAfterRelay(After(c, Nothing, moves), document)
  {
    PeoplePartRuns(c, Nothing, moves);
    TurnsAreTakenByPeople(c, Nothing, moves, document);
    ResumeEvents.RecordedExactlyOnce(PeoplePart(moves), document);
  }

  /**
   At-least-once delivery, exactly-once effect. Over every run of intakes, relays and handlers in
   which a document's deliveries take turns: the document is recorded at most once, and only
   after its row was enqueued; and until then nothing is lost, since the row is enqueued and can
   be delivered, or pending, or FAILED and can be replayed.
   */
  lemma EachResumeIsParsedOnce(c: Outbox.Config, moves: seq<Move>, document: DocumentId)
    requires Outbox.ValidConfig(c) && Runs(c, Nothing, moves) && TakingTurns(c, Nothing, moves, document)
    requires document in After(c, Nothing, moves).people.documents
    ensures var w := After(c, Nothing, moves);
            && document in w.rowOf && w.rowOf[document] in w.outbox.rows
            && Relayed(w, document) && RecordedAfterRelay(w, document)
  {
    RunKeepsJoined(c, Nothing, moves);
    RunKeepsRelayed(c, moves, document);
    RunKeepsRecorded(c, moves, document);
  }

  /** A document that is not handled yet can be delivered as soon as its row is enqueued. */
  lemma EnqueuedCanBeDelivered(c: Outbox.Config, w: World, document: DocumentId, tx: Candidates.TxId,
                               parsed: Candidates.Parsed)
    requires Joined(w) && document in w.people.documents && tx !in w.people.txs
    ensures Enabled(c, w, Handle(Candidates.Deliver(tx, document, parsed))) <==>
            w.rowOf[document] in w.outbox.jobs && !ResumeEvents.Handled(w.people, document)
  {
  }
}
