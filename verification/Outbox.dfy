/** Which queue an outbox event is relayed to. */
module Routing {
  import opened Wrappers

  datatype QueueName = ResumeParse | NotificationSend | Maintenance

  const EVENT_ROUTING: map<string, QueueName> := map[
    "resume.parse.requested" := ResumeParse,
    "application.received" := NotificationSend,
    "interview.scheduled" := NotificationSend,
    "application.rejected" := NotificationSend,
    "maintenance.requested" := Maintenance
  ]

  /** The event types the services write into the outbox. */
  const PRODUCED: set<string> :=
    {"resume.parse.requested", "application.received", "interview.scheduled", "application.rejected"}

  function QueueForEvent(eventType: string): (queue: Option<QueueName>) {
    if eventType in EVENT_ROUTING then Some(EVENT_ROUTING[eventType]) else None
  }

  predicate Routed(eventType: string) {
    QueueForEvent(eventType).Some?
  }

  /** Each event type goes to the queue of whoever handles it, and to no other. */
  lemma RoutedExactlyWhen(eventType: string, queue: QueueName)
    ensures QueueForEvent(eventType) == Some(queue) <==>
            match queue
            case ResumeParse => eventType == "resume.parse.requested"
            case NotificationSend =>
              || eventType == "application.received" || eventType == "interview.scheduled"
              || eventType == "application.rejected"
            case Maintenance => eventType == "maintenance.requested"
  {
    assert eventType in EVENT_ROUTING.Keys <==>
           eventType in {"resume.parse.requested", "application.received", "interview.scheduled",
                         "application.rejected", "maintenance.requested"};
  }

  lemma ProducedAreRouted(eventType: string)
    requires eventType in PRODUCED
    ensures Routed(eventType) && QueueForEvent(eventType) != Some(Maintenance)
  {
    assert eventType in EVENT_ROUTING;
  }
}

/**
 The transactional outbox as a protocol of interleaved steps.

 Any number of relays share the table and the queue. Between two steps of one relay every
 other participant may take any number of steps, so a relay that is slow acts on copies
 whose lease has long lapsed.
 */
module Outbox {
  import opened Wrappers
  import opened Routing

  const LEASE_MS: nat := 30_000
  const MAX_BACKOFF_MS: nat := 60_000

  type RowId = nat
  type RelayId = nat

  /** `queues` are those the container knows; looking up any other finds nothing or throws. */
  datatype Config = Config(batchSize: nat, maxAttempts: nat, queues: set<QueueName>)

  /** The environment schema admits positive integers only. */
  predicate ValidConfig(c: Config) {
    c.batchSize >= 1 && c.maxAttempts >= 1
  }

  /** An event type that is routed, to a queue that is there. */
  predicate HasQueue(c: Config, eventType: string) {
    Routed(eventType) && QueueForEvent(eventType).value in c.queues
  }

  datatype RowStatus = Pending | Dispatched | Failed

  datatype Row = Row(eventType: string, status: RowStatus, attempts: nat, availableAt: nat)

  /** Where a relay is with the event at the head of its batch. */
  datatype Phase = Ready | Added | Failing

  /** A leased event as one relay remembers it; `attempts` is the value at lease time. */
  datatype Copy = Copy(id: RowId, eventType: string, attempts: nat, leasedAt: nat, phase: Phase)

  /**
   `jobs` lists the job ids the queue ever accepted, in order. `failures` is history the
   program does not store: when failures were recorded for a row since it was last written
   or replayed.
   */
  datatype State = State(
    now: nat,
    rows: map<RowId, Row>,
    held: map<RelayId, seq<Copy>>,
    jobs: seq<RowId>,
    failures: map<RowId, seq<nat>>)

  /**
   `landed` and `applied` say whether a call that threw took effect all the same, as when
   the reply is lost. `Abandon` is a crash, or a database error outside the relay's try.
   */
  datatype Step =
    | Write(id: RowId, eventType: string)
    | Lease(relay: RelayId, batch: seq<RowId>)
    | FailUnrouted(relay: RelayId)
    | Add(relay: RelayId)
    | AddThrows(relay: RelayId, landed: bool)
    | MarkDispatched(relay: RelayId)
    | MarkThrows(relay: RelayId, applied: bool)
    | RecordFailure(relay: RelayId)
    | Abandon(relay: RelayId)
    | Advance(ms: nat)
    | Replay(id: RowId)
  {
    /** Steps by which a relay works on the event at the head of its batch. */
    predicate ActsOnHead() {
      FailUnrouted? || Add? || AddThrows? || MarkDispatched? || MarkThrows? || RecordFailure?
    }
  }

  const Empty: State := State(0, map[], map[], [], map[])

  function Pow2(n: nat): (p: nat)
    ensures p >= 1
  {
    if n == 0 then 1 else 2 * Pow2(n - 1)
  }

  function Backoff(attempts: nat): (ms: nat)
    ensures 1000 <= ms <= MAX_BACKOFF_MS
  {
    var ms := Pow2(attempts) * 1000;
    if ms < MAX_BACKOFF_MS then ms else MAX_BACKOFF_MS
  }

  lemma {:induction false} Pow2Grows(n: nat)
    requires n >= 6
    ensures Pow2(n) >= 64
  {
    if n == 6 {
      assert Pow2(4) == 16;
    } else {
      Pow2Grows(n - 1);
    }
  }

  /** Two seconds after the first failure, then four, eight, sixteen and thirty-two; from the sixth on a minute. */
  lemma BackoffIs(attempts: nat)
    requires attempts >= 1
    ensures Backoff(attempts) == if attempts <= 5 then [2_000, 4_000, 8_000, 16_000, 32_000][attempts - 1] else 60_000
  {
    assert Pow2(2) == 4;
    assert Pow2(4) == 16;
    if attempts >= 6 {
      Pow2Grows(attempts);
    }
  }

  function Batch(s: State, relay: RelayId): seq<Copy> {
    if relay in s.held then s.held[relay] else []
  }

  predicate Due(s: State, id: RowId) {
    id in s.rows && s.rows[id].status == Pending && s.rows[id].availableAt <= s.now
  }

  /**
   What the leasing query may return: due rows, oldest availability first with ties in any
   order, cut off at the batch size. The order within the batch is unspecified.
   */
  ghost predicate LeaseChoice(c: Config, s: State, batch: seq<RowId>) {
    && |batch| <= c.batchSize
    && (forall i, j :: 0 <= i < j < |batch| ==> batch[i] != batch[j])
    && (forall id :: id in batch ==> Due(s, id))
    && (forall id :: Due(s, id) && id !in batch ==>
          |batch| == c.batchSize
          && forall taken :: taken in batch ==> s.rows[taken].availableAt <= s.rows[id].availableAt)
  }

  ghost predicate Enabled(c: Config, s: State, step: Step) {
    match step
    case Write(id, _) => id !in s.rows
    case Lease(relay, batch) => Batch(s, relay) == [] && LeaseChoice(c, s, batch)
    case Abandon(_) => true
    case Advance(_) => true
    case Replay(id) => id in s.rows && s.rows[id].status == Failed
    case _ =>
      && Batch(s, step.relay) != []
      && var head := Batch(s, step.relay)[0];
      && head.id in s.rows
      && head.id in s.failures
      && match step
         case FailUnrouted(_) => head.phase == Ready && !HasQueue(c, head.eventType)
         case Add(_) => head.phase == Ready && HasQueue(c, head.eventType)
         case AddThrows(_, _) => head.phase == Ready && HasQueue(c, head.eventType)
         case MarkDispatched(_) => head.phase == Added
         case MarkThrows(_, _) => head.phase == Added
         case _ => head.phase == Failing
  }

  /** The queue ignores a job whose id it has already seen. */
  function Enqueue(jobs: seq<RowId>, id: RowId): seq<RowId> {
    if id in jobs then jobs else jobs + [id]
  }

  function WithPhase(batch: seq<Copy>, phase: Phase): seq<Copy>
    requires batch != []
  {
    batch[0 := batch[0].(phase := phase)]
  }

  function AfterFailure(c: Config, now: nat, copy: Copy, row: Row): Row {
    var attempts := copy.attempts + 1;
    if attempts >= c.maxAttempts then row.(status := Failed, attempts := attempts)
    else row.(attempts := attempts, availableAt := now + Backoff(attempts))
  }

  function Apply(c: Config, s: State, step: Step): State
    requires Enabled(c, s, step)
  {
    match step
    case Write(id, eventType) =>
      s.(rows := s.rows[id := Row(eventType, Pending, 0, s.now)],
         failures := s.failures[id := []])
    case Lease(relay, batch) =>
      s.(rows := map id | id in s.rows ::
           if id in batch then s.rows[id].(availableAt := s.now + LEASE_MS) else s.rows[id],
         held := s.held[relay := seq(|batch|, i requires 0 <= i < |batch| =>
           Copy(batch[i], s.rows[batch[i]].eventType, s.rows[batch[i]].attempts, s.now, Ready))])
    case FailUnrouted(relay) =>
      var batch := Batch(s, relay);
      var id := batch[0].id;
      s.(rows := s.rows[id := s.rows[id].(status := Failed)], held := s.held[relay := batch[1..]])
    case Add(relay) =>
      var batch := Batch(s, relay);
      s.(jobs := Enqueue(s.jobs, batch[0].id), held := s.held[relay := WithPhase(batch, Added)])
    case AddThrows(relay, landed) =>
      var batch := Batch(s, relay);
      s.(jobs := if landed then Enqueue(s.jobs, batch[0].id) else s.jobs,
         held := s.held[relay := WithPhase(batch, Failing)])
    case MarkDispatched(relay) =>
      var batch := Batch(s, relay);
      var id := batch[0].id;
      s.(rows := s.rows[id := s.rows[id].(status := Dispatched)], held := s.held[relay := batch[1..]])
    case MarkThrows(relay, applied) =>
      var batch := Batch(s, relay);
      var id := batch[0].id;
      s.(rows := if applied then s.rows[id := s.rows[id].(status := Dispatched)] else s.rows,
         held := s.held[relay := WithPhase(batch, Failing)])
    case RecordFailure(relay) =>
      var batch := Batch(s, relay);
      var id := batch[0].id;
      s.(rows := s.rows[id := AfterFailure(c, s.now, batch[0], s.rows[id])],
         held := s.held[relay := batch[1..]],
         failures := s.failures[id := s.failures[id] + [s.now]])
    case Abandon(relay) => s.(held := s.held[relay := []])
    case Advance(ms) => s.(now := s.now + ms)
    case Replay(id) =>
      s.(rows := s.rows[id := s.rows[id].(status := Pending, attempts := 0, availableAt := s.now)],
         failures := s.failures[id := []])
  }

  /** A trace is a list of steps each enabled where it is taken. */
  ghost predicate Runs(c: Config, s: State, trace: seq<Step>)
    decreases |trace|
  {
    trace == [] || (Enabled(c, s, trace[0]) && Runs(c, Apply(c, s, trace[0]), trace[1..]))
  }

  ghost function After(c: Config, s: State, trace: seq<Step>): State
    requires Runs(c, s, trace)
    decreases |trace|
  {
    if trace == [] then s else After(c, Apply(c, s, trace[0]), trace[1..])
  }

  /** Taking one more step at the end of a run. */
  lemma {:induction false} RunsSnoc(c: Config, s: State, trace: seq<Step>, step: Step)
    requires Runs(c, s, trace) && Enabled(c, After(c, s, trace), step)
    ensures Runs(c, s, trace + [step])
    ensures After(c, s, trace + [step]) == Apply(c, After(c, s, trace), step)
    decreases |trace|
  {
    if trace == [] {
      assert (trace + [step])[1..] == [];
    } else {
      assert (trace + [step])[1..] == trace[1..] + [step];
      RunsSnoc(c, Apply(c, s, trace[0]), trace[1..], step);
    }
  }
}
