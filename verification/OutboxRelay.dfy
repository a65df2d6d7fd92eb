/**
 The relay service, statement by statement, against the protocol: between any two awaits the
 other participants may take any number of steps, and any call may throw.
 */
module OutboxRelay {
  import opened Wrappers
  import opened Routing
  import opened Outbox
  import opened OutboxSafety
  import opened OutboxProgress

  /** The steps a relay takes itself. */
  predicate By(step: Step, relay: RelayId) {
    !step.Write? && !step.Advance? && !step.Replay? && step.relay == relay
  }

  /** What one relay did over a trace: leases taken, rows leased, and how each ended. */
  datatype Tally = Tally(leases: nat, leased: nat, dispatched: nat, failed: nat, unrouted: nat) {
    function Settled(): nat { dispatched + failed + unrouted }
  }

  ghost function TallyOf(trace: seq<Step>, relay: RelayId): Tally {
    if trace == [] then Tally(0, 0, 0, 0, 0)
    else
      var before := TallyOf(trace[..|trace| - 1], relay);
      var step := trace[|trace| - 1];
      if !By(step, relay) then before
      else match step
           case Lease(_, batch) => before.(leases := before.leases + 1, leased := before.leased + |batch|)
           case MarkDispatched(_) => before.(dispatched := before.dispatched + 1)
           case RecordFailure(_) => before.(failed := before.failed + 1)
           case FailUnrouted(_) => before.(unrouted := before.unrouted + 1)
           case _ => before
  }

  lemma {:induction false} OthersDoNotTally(trace: seq<Step>, more: seq<Step>, relay: RelayId)
    requires forall step :: step in more ==> !By(step, relay)
    ensures TallyOf(trace + more, relay) == TallyOf(trace, relay)
  {
    if more == [] {
      assert trace + more == trace;
    } else {
      var last := |more| - 1;
      assert (trace + more)[..|trace + more| - 1] == trace + more[..last];
      assert (trace + more)[|trace + more| - 1] == more[last];
      OthersDoNotTally(trace, more[..last], relay);
    }
  }

  lemma TallySnoc(trace: seq<Step>, step: Step, relay: RelayId)
    ensures (trace + [step])[..|trace|] == trace && (trace + [step])[|trace|] == step
  {
  }

  lemma {:induction false} LeasesSnoc(trace: seq<Step>, step: Step)
    ensures Leases(trace + [step]) == Leases(trace) + if step.Lease? then 1 else 0
  {
    if trace == [] {
      assert (trace + [step])[1..] == [];
    } else {
      assert (trace + [step])[1..] == trace[1..] + [step];
      LeasesSnoc(trace[1..], step);
    }
  }

  /** A run has at least the leases that one relay takes in it. */
  lemma {:induction false} OwnLeases(trace: seq<Step>, more: seq<Step>, relay: RelayId)
    ensures TallyOf(trace + more, relay).leases <= TallyOf(trace, relay).leases + Leases(more)
  {
    if more == [] {
      assert trace + more == trace;
    } else {
      var last := |more| - 1;
      OwnLeases(trace, more[..last], relay);
      LeasesSnoc(more[..last], more[last]);
      assert more == more[..last] + [more[last]];
      assert (trace + more)[..|trace + more| - 1] == trace + more[..last];
      assert (trace + more)[|trace + more| - 1] == more[last];
    }
  }

  /** Nobody else changes what a relay holds. */
  lemma {:induction false} OthersKeepBatch(c: Config, s: State, more: seq<Step>, relay: RelayId)
    requires Runs(c, s, more) && forall step :: step in more ==> !By(step, relay)
    ensures Batch(After(c, s, more), relay) == Batch(s, relay)
    decreases |more|
  {
    if more != [] {
      assert more[0] in more;
      assert Batch(Apply(c, s, more[0]), relay) == Batch(s, relay);
      OthersKeepBatch(c, Apply(c, s, more[0]), more[1..], relay);
    }
  }

  lemma {:induction false} RunsSplit(c: Config, s: State, trace: seq<Step>, more: seq<Step>)
    requires Runs(c, s, trace) && Runs(c, s, trace + more)
    ensures Runs(c, After(c, s, trace), more)
    ensures After(c, s, trace + more) == After(c, After(c, s, trace), more)
    decreases |trace|
  {
    if trace == [] {
      assert trace + more == more;
    } else {
      assert (trace + more)[1..] == trace[1..] + more;
      RunsSplit(c, Apply(c, s, trace[0]), trace[1..], more);
    }
  }

  /** The leasing query: oldest due row first, at most a batch. */
  method SelectDue(c: Config, s: State) returns (batch: seq<RowId>)
    ensures LeaseChoice(c, s, batch)
  {
    batch := [];
    var waiting := set id | id in s.rows && s.rows[id].status == Pending && s.rows[id].availableAt <= s.now;
    while waiting != {} && |batch| < c.batchSize
      invariant |batch| <= c.batchSize
      invariant forall i, j :: 0 <= i < j < |batch| ==> batch[i] != batch[j]
      invariant forall id :: Due(s, id) <==> id in batch || id in waiting
      invariant forall id :: id in batch ==> id !in waiting
      invariant forall id, taken :: id in waiting && taken in batch ==>
                  s.rows[taken].availableAt <= s.rows[id].availableAt
      decreases waiting
    {
      var oldest := Oldest(s, waiting);
      batch := batch + [oldest];
      waiting := waiting - {oldest};
    }
  }

  method Oldest(s: State, waiting: set<RowId>) returns (oldest: RowId)
    requires waiting != {} && waiting <= s.rows.Keys
    ensures oldest in waiting
    ensures forall id :: id in waiting ==> s.rows[oldest].availableAt <= s.rows[id].availableAt
  {
    oldest :| oldest in waiting;
    var rest := waiting - {oldest};
    while rest != {}
      invariant rest <= waiting && oldest in waiting
      invariant forall id :: id in waiting - rest ==> s.rows[oldest].availableAt <= s.rows[id].availableAt
      decreases rest
    {
      var id :| id in rest;
      if s.rows[id].availableAt < s.rows[oldest].availableAt {
        oldest := id;
      }
      rest := rest - {id};
    }
  }

  /** The table and the queue, with everything that has happened to them so far. */
  class World {
    const c: Config
    var s: State
    ghost var trace: seq<Step>
    /** How many calls have thrown, and how many leasing queries among them took no effect. */
    ghost var throws: nat
    ghost var unleased: nat

    ghost predicate Valid()
      reads this
    {
      ValidConfig(c) && Runs(c, Empty, trace) && s == After(c, Empty, trace)
    }

    constructor (c: Config)
      requires ValidConfig(c)
      ensures Valid() && this.c == c && trace == [] && throws == 0 && unleased == 0
    {
      this.c := c;
      s := Empty;
      trace := [];
      throws, unleased := 0, 0;
    }

    /** Any call may throw. */
    method Throws() returns (threw: bool)
      requires Valid()
      modifies this`throws
      ensures Valid() && throws == old(throws) + if threw then 1 else 0
    {
      threw := *;
      if threw {
        throws := throws + 1;
      }
    }

    /** The container finds the queues it knows; a lookup of any other comes back empty or throws. */
    method Lookup(name: QueueName) returns (queue: Result<Option<QueueName>, ()>)
      requires Valid()
      modifies this`throws
      ensures Valid() && throws == old(throws) + if queue.Err? then 1 else 0
      ensures queue == if name in c.queues then Ok(Some(name)) else if queue.Ok? then Ok(None) else Err(())
    {
      if name in c.queues {
        return Ok(Some(name));
      }
      var threw := Throws();
      queue := if threw then Err(()) else Ok(None);
    }

    method Perform(step: Step)
      requires Valid() && Enabled(c, s, step)
      modifies this`s, this`trace
      ensures Valid() && s == Apply(c, old(s), step) && trace == old(trace) + [step]
      ensures forall relay :: !By(step, relay) ==> TallyOf(trace, relay) == TallyOf(old(trace), relay)
    {
      RunsSnoc(c, Empty, trace, step);
      s := Apply(c, s, step);
      trace := trace + [step];
    }

    /** Whatever the other relays, the services and the clock do meanwhile. */
    method Others(relay: RelayId)
      requires Valid()
      modifies this`s, this`trace
      ensures Valid() && old(trace) <= trace
      ensures forall step :: step in trace[|old(trace)|..] ==> !By(step, relay)
      ensures Batch(s, relay) == Batch(old(s), relay)
      ensures TallyOf(trace, relay) == TallyOf(old(trace), relay)
    {
      // Left to the environment; whatever it adds, these two facts follow from the rest.
      assert trace == old(trace) + trace[|old(trace)|..];
      RunsSplit(c, Empty, old(trace), trace[|old(trace)|..]);
      OthersKeepBatch(c, old(s), trace[|old(trace)|..], relay);
      OthersDoNotTally(old(trace), trace[|old(trace)|..], relay);
    }

    ghost predicate AtHead(relay: RelayId, phase: Phase)
      reads this
    {
      Batch(s, relay) != [] && Batch(s, relay)[0].phase == phase
    }

    /** The query may fail to arrive, and its answer may fail to come back. */
    method LeaseDue(relay: RelayId) returns (leased: Result<seq<Copy>, ()>)
      requires Valid() && Batch(s, relay) == []
      modifies this
      ensures Valid() && old(trace) <= trace && throws == old(throws) + if leased.Err? then 1 else 0
      ensures var before, after := TallyOf(old(trace), relay), TallyOf(trace, relay);
              && before.dispatched == after.dispatched && before.failed == after.failed
              && before.unrouted == after.unrouted
              && after.leases + unleased == before.leases + old(unleased) + 1
              && (leased.Ok? ==> unleased == old(unleased) && after.leased == before.leased + |leased.value|)
      ensures leased.Ok? ==>
                Batch(s, relay) == leased.value && forall copy :: copy in leased.value ==> copy.phase == Ready
      ensures leased.Err? ==> Batch(s, relay) == []
      ensures old(unleased) <= unleased <= old(unleased) + 1
    {
      var unreachable := Throws();
      if unreachable {
        unleased := unleased + 1;
        return Err(());
      }
      var batch := SelectDue(c, s);
      TallySnoc(trace, Lease(relay, batch), relay);
      Perform(Lease(relay, batch));
      var lostReply := Throws();
      if lostReply {
        GiveUp(relay);
        return Err(());
      }
      leased := Ok(Batch(s, relay));
    }

    method QueueAdd(relay: RelayId) returns (threw: bool)
      requires Valid() && AtHead(relay, Ready) && HasQueue(c, Batch(s, relay)[0].eventType)
      modifies this`s, this`trace, this`throws
      ensures throws == old(throws) + if threw then 1 else 0
      ensures Valid() && old(trace) <= trace && TallyOf(trace, relay) == TallyOf(old(trace), relay)
      ensures Batch(s, relay) == WithPhase(old(Batch(s, relay)), if threw then Failing else Added)
      ensures !threw ==> old(Batch(s, relay))[0].id in s.jobs
    {
      HeadIsThere(c, trace, relay);
      threw := Throws();
      if threw {
        var landed: bool := *;
        TallySnoc(trace, AddThrows(relay, landed), relay);
        Perform(AddThrows(relay, landed));
      } else {
        TallySnoc(trace, Add(relay), relay);
        Perform(Add(relay));
      }
    }

    method UpdateDispatched(relay: RelayId) returns (threw: bool)
      requires Valid() && AtHead(relay, Added)
      modifies this`s, this`trace, this`throws
      ensures throws == old(throws) + if threw then 1 else 0
      ensures Valid() && old(trace) <= trace
      ensures threw ==>
                && TallyOf(trace, relay) == TallyOf(old(trace), relay)
                && Batch(s, relay) == WithPhase(old(Batch(s, relay)), Failing)
      ensures !threw ==>
                && TallyOf(trace, relay)
                   == TallyOf(old(trace), relay).(dispatched := TallyOf(old(trace), relay).dispatched + 1)
                && Batch(s, relay) == old(Batch(s, relay))[1..]
                && var id := old(Batch(s, relay))[0].id;
                && id in old(s.rows) && s.rows == old(s.rows)[id := old(s.rows)[id].(status := Dispatched)]
                && id in s.jobs
    {
      HeadIsThere(c, trace, relay);
      threw := Throws();
      if threw {
        var applied: bool := *;
        TallySnoc(trace, MarkThrows(relay, applied), relay);
        Perform(MarkThrows(relay, applied));
      } else {
        TallySnoc(trace, MarkDispatched(relay), relay);
        ghost var id := Batch(s, relay)[0].id;
        Perform(MarkDispatched(relay));
        DispatchedHasJob(c, trace, id);
      }
    }

    method GiveUp(relay: RelayId)
      requires Valid()
      modifies this`s, this`trace
      ensures Valid() && old(trace) <= trace && Batch(s, relay) == []
      ensures TallyOf(trace, relay) == TallyOf(old(trace), relay)
      ensures s == old(s).(held := old(s.held)[relay := []])
    {
      TallySnoc(trace, Abandon(relay), relay);
      Perform(Abandon(relay));
    }
  }

  /** The producers' half: one row, due at once, under a generated id. */
  class OutboxService {
    const world: World

    constructor (world: World)
      ensures this.world == world
    {
      this.world := world;
    }

    method Write(id: RowId, eventType: string)
      requires world.Valid() && id !in world.s.rows
      modifies world
      ensures world.Valid() && old(world.trace) <= world.trace
      ensures world.s.rows == old(world.s.rows)[id := Row(eventType, Pending, 0, world.s.now)]
      ensures world.s.now == old(world.s.now) && world.s.jobs == old(world.s.jobs) && world.s.held == old(world.s.held)
    {
      world.Perform(Step.Write(id, eventType));
    }
  }

  datatype Ending = Delivered | NotDelivered | Threw

  /** How a row ends, by how many of the calls made for it threw: only one is ever caught. */
  function EndingOf(hasQueue: bool, threw: int): Ending {
    if threw == 0 then (if hasQueue then Delivered else NotDelivered)
    else if threw == 1 && hasQueue then NotDelivered
    else Threw
  }

  function Ended(before: Tally, hasQueue: bool, ending: Ending): Tally {
    match ending
    case Delivered => before.(dispatched := before.dispatched + 1)
    case NotDelivered =>
      if hasQueue then before.(failed := before.failed + 1) else before.(unrouted := before.unrouted + 1)
    case Threw => before
  }

  /** Everything that threw was caught, and recorded as the failure of a row. */
  predicate Caught(before: Tally, after: Tally, throws: nat, throws': nat) {
    throws' - throws == after.failed - before.failed
  }

  class OutboxRelayService {
    const id: RelayId
    const world: World
    var running: bool
    var stopped: bool
    /** Queue instances, resolved on first use. */
    var queues: set<QueueName>

    ghost predicate Valid()
      reads this, world
    {
      world.Valid() && queues <= world.c.queues && (!running ==> Batch(world.s, id) == [])
    }

    ghost function Done(): Tally
      reads world
    {
      TallyOf(world.trace, id)
    }

    constructor (id: RelayId, world: World)
      requires world.Valid() && Batch(world.s, id) == []
      ensures Valid() && this.id == id && this.world == world && !running && !stopped
    {
      this.id := id;
      this.world := world;
      running, stopped, queues := false, false, {};
    }

    method OnModuleDestroy()
      modifies this`stopped
      ensures stopped
    {
      stopped := true;
    }

    /**
     One cycle. While a cycle is running, and once stopped, it does nothing at all; otherwise it
     takes one lease, unless the query fails to arrive, and reports what it dispatched, or nothing
     when something it called threw that the cycle does not catch.
     */
    method Tick() returns (dispatched: nat)
      requires Valid()
      modifies this, world
      ensures world.Valid() && old(world.trace) <= world.trace && Safe(world.c, world.s)
      ensures running == old(running) && stopped == old(stopped)
      ensures old(running || stopped) ==> dispatched == 0 && world.trace == old(world.trace)
      ensures Valid()
      ensures !old(running || stopped) ==>
                Done().leases + world.unleased == old(Done()).leases + old(world.unleased) + 1
      ensures old(world.unleased) <= world.unleased <= old(world.unleased) + 1
      ensures dispatched == if Caught(old(Done()), Done(), old(world.throws), world.throws)
                            then Done().dispatched - old(Done()).dispatched else 0
    {
      RunKeepsSafe(world.c, Empty, world.trace);
      if running || stopped {
        return 0;
      }
      running := true;
      var outcome := DrainBatch();
      dispatched := if outcome.Ok? then outcome.value else 0;
      running := false;
      RunKeepsSafe(world.c, Empty, world.trace);
    }

    /**
     The timer: cycle after cycle. No row starves: one that is overdue is leased or changed once
     the rows ahead of it fill no more batches than the ticks whose query arrived.
     */
    method Poll(ticks: nat)
      requires Valid() && !running && !stopped
      modifies this, world
      ensures Valid() && old(world.trace) <= world.trace && !running && !stopped
      ensures old(world.unleased) <= world.unleased <= old(world.unleased) + ticks
      ensures Runs(world.c, old(world.s), world.trace[|old(world.trace)|..])
      ensures forall row ::
                Overdue(old(world.s), row)
                && Rank(old(world.s), row) <= (ticks - (world.unleased - old(world.unleased))) * world.c.batchSize ==>
                  TouchedWithin(world.c, old(world.s), world.trace[|old(world.trace)|..], row)
    {
      for i := 0 to ticks
        invariant Valid() && old(world.trace) <= world.trace && !running && !stopped
        invariant old(world.unleased) <= world.unleased <= old(world.unleased) + i
        invariant Done().leases + world.unleased == old(Done()).leases + old(world.unleased) + i
      {
        var dispatched := Tick();
      }
      ghost var before, more := old(world.trace), world.trace[|old(world.trace)|..];
      assert world.trace == before + more;
      RunsSplit(world.c, Empty, before, more);
      OwnLeases(before, more, id);
      RunKeepsSafe(world.c, Empty, before);
      var taken := ticks - (world.unleased - old(world.unleased));
      forall row | Overdue(old(world.s), row) && Rank(old(world.s), row) <= taken * world.c.batchSize
        ensures TouchedWithin(world.c, old(world.s), more, row)
      {
        Monotone(taken, Leases(more), world.c.batchSize);
        ReachedWithinRank(world.c, old(world.s), more, row);
      }
    }

    /**
     A cycle takes one lease. It returns exactly when all that threw was caught, has then settled
     every row it leased exactly once, and reports how many it dispatched. One that throws leaves
     its remaining rows to their leases.
     */
    method DrainBatch() returns (outcome: Result<nat, ()>)
      requires world.Valid() && Batch(world.s, id) == [] && queues <= world.c.queues
      modifies this`queues, world
      ensures queues <= world.c.queues
      ensures world.Valid() && old(world.trace) <= world.trace && Batch(world.s, id) == []
      ensures Done().leases + world.unleased == old(Done()).leases + old(world.unleased) + 1
      ensures old(world.unleased) <= world.unleased <= old(world.unleased) + 1
      ensures outcome.Ok? <==> Caught(old(Done()), Done(), old(world.throws), world.throws)
      ensures outcome.Ok? ==>
                && world.unleased == old(world.unleased)
                && Done().dispatched == old(Done()).dispatched + outcome.value
                && Done().Settled() - old(Done()).Settled() == Done().leased - old(Done()).leased
      ensures Done().dispatched >= old(Done()).dispatched
    {
      world.Others(id);
      var lease := world.LeaseDue(id);
      if lease.Err? {
        return Err(());
      }
      outcome := RelayAll(lease.value);
    }

    /** Every leased row in turn, until one throws. */
    method RelayAll(leased: seq<Copy>) returns (outcome: Result<nat, ()>)
      requires world.Valid() && Batch(world.s, id) == leased && queues <= world.c.queues
      requires forall copy :: copy in leased ==> copy.phase == Ready
      modifies this`queues, world
      ensures queues <= world.c.queues
      ensures world.Valid() && old(world.trace) <= world.trace && Batch(world.s, id) == []
      ensures Done().leases == old(Done()).leases && Done().leased == old(Done()).leased
      ensures world.unleased == old(world.unleased)
      ensures outcome.Ok? <==> Caught(old(Done()), Done(), old(world.throws), world.throws)
      ensures outcome.Ok? ==>
                && Done().dispatched == old(Done()).dispatched + outcome.value
                && Done().Settled() == old(Done()).Settled() + |leased|
      ensures Done().dispatched >= old(Done()).dispatched
    {
      var dispatched := 0;
      for i := 0 to |leased|
        invariant world.Valid() && old(world.trace) <= world.trace && queues <= world.c.queues
        invariant Batch(world.s, id) == leased[i..]
        invariant Done().leases == old(Done()).leases && Done().leased == old(Done()).leased
        invariant world.unleased == old(world.unleased)
        invariant Done().dispatched == old(Done()).dispatched + dispatched
        invariant Done().Settled() == old(Done()).Settled() + i
        invariant world.throws - old(world.throws) == Done().failed - old(Done()).failed
      {
        world.Others(id);
        var ending := Relay(leased[i]);
        if ending == Threw {
          return Err(());
        }
        if ending == Delivered {
          dispatched := dispatched + 1;
        }
      }
      outcome := Ok(dispatched);
    }

    /** The loop body: route, enqueue and mark, or record why not. */
    method Relay(event: Copy) returns (ending: Ending)
      requires world.Valid() && Batch(world.s, id) != [] && Batch(world.s, id)[0] == event && event.phase == Ready
      requires queues <= world.c.queues
      modifies this`queues, world
      ensures queues <= world.c.queues
      ensures world.Valid() && old(world.trace) <= world.trace
      ensures Batch(world.s, id) == if ending == Threw then [] else old(Batch(world.s, id))[1..]
      ensures ending == EndingOf(HasQueue(world.c, event.eventType), world.throws - old(world.throws))
      ensures Done() == Ended(old(Done()), HasQueue(world.c, event.eventType), ending)
      ensures world.unleased == old(world.unleased)
      ensures ending == Delivered ==>
                && event.id in world.s.rows && world.s.rows[event.id].status == Dispatched
                && event.id in world.s.jobs
    {
      var queue := QueueFor(QueueForEvent(event.eventType));
      if queue.Err? {
        world.GiveUp(id);
        return Threw;
      }
      if queue.value.None? {
        var failed := MarkFailed(event);
        return if failed then Threw else NotDelivered;
      }
      ending := Enqueue(event);
    }

    /** One try around both calls: whichever throws, a failure is recorded. */
    method Enqueue(event: Copy) returns (ending: Ending)
      requires world.Valid() && world.AtHead(id, Ready) && Batch(world.s, id)[0] == event
      requires HasQueue(world.c, event.eventType)
      modifies world
      ensures world.Valid() && old(world.trace) <= world.trace
      ensures Batch(world.s, id) == if ending == Threw then [] else old(Batch(world.s, id))[1..]
      ensures ending == EndingOf(true, world.throws - old(world.throws))
      ensures Done() == Ended(old(Done()), true, ending)
      ensures world.unleased == old(world.unleased)
      ensures ending == Delivered ==>
                && event.id in world.s.rows && world.s.rows[event.id].status == Dispatched
                && event.id in world.s.jobs
    {
      var threw := world.QueueAdd(id);
      world.Others(id);
      if !threw {
        threw := world.UpdateDispatched(id);
        if !threw {
          return Delivered;
        }
        world.Others(id);
      }
      var failed := RecordFailure(event);
      ending := if failed then Threw else NotDelivered;
    }

    /**
     Exactly the queues the container knows are found, and remembered. Looking up any other may
     come back empty or throw, and nothing catches what it throws.
     */
    method QueueFor(name: Option<QueueName>) returns (queue: Result<Option<QueueName>, ()>)
      requires world.Valid() && queues <= world.c.queues
      modifies this`queues, world`throws
      ensures world.Valid() && queues <= world.c.queues
      ensures queue.Ok? && queue.value.Some? <==> name.Some? && name.value in world.c.queues
      ensures queue.Ok? && queue.value.Some? ==> queue.value == name && queues == old(queues) + {name.value}
      ensures queue.Err? ==> name.Some?
      ensures world.throws == old(world.throws) + if queue.Err? then 1 else 0
    {
      if name.None? {
        return Ok(None);
      }
      if name.value in queues {
        return Ok(name);
      }
      queue := world.Lookup(name.value);
      if queue.Ok? && queue.value.Some? {
        queues := queues + {name.value};
      }
    }

    /** An event without a queue fails at once, with its attempts untouched. */
    method MarkFailed(event: Copy) returns (threw: bool)
      requires world.Valid() && world.AtHead(id, Ready) && Batch(world.s, id)[0] == event
      requires !HasQueue(world.c, event.eventType)
      modifies world`s, world`trace, world`throws
      ensures world.throws == old(world.throws) + if threw then 1 else 0
      ensures world.Valid() && old(world.trace) <= world.trace
      ensures threw ==> Batch(world.s, id) == [] && Done() == old(Done())
      ensures !threw ==>
                && Batch(world.s, id) == old(Batch(world.s, id))[1..]
                && Done() == old(Done()).(unrouted := old(Done()).unrouted + 1)
                && event.id in old(world.s.rows)
                && world.s.rows == old(world.s.rows)[event.id := old(world.s.rows)[event.id].(status := Failed)]
    {
      HeadIsThere(world.c, world.trace, id);
      threw := world.Throws();
      if threw {
        world.GiveUp(id);
      } else {
        TallySnoc(world.trace, FailUnrouted(id), id);
        world.Perform(FailUnrouted(id));
      }
    }

    /** One more attempt than the leased copy knew of; FAILED at the ceiling, else backed off. */
    method RecordFailure(event: Copy) returns (threw: bool)
      requires world.Valid() && world.AtHead(id, Failing)
      requires Batch(world.s, id)[0].id == event.id && Batch(world.s, id)[0].attempts == event.attempts
      modifies world`s, world`trace, world`throws
      ensures world.throws == old(world.throws) + if threw then 1 else 0
      ensures world.Valid() && old(world.trace) <= world.trace
      ensures threw ==> Batch(world.s, id) == [] && Done() == old(Done())
      ensures !threw ==>
                && Batch(world.s, id) == old(Batch(world.s, id))[1..]
                && Done() == old(Done()).(failed := old(Done()).failed + 1)
                && event.id in old(world.s.rows)
                && var row, attempts := old(world.s.rows)[event.id], event.attempts + 1;
                world.s.rows == old(world.s.rows)[event.id :=
                  if attempts >= world.c.maxAttempts then Row(row.eventType, Failed, attempts, row.availableAt)
                  else Row(row.eventType, row.status, attempts, world.s.now + Backoff(attempts))]
    {
      HeadIsThere(world.c, world.trace, id);
      threw := world.Throws();
      if threw {
        world.GiveUp(id);
      } else {
        TallySnoc(world.trace, Step.RecordFailure(id), id);
        world.Perform(Step.RecordFailure(id));
      }
    }

    /** Only a FAILED row is replayed, and the answer says whether it was. */
    method Replay(eventId: RowId) returns (replayed: bool)
      requires Valid()
      modifies world`s, world`trace
      ensures Valid() && old(world.trace) <= world.trace && Done() == old(Done())
      ensures replayed <==> eventId in old(world.s.rows) && old(world.s.rows[eventId].status) == Failed
      ensures !replayed ==> world.s == old(world.s)
      ensures replayed ==>
                && world.s.now == old(world.s.now) && world.s.jobs == old(world.s.jobs)
                && world.s.rows == old(world.s.rows)[eventId :=
                     Row(old(world.s.rows)[eventId].eventType, Pending, 0, world.s.now)]
    {
      replayed := eventId in world.s.rows && world.s.rows[eventId].status == Failed;
      if replayed {
        world.Perform(Step.Replay(eventId));
      }
    }
  }

  lemma Monotone(few: int, many: int, size: nat)
    requires few <= many
    ensures few * size <= many * size
  {
  }

  lemma DispatchedHasJob(c: Config, trace: seq<Step>, id: RowId)
    requires ValidConfig(c) && Runs(c, Empty, trace)
    requires id in After(c, Empty, trace).rows && After(c, Empty, trace).rows[id].status == Dispatched
    ensures id in After(c, Empty, trace).jobs
  {
    RunKeepsSafe(c, Empty, trace);
    assert RowSafe(c, After(c, Empty, trace), id);
  }

  /** In a reachable state the head of a batch still has its row. */
  lemma HeadIsThere(c: Config, trace: seq<Step>, relay: RelayId)
    requires ValidConfig(c) && Runs(c, Empty, trace)
    ensures var s := After(c, Empty, trace);
            Batch(s, relay) != [] ==> Batch(s, relay)[0].id in s.rows && Batch(s, relay)[0].id in s.failures
  {
    RunKeepsSafe(c, Empty, trace);
    var s := After(c, Empty, trace);
    if Batch(s, relay) != [] {
      assert CopySafe(c, s, s.held[relay][0]);
      assert RowSafe(c, s, s.held[relay][0].id);
    }
  }
}
