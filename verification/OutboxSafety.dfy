/**
 What the outbox keeps under every interleaving: any number of relays, crashes, lapsed
 leases and relays acting on stale copies.
 */
module OutboxSafety {
  import opened Wrappers
  import opened Routing
  import opened Outbox

  ghost predicate JobsDistinct(s: State) {
    forall i, j :: 0 <= i < j < |s.jobs| ==> s.jobs[i] != s.jobs[j]
  }

  /** A row's own facts: dispatched only once enqueued, and pending only for a bounded while. */
  ghost predicate RowSafe(c: Config, s: State, id: RowId)
    requires id in s.rows
  {
    var row := s.rows[id];
    && id in s.failures
    && (id in s.jobs ==> HasQueue(c, row.eventType))
    && (row.status == Dispatched ==> id in s.jobs)
    && (row.status == Pending ==>
          row.availableAt <= s.now + MAX_BACKOFF_MS && row.attempts < c.maxAttempts)
  }

  /** What a relay's memory of a row is still good for, however old it is. */
  ghost predicate CopySafe(c: Config, s: State, copy: Copy) {
    && copy.id in s.rows
    && copy.eventType == s.rows[copy.id].eventType
    && copy.attempts < c.maxAttempts
    && copy.leasedAt <= s.now
    && (copy.phase == Added ==> copy.id in s.jobs)
    && (copy.phase != Ready ==> HasQueue(c, copy.eventType))
  }

  ghost predicate Safe(c: Config, s: State) {
    && JobsDistinct(s)
    && (forall id :: id in s.jobs ==> id in s.rows)
    && (forall id :: id in s.rows ==> RowSafe(c, s, id))
    && (forall relay, i :: relay in s.held && 0 <= i < |s.held[relay]| ==>
          CopySafe(c, s, s.held[relay][i]))
  }

  lemma StepKeepsJobs(c: Config, s: State, step: Step)
    requires ValidConfig(c) && Safe(c, s) && Enabled(c, s, step)
    ensures JobsDistinct(Apply(c, s, step))
    ensures forall id :: id in s.jobs ==> id in Apply(c, s, step).jobs
    ensures forall id :: id in Apply(c, s, step).jobs ==> id in Apply(c, s, step).rows
  {
  }

  lemma StepKeepsRow(c: Config, s: State, step: Step, id: RowId)
    requires ValidConfig(c) && Safe(c, s) && Enabled(c, s, step) && id in s.rows
    ensures id in Apply(c, s, step).rows && Apply(c, s, step).rows[id].eventType == s.rows[id].eventType
    ensures RowSafe(c, Apply(c, s, step), id)
  {
    StepKeepsJobs(c, s, step);
    assert RowSafe(c, s, id);
    if step.ActsOnHead() {
      assert CopySafe(c, s, Batch(s, step.relay)[0]);
    }
  }

  lemma StepAddsRow(c: Config, s: State, step: Step, id: RowId)
    requires ValidConfig(c) && Safe(c, s) && Enabled(c, s, step) && id !in s.rows && id in Apply(c, s, step).rows
    ensures RowSafe(c, Apply(c, s, step), id)
  {
  }

  lemma StepKeepsRows(c: Config, s: State, step: Step)
    requires ValidConfig(c) && Safe(c, s) && Enabled(c, s, step)
    ensures forall id :: id in s.rows ==>
              id in Apply(c, s, step).rows
              && Apply(c, s, step).rows[id].eventType == s.rows[id].eventType
    ensures forall id :: id in Apply(c, s, step).rows ==> RowSafe(c, Apply(c, s, step), id)
  {
    forall id | id in s.rows
      ensures id in Apply(c, s, step).rows && Apply(c, s, step).rows[id].eventType == s.rows[id].eventType
      ensures RowSafe(c, Apply(c, s, step), id)
    {
      StepKeepsRow(c, s, step, id);
    }
    forall id | id in Apply(c, s, step).rows && id !in s.rows ensures RowSafe(c, Apply(c, s, step), id) {
      StepAddsRow(c, s, step, id);
    }
  }

  /** A copy a relay already had, with its row a step later. */
  lemma StepKeepsCopy(c: Config, s: State, step: Step, copy: Copy)
    requires ValidConfig(c) && Safe(c, s) && Enabled(c, s, step) && CopySafe(c, s, copy)
    ensures CopySafe(c, Apply(c, s, step), copy)
  {
    StepKeepsJobs(c, s, step);
    StepKeepsRows(c, s, step);
    assert s.now <= Apply(c, s, step).now;
  }

  /** Where a copy held after a step comes from: held before, advanced, or just leased. */
  lemma CopyComesFrom(c: Config, s: State, step: Step, relay: RelayId, i: nat)
    requires Enabled(c, s, step)
    requires relay in Apply(c, s, step).held && i < |Apply(c, s, step).held[relay]|
    ensures var copy, before := Apply(c, s, step).held[relay][i], Batch(s, relay);
            || (exists j: nat :: j < |before| && before[j] == copy)
            || (step.ActsOnHead() && step.relay == relay && before != [] && copy.id == before[0].id
                && copy == before[0].(phase := copy.phase) && copy.phase != Ready
                && (copy.phase == Added ==> step.Add?))
            || (step.Lease? && step.relay == relay && i < |step.batch| && Due(s, step.batch[i])
                && copy == Copy(step.batch[i], s.rows[step.batch[i]].eventType,
                             s.rows[step.batch[i]].attempts, s.now, Ready))
  {
    var before := Batch(s, relay);
    var held := Apply(c, s, step).held[relay];
    if relay in s.held && held == s.held[relay] {
      assert before[i] == held[i];
    } else if step.ActsOnHead() && |held| < |before| {
      assert held[i] == before[i + 1];
    } else if step.ActsOnHead() && i > 0 {
      assert held[i] == before[i];
    } else if step.Lease? {
      assert step.batch[i] in step.batch;
    }
  }

  lemma OneCopySafe(c: Config, s: State, step: Step, relay: RelayId, i: nat)
    requires ValidConfig(c) && Safe(c, s) && Enabled(c, s, step)
    requires relay in Apply(c, s, step).held && i < |Apply(c, s, step).held[relay]|
    ensures CopySafe(c, Apply(c, s, step), Apply(c, s, step).held[relay][i])
  {
    var t, before := Apply(c, s, step), Batch(s, relay);
    var copy := t.held[relay][i];
    CopyComesFrom(c, s, step, relay, i);
    if j: nat :| j < |before| && before[j] == copy {
      assert CopySafe(c, s, s.held[relay][j]);
      StepKeepsCopy(c, s, step, copy);
    } else if step.ActsOnHead() {
      assert CopySafe(c, s, s.held[relay][0]);
      StepKeepsCopy(c, s, step, before[0]);
    } else {
      StepKeepsRows(c, s, step);
      assert RowSafe(c, s, step.batch[i]);
    }
  }

  lemma StepKeepsCopies(c: Config, s: State, step: Step)
    requires ValidConfig(c) && Safe(c, s) && Enabled(c, s, step)
    ensures forall relay, i ::
              relay in Apply(c, s, step).held && 0 <= i < |Apply(c, s, step).held[relay]| ==>
                CopySafe(c, Apply(c, s, step), Apply(c, s, step).held[relay][i])
  {
    forall relay, i | relay in Apply(c, s, step).held && 0 <= i < |Apply(c, s, step).held[relay]|
      ensures CopySafe(c, Apply(c, s, step), Apply(c, s, step).held[relay][i])
    {
      OneCopySafe(c, s, step, relay, i);
    }
  }

  /** Every step keeps the invariant, whoever takes it and however late. */
  lemma StepKeepsSafe(c: Config, s: State, step: Step)
    requires ValidConfig(c) && Safe(c, s) && Enabled(c, s, step)
    ensures Safe(c, Apply(c, s, step))
  {
    StepKeepsJobs(c, s, step);
    StepKeepsRows(c, s, step);
    StepKeepsCopies(c, s, step);
  }

  lemma {:induction false} RunKeepsSafe(c: Config, s: State, trace: seq<Step>)
    requires ValidConfig(c) && Safe(c, s) && Runs(c, s, trace)
    ensures Safe(c, After(c, s, trace))
    decreases |trace|
  {
    if trace != [] {
      StepKeepsSafe(c, s, trace[0]);
      RunKeepsSafe(c, Apply(c, s, trace[0]), trace[1..]);
    }
  }

  /**
   No event is silently lost, over every run from an empty table: a dispatched row has its
   job, a row has at most one job, and a row without a job is either due again within the
   longest backoff or FAILED, from where a replay makes it due at once.
   */
  lemma NoEventIsLost(c: Config, trace: seq<Step>, id: RowId)
    requires ValidConfig(c) && Runs(c, Empty, trace)
    requires id in After(c, Empty, trace).rows
    ensures var s := After(c, Empty, trace);
            && (s.rows[id].status == Dispatched ==> id in s.jobs)
            && multiset(s.jobs)[id] <= 1
            && (s.rows[id].status == Pending ==>
                  Due(After(c, s, [Advance(MAX_BACKOFF_MS)]), id) && s.rows[id].attempts < c.maxAttempts)
            && (s.rows[id].status == Failed ==>
                  Runs(c, s, [Replay(id)]) && Due(After(c, s, [Replay(id)]), id))
  {
    RunKeepsSafe(c, Empty, trace);
    var s := After(c, Empty, trace);
    assert RowSafe(c, s, id);
    DistinctCount(s.jobs, id);
    assert [Advance(MAX_BACKOFF_MS)][1..] == [];
    assert [Replay(id)][1..] == [];
  }

  lemma {:induction false} DistinctCount(jobs: seq<RowId>, id: RowId)
    requires forall i, j :: 0 <= i < j < |jobs| ==> jobs[i] != jobs[j]
    ensures multiset(jobs)[id] <= 1
  {
    if jobs != [] {
      var last := |jobs| - 1;
      DistinctCount(jobs[..last], id);
      assert jobs == jobs[..last] + [jobs[last]];
    }
  }

  /** Rows are never deleted, event types never change and jobs are never forgotten. */
  lemma {:induction false} RunsOnlyAdd(c: Config, s: State, trace: seq<Step>)
    requires ValidConfig(c) && Safe(c, s) && Runs(c, s, trace)
    ensures forall id :: id in s.jobs ==> id in After(c, s, trace).jobs
    ensures forall id :: id in s.rows ==>
              id in After(c, s, trace).rows
              && After(c, s, trace).rows[id].eventType == s.rows[id].eventType
    decreases |trace|
  {
    if trace != [] {
      StepKeepsSafe(c, s, trace[0]);
      StepKeepsJobs(c, s, trace[0]);
      StepKeepsRows(c, s, trace[0]);
      RunsOnlyAdd(c, Apply(c, s, trace[0]), trace[1..]);
    }
  }

  /**
   Exactly when a DISPATCHED row stops being one: some relay still holding a copy records
   the failure that reaches the attempt ceiling. The relay's update names the row by id only.
   */
  lemma DispatchedIsLeftExactlyWhen(c: Config, s: State, step: Step, id: RowId)
    requires ValidConfig(c) && Safe(c, s) && Enabled(c, s, step)
    requires id in s.rows && s.rows[id].status == Dispatched
    ensures id in Apply(c, s, step).rows
    ensures Apply(c, s, step).rows[id].status != Dispatched <==>
            step.RecordFailure?
            && Batch(s, step.relay)[0].id == id
            && Batch(s, step.relay)[0].attempts + 1 >= c.maxAttempts
  {
    assert RowSafe(c, s, id);
    if step.ActsOnHead() {
      assert CopySafe(c, s, Batch(s, step.relay)[0]);
    }
  }

  ghost predicate Reachable(c: Config, s: State) {
    exists trace :: Runs(c, Empty, trace) && After(c, Empty, trace) == s
  }

  lemma ReachableNext(c: Config, s: State, step: Step, t: State)
    requires Reachable(c, s) && Enabled(c, s, step) && Apply(c, s, step) == t
    ensures Reachable(c, t)
  {
    var trace :| Runs(c, Empty, trace) && After(c, Empty, trace) == s;
    RunsSnoc(c, Empty, trace, step);
  }

  const ONE_SHOT := Config(1, 1, {ResumeParse, NotificationSend, Maintenance})

  /** One row, and the batches of relays 1 and 2. */
  ghost function OneRow(now: nat, kind: string, status: RowStatus, availableAt: nat, jobs: seq<RowId>,
                        held: map<RelayId, seq<Copy>>): State
  {
    State(now, map[0 := Row(kind, status, 0, availableAt)], held, jobs, map[0 := []])
  }

  /** Leasing the one row, when it is due. */
  lemma LeaseOneRow(now: nat, kind: string, held: map<RelayId, seq<Copy>>, relay: RelayId)
    requires relay !in held
    ensures var s := OneRow(now, kind, Pending, now, [], held);
            && Enabled(ONE_SHOT, s, Lease(relay, [0]))
            && Apply(ONE_SHOT, s, Lease(relay, [0]))
               == OneRow(now, kind, Pending, now + LEASE_MS, [], held[relay := [Copy(0, kind, 0, now, Ready)]])
  {
    var s := OneRow(now, kind, Pending, now, [], held);
    assert Due(s, 0);
    var t := Apply(ONE_SHOT, s, Lease(relay, [0]));
    assert t.held[relay] == [Copy(0, kind, 0, now, Ready)];
  }

  lemma FirstLeases(kind: string)
    ensures Reachable(ONE_SHOT, OneRow(0, kind, Pending, LEASE_MS, [], map[1 := [Copy(0, kind, 0, 0, Ready)]]))
  {
    assert Runs(ONE_SHOT, Empty, []) && After(ONE_SHOT, Empty, []) == Empty;
    var s := OneRow(0, kind, Pending, 0, [], map[]);
    ReachableNext(ONE_SHOT, Empty, Write(0, kind), s);
    LeaseOneRow(0, kind, map[], 1);
    ReachableNext(ONE_SHOT, s, Lease(1, [0]), Apply(ONE_SHOT, s, Lease(1, [0])));
  }

  /** After the first lease has lapsed, a second relay may hold the same row. */
  lemma BothLease(kind: string)
    ensures Reachable(ONE_SHOT, OneRow(LEASE_MS, kind, Pending, 2 * LEASE_MS, [],
              map[1 := [Copy(0, kind, 0, 0, Ready)], 2 := [Copy(0, kind, 0, LEASE_MS, Ready)]]))
  {
    FirstLeases(kind);
    var held := map[1 := [Copy(0, kind, 0, 0, Ready)]];
    var s := OneRow(LEASE_MS, kind, Pending, LEASE_MS, [], held);
    ReachableNext(ONE_SHOT, OneRow(0, kind, Pending, LEASE_MS, [], held), Advance(LEASE_MS), s);
    LeaseOneRow(LEASE_MS, kind, held, 2);
    ReachableNext(ONE_SHOT, s, Lease(2, [0]), Apply(ONE_SHOT, s, Lease(2, [0])));
    assert held[2 := [Copy(0, kind, 0, LEASE_MS, Ready)]]
        == map[1 := [Copy(0, kind, 0, 0, Ready)], 2 := [Copy(0, kind, 0, LEASE_MS, Ready)]];
  }

  lemma QuickRelayAdds(kind: string)
    requires Routed(kind)
    ensures Reachable(ONE_SHOT, OneRow(LEASE_MS, kind, Pending, 2 * LEASE_MS, [0],
              map[1 := [Copy(0, kind, 0, 0, Ready)], 2 := [Copy(0, kind, 0, LEASE_MS, Added)]]))
  {
    BothLease(kind);
    var slow, quick := Copy(0, kind, 0, 0, Ready), Copy(0, kind, 0, LEASE_MS, Ready);
    var s := OneRow(LEASE_MS, kind, Pending, 2 * LEASE_MS, [], map[1 := [slow], 2 := [quick]]);
    var t := Apply(ONE_SHOT, s, Add(2));
    assert Batch(s, 2) == [quick] && WithPhase([quick], Added) == [quick.(phase := Added)];
    assert t.held == s.held[2 := [quick.(phase := Added)]];
    ReachableNext(ONE_SHOT, s, Add(2), t);
    assert t == OneRow(LEASE_MS, kind, Pending, 2 * LEASE_MS, [0], map[1 := [slow], 2 := [quick.(phase := Added)]]);
  }

  lemma QuickRelayDispatches(kind: string)
    requires Routed(kind)
    ensures Reachable(ONE_SHOT, OneRow(LEASE_MS, kind, Dispatched, 2 * LEASE_MS, [0],
              map[1 := [Copy(0, kind, 0, 0, Ready)], 2 := []]))
  {
    QuickRelayAdds(kind);
    var slow, quick := Copy(0, kind, 0, 0, Ready), Copy(0, kind, 0, LEASE_MS, Added);
    var s := OneRow(LEASE_MS, kind, Pending, 2 * LEASE_MS, [0], map[1 := [slow], 2 := [quick]]);
    var t := Apply(ONE_SHOT, s, MarkDispatched(2));
    ReachableNext(ONE_SHOT, s, MarkDispatched(2), t);
    assert Batch(s, 2) == [quick] && [quick][1..] == [];
    assert t.held == s.held[2 := []] && t.rows == s.rows[0 := s.rows[0].(status := Dispatched)];
    assert t == OneRow(LEASE_MS, kind, Dispatched, 2 * LEASE_MS, [0], map[1 := [slow], 2 := []]);
  }

  /** A leased row stays pending, and nobody else is due to lease it for exactly thirty seconds. */
  lemma LeaseHides(c: Config, s: State, relay: RelayId, batch: seq<RowId>, id: RowId, ms: nat)
    requires Enabled(c, s, Lease(relay, batch)) && id in batch
    ensures var leased := Apply(c, s, Lease(relay, batch));
            && id in leased.rows && leased.rows[id].status == Pending
            && (Due(Apply(c, leased, Advance(ms)), id) <==> ms >= 30_000)
  {
    assert Due(s, id);
  }

  /**
   DISPATCHED is not final in general: a relay slower than its lease fails a row that a
   second relay has dispatched, although the job exists.
   */
  lemma SlowRelayUndoesDispatch(kind: string)
    requires Routed(kind)
    ensures exists s :: Reachable(ONE_SHOT, s)
              && Enabled(ONE_SHOT, s, RecordFailure(1))
              && 0 in s.rows && s.rows[0].status == Dispatched && 0 in s.jobs
              && 0 in Apply(ONE_SHOT, s, RecordFailure(1)).rows
              && Apply(ONE_SHOT, s, RecordFailure(1)).rows[0].status == Failed
  {
    QuickRelayDispatches(kind);
    var s := OneRow(LEASE_MS, kind, Dispatched, 2 * LEASE_MS, [0], map[1 := [Copy(0, kind, 0, 0, Ready)], 2 := []]);
    var t := Apply(ONE_SHOT, s, AddThrows(1, false));
    ReachableNext(ONE_SHOT, s, AddThrows(1, false), t);
  }
}
