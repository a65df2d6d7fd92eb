/**
 What the outbox keeps when, besides, every relay acts on a row only while its lease on it is
 live, an update that throws has not been applied, and every event written has a queue. The
 program checks none of them: all are hypotheses about the run.
 */
module OutboxTimely {
  import opened Wrappers
  import opened Routing
  import opened Outbox
  import opened OutboxSafety

  predicate Live(now: nat, copy: Copy) {
    now < copy.leasedAt + LEASE_MS
  }

  ghost predicate Timely(c: Config, s: State, step: Step) {
    match step
    case Write(_, eventType) => HasQueue(c, eventType)
    case MarkThrows(relay, applied) => !applied && Batch(s, relay) != [] && Live(s.now, Batch(s, relay)[0])
    case _ => step.ActsOnHead() ==> Batch(s, step.relay) != [] && Live(s.now, Batch(s, step.relay)[0])
  }

  ghost predicate TimelyRun(c: Config, s: State, trace: seq<Step>)
    decreases |trace|
  {
    trace == [] ||
    (Enabled(c, s, trace[0]) && Timely(c, s, trace[0]) && TimelyRun(c, Apply(c, s, trace[0]), trace[1..]))
  }

  /** Each recorded failure comes at least one backoff after the one before it. */
  ghost predicate Spaced(failures: seq<nat>) {
    forall k :: 1 <= k < |failures| ==> failures[k - 1] + Backoff(k) <= failures[k]
  }

  /** The time from which the failures recorded so far allow another attempt. */
  function NextAllowed(failures: seq<nat>): nat {
    if failures == [] then 0 else failures[|failures| - 1] + Backoff(|failures|)
  }

  ghost predicate RowCounted(c: Config, s: State, id: RowId)
    requires id in s.rows
  {
    var row := s.rows[id];
    && HasQueue(c, row.eventType)
    && id in s.failures
    && row.attempts == |s.failures[id]|
    && Spaced(s.failures[id])
    && (forall k :: 0 <= k < |s.failures[id]| ==> s.failures[id][k] <= s.now)
    && row.attempts <= c.maxAttempts
    && (row.status == Failed <==> row.attempts == c.maxAttempts)
    && (row.status == Pending ==> NextAllowed(s.failures[id]) <= row.availableAt)
  }

  /** A live copy still tells the truth about its row. */
  ghost predicate CopyCurrent(s: State, copy: Copy) {
    && copy.id in s.rows
    && copy.id in s.failures
    && s.rows[copy.id].status == Pending
    && s.rows[copy.id].availableAt == copy.leasedAt + LEASE_MS
    && s.rows[copy.id].attempts == copy.attempts
    && NextAllowed(s.failures[copy.id]) <= copy.leasedAt
  }

  ghost predicate Holds(s: State, relay: RelayId, i: nat) {
    relay in s.held && i < |s.held[relay]| && Live(s.now, s.held[relay][i])
  }

  /** At most one relay holds a live lease on a row, and it holds it once. */
  ghost predicate Exclusive(s: State) {
    forall r1, i1: nat, r2, i2: nat ::
      Holds(s, r1, i1) && Holds(s, r2, i2) && s.held[r1][i1].id == s.held[r2][i2].id ==> r1 == r2 && i1 == i2
  }

  ghost predicate Orderly(c: Config, s: State) {
    && Safe(c, s)
    && (forall id :: id in s.rows ==> RowCounted(c, s, id))
    && (forall relay, i: nat :: Holds(s, relay, i) ==> CopyCurrent(s, s.held[relay][i]))
    && Exclusive(s)
  }

  /** Where a live copy held after a step comes from. */
  lemma Origin(c: Config, s: State, step: Step, relay: RelayId, i: nat) returns (j: nat)
    requires Enabled(c, s, step) && Holds(Apply(c, s, step), relay, i)
    ensures step.Lease? && relay == step.relay ==>
              j == i < |step.batch| && Apply(c, s, step).held[relay][i].id == step.batch[i]
    ensures !(step.Lease? && relay == step.relay) ==>
              Holds(s, relay, j)
              && s.held[relay][j].id == Apply(c, s, step).held[relay][i].id
              && s.held[relay][j].attempts == Apply(c, s, step).held[relay][i].attempts
              && s.held[relay][j].leasedAt == Apply(c, s, step).held[relay][i].leasedAt
              && j == (if step.ActsOnHead() && step.relay == relay
                          && |Apply(c, s, step).held[relay]| < |s.held[relay]| then i + 1 else i)
  {
    if step.ActsOnHead() && step.relay == relay && |Apply(c, s, step).held[relay]| < |s.held[relay]| {
      j := i + 1;
    } else {
      j := i;
    }
  }

  /** A step leaves alone the row of every copy it does not itself work on. */
  lemma OtherRowsUntouched(c: Config, s: State, step: Step, id: RowId)
    requires Enabled(c, s, step) && id in s.rows && s.rows[id].status == Pending
    requires step.Lease? ==> id !in step.batch
    requires step.ActsOnHead() ==> Batch(s, step.relay)[0].id != id
    ensures id in Apply(c, s, step).rows && Apply(c, s, step).rows[id] == s.rows[id]
    ensures id in s.failures ==> id in Apply(c, s, step).failures && Apply(c, s, step).failures[id] == s.failures[id]
  {
  }

  lemma StepKeepsExclusive(c: Config, s: State, step: Step)
    requires ValidConfig(c) && Orderly(c, s) && Enabled(c, s, step) && Timely(c, s, step)
    ensures Exclusive(Apply(c, s, step))
  {
    var t := Apply(c, s, step);
    forall r1, i1: nat, r2, i2: nat
      | Holds(t, r1, i1) && Holds(t, r2, i2) && t.held[r1][i1].id == t.held[r2][i2].id
      ensures r1 == r2 && i1 == i2
    {
      var j1 := Origin(c, s, step, r1, i1);
      var j2 := Origin(c, s, step, r2, i2);
    }
  }

  lemma StepKeepsCopiesCurrent(c: Config, s: State, step: Step, relay: RelayId, i: nat)
    requires ValidConfig(c) && Orderly(c, s) && Enabled(c, s, step) && Timely(c, s, step)
    requires Holds(Apply(c, s, step), relay, i)
    ensures CopyCurrent(Apply(c, s, step), Apply(c, s, step).held[relay][i])
  {
    var t := Apply(c, s, step);
    var j := Origin(c, s, step, relay, i);
    if step.Lease? && relay == step.relay {
      assert RowCounted(c, s, step.batch[i]);
      assert Due(s, step.batch[i]);
    } else {
      var id := s.held[relay][j].id;
      assert CopyCurrent(s, s.held[relay][j]);
      if step.ActsOnHead() && Batch(s, step.relay)[0].id == id {
        assert Holds(s, step.relay, 0);
        assert relay == step.relay && j == 0;
      } else {
        OtherRowsUntouched(c, s, step, id);
      }
    }
  }

  lemma SpacedSnoc(failures: seq<nat>, now: nat)
    requires Spaced(failures) && NextAllowed(failures) <= now
    ensures Spaced(failures + [now])
  {
    forall k | 1 <= k < |failures + [now]|
      ensures (failures + [now])[k - 1] + Backoff(k) <= (failures + [now])[k]
    {
      if k < |failures| {
        assert failures[k - 1] + Backoff(k) <= failures[k];
      }
    }
  }

  /** The head's row, after the step that works on it. */
  lemma HeadRowCounted(c: Config, s: State, step: Step, id: RowId)
    requires ValidConfig(c) && Orderly(c, s) && Enabled(c, s, step) && Timely(c, s, step)
    requires step.ActsOnHead() && id == Batch(s, step.relay)[0].id
    ensures id in Apply(c, s, step).rows && RowCounted(c, Apply(c, s, step), id)
  {
    assert Holds(s, step.relay, 0);
    var head := s.held[step.relay][0];
    assert CopyCurrent(s, head) && CopySafe(c, s, head) && RowCounted(c, s, id);
    if step.RecordFailure? {
      SpacedSnoc(s.failures[id], s.now);
    }
  }

  lemma StepKeepsRowsCounted(c: Config, s: State, step: Step, id: RowId)
    requires ValidConfig(c) && Orderly(c, s) && Enabled(c, s, step) && Timely(c, s, step)
    requires id in Apply(c, s, step).rows
    ensures RowCounted(c, Apply(c, s, step), id)
  {
    if step.ActsOnHead() && Batch(s, step.relay)[0].id == id {
      HeadRowCounted(c, s, step, id);
    } else if id in s.rows {
      assert RowCounted(c, s, id);
      if step.Lease? && id in step.batch {
        assert Due(s, id);
      }
    }
  }

  lemma StepKeepsOrderly(c: Config, s: State, step: Step)
    requires ValidConfig(c) && Orderly(c, s) && Enabled(c, s, step) && Timely(c, s, step)
    ensures Orderly(c, Apply(c, s, step))
  {
    var t := Apply(c, s, step);
    StepKeepsSafe(c, s, step);
    StepKeepsExclusive(c, s, step);
    forall relay, i: nat | Holds(t, relay, i) ensures CopyCurrent(t, t.held[relay][i]) {
      StepKeepsCopiesCurrent(c, s, step, relay, i);
    }
    forall id | id in t.rows ensures RowCounted(c, t, id) {
      StepKeepsRowsCounted(c, s, step, id);
    }
  }

  lemma {:induction false} RunKeepsOrderly(c: Config, s: State, trace: seq<Step>)
    requires ValidConfig(c) && Orderly(c, s) && TimelyRun(c, s, trace)
    ensures Runs(c, s, trace) && Orderly(c, After(c, s, trace))
    decreases |trace|
  {
    if trace != [] {
      StepKeepsOrderly(c, s, trace[0]);
      RunKeepsOrderly(c, Apply(c, s, trace[0]), trace[1..]);
    }
  }

  /**
   Over every timely run: a live lease is exclusive, `attempts` counts the failures recorded
   since the last replay, and FAILED means the ceiling was reached.
   */
  lemma TimelyGuarantees(c: Config, trace: seq<Step>, id: RowId)
    requires ValidConfig(c) && TimelyRun(c, Empty, trace) && Runs(c, Empty, trace)
    requires id in After(c, Empty, trace).rows
    ensures var s := After(c, Empty, trace);
            && id in s.failures
            && Exclusive(s)
            && s.rows[id].attempts == |s.failures[id]| <= c.maxAttempts
            && (s.rows[id].status == Failed <==> |s.failures[id]| == c.maxAttempts)
  {
    RunKeepsOrderly(c, Empty, trace);
    var s := After(c, Empty, trace);
    assert RowCounted(c, s, id);
  }

  /** With timely relays a row once DISPATCHED stays so, however the run goes on. */
  lemma {:induction false} DispatchedIsFinal(c: Config, s: State, trace: seq<Step>, id: RowId)
    requires ValidConfig(c) && Orderly(c, s) && TimelyRun(c, s, trace) && Runs(c, s, trace)
    requires id in s.rows && s.rows[id].status == Dispatched
    ensures id in After(c, s, trace).rows && After(c, s, trace).rows[id] == s.rows[id]
    decreases |trace|
  {
    if trace != [] {
      var step := trace[0];
      StepKeepsOrderly(c, s, step);
      if step.ActsOnHead() {
        assert Holds(s, step.relay, 0);
        assert CopyCurrent(s, s.held[step.relay][0]);
      }
      assert Apply(c, s, step).rows[id] == s.rows[id];
      DispatchedIsFinal(c, Apply(c, s, step), trace[1..], id);
    }
  }

  function TotalBackoff(n: nat): (ms: nat)
    ensures n * 1000 <= ms <= n * MAX_BACKOFF_MS
  {
    if n == 0 then 0 else TotalBackoff(n - 1) + Backoff(n)
  }

  lemma {:induction false} SpacedAddsUp(failures: seq<nat>, n: nat)
    requires Spaced(failures) && n < |failures|
    ensures failures[0] + TotalBackoff(n) <= failures[n]
  {
    if n > 0 {
      SpacedAddsUp(failures, n - 1);
      assert failures[n - 1] + Backoff(n) <= failures[n];
    }
  }

  /**
   A row that a timely run leaves FAILED took exactly the allowed number of failures, spread
   over at least the whole backoff schedule.
   */
  lemma ExhaustionTakesTheWholeSchedule(c: Config, trace: seq<Step>, id: RowId)
    requires ValidConfig(c) && TimelyRun(c, Empty, trace) && Runs(c, Empty, trace)
    requires id in After(c, Empty, trace).rows && After(c, Empty, trace).rows[id].status == Failed
    ensures var s := After(c, Empty, trace);
            && id in s.failures
            && |s.failures[id]| == c.maxAttempts
            && s.failures[id][0] + TotalBackoff(c.maxAttempts - 1) <= s.failures[id][c.maxAttempts - 1] <= s.now
  {
    RunKeepsOrderly(c, Empty, trace);
    var s := After(c, Empty, trace);
    assert RowCounted(c, s, id);
    SpacedAddsUp(s.failures[id], c.maxAttempts - 1);
  }

  /** Attempts left: what a queue that keeps refusing uses up, one per recorded failure. */
  ghost function AttemptsLeft(c: Config, s: State, id: RowId): int
    requires id in s.rows
  {
    c.maxAttempts - s.rows[id].attempts
  }

  lemma FailureUsesOneAttempt(c: Config, s: State, relay: RelayId)
    requires ValidConfig(c) && Orderly(c, s)
    requires Enabled(c, s, RecordFailure(relay)) && Timely(c, s, RecordFailure(relay))
    ensures var id := Batch(s, relay)[0].id;
            var t := Apply(c, s, RecordFailure(relay));
            && id in t.rows
            && AttemptsLeft(c, t, id) == AttemptsLeft(c, s, id) - 1 >= 0
            && (AttemptsLeft(c, t, id) == 0 <==> t.rows[id].status == Failed)
            && (t.rows[id].status == Pending ==> t.rows[id].availableAt == s.now + Backoff(t.rows[id].attempts))
  {
    assert Holds(s, relay, 0);
    assert CopyCurrent(s, s.held[relay][0]);
    assert CopySafe(c, s, s.held[relay][0]);
  }

  /**
   The second hypothesis matters as well: a relay within its lease whose dispatching update
   was applied but reported as failed goes on to fail the dispatched row.
   */
  lemma LostReplyUndoesDispatch(s: State, relay: RelayId)
    requires Orderly(ONE_SHOT, s) && Enabled(ONE_SHOT, s, MarkThrows(relay, true))
    requires Live(s.now, Batch(s, relay)[0])
    ensures var id := Batch(s, relay)[0].id;
            var t := Apply(ONE_SHOT, s, MarkThrows(relay, true));
            && id in t.rows && t.rows[id].status == Dispatched
            && Enabled(ONE_SHOT, t, RecordFailure(relay)) && Timely(ONE_SHOT, t, RecordFailure(relay))
            && id in Apply(ONE_SHOT, t, RecordFailure(relay)).rows
            && Apply(ONE_SHOT, t, RecordFailure(relay)).rows[id].status == Failed
            && id in Apply(ONE_SHOT, t, RecordFailure(relay)).jobs
  {
    assert CopySafe(ONE_SHOT, s, s.held[relay][0]);
  }

  ghost predicate TimelyReachable(c: Config, s: State) {
    exists trace :: TimelyRun(c, Empty, trace) && Runs(c, Empty, trace) && After(c, Empty, trace) == s
  }

  lemma {:induction false} TimelySnoc(c: Config, s: State, trace: seq<Step>, step: Step)
    requires TimelyRun(c, s, trace) && Runs(c, s, trace)
    requires Enabled(c, After(c, s, trace), step) && Timely(c, After(c, s, trace), step)
    ensures TimelyRun(c, s, trace + [step])
    decreases |trace|
  {
    if trace == [] {
      assert (trace + [step])[1..] == [];
    } else {
      assert (trace + [step])[1..] == trace[1..] + [step];
      TimelySnoc(c, Apply(c, s, trace[0]), trace[1..], step);
    }
  }

  lemma TimelyNext(c: Config, s: State, step: Step, t: State)
    requires TimelyReachable(c, s) && Enabled(c, s, step) && Timely(c, s, step) && Apply(c, s, step) == t
    ensures TimelyReachable(c, t)
  {
    var trace :| TimelyRun(c, Empty, trace) && Runs(c, Empty, trace) && After(c, Empty, trace) == s;
    TimelySnoc(c, Empty, trace, step);
    RunsSnoc(c, Empty, trace, step);
  }

  lemma WrittenInTime(kind: string)
    requires Routed(kind)
    ensures TimelyReachable(ONE_SHOT, OneRow(0, kind, Pending, 0, [], map[]))
  {
    assert TimelyRun(ONE_SHOT, Empty, []) && Runs(ONE_SHOT, Empty, []) && After(ONE_SHOT, Empty, []) == Empty;
    TimelyNext(ONE_SHOT, Empty, Write(0, kind), OneRow(0, kind, Pending, 0, [], map[]));
  }

  lemma LeasedInTime(kind: string)
    requires Routed(kind)
    ensures TimelyReachable(ONE_SHOT, OneRow(0, kind, Pending, LEASE_MS, [], map[1 := [Copy(0, kind, 0, 0, Ready)]]))
  {
    WrittenInTime(kind);
    LeaseOneRow(0, kind, map[], 1);
    var written := OneRow(0, kind, Pending, 0, [], map[]);
    TimelyNext(ONE_SHOT, written, Lease(1, [0]), Apply(ONE_SHOT, written, Lease(1, [0])));
  }

  /** Written, leased and enqueued without delay: only the update is left. */
  lemma EnqueuedInTime(kind: string)
    requires Routed(kind)
    ensures TimelyReachable(ONE_SHOT, OneRow(0, kind, Pending, LEASE_MS, [0], map[1 := [Copy(0, kind, 0, 0, Added)]]))
  {
    LeasedInTime(kind);
    var ready, added := Copy(0, kind, 0, 0, Ready), Copy(0, kind, 0, 0, Added);
    var leased := OneRow(0, kind, Pending, LEASE_MS, [], map[1 := [ready]]);
    assert Batch(leased, 1) == [ready] && WithPhase([ready], Added) == [added];
    var t := Apply(ONE_SHOT, leased, Add(1));
    assert t.held == map[1 := [added]];
    TimelyNext(ONE_SHOT, leased, Add(1), t);
  }

  /** A run that has been timely so far, in which losing one reply makes a dispatched row FAILED. */
  lemma OneLostReplyIsEnough(kind: string)
    requires Routed(kind)
    ensures exists s ::
              && TimelyReachable(ONE_SHOT, s)
              && Enabled(ONE_SHOT, s, MarkThrows(1, true)) && Live(s.now, Batch(s, 1)[0])
              && var t := Apply(ONE_SHOT, s, MarkThrows(1, true));
              && 0 in t.rows && t.rows[0].status == Dispatched
              && Enabled(ONE_SHOT, t, RecordFailure(1))
              && 0 in Apply(ONE_SHOT, t, RecordFailure(1)).rows
              && Apply(ONE_SHOT, t, RecordFailure(1)).rows[0].status == Failed
  {
    EnqueuedInTime(kind);
    var s := OneRow(0, kind, Pending, LEASE_MS, [0], map[1 := [Copy(0, kind, 0, 0, Added)]]);
    var trace :| TimelyRun(ONE_SHOT, Empty, trace) && Runs(ONE_SHOT, Empty, trace)
                 && After(ONE_SHOT, Empty, trace) == s;
    RunKeepsOrderly(ONE_SHOT, Empty, trace);
    LostReplyUndoesDispatch(s, 1);
  }
}
