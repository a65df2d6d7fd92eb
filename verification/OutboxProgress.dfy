/** A due row is not passed over for ever: the backlog ahead of it only shrinks. */
module OutboxProgress {
  import opened Wrappers
  import opened Sizes
  import opened Routing
  import opened Outbox
  import opened OutboxSafety
  import opened OutboxTimely

  predicate Overdue(s: State, id: RowId) {
    id in s.rows && s.rows[id].status == Pending && s.rows[id].availableAt < s.now
  }

  /** The pending rows available no later than this one, itself included. */
  ghost function Ahead(s: State, id: RowId): (ahead: set<RowId>)
    requires id in s.rows
    ensures s.rows[id].status == Pending ==> id in ahead
  {
    set other | other in s.rows
      && s.rows[other].status == Pending && s.rows[other].availableAt <= s.rows[id].availableAt
  }

  ghost function Rank(s: State, id: RowId): nat
    requires id in s.rows
  {
    |Ahead(s, id)|
  }

  /** A step that leaves an overdue row alone lets nothing new in ahead of it. */
  lemma NothingOvertakes(c: Config, s: State, step: Step, id: RowId)
    requires ValidConfig(c) && Safe(c, s) && Enabled(c, s, step) && Overdue(s, id)
    requires id in Apply(c, s, step).rows && Apply(c, s, step).rows[id] == s.rows[id]
    ensures Ahead(Apply(c, s, step), id) <= Ahead(s, id)
  {
    var t := Apply(c, s, step);
    forall other | other in Ahead(t, id) ensures other in Ahead(s, id) {
      if step.RecordFailure? && other == Batch(s, step.relay)[0].id {
        assert CopySafe(c, s, Batch(s, step.relay)[0]);
      }
    }
  }

  /** A lease that passes over an overdue row takes a whole batch from ahead of it. */
  lemma SkippingLeaseTakesABatch(c: Config, s: State, step: Step, id: RowId)
    requires ValidConfig(c) && Safe(c, s) && Enabled(c, s, step) && Overdue(s, id)
    requires step.Lease? && id !in step.batch
    ensures Rank(Apply(c, s, step), id) + c.batchSize <= Rank(s, id)
  {
    var t := Apply(c, s, step);
    var taken := Elements(step.batch);
    assert Due(s, id);
    DistinctSize(step.batch);
    assert taken <= Ahead(s, id) by {
      forall other | other in step.batch ensures other in Ahead(s, id) {
        assert Due(s, other);
      }
    }
    assert Ahead(t, id) <= Ahead(s, id) - taken by {
      NothingOvertakes(c, s, step, id);
      forall other | other in taken ensures other !in Ahead(t, id) {
        assert Due(s, other);
        assert t.rows[other].availableAt == s.now + LEASE_MS;
      }
    }
    SubsetSize(Ahead(t, id), Ahead(s, id) - taken);
  }

  ghost function Leases(trace: seq<Step>): nat {
    if trace == [] then 0 else (if trace[0].Lease? then 1 else 0) + Leases(trace[1..])
  }

  /** A lease of the row, or a step that changes it; working on a stale copy of it is not enough. */
  ghost predicate Touches(c: Config, s: State, step: Step, id: RowId)
    requires Enabled(c, s, step)
  {
    || (step.Lease? && id in step.batch)
    || (id in s.rows && id in Apply(c, s, step).rows && Apply(c, s, step).rows[id] != s.rows[id])
  }

  ghost predicate TouchedWithin(c: Config, s: State, trace: seq<Step>, id: RowId)
    requires Runs(c, s, trace)
    decreases |trace|
  {
    trace != [] && (Touches(c, s, trace[0], id) || TouchedWithin(c, Apply(c, s, trace[0]), trace[1..], id))
  }

  lemma UntouchedOverdue(c: Config, s: State, step: Step, id: RowId)
    requires ValidConfig(c) && Safe(c, s) && Enabled(c, s, step) && Overdue(s, id) && !Touches(c, s, step, id)
    ensures Overdue(Apply(c, s, step), id) && Apply(c, s, step).rows[id] == s.rows[id]
    ensures Rank(Apply(c, s, step), id) + (if step.Lease? then c.batchSize else 0) <= Rank(s, id)
  {
    StepKeepsRows(c, s, step);
    NothingOvertakes(c, s, step, id);
    SubsetSize(Ahead(Apply(c, s, step), id), Ahead(s, id));
    if step.Lease? {
      SkippingLeaseTakesABatch(c, s, step, id);
    }
  }

  lemma OneLeaseFewer(rank: nat, rank': nat, leases: nat, leases': nat, size: nat)
    requires rank <= leases * size
    requires (leases' == leases && rank' <= rank) || (leases' == leases - 1 && rank' + size <= rank)
    ensures rank' <= leases' * size
  {
    if leases' == leases - 1 {
      assert leases * size == leases' * size + size;
    }
  }

  /** One step of a run towards an overdue row that the step does not touch. */
  lemma StepCloser(c: Config, s: State, trace: seq<Step>, id: RowId)
    requires ValidConfig(c) && Safe(c, s) && trace != [] && Enabled(c, s, trace[0])
    requires Overdue(s, id) && !Touches(c, s, trace[0], id)
    requires Rank(s, id) <= Leases(trace) * c.batchSize
    ensures Overdue(Apply(c, s, trace[0]), id)
    ensures Rank(Apply(c, s, trace[0]), id) <= Leases(trace[1..]) * c.batchSize
  {
    UntouchedOverdue(c, s, trace[0], id);
    OneLeaseFewer(Rank(s, id), Rank(Apply(c, s, trace[0]), id), Leases(trace), Leases(trace[1..]), c.batchSize);
  }

  lemma RankIsPositive(s: State, id: RowId)
    requires Overdue(s, id)
    ensures Rank(s, id) > 0
  {
    assert id in Ahead(s, id);
  }

  /**
   No starvation, in every interleaving: among any Rank / batchSize leases, rounded up, taken
   from a state where the row is overdue, the row is leased or changed.
   */
  lemma {:induction false} ReachedWithinRank(c: Config, s: State, trace: seq<Step>, id: RowId)
    requires ValidConfig(c) && Safe(c, s) && Runs(c, s, trace) && Overdue(s, id)
    requires Rank(s, id) <= Leases(trace) * c.batchSize
    ensures TouchedWithin(c, s, trace, id)
    decreases |trace|
  {
    RankIsPositive(s, id);
    assert trace != [];
    if !Touches(c, s, trace[0], id) {
      StepCloser(c, s, trace, id);
      StepKeepsSafe(c, s, trace[0]);
      ReachedWithinRank(c, Apply(c, s, trace[0]), trace[1..], id);
    }
  }

  /** With timely relays nobody holds an overdue row, so only a lease touches it. */
  lemma OverdueIsUnheld(c: Config, s: State, step: Step, id: RowId)
    requires ValidConfig(c) && Orderly(c, s) && Enabled(c, s, step) && Timely(c, s, step) && Overdue(s, id)
    ensures Touches(c, s, step, id) <==> step.Lease? && id in step.batch
  {
    if step.ActsOnHead() {
      assert Holds(s, step.relay, 0);
      assert CopyCurrent(s, s.held[step.relay][0]);
    }
  }

  /** The same bound with timely relays, where what reaches the row is a lease. */
  lemma {:induction false} LeasedWithinRank(c: Config, s: State, trace: seq<Step>, id: RowId)
    requires ValidConfig(c) && Orderly(c, s) && TimelyRun(c, s, trace) && Overdue(s, id)
    requires Rank(s, id) <= Leases(trace) * c.batchSize
    ensures exists i :: 0 <= i < |trace| && trace[i].Lease? && id in trace[i].batch
    decreases |trace|
  {
    RankIsPositive(s, id);
    assert trace != [];
    OverdueIsUnheld(c, s, trace[0], id);
    if !Touches(c, s, trace[0], id) {
      StepCloser(c, s, trace, id);
      StepKeepsOrderly(c, s, trace[0]);
      LeasedWithinRank(c, Apply(c, s, trace[0]), trace[1..], id);
      var i :| 0 <= i < |trace[1..]| && trace[1..][i].Lease? && id in trace[1..][i].batch;
      assert trace[i + 1] == trace[1..][i];
    }
  }
}
