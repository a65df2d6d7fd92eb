/** How often a resume is recorded as parsed, when its job may be delivered any number of times. */
module ResumeEvents {
  import opened Wrappers
  import opened Candidates
  import opened Sizes

  ghost function EventsOf(db: Db, document: DocumentId): nat {
    db.events[ParseEvent(document, true)] + db.events[ParseEvent(document, false)]
  }

  ghost function Deliveries(db: Db, document: DocumentId): set<TxId> {
    set tx | tx in db.txs && db.txs[tx].Parsing? && db.txs[tx].document == document
  }

  /** At every point of the run, at most `k` deliveries of the document are being handled. */
  ghost predicate AtMostDeliveries(db: Db, trace: seq<Step>, document: DocumentId, k: nat)
    requires Runs(db, trace)
    decreases |trace|
  {
    && |Deliveries(db, document)| <= k
    && (trace != [] ==> AtMostDeliveries(Apply(db, trace[0]), trace[1..], document, k))
  }

  ghost predicate Handled(db: Db, document: DocumentId) {
    document in db.documents && db.documents[document].status != Pending
  }

  /** Recorded exactly when no longer pending, and then no delivery starts that was not under way. */
  ghost predicate Bounded(db: Db, document: DocumentId, k: nat) {
    && (EventsOf(db, document) > 0 <==> Handled(db, document))
    && (document !in db.documents ==> Deliveries(db, document) == {})
    && (Handled(db, document) ==> EventsOf(db, document) + |Deliveries(db, document)| <= k)
  }

  lemma RecordedOnce(db: Db, tx: TxId, document: DocumentId)
    requires Enabled(db, Record(tx)) && db.txs[tx].document == document
    ensures EventsOf(Apply(db, Record(tx)), document) == EventsOf(db, document) + 1
    ensures Deliveries(Apply(db, Record(tx)), document) == Deliveries(db, document) - {tx}
    ensures tx in Deliveries(db, document) && Handled(Apply(db, Record(tx)), document)
  {
    var after := Apply(db, Record(tx));
    assert after.documents[document].status == StatusOf(db.txs[tx].parsed) != Pending;
  }

  /** Every other step leaves what is recorded and the status of the document alone. */
  lemma OthersDoNotRecord(db: Db, step: Step, document: DocumentId)
    requires Sound(db) && Enabled(db, step) && !(step.Record? && db.txs[step.tx].document == document)
    ensures EventsOf(Apply(db, step), document) == EventsOf(db, document)
    ensures Handled(Apply(db, step), document) <==> Handled(db, document)
    ensures document in db.documents ==> document in Apply(db, step).documents
  {
  }

  lemma NothingStartsWhenHandled(db: Db, step: Step, document: DocumentId)
    requires Sound(db) && Enabled(db, step)
    requires Handled(db, document) || document !in Apply(db, step).documents
    ensures Deliveries(Apply(db, step), document) <= Deliveries(db, document)
  {
  }

  lemma StepKeepsBound(db: Db, step: Step, document: DocumentId, k: nat)
    requires Sound(db) && Enabled(db, step) && Bounded(db, document, k) && |Deliveries(db, document)| <= k
    ensures Bounded(Apply(db, step), document, k)
  {
    var after := Apply(db, step);
    if step.Record? && db.txs[step.tx].document == document {
      RecordedOnce(db, step.tx, document);
    } else {
      OthersDoNotRecord(db, step, document);
      if Handled(db, document) || document !in after.documents {
        NothingStartsWhenHandled(db, step, document);
        SubsetSize(Deliveries(after, document), Deliveries(db, document));
      }
    }
  }

  lemma {:induction false} RunKeepsBound(db: Db, trace: seq<Step>, document: DocumentId, k: nat)
    requires Sound(db) && Runs(db, trace) && Bounded(db, document, k)
    requires AtMostDeliveries(db, trace, document, k)
    ensures Bounded(After(db, trace), document, k)
    decreases |trace|
  {
    if trace != [] {
      StepKeepsSound(db, trace[0]);
      StepKeepsBound(db, trace[0], document, k);
      RunKeepsBound(Apply(db, trace[0]), trace[1..], document, k);
    }
  }

  /**
   However often a job is delivered, retried or aborted: with at most `k` deliveries handled at
   once a document gets at most `k` entries, and it gets one at all exactly when it is handled.
   */
  lemma EventsNeverExceedDeliveriesAtOnce(trace: seq<Step>, document: DocumentId, k: nat)
    requires Runs(NothingYet, trace) && AtMostDeliveries(NothingYet, trace, document, k)
    ensures EventsOf(After(NothingYet, trace), document) <= k
    ensures EventsOf(After(NothingYet, trace), document) > 0 <==> Handled(After(NothingYet, trace), document)
  {
    assert Deliveries(NothingYet, document) == {};
    RunKeepsBound(NothingYet, trace, document, k);
  }

  // ----- exactly when a delivery records again

  ghost predicate Consistent(db: Db, document: DocumentId) {
    EventsOf(db, document) > 0 <==> Handled(db, document)
  }

  lemma StepKeepsConsistent(db: Db, step: Step, document: DocumentId)
    requires Sound(db) && Enabled(db, step) && Consistent(db, document)
    ensures Consistent(Apply(db, step), document)
  {
    if step.Record? && db.txs[step.tx].document == document {
      RecordedOnce(db, step.tx, document);
    } else {
      OthersDoNotRecord(db, step, document);
    }
  }

  lemma {:induction false} RunKeepsConsistent(db: Db, trace: seq<Step>, document: DocumentId)
    requires Sound(db) && Runs(db, trace) && Consistent(db, document)
    ensures Consistent(After(db, trace), document)
    decreases |trace|
  {
    if trace != [] {
      StepKeepsSound(db, trace[0]);
      StepKeepsConsistent(db, trace[0], document);
      RunKeepsConsistent(Apply(db, trace[0]), trace[1..], document);
    }
  }

  /**
   In every reachable state, with any number of deliveries: a commit records its document for the
   first time exactly when nobody has handled it yet, and once more exactly when somebody has,
   whatever the delivery saw when it began.
   */
  lemma RecordsAgainExactlyWhen(trace: seq<Step>, tx: TxId)
    requires Runs(NothingYet, trace) && Enabled(After(NothingYet, trace), Record(tx))
    ensures var db := After(NothingYet, trace);
            var document := db.txs[tx].document;
            && (EventsOf(Apply(db, Record(tx)), document) == 1 <==> !Handled(db, document))
            && (EventsOf(Apply(db, Record(tx)), document) > 1 <==> Handled(db, document))
  {
    var db := After(NothingYet, trace);
    RunKeepsConsistent(NothingYet, trace, db.txs[tx].document);
    RecordedOnce(db, tx, db.txs[tx].document);
  }

  // ----- one delivery after another

  /** The log says once what the document's status says, and nothing else. */
  ghost predicate Agrees(db: Db, document: DocumentId) {
    var status := if document in db.documents then db.documents[document].status else Pending;
    && db.events[ParseEvent(document, true)] == (if status == Succeeded || status == Partial then 1 else 0)
    && db.events[ParseEvent(document, false)] == (if status == Failed then 1 else 0)
  }

  lemma StepKeepsAgreement(db: Db, step: Step, document: DocumentId)
    requires Sound(db) && Enabled(db, step) && Bounded(db, document, 1) && Agrees(db, document)
    ensures Agrees(Apply(db, step), document)
  {
    if step.Record? && db.txs[step.tx].document == document {
      RecordedOnce(db, step.tx, document);
      assert |Deliveries(db, document)| > 0;
      assert !Handled(db, document);
    }
  }

  lemma {:induction false} RunKeepsAgreement(db: Db, trace: seq<Step>, document: DocumentId)
    requires Sound(db) && Runs(db, trace) && Bounded(db, document, 1) && Agrees(db, document)
    requires AtMostDeliveries(db, trace, document, 1)
    ensures Agrees(After(db, trace), document)
    decreases |trace|
  {
    if trace != [] {
      StepKeepsSound(db, trace[0]);
      StepKeepsBound(db, trace[0], document, 1);
      StepKeepsAgreement(db, trace[0], document);
      RunKeepsAgreement(Apply(db, trace[0]), trace[1..], document);
    }
  }

  /**
   Delivered one after another, any number of times: exactly one entry once some delivery has
   gone through, none before, and the entry says failed exactly when the document does.
   */
  lemma RecordedExactlyOnce(trace: seq<Step>, document: DocumentId)
    requires Runs(NothingYet, trace) && AtMostDeliveries(NothingYet, trace, document, 1)
    ensures Agrees(After(NothingYet, trace), document)
    ensures EventsOf(After(NothingYet, trace), document) == if Handled(After(NothingYet, trace), document) then 1 else 0
  {
    assert Deliveries(NothingYet, document) == {};
    RunKeepsAgreement(NothingYet, trace, document);
  }

  lemma TwoSteps(db: Db, a: Step, b: Step)
    requires Enabled(db, a) && Enabled(Apply(db, a), b)
    ensures Runs(db, [a, b]) && After(db, [a, b]) == Apply(Apply(db, a), b)
  {
    assert [a, b][1..] == [b];
    assert [b][1..] == [];
    assert After(Apply(db, a), [b]) == Apply(Apply(db, a), b);
  }

  /** A delivery holding the document's lock records, and lets go of it. */
  lemma RecordUnlocks(db: Db, tx: TxId, document: DocumentId)
    requires Enabled(db, Record(tx)) && db.txs[tx].document == document
    requires forall other :: other in Deliveries(db, document) && other != tx ==> db.txs[other].seen.None?
    ensures !DocumentLocked(Apply(db, Record(tx)), document)
    ensures forall other :: other in db.txs && other != tx ==>
              other in Apply(db, Record(tx)).txs && Apply(db, Record(tx)).txs[other] == db.txs[other]
  {
  }

  lemma ReadThenRecord(db: Db, tx: TxId, document: DocumentId)
    requires Sound(db) && tx in Deliveries(db, document) && db.txs[tx].seen.None? && !DocumentLocked(db, document)
    ensures var trace := [Read(tx), Record(tx)];
            && Runs(db, trace)
            && var after := After(db, trace);
            && EventsOf(after, document) == EventsOf(db, document) + 1
            && Sound(after) && Handled(after, document) && !DocumentLocked(after, document)
            && (forall other :: other in db.txs && other != tx ==>
              other in after.txs && after.txs[other] == db.txs[other])
  {
    var middle := Apply(db, Read(tx));
    StepKeepsSound(db, Read(tx));
    TwoSteps(db, Read(tx), Record(tx));
    RecordedOnce(middle, tx, document);
    StepKeepsSound(middle, Record(tx));
    RecordUnlocks(middle, tx, document);
  }

  /**
   The bound has to grow with k: the status is looked at before the transaction, so two
   deliveries that both saw the document pending both record it.
   */
  lemma TwoDeliveriesRecordTwice(db: Db, first: TxId, second: TxId, document: DocumentId)
    requires Sound(db) && first != second && {first, second} <= Deliveries(db, document)
    requires db.txs[first].seen.None? && db.txs[second].seen.None? && !DocumentLocked(db, document)
    ensures Runs(db, [Read(first), Record(first)])
    ensures var between := After(db, [Read(first), Record(first)]);
            && Handled(between, document)
            && Runs(between, [Read(second), Record(second)])
            && EventsOf(After(between, [Read(second), Record(second)]), document) == EventsOf(db, document) + 2
  {
    ReadThenRecord(db, first, document);
    var between := After(db, [Read(first), Record(first)]);
    assert second in db.txs && between.txs[second] == db.txs[second];
    ReadThenRecord(between, second, document);
  }
}
