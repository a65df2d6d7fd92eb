/**
 Finding or creating the candidate of a submission, and handling a parse job, statement by
 statement: between any two statements other transactions may read, commit and abort.
 */
module CandidateServices {
  import opened Wrappers
  import Identity
  import opened Candidates
  import CandidateKeys

  /** `KeyTaken` is the unique index's own error, which nothing turns into a friendlier answer. */
  datatype Failure = KeyTaken | DatabaseError

  predicate IsCommit(step: Step) {
    step.Settle? || step.Record?
  }

  /** How often a transaction has committed. */
  ghost function CommitsOf(trace: seq<Step>, tx: TxId): nat {
    if trace == [] then 0
    else
      var last := trace[|trace| - 1];
      CommitsOf(trace[..|trace| - 1], tx) + if last.tx == tx && IsCommit(last) then 1 else 0
  }

  lemma CommitsGrow(trace: seq<Step>, step: Step, tx: TxId)
    ensures CommitsOf(trace + [step], tx) == CommitsOf(trace, tx) + if step.tx == tx && IsCommit(step) then 1 else 0
  {
    assert (trace + [step])[..|trace|] == trace;
  }

  lemma {:induction false} OthersLeaveIt(db: Db, trace: seq<Step>, more: seq<Step>, tx: TxId)
    requires Runs(db, more) && forall step :: step in more ==> step.tx != tx
    ensures tx in After(db, more).txs <==> tx in db.txs
    ensures tx in db.txs ==> After(db, more).txs[tx] == db.txs[tx]
    ensures CommitsOf(trace + more, tx) == CommitsOf(trace, tx)
    decreases |more|
  {
    if more == [] {
      assert trace + more == trace;
    } else {
      assert more[0] in more;
      OthersLeaveIt(Apply(db, more[0]), trace + [more[0]], more[1..], tx);
      CommitsGrow(trace, more[0], tx);
      assert trace + more == trace + [more[0]] + more[1..];
    }
  }

  lemma {:induction false} RunsJoin(db: Db, trace: seq<Step>, more: seq<Step>)
    requires Runs(db, trace) && Runs(db, trace + more)
    ensures Runs(After(db, trace), more) && After(db, trace + more) == After(After(db, trace), more)
    decreases |trace|
  {
    if trace == [] {
      assert trace + more == more;
    } else {
      assert (trace + more)[1..] == trace[1..] + more;
      RunsJoin(Apply(db, trace[0]), trace[1..], more);
    }
  }

  /** Keys stay with their candidates, documents stay, and one that was handled stays handled. */
  ghost predicate Stays(before: Db, after: Db) {
    && (forall key :: key in before.keys ==> key in after.keys && after.keys[key] == before.keys[key])
    && (forall document :: document in before.documents ==>
          && document in after.documents
          && (before.documents[document].status != Pending ==> after.documents[document].status != Pending))
  }

  lemma StepLeaves(db: Db, step: Step)
    requires Enabled(db, step)
    ensures Stays(db, Apply(db, step))
  {
  }

  lemma {:induction false} RunsLeave(db: Db, trace: seq<Step>)
    requires Runs(db, trace)
    ensures Stays(db, After(db, trace))
    decreases |trace|
  {
    if trace != [] {
      StepLeaves(db, trace[0]);
      RunsLeave(Apply(db, trace[0]), trace[1..]);
    }
  }

  lemma CheckedIs(keys: map<Key, CandidateId>, t: Tx)
    requires t.Resolving? && t.checked < |Lookups(t.submission)|
    ensures var next := Checked(keys, t);
            && next.Resolving? && next.submission == t.submission && next.owner == t.owner && next.seen == t.seen
            && next.checked == t.checked + 1
            && forall key :: key in next.claims ==> key in t.claims || key !in keys
  {
  }

  datatype Outcome = Skipped | AlreadyParsed | ParsedResume | NoTextExtracted

  predicate WentThrough(outcome: Outcome) {
    outcome == ParsedResume || outcome == NoTextExtracted
  }

  /**
   What a parse comes to: failed when neither an address nor a name nor any experience was found,
   otherwise a success, or a partial one with warnings.
   */
  ghost predicate Recorded(parsed: Parsed, status: ParseStatus, outcome: Outcome) {
    var foundSomething := parsed.email != None || parsed.fullName != None || parsed.experiences >= 1;
    match status
    case Pending => false
    case Failed => !foundSomething && outcome == NoTextExtracted
    case Succeeded => foundSomething && parsed.warnings == 0 && outcome == ParsedResume
    case Partial => foundSomething && parsed.warnings >= 1 && outcome == ParsedResume
  }

  function OutcomeOf(parsed: Parsed): Outcome {
    if Extracted(parsed) then ParsedResume else NoTextExtracted
  }

  /** The last thing that happened is the commit of the delivery, with status and entry as they should be. */
  ghost predicate Delivered(trace: seq<Step>, db: Db, tx: TxId, document: DocumentId, parsed: Parsed,
                            outcome: Outcome)
  {
    && WentThrough(outcome)
    && trace != [] && trace[|trace| - 1] == Record(tx)
    && document in db.documents && Recorded(parsed, db.documents[document].status, outcome)
    && ParseEvent(document, outcome == ParsedResume) in db.events
  }

  /** The tables, with every step taken on them so far. */
  class Records {
    var db: Db
    ghost var trace: seq<Step>
    /** How many statements failed for reasons outside the program: a lost connection, a lock never got. */
    ghost var faults: nat

    ghost predicate Valid()
      reads this
    {
      Runs(NothingYet, trace) && db == After(NothingYet, trace) && Sound(db)
    }

    constructor ()
      ensures Valid() && trace == [] && faults == 0
    {
      db := NothingYet;
      trace := [];
      faults := 0;
    }

    method Breaks() returns (broken: bool)
      requires Valid()
      modifies this`faults
      ensures Valid() && faults == old(faults) + if broken then 1 else 0
    {
      broken := *;
      if broken {
        faults := faults + 1;
      }
    }

    /** The row of a document that another delivery keeps locked too long. */
    method TimesOut(document: DocumentId) returns (inVain: bool)
      requires Valid()
      modifies this`faults
      ensures Valid() && (inVain <==> DocumentLocked(db, document)) && faults == old(faults) + if inVain then 1 else 0
    {
      inVain := DocumentLocked(db, document);
      if inVain {
        faults := faults + 1;
      }
    }

    ghost function Commits(tx: TxId): nat
      reads this
    {
      CommitsOf(trace, tx)
    }

    method Perform(step: Step)
      requires Valid() && Enabled(db, step)
      modifies this`db, this`trace
      ensures Valid() && db == Apply(old(db), step) && trace == old(trace) + [step]
      ensures forall tx :: Commits(tx) == old(Commits(tx)) + if step.tx == tx && IsCommit(step) then 1 else 0
    {
      RunsSnoc(NothingYet, trace, step);
      StepKeepsSound(db, step);
      forall tx { CommitsGrow(trace, step, tx); }
      db := Apply(db, step);
      trace := trace + [step];
    }

    /** Whatever other transactions do meanwhile. */
    method Others(tx: TxId)
      requires Valid()
      modifies this`db, this`trace
      ensures Valid() && old(trace) <= trace
      ensures forall step :: step in trace[|old(trace)|..] ==> step.tx != tx
      ensures tx in db.txs <==> tx in old(db).txs
      ensures tx in db.txs ==> db.txs[tx] == old(db).txs[tx]
      ensures Commits(tx) == old(Commits(tx)) && Stays(old(db), db)
    {
      // Left to the environment; whatever it adds, these facts follow from the rest.
      assert trace == old(trace) + trace[|old(trace)|..];
      RunsJoin(NothingYet, old(trace), trace[|old(trace)|..]);
      OthersLeaveIt(old(db), old(trace), trace[|old(trace)|..], tx);
      RunsLeave(old(db), trace[|old(trace)|..]);
    }

    method Locate(tx: TxId, submission: Submission, key: Option<Key>)
      requires Valid() && Enabled(db, Find(tx, submission, key))
      modifies this`db, this`trace
      ensures Valid() && old(trace) <= trace && Commits(tx) == old(Commits(tx))
      ensures db.keys == old(db).keys && db.documents == old(db).documents && tx in db.txs
      ensures db.txs[tx] == Resolving(submission, if key.Some? then Some(db.keys[key.value]) else None, 0, {}, None)
    {
      Perform(Find(tx, submission, key));
    }

    method CheckNext(tx: TxId)
      requires Valid() && tx in db.txs && db.txs[tx].Resolving? && db.txs[tx].owner.Some?
      requires db.txs[tx].checked < |Lookups(db.txs[tx].submission)|
      modifies this`db, this`trace
      ensures Valid() && old(trace) <= trace && Commits(tx) == old(Commits(tx))
      ensures db.keys == old(db).keys && db.documents == old(db).documents && tx in db.txs && db.txs[tx].Resolving?
      ensures var t := old(db).txs[tx];
              && db.txs[tx].submission == t.submission && db.txs[tx].owner == t.owner && db.txs[tx].seen == t.seen
              && db.txs[tx].checked == t.checked + 1
              && forall key :: key in db.txs[tx].claims ==> key in t.claims || key !in db.keys
    {
      CheckedIs(db.keys, db.txs[tx]);
      Perform(Check(tx));
    }

    method ReadCandidate(tx: TxId)
      requires Valid() && Enabled(db, Read(tx))
      modifies this`db, this`trace
      ensures Valid() && old(trace) <= trace && Commits(tx) == old(Commits(tx))
      ensures db.keys == old(db).keys && db.candidates == old(db).candidates && db.documents == old(db).documents
      ensures tx in db.txs && Target(old(db).txs[tx]).value in db.candidates
      ensures db.txs[tx] == old(db).txs[tx].(seen := Some(db.candidates[Target(old(db).txs[tx]).value]))
    {
      Perform(Read(tx));
    }

    method Rollback(tx: TxId)
      requires Valid() && tx in db.txs
      modifies this`db, this`trace
      ensures Valid() && old(trace) <= trace && Commits(tx) == old(Commits(tx)) && tx !in db.txs
      ensures db == old(db).(txs := old(db).txs - {tx})
    {
      Perform(Abort(tx));
    }

    method CommitIntake(tx: TxId, candidate: CandidateId, document: DocumentId)
      requires Valid() && Enabled(db, Settle(tx, candidate, document))
      modifies this`db, this`trace
      ensures Valid() && old(trace) + [Settle(tx, candidate, document)] == trace
      ensures Commits(tx) == old(Commits(tx)) + 1 && tx !in db.txs
      ensures document in db.documents && db.documents[document] == Document(candidate, Pending)
      ensures candidate in db.candidates && old(db).txs[tx].Resolving?
      ensures db.keys == Claimed(old(db).keys, ToClaim(old(db).txs[tx]), candidate)
    {
      Perform(Settle(tx, candidate, document));
    }

    method TakeDelivery(tx: TxId, document: DocumentId, parsed: Parsed)
      requires Valid() && tx !in db.txs && document in db.documents && db.documents[document].status == Pending
      modifies this`db, this`trace
      ensures Valid() && old(trace) <= trace && Commits(tx) == old(Commits(tx)) && tx in db.txs
      ensures db.txs[tx] == Parsing(document, old(db).documents[document].candidate, parsed, None)
    {
      Perform(Deliver(tx, document, parsed));
    }

    method CommitRecord(tx: TxId)
      requires Valid() && tx in db.txs && db.txs[tx].Parsing? && db.txs[tx].seen.Some?
      modifies this`db, this`trace
      ensures Valid() && old(trace) + [Record(tx)] == trace && Commits(tx) == old(Commits(tx)) + 1 && tx !in db.txs
      ensures var t := old(db).txs[tx];
              Delivered(trace, db, tx, t.document, t.parsed, OutcomeOf(t.parsed))
    {
      Perform(Record(tx));
    }

    lemma DocumentExists(tx: TxId)
      requires Valid() && tx in db.txs && db.txs[tx].Parsing?
      ensures db.txs[tx].document in db.documents && db.txs[tx].candidate in db.candidates
    {
    }

    lemma CanCommit(tx: TxId, candidate: CandidateId, document: DocumentId)
      requires Valid() && tx in db.txs && db.txs[tx].Resolving? && document !in db.documents
      requires forall key :: key in ToClaim(db.txs[tx]) ==> key !in db.keys
      requires db.txs[tx].owner.Some? ==> db.txs[tx].owner.value == candidate && db.txs[tx].seen.Some?
      requires db.txs[tx].owner.None? ==> candidate !in db.candidates
      ensures Enabled(db, Settle(tx, candidate, document)) && ResolvingSound(db.keys, db.txs[tx])
      ensures db.txs[tx].owner.Some? ==> db.txs[tx].checked == |Lookups(db.txs[tx].submission)|
    {
      assert ResolvingSound(db.keys, db.txs[tx]);
    }

    /** Every key a finished check has looked at is somebody's, or is to be claimed. */
    lemma AllLookedAt(tx: TxId)
      requires Valid() && tx in db.txs && db.txs[tx].Resolving?
      requires db.txs[tx].checked == |Lookups(db.txs[tx].submission)|
      ensures forall key :: key in Lookups(db.txs[tx].submission) ==> key in db.keys || key in db.txs[tx].claims
    {
      assert ResolvingSound(db.keys, db.txs[tx]);
    }

    lemma OwnerExists(tx: TxId)
      requires Valid() && tx in db.txs && db.txs[tx].Resolving? && db.txs[tx].owner.Some?
      ensures db.txs[tx].owner.value in db.candidates
    {
      assert ResolvingSound(db.keys, db.txs[tx]);
    }
  }

  datatype Resolved = Resolved(owner: Option<CandidateId>, isNew: bool, matchedOn: Option<Key>)

  /** A transaction that has decided whose submission this is and only has to commit. */
  ghost predicate Decided(db: Db, tx: TxId, submission: Submission, resolved: Resolved) {
    && tx in db.txs && db.txs[tx].Resolving? && db.txs[tx].submission == submission
    && db.txs[tx].owner == resolved.owner
    && (resolved.isNew <==> resolved.owner.None?)
    && (resolved.matchedOn.Some? <==> resolved.owner.Some?)
    && (resolved.owner.Some? ==>
          && db.txs[tx].seen.Some? && resolved.owner.value in db.candidates
          && resolved.matchedOn.value in Lookups(submission) && resolved.matchedOn.value in db.keys
          && db.keys[resolved.matchedOn.value] == resolved.owner.value
          && forall key :: key in Lookups(submission) ==> key in db.keys || key in db.txs[tx].claims)
  }

  /** What the transaction is to claim was nobody's then. */
  ghost predicate FreeBefore(before: map<Key, CandidateId>, t: Tx) {
    t.Resolving? && forall key :: key in ToClaim(t) ==> key !in before
  }

  lemma DecidedStays(before: Db, after: Db, tx: TxId, submission: Submission, resolved: Resolved)
    requires Decided(before, tx, submission, resolved) && Stays(before, after) && Sound(after)
    requires tx in after.txs && after.txs[tx] == before.txs[tx]
    ensures Decided(after, tx, submission, resolved)
  {
  }

  class CandidateIdentityService {
    const store: Records

    constructor (store: Records)
      ensures this.store == store
    {
      this.store := store;
    }

    /** Any candidate found through any matching key, or a new one. */
    method Resolve(tx: TxId, submission: Submission) returns (resolved: Resolved)
      requires store.Valid() && tx !in store.db.txs
      modifies store`db, store`trace
      ensures store.Valid() && old(store.trace) <= store.trace && store.Commits(tx) == old(store.Commits(tx))
      ensures Decided(store.db, tx, submission, resolved) && Stays(old(store.db), store.db)
      ensures FreeBefore(old(store.db).keys, store.db.txs[tx])
    {
      var email := Identity.NormalizeEmail(submission.email);
      var lookups: seq<Key> := [];
      if email.Some? {
        lookups := lookups + [EmailKey(email.value.key)];
      }
      if submission.phoneKey.Some? {
        lookups := lookups + [PhoneKey(submission.phoneKey.value)];
      }
      assert lookups == Lookups(submission);
      store.Others(tx);
      if key :| key in lookups && key in store.db.keys {
        resolved := Match(tx, submission, lookups, key);
      } else {
        store.Locate(tx, submission, None);
        resolved := Resolved(None, true, None);
      }
    }

    /** The candidate who has the key gets the free keys, and the gaps in the profile filled. */
    method Match(tx: TxId, submission: Submission, lookups: seq<Key>, key: Key) returns (resolved: Resolved)
      requires store.Valid() && tx !in store.db.txs && lookups == Lookups(submission)
      requires key in lookups && key in store.db.keys
      modifies store`db, store`trace
      ensures store.Valid() && old(store.trace) <= store.trace && store.Commits(tx) == old(store.Commits(tx))
      ensures Decided(store.db, tx, submission, resolved) && Stays(old(store.db), store.db)
      ensures resolved == Resolved(Some(old(store.db).keys[key]), false, Some(key))
      ensures FreeBefore(old(store.db).keys, store.db.txs[tx])
    {
      store.Locate(tx, submission, Some(key));
      var owner := store.db.txs[tx].owner.value;
      BackfillKeys(tx, lookups, key, owner);
      var patch := FillProfileGaps(tx);
      resolved := Resolved(Some(owner), false, Some(key));
    }

    /** One key at a time: a key somebody holds is left alone, a free one is to be claimed. */
    method BackfillKeys(tx: TxId, lookups: seq<Key>, found: Key, owner: CandidateId)
      requires store.Valid() && tx in store.db.txs && store.db.txs[tx].Resolving?
      requires lookups == Lookups(store.db.txs[tx].submission)
      requires store.db.txs[tx].owner == Some(owner) && store.db.txs[tx].checked == 0 && store.db.txs[tx].seen.None?
      requires found in store.db.keys && store.db.keys[found] == owner && store.db.txs[tx].claims == {}
      modifies store`db, store`trace
      ensures store.Valid() && old(store.trace) <= store.trace && store.Commits(tx) == old(store.Commits(tx))
      ensures tx in store.db.txs && store.db.txs[tx].Resolving? && store.db.txs[tx].seen.None?
      ensures store.db.txs[tx].submission == old(store.db).txs[tx].submission
      ensures store.db.txs[tx].owner == Some(owner) && store.db.txs[tx].checked == |lookups|
      ensures found in store.db.keys && store.db.keys[found] == owner && Stays(old(store.db), store.db)
      ensures forall key :: key in store.db.txs[tx].claims ==> key !in old(store.db).keys
      ensures forall key :: key in lookups ==> key in store.db.keys || key in store.db.txs[tx].claims
    {
      for i := 0 to |lookups|
        invariant store.Valid() && old(store.trace) <= store.trace && store.Commits(tx) == old(store.Commits(tx))
        invariant tx in store.db.txs && store.db.txs[tx].Resolving? && store.db.txs[tx].seen.None?
        invariant store.db.txs[tx].submission == old(store.db).txs[tx].submission
        invariant store.db.txs[tx].owner == Some(owner) && store.db.txs[tx].checked == i
        invariant found in store.db.keys && store.db.keys[found] == owner && Stays(old(store.db), store.db)
        invariant forall key :: key in store.db.txs[tx].claims ==> key !in old(store.db).keys
      {
        store.Others(tx);
        store.CheckNext(tx);
      }
      store.AllLookedAt(tx);
    }

    /** Reads the profile; what it fills is what was blank then. */
    method FillProfileGaps(tx: TxId) returns (patch: Patch)
      requires store.Valid() && tx in store.db.txs && store.db.txs[tx].Resolving?
      requires store.db.txs[tx].owner.Some? && store.db.txs[tx].seen.None?
      requires store.db.txs[tx].checked == |Lookups(store.db.txs[tx].submission)|
      modifies store`db, store`trace
      ensures store.Valid() && old(store.trace) <= store.trace && store.Commits(tx) == old(store.Commits(tx))
      ensures store.db.keys == old(store.db).keys && store.db.candidates == old(store.db).candidates
      ensures store.db.documents == old(store.db).documents
      ensures tx in store.db.txs && store.db.txs[tx].Resolving?
      ensures var was, t := old(store.db).txs[tx], store.db.txs[tx];
              && t.submission == was.submission && t.owner == was.owner && t.claims == was.claims
              && was.owner.value in store.db.candidates
              && t.seen == Some(store.db.candidates[was.owner.value])
              && patch == GapPatch(store.db.candidates[was.owner.value], was.submission)
    {
      store.OwnerExists(tx);
      store.ReadCandidate(tx);
      patch := BuildGapPatch(store.db.txs[tx].seen.value, store.db.txs[tx].submission);
    }
  }

  /** The patch is built field by field; only a gap that can be filled becomes part of it. */
  method BuildGapPatch(current: Candidate, submission: Submission) returns (patch: Patch)
    ensures patch == GapPatch(current, submission)
    ensures patch.location.Some? <==> !Given(current.location) && Given(submission.location)
  {
    patch := Patch(None, None, None);
    if !Given(current.location) && Given(submission.location) {
      patch := patch.(location := submission.location);
    }
    if !Given(current.linkedinUrl) && EmptyToNull(submission.linkedinUrl).Some? {
      patch := patch.(linkedinUrl := submission.linkedinUrl);
    }
  }

  class ApplicationIntake {
    const store: Records
    const identity: CandidateIdentityService

    constructor (store: Records, identity: CandidateIdentityService)
      requires identity.store == store
      ensures this.store == store && this.identity == identity
    {
      this.store := store;
      this.identity := identity;
    }

    /**
     A submission that is accepted has committed once; every one of its keys is then somebody's,
     a match was the candidate it went to, and its document waits to be parsed. One that lost a
     key to another intake, or failed otherwise, has committed nothing.
     */
    method Submit(tx: TxId, submission: Submission, newId: CandidateId, document: DocumentId)
      returns (result: Result<CandidateId, Failure>)
      requires store.Valid() && tx !in store.db.txs && identity.store == store
      modifies store
      ensures store.Valid() && old(store.trace) <= store.trace && tx !in store.db.txs
      ensures store.Commits(tx) == old(store.Commits(tx)) + if result.Ok? then 1 else 0
      ensures Answered(old(store.db).keys, store.trace, store.db, tx, submission, newId, document, result,
                       store.faults > old(store.faults))
    {
      var resolved := identity.Resolve(tx, submission);
      Meanwhile(tx, submission, resolved);
      result := Commit(tx, submission, resolved, newId, document, old(store.db).keys);
    }

    /** Others act before the rows of the intake are written. */
    method Meanwhile(tx: TxId, submission: Submission, resolved: Resolved)
      requires store.Valid() && Decided(store.db, tx, submission, resolved)
      modifies store`db, store`trace
      ensures store.Valid() && old(store.trace) <= store.trace && store.Commits(tx) == old(store.Commits(tx))
      ensures Decided(store.db, tx, submission, resolved) && store.db.txs[tx] == old(store.db).txs[tx]
    {
      ghost var before := store.db;
      store.Others(tx);
      DecidedStays(before, store.db, tx, submission, resolved);
    }

    /** All rows of the intake together, or none; `before` are the keys there were when it began. */
    method Commit(tx: TxId, submission: Submission, resolved: Resolved, newId: CandidateId, document: DocumentId,
                  ghost before: map<Key, CandidateId>)
      returns (result: Result<CandidateId, Failure>)
      requires store.Valid() && Decided(store.db, tx, submission, resolved)
      requires FreeBefore(before, store.db.txs[tx])
      modifies store
      ensures store.Valid() && old(store.trace) <= store.trace && tx !in store.db.txs
      ensures store.Commits(tx) == old(store.Commits(tx)) + if result.Ok? then 1 else 0
      ensures Answered(before, store.trace, store.db, tx, submission, newId, document, result,
                       store.faults > old(store.faults))
    {
      ghost var t := store.db.txs[tx];
      var candidate := if resolved.owner.Some? then resolved.owner.value else newId;
      var broken := store.Breaks();
      if broken || document in store.db.documents || (resolved.isNew && newId in store.db.candidates) {
        store.Rollback(tx);
        return Err(DatabaseError);
      }
      if exists key :: key in ToClaim(store.db.txs[tx]) && key in store.db.keys {
        Lost(before, store.db.keys, t);
        store.Rollback(tx);
        return Err(KeyTaken);
      }
      WriteRows(tx, submission, candidate, document);
      result := Ok(candidate);
    }

    method WriteRows(tx: TxId, submission: Submission, candidate: CandidateId, document: DocumentId)
      requires store.Valid() && tx in store.db.txs && store.db.txs[tx].Resolving?
      requires store.db.txs[tx].submission == submission && document !in store.db.documents
      requires forall key :: key in ToClaim(store.db.txs[tx]) ==> key !in store.db.keys
      requires var t := store.db.txs[tx];
               && (t.owner.Some? ==> t.owner.value == candidate && t.seen.Some?)
               && (t.owner.None? ==> candidate !in store.db.candidates)
      modifies store`db, store`trace
      ensures store.Valid() && old(store.trace) <= store.trace && tx !in store.db.txs
      ensures store.Commits(tx) == old(store.Commits(tx)) + 1
      ensures Accepted(store.trace, store.db, tx, submission, candidate, document)
    {
      ghost var keys, t := store.db.keys, store.db.txs[tx];
      store.CanCommit(tx, candidate, document);
      store.CommitIntake(tx, candidate, document);
      KeysAfter(keys, t, candidate);
    }
  }

  /** The last thing that happened is the commit of the intake, with its keys taken and its document waiting. */
  ghost predicate Accepted(trace: seq<Step>, db: Db, tx: TxId, submission: Submission, candidate: CandidateId,
                           document: DocumentId)
  {
    && trace != [] && trace[|trace| - 1] == Settle(tx, candidate, document)
    && document in db.documents && db.documents[document] == Document(candidate, Pending)
    && KeysServed(db.keys, submission, candidate)
  }

  /** Every key of the submission is somebody's, and if there are any, one is the candidate's. */
  ghost predicate KeysServed(keys: map<Key, CandidateId>, submission: Submission, candidate: CandidateId) {
    && (forall key :: key in Lookups(submission) ==> key in keys)
    && (Lookups(submission) != [] ==> exists key :: key in Lookups(submission) && keys[key] == candidate)
  }

  /** How an intake ends: accepted, beaten to a key, or failed by a fault or an id that is in use. */
  ghost predicate Answered(before: map<Key, CandidateId>, trace: seq<Step>, db: Db, tx: TxId, submission: Submission,
                           newId: CandidateId, document: DocumentId, result: Result<CandidateId, Failure>,
                           faulty: bool)
  {
    match result
    case Ok(candidate) => Accepted(trace, db, tx, submission, candidate, document)
    case Err(KeyTaken) => LostKey(before, db.keys, submission)
    case Err(DatabaseError) => faulty || document in db.documents || newId in db.candidates
  }

  /** A key of the submission that was free when it began is somebody's now. */
  ghost predicate LostKey(before: map<Key, CandidateId>, after: map<Key, CandidateId>, submission: Submission) {
    exists key :: key in Lookups(submission) && key !in before && key in after
  }

  lemma Lost(before: map<Key, CandidateId>, after: map<Key, CandidateId>, t: Tx)
    requires t.Resolving? && ResolvingSound(after, t)
    requires FreeBefore(before, t)
    requires exists key :: key in ToClaim(t) && key in after
    ensures LostKey(before, after, t.submission)
  {
    var key :| key in ToClaim(t) && key in after;
    assert key in Lookups(t.submission);
  }

  lemma KeysAfter(keys: map<Key, CandidateId>, t: Tx, candidate: CandidateId)
    requires CandidateKeys.MayClaim(keys, t, candidate)
    ensures KeysServed(Claimed(keys, ToClaim(t), candidate), t.submission, candidate)
  {
    var after, lookups := Claimed(keys, ToClaim(t), candidate), Lookups(t.submission);
    CandidateKeys.AllTaken(keys, t, candidate);
    if t.owner.Some? {
      var key :| key in lookups && key in keys && keys[key] == candidate;
      assert after[key] == candidate;
    } else if lookups != [] {
      assert after[lookups[0]] == candidate;
    }
  }

  class ResumeParseProcessor {
    const store: Records

    constructor (store: Records)
      ensures this.store == store
    {
      this.store := store;
    }

    /**
     A delivery that gets through records its document once, with the status and the kind of
     entry the parse gives. One that finds no document skips it, one whose document was handled
     says so, and neither records anything; it fails only by a fault.
     */
    method Process(tx: TxId, document: DocumentId, parsed: Parsed) returns (result: Result<Outcome, Failure>)
      requires store.Valid() && tx !in store.db.txs
      modifies store
      ensures store.Valid() && old(store.trace) <= store.trace && tx !in store.db.txs
      ensures store.Commits(tx) == old(store.Commits(tx)) + if result.Ok? && WentThrough(result.value) then 1 else 0
      ensures result.Ok? && WentThrough(result.value) ==>
                Delivered(store.trace, store.db, tx, document, parsed, result.value)
      ensures result == Ok(Skipped) ==> document !in old(store.db).documents
      ensures result == Ok(AlreadyParsed) ==>
                document in store.db.documents && store.db.documents[document].status != Pending
      ensures document in old(store.db).documents && old(store.db).documents[document].status != Pending ==>
                result == Ok(AlreadyParsed)
      ensures result.Err? ==> store.faults > old(store.faults)
    {
      var nothingToDo := LookUp(tx, document, parsed);
      if nothingToDo.Some? {
        return Ok(nothingToDo.value);
      }
      result := RecordParse(tx, document, parsed);
    }

    /** Whether the document is there and still to be parsed; if so, it is fetched and parsed. */
    method LookUp(tx: TxId, document: DocumentId, parsed: Parsed) returns (nothingToDo: Option<Outcome>)
      requires store.Valid() && tx !in store.db.txs
      modifies store`db, store`trace
      ensures store.Valid() && old(store.trace) <= store.trace && store.Commits(tx) == old(store.Commits(tx))
      ensures nothingToDo == None || nothingToDo == Some(Skipped) || nothingToDo == Some(AlreadyParsed)
      ensures nothingToDo.Some? <==> tx !in store.db.txs
      ensures nothingToDo == Some(Skipped) ==> document !in old(store.db).documents
      ensures nothingToDo == Some(AlreadyParsed) ==>
                document in store.db.documents && store.db.documents[document].status != Pending
      ensures nothingToDo.None? ==>
                && store.db.txs[tx].Parsing? && store.db.txs[tx].seen.None?
                && store.db.txs[tx].document == document && store.db.txs[tx].parsed == parsed
      ensures document in old(store.db).documents && old(store.db).documents[document].status != Pending ==>
                nothingToDo == Some(AlreadyParsed)
    {
      store.Others(tx);
      if document !in store.db.documents {
        return Some(Skipped);
      }
      if store.db.documents[document].status != Pending {
        return Some(AlreadyParsed);
      }
      store.TakeDelivery(tx, document, parsed);
      store.Others(tx);
      nothingToDo := None;
    }

    /** The transaction of a delivery: the document first, then the candidate, then the log. */
    method RecordParse(tx: TxId, document: DocumentId, parsed: Parsed) returns (result: Result<Outcome, Failure>)
      requires store.Valid() && tx in store.db.txs && store.db.txs[tx].Parsing? && store.db.txs[tx].seen.None?
      requires store.db.txs[tx].document == document && store.db.txs[tx].parsed == parsed
      modifies store
      ensures store.Valid() && old(store.trace) <= store.trace && tx !in store.db.txs
      ensures store.Commits(tx) == old(store.Commits(tx)) + if result.Ok? then 1 else 0
      ensures result.Ok? ==> Delivered(store.trace, store.db, tx, document, parsed, result.value)
      ensures result.Err? ==> store.faults > old(store.faults)
    {
      var inVain := store.TimesOut(document);
      if inVain {
        store.Rollback(tx);
        return Err(DatabaseError);
      }
      store.DocumentExists(tx);
      store.ReadCandidate(tx);
      store.Others(tx);
      var broken := store.Breaks();
      if broken {
        store.Rollback(tx);  // beaten to the next number in the log
        return Err(DatabaseError);
      }
      store.CommitRecord(tx);
      result := Ok(OutcomeOf(parsed));
    }
  }
}
