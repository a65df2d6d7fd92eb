/**
 Reachable states in which two transactions have read the same rows before either wrote them, and
 what the second one then takes away.
 */
module CandidateRaces {
  import opened Wrappers
  import opened Sizes
  import Transitions
  import Identity
  import opened Candidates
  import opened CandidateProfiles
  import opened ResumeEvents

  // ----- one candidate, known by one phone number

  type Txs = map<TxId, Tx>
  type Documents = map<DocumentId, Document>

  /** Somebody known by one key, who typed nothing else. */
  ghost predicate OneKey(who: Submission, key: Key) {
    Lookups(who) == [key] && who.location.None? && who.linkedinUrl.None?
  }

  function At(who: Submission, location: Option<string>): Submission {
    who.(location := location)
  }

  lemma SameKey(who: Submission, key: Key, location: Option<string>)
    requires OneKey(who, key)
    ensures Lookups(At(who, location)) == [key]
  {
  }

  function ByPhone(phone: string): Submission {
    Submission("", Some(phone), None, None)
  }

  lemma OnlyThePhone(phone: string)
    ensures OneKey(ByPhone(phone), PhoneKey(phone))
  {
    assert Identity.Lowered(Transitions.Trim("")) == "";
  }

  const BLANK := Candidate(None, None, [])

  /** An intake that has found the candidate and looked at some of its keys. */
  function Looking(who: Submission, location: Option<string>, checked: nat): Tx {
    Resolving(At(who, location), Some(0), checked, {}, None)
  }

  /** One that only has to commit. */
  function Ready(who: Submission, location: Option<string>, seen: Candidate): Tx {
    Resolving(At(who, location), Some(0), 1, {}, Some(seen))
  }

  /** The key is candidate 0's, who is there. */
  ghost predicate Known(db: Db, key: Key) {
    db.keys == map[key := 0] && 0 in db.candidates
  }

  /** A step that changes one transaction and nothing else. */
  ghost predicate Becomes(db: Db, after: Db, tx: TxId, t: Tx) {
    && after.keys == db.keys && after.candidates == db.candidates && after.documents == db.documents
    && after.events == db.events && after.txs == db.txs[tx := t]
  }

  lemma BecomesTwice(db: Db, middle: Db, after: Db, tx: TxId, t: Tx, further: Tx)
    requires Becomes(db, middle, tx, t) && Becomes(middle, after, tx, further)
    ensures Becomes(db, after, tx, further)
  {
    assert db.txs[tx := t][tx := further] == db.txs[tx := further];
  }

  lemma Finds(db: Db, who: Submission, key: Key, tx: TxId, location: Option<string>)
    requires OneKey(who, key)
    requires Known(db, key) && tx !in db.txs
    ensures var step := Find(tx, At(who, location), Some(key));
            Enabled(db, step) && Becomes(db, Apply(db, step), tx, Looking(who, location, 0))
  {
    SameKey(who, key, location);
  }

  lemma Looks(db: Db, who: Submission, key: Key, tx: TxId, location: Option<string>)
    requires OneKey(who, key)
    requires Known(db, key) && tx in db.txs && db.txs[tx] == Looking(who, location, 0)
    ensures Enabled(db, Check(tx)) && Becomes(db, Apply(db, Check(tx)), tx, Looking(who, location, 1))
  {
    SameKey(who, key, location);
    assert Checked(db.keys, db.txs[tx]) == Looking(who, location, 1);
  }

  lemma ReadsProfile(db: Db, who: Submission, key: Key, tx: TxId, location: Option<string>)
    requires OneKey(who, key)
    requires Known(db, key) && tx in db.txs && db.txs[tx] == Looking(who, location, 1)
    ensures Enabled(db, Read(tx)) && Becomes(db, Apply(db, Read(tx)), tx, Ready(who, location, db.candidates[0]))
  {
    SameKey(who, key, location);
  }

  /** Another intake finds the candidate, checks its key and reads the profile. */
  lemma IntakeReads(db: Db, who: Submission, key: Key, tx: TxId, location: Option<string>) returns (after: Db)
    requires OneKey(who, key)
    requires Reachable(db) && Known(db, key) && tx !in db.txs
    ensures Reachable(after) && Known(after, key) && Becomes(db, after, tx, Ready(who, location, db.candidates[0]))
  {
    Finds(db, who, key, tx, location);
    var found := Take(db, Find(tx, At(who, location), Some(key)));
    Looks(found, who, key, tx, location);
    var looked := Take(found, Check(tx));
    BecomesTwice(db, found, looked, tx, Looking(who, location, 0), Looking(who, location, 1));
    ReadsProfile(looked, who, key, tx, location);
    after := Take(looked, Read(tx));
    BecomesTwice(db, looked, after, tx, Looking(who, location, 1), Ready(who, location, db.candidates[0]));
  }

  lemma Settles(db: Db, who: Submission, key: Key, tx: TxId, location: Option<string>, seen: Candidate,
                document: DocumentId)
    requires OneKey(who, key)
    requires Known(db, key) && tx in db.txs && db.txs[tx] == Ready(who, location, seen) && document !in db.documents
    ensures Enabled(db, Settle(tx, 0, document))
    ensures var after := Apply(db, Settle(tx, 0, document));
            && Known(after, key) && after.events == db.events && after.txs == db.txs - {tx}
            && after.candidates == db.candidates[0 := Applied(db.candidates[0], GapPatch(seen, At(who, location)))]
            && after.documents == db.documents[document := Document(0, Pending)]
  {
    assert Apply(db, Settle(tx, 0, document)).keys == db.keys;
  }

  /** Nobody but candidate 0, blank, with one document waiting. */
  lemma FirstIntake(who: Submission, key: Key) returns (db: Db)
    requires OneKey(who, key)
    ensures Reachable(db) && Known(db, key) && db.candidates == map[0 := BLANK] && db.txs == map[]
    ensures db.documents == map[0 := Document(0, Pending)] && db.events == multiset{}
  {
    FirstIntakeWithin(1, who, key);
    NobodyWaits(key);
    db := OnlyBlank(key);
    var trace :| Runs(NothingYet, trace) && After(NothingYet, trace) == db;
  }

  // ----- the races

  lemma FilledBySecond(db: Db, who: Submission, key: Key, here: string, there: string)
    requires OneKey(who, key)
    requires here != "" && there != "" && here != there
    requires Known(db, key) && db.candidates[0] == Candidate(Some(here), None, []) && 2 !in db.documents
    requires 2 in db.txs && db.txs[2] == Ready(who, Some(there), BLANK)
    ensures Enabled(db, Settle(2, 0, 2)) && !Harmless(db, Settle(2, 0, 2), 0)
    ensures 0 in Apply(db, Settle(2, 0, 2)).candidates
    ensures Apply(db, Settle(2, 0, 2)).candidates[0].location == Some(there)
  {
    Settles(db, who, key, 2, Some(there), BLANK, 2);
  }

  /**
   Two intakes that read the same gap both fill it: in a reachable state the candidate has the
   first one's location, and the second one's commit is about to replace it.
   */
  lemma SecondFillOverwrites(phone: string, here: string, there: string)
    requires here != "" && there != "" && here != there
    ensures exists db ::
              && Reachable(db) && 0 in db.candidates && db.candidates[0].location == Some(here)
              && Enabled(db, Settle(2, 0, 2)) && !Harmless(db, Settle(2, 0, 2), 0)
              && 0 in Apply(db, Settle(2, 0, 2)).candidates
              && Apply(db, Settle(2, 0, 2)).candidates[0].location == Some(there)
  {
    var who, key := ByPhone(phone), PhoneKey(phone);
    OnlyThePhone(phone);
    var db := FirstIntake(who, key);
    db := IntakeReads(db, who, key, 1, Some(here));
    db := IntakeReads(db, who, key, 2, Some(there));
    Settles(db, who, key, 1, Some(here), BLANK, 1);
    db := Take(db, Settle(1, 0, 1));
    FilledBySecond(db, who, key, here, there);
  }

  function Naming(skill: string): Parsed {
    Parsed(None, None, 1, None, [skill], 0)
  }

  lemma OneSkillMerged(skills: seq<string>, skill: string)
    ensures Merged([], [skill]) == [skill]
    ensures Applied(Candidate(None, None, skills), ParsePatch(BLANK, Naming(skill))) == Candidate(None, None, [skill])
  {
    assert [] + [skill] == [skill];
    assert Distinct([skill]) == [skill] by {
      DistinctIsFixed([skill]);
    }
  }

  lemma DeliveryBegins(db: Db, tx: TxId, document: DocumentId, parsed: Parsed)
    requires tx !in db.txs && document in db.documents && db.documents[document] == Document(0, Pending)
    ensures Enabled(db, Deliver(tx, document, parsed))
    ensures Becomes(db, Apply(db, Deliver(tx, document, parsed)), tx, Parsing(document, 0, parsed, None))
  {
  }

  lemma DeliveryReads(db: Db, tx: TxId, document: DocumentId, parsed: Parsed)
    requires tx in db.txs && db.txs[tx] == Parsing(document, 0, parsed, None)
    requires document in db.documents && 0 in db.candidates && !DocumentLocked(db, document)
    ensures Enabled(db, Read(tx))
    ensures Becomes(db, Apply(db, Read(tx)), tx, Parsing(document, 0, parsed, Some(db.candidates[0])))
  {
  }

  /** A delivery takes a document that waits, and reads the candidate. */
  lemma DeliveryStarts(db: Db, tx: TxId, document: DocumentId, parsed: Parsed) returns (after: Db)
    requires Reachable(db) && tx !in db.txs && document in db.documents
    requires db.documents[document] == Document(0, Pending)
    requires 0 in db.candidates && !DocumentLocked(db, document)
    ensures Reachable(after) && Becomes(db, after, tx, Parsing(document, 0, parsed, Some(db.candidates[0])))
  {
    DeliveryBegins(db, tx, document, parsed);
    var begun := Take(db, Deliver(tx, document, parsed));
    StillUnlocked(db, begun, tx, document, parsed);
    DeliveryReads(begun, tx, document, parsed);
    after := Take(begun, Read(tx));
    BecomesTwice(db, begun, after, tx, Parsing(document, 0, parsed, None),
                 Parsing(document, 0, parsed, Some(db.candidates[0])));
  }

  lemma StillUnlocked(db: Db, after: Db, tx: TxId, document: DocumentId, parsed: Parsed)
    requires Becomes(db, after, tx, Parsing(document, 0, parsed, None)) && !DocumentLocked(db, document)
    ensures !DocumentLocked(after, document)
  {
  }

  lemma RecordLeaves(db: Db, tx: TxId, document: DocumentId, parsed: Parsed, seen: Candidate)
    requires tx in db.txs && db.txs[tx] == Parsing(document, 0, parsed, Some(seen))
    requires document in db.documents && 0 in db.candidates
    ensures Enabled(db, Record(tx))
    ensures var after := Apply(db, Record(tx));
            && after.candidates == db.candidates[0 := Applied(db.candidates[0], ParsePatch(seen, parsed))]
            && after.txs == db.txs - {tx} && after.documents.Keys == db.documents.Keys
  {
  }

  lemma Records(db: Db, tx: TxId, document: DocumentId, skill: string, skills: seq<string>)
    requires tx in db.txs && db.txs[tx] == Parsing(document, 0, Naming(skill), Some(BLANK))
    requires document in db.documents && db.candidates == map[0 := Candidate(None, None, skills)]
    ensures Enabled(db, Record(tx))
    ensures Apply(db, Record(tx)).candidates == map[0 := Candidate(None, None, [skill])]
    ensures Apply(db, Record(tx)).txs == db.txs - {tx} && Apply(db, Record(tx)).documents.Keys == db.documents.Keys
  {
    RecordLeaves(db, tx, document, Naming(skill), BLANK);
    OneSkillMerged(skills, skill);
  }

  lemma DropsFirst(db: Db, first: string, second: string)
    requires first != second && db.candidates == map[0 := Candidate(None, None, [first])]
    requires 3 in db.txs && db.txs[3] == Parsing(1, 0, Naming(second), Some(BLANK)) && 1 in db.documents
    ensures Enabled(db, Record(3)) && first in db.candidates[0].skills && !Harmless(db, Record(3), 0)
    ensures 0 in Apply(db, Record(3)).candidates && Apply(db, Record(3)).candidates[0].skills == [second]
  {
    Records(db, 3, 1, second, [first]);
    OneSkillMerged([first], second);
    assert !([first] <= [second]) by {
      assert [first][0] != [second][0];
    }
  }

  /** A second intake of the same candidate, which leaves the profile blank and adds a document. */
  lemma TwoDocuments(who: Submission, key: Key) returns (db: Db)
    requires OneKey(who, key)
    ensures Reachable(db) && db.candidates == map[0 := BLANK] && db.txs == map[]
    ensures db.documents == map[0 := Document(0, Pending), 1 := Document(0, Pending)]
  {
    db := FirstIntake(who, key);
    db := IntakeReads(db, who, key, 1, None);
    Settles(db, who, key, 1, None, BLANK, 1);
    assert Applied(BLANK, GapPatch(BLANK, At(who, None))) == BLANK;
    db := Take(db, Settle(1, 0, 1));
  }

  /** Two documents of the candidate are being parsed, and both deliveries have read the profile. */
  lemma BothDeliveriesRead(who: Submission, key: Key, first: string, second: string) returns (db: Db)
    requires OneKey(who, key)
    ensures Reachable(db) && db.candidates == map[0 := BLANK] && {0, 1} <= db.documents.Keys
    ensures db.txs == map[2 := Parsing(0, 0, Naming(first), Some(BLANK)),
                          3 := Parsing(1, 0, Naming(second), Some(BLANK))]
  {
    db := TwoDocuments(who, key);
    db := DeliveryStarts(db, 2, 0, Naming(first));
    db := DeliveryStarts(db, 3, 1, Naming(second));
  }

  /**
   Two deliveries that read the same skills each write their own list: in a reachable state the
   first one's skill is recorded, and the second one's commit is about to drop it.
   */
  lemma StaleDeliveryDropsSkills(phone: string, first: string, second: string)
    requires first != second
    ensures exists db ::
              && Reachable(db) && 0 in db.candidates && first in db.candidates[0].skills
              && Enabled(db, Record(3)) && !Harmless(db, Record(3), 0)
              && 0 in Apply(db, Record(3)).candidates && first !in Apply(db, Record(3)).candidates[0].skills
  {
    OnlyThePhone(phone);
    var db := BothDeliveriesRead(ByPhone(phone), PhoneKey(phone), first, second);
    Records(db, 2, 0, first, []);
    db := Take(db, Record(2));
    DropsFirst(db, first, second);
  }

  // ----- one document delivered to many

  /** Reached with never more than `k` deliveries of document 0 being handled. */
  ghost predicate Within(k: nat, db: Db) {
    exists trace ::
      Runs(NothingYet, trace) && After(NothingYet, trace) == db && AtMostDeliveries(NothingYet, trace, 0, k)
  }

  lemma {:induction false} AtMostSnoc(db: Db, trace: seq<Step>, step: Step, k: nat)
    requires Runs(db, trace) && Enabled(After(db, trace), step) && AtMostDeliveries(db, trace, 0, k)
    requires |Deliveries(Apply(After(db, trace), step), 0)| <= k
    ensures Runs(db, trace + [step]) && AtMostDeliveries(db, trace + [step], 0, k)
    decreases |trace|
  {
    var longer := trace + [step];
    RunsSnoc(db, trace, step);
    if trace == [] {
      assert longer[0] == step && longer[1..] == [];
    } else {
      assert longer[0] == trace[0] && longer[1..] == trace[1..] + [step];
      AtMostSnoc(Apply(db, trace[0]), trace[1..], step, k);
    }
  }

  lemma WithinNext(k: nat, db: Db, step: Step, after: Db)
    requires Within(k, db) && Enabled(db, step) && Apply(db, step) == after && |after.txs.Keys| <= k
    ensures Within(k, after)
  {
    SubsetSize(Deliveries(after, 0), after.txs.Keys);
    var trace :| Runs(NothingYet, trace) && After(NothingYet, trace) == db && AtMostDeliveries(NothingYet, trace, 0, k);
    AtMostSnoc(NothingYet, trace, step, k);
    RunsSnoc(NothingYet, trace, step);
  }

  /** A parse that finds nothing at all: the candidate stays as it is. */
  const NOTHING := Parsed(None, None, 0, None, [], 0)

  ghost function Waiting(next: nat, last: nat): Txs {
    map i | i in Below(last) && next <= i :: Parsing(0, 0, NOTHING, None)
  }

  ghost function OneCandidate(key: Key, profile: Candidate, documents: Documents, events: multiset<ParseEvent>,
                              txs: Txs): Db
  {
    Db(map[key := 0], map[0 := profile], documents, events, txs)
  }

  /** Of the deliveries begun so far, those before `next` have recorded the document. */
  ghost function Recording(key: Key, next: nat, last: nat): Db {
    OneCandidate(key, BLANK, map[0 := Document(0, if next > 0 then Failed else Pending)],
                 multiset{}[ParseEvent(0, false) := next], Waiting(next, last))
  }

  lemma FewWait(next: nat, last: nat)
    ensures |Waiting(next, last).Keys| <= last
  {
    SubsetSize(Waiting(next, last).Keys, Below(last));
  }

  lemma FirstIntakeFinds(k: nat, who: Submission, key: Key)
    requires OneKey(who, key)
    requires k >= 1
    ensures Within(k, Stranger(who))
  {
    SameKey(who, key, None);
    assert Deliveries(NothingYet, 0) == {};
    assert Runs(NothingYet, []) && After(NothingYet, []) == NothingYet && AtMostDeliveries(NothingYet, [], 0, k);
    assert Stranger(who).txs.Keys == {0};
    WithinNext(k, NothingYet, Find(0, At(who, None), None), Stranger(who));
  }

  /** The first intake under a key, that has found nobody. */
  function Stranger(who: Submission): Db {
    NothingYet.(txs := map[0 := Resolving(At(who, None), None, 0, {}, None)])
  }

  function OnlyBlank(key: Key): Db {
    Db(map[key := 0], map[0 := BLANK], map[0 := Document(0, Pending)], multiset{}, map[])
  }

  lemma FirstSettles(who: Submission, key: Key)
    requires OneKey(who, key)
    ensures Enabled(Stranger(who), Settle(0, 0, 0)) && Apply(Stranger(who), Settle(0, 0, 0)) == OnlyBlank(key)
  {
    SameKey(who, key, None);
    assert ToClaim(Stranger(who).txs[0]) == {key};
    assert Claimed(map[], {key}, 0) == map[key := 0];
    assert Stranger(who).txs - {0} == map[];
  }

  lemma NobodyWaits(key: Key)
    ensures Recording(key, 0, 0) == OnlyBlank(key)
  {
    assert Waiting(0, 0) == map[] && multiset{}[ParseEvent(0, false) := 0] == multiset{};
  }

  lemma FirstIntakeWithin(k: nat, who: Submission, key: Key)
    requires OneKey(who, key)
    requires k >= 1
    ensures Within(k, Recording(key, 0, 0))
  {
    FirstIntakeFinds(k, who, key);
    FirstSettles(who, key);
    NobodyWaits(key);
    WithinNext(k, Stranger(who), Settle(0, 0, 0), OnlyBlank(key));
  }

  lemma OneMoreWaits(key: Key, last: nat)
    ensures var db := Recording(key, 0, last);
            && Enabled(db, Deliver(last, 0, NOTHING))
            && Apply(db, Deliver(last, 0, NOTHING)) == Recording(key, 0, last + 1)
  {
    assert Waiting(0, last)[last := Parsing(0, 0, NOTHING, None)] == Waiting(0, last + 1);
  }

  lemma {:induction false} AllWait(k: nat, who: Submission, key: Key, last: nat)
    requires OneKey(who, key)
    requires 1 <= k && last <= k
    ensures Within(k, Recording(key, 0, last))
    decreases last
  {
    if last == 0 {
      FirstIntakeWithin(k, who, key);
    } else {
      AllWait(k, who, key, last - 1);
      OneMoreWaits(key, last - 1);
      FewWait(0, last);
      WithinNext(k, Recording(key, 0, last - 1), Deliver(last - 1, 0, NOTHING), Recording(key, 0, last));
    }
  }

  /** The state in which the next delivery has read the candidate and holds the document. */
  ghost function Held(key: Key, next: nat, last: nat): Db {
    var db := Recording(key, next, last);
    db.(txs := db.txs[next := Parsing(0, 0, NOTHING, Some(BLANK))])
  }

  lemma NextReads(key: Key, next: nat, last: nat)
    requires next < last
    ensures Enabled(Recording(key, next, last), Read(next))
    ensures Apply(Recording(key, next, last), Read(next)) == Held(key, next, last)
    ensures Held(key, next, last).txs.Keys == Waiting(next, last).Keys
  {
    assert next in Below(last);
    assert next in Waiting(next, last);
  }

  lemma OneFewerWaits(next: nat, last: nat)
    requires next < last
    ensures Waiting(next, last)[next := Parsing(0, 0, NOTHING, Some(BLANK))] - {next} == Waiting(next + 1, last)
  {
  }

  lemma OneMoreEntry(n: nat)
    ensures multiset{}[ParseEvent(0, false) := n] + multiset{ParseEvent(0, false)} ==
              multiset{}[ParseEvent(0, false) := n + 1]
  {
  }

  lemma NothingChanges()
    ensures Applied(BLANK, ParsePatch(BLANK, NOTHING)) == BLANK && StatusOf(NOTHING) == Failed && !Extracted(NOTHING)
  {
  }

  lemma NextRecords(key: Key, next: nat, last: nat)
    requires next < last
    ensures Enabled(Held(key, next, last), Record(next))
    ensures Apply(Held(key, next, last), Record(next)) == Recording(key, next + 1, last)
  {
    NothingChanges();
    OneFewerWaits(next, last);
    OneMoreEntry(next);
    assert Apply(Held(key, next, last), Record(next)).candidates == map[0 := BLANK];
  }

  lemma {:induction false} AllRecord(k: nat, key: Key, next: nat, last: nat)
    requires next <= last <= k && Within(k, Recording(key, next, last))
    ensures Within(k, Recording(key, last, last))
    decreases last - next
  {
    if next < last {
      NextReads(key, next, last);
      FewWait(next, last);
      WithinNext(k, Recording(key, next, last), Read(next), Held(key, next, last));
      NextRecords(key, next, last);
      FewWait(next + 1, last);
      WithinNext(k, Held(key, next, last), Record(next), Recording(key, next + 1, last));
      AllRecord(k, key, next + 1, last);
    }
  }

  /**
   The bound on entries is the best there is: for any k there is a run, with at most k deliveries
   of a document at once, that records it k times.
   */
  lemma EventsReachTheBound(phone: string, k: nat)
    requires k >= 1
    ensures exists db :: Within(k, db) && EventsOf(db, 0) == k
  {
    var key := PhoneKey(phone);
    OnlyThePhone(phone);
    AllWait(k, ByPhone(phone), key, k);
    AllRecord(k, key, 0, k);
    var db := Recording(key, k, k);
    assert db.events[ParseEvent(0, false)] == k && db.events[ParseEvent(0, true)] == 0;
  }
}
