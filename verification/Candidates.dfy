/**
 Candidates, their identity keys and their resumes as one database used by concurrent
 transactions: intakes that find or create a candidate, and deliveries of parse jobs.
 */
module Candidates {
  import opened Wrappers
  import opened Transitions
  import Identity

  type CandidateId = nat
  type DocumentId = nat
  type TxId = nat

  datatype Key = EmailKey(value: string) | PhoneKey(value: string)

  datatype Candidate = Candidate(location: Option<string>, linkedinUrl: Option<string>, skills: seq<string>)

  datatype ParseStatus = Pending | Succeeded | Partial | Failed

  datatype Document = Document(candidate: CandidateId, status: ParseStatus)

  /** A RESUME_PARSED entry in a log, or a RESUME_PARSE_FAILED one. */
  datatype ParseEvent = ParseEvent(document: DocumentId, extracted: bool)

  /** What a candidate typed. The phone number is already a key, or no number at all. */
  datatype Submission = Submission(
    email: string,
    phoneKey: Option<string>,
    location: Option<string>,
    linkedinUrl: Option<string>)

  /** What the parser made of a file. */
  datatype Parsed = Parsed(
    email: Option<string>,
    fullName: Option<string>,
    experiences: nat,
    linkedinUrl: Option<string>,
    skills: seq<string>,
    warnings: nat)

  datatype Patch = Patch(location: Option<string>, linkedinUrl: Option<string>, skills: Option<seq<string>>)

  /** A transaction in flight, with what it has read so far. */
  datatype Tx =
    | Resolving(submission: Submission, owner: Option<CandidateId>, checked: nat, claims: set<Key>,
                seen: Option<Candidate>)
    | Parsing(document: DocumentId, candidate: CandidateId, parsed: Parsed, seen: Option<Candidate>)

  datatype Db = Db(
    keys: map<Key, CandidateId>,
    candidates: map<CandidateId, Candidate>,
    documents: map<DocumentId, Document>,
    events: multiset<ParseEvent>,
    txs: map<TxId, Tx>)

  datatype Step =
    | Find(tx: TxId, submission: Submission, key: Option<Key>)
    | Check(tx: TxId)
    | Read(tx: TxId)
    | Settle(tx: TxId, candidate: CandidateId, document: DocumentId)
    | Deliver(tx: TxId, document: DocumentId, parsed: Parsed)
    | Record(tx: TxId)
    | Abort(tx: TxId)

  const NothingYet: Db := Db(map[], map[], map[], multiset{}, map[])

  const MAX_SKILLS: nat := 60

  // ----- intake

  function Lookups(submission: Submission): seq<Key> {
    var email := Identity.NormalizeEmail(submission.email);
    (if email.Some? then [EmailKey(email.value.key)] else [])
    + (if submission.phoneKey.Some? then [PhoneKey(submission.phoneKey.value)] else [])
  }

  /** Neither null nor the empty string: a value the code takes to be there. */
  predicate Given(text: Option<string>) {
    text.Some? && text.value != ""
  }

  function EmptyToNull(text: Option<string>): Option<string> {
    if text.Some? && Trim(text.value) != "" then Some(Trim(text.value)) else None
  }

  function Created(submission: Submission): Candidate {
    Candidate(submission.location, EmptyToNull(submission.linkedinUrl), [])
  }

  function GapPatch(current: Candidate, submission: Submission): Patch {
    Patch(
      if !Given(current.location) && Given(submission.location) then submission.location else None,
      if !Given(current.linkedinUrl) && EmptyToNull(submission.linkedinUrl).Some? then submission.linkedinUrl else None,
      None)
  }

  function Applied(current: Candidate, patch: Patch): Candidate {
    Candidate(
      if patch.location.Some? then patch.location else current.location,
      if patch.linkedinUrl.Some? then patch.linkedinUrl else current.linkedinUrl,
      if patch.skills.Some? then patch.skills.value else current.skills)
  }

  // ----- parsing

  predicate Extracted(parsed: Parsed) {
    parsed.email.Some? || parsed.fullName.Some? || parsed.experiences > 0
  }

  function StatusOf(parsed: Parsed): ParseStatus {
    if !Extracted(parsed) then Failed else if parsed.warnings == 0 then Succeeded else Partial
  }

  /** The distinct elements in the order they first occur, as a set lists them. */
  function Distinct(items: seq<string>): (kept: seq<string>)
    ensures forall i, j :: 0 <= i < j < |kept| ==> kept[i] != kept[j]
    ensures forall item :: item in kept <==> item in items
  {
    if items == [] then []
    else
      var last := items[|items| - 1];
      assert items == items[..|items| - 1] + [last];
      var kept := Distinct(items[..|items| - 1]);
      if last in kept then kept else kept + [last]
  }

  function Merged(current: seq<string>, parsed: seq<string>): seq<string> {
    var all := Distinct(current + parsed);
    if |all| <= MAX_SKILLS then all else all[..MAX_SKILLS]
  }

  function ParsePatch(current: Candidate, parsed: Parsed): Patch {
    var merged := Merged(current.skills, parsed.skills);
    Patch(
      None,
      if !Given(current.linkedinUrl) then parsed.linkedinUrl else None,
      if parsed.skills != [] && |merged| != |current.skills| then Some(merged) else None)
  }

  // ----- steps

  /** The delivery that has updated a document's row keeps it locked until it ends. */
  predicate DocumentLocked(db: Db, document: DocumentId) {
    exists tx :: tx in db.txs && db.txs[tx].Parsing? && db.txs[tx].document == document && db.txs[tx].seen.Some?
  }

  /** The candidate a transaction works on, once it has one. */
  function Target(tx: Tx): Option<CandidateId> {
    if tx.Resolving? then tx.owner else Some(tx.candidate)
  }

  /** Every key in the set given to one candidate. */
  function Claimed(keys: map<Key, CandidateId>, claims: set<Key>, candidate: CandidateId): map<Key, CandidateId> {
    map key | key in keys.Keys + claims :: if key in claims then candidate else keys[key]
  }

  function KeySet(keys: seq<Key>): set<Key> {
    set key | key in keys
  }

  /** The rows an intake inserts: all its keys for a new candidate, the free ones for a known one. */
  function ToClaim(t: Tx): set<Key>
    requires t.Resolving?
  {
    if t.owner.Some? then t.claims else KeySet(Lookups(t.submission))
  }

  /** The next key looked at: skipped when somebody has it, to be claimed when nobody does. */
  function Checked(keys: map<Key, CandidateId>, t: Tx): Tx
    requires t.Resolving? && t.checked < |Lookups(t.submission)|
  {
    var key := Lookups(t.submission)[t.checked];
    t.(checked := t.checked + 1, claims := if key in keys then t.claims else t.claims + {key})
  }

  predicate Enabled(db: Db, step: Step) {
    match step
    case Find(tx, submission, key) =>
      && tx !in db.txs
      && (key.Some? ==> key.value in Lookups(submission) && key.value in db.keys)
      && (key.None? ==> forall other :: other in Lookups(submission) ==> other !in db.keys)
    case Check(tx) =>
      && tx in db.txs && db.txs[tx].Resolving? && db.txs[tx].owner.Some?
      && db.txs[tx].checked < |Lookups(db.txs[tx].submission)|
    case Read(tx) =>
      && tx in db.txs && db.txs[tx].seen.None?
      && Target(db.txs[tx]).Some? && Target(db.txs[tx]).value in db.candidates
      && (db.txs[tx].Resolving? ==> db.txs[tx].checked == |Lookups(db.txs[tx].submission)|)
      && (db.txs[tx].Parsing? ==> db.txs[tx].document in db.documents && !DocumentLocked(db, db.txs[tx].document))
    case Settle(tx, candidate, document) =>
      && tx in db.txs && db.txs[tx].Resolving? && document !in db.documents
      && (forall key :: key in ToClaim(db.txs[tx]) ==> key !in db.keys)
      && if db.txs[tx].owner.Some? then
           db.txs[tx].owner == Some(candidate) && candidate in db.candidates && db.txs[tx].seen.Some?
         else candidate !in db.candidates
    case Deliver(tx, document, parsed) =>
      tx !in db.txs && document in db.documents && db.documents[document].status == Pending
    case Record(tx) =>
      && tx in db.txs && db.txs[tx].Parsing? && db.txs[tx].seen.Some?
      && db.txs[tx].document in db.documents && db.txs[tx].candidate in db.candidates
    case Abort(tx) => tx in db.txs
  }

  function Apply(db: Db, step: Step): Db
    requires Enabled(db, step)
  {
    match step
    case Find(tx, submission, key) =>
      var owner := if key.Some? then Some(db.keys[key.value]) else None;
      db.(txs := db.txs[tx := Resolving(submission, owner, 0, {}, None)])
    case Check(tx) => db.(txs := db.txs[tx := Checked(db.keys, db.txs[tx])])
    case Read(tx) => db.(txs := db.txs[tx := db.txs[tx].(seen := Some(db.candidates[Target(db.txs[tx]).value]))])
    case Settle(tx, candidate, document) =>
      var t := db.txs[tx];
      db.(keys := Claimed(db.keys, ToClaim(t), candidate),
          candidates := db.candidates[candidate :=
            if t.owner.Some? then Applied(db.candidates[candidate], GapPatch(t.seen.value, t.submission))
            else Created(t.submission)],
          documents := db.documents[document := Document(candidate, Pending)],
          txs := db.txs - {tx})
    case Deliver(tx, document, parsed) =>
      db.(txs := db.txs[tx := Parsing(document, db.documents[document].candidate, parsed, None)])
    case Record(tx) =>
      var t := db.txs[tx];
      db.(documents := db.documents[t.document := db.documents[t.document].(status := StatusOf(t.parsed))],
          candidates := db.candidates[t.candidate :=
            Applied(db.candidates[t.candidate], ParsePatch(t.seen.value, t.parsed))],
          events := db.events + multiset{ParseEvent(t.document, Extracted(t.parsed))},
          txs := db.txs - {tx})
    case Abort(tx) => db.(txs := db.txs - {tx})
  }

  ghost predicate Runs(db: Db, trace: seq<Step>)
    decreases |trace|
  {
    trace == [] || (Enabled(db, trace[0]) && Runs(Apply(db, trace[0]), trace[1..]))
  }

  ghost function After(db: Db, trace: seq<Step>): Db
    requires Runs(db, trace)
    decreases |trace|
  {
    if trace == [] then db else After(Apply(db, trace[0]), trace[1..])
  }

  lemma {:induction false} RunsSnoc(db: Db, trace: seq<Step>, step: Step)
    requires Runs(db, trace) && Enabled(After(db, trace), step)
    ensures Runs(db, trace + [step])
    ensures After(db, trace + [step]) == Apply(After(db, trace), step)
    decreases |trace|
  {
    if trace == [] {
      assert (trace + [step])[1..] == [];
    } else {
      assert (trace + [step])[1..] == trace[1..] + [step];
      RunsSnoc(Apply(db, trace[0]), trace[1..], step);
    }
  }

  // ----- what holds in every state

  /** An owner was found through one of the keys; every key looked at is taken or to be claimed. */
  ghost predicate ResolvingSound(keys: map<Key, CandidateId>, t: Tx)
    requires t.Resolving?
  {
    var lookups := Lookups(t.submission);
    && t.checked <= |lookups|
    && t.claims <= KeySet(lookups)
    && (t.owner.Some? ==> exists key :: key in lookups && key in keys && keys[key] == t.owner.value)
    && (forall i :: 0 <= i < t.checked ==> lookups[i] in keys || lookups[i] in t.claims)
    && (t.seen.Some? ==> t.owner.Some? && t.checked == |lookups|)
  }

  ghost predicate OwnersExist(db: Db) {
    && (forall key :: key in db.keys ==> db.keys[key] in db.candidates)
    && (forall document :: document in db.documents ==> db.documents[document].candidate in db.candidates)
  }

  ghost predicate ParsingSound(db: Db, t: Tx)
    requires t.Parsing?
  {
    t.document in db.documents && db.documents[t.document].candidate == t.candidate
  }

  ghost predicate Sound(db: Db) {
    && OwnersExist(db)
    && (forall tx :: tx in db.txs && db.txs[tx].Resolving? ==> ResolvingSound(db.keys, db.txs[tx]))
    && (forall tx :: tx in db.txs && db.txs[tx].Parsing? ==> ParsingSound(db, db.txs[tx]))
  }

  /** A key, once taken, is never given to anyone else. */
  lemma StepKeepsKeys(db: Db, step: Step, key: Key)
    requires Enabled(db, step) && key in db.keys
    ensures key in Apply(db, step).keys && Apply(db, step).keys[key] == db.keys[key]
  {
  }

  lemma ResolvingSurvives(keys: map<Key, CandidateId>, more: map<Key, CandidateId>, t: Tx)
    requires t.Resolving? && ResolvingSound(keys, t)
    requires forall key :: key in keys ==> key in more && more[key] == keys[key]
    ensures ResolvingSound(more, t)
  {
    var lookups := Lookups(t.submission);
    if t.owner.Some? {
      var key :| key in lookups && key in keys && keys[key] == t.owner.value;
      assert more[key] == t.owner.value;
    }
  }

  lemma CheckKeepsResolving(keys: map<Key, CandidateId>, t: Tx)
    requires t.Resolving? && ResolvingSound(keys, t) && t.checked < |Lookups(t.submission)| && t.seen.None?
    ensures ResolvingSound(keys, Checked(keys, t))
  {
  }

  lemma StepKeepsResolving(db: Db, step: Step, tx: TxId)
    requires Sound(db) && Enabled(db, step) && tx in Apply(db, step).txs && Apply(db, step).txs[tx].Resolving?
    ensures ResolvingSound(Apply(db, step).keys, Apply(db, step).txs[tx])
  {
    var after := Apply(db, step);
    if tx in db.txs {
      var t := db.txs[tx];
      if step == Check(tx) {
        CheckKeepsResolving(db.keys, t);
      } else if after.txs[tx] == t {
        forall key | key in db.keys ensures key in after.keys && after.keys[key] == db.keys[key] {
          StepKeepsKeys(db, step, key);
        }
        ResolvingSurvives(db.keys, after.keys, t);
      }
    }
  }

  lemma StepKeepsOwners(db: Db, step: Step)
    requires OwnersExist(db) && Enabled(db, step)
    ensures OwnersExist(Apply(db, step))
  {
  }

  lemma StepKeepsParsing(db: Db, step: Step, tx: TxId)
    requires Enabled(db, step) && tx in Apply(db, step).txs && Apply(db, step).txs[tx].Parsing?
    requires tx in db.txs && db.txs[tx].Parsing? ==> ParsingSound(db, db.txs[tx])
    ensures ParsingSound(Apply(db, step), Apply(db, step).txs[tx])
  {
  }

  lemma StepKeepsSound(db: Db, step: Step)
    requires Sound(db) && Enabled(db, step)
    ensures Sound(Apply(db, step))
  {
    var after := Apply(db, step);
    StepKeepsOwners(db, step);
    forall tx | tx in after.txs && after.txs[tx].Resolving? ensures ResolvingSound(after.keys, after.txs[tx]) {
      StepKeepsResolving(db, step, tx);
    }
    forall tx | tx in after.txs && after.txs[tx].Parsing? ensures ParsingSound(after, after.txs[tx]) {
      StepKeepsParsing(db, step, tx);
    }
  }

  lemma {:induction false} RunKeepsSound(db: Db, trace: seq<Step>)
    requires Sound(db) && Runs(db, trace)
    ensures Sound(After(db, trace))
    decreases |trace|
  {
    if trace != [] {
      StepKeepsSound(db, trace[0]);
      RunKeepsSound(Apply(db, trace[0]), trace[1..]);
    }
  }

  ghost predicate Reachable(db: Db) {
    exists trace :: Runs(NothingYet, trace) && After(NothingYet, trace) == db
  }

  lemma Take(db: Db, step: Step) returns (after: Db)
    requires Reachable(db) && Enabled(db, step)
    ensures after == Apply(db, step) && Reachable(after)
  {
    var trace :| Runs(NothingYet, trace) && After(NothingYet, trace) == db;
    RunsSnoc(NothingYet, trace, step);
    after := Apply(db, step);
  }
}
