/** Who an identity key belongs to, and what an intake can promise about its keys. */
module CandidateKeys {
  import opened Wrappers
  import opened Candidates

  /** Over any run, with races lost and transactions aborted, a key stays with its candidate. */
  lemma {:induction false} KeysAreNeverReassigned(db: Db, trace: seq<Step>, key: Key)
    requires Runs(db, trace) && key in db.keys
    ensures key in After(db, trace).keys && After(db, trace).keys[key] == db.keys[key]
    decreases |trace|
  {
    if trace != [] {
      StepKeepsKeys(db, trace[0], key);
      KeysAreNeverReassigned(Apply(db, trace[0]), trace[1..], key);
    }
  }

  /** The candidates that hold some key of a submission. */
  ghost function Owners(keys: map<Key, CandidateId>, lookups: seq<Key>): set<CandidateId> {
    set key | key in lookups && key in keys :: keys[key]
  }

  ghost predicate AllBelongTo(keys: map<Key, CandidateId>, lookups: seq<Key>, candidate: CandidateId) {
    forall key :: key in lookups ==> key in keys && keys[key] == candidate
  }

  lemma AtMostOne<T>(items: set<T>, item: T)
    requires item in items
    ensures |items| <= 1 <==> items == {item}
  {
    if |items| <= 1 {
      assert |items - {item}| == 0;
    }
  }

  /** An intake that may commit: all keys looked at, and those it inserts still free. */
  ghost predicate MayClaim(keys: map<Key, CandidateId>, t: Tx, candidate: CandidateId) {
    && t.Resolving? && ResolvingSound(keys, t)
    && (t.owner.Some? ==> t.owner.value == candidate && t.checked == |Lookups(t.submission)|)
    && (forall key :: key in ToClaim(t) ==> key !in keys)
  }

  lemma AllTaken(keys: map<Key, CandidateId>, t: Tx, candidate: CandidateId)
    requires MayClaim(keys, t, candidate)
    ensures forall key :: key in Lookups(t.submission) ==> key in Claimed(keys, ToClaim(t), candidate)
  {
    var lookups := Lookups(t.submission);
    forall key | key in lookups ensures key in Claimed(keys, ToClaim(t), candidate) {
      var i :| 0 <= i < |lookups| && lookups[i] == key;
    }
  }

  lemma MatchedIntakeClaims(keys: map<Key, CandidateId>, t: Tx, candidate: CandidateId)
    requires MayClaim(keys, t, candidate) && t.owner.Some?
    ensures AllBelongTo(Claimed(keys, ToClaim(t), candidate), Lookups(t.submission), candidate) <==>
            |Owners(keys, Lookups(t.submission))| <= 1
  {
    var lookups, owners := Lookups(t.submission), Owners(keys, Lookups(t.submission));
    var after := Claimed(keys, ToClaim(t), candidate);
    var found :| found in lookups && found in keys && keys[found] == candidate;
    assert candidate in owners;
    AtMostOne(owners, candidate);
    AllTaken(keys, t, candidate);
    if AllBelongTo(after, lookups, candidate) {
      forall owner | owner in owners ensures owner == candidate {
        var key :| key in lookups && key in keys && keys[key] == owner;
        assert after[key] == owner;
      }
      assert owners == {candidate};
    } else {
      var key :| key in lookups && after[key] != candidate;
      assert keys[key] in owners;
    }
  }

  lemma NewIntakeClaims(keys: map<Key, CandidateId>, t: Tx, candidate: CandidateId)
    requires MayClaim(keys, t, candidate) && t.owner.None?
    ensures AllBelongTo(Claimed(keys, ToClaim(t), candidate), Lookups(t.submission), candidate)
    ensures Owners(keys, Lookups(t.submission)) == {}
  {
  }

  lemma SettlingMayClaim(db: Db, tx: TxId, candidate: CandidateId, document: DocumentId)
    requires Sound(db) && Enabled(db, Settle(tx, candidate, document))
    ensures MayClaim(db.keys, db.txs[tx], candidate)
    ensures Apply(db, Settle(tx, candidate, document)).keys == Claimed(db.keys, ToClaim(db.txs[tx]), candidate)
  {
    assert ResolvingSound(db.keys, db.txs[tx]);
  }

  /**
   An intake that commits leaves every one of its keys taken, and leaves them all with its
   candidate exactly when no two candidates held them before.
   */
  lemma KeysBelongToResultExactlyWhen(db: Db, tx: TxId, candidate: CandidateId, document: DocumentId)
    requires Sound(db) && Enabled(db, Settle(tx, candidate, document))
    ensures var lookups := Lookups(db.txs[tx].submission);
            var after := Apply(db, Settle(tx, candidate, document));
            && (forall key :: key in lookups ==> key in after.keys)
            && (AllBelongTo(after.keys, lookups, candidate) <==> |Owners(db.keys, lookups)| <= 1)
  {
    SettlingMayClaim(db, tx, candidate, document);
    AllTaken(db.keys, db.txs[tx], candidate);
    if db.txs[tx].owner.Some? {
      MatchedIntakeClaims(db.keys, db.txs[tx], candidate);
    } else {
      NewIntakeClaims(db.keys, db.txs[tx], candidate);
    }
  }

  /**
   The same person applying again, any time later and with anything in between, is the same
   candidate, whichever of the matching keys the query happens to return.
   */
  lemma ResubmissionFindsTheSameCandidate(db: Db, tx: TxId, candidate: CandidateId, document: DocumentId,
                                          trace: seq<Step>, again: TxId, submission: Submission, key: Option<Key>)
    requires Sound(db) && Enabled(db, Settle(tx, candidate, document))
    requires Lookups(submission) == Lookups(db.txs[tx].submission) != []
    requires |Owners(db.keys, Lookups(submission))| <= 1
    requires Runs(Apply(db, Settle(tx, candidate, document)), trace)
    requires Enabled(After(Apply(db, Settle(tx, candidate, document)), trace), Find(again, submission, key))
    ensures var found := Apply(After(Apply(db, Settle(tx, candidate, document)), trace), Find(again, submission, key));
            again in found.txs && found.txs[again].Resolving? && found.txs[again].owner == Some(candidate)
  {
    var lookups := Lookups(submission);
    var settled := Apply(db, Settle(tx, candidate, document));
    KeysBelongToResultExactlyWhen(db, tx, candidate, document);
    assert lookups[0] in lookups;
    KeysAreNeverReassigned(settled, trace, lookups[0]);
    if key.Some? {
      KeysAreNeverReassigned(settled, trace, key.value);
    }
  }

  /**
   The query takes any matching key. It can name only one candidate exactly when the keys have
   at most one owner; otherwise the same submission is a different person from case to case.
   */
  lemma MatchIsForcedExactlyWhen(keys: map<Key, CandidateId>, lookups: seq<Key>)
    ensures |Owners(keys, lookups)| <= 1 <==>
            forall a, b :: a in lookups && a in keys && b in lookups && b in keys ==> keys[a] == keys[b]
  {
    var owners := Owners(keys, lookups);
    if owners != {} {
      var owner :| owner in owners;
      AtMostOne(owners, owner);
      var first :| first in lookups && first in keys && keys[first] == owner;
      if forall a, b :: a in lookups && a in keys && b in lookups && b in keys ==> keys[a] == keys[b] {
        assert owners == {owner};
      } else {
        var a, b :| a in lookups && a in keys && b in lookups && b in keys && keys[a] != keys[b];
        assert keys[a] in owners && keys[b] in owners;
      }
    } else {
      forall a | a in lookups && a in keys ensures keys[a] in owners {
      }
    }
  }

  lemma SettlingTakes(db: Db, tx: TxId, candidate: CandidateId, document: DocumentId, key: Key, other: TxId)
    requires Enabled(db, Settle(tx, candidate, document)) && key in ToClaim(db.txs[tx]) && other in db.txs
    requires other != tx
    ensures var after := Apply(db, Settle(tx, candidate, document));
            key in after.keys && other in after.txs && after.txs[other] == db.txs[other]
  {
  }

  /** A transaction one of whose keys is taken meanwhile cannot commit. */
  lemma TakenKeyRefuses(db: Db, tx: TxId, candidate: CandidateId, document: DocumentId, key: Key)
    requires tx in db.txs && db.txs[tx].Resolving? && key in ToClaim(db.txs[tx]) && key in db.keys
    ensures !Enabled(db, Settle(tx, candidate, document))
  {
  }

  /** Two intakes that both found a key free: whichever commits second cannot. */
  lemma OneClaimWins(db: Db, first: TxId, second: TxId, candidate: CandidateId, document: DocumentId,
                     other: CandidateId, otherDocument: DocumentId)
    requires first != second && Enabled(db, Settle(first, candidate, document))
    requires second in db.txs && db.txs[second].Resolving? && ToClaim(db.txs[first]) * ToClaim(db.txs[second]) != {}
    ensures !Enabled(Apply(db, Settle(first, candidate, document)), Settle(second, other, otherDocument))
  {
    var key :| key in ToClaim(db.txs[first]) * ToClaim(db.txs[second]);
    SettlingTakes(db, first, candidate, document, key, second);
    TakenKeyRefuses(Apply(db, Settle(first, candidate, document)), second, other, otherDocument, key);
  }
}
