/** What happens to a candidate's profile: gaps are filled, skills are added. */
module CandidateProfiles {
  import opened Wrappers
  import opened Sizes
  import opened Transitions
  import opened Candidates

  ghost predicate AllDistinct(items: seq<string>) {
    forall i, j :: 0 <= i < j < |items| ==> items[i] != items[j]
  }

  ghost predicate GoodSkills(skills: seq<string>) {
    AllDistinct(skills) && |skills| <= 60
  }

  /** A later profile of the same candidate: what was there still is, and skills only follow. */
  ghost predicate Grown(before: Candidate, after: Candidate) {
    && (Given(before.location) ==> after.location == before.location)
    && (Given(before.linkedinUrl) ==> after.linkedinUrl == before.linkedinUrl)
    && before.skills <= after.skills
  }

  // ----- merging

  lemma {:induction false} DistinctExtends(current: seq<string>, more: seq<string>)
    requires AllDistinct(current)
    ensures current <= Distinct(current + more)
  {
    if more == [] {
      assert current + more == current;
      DistinctIsFixed(current);
    } else {
      var last := |more| - 1;
      DistinctExtends(current, more[..last]);
      assert (current + more)[..|current + more| - 1] == current + more[..last];
    }
  }

  lemma {:induction false} DistinctIsFixed(items: seq<string>)
    requires AllDistinct(items)
    ensures Distinct(items) == items
  {
    if items != [] {
      var last := |items| - 1;
      DistinctIsFixed(items[..last]);
      assert items == items[..last] + [items[last]];
      assert items[last] !in items[..last];
    }
  }

  /**
   Merging keeps the list good and extends it; a list of the same length is the same list, so
   leaving the row alone then loses nothing; and a skill is dropped only when sixty are kept.
   */
  lemma MergedExtends(current: seq<string>, parsed: seq<string>)
    requires GoodSkills(current)
    ensures var merged := Merged(current, parsed);
            && GoodSkills(merged) && current <= merged
            && (|merged| == |current| ==> merged == current)
            && (forall skill :: skill in merged ==> skill in current || skill in parsed)
            && (|merged| < 60 ==> forall skill :: skill in parsed ==> skill in merged)
  {
    DistinctExtends(current, parsed);
    var all, merged := Distinct(current + parsed), Merged(current, parsed);
    assert merged <= all;
    assert forall skill :: skill in merged ==> skill in all;
  }

  /** Whatever a delivery read, what it writes is a good list. */
  lemma MergedIsGood(current: seq<string>, parsed: seq<string>)
    ensures GoodSkills(Merged(current, parsed))
  {
  }

  // ----- what is written

  lemma EmptyToNullIs(text: Option<string>)
    ensures EmptyToNull(text).Some? <==> text.Some? && !Blank(text.value)
    ensures EmptyToNull(text).Some? ==> TrimmedTo(text.value, EmptyToNull(text).value)
  {
    if text.Some? {
      TrimsToNothing(text.value);
      TrimExactlyWhen(text.value, Trim(text.value));
    }
  }

  /** A new candidate has the location as typed, the link without the white space around it, no skills. */
  lemma CreatedIs(submission: Submission)
    ensures var candidate := Created(submission);
            && candidate.location == submission.location && candidate.skills == []
            && (candidate.linkedinUrl.Some? <==> submission.linkedinUrl.Some? && !Blank(submission.linkedinUrl.value))
            && (candidate.linkedinUrl.Some? ==> TrimmedTo(submission.linkedinUrl.value, candidate.linkedinUrl.value))
  {
    EmptyToNullIs(submission.linkedinUrl);
  }

  ghost predicate IsGap(text: Option<string>) {
    text == None || text == Some("")
  }

  /** A later submission writes a field exactly when there is a gap and something to fill it with. */
  lemma GapsAreFilled(current: Candidate, submission: Submission, text: string)
    ensures var patch := GapPatch(current, submission);
            && (patch.location == Some(text) <==>
                  IsGap(current.location) && submission.location == Some(text) && text != "")
            && (patch.linkedinUrl == Some(text) <==>
                  IsGap(current.linkedinUrl) && submission.linkedinUrl == Some(text) && !Blank(text))
            && patch.skills == None
  {
    EmptyToNullIs(submission.linkedinUrl);
  }

  ghost predicate NothingNew(current: seq<string>, parsed: seq<string>) {
    |current| == 60 || forall skill :: skill in parsed ==> skill in current
  }

  lemma MergedStays(current: seq<string>, parsed: seq<string>)
    requires GoodSkills(current)
    ensures |Merged(current, parsed)| == |current| <==> NothingNew(current, parsed)
  {
    MergedExtends(current, parsed);
    var merged := Merged(current, parsed);
    DistinctSize(merged);
    DistinctSize(current);
    if forall skill :: skill in parsed ==> skill in current {
      SubsetSize(Elements(merged), Elements(current));
    }
  }

  /**
   A parse writes the link exactly when there is a gap and a link was found, never the location,
   and the skills exactly when there is room and one that is new, and then the merged list.
   */
  lemma ParseWrites(current: Candidate, parsed: Parsed)
    requires GoodSkills(current.skills)
    ensures var patch := ParsePatch(current, parsed);
            && patch.location == None
            && patch.linkedinUrl == (if IsGap(current.linkedinUrl) then parsed.linkedinUrl else None)
            && (patch.skills.None? <==> NothingNew(current.skills, parsed.skills))
            && (patch.skills.Some? ==> patch.skills.value == Merged(current.skills, parsed.skills))
  {
    MergedStays(current.skills, parsed.skills);
  }

  // ----- every interleaving

  ghost predicate AllGood(db: Db) {
    forall candidate :: candidate in db.candidates ==> GoodSkills(db.candidates[candidate].skills)
  }

  lemma StepKeepsGood(db: Db, step: Step)
    requires Enabled(db, step) && AllGood(db)
    ensures AllGood(Apply(db, step))
  {
    if step.Record? {
      var t := db.txs[step.tx];
      MergedIsGood(t.seen.value.skills, t.parsed.skills);
    }
  }

  /** With any number of deliveries at once, a candidate's skills are distinct and at most sixty. */
  lemma {:induction false} SkillsStayGood(db: Db, trace: seq<Step>)
    requires Runs(db, trace) && AllGood(db)
    ensures AllGood(After(db, trace))
    decreases |trace|
  {
    if trace != [] {
      StepKeepsGood(db, trace[0]);
      SkillsStayGood(Apply(db, trace[0]), trace[1..]);
    }
  }

  // ----- one writer at a time

  ghost predicate Holds(db: Db, tx: TxId, candidate: CandidateId) {
    tx in db.txs && db.txs[tx].seen.Some? && Target(db.txs[tx]) == Some(candidate)
  }

  /** At most one transaction at a time is between reading a profile and writing it. */
  ghost predicate Alone(db: Db, candidate: CandidateId) {
    forall a, b :: Holds(db, a, candidate) && Holds(db, b, candidate) ==> a == b
  }

  ghost predicate AloneThroughout(db: Db, trace: seq<Step>, candidate: CandidateId)
    requires Runs(db, trace)
    decreases |trace|
  {
    Alone(db, candidate) && (trace != [] ==> AloneThroughout(Apply(db, trace[0]), trace[1..], candidate))
  }

  /** What a transaction has read is still so. */
  ghost predicate Current(db: Db, candidate: CandidateId) {
    forall tx :: Holds(db, tx, candidate) ==>
      candidate in db.candidates && db.txs[tx].seen == Some(db.candidates[candidate])
  }

  lemma StepKeepsCurrent(db: Db, step: Step, candidate: CandidateId)
    requires Sound(db) && Enabled(db, step) && Alone(db, candidate) && Current(db, candidate)
    ensures Current(Apply(db, step), candidate)
  {
    var after := Apply(db, step);
    assert step.Record? ==> Holds(db, step.tx, db.txs[step.tx].candidate);
    assert step.Settle? && db.txs[step.tx].owner.Some? ==> Holds(db, step.tx, step.candidate);
    forall tx | Holds(after, tx, candidate)
      ensures candidate in after.candidates && after.txs[tx].seen == Some(after.candidates[candidate])
    {
      assert !Holds(db, tx, candidate) ==> step == Read(tx);
    }
  }

  /** Writing a field that was blank when read leaves what is there now only if it is the same. */
  predicate KeepsField(seen: Option<string>, written: Option<string>, current: Option<string>) {
    Given(current) ==> Given(seen) || written.None? || written == current
  }

  /** What can be told before a step: the profile is as it was read, or the write fits it all the same. */
  ghost predicate Harmless(db: Db, step: Step, candidate: CandidateId)
    requires Enabled(db, step) && candidate in db.candidates
  {
    var current := db.candidates[candidate];
    match step
    case Settle(tx, owner, _) =>
      owner == candidate ==>
        var seen, submission := db.txs[tx].seen.value, db.txs[tx].submission;
        && KeepsField(seen.location, if Given(submission.location) then submission.location else None, current.location)
        && KeepsField(seen.linkedinUrl,
                      if EmptyToNull(submission.linkedinUrl).Some? then submission.linkedinUrl else None,
                      current.linkedinUrl)
    case Record(tx) =>
      db.txs[tx].candidate == candidate ==>
        var seen, parsed := db.txs[tx].seen.value, db.txs[tx].parsed;
        && KeepsField(seen.linkedinUrl, parsed.linkedinUrl, current.linkedinUrl)
        && (|| parsed.skills == []
            || |Merged(seen.skills, parsed.skills)| == |seen.skills|
            || current.skills <= Merged(seen.skills, parsed.skills))
    case _ => true
  }

  /**
   Filling gaps keeps a field that is given exactly when it was given as the profile was read, or
   there is nothing to fill it with, or just what is there; skills it never changes.
   */
  lemma SettleKeepsExactlyWhen(db: Db, tx: TxId, candidate: CandidateId, document: DocumentId)
    requires Enabled(db, Settle(tx, candidate, document)) && candidate in db.candidates
    ensures candidate in Apply(db, Settle(tx, candidate, document)).candidates
    ensures var current, seen, submission := db.candidates[candidate], db.txs[tx].seen.value, db.txs[tx].submission;
            var after := Apply(db, Settle(tx, candidate, document)).candidates[candidate];
            && (Given(current.location) ==>
                  (after.location == current.location <==>
                    || Given(seen.location) || !Given(submission.location)
                    || submission.location == current.location))
            && (Given(current.linkedinUrl) ==>
                  (after.linkedinUrl == current.linkedinUrl <==>
                    || Given(seen.linkedinUrl) || EmptyToNull(submission.linkedinUrl).None?
                    || submission.linkedinUrl == current.linkedinUrl))
            && after.skills == current.skills
  {
    assert EmptyToNull(db.txs[tx].submission.linkedinUrl).Some? ==> Given(db.txs[tx].submission.linkedinUrl);
  }

  /**
   Recording a parse keeps a given profile link exactly when the delivery read it, or found none
   or the same; it keeps all skills exactly when it adds none or merged from a list with all of them.
   */
  lemma RecordKeepsExactlyWhen(db: Db, tx: TxId)
    requires Enabled(db, Record(tx))
    ensures db.txs[tx].candidate in Apply(db, Record(tx)).candidates
    ensures var current, seen, parsed := db.candidates[db.txs[tx].candidate], db.txs[tx].seen.value, db.txs[tx].parsed;
            var after := Apply(db, Record(tx)).candidates[db.txs[tx].candidate];
            && after.location == current.location
            && (Given(current.linkedinUrl) ==>
                  (after.linkedinUrl == current.linkedinUrl <==>
                    || Given(seen.linkedinUrl) || parsed.linkedinUrl.None?
                    || parsed.linkedinUrl == current.linkedinUrl))
            && (current.skills <= after.skills <==>
                  || parsed.skills == []
                  || |Merged(seen.skills, parsed.skills)| == |seen.skills|
                  || current.skills <= Merged(seen.skills, parsed.skills))
  {
  }

  /**
   Exactly when a step keeps what a profile says, whoever else is at work on it: a location, a
   profile link and every skill survive a commit if and only if it is harmless.
   */
  lemma StepGrowsExactlyWhen(db: Db, step: Step, candidate: CandidateId)
    requires Enabled(db, step) && candidate in db.candidates
    ensures candidate in Apply(db, step).candidates
    ensures Grown(db.candidates[candidate], Apply(db, step).candidates[candidate]) <==> Harmless(db, step, candidate)
  {
    if step.Settle? && step.candidate == candidate {
      SettleKeepsExactlyWhen(db, step.tx, candidate, step.document);
    } else if step.Record? && db.txs[step.tx].candidate == candidate {
      RecordKeepsExactlyWhen(db, step.tx);
    }
  }

  ghost predicate HarmlessThroughout(db: Db, trace: seq<Step>, candidate: CandidateId)
    requires Runs(db, trace) && candidate in db.candidates
    decreases |trace|
  {
    trace != [] ==>
      && Harmless(db, trace[0], candidate)
      && candidate in Apply(db, trace[0]).candidates
      && HarmlessThroughout(Apply(db, trace[0]), trace[1..], candidate)
  }

  /** Over any run of harmless steps, however they interleave, a profile only grows. */
  lemma {:induction false} HarmlessRunsGrow(db: Db, trace: seq<Step>, candidate: CandidateId)
    requires Runs(db, trace) && candidate in db.candidates && HarmlessThroughout(db, trace, candidate)
    ensures candidate in After(db, trace).candidates
    ensures Grown(db.candidates[candidate], After(db, trace).candidates[candidate])
    decreases |trace|
  {
    if trace != [] {
      StepGrowsExactlyWhen(db, trace[0], candidate);
      HarmlessRunsGrow(Apply(db, trace[0]), trace[1..], candidate);
    }
  }

  /** Writers that take turns find the profile as they read it. */
  lemma CurrentIsHarmless(db: Db, step: Step, candidate: CandidateId)
    requires Sound(db) && Enabled(db, step) && AllGood(db) && Current(db, candidate) && candidate in db.candidates
    ensures Harmless(db, step, candidate)
  {
    if step.Settle? && step.candidate == candidate {
      assert Holds(db, step.tx, candidate);
    } else if step.Record? && db.txs[step.tx].candidate == candidate {
      assert Holds(db, step.tx, candidate);
      MergedExtends(db.candidates[candidate].skills, db.txs[step.tx].parsed.skills);
    }
  }

  lemma {:induction false} TurnsAreHarmless(db: Db, trace: seq<Step>, candidate: CandidateId)
    requires Sound(db) && AllGood(db) && Current(db, candidate) && candidate in db.candidates
    requires Runs(db, trace) && AloneThroughout(db, trace, candidate)
    ensures HarmlessThroughout(db, trace, candidate)
    decreases |trace|
  {
    if trace != [] {
      StepKeepsSound(db, trace[0]);
      StepKeepsGood(db, trace[0]);
      StepKeepsCurrent(db, trace[0], candidate);
      CurrentIsHarmless(db, trace[0], candidate);
      StepGrowsExactlyWhen(db, trace[0], candidate);
      TurnsAreHarmless(Apply(db, trace[0]), trace[1..], candidate);
    }
  }

  /**
   While the transactions on a candidate take turns, whatever keys, documents and other
   candidates do meanwhile: a location or profile link that is there never changes, and the list
   of skills only ever gets longer at its end.
   */
  lemma ProfilesOnlyGrow(db: Db, trace: seq<Step>, candidate: CandidateId)
    requires Sound(db) && AllGood(db) && Current(db, candidate) && candidate in db.candidates
    requires Runs(db, trace) && AloneThroughout(db, trace, candidate)
    ensures candidate in After(db, trace).candidates
    ensures Grown(db.candidates[candidate], After(db, trace).candidates[candidate])
  {
    TurnsAreHarmless(db, trace, candidate);
    HarmlessRunsGrow(db, trace, candidate);
  }

  lemma {:induction false} RunKeepsCurrent(db: Db, trace: seq<Step>, candidate: CandidateId)
    requires Sound(db) && AllGood(db) && Current(db, candidate)
    requires Runs(db, trace) && AloneThroughout(db, trace, candidate)
    ensures Sound(After(db, trace)) && AllGood(After(db, trace)) && Current(After(db, trace), candidate)
    decreases |trace|
  {
    if trace != [] {
      StepKeepsSound(db, trace[0]);
      StepKeepsGood(db, trace[0]);
      StepKeepsCurrent(db, trace[0], candidate);
      RunKeepsCurrent(Apply(db, trace[0]), trace[1..], candidate);
    }
  }

  /** The same from the empty database on: between any two moments of a candidate's life. */
  lemma ProfilesOnlyGrowFromTheStart(trace: seq<Step>, more: seq<Step>, candidate: CandidateId)
    requires Runs(NothingYet, trace) && AloneThroughout(NothingYet, trace, candidate)
    requires candidate in After(NothingYet, trace).candidates
    requires Runs(After(NothingYet, trace), more) && AloneThroughout(After(NothingYet, trace), more, candidate)
    ensures candidate in After(After(NothingYet, trace), more).candidates
    ensures Grown(After(NothingYet, trace).candidates[candidate],
                  After(After(NothingYet, trace), more).candidates[candidate])
  {
    RunKeepsCurrent(NothingYet, trace, candidate);
    ProfilesOnlyGrow(After(NothingYet, trace), more, candidate);
  }
}
