/** The pipeline state machine: naming a move, and deciding whether it may be written. */
module Transitions {
  import opened Wrappers

  type StageId = nat
  type UserId = nat

  datatype StageType = Applied | Screen | Assessment | Interview | Offer | HiredStage | RejectedStage

  datatype StageRef = StageRef(id: StageId, position: nat, kind: StageType, requiresScorecard: bool) {
    predicate Terminal() { kind == HiredStage || kind == RejectedStage }
  }

  datatype Role = Recruiter | Interviewer

  datatype Actor = Actor(id: UserId, role: Role, isAssignedToJob: bool)

  datatype Status = Active | Hired | Rejected | Withdrawn

  datatype JobStatus = Draft | Open | Paused | Closed | Filled

  datatype Kind = Advance | Regress | Reject | Withdraw | Hire | Reopen

  datatype Denial =
    | UnknownStage
    | StaleStage
    | SameStage
    | NoScope
    | RoleNotPermitted
    | TerminalApplication
    | ScorecardRequired
    | NoOpeningsRemaining
    | JobNotAccepting
    | ReasonRequired

  datatype Facts = Facts(
    status: Status,
    currentStage: StageId,
    jobStatus: JobStatus,
    openingsRemaining: int,
    pendingScorecards: nat,
    stages: seq<StageRef>,
    actor: Actor)

  datatype Request = Request(fromStage: StageId, toStage: StageId, reason: Option<string>)

  datatype Decision =
    | Allowed(kind: Kind, from: StageRef, to: StageRef, result: Status)
    | Denied(code: Denial)

  /** The white space `trim` removes, among the characters a reason is written in. */
  predicate IsSpace(c: char) {
    c == ' ' || '\t' <= c <= '\r' || c == '\U{00A0}' || c == '\U{FEFF}' || c == '\U{1680}' ||
    '\U{2000}' <= c <= '\U{200A}' || c == '\U{2028}' || c == '\U{2029}' || c == '\U{202F}' ||
    c == '\U{205F}' || c == '\U{3000}'
  }

  function TrimStart(text: string): string {
    if text != "" && IsSpace(text[0]) then TrimStart(text[1..]) else text
  }

  function TrimEnd(text: string): string {
    if text != "" && IsSpace(text[|text| - 1]) then TrimEnd(text[..|text| - 1]) else text
  }

  function Trim(text: string): string {
    TrimEnd(TrimStart(text))
  }

  /** The white space of the ECMAScript language, code point by code point. */
  const WHITE_SPACE: set<int> := {
    0x09, 0x0A, 0x0B, 0x0C, 0x0D, 0x20, 0xA0, 0x1680, 0x2000, 0x2001, 0x2002, 0x2003, 0x2004, 0x2005, 0x2006,
    0x2007, 0x2008, 0x2009, 0x200A, 0x2028, 0x2029, 0x202F, 0x205F, 0x3000, 0xFEFF
  }

  lemma SpacesAre(c: char)
    ensures IsSpace(c) <==> c as int in WHITE_SPACE
  {
  }

  ghost predicate Blank(text: string) {
    forall k :: 0 <= k < |text| ==> IsSpace(text[k])
  }

  /** What is left between white space on both sides, with none at either end of it. */
  ghost predicate Between(text: string, front: nat, back: nat, core: string) {
    && front <= back <= |text| && core == text[front..back]
    && Blank(text[..front]) && Blank(text[back..])
    && (core != "" ==> !IsSpace(core[0]) && !IsSpace(core[|core| - 1]))
  }

  ghost predicate TrimmedTo(text: string, core: string) {
    exists front, back :: Between(text, front, back, core)
  }

  lemma {:induction false} TrimStartSplits(text: string)
    ensures var start := TrimStart(text);
            && |start| <= |text| && start == text[|text| - |start|..] && Blank(text[..|text| - |start|])
            && (start != "" ==> !IsSpace(start[0]))
  {
    if text != "" && IsSpace(text[0]) {
      TrimStartSplits(text[1..]);
      var start := TrimStart(text[1..]);
      assert text == [text[0]] + text[1..];
      assert text[..|text| - |start|] == [text[0]] + text[1..][..|text| - 1 - |start|];
    }
  }

  lemma {:induction false} TrimEndSplits(text: string)
    ensures var end := TrimEnd(text);
            && |end| <= |text| && end == text[..|end|] && Blank(text[|end|..])
            && (end != "" ==> !IsSpace(end[|end| - 1]))
  {
    if text != "" && IsSpace(text[|text| - 1]) {
      var shorter := text[..|text| - 1];
      TrimEndSplits(shorter);
      var end := TrimEnd(shorter);
      assert text == shorter + [text[|text| - 1]];
      assert text[|end|..] == shorter[|end|..] + [text[|text| - 1]];
    }
  }

  lemma InkIsBetween(text: string, front: nat, back: nat, core: string, k: nat)
    requires Between(text, front, back, core) && k < |text|
    ensures front <= k < back || IsSpace(text[k])
  {
    if k < front {
      assert text[..front][k] == text[k];
    } else if k >= back {
      assert text[back..][k - back] == text[k];
    }
  }

  lemma FirstIsInk(text: string, front: nat, back: nat, core: string)
    requires Between(text, front, back, core) && core != ""
    ensures front < back <= |text| && !IsSpace(text[front]) && !IsSpace(text[back - 1])
  {
  }

  /** Two ways to take the white space off a text leave the same. */
  lemma TrimmedOnce(text: string, one: string, two: string)
    requires TrimmedTo(text, one) && TrimmedTo(text, two)
    ensures one == two
  {
    var front: nat, back: nat :| Between(text, front, back, one);
    var front': nat, back': nat :| Between(text, front', back', two);
    if one != "" {
      FirstIsInk(text, front, back, one);
      InkIsBetween(text, front', back', two, front);
      InkIsBetween(text, front', back', two, back - 1);
    }
    if two != "" {
      FirstIsInk(text, front', back', two);
      InkIsBetween(text, front, back, one, front');
      InkIsBetween(text, front, back, one, back' - 1);
    }
  }

  /** Trimming leaves the one slice without white space at either end that has all the rest around it. */
  lemma TrimExactlyWhen(text: string, core: string)
    ensures Trim(text) == core <==> TrimmedTo(text, core)
  {
    var start := TrimStart(text);
    var end := TrimEnd(start);
    TrimStartSplits(text);
    TrimEndSplits(start);
    var front := |text| - |start|;
    assert text[front + |end|..] == start[|end|..];
    assert Between(text, front, front + |end|, end);
    if TrimmedTo(text, core) {
      TrimmedOnce(text, core, end);
    }
  }

  lemma NothingIsLeft(text: string)
    ensures TrimmedTo(text, "") <==> Blank(text)
  {
    if Blank(text) {
      assert Between(text, 0, 0, "");
    }
    if TrimmedTo(text, "") {
      var front: nat, back: nat :| Between(text, front, back, "");
      forall k | 0 <= k < |text| ensures IsSpace(text[k]) {
        InkIsBetween(text, front, back, "", k);
      }
    }
  }

  lemma TrimsToNothing(text: string)
    ensures Trim(text) == "" <==> Blank(text)
  {
    TrimExactlyWhen(text, "");
    NothingIsLeft(text);
  }

  /** What is stored as the reason: the trimmed text, or nothing when that is empty. */
  function StoredReason(reason: Option<string>): Option<string> {
    if reason.Some? && Trim(reason.value) != "" then Some(Trim(reason.value)) else None
  }

  /** A map built from the list: the last stage listed under an id wins. */
  function Lookup(stages: seq<StageRef>, id: StageId): Option<StageRef> {
    if stages == [] then None
    else
      var last := stages[|stages| - 1];
      if last.id == id then Some(last) else Lookup(stages[..|stages| - 1], id)
  }

  function Classify(from: StageRef, to: StageRef, status: Status): Kind {
    if status != Active && !to.Terminal() then Reopen
    else if to.kind == RejectedStage then Reject
    else if to.kind == HiredStage then Hire
    else if to.position > from.position then Advance
    else Regress
  }

  function StatusAfter(kind: Kind): Status {
    match kind
    case Reject => Rejected
    case Hire => Hired
    case Withdraw => Withdrawn
    case _ => Active
  }

  predicate NeedsReason(kind: Kind) {
    kind == Regress || kind == Reject || kind == Reopen
  }

  predicate Permitted(role: Role, kind: Kind) {
    role == Recruiter
  }

  predicate ForwardMove(kind: Kind) {
    kind == Advance || kind == Hire
  }

  predicate TakesForwardMoves(status: JobStatus) {
    status == Open || status == Paused
  }

  function Evaluate(facts: Facts, request: Request): Decision {
    var from := Lookup(facts.stages, request.fromStage);
    var to := Lookup(facts.stages, request.toStage);
    if from.None? || to.None? then Denied(UnknownStage)
    else if facts.currentStage != request.fromStage then Denied(StaleStage)
    else if from.value.id == to.value.id then Denied(SameStage)
    else if facts.actor.role != Recruiter || !facts.actor.isAssignedToJob then Denied(NoScope)
    else
      var kind := Classify(from.value, to.value, facts.status);
      if !Permitted(facts.actor.role, kind) then Denied(RoleNotPermitted)
      else if facts.status != Active && kind != Reopen then Denied(TerminalApplication)
      else if NeedsReason(kind) && StoredReason(request.reason).None? then Denied(ReasonRequired)
      else if ForwardMove(kind) && !TakesForwardMoves(facts.jobStatus) then Denied(JobNotAccepting)
      else if kind == Hire && from.value.requiresScorecard && facts.pendingScorecards > 0 then
        Denied(ScorecardRequired)
      else if kind == Hire && facts.openingsRemaining <= 0 then Denied(NoOpeningsRemaining)
      else Allowed(kind, from.value, to.value, StatusAfter(kind))
  }

  lemma {:induction false} LookupFinds(stages: seq<StageRef>, id: StageId)
    ensures Lookup(stages, id).Some? <==> exists k :: 0 <= k < |stages| && stages[k].id == id
    ensures Lookup(stages, id).Some? ==> Lookup(stages, id).value in stages && Lookup(stages, id).value.id == id
  {
    if stages != [] {
      var last := |stages| - 1;
      LookupFinds(stages[..last], id);
      if stages[last].id == id {
      } else if Lookup(stages[..last], id).Some? {
        var k :| 0 <= k < last && stages[..last][k].id == id;
        assert stages[k].id == id;
      } else {
        forall k | 0 <= k < |stages| ensures stages[k].id != id {
          assert k < last ==> stages[..last][k] == stages[k];
        }
      }
    }
  }

  /** Listed under its id, with none listed under the same id after it. */
  ghost predicate Listed(stages: seq<StageRef>, stage: StageRef) {
    exists k :: 0 <= k < |stages| && stages[k] == stage && LastWithId(stages, k)
  }

  ghost predicate LastWithId(stages: seq<StageRef>, k: nat)
    requires k < |stages|
  {
    forall j :: k < j < |stages| ==> stages[j].id != stages[k].id
  }

  ghost predicate Known(stages: seq<StageRef>, id: StageId) {
    exists k :: 0 <= k < |stages| && stages[k].id == id
  }

  lemma {:induction false} LookupListed(stages: seq<StageRef>, id: StageId)
    ensures Lookup(stages, id).Some? ==> Listed(stages, Lookup(stages, id).value)
  {
    if stages != [] {
      var last := |stages| - 1;
      LookupListed(stages[..last], id);
      if stages[last].id == id {
        assert LastWithId(stages, last);
      } else if Lookup(stages, id).Some? {
        LookupFinds(stages[..last], id);
        var k :| 0 <= k < last && stages[..last][k] == Lookup(stages, id).value && LastWithId(stages[..last], k);
        assert forall j :: k < j < last ==> stages[..last][j] == stages[j];
        assert stages[k] == Lookup(stages, id).value && LastWithId(stages, k);
      }
    }
  }

  /** A map built from the list: of stages with the same id, it holds the last. */
  lemma LookupExactlyWhen(stages: seq<StageRef>, id: StageId, stage: StageRef)
    ensures Lookup(stages, id) == Some(stage) <==> stage.id == id && Listed(stages, stage)
    ensures Lookup(stages, id).Some? <==> Known(stages, id)
  {
    LookupFinds(stages, id);
    LookupListed(stages, id);
    if stage.id == id && Listed(stages, stage) {
      var k :| 0 <= k < |stages| && stages[k] == stage && LastWithId(stages, k);
      var j :| 0 <= j < |stages| && stages[j] == Lookup(stages, id).value && LastWithId(stages, j);
      assert j == k;
    }
  }

  predicate DistinctIds(stages: seq<StageRef>) {
    forall i, j :: 0 <= i < j < |stages| ==> stages[i].id != stages[j].id
  }

  lemma LookupUnique(stages: seq<StageRef>, k: nat)
    requires k < |stages| && DistinctIds(stages)
    ensures Lookup(stages, stages[k].id) == Some(stages[k])
  {
    LookupFinds(stages, stages[k].id);
  }

  /** Stages are only ever appended, which leaves every stage found before as it was. */
  lemma LookupAppended(stages: seq<StageRef>, stage: StageRef, id: StageId)
    requires DistinctIds(stages + [stage])
    ensures Lookup(stages, id).Some? ==> Lookup(stages + [stage], id) == Lookup(stages, id)
  {
    LookupFinds(stages, id);
    assert (stages + [stage])[..|stages|] == stages;
    forall k | 0 <= k < |stages| ensures stages[k].id != stage.id {
      assert (stages + [stage])[k] == stages[k] && (stages + [stage])[|stages|] == stage;
    }
  }

  /** The reason a move asks for: some text that is more than white space. */
  ghost predicate HasReason(request: Request) {
    request.reason.Some? && !Blank(request.reason.value)
  }

  ghost predicate Ends(stage: StageRef) {
    stage.kind == HiredStage || stage.kind == RejectedStage
  }

  ghost predicate TakesCandidates(status: JobStatus) {
    status == Open || status == Paused
  }

  /** A recruiter assigned to the requisition asks for a move out of the current stage into another. */
  ghost predicate InScope(facts: Facts, request: Request, from: StageRef, to: StageRef) {
    && from.id == request.fromStage && Listed(facts.stages, from)
    && to.id == request.toStage && Listed(facts.stages, to)
    && facts.currentStage == from.id != to.id
    && facts.actor.role == Recruiter && facts.actor.isAssignedToJob
  }

  /** Everything the guards ask for, said once for each kind of move that can be allowed. */
  ghost predicate Justified(facts: Facts, request: Request, kind: Kind, from: StageRef, to: StageRef) {
    && InScope(facts, request, from, to)
    && match kind
       case Advance =>
         facts.status == Active && !Ends(to) && from.position < to.position && TakesCandidates(facts.jobStatus)
       case Regress => facts.status == Active && !Ends(to) && to.position <= from.position && HasReason(request)
       case Reject => facts.status == Active && to.kind == RejectedStage && HasReason(request)
       case Hire =>
         && facts.status == Active && to.kind == HiredStage && TakesCandidates(facts.jobStatus)
         && (from.requiresScorecard ==> facts.pendingScorecards == 0) && facts.openingsRemaining > 0
       case Reopen => facts.status != Active && !Ends(to) && HasReason(request)
       case Withdraw => false
  }

  /** What is wrong with a request, once for each denial; no two of them hold of the same one. */
  ghost predicate Refused(facts: Facts, request: Request, code: Denial) {
    var from, to := request.fromStage, request.toStage;
    match code
    case UnknownStage => !Known(facts.stages, from) || !Known(facts.stages, to)
    case StaleStage => Known(facts.stages, from) && Known(facts.stages, to) && facts.currentStage != from
    case SameStage => Known(facts.stages, from) && facts.currentStage == from == to
    case NoScope =>
      && Known(facts.stages, from) && Known(facts.stages, to) && facts.currentStage == from != to
      && (facts.actor.role != Recruiter || !facts.actor.isAssignedToJob)
    case RoleNotPermitted => false
    case _ => exists from, to :: InScope(facts, request, from, to) && RefusedInScope(facts, request, from, to, code)
  }

  ghost predicate RefusedInScope(facts: Facts, request: Request, from: StageRef, to: StageRef, code: Denial) {
    match code
    case TerminalApplication => facts.status != Active && Ends(to)
    case ReasonRequired =>
      && !HasReason(request)
      && if facts.status != Active then !Ends(to)
         else to.kind == RejectedStage || (!Ends(to) && to.position <= from.position)
    case JobNotAccepting =>
      && facts.status == Active && !TakesCandidates(facts.jobStatus)
      && (to.kind == HiredStage || (!Ends(to) && from.position < to.position))
    case ScorecardRequired =>
      && facts.status == Active && to.kind == HiredStage && TakesCandidates(facts.jobStatus)
      && from.requiresScorecard && facts.pendingScorecards > 0
    case NoOpeningsRemaining =>
      && facts.status == Active && to.kind == HiredStage && TakesCandidates(facts.jobStatus)
      && (from.requiresScorecard ==> facts.pendingScorecards == 0) && facts.openingsRemaining <= 0
    case _ => false
  }

  /** A reason is stored exactly when there is one, without the white space around it. */
  lemma StoredExactlyWhen(request: Request)
    ensures StoredReason(request.reason).Some? <==> HasReason(request)
    ensures HasReason(request) ==> TrimmedTo(request.reason.value, StoredReason(request.reason).value)
  {
    if request.reason.Some? {
      TrimsToNothing(request.reason.value);
      TrimExactlyWhen(request.reason.value, Trim(request.reason.value));
    }
  }

  /** The two stages of a request that names known ones. */
  lemma StagesAre(facts: Facts, request: Request) returns (from: StageRef, to: StageRef)
    requires Known(facts.stages, request.fromStage) && Known(facts.stages, request.toStage)
    ensures Lookup(facts.stages, request.fromStage) == Some(from) && Lookup(facts.stages, request.toStage) == Some(to)
    ensures from.id == request.fromStage && to.id == request.toStage
    ensures forall f, t :: InScope(facts, request, f, t) ==> f == from && t == to
    ensures (&& facts.currentStage == from.id != to.id && facts.actor.role == Recruiter
             && facts.actor.isAssignedToJob) ==> InScope(facts, request, from, to)
  {
    LookupFinds(facts.stages, request.fromStage);
    LookupFinds(facts.stages, request.toStage);
    from, to := Lookup(facts.stages, request.fromStage).value, Lookup(facts.stages, request.toStage).value;
    LookupExactlyWhen(facts.stages, request.fromStage, from);
    LookupExactlyWhen(facts.stages, request.toStage, to);
    forall f, t | InScope(facts, request, f, t) ensures f == from && t == to {
      LookupExactlyWhen(facts.stages, request.fromStage, f);
      LookupExactlyWhen(facts.stages, request.toStage, t);
    }
  }

  lemma KnownExactlyWhen(stages: seq<StageRef>, id: StageId)
    ensures Lookup(stages, id).Some? <==> Known(stages, id)
  {
    LookupFinds(stages, id);
  }

  /**
   A move is allowed exactly when it is justified, and then as exactly one kind: the order of
   the guards decides only which denial is reported.
   */
  lemma AllowedExactlyWhenJustified(facts: Facts, request: Request)
    ensures Evaluate(facts, request).Allowed? <==>
            exists kind, from, to :: Justified(facts, request, kind, from, to)
    ensures forall kind, from, to :: Justified(facts, request, kind, from, to) ==>
              Evaluate(facts, request) == Allowed(kind, from, to, StatusAfter(kind))
  {
    KnownExactlyWhen(facts.stages, request.fromStage);
    KnownExactlyWhen(facts.stages, request.toStage);
    if Known(facts.stages, request.fromStage) && Known(facts.stages, request.toStage) {
      var from, to := StagesAre(facts, request);
      StoredExactlyWhen(request);
      var decision := Evaluate(facts, request);
      if decision.Allowed? {
        assert Justified(facts, request, decision.kind, from, to);
      }
    } else {
      forall from, to ensures !InScope(facts, request, from, to) {
        LookupExactlyWhen(facts.stages, request.fromStage, from);
        LookupExactlyWhen(facts.stages, request.toStage, to);
      }
    }
  }

  /** Each denial is given exactly for what it says is wrong. */
  lemma DeniedExactlyWhenRefused(facts: Facts, request: Request, code: Denial)
    ensures Evaluate(facts, request) == Denied(code) <==> Refused(facts, request, code)
  {
    KnownExactlyWhen(facts.stages, request.fromStage);
    KnownExactlyWhen(facts.stages, request.toStage);
    if Known(facts.stages, request.fromStage) && Known(facts.stages, request.toStage) {
      var from, to := StagesAre(facts, request);
      StoredExactlyWhen(request);
      if InScope(facts, request, from, to) {
        DeniedInScope(facts, request, from, to, code);
      }
    } else {
      forall from, to ensures !InScope(facts, request, from, to) {
        LookupExactlyWhen(facts.stages, request.fromStage, from);
        LookupExactlyWhen(facts.stages, request.toStage, to);
      }
    }
  }

  lemma DeniedInScope(facts: Facts, request: Request, from: StageRef, to: StageRef, code: Denial)
    requires InScope(facts, request, from, to)
    requires Lookup(facts.stages, request.fromStage) == Some(from)
    requires Lookup(facts.stages, request.toStage) == Some(to)
    requires StoredReason(request.reason).Some? <==> HasReason(request)
    ensures Evaluate(facts, request) == Denied(code) <==> RefusedInScope(facts, request, from, to, code)
  {
  }

  /** The status an allowed move leaves says what kind of stage it led to. */
  lemma ResultMatchesStage(facts: Facts, request: Request)
    requires Evaluate(facts, request).Allowed?
    ensures var d := Evaluate(facts, request);
            && (d.result == Hired <==> d.to.kind == HiredStage)
            && (d.result == Rejected <==> d.to.kind == RejectedStage)
            && (d.result == Active <==> !d.to.Terminal())
            && d.result != Withdrawn
            && (facts.status != Active <==> d.kind == Reopen)
  {
    AllowedExactlyWhenJustified(facts, request);
  }

  /** A board that shows another stage than the current one is told so, whatever else is wrong. */
  lemma StaleExactlyWhen(facts: Facts, request: Request)
    ensures Evaluate(facts, request) == Denied(StaleStage) <==>
            && (exists k :: 0 <= k < |facts.stages| && facts.stages[k].id == request.fromStage)
            && (exists k :: 0 <= k < |facts.stages| && facts.stages[k].id == request.toStage)
            && facts.currentStage != request.fromStage
  {
    LookupFinds(facts.stages, request.fromStage);
    LookupFinds(facts.stages, request.toStage);
  }

  /** The facts once an allowed move has been written, whatever else has become of them. */
  predicate Follow(before: Facts, after: Facts, d: Decision) {
    d.Allowed? && after.stages == before.stages && after.currentStage == d.to.id && after.status == d.result
  }

  /** Of two recruiters who ask for the same move the second one gets a conflict. */
  lemma SameRequestAgainIsStale(before: Facts, after: Facts, request: Request, again: Request)
    requires Follow(before, after, Evaluate(before, request))
    requires again.fromStage == request.fromStage && again.toStage == request.toStage
    ensures Evaluate(after, again) == Denied(StaleStage)
  {
    AllowedExactlyWhenJustified(before, request);
    LookupFinds(before.stages, request.fromStage);
    LookupFinds(before.stages, request.toStage);
  }

  /** A hire or a rejection can be taken back by whoever may move the application and says why. */
  lemma DecisionsCanBeTakenBack(before: Facts, after: Facts, request: Request, reason: string)
    requires Follow(before, after, Evaluate(before, request)) && after.actor == before.actor
    requires Evaluate(before, request).result != Active
    requires !Evaluate(before, request).from.Terminal() && !Blank(reason)
    ensures var d := Evaluate(before, request);
            Evaluate(after, Request(request.toStage, request.fromStage, Some(reason)))
            == Allowed(Reopen, d.to, d.from, Active)
  {
    var d := Evaluate(before, request);
    AllowedExactlyWhenJustified(before, request);
    LookupFinds(before.stages, request.fromStage);
    LookupFinds(before.stages, request.toStage);
    var back := Request(request.toStage, request.fromStage, Some(reason));
    assert Justified(after, back, Reopen, d.to, d.from);
    AllowedExactlyWhenJustified(after, back);
  }
}
