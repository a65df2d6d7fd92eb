# A verified model of the hiring pipeline

This project models the parts of the applicant tracking system in which several processes work
on the same rows, and proves what they keep. There are four state machines.

- **The outbox and its relays** (`Outbox*.dfy`). Producers write rows, any number of relays take
  batches on a 30-second lease, enqueue each row under its own id and mark it, or back off. The
  protocol is a list of interleaved steps in which a relay may be arbitrarily late; what survives
  every interleaving (`OutboxSafety`) is kept apart from what needs relays to act within their lease
  (`OutboxTimely`) and from progress (`OutboxProgress`). `OutboxRelay` is the relay as the class it
  is, and every statement of it is a step of the protocol.
- **Requisitions, applications and their event logs** (`Transitions.dfy`, `Ledger*.dfy`,
  `Funnel.dfy`, `ScorecardGate.dfy`). Transactions begin, read one query at a time and commit or abort; the row
  lock, the unique index on (application, seq), the append-only log and the partial unique index on
  live applications are part of when a step is enabled. `LedgerServices` holds the services that
  write to it, statement by statement, with other transactions acting between any two statements;
  `LedgerRaces` and `LedgerCases` hold the runs in which that goes wrong.
- **Scorecards** (`Scorecards.dfy`, `Panel*.dfy`, `ScorecardsService.dfy`). Validation and scoring
  over reals, saving, who may read whose card, and what every answer says.
- **Candidates and resumes** (`Identity.dfy`, `Candidate*.dfy`, `Resume*.dfy`). The email key, the
  key table, profiles and skills, the parse handler, and the handler behind the outbox.

Any statement of a service may fail for reasons outside the program. The services count such faults,
and each contract says exactly what is answered without one.

## What is claimed, and where the code falls short of it

Most laws hold in every interleaving. The ones below do not; for each the project proves what does
hold and a lemma shows the failing case.

- DISPATCHED is not final. A relay slower than its lease can fail a row that another has
  dispatched (`SlowRelayUndoesDispatch`), and so can a relay within its lease whose update was applied but
  reported as failed (`OneLostReplyIsEnough`). `DispatchedIsLeftExactlyWhen` gives the step.
- Hires can exceed openings, and a full requisition can stay open, when transitions on one
  requisition are in flight together: the lock is on the application. `HireOverfillsExactlyWhen` says
  which commit does it; `HiresReachTheBound` shows that openings + k - 1 is reached with k at once, for
  every number of openings and every k, and `FullStaysOpen` that any requisition with two
  openings or more can be full and open.
- Status and stage type disagree for applications that have not moved yet on a requisition whose
  first stage is terminal (`StatusMatchesStageExactly`); the funnel misses them exactly when that
  stage is a rejection (`UnmovedIsMissedExactlyWhen`). A stage list may start with one, and
  `RejectionFirstIsMissed` is a run in which somebody has applied and the funnel is empty.
- Concluding an interview puts seats back in the way of a hire exactly when the interview owed no
  scorecards any more, now does, and a required card is missing (`ConcludingAddsSeatsExactlyWhen`).
  There are two ways to get there, with a run for each: it was recorded as a no-show before
  (`NoShowOwesAgain`), or it was cancelled between the check and the update (`CancelledOwesAgain`).
- No hire commits while a seat owes a scorecard, as far as the writers of the log go. Saving a draft
  writes no log entry, so the row lock does not hold it back: one whose check came before a
  submission can undo it between count and hire. `HireGateSurvivesLateDraftExactlyWhen` is the exact
  condition, and `LateDraftLetsHireThrough` the run.
- A filled profile gap and merged skills are lost when another transaction read the profile before
  they were written and commits after. `StepGrowsExactlyWhen` is the exact condition on a commit,
  `SettleKeepsExactlyWhen` and `RecordKeepsExactlyWhen` give it field by field, and
  `SecondFillOverwrites` and `StaleDeliveryDropsSkills` are runs in which it happens.
- A submitted scorecard and a FILLED requisition are safe only while no other request reads before
  and writes after (`RecordSurvivesLateSaveExactlyWhen`, `DraftUndoesSubmission`,
  `LateChangeKeepsFilledExactlyWhen`, `LatePauseUndoesFilled`).
- Deliveries of one parse job at once record it more than once: a commit does so exactly when the
  document is handled already (`RecordsAgainExactlyWhen`), and k at once record it k times
  (`EventsReachTheBound`).

Where comments and code differ the code is followed. The stage's `requiresScorecard` flag is
described as gating every move out of a stage (`packages/shared/src/domain/transitions.ts:17`), but
only a hire is gated (`packages/shared/src/domain/transitions.ts:238-249`).
The loser of a race for an identity key is said to fall through to the lookup
(`apps/api/src/modules/candidates/services/candidate-identity.service.ts:28-31`), but its intake
fails with the error of the unique index (`KeyTaken`).

## Model

| member | source | states |
|---|---|---|
| Outbox.Backoff | apps/api/src/modules/outbox/services/outbox-relay.service.ts:171 | the delay is at least a second and never more than a minute, whatever the attempt |
| Outbox.BackoffIs | apps/api/src/modules/outbox/services/outbox-relay.service.ts:171 | 2, 4, 8, 16 and 32 seconds after the first five failures, a minute after every later one |
| Routing.ProducedAreRouted | apps/api/src/modules/queue/jobs.ts:44-65 | each of the four event types the services produce has a queue, and never the maintenance queue |
| Routing.RoutedExactlyWhen | apps/api/src/modules/queue/jobs.ts:44-65 | each event type has exactly the queue of its handler: the parse request its own, the three notices the notification queue |
| OutboxSafety.StepKeepsSafe | apps/api/src/modules/outbox/services/outbox-relay.service.ts:73-175 | the safety invariant is kept by every step of every relay, however stale its copy |
| OutboxSafety.NoEventIsLost | apps/api/src/modules/outbox/services/outbox-relay.service.ts:73-175 | over every run: a dispatched row has its job, a row has at most one job, a pending row has attempts left and is due within 60 s, a failed row can be replayed and is then due |
| OutboxSafety.LeaseHides | apps/api/src/modules/outbox/services/outbox-relay.service.ts:114-142 | a leased row stays PENDING and is due again after thirty seconds, and no sooner |
| OutboxSafety.RunsOnlyAdd | apps/api/src/modules/outbox/services/outbox-relay.service.ts:90-104 | rows are never deleted, event types never change, job ids are never forgotten |
| OutboxSafety.DispatchedIsLeftExactlyWhen | apps/api/src/modules/outbox/services/outbox-relay.service.ts:154-165 | a row leaves DISPATCHED exactly when a copy at the attempt ceiling records a failure on it |
| OutboxSafety.SlowRelayUndoesDispatch | apps/api/src/modules/outbox/services/outbox-relay.service.ts:101-108 | a reachable state in which a relay past its lease fails a dispatched row whose job exists |
| OutboxTimely.StepKeepsOrderly | apps/api/src/modules/outbox/services/outbox-relay.service.ts:73-175 | steps taken within the lease keep live leases exclusive, live copies true and attempts counted |
| OutboxTimely.TimelyGuarantees | apps/api/src/modules/outbox/services/outbox-relay.service.ts:73-175 | over every timely run: one live lease per row, attempts equals the failures since the last replay, and FAILED exactly at JOB_MAX_ATTEMPTS |
| OutboxTimely.DispatchedIsFinal | apps/api/src/modules/outbox/services/outbox-relay.service.ts:101-108 | with timely relays a dispatched row never changes again |
| OutboxTimely.ExhaustionTakesTheWholeSchedule | apps/api/src/modules/outbox/services/outbox-relay.service.ts:154-175 | a FAILED row took exactly JOB_MAX_ATTEMPTS failures spread over at least the sum of all the backoffs between them |
| OutboxTimely.FailureUsesOneAttempt | apps/api/src/modules/outbox/services/outbox-relay.service.ts:154-175 | each recorded failure uses up one of the attempts left, and the row fails when none is |
| OutboxTimely.LostReplyUndoesDispatch | apps/api/src/modules/outbox/services/outbox-relay.service.ts:101-108 | one try around enqueue and update: in any orderly state an applied update reported as failed leads a timely relay to fail the row |
| OutboxTimely.OneLostReplyIsEnough | apps/api/src/modules/outbox/services/outbox-relay.service.ts:101-108 | a run, timely up to then, in which an applied update reported as failed makes a dispatched row FAILED |
| OutboxProgress.NothingOvertakes | apps/api/src/modules/outbox/services/outbox-relay.service.ts:127-142 | no step puts a row ahead of one that is overdue |
| OutboxProgress.SkippingLeaseTakesABatch | apps/api/src/modules/outbox/services/outbox-relay.service.ts:127-142 | a lease that passes over an overdue row shortens the backlog ahead of it by a whole batch |
| OutboxProgress.ReachedWithinRank | apps/api/src/modules/outbox/services/outbox-relay.service.ts:127-142 | no starvation in any interleaving: within rank / batch leases an overdue row is leased or changed; a stale relay that only enqueues it does not count |
| OutboxProgress.LeasedWithinRank | apps/api/src/modules/outbox/services/outbox-relay.service.ts:127-142 | with timely relays what reaches it is a lease |
| OutboxRelay.SelectDue | apps/api/src/modules/outbox/services/outbox-relay.service.ts:127-142 | the batch holds due rows only, once each, the oldest of them, and as many as fit |
| OutboxRelay.OutboxService.Write | apps/api/src/modules/outbox/services/outbox.service.ts:17-30 | one row is added, pending and due at once, and nothing else changes |
| OutboxRelay.OutboxRelayService.Tick | apps/api/src/modules/outbox/services/outbox-relay.service.ts:57-71 | while running or once stopped a tick does nothing; otherwise it takes one lease unless that query fails to arrive, and reports exactly what was dispatched, or zero when something threw that is not caught |
| OutboxRelay.OutboxRelayService.DrainBatch | apps/api/src/modules/outbox/services/outbox-relay.service.ts:73-112 | a cycle takes one lease unless the query fails to arrive; it returns exactly when all that threw was caught, and has then settled every row it leased exactly once and reports exactly the dispatched ones |
| OutboxRelay.OutboxRelayService.Poll | apps/api/src/modules/outbox/services/outbox-relay.service.ts:43-49 | no starvation, in ticks: an overdue row is leased or changed once the rows ahead of it fill no more batches than the ticks whose query arrived |
| OutboxRelay.OutboxRelayService.Relay | apps/api/src/modules/outbox/services/outbox-relay.service.ts:78-109 | how a row ends is decided by whether it has a queue and how many calls for it threw: none and it is DISPATCHED and has its job, one and a failure is recorded, more and the batch is given up |
| OutboxRelay.OutboxRelayService.MarkFailed | apps/api/src/modules/outbox/services/outbox-relay.service.ts:144-149 | an event without a queue is FAILED with its attempts untouched |
| OutboxRelay.OutboxRelayService.RecordFailure | apps/api/src/modules/outbox/services/outbox-relay.service.ts:154-175 | attempts become one more than the leased copy knew; FAILED at the ceiling, otherwise due after the backoff |
| OutboxRelay.OutboxRelayService.QueueFor | apps/api/src/modules/outbox/services/outbox-relay.service.ts:186-199 | exactly the queues the container knows are found and remembered; any other lookup comes back empty or throws |
| OutboxRelay.OutboxRelayService.Replay | apps/api/src/modules/outbox/services/outbox-relay.service.ts:201-208 | answers true exactly for a FAILED row, which is then due with no attempts used |
| Transitions.LookupExactlyWhen | packages/shared/src/domain/transitions.ts:175-185 | the map of stages finds, under an id, exactly the last stage listed with it |
| Transitions.TrimExactlyWhen | packages/shared/src/domain/transitions.ts:221 | trimming leaves the one slice with no white space at either end and nothing but white space around it |
| Transitions.AllowedExactlyWhenJustified | packages/shared/src/domain/transitions.ts:135-259 | a move is allowed exactly when the conditions for one kind of move hold, and then as that kind |
| Transitions.DeniedExactlyWhenRefused | packages/shared/src/domain/transitions.ts:171-256 | each of the ten denials is given exactly for its own reason, in terms of the stage list, role, assignment, status, reason, job status, scorecards and openings |
| Transitions.ResultMatchesStage | packages/shared/src/domain/transitions.ts:135-158 | an allowed move leaves the status that belongs to the stage it leads to, never WITHDRAWN, and reopens exactly what was closed |
| Transitions.StaleExactlyWhen | packages/shared/src/domain/transitions.ts:177-193 | a board that shows another stage than the current one is told so, whatever else is wrong, and no other is |
| Transitions.SameRequestAgainIsStale | packages/shared/src/domain/transitions.ts:186-193 | once an allowed move is written, the same request, from anybody, is a stale board |
| Transitions.DecisionsCanBeTakenBack | packages/shared/src/domain/transitions.ts:140-145 | after a hire or rejection is written, the reverse move with a reason is allowed, as a reopening into the stage it came from |
| LedgerShape.StepKeepsShape | apps/api/src/modules/applications/services/pipeline.service.ts:54-172 | every step keeps logs dense, locks exclusive and what a transaction has read as true as its lock makes it |
| LedgerShape.DecidedOnCurrentRow | apps/api/src/modules/applications/services/pipeline.service.ts:57-60 | the row lock at work: a decision made on what was read is justified on the row as it is when the move commits |
| LedgerShape.LockedStaysPut | apps/api/src/modules/applications/services/pipeline.service.ts:55-60 | nobody else changes a locked application, its log or the seats its transition counted |
| LedgerShape.LogGrows | apps/api/src/common/application-events.ts:25-43 | a step adds at most the next entry and leaves all earlier ones as they were |
| LedgerShape.LogsAreAppendOnly | apps/api/src/common/application-events.ts:3-46 | over every run, with any number of writers, a log is numbered 1..n and no entry ever changes |
| LedgerShape.TransitionNeverLosesTheRace | apps/api/src/modules/applications/services/pipeline.service.ts:144-153 | the number a transition read is still free when it commits |
| LedgerShape.WriterLosesTheRaceExactlyWhenOvertaken | apps/api/src/common/application-events.ts:25-43 | a writer without the lock finds its number taken exactly when the log has grown past it |
| LedgerHistory.ReplayIsLastMove | packages/db/prisma/schema.prisma:443-447 | folding a log of the language comes down to its last stage-bearing entry |
| LedgerHistory.StepKeepsHistorical | apps/api/src/modules/applications/services/pipeline.service.ts:130-172 | every step keeps rows, logs and decision times in agreement |
| LedgerHistory.ReplayAgrees | apps/api/src/modules/applications/services/pipeline.service.ts:130-172 | over every run, folding an application's log from nothing gives its stage and status, and decidedAt is set exactly when it is not active |
| LedgerHistory.LogsAreInTheLanguage | packages/shared/src/domain/transitions.ts:186-226 | RECEIVED, then moves that leave the stage just entered; REOPENED exactly after HIRED or REJECTED, never WITHDRAWN, reasons where asked for |
| LedgerHistory.StatusMatchesStageExactly | packages/shared/src/domain/transitions.ts:147-158 | status agrees with the stage's type exactly when the application has moved or the first stage is not terminal |
| LedgerEffects.WrittenIsRouted | apps/api/src/modules/queue/jobs.ts:44-52 | every kind of row the ledger's transactions write is routed |
| LedgerEffects.LogAndOutboxAgree | apps/api/src/modules/applications/services/pipeline.service.ts:155-185 | over every run, commits and aborts: as many outbox rows of each kind as log entries they announce, and one of each intake row |
| LedgerEffects.NobodyAppliesTwiceAtOnce | apps/api/src/modules/applications/services/application-intake.service.ts:191-217 | a candidate never has two live applications for one role, reopened ones included |
| LedgerEffects.HireFindsNoSeatOwing | packages/shared/src/domain/transitions.ts:238-249 | no hire commits out of a scored stage while a required seat there owes a scorecard |
| LedgerEffects.SeatsOnlyShrink | packages/shared/src/domain/scorecards.ts:190-208 | submitting or cancelling never adds an owing seat, and submitting removes exactly one's own |
| LedgerEffects.ConcludingAddsSeatsExactlyWhen | apps/api/src/modules/interviews/services/interviews.service.ts:172-197 | concluding adds owing seats exactly when the interview owed none by then, cancelled or a no-show, owes them afterwards, and a required card is missing |
| LedgerEffects.HireGateSurvivesLateDraftExactlyWhen | apps/api/src/modules/interviews/services/scorecards.service.ts:90-134 | with a draft written between count and hire, the hire still finds no seat owing exactly when the draft took back no submitted, required card of an open interview at that stage |
| LedgerCases.LateDraftLetsHireThrough | apps/api/src/modules/interviews/services/scorecards.service.ts:90-134 | a run in which a hire is about to commit and such a draft leaves it a seat that owes |
| LedgerCases.NoShowOwesAgain | apps/api/src/modules/interviews/services/interviews.service.ts:172-184 | a run after which concluding a no-show as completed makes a seat owe again |
| LedgerCases.CancelledOwesAgain | apps/api/src/modules/interviews/services/interviews.service.ts:172-184 | a run in which an interview is cancelled between the check of a conclude and its update, which makes a seat owe again |
| LedgerHires.StepKeepsBound | apps/api/src/modules/applications/services/pipeline.service.ts:94-116 | hires plus transitions that could still hire never pass openings + k - 1 |
| LedgerHires.HiresNeverExceed | apps/api/src/modules/applications/services/pipeline.service.ts:94-116 | with at most k transitions on a requisition in flight, hires never exceed openings + k - 1 |
| LedgerHires.BothHire | apps/api/src/modules/applications/services/pipeline.service.ts:187-194 | two transitions ready to hire both do, and leave the requisition unfilled unless one had counted enough |
| LedgerHires.HireOverfillsExactlyWhen | apps/api/src/modules/applications/services/pipeline.service.ts:94-194 | a commit hires past the openings exactly when these were taken already, and leaves a full requisition unfilled exactly when it takes the last opening having counted fewer hires |
| LedgerRaces.HiresReachTheBound | apps/api/src/modules/applications/services/pipeline.service.ts:55-116 | the bound is sharp: for every number of openings and every k some run with at most k in flight hires openings + k - 1 |
| LedgerRaces.FullStaysOpen | apps/api/src/modules/applications/services/pipeline.service.ts:187-194 | for every requisition with two openings or more some run fills them all and leaves it OPEN |
| LedgerFilled.FilledIsFinal | apps/api/src/modules/jobs/services/jobs.service.ts:344-367 | FILLED is never left and the opening time, once set, never changes |
| LedgerFilled.FilledHasBothTimes | apps/api/src/modules/jobs/services/jobs.service.ts:268-277 | a filled requisition has both times, in order |
| LedgerFilled.FullMeansFilled | apps/api/src/modules/applications/services/pipeline.service.ts:187-194 | one transition at a time: never more hires than openings, and as many means FILLED |
| LedgerFilled.NoOpeningsIsNeverTheDenial | packages/shared/src/domain/transitions.ts:251-256 | one transition at a time, nobody is told that no openings remain |
| LedgerFilled.LateChangeKeepsFilledExactlyWhen | apps/api/src/modules/jobs/services/jobs.service.ts:248-277 | a status change that read the row before it was filled keeps FILLED, and the opening time, exactly when stated |
| LedgerRaces.LatePauseUndoesFilled | apps/api/src/modules/jobs/services/jobs.service.ts:248-277 | a run in which the last hire falls between the two statements of a pause, which takes FILLED back |
| LedgerServices.LatestSeq | apps/api/src/common/application-events.ts:25-30 | the highest number in the log, or zero for an empty one |
| LedgerServices.PipelineService.Transition | apps/api/src/modules/applications/services/pipeline.service.ts:49-207 | with others acting between its statements: success has committed once and last, row, log and answer agree and what was read justifies the move; a refusal has committed nothing and fits what was read; an error of the database comes of a fault or of another active application |
| LedgerServices.DecisionFits | apps/api/src/modules/applications/services/pipeline.service.ts:209-225 | the answer fits the facts: 409 for a stale board, 403 without scope, 404 for an unknown stage, 422 for every other refusal |
| LedgerServices.OneVerdictFits | apps/api/src/modules/applications/services/pipeline.service.ts:209-225 | no facts fit two answers, so each answer is given exactly when its conditions hold |
| LedgerServices.PipelineService.Decide | apps/api/src/modules/applications/services/pipeline.service.ts:54-128 | lock, gather and decide commit nothing; the decision, or the denial and its status code, fits the facts read |
| LedgerServices.PipelineService.Write | apps/api/src/modules/applications/services/pipeline.service.ts:130-206 | the writes of an allowed move happen together, or not at all when a constraint refuses them |
| LedgerServices.WriteAnswers | apps/api/src/modules/applications/services/pipeline.service.ts:198-205 | what a committed move reports is what the row and the last log entry say |
| LedgerServices.JobsService.ChangeStatus | apps/api/src/modules/jobs/services/jobs.service.ts:245-281 | allowed for exactly the eight changes there are, reopening and resuming among them; then the new status, both times and nothing else change |
| LedgerServices.JobsService.AppendStage | apps/api/src/modules/jobs/services/jobs.service.ts:290-312 | the new stage goes after all others, which stay where they are |
| LedgerServices.ApplicationIntakeService.Submit | apps/api/src/modules/applications/services/application-intake.service.ts:76-189 | an accepted submission has its file, its row in the first stage and entry number 1; a refused one has committed nothing, left no file unless a fault kept it, and says why: no open posting, or a live application |
| LedgerServices.LogWriter.Append | apps/api/src/common/application-events.ts:12-46 | the entry becomes the last of the log, of the kind that belongs to the write, which has taken effect; otherwise nothing is written, because the check failed, the log grew meanwhile, or of a fault |
| Scorecards.ValidateRatings | packages/shared/src/domain/scorecards.ts:49-95 | accepts exactly complete ratings, and otherwise names the first thing wrong with them |
| Scorecards.AcceptedExactlyWhenBijection | packages/shared/src/domain/scorecards.ts:49-95 | with distinct criteria, accepted means one rating for each criterion and one criterion for each rating, all in range |
| Scorecards.SummarizeScorecard | packages/shared/src/domain/scorecards.ts:104-120 | the two accumulators give the weighted mean of the normalised ratings that carry weight |
| Scorecards.ScoreInUnitInterval | packages/shared/src/domain/scorecards.ts:97-120 | accepted ratings have a score exactly when some criterion has positive weight, and it lies in (0, 1] |
| Scorecards.ScoreOfFraction | packages/shared/src/domain/scorecards.ts:97-120 | ratings that are the same part of their scales score that part: three of five like six of ten, full marks one |
| Scorecards.ScoreOfBoth | packages/shared/src/domain/scorecards.ts:104-120 | two lists of ratings together score the mean of their scores, each with the weight of its criteria |
| Scorecards.ScoreWithout | packages/shared/src/domain/scorecards.ts:111-116 | ratings of unknown criteria, or of such without weight or scale, change nothing |
| Scorecards.ScoredExactlyWhen | packages/shared/src/domain/scorecards.ts:119 | there is a score exactly when some rating carries weight |
| Scorecards.ScoreIgnoresOrder | packages/shared/src/domain/scorecards.ts:104-120 | the score does not depend on the order of the ratings |
| Scorecards.ScoreIgnoresScale | packages/shared/src/domain/scorecards.ts:104-120 | multiplying all weights by one factor leaves every score as it was |
| Scorecards.ScoreIsMonotone | packages/shared/src/domain/scorecards.ts:104-120 | raising a rating that carries weight raises the score; raising any other leaves it |
| ScorecardGate.CountPendingScorecards | packages/shared/src/domain/scorecards.ts:183-208 | the counter is the number of required seats on open interviews without a submitted card |
| ScorecardGate.ListingShowsTheSeats | apps/api/src/modules/applications/services/pipeline.service.ts:98-109 | any listing of the interviews at a stage counts exactly the seats the gate is about |
| Panel.IndexOf | apps/api/src/modules/interviews/services/scorecards.service.ts:90-93 | finds the caller's card on the interview, or there is none |
| Panel.StepKeepsTidy | apps/api/src/modules/interviews/services/scorecards.service.ts:113-134 | ids stay unique and nobody gets a second card on an interview |
| Panel.SubmittedIsFinal | apps/api/src/modules/interviews/services/scorecards.service.ts:95-100 | over any run of saves and status changes a submitted card never changes |
| Panel.LeanIsOnTheScale | packages/shared/src/domain/scorecards.ts:210-221 | there is a lean exactly when a readable card recommends something, and it lies between the two extreme verdicts |
| Panel.UnanimousLean | packages/shared/src/domain/scorecards.ts:210-221 | a panel that agrees has exactly its verdict as the lean |
| PanelAnswers.PanelAnswerIs | apps/api/src/modules/interviews/services/scorecards.service.ts:186-257 | the panel answer: a recruiter gets every submitted card, an interviewer the own one and with it submitted the others; the counts of submitted and withheld cards; the mean of what is shown |
| PanelAnswers.MineAnswerIs | apps/api/src/modules/interviews/services/scorecards.service.ts:43-69 | the form: status, criteria and exactly the caller's own card |
| PanelAnswers.ListAnswerIs | apps/api/src/modules/interviews/services/interviews.service.ts:207-266 | the list: exactly the interviews the caller may view, with their status and who has submitted |
| PanelAnswers.SaveRefusedExactlyWhen | apps/api/src/modules/interviews/services/scorecards.service.ts:71-109 | a save is refused exactly for its own reason: not visible 404, not on the panel 403, closed or already submitted 409, incomplete 422, not storable |
| PanelAnswers.SaveLeaves | apps/api/src/modules/interviews/services/scorecards.service.ts:113-176 | a save leaves the caller one card, under its old id, with what was sent and its score; no other card changes |
| PanelAnchoring.CountsAreSubmissions | apps/api/src/modules/interviews/services/scorecards.service.ts:242-250 | the counts an interviewer gets: how many have submitted, and that all of those are withheld before one's own submission and none after |
| PanelAnchoring.AnswerIsSame | apps/api/src/modules/interviews/services/scorecards.service.ts:186-257 | no answer tells an interviewer yet to submit what colleagues said |
| PanelAnchoring.NothingSaidReachesTheInterviewer | packages/shared/src/domain/scorecards.ts:136-167 | two whole runs that differ in what colleagues say give an interviewer yet to submit the same answers to every panel, mine, list and save |
| ScorecardsServices.ScorecardsService.Save | apps/api/src/modules/interviews/services/scorecards.service.ts:71-177 | checks in order, then card and ratings are replaced together or not at all, with the score of what was sent |
| ScorecardsServices.RecordSurvivesLateSaveExactlyWhen | apps/api/src/modules/interviews/services/scorecards.service.ts:90-134 | a save checked earlier leaves a submitted record alone exactly when it was refused, or submits the same answers at the same time |
| ScorecardsServices.DraftUndoesSubmission | apps/api/src/modules/interviews/services/scorecards.service.ts:90-134 | a draft checked before the submission and written after it takes the submission back |
| Identity.ParseExactlyWhen | packages/shared/src/domain/identity.ts:46-53 | the address found is the one well-formed address that the text spells, without the white space around it and up to the case of its letters |
| Identity.LoweredExactlyWhen | packages/shared/src/domain/identity.ts:46 | folding gives the one text without capitals that is the same up to case, by the 26 pairs of letters |
| Identity.NormalizesExactlyWhen | packages/shared/src/domain/identity.ts:43-73 | there is a key exactly when such an address is spelled with a letter or digit before any tag, and that address is what is displayed |
| Identity.ProvidersAre | packages/shared/src/domain/identity.ts:11-27 | the ten providers whose addresses take tags, and the two that ignore dots |
| Identity.KeyIsPlainest | packages/shared/src/domain/identity.ts:55-73 | the key is the plainest spelling of the mailbox: a chain of provider rules away, and no rule leads to it from a plainer one |
| Identity.KeyIsItsOwnKey | packages/shared/src/domain/identity.ts:43-73 | normalising a key gives that key |
| Identity.KeysAreInjectiveElsewhere | packages/shared/src/domain/identity.ts:11-27 | outside the listed providers two addresses share a key exactly when what was typed, trimmed, has one length and agrees letter by letter up to case |
| Identity.SameKeyExactlyWhenSameMailbox | packages/shared/src/domain/identity.ts:37-73 | two addresses share a key exactly when tags, dots and the other domain name, one at a time, turn one into the other |
| Candidates.StepKeepsSound | apps/api/src/modules/candidates/services/candidate-identity.service.ts:33-114 | keys have existing owners, an owner was found through one of the keys, every key looked at is taken or to be claimed |
| CandidateKeys.KeysAreNeverReassigned | apps/api/src/modules/candidates/services/candidate-identity.service.ts:94-114 | over any run, with lost races and aborts, a key stays with its candidate |
| CandidateKeys.KeysBelongToResultExactlyWhen | apps/api/src/modules/candidates/services/candidate-identity.service.ts:33-114 | a committed intake owns all keys of its submission exactly when they had at most one owner before; all of them are taken |
| CandidateKeys.ResubmissionFindsTheSameCandidate | apps/api/src/modules/candidates/services/candidate-identity.service.ts:53-66 | the same keys submitted again, any time later, give the same candidate whichever key the query returns |
| CandidateKeys.MatchIsForcedExactlyWhen | apps/api/src/modules/candidates/services/candidate-identity.service.ts:53-56 | the unordered query can name only one candidate exactly when the keys have at most one owner |
| CandidateKeys.OneClaimWins | apps/api/src/modules/candidates/services/candidate-identity.service.ts:28-31 | of two intakes that found the same key free only one can commit |
| CandidateProfiles.MergedExtends | apps/api/src/processors/resume-parse.processor.ts:81-86 | merging keeps skills distinct and at most 60, extends the list, adds nothing else, and leaves the row alone only when nothing is new |
| CandidateProfiles.ParseWrites | apps/api/src/processors/resume-parse.processor.ts:71-89 | a parse writes the link exactly into a gap, the skills exactly when there is room and one is new, never the location |
| CandidateProfiles.GapsAreFilled | apps/api/src/modules/candidates/services/candidate-identity.service.ts:127-135 | a later submission writes location and link exactly where there is a gap and something to fill it |
| CandidateProfiles.CreatedIs | apps/api/src/modules/candidates/services/candidate-identity.service.ts:70-82 | a new candidate has the location as typed, the link trimmed or none, and no skills |
| CandidateProfiles.SkillsStayGood | apps/api/src/processors/resume-parse.processor.ts:81-86 | in every interleaving a candidate's skills are distinct and at most 60 |
| CandidateProfiles.StepGrowsExactlyWhen | apps/api/src/modules/candidates/services/candidate-identity.service.ts:116-141 | whoever else is at work, a step keeps location, profile link and all skills exactly when it is harmless |
| CandidateProfiles.SettleKeepsExactlyWhen | apps/api/src/modules/candidates/services/candidate-identity.service.ts:127-140 | filling gaps keeps a given location, and a given link, exactly when it was read as given, there is nothing to fill in, or it is the same; skills always |
| CandidateProfiles.RecordKeepsExactlyWhen | apps/api/src/processors/resume-parse.processor.ts:74-89 | a parse keeps a given link exactly when it was read as given, none was found, or it is the same; all skills exactly when none are written or the merged list has them; the location always |
| CandidateProfiles.HarmlessRunsGrow | apps/api/src/processors/resume-parse.processor.ts:71-89 | over any run of harmless steps, however they interleave, a profile only grows |
| CandidateProfiles.ProfilesOnlyGrow | apps/api/src/modules/candidates/services/candidate-identity.service.ts:116-141 | while writers take turns, a location or profile link that is there never changes and skills only follow |
| CandidateProfiles.ProfilesOnlyGrowFromTheStart | apps/api/src/processors/resume-parse.processor.ts:71-89 | the same between any two moments of any run from the empty database |
| CandidateRaces.SecondFillOverwrites | apps/api/src/modules/candidates/services/candidate-identity.service.ts:127-140 | a run after which a candidate's location is about to be replaced by that of an intake that had read the gap |
| CandidateRaces.StaleDeliveryDropsSkills | apps/api/src/processors/resume-parse.processor.ts:74-89 | a run after which a recorded skill is about to be dropped by a delivery that had read the list without it |
| ResumeEvents.EventsNeverExceedDeliveriesAtOnce | apps/api/src/processors/resume-parse.processor.ts:46-112 | with at most k deliveries at once a document is recorded at most k times, and at all exactly when it is handled |
| ResumeEvents.RecordedExactlyOnce | apps/api/src/processors/resume-parse.processor.ts:46-112 | deliveries one after another: one entry once one has gone through, none before, and of the kind the status says |
| ResumeEvents.TwoDeliveriesRecordTwice | apps/api/src/processors/resume-parse.processor.ts:46-49 | from any state in which two deliveries have begun on an unlocked document, both record it |
| ResumeEvents.RecordsAgainExactlyWhen | apps/api/src/processors/resume-parse.processor.ts:46-112 | in every reachable state a commit is the document's first entry exactly when nobody has handled it, and a further one exactly when somebody has |
| CandidateRaces.EventsReachTheBound | apps/api/src/processors/resume-parse.processor.ts:46-112 | the bound is sharp: for every k some run with at most k deliveries at once records a document k times |
| ResumeDelivery.EachResumeIsParsedOnce | apps/api/src/modules/outbox/services/outbox-relay.service.ts:89-105 | intakes, relays and handlers together: recorded at most once and only after the row was enqueued, and until then enqueued, pending or FAILED |
| ResumeDelivery.EnqueuedCanBeDelivered | apps/api/src/processors/resume-parse.processor.ts:31-49 | a document can be handled exactly when its row was enqueued and nobody has handled it |
| CandidateServices.CandidateIdentityService.Resolve | apps/api/src/modules/candidates/services/candidate-identity.service.ts:33-85 | ends with an owner found through a matching key that still has it, or with a new candidate when no key was taken, having committed nothing yet |
| CandidateServices.CandidateIdentityService.BackfillKeys | apps/api/src/modules/candidates/services/candidate-identity.service.ts:94-114 | after the loop every key is somebody's or is to be claimed, and the match still stands |
| CandidateServices.CandidateIdentityService.FillProfileGaps | apps/api/src/modules/candidates/services/candidate-identity.service.ts:122-141 | the patch fills what was blank when the profile was read, and nothing else |
| CandidateServices.ApplicationIntake.Submit | apps/api/src/modules/applications/services/application-intake.service.ts:82-133 | an accepted submission has all its keys taken, one of them by its candidate, and its document pending; one that lost a key free at the start commits nothing; any other failure is a fault or an id in use |
| CandidateServices.ResumeParseProcessor.Process | apps/api/src/processors/resume-parse.processor.ts:31-119 | a delivery that gets through records once: failed with nothing found, else a success or with warnings partial, and the entry to match; it skips only a document that was not there, finds it parsed exactly when it was handled, and fails only by a fault |
| Funnel.EveryoneEnteredFirst | apps/api/src/modules/applications/services/application-intake.service.ts:110-117 | every log has an entry into the first stage of the requisition |
| Funnel.StageHasRowExactlyWhen | apps/api/src/modules/analytics/services/analytics.service.ts:122-148 | a stage has a row exactly when it is no rejection and somebody entered it |
| Funnel.RowIs | apps/api/src/modules/analytics/services/analytics.service.ts:150-160 | each row has the position of its stage, how many entered it and their exact share of the first row |
| Funnel.RowsIncrease | apps/api/src/modules/analytics/services/analytics.service.ts:147 | rows come in the order of the pipeline |
| Funnel.FirstRowCountsEveryone | apps/api/src/modules/analytics/services/analytics.service.ts:122-160 | with a first stage that is not a rejection, the first row counts every application, no row counts more and no rate exceeds 100 |
| Funnel.ConversionIsExactOrCut | apps/api/src/modules/analytics/services/analytics.service.ts:152-170 | conversion is given between adjacent rows, exact when fewer entered the later stage and 100 otherwise |
| Funnel.UnmovedCountsForFirstStageOnly | apps/api/src/modules/analytics/services/analytics.service.ts:136 | an application that has not moved has entered the first stage only |
| Funnel.UnmovedIsMissedExactlyWhen | apps/api/src/modules/analytics/services/analytics.service.ts:122-148 | an application that has not moved is in no row of the funnel exactly when the first stage is a rejection stage |
| LedgerCases.RejectionFirstIsMissed | packages/shared/src/contracts/jobs.ts:19-31 | a run on a legal stage list that starts with the rejection stage: the applicant is active there, and the funnel has no row |

## Left out

- One clock: the relay's own clock, the database's and a transaction's start are one monotone time, and a failure's due time is computed when it is written.
- The queue: its job ids are never forgotten and its own retries are deliveries; retention, priorities and worker concurrency are not modelled.
- OutboxRelay.OutboxRelayService.Poll: ticks one after another; one that fires during a cycle does nothing, as `Tick` says.
- The leasing query is one step, so the case in which it skips rows that another lease has locked at that very moment does not arise.
- Database internals: commits are atomic, a failed constraint aborts, and an insert that references an application waits while a transition holds its row lock; deadlocks and lock timeouts are plain aborts.
- LedgerServices.JobsService.ChangeStatus: reads and writes the row at once, although the code does so in two statements; `LateChangeKeepsFilledExactlyWhen` says what that leaves open.
- ScorecardsServices.ScorecardsService.Save: checks and writes at once, although the code checks before its transaction; `RecordSurvivesLateSaveExactlyWhen` says what that leaves open.
- LedgerEffects.HireFindsNoSeatOwing: the writers of the log only; a draft is no step of the ledger, and `HireGateSurvivesLateDraftExactlyWhen` says what one does between count and hire.
- The intake transaction as one: LedgerServices models its rows in the ledger and CandidateServices its keys and profile, on two databases that are not composed.
- LedgerServices.LogWriter.Append: the interview checks of cancel and conclude are made when the transaction begins; the application's last activity time is not modelled.
- CandidateProfiles.ProfilesOnlyGrow: needs the writers of a profile to take turns, since the code reads a profile and writes it without a lock; `StepGrowsExactlyWhen` is the condition without that.
- Identity.NormalizeEmail: folds the case of ASCII letters only; Unicode case mapping is not modelled.
- Phone numbers: the number is taken as already normalised or absent, since the rule is a foreign library's.
- The resume parser and its regular expressions: a parse result is any value.
- Organisations and tenancy: one organisation, with role and assignment given by the caller.
- Ids: generated ids are parameters; a scorecard's id is its place in the table.
- Interviewer names, rating notes, the order of ratings in an answer, and filters and page size of the interview list.
- The organisation-wide funnel, rounding to two decimals, percentiles, median times and the alerts of the analytics service; floating-point error in scores.
- Scheduling's check that panelists are active members, and times, links and titles of interviews.
- Name normalisation, template copies, slugs, listing and detail reads: bounded loops and queries without state of their own.
- Authentication, mail and its templates, storage beyond the set of file keys, controllers, the web application.
