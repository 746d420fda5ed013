# A verified model of the playtest platform

A Dafny model of the parts of the platform whose correctness no single function
shows: the playtest lifecycle with its worker and sweeps, the guards around
accounts, the report printers, the queue backstop, and a few shared algorithms.
Everything below is proved for all inputs and, for the protocols, for every
interleaving and every run.

`dafny verify dfyconfig.toml` checks the project.

## The parts

- **Playtest lifecycle** (`PlaytestTables`, `PlaytestProtocol`, `PlaytestInvariant`,
  `PlaytestSteps`, `PlaytestTheorems`, `PlaytestVerdicts`, `PlaytestQueue`,
  `PlaytestScenes`, `PlaytestRescue`, `PlayerCta`, `StaleJoin`, `PlaytestChanges`,
  `PlaytestClaims`, `PlaytestStore`).
  Players join tests, play one session and finish it; a sweep times sessions out; a
  redeliverable job judges them and credits XP; the studio may overrule.
  `PlaytestTables` gives each transaction's effect, `PlaytestProtocol` the transition
  system over them: each transaction, statement, Redis command or queue call is one
  step, whatever a process read earlier is a local copy that may be stale, and any
  process can die between two steps. `PlaytestInvariant` and `PlaytestSteps` prove one
  inductive invariant. The lemma it turns on is `CommitLeavesOtherRewards`: no other
  session of the same player and test can be waiting for its verdict, so the check
  before the XP insert cannot go stale. `PlaytestQueue` counts the runs of the
  validation jobs, and `PlaytestRescue` says which sessions can still be judged.
  `PlaytestChanges` says of every row what changes it, when and to what;
  `PlaytestClaims` follows the play time from the claim to the verdict.
  `PlaytestStore` is the code, statement by statement, proved to have the effects the
  protocol steps with.
- **Accounts** (`OwnerGuard`, `RefreshTokens`). The last-owner guard is modelled lock
  by lock under READ COMMITTED. Its promise is false: `GuardCanFail` builds a run
  in which an organization loses its last owner. It fails exactly when a
  transaction that locked no row writes to a member who has meanwhile become the
  only active owner (`LosesLastOwnerExactlyWhen`, `OwnerKeptExactlyWhenNeverBlind`).
  Refresh-token families keep at most one live token, and a refused family stays dead.
- **Reports** (`JsText`, `Decimal`, `ReportRows`, `CsvReport`, `PdfText`, `PdfWrap`,
  `PdfLayout`, `PdfReader`, `PdfRoundTrip`, `Utf8`, `CsvBytes`). Strings are sequences
  of UTF-16 code units. The CSV's bytes are decoded (section 3 of RFC 3629) and read
  back by a reader for section 2 of RFC 4180; the PDF by a reader that starts at
  `startxref`, follows the 20-byte cross-reference entries (section 7.5.4 of
  ISO 32000-1), takes streams by their `/Length` (section 7.3.8) and strings by
  section 7.3.4.2. The PDF reads back if and only if its last object
  starts below byte 10^10.
- **Queue** (`JobQueue`, `Handlers`, `Worker`). Jobs, their runs, the sweep that gives
  up, the handlers that settle rows, and the loop that runs them.
- **Shared algorithms** (`Idempotency`, `CanonicalJson`, `CursorWalk`, `Age`, `FormAnswers`).

## Assumptions

- A transaction is atomic; in the lifecycle only the validation transaction is split,
  between its XP check and its commit, with the key of its validation row held. The
  owner guard is modelled finer: each row lock, the read and the write are steps.
- `slots_total` never goes below `slots_taken`. The module that edits tests is not part of this model.
- Row ids are fresh and increasing; nothing but session validation writes session XP.
- One clock, which never goes back.
- The queue keeps the number of failed runs of a job across retries, and a run
  whose worker dies counts as failed. Calls that ensure a job do not interleave.
- Storage, hashing, probing, token verification and the clock are parameters. The
  digest of a build's bytes is any function; only where payloads must be told apart
  (`Idempotency.SlotsTellPayloadsApart`) is the digest required to be injective.

## Where code and promise differ

- The last-owner guard can let the last active owner go (above).
- `canonicalize` loses members named `__proto__`, so bodies that differ only there
  share a hash; `KeptApartExactlyWhen` says exactly which bodies are safe.
- The Redis key joins URL and key with a colon, so a key that holds a colon can
  share a slot with another URL (`ColonKeysCollide`); callers and, with an injective
  digest, payloads are never mixed (`SharedSlots`, `SlotsTellPayloadsApart`).
- Expiry of a slot can give it a second owner, exactly when some request owns it at
  that moment (`ExpiryHarmsExactlyWhen`); if that one is in its handler, two handlers
  run at once (`ExpiryLetsTwoIn`).
- `fieldErrors["__proto__"] = ...` has no effect, so an answer to a question of that
  name is neither accepted nor reported (`ProtoIsSwallowed`).
- The button can offer a join that is refused, exactly when the player completed an
  earlier participation (`CtaAgreesExactly`); a stale join leads there (`OfferedJoinCanBeRefused`).
- A readable build file named `*.constructor` whose digest agrees makes its handler
  throw on every run (`ThrowsOnEveryRun`, `ConstructorThrows`).
- A closed session is not always judged in the end: once its validation job has used up its
  runs and nothing of it is in flight, nothing judges it any more, and no other
  session is lost that way (`JudgeableExactlyWhen`, `SomeSessionIsStranded`).

## Model

| member | source | states |
|---|---|---|
| PlaytestTheorems.XpExactlyForValidSessions | src/workers/session.processor.ts:80-149 | in every reachable state a player has a session XP event on a test exactly when the worker found one of their sessions there valid |
| PlaytestTheorems.XpAtMostOnce | src/workers/session.processor.ts:115-149 | and never two, although the check and the insert are separate steps |
| PlaytestTheorems.XpCheckNeverStale | src/workers/session.processor.ts:125-137 | the answer of the XP check, and the session row read before the transaction, are still current when the transaction commits |
| PlaytestInvariant.OneUnvalidatedPerPair | src/infra/database/schema/participations.ts:47-55 | the active-participation index allows one session per player and test to be waiting for a verdict |
| PlaytestInvariant.CommitLeavesOtherRewards | src/workers/session.processor.ts:98-98 | a commit changes the reward of no other session still being validated |
| PlaytestTheorems.Lifecycle | src/modules/participations/participations.repository.ts:401-451 | one session per participation at most; unvalidated means playing or in review, validated means completed or rejected as the worker decided |
| PlaytestTheorems.NothingReopens | src/modules/participations/participations.repository.ts:502-522 | over every later run closed sessions stay closed, final participations keep their status and verdicts never change |
| PlaytestTheorems.SlotsConserved | src/modules/participations/participations.repository.ts:138-177 | slots taken are the participations ever created for the test, and at most the total |
| PlaytestTheorems.OneActivePerPair | src/infra/database/schema/participations.ts:49-53 | of a player's participations in a test only the newest can be active |
| PlaytestTheorems.StudioOverruleIsAFormula | src/modules/reports/reports.repository.ts:675-738 | the stored validation is the worker's verdict unless the latest mark overrules a valid one |
| PlaytestTheorems.UnmarkRestores | src/modules/reports/reports.repository.ts:675-738 | marking and unmarking restores the worker's verdict and its reason |
| PlaytestTheorems.ViewTellsTheVerdict | src/modules/participations/sessions.service.ts:313-334 | every status shown to the player corresponds to one state of session, verdict and mark |
| PlaytestSteps.RunKeeps | src/workers/reconcile.processor.ts:98-153 | the invariant holds after every run of joins, starts, heartbeats, finishes, sweeps, deliveries, crashes and ratings |
| PlaytestVerdicts.VerdictsTellThePlay | src/workers/session.processor.ts:51-74 | the timeout reason exactly for sessions never finished; valid only for a play of positive length no longer than its session |
| PlaytestVerdicts.XpIsFifty | src/workers/session.processor.ts:139-148 | every session XP row is worth 50 |
| PlaytestVerdicts.VerdictsTellWhatWasSeen | src/workers/session.processor.ts:51-74 | after every run a session is valid exactly when it was played for a positive time and the job that judged it saw no failed recording |
| PlaytestClaims.FinishedAsClaimed | src/modules/participations/sessions.service.ts:129-145 | after every run a session has a play time exactly when a finish closed it: the time it claimed, or, if less had gone by since the start, what had, and never below zero but for a negative claim |
| PlaytestClaims.ValidExactlyAsClaimed | src/workers/session.processor.ts:51-74 | after every run a session is valid exactly when claimed and elapsed time were both positive and its job saw no failed recording; each reason says what failed first |
| PlaytestChanges.SessionChanges | src/modules/participations/participations.repository.ts:485-522 | a session changes by its finish, timeout, first heartbeat and verdict, each only from the statuses it starts from, and by nothing else |
| PlaytestChanges.SessionAppears | src/modules/participations/participations.repository.ts:401-451 | it appears exactly when a start finds its participation unplayed and no session of it running |
| PlaytestChanges.ParticipationChanges | src/modules/participations/participations.repository.ts:401-522 | a participation changes by a start and by its session's finish and verdict, and by nothing else |
| PlaytestChanges.ParticipationAppears | src/modules/participations/participations.repository.ts:138-177 | it appears, with its slot, exactly when a join that passed its checks finds the test open, a slot free and no ongoing participation |
| PlaytestChanges.ReserveAnswers | src/modules/participations/participations.repository.ts:138-177 | which refusal a join gets, and what it changes when it gets none |
| PlaytestChanges.StartAnswers | src/modules/participations/participations.repository.ts:401-451 | the same for a start |
| PlaytestChanges.RateAnswers | src/modules/reports/reports.repository.ts:675-738 | the same for a rating: a session of another organization is not found, and an unvalidated one cannot be marked |
| PlaytestChanges.GoesAhead | src/modules/participations/sessions.service.ts:62-145 | exactly which requests, deliveries and sweeps go past their first checks, and with what |
| PlaytestChanges.ChecksOnTheWay | src/workers/reconcile.processor.ts:134-153 | the timeout sweep passes over a session whose key is there, a join stops at a completed participation, a heartbeat marks only a starting session |
| PlaytestChanges.HeartbeatChanges | src/modules/participations/sessions.service.ts:117-122 | what sets and drops a heartbeat key, and that nothing else does |
| PlaytestChanges.RatingIsTheLatest | src/modules/reports/reports.repository.ts:675-738 | after every run the stored rating of a session is the latest one accepted, with its rater, comment and mark |
| PlaytestQueue.QueueRunKeeps | src/infra/queue/ensure-enqueued.ts:29-47 | with validation jobs counted: at most five failed runs, a running job has a live run, a completed one a judged session |
| PlaytestQueue.FailuresCount | src/infra/queue/ensure-enqueued.ts:18-20 | a run that throws or is taken for dead counts as one failed run of its job, and nothing else does |
| PlaytestQueue.CountedIsReachable | src/workers/handle-job.ts:26-28 | counted runs are runs of the protocol, so its theorems hold of them |
| PlaytestRescue.JudgeableExactlyWhen | src/workers/reconcile.processor.ts:98-153 | a session can still be judged if and only if it is judged, or its job has not used up its runs, or a validation of it is in flight |
| PlaytestRescue.StrandedForever | src/workers/reconcile.processor.ts:105-123 | otherwise it stays unjudged over every later run, because the sweep ignores that its job is exhausted |
| PlaytestRescue.SomeSessionIsStranded | src/workers/reconcile.processor.ts:105-123 | a reachable state with such a session |
| PlayerCta.CtaAgreesExactly | src/modules/participations/player-cta.ts:12-61 | a join that would pass is always offered; one that is offered passes unless an earlier participation was completed |
| PlayerCta.CtaAgrees | src/modules/participations/participations.service.ts:46-80 | with each join in one step the button says start exactly when the join would pass |
| StaleJoin.OfferedJoinCanBeRefused | src/modules/participations/participations.service.ts:46-80 | a reachable state in which the button says start and the join would be refused |
| PlayerCta.CtaTellsTheSession | src/modules/participations/player-cta.ts:39-61 | completed, in review, continue and start or unavailable each show exactly one state of the participation's session and verdict |
| PlayerCta.ReasonTells | src/modules/participations/player-cta.ts:12-30 | which reason is shown for which test, next to what joining it would answer |
| PlaytestStore.Store.ReserveParticipation | src/modules/participations/participations.repository.ts:138-177 | the statements have the effect of the reserve transaction, the rolled-back duplicate included |
| PlaytestStore.Store.StartSession | src/modules/participations/participations.repository.ts:401-451 | the statements have the effect of the start transaction |
| PlaytestStore.Store.Heartbeat | src/modules/participations/sessions.service.ts:117-122 | only an open session of the caller is kept alive, and only a starting one becomes recording |
| PlaytestStore.Store.Finish | src/modules/participations/sessions.service.ts:129-155 | closes an open session once, credits the claimed or the elapsed time, whichever is less, drops its key and ensures its job |
| PlaytestStore.Store.ProcessSessionValidate | src/workers/session.processor.ts:39-111 | an undisturbed delivery applies exactly one verdict, with the XP its check allows, and changes nothing the second time |
| PlaytestStore.Store.CreditSessionXp | src/workers/session.processor.ts:116-149 | inserts XP exactly when no session of this player on this test was rewarded |
| PlaytestStore.Store.RateSession | src/modules/reports/reports.repository.ts:675-738 | upserts the rating and reconsiders the validation, or changes nothing |
| PlaytestStore.Store.ReconcileTimedOutSessions | src/workers/reconcile.processor.ts:134-153 | closes exactly the open sessions without a heartbeat key and ensures their jobs |
| PlaytestStore.Store.ReconcileUnvalidatedSessions | src/workers/reconcile.processor.ts:105-123 | ensures the job of exactly the closed, unvalidated sessions past the grace period |
| PlaytestStore.FindLatestParticipations | src/modules/participations/participations.repository.ts:671-685 | every test with a participation gets its newest one |
| OwnerGuard.LosesLastOwnerExactlyWhen | src/modules/orgs/orgs.repository.ts:325-434 | a step loses an organization's last active owner exactly when it is the write of a transaction that locked no owner and its target is the only one |
| OwnerGuard.OwnerKeptExactlyWhenNeverBlind | src/modules/orgs/orgs.repository.ts:466-483 | over a whole run the organization keeps an owner if and only if no such write happens |
| OwnerGuard.OwnerKeptWhenLocksAreHeld | src/modules/orgs/orgs.repository.ts:466-483 | in particular when every writing transaction holds the lock of some owner |
| OwnerGuard.GuardCanFail | src/modules/orgs/orgs.repository.ts:485-512 | a reachable state and a step that loses the last owner |
| OwnerGuard.ProceedLeavesAnOwner | src/modules/orgs/orgs.repository.ts:341-346 | undisturbed, a change that is let through leaves an active owner |
| OwnerGuard.DecidesExactly | src/modules/orgs/orgs.repository.ts:341-346 | what the guard refuses, and what each change makes of a row |
| OwnerGuard.RowChanges | src/modules/orgs/orgs.repository.ts:325-434 | a membership changes by a write on it and by its user accepting an invite, and by nothing else |
| OwnerGuard.LocksAndReads | src/modules/orgs/orgs.repository.ts:466-512 | a transaction locks exactly the free rows that still are active owners, and writes only after it has visited all of them and the guard let it pass |
| OwnerGuard.Memberships.ChangeMemberRole | src/modules/orgs/orgs.repository.ts:325-363 | refuses to demote the only active owner, otherwise sets the role of that member and nothing else |
| OwnerGuard.Memberships.ChangeMemberStatus | src/modules/orgs/orgs.repository.ts:370-404 | the same for disabling, and refuses pending invites |
| OwnerGuard.Memberships.RemoveMember | src/modules/orgs/orgs.repository.ts:411-434 | the same for removal |
| OwnerGuard.Memberships.FindMembership | src/modules/orgs/orgs.repository.ts:485-512 | finds the member's row that is not deleted, if there is one |
| RefreshTokens.OneLivePerFamily | src/modules/auth/auth.repository.ts:201-213 | at most one token of a family is unrevoked, and a family has one user and one organization |
| RefreshTokens.ChainsEndAtTheLiveToken | src/modules/auth/auth.repository.ts:201-213 | in a live family every chain of successors ends at the live token |
| RefreshTokens.SuccessorsAreUnique | src/modules/auth/auth.repository.ts:201-213 | no two tokens share a successor, and successors come later |
| RefreshTokens.RefusedFamilyStaysDead | src/modules/auth/auth.service.ts:132-184 | after a reuse, a lost race or a logout the family has no live token in any later state |
| RefreshTokens.ReuseIsRefused | src/modules/auth/auth.service.ts:132-138 | presenting a revoked token that verifies leads to that refusal |
| RefreshTokens.RotatesOnce | src/modules/auth/auth.repository.ts:201-213 | over all runs, of the requests that loaded a token at most one rotated it |
| RefreshTokens.LostRaceRevokes | src/modules/auth/auth.service.ts:177-184 | a request whose token was revoked meanwhile rotates nothing and goes on to revoke the family |
| RefreshTokens.ResetKillsFamilies | src/modules/auth/auth.repository.ts:285-319 | after a password reset no family the user had is ever alive again |
| RefreshTokens.EndedExactlyWhen | src/modules/auth/auth.repository.ts:201-230 | over every run a live token is revoked if and only if it was rotated itself, its own family was revoked, or its own user reset the password |
| RefreshTokens.EndsExactly | src/modules/auth/auth.repository.ts:201-230 | the same for one action, which leaves every other token as it was |
| RefreshTokens.RevokesOnlyWhenAsked | src/modules/auth/auth.service.ts:132-214 | a family is set out to be revoked exactly when a token of it was reused, lost its race, or was logged out |
| RefreshTokens.GoodTokensRotate | src/modules/auth/auth.service.ts:139-178 | a refresh goes ahead exactly for a verifying, live token that has not run out, and undisturbed gives a successor of the same owner and family |
| RefreshTokens.IssuedStartsAFamily | src/modules/auth/auth.service.ts:450-480 | a login issues a live token in a family of its own |
| RefreshTokens.AuthTokens.RotateRefreshToken | src/modules/auth/auth.repository.ts:201-213 | rotates exactly when the token is live, and otherwise changes nothing |
| RefreshTokens.AuthTokens.RevokeWholeFamily | src/modules/auth/auth.repository.ts:225-230 | revokes every token of the family and no other |
| RefreshTokens.AuthTokens.ApplyPasswordReset | src/modules/auth/auth.repository.ts:285-319 | consumes a usable reset token once and revokes every token of its user |
| RefreshTokens.AuthTokens.Refresh | src/modules/auth/auth.service.ts:115-204 | which of the answers a refresh gets, and what it does to the tokens |
| RefreshTokens.AuthTokens.Logout | src/modules/auth/auth.service.ts:206-214 | ends the whole family of a known token |
| CsvBytes.BytesReadBack | src/workers/report-render.ts:43-47 | the bytes of the export, decoded as UTF-8 and read after the byte-order mark, are the header and one record a session; only halves of surrogate pairs are replaced |
| CsvBytes.ReadTableIs | src/workers/report-render.ts:33-47 | cell by cell: the header as it is, and the neutralised values |
| CsvBytes.BytesTell | src/workers/report-render.ts:15-47 | the same of the bytes of the export |
| Utf8.EncodedReads | src/workers/report-render.ts:46-46 | decoding the UTF-8 form gives the text back, lone surrogates replaced |
| Utf8.MendedExactly | src/workers/report-render.ts:46-46 | exactly the surrogates that are not half of a pair are replaced |
| CsvReport.ReadsBack | src/workers/report-render.ts:33-47 | the text after its byte-order mark reads as the header and one record a session, cell by cell the neutralised values |
| CsvReport.CellsAreHarmless | src/workers/report-render.ts:28-35 | no cell that is read back starts a formula, and each is its value, at most behind an apostrophe |
| CsvReport.CsvTells | src/workers/report-render.ts:15-44 | the record read back for a session tells its fields: times, the duration as a numeral, `sim` for valid and `nao` for invalid, empty for what is missing |
| CsvReport.FeedLine | src/workers/report-render.ts:38-44 | a printed record is read as one record whatever quotes, commas and line breaks its cells hold |
| Decimal.PaddedReads | src/workers/report-render.ts:212-212 | a padded number reads as itself, and has exactly the width when it fits |
| PdfText.ToWinAnsi | src/workers/report-render.ts:94-104 | the loop encodes each code point, surrogate pairs as one |
| PdfText.CodePointsAre | src/workers/report-render.ts:94-104 | the code points encoded are the text, with no surrogate pair left in two |
| PdfText.DecodesBack | src/workers/report-render.ts:59-104 | a WinAnsi reader decodes every representable character to itself and any other to a question mark |
| PdfText.EscapesOnce | src/workers/report-render.ts:106-112 | the three replacements are one pass that escapes each special byte |
| PdfText.EscapeReadsBack | src/workers/report-render.ts:106-112 | a literal-string reader gets back exactly the WinAnsi bytes, and stops at the closing parenthesis |
| PdfWrap.Wrap | src/workers/report-render.ts:115-128 | the loop ends, yields at least one line, and none longer than 97 characters |
| PdfWrap.WrapKeepsInk | src/workers/report-render.ts:115-128 | wrapping loses, adds and reorders no non-blank character |
| PdfWrap.WrappedIsCut | src/workers/report-render.ts:115-128 | the lines are the text cut in order, with only white space left out at the cuts; a short text is one line as it is |
| PdfWrap.WrappedFit | src/workers/report-render.ts:121-125 | lines are at most 97 characters, continuation lines indented |
| PdfWrap.CutsAfterSeparators | src/workers/report-render.ts:131-134 | a cut is after the last separator in the window, or at the width when there is none |
| PdfWrap.Paginate | src/workers/report-render.ts:149-152 | the loop cuts the lines into pages |
| PdfWrap.PagesAreTheLines | src/workers/report-render.ts:149-153 | pages hold 1 to 54 lines, all but the last are full, and together they are the lines |
| PdfLayout.LayOut | src/workers/report-render.ts:155-193 | the objects are catalog, page tree, font, and a content stream with its page for each page |
| PdfLayout.Write | src/workers/report-render.ts:195-216 | the file is header, objects, cross-reference table and trailer with the recorded offsets |
| PdfLayout.RenderPdf | src/workers/report-render.ts:141-217 | the whole export is the file of its paginated, wrapped lines |
| PdfLayout.SomePage | src/workers/report-render.ts:153-153 | there is always a page, so the fallback is never taken |
| PdfReader.LayoutIsRight | src/workers/report-render.ts:195-213 | each recorded offset is where its object starts, its entry is 20 bytes exactly when the offset is below 10^10, and startxref points at the table |
| PdfRoundTrip.XrefReads | src/workers/report-render.ts:209-213 | the table and trailer read back exactly when every offset fits |
| PdfRoundTrip.ContentReads | src/workers/report-render.ts:168-183 | each /Length is the byte count of its stream, and the stream shows the page's lines |
| PdfRoundTrip.PageReads | src/workers/report-render.ts:184-187 | each page's Parent, Font and Contents references lead to the right objects |
| PdfRoundTrip.TreeReads | src/workers/report-render.ts:190-193 | from the catalog through Kids every page is reached in order |
| PdfRoundTrip.PdfReadsBack | src/workers/report-render.ts:141-217 | reading the file gives the report's lines page by page if and only if the last object starts below byte 10^10 |
| PdfRoundTrip.PdfTells | src/workers/report-render.ts:15-26 | the lines a reader gets are the title, the columns and a row for each session, cut into lines, and each row tells the fields of its session |
| PdfRoundTrip.PdfIsBytes | src/workers/report-render.ts:176-214 | every unit written fits a byte, so the Latin-1 encoding loses nothing |
| JobQueue.CompletedMeansSettled | src/workers/reconcile.processor.ts:42-92 | in every reachable state a completed job's row is settled, and no job has run more than MAX_JOB_RUNS times |
| JobQueue.SettledStays | src/workers/reconcile.processor.ts:58-63 | a settled row never goes back to processing |
| JobQueue.RowChanges | src/workers/reconcile.processor.ts:51-64 | a row is written by its running handler, by a request that could not enqueue, and by a sweep that found its job exhausted, and by nothing else |
| JobQueue.MeasureFalls | src/infra/queue/ensure-enqueued.ts:29-47 | no action raises the measure of a row whose handler does not write, and starting or failing a run or settling the row lowers it |
| JobQueue.ThrowingIsBounded | src/workers/reconcile.processor.ts:42-92 | over every run from any state in which the handler never writes, the number of those steps is at most the measure |
| JobQueue.SomethingIsLeft | src/workers/reconcile.processor.ts:51-64 | a processing row always has such a step, and with no runs left the sweep settles it as failed |
| JobQueue.FailedInTheEnd | src/workers/reconcile.processor.ts:42-92 | from every state the row can be brought to failed without the handler writing |
| JobQueue.FailedAfterExactlyItsRuns | src/infra/queue/ensure-enqueued.ts:29-47 | it is settled as failed only after exactly the runs its job had left have failed |
| JobQueue.ExhaustedForever | src/infra/queue/ensure-enqueued.ts:40-45 | a job that used up its runs never runs again |
| JobQueue.EnsureExactly | src/infra/queue/ensure-enqueued.ts:29-47 | a missing job is added, one that failed fewer than five times retried, any other left alone |
| JobQueue.Backstop.EnsureJobEnqueued | src/infra/queue/ensure-enqueued.ts:29-47 | enqueues, retries, leaves alone or gives up on the one job it names |
| JobQueue.Backstop.ReconcileStuckBuilds | src/workers/reconcile.processor.ts:45-65 | afterwards every old processing build has a live job or is settled, and nothing else changed |
| JobQueue.Backstop.ReconcileStuckRecordings | src/workers/reconcile.processor.ts:67-92 | an exhausted recording is settled and gets no audio job, any other keeps processing with both jobs ensured |
| Worker.WorkBuild | src/workers/handle-job.ts:20-22 | a run of a build job is a run of the queue machine; after a normal return the row is settled, by what the handler ensures |
| Worker.WorkRecording | src/workers/handle-job.ts:14-16 | the same for a transcode job |
| Worker.RunOfJobIs | src/workers/handle-job.ts:10-35 | a run that returns completes its job after its write, one that throws fails it |
| Handlers.BuildHandler.ProcessBuildValidate | src/workers/build.processor.ts:41-124 | the row after a run: digest, status and reason of the first failing check; when it throws; and which steps end ready or failed |
| Handlers.FormatDecides | src/workers/build.processor.ts:16-27 | an intact file named as one of the ten formats is refused as unknown exactly when it does not start with that format's bytes |
| Handlers.OtherFormatsAreRefused | src/workers/build.processor.ts:78-91 | under any other name but `*.constructor` it is always refused |
| Handlers.RefusedInOrder | src/workers/build.processor.ts:45-77 | the refusals before that, in order; the digest is stored exactly when they pass |
| Handlers.ThrowsOnEveryRun | src/workers/build.processor.ts:78-83 | a build whose run throws once throws on every run over the same object |
| Handlers.ConstructorThrows | src/workers/build.processor.ts:78-83 | for instance a readable `game.constructor` without a declared checksum |
| Handlers.BuildHandler.HashObject | src/workers/build.processor.ts:127-146 | all bytes reach the hash, and exactly the first eight are kept however the stream is cut |
| Handlers.FlattenParts | src/workers/build.processor.ts:127-146 | the bytes of a stream are those of its chunks in order |
| Handlers.HeadDecidesPrefix | src/workers/build.processor.ts:80-83 | comparing the kept bytes decides whether the whole object starts with the signature |
| Handlers.ExtensionIsTheSuffix | src/workers/build.processor.ts:148-151 | the extension is the alphanumeric suffix after a dot that ends the trimmed name |
| Handlers.MediaHandler.ProcessMediaTranscode | src/workers/media.processor.ts:47-109 | a run that does not throw settles the recording, as ready exactly when it is playable, whatever becomes of the thumbnail |
| Handlers.PlayableExactly | src/workers/media.processor.ts:78-82 | playable is a video in one of five codecs, in whatever case, of unknown length or at most four hours |
| Idempotency.RunsOnce | src/shared/interceptors/idempotency.interceptor.ts:59-130 | without expiry at most one handler is in flight and at most one ever succeeds |
| Idempotency.AnswersAreTheSuccess | src/shared/interceptors/idempotency.interceptor.ts:81-128 | every answer that is neither 409 nor the handler's own error is that success |
| Idempotency.StoredIsForever | src/shared/interceptors/idempotency.interceptor.ts:82-90 | once stored, the answer stays and the handler never runs again |
| Idempotency.AloneLooksUp | src/shared/interceptors/idempotency.interceptor.ts:81-100 | an undisturbed request gets the stored answer, a conflict while another is processed, or its handler |
| Idempotency.HandlerAnswers | src/shared/interceptors/idempotency.interceptor.ts:108-128 | the handler's success is stored and answered, its failure frees the slot |
| Idempotency.HarmlessExpiry | src/shared/interceptors/idempotency.interceptor.ts:94-117 | if slots expire only while no request owns them, no state has two owners |
| Idempotency.ExpiryHarmsExactlyWhen | src/shared/interceptors/idempotency.interceptor.ts:94-117 | after an expiry two requests can come to own the slot if and only if one owned it |
| Idempotency.ExpiryLetsTwoIn | src/shared/interceptors/idempotency.interceptor.ts:94-106 | an expiry under a running handler has a continuation with two handlers at once |
| Idempotency.LateReleaseFreesTheNewcomersClaim | src/shared/interceptors/idempotency.interceptor.ts:121-124 | the release of an owner whose claim expired deletes the claim of the next one |
| Idempotency.ExpiryBreaksIt | src/shared/interceptors/idempotency.interceptor.ts:94-100 | a run from the start in which an expired claim lets two handlers succeed |
| Idempotency.SharedSlots | src/shared/interceptors/idempotency.interceptor.ts:74-79 | two requests share a slot exactly when caller, method and payload hash agree and so does URL joined to key |
| Idempotency.SlotsTellPayloadsApart | src/shared/interceptors/idempotency.interceptor.ts:44-79 | with an injective digest, a slot is shared exactly by requests of one caller and method whose URL joined to the key agree and whose bodies are equal up to member order |
| Idempotency.SlotsOfPlainKeys | src/shared/interceptors/idempotency.interceptor.ts:74-79 | among keys without a colon a slot belongs to one request shape |
| Idempotency.ColonKeysCollide | src/shared/interceptors/idempotency.interceptor.ts:79-79 | two requests to any one route, with different query strings and keys, and one slot |
| Idempotency.Interceptor.Intercept | src/shared/interceptors/idempotency.interceptor.ts:59-130 | what one request answers, whether it runs the handler, and what it leaves in Redis |
| CanonicalJson.CanonicalIsSame | src/shared/interceptors/idempotency.interceptor.ts:31-42 | same canonical form exactly when equal up to member order at every depth, leaving out `__proto__` members |
| CanonicalJson.HashInputIsSame | src/shared/interceptors/idempotency.interceptor.ts:44-46 | bodies are hashed alike exactly when, absent and null ones counted as `{}`, they are equal up to member order |
| CanonicalJson.CanonicalTwice | src/shared/interceptors/idempotency.interceptor.ts:31-42 | canonicalising again changes nothing |
| CanonicalJson.CanonicalIsTheBody | src/shared/interceptors/idempotency.interceptor.ts:31-42 | the form is the body up to member order, without `__proto__` members |
| CanonicalJson.KeptApartExactlyWhen | src/shared/interceptors/idempotency.interceptor.ts:36-39 | a body shares its form with exactly the equal ones, among all bodies that name no `__proto__`, if and only if it names none itself at any depth |
| CanonicalJson.ProtoIsLost | src/shared/interceptors/idempotency.interceptor.ts:37-37 | `{"__proto__": 1}` is hashed as `{}` |
| CursorWalk.WalkIs | src/shared/pagination/pagination.ts:52-62 | whatever is inserted and deleted between pages, ids come strictly falling and a finished walk has every row that was there throughout |
| CursorWalk.WalkFinishes | src/infra/database/base.repository.ts:50-64 | if what is left to walk is never refilled, the walk finishes within one page more than it had rows |
| CursorWalk.FixedWalk | src/infra/database/base.repository.ts:50-64 | on a fixed table the walk returns every row of the organization once, newest first |
| CursorWalk.PageIs | src/shared/pagination/pagination.ts:56-62 | a page is the greatest ids past the cursor, and its cursor says whether any are left |
| CursorWalk.Repository.ListInOrg | src/infra/database/base.repository.ts:50-64 | the query fetches one row more than the page and builds that page |
| CursorWalk.Repository.SoftDeleteByIdInOrg | src/infra/database/base.repository.ts:97-108 | removes exactly that row from its organization's scope, or finds nothing |
| CursorWalk.Repository.CreateInOrg | src/infra/database/base.repository.ts:66-75 | adds exactly that row to its organization's scope |
| Age.CalendarExact | src/modules/auth/age.ts:6-29 | let in exactly when the text is a calendar date from year 100 on, written with four, two and two digits, whose year plus 18, month and day are at most the clock's date, for every clock |
| Age.IsoReads | src/modules/auth/age.ts:7-12 | exactly the texts written in that form are read, as the date they write |
| Age.ClockIsNow | src/modules/auth/age.ts:24-24 | the clock's date is taken as it is exactly from the year 100 on |
| Age.DaysRise | src/modules/auth/age.ts:14-28 | the day count is strictly monotone in the calendar order |
| Age.ShownBack | src/modules/auth/age.ts:14-22 | a date reads back as written exactly when it is valid and its year has three digits |
| Age.LeapDayRollsOver | src/modules/auth/age.ts:27-27 | 29 February never has an eighteenth anniversary and counts as 1 March |
| FormAnswers.CheckFormAnswers | src/modules/participations/form-answers.ts:27-64 | the two loops compute the scan and the required-question pass |
| FormAnswers.CheckExactly | src/modules/participations/form-answers.ts:27-105 | for every input and question, by the kind of the question: what is accepted of the answers given to it, and which problem is reported exactly when |
| FormAnswers.ForeignExactly | src/modules/participations/form-answers.ts:37-40 | under a name that is no question's, answers are reported and never accepted |
| FormAnswers.PassesExactlyWhen | src/modules/participations/form-answers.ts:27-64 | nothing is reported exactly when every answer is in order and every required question answered; what is accepted is then the answers that are not blank, in order |
| FormAnswers.CheckedTwice | src/modules/participations/form-answers.ts:27-105 | checking the accepted list again changes and reports nothing; its answers fit, are distinct, and cover the required questions |
| FormAnswers.ProtoIsSwallowed | src/modules/participations/form-answers.ts:37-40 | an answer to a question called `__proto__` is neither accepted nor reported |

## Left out

- HTTP, guards, DTO schemas, OpenAPI, cookies, audit and cache invalidation: wiring over libraries.
- `assertAgeEligible` in joining, consents and device checks of starting: parameters or absent.
- RefusedFamilyStaysDead: does not cover a rotation that is between its update and its commit while the family is revoked, because a transaction is one step.
- Issuing password-reset tokens, login, access tokens, password hashing.
- The owner guard's retries after a deadlock or serialization error; locks kept on rows that no longer match are released at once here.
- RunsOnce: does not model Redis errors; expiry is the subject of `HarmlessExpiry` and `ExpiryHarmsExactlyWhen`.
- CompletedMeansSettled: does not model deletion of a build row, nor two callers that ensure one job at the same time.
- BytesReadBack: does not model how dates and averages are printed; they are given as text.
- ListInOrg: does not model the base64url form of cursors and UUID checking; a garbled cursor is an absent one.
- KeptApartExactlyWhen: is about canonical forms; that `JSON.stringify` and SHA-256 tell them apart is the requirement of `SlotsTellPayloadsApart`, and a number stands for what prints the same; names that are array indices are enumerated first, in numeric order, which the model does not show, but members that are added in one order are enumerated in one.
- ProcessBuildValidate: does not model SHA-256 nor the text of a read error; letter case is ASCII, and failing database writes are the queue's `Fail` action.
- Audio extraction, ffmpeg, thumbnails beyond their success or failure.
- SQL aggregates of dashboard, reports and gamification; chat, community, feed, notifications and access groups.
- Deadlines of jobs, a stalled job put back to wait without counting as failed, and clock skew between hosts.
