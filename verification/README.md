# Verification of the Rem0te update engine and its neighbours

A Dafny model of the parts of Rem0te whose promises no single function establishes: the staged update
rollout engine, and six small protocols it stands beside (login lockout, session revocation, version
order, the hbbs probe's wire code, the browser's base64url adapter, the security page's promise cache).

## What is modelled

**The rollout engine** (`apps/api/src/admin/update-rollout.service.ts`).

- `RolloutState.dfy` holds the rows: rollouts, jobs, the clock, and a history of every dispatch, every
  nonce ever minted and every status change. `RolloutCalls.dfy` and, for `create`, `RolloutCreation.dfy`
  say what each service call does to them, branch by branch. `UpdateRolloutService.dfy` is the service as
  a class that updates its tables row by row, in the source's loops; every method is proved to leave
  exactly the world those functions describe.
- `RolloutInvariants.dfy`, `RolloutWrites.dfy`, `RolloutKeeps.dfy` and `RolloutCreation.dfy` prove that
  every call keeps one invariant and a two-world relation (what may change between any world and a later
  one). `RolloutRuns.dfy` lifts both to every run of calls, in any order, from empty tables.
- `TickOutcome.dfy`, `HeartbeatOutcome.dfy`, `CallOutcome.dfy` and `CreateOutcome.dfy` say what each call does
  to every row, told from the rows themselves and not from the functions above.
- `RolloutSafety.dfy`, `RolloutTick.dfy`, `RolloutAutoPause.dfy` and `RolloutHeartbeats.dfy` state the
  engine's promises about runs: the claims of the doc comment at lines 59-82, and what ticks, failures and
  heartbeats achieve.
- `Interleaving.dfy` drops the assumption that a call is one step: calls read a row and write later, with any
  other calls in between. `DispatchRace.dfy` applies it to one job row, `ComputerRace.dfy` to all jobs of one
  computer, `RolloutRace.dfy` to one rollout row.

Except in those last files a service call is one atomic step. The inputs are arbitrary: the hbbs answer, the
deferral verdict, reported versions, the GitHub digest, the endpoint query. Three things are assumed of
them: the clock does not run back, a random nonce was never minted before and has the shape the download
checks for, and the endpoint query returns each endpoint once. Rows without an `orderBy` come in table order.

**The neighbours.** `LoginLockout.dfy` keeps the failure map as the source does, against a log of the
attempts that reached verification; `LockoutRace.dfy` lets attempts overlap. The policy is constant.
`SessionRevocation.dfy` runs minting and revoking on a monotone clock; a mint reads the revocation point
in force. `Versions.dfy`, `VersionOrder.dfy` and `VersionText.dfy` read version strings as JavaScript does. `HbbsProbe.dfy`,
`HbbsVerdict.dfy` and `HbbsFrames.dfy` are the probe's codec, `Base64Url.dfy` is the browser's.
`PromiseCache.dfy` and `SecurityService.dfy` interleave calls, busts and late rejections.

## What turned out not to hold

Some promises rely on calls not overlapping, because many writes go by id alone. Each holds when every write
finds the row its call read (`SerialRunsAreSafe`, `SerialCallsExclude`, `SerialCallsAreSafe`), and under
overlap exactly as stated here. The comment "a duplicate or concurrent heartbeat cannot dispatch twice" holds
under every interleaving (`RacingHeartbeats`).

- The attempt cap holds exactly as long as no retry (line 366) is written over attempts that are used up
  (`CapHoldsIff`). `OverlapBeatsTheCap` is a run in which one is; it needs a call that stays behind for longer
  than the backoff, which the interleaved model does not time.
- A finished job keeps its status and attempts exactly as long as no call that read it earlier writes another status over it: a
  report, a retry, a success, a failure or a cancellation (lines 317, 334, 356, 366, 377, 558, 573;
  `FinishedHoldsIff`). `OverlapReplacesAVerdict` is a heartbeat that waits on hbbs while an operator cancels,
  `OverlapRevivesACanceledJob` a timeout that does. Only a report or a retry puts a finished job back to work
  (`StaysFinishedIff`).
- One installer in flight per computer holds exactly as long as no claim of a waiting job, and no late report,
  is written while another job is in flight (`ExclusionHoldsIff`). `OverlapSendsTwoInstallers` is two
  heartbeats that each see nothing in flight.
- A canceled or completed rollout stays so exactly as long as no start, batch release or cancellation read
  earlier is written over it (lines 281, 310, 436; `OverHoldsIff`, `OverlapRevivesACanceledRollout`), and
  batches only go up exactly as long as none names an earlier batch (`BatchesGoUpIff`, `OverlapMovesBack`).
- At most `max` failures in a lockout's length becomes at most `max + c - 1` when up to `c` attempts are being
  checked at once (`OverlapAddsOneLess`), and that many do occur (`OverlapBoundIsMet`).

Others fail in any case:

- A second sign-out inside the second of a first one leaves a session alive that was signed in between
  (`SecondSignOutMisses`). `RevocationEnds` gives the exact condition.
- On dotted numerals `isNewer` agrees with a positive `compareVersions` except exactly when the first three
  segments are the same and a later one is newer (`IsNewerAgreesIff`). On other strings the two also read the
  characters differently: a dash starts a segment for `isNewer` only, as in `1.2-5` against `1.2`
  (`DashSegment`), and a leading v is dropped by the compare only (`LeadingVIsUnreadable`).
- A lockout does not clear the count. After `max` failures in a run, the next failure locks the account again
  at once exactly when it comes less than two lockout lengths after the last, or `max` is one
  (`OneMistakeRelocksIff`, with a log in `RelockHappens`).
- White space in a base64url text is skipped by `atob` but counted by `padEnd`, so it decodes only when the
  padding happens to fit (`SpacedTextDecodes` says exactly when).

## Model

| member | source | states |
|---|---|---|
| `RolloutSafety.FailedPilotStopsTheFleet` | apps/api/src/admin/update-rollout.service.ts:385-437 | over every run, once failures reach a positive threshold the current batch is final and no job of a later batch is ever dispatched, whatever operators, timers and endpoints do |
| `RolloutSafety.BlastRadius` | apps/api/src/admin/update-rollout.service.ts:423-437 | in every reachable world, released batches leave at most threshold - 1 failures behind, so all failures are at most that plus the current batch, hence plus the larger of `batchSize` and the pilot |
| `RolloutSafety.BatchIsolation` | apps/api/src/admin/update-rollout.service.ts:423-437 | jobs below the current batch are finished, jobs above it and of drafts were never dispatched, whatever is in flight is in the current batch, and a rollout that is over has nothing unfinished |
| `RolloutSafety.BoundedLife` | apps/api/src/admin/update-rollout.service.ts:78-82 | a job is dispatched at most `maxAttempts` <= 10 times, changes status at most four times as often, each change lowers a measure, and a finished row is never written again |
| `RolloutSafety.ExponentialSpacing` | apps/api/src/admin/update-rollout.service.ts:365-371 | consecutive dispatches k and k+1 are at least `backoffMinutes` * 2^k minutes apart in every run, the k-th and the first at least `backoffMinutes` * (2^k - 1) |
| `RolloutSafety.DelaysAreCapped` | apps/api/src/admin/update-rollout.service.ts:221-224 | in every reachable world a waiting retry's `nextAttemptAt` is at least its full backoff after the last dispatch, and no job's lies further ahead of the clock than that backoff, at most 1440 * 2^8 minutes |
| `RolloutSafety.CrossRolloutExclusion` | apps/api/src/admin/update-rollout.service.ts:183-189 | over all rollouts, one unfinished job per computer and component, and one installer in flight per computer |
| `RolloutSafety.SuccessHasEvidence` | apps/api/src/admin/update-rollout.service.ts:548-576 | a job awaiting verification or succeeded was dispatched and its recorded version equals the RustDesk target, or is at least the agent target |
| `RolloutSafety.InstallerAnswersLiveNonces` | apps/api/src/admin/update-rollout.service.ts:590-599 | the installer download answers exactly while the dispatch that minted the nonce is the latest and in flight, with that rollout's stored version, digest and component |
| `RolloutSafety.DeadNoncesStayDead` | apps/api/src/admin/update-rollout.service.ts:585-593 | a minted nonce whose dispatch is superseded, finished or canceled is never live again |
| `TickOutcome.TickDoesThis` | apps/api/src/admin/update-rollout.service.ts:394-439 | in every reachable world a tick writes exactly the in-flight jobs of running and paused rollouts dispatched longer ago than the timeout, as failed attempts, and each rollout row becomes exactly this: unchanged unless running; paused when a timeout reached the threshold; else unchanged while a batch up to now is open, completed when nothing waits beyond it, paused at the boundary when at the threshold, or on to the least batch in which a job waits |
| `TickOutcome.AttemptRow` | apps/api/src/admin/update-rollout.service.ts:354-374 | a failed attempt sends the job back to REQUESTED, without a nonce, for exactly backoff * 2^(attempts - 1) minutes while attempts are left, and fails it otherwise; only that failure, at the threshold, changes its rollout |
| `RolloutTick.TickSettlesEverything` | apps/api/src/admin/update-rollout.service.ts:393-439 | after a tick nothing in flight is overdue, every running rollout has an unfinished job in exactly its current batch, completed ones have none, and a second tick at the same time changes nothing |
| `RolloutTick.PausedTickReleasesNothing` | apps/api/src/admin/update-rollout.service.ts:395-437 | a rollout pushed over its threshold by this tick's timeouts ends it paused in its batch although the loop judges by rows read before |
| `RolloutAutoPause.ReachingTheThresholdPauses` | apps/api/src/admin/update-rollout.service.ts:354-392 | in every reachable world, whichever call brings a rollout's failures to its threshold returns with it not running, and only an operator's start sets one running |
| `RolloutTick.StartReleasesTheLowestBatch` | apps/api/src/admin/update-rollout.service.ts:274-291 | starting a draft releases the lowest batch with a waiting job and the tick inside `start` leaves it so; a draft with none completes at once |
| `HeartbeatOutcome.HeartbeatDoesThis` | apps/api/src/admin/update-rollout.service.ts:449-507 | in every reachable world a heartbeat is managed exactly when authenticated on a computer with an unfinished job, and otherwise changes nothing; then the job in flight there is judged, and unless deferred or still in flight exactly the first waiting job that may go is sent out, with this row and this reply, and nothing else changes |
| `HeartbeatOutcome.JobInFlightIsJudged` | apps/api/src/admin/update-rollout.service.ts:530-583 | the row of the job in flight after an authenticated heartbeat, for every report: none, newer RustDesk, older with and without its nonce, approved with each hbbs answer |
| `HeartbeatOutcome.OthersAreLeftAlone` | apps/api/src/admin/update-rollout.service.ts:455-464 | jobs of other computers keep row and history, rollouts without a job in flight here keep their row, and an unauthenticated heartbeat changes nothing |
| `HeartbeatOutcome.EvidenceDoes` | apps/api/src/admin/update-rollout.service.ts:455-464 | the evidence loop judges exactly the jobs in flight on this computer, and pauses a running rollout exactly when a failure there is at its threshold |
| `HeartbeatOutcome.EvidenceIsJudged` | apps/api/src/admin/update-rollout.service.ts:530-583 | judging one job writes exactly this row, dispatches nothing, and touches only its rollout's status |
| `RolloutHeartbeats.HeartbeatOffers` | apps/api/src/admin/update-rollout.service.ts:449-507 | a heartbeat hands out an installer exactly when authenticated, not deferred, nothing in flight after its evidence and a released job waits; it is for the oldest such job, in its component's slot, under the fresh nonce, and dispatched now |
| `RolloutHeartbeats.InstallersAreDispatches` | apps/api/src/admin/update-rollout.service.ts:489-504 | over a whole run the installers handed out are one for one the dispatches recorded, with no nonce twice |
| `RolloutHeartbeats.StepHandsOut` | apps/api/src/admin/update-rollout.service.ts:449-507 | one call hands out at most one installer, and mints exactly its nonce |
| `RolloutHeartbeats.OnlyBeatsMint` | apps/api/src/admin/update-rollout.service.ts:490-497 | no other call dispatches |
| `RolloutHeartbeats.SameMintsSameDispatches` | apps/api/src/admin/update-rollout.service.ts:490-497 | attempts and dispatch history move only with a minted nonce |
| `RolloutHeartbeats.NewerBuildFailsForGood` | apps/api/src/admin/update-rollout.service.ts:538-544 | a report of a RustDesk newer than approved fails the job in flight with that version recorded, and nothing later dispatches it again |
| `CreateOutcome.CreateDoesThis` | apps/api/src/admin/update-rollout.service.ts:141-231 | `create` refuses exactly these inputs and then writes nothing; otherwise it appends a draft with each setting as given, at the nearer bound, or 10 / 1 / 3 / 30 / 60, the trimmed target and the digest of a RustDesk rollout, and for each computer a job that is SKIPPED exactly when there is nothing to do on it, in its batch |
| `CreateOutcome.ErrorMeans` | apps/api/src/admin/update-rollout.service.ts:143-196 | which inputs are bad requests and which are not found |
| `CreateOutcome.OneFailureStopsTheDefault` | apps/api/src/admin/update-rollout.service.ts:222 | over every run, a rollout created without a threshold has its batch frozen by its first failed job |
| `RolloutCreation.NewBatchesAreFilled` | apps/api/src/admin/update-rollout.service.ts:198-214 | each batch after the pilot has exactly as many computers as fit: full ones, then the rest, then none |
| `RolloutCreation.NewBatchesKeepOrder` | apps/api/src/admin/update-rollout.service.ts:198-214 | batch 0 is exactly the pilot group's computers, the others are released in query order |
| `RolloutKeeps.CheckThresholdKept` | apps/api/src/admin/update-rollout.service.ts:385-392 | the threshold check keeps the invariant |
| `RolloutKeeps.FailKept` | apps/api/src/admin/update-rollout.service.ts:376-383 | so does a final failure, which leaves the row failed and without a nonce |
| `RolloutKeeps.TimeOutKept` | apps/api/src/admin/update-rollout.service.ts:397-421 | the timeout round keeps the invariant, touches only this rollout, at most pauses it, and leaves nothing of it overdue |
| `RolloutKeeps.TickKept` | apps/api/src/admin/update-rollout.service.ts:394-439 | the whole tick keeps it |
| `RolloutKeeps.StartKept` | apps/api/src/admin/update-rollout.service.ts:274-291 | starting and resuming, with the tick they end in, keep it |
| `RolloutKeeps.PauseKept` | apps/api/src/admin/update-rollout.service.ts:293-304 | pausing keeps it |
| `RolloutKeeps.CancelKept` | apps/api/src/admin/update-rollout.service.ts:306-328 | canceling a rollout with all its unfinished jobs keeps it |
| `CallOutcome.StartDoesThis` | apps/api/src/admin/update-rollout.service.ts:274-291 | a start is refused unless draft or paused; otherwise the rollout runs in its own batch or a draft's least waiting one, and then the tick goes over the whole world |
| `CallOutcome.ResumeRunsOn` | apps/api/src/admin/update-rollout.service.ts:274-291 | a paused rollout with work in its batch and nothing overdue comes back RUNNING in that batch |
| `CallOutcome.PauseDoesThis` | apps/api/src/admin/update-rollout.service.ts:293-304 | pausing changes the status of a running rollout and nothing else |
| `CallOutcome.CancelDoesThis` | apps/api/src/admin/update-rollout.service.ts:306-328 | the error and every row after canceling a rollout |
| `CallOutcome.CancelJobDoesThis` | apps/api/src/admin/update-rollout.service.ts:330-337 | the error and every row after canceling a job |
| `CallOutcome.DownloadDoesThis` | apps/api/src/admin/update-rollout.service.ts:590-599 | an answered download leaves a DISPATCHED job INSTALLING and changes nothing else |
| `RolloutKeeps.CancelStopsEverything` | apps/api/src/admin/update-rollout.service.ts:306-328 | canceling a rollout cancels exactly its unfinished jobs, keeps finished ones as they are and touches no other row |
| `RolloutKeeps.CancelJobKept` | apps/api/src/admin/update-rollout.service.ts:330-337 | canceling one job keeps it |
| `RolloutKeeps.DispatchKept` | apps/api/src/admin/update-rollout.service.ts:466-507 | the dispatch under a fresh nonce keeps it |
| `RolloutKeeps.HeartbeatKept` | apps/api/src/admin/update-rollout.service.ts:449-507 | a whole heartbeat keeps it |
| `RolloutKeeps.FetchKept` | apps/api/src/admin/update-rollout.service.ts:590-599 | an installer download keeps it |
| `RolloutRuns.RunKept` | apps/api/src/admin/update-rollout.service.ts:84-600 | every run from a good world keeps the invariant and evolves every row lawfully |
| `UpdateRolloutServices.UpdateRolloutService.Create` | apps/api/src/admin/update-rollout.service.ts:141-242 | the error, the new row and the new jobs are those of `CreateDoesThis`, invariant kept |
| `UpdateRolloutServices.UpdateRolloutService.BuildJobs` | apps/api/src/admin/update-rollout.service.ts:183-214 | the running index builds exactly the specified job rows |
| `UpdateRolloutServices.UpdateRolloutService.Start` | apps/api/src/admin/update-rollout.service.ts:274-291 | new state and error as specified, invariant kept |
| `UpdateRolloutServices.UpdateRolloutService.Pause` | apps/api/src/admin/update-rollout.service.ts:293-304 | new state as specified, and true exactly when the rollout was running |
| `UpdateRolloutServices.UpdateRolloutService.Cancel` | apps/api/src/admin/update-rollout.service.ts:306-328 | new state and error as specified, invariant kept |
| `UpdateRolloutServices.UpdateRolloutService.CancelJob` | apps/api/src/admin/update-rollout.service.ts:330-337 | new state and error as specified, invariant kept |
| `UpdateRolloutServices.UpdateRolloutService.FindStale` | apps/api/src/admin/update-rollout.service.ts:400-405 | finds exactly the overdue jobs of the rollout, in table order |
| `UpdateRolloutServices.UpdateRolloutService.TimeOut` | apps/api/src/admin/update-rollout.service.ts:397-421 | the loop over rows read before it equals the specified timeouts, whose rows `TickDoesThis` gives |
| `UpdateRolloutServices.UpdateRolloutService.Tick` | apps/api/src/admin/update-rollout.service.ts:394-439 | every row is as `TickDoesThis` says, invariant kept |
| `UpdateRolloutServices.UpdateRolloutService.CollectEvidence` | apps/api/src/admin/update-rollout.service.ts:455-464 | the loop over rows read before it equals the specified evidence, whose rows `EvidenceDoes` gives |
| `UpdateRolloutServices.UpdateRolloutService.ClaimJob` | apps/api/src/admin/update-rollout.service.ts:490-498 | the conditional write dispatches exactly a waiting job, and its count says so |
| `UpdateRolloutServices.UpdateRolloutService.Dispatch` | apps/api/src/admin/update-rollout.service.ts:466-507 | new state and reply as specified |
| `UpdateRolloutServices.UpdateRolloutService.OnHeartbeat` | apps/api/src/admin/update-rollout.service.ts:449-507 | every row and the reply are as `HeartbeatDoesThis` says, invariant kept |
| `UpdateRolloutServices.UpdateRolloutService.InstallerFetched` | apps/api/src/admin/update-rollout.service.ts:590-599 | new state and answer as specified, invariant kept |
| `DispatchRace.RacingHeartbeats` | apps/api/src/admin/update-rollout.service.ts:490-498 | under every interleaving of reads and writes the installers handed out equal the attempts counter, and each stay in REQUESTED gives at most one |
| `DispatchRace.CapHoldsIff` | apps/api/src/admin/update-rollout.service.ts:354-371 | the attempt cap holds throughout a run if and only if no retry is written over attempts that are used up |
| `DispatchRace.FinishedHoldsIff` | apps/api/src/admin/update-rollout.service.ts:330-377 | a finished job keeps its status and attempts if and only if no earlier-read call writes another status over it |
| `DispatchRace.StaysFinishedIff` | apps/api/src/admin/update-rollout.service.ts:354-371 | a finished job is never put back to work if and only if no earlier-read retry or report is written over it |
| `DispatchRace.SerialRunsAreSafe` | apps/api/src/admin/update-rollout.service.ts:354-374 | when every write finds the row its call read, the cap holds throughout and finished jobs stay as they are |
| `DispatchRace.OverlapBeatsTheCap` | apps/api/src/admin/update-rollout.service.ts:364-371 | two overlapping timeouts of one dispatch give a third installer under a cap of two |
| `DispatchRace.OverlapRevivesACanceledJob` | apps/api/src/admin/update-rollout.service.ts:330-334 | a timeout that read the job before it was canceled sends it back to REQUESTED |
| `DispatchRace.OverlapReplacesAVerdict` | apps/api/src/admin/update-rollout.service.ts:566-574 | a heartbeat that waits on hbbs while the job is canceled writes its success over that |
| `ComputerRace.ExclusionHoldsIff` | apps/api/src/admin/update-rollout.service.ts:466-498 | one installer in flight per computer holds throughout if and only if no claim of a waiting job and no late report is written while another job is in flight |
| `ComputerRace.SerialCallsExclude` | apps/api/src/admin/update-rollout.service.ts:466-498 | it holds throughout when every write finds the rows its call read |
| `ComputerRace.OverlapSendsTwoInstallers` | apps/api/src/admin/update-rollout.service.ts:466-498 | two heartbeats that each see nothing in flight bring two jobs of one computer into flight |
| `RolloutRace.OverHoldsIff` | apps/api/src/admin/update-rollout.service.ts:281-310 | a rollout that is over keeps its status and batch if and only if no earlier-read start, release or cancellation changes it |
| `RolloutRace.BatchesGoUpIff` | apps/api/src/admin/update-rollout.service.ts:423-436 | batches only go up if and only if no start or release names one below the current |
| `RolloutRace.SerialCallsAreSafe` | apps/api/src/admin/update-rollout.service.ts:274-310 | both hold when every write finds the row its call read |
| `RolloutRace.OverlapRevivesACanceledRollout` | apps/api/src/admin/update-rollout.service.ts:275-283 | a resume that read PAUSED sets a rollout running that was canceled meanwhile |
| `RolloutRace.OverlapMovesBack` | apps/api/src/admin/update-rollout.service.ts:432-436 | a slow tick moves the current batch back |
| `LoginLockout.AtMostMaxInAWindow` | apps/api/src/auth/auth.service.ts:62-81 | any window of the lockout's length without a success holds at most `max` attempts that reached verification |
| `LoginLockout.BoundIsMet` | apps/api/src/auth/auth.service.ts:68-75 | `max` failures in a row are all admitted, and exactly the `max`-th locks |
| `LoginLockout.CountIsTheRun` | apps/api/src/auth/auth.service.ts:68-75 | the stored count is the length of the longest run of failures the last attempt ends, each within reach of the one before; the entry is absent exactly after a success or before any failure |
| `LoginLockout.OneMistakeRelocksIff` | apps/api/src/auth/auth.service.ts:68-75 | after `max` failures in a run the next one locks at once if and only if it comes less than two lockout lengths after the last, or `max` is one |
| `LoginLockout.RelockHappens` | apps/api/src/auth/auth.service.ts:68-75 | a lawful log in which one failure right after a lockout locks again |
| `LoginLockout.ShortStretch` | apps/api/src/auth/auth.service.ts:62-81 | a stretch of failures shorter than the lockout has at most `max` of them |
| `LoginLockout.AuthService.LockedFor` | apps/api/src/auth/auth.service.ts:61-66 | positive exactly while locked, and then the remaining time rounded up to seconds |
| `LoginLockout.AuthService.RecordLoginFailure` | apps/api/src/auth/auth.service.ts:68-81 | at any moment, locked or not, logs one failure and leaves a map that agrees with the log; lawful if the account was not locked |
| `LoginLockout.AuthService.ClearLoginFailures` | apps/api/src/auth/auth.service.ts:83-85 | at any moment, locked or not, logs one success and leaves a map that agrees with the log; lawful if the account was not locked |
| `LoginLockout.AuthService.Login` | apps/api/src/auth/auth.service.ts:100-153 | which of refused, locked out, failed and accepted, exactly when, and what is counted |
| `LoginLockout.AuthService.VerifyStepUp` | apps/api/src/auth/auth.service.ts:449-472 | the same for step-up, which shares the count |
| `LoginLockout.AuthService.LockoutHolds` | apps/api/src/auth/auth.service.ts:43-85 | the window bound for the service in any state, over sign-in and step-up together |
| `LockoutRace.OverlapAddsOneLess` | apps/api/src/auth/auth.service.ts:131-151 | however up to c attempts overlap between the lock check and the record, any window of the lockout's length without a success holds at most `max` + c - 1 recorded failures |
| `LockoutRace.OverlapBoundIsMet` | apps/api/src/auth/auth.service.ts:131-151 | for every c there are overlapping attempts that reach that bound |
| `SessionRevocation.JustMintedIsAccepted` | apps/api/src/auth/session-revocation.ts:20-24 | in every run a token is accepted the moment it is minted |
| `SessionRevocation.RefusedStaysRefused` | apps/api/src/auth/session-revocation.ts:12-18 | once refused, a token stays refused |
| `SessionRevocation.RevocationEnds` | apps/api/src/auth/session-revocation.ts:12-24 | exactly which tokens a revocation ends |
| `SessionRevocation.LaterRevocationEndsAll` | apps/api/src/auth/session-revocation.ts:1-18 | a revocation later than the previous revocation point ends every token minted strictly before it, for good |
| `SessionRevocation.SecondSignOutMisses` | apps/api/src/auth/auth.service.ts:474-476 | the run in which a second sign-out within the second leaves a session alive |
| `VersionText.TagsCompareAsNumbers` | apps/api/src/common/agent-contract.ts:37-45 | tags of numbers written in decimal have those segments and compare as the numbers do, one after the other |
| `VersionText.DecimalOfShow` | apps/api/src/common/agent-contract.ts:38-39 | a segment written in decimal is read as its number |
| `VersionText.JunkIsZero` | apps/api/src/common/agent-contract.ts:32-39 | a segment that does not start with a number counts as zero |
| `VersionText.ExactTagMeans` | apps/api/src/admin/update-rollout.service.ts:17 | the tag pattern is exactly three numerals with dots between them |
| `VersionText.TrimMeans` | apps/api/src/admin/update-rollout.service.ts:143 | trimming leaves what stands between the white space at the ends |
| `VersionOrder.CompareVersions` | apps/api/src/common/agent-contract.ts:37-45 | the loop computes the specified compare |
| `VersionOrder.CompareMeans` | apps/api/src/common/agent-contract.ts:37-45 | zero, negative and positive mean same, older and newer by the first differing segment, missing ones read as zero |
| `VersionOrder.CompareIsTotalPreorder` | apps/api/src/common/agent-contract.ts:32-45 | on all strings: reflexive, sign-antisymmetric, transitive across lengths, and equal versions compare alike |
| `VersionOrder.CompareIsLexicographic` | apps/api/src/common/agent-contract.ts:37-45 | lexicographic order after padding to any common length |
| `VersionOrder.ContractIsUpwardClosed` | apps/api/src/common/agent-contract.ts:47-61 | an agent at least as new as one that meets the contract meets it |
| `VersionOrder.CheckNewer` | apps/api/src/admin/update.service.ts:473-486 | the loop computes the specified `isNewer` |
| `VersionOrder.IsNewerAgrees` | apps/api/src/admin/update.service.ts:473-486 | on one to three numerals `isNewer` holds exactly when the compare is positive |
| `VersionOrder.IsNewerAgreesIff` | apps/api/src/admin/update.service.ts:473-486 | on dotted numerals of any length `isNewer` agrees with a positive compare except exactly when the first three segments are the same and a later one is newer |
| `VersionOrder.DashSegment` | apps/api/src/admin/update.service.ts:474-478 | a positive numeral after a dash makes a version of at most two segments newer for `isNewer` and the same for the compare |
| `VersionOrder.LeadingVIsUnreadable` | apps/api/src/admin/update.service.ts:474-481 | with a leading v `isNewer` never holds either way, while the compare drops it |
| `VersionOrder.ExactTagIsPlain` | apps/api/src/admin/update-rollout.service.ts:17 | rollout targets are such versions |
| `VersionOrder.FourthSegmentIsIgnored` | apps/api/src/admin/update.service.ts:474-478 | a fourth segment never makes a version newer for `isNewer` |
| `VersionOrder.FourthSegmentCounts` | apps/api/src/common/agent-contract.ts:40-43 | it does for the compare, exactly when it is positive |
| `HbbsProbe.WriteVarint` | deploy/scripts/hbbs-probe.py:32-39 | the loop writes the specified varint |
| `HbbsProbe.ScanVarint` | deploy/scripts/hbbs-probe.py:50-58 | the loop with its shift reads the specified number, or runs off the end when that is specified |
| `HbbsProbe.VarintMeans` | deploy/scripts/hbbs-probe.py:32-39 | a varint carries its number seven bits a byte, least significant first, the high bit on all but the last, with no byte to spare |
| `HbbsProbe.VarintRoundTrip` | deploy/scripts/hbbs-probe.py:32-58 | reading undoes writing for every number and any bytes after it (Protocol Buffers Encoding, "Base 128 Varints") |
| `HbbsProbe.VarintIsPrefixFree` | deploy/scripts/hbbs-probe.py:32-58 | no varint is a proper prefix of another |
| `HbbsProbe.ListFields` | deploy/scripts/hbbs-probe.py:61-78 | the loop yields the specified fields and ends as specified |
| `HbbsProbe.FieldsRoundTrip` | deploy/scripts/hbbs-probe.py:42-78 | any list of fields of the four wire types is read back, followed by what the rest of the message holds (Protocol Buffers Encoding, "Message Structure") |
| `HbbsProbe.MessageRoundTrip` | deploy/scripts/hbbs-probe.py:42-78 | any list of fields is exactly what its encoding reads as, without an exception |
| `HbbsProbe.BytesFieldEncodes` | deploy/scripts/hbbs-probe.py:42-43 | the probe's writer produces such an encoding |
| `HbbsVerdict.RequestReadsBack` | deploy/scripts/hbbs-probe.py:81-90 | the request is one message in field 8 holding exactly its five fields |
| `HbbsVerdict.Judge` | deploy/scripts/hbbs-probe.py:93-109 | the loop gives the specified verdict, deciding before later bytes are read |
| `HbbsVerdict.JudgeInner` | deploy/scripts/hbbs-probe.py:99-108 | the last address and failure code of a punch-hole response decide it |
| `HbbsVerdict.VerdictIgnoresPrefix` | deploy/scripts/hbbs-probe.py:93-109 | any fields other than 9, 11 and 19 in front make no difference, whatever follows |
| `HbbsVerdict.ResponseMeans` | deploy/scripts/hbbs-probe.py:29 | the failure codes 0, 2, 3 and 4 and their names, any other code, and an address before all of them |
| `HbbsVerdict.NumberDecides` | deploy/scripts/hbbs-probe.py:94-98 | field 19 is online by relay and field 9 by punch, whatever it holds and whatever follows |
| `HbbsVerdict.NothingDecides` | deploy/scripts/hbbs-probe.py:109 | a message without a deciding field is unrecognised, shown by its first 16 bytes |
| `HbbsVerdict.LastValueMeans` | deploy/scripts/hbbs-probe.py:100-105 | of repeated fields the last one counts |
| `HbbsVerdict.ResponseDecides` | deploy/scripts/hbbs-probe.py:99-108 | a punch-hole response after any such prefix is judged by its own last address and code |
| `HbbsFrames.FrameRoundTrip` | deploy/scripts/hbbs-probe.py:113-131 | exactly the payloads under 2^30 bytes can be framed, and stripping gives each one back |
| `HbbsFrames.FrameHeader` | deploy/scripts/hbbs-probe.py:113-120 | the header announces the length modulo 2^22, so it is exact exactly below 2^22 |
| `Base64Url.EncodeBuffer` | apps/web/lib/webauthn.ts:14-20 | the loop over the bytes gives the specified text |
| `Base64Url.DecodeText` | apps/web/lib/webauthn.ts:7-13 | fills a new buffer with the specified bytes, or fails exactly when `atob` does |
| `Base64Url.RoundTrip` | apps/web/lib/webauthn.ts:7-20 | decoding undoes encoding for every byte sequence (section 4 of RFC 4648) |
| `Base64Url.EncodedAlphabet` | apps/web/lib/webauthn.ts:14-20 | only the alphabet of section 5 of RFC 4648, no padding, and the least length |
| `Base64Url.PaddingIsRestored` | apps/web/lib/webauthn.ts:8-20 | the text's length alone lets decoding rebuild exactly what `btoa` produced |
| `Base64Url.EncodingIsInjective` | apps/web/lib/webauthn.ts:14-20 | no two byte sequences share a text |
| `Base64Url.TextRoundTrip` | apps/web/lib/webauthn.ts:7-20 | a text in the alphabet decodes exactly unless one character is left over, and encodes back to itself exactly when its leftover bits are zero |
| `Base64Url.SpacedTextDecodes` | apps/web/lib/webauthn.ts:7-13 | a text with white space in it decodes exactly when the padding for its full length fits what is left of it, and then as that |
| `Base64Url.GroupsKeepTheNumber` | apps/web/lib/webauthn.ts:19 | three bytes and their four groups are the same 24-bit number |
| `Base64Url.LettersFollowTheTable` | apps/web/lib/webauthn.ts:19 | the letters are those of Table 1 of RFC 4648 |
| `Base64Url.TestVectors` | apps/web/lib/webauthn.ts:14-20 | vectors of section 10 of RFC 4648 |
| `Base64Url.BytesOfSextets` | apps/web/lib/webauthn.ts:19 | regrouping eights into sixes and back loses nothing |
| `Base64Url.SextetsOfBytes` | apps/web/lib/webauthn.ts:9 | regrouping sixes into eights and back is exact if and only if the leftover bits are zero |
| `PromiseCache.EntryIsTheNewest` | apps/api/src/admin/security.service.ts:15-28 | in every history a key has an entry exactly when its newest computation has been neither busted nor rejected, and it is that one; older rejections never evict |
| `PromiseCache.CloseStartsAreSeparated` | apps/api/src/admin/security.service.ts:17-26 | two consecutive starts closer than the time to live have a bust or the first one's own rejection between them |
| `PromiseCache.ServedIsTheNewest` | apps/api/src/admin/security.service.ts:18-19 | a caller served gets the newest computation, still young, not busted and not known to have failed |
| `PromiseCache.StartsAreSpaced` | apps/api/src/admin/security.service.ts:17-26 | without busts and rejections the n-th start after one comes at least n times to live later |
| `SecurityServices.SecurityService.CachedAsync` | apps/api/src/admin/security.service.ts:17-26 | entries, running computations, clock and history on a hit and on a miss; a new promise exactly on a miss |
| `SecurityServices.SecurityService.BustCache` | apps/api/src/admin/security.service.ts:28 | removes exactly that key |
| `SecurityServices.SecurityService.Reject` | apps/api/src/admin/security.service.ts:20-23 | the late handler removes exactly the entry that holds its own promise |

## Left out

- The text of reasons, events and audit rows (`failureReason`, `deferReason`, `pausedReason`, `credentialSync`, `UpdateJobEvent`), names, and timestamps nothing reads back: they decide nothing.
- Pilot-group editing, `list`, `detail`, `history`: plain database reads and writes.
- `deferReason` (maintenance window, reported and recorded sessions) and the hbbs presence query: arbitrary inputs; whether the maintenance window parses is an input of `create`.
- The database itself: a failed write, transactions, unique-key violations, rows deleted by other services, an order other than table order where the source asks for none.
- Concurrent `create` calls: the exclusion of two rollouts for one computer is proved for atomic calls only, since the busy check and the insert are separate statements.
- The waiting times between dispatches, and the failure threshold, under overlapping calls: the interleaved models have no clock and each looks at one row or one computer.
- FinishedHoldsIff: the interleaved job row is its status and attempts; a late `installedVersion` or reason written over a finished row is not part of it.
- OverlapBeatsTheCap: shows the failing run for a cap of two only; the exact condition for any cap is `CapHoldsIff`.
- A lockout policy changed while failures are stored, the MFA and passkey steps, audit rows, and password and code checking (a yes or no from outside).
- Minting with a revocation point that was replaced between the read and the mint; JWT signing and the strategy that calls `isRevoked`.
- `applyUpdate`, and the filter of `requestRustdeskUpdate` around `compareVersions`: one comparison each on top of what is proved.
- JavaScript numbers beyond 2^53 in version segments, and segments so long that they read as infinity.
- The probe's sockets, TLS and WebSocket transport, its 8192-byte read, and the wording of its messages.
- `toB64u` of a missing buffer, and everything in `webauthn.ts` past the adapter.
- Computations of the promise cache that ask the cache for their own key before they first wait; none of the source's do. A clock that runs back.
- The Prisma schema is read only for defaults: attempts start at 0 and a nonce is unique.
