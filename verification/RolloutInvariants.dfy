/**
 What holds in every reachable world (`Inv`) and between any world and a later one (`Evolves`), and
 that each kind of single write keeps both.
 */
module RolloutInvariants {
  import opened Basics
  import opened Wrappers
  import opened RolloutState
  import opened RolloutCalls
  import Versions

  // ── One rollout ───────────────────────────────────────────────────────────

  ghost predicate Configured(r: Rollout) {
    && Versions.IsExactTag(r.target)
    && 1 <= r.batchSize <= 500
    && r.failureThreshold <= 1000
    && 1 <= r.maxAttempts <= 10
    && 5 <= r.backoffMinutes <= 1440
    && 15 <= r.verifyTimeoutMinutes <= 1440
    && (r.status.Draft? ==> r.currentBatch == 0)
  }

  // ── One job ───────────────────────────────────────────────────────────────

  /** The wait between dispatch `k` and the next one. */
  ghost predicate Gap(d: seq<Time>, backoffMinutes: nat, k: nat) {
    k + 1 < |d| ==> d[k + 1] - d[k] >= RetryDelay(backoffMinutes, k + 1) * MINUTE
  }

  ghost predicate Spaced(d: seq<Time>, backoffMinutes: nat) {
    forall k :: 0 <= k < |d| ==> Gap(d, backoffMinutes, k)
  }

  /** The dispatch history agrees with the row, and a waiting job waits out its backoff. */
  ghost predicate History(r: Rollout, job: Job, tr: Trace, now: Time) {
    && |tr.dispatches| == |tr.nonces| == job.attempts
    && Spaced(tr.dispatches, r.backoffMinutes)
    && (job.attempts > 0 ==> tr.dispatches[job.attempts - 1] <= now)
    && (job.status.InFlight() ==>
          && job.attempts > 0
          && job.dispatchedAt == Some(tr.dispatches[job.attempts - 1])
          && job.nonce.Some?)
    && (job.nonce.Some? ==> job.attempts > 0 && job.nonce.value == tr.nonces[job.attempts - 1])
    && (job.status.Requested? && job.attempts > 0 ==>
          && job.nextAttemptAt.Some?
          && job.nextAttemptAt.value >=
             tr.dispatches[job.attempts - 1] + RetryDelay(r.backoffMinutes, job.attempts) * MINUTE)
    && (job.nextAttemptAt.Some? && job.nextAttemptAt.value > now ==>
          && 0 < job.attempts < r.maxAttempts
          && job.nextAttemptAt.value <= now + RetryDelay(r.backoffMinutes, job.attempts) * MINUTE)
  }

  /** What is left of a job's life: it falls at every status change. */
  function Measure(r: Rollout, job: Job): int {
    if job.status.Unfinished() then 4 * (r.maxAttempts - job.attempts) + job.status.Rank() else 0
  }

  ghost predicate Bounded(r: Rollout, job: Job, tr: Trace) {
    && job.attempts <= r.maxAttempts
    && (job.status.Requested? ==> job.attempts < r.maxAttempts)
    && (job.status.Failed? || job.status.Succeeded? ==> job.attempts > 0)
    && tr.changes + Measure(r, job) <= 4 * r.maxAttempts
  }

  /** A job is past its batch, waiting for it, or in the batch that is out. */
  ghost predicate InOrder(r: Rollout, job: Job) {
    && (job.batch < r.currentBatch ==> !job.status.Unfinished())
    && (job.batch > r.currentBatch ==> job.attempts == 0)
    && (r.status.Draft? ==> job.attempts == 0)
    && (r.status.Over() ==> !job.status.Unfinished())
  }

  ghost predicate Evidenced(r: Rollout, job: Job) {
    job.status.AwaitingVerification? || job.status.Succeeded? ==>
      && job.attempts > 0
      && job.installedVersion.Some?
      && Approved(r, job.installedVersion.value)
  }

  ghost predicate JobOk(w: World, j: JobId)
    requires w.Linked()
  {
    j < |w.jobs| ==>
      var job := w.jobs[j];
      var r := w.rollouts[job.rollout];
      && History(r, job, w.trace[j], w.now)
      && Bounded(r, job, w.trace[j])
      && InOrder(r, job)
      && Evidenced(r, job)
  }

  // ── Across rows ───────────────────────────────────────────────────────────

  ghost predicate Apart(w: World, i: JobId, j: JobId)
    requires w.Linked()
  {
    i < j < |w.jobs| && w.jobs[i].endpoint == w.jobs[j].endpoint ==>
      && (w.jobs[i].status.Unfinished() && w.jobs[j].status.Unfinished() ==>
            w.rollouts[w.jobs[i].rollout].component != w.rollouts[w.jobs[j].rollout].component)
      && !(w.jobs[i].status.InFlight() && w.jobs[j].status.InFlight())
  }

  ghost predicate Minted(w: World, j: JobId, k: nat)
    requires w.Linked()
  {
    j < |w.jobs| && k < |w.trace[j].nonces| ==>
      w.trace[j].nonces[k] in w.minted && w.minted[w.trace[j].nonces[k]] == Mint(j, k)
  }

  /** A nonce belongs to the dispatch that minted it. */
  ghost predicate Backed(w: World, nonce: Nonce)
    requires w.Linked()
  {
    nonce in w.minted ==>
      var mint := w.minted[nonce];
      && mint.job < |w.jobs| && mint.index < |w.trace[mint.job].nonces|
      && w.trace[mint.job].nonces[mint.index] == nonce
      && IsNonce(nonce)
  }

  /** Jobs below the current batch of a rollout that failed. */
  ghost predicate FewFailuresBelow(w: World, id: RolloutId) {
    id < |w.rollouts| && w.rollouts[id].failureThreshold > 0 ==>
      |FailedBelow(w.jobs, id, w.rollouts[id].currentBatch)| < w.rollouts[id].failureThreshold
  }

  ghost predicate SmallBatch(w: World, id: RolloutId, batch: nat) {
    id < |w.rollouts| && batch > 0 ==> |BatchIds(w.jobs, id, batch)| <= w.rollouts[id].batchSize
  }

  ghost predicate RolloutsOk(w: World) { forall id :: 0 <= id < |w.rollouts| ==> Configured(w.rollouts[id]) }

  ghost predicate JobsOk(w: World) requires w.Linked() { forall j: JobId :: JobOk(w, j) }

  ghost predicate AllApart(w: World) requires w.Linked() { forall i: JobId, j: JobId :: Apart(w, i, j) }

  ghost predicate AllMinted(w: World) requires w.Linked() { forall j: JobId, k: nat :: Minted(w, j, k) }

  ghost predicate AllBacked(w: World) requires w.Linked() { forall nonce: Nonce :: Backed(w, nonce) }

  ghost predicate FailuresOk(w: World) { forall id: RolloutId :: FewFailuresBelow(w, id) }

  ghost predicate BatchesOk(w: World) { forall id: RolloutId, batch: nat :: SmallBatch(w, id, batch) }

  ghost predicate Inv(w: World) {
    && w.Linked()
    && RolloutsOk(w)
    && JobsOk(w)
    && AllApart(w)
    && AllMinted(w)
    && AllBacked(w)
    && FailuresOk(w)
    && BatchesOk(w)
  }

  // ── From one world to a later one ─────────────────────────────────────────

  /**
   A finished job is never written again, attempts and history only grow, every status change costs
   measure, and a rollout gets all its jobs when it is created.
   */
  ghost predicate JobEvolves(w: World, w': World, j: JobId)
    requires w.Linked() && w'.Linked() && |w.jobs| <= |w'.jobs| && |w.rollouts| <= |w'.rollouts|
  {
    && (|w.jobs| <= j < |w'.jobs| ==> w'.jobs[j].rollout >= |w.rollouts|)
    && (j < |w.jobs| ==>
      var job, job' := w.jobs[j], w'.jobs[j];
      && job'.rollout == job.rollout && job'.endpoint == job.endpoint && job'.batch == job.batch
      && job'.fromVersion == job.fromVersion
      && (!job.status.Unfinished() ==> job' == job && w'.trace[j] == w.trace[j])
      && w.trace[j].dispatches <= w'.trace[j].dispatches
      && w.trace[j].nonces <= w'.trace[j].nonces
      && w'.trace[j].changes - w.trace[j].changes <=
         Measure(w.rollouts[job.rollout], job) - Measure(w'.rollouts[job'.rollout], job')
      && w.trace[j].changes <= w'.trace[j].changes
      && (job.status != job'.status ==> w.trace[j].changes < w'.trace[j].changes)
      && job.attempts <= job'.attempts
      && (job.attempts == job'.attempts && job.status.Requested? && job'.status.Unfinished() ==> job' == job))
  }

  function Config(r: Rollout): Rollout { r.(status := Draft, currentBatch := 0) }

  /** The configuration is fixed, batches only go up, and after too many failures they stop. */
  ghost predicate RolloutEvolves(w: World, w': World, id: RolloutId)
    requires |w.rollouts| <= |w'.rollouts|
  {
    id < |w.rollouts| ==>
      var r, r' := w.rollouts[id], w'.rollouts[id];
      && Config(r') == Config(r)
      && (r.status.Over() ==> r' == r)
      && (r'.status.Draft? ==> r.status.Draft?)
      && r.currentBatch <= r'.currentBatch
      && FailedIds(w.jobs, id) <= FailedIds(w'.jobs, id)
      && (!r.status.Draft? && ReachedThreshold(r, |FailedIds(w.jobs, id)|) ==> r'.currentBatch == r.currentBatch)
  }

  /** The tables are append-only and the clock does not run back. */
  ghost predicate Grows(w: World, w': World) {
    && w.Linked() && w'.Linked()
    && |w.jobs| <= |w'.jobs| && |w.rollouts| <= |w'.rollouts|
    && w.now <= w'.now
    && w.minted.Keys <= w'.minted.Keys
  }

  ghost predicate Evolves(w: World, w': World) {
    && Grows(w, w')
    && (forall j: JobId :: JobEvolves(w, w', j))
    && (forall id: RolloutId :: RolloutEvolves(w, w', id))
  }

  ghost predicate Kept(w: World, w': World) { Inv(w') && Evolves(w, w') }
}
