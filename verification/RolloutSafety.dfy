/** What the rollout engine promises, over every run. */
module RolloutSafety {
  import opened Basics
  import opened Wrappers
  import opened RolloutState
  import opened RolloutCalls
  import opened RolloutInvariants
  import opened RolloutWrites
  import opened RolloutRuns
  import Versions

  // ── A failed pilot stops the fleet ────────────────────────────────────────

  lemma DraftNeverFailed(w: World, id: RolloutId)
    requires Inv(w) && id < |w.rollouts|
    ensures w.rollouts[id].status.Draft? ==> FailedIds(w.jobs, id) == {}
  {
    forall j | 0 <= j < |w.jobs| && w.jobs[j].rollout == id && w.rollouts[id].status.Draft?
      ensures !w.jobs[j].status.Failed?
    {
      assert JobOk(w, j);
    }
  }

  /**
   Once a rollout has as many failures as its threshold, its current batch is final: whatever
   operators, endpoints and the timer do, no job of a later batch is ever dispatched.
   */
  lemma FailedPilotStopsTheFleet(past: seq<Action>, future: seq<Action>, id: RolloutId)
    requires Continues(past, future)
    ensures
      var w := Exec(EMPTY, past);
      var w' := Exec(w, future);
      id < |w.rollouts| && ReachedThreshold(w.rollouts[id], |FailedIds(w.jobs, id)|) ==>
        && id < |w'.rollouts|
        && w'.rollouts[id].currentBatch == w.rollouts[id].currentBatch
        && forall j :: 0 <= j < |w'.jobs| && w'.jobs[j].rollout == id ==>
             w'.jobs[j].batch > w.rollouts[id].currentBatch ==>
             w'.jobs[j].attempts == 0 && w'.trace[j].dispatches == [] && !w'.jobs[j].status.InFlight()
  {
    Later(past, future);
    var w := Exec(EMPTY, past);
    var w' := Exec(w, future);
    if id < |w.rollouts| && ReachedThreshold(w.rollouts[id], |FailedIds(w.jobs, id)|) {
      assert RolloutEvolves(w, w', id);
      DraftNeverFailed(w, id);
      forall j | 0 <= j < |w'.jobs| && w'.jobs[j].rollout == id && w'.jobs[j].batch > w.rollouts[id].currentBatch
        ensures w'.jobs[j].attempts == 0 && w'.trace[j].dispatches == [] && !w'.jobs[j].status.InFlight()
      {
        assert JobOk(w', j);
      }
    }
  }

  // ── Blast radius ──────────────────────────────────────────────────────────

  lemma AtMostUnion<T>(a: set<T>, b: set<T>, c: set<T>)
    requires a <= b + c
    ensures |a| <= |b| + |c|
  {
    CardinalityMonotone(a, b + c);
    assert b + c == b + (c - b);
    CardinalityMonotone(c - b, c);
  }

  /**
   With a threshold, released batches leave fewer failures behind than the threshold, and the batch
   that is out can add at most its own size.
   */
  lemma BlastRadius(past: seq<Action>, id: RolloutId)
    requires PossibleRun(EMPTY, past)
    ensures
      var w := Exec(EMPTY, past);
      id < |w.rollouts| && w.rollouts[id].failureThreshold > 0 ==>
        var r := w.rollouts[id];
        var pilots := |BatchIds(w.jobs, id, 0)|;
        && |FailedBelow(w.jobs, id, r.currentBatch)| <= r.failureThreshold - 1
        && |FailedIds(w.jobs, id)| <= r.failureThreshold - 1 + |BatchIds(w.jobs, id, r.currentBatch)|
        && |FailedIds(w.jobs, id)| <= r.failureThreshold - 1 + Max(r.batchSize, pilots)
  {
    Reachable(past);
    var w := Exec(EMPTY, past);
    if id < |w.rollouts| && w.rollouts[id].failureThreshold > 0 {
      var r := w.rollouts[id];
      assert FewFailuresBelow(w, id) && SmallBatch(w, id, r.currentBatch);
      forall j | j in FailedIds(w.jobs, id)
        ensures j in FailedBelow(w.jobs, id, r.currentBatch) + BatchIds(w.jobs, id, r.currentBatch)
      {
        assert JobOk(w, j);
      }
      AtMostUnion(FailedIds(w.jobs, id), FailedBelow(w.jobs, id, r.currentBatch), BatchIds(w.jobs, id, r.currentBatch));
    }
  }

  // ── Batches ───────────────────────────────────────────────────────────────

  /** Earlier batches are finished, later ones untouched, so everything in flight is in the current batch. */
  lemma BatchIsolation(past: seq<Action>, j: JobId)
    requires PossibleRun(EMPTY, past)
    ensures
      var w := Exec(EMPTY, past);
      j < |w.jobs| ==>
        var job := w.jobs[j];
        var r := w.rollouts[job.rollout];
        && (job.batch < r.currentBatch ==> !job.status.Unfinished())
        && (job.batch > r.currentBatch || r.status.Draft? ==> job.attempts == 0 && w.trace[j].dispatches == [])
        && (job.status.InFlight() ==> job.batch == r.currentBatch && !r.status.Draft? && !r.status.Over())
        && (r.status.Over() ==> !job.status.Unfinished())
  {
    Reachable(past);
    assert JobOk(Exec(EMPTY, past), j);
  }

  // ── Bounded lives ─────────────────────────────────────────────────────────

  /**
   A job is dispatched at most `maxAttempts` times and changes status at most four times as often;
   each status change costs measure, and a finished row is never written again.
   */
  lemma BoundedLife(past: seq<Action>, future: seq<Action>, j: JobId)
    requires Continues(past, future)
    ensures
      var w := Exec(EMPTY, past);
      var w' := Exec(w, future);
      j < |w.jobs| ==>
        var r := w.rollouts[w.jobs[j].rollout];
        && j < |w'.jobs|
        && |w'.trace[j].dispatches| == w'.jobs[j].attempts <= r.maxAttempts <= 10
        && w'.trace[j].changes <= 4 * r.maxAttempts
        && (w.jobs[j].status.Requested? ==> w.jobs[j].attempts < r.maxAttempts)
        && 0 <= Measure(r, w'.jobs[j]) <= Measure(r, w.jobs[j])
        && (w.jobs[j].status != w'.jobs[j].status ==> Measure(r, w'.jobs[j]) < Measure(r, w.jobs[j]))
        && (!w.jobs[j].status.Unfinished() ==> w'.jobs[j] == w.jobs[j] && w'.trace[j] == w.trace[j])
  {
    Later(past, future);
    var w := Exec(EMPTY, past);
    var w' := Exec(w, future);
    if j < |w.jobs| {
      assert JobOk(w, j) && JobOk(w', j) && JobEvolves(w, w', j);
      assert RolloutEvolves(w, w', w.jobs[j].rollout);
    }
  }

  // ── Backoff ───────────────────────────────────────────────────────────────

  lemma {:induction false} Pow2Grows(m: nat, n: nat)
    requires m <= n
    ensures 1 <= Pow2(m) <= Pow2(n)
    decreases n
  {
    if m < n {
      Pow2Grows(m, n - 1);
    } else if n > 0 {
      Pow2Grows(n - 1, n - 1);
    }
  }

  lemma {:induction false} SpacingSum(d: seq<Time>, backoffMinutes: nat, n: nat)
    requires Spaced(d, backoffMinutes) && 0 < n <= |d|
    ensures d[n - 1] - d[0] >= backoffMinutes * (Pow2(n - 1) - 1) * MINUTE
  {
    if n > 1 {
      SpacingSum(d, backoffMinutes, n - 1);
      assert Gap(d, backoffMinutes, n - 2);
      var p: int := Pow2(n - 2);
      assert RetryDelay(backoffMinutes, n - 1) == backoffMinutes * p;
      assert Pow2(n - 1) == 2 * p;
      assert backoffMinutes * (2 * p - 1) == backoffMinutes * (p - 1) + backoffMinutes * p;
    }
  }

  /** Two consecutive dispatches of a job are an exponentially growing wait apart, whatever happens in between. */
  lemma ExponentialSpacing(past: seq<Action>, j: JobId, k: nat)
    requires PossibleRun(EMPTY, past)
    ensures
      var w := Exec(EMPTY, past);
      j < |w.jobs| && k < |w.trace[j].dispatches| ==>
        var d := w.trace[j].dispatches;
        var backoff := w.rollouts[w.jobs[j].rollout].backoffMinutes;
        && (k + 1 < |d| ==> d[k + 1] - d[k] >= backoff * Pow2(k) * MINUTE)
        && d[k] - d[0] >= backoff * (Pow2(k) - 1) * MINUTE
  {
    Reachable(past);
    var w := Exec(EMPTY, past);
    if j < |w.jobs| && k < |w.trace[j].dispatches| {
      assert JobOk(w, j);
      var r := w.rollouts[w.jobs[j].rollout];
      assert Gap(w.trace[j].dispatches, r.backoffMinutes, k);
      SpacingSum(w.trace[j].dispatches, r.backoffMinutes, k + 1);
    }
  }

  lemma ProductGrows(a: nat, a': nat, b: nat, b': nat)
    requires a <= a' && b <= b'
    ensures a * b <= a' * b'
  {
    assert a * b <= a' * b <= a' * b';
  }

  /** Under the clamps a backoff is at most 1440 * 2^8 minutes. */
  lemma DelayIsCapped(r: Rollout, attempts: nat)
    requires Configured(r) && attempts < r.maxAttempts
    ensures RetryDelay(r.backoffMinutes, attempts) <= 1440 * 256
  {
    var exponent := if attempts == 0 then 0 else attempts - 1;
    Pow2Grows(exponent, 8);
    assert Pow2(8) == 256 by { assert Pow2(4) == 16; }
    ProductGrows(r.backoffMinutes, 1440, Pow2(exponent), 256);
  }

  /**
   A job that waits for a retry does so until at least its full backoff after the last dispatch, and no
   job is ever scheduled further ahead of the clock than that backoff, which is at most 1440 * 2^8 minutes.
   */
  lemma DelaysAreCapped(past: seq<Action>, j: JobId)
    requires PossibleRun(EMPTY, past)
    ensures
      var w := Exec(EMPTY, past);
      j < |w.jobs| ==>
        var job := w.jobs[j];
        var delay := RetryDelay(w.rollouts[job.rollout].backoffMinutes, job.attempts) * MINUTE;
        && |w.trace[j].dispatches| == job.attempts
        && (job.status.Requested? && job.attempts > 0 ==>
              job.nextAttemptAt.Some? && job.nextAttemptAt.value >= w.trace[j].dispatches[job.attempts - 1] + delay)
        && (job.nextAttemptAt.Some? && job.nextAttemptAt.value > w.now ==>
              job.nextAttemptAt.value <= w.now + delay <= w.now + 1440 * 256 * MINUTE)
  {
    Reachable(past);
    var w := Exec(EMPTY, past);
    if j < |w.jobs| {
      assert JobOk(w, j);
      var r := w.rollouts[w.jobs[j].rollout];
      if w.jobs[j].attempts < r.maxAttempts {
        DelayIsCapped(r, w.jobs[j].attempts);
      }
    }
  }

  // ── Exclusion ─────────────────────────────────────────────────────────────

  /** Over all rollouts: one unfinished job per computer and component, one installer in flight per computer. */
  lemma CrossRolloutExclusion(past: seq<Action>, i: JobId, j: JobId)
    requires PossibleRun(EMPTY, past)
    ensures
      var w := Exec(EMPTY, past);
      i < |w.jobs| && j < |w.jobs| && i != j && w.jobs[i].endpoint == w.jobs[j].endpoint ==>
        && (w.jobs[i].status.Unfinished() && w.jobs[j].status.Unfinished() ==>
              w.rollouts[w.jobs[i].rollout].component != w.rollouts[w.jobs[j].rollout].component)
        && !(w.jobs[i].status.InFlight() && w.jobs[j].status.InFlight())
  {
    Reachable(past);
    var w := Exec(EMPTY, past);
    assert Apart(w, i, j) && Apart(w, j, i);
  }

  // ── Evidence ──────────────────────────────────────────────────────────────

  /** A job counts as verified only with a dispatch and a recorded version that satisfies its rollout. */
  lemma SuccessHasEvidence(past: seq<Action>, j: JobId)
    requires PossibleRun(EMPTY, past)
    ensures
      var w := Exec(EMPTY, past);
      j < |w.jobs| && (w.jobs[j].status.AwaitingVerification? || w.jobs[j].status.Succeeded?) ==>
        var r := w.rollouts[w.jobs[j].rollout];
        && w.trace[j].dispatches != []
        && w.jobs[j].installedVersion.Some?
        && var cmp := Versions.Compare(w.jobs[j].installedVersion.value, r.target);
           cmp >= 0 && (r.component.RustDesk? ==> cmp == 0)
  {
    Reachable(past);
    assert JobOk(Exec(EMPTY, past), j);
  }

  // ── Nonces ────────────────────────────────────────────────────────────────

  /** The dispatch that minted `nonce` is the job's latest and still in flight. */
  ghost predicate NonceLive(w: World, nonce: Nonce) {
    && nonce in w.minted
    && var mint := w.minted[nonce];
       && mint.job < |w.jobs|
       && w.jobs[mint.job].status.InFlight()
       && w.jobs[mint.job].attempts == mint.index + 1
  }

  /** The nonce on a row was minted by that job's latest dispatch. */
  lemma RowNonceIsLatest(w: World, j: JobId)
    requires Inv(w) && j < |w.jobs| && w.jobs[j].nonce.Some?
    ensures w.jobs[j].attempts > 0
    ensures w.jobs[j].nonce.value in w.minted
    ensures w.minted[w.jobs[j].nonce.value] == Mint(j, w.jobs[j].attempts - 1)
  {
    assert JobOk(w, j);
    assert Minted(w, j, w.jobs[j].attempts - 1);
  }

  lemma LiveNonceIsFound(w: World, nonce: Nonce)
    requires Inv(w) && NonceLive(w, nonce)
    ensures LiveJob(w, nonce) == Some(w.minted[nonce].job)
  {
    var j := w.minted[nonce].job;
    assert Backed(w, nonce) && JobOk(w, j);
    var found := FindByNonce(w.jobs, nonce, |w.jobs|);
    assert w.jobs[j].nonce == Some(nonce);
    RowNonceIsLatest(w, found.value);
  }

  /** The installer endpoint answers exactly for live nonces, and with the version and digest that rollout stored. */
  lemma InstallerAnswersLiveNonces(past: seq<Action>, nonce: Nonce)
    requires PossibleRun(EMPTY, past)
    ensures
      var w := Exec(EMPTY, past);
      var answer := Fetch(w, nonce).1;
      && (answer.Some? <==> NonceLive(w, nonce))
      && (answer.Some? ==>
            var r := w.rollouts[w.jobs[w.minted[nonce].job].rollout];
            answer.value == Pinned(r.target, r.sha256, r.component))
  {
    Reachable(past);
    var w := Exec(EMPTY, past);
    if NonceLive(w, nonce) {
      LiveNonceIsFound(w, nonce);
    } else if LiveJob(w, nonce).Some? {
      RowNonceIsLatest(w, LiveJob(w, nonce).value);
    }
  }

  /** A nonce that is superseded, finished or canceled once is dead for good. */
  lemma DeadNoncesStayDead(past: seq<Action>, future: seq<Action>, nonce: Nonce)
    requires Continues(past, future)
    ensures
      var w := Exec(EMPTY, past);
      var w' := Exec(w, future);
      nonce in w.minted && !NonceLive(w, nonce) ==> !NonceLive(w', nonce)
  {
    Later(past, future);
    var w := Exec(EMPTY, past);
    var w' := Exec(w, future);
    if nonce in w.minted {
      var mint := w.minted[nonce];
      assert Backed(w, nonce);
      assert JobOk(w, mint.job) && JobOk(w', mint.job) && JobEvolves(w, w', mint.job);
      assert w'.trace[mint.job].nonces[mint.index] == nonce;
      assert Minted(w', mint.job, mint.index);
    }
  }
}
