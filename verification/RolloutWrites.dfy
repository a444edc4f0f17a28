/** Every single write of the engine keeps the invariant and is a legal evolution. */
module RolloutWrites {
  import opened Basics
  import opened Wrappers
  import opened RolloutState
  import opened RolloutCalls
  import opened RolloutInvariants

  lemma CardinalityMonotone<T>(a: set<T>, b: set<T>)
    requires a <= b
    ensures |a| <= |b|
  {
    if a != {} {
      var x :| x in a;
      CardinalityMonotone(a - {x}, b - {x});
    }
  }

  lemma EvolvesRefl(w: World)
    requires w.Linked()
    ensures Evolves(w, w)
  {
  }

  lemma EvolvesTrans(a: World, b: World, c: World)
    requires Evolves(a, b) && Evolves(b, c)
    ensures Evolves(a, c)
  {
    forall j: JobId ensures JobEvolves(a, c, j) {
      assert JobEvolves(a, b, j) && JobEvolves(b, c, j);
    }
    forall id: RolloutId ensures RolloutEvolves(a, c, id) {
      assert RolloutEvolves(a, b, id) && RolloutEvolves(b, c, id);
      CardinalityMonotone(FailedIds(a.jobs, id), FailedIds(b.jobs, id));
    }
  }

  lemma KeptTrans(a: World, b: World, c: World)
    requires Evolves(a, b) && Kept(b, c)
    ensures Kept(a, c)
  {
    EvolvesTrans(a, b, c);
  }

  // ── Job rows ──────────────────────────────────────────────────────────────

  /** The row changes a running job may go through, other than being dispatched. */
  ghost predicate Move(r: Rollout, job: Job, job': Job, now: Time) {
    && job'.(status := job.status, nonce := job.nonce, nextAttemptAt := job.nextAttemptAt,
             installedVersion := job.installedVersion) == job
    && (job'.status.Requested? || job'.nextAttemptAt == job.nextAttemptAt)
    && match job'.status
       case Requested =>
         && job.status.InFlight() && job.attempts < r.maxAttempts && job'.nonce.None?
         && job'.nextAttemptAt == Some(now + RetryDelay(r.backoffMinutes, job.attempts) * MINUTE)
       case Installing =>
         job.status.Dispatched? && job'.nonce == job.nonce && job'.installedVersion == job.installedVersion
       case AwaitingVerification =>
         && (job.status.Dispatched? || job.status.Installing?) && job'.nonce == job.nonce
         && job'.installedVersion.Some? && Approved(r, job'.installedVersion.value)
       case Succeeded =>
         job.status.AwaitingVerification? && job'.nonce.None? && job'.installedVersion == job.installedVersion
       case Failed => job.status.InFlight() && job'.nonce.None?
       case Canceled =>
         job.status.Unfinished() && job'.nonce == job.nonce && job'.installedVersion == job.installedVersion
       case _ => false
  }

  lemma MoveKeepsRow(w: World, id: JobId, job: Job)
    requires w.Linked() && id < |w.jobs| && JobOk(w, id)
    requires Move(w.rollouts[w.jobs[id].rollout], w.jobs[id], job, w.now)
    ensures JobOk(PutJob(w, id, job), id)
    ensures JobEvolves(w, PutJob(w, id, job), id)
  {
    var w' := PutJob(w, id, job);
    assert w'.trace[id].dispatches == w.trace[id].dispatches;
    assert w'.trace[id].nonces == w.trace[id].nonces;
  }

  lemma MoveKeepsFailures(w: World, id: JobId, job: Job, r: RolloutId)
    requires w.Linked() && id < |w.jobs| && JobOk(w, id) && FewFailuresBelow(w, r)
    requires Move(w.rollouts[w.jobs[id].rollout], w.jobs[id], job, w.now)
    ensures FewFailuresBelow(PutJob(w, id, job), r)
    ensures RolloutEvolves(w, PutJob(w, id, job), r)
  {
    var w' := PutJob(w, id, job);
    if r < |w.rollouts| {
      assert FailedBelow(w'.jobs, r, w.rollouts[r].currentBatch) == FailedBelow(w.jobs, r, w.rollouts[r].currentBatch);
      assert FailedIds(w.jobs, r) <= FailedIds(w'.jobs, r);
    }
  }

  lemma RewritesKeepBatches(w: World, w': World)
    requires SameRows(w, w') && w.Linked() && BatchesOk(w)
    requires forall j :: 0 <= j < |w.jobs| ==> w'.jobs[j].batch == w.jobs[j].batch
    requires forall id :: 0 <= id < |w.rollouts| ==> w'.rollouts[id].batchSize == w.rollouts[id].batchSize
    ensures BatchesOk(w')
  {
    forall id: RolloutId, batch: nat ensures SmallBatch(w', id, batch) {
      assert SmallBatch(w, id, batch);
      assert BatchIds(w'.jobs, id, batch) == BatchIds(w.jobs, id, batch);
    }
  }

  lemma JobWriteKept(w: World, id: JobId, job: Job)
    requires Inv(w) && id < |w.jobs|
    requires Move(w.rollouts[w.jobs[id].rollout], w.jobs[id], job, w.now)
    ensures Kept(w, PutJob(w, id, job))
  {
    var w' := PutJob(w, id, job);
    assert JobOk(w, id);
    MoveKeepsRow(w, id, job);
    forall j: JobId ensures JobOk(w', j) && JobEvolves(w, w', j) {
      assert JobOk(w, j);
    }
    forall i: JobId, j: JobId ensures Apart(w', i, j) {
      assert Apart(w, i, j);
    }
    forall j: JobId, k: nat ensures Minted(w', j, k) {
      assert Minted(w, j, k);
    }
    forall n: Nonce ensures Backed(w', n) {
      assert Backed(w, n);
    }
    forall r: RolloutId ensures FewFailuresBelow(w', r) && RolloutEvolves(w, w', r) {
      assert FewFailuresBelow(w, r);
      MoveKeepsFailures(w, id, job, r);
    }
    RewritesKeepBatches(w, w');
  }

  // ── The dispatch ──────────────────────────────────────────────────────────

  ghost predicate MayClaim(w: World, id: JobId, nonce: Nonce)
    requires w.Linked()
  {
    && id < |w.jobs|
    && w.jobs[id].status.Requested?
    && Ready(w.jobs[id], w.rollouts[w.jobs[id].rollout], w.now)
    && !HasInFlight(w.jobs, w.jobs[id].endpoint)
    && nonce !in w.minted
    && IsNonce(nonce)
  }

  lemma ClaimKeepsRow(w: World, id: JobId, nonce: Nonce)
    requires w.Linked() && JobOk(w, id) && MayClaim(w, id, nonce)
    ensures JobOk(Claim(w, id, nonce), id)
    ensures JobEvolves(w, Claim(w, id, nonce), id)
  {
    var w' := Claim(w, id, nonce);
    var r := w.rollouts[w.jobs[id].rollout];
    var d, d' := w.trace[id].dispatches, w'.trace[id].dispatches;
    forall k | 0 <= k < |d'| ensures Gap(d', r.backoffMinutes, k) {
      if k < |d| {
        assert Gap(d, r.backoffMinutes, k);
      }
    }
  }

  lemma ClaimKeepsNonces(w: World, id: JobId, nonce: Nonce, j: JobId, k: nat)
    requires w.Linked() && JobOk(w, id) && MayClaim(w, id, nonce)
    requires Minted(w, j, k)
    ensures Minted(Claim(w, id, nonce), j, k)
  {
  }

  lemma ClaimKeepsBacked(w: World, id: JobId, nonce: Nonce, n: Nonce)
    requires w.Linked() && JobOk(w, id) && MayClaim(w, id, nonce)
    requires Backed(w, n)
    ensures Backed(Claim(w, id, nonce), n)
  {
  }

  lemma ClaimKeepsApart(w: World, id: JobId, nonce: Nonce, i: JobId, j: JobId)
    requires w.Linked() && MayClaim(w, id, nonce)
    requires Apart(w, i, j)
    ensures Apart(Claim(w, id, nonce), i, j)
  {
  }

  lemma ClaimKeepsFailures(w: World, id: JobId, nonce: Nonce, r: RolloutId)
    requires w.Linked() && MayClaim(w, id, nonce) && FewFailuresBelow(w, r)
    ensures FewFailuresBelow(Claim(w, id, nonce), r)
    ensures RolloutEvolves(w, Claim(w, id, nonce), r)
  {
    var w' := Claim(w, id, nonce);
    if r < |w.rollouts| {
      assert FailedBelow(w'.jobs, r, w.rollouts[r].currentBatch) == FailedBelow(w.jobs, r, w.rollouts[r].currentBatch);
      assert FailedIds(w.jobs, r) == FailedIds(w'.jobs, r);
    }
  }

  lemma ClaimKept(w: World, id: JobId, nonce: Nonce)
    requires Inv(w) && MayClaim(w, id, nonce)
    ensures Kept(w, Claim(w, id, nonce))
  {
    var w' := Claim(w, id, nonce);
    assert JobOk(w, id);
    ClaimKeepsRow(w, id, nonce);
    forall j: JobId ensures JobOk(w', j) && JobEvolves(w, w', j) {
      assert JobOk(w, j);
    }
    forall i: JobId, j: JobId ensures Apart(w', i, j) {
      assert Apart(w, i, j);
      ClaimKeepsApart(w, id, nonce, i, j);
    }
    forall j: JobId, k: nat ensures Minted(w', j, k) {
      assert Minted(w, j, k);
      ClaimKeepsNonces(w, id, nonce, j, k);
    }
    forall n: Nonce ensures Backed(w', n) {
      assert Backed(w, n);
      ClaimKeepsBacked(w, id, nonce, n);
    }
    forall r: RolloutId ensures FewFailuresBelow(w', r) && RolloutEvolves(w, w', r) {
      assert FewFailuresBelow(w, r);
      ClaimKeepsFailures(w, id, nonce, r);
    }
    RewritesKeepBatches(w, w');
  }

  // ── Rollout rows ──────────────────────────────────────────────────────────

  /** The row may become `r`: configuration untouched, and its jobs and failures fit the new batch and status. */
  ghost predicate Release(w: World, id: RolloutId, r: Rollout)
    requires w.Linked()
  {
    && id < |w.rollouts|
    && var was := w.rollouts[id];
       && Config(r) == Config(was)
       && !was.status.Over()
       && (r.status.Draft? ==> r == was)
       && was.currentBatch <= r.currentBatch
       && (forall j :: 0 <= j < |w.jobs| && w.jobs[j].rollout == id ==> InOrder(r, w.jobs[j]))
       && (r.failureThreshold > 0 ==> |FailedBelow(w.jobs, id, r.currentBatch)| < r.failureThreshold)
       && (!was.status.Draft? && ReachedThreshold(was, |FailedIds(w.jobs, id)|) ==> r.currentBatch == was.currentBatch)
  }

  lemma RolloutWriteKept(w: World, id: RolloutId, r: Rollout)
    requires Inv(w) && Release(w, id, r)
    ensures Kept(w, PutRollout(w, id, r))
  {
    var w' := PutRollout(w, id, r);
    forall j: JobId ensures JobOk(w', j) && JobEvolves(w, w', j) {
      assert JobOk(w, j);
    }
    forall i: JobId, j: JobId ensures Apart(w', i, j) {
      assert Apart(w, i, j);
    }
    forall j: JobId, k: nat ensures Minted(w', j, k) {
      assert Minted(w, j, k);
    }
    forall n: Nonce ensures Backed(w', n) {
      assert Backed(w, n);
    }
    forall x: RolloutId ensures FewFailuresBelow(w', x) && RolloutEvolves(w, w', x) {
      assert FewFailuresBelow(w, x);
    }
    RewritesKeepBatches(w, w');
  }

  // ── The clock ─────────────────────────────────────────────────────────────

  lemma ClockKept(w: World, later: Time)
    requires Inv(w) && w.now <= later
    ensures Kept(w, w.(now := later))
  {
    var w' := w.(now := later);
    forall j: JobId ensures JobOk(w', j) && JobEvolves(w, w', j) { assert JobOk(w, j); }
    forall i: JobId, j: JobId ensures Apart(w', i, j) { assert Apart(w, i, j); }
    forall j: JobId, k: nat ensures Minted(w', j, k) { assert Minted(w, j, k); }
    forall n: Nonce ensures Backed(w', n) { assert Backed(w, n); }
    forall id: RolloutId ensures FewFailuresBelow(w', id) && RolloutEvolves(w, w', id) {
      assert FewFailuresBelow(w, id);
    }
    forall id: RolloutId, b: nat ensures SmallBatch(w', id, b) { assert SmallBatch(w, id, b); }
  }
}
