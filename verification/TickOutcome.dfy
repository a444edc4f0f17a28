/** What one tick does to every row, told from the rows themselves. */
module TickOutcome {
  import opened Wrappers
  import opened RolloutState
  import opened RolloutCalls
  import opened RolloutInvariants
  import opened RolloutWrites
  import opened RolloutKeeps
  import opened RolloutRuns
  import opened RolloutTick

  /** In flight, and not yet finished. */
  const ACTIVE: set<JobStatus> := {Dispatched, Installing, AwaitingVerification}

  const NOT_DONE: set<JobStatus> := {Requested, Dispatched, Installing, AwaitingVerification}

  lemma StatusSets(s: JobStatus)
    ensures s in ACTIVE <==> s.InFlight()
    ensures s in NOT_DONE <==> s.Unfinished()
  {
  }

  /**
   The row after a failed attempt: while attempts are left, back to waiting for exactly the backoff, which
   doubles with every attempt; otherwise failed.
   */
  predicate AttemptFailed(r: Rollout, job: Job, job': Job, now: int)
    requires job.attempts > 0
  {
    if job.attempts < r.maxAttempts
    then job' == job.(status := Requested, nonce := None,
                      nextAttemptAt := Some(now + r.backoffMinutes * Pow2(job.attempts - 1) * 60_000))
    else job' == job.(status := Failed, nonce := None)
  }

  function Failures(w: World, id: RolloutId): set<JobId> {
    set j | 0 <= j < |w.jobs| && w.jobs[j].rollout == id && w.jobs[j].status == Failed
  }

  /** Dispatched longer ago than the rollout allows for verification, and the rollout not over. */
  predicate Overdue(w: World, j: JobId)
    requires j < |w.jobs| && w.jobs[j].rollout < |w.rollouts|
  {
    var job := w.jobs[j];
    var r := w.rollouts[job.rollout];
    && job.status in ACTIVE
    && (r.status == Running || r.status == Paused)
    && job.dispatchedAt.Some? && job.dispatchedAt.value < w.now - r.verifyTimeoutMinutes * 60_000
  }

  /** A tick writes exactly the overdue jobs: their attempt has failed. */
  ghost predicate JobTicked(w: World, w': World, j: JobId)
    requires w.Linked() && w'.Linked() && j < |w.jobs| == |w'.jobs|
  {
    if Overdue(w, j)
    then w.jobs[j].attempts > 0 && AttemptFailed(w.rollouts[w.jobs[j].rollout], w.jobs[j], w'.jobs[j], w.now)
    else w'.jobs[j] == w.jobs[j] && w'.trace[j] == w.trace[j]
  }

  predicate Waits(w: World, id: RolloutId, above: nat, j: JobId)
    requires j < |w.jobs|
  {
    w.jobs[j].rollout == id && w.jobs[j].batch > above && w.jobs[j].status == Requested
  }

  predicate OpenUpTo(w: World, id: RolloutId, batch: nat) {
    exists j :: 0 <= j < |w.jobs| && w.jobs[j].rollout == id && w.jobs[j].batch <= batch && w.jobs[j].status in NOT_DONE
  }

  /**
   What a tick makes of a rollout, judged by the jobs as its timeouts leave them: only running rollouts
   change. One that a timeout brings to its threshold is paused. Otherwise it stays while its batches up
   to now are open, completes when nothing waits beyond them, is paused at the boundary when at its
   threshold, and else goes on to the least batch in which a job waits.
   */
  ghost predicate RowTicked(w: World, w': World, id: RolloutId)
    requires id < |w.rollouts| == |w'.rollouts|
  {
    var r, r' := w.rollouts[id], w'.rollouts[id];
    var at := r.currentBatch;
    var reached := 0 < r.failureThreshold <= |Failures(w', id)|;
    if r.status != Running then r' == r
    else if Failures(w', id) != Failures(w, id) && reached then r' == r.(status := Paused)
    else if OpenUpTo(w', id, at) then r' == r
    else if forall j :: 0 <= j < |w'.jobs| ==> !Waits(w', id, at, j) then r' == r.(status := Completed)
    else if reached then r' == r.(status := Paused)
    else
      && r' == r.(currentBatch := r'.currentBatch)
      && (exists j :: 0 <= j < |w'.jobs| && Waits(w', id, at, j) && w'.jobs[j].batch == r'.currentBatch)
      && (forall j :: 0 <= j < |w'.jobs| && Waits(w', id, at, j) ==> r'.currentBatch <= w'.jobs[j].batch)
  }

  ghost predicate Ticked(w: World, w': World) {
    && w.Linked() && w'.Linked()
    && |w'.jobs| == |w.jobs| && |w'.rollouts| == |w.rollouts|
    && w'.minted == w.minted && w'.now == w.now
    && (forall j :: 0 <= j < |w.jobs| ==> JobTicked(w, w', j))
    && (forall id :: 0 <= id < |w.rollouts| ==> RowTicked(w, w', id))
  }

  // ── The timeouts of one rollout ───────────────────────────────────────────

  lemma AttemptRow(w: World, j: JobId, limits: Rollout)
    requires Inv(w) && j < |w.jobs| && w.jobs[j].status.InFlight()
    requires Config(limits) == Config(w.rollouts[w.jobs[j].rollout])
    ensures w.jobs[j].attempts > 0
    ensures
      var w' := FailAttempt(w, j, w.jobs[j].attempts, limits);
      var id := w.jobs[j].rollout;
      && AttemptFailed(w.rollouts[id], w.jobs[j], w'.jobs[j], w.now)
      && (w'.rollouts[id] != w.rollouts[id] ==>
            w'.jobs[j].status.Failed? && ReachedThreshold(w.rollouts[id], |FailedIds(w'.jobs, id)|))
  {
    assert JobOk(w, j);
  }

  lemma {:induction false} FailAllRows(w: World, id: RolloutId, read: seq<Job>, ids: seq<JobId>, limits: Rollout)
    requires Inv(w) && AsRead(w, id, read, ids, limits)
    ensures
      var w' := FailAll(w, read, ids, limits);
      forall k :: 0 <= k < |ids| ==>
        w.jobs[ids[k]].attempts > 0 && AttemptFailed(w.rollouts[id], w.jobs[ids[k]], w'.jobs[ids[k]], w.now)
    decreases |ids|
  {
    if ids != [] {
      PutSame(w, ids[0]);
      FailAttemptKept(w, ids[0], w.jobs[ids[0]], limits);
      AttemptRow(w, ids[0], limits);
      hide FailAttempt, AttemptFailed;
      var next := FailAttempt(w, ids[0], read[ids[0]].attempts, limits);
      FailAllRows(next, id, read, ids[1..], limits);
      FailAllKept(next, id, read, ids[1..], limits);
      var w' := FailAll(next, read, ids[1..], limits);
      assert w' == FailAll(w, read, ids, limits);
      forall k | 0 <= k < |ids|
        ensures w.jobs[ids[k]].attempts > 0 && AttemptFailed(w.rollouts[id], w.jobs[ids[k]], w'.jobs[ids[k]], w.now)
      {
        if k == 0 {
          assert ids[0] !in ids[1..];
        } else {
          assert ids[1..][k - 1] == ids[k];
          SameConfig(w.rollouts[id], next.rollouts[id], next.jobs[ids[k]], w'.jobs[ids[k]], w.now);
        }
      }
    }
  }

  lemma SameConfig(r: Rollout, s: Rollout, job: Job, job': Job, now: int)
    requires Config(r) == Config(s) && job.attempts > 0
    ensures AttemptFailed(r, job, job', now) <==> AttemptFailed(s, job, job', now)
  {
    assert Config(r).maxAttempts == r.maxAttempts && Config(s).backoffMinutes == s.backoffMinutes;
  }

  /** The timeouts pause a rollout only by failing a job when that reaches the threshold. */
  lemma {:induction false} FailAllPausesOnly(w: World, id: RolloutId, read: seq<Job>, ids: seq<JobId>, limits: Rollout)
    requires Inv(w) && AsRead(w, id, read, ids, limits)
    ensures
      var w' := FailAll(w, read, ids, limits);
      w'.rollouts[id] != w.rollouts[id] ==>
        FailedIds(w'.jobs, id) != FailedIds(w.jobs, id) && ReachedThreshold(w.rollouts[id], |FailedIds(w'.jobs, id)|)
    decreases |ids|
  {
    if ids != [] {
      PutSame(w, ids[0]);
      FailAttemptKept(w, ids[0], w.jobs[ids[0]], limits);
      AttemptRow(w, ids[0], limits);
      hide FailAttempt, AttemptFailed;
      var next := FailAttempt(w, ids[0], read[ids[0]].attempts, limits);
      FailAllKept(next, id, read, ids[1..], limits);
      FailAllPausesOnly(next, id, read, ids[1..], limits);
      var w' := FailAll(next, read, ids[1..], limits);
      assert RolloutEvolves(w, next, id) && RolloutEvolves(next, w', id);
      CardinalityMonotone(FailedIds(next.jobs, id), FailedIds(w'.jobs, id));
      if next.rollouts[id] != w.rollouts[id] {
        assert ids[0] in FailedIds(next.jobs, id) && ids[0] !in FailedIds(w.jobs, id);
      }
    }
  }

  // ── One round of the loop ─────────────────────────────────────────────────

  lemma FailuresAre(w: World, id: RolloutId)
    ensures Failures(w, id) == FailedIds(w.jobs, id)
  {
  }

  lemma TimeOutJobs(w: World, id: RolloutId, j: JobId)
    requires Inv(w) && id < |w.rollouts| && (w.rollouts[id].status.Running? || w.rollouts[id].status.Paused?)
    requires j < |w.jobs| && w.jobs[j].rollout == id
    ensures JobTicked(w, TimeOut(w, id, w.rollouts[id]), j)
  {
    hide FailAll, AttemptFailed;
    var r := w.rollouts[id];
    var ids := StaleIds(w, id, r.verifyTimeoutMinutes, |w.jobs|);
    StatusSets(w.jobs[j].status);
    FailAllKept(w, id, w.jobs, ids, r);
    FailAllRows(w, id, w.jobs, ids, r);
    assert Overdue(w, j) <==> IsStale(w, id, r.verifyTimeoutMinutes, j);
    if j in ids {
      var k :| 0 <= k < |ids| && ids[k] == j;
    }
  }

  lemma OpenIs(w: World, id: RolloutId, batch: nat)
    ensures OpenUpTo(w, id, batch) <==> BatchOpen(w.jobs, id, batch)
  {
    forall s: JobStatus ensures s in NOT_DONE <==> s.Unfinished() {
      StatusSets(s);
    }
  }

  lemma WaitingIs(w: World, id: RolloutId, above: nat)
    ensures forall j :: 0 <= j < |w.jobs| ==> (Waits(w, id, above, j) <==> WaitsAbove(w.jobs, id, above, j))
  {
  }

  /** `timed` is the world after the timeouts, with the row as it was or paused by them. */
  lemma AdvanceRow(w: World, timed: World, id: RolloutId)
    requires w.Linked() && timed.Linked() && id < |w.rollouts| == |timed.rollouts| && w.rollouts[id].status.Running?
    requires
      timed.rollouts[id] ==
        if FailedIds(timed.jobs, id) != FailedIds(w.jobs, id)
           && ReachedThreshold(w.rollouts[id], |FailedIds(timed.jobs, id)|)
        then w.rollouts[id].(status := Paused) else w.rollouts[id]
    ensures RowTicked(w, Advance(timed, id, w.rollouts[id]), id)
  {
    hide FailedIds, BatchOpen, Failures, OpenUpTo, LowestRequested;
    var w' := Advance(timed, id, w.rollouts[id]);
    assert w'.jobs == timed.jobs;
    FailuresAre(w', id);
    FailuresAre(w, id);
    OpenIs(w', id, w.rollouts[id].currentBatch);
    WaitingIs(w', id, w.rollouts[id].currentBatch);
  }

  lemma RoundRow(w: World, id: RolloutId)
    requires Inv(w) && id < |w.rollouts|
    ensures RowTicked(w, TickRollout(w, id, w.rollouts[id]), id)
  {
    hide FailAll, FailedIds, Failures, Advance;
    var r := w.rollouts[id];
    if r.status.Running? {
      var ids := StaleIds(w, id, r.verifyTimeoutMinutes, |w.jobs|);
      FailAllPauses(w, id, w.jobs, ids, r);
      FailAllPausesOnly(w, id, w.jobs, ids, r);
      TimeOutKept(w, id);
      AdvanceRow(w, TimeOut(w, id, r), id);
    } else if r.status.Paused? {
      TimeOutKept(w, id);
      NotRunningStays(TimeOut(w, id, r), id, r);
    }
  }

  lemma NotRunningStays(w: World, id: RolloutId, read: Rollout)
    requires w.Linked() && id < |w.rollouts| && !read.status.Running?
    ensures Advance(w, id, read) == w
  {
  }

  lemma AdvanceWritesNoJob(w: World, id: RolloutId, read: Rollout)
    requires w.Linked() && id < |w.rollouts|
    ensures Advance(w, id, read).jobs == w.jobs && Advance(w, id, read).trace == w.trace
  {
  }

  lemma RoundJobs(w: World, id: RolloutId, j: JobId)
    requires Inv(w) && id < |w.rollouts| && j < |w.jobs| && w.jobs[j].rollout == id
    ensures JobTicked(w, TickRollout(w, id, w.rollouts[id]), j)
  {
    hide TimeOut, Advance;
    var r := w.rollouts[id];
    if r.status.Running? || r.status.Paused? {
      TimeOutJobs(w, id, j);
      AdvanceWritesNoJob(TimeOut(w, id, r), id, r);
    }
  }

  // ── The whole loop ────────────────────────────────────────────────────────

  /** Nothing of rollout `id` is different. */
  ghost predicate SameParts(w: World, w': World, id: RolloutId)
    requires w.Linked() && w'.Linked() && |w.jobs| == |w'.jobs| && |w.rollouts| == |w'.rollouts|
  {
    && w'.now == w.now
    && (id < |w.rollouts| ==> w'.rollouts[id] == w.rollouts[id])
    && (forall j :: 0 <= j < |w.jobs| && w.jobs[j].rollout == id ==>
          w'.jobs[j] == w.jobs[j] && w'.trace[j] == w.trace[j])
    && (forall j :: 0 <= j < |w.jobs| ==> w'.jobs[j].rollout == w.jobs[j].rollout)
  }

  lemma FailuresSame(w: World, w': World, id: RolloutId)
    requires w.Linked() && w'.Linked() && |w.jobs| == |w'.jobs| && |w.rollouts| == |w'.rollouts| && SameParts(w, w', id)
    ensures Failures(w', id) == Failures(w, id)
    ensures forall batch: nat :: OpenUpTo(w', id, batch) <==> OpenUpTo(w, id, batch)
    ensures forall above: nat, j :: 0 <= j < |w.jobs| ==> (Waits(w', id, above, j) <==> Waits(w, id, above, j))
  {
    forall batch: nat ensures OpenUpTo(w', id, batch) <==> OpenUpTo(w, id, batch) {
      if OpenUpTo(w, id, batch) {
        var j :| 0 <= j < |w.jobs| && w.jobs[j].rollout == id && w.jobs[j].batch <= batch
                 && w.jobs[j].status in NOT_DONE;
        assert w'.jobs[j] == w.jobs[j];
      }
      if OpenUpTo(w', id, batch) {
        var j :| 0 <= j < |w'.jobs| && w'.jobs[j].rollout == id && w'.jobs[j].batch <= batch
                 && w'.jobs[j].status in NOT_DONE;
        assert w'.jobs[j] == w.jobs[j];
      }
    }
  }

  /** What happened to a rollout in its own round is what happened to it in the tick. */
  lemma RowTickedAround(a: World, b: World, c: World, d: World, id: RolloutId)
    requires a.Linked() && b.Linked() && c.Linked() && d.Linked()
    requires |a.jobs| == |b.jobs| == |c.jobs| == |d.jobs|
    requires id < |a.rollouts| == |b.rollouts| == |c.rollouts| == |d.rollouts|
    requires SameParts(a, b, id) && RowTicked(b, c, id) && SameParts(c, d, id)
    ensures RowTicked(a, d, id)
  {
    hide Failures, OpenUpTo;
    FailuresSame(a, b, id);
    FailuresSame(c, d, id);
    forall j | 0 <= j < |c.jobs| && Waits(c, id, a.rollouts[id].currentBatch, j) ensures d.jobs[j] == c.jobs[j] {
    }
  }

  lemma JobTickedAround(a: World, b: World, c: World, d: World, j: JobId)
    requires a.Linked() && b.Linked() && c.Linked() && d.Linked()
    requires j < |a.jobs| == |b.jobs| == |c.jobs| == |d.jobs|
    requires |a.rollouts| == |b.rollouts| == |c.rollouts| == |d.rollouts|
    requires SameParts(a, b, a.jobs[j].rollout) && JobTicked(b, c, j) && SameParts(c, d, a.jobs[j].rollout)
    requires c.jobs[j].rollout == b.jobs[j].rollout
    ensures JobTicked(a, d, j)
  {
  }

  lemma SamePartsTrans(a: World, b: World, c: World, id: RolloutId)
    requires a.Linked() && b.Linked() && c.Linked() && |a.jobs| == |b.jobs| == |c.jobs|
    requires |a.rollouts| == |b.rollouts| == |c.rollouts| && SameParts(a, b, id) && SameParts(b, c, id)
    ensures SameParts(a, c, id)
  {
  }

  lemma RoundLeavesOthers(w: World, id: RolloutId, other: RolloutId)
    requires Inv(w) && id < |w.rollouts| && id != other
    ensures SameParts(w, TickRollout(w, id, w.rollouts[id]), other)
  {
    TickRolloutKept(w, id);
  }

  lemma {:induction false} LaterRounds(w: World, read: seq<Rollout>, from: RolloutId, id: RolloutId)
    requires Inv(w) && |read| == |w.rollouts| && id < from <= |read|
    requires forall x :: from <= x < |read| ==> read[x] == w.rollouts[x]
    ensures SameParts(w, TickFrom(w, read, from), id)
    decreases |read| - from
  {
    hide TickRollout;
    if from < |read| {
      TickRolloutKept(w, from);
      RoundLeavesOthers(w, from, id);
      var next := TickRollout(w, from, read[from]);
      LaterRounds(next, read, from + 1, id);
      SamePartsTrans(w, next, TickFrom(next, read, from + 1), id);
    }
  }

  lemma SameItself(w: World, id: RolloutId)
    requires w.Linked()
    ensures SameParts(w, w, id)
  {
  }

  lemma {:induction false} TickFromRows(w: World, read: seq<Rollout>, from: RolloutId, id: RolloutId)
    requires Inv(w) && |read| == |w.rollouts| && from <= id < |read|
    requires forall x :: from <= x < |read| ==> read[x] == w.rollouts[x]
    ensures RowTicked(w, TickFrom(w, read, from), id)
    ensures forall j :: 0 <= j < |w.jobs| && w.jobs[j].rollout == id ==> JobTicked(w, TickFrom(w, read, from), j)
    decreases |read| - from
  {
    hide TickRollout, RowTicked, JobTicked, SameParts;
    TickRolloutKept(w, from);
    var next := TickRollout(w, from, read[from]);
    var w' := TickFrom(next, read, from + 1);
    SameItself(w, id);
    SameItself(w', id);
    if from == id {
      RoundRow(w, id);
      LaterRounds(next, read, from + 1, id);
      RowTickedAround(w, w, next, w', id);
      forall j | 0 <= j < |w.jobs| && w.jobs[j].rollout == id ensures JobTicked(w, w', j) {
        RoundJobs(w, id, j);
        JobTickedAround(w, w, next, w', j);
      }
    } else {
      RoundLeavesOthers(w, from, id);
      TickFromRows(next, read, from + 1, id);
      RowTickedAround(w, next, w', w', id);
      forall j | 0 <= j < |w.jobs| && w.jobs[j].rollout == id ensures JobTicked(w, w', j) {
        JobTickedAround(w, next, w', w', j);
      }
    }
  }

  lemma TickIsTicked(w: World)
    requires Inv(w)
    ensures Ticked(w, Tick(w))
  {
    hide TickFrom, RowTicked, JobTicked;
    TickFromKept(w, w.rollouts, 0);
    var w' := Tick(w);
    forall id | 0 <= id < |w.rollouts| ensures RowTicked(w, w', id) {
      TickFromRows(w, w.rollouts, 0, id);
    }
    forall j | 0 <= j < |w.jobs| ensures JobTicked(w, w', j) {
      TickFromRows(w, w.rollouts, 0, w.jobs[j].rollout);
    }
  }

  /** In every reachable world a tick does exactly this. */
  lemma TickDoesThis(past: seq<Action>)
    requires PossibleRun(EMPTY, past)
    ensures Ticked(Exec(EMPTY, past), Tick(Exec(EMPTY, past)))
  {
    hide Ticked;
    Reachable(past);
    TickIsTicked(Exec(EMPTY, past));
  }
}
