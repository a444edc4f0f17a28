/** What one tick achieves although it judges by rows read before its loop. */
module RolloutTick {
  import opened RolloutState
  import opened RolloutCalls
  import opened RolloutInvariants
  import opened RolloutWrites
  import opened RolloutKeeps
  import opened RolloutRuns

  /** Nothing of this rollout is overdue, and while it runs some released job is unfinished. */
  ghost predicate Settled(w: World, id: RolloutId)
    requires id < |w.rollouts|
  {
    && NothingStale(w, id, w.rollouts[id].verifyTimeoutMinutes)
    && (w.rollouts[id].status.Running? ==> BatchOpen(w.jobs, id, w.rollouts[id].currentBatch))
  }

  lemma AdvanceSettles(w: World, id: RolloutId, read: Rollout)
    requires Inv(w) && id < |w.rollouts| && MayPause(read, w.rollouts[id])
    requires NothingStale(w, id, read.verifyTimeoutMinutes)
    ensures Settled(Advance(w, id, read), id)
  {
    AdvanceKept(w, id, read);
    var w' := Advance(w, id, read);
    assert RolloutEvolves(w, w', id);
    forall j | 0 <= j < |w'.jobs| ensures !IsStale(w', id, read.verifyTimeoutMinutes, j) {
      assert !IsStale(w, id, read.verifyTimeoutMinutes, j);
    }
    if w'.rollouts[id].status.Running? && w'.rollouts[id].currentBatch != read.currentBatch {
      var batch := w'.rollouts[id].currentBatch;
      var j :| 0 <= j < |w.jobs| && WaitsAbove(w.jobs, id, read.currentBatch, j) && w.jobs[j].batch == batch;
      assert w'.jobs[j].status.Unfinished();
    }
  }

  lemma TickRolloutSettles(w: World, id: RolloutId)
    requires Inv(w) && id < |w.rollouts|
    ensures Settled(TickRollout(w, id, w.rollouts[id]), id)
  {
    var read := w.rollouts[id];
    if read.status.Running? || read.status.Paused? {
      TimeOutKept(w, id);
      AdvanceSettles(TimeOut(w, id, read), id, read);
    } else {
      forall j | 0 <= j < |w.jobs| ensures !IsStale(w, id, read.verifyTimeoutMinutes, j) {
        assert JobOk(w, j);
      }
    }
  }

  lemma SettledStays(w: World, w': World, other: RolloutId, id: RolloutId)
    requires w.Linked() && SameRows(w, w') && OnlyRollout(w, w', other) && id != other && id < |w.rollouts|
    requires Settled(w, id)
    ensures Settled(w', id)
  {
    forall j | 0 <= j < |w'.jobs| ensures !IsStale(w', id, w'.rollouts[id].verifyTimeoutMinutes, j) {
      assert !IsStale(w, id, w.rollouts[id].verifyTimeoutMinutes, j);
    }
    if w.rollouts[id].status.Running? {
      var j :| 0 <= j < |w.jobs| && w.jobs[j].rollout == id && w.jobs[j].batch <= w.rollouts[id].currentBatch
               && w.jobs[j].status.Unfinished();
      assert w'.jobs[j] == w.jobs[j];
    }
  }

  lemma {:induction false} TickFromSettles(w: World, read: seq<Rollout>, id: RolloutId)
    requires Inv(w) && |read| == |w.rollouts| && id <= |read|
    requires forall x :: id <= x < |read| ==> read[x] == w.rollouts[x]
    requires forall x :: 0 <= x < id ==> Settled(w, x)
    ensures forall x :: 0 <= x < |read| ==> Settled(TickFrom(w, read, id), x)
    decreases |read| - id
  {
    if id < |read| {
      var next := TickRollout(w, id, read[id]);
      TickRolloutKept(w, id);
      TickRolloutSettles(w, id);
      forall x | 0 <= x < id ensures Settled(next, x) {
        SettledStays(w, next, id, x);
      }
      TickFromSettles(next, read, id + 1);
    }
  }

  lemma {:induction false} NoStaleIds(w: World, id: RolloutId, timeoutMinutes: nat, n: nat)
    requires NothingStale(w, id, timeoutMinutes) && n <= |w.jobs|
    ensures StaleIds(w, id, timeoutMinutes, n) == []
  {
    if n > 0 {
      NoStaleIds(w, id, timeoutMinutes, n - 1);
    }
  }

  lemma {:induction false} SettledTickIsIdle(w: World, id: RolloutId)
    requires w.Linked() && id <= |w.rollouts|
    requires forall x :: 0 <= x < |w.rollouts| ==> Settled(w, x)
    ensures TickFrom(w, w.rollouts, id) == w
    decreases |w.rollouts| - id
  {
    if id < |w.rollouts| {
      assert Settled(w, id);
      NoStaleIds(w, id, w.rollouts[id].verifyTimeoutMinutes, |w.jobs|);
      assert TickRollout(w, id, w.rollouts[id]) == w;
      SettledTickIsIdle(w, id + 1);
    }
  }

  ghost predicate AllSettled(w: World) { forall id :: 0 <= id < |w.rollouts| ==> Settled(w, id) }

  /** A running rollout that has settled has an unfinished job in exactly its current batch. */
  lemma SettledHasWork(w: World, id: RolloutId)
    requires Inv(w) && id < |w.rollouts| && Settled(w, id) && w.rollouts[id].status.Running?
    ensures exists j :: 0 <= j < |w.jobs| && w.jobs[j].rollout == id && w.jobs[j].batch == w.rollouts[id].currentBatch
                        && w.jobs[j].status.Unfinished()
  {
    var j :| 0 <= j < |w.jobs| && w.jobs[j].rollout == id && w.jobs[j].batch <= w.rollouts[id].currentBatch
             && w.jobs[j].status.Unfinished();
    assert JobOk(w, j);
  }

  lemma SettledIsOnTime(w: World, j: JobId)
    requires Inv(w) && AllSettled(w) && j < |w.jobs| && w.jobs[j].status.InFlight()
    ensures w.jobs[j].dispatchedAt.Some?
    ensures w.jobs[j].dispatchedAt.value >= w.now - w.rollouts[w.jobs[j].rollout].verifyTimeoutMinutes * MINUTE
  {
    assert JobOk(w, j) && Settled(w, w.jobs[j].rollout);
    assert !IsStale(w, w.jobs[j].rollout, w.rollouts[w.jobs[j].rollout].verifyTimeoutMinutes, j);
  }

  /**
   After a tick no in-flight job is past its timeout, every running rollout has an unfinished job in
   its current batch, a completed one has none left, and a second tick at the same time does nothing.
   */
  lemma TickSettlesEverything(past: seq<Action>)
    requires PossibleRun(EMPTY, past)
    ensures
      var w := Tick(Exec(EMPTY, past));
      && (forall j :: 0 <= j < |w.jobs| && w.jobs[j].status.InFlight() ==>
            && w.jobs[j].dispatchedAt.Some?
            && w.jobs[j].dispatchedAt.value >= w.now - w.rollouts[w.jobs[j].rollout].verifyTimeoutMinutes * MINUTE)
      && (forall id :: 0 <= id < |w.rollouts| && w.rollouts[id].status.Running? ==>
            exists j :: 0 <= j < |w.jobs| && w.jobs[j].rollout == id && w.jobs[j].batch == w.rollouts[id].currentBatch
                        && w.jobs[j].status.Unfinished())
      && (forall j :: 0 <= j < |w.jobs| && w.rollouts[w.jobs[j].rollout].status.Completed? ==>
            !w.jobs[j].status.Unfinished())
      && Tick(w) == w
  {
    hide Settled;
    Reachable(past);
    var before := Exec(EMPTY, past);
    var w := Tick(before);
    TickKept(before);
    TickFromSettles(before, before.rollouts, 0);
    SettledTickIsIdle(w, 0);
    forall j | 0 <= j < |w.jobs| && w.jobs[j].status.InFlight()
      ensures w.jobs[j].dispatchedAt.Some?
      ensures w.jobs[j].dispatchedAt.value >= w.now - w.rollouts[w.jobs[j].rollout].verifyTimeoutMinutes * MINUTE
    {
      SettledIsOnTime(w, j);
    }
    forall id | 0 <= id < |w.rollouts| && w.rollouts[id].status.Running?
      ensures exists j :: 0 <= j < |w.jobs| && w.jobs[j].rollout == id && w.jobs[j].batch == w.rollouts[id].currentBatch
                          && w.jobs[j].status.Unfinished()
    {
      SettledHasWork(w, id);
    }
    forall j | 0 <= j < |w.jobs| && w.rollouts[w.jobs[j].rollout].status.Completed?
      ensures !w.jobs[j].status.Unfinished()
    {
      assert JobOk(w, j);
    }
  }

  // ── Starting ──────────────────────────────────────────────────────────────

  /** Nothing is left of this running rollout. */
  ghost predicate Exhausted(w: World, id: RolloutId)
    requires id < |w.rollouts|
  {
    && w.rollouts[id].status.Running?
    && forall j :: 0 <= j < |w.jobs| && w.jobs[j].rollout == id ==> !w.jobs[j].status.Unfinished()
  }

  lemma ExhaustedCompletes(w: World, id: RolloutId)
    requires w.Linked() && id < |w.rollouts| && Exhausted(w, id)
    ensures TickRollout(w, id, w.rollouts[id]).rollouts[id].status.Completed?
  {
    forall j | 0 <= j < |w.jobs| ensures !IsStale(w, id, w.rollouts[id].verifyTimeoutMinutes, j) {
    }
    NoStaleIds(w, id, w.rollouts[id].verifyTimeoutMinutes, |w.jobs|);
    assert TimeOut(w, id, w.rollouts[id]) == w;
  }

  lemma SettledIsIdle(w: World, id: RolloutId)
    requires w.Linked() && id < |w.rollouts| && Settled(w, id)
    ensures TickRollout(w, id, w.rollouts[id]) == w
  {
    NoStaleIds(w, id, w.rollouts[id].verifyTimeoutMinutes, |w.jobs|);
  }

  /** The tick leaves a settled rollout as it is and completes an exhausted one, wherever it comes in the loop. */
  lemma {:induction false} TickFromReaches(w: World, read: seq<Rollout>, from: RolloutId, id: RolloutId)
    requires Inv(w) && |read| == |w.rollouts| && from <= id < |read|
    requires forall x :: from <= x < |read| ==> read[x] == w.rollouts[x]
    ensures Settled(w, id) ==> TickFrom(w, read, from).rollouts[id] == w.rollouts[id]
    ensures Exhausted(w, id) ==> TickFrom(w, read, from).rollouts[id].status.Completed?
    decreases |read| - from
  {
    hide TickRollout, Settled, FailedIds;
    TickRolloutKept(w, from);
    var next := TickRollout(w, from, read[from]);
    if from == id {
      if Settled(w, id) { SettledIsIdle(w, id); }
      if Exhausted(w, id) { ExhaustedCompletes(w, id); }
      LaterRoundsLeaveAlone(next, read, from + 1, id);
    } else {
      if Settled(w, id) { SettledStays(w, next, from, id); }
      TickFromReaches(next, read, from + 1, id);
    }
  }

  /** Some job of the rollout still waits to be handed out. */
  ghost predicate HasWaiting(w: World, id: RolloutId) {
    exists j :: 0 <= j < |w.jobs| && WaitsAbove(w.jobs, id, -1, j)
  }

  /**
   Starting a draft releases its lowest batch with a job to hand out, and the tick that follows leaves
   it so; a draft with no such job completes at once.
   */
  lemma StartReleasesTheLowestBatch(past: seq<Action>, id: RolloutId)
    requires PossibleRun(EMPTY, past)
    ensures
      var w := Exec(EMPTY, past);
      id < |w.rollouts| && w.rollouts[id].status.Draft? ==>
        var r' := Start(w, id).rollouts[id];
        && (HasWaiting(w, id) ==>
              && r'.status.Running?
              && (exists j :: 0 <= j < |w.jobs| && WaitsAbove(w.jobs, id, -1, j) && w.jobs[j].batch == r'.currentBatch)
              && (forall j :: 0 <= j < |w.jobs| && WaitsAbove(w.jobs, id, -1, j) ==>
                    r'.currentBatch <= w.jobs[j].batch))
        && (!HasWaiting(w, id) ==> r'.status.Completed?)
  {
    Reachable(past);
    var w := Exec(EMPTY, past);
    if id < |w.rollouts| && w.rollouts[id].status.Draft? {
      StartReleases(w, id);
      var r := w.rollouts[id].(status := Running, currentBatch := FirstBatch(w, id));
      RolloutWriteKept(w, id, r);
      var started := PutRollout(w, id, r);
      StartedDraft(w, id);
      TickFromReaches(started, started.rollouts, 0, id);
    }
  }

  lemma StartedDraft(w: World, id: RolloutId)
    requires Inv(w) && id < |w.rollouts| && w.rollouts[id].status.Draft?
    ensures
      var started := PutRollout(w, id, w.rollouts[id].(status := Running, currentBatch := FirstBatch(w, id)));
      if HasWaiting(w, id) then Settled(started, id) else Exhausted(started, id)
  {
    var started := PutRollout(w, id, w.rollouts[id].(status := Running, currentBatch := FirstBatch(w, id)));
    forall j | 0 <= j < |w.jobs| && w.jobs[j].rollout == id
      ensures !IsStale(started, id, w.rollouts[id].verifyTimeoutMinutes, j)
      ensures w.jobs[j].status.Unfinished() ==> WaitsAbove(w.jobs, id, -1, j)
    {
      assert JobOk(w, j);
    }
    if HasWaiting(w, id) {
      var j :| 0 <= j < |w.jobs| && WaitsAbove(w.jobs, id, -1, j) && w.jobs[j].batch == FirstBatch(w, id);
      assert started.jobs[j].status.Unfinished();
    }
  }

  // ── Pausing in the middle of a tick ───────────────────────────────────────

  lemma {:induction false} FailAllPauses(w: World, id: RolloutId, read: seq<Job>, ids: seq<JobId>, limits: Rollout)
    requires Inv(w) && AsRead(w, id, read, ids, limits)
    ensures var w' := FailAll(w, read, ids, limits);
            FailedIds(w'.jobs, id) != FailedIds(w.jobs, id) ==>
            ReachedThreshold(w.rollouts[id], |FailedIds(w'.jobs, id)|) ==>
              !w'.rollouts[id].status.Running?
    decreases |ids|
  {
    if ids != [] {
      PutSame(w, ids[0]);
      FailAttemptKept(w, ids[0], w.jobs[ids[0]], limits);
      var next := FailAttempt(w, ids[0], read[ids[0]].attempts, limits);
      FailAllKept(next, id, read, ids[1..], limits);
      FailAllPauses(next, id, read, ids[1..], limits);
      var w' := FailAll(next, read, ids[1..], limits);
      if FailedIds(w'.jobs, id) == FailedIds(next.jobs, id) && FailedIds(w'.jobs, id) != FailedIds(w.jobs, id) {
        FirstFailureChecks(w, id, ids[0], limits);
      }
    }
  }

  lemma FirstFailureChecks(w: World, id: RolloutId, j: JobId, limits: Rollout)
    requires Inv(w) && j < |w.jobs| && w.jobs[j].rollout == id && w.jobs[j].status.InFlight()
    ensures var w' := FailAttempt(w, j, w.jobs[j].attempts, limits);
            FailedIds(w'.jobs, id) != FailedIds(w.jobs, id) ==>
            ReachedThreshold(w.rollouts[id], |FailedIds(w'.jobs, id)|) ==>
              !w'.rollouts[id].status.Running?
  {
    var w' := FailAttempt(w, j, w.jobs[j].attempts, limits);
    if w.jobs[j].attempts < limits.maxAttempts {
      assert FailedIds(w'.jobs, id) == FailedIds(w.jobs, id);
    }
  }

  /** If the tick from `w` to `w'` pushed the running rollout over its threshold, it was paused as it stood. */
  ghost predicate PausedInPlace(w: World, w': World, id: RolloutId)
    requires id < |w.rollouts| && id < |w'.rollouts|
  {
    w.rollouts[id].status.Running? ==>
      && (FailedIds(w'.jobs, id) != FailedIds(w.jobs, id) ==>
          ReachedThreshold(w.rollouts[id], |FailedIds(w'.jobs, id)|) ==>
            w'.rollouts[id] == w.rollouts[id].(status := Paused))
      && (w'.rollouts[id].status.Paused? ==> w'.rollouts[id].currentBatch == w.rollouts[id].currentBatch)
  }

  lemma TickRolloutPauses(w: World, id: RolloutId)
    requires Inv(w) && id < |w.rollouts|
    ensures PausedInPlace(w, TickRollout(w, id, w.rollouts[id]), id)
  {
    hide FailAll;
    var read := w.rollouts[id];
    if read.status.Running? {
      FailAllPauses(w, id, w.jobs, StaleIds(w, id, read.verifyTimeoutMinutes, |w.jobs|), read);
      TimeOutKept(w, id);
      AdvanceKept(TimeOut(w, id, read), id, read);
    }
  }

  /** The row and the failures of rollout `id` are the same. */
  ghost predicate SameRollout(w: World, w': World, id: RolloutId) {
    && id < |w.rollouts| == |w'.rollouts|
    && w'.rollouts[id] == w.rollouts[id]
    && FailedIds(w'.jobs, id) == FailedIds(w.jobs, id)
  }

  lemma OtherRolloutUntouched(w: World, other: RolloutId, id: RolloutId)
    requires Inv(w) && other < |w.rollouts| && id < |w.rollouts| && id != other
    ensures SameRollout(w, TickRollout(w, other, w.rollouts[other]), id)
  {
    TickRolloutKept(w, other);
  }

  lemma {:induction false} LaterRoundsLeaveAlone(w: World, read: seq<Rollout>, from: RolloutId, id: RolloutId)
    requires Inv(w) && |read| == |w.rollouts| && id < from <= |read|
    requires forall x :: from <= x < |read| ==> read[x] == w.rollouts[x]
    ensures SameRollout(w, TickFrom(w, read, from), id)
    decreases |read| - from
  {
    if from < |read| {
      TickRolloutKept(w, from);
      OtherRolloutUntouched(w, from, id);
      LaterRoundsLeaveAlone(TickRollout(w, from, read[from]), read, from + 1, id);
    }
  }

  lemma {:induction false} TickFromPauses(w: World, read: seq<Rollout>, from: RolloutId, id: RolloutId)
    requires Inv(w) && |read| == |w.rollouts| && from <= id < |read|
    requires forall x :: from <= x < |read| ==> read[x] == w.rollouts[x]
    ensures PausedInPlace(w, TickFrom(w, read, from), id)
    decreases |read| - from
  {
    hide TickRollout, FailedIds;
    TickRolloutKept(w, from);
    var next := TickRollout(w, from, read[from]);
    if from == id {
      TickRolloutPauses(w, id);
      LaterRoundsLeaveAlone(next, read, from + 1, id);
    } else {
      OtherRolloutUntouched(w, from, id);
      TickFromPauses(next, read, from + 1, id);
    }
  }

  /**
   A running rollout whose failures reach the threshold through a timeout of this tick ends the tick
   paused in the batch it was in, however many other rollouts the tick went through.
   */
  lemma PausedTickReleasesNothing(past: seq<Action>, id: RolloutId)
    requires PossibleRun(EMPTY, past)
    ensures
      var w := Exec(EMPTY, past);
      var w' := Tick(w);
      id < |w.rollouts| && w.rollouts[id].status.Running? ==>
        && (FailedIds(w'.jobs, id) != FailedIds(w.jobs, id) ==>
            ReachedThreshold(w.rollouts[id], |FailedIds(w'.jobs, id)|) ==>
              w'.rollouts[id] == w.rollouts[id].(status := Paused))
        && (w'.rollouts[id].status.Paused? ==> w'.rollouts[id].currentBatch == w.rollouts[id].currentBatch)
  {
    Reachable(past);
    var w := Exec(EMPTY, past);
    if id < |w.rollouts| && w.rollouts[id].status.Running? {
      TickFromPauses(w, w.rollouts, 0, id);
    }
  }
}
