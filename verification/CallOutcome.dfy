/** What starting, pausing, canceling and downloading do to every row, told from the rows themselves. */
module CallOutcome {
  import opened Wrappers
  import opened RolloutState
  import opened RolloutCalls
  import opened RolloutInvariants
  import opened RolloutWrites
  import opened RolloutKeeps
  import opened RolloutRuns
  import opened RolloutSafety
  import opened TickOutcome

  // ── Starting ──────────────────────────────────────────────────────────────

  /** The batch a start runs in: a resumed rollout's own, a draft's least one in which a job waits, or 0. */
  predicate StartsIn(w: World, id: RolloutId, batch: nat)
    requires id < |w.rollouts|
  {
    if w.rollouts[id].status == Paused then batch == w.rollouts[id].currentBatch
    else if forall j :: 0 <= j < |w.jobs| && w.jobs[j].rollout == id ==> w.jobs[j].status != Requested then batch == 0
    else
      && (exists j :: 0 <= j < |w.jobs| && w.jobs[j].rollout == id && w.jobs[j].status == Requested
                      && w.jobs[j].batch == batch)
      && (forall j :: 0 <= j < |w.jobs| && w.jobs[j].rollout == id && w.jobs[j].status == Requested ==>
            batch <= w.jobs[j].batch)
  }

  lemma FirstBatchIs(w: World, id: RolloutId)
    requires w.Linked() && id < |w.rollouts| && (w.rollouts[id].status.Draft? || w.rollouts[id].status.Paused?)
    ensures StartsIn(w, id, FirstBatch(w, id))
  {
    forall j | 0 <= j < |w.jobs|
      ensures WaitsAbove(w.jobs, id, -1, j) <==> w.jobs[j].rollout == id && w.jobs[j].status == Requested
    {
    }
  }

  /** The world with rollout `id` running in `batch`. */
  function RunningIn(w: World, id: RolloutId, batch: nat): World
    requires id < |w.rollouts|
  {
    w.(rollouts := w.rollouts[id := w.rollouts[id].(status := Running, currentBatch := batch)])
  }

  /**
   Starting a draft or a paused rollout sets it running in that batch, and then a tick goes over the
   whole world. Any other start is refused and changes nothing.
   */
  lemma StartDoesThis(past: seq<Action>, id: RolloutId)
    requires PossibleRun(EMPTY, past)
    ensures
      var w := Exec(EMPTY, past);
      var w' := Start(w, id);
      var error := StartError(w, id);
      && (error == Some(NotFound) <==> id >= |w.rollouts|)
      && (error == None <==> id < |w.rollouts| && (w.rollouts[id].status == Draft || w.rollouts[id].status == Paused))
      && (error == None || error == Some(NotFound) || error == Some(Conflict))
      && (error != None ==> w' == w)
      && (error == None ==> exists batch: nat :: StartsIn(w, id, batch) && Ticked(RunningIn(w, id, batch), w'))
  {
    Reachable(past);
    var w := Exec(EMPTY, past);
    if StartError(w, id) == None {
      StartReleases(w, id);
      var r := w.rollouts[id].(status := Running, currentBatch := FirstBatch(w, id));
      RolloutWriteKept(w, id, r);
      FirstBatchIs(w, id);
      TickIsTicked(PutRollout(w, id, r));
      hide Ticked, Tick;
      assert PutRollout(w, id, r) == RunningIn(w, id, FirstBatch(w, id));
    }
  }

  /** A resumed rollout whose batch has work and whose jobs are all on time runs on in its batch. */
  lemma ResumeRunsOn(past: seq<Action>, id: RolloutId)
    requires PossibleRun(EMPTY, past)
    ensures
      var w := Exec(EMPTY, past);
      id < |w.rollouts| && w.rollouts[id].status == Paused
        && OpenUpTo(w, id, w.rollouts[id].currentBatch)
        && (forall j :: 0 <= j < |w.jobs| && w.jobs[j].rollout == id ==> !Overdue(w, j)) ==>
          Start(w, id).rollouts[id] == w.rollouts[id].(status := Running)
  {
    StartDoesThis(past, id);
    var w := Exec(EMPTY, past);
    var w' := Start(w, id);
    if id < |w.rollouts| && w.rollouts[id].status == Paused && OpenUpTo(w, id, w.rollouts[id].currentBatch)
       && (forall j :: 0 <= j < |w.jobs| && w.jobs[j].rollout == id ==> !Overdue(w, j)) {
      ResumedRow(w, w', id);
    }
  }

  lemma ResumedRow(w: World, w': World, id: RolloutId)
    requires w.Linked() && id < |w.rollouts| && w.rollouts[id].status == Paused
    requires OpenUpTo(w, id, w.rollouts[id].currentBatch)
    requires forall j :: 0 <= j < |w.jobs| && w.jobs[j].rollout == id ==> !Overdue(w, j)
    requires Ticked(RunningIn(w, id, w.rollouts[id].currentBatch), w')
    ensures w'.rollouts[id] == w.rollouts[id].(status := Running)
  {
    var started := RunningIn(w, id, w.rollouts[id].currentBatch);
    assert RowTicked(started, w', id);
    forall j | 0 <= j < |w.jobs| && w.jobs[j].rollout == id ensures w'.jobs[j] == w.jobs[j] {
      assert JobTicked(started, w', j);
      assert Overdue(started, j) == Overdue(w, j);
    }
    forall j | 0 <= j < |w.jobs| && w.jobs[j].rollout != id ensures w'.jobs[j].rollout != id {
      assert JobTicked(started, w', j);
    }
    assert Failures(w', id) == Failures(started, id);
    var j :| 0 <= j < |w.jobs| && w.jobs[j].rollout == id && w.jobs[j].batch <= w.rollouts[id].currentBatch
             && w.jobs[j].status in NOT_DONE;
    assert w'.jobs[j] == w.jobs[j];
  }

  // ── Pausing and canceling ─────────────────────────────────────────────────

  /** Pausing changes the status of a running rollout and nothing else. */
  lemma PauseDoesThis(w: World, id: RolloutId)
    requires w.Linked()
    ensures
      var w' := Pause(w, id);
      && w'.jobs == w.jobs && w'.trace == w.trace && w'.minted == w.minted && w'.now == w.now
      && |w'.rollouts| == |w.rollouts|
      && forall x :: 0 <= x < |w.rollouts| ==>
           w'.rollouts[x] ==
             if x == id && w.rollouts[x].status == Running then w.rollouts[x].(status := Paused) else w.rollouts[x]
  {
  }

  /** Canceling a job that is not finished ends it as it is, and touches nothing else; any other is refused. */
  lemma CancelJobDoesThis(w: World, id: JobId)
    requires w.Linked()
    ensures
      var w' := CancelJob(w, id);
      var error := CancelJobError(w, id);
      && error == (if id >= |w.jobs| then Some(NotFound)
                   else if w.jobs[id].status in NOT_DONE then None else Some(Conflict))
      && w'.rollouts == w.rollouts && w'.minted == w.minted && |w'.jobs| == |w.jobs|
      && forall j :: 0 <= j < |w.jobs| ==>
           w'.jobs[j] == if j == id && error == None then w.jobs[j].(status := JobStatus.Canceled) else w.jobs[j]
  {
    forall s: JobStatus ensures s in NOT_DONE <==> s.Unfinished() {
      StatusSets(s);
    }
  }

  /** Canceling a rollout that is not over stops it and exactly its unfinished jobs; any other is refused. */
  lemma CancelDoesThis(past: seq<Action>, id: RolloutId)
    requires PossibleRun(EMPTY, past)
    ensures
      var w := Exec(EMPTY, past);
      var w' := Cancel(w, id);
      var error := CancelError(w, id);
      && error == (if id >= |w.rollouts| then Some(NotFound)
                   else if w.rollouts[id].status == Completed || w.rollouts[id].status == RolloutStatus.Canceled
                   then Some(Conflict) else None)
      && w'.minted == w.minted && |w'.jobs| == |w.jobs| && |w'.rollouts| == |w.rollouts|
      && (forall x :: 0 <= x < |w.rollouts| ==>
            w'.rollouts[x] ==
              if x == id && error == None then w.rollouts[x].(status := RolloutStatus.Canceled) else w.rollouts[x])
      && (forall j :: 0 <= j < |w.jobs| ==>
            w'.jobs[j] ==
              if error == None && w.jobs[j].rollout == id && w.jobs[j].status in NOT_DONE
              then w.jobs[j].(status := JobStatus.Canceled) else w.jobs[j])
  {
    Reachable(past);
    var w := Exec(EMPTY, past);
    forall s: JobStatus ensures s in NOT_DONE <==> s.Unfinished() {
      StatusSets(s);
    }
    if CancelError(w, id).None? {
      CancelStopsEverything(w, id);
    }
  }

  // ── Downloading ───────────────────────────────────────────────────────────

  /**
   A download answered for a job that is still dispatched marks it as installing; otherwise, and for any
   other job and rollout, nothing changes.
   */
  lemma DownloadDoesThis(past: seq<Action>, nonce: Nonce)
    requires PossibleRun(EMPTY, past)
    ensures
      var w := Exec(EMPTY, past);
      var (w', answer) := Fetch(w, nonce);
      && w'.rollouts == w.rollouts && w'.minted == w.minted && |w'.jobs| == |w.jobs|
      && (answer.Some? ==> nonce in w.minted)
      && forall j :: 0 <= j < |w.jobs| ==>
           w'.jobs[j] ==
             if answer.Some? && j == w.minted[nonce].job && w.jobs[j].status == Dispatched
             then w.jobs[j].(status := Installing) else w.jobs[j]
  {
    Reachable(past);
    var w := Exec(EMPTY, past);
    InstallerAnswersLiveNonces(past, nonce);
    if NonceLive(w, nonce) {
      LiveNonceIsFound(w, nonce);
    }
  }
}
