/** A failure that reaches the threshold never leaves its rollout running, whichever call brought it. */
module RolloutAutoPause {
  import opened RolloutState
  import opened RolloutCalls
  import opened RolloutInvariants
  import opened RolloutWrites
  import opened RolloutKeeps
  import opened RolloutCreation
  import opened RolloutRuns
  import opened RolloutTick
  import Versions

  /** If rollout `id` failed more jobs and is at its threshold, it is not running. */
  ghost predicate AutoPaused(w: World, w': World, id: RolloutId) {
    id < |w.rollouts| && id < |w'.rollouts| ==>
      FailedIds(w'.jobs, id) != FailedIds(w.jobs, id) ==>
      ReachedThreshold(w'.rollouts[id], |FailedIds(w'.jobs, id)|) ==>
        !w'.rollouts[id].status.Running?
  }

  ghost predicate NeverResumed(w: World, w': World, id: RolloutId) {
    id < |w.rollouts| && id < |w'.rollouts| && w'.rollouts[id].status.Running? ==> w.rollouts[id].status.Running?
  }

  ghost predicate Guarded(w: World, w': World, id: RolloutId) { AutoPaused(w, w', id) && NeverResumed(w, w', id) }

  lemma GuardedTrans(a: World, b: World, c: World, id: RolloutId)
    requires |a.rollouts| == |b.rollouts| == |c.rollouts|
    requires id < |a.rollouts| ==> b.rollouts[id].failureThreshold == c.rollouts[id].failureThreshold
    requires AutoPaused(a, b, id) && Guarded(b, c, id)
    ensures AutoPaused(a, c, id)
    ensures NeverResumed(a, b, id) ==> NeverResumed(a, c, id)
  {
  }

  // ── Single writes ─────────────────────────────────────────────────────────

  lemma PutKeepsFailed(w: World, j: JobId, job: Job, id: RolloutId)
    requires w.Linked() && j < |w.jobs| && job.rollout == w.jobs[j].rollout
    requires !w.jobs[j].status.Failed? && !job.status.Failed?
    ensures FailedIds(PutJob(w, j, job).jobs, id) == FailedIds(w.jobs, id)
  {
  }

  lemma FailPauses(w: World, j: JobId, id: RolloutId)
    requires w.Linked() && j < |w.jobs|
    ensures Guarded(w, Fail(w, j), id)
  {
    var failed := PutJob(w, j, MarkedFailed(w.jobs[j]));
    if id != w.jobs[j].rollout {
      assert FailedIds(failed.jobs, id) == FailedIds(w.jobs, id);
    }
  }

  lemma FailAttemptPauses(w: World, j: JobId, attempts: nat, limits: Rollout, id: RolloutId)
    requires w.Linked() && j < |w.jobs| && w.jobs[j].status.InFlight()
    ensures Guarded(w, FailAttempt(w, j, attempts, limits), id)
  {
    if attempts >= limits.maxAttempts {
      FailPauses(w, j, id);
    } else {
      PutKeepsFailed(w, j, SentBack(w.jobs[j], attempts, limits.backoffMinutes, w.now), id);
    }
  }

  // ── Heartbeats ────────────────────────────────────────────────────────────

  lemma ConfirmPauses(w: World, j: JobId, version: string, reg: Registration, id: RolloutId)
    requires w.Linked() && j < |w.jobs| && w.jobs[j].status.InFlight()
    ensures Guarded(w, Confirm(w, j, w.jobs[j], version, reg), id)
  {
    var seen := if w.jobs[j].status.AwaitingVerification? then w else PutJob(w, j, OnTarget(w.jobs[j], version));
    PutKeepsFailed(w, j, OnTarget(w.jobs[j], version), id);
    PutKeepsFailed(seen, j, Verified(seen.jobs[j]), id);
  }

  lemma EvidencePauses(w: World, j: JobId, r: Rollout, f: HeartbeatFacts, reg: Registration, id: RolloutId)
    requires w.Linked() && j < |w.jobs| && w.jobs[j].status.InFlight()
    ensures Guarded(w, RecordEvidence(w, j, w.jobs[j], r, f, reg), id)
  {
    hide Versions.Compare, FailedIds, Fail, FailAttempt, Confirm;
    var reported := Reported(r.component, f);
    if reported.Some? {
      var version := reported.value;
      var noted := PutJob(w, j, WithVersion(w.jobs[j], version));
      PutKeepsFailed(w, j, WithVersion(w.jobs[j], version), id);
      FailPauses(noted, j, id);
      FailAttemptPauses(noted, j, w.jobs[j].attempts, r, id);
      ConfirmPauses(w, j, version, reg, id);
    }
  }

  lemma JudgePauses(w: World, read: World, j: JobId, f: HeartbeatFacts, reg: Registration, id: RolloutId)
    requires Inv(w) && Unjudged(w, read, j) && j < |w.jobs|
    ensures Guarded(w, Judge(w, read, j, f, reg), id)
  {
    hide FailedIds, RecordEvidence;
    if w.jobs[j].endpoint == f.endpoint && w.jobs[j].status.InFlight() {
      EvidencePauses(w, j, read.rollouts[w.jobs[j].rollout], f, reg, id);
    }
  }

  lemma {:induction false} EvidenceFromPauses(w: World, read: World, j: JobId, f: HeartbeatFacts, reg: Registration,
                                              id: RolloutId)
    requires Inv(w) && Unjudged(w, read, j) && j <= |w.jobs|
    ensures Guarded(w, EvidenceFrom(w, read, j, f, reg), id)
    decreases |w.jobs| - j
  {
    hide FailedIds, Judge, AutoPaused, NeverResumed;
    if j < |w.jobs| {
      JudgeKept(w, read, j, f, reg);
      JudgePauses(w, read, j, f, reg, id);
      var judged := Judge(w, read, j, f, reg);
      EvidenceFromPauses(judged, read, j + 1, f, reg, id);
      EvidenceFromKept(judged, read, j + 1, f, reg);
      var after := EvidenceFrom(judged, read, j + 1, f, reg);
      assert RolloutEvolves(judged, after, id);
      GuardedTrans(w, judged, after, id);
    } else {
      Unchanged(w, id);
    }
  }

  lemma Unchanged(w: World, id: RolloutId)
    ensures Guarded(w, w, id)
  {
  }

  lemma DispatchPauses(w: World, e: EndpointId, deferred: bool, nonce: Nonce, id: RolloutId)
    requires w.Linked()
    ensures Guarded(w, Dispatch(w, e, deferred, nonce).0, id)
  {
    var w' := Dispatch(w, e, deferred, nonce).0;
    assert FailedIds(w'.jobs, id) == FailedIds(w.jobs, id);
  }

  lemma BeatPauses(w: World, f: HeartbeatFacts, reg: Registration, deferred: bool, nonce: Nonce, id: RolloutId)
    requires Inv(w) && nonce !in w.minted && IsNonce(nonce)
    ensures Guarded(w, Heartbeat(w, f, reg, deferred, nonce).0, id)
  {
    hide FailedIds, EvidenceFrom, Dispatch, AutoPaused, NeverResumed;
    Unchanged(w, id);
    EvidenceFromPauses(w, w, 0, f, reg, id);
    EvidenceFromKept(w, w, 0, f, reg);
    var judged := EvidenceFrom(w, w, 0, f, reg);
    DispatchKept(judged, f.endpoint, deferred, nonce);
    DispatchPauses(judged, f.endpoint, deferred, nonce, id);
    var after := Dispatch(judged, f.endpoint, deferred, nonce).0;
    assert RolloutEvolves(judged, after, id);
    GuardedTrans(w, judged, after, id);
  }

  // ── The tick ──────────────────────────────────────────────────────────────

  lemma TickRolloutNeverResumes(w: World, at: RolloutId, id: RolloutId)
    requires Inv(w) && at < |w.rollouts|
    ensures NeverResumed(w, TickRollout(w, at, w.rollouts[at]), id)
  {
    TickRolloutKept(w, at);
    if at == id && w.rollouts[id].status.Paused? {
      TimeOutKept(w, id);
    }
  }

  lemma {:induction false} TickFromNeverResumes(w: World, read: seq<Rollout>, from: RolloutId, id: RolloutId)
    requires Inv(w) && |read| == |w.rollouts| && from <= |read|
    requires forall x :: from <= x < |read| ==> read[x] == w.rollouts[x]
    ensures NeverResumed(w, TickFrom(w, read, from), id)
    decreases |read| - from
  {
    hide TickRollout;
    if from < |read| {
      TickRolloutKept(w, from);
      TickRolloutNeverResumes(w, from, id);
      TickFromNeverResumes(TickRollout(w, from, read[from]), read, from + 1, id);
    }
  }

  lemma TickPauses(w: World, id: RolloutId)
    requires Inv(w)
    ensures Guarded(w, Tick(w), id)
  {
    hide TickFrom, FailedIds;
    TickFromNeverResumes(w, w.rollouts, 0, id);
    TickKept(w);
    assert RolloutEvolves(w, Tick(w), id);
    if id < |w.rollouts| && w.rollouts[id].status.Running? {
      TickFromPauses(w, w.rollouts, 0, id);
    }
  }

  // ── Every call ────────────────────────────────────────────────────────────

  lemma StartPauses(w: World, started: RolloutId, id: RolloutId)
    requires Inv(w)
    ensures AutoPaused(w, Start(w, started), id)
  {
    hide Tick, FailedIds;
    if StartError(w, started).None? {
      StartReleases(w, started);
      var r := w.rollouts[started].(status := Running, currentBatch := FirstBatch(w, started));
      RolloutWriteKept(w, started, r);
      TickPauses(PutRollout(w, started, r), id);
    }
  }

  lemma CancelPauses(w: World, canceled: RolloutId, id: RolloutId)
    requires Inv(w)
    ensures Guarded(w, Cancel(w, canceled), id)
  {
    if CancelError(w, canceled).None? {
      CancelStopsEverything(w, canceled);
      assert FailedIds(Cancel(w, canceled).jobs, id) == FailedIds(w.jobs, id);
    }
  }

  lemma CreatePauses(w: World, input: RolloutInput, id: RolloutId)
    requires Inv(w) && Distinct(input.candidates)
    ensures Guarded(w, Create(w, input), id)
  {
    CreateKept(w, input);
    var w' := Create(w, input);
    forall j | |w.jobs| <= j < |w'.jobs| ensures w'.jobs[j].rollout >= |w.rollouts| {
      assert JobEvolves(w, w', j);
    }
    assert id < |w.rollouts| ==> FailedIds(w'.jobs, id) == FailedIds(w.jobs, id);
  }

  lemma FetchPauses(w: World, nonce: Nonce, id: RolloutId)
    requires w.Linked()
    ensures Guarded(w, Fetch(w, nonce).0, id)
  {
    assert FailedIds(Fetch(w, nonce).0.jobs, id) == FailedIds(w.jobs, id);
  }

  lemma StepPauses(w: World, a: Action, id: RolloutId)
    requires Inv(w) && Possible(w, a)
    ensures AutoPaused(w, Step(w, a), id)
    ensures a.StartRollout? || NeverResumed(w, Step(w, a), id)
  {
    hide FailedIds, Start, Cancel, Create, Heartbeat, Tick, Fetch, ReachedThreshold;
    match a
    case Wait(_) =>
    case CreateRollout(input) => CreatePauses(w, input, id);
    case StartRollout(started) => StartPauses(w, started, id);
    case PauseRollout(_) =>
    case CancelRollout(canceled) => CancelPauses(w, canceled, id);
    case CancelOneJob(j) =>
      if j < |w.jobs| && w.jobs[j].status.Unfinished() {
        PutKeepsFailed(w, j, w.jobs[j].(status := JobStatus.Canceled), id);
      }
    case MinuteTick => TickPauses(w, id);
    case Beat(f, reg, deferred, nonce) => BeatPauses(w, f, reg, deferred, nonce, id);
    case FetchInstaller(nonce) => FetchPauses(w, nonce, id);
  }

  /**
   Whatever call makes a rollout's failures reach its threshold, a heartbeat, the timer, or the tick of a
   start, the rollout is not running when the call returns; and only an operator's start sets one running.
   */
  lemma ReachingTheThresholdPauses(past: seq<Action>, a: Action, id: RolloutId)
    requires PossibleRun(EMPTY, past) && Possible(Exec(EMPTY, past), a)
    ensures
      var w := Exec(EMPTY, past);
      var w' := Step(w, a);
      id < |w.rollouts| && id < |w'.rollouts| ==>
        && (FailedIds(w'.jobs, id) != FailedIds(w.jobs, id) ==>
            ReachedThreshold(w'.rollouts[id], |FailedIds(w'.jobs, id)|) ==>
              !w'.rollouts[id].status.Running?)
        && (w'.rollouts[id].status.Running? && !w.rollouts[id].status.Running? ==> a.StartRollout?)
  {
    Reachable(past);
    StepPauses(Exec(EMPTY, past), a, id);
  }
}
