/** Every call of the service keeps the invariant and is a legal evolution. */
module RolloutKeeps {
  import opened Wrappers
  import opened RolloutState
  import opened RolloutCalls
  import opened RolloutInvariants
  import opened RolloutWrites
  import Versions

  // ── What a call leaves alone ──────────────────────────────────────────────

  ghost predicate MayPause(r: Rollout, r': Rollout) {
    r' == r || (r.status.Running? && r' == r.(status := Paused))
  }

  /** Only job `id` changed, and at most its rollout was paused. */
  ghost predicate OnlyJob(w: World, w': World, id: JobId)
    requires w.Linked() && id < |w.jobs| && SameRows(w, w')
  {
    && w'.minted == w.minted
    && (forall j :: 0 <= j < |w.jobs| && j != id ==> w'.jobs[j] == w.jobs[j] && w'.trace[j] == w.trace[j])
    && (forall x :: 0 <= x < |w.rollouts| && x != w.jobs[id].rollout ==> w'.rollouts[x] == w.rollouts[x])
    && MayPause(w.rollouts[w.jobs[id].rollout], w'.rollouts[w.jobs[id].rollout])
  }

  /** Only rollout `id` and its jobs changed. */
  ghost predicate OnlyRollout(w: World, w': World, id: RolloutId)
    requires w.Linked() && SameRows(w, w')
  {
    && w'.minted == w.minted
    && (forall j :: 0 <= j < |w.jobs| && w.jobs[j].rollout != id ==>
          w'.jobs[j] == w.jobs[j] && w'.trace[j] == w.trace[j])
    && (forall x :: 0 <= x < |w.rollouts| && x != id ==> w'.rollouts[x] == w.rollouts[x])
  }

  // ── Pausing ───────────────────────────────────────────────────────────────

  lemma PauseKept(w: World, id: RolloutId)
    requires Inv(w)
    ensures Kept(w, Pause(w, id))
  {
    if id < |w.rollouts| && w.rollouts[id].status.Running? {
      var r := w.rollouts[id].(status := Paused);
      assert FewFailuresBelow(w, id);
      forall j | 0 <= j < |w.jobs| && w.jobs[j].rollout == id ensures InOrder(r, w.jobs[j]) {
        assert JobOk(w, j);
      }
      RolloutWriteKept(w, id, r);
    } else {
      EvolvesRefl(w);
    }
  }

  lemma CheckThresholdKept(w: World, id: RolloutId)
    requires Inv(w) && id < |w.rollouts|
    ensures Kept(w, CheckThreshold(w, id))
  {
    PauseKept(w, id);
    EvolvesRefl(w);
  }

  // ── Failing ───────────────────────────────────────────────────────────────

  /** Two writes of one row, the first of which leaves the status alone, are one write. */
  lemma PutTwice(w: World, id: JobId, first: Job, second: Job)
    requires w.Linked() && id < |w.jobs|
    requires first.rollout == second.rollout == w.jobs[id].rollout && first.status == w.jobs[id].status
    ensures PutJob(PutJob(w, id, first), id, second) == PutJob(w, id, second)
  {
    assert PutJob(PutJob(w, id, first), id, second).trace == PutJob(w, id, second).trace;
    assert PutJob(PutJob(w, id, first), id, second).jobs == PutJob(w, id, second).jobs;
  }

  lemma PutSame(w: World, id: JobId)
    requires w.Linked() && id < |w.jobs|
    ensures PutJob(w, id, w.jobs[id]) == w
  {
    assert PutJob(w, id, w.jobs[id]).trace == w.trace;
    assert PutJob(w, id, w.jobs[id]).jobs == w.jobs;
  }

  /** `noted` is the row, possibly with a newly reported version. */
  ghost predicate Noted(job: Job, noted: Job) { noted == job.(installedVersion := noted.installedVersion) }

  lemma FailKept(w: World, id: JobId, noted: Job)
    requires Inv(w) && id < |w.jobs| && w.jobs[id].status.InFlight() && Noted(w.jobs[id], noted)
    ensures Kept(w, Fail(PutJob(w, id, noted), id))
    ensures OnlyJob(w, Fail(PutJob(w, id, noted), id), id)
    ensures Fail(PutJob(w, id, noted), id).jobs[id] == MarkedFailed(noted)
  {
    PutTwice(w, id, noted, MarkedFailed(noted));
    JobWriteKept(w, id, MarkedFailed(noted));
    var failed := PutJob(w, id, MarkedFailed(noted));
    CheckThresholdKept(failed, w.jobs[id].rollout);
    KeptTrans(w, failed, CheckThreshold(failed, w.jobs[id].rollout));
  }

  lemma FailAttemptKept(w: World, id: JobId, noted: Job, limits: Rollout)
    requires Inv(w) && id < |w.jobs| && w.jobs[id].status.InFlight() && Noted(w.jobs[id], noted)
    requires Config(limits) == Config(w.rollouts[w.jobs[id].rollout])
    ensures var w' := FailAttempt(PutJob(w, id, noted), id, noted.attempts, limits);
            && Kept(w, w') && OnlyJob(w, w', id) && !w'.jobs[id].status.InFlight()
  {
    if noted.attempts >= limits.maxAttempts {
      FailKept(w, id, noted);
    } else {
      var back := SentBack(noted, noted.attempts, limits.backoffMinutes, w.now);
      PutTwice(w, id, noted, back);
      JobWriteKept(w, id, back);
    }
  }

  // ── The tick ──────────────────────────────────────────────────────────────

  /** The listed jobs are in flight, distinct, and still as they were read. */
  ghost predicate AsRead(w: World, id: RolloutId, read: seq<Job>, ids: seq<JobId>, limits: Rollout)
    requires w.Linked()
  {
    && id < |w.rollouts| && |read| == |w.jobs|
    && Config(limits) == Config(w.rollouts[id])
    && (forall k :: 0 <= k < |ids| ==>
          ids[k] < |w.jobs| && w.jobs[ids[k]] == read[ids[k]]
          && w.jobs[ids[k]].rollout == id && w.jobs[ids[k]].status.InFlight())
    && (forall i, k :: 0 <= i < k < |ids| ==> ids[i] != ids[k])
  }

  /** The first job settles in the first round, the others in the rest of the loop. */
  lemma SettledByOne(next: World, w': World, ids: seq<JobId>)
    requires ids != [] && |w'.jobs| == |next.jobs|
    requires forall k :: 0 <= k < |ids| ==> ids[k] < |w'.jobs|
    requires forall i, k :: 0 <= i < k < |ids| ==> ids[i] != ids[k]
    requires !next.jobs[ids[0]].status.InFlight()
    requires forall k :: 0 <= k < |ids[1..]| ==> !w'.jobs[ids[1..][k]].status.InFlight()
    requires forall j :: 0 <= j < |w'.jobs| && j !in ids[1..] ==> w'.jobs[j] == next.jobs[j]
    ensures forall k :: 0 <= k < |ids| ==> !w'.jobs[ids[k]].status.InFlight()
  {
    forall k | 0 <= k < |ids| ensures !w'.jobs[ids[k]].status.InFlight() {
      if k > 0 {
        assert ids[1..][k - 1] == ids[k];
      } else {
        assert ids[0] !in ids[1..];
      }
    }
  }

  lemma {:induction false} FailAllKept(w: World, id: RolloutId, read: seq<Job>, ids: seq<JobId>, limits: Rollout)
    requires Inv(w) && AsRead(w, id, read, ids, limits)
    ensures var w' := FailAll(w, read, ids, limits);
            && Kept(w, w')
            && OnlyRollout(w, w', id)
            && MayPause(w.rollouts[id], w'.rollouts[id])
            && (forall k :: 0 <= k < |ids| ==> !w'.jobs[ids[k]].status.InFlight())
            && (forall j :: 0 <= j < |w.jobs| && j !in ids ==> w'.jobs[j] == w.jobs[j] && w'.trace[j] == w.trace[j])
    decreases |ids|
  {
    hide FailAttempt;
    if ids == [] {
      EvolvesRefl(w);
    } else {
      PutSame(w, ids[0]);
      FailAttemptKept(w, ids[0], w.jobs[ids[0]], limits);
      var next := FailAttempt(w, ids[0], read[ids[0]].attempts, limits);
      FailAllKept(next, id, read, ids[1..], limits);
      KeptTrans(w, next, FailAll(next, read, ids[1..], limits));
      var w' := FailAll(w, read, ids, limits);
      assert w' == FailAll(next, read, ids[1..], limits);
      SettledByOne(next, w', ids);
    }
  }

  ghost predicate NothingStale(w: World, id: RolloutId, timeoutMinutes: nat) {
    forall j :: 0 <= j < |w.jobs| ==> !IsStale(w, id, timeoutMinutes, j)
  }

  lemma TimeOutKept(w: World, id: RolloutId)
    requires Inv(w) && id < |w.rollouts|
    ensures var w' := TimeOut(w, id, w.rollouts[id]);
            && Kept(w, w')
            && OnlyRollout(w, w', id)
            && MayPause(w.rollouts[id], w'.rollouts[id])
            && NothingStale(w', id, w.rollouts[id].verifyTimeoutMinutes)
  {
    var ids := StaleIds(w, id, w.rollouts[id].verifyTimeoutMinutes, |w.jobs|);
    FailAllKept(w, id, w.jobs, ids, w.rollouts[id]);
    var w' := TimeOut(w, id, w.rollouts[id]);
    forall j | 0 <= j < |w.jobs| ensures !IsStale(w', id, w.rollouts[id].verifyTimeoutMinutes, j) {
      if j in ids {
        var k :| 0 <= k < |ids| && ids[k] == j;
      } else {
        assert !IsStale(w, id, w.rollouts[id].verifyTimeoutMinutes, j);
      }
    }
  }

  lemma CompletionReleases(w: World, id: RolloutId)
    requires Inv(w) && id < |w.rollouts| && w.rollouts[id].status.Running?
    requires !BatchOpen(w.jobs, id, w.rollouts[id].currentBatch)
    requires LowestRequested(w.jobs, id, w.rollouts[id].currentBatch, |w.jobs|).None?
    ensures Release(w, id, w.rollouts[id].(status := Completed))
  {
    var r := w.rollouts[id].(status := Completed);
    assert FewFailuresBelow(w, id);
    forall j | 0 <= j < |w.jobs| && w.jobs[j].rollout == id ensures InOrder(r, w.jobs[j]) {
      assert JobOk(w, j);
      assert !WaitsAbove(w.jobs, id, w.rollouts[id].currentBatch, j);
    }
  }

  lemma NextBatchReleases(w: World, id: RolloutId, batch: nat)
    requires Inv(w) && id < |w.rollouts| && w.rollouts[id].status.Running?
    requires !BatchOpen(w.jobs, id, w.rollouts[id].currentBatch)
    requires LowestRequested(w.jobs, id, w.rollouts[id].currentBatch, |w.jobs|) == Some(batch)
    requires !ReachedThreshold(w.rollouts[id], |FailedIds(w.jobs, id)|)
    ensures Release(w, id, w.rollouts[id].(currentBatch := batch))
  {
    var r := w.rollouts[id].(currentBatch := batch);
    forall j | 0 <= j < |w.jobs| && w.jobs[j].rollout == id ensures InOrder(r, w.jobs[j]) {
      assert JobOk(w, j);
      assert WaitsAbove(w.jobs, id, w.rollouts[id].currentBatch, j) ==> batch <= w.jobs[j].batch;
    }
    CardinalityMonotone(FailedBelow(w.jobs, id, batch), FailedIds(w.jobs, id));
  }

  lemma AdvanceKept(w: World, id: RolloutId, read: Rollout)
    requires Inv(w) && id < |w.rollouts|
    requires MayPause(read, w.rollouts[id])
    ensures Kept(w, Advance(w, id, read))
    ensures OnlyRollout(w, Advance(w, id, read), id)
    ensures Advance(w, id, read).jobs == w.jobs
  {
    EvolvesRefl(w);
    CheckThresholdKept(w, id);
    if read.status.Running? && !BatchOpen(w.jobs, id, read.currentBatch) {
      var next := LowestRequested(w.jobs, id, read.currentBatch, |w.jobs|);
      if next.None? {
        if w.rollouts[id].status.Running? {
          CompletionReleases(w, id);
          RolloutWriteKept(w, id, w.rollouts[id].(status := Completed));
        }
      } else if CheckThreshold(w, id).rollouts[id].status.Running? {
        NextBatchReleases(w, id, next.value);
        RolloutWriteKept(w, id, w.rollouts[id].(currentBatch := next.value));
      }
    }
  }

  lemma TickRolloutKept(w: World, id: RolloutId)
    requires Inv(w) && id < |w.rollouts|
    ensures Kept(w, TickRollout(w, id, w.rollouts[id]))
    ensures OnlyRollout(w, TickRollout(w, id, w.rollouts[id]), id)
  {
    var read := w.rollouts[id];
    if read.status.Running? || read.status.Paused? {
      var timed := TimeOut(w, id, read);
      TimeOutKept(w, id);
      AdvanceKept(timed, id, read);
      KeptTrans(w, timed, Advance(timed, id, read));
    } else {
      EvolvesRefl(w);
    }
  }

  lemma {:induction false} TickFromKept(w: World, read: seq<Rollout>, id: RolloutId)
    requires Inv(w) && |read| == |w.rollouts| && id <= |read|
    requires forall x :: id <= x < |read| ==> read[x] == w.rollouts[x]
    ensures Kept(w, TickFrom(w, read, id))
    ensures TickFrom(w, read, id).minted == w.minted
    decreases |read| - id
  {
    if id == |read| {
      EvolvesRefl(w);
    } else {
      TickRolloutKept(w, id);
      var next := TickRollout(w, id, read[id]);
      TickFromKept(next, read, id + 1);
      KeptTrans(w, next, TickFrom(next, read, id + 1));
    }
  }

  lemma TickKept(w: World)
    requires Inv(w)
    ensures Kept(w, Tick(w))
  {
    TickFromKept(w, w.rollouts, 0);
  }

  // ── Operators ─────────────────────────────────────────────────────────────

  lemma DraftHasNoFailures(w: World, id: RolloutId, batch: nat)
    requires Inv(w) && id < |w.rollouts| && w.rollouts[id].status.Draft?
    ensures FailedBelow(w.jobs, id, batch) == {}
  {
    forall j | 0 <= j < |w.jobs| && w.jobs[j].rollout == id ensures !w.jobs[j].status.Failed? {
      assert JobOk(w, j);
    }
  }

  lemma StartReleases(w: World, id: RolloutId)
    requires Inv(w) && id < |w.rollouts| && (w.rollouts[id].status.Draft? || w.rollouts[id].status.Paused?)
    ensures Release(w, id, w.rollouts[id].(status := Running, currentBatch := FirstBatch(w, id)))
  {
    var first := FirstBatch(w, id);
    var r := w.rollouts[id].(status := Running, currentBatch := first);
    assert FewFailuresBelow(w, id);
    if w.rollouts[id].status.Draft? {
      DraftHasNoFailures(w, id, first);
    }
    forall j | 0 <= j < |w.jobs| && w.jobs[j].rollout == id ensures InOrder(r, w.jobs[j]) {
      assert JobOk(w, j);
      assert w.rollouts[id].status.Draft? && WaitsAbove(w.jobs, id, -1, j) ==> first <= w.jobs[j].batch;
    }
  }

  lemma StartKept(w: World, id: RolloutId)
    requires Inv(w)
    ensures Kept(w, Start(w, id))
  {
    if StartError(w, id).None? {
      StartReleases(w, id);
      var r := w.rollouts[id].(status := Running, currentBatch := FirstBatch(w, id));
      RolloutWriteKept(w, id, r);
      TickKept(PutRollout(w, id, r));
      KeptTrans(w, PutRollout(w, id, r), Start(w, id));
    } else {
      EvolvesRefl(w);
    }
  }

  lemma CancelJobKept(w: World, id: JobId)
    requires Inv(w)
    ensures Kept(w, CancelJob(w, id))
  {
    if id < |w.jobs| && w.jobs[id].status.Unfinished() {
      JobWriteKept(w, id, w.jobs[id].(status := JobStatus.Canceled));
    } else {
      EvolvesRefl(w);
    }
  }

  function Stopped(job: Job): Job {
    if job.status.Unfinished() then job.(status := JobStatus.Canceled) else job
  }

  lemma {:induction false} CancelJobsKept(w: World, rollout: RolloutId, id: JobId)
    requires Inv(w) && id <= |w.jobs|
    ensures var w' := CancelJobsFrom(w, rollout, id);
            && Kept(w, w')
            && w'.rollouts == w.rollouts
            && w'.minted == w.minted
            && (forall j :: 0 <= j < |w.jobs| && (j < id || w.jobs[j].rollout != rollout) ==> w'.jobs[j] == w.jobs[j])
            && (forall j :: id <= j < |w.jobs| && w.jobs[j].rollout == rollout ==> w'.jobs[j] == Stopped(w.jobs[j]))
    decreases |w.jobs| - id
  {
    if id == |w.jobs| {
      EvolvesRefl(w);
    } else {
      var next := if w.jobs[id].rollout == rollout then CancelJob(w, id) else w;
      CancelJobKept(w, id);
      EvolvesRefl(w);
      CancelJobsKept(next, rollout, id + 1);
      KeptTrans(w, next, CancelJobsFrom(next, rollout, id + 1));
    }
  }

  /** The rollout row and the job rows are separate writes, so their order does not matter. */
  lemma {:induction false} CancelJobsCommutes(w: World, rollout: RolloutId, r: Rollout, id: JobId)
    requires w.Linked() && id <= |w.jobs| && rollout < |w.rollouts|
    ensures CancelJobsFrom(PutRollout(w, rollout, r), rollout, id) ==
            PutRollout(CancelJobsFrom(w, rollout, id), rollout, r)
    decreases |w.jobs| - id
  {
    if id < |w.jobs| {
      var next := if w.jobs[id].rollout == rollout then CancelJob(w, id) else w;
      CancelJobsCommutes(next, rollout, r, id + 1);
      var put := PutRollout(w, rollout, r);
      assert (if put.jobs[id].rollout == rollout then CancelJob(put, id) else put) == PutRollout(next, rollout, r);
    }
  }

  lemma CancelKept(w: World, id: RolloutId)
    requires Inv(w)
    ensures Kept(w, Cancel(w, id))
  {
    if CancelError(w, id).None? {
      var r := w.rollouts[id].(status := RolloutStatus.Canceled);
      CancelJobsCommutes(w, id, r, 0);
      CancelJobsKept(w, id, 0);
      var stopped := CancelJobsFrom(w, id, 0);
      assert FewFailuresBelow(stopped, id);
      forall j | 0 <= j < |stopped.jobs| && stopped.jobs[j].rollout == id ensures InOrder(r, stopped.jobs[j]) {
        assert JobOk(stopped, j);
      }
      RolloutWriteKept(stopped, id, r);
      KeptTrans(w, stopped, PutRollout(stopped, id, r));
    } else {
      EvolvesRefl(w);
    }
  }

  /** Canceling a rollout stops exactly its unfinished jobs and leaves everything else alone. */
  lemma CancelStopsEverything(w: World, id: RolloutId)
    requires Inv(w) && CancelError(w, id).None?
    ensures
      var w' := Cancel(w, id);
      && w'.rollouts == w.rollouts[id := w.rollouts[id].(status := RolloutStatus.Canceled)]
      && |w'.jobs| == |w.jobs| && w'.minted == w.minted
      && forall j :: 0 <= j < |w.jobs| ==>
           w'.jobs[j] == if w.jobs[j].rollout == id then Stopped(w.jobs[j]) else w.jobs[j]
  {
    CancelJobsCommutes(w, id, w.rollouts[id].(status := RolloutStatus.Canceled), 0);
    CancelJobsKept(w, id, 0);
  }

  // ── Heartbeats ────────────────────────────────────────────────────────────

  lemma ConfirmKept(w: World, id: JobId, version: string, reg: Registration)
    requires Inv(w) && id < |w.jobs| && w.jobs[id].status.InFlight()
    requires Approved(w.rollouts[w.jobs[id].rollout], version)
    ensures Kept(w, Confirm(w, id, w.jobs[id], version, reg))
    ensures OnlyJob(w, Confirm(w, id, w.jobs[id], version, reg), id)
  {
    EvolvesRefl(w);
    var seen := if w.jobs[id].status.AwaitingVerification? then w else PutJob(w, id, OnTarget(w.jobs[id], version));
    if !w.jobs[id].status.AwaitingVerification? {
      JobWriteKept(w, id, OnTarget(w.jobs[id], version));
    }
    if !reg.NotRegistered? {
      JobWriteKept(seen, id, Verified(seen.jobs[id]));
      KeptTrans(w, seen, PutJob(seen, id, Verified(seen.jobs[id])));
    }
  }

  lemma EvidenceKept(w: World, id: JobId, r: Rollout, f: HeartbeatFacts, reg: Registration)
    requires Inv(w) && id < |w.jobs| && w.jobs[id].status.InFlight()
    requires Config(r) == Config(w.rollouts[w.jobs[id].rollout])
    ensures Kept(w, RecordEvidence(w, id, w.jobs[id], r, f, reg))
    ensures OnlyJob(w, RecordEvidence(w, id, w.jobs[id], r, f, reg), id)
  {
    EvolvesRefl(w);
    var reported := Reported(r.component, f);
    if reported.Some? {
      var version := reported.value;
      var cmp := Versions.Compare(version, r.target);
      var noted := WithVersion(w.jobs[id], version);
      if r.component.RustDesk? && cmp > 0 {
        FailKept(w, id, noted);
      } else if cmp < 0 {
        FailAttemptKept(w, id, noted, r);
      } else {
        ConfirmKept(w, id, version, reg);
      }
    }
  }

  /** Rows not yet judged are as they were read, and no configuration moved. */
  ghost predicate Unjudged(w: World, read: World, id: JobId) {
    && w.Linked() && read.Linked()
    && |read.jobs| == |w.jobs| && |read.rollouts| == |w.rollouts|
    && (forall j :: id <= j < |w.jobs| ==> w.jobs[j] == read.jobs[j])
    && (forall x :: 0 <= x < |w.rollouts| ==> Config(w.rollouts[x]) == Config(read.rollouts[x]))
  }

  lemma JudgeKept(w: World, read: World, id: JobId, f: HeartbeatFacts, reg: Registration)
    requires Inv(w) && Unjudged(w, read, id) && id < |w.jobs|
    ensures Kept(w, Judge(w, read, id, f, reg))
    ensures Judge(w, read, id, f, reg).minted == w.minted
    ensures Unjudged(Judge(w, read, id, f, reg), read, id + 1)
  {
    EvolvesRefl(w);
    if read.jobs[id].endpoint == f.endpoint && read.jobs[id].status.InFlight() {
      EvidenceKept(w, id, read.rollouts[w.jobs[id].rollout], f, reg);
      OnlyJobUnjudged(w, Judge(w, read, id, f, reg), read, id);
    }
  }

  lemma OnlyJobUnjudged(w: World, w': World, read: World, id: JobId)
    requires Unjudged(w, read, id) && id < |w.jobs| && SameRows(w, w') && OnlyJob(w, w', id)
    ensures Unjudged(w', read, id + 1)
  {
    forall x | 0 <= x < |w.rollouts| ensures Config(w'.rollouts[x]) == Config(read.rollouts[x]) {
      assert MayPause(w.rollouts[x], w'.rollouts[x]);
    }
  }

  lemma {:induction false} EvidenceFromKept(w: World, read: World, id: JobId, f: HeartbeatFacts, reg: Registration)
    requires Inv(w) && Unjudged(w, read, id) && id <= |w.jobs|
    ensures Kept(w, EvidenceFrom(w, read, id, f, reg))
    ensures EvidenceFrom(w, read, id, f, reg).minted == w.minted
    decreases |w.jobs| - id
  {
    if id == |w.jobs| {
      EvolvesRefl(w);
    } else {
      JudgeKept(w, read, id, f, reg);
      var judged := Judge(w, read, id, f, reg);
      EvidenceFromKept(judged, read, id + 1, f, reg);
      KeptTrans(w, judged, EvidenceFrom(judged, read, id + 1, f, reg));
    }
  }

  lemma DispatchKept(w: World, e: EndpointId, deferred: bool, nonce: Nonce)
    requires Inv(w) && nonce !in w.minted && IsNonce(nonce)
    ensures Kept(w, Dispatch(w, e, deferred, nonce).0)
  {
    EvolvesRefl(w);
    if !HasInFlight(w.jobs, e) {
      var first := FirstReady(w, e, 0);
      if first.Some? && !deferred && w.jobs[first.value].status.Requested? {
        ClaimKept(w, first.value, nonce);
      }
    }
  }

  lemma HeartbeatKept(w: World, f: HeartbeatFacts, reg: Registration, deferred: bool, nonce: Nonce)
    requires Inv(w) && nonce !in w.minted && IsNonce(nonce)
    ensures Kept(w, Heartbeat(w, f, reg, deferred, nonce).0)
  {
    if !f.authenticated || !HasWork(w.jobs, f.endpoint) {
      EvolvesRefl(w);
    } else {
      EvidenceFromKept(w, w, 0, f, reg);
      var judged := EvidenceFrom(w, w, 0, f, reg);
      DispatchKept(judged, f.endpoint, deferred, nonce);
      KeptTrans(w, judged, Dispatch(judged, f.endpoint, deferred, nonce).0);
    }
  }

  lemma FetchKept(w: World, nonce: Nonce)
    requires Inv(w)
    ensures Kept(w, Fetch(w, nonce).0)
  {
    EvolvesRefl(w);
    var live := LiveJob(w, nonce);
    if live.Some? && w.jobs[live.value].status.Dispatched? {
      JobWriteKept(w, live.value, w.jobs[live.value].(status := Installing));
    }
  }
}
