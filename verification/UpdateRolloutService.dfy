/**
 The rollout service itself, updating its two tables row by row. Every method is proved to leave the
 world exactly as the corresponding call of RolloutCalls or RolloutCreation says, so the promises proved
 about those calls are promises about these methods.
 */
module UpdateRolloutServices {
  import opened Basics
  import opened Wrappers
  import opened RolloutState
  import opened Calls = RolloutCalls
  import opened RolloutInvariants
  import opened RolloutKeeps
  import opened RolloutCreation
  import TickOutcome
  import HeartbeatOutcome
  import CreateOutcome
  import Versions

  class UpdateRolloutService {
    var rollouts: seq<Rollout>
    var jobs: seq<Job>
    var clock: Time
    ghost var trace: seq<Trace>
    ghost var minted: map<Nonce, Mint>

    ghost function State(): World
      reads this
    {
      World(rollouts, jobs, trace, minted, clock)
    }

    ghost predicate Valid()
      reads this
    {
      Inv(State())
    }

    constructor ()
      ensures Valid() && State() == EMPTY
    {
      rollouts, jobs, clock := [], [], 0;
      trace, minted := [], map[];
    }

    method PassTime(later: Time)
      requires Valid() && clock <= later
      modifies this`clock
      ensures Valid() && State() == old(State()).(now := later)
    {
      RolloutWrites.ClockKept(State(), later);
      clock := later;
    }

    method WriteJob(id: JobId, job: Job)
      requires State().Linked() && id < |jobs| && job.rollout == jobs[id].rollout
      modifies this`jobs, this`trace
      ensures State() == Calls.PutJob(old(State()), id, job)
    {
      ghost var changed := if job.status == jobs[id].status then 0 else 1;
      trace := trace[id := trace[id].(changes := trace[id].changes + changed)];
      jobs := jobs[id := job];
    }

    method Pause(id: RolloutId) returns (paused: bool)
      requires State().Linked()
      modifies this`rollouts
      ensures State() == Calls.Pause(old(State()), id)
      ensures paused <==> id < |old(rollouts)| && old(rollouts)[id].status.Running?
      ensures old(Valid()) ==> Valid() && Evolves(old(State()), State())
    {
      if Valid() {
        PauseKept(State(), id);
      }
      paused := id < |rollouts| && rollouts[id].status.Running?;
      if paused {
        rollouts := rollouts[id := rollouts[id].(status := Paused)];
      }
    }

    method CheckThreshold(id: RolloutId)
      requires State().Linked() && id < |rollouts|
      modifies this`rollouts
      ensures State() == Calls.CheckThreshold(old(State()), id)
    {
      var r := rollouts[id];
      if !r.status.Running? || r.failureThreshold <= 0 {
        return;
      }
      var failed := |FailedIds(jobs, id)|;
      if failed >= r.failureThreshold {
        var _ := Pause(id);
      }
    }

    method Fail(id: JobId)
      requires State().Linked() && id < |jobs|
      modifies this`jobs, this`trace, this`rollouts
      ensures State() == Calls.Fail(old(State()), id)
    {
      WriteJob(id, MarkedFailed(jobs[id]));
      CheckThreshold(jobs[id].rollout);
    }

    method FailAttempt(id: JobId, attempts: nat, maxAttempts: nat, backoffMinutes: nat, ghost limits: Rollout)
      requires State().Linked() && id < |jobs|
      requires limits.maxAttempts == maxAttempts && limits.backoffMinutes == backoffMinutes
      modifies this`jobs, this`trace, this`rollouts
      ensures State() == Calls.FailAttempt(old(State()), id, attempts, limits)
    {
      if attempts >= maxAttempts {
        Fail(id);
        return;
      }
      WriteJob(id, SentBack(jobs[id], attempts, backoffMinutes, clock));
    }

    method FindStale(id: RolloutId, timeoutMinutes: nat) returns (ids: seq<JobId>)
      requires State().Linked()
      ensures ids == StaleIds(State(), id, timeoutMinutes, |jobs|)
    {
      ids := [];
      for j := 0 to |jobs|
        invariant ids == StaleIds(State(), id, timeoutMinutes, j)
      {
        var job := jobs[j];
        if job.rollout == id && job.status.InFlight() && job.dispatchedAt.Some?
           && job.dispatchedAt.value < clock - timeoutMinutes * MINUTE {
          ids := ids + [j];
        }
      }
    }

    method TimeOut(id: RolloutId, read: Rollout)
      requires State().Linked() && id < |rollouts|
      modifies this`jobs, this`trace, this`rollouts
      ensures State() == Calls.TimeOut(old(State()), id, read)
    {
      var stale := FindStale(id, read.verifyTimeoutMinutes);
      var rows := jobs;
      var k := 0;
      while k < |stale|
        invariant k <= |stale| && Calls.SameRows(old(State()), State())
        invariant Calls.FailAll(State(), rows, stale[k..], read) == Calls.TimeOut(old(State()), id, read)
      {
        assert stale[k..][0] == stale[k] && stale[k..][1..] == stale[k + 1..];
        FailAttempt(stale[k], rows[stale[k]].attempts, read.maxAttempts, read.backoffMinutes, read);
        k := k + 1;
      }
    }

    /** Completes the rollout or releases its next batch, judging by the row `read` before the loop. */
    method Advance(id: RolloutId, read: Rollout)
      requires State().Linked() && id < |rollouts|
      modifies this`rollouts
      ensures State() == Calls.Advance(old(State()), id, read)
    {
      if !read.status.Running? || BatchOpen(jobs, id, read.currentBatch) {
        return;
      }
      var next := LowestRequested(jobs, id, read.currentBatch, |jobs|);
      if next.None? {
        if rollouts[id].status.Running? {
          rollouts := rollouts[id := rollouts[id].(status := Completed)];
        }
        return;
      }
      CheckThreshold(id);
      if rollouts[id].status.Running? {
        rollouts := rollouts[id := rollouts[id].(currentBatch := next.value)];
      }
    }

    method TickAll()
      requires State().Linked()
      modifies this`jobs, this`trace, this`rollouts
      ensures State() == Calls.Tick(old(State()))
    {
      hide Calls.TimeOut, Calls.Advance;
      var running := rollouts;
      var id := 0;
      while id < |running|
        invariant id <= |running| == |rollouts| && State().Linked()
        invariant Calls.TickFrom(State(), running, id) == Calls.Tick(old(State()))
      {
        var r := running[id];
        if r.status.Running? || r.status.Paused? {
          TimeOut(id, r);
          Advance(id, r);
        }
        id := id + 1;
      }
    }

    method Tick()
      requires Valid()
      modifies this`jobs, this`trace, this`rollouts
      ensures Valid() && Evolves(old(State()), State())
      ensures State() == Calls.Tick(old(State()))
      ensures TickOutcome.Ticked(old(State()), State())
    {
      TickKept(State());
      TickOutcome.TickIsTicked(State());
      TickAll();
    }

    method Start(id: RolloutId) returns (error: Option<ApiError>)
      requires Valid()
      modifies this`jobs, this`trace, this`rollouts
      ensures Valid() && Evolves(old(State()), State())
      ensures State() == Calls.Start(old(State()), id)
      ensures error == StartError(old(State()), id)
    {
      StartKept(State(), id);
      if id >= |rollouts| {
        return Some(NotFound);
      }
      var r := rollouts[id];
      if !r.status.Draft? && !r.status.Paused? {
        return Some(Conflict);
      }
      var first := if r.status.Draft? then LowestRequested(jobs, id, -1, |jobs|).GetOr(0) else r.currentBatch;
      rollouts := rollouts[id := r.(status := Running, currentBatch := first)];
      TickAll();
      return None;
    }

    method Cancel(id: RolloutId) returns (error: Option<ApiError>)
      requires Valid()
      modifies this`jobs, this`trace, this`rollouts
      ensures Valid() && Evolves(old(State()), State())
      ensures State() == Calls.Cancel(old(State()), id)
      ensures error == CancelError(old(State()), id)
    {
      CancelKept(State(), id);
      if id >= |rollouts| {
        return Some(NotFound);
      }
      if rollouts[id].status.Over() {
        return Some(Conflict);
      }
      rollouts := rollouts[id := rollouts[id].(status := RolloutStatus.Canceled)];
      var j := 0;
      while j < |jobs|
        invariant j <= |jobs| && State().Linked()
        invariant Calls.CancelJobsFrom(State(), id, j) == Calls.Cancel(old(State()), id)
      {
        if jobs[j].rollout == id && jobs[j].status.Unfinished() {
          WriteJob(j, jobs[j].(status := JobStatus.Canceled));
        }
        j := j + 1;
      }
      return None;
    }

    method CancelJob(id: JobId) returns (error: Option<ApiError>)
      requires Valid()
      modifies this`jobs, this`trace
      ensures Valid() && Evolves(old(State()), State())
      ensures State() == Calls.CancelJob(old(State()), id)
      ensures error == CancelJobError(old(State()), id)
    {
      CancelJobKept(State(), id);
      if id >= |jobs| {
        return Some(NotFound);
      }
      if !jobs[id].status.Unfinished() {
        return Some(Conflict);
      }
      WriteJob(id, jobs[id].(status := JobStatus.Canceled));
      return None;
    }

    method RecordEvidence(id: JobId, job: Job, r: Rollout, f: HeartbeatFacts, reg: Registration)
      requires State().Linked() && id < |jobs|
      modifies this`jobs, this`trace, this`rollouts
      ensures State() == Calls.RecordEvidence(old(State()), id, job, r, f, reg)
    {
      var reported := Reported(r.component, f);
      if reported.None? {
        return;
      }
      var version := reported.value;
      var cmp := Versions.Compare(version, r.target);
      if r.component.RustDesk? && cmp > 0 {
        WriteJob(id, WithVersion(jobs[id], version));
        Fail(id);
        return;
      }
      if cmp < 0 {
        if EchoesNonce(f, job) && (job.status.Installing? || job.status.Dispatched?) {
          WriteJob(id, WithVersion(jobs[id], version));
          FailAttempt(id, job.attempts, r.maxAttempts, r.backoffMinutes, r);
        }
        return;
      }
      if !job.status.AwaitingVerification? {
        WriteJob(id, OnTarget(jobs[id], version));
      }
      if reg.NotRegistered? {
        return;
      }
      WriteJob(id, Verified(jobs[id]));
    }

    method CollectEvidence(f: HeartbeatFacts, reg: Registration)
      requires State().Linked()
      modifies this`jobs, this`trace, this`rollouts
      ensures State() == Calls.EvidenceFrom(old(State()), old(State()), 0, f, reg)
    {
      hide Calls.RecordEvidence;
      var rows, parents := jobs, rollouts;
      ghost var read := State();
      var id := 0;
      while id < |rows|
        invariant id <= |rows| && Calls.SameRows(read, State())
        invariant Calls.EvidenceFrom(State(), read, id, f, reg) == Calls.EvidenceFrom(read, read, 0, f, reg)
      {
        var job := rows[id];
        if job.endpoint == f.endpoint && job.status.InFlight() {
          RecordEvidence(id, job, parents[job.rollout], f, reg);
        }
        id := id + 1;
      }
    }

    method ClaimJob(id: JobId, nonce: Nonce) returns (count: nat)
      requires State().Linked() && id < |jobs|
      modifies this`jobs, this`trace, this`minted
      ensures State() == Calls.Claim(old(State()), id, nonce)
      ensures count == if old(jobs)[id].status.Requested? then 1 else 0
    {
      var job := jobs[id];
      if !job.status.Requested? {
        return 0;
      }
      trace := trace[id := Trace(trace[id].dispatches + [clock], trace[id].nonces + [nonce], trace[id].changes + 1)];
      minted := minted[nonce := Mint(id, job.attempts)];
      jobs := jobs[id := job.(status := Dispatched, nonce := Some(nonce), dispatchedAt := Some(clock),
                              attempts := job.attempts + 1)];
      return 1;
    }

    method Dispatch(e: EndpointId, deferred: bool, nonce: Nonce) returns (reply: HeartbeatReply)
      requires State().Linked()
      modifies this`jobs, this`trace, this`minted
      ensures (State(), reply) == Calls.Dispatch(old(State()), e, deferred, nonce)
    {
      if HasInFlight(jobs, e) {
        return NOTHING;
      }
      var id := 0;
      while id < |jobs|
        invariant id <= |jobs| && State() == old(State())
        invariant FirstReady(State(), e, 0) == FirstReady(State(), e, id)
      {
        var job := jobs[id];
        if job.endpoint == e && job.status.Unfinished() {
          var r := rollouts[job.rollout];
          if Ready(job, r, clock) {
            if deferred {
              return NOTHING;
            }
            var count := ClaimJob(id, nonce);
            if count == 0 {
              return NOTHING;
            }
            return Offer(r.component, Payload(r.target, nonce));
          }
        }
        id := id + 1;
      }
      return NOTHING;
    }

    method OnHeartbeat(f: HeartbeatFacts, reg: Registration, deferred: bool, nonce: Nonce)
      returns (reply: HeartbeatReply)
      requires Valid() && nonce !in minted && IsNonce(nonce)
      modifies this`jobs, this`trace, this`minted, this`rollouts
      ensures Valid() && Evolves(old(State()), State())
      ensures (State(), reply) == Calls.Heartbeat(old(State()), f, reg, deferred, nonce)
      ensures HeartbeatOutcome.HeartbeatDone(old(State()), State(), reply, f, reg, deferred, nonce)
    {
      hide TickOutcome.Failures, HeartbeatOutcome.HeartbeatDone;
      HeartbeatKept(State(), f, reg, deferred, nonce);
      HeartbeatOutcome.HeartbeatIsDone(State(), f, reg, deferred, nonce);
      if !f.authenticated {
        return Unmanaged;
      }
      if !HasWork(jobs, f.endpoint) {
        return Unmanaged;
      }
      CollectEvidence(f, reg);
      reply := Dispatch(f.endpoint, deferred, nonce);
    }

    method InstallerFetched(nonce: Nonce) returns (pinned: Option<Pinned>)
      requires Valid()
      modifies this`jobs, this`trace
      ensures Valid() && Evolves(old(State()), State())
      ensures (State(), pinned) == Calls.Fetch(old(State()), nonce)
    {
      FetchKept(State(), nonce);
      if !IsNonce(nonce) {
        return None;
      }
      var found := FindByNonce(jobs, nonce, |jobs|);
      if found.None? || !jobs[found.value].status.InFlight() {
        return None;
      }
      var id := found.value;
      var r := rollouts[jobs[id].rollout];
      if jobs[id].status.Dispatched? {
        WriteJob(id, jobs[id].(status := Installing));
      }
      return Some(Pinned(r.target, r.sha256, r.component));
    }

    /** The rows of a new rollout, batch by batch with a running index over the computers outside the pilot. */
    method BuildJobs(input: RolloutInput, r: Rollout) returns (built: seq<Job>)
      requires State().Linked() && r.batchSize > 0
      ensures built == NewJobs(State(), input, r, |input.candidates|)
    {
      var busy := set j | 0 <= j < |jobs| && jobs[j].status.Unfinished()
                          && rollouts[jobs[j].rollout].component == r.component
                      :: jobs[j].endpoint;
      built := [];
      var idx := 0;
      for k := 0 to |input.candidates|
        invariant idx == NonPilots(input.candidates, input.pilot, k)
        invariant built == NewJobs(State(), input, r, k)
      {
        var c := input.candidates[k];
        var from := Installed(c, r.component);
        var skip :=
          c.endpoint in busy || !c.isWindows || !c.hasAgentSecret || OffersNothing(from, r.component, r.target);
        var batch := 0;
        if !IsPilot(input.pilot, c.endpoint) {
          batch := 1 + idx / r.batchSize;
          idx := idx + 1;
        }
        assert c.endpoint in busy <==> IsBusy(State(), c.endpoint, r.component);
        built := built + [Job(|rollouts|, c.endpoint, batch, if skip then Skipped else Requested,
                              0, None, None, None, None, from)];
      }
    }

    method Create(input: RolloutInput) returns (result: Result<RolloutId, ApiError>)
      requires Valid() && Distinct(input.candidates)
      modifies this`jobs, this`trace, this`rollouts
      ensures Valid() && Evolves(old(State()), State())
      ensures State() == RolloutCreation.Create(old(State()), input)
      ensures result == match CreateError(input) case Some(e) => Err(e) case None => Ok(|old(rollouts)|)
      ensures CreateOutcome.Created(old(State()), State(), input, if result.Ok? then None else Some(result.error))
    {
      hide CreateOutcome.Created;
      CreateKept(State(), input);
      CreateOutcome.CreateDoesThis(State(), input);
      var target := Versions.Trim(input.targetVersion);
      if !Versions.IsExactTag(target) {
        return Err(BadRequest);
      }
      if input.component.RustDesk? {
        if input.digest.None? && !input.allowSignatureOnly {
          return Err(BadRequest);
        }
      } else if target != input.platformVersion {
        return Err(BadRequest);
      }
      if !input.windowParses {
        return Err(BadRequest);
      }
      if input.candidates == [] {
        return Err(NotFound);
      }
      if input.pilot.UnknownGroup? {
        return Err(NotFound);
      }
      var r := NewRollout(input);
      var built := BuildJobs(input, r);
      var id := |rollouts|;
      rollouts := rollouts + [r];
      jobs := jobs + built;
      trace := trace + seq(|built|, _ => Trace([], [], 0));
      return Ok(id);
    }
  }
}
