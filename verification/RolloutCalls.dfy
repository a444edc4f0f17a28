/**
 What each call of the rollout service does to the world, branch by branch. The class in
 UpdateRolloutService.dfy is proved against these functions; the promises are proved about them.

 The hbbs presence answer, the deferral verdict and the random nonce come from outside and are inputs.
 Creating a rollout is in RolloutCreation.dfy.
 */
module RolloutCalls {
  import opened Basics
  import opened Wrappers
  import opened RolloutState
  import Versions

  datatype ApiError = BadRequest | NotFound | Conflict

  datatype HeartbeatFacts = HeartbeatFacts(
    endpoint: EndpointId,
    authenticated: bool,
    rustdeskVersion: Option<string>,
    agentVersion: Option<string>,
    updateNonce: Option<Nonce>)

  datatype Registration = Registered | NotRegistered | Unavailable

  datatype Payload = Payload(target: string, nonce: Nonce)

  datatype HeartbeatReply =
    | Unmanaged
    | Managed(updateRustdesk: Option<Payload>, reinstallAgent: Option<Payload>)

  /** The exact build an endpoint is told to install. */
  datatype Pinned = Pinned(version: string, sha256: Option<string>, component: Component)

  const NOTHING: HeartbeatReply := Managed(None, None)

  /** The tables keep their rows and every job stays with its rollout. */
  ghost predicate SameRows(w: World, w': World) {
    && w'.Linked()
    && |w'.jobs| == |w.jobs|
    && |w'.rollouts| == |w.rollouts|
    && w'.now == w.now
    && forall j :: 0 <= j < |w.jobs| && j < |w'.jobs| ==> w'.jobs[j].rollout == w.jobs[j].rollout
  }

  // ── Single writes ─────────────────────────────────────────────────────────

  ghost function PutJob(w: World, id: JobId, job: Job): (w': World)
    requires w.Linked() && id < |w.jobs| && job.rollout == w.jobs[id].rollout
    ensures SameRows(w, w')
  {
    var changed := if job.status == w.jobs[id].status then 0 else 1;
    w.(jobs := w.jobs[id := job],
       trace := w.trace[id := w.trace[id].(changes := w.trace[id].changes + changed)])
  }

  ghost function PutRollout(w: World, id: RolloutId, r: Rollout): (w': World)
    requires w.Linked() && id < |w.rollouts|
    ensures SameRows(w, w')
  {
    w.(rollouts := w.rollouts[id := r])
  }

  /** The conditional dispatch: nothing happens unless the job is still waiting. */
  ghost function Claim(w: World, id: JobId, nonce: Nonce): (w': World)
    requires w.Linked() && id < |w.jobs|
    ensures SameRows(w, w')
  {
    var job := w.jobs[id];
    if !job.status.Requested? then w
    else
      w.(jobs := w.jobs[id := job.(status := Dispatched, nonce := Some(nonce), dispatchedAt := Some(w.now),
                                   attempts := job.attempts + 1)],
         trace := w.trace[id := Trace(w.trace[id].dispatches + [w.now], w.trace[id].nonces + [nonce],
                                      w.trace[id].changes + 1)],
         minted := w.minted[nonce := Mint(id, job.attempts)])
  }

  // ── Pausing ───────────────────────────────────────────────────────────────

  ghost function Pause(w: World, id: RolloutId): (w': World)
    requires w.Linked()
    ensures SameRows(w, w')
  {
    if id < |w.rollouts| && w.rollouts[id].status.Running?
    then PutRollout(w, id, w.rollouts[id].(status := Paused))
    else w
  }

  predicate ReachedThreshold(r: Rollout, failed: nat) {
    r.failureThreshold > 0 && failed >= r.failureThreshold
  }

  ghost function CheckThreshold(w: World, id: RolloutId): (w': World)
    requires w.Linked() && id < |w.rollouts|
    ensures SameRows(w, w')
  {
    if w.rollouts[id].status.Running? && ReachedThreshold(w.rollouts[id], |FailedIds(w.jobs, id)|)
    then Pause(w, id)
    else w
  }

  // ── Failing ───────────────────────────────────────────────────────────────

  function MarkedFailed(job: Job): Job { job.(status := Failed, nonce := None) }

  function SentBack(job: Job, attempts: nat, backoffMinutes: nat, now: Time): Job {
    job.(status := Requested, nonce := None,
         nextAttemptAt := Some(now + RetryDelay(backoffMinutes, attempts) * MINUTE))
  }

  ghost function Fail(w: World, id: JobId): (w': World)
    requires w.Linked() && id < |w.jobs|
    ensures SameRows(w, w')
  {
    CheckThreshold(PutJob(w, id, MarkedFailed(w.jobs[id])), w.jobs[id].rollout)
  }

  /** `attempts` is the counter of the row the caller read, `limits` the rollout it read. */
  ghost function FailAttempt(w: World, id: JobId, attempts: nat, limits: Rollout): (w': World)
    requires w.Linked() && id < |w.jobs|
    ensures SameRows(w, w')
  {
    if attempts >= limits.maxAttempts then Fail(w, id)
    else PutJob(w, id, SentBack(w.jobs[id], attempts, limits.backoffMinutes, w.now))
  }

  // ── The minute tick ───────────────────────────────────────────────────────

  /** Fails the listed jobs with the counters read before the loop. */
  ghost function FailAll(w: World, read: seq<Job>, ids: seq<JobId>, limits: Rollout): (w': World)
    requires w.Linked() && |read| == |w.jobs|
    requires forall k :: 0 <= k < |ids| ==> ids[k] < |w.jobs|
    ensures SameRows(w, w')
    decreases |ids|
  {
    if ids == [] then w
    else FailAll(FailAttempt(w, ids[0], read[ids[0]].attempts, limits), read, ids[1..], limits)
  }

  ghost function TimeOut(w: World, id: RolloutId, read: Rollout): (w': World)
    requires w.Linked() && id < |w.rollouts|
    ensures SameRows(w, w')
  {
    FailAll(w, w.jobs, StaleIds(w, id, read.verifyTimeoutMinutes, |w.jobs|), read)
  }

  /** Completion or the next batch, judged by the rollout row `read` at the start of the tick. */
  ghost function Advance(w: World, id: RolloutId, read: Rollout): (w': World)
    requires w.Linked() && id < |w.rollouts|
    ensures SameRows(w, w')
  {
    if !read.status.Running? then w
    else if BatchOpen(w.jobs, id, read.currentBatch) then w
    else
      var next := LowestRequested(w.jobs, id, read.currentBatch, |w.jobs|);
      if next.None? then
        if w.rollouts[id].status.Running? then PutRollout(w, id, w.rollouts[id].(status := Completed)) else w
      else
        var checked := CheckThreshold(w, id);
        if !checked.rollouts[id].status.Running? then checked
        else PutRollout(checked, id, checked.rollouts[id].(currentBatch := next.value))
  }

  ghost function TickRollout(w: World, id: RolloutId, read: Rollout): (w': World)
    requires w.Linked() && id < |w.rollouts|
    ensures SameRows(w, w')
  {
    if read.status.Running? || read.status.Paused?
    then Advance(TimeOut(w, id, read), id, read)
    else w
  }

  /** The loop of `tick` over rollout rows that were all read before it started. */
  ghost function TickFrom(w: World, read: seq<Rollout>, id: RolloutId): (w': World)
    requires w.Linked() && |read| == |w.rollouts| && id <= |read|
    ensures SameRows(w, w')
    decreases |read| - id
  {
    if id == |read| then w else TickFrom(TickRollout(w, id, read[id]), read, id + 1)
  }

  ghost function Tick(w: World): (w': World)
    requires w.Linked()
    ensures SameRows(w, w')
  {
    TickFrom(w, w.rollouts, 0)
  }

  // ── Operator calls ────────────────────────────────────────────────────────

  ghost function FirstBatch(w: World, id: RolloutId): nat
    requires id < |w.rollouts|
  {
    if w.rollouts[id].status.Draft?
    then LowestRequested(w.jobs, id, -1, |w.jobs|).GetOr(0)
    else w.rollouts[id].currentBatch
  }

  ghost function Start(w: World, id: RolloutId): (w': World)
    requires w.Linked()
    ensures SameRows(w, w')
  {
    if id < |w.rollouts| && (w.rollouts[id].status.Draft? || w.rollouts[id].status.Paused?)
    then Tick(PutRollout(w, id, w.rollouts[id].(status := Running, currentBatch := FirstBatch(w, id))))
    else w
  }

  ghost function StartError(w: World, id: RolloutId): Option<ApiError> {
    if id >= |w.rollouts| then Some(NotFound)
    else if w.rollouts[id].status.Draft? || w.rollouts[id].status.Paused? then None
    else Some(Conflict)
  }

  ghost function CancelJob(w: World, id: JobId): (w': World)
    requires w.Linked()
    ensures SameRows(w, w')
  {
    if id < |w.jobs| && w.jobs[id].status.Unfinished()
    then PutJob(w, id, w.jobs[id].(status := JobStatus.Canceled))
    else w
  }

  ghost function CancelJobError(w: World, id: JobId): Option<ApiError> {
    if id >= |w.jobs| then Some(NotFound)
    else if w.jobs[id].status.Unfinished() then None
    else Some(Conflict)
  }

  /** Cancels every unfinished job of a rollout from row `id` on. */
  ghost function CancelJobsFrom(w: World, rollout: RolloutId, id: JobId): (w': World)
    requires w.Linked() && id <= |w.jobs|
    ensures SameRows(w, w')
    decreases |w.jobs| - id
  {
    if id == |w.jobs| then w
    else CancelJobsFrom(if w.jobs[id].rollout == rollout then CancelJob(w, id) else w, rollout, id + 1)
  }

  ghost function Cancel(w: World, id: RolloutId): (w': World)
    requires w.Linked()
    ensures SameRows(w, w')
  {
    if id < |w.rollouts| && !w.rollouts[id].status.Over()
    then CancelJobsFrom(PutRollout(w, id, w.rollouts[id].(status := RolloutStatus.Canceled)), id, 0)
    else w
  }

  ghost function CancelError(w: World, id: RolloutId): Option<ApiError> {
    if id >= |w.rollouts| then Some(NotFound)
    else if w.rollouts[id].status.Over() then Some(Conflict)
    else None
  }

  // ── Heartbeats ────────────────────────────────────────────────────────────

  function Reported(c: Component, f: HeartbeatFacts): Option<string> {
    var v := if c.RustDesk? then f.rustdeskVersion else f.agentVersion;
    if v == Some("") then None else v
  }

  predicate EchoesNonce(f: HeartbeatFacts, job: Job) {
    f.updateNonce.Some? && f.updateNonce.value != "" && f.updateNonce == job.nonce
  }

  function WithVersion(job: Job, version: string): Job { job.(installedVersion := Some(version)) }

  function OnTarget(job: Job, version: string): Job {
    job.(status := AwaitingVerification, installedVersion := Some(version))
  }

  function Verified(job: Job): Job { job.(status := Succeeded, nonce := None) }

  /**
   A heartbeat on the approved version: the row read as `job` awaits verification, then succeeds unless
   hbbs says no.
   */
  ghost function Confirm(w: World, id: JobId, job: Job, version: string, reg: Registration): (w': World)
    requires w.Linked() && id < |w.jobs|
    ensures SameRows(w, w')
  {
    var seen := if job.status.AwaitingVerification? then w else PutJob(w, id, OnTarget(w.jobs[id], version));
    if reg.NotRegistered? then seen else PutJob(seen, id, Verified(seen.jobs[id]))
  }

  /** Judges one in-flight job by the row `job` and the rollout `r` read at the start of the heartbeat. */
  ghost function RecordEvidence(w: World, id: JobId, job: Job, r: Rollout, f: HeartbeatFacts, reg: Registration)
    : (w': World)
    requires w.Linked() && id < |w.jobs|
    ensures SameRows(w, w')
  {
    var reported := Reported(r.component, f);
    if reported.None? then w
    else
      var version := reported.value;
      var cmp := Versions.Compare(version, r.target);
      if r.component.RustDesk? && cmp > 0 then
        Fail(PutJob(w, id, WithVersion(w.jobs[id], version)), id)
      else if cmp < 0 then
        if EchoesNonce(f, job) && (job.status.Installing? || job.status.Dispatched?)
        then FailAttempt(PutJob(w, id, WithVersion(w.jobs[id], version)), id, job.attempts, r)
        else w
      else
        Confirm(w, id, job, version, reg)
  }

  /** Row `id` in the evidence loop: judged if it was in flight on this endpoint when read. */
  ghost function Judge(w: World, read: World, id: JobId, f: HeartbeatFacts, reg: Registration): (w': World)
    requires w.Linked() && read.Linked() && id < |w.jobs| && id < |read.jobs|
    ensures SameRows(w, w')
  {
    var job := read.jobs[id];
    if job.endpoint == f.endpoint && job.status.InFlight()
    then RecordEvidence(w, id, job, read.rollouts[job.rollout], f, reg)
    else w
  }

  /** The evidence loop, over the rows of `read` from `id` on. */
  ghost function EvidenceFrom(w: World, read: World, id: JobId, f: HeartbeatFacts, reg: Registration): (w': World)
    requires w.Linked() && read.Linked() && |read.jobs| == |w.jobs| && id <= |w.jobs|
    ensures SameRows(w, w')
    decreases |w.jobs| - id
  {
    if id == |w.jobs| then w
    else EvidenceFrom(Judge(w, read, id, f, reg), read, id + 1, f, reg)
  }

  predicate HasWork(jobs: seq<Job>, e: EndpointId) {
    exists j :: 0 <= j < |jobs| && jobs[j].endpoint == e && jobs[j].status.Unfinished()
  }

  predicate HasInFlight(jobs: seq<Job>, e: EndpointId) {
    exists j :: 0 <= j < |jobs| && jobs[j].endpoint == e && jobs[j].status.InFlight()
  }

  /** Released by its rollout, its batch and its backoff. */
  predicate Ready(job: Job, r: Rollout, now: Time) {
    && r.status.Running?
    && job.batch <= r.currentBatch
    && !(job.nextAttemptAt.Some? && job.nextAttemptAt.value > now)
  }

  predicate Eligible(w: World, e: EndpointId, j: JobId)
    requires j < |w.jobs| && w.jobs[j].rollout < |w.rollouts|
  {
    var job := w.jobs[j];
    job.endpoint == e && job.status.Unfinished() && Ready(job, w.rollouts[job.rollout], w.now)
  }

  /** The oldest released job of an endpoint, from row `id` on. */
  ghost function FirstReady(w: World, e: EndpointId, id: JobId): (first: Option<JobId>)
    requires w.Linked() && id <= |w.jobs|
    ensures first.Some? ==> id <= first.value < |w.jobs| && Eligible(w, e, first.value)
    ensures first.Some? ==> forall j :: id <= j < first.value ==> !Eligible(w, e, j)
    ensures first.None? ==> forall j :: id <= j < |w.jobs| ==> !Eligible(w, e, j)
    decreases |w.jobs| - id
  {
    if id == |w.jobs| then None
    else if Eligible(w, e, id) then Some(id)
    else FirstReady(w, e, id + 1)
  }

  function Offer(component: Component, payload: Payload): HeartbeatReply {
    if component.RustDesk? then Managed(Some(payload), None) else Managed(None, Some(payload))
  }

  ghost function Dispatch(w: World, e: EndpointId, deferred: bool, nonce: Nonce): (r: (World, HeartbeatReply))
    requires w.Linked()
    ensures SameRows(w, r.0)
  {
    if HasInFlight(w.jobs, e) then (w, NOTHING)
    else
      var first := FirstReady(w, e, 0);
      if first.None? || deferred || !w.jobs[first.value].status.Requested? then (w, NOTHING)
      else
        var r := w.rollouts[w.jobs[first.value].rollout];
        (Claim(w, first.value, nonce), Offer(r.component, Payload(r.target, nonce)))
  }

  ghost function Heartbeat(w: World, f: HeartbeatFacts, reg: Registration, deferred: bool, nonce: Nonce)
    : (r: (World, HeartbeatReply))
    requires w.Linked()
    ensures SameRows(w, r.0)
  {
    if !f.authenticated || !HasWork(w.jobs, f.endpoint) then (w, Unmanaged)
    else Dispatch(EvidenceFrom(w, w, 0, f, reg), f.endpoint, deferred, nonce)
  }

  // ── The installer download ────────────────────────────────────────────────

  predicate IsNonceChar(c: char) { 'A' <= c <= 'Z' || 'a' <= c <= 'z' || '0' <= c <= '9' || c == '_' || c == '-' }

  predicate IsNonce(s: string) { 16 <= |s| <= 64 && forall i :: 0 <= i < |s| ==> IsNonceChar(s[i]) }

  ghost function LiveJob(w: World, nonce: Nonce): (j: Option<JobId>)
    ensures j.Some? ==> j.value < |w.jobs| && w.jobs[j.value].nonce == Some(nonce) && w.jobs[j.value].status.InFlight()
  {
    if !IsNonce(nonce) then None
    else
      var found := FindByNonce(w.jobs, nonce, |w.jobs|);
      if found.Some? && w.jobs[found.value].status.InFlight() then found else None
  }

  ghost function Fetch(w: World, nonce: Nonce): (r: (World, Option<Pinned>))
    requires w.Linked()
    ensures SameRows(w, r.0)
  {
    var live := LiveJob(w, nonce);
    if live.None? then (w, None)
    else
      var job := w.jobs[live.value];
      var r := w.rollouts[job.rollout];
      (if job.status.Dispatched? then PutJob(w, live.value, job.(status := Installing)) else w,
       Some(Pinned(r.target, r.sha256, r.component)))
  }
}
