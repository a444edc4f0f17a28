/**
 The rows the rollout engine works on, and the history its promises speak about.

 The two tables are append-only sequences, so a row's id is its index and index order is creation
 order. A `World` is the whole database plus the clock and the history of every dispatch; all times
 are milliseconds.
 */
module RolloutState {
  import opened Basics
  import opened Wrappers
  import Versions

  type RolloutId = nat
  type JobId = nat
  type EndpointId = int
  type Nonce = string

  const MINUTE: int := 60_000

  datatype Component = RustDesk | Agent

  datatype JobStatus =
    | Requested | Dispatched | Installing | AwaitingVerification
    | Succeeded | Failed | Canceled | Skipped
  {
    predicate InFlight() { Dispatched? || Installing? || AwaitingVerification? }

    predicate Unfinished() { Requested? || InFlight() }

    /** How far a dispatched job still is from its verdict. */
    function Rank(): nat {
      match this
      case Dispatched => 3
      case Installing => 2
      case AwaitingVerification => 1
      case _ => 0
    }
  }

  datatype RolloutStatus = Draft | Running | Paused | Completed | Canceled
  {
    predicate Over() { Completed? || Canceled? }
  }

  datatype Rollout = Rollout(
    component: Component,
    target: string,
    sha256: Option<string>,
    status: RolloutStatus,
    currentBatch: nat,
    batchSize: nat,
    failureThreshold: nat,
    maxAttempts: nat,
    backoffMinutes: nat,
    verifyTimeoutMinutes: nat)

  datatype Job = Job(
    rollout: RolloutId,
    endpoint: EndpointId,
    batch: nat,
    status: JobStatus,
    attempts: nat,
    nextAttemptAt: Option<Time>,
    dispatchedAt: Option<Time>,
    nonce: Option<Nonce>,
    installedVersion: Option<string>,
    fromVersion: Option<string>)

  /** What happened to one job: when it was dispatched, under which nonces, and how often its status changed. */
  datatype Trace = Trace(dispatches: seq<Time>, nonces: seq<Nonce>, changes: nat)

  /** The dispatch that minted a nonce: the `index`-th one of a job. */
  datatype Mint = Mint(job: JobId, index: nat)

  datatype World = World(
    rollouts: seq<Rollout>,
    jobs: seq<Job>,
    trace: seq<Trace>,
    minted: map<Nonce, Mint>,
    now: Time)
  {
    /** Foreign keys resolve and every job has its history. */
    ghost predicate Linked() {
      && |trace| == |jobs|
      && forall j :: 0 <= j < |jobs| ==> jobs[j].rollout < |rollouts|
    }
  }

  const EMPTY: World := World([], [], [], map[], 0)

  function Pow2(n: nat): nat { if n == 0 then 1 else 2 * Pow2(n - 1) }

  /** Minutes a job waits before its next dispatch, after `attempts` of them. */
  function RetryDelay(backoffMinutes: nat, attempts: nat): nat {
    backoffMinutes * Pow2(if attempts == 0 then 0 else attempts - 1)
  }

  /** The reported version satisfies the rollout: exact for RustDesk, at least for the agent. */
  predicate Approved(r: Rollout, version: string) {
    var cmp := Versions.Compare(version, r.target);
    if r.component.RustDesk? then cmp == 0 else cmp >= 0
  }

  // ── Queries ───────────────────────────────────────────────────────────────

  function FailedIds(jobs: seq<Job>, r: RolloutId): set<JobId> {
    set j | 0 <= j < |jobs| && jobs[j].rollout == r && jobs[j].status.Failed?
  }

  function FailedBelow(jobs: seq<Job>, r: RolloutId, batch: nat): set<JobId> {
    set j | 0 <= j < |jobs| && jobs[j].rollout == r && jobs[j].status.Failed? && jobs[j].batch < batch
  }

  function BatchIds(jobs: seq<Job>, r: RolloutId, batch: nat): set<JobId> {
    set j | 0 <= j < |jobs| && jobs[j].rollout == r && jobs[j].batch == batch
  }

  /** Some job up to and including `batch` still has no verdict. */
  predicate BatchOpen(jobs: seq<Job>, r: RolloutId, batch: nat) {
    exists j :: 0 <= j < |jobs| && jobs[j].rollout == r && jobs[j].batch <= batch && jobs[j].status.Unfinished()
  }

  predicate IsStale(w: World, r: RolloutId, timeoutMinutes: nat, j: JobId)
    requires j < |w.jobs|
  {
    var job := w.jobs[j];
    && job.rollout == r
    && job.status.InFlight()
    && job.dispatchedAt.Some?
    && job.dispatchedAt.value < w.now - timeoutMinutes * MINUTE
  }

  /** The stale jobs among the first `n`, in table order. */
  function StaleIds(w: World, r: RolloutId, timeoutMinutes: nat, n: nat): (ids: seq<JobId>)
    requires n <= |w.jobs|
    ensures forall k :: 0 <= k < |ids| ==> ids[k] < n && IsStale(w, r, timeoutMinutes, ids[k])
    ensures forall i, k :: 0 <= i < k < |ids| ==> ids[i] != ids[k]
    ensures forall j :: 0 <= j < n && IsStale(w, r, timeoutMinutes, j) ==> j in ids
  {
    if n == 0 then []
    else
      var rest := StaleIds(w, r, timeoutMinutes, n - 1);
      if IsStale(w, r, timeoutMinutes, n - 1) then rest + [n - 1] else rest
  }

  predicate WaitsAbove(jobs: seq<Job>, r: RolloutId, above: int, j: JobId)
    requires j < |jobs|
  {
    jobs[j].rollout == r && jobs[j].status.Requested? && jobs[j].batch > above
  }

  /** The lowest batch above `above` among the first `n` jobs that still has a job to hand out. */
  function LowestRequested(jobs: seq<Job>, r: RolloutId, above: int, n: nat): (lowest: Option<nat>)
    requires n <= |jobs|
    ensures lowest.None? ==> forall j :: 0 <= j < n ==> !WaitsAbove(jobs, r, above, j)
    ensures lowest.Some? ==> exists j :: 0 <= j < n && WaitsAbove(jobs, r, above, j) && jobs[j].batch == lowest.value
    ensures lowest.Some? ==> forall j :: 0 <= j < n && WaitsAbove(jobs, r, above, j) ==> lowest.value <= jobs[j].batch
  {
    if n == 0 then None
    else
      var rest := LowestRequested(jobs, r, above, n - 1);
      if !WaitsAbove(jobs, r, above, n - 1) then rest
      else if rest.Some? && rest.value <= jobs[n - 1].batch then rest
      else Some(jobs[n - 1].batch)
  }

  /** The row a nonce names. */
  function FindByNonce(jobs: seq<Job>, nonce: Nonce, n: nat): (found: Option<JobId>)
    requires n <= |jobs|
    ensures found.Some? ==> found.value < n && jobs[found.value].nonce == Some(nonce)
    ensures found.None? ==> forall j :: 0 <= j < n ==> jobs[j].nonce != Some(nonce)
  {
    if n == 0 then None
    else if jobs[n - 1].nonce == Some(nonce) then Some(n - 1)
    else FindByNonce(jobs, nonce, n - 1)
  }
}
