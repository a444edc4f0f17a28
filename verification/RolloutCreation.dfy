/**
 Creating a rollout: which jobs it gets, in which batches, and that it fits among the others. The GitHub
 digest and the endpoint query are inputs.
 */
module RolloutCreation {
  import opened Wrappers
  import opened RolloutState
  import opened RolloutCalls
  import opened RolloutInvariants
  import opened RolloutWrites
  import Versions

  /** One row of the endpoint query, as far as `create` looks at it. */
  datatype Candidate = Candidate(
    endpoint: EndpointId,
    isWindows: bool,
    hasAgentSecret: bool,
    rustdeskVersion: Option<string>,
    agentVersion: Option<string>)

  datatype PilotChoice = NoPilot | UnknownGroup | Members(ids: set<EndpointId>)

  datatype RolloutInput = RolloutInput(
    component: Component,
    targetVersion: string,
    digest: Option<string>,
    allowSignatureOnly: bool,
    platformVersion: string,
    windowParses: bool,
    candidates: seq<Candidate>,
    pilot: PilotChoice,
    batchSize: Option<int>,
    failureThreshold: Option<int>,
    maxAttempts: Option<int>,
    backoffMinutes: Option<int>,
    verifyTimeoutMinutes: Option<int>)

  function Clamp(lo: nat, hi: nat, value: int): (r: nat)
    requires lo <= hi
    ensures lo <= r <= hi
    ensures lo <= value <= hi ==> r == value
  {
    if value <= lo then lo else if value >= hi then hi else value
  }

  predicate IsPilot(pilot: PilotChoice, e: EndpointId) { pilot.Members? && e in pilot.ids }

  /** How many of the first `n` candidates are outside the pilot group. */
  function NonPilots(cs: seq<Candidate>, pilot: PilotChoice, n: nat): nat
    requires n <= |cs|
  {
    if n == 0 then 0
    else NonPilots(cs, pilot, n - 1) + (if IsPilot(pilot, cs[n - 1].endpoint) then 0 else 1)
  }

  function Installed(c: Candidate, component: Component): Option<string> {
    if component.RustDesk? then c.rustdeskVersion else c.agentVersion
  }

  predicate IsBusy(w: World, e: EndpointId, component: Component)
    requires forall j :: 0 <= j < |w.jobs| ==> w.jobs[j].rollout < |w.rollouts|
  {
    exists j :: 0 <= j < |w.jobs| && w.jobs[j].endpoint == e && w.jobs[j].status.Unfinished()
                && w.rollouts[w.jobs[j].rollout].component == component
  }

  predicate OffersNothing(from: Option<string>, component: Component, target: string) {
    && from.Some? && from.value != ""
    && var cmp := Versions.Compare(from.value, target);
       cmp == 0 || (component.RustDesk? && cmp > 0)
  }

  ghost predicate Skips(w: World, c: Candidate, component: Component, target: string)
    requires w.Linked()
  {
    || IsBusy(w, c.endpoint, component)
    || !c.isWindows
    || !c.hasAgentSecret
    || OffersNothing(Installed(c, component), component, target)
  }

  ghost function NewJob(w: World, input: RolloutInput, r: Rollout, k: nat): Job
    requires w.Linked() && k < |input.candidates| && r.batchSize > 0
  {
    var c := input.candidates[k];
    Job(|w.rollouts|, c.endpoint,
        if IsPilot(input.pilot, c.endpoint) then 0 else 1 + NonPilots(input.candidates, input.pilot, k) / r.batchSize,
        if Skips(w, c, r.component, r.target) then Skipped else Requested,
        0, None, None, None, None, Installed(c, r.component))
  }

  ghost function NewJobs(w: World, input: RolloutInput, r: Rollout, n: nat): (jobs: seq<Job>)
    requires w.Linked() && n <= |input.candidates| && r.batchSize > 0
    ensures |jobs| == n
    ensures forall k :: 0 <= k < n ==> jobs[k] == NewJob(w, input, r, k)
  {
    if n == 0 then [] else NewJobs(w, input, r, n - 1) + [NewJob(w, input, r, n - 1)]
  }

  function NewRollout(input: RolloutInput): (r: Rollout)
    ensures r.batchSize > 0
  {
    Rollout(
      input.component,
      Versions.Trim(input.targetVersion),
      if input.component.RustDesk? then input.digest else None,
      Draft,
      0,
      Clamp(1, 500, input.batchSize.GetOr(10)),
      Clamp(0, 1000, input.failureThreshold.GetOr(1)),
      Clamp(1, 10, input.maxAttempts.GetOr(3)),
      Clamp(5, 24 * 60, input.backoffMinutes.GetOr(30)),
      Clamp(15, 24 * 60, input.verifyTimeoutMinutes.GetOr(60)))
  }

  /** Why `create` refuses, in the order it checks. */
  function CreateError(input: RolloutInput): Option<ApiError> {
    var target := Versions.Trim(input.targetVersion);
    if !Versions.IsExactTag(target) then Some(BadRequest)
    else if input.component.RustDesk? && input.digest.None? && !input.allowSignatureOnly then Some(BadRequest)
    else if input.component.Agent? && target != input.platformVersion then Some(BadRequest)
    else if !input.windowParses then Some(BadRequest)
    else if input.candidates == [] then Some(NotFound)
    else if input.pilot.UnknownGroup? then Some(NotFound)
    else None
  }

  ghost function Create(w: World, input: RolloutInput): (w': World)
    requires w.Linked()
    ensures w'.Linked()
  {
    if CreateError(input).Some? then w
    else
      var r := NewRollout(input);
      var n := |input.candidates|;
      w.(rollouts := w.rollouts + [r],
         jobs := w.jobs + NewJobs(w, input, r, n),
         trace := w.trace + seq(n, _ => Trace([], [], 0)))
  }

  // ── Which batches the jobs get ────────────────────────────────────────────

  /** The endpoint query returns each endpoint once. */
  ghost predicate Distinct(cs: seq<Candidate>) {
    forall i, k :: 0 <= i < k < |cs| ==> cs[i].endpoint != cs[k].endpoint
  }

  function Within(hi: nat, x: int): nat { if x < 0 then 0 else if x > hi then hi else x }

  lemma QuotientBounds(n: nat, size: nat, q: nat)
    requires size > 0 && n / size == q
    ensures q * size <= n < q * size + size
  {
  }

  lemma MultipleGrows(a: nat, b: nat, size: nat)
    requires a <= b
    ensures a * size <= b * size
  {
  }

  /** The next computer goes where there is room: into batch `q` exactly when those before it are full. */
  lemma OneMoreFits(n: nat, size: nat, q: nat)
    requires size > 0
    ensures Within(size, n + 1 - q * size) == Within(size, n - q * size) + (if n / size == q then 1 else 0)
  {
    QuotientBounds(n, size, n / size);
    if n / size < q {
      MultipleGrows(n / size + 1, q, size);
    } else if n / size > q {
      MultipleGrows(q + 1, n / size, size);
    }
  }

  lemma BatchGrows(jobs: seq<Job>, job: Job, id: RolloutId, batch: nat)
    requires job.rollout == id
    ensures |BatchIds(jobs + [job], id, batch)| == |BatchIds(jobs, id, batch)| + (if job.batch == batch then 1 else 0)
  {
    var more := if job.batch == batch then {|jobs|} else {};
    assert BatchIds(jobs + [job], id, batch) == BatchIds(jobs, id, batch) + more;
  }

  lemma NoneYet(w: World, size: nat, batch: nat)
    requires w.Linked() && batch > 0
    ensures |BatchIds(w.jobs, |w.rollouts|, batch)| == Within(size, 0 - (batch - 1) * size) == 0
  {
    assert BatchIds(w.jobs, |w.rollouts|, batch) == {};
  }

  /** After `n` candidates, batch `batch` of the new rollout holds the non-pilots that reached it. */
  lemma {:induction false} BatchFill(w: World, input: RolloutInput, r: Rollout, n: nat, batch: nat)
    requires w.Linked() && n <= |input.candidates| && r.batchSize > 0 && batch > 0
    ensures |BatchIds(w.jobs + NewJobs(w, input, r, n), |w.rollouts|, batch)|
         == Within(r.batchSize, NonPilots(input.candidates, input.pilot, n) - (batch - 1) * r.batchSize)
  {
    hide Within, Skips, BatchIds;
    if n == 0 {
      NoneYet(w, r.batchSize, batch);
      assert w.jobs + NewJobs(w, input, r, n) == w.jobs;
    } else {
      BatchFill(w, input, r, n - 1, batch);
      var before := w.jobs + NewJobs(w, input, r, n - 1);
      var job := NewJob(w, input, r, n - 1);
      assert w.jobs + NewJobs(w, input, r, n) == before + [job];
      BatchGrows(before, job, |w.rollouts|, batch);
      OneMoreFits(NonPilots(input.candidates, input.pilot, n - 1), r.batchSize, batch - 1);
    }
  }

  /** Batches after the pilot are full, the last one holds the rest, and there is nothing beyond it. */
  lemma NewBatchesAreFilled(w: World, input: RolloutInput, batch: nat)
    requires w.Linked() && CreateError(input).None? && batch > 0
    ensures
      var size := NewRollout(input).batchSize;
      var others := NonPilots(input.candidates, input.pilot, |input.candidates|);
      |BatchIds(Create(w, input).jobs, |w.rollouts|, batch)| == Within(size, others - (batch - 1) * size)
  {
    BatchFill(w, input, NewRollout(input), |input.candidates|, batch);
  }

  lemma NewBatchesSmall(w: World, input: RolloutInput, batch: nat)
    requires w.Linked() && CreateError(input).None? && batch > 0
    ensures SmallBatch(Create(w, input), |w.rollouts|, batch)
  {
    NewBatchesAreFilled(w, input, batch);
  }

  lemma {:induction false} NonPilotsGrow(cs: seq<Candidate>, pilot: PilotChoice, m: nat, n: nat)
    requires m <= n <= |cs|
    ensures NonPilots(cs, pilot, m) <= NonPilots(cs, pilot, n)
    decreases n
  {
    if m < n {
      NonPilotsGrow(cs, pilot, m, n - 1);
    }
  }

  lemma QuotientGrows(m: nat, n: nat, size: nat)
    requires size > 0 && m <= n
    ensures m / size <= n / size
  {
    var a, b := m / size, n / size;
    if b < a {
      MultipleGrows(b + 1, a, size);
    }
    QuotientBounds(m, size, a);
    QuotientBounds(n, size, b);
  }

  /** The pilot batch is exactly the pilot group, and the other computers are released in their order. */
  lemma NewBatchesKeepOrder(w: World, input: RolloutInput, i: nat, k: nat)
    requires w.Linked() && CreateError(input).None? && i <= k < |input.candidates|
    ensures
      var first, second := Create(w, input).jobs[|w.jobs| + i], Create(w, input).jobs[|w.jobs| + k];
      && first.endpoint == input.candidates[i].endpoint
      && (first.batch == 0 <==> IsPilot(input.pilot, first.endpoint))
      && (first.batch > 0 && second.batch > 0 ==> first.batch <= second.batch)
  {
    var r := NewRollout(input);
    assert Create(w, input).jobs[|w.jobs| + i] == NewJob(w, input, r, i);
    assert Create(w, input).jobs[|w.jobs| + k] == NewJob(w, input, r, k);
    NonPilotsGrow(input.candidates, input.pilot, i, k);
    QuotientGrows(NonPilots(input.candidates, input.pilot, i), NonPilots(input.candidates, input.pilot, k),
                  r.batchSize);
  }

  lemma NewApart(w: World, input: RolloutInput, i: JobId, j: JobId)
    requires w.Linked() && CreateError(input).None? && Distinct(input.candidates)
    requires Apart(w, i, j)
    ensures Apart(Create(w, input), i, j)
  {
    var w' := Create(w, input);
    if i < j < |w'.jobs| && |w.jobs| <= j && w'.jobs[i].endpoint == w'.jobs[j].endpoint {
      var r := NewRollout(input);
      assert w'.jobs[j] == NewJob(w, input, r, j - |w.jobs|);
      if i < |w.jobs| {
        assert w'.jobs[i] == w.jobs[i];
      } else {
        assert false;
      }
    }
  }

  lemma NewJobOk(w: World, input: RolloutInput, j: JobId)
    requires w.Linked() && CreateError(input).None? && JobOk(w, j)
    ensures JobOk(Create(w, input), j)
    ensures JobEvolves(w, Create(w, input), j)
  {
    var w' := Create(w, input);
    if |w.jobs| <= j < |w'.jobs| {
      assert w'.jobs[j] == NewJob(w, input, NewRollout(input), j - |w.jobs|);
      assert w'.trace[j] == Trace([], [], 0);
    }
  }

  lemma NewFailures(w: World, input: RolloutInput, id: RolloutId)
    requires w.Linked() && CreateError(input).None? && FewFailuresBelow(w, id)
    ensures FewFailuresBelow(Create(w, input), id)
    ensures RolloutEvolves(w, Create(w, input), id)
  {
    var w' := Create(w, input);
    forall j | |w.jobs| <= j < |w'.jobs| ensures w'.jobs[j].rollout == |w.rollouts| && !w'.jobs[j].status.Failed? {
      assert w'.jobs[j] == NewJob(w, input, NewRollout(input), j - |w.jobs|);
    }
    if id < |w.rollouts| {
      assert FailedIds(w'.jobs, id) == FailedIds(w.jobs, id);
      var batch := w.rollouts[id].currentBatch;
      assert FailedBelow(w'.jobs, id, batch) == FailedBelow(w.jobs, id, batch);
    } else if id == |w.rollouts| {
      assert FailedBelow(w'.jobs, id, 0) == {};
    }
  }

  lemma NewBatches(w: World, input: RolloutInput, id: RolloutId, batch: nat)
    requires w.Linked() && CreateError(input).None? && SmallBatch(w, id, batch)
    ensures SmallBatch(Create(w, input), id, batch)
  {
    var w' := Create(w, input);
    if id < |w.rollouts| {
      forall j | |w.jobs| <= j < |w'.jobs| ensures w'.jobs[j].rollout == |w.rollouts| {
        assert w'.jobs[j] == NewJob(w, input, NewRollout(input), j - |w.jobs|);
      }
      assert BatchIds(w'.jobs, id, batch) == BatchIds(w.jobs, id, batch);
    } else if batch > 0 {
      NewBatchesSmall(w, input, batch);
    }
  }

  lemma CreateKept(w: World, input: RolloutInput)
    requires Inv(w) && Distinct(input.candidates)
    ensures Kept(w, Create(w, input))
    ensures w.rollouts <= Create(w, input).rollouts && w.jobs <= Create(w, input).jobs
    ensures w.minted == Create(w, input).minted
  {
    if CreateError(input).Some? {
      EvolvesRefl(w);
    } else {
      var w' := Create(w, input);
      forall j: JobId ensures JobOk(w', j) && JobEvolves(w, w', j) {
        assert JobOk(w, j);
        NewJobOk(w, input, j);
      }
      forall i: JobId, j: JobId ensures Apart(w', i, j) {
        assert Apart(w, i, j);
        NewApart(w, input, i, j);
      }
      forall j: JobId, k: nat ensures Minted(w', j, k) {
        assert Minted(w, j, k);
      }
      forall n: Nonce ensures Backed(w', n) {
        assert Backed(w, n);
      }
      forall id: RolloutId ensures FewFailuresBelow(w', id) && RolloutEvolves(w, w', id) {
        assert FewFailuresBelow(w, id);
        NewFailures(w, input, id);
      }
      forall id: RolloutId, batch: nat ensures SmallBatch(w', id, batch) {
        assert SmallBatch(w, id, batch);
        NewBatches(w, input, id, batch);
      }
    }
  }
}
