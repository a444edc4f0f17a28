/** What creating a rollout writes and when it is refused, told from its input. */
module CreateOutcome {
  import opened Wrappers
  import opened RolloutState
  import opened RolloutCalls
  import opened RolloutInvariants
  import opened RolloutCreation
  import opened RolloutRuns
  import opened RolloutSafety
  import opened TickOutcome
  import opened VersionText
  import Versions

  /** A setting is what was given, brought to the nearer bound, or the default. */
  predicate Setting(given: Option<int>, default: int, lo: int, hi: int, value: int) {
    match given
    case None => value == default
    case Some(v) => (v < lo ==> value == lo) && (lo <= v <= hi ==> value == v) && (v > hi ==> value == hi)
  }

  predicate InPilot(pilot: PilotChoice, e: EndpointId) {
    match pilot
    case Members(ids) => e in ids
    case _ => false
  }

  function OthersBefore(input: RolloutInput, k: nat): set<nat>
    requires k <= |input.candidates|
  {
    set i: nat | i < k && !InPilot(input.pilot, input.candidates[i].endpoint)
  }

  /** Nothing to do on this computer: busy with the component, unsupported, unauthenticated, or not older. */
  ghost predicate NothingToDo(w: World, c: Candidate, from: Option<string>, component: Component, target: string)
    requires w.Linked()
  {
    || (exists j :: 0 <= j < |w.jobs| && w.jobs[j].endpoint == c.endpoint && w.jobs[j].status in NOT_DONE
                    && w.rollouts[w.jobs[j].rollout].component == component)
    || !c.isWindows
    || !c.hasAgentSecret
    || (from.Some? && from.value != ""
        && (Versions.Compare(from.value, target) == 0
            || (component == RustDesk && Versions.Compare(from.value, target) > 0)))
  }

  /** Job `k` of rollout `id`, as `create` writes it. */
  ghost predicate JobCreated(w: World, input: RolloutInput, r: Rollout, id: RolloutId, k: nat, job: Job)
    requires w.Linked() && k < |input.candidates| && r.batchSize > 0
  {
    var c := input.candidates[k];
    var from := match input.component case RustDesk => c.rustdeskVersion case Agent => c.agentVersion;
    && job.rollout == id && job.endpoint == c.endpoint && job.fromVersion == from
    && job.attempts == 0 && job.nextAttemptAt == None && job.dispatchedAt == None && job.nonce == None
    && job.installedVersion == None
    && job.status == (if NothingToDo(w, c, from, input.component, r.target) then Skipped else Requested)
    && job.batch == (if InPilot(input.pilot, c.endpoint) then 0 else 1 + |OthersBefore(input, k)| / r.batchSize)
  }

  /** The row of the new rollout. */
  ghost predicate RowCreated(input: RolloutInput, r: Rollout) {
    && r.component == input.component
    && TrimsTo(input.targetVersion, r.target)
    && r.sha256 == (if input.component == RustDesk then input.digest else None)
    && r.status == Draft && r.currentBatch == 0
    && Setting(input.batchSize, 10, 1, 500, r.batchSize)
    && Setting(input.failureThreshold, 1, 0, 1000, r.failureThreshold)
    && Setting(input.maxAttempts, 3, 1, 10, r.maxAttempts)
    && Setting(input.backoffMinutes, 30, 5, 1440, r.backoffMinutes)
    && Setting(input.verifyTimeoutMinutes, 60, 15, 1440, r.verifyTimeoutMinutes)
  }

  /** Refused as a bad request: no exact version, one that cannot be pinned or served, or an unreadable window. */
  ghost predicate BadInput(input: RolloutInput) {
    exists target: string :: TrimsTo(input.targetVersion, target)
      && (|| !IsTag(target)
          || (input.component == RustDesk && input.digest == None && !input.allowSignatureOnly)
          || (input.component == Agent && target != input.platformVersion)
          || !input.windowParses)
  }

  lemma NonPilotsCount(input: RolloutInput, k: nat)
    requires k <= |input.candidates|
    ensures NonPilots(input.candidates, input.pilot, k) == |OthersBefore(input, k)|
  {
    if k > 0 {
      NonPilotsCount(input, k - 1);
      var last := if InPilot(input.pilot, input.candidates[k - 1].endpoint) then {} else {k - 1};
      assert OthersBefore(input, k) == OthersBefore(input, k - 1) + last;
    }
  }

  lemma ErrorMeans(input: RolloutInput)
    ensures CreateError(input) == Some(BadRequest) <==> BadInput(input)
    ensures CreateError(input) == Some(NotFound) <==>
            !BadInput(input) && (input.candidates == [] || input.pilot == UnknownGroup)
    ensures CreateError(input) in {None, Some(BadRequest), Some(NotFound)}
  {
    var target := Versions.Trim(input.targetVersion);
    TrimMeans(input.targetVersion);
    ExactTagMeans(target);
    hide Versions.Trim, Versions.IsExactTag, TrimsTo, IsTag;
    forall t: string | TrimsTo(input.targetVersion, t) ensures t == target {
      TrimIsUnique(input.targetVersion, t);
    }
  }

  lemma RowIsCreated(input: RolloutInput)
    ensures RowCreated(input, NewRollout(input))
  {
    TrimMeans(input.targetVersion);
  }

  lemma JobIsCreated(w: World, input: RolloutInput, k: nat)
    requires w.Linked() && k < |input.candidates|
    ensures JobCreated(w, input, NewRollout(input), |w.rollouts|, k, NewJob(w, input, NewRollout(input), k))
  {
    hide Versions.Compare, Versions.Trim;
    NonPilotsCount(input, k);
    forall s: JobStatus ensures s in NOT_DONE <==> s.Unfinished() {
      StatusSets(s);
    }
  }

  /**
   `create` refuses exactly the bad inputs, and those without a computer or with an unknown pilot group,
   and then writes nothing. Otherwise it appends this row and these jobs.
   */
  ghost predicate Created(w: World, w': World, input: RolloutInput, error: Option<ApiError>)
    requires w.Linked()
  {
    var missing := input.candidates == [] || input.pilot == UnknownGroup;
    && error == (if BadInput(input) then Some(BadRequest) else if missing then Some(NotFound) else None)
    && w'.minted == w.minted && w'.now == w.now
    && w.rollouts <= w'.rollouts && w.jobs <= w'.jobs && w.trace <= w'.trace
    && |w'.trace| == |w'.jobs|
    && (error != None ==> w' == w)
    && (error == None ==>
          && |w'.rollouts| == |w.rollouts| + 1 && |w'.jobs| == |w.jobs| + |input.candidates|
          && RowCreated(input, w'.rollouts[|w.rollouts|]) && w'.rollouts[|w.rollouts|].batchSize > 0
          && forall j :: |w.jobs| <= j < |w'.jobs| ==>
               && JobCreated(w, input, w'.rollouts[|w.rollouts|], |w.rollouts|, j - |w.jobs|, w'.jobs[j])
               && w'.trace[j] == Trace([], [], 0))
  }

  lemma CreateDoesThis(w: World, input: RolloutInput)
    requires w.Linked()
    ensures Created(w, Create(w, input), input, CreateError(input))
  {
    ErrorMeans(input);
    hide CreateError, JobCreated, BadInput, RowCreated, NewRollout;
    if CreateError(input) == None {
      RowIsCreated(input);
      forall k | 0 <= k < |input.candidates|
        ensures JobCreated(w, input, NewRollout(input), |w.rollouts|, k, NewJob(w, input, NewRollout(input), k))
      {
        JobIsCreated(w, input, k);
      }
    }
  }

  // ── The default stops on one failure ──────────────────────────────────────

  /**
   A rollout created without a threshold stops for good at its first failed job, a pilot's say: its batch
   is final and no job of a later batch is ever dispatched.
   */
  lemma OneFailureStopsTheDefault(past: seq<Action>, input: RolloutInput, between: seq<Action>, future: seq<Action>)
    requires !BadInput(input) && input.candidates != [] && input.pilot != UnknownGroup
    requires input.failureThreshold == None
    requires Continues(past + [CreateRollout(input)], between)
    requires PossibleRun(EMPTY, past)
    requires PossibleRun(Exec(Exec(EMPTY, past + [CreateRollout(input)]), between), future)
    ensures
      var id := |Exec(EMPTY, past).rollouts|;
      var w := Exec(Exec(EMPTY, past + [CreateRollout(input)]), between);
      var w' := Exec(w, future);
      && id < |w.rollouts| && id < |w'.rollouts|
      && ((exists j :: 0 <= j < |w.jobs| && w.jobs[j].rollout == id && w.jobs[j].status == Failed) ==>
            && w'.rollouts[id].currentBatch == w.rollouts[id].currentBatch
            && forall j :: 0 <= j < |w'.jobs| && w'.jobs[j].rollout == id ==>
                 w'.jobs[j].batch > w.rollouts[id].currentBatch ==>
                 w'.jobs[j].attempts == 0 && w'.trace[j].dispatches == [])
  {
    var w0 := Exec(EMPTY, past);
    var id := |w0.rollouts|;
    var w1 := Exec(EMPTY, past + [CreateRollout(input)]);
    ExecAppend(EMPTY, past, CreateRollout(input));
    CreateDoesThis(w0, input);
    assert w1.rollouts[id].failureThreshold == 1;
    Later(past + [CreateRollout(input)], between);
    var w := Exec(w1, between);
    assert RolloutEvolves(w1, w, id);
    RunKept(w, future);
    StopsFrom(w, Exec(w, future), id);
  }

  lemma StopsFrom(w: World, w': World, id: RolloutId)
    requires Inv(w) && Kept(w, w') && id < |w.rollouts| && w.rollouts[id].failureThreshold == 1
    ensures id < |w'.rollouts|
    ensures (exists j :: 0 <= j < |w.jobs| && w.jobs[j].rollout == id && w.jobs[j].status == Failed) ==>
              && w'.rollouts[id].currentBatch == w.rollouts[id].currentBatch
              && forall j :: 0 <= j < |w'.jobs| && w'.jobs[j].rollout == id ==>
                   w'.jobs[j].batch > w.rollouts[id].currentBatch ==>
                   w'.jobs[j].attempts == 0 && w'.trace[j].dispatches == []
  {
    if j :| 0 <= j < |w.jobs| && w.jobs[j].rollout == id && w.jobs[j].status == Failed {
      assert j in FailedIds(w.jobs, id);
      DraftNeverFailed(w, id);
      assert RolloutEvolves(w, w', id);
      forall i | 0 <= i < |w'.jobs| && w'.jobs[i].rollout == id && w'.jobs[i].batch > w.rollouts[id].currentBatch
        ensures w'.jobs[i].attempts == 0 && w'.trace[i].dispatches == []
      {
        assert JobOk(w', i);
      }
    }
  }
}
