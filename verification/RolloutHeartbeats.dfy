/** When an installer is handed out, and what a heartbeat can settle for good. */
module RolloutHeartbeats {
  import opened Wrappers
  import opened RolloutState
  import opened RolloutCalls
  import opened RolloutInvariants
  import opened RolloutWrites
  import opened RolloutKeeps
  import opened RolloutRuns
  import Versions

  /** The installer offered by a reply. */
  function Offered(reply: HeartbeatReply): Option<Payload> {
    match reply
    case Unmanaged => None
    case Managed(rustdesk, agent) => if rustdesk.Some? then rustdesk else agent
  }

  // ── Only heartbeats mint, and minting is dispatching ──────────────────────

  lemma OnlyBeatsMint(w: World, a: Action)
    requires Inv(w) && Possible(w, a) && !a.Beat?
    ensures Step(w, a).minted == w.minted
  {
    match a
    case StartRollout(id) =>
      if StartError(w, id).None? {
        StartReleases(w, id);
        var r := w.rollouts[id].(status := Running, currentBatch := FirstBatch(w, id));
        RolloutWriteKept(w, id, r);
        TickFromKept(PutRollout(w, id, r), PutRollout(w, id, r).rollouts, 0);
      }
    case MinuteTick => TickFromKept(w, w.rollouts, 0);
    case CancelRollout(id) =>
      if CancelError(w, id).None? {
        CancelJobsCommutes(w, id, w.rollouts[id].(status := RolloutStatus.Canceled), 0);
        CancelJobsKept(w, id, 0);
      }
    case _ =>
  }

  lemma MintedDispatchHappened(w: World, nonce: Nonce)
    requires Inv(w) && nonce in w.minted
    ensures w.minted[nonce].job < |w.jobs| && w.minted[nonce].index < |w.trace[w.minted[nonce].job].nonces|
  {
    assert Backed(w, nonce);
  }

  lemma SameMintsSameDispatches(w: World, w': World, j: JobId)
    requires Inv(w) && Kept(w, w') && w'.minted == w.minted && j < |w.jobs|
    ensures w'.trace[j].dispatches == w.trace[j].dispatches
    ensures w'.jobs[j].attempts == w.jobs[j].attempts
  {
    assert JobOk(w, j) && JobOk(w', j) && JobEvolves(w, w', j);
    var n := |w.trace[j].nonces|;
    if n < |w'.trace[j].nonces| {
      assert Minted(w', j, n);
      MintedDispatchHappened(w, w'.trace[j].nonces[n]);
      assert false;
    }
  }

  // ── What one heartbeat hands out ──────────────────────────────────────────

  /** The world after the evidence of a heartbeat, in which the dispatch is decided. */
  ghost function Judged(w: World, f: HeartbeatFacts, reg: Registration): (w': World)
    requires w.Linked()
    ensures SameRows(w, w')
  {
    EvidenceFrom(w, w, 0, f, reg)
  }

  /** Job `j` may go out on this heartbeat. */
  ghost predicate Released(w: World, j: JobId, e: EndpointId)
    requires w.Linked()
  {
    && j < |w.jobs|
    && w.jobs[j].endpoint == e
    && w.jobs[j].status.Requested?
    && var r := w.rollouts[w.jobs[j].rollout];
       && r.status.Running?
       && w.jobs[j].batch == r.currentBatch
       && w.jobs[j].attempts < r.maxAttempts
       && (w.jobs[j].nextAttemptAt.Some? ==> w.jobs[j].nextAttemptAt.value <= w.now)
  }

  lemma ReadyIsReleased(w: World, j: JobId, e: EndpointId)
    requires Inv(w) && j < |w.jobs| && !HasInFlight(w.jobs, e)
    ensures Eligible(w, e, j) <==> Released(w, j, e)
  {
    assert JobOk(w, j);
  }

  /**
   A heartbeat offers an installer exactly when it is authenticated and not deferred, nothing is in
   flight on the endpoint after the evidence, and a released job waits there. The offer is then for
   the oldest such job, in its component's slot, with its rollout's version, under the fresh nonce;
   that job is dispatched now, and without an offer no job is.
   */
  lemma HeartbeatOffers(past: seq<Action>, f: HeartbeatFacts, reg: Registration, deferred: bool, nonce: Nonce)
    requires PossibleRun(EMPTY, past)
    requires Possible(Exec(EMPTY, past), Beat(f, reg, deferred, nonce))
    ensures
      var w := Exec(EMPTY, past);
      var mid := Judged(w, f, reg);
      var (w', reply) := Heartbeat(w, f, reg, deferred, nonce);
      && (Offered(reply).Some? <==>
            && f.authenticated && !deferred && !HasInFlight(mid.jobs, f.endpoint)
            && exists j :: 0 <= j < |w.jobs| && Released(mid, j, f.endpoint))
      && (Offered(reply).Some? ==>
            exists j :: 0 <= j < |w.jobs| && Released(mid, j, f.endpoint)
              && (forall i :: 0 <= i < j ==> !Released(mid, i, f.endpoint))
              && (var r := mid.rollouts[mid.jobs[j].rollout]; reply == Offer(r.component, Payload(r.target, nonce)))
              && w'.jobs[j].status.Dispatched?
              && w'.trace[j].dispatches == w.trace[j].dispatches + [w.now]
              && w'.minted == w.minted[nonce := Mint(j, w.jobs[j].attempts)])
      && (Offered(reply).None? ==> w'.minted == w.minted)
  {
    hide EvidenceFrom, Exec, PossibleRun;
    Reachable(past);
    var w := Exec(EMPTY, past);
    EvidenceFromKept(w, w, 0, f, reg);
    var mid := Judged(w, f, reg);
    var (w', reply) := Heartbeat(w, f, reg, deferred, nonce);
    forall j | 0 <= j < |w.jobs| ensures Released(mid, j, f.endpoint) ==> HasWork(w.jobs, f.endpoint) {
      assert JobEvolves(w, mid, j);
    }
    if f.authenticated && HasWork(w.jobs, f.endpoint) && !HasInFlight(mid.jobs, f.endpoint) {
      forall j | 0 <= j < |mid.jobs| ensures Eligible(mid, f.endpoint, j) <==> Released(mid, j, f.endpoint) {
        ReadyIsReleased(mid, j, f.endpoint);
      }
      var first := FirstReady(mid, f.endpoint, 0);
      if first.Some? && !deferred {
        SameMintsSameDispatches(w, mid, first.value);
      }
    }
  }

  // ── Every installer handed out is an attempt ──────────────────────────────

  ghost function HandedOut(w: World, a: Action): seq<Nonce>
    requires w.Linked()
  {
    match a
    case Beat(f, reg, deferred, nonce) =>
      var offer := Offered(Heartbeat(w, f, reg, deferred, nonce).1);
      if offer.Some? then [offer.value.nonce] else []
    case _ => []
  }

  /** The nonces of all installers handed out in a run. */
  ghost function AllHandedOut(w: World, run: seq<Action>): seq<Nonce>
    requires w.Linked()
    decreases |run|
  {
    if run == [] then [] else HandedOut(w, run[0]) + AllHandedOut(Step(w, run[0]), run[1..])
  }

  lemma BeatHandsOut(w: World, f: HeartbeatFacts, reg: Registration, deferred: bool, nonce: Nonce)
    requires Inv(w)
    ensures
      var (w', reply) := Heartbeat(w, f, reg, deferred, nonce);
      if Offered(reply).Some?
      then Offered(reply).value.nonce == nonce && w'.minted.Keys == w.minted.Keys + {nonce}
      else w'.minted == w.minted
  {
    hide EvidenceFrom;
    EvidenceFromKept(w, w, 0, f, reg);
  }

  lemma StepHandsOut(w: World, a: Action)
    requires Inv(w) && Possible(w, a)
    ensures Step(w, a).minted.Keys == w.minted.Keys + (set n | n in HandedOut(w, a))
    ensures forall n :: n in HandedOut(w, a) ==> n !in w.minted
    ensures |HandedOut(w, a)| <= 1
  {
    if a.Beat? {
      BeatHandsOut(w, a.facts, a.registration, a.deferred, a.nonce);
    } else {
      OnlyBeatsMint(w, a);
    }
  }

  ghost predicate NoRepeats(s: seq<Nonce>) { forall i, k :: 0 <= i < k < |s| ==> s[i] != s[k] }

  lemma NoRepeatsAcross(first: seq<Nonce>, rest: seq<Nonce>)
    requires |first| <= 1 && NoRepeats(rest) && forall n :: n in first ==> n !in rest
    ensures NoRepeats(first + rest)
  {
    forall i, k | 0 <= i < k < |first + rest| ensures (first + rest)[i] != (first + rest)[k] {
      assert (first + rest)[k] == rest[k - |first|];
      if i < |first| {
        assert (first + rest)[i] == first[i] && first[i] !in rest;
      } else {
        assert (first + rest)[i] == rest[i - |first|];
      }
    }
  }

  /** Over a whole run the installers handed out are, one for one, the dispatches in the books. */
  lemma {:induction false} InstallersAreDispatches(w: World, run: seq<Action>)
    requires Inv(w) && PossibleRun(w, run)
    ensures
      var out := AllHandedOut(w, run);
      && (forall n :: n in Exec(w, run).minted <==> n in w.minted || n in out)
      && (forall n :: n in out ==> n !in w.minted)
      && NoRepeats(out)
    decreases |run|
  {
    if run != [] {
      StepHandsOut(w, run[0]);
      StepKept(w, run[0]);
      InstallersAreDispatches(Step(w, run[0]), run[1..]);
      NoRepeatsAcross(HandedOut(w, run[0]), AllHandedOut(Step(w, run[0]), run[1..]));
    }
  }

  // ── A build newer than approved ───────────────────────────────────────────

  /** The heartbeat reports a RustDesk newer than job `j`, in flight on that endpoint, was approved for. */
  ghost predicate ReportsNewer(w: World, f: HeartbeatFacts, j: JobId)
    requires w.Linked()
  {
    && j < |w.jobs|
    && w.jobs[j].endpoint == f.endpoint
    && w.jobs[j].status.InFlight()
    && var r := w.rollouts[w.jobs[j].rollout];
       && r.component.RustDesk?
       && Reported(RustDesk, f).Some?
       && Versions.Compare(Reported(RustDesk, f).value, r.target) > 0
  }

  function FailedAsNewer(job: Job, f: HeartbeatFacts): Job
    requires Reported(RustDesk, f).Some?
  {
    MarkedFailed(WithVersion(job, Reported(RustDesk, f).value))
  }

  lemma JudgeFailsNewer(w: World, read: World, f: HeartbeatFacts, reg: Registration, j: JobId)
    requires Inv(w) && Unjudged(w, read, j) && ReportsNewer(w, f, j)
    ensures
      var judged := Judge(w, read, j, f, reg);
      Inv(judged) && Unjudged(judged, read, j + 1) && judged.jobs[j] == FailedAsNewer(w.jobs[j], f)
  {
    JudgeKept(w, read, j, f, reg);
    assert Config(w.rollouts[w.jobs[j].rollout]) == Config(read.rollouts[w.jobs[j].rollout]);
    FailKept(w, j, WithVersion(w.jobs[j], Reported(RustDesk, f).value));
  }

  lemma JudgeLeavesOthers(w: World, read: World, id: JobId, f: HeartbeatFacts, reg: Registration, j: JobId)
    requires Inv(w) && Unjudged(w, read, id) && id < j && ReportsNewer(w, f, j)
    ensures
      var judged := Judge(w, read, id, f, reg);
      Inv(judged) && Unjudged(judged, read, id + 1) && ReportsNewer(judged, f, j) && judged.jobs[j] == w.jobs[j]
  {
    JudgeKept(w, read, id, f, reg);
    assert Config(w.rollouts[w.jobs[j].rollout]) == Config(read.rollouts[w.jobs[j].rollout]);
  }

  lemma FinishedRowSurvives(w: World, read: World, id: JobId, f: HeartbeatFacts, reg: Registration, j: JobId)
    requires Inv(w) && Unjudged(w, read, id) && id <= |w.jobs| && j < |w.jobs| && !w.jobs[j].status.Unfinished()
    ensures EvidenceFrom(w, read, id, f, reg).jobs[j] == w.jobs[j]
  {
    EvidenceFromKept(w, read, id, f, reg);
    assert JobEvolves(w, EvidenceFrom(w, read, id, f, reg), j);
  }

  lemma EvidenceAt(w: World, read: World, f: HeartbeatFacts, reg: Registration, j: JobId)
    requires Inv(w) && Unjudged(w, read, j) && ReportsNewer(w, f, j)
    ensures EvidenceFrom(w, read, j, f, reg).jobs[j] == FailedAsNewer(w.jobs[j], f)
  {
    JudgeFailsNewer(w, read, f, reg, j);
    FinishedRowSurvives(Judge(w, read, j, f, reg), read, j + 1, f, reg, j);
  }

  lemma {:induction false} EvidenceReaches(w: World, read: World, id: JobId, f: HeartbeatFacts, reg: Registration,
                                           j: JobId)
    requires Inv(w) && Unjudged(w, read, id) && id <= j && ReportsNewer(w, f, j)
    ensures EvidenceFrom(w, read, id, f, reg).jobs[j] == FailedAsNewer(w.jobs[j], f)
    decreases j - id
  {
    if id == j {
      EvidenceAt(w, read, f, reg, j);
    } else {
      JudgeLeavesOthers(w, read, id, f, reg, j);
      EvidenceReaches(Judge(w, read, id, f, reg), read, id + 1, f, reg, j);
    }
  }

  lemma NewerBuildFails(w: World, f: HeartbeatFacts, reg: Registration, deferred: bool, nonce: Nonce, j: JobId)
    requires Inv(w) && f.authenticated && nonce !in w.minted && IsNonce(nonce) && ReportsNewer(w, f, j)
    ensures Heartbeat(w, f, reg, deferred, nonce).0.jobs[j] == FailedAsNewer(w.jobs[j], f)
  {
    EvidenceReaches(w, w, 0, f, reg, j);
    EvidenceFromKept(w, w, 0, f, reg);
    var mid := EvidenceFrom(w, w, 0, f, reg);
    DispatchKept(mid, f.endpoint, deferred, nonce);
    assert JobEvolves(mid, Dispatch(mid, f.endpoint, deferred, nonce).0, j);
  }

  /**
   An authenticated report of a RustDesk newer than approved fails the job in flight at once and for
   good: it records the version, and whatever follows, the job is never dispatched again.
   */
  lemma NewerBuildFailsForGood(past: seq<Action>, beat: Action, future: seq<Action>, j: JobId)
    requires Continues(past, [beat]) && Continues(past + [beat], future)
    requires beat.Beat? && beat.facts.authenticated && ReportsNewer(Exec(EMPTY, past), beat.facts, j)
    ensures
      var w := Exec(EMPTY, past);
      var w' := Exec(Step(w, beat), future);
      && j < |w'.jobs|
      && w'.jobs[j] == FailedAsNewer(w.jobs[j], beat.facts)
      && w'.trace[j].dispatches == w.trace[j].dispatches
  {
    Reachable(past);
    var w := Exec(EMPTY, past);
    var w1 := Step(w, beat);
    assert [beat][0] == beat;
    StepKept(w, beat);
    ExecAppend(EMPTY, past, beat);
    RunKept(w1, future);
    NewerBuildFails(w, beat.facts, beat.registration, beat.deferred, beat.nonce, j);
    assert JobEvolves(w1, Exec(w1, future), j);
    assert JobEvolves(w, w1, j) && JobOk(w, j) && JobOk(w1, j);
  }
}
