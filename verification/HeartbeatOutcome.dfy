/** What one heartbeat does to every row and what it answers, told from the rows themselves. */
module HeartbeatOutcome {
  import opened Wrappers
  import opened RolloutState
  import opened RolloutCalls
  import opened RolloutInvariants
  import opened RolloutKeeps
  import opened RolloutRuns
  import opened TickOutcome
  import Versions

  function VersionIn(f: HeartbeatFacts, c: Component): Option<string> {
    match c
    case RustDesk => f.rustdeskVersion
    case Agent => f.agentVersion
  }

  /** The heartbeat carries the nonce of the dispatch, whose installer has not reported the version yet. */
  predicate Echoes(f: HeartbeatFacts, job: Job) {
    && job.nonce.Some? && job.nonce.value != "" && f.updateNonce == job.nonce
    && (job.status == Dispatched || job.status == Installing)
  }

  /** The row of a job in flight after an authenticated heartbeat of its computer. */
  predicate JobJudged(r: Rollout, job: Job, job': Job, f: HeartbeatFacts, reg: Registration, now: int)
    requires job.attempts > 0
  {
    match VersionIn(f, r.component)
    case None => job' == job
    case Some(v) =>
      var cmp := Versions.Compare(v, r.target);
      if v == "" then job' == job
      else if r.component == RustDesk && cmp > 0 then
        job' == job.(status := Failed, nonce := None, installedVersion := Some(v))
      else if cmp < 0 then
        if Echoes(f, job) then AttemptFailed(r, job.(installedVersion := Some(v)), job', now) else job' == job
      else
        var recorded := if job.status == AwaitingVerification then job.installedVersion else Some(v);
        if reg == Registered || reg == Unavailable
        then job' == job.(status := Succeeded, nonce := None, installedVersion := recorded)
        else job' == job.(status := AwaitingVerification, installedVersion := recorded)
  }

  /** Only the failure of a job in flight here that brings a running rollout to its threshold pauses it. */
  ghost predicate RowJudged(w: World, w': World, e: EndpointId, id: RolloutId)
    requires |w.jobs| == |w'.jobs| && id < |w.rollouts| == |w'.rollouts|
  {
    var r := w.rollouts[id];
    var failed := exists j :: 0 <= j < |w.jobs| && w.jobs[j].endpoint == e && w.jobs[j].rollout == id
                              && w.jobs[j].status in ACTIVE && w'.jobs[j].status == Failed;
    w'.rollouts[id] ==
      if failed && r.status == Running && 0 < r.failureThreshold <= |Failures(w', id)| then r.(status := Paused) else r
  }

  /** Job `j` waits on this computer, released by its rollout as `w'` has it, and its backoff is over. */
  predicate MayGo(w: World, w': World, e: EndpointId, j: JobId)
    requires j < |w.jobs| && w.jobs[j].rollout < |w'.rollouts|
  {
    var job := w.jobs[j];
    var r := w'.rollouts[job.rollout];
    && job.endpoint == e && job.status == Requested
    && r.status == Running && job.batch <= r.currentBatch
    && (job.nextAttemptAt.None? || job.nextAttemptAt.value <= w.now)
  }

  /** After the judging nothing is in flight on this computer. */
  predicate Clear(w: World, w': World, e: EndpointId)
    requires |w.jobs| == |w'.jobs|
  {
    forall j :: 0 <= j < |w.jobs| && w.jobs[j].endpoint == e && w.jobs[j].status in ACTIVE ==>
      w'.jobs[j].status !in ACTIVE
  }

  // ── The evidence ──────────────────────────────────────────────────────────

  lemma {:induction false} NothingToJudge(w: World, read: World, id: JobId, f: HeartbeatFacts, reg: Registration)
    requires w.Linked() && read.Linked() && |read.jobs| == |w.jobs| && id <= |w.jobs|
    requires forall j :: id <= j < |w.jobs| ==> read.jobs[j].endpoint != f.endpoint || !read.jobs[j].status.InFlight()
    ensures EvidenceFrom(w, read, id, f, reg) == w
    decreases |w.jobs| - id
  {
    if id < |w.jobs| {
      NothingToJudge(w, read, id + 1, f, reg);
    }
  }

  lemma {:induction false} OneToJudge(w: World, id: JobId, j: JobId, f: HeartbeatFacts, reg: Registration)
    requires w.Linked() && id <= j < |w.jobs| && w.jobs[j].endpoint == f.endpoint && w.jobs[j].status.InFlight()
    requires forall k :: 0 <= k < |w.jobs| && k != j ==>
               w.jobs[k].endpoint != f.endpoint || !w.jobs[k].status.InFlight()
    ensures EvidenceFrom(w, w, id, f, reg) == RecordEvidence(w, j, w.jobs[j], w.rollouts[w.jobs[j].rollout], f, reg)
    decreases j - id
  {
    hide RecordEvidence;
    if id == j {
      NothingToJudge(Judge(w, w, j, f, reg), w, j + 1, f, reg);
    } else {
      OneToJudge(w, id + 1, j, f, reg);
    }
  }

  /** Of the jobs only `j` changed, nothing was dispatched, and only the failure of `j` paused its rollout. */
  ghost predicate Framed(w: World, w': World, j: JobId)
    requires w.Linked() && j < |w.jobs|
  {
    && w'.Linked() && |w'.jobs| == |w.jobs| && |w'.rollouts| == |w.rollouts| && w'.now == w.now
    && w'.minted == w.minted
    && (forall k :: 0 <= k < |w.jobs| && k != j ==> w'.jobs[k] == w.jobs[k] && w'.trace[k] == w.trace[k])
    && w'.trace[j].dispatches == w.trace[j].dispatches && w'.trace[j].nonces == w.trace[j].nonces
    && (forall id :: 0 <= id < |w.rollouts| && id != w.jobs[j].rollout ==> w'.rollouts[id] == w.rollouts[id])
    && (var id := w.jobs[j].rollout;
        w'.rollouts[id] ==
          if w'.jobs[j].status == Failed && w.rollouts[id].status == Running
             && 0 < w.rollouts[id].failureThreshold <= |FailedIds(w'.jobs, id)|
          then w.rollouts[id].(status := Paused) else w.rollouts[id])
  }

  lemma PutFramed(w: World, j: JobId, job: Job)
    requires w.Linked() && j < |w.jobs| && job.rollout == w.jobs[j].rollout && job.status != Failed
    ensures Framed(w, PutJob(w, j, job), j) && PutJob(w, j, job).jobs[j] == job
  {
    hide FailedIds;
  }

  lemma FailFramed(w: World, j: JobId, noted: Job)
    requires w.Linked() && j < |w.jobs| && noted.rollout == w.jobs[j].rollout && noted.status == w.jobs[j].status
    ensures
      var w' := Fail(PutJob(w, j, noted), j);
      Framed(w, w', j) && w'.jobs[j] == noted.(status := Failed, nonce := None)
  {
    PutTwice(w, j, noted, MarkedFailed(noted));
    hide FailedIds;
  }

  lemma AttemptFramed(w: World, j: JobId, noted: Job, r: Rollout)
    requires w.Linked() && j < |w.jobs| && noted.rollout == w.jobs[j].rollout && noted.status == w.jobs[j].status
    requires noted.attempts > 0
    ensures
      var w' := FailAttempt(PutJob(w, j, noted), j, noted.attempts, r);
      Framed(w, w', j) && AttemptFailed(r, noted, w'.jobs[j], w.now)
  {
    hide FailedIds, Fail;
    if noted.attempts >= r.maxAttempts {
      FailFramed(w, j, noted);
    } else {
      var back := SentBack(noted, noted.attempts, r.backoffMinutes, w.now);
      PutTwice(w, j, noted, back);
      PutFramed(w, j, back);
    }
  }

  lemma ConfirmFramed(w: World, j: JobId, version: string, reg: Registration)
    requires w.Linked() && j < |w.jobs| && w.jobs[j].status.InFlight()
    ensures
      var w' := Confirm(w, j, w.jobs[j], version, reg);
      var recorded := if w.jobs[j].status == AwaitingVerification then w.jobs[j].installedVersion else Some(version);
      && Framed(w, w', j)
      && w'.jobs[j] ==
           if reg == Registered || reg == Unavailable
           then w.jobs[j].(status := Succeeded, nonce := None, installedVersion := recorded)
           else w.jobs[j].(status := AwaitingVerification, installedVersion := recorded)
  {
    var seen := if w.jobs[j].status.AwaitingVerification? then w else PutJob(w, j, OnTarget(w.jobs[j], version));
    PutFramed(w, j, w.jobs[j]);
    PutSame(w, j);
    PutFramed(w, j, OnTarget(w.jobs[j], version));
    hide FailedIds;
    PutFramed(seen, j, Verified(seen.jobs[j]));
  }

  lemma EvidenceIsJudged(w: World, j: JobId, f: HeartbeatFacts, reg: Registration)
    requires Inv(w) && j < |w.jobs| && w.jobs[j].status.InFlight()
    ensures
      var r := w.rollouts[w.jobs[j].rollout];
      var w' := RecordEvidence(w, j, w.jobs[j], r, f, reg);
      Framed(w, w', j) && w.jobs[j].attempts > 0 && JobJudged(r, w.jobs[j], w'.jobs[j], f, reg, w.now)
  {
    hide Versions.Compare, FailedIds, Fail, FailAttempt, Confirm, AttemptFailed;
    var r := w.rollouts[w.jobs[j].rollout];
    assert JobOk(w, j);
    var reported := VersionIn(f, r.component);
    PutSame(w, j);
    PutFramed(w, j, w.jobs[j]);
    if reported.Some? && reported.value != "" {
      var noted := WithVersion(w.jobs[j], reported.value);
      FailFramed(w, j, noted);
      AttemptFramed(w, j, noted, r);
      ConfirmFramed(w, j, reported.value, reg);
    }
  }

  /** The world after the evidence. */
  ghost predicate Judgment(w: World, mid: World, f: HeartbeatFacts, reg: Registration)
    requires w.Linked()
  {
    && mid.Linked() && |mid.jobs| == |w.jobs| && |mid.rollouts| == |w.rollouts| && mid.now == w.now
    && mid.minted == w.minted
    && (forall j :: 0 <= j < |w.jobs| ==> JobHeard(w, mid, j, f, reg))
    && (forall id :: 0 <= id < |w.rollouts| ==> RowJudged(w, mid, f.endpoint, id))
  }

  /** A job in flight on this computer is judged and not dispatched, any other is left alone. */
  ghost predicate JobHeard(w: World, w': World, j: JobId, f: HeartbeatFacts, reg: Registration)
    requires w.Linked() && w'.Linked() && j < |w.jobs| == |w'.jobs|
  {
    if w.jobs[j].endpoint == f.endpoint && w.jobs[j].status in ACTIVE
    then
      && w.jobs[j].attempts > 0
      && JobJudged(w.rollouts[w.jobs[j].rollout], w.jobs[j], w'.jobs[j], f, reg, w.now)
      && w'.trace[j].dispatches == w.trace[j].dispatches && w'.trace[j].nonces == w.trace[j].nonces
    else w'.jobs[j] == w.jobs[j] && w'.trace[j] == w.trace[j]
  }

  lemma OnlyOneHere(w: World, j: JobId, k: JobId)
    requires Inv(w) && j < |w.jobs| && k < |w.jobs| && j != k && w.jobs[j].endpoint == w.jobs[k].endpoint
    ensures w.jobs[j].status !in ACTIVE || w.jobs[k].status !in ACTIVE
  {
    assert Apart(w, j, k) && Apart(w, k, j);
    StatusSets(w.jobs[j].status);
    StatusSets(w.jobs[k].status);
  }

  lemma OneIsJudged(w: World, j: JobId, f: HeartbeatFacts, reg: Registration)
    requires Inv(w) && j < |w.jobs| && w.jobs[j].endpoint == f.endpoint && w.jobs[j].status in ACTIVE
    ensures Judgment(w, EvidenceFrom(w, w, 0, f, reg), f, reg)
  {
    hide EvidenceFrom, RecordEvidence, JobJudged, RowJudged;
    StatusSets(w.jobs[j].status);
    forall k | 0 <= k < |w.jobs| && k != j && w.jobs[k].endpoint == f.endpoint
      ensures w.jobs[k].status !in ACTIVE && !w.jobs[k].status.InFlight()
    {
      OnlyOneHere(w, j, k);
      StatusSets(w.jobs[k].status);
    }
    OneToJudge(w, 0, j, f, reg);
    EvidenceIsJudged(w, j, f, reg);
    FramedRows(w, EvidenceFrom(w, w, 0, f, reg), j, f.endpoint);
  }

  lemma EvidenceDoes(w: World, f: HeartbeatFacts, reg: Registration)
    requires Inv(w)
    ensures Judgment(w, EvidenceFrom(w, w, 0, f, reg), f, reg)
  {
    if j :| 0 <= j < |w.jobs| && w.jobs[j].endpoint == f.endpoint && w.jobs[j].status in ACTIVE {
      OneIsJudged(w, j, f, reg);
    } else {
      hide JobJudged;
      forall j | 0 <= j < |w.jobs| ensures w.jobs[j].status in ACTIVE <==> w.jobs[j].status.InFlight() {
        StatusSets(w.jobs[j].status);
      }
      NothingToJudge(w, w, 0, f, reg);
    }
  }

  lemma FramedRows(w: World, w': World, j: JobId, e: EndpointId)
    requires w.Linked() && j < |w.jobs| && Framed(w, w', j)
    requires w.jobs[j].endpoint == e && w.jobs[j].status in ACTIVE
    requires forall k :: 0 <= k < |w.jobs| && k != j ==> w.jobs[k].endpoint != e || w.jobs[k].status !in ACTIVE
    ensures forall id :: 0 <= id < |w.rollouts| ==> RowJudged(w, w', e, id)
  {
    forall id | 0 <= id < |w.rollouts| ensures RowJudged(w, w', e, id) {
      FailuresAre(w', id);
      hide FailedIds, Failures;
    }
  }

  // ── The dispatch ──────────────────────────────────────────────────────────

  /** A retry that the evidence has just scheduled is not due yet. */
  lemma RetryIsLater(w: World, mid: World, f: HeartbeatFacts, reg: Registration, j: JobId)
    requires Inv(w) && Judgment(w, mid, f, reg)
    requires j < |w.jobs| && w.jobs[j].endpoint == f.endpoint && w.jobs[j].status in ACTIVE
    ensures mid.jobs[j].status == Requested ==>
              mid.jobs[j].nextAttemptAt.Some? && mid.jobs[j].nextAttemptAt.value > w.now
  {
    hide Versions.Compare;
    var r := w.rollouts[w.jobs[j].rollout];
    assert JobHeard(w, mid, j, f, reg) && Configured(r);
    DelayIsPositive(r.backoffMinutes, w.jobs[j].attempts - 1);
  }

  lemma {:induction false} DelayIsPositive(backoffMinutes: nat, n: nat)
    requires backoffMinutes > 0
    ensures backoffMinutes * Pow2(n) > 0
  {
    if n > 0 {
      DelayIsPositive(backoffMinutes, n - 1);
      assert backoffMinutes * Pow2(n) == 2 * (backoffMinutes * Pow2(n - 1));
    }
  }

  lemma ClearIs(w: World, mid: World, f: HeartbeatFacts, reg: Registration)
    requires w.Linked() && Judgment(w, mid, f, reg)
    ensures Clear(w, mid, f.endpoint) <==> !HasInFlight(mid.jobs, f.endpoint)
  {
    hide JobJudged, RowJudged;
    forall j | 0 <= j < |w.jobs| ensures mid.jobs[j].status in ACTIVE <==> mid.jobs[j].status.InFlight() {
      StatusSets(mid.jobs[j].status);
    }
    forall j | 0 <= j < |w.jobs| && mid.jobs[j].endpoint == f.endpoint && mid.jobs[j].status in ACTIVE
      ensures w.jobs[j].endpoint == f.endpoint && w.jobs[j].status in ACTIVE
    {
      assert JobHeard(w, mid, j, f, reg);
      SameEndpoint(w, mid, f, reg, j);
    }
    forall j | 0 <= j < |w.jobs| && w.jobs[j].endpoint == f.endpoint ensures mid.jobs[j].endpoint == f.endpoint {
      SameEndpoint(w, mid, f, reg, j);
    }
  }

  lemma SameEndpoint(w: World, mid: World, f: HeartbeatFacts, reg: Registration, j: JobId)
    requires w.Linked() && Judgment(w, mid, f, reg) && j < |w.jobs|
    ensures mid.jobs[j].endpoint == w.jobs[j].endpoint && mid.jobs[j].rollout == w.jobs[j].rollout
  {
    hide Versions.Compare;
    assert JobHeard(w, mid, j, f, reg);
  }

  lemma EligibleIs(w: World, mid: World, f: HeartbeatFacts, reg: Registration, j: JobId)
    requires Inv(w) && Judgment(w, mid, f, reg) && j < |w.jobs| && Clear(w, mid, f.endpoint)
    ensures Eligible(mid, f.endpoint, j) <==> MayGo(w, mid, f.endpoint, j)
  {
    SameEndpoint(w, mid, f, reg, j);
    StatusSets(mid.jobs[j].status);
    if w.jobs[j].endpoint == f.endpoint && w.jobs[j].status in ACTIVE {
      RetryIsLater(w, mid, f, reg, j);
    } else {
      assert JobHeard(w, mid, j, f, reg);
      StatusSets(w.jobs[j].status);
    }
  }

  /** The job `j` goes out: its row, the books and the reply in its component's slot. */
  ghost predicate SentOut(w: World, w': World, reply: HeartbeatReply, j: JobId, nonce: Nonce)
    requires w.Linked() && w'.Linked() && j < |w.jobs| == |w'.jobs|
  {
    var job := w.jobs[j];
    var r := w.rollouts[job.rollout];
    && w'.jobs[j] == job.(status := Dispatched, nonce := Some(nonce), dispatchedAt := Some(w.now),
                          attempts := job.attempts + 1)
    && w'.trace[j].dispatches == w.trace[j].dispatches + [w.now] && w'.trace[j].nonces == w.trace[j].nonces + [nonce]
    && w'.minted == w.minted[nonce := Mint(j, job.attempts)]
    && reply == match r.component
                case RustDesk => Managed(Some(Payload(r.target, nonce)), None)
                case Agent => Managed(None, Some(Payload(r.target, nonce)))
  }

  /**
   Unless it is deferred or something is in flight on this computer, the first waiting job that may go
   is sent out. No other job changes, and no rollout.
   */
  ghost predicate Sent(w: World, mid: World, w': World, reply: HeartbeatReply, e: EndpointId, deferred: bool,
                       nonce: Nonce)
    requires w.Linked() && mid.Linked() && w'.Linked() && |w.jobs| == |mid.jobs| == |w'.jobs|
    requires |w.rollouts| == |mid.rollouts|
  {
    && w'.rollouts == mid.rollouts && w'.now == mid.now
    && if !deferred && Clear(w, mid, e) && exists j :: 0 <= j < |w.jobs| && MayGo(w, mid, e, j)
       then
         exists j :: 0 <= j < |w.jobs| && MayGo(w, mid, e, j)
           && (forall i :: 0 <= i < j ==> !MayGo(w, mid, e, i))
           && SentOut(w, w', reply, j, nonce)
           && (forall i :: 0 <= i < |w.jobs| && i != j ==> w'.jobs[i] == mid.jobs[i] && w'.trace[i] == mid.trace[i])
       else reply == Managed(None, None) && w' == mid
  }

  lemma DispatchDoes(w: World, mid: World, f: HeartbeatFacts, reg: Registration, deferred: bool, nonce: Nonce)
    requires Inv(w) && Judgment(w, mid, f, reg)
    ensures
      var (w', reply) := Dispatch(mid, f.endpoint, deferred, nonce);
      Sent(w, mid, w', reply, f.endpoint, deferred, nonce)
  {
    ClearIs(w, mid, f, reg);
    if Clear(w, mid, f.endpoint) {
      forall j | 0 <= j < |w.jobs| ensures Eligible(mid, f.endpoint, j) <==> MayGo(w, mid, f.endpoint, j) {
        EligibleIs(w, mid, f, reg, j);
      }
      var first := FirstReady(mid, f.endpoint, 0);
      if first.Some? && !deferred {
        SentRow(w, mid, f, reg, first.value, nonce);
      }
    }
  }

  lemma SentRow(w: World, mid: World, f: HeartbeatFacts, reg: Registration, j: JobId, nonce: Nonce)
    requires Inv(w) && Judgment(w, mid, f, reg) && j < |w.jobs| && MayGo(w, mid, f.endpoint, j)
    ensures mid.jobs[j] == w.jobs[j]
    ensures
      var r := mid.rollouts[mid.jobs[j].rollout];
      SentOut(w, Claim(mid, j, nonce), Offer(r.component, Payload(r.target, nonce)), j, nonce)
  {
    assert JobHeard(w, mid, j, f, reg) && RowJudged(w, mid, f.endpoint, w.jobs[j].rollout);
  }

  // ── The whole heartbeat ───────────────────────────────────────────────────

  /** Some job of this computer is not finished. */
  predicate Busy(w: World, e: EndpointId) {
    exists j :: 0 <= j < |w.jobs| && w.jobs[j].endpoint == e && w.jobs[j].status in NOT_DONE
  }

  /**
   An unauthenticated heartbeat, or one of a computer without an unfinished job, does nothing and says
   so. Any other is managed: its evidence is judged, and then at most one job is sent out.
   */
  ghost predicate HeartbeatDone(w: World, w': World, reply: HeartbeatReply, f: HeartbeatFacts, reg: Registration,
                                deferred: bool, nonce: Nonce)
    requires w.Linked() && w'.Linked() && |w.jobs| == |w'.jobs| && |w.rollouts| == |w'.rollouts|
  {
    && (reply.Managed? <==> f.authenticated && Busy(w, f.endpoint))
    && (!reply.Managed? ==> w' == w)
    && (reply.Managed? ==>
          exists mid :: Judgment(w, mid, f, reg) && Sent(w, mid, w', reply, f.endpoint, deferred, nonce))
  }

  lemma BusyIs(w: World, e: EndpointId)
    ensures Busy(w, e) <==> HasWork(w.jobs, e)
  {
    forall s: JobStatus ensures s in NOT_DONE <==> s.Unfinished() {
      StatusSets(s);
    }
  }

  lemma HeartbeatIsDone(w: World, f: HeartbeatFacts, reg: Registration, deferred: bool, nonce: Nonce)
    requires Inv(w)
    ensures
      var (w', reply) := Heartbeat(w, f, reg, deferred, nonce);
      HeartbeatDone(w, w', reply, f, reg, deferred, nonce)
  {
    hide EvidenceFrom, Judgment, Sent;
    BusyIs(w, f.endpoint);
    if f.authenticated && Busy(w, f.endpoint) {
      var mid := EvidenceFrom(w, w, 0, f, reg);
      EvidenceDoes(w, f, reg);
      DispatchDoes(w, mid, f, reg, deferred, nonce);
    }
  }

  /** In every reachable world a heartbeat does exactly this. */
  lemma HeartbeatDoesThis(past: seq<Action>, f: HeartbeatFacts, reg: Registration, deferred: bool, nonce: Nonce)
    requires PossibleRun(EMPTY, past)
    ensures
      var w := Exec(EMPTY, past);
      var (w', reply) := Heartbeat(w, f, reg, deferred, nonce);
      HeartbeatDone(w, w', reply, f, reg, deferred, nonce)
  {
    Reachable(past);
    HeartbeatIsDone(Exec(EMPTY, past), f, reg, deferred, nonce);
  }

  /** Jobs in flight here, and all jobs elsewhere, end the heartbeat as the evidence leaves them. */
  lemma HeardToTheEnd(w: World, w': World, reply: HeartbeatReply, f: HeartbeatFacts, reg: Registration,
                      deferred: bool, nonce: Nonce, j: JobId)
    requires w.Linked() && w'.Linked() && |w.jobs| == |w'.jobs| && |w.rollouts| == |w'.rollouts| && j < |w.jobs|
    requires reply.Managed? && HeartbeatDone(w, w', reply, f, reg, deferred, nonce)
    requires w.jobs[j].endpoint != f.endpoint || w.jobs[j].status in ACTIVE
    ensures JobHeard(w, w', j, f, reg)
  {
    hide JobJudged, RowJudged;
    var mid :| Judgment(w, mid, f, reg) && Sent(w, mid, w', reply, f.endpoint, deferred, nonce);
    assert JobHeard(w, mid, j, f, reg);
    assert w'.jobs[j] == mid.jobs[j] && w'.trace[j] == mid.trace[j];
  }

  lemma RowToTheEnd(w: World, w': World, reply: HeartbeatReply, f: HeartbeatFacts, reg: Registration,
                    deferred: bool, nonce: Nonce, id: RolloutId)
    requires w.Linked() && w'.Linked() && |w.jobs| == |w'.jobs| && id < |w.rollouts| == |w'.rollouts|
    requires HeartbeatDone(w, w', reply, f, reg, deferred, nonce)
    requires forall j :: 0 <= j < |w.jobs| && w.jobs[j].endpoint == f.endpoint && w.jobs[j].status in ACTIVE ==>
               w.jobs[j].rollout != id
    ensures w'.rollouts[id] == w.rollouts[id]
  {
    hide JobHeard, Failures;
    if reply.Managed? {
      var mid :| Judgment(w, mid, f, reg) && Sent(w, mid, w', reply, f.endpoint, deferred, nonce);
      assert RowJudged(w, mid, f.endpoint, id);
    }
  }

  /** The job in flight on the computer ends the heartbeat as its evidence says. */
  lemma JobInFlightIsJudged(past: seq<Action>, f: HeartbeatFacts, reg: Registration, deferred: bool, nonce: Nonce,
                            j: JobId)
    requires PossibleRun(EMPTY, past) && f.authenticated
    ensures
      var w := Exec(EMPTY, past);
      var w' := Heartbeat(w, f, reg, deferred, nonce).0;
      j < |w.jobs| && w.jobs[j].endpoint == f.endpoint && w.jobs[j].status in ACTIVE ==>
        && w.jobs[j].attempts > 0
        && JobJudged(w.rollouts[w.jobs[j].rollout], w.jobs[j], w'.jobs[j], f, reg, w.now)
        && w'.trace[j].dispatches == w.trace[j].dispatches
  {
    hide Heartbeat, Exec, JobJudged, HeartbeatDone;
    HeartbeatDoesThis(past, f, reg, deferred, nonce);
    var w := Exec(EMPTY, past);
    var (w', reply) := Heartbeat(w, f, reg, deferred, nonce);
    if j < |w.jobs| && w.jobs[j].endpoint == f.endpoint && w.jobs[j].status in ACTIVE {
      IsManaged(w, w', reply, f, reg, deferred, nonce, j);
      HeardToTheEnd(w, w', reply, f, reg, deferred, nonce, j);
    }
  }

  lemma IsManaged(w: World, w': World, reply: HeartbeatReply, f: HeartbeatFacts, reg: Registration,
                  deferred: bool, nonce: Nonce, j: JobId)
    requires w.Linked() && w'.Linked() && |w.jobs| == |w'.jobs| && |w.rollouts| == |w'.rollouts| && j < |w.jobs|
    requires HeartbeatDone(w, w', reply, f, reg, deferred, nonce) && f.authenticated
    requires w.jobs[j].endpoint == f.endpoint && w.jobs[j].status in ACTIVE
    ensures reply.Managed?
  {
    hide Judgment, Sent;
    assert w.jobs[j].status in NOT_DONE;
  }

  /**
   A heartbeat leaves every job of another computer alone, and every rollout without a job in flight on
   this one. An unauthenticated one changes nothing.
   */
  lemma OthersAreLeftAlone(past: seq<Action>, f: HeartbeatFacts, reg: Registration, deferred: bool, nonce: Nonce)
    requires PossibleRun(EMPTY, past)
    ensures
      var w := Exec(EMPTY, past);
      var w' := Heartbeat(w, f, reg, deferred, nonce).0;
      && (forall j :: 0 <= j < |w.jobs| && w.jobs[j].endpoint != f.endpoint ==>
            w'.jobs[j] == w.jobs[j] && w'.trace[j] == w.trace[j])
      && (forall id :: 0 <= id < |w.rollouts| ==>
            (forall j :: 0 <= j < |w.jobs| && w.jobs[j].endpoint == f.endpoint && w.jobs[j].status in ACTIVE ==>
               w.jobs[j].rollout != id) ==>
            w'.rollouts[id] == w.rollouts[id])
      && (!f.authenticated ==> w' == w)
  {
    HeartbeatDoesThis(past, f, reg, deferred, nonce);
    var w := Exec(EMPTY, past);
    var (w', reply) := Heartbeat(w, f, reg, deferred, nonce);
    OthersIn(w, w', reply, f, reg, deferred, nonce);
    hide Heartbeat, Exec, HeartbeatDone;
  }

  lemma OthersIn(w: World, w': World, reply: HeartbeatReply, f: HeartbeatFacts, reg: Registration,
                 deferred: bool, nonce: Nonce)
    requires w.Linked() && w'.Linked() && |w.jobs| == |w'.jobs| && |w.rollouts| == |w'.rollouts|
    requires HeartbeatDone(w, w', reply, f, reg, deferred, nonce)
    ensures forall j :: 0 <= j < |w.jobs| && w.jobs[j].endpoint != f.endpoint ==>
              w'.jobs[j] == w.jobs[j] && w'.trace[j] == w.trace[j]
    ensures forall id :: 0 <= id < |w.rollouts| ==>
              (forall j :: 0 <= j < |w.jobs| && w.jobs[j].endpoint == f.endpoint && w.jobs[j].status in ACTIVE ==>
                 w.jobs[j].rollout != id) ==>
              w'.rollouts[id] == w.rollouts[id]
    ensures !f.authenticated ==> w' == w
  {
    forall j | 0 <= j < |w.jobs| && w.jobs[j].endpoint != f.endpoint
      ensures w'.jobs[j] == w.jobs[j] && w'.trace[j] == w.trace[j]
    {
      if reply.Managed? {
        HeardToTheEnd(w, w', reply, f, reg, deferred, nonce, j);
      }
    }
    forall id | 0 <= id < |w.rollouts|
        && (forall j :: 0 <= j < |w.jobs| && w.jobs[j].endpoint == f.endpoint && w.jobs[j].status in ACTIVE ==>
              w.jobs[j].rollout != id)
      ensures w'.rollouts[id] == w.rollouts[id]
    {
      RowToTheEnd(w, w', reply, f, reg, deferred, nonce, id);
    }
  }
}
