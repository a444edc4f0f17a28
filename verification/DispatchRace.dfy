/**
 One job row under true interleaving. The dispatch and the installer fetch write conditionally on the
 status; every verdict writes by id alone, from what it read.
 */
module DispatchRace {
  import opened RolloutState
  import opened Interleaving

  /**
   The row and, for the promises about it, the installers `handedOut`, the `stays` in Requested so far,
   and the installers handed out `inStay` since the last of them began.
   */
  datatype Row = Row(status: JobStatus, attempts: nat, handedOut: nat, stays: nat, inStay: nat)

  datatype Intent =
    | Claim
    | Fetch
    | Retry(attemptsRead: nat)
    | Report
    | Verify
    | FailNow
    | CancelNow

  const START: State<Row, Intent> := State(Row(Requested, 0, 0, 1, 0), 0, map[])

  /** The rows each call goes ahead on. */
  predicate Invites(row: Row, intent: Intent) {
    match intent
    case Claim => row.status.Requested?
    case Fetch => row.status.Dispatched?
    case Retry(a) => row.status.InFlight() && a == row.attempts
    case Report => row.status.Dispatched? || row.status.Installing?
    case Verify => row.status.InFlight()
    case FailNow => row.status.InFlight()
    case CancelNow => row.status.Unfinished()
  }

  function WrittenStatus(status: JobStatus, intent: Intent, maxAttempts: nat): JobStatus {
    match intent
    case Claim => if status.Requested? then Dispatched else status
    case Fetch => if status.Dispatched? then Installing else status
    case Retry(a) => if a >= maxAttempts then Failed else Requested
    case Report => AwaitingVerification
    case Verify => Succeeded
    case FailNow => Failed
    case CancelNow => JobStatus.Canceled
  }

  /** The write with its bookkeeping: a claim that finds the job waiting hands out an installer. */
  function Write(row: Row, intent: Intent, maxAttempts: nat): Row {
    var status := WrittenStatus(row.status, intent, maxAttempts);
    var given := if intent.Claim? && row.status.Requested? then 1 else 0;
    if status.Requested? && !row.status.Requested?
    then Row(status, row.attempts, row.handedOut, row.stays + 1, 0)
    else Row(status, row.attempts + given, row.handedOut + given, row.stays, row.inStay + given)
  }

  function Calls(maxAttempts: nat): Protocol<Row, Intent> {
    Protocol(Invites, (row, intent) => Write(row, intent, maxAttempts))
  }

  // ── What survives every interleaving ──────────────────────────────────────

  predicate Accounted(row: Row) {
    && row.handedOut == row.attempts
    && row.inStay <= (if row.status.Requested? then 0 else 1)
    && row.handedOut + (if row.status.Requested? then 1 else 0) <= row.stays
  }

  /**
   However reads and writes interleave, the installers handed out are exactly the attempts counted,
   each stay in Requested gives at most one, and a waiting job has given none in this stay.
   */
  lemma RacingHeartbeats(run: seq<Event<Intent>>, maxAttempts: nat)
    requires PossibleRun(Calls(maxAttempts), START, run)
    ensures
      var row := Exec(Calls(maxAttempts), START, run).row;
      && row.handedOut == row.attempts
      && row.inStay <= 1 && (row.status.Requested? ==> row.inStay == 0)
      && row.handedOut <= row.stays
  {
    Preserved(Calls(maxAttempts), START, run, Accounted);
  }

  // ── The attempt cap ───────────────────────────────────────────────────────

  function Capped(maxAttempts: nat): Row -> bool {
    (row: Row) => row.attempts <= maxAttempts && (row.status.Requested? ==> row.attempts < maxAttempts)
  }

  /** The write sends a job back for another attempt that has already used them up. */
  function Overruns(maxAttempts: nat): (Row, Intent) -> bool {
    (row: Row, intent: Intent) => intent.Retry? && intent.attemptsRead < maxAttempts <= row.attempts
  }

  /** The attempt cap holds throughout a run exactly when no retry is written over used-up attempts. */
  lemma CapHoldsIff(s: State<Row, Intent>, run: seq<Event<Intent>>, maxAttempts: nat)
    requires Capped(maxAttempts)(s.row) && PossibleRun(Calls(maxAttempts), s, run)
    ensures Throughout(Calls(maxAttempts), s, run, Capped(maxAttempts)) <==>
            Avoids(Calls(maxAttempts), s, run, Overruns(maxAttempts))
  {
    ThroughoutIff(Calls(maxAttempts), s, run, Capped(maxAttempts), Overruns(maxAttempts));
  }

  // ── Finality ──────────────────────────────────────────────────────────────

  /** The write replaces the verdict of a finished job, or takes it back. */
  function Overwrites(maxAttempts: nat): (Row, Intent) -> bool {
    (row: Row, intent: Intent) =>
      && !row.status.Unfinished()
      && match intent
         case Claim => false
         case Fetch => false
         case Retry(a) => a < maxAttempts || !row.status.Failed?
         case Report => true
         case Verify => !row.status.Succeeded?
         case FailNow => !row.status.Failed?
         case CancelNow => !row.status.Canceled?
  }

  /** A finished row is final exactly when no call that read it earlier writes another status over it. */
  lemma FinishedHoldsIff(s: State<Row, Intent>, run: seq<Event<Intent>>, maxAttempts: nat)
    requires !s.row.status.Unfinished() && PossibleRun(Calls(maxAttempts), s, run)
    ensures Throughout(Calls(maxAttempts), s, run, Same(s.row)) <==>
            Avoids(Calls(maxAttempts), s, run, Overwrites(maxAttempts))
  {
    ThroughoutIff(Calls(maxAttempts), s, run, Same(s.row), Overwrites(maxAttempts));
  }

  function Finished(): Row -> bool { (row: Row) => !row.status.Unfinished() }

  /** The write puts a finished job back to work. */
  function Revives(maxAttempts: nat): (Row, Intent) -> bool {
    (row: Row, intent: Intent) =>
      !row.status.Unfinished() && (intent.Report? || (intent.Retry? && intent.attemptsRead < maxAttempts))
  }

  /** A finished job is never put back to work exactly when no retry or report read earlier is written over it. */
  lemma StaysFinishedIff(s: State<Row, Intent>, run: seq<Event<Intent>>, maxAttempts: nat)
    requires !s.row.status.Unfinished() && PossibleRun(Calls(maxAttempts), s, run)
    ensures Throughout(Calls(maxAttempts), s, run, Finished()) <==>
            Avoids(Calls(maxAttempts), s, run, Revives(maxAttempts))
  {
    ThroughoutIff(Calls(maxAttempts), s, run, Finished(), Revives(maxAttempts));
  }

  /** When calls do not overlap, attempts are capped throughout and a finished row stays as it is. */
  lemma SerialRunsAreSafe(past: seq<Event<Intent>>, future: seq<Event<Intent>>, maxAttempts: nat)
    requires maxAttempts > 0
    requires PossibleRun(Calls(maxAttempts), START, past + future) && Serial(Calls(maxAttempts), START, past + future)
    ensures Throughout(Calls(maxAttempts), START, past + future, Capped(maxAttempts))
    ensures PossibleRun(Calls(maxAttempts), START, past)
    ensures
      var s := Exec(Calls(maxAttempts), START, past);
      !s.row.status.Unfinished() ==> Exec(Calls(maxAttempts), START, past + future).row == s.row
  {
    SerialAvoids(Calls(maxAttempts), START, past + future, Overruns(maxAttempts));
    CapHoldsIff(START, past + future, maxAttempts);
    SplitRun(Calls(maxAttempts), START, past, future);
    var s := Exec(Calls(maxAttempts), START, past);
    if !s.row.status.Unfinished() {
      SerialAvoids(Calls(maxAttempts), s, future, Overwrites(maxAttempts));
      FinishedHoldsIff(s, future, maxAttempts);
      HoldsAtTheEnd(Calls(maxAttempts), s, future, Same(s.row));
    }
  }

  // ── Overlapping calls break both ──────────────────────────────────────────

  /** Two calls time out the same dispatch, the slow one after the job went out again. */
  const TWO_TIMEOUTS: seq<Event<Intent>> :=
    [Read(1, Claim), Commit(1), Read(2, Retry(1)), Read(3, Retry(1)), Commit(2),
     Read(4, Claim), Commit(4), Commit(3), Read(5, Claim), Commit(5)]

  /** After the first timeout: the job waits for its second attempt, the other timeout is still to be written. */
  const ONE_TIMEOUT: State<Row, Intent> := State(Row(Requested, 1, 1, 2, 0), 2, map[3 := Pending(Retry(1), 1)])

  lemma FirstTimeout() returns (run: seq<Event<Intent>>)
    ensures run == TWO_TIMEOUTS[..5]
    ensures PossibleRun(Calls(2), START, run) && Exec(Calls(2), START, run) == ONE_TIMEOUT
  {
    hide PossibleRun, Exec;
    NoEvents(Calls(2), START);
    run := [];
    var s := START;
    run, s := OneMore(Calls(2), START, run, s, Read(1, Claim));
    run, s := OneMore(Calls(2), START, run, s, Commit(1));
    run, s := OneMore(Calls(2), START, run, s, Read(2, Retry(1)));
    run, s := OneMore(Calls(2), START, run, s, Read(3, Retry(1)));
    run, s := OneMore(Calls(2), START, run, s, Commit(2));
  }

  /** That makes a third installer with a cap of two. */
  lemma OverlapBeatsTheCap()
    ensures PossibleRun(Calls(2), START, TWO_TIMEOUTS)
    ensures Exec(Calls(2), START, TWO_TIMEOUTS).row.attempts == 3
  {
    hide PossibleRun, Exec;
    var run := FirstTimeout();
    var s := ONE_TIMEOUT;
    run, s := OneMore(Calls(2), START, run, s, Read(4, Claim));
    run, s := OneMore(Calls(2), START, run, s, Commit(4));
    run, s := OneMore(Calls(2), START, run, s, Commit(3));
    run, s := OneMore(Calls(2), START, run, s, Read(5, Claim));
    run, s := OneMore(Calls(2), START, run, s, Commit(5));
    assert run == TWO_TIMEOUTS;
  }

  /** A call reads a dispatched job, and an operator cancels the job before it writes. */
  function CanceledMeanwhile(intent: Intent): seq<Event<Intent>> {
    [Read(1, Claim), Commit(1), Read(2, intent), Read(3, CancelNow), Commit(3)]
  }

  lemma OverCancel(intent: Intent)
    requires Invites(START.row.(status := Dispatched, attempts := 1), intent)
    ensures PossibleRun(Calls(2), START, CanceledMeanwhile(intent))
    ensures Exec(Calls(2), START, CanceledMeanwhile(intent)).row.status.Canceled?
    ensures PossibleRun(Calls(2), START, CanceledMeanwhile(intent) + [Commit(2)])
    ensures Exec(Calls(2), START, CanceledMeanwhile(intent) + [Commit(2)]).row.status ==
            WrittenStatus(JobStatus.Canceled, intent, 2)
  {
    hide PossibleRun, Exec;
    NoEvents(Calls(2), START);
    var run: seq<Event<Intent>>, s := [], START;
    run, s := OneMore(Calls(2), START, run, s, Read(1, Claim));
    run, s := OneMore(Calls(2), START, run, s, Commit(1));
    run, s := OneMore(Calls(2), START, run, s, Read(2, intent));
    run, s := OneMore(Calls(2), START, run, s, Read(3, CancelNow));
    run, s := OneMore(Calls(2), START, run, s, Commit(3));
    assert run == CanceledMeanwhile(intent);
    run, s := OneMore(Calls(2), START, run, s, Commit(2));
  }

  /** A timeout that read the job before it was canceled sends it back to REQUESTED. */
  lemma OverlapRevivesACanceledJob()
    ensures
      var run := CanceledMeanwhile(Retry(1));
      && PossibleRun(Calls(2), START, run) && Exec(Calls(2), START, run).row.status.Canceled?
      && PossibleRun(Calls(2), START, run + [Commit(2)])
      && Exec(Calls(2), START, run + [Commit(2)]).row.status.Requested?
  {
    OverCancel(Retry(1));
  }

  /** A heartbeat that waits on hbbs meanwhile writes its success over the cancellation. */
  lemma OverlapReplacesAVerdict()
    ensures
      var run := CanceledMeanwhile(Verify);
      && PossibleRun(Calls(2), START, run) && Exec(Calls(2), START, run).row.status.Canceled?
      && PossibleRun(Calls(2), START, run + [Commit(2)])
      && Exec(Calls(2), START, run + [Commit(2)]).row.status.Succeeded?
  {
    OverCancel(Verify);
  }
}
