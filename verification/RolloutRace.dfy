/**
 One rollout row under interleaving. Pausing and completing write conditionally on RUNNING; starting,
 canceling and releasing the next batch write by id alone, from what they read.
 */
module RolloutRace {
  import opened RolloutState
  import opened Interleaving

  datatype Row = Row(status: RolloutStatus, batch: nat)

  /** `Begin` writes the batch it read or found, `Release` the next one it found. */
  datatype Intent = Begin(first: nat) | Halt | Finish | Stop | Release(next: nat)

  predicate Invites(row: Row, intent: Intent) {
    match intent
    case Begin(first) => (row.status.Draft? && row.batch <= first) || (row.status.Paused? && first == row.batch)
    case Halt => true
    case Finish => row.status.Running?
    case Stop => !row.status.Over()
    case Release(next) => row.status.Running? && next > row.batch
  }

  function Write(row: Row, intent: Intent): Row {
    match intent
    case Begin(first) => Row(Running, first)
    case Halt => if row.status.Running? then row.(status := Paused) else row
    case Finish => if row.status.Running? then row.(status := Completed) else row
    case Stop => row.(status := RolloutStatus.Canceled)
    case Release(next) => row.(batch := next)
  }

  function Calls(): Protocol<Row, Intent> { Protocol(Invites, Write) }

  // ── Finality ──────────────────────────────────────────────────────────────

  /** The write starts a rollout that is over, cancels a completed one, or moves its batch. */
  predicate Reopens(row: Row, intent: Intent) {
    && row.status.Over()
    && match intent
       case Begin(_) => true
       case Stop => row.status.Completed?
       case Release(next) => next != row.batch
       case _ => false
  }

  /** A rollout that is over stays as it is exactly when no such write, read earlier, comes after. */
  lemma OverHoldsIff(s: State<Row, Intent>, run: seq<Event<Intent>>)
    requires s.row.status.Over() && PossibleRun(Calls(), s, run)
    ensures Throughout(Calls(), s, run, Same(s.row)) <==> Avoids(Calls(), s, run, Reopens)
  {
    ThroughoutIff(Calls(), s, run, Same(s.row), Reopens);
  }

  // ── Batches ───────────────────────────────────────────────────────────────

  predicate Forward(row: Row, row': Row) { row.batch <= row'.batch }

  /** The write names a batch below the current one. */
  predicate MovesBack(row: Row, intent: Intent) {
    (intent.Begin? && intent.first < row.batch) || (intent.Release? && intent.next < row.batch)
  }

  /** Batches only go up exactly when no start or release is written over a later batch. */
  lemma BatchesGoUpIff(s: State<Row, Intent>, run: seq<Event<Intent>>)
    requires PossibleRun(Calls(), s, run)
    ensures EachStep(Calls(), s, run, Forward) <==> Avoids(Calls(), s, run, MovesBack)
  {
    EachStepIff(Calls(), s, run, Forward, MovesBack);
  }

  lemma InvitedWritesAreGood(row: Row, intent: Intent)
    requires Invites(row, intent)
    ensures !Reopens(row, intent) && !MovesBack(row, intent)
  {
  }

  /** When calls do not overlap, batches only go up and a rollout that is over stays as it is. */
  lemma SerialCallsAreSafe(row: Row, past: seq<Event<Intent>>, future: seq<Event<Intent>>)
    requires PossibleRun(Calls(), State(row, 0, map[]), past + future)
    requires Serial(Calls(), State(row, 0, map[]), past + future)
    ensures EachStep(Calls(), State(row, 0, map[]), past + future, Forward)
    ensures PossibleRun(Calls(), State(row, 0, map[]), past)
    ensures
      var s := Exec(Calls(), State(row, 0, map[]), past);
      s.row.status.Over() ==> Exec(Calls(), State(row, 0, map[]), past + future).row == s.row
  {
    var start: State<Row, Intent> := State(row, 0, map[]);
    forall row: Row, intent: Intent | Calls().invites(row, intent)
      ensures !Reopens(row, intent) && !MovesBack(row, intent)
    {
      InvitedWritesAreGood(row, intent);
    }
    SerialAvoids(Calls(), start, past + future, MovesBack);
    BatchesGoUpIff(start, past + future);
    SplitRun(Calls(), start, past, future);
    var s := Exec(Calls(), start, past);
    if s.row.status.Over() {
      SerialAvoids(Calls(), s, future, Reopens);
      OverHoldsIff(s, future);
      HoldsAtTheEnd(Calls(), s, future, Same(s.row));
    }
  }

  // ── Overlapping calls break both ──────────────────────────────────────────

  const RESUMED_LATE: seq<Event<Intent>> := [Read(1, Begin(1)), Read(2, Stop), Commit(2), Commit(1)]

  /** A resume that read PAUSED revives a rollout canceled meanwhile. */
  lemma OverlapRevivesACanceledRollout()
    ensures
      var s: State<Row, Intent> := State(Row(Paused, 1), 0, map[]);
      && PossibleRun(Calls(), s, RESUMED_LATE[..3]) && Exec(Calls(), s, RESUMED_LATE[..3]).row.status.Canceled?
      && PossibleRun(Calls(), s, RESUMED_LATE) && Exec(Calls(), s, RESUMED_LATE).row.status.Running?
  {
    hide PossibleRun, Exec;
    var start: State<Row, Intent> := State(Row(Paused, 1), 0, map[]);
    NoEvents(Calls(), start);
    var run: seq<Event<Intent>>, s := [], start;
    run, s := OneMore(Calls(), start, run, s, Read(1, Begin(1)));
    run, s := OneMore(Calls(), start, run, s, Read(2, Stop));
    run, s := OneMore(Calls(), start, run, s, Commit(2));
    assert run == RESUMED_LATE[..3];
    run, s := OneMore(Calls(), start, run, s, Commit(1));
    assert run == RESUMED_LATE;
  }

  const TICKED_LATE: seq<Event<Intent>> :=
    [Read(1, Release(1)), Read(2, Release(1)), Commit(2), Read(3, Release(2)), Commit(3), Commit(1)]

  /** A tick that is slow to release batch 1 takes back the release of batch 2. */
  lemma OverlapMovesBack()
    ensures
      var s: State<Row, Intent> := State(Row(Running, 0), 0, map[]);
      && PossibleRun(Calls(), s, TICKED_LATE[..5]) && Exec(Calls(), s, TICKED_LATE[..5]).row.batch == 2
      && PossibleRun(Calls(), s, TICKED_LATE) && Exec(Calls(), s, TICKED_LATE).row.batch == 1
  {
    hide PossibleRun, Exec;
    var start: State<Row, Intent> := State(Row(Running, 0), 0, map[]);
    NoEvents(Calls(), start);
    var run: seq<Event<Intent>>, s := [], start;
    run, s := OneMore(Calls(), start, run, s, Read(1, Release(1)));
    run, s := OneMore(Calls(), start, run, s, Read(2, Release(1)));
    run, s := OneMore(Calls(), start, run, s, Commit(2));
    run, s := OneMore(Calls(), start, run, s, Read(3, Release(2)));
    run, s := OneMore(Calls(), start, run, s, Commit(3));
    assert run == TICKED_LATE[..5];
    run, s := OneMore(Calls(), start, run, s, Commit(1));
    assert run == TICKED_LATE;
  }
}
