/**
 All job rows of one computer under interleaving. A heartbeat claims one of them after it has seen none
 in flight; which one depends on batches and backoff, so any waiting job may be the one it picks.
 */
module ComputerRace {
  import opened RolloutState
  import opened Interleaving
  import opened DispatchRace

  type Rows = seq<Row>

  datatype Call = Call(job: JobId, intent: Intent)

  predicate InFlight(rows: Rows, j: JobId) { j < |rows| && rows[j].status.InFlight() }

  predicate OtherInFlight(rows: Rows, j: JobId) { exists k :: 0 <= k < |rows| && k != j && InFlight(rows, k) }

  function OnComputer(maxAttempts: nat): Protocol<Rows, Call> {
    Protocol(
      (rows: Rows, c: Call) =>
        && c.job < |rows| && Invites(rows[c.job], c.intent)
        && (c.intent.Claim? ==> !OtherInFlight(rows, c.job)),
      (rows: Rows, c: Call) =>
        if c.job < |rows| then rows[c.job := Write(rows[c.job], c.intent, maxAttempts)] else rows)
  }

  /** At most one installer in flight. */
  predicate Exclusive(rows: Rows) {
    forall i, k :: 0 <= i < k < |rows| ==> !(InFlight(rows, i) && InFlight(rows, k))
  }

  /** The write brings a job into flight, by its claim or by a late report, while another one is. */
  predicate Collides(rows: Rows, c: Call) {
    && c.job < |rows|
    && ((c.intent.Claim? && rows[c.job].status.Requested?) || (c.intent.Report? && !InFlight(rows, c.job)))
    && OtherInFlight(rows, c.job)
  }

  lemma WriteExclusive(rows: Rows, c: Call, maxAttempts: nat)
    requires Exclusive(rows)
    ensures Exclusive(OnComputer(maxAttempts).write(rows, c)) <==> !Collides(rows, c)
  {
    if c.job < |rows| {
      var rows' := rows[c.job := Write(rows[c.job], c.intent, maxAttempts)];
      assert forall k :: 0 <= k < |rows| && k != c.job ==> InFlight(rows', k) == InFlight(rows, k);
      if Collides(rows, c) {
        var k :| 0 <= k < |rows| && k != c.job && InFlight(rows, k);
        assert InFlight(rows', k) && InFlight(rows', c.job);
      } else if InFlight(rows', c.job) && !InFlight(rows, c.job) {
        assert !OtherInFlight(rows, c.job);
      }
    }
  }

  /** One installer in flight per computer survives exactly the interleavings without such a write. */
  lemma ExclusionHoldsIff(s: State<Rows, Call>, run: seq<Event<Call>>, maxAttempts: nat)
    requires Exclusive(s.row) && PossibleRun(OnComputer(maxAttempts), s, run)
    ensures Throughout(OnComputer(maxAttempts), s, run, Exclusive) <==>
            Avoids(OnComputer(maxAttempts), s, run, Collides)
  {
    forall rows: Rows, c: Call | Exclusive(rows)
      ensures Exclusive(OnComputer(maxAttempts).write(rows, c)) <==> !Collides(rows, c)
    {
      WriteExclusive(rows, c, maxAttempts);
    }
    ThroughoutIff(OnComputer(maxAttempts), s, run, Exclusive, Collides);
  }

  /** So it holds throughout when calls do not overlap. */
  lemma SerialCallsExclude(rows: Rows, run: seq<Event<Call>>, maxAttempts: nat)
    requires Exclusive(rows) && PossibleRun(OnComputer(maxAttempts), State(rows, 0, map[]), run)
    requires Serial(OnComputer(maxAttempts), State(rows, 0, map[]), run)
    ensures Throughout(OnComputer(maxAttempts), State(rows, 0, map[]), run, Exclusive)
  {
    SerialAvoids(OnComputer(maxAttempts), State(rows, 0, map[]), run, Collides);
    ExclusionHoldsIff(State(rows, 0, map[]), run, maxAttempts);
  }

  const WAITING: Row := Row(Requested, 0, 0, 1, 0)

  /** Two heartbeats, each of which sees nothing in flight, claim a job each. */
  const TWO_CLAIMS: seq<Event<Call>> := [Read(1, Call(1, Claim)), Read(2, Call(0, Claim)), Commit(2), Commit(1)]

  lemma OverlapSendsTwoInstallers()
    ensures
      var s: State<Rows, Call> := State([WAITING, WAITING], 0, map[]);
      && PossibleRun(OnComputer(3), s, TWO_CLAIMS)
      && InFlight(Exec(OnComputer(3), s, TWO_CLAIMS).row, 0) && InFlight(Exec(OnComputer(3), s, TWO_CLAIMS).row, 1)
  {
    hide PossibleRun, Exec;
    var start: State<Rows, Call> := State([WAITING, WAITING], 0, map[]);
    NoEvents(OnComputer(3), start);
    var run: seq<Event<Call>>, s := [], start;
    run, s := OneMore(OnComputer(3), start, run, s, Read(1, Call(1, Claim)));
    run, s := OneMore(OnComputer(3), start, run, s, Read(2, Call(0, Claim)));
    run, s := OneMore(OnComputer(3), start, run, s, Commit(2));
    run, s := OneMore(OnComputer(3), start, run, s, Commit(1));
    assert run == TWO_CLAIMS;
  }
}
