/**
 One database row under true interleaving: every call first reads the row and writes later, with other
 calls in between. What a call reads decides whether it goes ahead, what it writes may depend on the row
 as it is then (a conditional update) or not (an update by id). A call that writes twice is two callers
 that read together.
 */
module Interleaving {
  type Caller = int

  /** The rows a call goes ahead on, and what its write does. */
  datatype Protocol<!Row, !Intent> = Protocol(invites: (Row, Intent) -> bool, write: (Row, Intent) -> Row)

  /** A call that has read the row, when it had been written `version` times. */
  datatype Pending<Intent> = Pending(intent: Intent, version: nat)

  datatype State<Row, Intent> = State(row: Row, version: nat, pending: map<Caller, Pending<Intent>>)

  datatype Event<Intent> = Read(caller: Caller, intent: Intent) | Commit(writer: Caller)

  predicate Possible<Row, Intent>(p: Protocol<Row, Intent>, s: State<Row, Intent>, e: Event<Intent>) {
    match e
    case Read(caller, intent) => caller !in s.pending && p.invites(s.row, intent)
    case Commit(caller) => caller in s.pending
  }

  function Step<Row, Intent>(p: Protocol<Row, Intent>, s: State<Row, Intent>, e: Event<Intent>): State<Row, Intent>
    requires Possible(p, s, e)
  {
    match e
    case Read(caller, intent) => s.(pending := s.pending[caller := Pending(intent, s.version)])
    case Commit(caller) => State(p.write(s.row, s.pending[caller].intent), s.version + 1, s.pending - {caller})
  }

  predicate PossibleRun<Row, Intent>(p: Protocol<Row, Intent>, s: State<Row, Intent>, run: seq<Event<Intent>>)
    decreases |run|
  {
    run == [] || (Possible(p, s, run[0]) && PossibleRun(p, Step(p, s, run[0]), run[1..]))
  }

  function Exec<Row, Intent>(p: Protocol<Row, Intent>, s: State<Row, Intent>, run: seq<Event<Intent>>)
    : State<Row, Intent>
    requires PossibleRun(p, s, run)
    decreases |run|
  {
    if run == [] then s else Exec(p, Step(p, s, run[0]), run[1..])
  }

  // ── What is asked of a run ────────────────────────────────────────────────

  /** `holds` is true of the row at every moment. */
  predicate Throughout<Row, Intent>(p: Protocol<Row, Intent>, s: State<Row, Intent>,
      run: seq<Event<Intent>>, holds: Row -> bool)
    requires PossibleRun(p, s, run)
    decreases |run|
  {
    holds(s.row) && (run == [] || Throughout(p, Step(p, s, run[0]), run[1..], holds))
  }

  /** The row never changes. */
  function Same<Row(==)>(row: Row): Row -> bool { (other: Row) => other == row }

  /** Every event takes the row to a row that `good` allows. */
  predicate EachStep<Row, Intent>(p: Protocol<Row, Intent>, s: State<Row, Intent>,
      run: seq<Event<Intent>>, good: (Row, Row) -> bool)
    requires PossibleRun(p, s, run)
    decreases |run|
  {
    run == [] ||
    (good(s.row, Step(p, s, run[0]).row) && EachStep(p, Step(p, s, run[0]), run[1..], good))
  }

  /** No write happens on a row on which it is `bad`. */
  predicate Avoids<Row, Intent>(p: Protocol<Row, Intent>, s: State<Row, Intent>,
      run: seq<Event<Intent>>, bad: (Row, Intent) -> bool)
    requires PossibleRun(p, s, run)
    decreases |run|
  {
    run == [] ||
    (&& (run[0].Commit? ==> !bad(s.row, s.pending[run[0].writer].intent))
     && Avoids(p, Step(p, s, run[0]), run[1..], bad))
  }

  /** Every write finds the row as its call read it. */
  predicate Serial<Row, Intent>(p: Protocol<Row, Intent>, s: State<Row, Intent>, run: seq<Event<Intent>>)
    requires PossibleRun(p, s, run)
    decreases |run|
  {
    run == [] ||
    (&& (run[0].Commit? ==> s.pending[run[0].writer].version == s.version)
     && Serial(p, Step(p, s, run[0]), run[1..]))
  }

  /** A call whose read is current still has a row it goes ahead on. */
  ghost predicate CurrentReadsHold<Row, Intent>(p: Protocol<Row, Intent>, s: State<Row, Intent>) {
    && (forall c :: c in s.pending ==> s.pending[c].version <= s.version)
    && (forall c :: c in s.pending && s.pending[c].version == s.version ==> p.invites(s.row, s.pending[c].intent))
  }

  // ── From one write to whole runs ──────────────────────────────────────────

  /** If exactly the bad writes break a property of the row, it holds throughout exactly when they are avoided. */
  lemma {:induction false} ThroughoutIff<Row(!new), Intent(!new)>(p: Protocol<Row, Intent>, s: State<Row, Intent>,
      run: seq<Event<Intent>>, holds: Row -> bool, bad: (Row, Intent) -> bool)
    requires PossibleRun(p, s, run) && holds(s.row)
    requires forall row: Row, intent: Intent :: holds(row) ==> (holds(p.write(row, intent)) <==> !bad(row, intent))
    ensures Throughout(p, s, run, holds) <==> Avoids(p, s, run, bad)
    decreases |run|
  {
    if run != [] && holds(Step(p, s, run[0]).row) {
      ThroughoutIff(p, Step(p, s, run[0]), run[1..], holds, bad);
    }
  }

  lemma {:induction false} EachStepIff<Row(!new), Intent(!new)>(p: Protocol<Row, Intent>, s: State<Row, Intent>,
      run: seq<Event<Intent>>, good: (Row, Row) -> bool, bad: (Row, Intent) -> bool)
    requires PossibleRun(p, s, run) && forall row: Row :: good(row, row)
    requires forall row: Row, intent: Intent :: good(row, p.write(row, intent)) <==> !bad(row, intent)
    ensures EachStep(p, s, run, good) <==> Avoids(p, s, run, bad)
    decreases |run|
  {
    if run != [] {
      EachStepIff(p, Step(p, s, run[0]), run[1..], good, bad);
    }
  }

  /** If no write is bad on a row its call goes ahead on, calls that do not overlap avoid bad writes. */
  lemma {:induction false} SerialAvoids<Row(!new), Intent(!new)>(p: Protocol<Row, Intent>, s: State<Row, Intent>,
      run: seq<Event<Intent>>, bad: (Row, Intent) -> bool)
    requires PossibleRun(p, s, run) && Serial(p, s, run) && CurrentReadsHold(p, s)
    requires forall row: Row, intent: Intent :: p.invites(row, intent) ==> !bad(row, intent)
    ensures Avoids(p, s, run, bad)
    decreases |run|
  {
    if run != [] {
      SerialAvoids(p, Step(p, s, run[0]), run[1..], bad);
    }
  }

  lemma {:induction false} Preserved<Row(!new), Intent(!new)>(p: Protocol<Row, Intent>, s: State<Row, Intent>,
      run: seq<Event<Intent>>, holds: Row -> bool)
    requires PossibleRun(p, s, run) && holds(s.row)
    requires forall row: Row, intent: Intent :: holds(row) ==> holds(p.write(row, intent))
    ensures Throughout(p, s, run, holds) && holds(Exec(p, s, run).row)
    decreases |run|
  {
    if run != [] {
      Preserved(p, Step(p, s, run[0]), run[1..], holds);
    }
  }

  lemma {:induction false} HoldsAtTheEnd<Row, Intent>(p: Protocol<Row, Intent>, s: State<Row, Intent>,
      run: seq<Event<Intent>>, holds: Row -> bool)
    requires PossibleRun(p, s, run) && Throughout(p, s, run, holds)
    ensures holds(Exec(p, s, run).row)
    decreases |run|
  {
    if run != [] {
      HoldsAtTheEnd(p, Step(p, s, run[0]), run[1..], holds);
    }
  }

  // ── Runs one after the other ──────────────────────────────────────────────

  lemma {:induction false} SplitRun<Row, Intent>(p: Protocol<Row, Intent>, s: State<Row, Intent>,
      past: seq<Event<Intent>>, future: seq<Event<Intent>>)
    requires PossibleRun(p, s, past + future) && CurrentReadsHold(p, s)
    requires Serial(p, s, past + future)
    ensures PossibleRun(p, s, past)
    ensures
      var mid := Exec(p, s, past);
      && CurrentReadsHold(p, mid)
      && PossibleRun(p, mid, future) && Serial(p, mid, future)
      && Exec(p, mid, future) == Exec(p, s, past + future)
    decreases |past|
  {
    if past == [] {
      assert past + future == future;
    } else {
      assert (past + future)[1..] == past[1..] + future && (past + future)[0] == past[0];
      SplitRun(p, Step(p, s, past[0]), past[1..], future);
    }
  }

  lemma NoEvents<Row, Intent>(p: Protocol<Row, Intent>, s: State<Row, Intent>)
    ensures PossibleRun(p, s, []) && Exec(p, s, []) == s
  {
  }

  /** A run may be built up event by event. */
  lemma {:induction false} OneMore<Row, Intent>(p: Protocol<Row, Intent>, start: State<Row, Intent>,
      run: seq<Event<Intent>>, s: State<Row, Intent>, e: Event<Intent>)
    returns (longer: seq<Event<Intent>>, s': State<Row, Intent>)
    requires PossibleRun(p, start, run) && Exec(p, start, run) == s && Possible(p, s, e)
    ensures longer == run + [e] && s' == Step(p, s, e)
    ensures PossibleRun(p, start, longer) && Exec(p, start, longer) == s'
    decreases |run|
  {
    longer, s' := run + [e], Step(p, s, e);
    if run == [] {
      assert [e][1..] == [];
    } else {
      assert (run + [e])[1..] == run[1..] + [e];
      var _, _ := OneMore(p, Step(p, start, run[0]), run[1..], s, e);
    }
  }
}
