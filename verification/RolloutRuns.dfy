/**
 Runs: any sequence of service calls, with the clock moving between them, starting from empty tables.
 Each call is one atomic step. The only assumptions on the inputs are that the clock does not run
 back, that a heartbeat's random nonce was never minted before, and that the endpoint query returns
 each endpoint once.
 */
module RolloutRuns {
  import opened Basics
  import opened RolloutState
  import opened RolloutCalls
  import opened RolloutInvariants
  import opened RolloutWrites
  import opened RolloutKeeps
  import opened RolloutCreation

  datatype Action =
    | Wait(later: Time)
    | CreateRollout(input: RolloutInput)
    | StartRollout(rollout: RolloutId)
    | PauseRollout(rollout: RolloutId)
    | CancelRollout(rollout: RolloutId)
    | CancelOneJob(job: JobId)
    | MinuteTick
    | Beat(facts: HeartbeatFacts, registration: Registration, deferred: bool, nonce: Nonce)
    | FetchInstaller(fetched: Nonce)

  ghost predicate Possible(w: World, a: Action) {
    match a
    case Wait(later) => w.now <= later
    case CreateRollout(input) => Distinct(input.candidates)
    case Beat(_, _, _, nonce) => nonce !in w.minted && IsNonce(nonce)
    case _ => true
  }

  ghost function Step(w: World, a: Action): (w': World)
    requires w.Linked()
    ensures w'.Linked()
  {
    match a
    case Wait(later) => w.(now := later)
    case CreateRollout(input) => Create(w, input)
    case StartRollout(id) => Start(w, id)
    case PauseRollout(id) => Pause(w, id)
    case CancelRollout(id) => Cancel(w, id)
    case CancelOneJob(id) => CancelJob(w, id)
    case MinuteTick => Tick(w)
    case Beat(f, reg, deferred, nonce) => Heartbeat(w, f, reg, deferred, nonce).0
    case FetchInstaller(nonce) => Fetch(w, nonce).0
  }

  ghost function Exec(w: World, run: seq<Action>): (w': World)
    requires w.Linked()
    ensures w'.Linked()
    decreases |run|
  {
    if run == [] then w else Exec(Step(w, run[0]), run[1..])
  }

  ghost predicate PossibleRun(w: World, run: seq<Action>)
    requires w.Linked()
    decreases |run|
  {
    run == [] || (Possible(w, run[0]) && PossibleRun(Step(w, run[0]), run[1..]))
  }

  lemma StepKept(w: World, a: Action)
    requires Inv(w) && Possible(w, a)
    ensures Kept(w, Step(w, a))
  {
    match a
    case Wait(later) => ClockKept(w, later);
    case CreateRollout(input) => CreateKept(w, input);
    case StartRollout(id) => StartKept(w, id);
    case PauseRollout(id) => PauseKept(w, id);
    case CancelRollout(id) => CancelKept(w, id);
    case CancelOneJob(id) => CancelJobKept(w, id);
    case MinuteTick => TickKept(w);
    case Beat(f, reg, deferred, nonce) => HeartbeatKept(w, f, reg, deferred, nonce);
    case FetchInstaller(nonce) => FetchKept(w, nonce);
  }

  lemma EmptyInv()
    ensures Inv(EMPTY)
  {
  }

  /** Whatever happens from a good world on, the invariant holds and nothing evolves illegally. */
  lemma {:induction false} RunKept(w: World, run: seq<Action>)
    requires Inv(w) && PossibleRun(w, run)
    ensures Kept(w, Exec(w, run))
    decreases |run|
  {
    if run == [] {
      EvolvesRefl(w);
    } else {
      StepKept(w, run[0]);
      RunKept(Step(w, run[0]), run[1..]);
      KeptTrans(w, Step(w, run[0]), Exec(w, run));
    }
  }

  lemma {:induction false} ExecAppend(w: World, run: seq<Action>, last: Action)
    requires w.Linked()
    ensures Exec(w, run + [last]) == Step(Exec(w, run), last)
    decreases |run|
  {
    if run == [] {
      assert Exec(Step(w, last), []) == Step(w, last);
    } else {
      assert (run + [last])[1..] == run[1..] + [last];
      ExecAppend(Step(w, run[0]), run[1..], last);
    }
  }

  /** The world after `past` from empty tables, and the one after `future` from there. */
  ghost predicate Continues(past: seq<Action>, future: seq<Action>) {
    PossibleRun(EMPTY, past) && PossibleRun(Exec(EMPTY, past), future)
  }

  lemma Reachable(past: seq<Action>)
    requires PossibleRun(EMPTY, past)
    ensures Inv(Exec(EMPTY, past))
  {
    EmptyInv();
    RunKept(EMPTY, past);
  }

  lemma Later(past: seq<Action>, future: seq<Action>)
    requires Continues(past, future)
    ensures Inv(Exec(EMPTY, past))
    ensures Kept(Exec(EMPTY, past), Exec(Exec(EMPTY, past), future))
  {
    Reachable(past);
    RunKept(Exec(EMPTY, past), future);
  }
}
