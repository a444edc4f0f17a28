/**
 The per-account lockout of password sign-in and step-up. The class keeps the failure map as the
 source does; a ghost log of the attempts that reached verification is what its promise is about.

 The policy is constant. Here a sign-in or step-up runs as a whole; LockoutRace lets them overlap.
 */
module LoginLockout {
  import opened Basics
  import opened Wrappers

  type UserId = int

  /** An attempt that got as far as checking the password or code. */
  datatype Entry = Entry(time: Time, ok: bool)

  datatype Failures = Failures(count: nat, lockedUntil: Time)

  datatype Policy = Policy(max: int, minutes: int)
  {
    function Length(): int { minutes * 60_000 }
  }

  // ── The stored state as a function of the log ─────────────────────────────

  function Locked(state: Option<Failures>, now: Time): bool {
    state.Some? && state.value.lockedUntil > now
  }

  function NextFailure(state: Option<Failures>, now: Time, p: Policy): Failures {
    var count := (if state.Some? && state.value.lockedUntil > now - p.Length() then state.value.count else 0) + 1;
    Failures(count, if count >= p.max then now + p.Length() else now)
  }

  function AfterEntry(state: Option<Failures>, e: Entry, p: Policy): Option<Failures> {
    if e.ok then None
    else if p.max <= 0 then state
    else Some(NextFailure(state, e.time, p))
  }

  function Replay(log: seq<Entry>, p: Policy): Option<Failures> {
    if log == [] then None
    else AfterEntry(Replay(log[..|log| - 1], p), log[|log| - 1], p)
  }

  /** Every attempt came no earlier than the one before it, and while the account was not locked. */
  ghost predicate Lawful(log: seq<Entry>, p: Policy) {
    forall k :: 0 <= k < |log| ==> Admitted(log, k, p)
  }

  ghost predicate Admitted(log: seq<Entry>, k: nat, p: Policy)
    requires k < |log|
  {
    && (k > 0 ==> log[k - 1].time <= log[k].time)
    && !Locked(Replay(log[..k], p), log[k].time)
  }

  // ── What the stored count counts ──────────────────────────────────────────

  /** How soon a failure must follow the `m`-th one of a run to still be counted with it. */
  function Reach(p: Policy, m: nat): int {
    if m >= p.max then 2 * p.Length() else p.Length()
  }

  /**
   The last `n` attempts are failures, each within reach of the one before it: a lockout length
   while attempts remain, and one more after the lockout that the run has earned.
   */
  ghost predicate FailureRun(log: seq<Entry>, p: Policy, n: nat) {
    && 1 <= n <= |log|
    && (forall k :: |log| - n <= k < |log| ==> !log[k].ok)
    && (forall m :: 1 <= m < n ==> InReach(log, p, n, m))
  }

  predicate InReach(log: seq<Entry>, p: Policy, n: nat, m: nat)
    requires 1 <= m < n <= |log|
  {
    log[|log| - n + m].time - log[|log| - n + m - 1].time < Reach(p, m)
  }

  /** The run is as long as it can be. */
  ghost predicate CountedRun(log: seq<Entry>, p: Policy, n: nat)
    decreases |log|, 0
  {
    FailureRun(log, p, n) && Separate(log[..|log| - n], p, log[|log| - n].time)
  }

  /** What came before has nothing to do with a failure at `time`: nothing, a success, or a run out of reach. */
  ghost predicate Separate(before: seq<Entry>, p: Policy, time: Time)
    decreases |before|, 1
  {
    || before == []
    || before[|before| - 1].ok
    || exists m: nat :: CountedRun(before, p, m) && time - before[|before| - 1].time >= Reach(p, m)
  }

  lemma RunInReach(log: seq<Entry>, p: Policy, n: nat, m: nat)
    requires FailureRun(log, p, n) && 1 <= m < n
    ensures n <= |log| && InReach(log, p, n, m)
  {
  }

  lemma ShorterRun(log: seq<Entry>, p: Policy, n: nat, k: nat)
    requires CountedRun(log, p, n) && 1 <= k < n
    ensures k < |log| && CountedRun(log[..|log| - k], p, n - k)
  {
    hide Reach, Separate;
    var before, left := log[..|log| - k], n - k;
    forall m | 1 <= m < left ensures InReach(before, p, left, m) {
      RunInReach(log, p, n, m);
    }
    assert before[..|before| - left] == log[..|log| - n];
  }

  lemma {:induction false} OneCountedRun(log: seq<Entry>, p: Policy, n: nat, n': nat)
    requires CountedRun(log, p, n) && CountedRun(log, p, n') && n <= n'
    ensures n == n'
    decreases |log|
  {
    if n < n' {
      var i := |log| - n;
      assert !log[i].ok && !log[i - 1].ok;
      ShorterRun(log, p, n', n);
      RunInReach(log, p, n', n' - n);
      hide Reach, FailureRun;
      var m: nat :| CountedRun(log[..i], p, m) && log[i].time - log[i - 1].time >= Reach(p, m);
      if m <= n' - n {
        OneCountedRun(log[..i], p, m, n' - n);
      } else {
        OneCountedRun(log[..i], p, n' - n, m);
      }
    }
  }

  lemma {:induction false} StoredFailure(log: seq<Entry>, p: Policy)
    requires p.max > 0 && log != [] && !log[|log| - 1].ok
    ensures
      var s := Replay(log, p);
      && s.Some? && s.value.count >= 1
      && s.value.lockedUntil == log[|log| - 1].time + (if s.value.count >= p.max then p.Length() else 0)
  {
  }

  lemma {:induction false} CountIsCounted(log: seq<Entry>, p: Policy)
    requires p.max > 0
    ensures Replay(log, p).Some? <==> log != [] && !log[|log| - 1].ok
    ensures Replay(log, p).Some? ==> CountedRun(log, p, Replay(log, p).value.count)
    decreases |log|
  {
    if log != [] && !log[|log| - 1].ok {
      StoredFailure(log, p);
      var before := log[..|log| - 1];
      CountIsCounted(before, p);
      if before != [] && !before[|before| - 1].ok {
        StoredFailure(before, p);
        OneMoreFailure(log, p, Replay(before, p).value.count);
      }
    }
  }

  lemma LongerRun(log: seq<Entry>, p: Policy, m: nat)
    requires |log| >= 2 && !log[|log| - 1].ok && FailureRun(log[..|log| - 1], p, m)
    requires log[|log| - 1].time - log[|log| - 2].time < Reach(p, m)
    ensures FailureRun(log, p, m + 1)
  {
    hide Reach;
    var before, n := log[..|log| - 1], m + 1;
    forall k | 1 <= k < n ensures InReach(log, p, n, k) {
      if k < m {
        assert InReach(before, p, m, k);
      }
    }
  }

  lemma RunGoesOn(log: seq<Entry>, p: Policy, m: nat)
    requires |log| >= 2 && !log[|log| - 1].ok && CountedRun(log[..|log| - 1], p, m)
    requires log[|log| - 1].time - log[|log| - 2].time < Reach(p, m)
    ensures CountedRun(log, p, m + 1)
  {
    LongerRun(log, p, m);
    hide Reach, InReach, Separate;
    var before := log[..|log| - 1];
    assert log[..|log| - (m + 1)] == before[..|before| - m];
  }

  lemma RunStartsOver(log: seq<Entry>, p: Policy, m: nat)
    requires |log| >= 2 && !log[|log| - 1].ok && CountedRun(log[..|log| - 1], p, m)
    requires log[|log| - 1].time - log[|log| - 2].time >= Reach(p, m)
    ensures CountedRun(log, p, 1)
  {
    hide Reach, InReach;
    assert Separate(log[..|log| - 1], p, log[|log| - 1].time) by {
      hide FailureRun;
    }
  }

  lemma OneMoreFailure(log: seq<Entry>, p: Policy, m: nat)
    requires |log| >= 2 && !log[|log| - 1].ok && CountedRun(log[..|log| - 1], p, m)
    ensures CountedRun(log, p, if log[|log| - 1].time - log[|log| - 2].time < Reach(p, m) then m + 1 else 1)
  {
    hide Reach, CountedRun;
    if log[|log| - 1].time - log[|log| - 2].time < Reach(p, m) {
      RunGoesOn(log, p, m);
    } else {
      RunStartsOver(log, p, m);
    }
  }

  /**
   An account has a count exactly when its last attempt failed. The count is then the length of the
   longest run of failures that attempt ends, and only a run of `max` or more locks the account.
   */
  lemma CountIsTheRun(log: seq<Entry>, p: Policy, n: nat)
    requires p.max > 0
    ensures
      var s := Replay(log, p);
      && (s.Some? <==> log != [] && !log[|log| - 1].ok)
      && (s.Some? && s.value.count == n <==> CountedRun(log, p, n))
      && (CountedRun(log, p, n) ==> s.value.lockedUntil == log[|log| - 1].time + (if n >= p.max then p.Length() else 0))
  {
    CountIsCounted(log, p);
    if CountedRun(log, p, n) {
      StoredFailure(log, p);
      var m := Replay(log, p).value.count;
      if n <= m {
        OneCountedRun(log, p, n, m);
      } else {
        OneCountedRun(log, p, m, n);
      }
    }
  }

  /**
   A lockout does not clear the count: after `max` failures in a run, the next one locks the account at
   once exactly when it comes less than two lockout lengths after the last, or when one failure is enough.
   */
  lemma OneMistakeRelocksIff(log: seq<Entry>, p: Policy, n: nat, e: Entry)
    requires p.max > 0 && CountedRun(log, p, n) && n >= p.max && !e.ok
    ensures Locked(Replay(log + [e], p), e.time) <==>
            p.Length() > 0 && (e.time - log[|log| - 1].time < 2 * p.Length() || p.max == 1)
  {
    CountIsTheRun(log, p, n);
    assert (log + [e])[..|log|] == log;
  }

  /** Two failures lock the account for a minute; one more, right after the minute, locks it again. */
  lemma RelockHappens()
    ensures
      var p := Policy(2, 1);
      var log := [Entry(0, false), Entry(0, false), Entry(60_000, false)];
      Lawful(log, p) && Replay(log, p) == Some(Failures(3, 120_000))
  {
    var p := Policy(2, 1);
    var log := [Entry(0, false), Entry(0, false), Entry(60_000, false)];
    assert log[..0] == [] && log[..1] == [log[0]] && log[..2] == [log[0], log[1]] && log[..3] == log;
    ReplayStep(log, p, 0);
    ReplayStep(log, p, 1);
    ReplayStep(log, p, 2);
    forall k | 0 <= k < |log| ensures Admitted(log, k, p) {
      assert k == 0 || k == 1 || k == 2;
    }
  }

  // ── At most max failures in any window ────────────────────────────────────

  ghost predicate Ordered(log: seq<Entry>) {
    forall i, k :: 0 <= i <= k < |log| ==> log[i].time <= log[k].time
  }

  lemma {:induction false} TimesOrdered(log: seq<Entry>, p: Policy, i: nat, k: nat)
    requires Lawful(log, p) && i <= k < |log|
    ensures log[i].time <= log[k].time
    decreases k - i
  {
    if i < k {
      TimesOrdered(log, p, i, k - 1);
      assert Admitted(log, k, p);
    }
  }

  lemma LawfulIsOrdered(log: seq<Entry>, p: Policy)
    requires Lawful(log, p)
    ensures Ordered(log)
  {
    forall i, k | 0 <= i <= k < |log| ensures log[i].time <= log[k].time {
      TimesOrdered(log, p, i, k);
    }
  }

  lemma ReplayStep(log: seq<Entry>, p: Policy, k: nat)
    requires k < |log|
    ensures Replay(log[..k + 1], p) == AfterEntry(Replay(log[..k], p), log[k], p)
  {
    assert log[..k + 1][..k] == log[..k];
  }

  /** Through failures closer together than the lockout, the count goes up by one each time. */
  lemma {:induction false} CountGrows(log: seq<Entry>, p: Policy, i: nat, k: nat)
    requires Ordered(log) && p.max > 0 && i <= k < |log|
    requires forall m :: i <= m <= k ==> !log[m].ok
    requires log[k].time - log[i].time < p.Length()
    ensures
      var s := Replay(log[..k + 1], p);
      s.Some? && s.value.count >= k - i + 1 && s.value.lockedUntil >= log[k].time
    decreases k - i
  {
    ReplayStep(log, p, k);
    if i < k {
      CountGrows(log, p, i, k - 1);
    }
  }

  /** Once `max` are counted, the next attempt comes a whole lockout later. */
  lemma LockedAfterMax(log: seq<Entry>, p: Policy, k: nat)
    requires Lawful(log, p) && p.max > 0 && k + 1 < |log| && !log[k].ok
    requires Replay(log[..k + 1], p).Some? && Replay(log[..k + 1], p).value.count >= p.max
    ensures log[k + 1].time >= log[k].time + p.Length()
  {
    ReplayStep(log, p, k);
    assert Admitted(log, k + 1, p);
  }

  /** A stretch of failures shorter than the lockout has at most `max` of them. */
  lemma ShortStretch(log: seq<Entry>, p: Policy, i: nat, j: nat)
    requires Lawful(log, p) && p.max > 0 && i <= j < |log|
    requires forall m :: i <= m <= j ==> !log[m].ok
    requires log[j].time - log[i].time < p.Length()
    ensures j - i + 1 <= p.max
  {
    if j - i + 1 > p.max {
      var k := i + p.max - 1;
      LawfulIsOrdered(log, p);
      CountGrows(log, p, i, k);
      LockedAfterMax(log, p, k);
    }
  }

  function InWindow(log: seq<Entry>, start: Time, length: int): set<nat> {
    set k: nat | k < |log| && start <= log[k].time < start + length
  }

  lemma IntervalSize(s: set<nat>, lo: nat, hi: nat)
    requires forall k :: k in s ==> lo <= k < hi
    requires lo <= hi
    ensures |s| <= hi - lo
    decreases hi - lo
  {
    if lo < hi {
      IntervalSize(s - {lo}, lo + 1, hi);
    } else {
      assert s == {};
    }
  }

  lemma Least(s: set<nat>) returns (m: nat)
    requires s != {}
    ensures m in s && forall k :: k in s ==> m <= k
  {
    var x: nat :| x in s;
    m := x;
    if s != {x} {
      var y := Least(s - {x});
      assert forall k :: k in s ==> k == x || k in s - {x};
      m := if x < y then x else y;
    }
  }

  lemma Greatest(s: set<nat>) returns (m: nat)
    requires s != {}
    ensures m in s && forall k :: k in s ==> k <= m
  {
    var x: nat :| x in s;
    m := x;
    if s != {x} {
      var y := Greatest(s - {x});
      assert forall k :: k in s ==> k == x || k in s - {x};
      m := if x < y then y else x;
    }
  }

  /**
   Any window of the lockout's length without a success in it holds at most `max` attempts that
   reached verification.
   */
  lemma AtMostMaxInAWindow(log: seq<Entry>, p: Policy, start: Time)
    requires Lawful(log, p) && p.max > 0
    requires forall k :: k in InWindow(log, start, p.Length()) ==> !log[k].ok
    ensures |InWindow(log, start, p.Length())| <= p.max
  {
    var window := InWindow(log, start, p.Length());
    if window != {} {
      var lo := Least(window);
      var hi := Greatest(window);
      LawfulIsOrdered(log, p);
      forall m | lo <= m <= hi ensures !log[m].ok {
        assert m in window;
      }
      ShortStretch(log, p, lo, hi);
      IntervalSize(window, lo, hi + 1);
    }
  }

  /** The bound is met: `max` failures in a row at one moment are all admitted, and then the account is locked. */
  lemma {:induction false} BoundIsMet(p: Policy, now: Time, n: nat)
    requires 0 < p.max && n <= p.max && p.minutes > 0
    ensures var log := seq(n, _ => Entry(now, false));
            && Lawful(log, p)
            && (n > 0 ==> Replay(log, p) == Some(Failures(n, if n == p.max then now + p.Length() else now)))
            && (Locked(Replay(log, p), now) <==> n == p.max)
  {
    var log := seq(n, _ => Entry(now, false));
    if n > 0 {
      BoundIsMet(p, now, n - 1);
      var before := seq(n - 1, _ => Entry(now, false));
      assert log[..n - 1] == before;
      forall k | 0 <= k < n ensures Admitted(log, k, p) {
        if k < n - 1 {
          assert Admitted(before, k, p);
          assert log[..k] == before[..k];
        }
      }
    }
  }

  // ── The map and the log ───────────────────────────────────────────────────

  function LogIn(logs: map<UserId, seq<Entry>>, user: UserId): seq<Entry> {
    if user in logs then logs[user] else []
  }

  /** The map holds what the account's log says, and nothing in the log is out of order or lies ahead. */
  ghost predicate Agrees(failures: map<UserId, Failures>, log: seq<Entry>, clock: Time, p: Policy, user: UserId) {
    && Lookup(failures, user) == Replay(log, p)
    && Ordered(log)
    && (log != [] ==> log[|log| - 1].time <= clock)
  }

  ghost predicate AllAgree(failures: map<UserId, Failures>, logs: map<UserId, seq<Entry>>, clock: Time, p: Policy) {
    forall user: UserId :: Agrees(failures, LogIn(logs, user), clock, p, user)
  }

  ghost predicate AllLawful(logs: map<UserId, seq<Entry>>, p: Policy) {
    forall user: UserId :: Lawful(LogIn(logs, user), p)
  }

  lemma ClockAgrees(failures: map<UserId, Failures>, logs: map<UserId, seq<Entry>>, clock: Time, p: Policy, later: Time)
    requires AllAgree(failures, logs, clock, p) && clock <= later
    ensures AllAgree(failures, logs, later, p)
  {
    forall user: UserId ensures Agrees(failures, LogIn(logs, user), later, p, user) {
      assert Agrees(failures, LogIn(logs, user), clock, p, user);
    }
  }

  lemma LawfulAppend(log: seq<Entry>, e: Entry, p: Policy)
    requires Lawful(log, p) && !Locked(Replay(log, p), e.time)
    requires log != [] ==> log[|log| - 1].time <= e.time
    ensures Lawful(log + [e], p)
  {
    var more := log + [e];
    forall k | 0 <= k < |more| ensures Admitted(more, k, p) {
      assert more[..k] == log[..k];
      if k < |log| {
        assert Admitted(log, k, p);
      } else {
        assert log[..k] == log;
      }
    }
  }

  /** An attempt that the map accounts for may be logged. */
  lemma AttemptAgrees(failures: map<UserId, Failures>, logs: map<UserId, seq<Entry>>, clock: Time, p: Policy,
                      user: UserId, e: Entry, updated: map<UserId, Failures>)
    requires AllAgree(failures, logs, clock, p) && e.time == clock
    requires Lookup(updated, user) == AfterEntry(Lookup(failures, user), e, p)
    requires forall u: UserId :: u != user ==> Lookup(updated, u) == Lookup(failures, u)
    ensures AllAgree(updated, logs[user := LogIn(logs, user) + [e]], clock, p)
  {
    hide AfterEntry;
    var log := LogIn(logs, user);
    var logs' := logs[user := log + [e]];
    assert Agrees(failures, log, clock, p, user);
    assert (log + [e])[..|log|] == log;
    forall u: UserId ensures Agrees(updated, LogIn(logs', u), clock, p, u) {
      assert Agrees(failures, LogIn(logs, u), clock, p, u);
    }
  }

  /** And lawfully so if the account was not locked. */
  lemma AttemptLawful(failures: map<UserId, Failures>, logs: map<UserId, seq<Entry>>, clock: Time, p: Policy,
                      user: UserId, e: Entry)
    requires AllAgree(failures, logs, clock, p) && e.time == clock
    requires AllLawful(logs, p) && !Locked(Lookup(failures, user), clock)
    ensures AllLawful(logs[user := LogIn(logs, user) + [e]], p)
  {
    hide Replay, Lawful, Locked;
    var log := LogIn(logs, user);
    var logs' := logs[user := log + [e]];
    assert Agrees(failures, log, clock, p, user) && Lawful(log, p);
    LawfulAppend(log, e, p);
    forall u: UserId ensures Lawful(LogIn(logs', u), p) {
      assert Lawful(LogIn(logs, u), p);
    }
  }

  // ── The service ───────────────────────────────────────────────────────────

  datatype AccountStatus = Active | Suspended | Invited | Deleted

  datatype Account = Account(id: UserId, status: AccountStatus, hasPassword: bool)

  /** What a step-up came with, and whether it checks out. */
  datatype Proof = NoProof | Totp(matches: bool) | Password(matches: bool)

  datatype Verdict = Refused | LockedOut(seconds: int) | Failed | Accepted

  class AuthService {
    const policy: Policy
    var loginFailures: map<UserId, Failures>
    var clock: Time
    ghost var logs: map<UserId, seq<Entry>>

    ghost function Log(user: UserId): seq<Entry>
      reads this
    {
      LogIn(logs, user)
    }

    function Stored(user: UserId): Option<Failures>
      reads this
    {
      Lookup(loginFailures, user)
    }

    /** The map agrees with the log, also when attempts overlap. */
    ghost predicate Consistent()
      reads this
    {
      AllAgree(loginFailures, logs, clock, policy)
    }

    /** Besides, no attempt was logged while its account was locked. */
    ghost predicate Valid()
      reads this
    {
      Consistent() && AllLawful(logs, policy)
    }

    constructor (policy: Policy)
      ensures Valid() && this.policy == policy && loginFailures == map[]
    {
      this.policy := policy;
      loginFailures, clock, logs := map[], 0, map[];
    }

    method PassTime(later: Time)
      requires Valid() && clock <= later
      modifies this`clock
      ensures Valid() && clock == later
    {
      ClockAgrees(loginFailures, logs, clock, policy, later);
      clock := later;
    }

    /** Remaining lockout in whole seconds, rounded up; 0 exactly when not locked. */
    method LockedFor(user: UserId) returns (seconds: int)
      ensures seconds > 0 <==> Locked(Stored(user), clock)
      ensures seconds > 0 ==> (seconds - 1) * 1000 < Stored(user).value.lockedUntil - clock <= seconds * 1000
      ensures seconds >= 0
    {
      if user !in loginFailures || loginFailures[user].lockedUntil <= clock {
        return 0;
      }
      return (loginFailures[user].lockedUntil - clock + 999) / 1000;
    }

    method RecordLoginFailure(user: UserId)
      requires Consistent()
      modifies this`loginFailures, this`logs
      ensures Consistent()
      ensures old(Valid() && !Locked(Stored(user), clock)) ==> Valid()
      ensures logs == old(logs)[user := old(Log(user)) + [Entry(clock, false)]]
    {
      hide Replay, Lawful, Ordered;
      var updated := loginFailures;
      if policy.max > 0 {
        var now := clock;
        var known := user in loginFailures && loginFailures[user].lockedUntil > now - policy.minutes * 60_000;
        var count := (if known then loginFailures[user].count else 0) + 1;
        var lockedUntil := if count >= policy.max then now + policy.minutes * 60_000 else now;
        updated := loginFailures[user := Failures(count, lockedUntil)];
      }
      AttemptAgrees(loginFailures, logs, clock, policy, user, Entry(clock, false), updated);
      if AllLawful(logs, policy) && !Locked(Stored(user), clock) {
        AttemptLawful(loginFailures, logs, clock, policy, user, Entry(clock, false));
      }
      loginFailures := updated;
      logs := logs[user := Log(user) + [Entry(clock, false)]];
    }

    method ClearLoginFailures(user: UserId)
      requires Consistent()
      modifies this`loginFailures, this`logs
      ensures Consistent()
      ensures old(Valid() && !Locked(Stored(user), clock)) ==> Valid()
      ensures logs == old(logs)[user := old(Log(user)) + [Entry(clock, true)]]
    {
      hide Replay, Lawful, Ordered;
      AttemptAgrees(loginFailures, logs, clock, policy, user, Entry(clock, true), loginFailures - {user});
      if AllLawful(logs, policy) && !Locked(Stored(user), clock) {
        AttemptLawful(loginFailures, logs, clock, policy, user, Entry(clock, true));
      }
      loginFailures := loginFailures - {user};
      logs := logs[user := Log(user) + [Entry(clock, true)]];
    }

    method Login(found: Option<Account>, passwordMatches: bool) returns (v: Verdict)
      requires Valid()
      modifies this`loginFailures, this`logs
      ensures Valid()
      ensures v.Refused? <==>
              || found.None? || found.value.status != Active
              || (!old(Locked(Stored(found.value.id), clock)) && !found.value.hasPassword)
      ensures v.LockedOut? <==>
              found.Some? && found.value.status == Active && old(Locked(Stored(found.value.id), clock))
      ensures v.Refused? || v.LockedOut? ==> logs == old(logs) && loginFailures == old(loginFailures)
      ensures v.Failed? || v.Accepted? ==>
        && v.Accepted? == passwordMatches
        && logs == old(logs)[found.value.id := old(Log(found.value.id)) + [Entry(clock, passwordMatches)]]
    {
      if found.None? || found.value.status != Active {
        return Refused;
      }
      var user := found.value.id;
      var locked := LockedFor(user);
      if locked > 0 {
        return LockedOut(locked);
      }
      if !found.value.hasPassword {
        return Refused;
      }
      if !passwordMatches {
        RecordLoginFailure(user);
        return Failed;
      }
      ClearLoginFailures(user);
      return Accepted;
    }

    method VerifyStepUp(found: Option<Account>, proof: Proof) returns (v: Verdict)
      requires Valid()
      modifies this`loginFailures, this`logs
      ensures Valid()
      ensures v.Refused? <==> found.None? || found.value.status != Active
      ensures v.LockedOut? <==>
              found.Some? && found.value.status == Active && old(Locked(Stored(found.value.id), clock))
      ensures v.Refused? || v.LockedOut? ==> logs == old(logs) && loginFailures == old(loginFailures)
      ensures v.Failed? || v.Accepted? ==>
        && v.Accepted? == (!proof.NoProof? && proof.matches && (proof.Password? ==> found.value.hasPassword))
        && logs == old(logs)[found.value.id := old(Log(found.value.id)) + [Entry(clock, v.Accepted?)]]
    {
      if found.None? || found.value.status != Active {
        return Refused;
      }
      var user := found.value.id;
      var locked := LockedFor(user);
      if locked > 0 {
        return LockedOut(locked);
      }
      var ok := false;
      match proof {
        case Totp(matches) => ok := matches;
        case Password(matches) => ok := found.value.hasPassword && matches;
        case NoProof =>
      }
      if !ok {
        RecordLoginFailure(user);
        return Failed;
      }
      ClearLoginFailures(user);
      return Accepted;
    }

    /** Over sign-in and step-up together, in every state the service can be in. */
    lemma LockoutHolds(user: UserId, start: Time)
      requires Valid() && policy.max > 0
      requires forall k :: k in InWindow(Log(user), start, policy.Length()) ==> !Log(user)[k].ok
      ensures |InWindow(Log(user), start, policy.Length())| <= policy.max
    {
      assert Lawful(Log(user), policy);
      AtMostMaxInAWindow(Log(user), policy, start);
    }
  }
}
