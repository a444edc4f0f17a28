/**
 Sessions issued in whole seconds and revoked in milliseconds. A Date is its milliseconds; the clock
 and the dates are non-negative, as the platform's are.
 */
module SessionRevocation {
  import opened Basics
  import opened Wrappers

  type Millis = nat
  type Seconds = nat

  function Ceil(ms: Millis): Seconds { (ms + 999) / 1000 }

  function RevocationInstant(now: Millis): Millis { Ceil(now) * 1000 }

  predicate IsRevoked(iat: Option<Seconds>, validAfter: Option<Millis>) {
    validAfter.Some? && iat.GetOr(0) * 1000 < validAfter.value
  }

  function IssueAt(validAfter: Option<Millis>, now: Millis): Seconds {
    var nowSec := now / 1000;
    if validAfter.Some? then Max(nowSec, Ceil(validAfter.value)) else nowSec
  }

  // ── Any run of minting and revoking ───────────────────────────────────────

  /** A token ever minted: its stamp, when that was, and the revocation point in force then. */
  datatype Token = Token(iat: Seconds, mintedAt: Millis, under: Option<Millis>)

  datatype Account = Account(now: Millis, validAfter: Option<Millis>, tokens: seq<Token>)

  datatype Action = Wait(later: Millis) | Mint | Revoke

  const FRESH: Account := Account(0, None, [])

  predicate Possible(s: Account, a: Action) { a.Wait? ==> s.now <= a.later }

  /**
   Minting is sign-in, the MFA step, or the fresh session after a password change; revoking is sign-out or
   the change itself.
   */
  function Step(s: Account, a: Action): Account {
    match a
    case Wait(later) => s.(now := later)
    case Mint => s.(tokens := s.tokens + [Token(IssueAt(s.validAfter, s.now), s.now, s.validAfter)])
    case Revoke => s.(validAfter := Some(RevocationInstant(s.now)))
  }

  predicate PossibleRun(s: Account, run: seq<Action>)
    decreases |run|
  {
    run == [] || (Possible(s, run[0]) && PossibleRun(Step(s, run[0]), run[1..]))
  }

  function Exec(s: Account, run: seq<Action>): Account
    decreases |run|
  {
    if run == [] then s else Exec(Step(s, run[0]), run[1..])
  }

  predicate Refused(s: Account, t: Token) { IsRevoked(Some(t.iat), s.validAfter) }

  /** A revocation point is a whole second, less than a second ahead of the clock that set it. */
  predicate IsPoint(point: Option<Millis>, now: Millis) {
    point.Some? ==> point.value % 1000 == 0 && point.value < now + 1000
  }

  ghost predicate Inv(s: Account) {
    && IsPoint(s.validAfter, s.now)
    && forall k :: 0 <= k < |s.tokens| ==> Stamped(s, s.tokens[k])
  }

  ghost predicate Stamped(s: Account, t: Token) {
    && t.mintedAt <= s.now
    && IsPoint(t.under, t.mintedAt)
    && t.iat == IssueAt(t.under, t.mintedAt)
  }

  lemma StepInv(s: Account, a: Action)
    requires Inv(s) && Possible(s, a)
    ensures Inv(Step(s, a))
    ensures s.validAfter.Some? ==> Step(s, a).validAfter.Some? && s.validAfter.value <= Step(s, a).validAfter.value
    ensures s.now <= Step(s, a).now && s.tokens <= Step(s, a).tokens
  {
    var s' := Step(s, a);
    forall k | 0 <= k < |s'.tokens| ensures Stamped(s', s'.tokens[k]) {
      assert k < |s.tokens| ==> Stamped(s, s.tokens[k]);
    }
  }

  lemma {:induction false} RunInv(s: Account, run: seq<Action>)
    requires Inv(s) && PossibleRun(s, run)
    ensures Inv(Exec(s, run))
    ensures s.validAfter.Some? ==> Exec(s, run).validAfter.Some? && s.validAfter.value <= Exec(s, run).validAfter.value
    ensures s.now <= Exec(s, run).now && s.tokens <= Exec(s, run).tokens
    decreases |run|
  {
    if run != [] {
      StepInv(s, run[0]);
      RunInv(Step(s, run[0]), run[1..]);
    }
  }

  /** A token is accepted the moment it is minted, even in the second of a revocation. */
  lemma JustMintedIsAccepted(past: seq<Action>)
    requires PossibleRun(FRESH, past)
    ensures
      var s := Step(Exec(FRESH, past), Mint);
      !Refused(s, s.tokens[|s.tokens| - 1])
  {
    RunInv(FRESH, past);
  }

  /** Once refused, always refused. */
  lemma RefusedStaysRefused(past: seq<Action>, future: seq<Action>, k: nat)
    requires PossibleRun(FRESH, past) && PossibleRun(Exec(FRESH, past), future)
    ensures
      var s := Exec(FRESH, past);
      var s' := Exec(s, future);
      k < |s.tokens| ==>
        && k < |s'.tokens| && s'.tokens[k] == s.tokens[k]
        && (Refused(s, s.tokens[k]) ==> Refused(s', s'.tokens[k]))
  {
    RunInv(FRESH, past);
    RunInv(Exec(FRESH, past), future);
  }

  /**
   Exactly which tokens a revocation ends: all but those minted after an earlier revocation whose point
   still lies at or ahead of the clock, and those minted at this very instant on a whole second.
   */
  lemma RevocationEnds(past: seq<Action>, k: nat)
    requires PossibleRun(FRESH, past)
    ensures
      var s := Exec(FRESH, past);
      k < |s.tokens| ==>
        var t := s.tokens[k];
        Refused(Step(s, Revoke), t) <==>
          && (t.under.None? || t.under.value < s.now)
          && (t.mintedAt < s.now || s.now % 1000 != 0)
  {
    RunInv(FRESH, past);
    var s := Exec(FRESH, past);
    if k < |s.tokens| {
      assert Stamped(s, s.tokens[k]);
    }
  }

  /** A revocation later than the previous revocation point ends every token minted strictly before it, for good. */
  lemma LaterRevocationEndsAll(past: seq<Action>, future: seq<Action>, k: nat)
    requires PossibleRun(FRESH, past) && PossibleRun(Step(Exec(FRESH, past), Revoke), future)
    ensures
      var s := Exec(FRESH, past);
      var s' := Exec(Step(s, Revoke), future);
      k < |s.tokens| && (s.validAfter.None? || s.validAfter.value < s.now) && s.tokens[k].mintedAt < s.now ==>
        k < |s'.tokens| && s'.tokens[k] == s.tokens[k] && Refused(s', s.tokens[k])
  {
    RunInv(FRESH, past);
    var s := Exec(FRESH, past);
    StepInv(s, Revoke);
    RunInv(Step(s, Revoke), future);
    if k < |s.tokens| {
      UnderPoint(FRESH, past, k);
      RevocationEnds(past, k);
    }
  }

  /** A token's point never lies beyond the account's. */
  ghost predicate NotBeyond(s: Account, k: nat) {
    k < |s.tokens| && s.tokens[k].under.Some? ==> s.validAfter.Some? && s.tokens[k].under.value <= s.validAfter.value
  }

  lemma {:induction false} UnderPoint(s: Account, run: seq<Action>, k: nat)
    requires Inv(s) && PossibleRun(s, run) && NotBeyond(s, k)
    ensures NotBeyond(Exec(s, run), k)
    decreases |run|
  {
    if run != [] {
      StepInv(s, run[0]);
      UnderPoint(Step(s, run[0]), run[1..], k);
    }
  }

  /** Two sign-outs in one second, with a sign-in between them: the second one leaves that session alive. */
  lemma SecondSignOutMisses()
    ensures
      var s := Exec(FRESH, [Wait(1), Revoke, Mint, Wait(2)]);
      && PossibleRun(FRESH, [Wait(1), Revoke, Mint, Wait(2)])
      && |s.tokens| == 1 && s.tokens[0].mintedAt < s.now
      && !Refused(Step(s, Revoke), s.tokens[0])
  {
    var run := [Wait(1), Revoke, Mint, Wait(2)];
    assert run[1..] == [Revoke, Mint, Wait(2)];
    assert run[1..][1..] == [Mint, Wait(2)];
    assert run[1..][1..][1..] == [Wait(2)];
    var s := Account(1, Some(1000), [Token(1, 1, Some(1000))]);
    assert Exec(s, [Wait(2)]) == s.(now := 2);
    assert Exec(Account(1, Some(1000), []), [Mint, Wait(2)]) == s.(now := 2);
  }
}
