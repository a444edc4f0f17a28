/**
 The lockout of one account when attempts overlap. An attempt is admitted when the account is not
 locked, then the password or code is checked, and its outcome is recorded later, with other attempts
 admitted and recorded in between. At most `overlap` attempts are being checked at any time.
 */
module LockoutRace {
  import opened Basics
  import opened LoginLockout

  datatype Event = Admit(time: Time) | Settle(time: Time, ok: bool)

  /** The outcomes, in the order they were recorded. */
  function Outcomes(events: seq<Event>): seq<Entry> {
    if events == [] then []
    else
      var last := events[|events| - 1];
      Outcomes(events[..|events| - 1]) + (if last.Settle? then [Entry(last.time, last.ok)] else [])
  }

  /** How many admitted attempts are still being checked. */
  function Pending(events: seq<Event>): int {
    if events == [] then 0
    else Pending(events[..|events| - 1]) + (if events[|events| - 1].Admit? then 1 else -1)
  }

  ghost predicate Allowed(events: seq<Event>, k: nat, p: Policy, overlap: nat)
    requires k < |events|
  {
    && (k > 0 ==> events[k - 1].time <= events[k].time)
    && match events[k]
       case Admit(time) => !Locked(Replay(Outcomes(events[..k]), p), time) && Pending(events[..k]) < overlap
       case Settle(_, _) => Pending(events[..k]) > 0
  }

  ghost predicate AllAllowed(events: seq<Event>, p: Policy, overlap: nat) {
    forall k :: 0 <= k < |events| ==> Allowed(events, k, p, overlap)
  }

  lemma LastStep(events: seq<Event>, k: nat)
    requires k < |events|
    ensures Outcomes(events[..k + 1]) ==
            Outcomes(events[..k]) + (if events[k].Settle? then [Entry(events[k].time, events[k].ok)] else [])
    ensures Pending(events[..k + 1]) == Pending(events[..k]) + (if events[k].Admit? then 1 else -1)
  {
    assert events[..k + 1][..k] == events[..k];
  }

  lemma {:induction false} PendingBounds(events: seq<Event>, p: Policy, overlap: nat, k: nat)
    requires AllAllowed(events, p, overlap) && k <= |events|
    ensures 0 <= Pending(events[..k]) <= overlap
  {
    if k > 0 {
      PendingBounds(events, p, overlap, k - 1);
      LastStep(events, k - 1);
      assert Allowed(events, k - 1, p, overlap);
    } else {
      assert events[..0] == [];
    }
  }

  lemma {:induction false} EventTimes(events: seq<Event>, p: Policy, overlap: nat, i: nat, k: nat)
    requires AllAllowed(events, p, overlap) && i <= k < |events|
    ensures events[i].time <= events[k].time
    decreases k - i
  {
    if i < k {
      EventTimes(events, p, overlap, i, k - 1);
      assert Allowed(events, k, p, overlap);
    }
  }

  lemma {:induction false} OutcomesGrow(events: seq<Event>, m: nat, n: nat)
    requires m <= n <= |events|
    ensures Outcomes(events[..m]) <= Outcomes(events[..n])
    decreases n
  {
    if m < n {
      OutcomesGrow(events, m, n - 1);
      LastStep(events, n - 1);
    }
  }

  /** The event that recorded outcome `r`. */
  lemma {:induction false} RecordedBy(events: seq<Event>, n: nat, r: nat) returns (e: nat)
    requires n <= |events| && r < |Outcomes(events[..n])|
    ensures e < n && events[e].Settle? && |Outcomes(events[..e])| == r
    ensures Outcomes(events[..n])[r] == Entry(events[e].time, events[e].ok)
    decreases n
  {
    if n == 0 {
      assert false;
    }
    LastStep(events, n - 1);
    if r < |Outcomes(events[..n - 1])| {
      e := RecordedBy(events, n - 1, r);
    } else {
      e := n - 1;
    }
  }

  lemma {:induction false} OutcomesOrdered(events: seq<Event>, p: Policy, overlap: nat)
    requires AllAllowed(events, p, overlap)
    ensures Ordered(Outcomes(events))
  {
    var log := Outcomes(events);
    assert events[..|events|] == events;
    forall i, k | 0 <= i <= k < |log| ensures log[i].time <= log[k].time {
      var e := RecordedBy(events, |events|, i);
      var f := RecordedBy(events, |events|, k);
      if f < e {
        OutcomesGrow(events, f + 1, e);
        LastStep(events, f);
      } else {
        EventTimes(events, p, overlap, e, f);
      }
    }
  }

  // ── Nobody gets in behind the lock ────────────────────────────────────────

  /** From event `e` on, up to event `n`, everything fails and comes before the lock of `e` runs out. */
  ghost predicate BehindLock(events: seq<Event>, p: Policy, e: nat, n: nat)
    requires e < n <= |events|
  {
    forall m :: e < m < n ==> events[m].time < events[e].time + p.Length() && (events[m].Settle? ==> !events[m].ok)
  }

  /** Then nothing is admitted any more, so the outcomes that follow use up the attempts being checked. */
  lemma {:induction false} LockHolds(events: seq<Event>, p: Policy, overlap: nat, e: nat, n: nat)
    requires AllAllowed(events, p, overlap) && p.max > 0 && e < n <= |events| && BehindLock(events, p, e, n)
    requires events[e].Settle? && !events[e].ok
    requires var s := Replay(Outcomes(events[..e + 1]), p); s.Some? && s.value.count >= p.max
    ensures
      var s := Replay(Outcomes(events[..n]), p);
      s.Some? && s.value.count >= p.max && s.value.lockedUntil >= events[e].time + p.Length()
    ensures |Outcomes(events[..n])| + Pending(events[..n]) == |Outcomes(events[..e + 1])| + Pending(events[..e + 1])
    decreases n
  {
    if n == e + 1 {
      LastStep(events, e);
      AppendReplays(Outcomes(events[..e]), Entry(events[e].time, false), p);
    } else {
      LockHolds(events, p, overlap, e, n - 1);
      LastStep(events, n - 1);
      assert Allowed(events, n - 1, p, overlap);
      EventTimes(events, p, overlap, e, n - 1);
      AppendReplays(Outcomes(events[..n - 1]), Entry(events[n - 1].time, false), p);
    }
  }

  lemma AppendReplays(log: seq<Entry>, e: Entry, p: Policy)
    ensures Replay(log + [e], p) == AfterEntry(Replay(log, p), e, p)
  {
    assert (log + [e])[..|log|] == log;
  }

  /** A stretch of recorded failures shorter than the lockout has at most `max` of them and those that overlapped. */
  lemma OverlappingStretch(events: seq<Event>, p: Policy, overlap: nat, i: nat, j: nat)
    requires AllAllowed(events, p, overlap) && p.max > 0 && i <= j < |Outcomes(events)|
    requires forall m :: i <= m <= j ==> !Outcomes(events)[m].ok
    requires Outcomes(events)[j].time - Outcomes(events)[i].time < p.Length()
    ensures j - i + 1 <= p.max + overlap - 1
  {
    var log := Outcomes(events);
    assert events[..|events|] == events;
    OutcomesOrdered(events, p, overlap);
    var f := RecordedBy(events, |events|, j);
    PendingBounds(events, p, overlap, f);
    assert Allowed(events, f, p, overlap);
    if j - i + 1 > p.max {
      var k := i + p.max - 1;
      var e := RecordedBy(events, |events|, k);
      EarlierOutcome(events, e, f);
      CountGrows(log, p, i, k);
      OutcomesGrow(events, e + 1, |events|);
      LastStep(events, e);
      assert Outcomes(events[..e + 1]) == log[..k + 1];
      forall m | e < m < f
        ensures events[m].time < events[e].time + p.Length() && (events[m].Settle? ==> !events[m].ok)
      {
        Between(events, p, overlap, e, f, m, k, j);
      }
      LockHolds(events, p, overlap, e, f);
      LastStep(events, f);
      PendingBounds(events, p, overlap, e);
      assert Allowed(events, e, p, overlap);
    }
  }

  lemma EarlierOutcome(events: seq<Event>, e: nat, f: nat)
    requires e < |events| && f < |events| && events[f].Settle? && |Outcomes(events[..e])| < |Outcomes(events[..f])|
    ensures e < f
  {
    if f <= e {
      OutcomesGrow(events, f, e);
    }
  }

  lemma Between(events: seq<Event>, p: Policy, overlap: nat, e: nat, f: nat, m: nat, k: nat, j: nat)
    requires AllAllowed(events, p, overlap) && e < m < f < |events| && events[e].Settle? && events[f].Settle?
    requires |Outcomes(events[..e])| == k < j == |Outcomes(events[..f])| && j < |Outcomes(events)|
    requires forall x :: k <= x <= j ==> !Outcomes(events)[x].ok
    requires events[f].time < events[e].time + p.Length()
    ensures events[m].time < events[e].time + p.Length() && (events[m].Settle? ==> !events[m].ok)
  {
    EventTimes(events, p, overlap, m, f);
    if events[m].Settle? {
      var x := |Outcomes(events[..m])|;
      assert events[..|events|] == events;
      LastStep(events, m);
      OutcomesGrow(events, e, m);
      OutcomesGrow(events, m + 1, f);
      OutcomesGrow(events, m + 1, |events|);
      assert Outcomes(events)[x] == Entry(events[m].time, events[m].ok);
    }
  }

  /**
   However attempts overlap, any window of the lockout's length without a success in it holds at most
   `max` recorded failures and one less than can be checked at once.
   */
  lemma OverlapAddsOneLess(events: seq<Event>, p: Policy, overlap: nat, start: Time)
    requires AllAllowed(events, p, overlap) && p.max > 0 && overlap > 0
    requires forall k :: k in InWindow(Outcomes(events), start, p.Length()) ==> !Outcomes(events)[k].ok
    ensures |InWindow(Outcomes(events), start, p.Length())| <= p.max + overlap - 1
  {
    var log := Outcomes(events);
    var window := InWindow(log, start, p.Length());
    if window != {} {
      var lo := Least(window);
      var hi := Greatest(window);
      OutcomesOrdered(events, p, overlap);
      forall m | lo <= m <= hi ensures !log[m].ok {
        assert m in window;
      }
      OverlappingStretch(events, p, overlap, lo, hi);
      IntervalSize(window, lo, hi + 1);
    }
  }

  // ── The bound is met ──────────────────────────────────────────────────────

  lemma OneMoreEvent(events: seq<Event>, e: Event, p: Policy, overlap: nat)
    requires AllAllowed(events, p, overlap)
    requires Allowed(events + [e], |events|, p, overlap)
    ensures AllAllowed(events + [e], p, overlap)
    ensures Outcomes(events + [e]) == Outcomes(events) + (if e.Settle? then [Entry(e.time, e.ok)] else [])
    ensures Pending(events + [e]) == Pending(events) + (if e.Admit? then 1 else -1)
  {
    var more := events + [e];
    assert more[..|events|] == events;
    forall k | 0 <= k < |more| ensures Allowed(more, k, p, overlap) {
      if k < |events| {
        assert Allowed(events, k, p, overlap);
        assert more[..k] == events[..k];
      }
    }
  }

  /** `overlap` attempts that get in together before the `max`-th failure all count. */
  lemma OverlapBoundIsMet(p: Policy, overlap: nat, now: Time) returns (events: seq<Event>)
    requires p.max > 0 && overlap > 0 && p.minutes > 0
    ensures AllAllowed(events, p, overlap)
    ensures Outcomes(events) == seq(p.max + overlap - 1, _ => Entry(now, false))
  {
    events := [];
    var n := 0;
    while n < p.max - 1
      invariant 0 <= n <= p.max - 1 && AllAllowed(events, p, overlap) && AllAt(events, now)
      invariant Outcomes(events) == seq(n, _ => Entry(now, false)) && Pending(events) == 0
    {
      events := AdmitOne(events, p, overlap, now, n);
      events := SettleOne(events, p, overlap, now, n);
      n := n + 1;
    }
    var c := 0;
    while c < overlap
      invariant 0 <= c <= overlap && AllAllowed(events, p, overlap) && AllAt(events, now)
      invariant Outcomes(events) == seq(n, _ => Entry(now, false)) && Pending(events) == c
    {
      events := AdmitOne(events, p, overlap, now, n);
      c := c + 1;
    }
    while c > 0
      invariant 0 <= c <= overlap && n + c == p.max - 1 + overlap
      invariant AllAllowed(events, p, overlap) && AllAt(events, now)
      invariant Outcomes(events) == seq(n, _ => Entry(now, false)) && Pending(events) == c
    {
      events := SettleOne(events, p, overlap, now, n);
      n, c := n + 1, c - 1;
    }
  }

  predicate AllAt(events: seq<Event>, now: Time) { forall k :: 0 <= k < |events| ==> events[k].time == now }

  lemma AdmitOne(events: seq<Event>, p: Policy, overlap: nat, now: Time, n: nat) returns (more: seq<Event>)
    requires AllAllowed(events, p, overlap) && AllAt(events, now) && 0 <= Pending(events) < overlap
    requires 0 < p.max && n < p.max && p.minutes > 0 && Outcomes(events) == seq(n, _ => Entry(now, false))
    ensures AllAllowed(more, p, overlap) && AllAt(more, now)
    ensures Outcomes(more) == Outcomes(events) && Pending(more) == Pending(events) + 1
  {
    more := events + [Admit(now)];
    assert more[..|events|] == events;
    BoundIsMet(p, now, n);
    OneMoreEvent(events, Admit(now), p, overlap);
  }

  lemma SettleOne(events: seq<Event>, p: Policy, overlap: nat, now: Time, n: nat) returns (more: seq<Event>)
    requires AllAllowed(events, p, overlap) && AllAt(events, now) && Pending(events) > 0
    requires Outcomes(events) == seq(n, _ => Entry(now, false))
    ensures AllAllowed(more, p, overlap) && AllAt(more, now)
    ensures Outcomes(more) == seq(n + 1, _ => Entry(now, false)) && Pending(more) == Pending(events) - 1
  {
    more := events + [Settle(now, false)];
    assert more[..|events|] == events;
    OneMoreEvent(events, Settle(now, false), p, overlap);
    assert seq(n, _ => Entry(now, false)) + [Entry(now, false)] == seq(n + 1, _ => Entry(now, false));
  }
}
