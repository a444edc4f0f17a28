/** The version compare is an order, and the updater's `isNewer` agrees with it where both are meant to. */
module VersionOrder {
  import opened Basics
  import opened Wrappers
  import opened Versions

  method CompareVersions(a: string, b: string) returns (c: int)
    ensures c == Compare(a, b)
  {
    var pa, pb := Segments(a), Segments(b);
    var n := Max(|pa|, |pb|);
    for i := 0 to n
      invariant CompareFrom(pa, pb, 0) == CompareFrom(pa, pb, i)
    {
      var d := At(pa, i) - At(pb, i);
      if d != 0 {
        return if d < 0 then -1 else 1;
      }
    }
    return 0;
  }

  // ── Meaning: the first difference, with missing segments read as zero ─────

  ghost predicate SameBelow(p: seq<int>, q: seq<int>, n: nat) { forall k :: 0 <= k < n ==> At(p, k) == At(q, k) }

  ghost predicate FirstBelow(p: seq<int>, q: seq<int>, n: nat) { SameBelow(p, q, n) && At(p, n) < At(q, n) }

  /** Read to any number of segments, `p` and `q` are the same. */
  ghost predicate SameVersion(p: seq<int>, q: seq<int>) { forall k: nat :: At(p, k) == At(q, k) }

  ghost predicate Older(p: seq<int>, q: seq<int>) { exists n: nat :: FirstBelow(p, q, n) }

  lemma {:induction false} CompareMeans(p: seq<int>, q: seq<int>, i: nat)
    requires SameBelow(p, q, i)
    ensures CompareFrom(p, q, i) == 0 <==> SameVersion(p, q)
    ensures CompareFrom(p, q, i) == -1 <==> Older(p, q)
    ensures CompareFrom(p, q, i) == 1 <==> Older(q, p)
    decreases Max(|p|, |q|) - i
  {
    if i < Max(|p|, |q|) {
      if At(p, i) == At(q, i) {
        CompareMeans(p, q, i + 1);
      } else if At(p, i) < At(q, i) {
        assert FirstBelow(p, q, i);
        FirstDifferenceUnique(p, q, i);
      } else {
        assert FirstBelow(q, p, i);
        FirstDifferenceUnique(q, p, i);
      }
    } else {
      forall k: nat ensures At(p, k) == At(q, k) {
      }
    }
  }

  lemma FirstDifferenceUnique(p: seq<int>, q: seq<int>, n: nat)
    requires FirstBelow(p, q, n)
    ensures !Older(q, p) && !SameVersion(p, q)
  {
    forall m: nat ensures !FirstBelow(q, p, m) {
      assert m == n || (m < n ==> At(p, m) == At(q, m));
    }
  }

  // ── A total preorder ──────────────────────────────────────────────────────

  lemma OlderTransitive(p: seq<int>, q: seq<int>, r: seq<int>)
    requires Older(p, q) || SameVersion(p, q)
    requires Older(q, r) || SameVersion(q, r)
    ensures Older(p, r) || SameVersion(p, r)
    ensures Older(p, q) || Older(q, r) ==> Older(p, r)
    ensures SameVersion(p, q) && SameVersion(q, r) ==> SameVersion(p, r)
  {
    if Older(p, q) && Older(q, r) {
      var m: nat :| FirstBelow(p, q, m);
      var n: nat :| FirstBelow(q, r, n);
      assert FirstBelow(p, r, if m < n then m else n);
    } else if Older(p, q) {
      var m: nat :| FirstBelow(p, q, m);
      assert FirstBelow(p, r, m);
    } else if Older(q, r) {
      var n: nat :| FirstBelow(q, r, n);
      assert FirstBelow(p, r, n);
    }
  }

  /** `compareVersions` orders all strings totally, whatever their lengths and junk. */
  lemma CompareIsTotalPreorder(a: string, b: string, c: string)
    ensures Compare(a, a) == 0
    ensures Compare(b, a) == -Compare(a, b)
    ensures Compare(a, b) <= 0 && Compare(b, c) <= 0 ==> Compare(a, c) <= 0
    ensures Compare(a, b) < 0 && Compare(b, c) <= 0 ==> Compare(a, c) < 0
    ensures Compare(a, b) == 0 ==> Compare(a, c) == Compare(b, c)
  {
    var p, q, r := Segments(a), Segments(b), Segments(c);
    CompareMeans(p, p, 0);
    CompareMeans(p, q, 0);
    CompareMeans(q, p, 0);
    CompareMeans(q, r, 0);
    CompareMeans(p, r, 0);
    if Compare(a, b) <= 0 && Compare(b, c) <= 0 {
      OlderTransitive(p, q, r);
    }
    if Compare(a, b) == 0 {
      SameComparesSame(p, q, r, 0);
    }
  }

  lemma {:induction false} SameComparesSame(p: seq<int>, q: seq<int>, r: seq<int>, i: nat)
    requires SameVersion(p, q)
    ensures CompareFrom(p, r, i) == CompareFrom(q, r, i)
    decreases Max(Max(|p|, |q|), |r|) - i
  {
    assert At(p, i) == At(q, i);
    if i < Max(Max(|p|, |q|), |r|) {
      SameComparesSame(p, q, r, i + 1);
      PastTheEnd(p, r, i);
      PastTheEnd(q, r, i);
    }
  }

  /** Where both are exhausted, comparing one more segment changes nothing. */
  lemma PastTheEnd(p: seq<int>, r: seq<int>, i: nat)
    ensures CompareFrom(p, r, i) ==
            if At(p, i) != At(r, i) then (if At(p, i) < At(r, i) then -1 else 1) else CompareFrom(p, r, i + 1)
  {
  }

  // ── Lexicographic order after padding with zeros ──────────────────────────

  function Padded(p: seq<int>, n: nat): (r: seq<int>)
    requires |p| <= n
    ensures |r| == n && forall i :: 0 <= i < n ==> r[i] == At(p, i)
  {
    p + seq(n - |p|, _ => 0)
  }

  function Lexicographic(x: seq<int>, y: seq<int>): int
    requires |x| == |y|
  {
    if x == [] then 0
    else if x[0] < y[0] then -1
    else if x[0] > y[0] then 1
    else Lexicographic(x[1..], y[1..])
  }

  lemma {:induction false} CompareIsLexicographicFrom(p: seq<int>, q: seq<int>, n: nat, i: nat)
    requires |p| <= n && |q| <= n && i <= n
    ensures CompareFrom(p, q, i) == Lexicographic(Padded(p, n)[i..], Padded(q, n)[i..])
    decreases n - i
  {
    if i < n {
      PastTheEnd(p, q, i);
      CompareIsLexicographicFrom(p, q, n, i + 1);
      assert Padded(p, n)[i..][1..] == Padded(p, n)[i + 1..];
      assert Padded(q, n)[i..][1..] == Padded(q, n)[i + 1..];
    }
  }

  /** Padding both to any common length makes the compare plain lexicographic order. */
  lemma CompareIsLexicographic(a: string, b: string, n: nat)
    requires |Segments(a)| <= n && |Segments(b)| <= n
    ensures Compare(a, b) == Lexicographic(Padded(Segments(a), n), Padded(Segments(b), n))
  {
    CompareIsLexicographicFrom(Segments(a), Segments(b), n, 0);
    assert Padded(Segments(a), n)[0..] == Padded(Segments(a), n);
    assert Padded(Segments(b), n)[0..] == Padded(Segments(b), n);
  }

  // ── The agent contract ────────────────────────────────────────────────────

  const AGENT_CONTRACT_VERSION: string := "0.20.0"

  predicate AgentMeetsContract(reported: Option<string>) {
    reported.Some? && reported.value != "" && Compare(reported.value, AGENT_CONTRACT_VERSION) >= 0
  }

  /** An agent at least as new as one that meets the contract meets it too. */
  lemma ContractIsUpwardClosed(reported: string, newer: string)
    requires AgentMeetsContract(Some(reported)) && newer != "" && Compare(newer, reported) >= 0
    ensures AgentMeetsContract(Some(newer))
  {
    CompareIsTotalPreorder(AGENT_CONTRACT_VERSION, reported, newer);
    CompareIsTotalPreorder(reported, newer, newer);
    CompareIsTotalPreorder(reported, AGENT_CONTRACT_VERSION, newer);
    CompareIsTotalPreorder(newer, AGENT_CONTRACT_VERSION, newer);
  }

  // ── The platform updater's isNewer ────────────────────────────────────────

  function ParseAll(parts: seq<string>): (r: seq<Option<int>>)
    ensures |r| == |parts|
    ensures forall k :: 0 <= k < |r| ==> r[k] == ParseInt(parts[k])
  {
    if parts == [] then [] else [ParseInt(parts[0])] + ParseAll(parts[1..])
  }

  /** At most three segments, split at dots, pluses and dashes, padded with zeros; None is NaN. */
  function Triple(v: string): (r: seq<Option<int>>)
    ensures |r| == 3
  {
    var parts := Split(v, {'.', '+', '-'});
    var parsed := ParseAll(if |parts| > 3 then parts[..3] else parts);
    parsed + seq(3 - |parsed|, _ => Some(0))
  }

  predicate Finite(t: seq<Option<int>>) { forall k :: 0 <= k < |t| ==> t[k].Some? }

  function Values(t: seq<Option<int>>): (r: seq<int>)
    requires Finite(t)
    ensures |r| == |t| && forall k :: 0 <= k < |t| ==> r[k] == t[k].value
  {
    if t == [] then [] else [t[0].value] + Values(t[1..])
  }

  predicate IsNewer(a: string, b: string) {
    && Finite(Triple(a)) && Finite(Triple(b))
    && Lexicographic(Values(Triple(a)), Values(Triple(b))) > 0
  }

  method CheckNewer(a: string, b: string) returns (newer: bool)
    ensures newer <==> IsNewer(a, b)
  {
    var av, bv := Triple(a), Triple(b);
    if (exists k :: 0 <= k < 3 && av[k].None?) || (exists k :: 0 <= k < 3 && bv[k].None?) {
      return false;
    }
    ghost var x, y := Values(av), Values(bv);
    var i := 0;
    while i < 3
      invariant i <= 3
      invariant Lexicographic(x, y) == Lexicographic(x[i..], y[i..])
    {
      if av[i] != bv[i] {
        return av[i].value > bv[i].value;
      }
      assert x[i..][1..] == x[i + 1..] && y[i..][1..] == y[i + 1..];
      i := i + 1;
    }
    return false;
  }

  /** One to three dot-separated numerals. */
  predicate IsPlain(v: string) {
    var parts := Split(v, {'.'});
    |parts| <= 3 && forall k :: 0 <= k < |parts| ==> IsNumeral(parts[k])
  }

  lemma {:induction false} DigitsAreWhole(s: string)
    requires AllDigits(s)
    ensures LeadingDigits(s) == s
  {
    if s != "" {
      assert AllDigits(s[1..]);
      DigitsAreWhole(s[1..]);
    }
  }

  lemma NumeralParses(s: string)
    requires IsNumeral(s)
    ensures ParseInt(s) == Some(Decimal(s))
  {
    assert IsDigit(s[0]);
    DigitsAreWhole(s);
  }

  /** Only digits and dots, so every separator is a dot and there is no leading v. */
  lemma {:induction false} PlainCharacters(v: string)
    requires forall k :: 0 <= k < |Split(v, {'.'})| ==> AllDigits(Split(v, {'.'})[k])
    ensures forall i :: 0 <= i < |v| ==> IsDigit(v[i]) || v[i] == '.'
    ensures Split(v, {'.', '+', '-'}) == Split(v, {'.'})
  {
    if v != "" {
      var parts, rest := Split(v, {'.'}), Split(v[1..], {'.'});
      if v[0] == '.' {
        assert parts[1..] == rest;
        forall k | 0 <= k < |rest| ensures AllDigits(rest[k]) { assert rest[k] == parts[k + 1]; }
      } else {
        assert parts[0] == [v[0]] + rest[0] && parts[1..] == rest[1..];
        assert IsDigit(parts[0][0]);
        forall k | 0 <= k < |rest| ensures AllDigits(rest[k]) {
          if k == 0 {
            assert rest[0] == parts[0][1..];
          } else {
            assert rest[k] == parts[k];
          }
        }
      }
      PlainCharacters(v[1..]);
    }
  }

  lemma {:induction false} NumbersAt(parts: seq<string>, k: nat)
    requires k < |parts|
    ensures Numbers(parts)[k] == ParseInt(parts[k]).GetOr(0)
  {
    if k > 0 {
      NumbersAt(parts[1..], k - 1);
    }
  }

  /** Dot-separated numerals, any number of them. */
  predicate IsDotted(v: string) {
    var parts := Split(v, {'.'});
    forall k :: 0 <= k < |parts| ==> IsNumeral(parts[k])
  }

  /** `isNewer` reads the first three of the compare's segments and nothing else. */
  lemma DottedTriple(v: string)
    requires IsDotted(v)
    ensures Finite(Triple(v)) && forall k :: 0 <= k < 3 ==> Values(Triple(v))[k] == At(Segments(v), k)
  {
    PlainCharacters(v);
    var parts := Split(v, {'.'});
    assert DropV(v) == v;
    forall k | 0 <= k < 3 ensures Triple(v)[k] == Some(At(Segments(v), k)) {
      if k < |parts| {
        NumeralParses(parts[k]);
        NumbersAt(parts, k);
      }
    }
  }

  /** On a plain version both readers see the same three numbers. */
  lemma PlainReadsTheSame(v: string)
    requires IsPlain(v)
    ensures Finite(Triple(v)) && |Segments(v)| <= 3
    ensures Values(Triple(v)) == Padded(Segments(v), 3)
  {
    PlainCharacters(v);
    assert DropV(v) == v;
    DottedTriple(v);
  }

  /** On one to three numerals, `isNewer` is exactly a positive compare. */
  lemma IsNewerAgrees(a: string, b: string)
    requires IsPlain(a) && IsPlain(b)
    ensures IsNewer(a, b) <==> Compare(a, b) > 0
  {
    PlainReadsTheSame(a);
    PlainReadsTheSame(b);
    CompareIsLexicographic(a, b, 3);
  }

  /** A rollout target is such a version. */
  lemma ExactTagIsPlain(v: string)
    requires IsExactTag(v)
    ensures IsPlain(v) && |Segments(v)| == 3
  {
    PlainCharacters(v);
    assert DropV(v) == v;
  }

  lemma {:induction false} SplitAppend(a: string, separator: char, b: string, separators: set<char>)
    requires separator in separators
    ensures Split(a + [separator] + b, separators) == Split(a, separators) + Split(b, separators)
  {
    var whole := a + [separator] + b;
    if a == "" {
      assert whole[1..] == b;
    } else {
      assert whole[1..] == a[1..] + [separator] + b;
      SplitAppend(a[1..], separator, b, separators);
    }
  }

  lemma {:induction false} NoSeparator(s: string, separators: set<char>)
    requires forall i :: 0 <= i < |s| ==> s[i] !in separators
    ensures Split(s, separators) == [s]
  {
    if s != "" {
      NoSeparator(s[1..], separators);
      assert [s[0]] + s[1..] == s;
    }
  }

  lemma {:induction false} NumbersAppend(parts: seq<string>, last: string)
    ensures Numbers(parts + [last]) == Numbers(parts) + [ParseInt(last).GetOr(0)]
  {
    if parts != [] {
      assert (parts + [last])[1..] == parts[1..] + [last];
      NumbersAppend(parts[1..], last);
    }
  }

  lemma {:induction false} LexicographicSame(x: seq<int>)
    ensures Lexicographic(x, x) == 0
  {
    if x != [] {
      LexicographicSame(x[1..]);
    }
  }

  // ── Where the two part company ────────────────────────────────────────────

  lemma TripleOrder(x: seq<int>, y: seq<int>)
    requires |x| == |y| == 3
    ensures Lexicographic(x, y) > 0 <==>
            x[0] > y[0] || (x[0] == y[0] && (x[1] > y[1] || (x[1] == y[1] && x[2] > y[2])))
  {
    var x1, y1 := x[1..], y[1..];
    var x2, y2 := x1[1..], y1[1..];
    assert Lexicographic(x2, y2) > 0 <==> x2[0] > y2[0];
    assert Lexicographic(x1, y1) > 0 <==> x1[0] > y1[0] || (x1[0] == y1[0] && x2[0] > y2[0]);
  }

  /**
   On dotted numerals of any length `isNewer` says whether the compare is positive, except exactly when
   the first three segments are the same and `a` is newer in a later one.
   */
  lemma IsNewerAgreesIff(a: string, b: string)
    requires IsDotted(a) && IsDotted(b)
    ensures
      var p, q := Segments(a), Segments(b);
      (IsNewer(a, b) <==> Compare(a, b) > 0) <==> !(SameBelow(p, q, 3) && CompareFrom(p, q, 3) > 0)
  {
    DottedTriple(a);
    DottedTriple(b);
    TripleOrder(Values(Triple(a)), Values(Triple(b)));
    FirstThree(Segments(a), Segments(b));
  }

  lemma FirstThree(p: seq<int>, q: seq<int>)
    ensures CompareFrom(p, q, 0) > 0 <==>
            || At(p, 0) > At(q, 0)
            || (At(p, 0) == At(q, 0) && At(p, 1) > At(q, 1))
            || (At(p, 0) == At(q, 0) && At(p, 1) == At(q, 1) && At(p, 2) > At(q, 2))
            || (SameBelow(p, q, 3) && CompareFrom(p, q, 3) > 0)
  {
    PastTheEnd(p, q, 0);
    PastTheEnd(p, q, 1);
    PastTheEnd(p, q, 2);
  }

  // ── Other characters ──────────────────────────────────────────────────────

  lemma {:induction false} DigitsStopAtDash(s: string, t: string)
    requires AllDigits(s)
    ensures LeadingDigits(s + "-" + t) == s
  {
    var whole := s + "-" + t;
    if s != "" {
      assert whole[1..] == s[1..] + "-" + t;
      assert AllDigits(s[1..]);
      DigitsStopAtDash(s[1..], t);
    }
  }

  lemma {:induction false} LastPartGrows(s: string, t: string, separators: set<char>)
    requires forall i :: 0 <= i < |t| ==> t[i] !in separators
    ensures
      var parts := Split(s, separators);
      Split(s + t, separators) == parts[..|parts| - 1] + [parts[|parts| - 1] + t]
  {
    if s == "" {
      NoSeparator(t, separators);
      assert s + t == t;
    } else {
      assert (s + t)[1..] == s[1..] + t;
      LastPartGrows(s[1..], t, separators);
      var parts, rest := Split(s, separators), Split(s[1..], separators);
      var n := |rest| - 1;
      if s[0] in separators {
        assert parts[..n + 1] == [""] + rest[..n];
      } else if n == 0 {
        assert [s[0]] + (rest[0] + t) == ([s[0]] + rest[0]) + t;
      } else {
        assert parts[..n] == [[s[0]] + rest[0]] + rest[..n][1..];
      }
    }
  }

  lemma {:induction false} SameNumbers(parts: seq<string>, part: string)
    requires parts != [] && ParseInt(part) == ParseInt(parts[|parts| - 1])
    ensures Numbers(parts[..|parts| - 1] + [part]) == Numbers(parts)
  {
    NumbersAppend(parts[..|parts| - 1], part);
    NumbersAppend(parts[..|parts| - 1], parts[|parts| - 1]);
    assert parts == parts[..|parts| - 1] + [parts[|parts| - 1]];
  }

  /** A dash starts a new segment for `isNewer` only: it finds a newer version where the compare finds none. */
  lemma DashSegment(v: string, d: string)
    requires IsDotted(v) && |Split(v, {'.'})| <= 2 && IsNumeral(d) && Decimal(d) > 0
    ensures IsNewer(v + "-" + d, v) && Compare(v + "-" + d, v) == 0
  {
    DashIsNewer(v, d);
    DashIsSame(v, d);
  }

  lemma DashTriple(v: string, d: string)
    requires IsDotted(v) && |Split(v, {'.'})| <= 2 && IsNumeral(d)
    ensures
      var n := |Split(v, {'.'})|;
      && Triple(v)[n] == Some(0) && Triple(v + "-" + d)[n] == Some(Decimal(d))
      && forall k :: 0 <= k < n || n < k < 3 ==> Triple(v + "-" + d)[k] == Triple(v)[k]
  {
    hide ParseInt, Decimal;
    PlainCharacters(v);
    NoSeparator(d, {'.', '+', '-'});
    SplitAppend(v, '-', d, {'.', '+', '-'});
    NumeralParses(d);
  }

  lemma DashIsNewer(v: string, d: string)
    requires IsDotted(v) && |Split(v, {'.'})| <= 2 && IsNumeral(d) && Decimal(d) > 0
    ensures IsNewer(v + "-" + d, v)
  {
    hide Triple, Split, Decimal, IsDotted, Lexicographic;
    DashTriple(v, d);
    DottedTriple(v);
    var more := v + "-" + d;
    TripleOrder(Values(Triple(more)), Values(Triple(v)));
  }

  lemma DashIsSame(v: string, d: string)
    requires IsDotted(v) && IsNumeral(d)
    ensures Compare(v + "-" + d, v) == 0
  {
    var parts := Split(v, {'.'});
    var last := parts[|parts| - 1];
    var t := "-" + d;
    PlainCharacters(v);
    assert v + "-" + d == v + t;
    LastPartGrows(v, t, {'.'});
    DashParses(last, d);
    SameNumbers(parts, last + t);
    assert DropV(v) == v && DropV(v + t) == v + t;
    CompareIsTotalPreorder(v, v, v);
  }

  lemma DashParses(s: string, d: string)
    requires IsNumeral(s)
    ensures ParseInt(s + ("-" + d)) == ParseInt(s)
  {
    assert s + ("-" + d) == s + "-" + d;
    assert IsDigit(s[0]);
    DigitsStopAtDash(s, d);
    NumeralParses(s);
  }

  /** A leading v is dropped by the compare only; `isNewer` cannot read it and never finds an update either way. */
  lemma LeadingVIsUnreadable(v: string, other: string)
    requires v == "" || v[0] != 'v'
    ensures !IsNewer("v" + v, other) && !IsNewer(other, "v" + v)
    ensures Compare("v" + v, other) == Compare(v, other)
  {
    var s := "v" + v;
    assert s[1..] == v;
    var first := Split(s, {'.', '+', '-'})[0];
    assert first[0] == 'v' && ParseInt(first).None?;
    assert Triple(s)[0].None?;
  }

  /** `isNewer` reads at most three segments. */
  lemma FourthSegmentIsIgnored(v: string, d: string)
    requires IsExactTag(v) && IsNumeral(d)
    ensures !IsNewer(v + "." + d, v)
  {
    hide ParseInt, Lexicographic, Decimal;
    ExactTagIsPlain(v);
    PlainReadsTheSame(v);
    PlainCharacters(v);
    NoSeparator(d, {'.', '+', '-'});
    SplitAppend(v, '.', d, {'.', '+', '-'});
    assert Triple(v + "." + d) == Triple(v);
    LexicographicSame(Values(Triple(v)));
  }

  /** The compare reads them all, so beyond three segments the two part company. */
  lemma FourthSegmentCounts(v: string, d: string)
    requires IsExactTag(v) && IsNumeral(d)
    ensures Compare(v + "." + d, v) == if Decimal(d) > 0 then 1 else 0
  {
    ExactTagIsPlain(v);
    PlainCharacters(v);
    NoSeparator(d, {'.'});
    SplitAppend(v, '.', d, {'.'});
    NumeralParses(d);
    NumbersAppend(Split(v, {'.'}), d);
    var p, q := Segments(v + "." + d), Segments(v);
    assert DropV(v + "." + d) == v + "." + d && p == q + [Decimal(d)];
    OneMoreSegment(q, Decimal(d));
  }

  lemma OneMoreSegment(q: seq<int>, last: nat)
    ensures CompareFrom(q + [last], q, 0) == if last > 0 then 1 else 0
  {
    var p := q + [last];
    CompareMeans(p, q, 0);
    if last > 0 {
      assert FirstBelow(q, p, |q|);
    } else {
      assert SameVersion(p, q);
    }
  }
}
