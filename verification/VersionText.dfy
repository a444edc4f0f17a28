/** What the version strings mean: trimming, exact tags, and numbers written in decimal. */
module VersionText {
  import opened Wrappers
  import opened Versions
  import opened VersionOrder

  // ── Trimming ──────────────────────────────────────────────────────────────

  predicate AllSpace(s: string) { forall i :: 0 <= i < |s| ==> IsSpace(s[i]) }

  predicate IsTrimmed(s: string) { s == "" || (!IsSpace(s[0]) && !IsSpace(s[|s| - 1])) }

  /** `t` is what is left of `s` between the white space at its ends. */
  ghost predicate TrimsTo(s: string, t: string) {
    && IsTrimmed(t)
    && exists before: string, after: string :: AllSpace(before) && AllSpace(after) && s == before + t + after
  }

  lemma {:induction false} TrimStartMeans(s: string) returns (before: string)
    ensures AllSpace(before) && s == before + TrimStart(s) && (TrimStart(s) != "" ==> !IsSpace(TrimStart(s)[0]))
  {
    before := "";
    if s != "" && IsSpace(s[0]) {
      var rest := TrimStartMeans(s[1..]);
      before := [s[0]] + rest;
    }
  }

  lemma {:induction false} TrimEndMeans(s: string) returns (after: string)
    ensures AllSpace(after) && s == TrimEnd(s) + after
    ensures TrimEnd(s) != "" ==> TrimEnd(s)[0] == s[0] && !IsSpace(TrimEnd(s)[|TrimEnd(s)| - 1])
  {
    after := "";
    if s != "" && IsSpace(s[|s| - 1]) {
      var rest := TrimEndMeans(s[..|s| - 1]);
      after := rest + [s[|s| - 1]];
      assert s == s[..|s| - 1] + [s[|s| - 1]];
    }
  }

  lemma TrimMeans(s: string)
    ensures TrimsTo(s, Trim(s))
  {
    var before := TrimStartMeans(s);
    var after := TrimEndMeans(TrimStart(s));
    assert s == before + Trim(s) + after;
  }

  /** So trimming has one result. */
  lemma {:induction false} TrimIsUnique(s: string, t: string)
    requires TrimsTo(s, t)
    ensures t == Trim(s)
  {
    var before: string, after: string :| AllSpace(before) && AllSpace(after) && s == before + t + after;
    TrimStartDrops(before, t + after);
    assert s == before + (t + after);
    if t == "" {
      assert t + after == after;
      TrimStartDrops(after, "");
      assert after + "" == after;
    } else {
      TrimEndDrops(t, after);
    }
  }

  lemma {:induction false} TrimStartDrops(before: string, t: string)
    requires AllSpace(before)
    ensures TrimStart(before + t) == TrimStart(t)
  {
    if before == "" {
      assert before + t == t;
    } else {
      assert (before + t)[1..] == before[1..] + t;
      TrimStartDrops(before[1..], t);
    }
  }

  lemma {:induction false} TrimEndDrops(t: string, after: string)
    requires AllSpace(after) && t != "" && !IsSpace(t[|t| - 1])
    ensures TrimEnd(t + after) == t
  {
    if after == "" {
      assert t + after == t;
    } else {
      var n := |after| - 1;
      assert (t + after)[..|t + after| - 1] == t + after[..n];
      TrimEndDrops(t, after[..n]);
    }
  }

  // ── Exact tags ────────────────────────────────────────────────────────────

  function Dotted(a: string, b: string, c: string): string { a + "." + b + "." + c }

  /** Three numerals with dots between them. */
  ghost predicate IsTag(s: string) {
    exists a: string, b: string, c: string :: IsNumeral(a) && IsNumeral(b) && IsNumeral(c) && s == Dotted(a, b, c)
  }

  lemma DottedParts(a: string, b: string, c: string)
    requires IsNumeral(a) && IsNumeral(b) && IsNumeral(c)
    ensures Split(Dotted(a, b, c), {'.'}) == [a, b, c]
  {
    NoSeparator(a, {'.'});
    NoSeparator(b, {'.'});
    NoSeparator(c, {'.'});
    SplitAppend(a, '.', b, {'.'});
    assert a + "." + b == a + ['.'] + b;
    SplitAppend(a + "." + b, '.', c, {'.'});
    assert Dotted(a, b, c) == (a + "." + b) + ['.'] + c;
  }

  function Joined(parts: seq<string>): string
    requires parts != []
  {
    if |parts| == 1 then parts[0] else parts[0] + "." + Joined(parts[1..])
  }

  lemma {:induction false} SplitJoins(s: string)
    ensures Joined(Split(s, {'.'})) == s
  {
    if s != "" {
      SplitJoins(s[1..]);
      var parts, rest := Split(s, {'.'}), Split(s[1..], {'.'});
      if s[0] == '.' {
        assert parts[1..] == rest;
      } else {
        assert parts[1..] == rest[1..];
        assert Joined(parts) == [s[0]] + Joined(rest);
      }
      assert s == [s[0]] + s[1..];
    }
  }

  lemma ExactTagMeans(s: string)
    ensures IsExactTag(s) <==> IsTag(s)
  {
    if IsExactTag(s) {
      var parts := Split(s, {'.'});
      SplitJoins(s);
      assert Joined(parts[2..]) == parts[2];
      assert parts[1..][1..] == parts[2..];
      assert Joined(parts[1..]) == parts[1] + "." + parts[2];
      assert s == Dotted(parts[0], parts[1], parts[2]);
    }
    if IsTag(s) {
      var a: string, b: string, c: string :| IsNumeral(a) && IsNumeral(b) && IsNumeral(c) && s == Dotted(a, b, c);
      DottedParts(a, b, c);
    }
  }

  // ── Numbers ───────────────────────────────────────────────────────────────

  function Show(n: nat): (s: string)
    ensures IsNumeral(s)
  {
    if n < 10 then ['0' + n as char] else Show(n / 10) + ['0' + (n % 10) as char]
  }

  lemma {:induction false} DecimalAppends(acc: nat, s: string, c: char)
    requires AllDigits(s) && IsDigit(c)
    ensures DecimalFrom(acc, s + [c]) == 10 * DecimalFrom(acc, s) + (c as nat - '0' as nat)
    decreases |s|
  {
    if s == "" {
      assert s + [c] == [c];
      assert [c][1..] == "";
    } else {
      assert (s + [c])[1..] == s[1..] + [c];
      assert AllDigits(s[1..]);
      DecimalAppends(10 * acc + (s[0] as nat - '0' as nat), s[1..], c);
    }
  }

  /** A number written in decimal is read back. */
  lemma {:induction false} DecimalOfShow(n: nat)
    ensures Decimal(Show(n)) == n
    ensures ParseInt(Show(n)) == Some(n)
  {
    if n < 10 {
      var s := Show(n);
      assert s[1..] == "" && s[0] as nat - '0' as nat == n;
      assert Decimal(s) == DecimalFrom(n, "");
    } else {
      DecimalOfShow(n / 10);
      DecimalAppends(0, Show(n / 10), '0' + (n % 10) as char);
      assert n == 10 * (n / 10) + n % 10;
    }
    NumeralParses(Show(n));
  }

  /** The release tag of three numbers has those segments, so tags compare as their numbers do. */
  lemma TagsCompareAsNumbers(a: nat, b: nat, c: nat, x: nat, y: nat, z: nat)
    ensures
      var v, w := Dotted(Show(a), Show(b), Show(c)), Dotted(Show(x), Show(y), Show(z));
      && Segments(v) == [a, b, c] && Segments(w) == [x, y, z]
      && (Compare(v, w) < 0 <==> a < x || (a == x && (b < y || (b == y && c < z))))
      && (Compare(v, w) == 0 <==> a == x && b == y && c == z)
  {
    TagSegments(a, b, c);
    TagSegments(x, y, z);
    var p, q := [a as int, b, c], [x as int, y, z];
    PastTheEnd(p, q, 0);
    PastTheEnd(p, q, 1);
    PastTheEnd(p, q, 2);
  }

  lemma TagSegments(a: nat, b: nat, c: nat)
    ensures Segments(Dotted(Show(a), Show(b), Show(c))) == [a, b, c]
  {
    var v := Dotted(Show(a), Show(b), Show(c));
    var parts := [Show(a), Show(b), Show(c)];
    DottedParts(Show(a), Show(b), Show(c));
    assert v[0] == Show(a)[0] && IsDigit(v[0]);
    assert DropV(v) == v;
    DecimalOfShow(a);
    DecimalOfShow(b);
    DecimalOfShow(c);
    NumbersAt(parts, 0);
    NumbersAt(parts, 1);
    NumbersAt(parts, 2);
  }

  /** A segment that does not start with a number, a sign or white space counts as zero. */
  lemma JunkIsZero(s: string)
    requires s == "" || !(IsDigit(s[0]) || IsSpace(s[0]) || s[0] == '+' || s[0] == '-')
    ensures ParseInt(s).GetOr(0) == 0
  {
  }
}
