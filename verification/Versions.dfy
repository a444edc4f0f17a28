/**
 Version strings: the numeric-segment compare of `common/agent-contract.ts`, which every verdict of
 the rollout engine goes through, and the separate `isNewer` of the platform updater.

 Segments are unbounded integers; JavaScript's overflow to infinity needs hundreds of digits.
 */
module Versions {
  import opened Basics
  import opened Wrappers

  // ── Reading one segment: JavaScript's parseInt(x, 10) ─────────────────────

  predicate IsDigit(c: char) { '0' <= c <= '9' }

  /** The characters String.prototype.trim and parseInt skip. */
  predicate IsSpace(c: char) {
    || c in {'\t', '\n', '\r', ' ', '\U{0B}', '\U{0C}', '\U{A0}', '\U{1680}', '\U{2028}', '\U{2029}'}
    || c in {'\U{202F}', '\U{205F}', '\U{3000}', '\U{FEFF}'}
    || '\U{2000}' <= c <= '\U{200A}'
  }

  function TrimStart(s: string): string {
    if s != "" && IsSpace(s[0]) then TrimStart(s[1..]) else s
  }

  function TrimEnd(s: string): string {
    if s != "" && IsSpace(s[|s| - 1]) then TrimEnd(s[..|s| - 1]) else s
  }

  function Trim(s: string): string { TrimEnd(TrimStart(s)) }

  function LeadingDigits(s: string): string {
    if s != "" && IsDigit(s[0]) then [s[0]] + LeadingDigits(s[1..]) else ""
  }

  function DecimalFrom(acc: nat, s: string): nat
    decreases |s|
  {
    if s == "" then acc
    else DecimalFrom(10 * acc + (if IsDigit(s[0]) then s[0] as nat - '0' as nat else 0), s[1..])
  }

  function Decimal(s: string): nat { DecimalFrom(0, s) }

  /** None is NaN. */
  function ParseInt(x: string): Option<int> {
    var t := TrimStart(x);
    var negative := t != "" && t[0] == '-';
    var unsigned := if t != "" && t[0] in {'+', '-'} then t[1..] else t;
    var digits := LeadingDigits(unsigned);
    if digits == "" then None
    else
      var value: int := Decimal(digits);
      Some(if negative then -value else value)
  }

  // ── Splitting ─────────────────────────────────────────────────────────────

  function Split(s: string, separators: set<char>): (parts: seq<string>)
    ensures parts != []
  {
    if s == "" then [""]
    else if s[0] in separators then [""] + Split(s[1..], separators)
    else
      var rest := Split(s[1..], separators);
      [[s[0]] + rest[0]] + rest[1..]
  }

  function DropV(s: string): string {
    if s != "" && s[0] == 'v' then s[1..] else s
  }

  function Numbers(parts: seq<string>): (r: seq<int>)
    ensures |r| == |parts|
  {
    if parts == [] then [] else [ParseInt(parts[0]).GetOr(0)] + Numbers(parts[1..])
  }

  function Segments(v: string): seq<int> { Numbers(Split(DropV(v), {'.'})) }

  // ── The comparison ────────────────────────────────────────────────────────

  function At(p: seq<int>, i: nat): int { if i < |p| then p[i] else 0 }

  function CompareFrom(p: seq<int>, q: seq<int>, i: nat): (c: int)
    ensures -1 <= c <= 1
    decreases Max(|p|, |q|) - i
  {
    if i >= Max(|p|, |q|) then 0
    else if At(p, i) != At(q, i) then (if At(p, i) < At(q, i) then -1 else 1)
    else CompareFrom(p, q, i + 1)
  }

  function Compare(a: string, b: string): int { CompareFrom(Segments(a), Segments(b), 0) }

  // ── Exact release tags: /^\d+\.\d+\.\d+$/ ─────────────────────────────────

  predicate AllDigits(s: string) { forall i :: 0 <= i < |s| ==> IsDigit(s[i]) }

  predicate IsNumeral(s: string) { s != "" && AllDigits(s) }

  predicate IsExactTag(s: string) {
    var parts := Split(s, {'.'});
    |parts| == 3 && IsNumeral(parts[0]) && IsNumeral(parts[1]) && IsNumeral(parts[2])
  }
}
