/**
 The browser's base64url adapter: `toB64u` and `toBuf`, over `btoa` and `atob` as section 4 of
 RFC 4648 defines them. The text is in the alphabet of section 5, without padding.

 None stands for the exception `atob` throws.
 */
module Base64Url {
  import opened Basics
  import opened Wrappers

  type sextet = s: int | 0 <= s < 64

  // ── Bytes and groups of six bits ──────────────────────────────────────────

  function S0(a: byte): sextet { a / 4 }
  function S1(a: byte, b: byte): sextet { a % 4 * 16 + b / 16 }
  function S2(b: byte, c: byte): sextet { b % 16 * 4 + c / 64 }
  function S3(c: byte): sextet { c % 64 }

  function B0(p: sextet, q: sextet): byte { p * 4 + q / 16 }
  function B1(q: sextet, r: sextet): byte { q % 16 * 16 + r / 4 }
  function B2(r: sextet, s: sextet): byte { r % 4 * 64 + s }

  lemma BytesOfGroup(a: byte, b: byte, c: byte)
    ensures B0(S0(a), S1(a, b)) == a && B1(S1(a, b), S2(b, c)) == b && B2(S2(b, c), S3(c)) == c
  {
  }

  lemma GroupOfBytes(p: sextet, q: sextet, r: sextet, s: sextet)
    ensures S0(B0(p, q)) == p && S1(B0(p, q), B1(q, r)) == q && S2(B1(q, r), B2(r, s)) == r && S3(B2(r, s)) == s
    ensures S1(B0(p, q), 0) == q <==> q % 16 == 0
    ensures S2(B1(q, r), 0) == r <==> r % 4 == 0
  {
  }

  function Sextets(b: seq<byte>): seq<sextet> {
    if |b| == 0 then []
    else if |b| == 1 then [S0(b[0]), S1(b[0], 0)]
    else if |b| == 2 then [S0(b[0]), S1(b[0], b[1]), S2(b[1], 0)]
    else [S0(b[0]), S1(b[0], b[1]), S2(b[1], b[2]), S3(b[2])] + Sextets(b[3..])
  }

  /** Leftover bits that do not fill a byte are dropped. */
  function Bytes(x: seq<sextet>): seq<byte>
    requires |x| % 4 != 1
  {
    if |x| == 0 then []
    else if |x| == 2 then [B0(x[0], x[1])]
    else if |x| == 3 then [B0(x[0], x[1]), B1(x[1], x[2])]
    else [B0(x[0], x[1]), B1(x[1], x[2]), B2(x[2], x[3])] + Bytes(x[4..])
  }

  lemma {:induction false} SextetCount(b: seq<byte>)
    ensures |Sextets(b)| == (4 * |b| + 2) / 3
    ensures |Sextets(b)| % 4 != 1
  {
    if |b| >= 3 {
      SextetCount(b[3..]);
    }
  }

  lemma {:induction false} BytesOfSextets(b: seq<byte>)
    ensures |Sextets(b)| % 4 != 1
    ensures Bytes(Sextets(b)) == b
  {
    hide S0, S1, S2, S3, B0, B1, B2;
    SextetCount(b);
    if |b| == 1 {
      BytesOfGroup(b[0], 0, 0);
    } else if |b| == 2 {
      BytesOfGroup(b[0], b[1], 0);
    } else if |b| >= 3 {
      BytesOfGroup(b[0], b[1], b[2]);
      BytesOfSextets(b[3..]);
      assert Sextets(b)[4..] == Sextets(b[3..]);
      assert b == [b[0], b[1], b[2]] + b[3..];
    }
  }

  /** The leftover bits of the last group are zero. */
  predicate Canonical(x: seq<sextet>)
    requires |x| % 4 != 1
  {
    && (|x| % 4 == 2 ==> x[|x| - 1] % 16 == 0)
    && (|x| % 4 == 3 ==> x[|x| - 1] % 4 == 0)
  }

  lemma SextetsOfThree(a: byte, b: byte, c: byte, rest: seq<byte>)
    ensures Sextets([a, b, c] + rest) == [S0(a), S1(a, b), S2(b, c), S3(c)] + Sextets(rest)
  {
    hide S0, S1, S2, S3;
    assert ([a, b, c] + rest)[3..] == rest;
  }

  lemma BytesOfFour(p: sextet, q: sextet, r: sextet, s: sextet, rest: seq<sextet>)
    requires |rest| % 4 != 1
    ensures Bytes([p, q, r, s] + rest) == [B0(p, q), B1(q, r), B2(r, s)] + Bytes(rest)
  {
    hide B0, B1, B2;
    assert ([p, q, r, s] + rest)[4..] == rest;
  }

  lemma FirstGroup(x: seq<sextet>)
    requires |x| % 4 != 1 && |x| >= 4
    ensures Sextets(Bytes(x)) == x[..4] + Sextets(Bytes(x[4..]))
  {
    hide Sextets, Bytes, S0, S1, S2, S3, B0, B1, B2;
    assert x == [x[0], x[1], x[2], x[3]] + x[4..];
    BytesOfFour(x[0], x[1], x[2], x[3], x[4..]);
    SextetsOfThree(B0(x[0], x[1]), B1(x[1], x[2]), B2(x[2], x[3]), Bytes(x[4..]));
    GroupOfBytes(x[0], x[1], x[2], x[3]);
    assert x[..4] == [x[0], x[1], x[2], x[3]];
  }

  lemma {:induction false} SextetsOfBytes(x: seq<sextet>)
    requires |x| % 4 != 1
    ensures Sextets(Bytes(x)) == x <==> Canonical(x)
  {
    hide Sextets, Bytes, Canonical;
    if |x| >= 4 {
      MoreGroups(x);
      CanonicalRest(x);
      SextetsOfBytes(x[4..]);
    } else if |x| == 3 {
      ThreeLeft(x[0], x[1], x[2]);
      assert x == [x[0], x[1], x[2]];
    } else if |x| == 2 {
      TwoLeft(x[0], x[1]);
      assert x == [x[0], x[1]];
    } else {
      NoneLeft();
      assert x == [];
    }
  }

  lemma NoneLeft()
    ensures Sextets(Bytes([])) == [] && Canonical([])
  {
  }

  lemma TwoLeft(p: sextet, q: sextet)
    ensures Sextets(Bytes([p, q])) == [p, q] <==> Canonical([p, q])
  {
    hide S0, S1, S2, S3, B0, B1, B2;
    GroupOfBytes(p, q, 0, 0);
    assert Sextets([B0(p, q)]) == [p, S1(B0(p, q), 0)];
  }

  lemma ThreeLeft(p: sextet, q: sextet, r: sextet)
    ensures Sextets(Bytes([p, q, r])) == [p, q, r] <==> Canonical([p, q, r])
  {
    hide S0, S1, S2, S3, B0, B1, B2;
    GroupOfBytes(p, q, r, 0);
    assert Sextets([B0(p, q), B1(q, r)]) == [p, q, S2(B1(q, r), 0)];
  }

  lemma MoreGroups(x: seq<sextet>)
    requires |x| % 4 != 1 && |x| >= 4
    ensures Sextets(Bytes(x)) == x <==> Sextets(Bytes(x[4..])) == x[4..]
  {
    hide Sextets, Bytes;
    FirstGroup(x);
    SamePrefix(x, Sextets(Bytes(x[4..])));
  }

  lemma SamePrefix(x: seq<sextet>, rest: seq<sextet>)
    requires |x| >= 4
    ensures x[..4] + rest == x <==> rest == x[4..]
  {
    assert x == x[..4] + x[4..];
    assert (x[..4] + rest)[4..] == rest;
  }

  lemma CanonicalRest(x: seq<sextet>)
    requires |x| % 4 != 1 && |x| >= 4
    ensures Canonical(x) <==> Canonical(x[4..])
  {
  }

  /** Three bytes and the four groups of six bits made of them are the same 24-bit number. */
  lemma GroupsKeepTheNumber(a: byte, b: byte, c: byte)
    ensures 262144 * S0(a) + 4096 * S1(a, b) + 64 * S2(b, c) + S3(c) == 65536 * a + 256 * b + c
  {
  }

  // ── Letters ───────────────────────────────────────────────────────────────

  /** Table 1 of RFC 4648. */
  function Letter(s: sextet): char {
    var n := s;
    if n < 26 then (n + 'A' as int) as char
    else if n < 52 then (n - 26 + 'a' as int) as char
    else if n < 62 then (n - 52 + '0' as int) as char
    else if n == 62 then '+'
    else '/'
  }

  function Value(c: char): Option<sextet> {
    var n := c as int;
    if 'A' <= c <= 'Z' then Some((n - 'A' as int))
    else if 'a' <= c <= 'z' then Some((n - 'a' as int + 26))
    else if '0' <= c <= '9' then Some((n - '0' as int + 52))
    else if c == '+' then Some(62)
    else if c == '/' then Some(63)
    else None
  }

  predicate IsUrlChar(c: char) {
    'A' <= c <= 'Z' || 'a' <= c <= 'z' || '0' <= c <= '9' || c == '-' || c == '_'
  }

  function ToUrl(c: char): char { if c == '+' then '-' else if c == '/' then '_' else c }

  function FromUrl(c: char): char { if c == '-' then '+' else if c == '_' then '/' else c }

  lemma LetterRoundTrip(s: sextet)
    ensures Value(Letter(s)) == Some(s)
    ensures FromUrl(ToUrl(Letter(s))) == Letter(s)
    ensures IsUrlChar(ToUrl(Letter(s))) && Letter(s) != '=' && !IsSpace(Letter(s))
  {
  }

  lemma UrlCharHasValue(c: char)
    requires IsUrlChar(c)
    ensures Value(FromUrl(c)).Some? && ToUrl(Letter(Value(FromUrl(c)).value)) == c
  {
  }

  /** Table 1 of RFC 4648 by its runs: A to Z, a to z, 0 to 9, plus, slash. */
  lemma LettersFollowTheTable(s: sextet)
    ensures Letter(0) == 'A' && Letter(25) == 'Z' && Letter(26) == 'a' && Letter(51) == 'z'
    ensures Letter(52) == '0' && Letter(61) == '9' && Letter(62) == '+' && Letter(63) == '/'
    ensures s !in {25, 51, 61, 62, 63} ==> Letter(s + 1) as int == Letter(s) as int + 1
  {
  }

  function Letters(x: seq<sextet>): (s: string)
    ensures |s| == |x| && forall i :: 0 <= i < |x| ==> s[i] == Letter(x[i])
  {
    seq(|x|, i requires 0 <= i < |x| => Letter(x[i]))
  }

  function Replaced(f: char -> char, s: string): (r: string)
    ensures |r| == |s| && forall i :: 0 <= i < |s| ==> r[i] == f(s[i])
  {
    seq(|s|, i requires 0 <= i < |s| => f(s[i]))
  }

  function Values(s: string): (r: Option<seq<sextet>>)
    ensures r.Some? <==> forall i :: 0 <= i < |s| ==> Value(s[i]).Some?
    ensures r.Some? ==> |r.value| == |s| && forall i :: 0 <= i < |s| ==> Value(s[i]) == Some(r.value[i])
  {
    if s == "" then Some([])
    else
      var rest := Values(s[1..]);
      if Value(s[0]).None? || rest.None? then None else Some([Value(s[0]).value] + rest.value)
  }

  function Pad(n: nat): (s: string)
    ensures |s| == n && forall i :: 0 <= i < n ==> s[i] == '='
  {
    seq(n, _ => '=')
  }

  /** `replace(/=+$/, '')` */
  function DropPadding(s: string): string {
    if s != "" && s[|s| - 1] == '=' then DropPadding(s[..|s| - 1]) else s
  }

  // ── btoa and atob ─────────────────────────────────────────────────────────

  function Btoa(b: seq<byte>): string {
    var x := Sextets(b);
    Letters(x) + Pad((4 - |x| % 4) % 4)
  }

  /** ASCII white space, which `atob` skips. */
  predicate IsSpace(c: char) { c in {'\t', '\n', '\U{0C}', '\r', ' '} }

  function Squeezed(s: string): string {
    if s == "" then ""
    else (if IsSpace(s[0]) then "" else [s[0]]) + Squeezed(s[1..])
  }

  /** At most two padding characters, and only to fill the last group. */
  function WithoutPadding(s: string): string {
    if |s| % 4 == 0 && |s| > 0 && s[|s| - 1] == '='
    then if s[|s| - 2] == '=' then s[..|s| - 2] else s[..|s| - 1]
    else s
  }

  function Atob(s: string): Option<seq<byte>> {
    var text := WithoutPadding(Squeezed(s));
    var x := Values(text);
    if |text| % 4 == 1 || x.None? then None else Some(Bytes(x.value))
  }

  // ── The adapter ───────────────────────────────────────────────────────────

  function ToB64u(b: seq<byte>): string { DropPadding(Replaced(ToUrl, Btoa(b))) }

  /** The string `toBuf` hands to `atob`: translated and padded to a whole number of groups. */
  function Prepared(b64u: string): string {
    Replaced(FromUrl, b64u) + Pad((4 - |b64u| % 4) % 4)
  }

  function ToBuf(b64u: string): Option<seq<byte>> { Atob(Prepared(b64u)) }

  lemma {:induction false} DropPad(s: string, n: nat)
    requires s == "" || s[|s| - 1] != '='
    ensures DropPadding(s + Pad(n)) == s
  {
    if n == 0 {
      assert s + Pad(0) == s;
    } else {
      assert (s + Pad(n))[..|s| + n - 1] == s + Pad(n - 1);
      DropPad(s, n - 1);
    }
  }

  lemma EncodedLetters(b: seq<byte>)
    ensures ToB64u(b) == Replaced(ToUrl, Letters(Sextets(b)))
  {
    var x := Sextets(b);
    var n := (4 - |x| % 4) % 4;
    forall i | 0 <= i < |x| ensures ToUrl(Letter(x[i])) != '=' {
      LetterRoundTrip(x[i]);
    }
    assert Replaced(ToUrl, Btoa(b)) == Replaced(ToUrl, Letters(x)) + Pad(n);
    DropPad(Replaced(ToUrl, Letters(x)), n);
  }

  /** The text uses only the section 5 alphabet, no padding, and as few characters as the bits need. */
  lemma EncodedAlphabet(b: seq<byte>)
    ensures forall i :: 0 <= i < |ToB64u(b)| ==> IsUrlChar(ToB64u(b)[i])
    ensures |ToB64u(b)| == (4 * |b| + 2) / 3
  {
    EncodedLetters(b);
    SextetCount(b);
    forall s: sextet ensures IsUrlChar(ToUrl(Letter(s))) {
      LetterRoundTrip(s);
    }
  }

  /** Its length alone lets `toBuf` rebuild exactly what `btoa` produced. */
  lemma PaddingIsRestored(b: seq<byte>)
    ensures Prepared(ToB64u(b)) == Btoa(b)
  {
    EncodedLetters(b);
    var x := Sextets(b);
    forall i | 0 <= i < |x| ensures FromUrl(ToUrl(Letter(x[i]))) == Letter(x[i]) {
      LetterRoundTrip(x[i]);
    }
    assert Replaced(FromUrl, Replaced(ToUrl, Letters(x))) == Letters(x);
  }

  lemma LettersHaveValues(x: seq<sextet>)
    ensures Values(Letters(x)) == Some(x)
    ensures forall i :: 0 <= i < |x| ==> Letters(x)[i] != '='
  {
    forall i | 0 <= i < |x| ensures Value(Letter(x[i])) == Some(x[i]) && Letter(x[i]) != '=' {
      LetterRoundTrip(x[i]);
    }
    assert Values(Letters(x)).value == x;
  }

  lemma {:induction false} NothingSqueezed(s: string)
    requires forall i :: 0 <= i < |s| ==> !IsSpace(s[i])
    ensures Squeezed(s) == s
  {
    if s != "" {
      NothingSqueezed(s[1..]);
      assert [s[0]] + s[1..] == s;
    }
  }

  lemma {:induction false} SqueezedAppend(s: string, t: string)
    ensures Squeezed(s + t) == Squeezed(s) + Squeezed(t)
  {
    if s == "" {
      assert s + t == t;
    } else {
      assert (s + t)[1..] == s[1..] + t;
      SqueezedAppend(s[1..], t);
    }
  }

  lemma LettersAreNotSpace(x: seq<sextet>)
    ensures forall i :: 0 <= i < |x| ==> !IsSpace(Letters(x)[i])
  {
    forall i | 0 <= i < |x| ensures !IsSpace(Letter(x[i])) {
      LetterRoundTrip(x[i]);
    }
  }

  lemma AtobIs(s: string, text: string, x: seq<sextet>)
    requires WithoutPadding(Squeezed(s)) == text && |text| % 4 != 1 && Values(text) == Some(x)
    ensures Atob(s) == Some(Bytes(x))
  {
    hide WithoutPadding, Squeezed, Values, Bytes;
  }

  lemma RightPadding(x: seq<sextet>, n: nat)
    requires |x| % 4 != 1 && n < 3 && (n > 0 ==> (|x| + n) % 4 == 0)
    ensures Atob(Letters(x) + Pad(n)) == Some(Bytes(x))
  {
    hide Letter, Bytes, Letters, Pad, Value, Values, Atob;
    var s := Letters(x) + Pad(n);
    LettersHaveValues(x);
    LettersAreNotSpace(x);
    NothingSqueezed(s);
    assert s[..|x|] == Letters(x);
    assert n == 0 ==> s == Letters(x);
    AtobIs(s, Letters(x), x);
  }

  lemma PaddingIsNoLetter(s: string, k: nat)
    requires Squeezed(s) == s && k < |WithoutPadding(s)| && WithoutPadding(s)[k] == '='
    ensures Atob(s).None?
  {
    hide WithoutPadding, Squeezed, Bytes;
    assert Value(WithoutPadding(s)[k]).None?;
  }

  /** Padding that `atob` does not take off is a bad character to it. */
  lemma WrongPadding(x: seq<sextet>, n: nat)
    requires 0 < n < 4 && (n == 3 || (|x| + n) % 4 != 0)
    ensures Atob(Letters(x) + Pad(n)).None?
  {
    hide Letter, Letters, Pad, Atob;
    var s := Letters(x) + Pad(n);
    LettersAreNotSpace(x);
    NothingSqueezed(s);
    PaddingIsNoLetter(s, |x|);
  }

  /** Every byte sequence survives the round trip. */
  lemma RoundTrip(b: seq<byte>)
    ensures ToBuf(ToB64u(b)) == Some(b)
  {
    hide Bytes, Sextets, Letters, Pad, Atob, Prepared, ToB64u;
    PaddingIsRestored(b);
    BytesOfSextets(b);
    SextetCount(b);
    RightPadding(Sextets(b), (4 - |Sextets(b)| % 4) % 4);
  }

  /** So no two byte sequences share a text. */
  lemma EncodingIsInjective(a: seq<byte>, b: seq<byte>)
    requires ToB64u(a) == ToB64u(b)
    ensures a == b
  {
    RoundTrip(a);
    RoundTrip(b);
  }

  /** Test vectors of section 10 of RFC 4648, without padding, and one for the two letters of section 5. */
  lemma TestVectors()
    ensures ToB64u([102]) == "Zg"
    ensures ToB64u([102, 111]) == "Zm8"
    ensures ToB64u([102, 111, 111]) == "Zm9v"
    ensures ToB64u([255, 255, 254]) == "___-"
  {
    Vector([102], [25, 32], "Zg");
    Vector([102, 111], [25, 38, 60], "Zm8");
    Vector([102, 111, 111], [25, 38, 61, 47], "Zm9v");
    Vector([255, 255, 254], [63, 63, 63, 62], "___-");
  }

  lemma Vector(b: seq<byte>, x: seq<sextet>, text: string)
    requires Sextets(b) == x && |text| == |x| && forall i :: 0 <= i < |x| ==> text[i] == ToUrl(Letter(x[i]))
    ensures ToB64u(b) == text
  {
    hide Letter, Sextets;
    EncodedLetters(b);
  }

  // ── The other way round ───────────────────────────────────────────────────

  predicate IsUrlText(s: string) { forall i :: 0 <= i < |s| ==> IsUrlChar(s[i]) }

  /** The groups of six bits a base64url text stands for. */
  function Read(s: string): (x: seq<sextet>)
    requires IsUrlText(s)
    ensures Values(Replaced(FromUrl, s)) == Some(x)
    ensures Replaced(ToUrl, Letters(x)) == s
  {
    UrlTextReads(s);
    Values(Replaced(FromUrl, s)).value
  }

  lemma UrlTextReads(s: string)
    requires IsUrlText(s)
    ensures Values(Replaced(FromUrl, s)).Some?
    ensures Replaced(ToUrl, Letters(Values(Replaced(FromUrl, s)).value)) == s
  {
    forall i | 0 <= i < |s|
      ensures Value(FromUrl(s[i])).Some? && ToUrl(Letter(Value(FromUrl(s[i])).value)) == s[i]
    {
      UrlCharHasValue(s[i]);
    }
    var x := Values(Replaced(FromUrl, s)).value;
    assert forall i :: 0 <= i < |s| ==> Value(FromUrl(s[i])) == Some(x[i]);
  }

  /**
   A text in the alphabet decodes unless one character is left over, and encodes back to itself
   exactly when its leftover bits are zero.
   */
  lemma TextRoundTrip(s: string)
    requires IsUrlText(s)
    ensures ToBuf(s).Some? <==> |s| % 4 != 1
    ensures ToBuf(s).Some? ==> (ToB64u(ToBuf(s).value) == s <==> Canonical(Read(s)))
  {
    hide Atob, Prepared, ToB64u, Bytes, Sextets, Letters, Letter, Value, Values, Pad, Canonical, Replaced, Read;
    var x := Read(s);
    PreparedLetters(s);
    if |s| % 4 == 1 {
      WrongPadding(x, 3);
    } else {
      RightPadding(x, (4 - |x| % 4) % 4);
      EncodesBackIff(x);
    }
  }

  lemma ReadLetters(s: string)
    requires IsUrlText(s)
    ensures Letters(Read(s)) == Replaced(FromUrl, s) && |Read(s)| == |s|
  {
    var x := Read(s);
    forall i | 0 <= i < |s| ensures Letters(x)[i] == Replaced(FromUrl, s)[i] {
      LetterRoundTrip(x[i]);
      assert ToUrl(Letter(x[i])) == s[i];
    }
    assert Letters(x) == Replaced(FromUrl, s);
  }

  lemma PreparedLetters(s: string)
    requires IsUrlText(s)
    ensures Prepared(s) == Letters(Read(s)) + Pad((4 - |s| % 4) % 4)
  {
    ReadLetters(s);
  }

  lemma EncodesBackIff(x: seq<sextet>)
    requires |x| % 4 != 1
    ensures ToB64u(Bytes(x)) == Replaced(ToUrl, Letters(x)) <==> Canonical(x)
  {
    EncodedLetters(Bytes(x));
    SextetsOfBytes(x);
    LettersInjective(Sextets(Bytes(x)), x);
  }

  lemma LettersInjective(x: seq<sextet>, y: seq<sextet>)
    ensures Replaced(ToUrl, Letters(x)) == Replaced(ToUrl, Letters(y)) <==> x == y
  {
    if Replaced(ToUrl, Letters(x)) == Replaced(ToUrl, Letters(y)) {
      assert |x| == |Replaced(ToUrl, Letters(x))| == |y|;
      forall i | 0 <= i < |x| ensures x[i] == y[i] {
        assert ToUrl(Letter(x[i])) == Replaced(ToUrl, Letters(x))[i];
        assert ToUrl(Letter(y[i])) == Replaced(ToUrl, Letters(y))[i];
        LetterRoundTrip(x[i]);
        LetterRoundTrip(y[i]);
      }
    }
  }

  // ── White space in the text ───────────────────────────────────────────────

  lemma {:induction false} SqueezedReplaced(s: string)
    ensures Squeezed(Replaced(FromUrl, s)) == Replaced(FromUrl, Squeezed(s))
  {
    if s == "" {
      assert Replaced(FromUrl, s) == "";
    } else {
      var r := Replaced(FromUrl, s);
      assert r[0] == FromUrl(s[0]) && r[1..] == Replaced(FromUrl, s[1..]);
      SqueezedReplaced(s[1..]);
      assert IsSpace(r[0]) == IsSpace(s[0]);
    }
  }

  lemma NoPadding(x: seq<sextet>)
    requires |x| % 4 == 1
    ensures Atob(Letters(x) + Pad(0)).None?
  {
    hide Letter, Bytes, Letters, Value, Values;
    LettersAreNotSpace(x);
    assert Letters(x) + Pad(0) == Letters(x);
    NothingSqueezed(Letters(x));
  }

  /** What `atob` makes of a clean text after which the wrong padding may stand. */
  lemma PaddedText(x: seq<sextet>, n: nat)
    requires n < 4
    ensures
      var r := Atob(Letters(x) + Pad(n));
      && (r.Some? <==> |x| % 4 != 1 && n < 3 && (n > 0 ==> (|x| + n) % 4 == 0))
      && (r.Some? ==> r == Some(Bytes(x)))
  {
    hide Atob, Letters, Pad, Bytes;
    if n > 0 && (n == 3 || (|x| + n) % 4 != 0) {
      WrongPadding(x, n);
    } else if |x| % 4 == 1 {
      NoPadding(x);
    } else {
      RightPadding(x, n);
    }
  }

  lemma SpacedPrepared(s: string)
    requires IsUrlText(Squeezed(s))
    ensures Squeezed(Prepared(s)) == Letters(Read(Squeezed(s))) + Pad((4 - |s| % 4) % 4)
  {
    hide Letter, Value, Squeezed;
    var clean := Squeezed(s);
    var n := (4 - |s| % 4) % 4;
    SqueezedReplaced(s);
    SqueezedAppend(Replaced(FromUrl, s), Pad(n));
    NothingSqueezed(Pad(n));
    ReadLetters(clean);
  }

  lemma SameSqueezed(s: string, t: string)
    requires Squeezed(s) == Squeezed(t)
    ensures Atob(s) == Atob(t)
  {
  }

  lemma PaddingFits(full: nat, clean: nat)
    ensures
      var n := (4 - full % 4) % 4;
      clean % 4 != 1 && n < 3 && (n > 0 ==> (clean + n) % 4 == 0) <==>
      full % 4 != 1 && clean % 4 != 1 && (full % 4 != 0 ==> clean % 4 == full % 4)
    ensures
      var n := (4 - clean % 4) % 4;
      clean % 4 != 1 ==> n < 3 && (n > 0 ==> (clean + n) % 4 == 0)
  {
  }

  lemma CleanAtob(s: string)
    requires IsUrlText(s)
    ensures ToBuf(s) == Atob(Letters(Read(s)) + Pad((4 - |s| % 4) % 4)) && |Read(s)| == |s|
  {
    hide Atob, Letters, Letter, Pad, Read;
    PreparedLetters(s);
    ReadLetters(s);
  }

  lemma SpacedAtob(s: string)
    requires IsUrlText(Squeezed(s))
    ensures ToBuf(s) == Atob(Letters(Read(Squeezed(s))) + Pad((4 - |s| % 4) % 4))
  {
    hide Atob, Prepared, Squeezed, Letters, Letter, Pad;
    var x := Read(Squeezed(s));
    var n := (4 - |s| % 4) % 4;
    SpacedPrepared(s);
    LettersAreNotSpace(x);
    NothingSqueezed(Letters(x) + Pad(n));
    SameSqueezed(Prepared(s), Letters(x) + Pad(n));
  }

  /**
   White space is skipped by `atob` but counted by `padEnd`. So a text with white space in it decodes
   exactly when the padding added for its full length is right for what is left of it, and then as that.
   */
  lemma SpacedTextDecodes(s: string)
    requires IsUrlText(Squeezed(s))
    ensures
      var clean := Squeezed(s);
      && (ToBuf(s).Some? <==> |s| % 4 != 1 && |clean| % 4 != 1 && (|s| % 4 != 0 ==> |clean| % 4 == |s| % 4))
      && (ToBuf(s).Some? ==> ToBuf(s) == ToBuf(clean))
  {
    hide *;
    var clean := Squeezed(s);
    var x := Read(clean);
    SpacedAtob(s);
    CleanAtob(clean);
    PaddedText(x, (4 - |s| % 4) % 4);
    PaddedText(x, (4 - |clean| % 4) % 4);
    PaddingFits(|s|, |clean|);
  }

  // ── The loops over characters ─────────────────────────────────────────────

  /** A string with one character per byte, which is what `btoa` takes and `atob` returns. */
  function Binary(b: seq<byte>): (s: string)
    ensures |s| == |b| && forall i :: 0 <= i < |b| ==> s[i] == b[i] as char
  {
    seq(|b|, i requires 0 <= i < |b| => b[i] as char)
  }

  function Codes(bin: string): (b: seq<byte>)
    requires forall i :: 0 <= i < |bin| ==> bin[i] as int < 256
    ensures |b| == |bin| && forall i :: 0 <= i < |b| ==> b[i] as int == bin[i] as int
  {
    seq(|bin|, i requires 0 <= i < |bin| => bin[i] as int)
  }

  method EncodeBuffer(bytes: array<byte>) returns (text: string)
    ensures text == ToB64u(bytes[..])
  {
    var bin := "";
    for i := 0 to bytes.Length
      invariant bin == Binary(bytes[..i])
    {
      bin := bin + [bytes[i] as char];
    }
    assert Codes(bin) == bytes[..];
    return DropPadding(Replaced(ToUrl, Btoa(Codes(bin))));
  }

  method DecodeText(b64u: string) returns (out: array?<byte>)
    ensures out == null <==> ToBuf(b64u).None?
    ensures out != null ==> fresh(out) && out[..] == ToBuf(b64u).value
  {
    hide Atob, Prepared;
    var decoded := Atob(Prepared(b64u));
    if decoded.None? {
      return null;
    }
    var bin := Binary(decoded.value);
    var buffer := new byte[|bin|];
    for i := 0 to |bin|
      invariant buffer[..i] == decoded.value[..i]
    {
      buffer[i] := bin[i] as int;
    }
    assert buffer[..] == decoded.value;
    return buffer;
  }
}
