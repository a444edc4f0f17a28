/**
 The length-prefixed frames of the rendezvous transport. None stands for Python's struct.error, and
 or-ing into bits that are zero is written as addition.
 */
module HbbsFrames {
  import opened Basics
  import opened Wrappers

  // ── Frames ────────────────────────────────────────────────────────────────

  function Frame(payload: seq<byte>): Option<seq<byte>> {
    var n := |payload|;
    if n <= 0x3F then Some([n * 4] + payload)
    else if n <= 0x3FFF then Some([(n * 4 + 1) % 256, (n * 4 + 1) / 256] + payload)
    else if n * 4 + 2 >= 0x1_0000_0000 then None
    else
      var header := n * 4 + 2;
      Some([header % 256, header / 256 % 256, header / 65536 % 256] + payload)
  }

  function HeaderWidth(first: byte): nat { if first % 4 == 0 then 1 else if first % 4 == 1 then 2 else 3 }

  function Drop(data: seq<byte>, n: nat): seq<byte> { if n <= |data| then data[n..] else [] }

  /** The header stripping of `probe_native`; None is its refusal of an empty reply. */
  function Strip(data: seq<byte>): Option<seq<byte>> {
    if data == [] then None else Some(Drop(data, HeaderWidth(data[0])))
  }

  /** The length a header announces: its bytes in little-endian order, without the two width bits. */
  function HeaderLength(data: seq<byte>): nat
    requires data != [] && |data| >= HeaderWidth(data[0])
  {
    LittleEndian(data[..HeaderWidth(data[0])]) / 4
  }

  function LittleEndian(bytes: seq<byte>): nat {
    if bytes == [] then 0 else bytes[0] + 256 * LittleEndian(bytes[1..])
  }

  // ── Arithmetic of the header bytes ────────────────────────────────────────

  lemma LowBits(q: nat, bits: nat)
    requires bits < 4
    ensures ((q * 4 + bits) % 256) % 4 == bits
  {
    var h := q * 4 + bits;
    assert h == 256 * (h / 256) + h % 256;
    var r := h % 256;
    assert r == 4 * (q - 64 * (h / 256)) + bits;
  }

  lemma Third(h: nat)
    ensures h / 256 / 256 == h / 65536
  {
  }

  lemma ThreeBytes(h: nat)
    ensures h % 256 + 256 * (h / 256 % 256) + 65536 * (h / 65536 % 256) == h % 0x100_0000
  {
    var a, b, c := h % 256, h / 256 % 256, h / 65536 % 256;
    var q := h / 256;
    assert h == 256 * q + a;
    Third(h);
    var q2 := q / 256;
    assert q == 256 * q2 + b;
    var q3 := q2 / 256;
    assert q2 == 256 * q3 + c;
    assert h == 0x100_0000 * q3 + 65536 * c + 256 * b + a;
    UniqueRemainder(h, 0x100_0000, q3, 65536 * c + 256 * b + a);
  }

  lemma UniqueRemainder(h: nat, m: nat, q: nat, r: nat)
    requires r < m && h == m * q + r
    ensures h % m == r && h / m == q
  {
    assert h == m * (h / m) + h % m;
    assert m * (h / m - q) == r - h % m;
    NoMultipleBetween(m, h / m - q);
  }

  lemma NoMultipleBetween(m: int, d: int)
    requires m > 0 && -m < m * d < m
    ensures d == 0
  {
    assert d >= 1 ==> m * d >= m;
    assert d <= -1 ==> m * d <= -m;
  }

  lemma Quarter(n: nat)
    ensures (n * 4 + 2) % 0x100_0000 == 4 * (n % 0x40_0000) + 2
  {
    var q, r := n / 0x40_0000, n % 0x40_0000;
    assert n == 0x40_0000 * q + r;
    UniqueRemainder(n * 4 + 2, 0x100_0000, q, 4 * r + 2);
  }

  /** Stripping a frame returns every payload that can be framed, and those are the ones under 2^30 bytes. */
  lemma FrameRoundTrip(payload: seq<byte>)
    ensures Frame(payload).Some? <==> |payload| < 0x4000_0000
    ensures Frame(payload).Some? ==> Strip(Frame(payload).value) == Some(payload)
  {
    LowBits(|payload|, 0);
    LowBits(|payload|, 1);
    LowBits(|payload|, 2);
  }

  lemma LittleEndianOf(a: byte, b: byte, c: byte)
    ensures LittleEndian([a]) == a
    ensures LittleEndian([a, b]) == a + 256 * (b as int)
    ensures LittleEndian([a, b, c]) == a + 256 * (b as int) + 65536 * (c as int)
  {
    assert [a][1..] == [] && [a, b][1..] == [b] && [a, b, c][1..] == [b, c] && [b, c][1..] == [c];
    assert LittleEndian([c]) == c && LittleEndian([b]) == b;
  }

  lemma WideHeader(n: nat)
    ensures
      var h := n * 4 + 2;
      (h % 256 + 256 * (h / 256 % 256) + 65536 * (h / 65536 % 256)) / 4 == n % 0x40_0000
  {
    ThreeBytes(n * 4 + 2);
    Quarter(n);
  }

  lemma WideFrame(payload: seq<byte>)
    requires |payload| > 0x3FFF && Frame(payload).Some?
    ensures
      var framed := Frame(payload).value;
      HeaderWidth(framed[0]) == 3 && HeaderLength(framed) == |payload| % 0x40_0000
  {
    hide LittleEndian;
    var n, framed := |payload|, Frame(payload).value;
    LowBits(n, 2);
    var h := n * 4 + 2;
    assert framed[..3] == [h % 256, h / 256 % 256, h / 65536 % 256];
    LittleEndianOf(h % 256, h / 256 % 256, h / 65536 % 256);
    WideHeader(n);
  }

  /** The header announces the length modulo 2^22, so it is exact exactly below 2^22. */
  lemma FrameHeader(payload: seq<byte>)
    requires Frame(payload).Some?
    ensures
      var framed := Frame(payload).value;
      && |framed| >= HeaderWidth(framed[0])
      && HeaderLength(framed) == |payload| % 0x40_0000
      && (HeaderLength(framed) == |payload| <==> |payload| < 0x40_0000)
  {
    hide LittleEndian;
    var n, framed := |payload|, Frame(payload).value;
    if n <= 0x3F {
      LowBits(n, 0);
      assert framed[..1] == [n * 4];
      LittleEndianOf(n * 4, 0, 0);
    } else if n <= 0x3FFF {
      LowBits(n, 1);
      var a, b := (n * 4 + 1) % 256, (n * 4 + 1) / 256;
      assert framed[..2] == [a, b];
      LittleEndianOf(a, b, 0);
    } else {
      WideFrame(payload);
    }
  }
}
