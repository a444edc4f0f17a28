/**
 The message code of the hbbs probe: Protocol Buffers varints and fields.

 Bit operations are written as arithmetic: `n & 0x7F` is `n % 128`, `n >> 7` is `n / 128`, and or-ing
 into bits that are still zero is addition. None stands for Python's IndexError.
 */
module HbbsProbe {
  import opened Basics
  import opened Wrappers

  // ── Varints ───────────────────────────────────────────────────────────────

  function Varint(n: nat): (out: seq<byte>)
    ensures |out| > 0
  {
    if n < 128 then [n] else [128 + n % 128] + Varint(n / 128)
  }

  method WriteVarint(value: nat) returns (out: seq<byte>)
    ensures out == Varint(value)
  {
    var n := value;
    out := [];
    while true
      invariant out + Varint(n) == Varint(value)
      decreases n
    {
      var b := n % 128;
      var rest := n / 128;
      if rest == 0 {
        out := out + [b];
        return;
      }
      assert out + Varint(n) == (out + [b + 128]) + Varint(rest);
      n := rest;
      out := out + [b + 128];
    }
  }

  datatype Cursor = Cursor(value: nat, next: nat)

  function ReadVarint(buf: seq<byte>, i: nat): (r: Option<Cursor>)
    ensures r.Some? ==> i < r.value.next <= |buf|
    decreases |buf| - i
  {
    if i >= |buf| then None
    else if buf[i] < 128 then Some(Cursor(buf[i], i + 1))
    else
      var rest := ReadVarint(buf, i + 1);
      if rest.None? then None else Some(Cursor(buf[i] - 128 + 128 * rest.value.value, rest.value.next))
  }

  /** What reading on from here completes, with `result` read so far and `scale` = `1 << shift`. */
  function Completed(rest: Option<Cursor>, result: nat, scale: nat): Option<Cursor> {
    match rest
    case None => None
    case Some(c) => Some(Cursor(result + scale * c.value, c.next))
  }

  lemma OneMoreByte(buf: seq<byte>, i: nat, result: nat, scale: nat)
    requires i < |buf| && buf[i] >= 128
    ensures Completed(ReadVarint(buf, i), result, scale)
         == Completed(ReadVarint(buf, i + 1), result + (buf[i] - 128) * scale, scale * 128)
  {
    var rest := ReadVarint(buf, i + 1);
    if rest.Some? {
      Shifted(result, scale, buf[i] - 128, rest.value.value);
    }
  }

  lemma Shifted(result: nat, scale: nat, low: nat, high: nat)
    ensures result + scale * (low + 128 * high) == (result + low * scale) + (scale * 128) * high
  {
  }

  method ScanVarint(buf: seq<byte>, start: nat) returns (r: Option<Cursor>)
    ensures r == ReadVarint(buf, start)
  {
    var i: nat, scale: nat, result: nat := start, 1, 0;
    while true
      invariant ReadVarint(buf, start) == Completed(ReadVarint(buf, i), result, scale)
      decreases |buf| - i
    {
      if i >= |buf| {
        return None;
      }
      var b := buf[i];
      if b < 128 {
        return Some(Cursor(result + scale * b, i + 1));
      }
      OneMoreByte(buf, i, result, scale);
      i, result, scale := i + 1, result + (b - 128) * scale, scale * 128;
    }
  }

  /** Reading at the same place in a longer buffer. */
  lemma {:induction false} ShiftedRead(a: seq<byte>, b: seq<byte>, i: nat)
    ensures ReadVarint(a + b, |a| + i) ==
            match ReadVarint(b, i) case None => None case Some(c) => Some(Cursor(c.value, |a| + c.next))
    decreases |b| - i
  {
    if i < |b| {
      assert (a + b)[|a| + i] == b[i];
      ShiftedRead(a, b, i + 1);
    }
  }

  /** What `_varint` writes, `_read_varint` reads back, whatever follows it. */
  lemma {:induction false} VarintRoundTrip(n: nat, rest: seq<byte>)
    ensures ReadVarint(Varint(n) + rest, 0) == Some(Cursor(n, |Varint(n)|))
    decreases n
  {
    if n >= 128 {
      var tail := Varint(n / 128) + rest;
      assert Varint(n) + rest == [128 + n % 128] + tail;
      VarintRoundTrip(n / 128, rest);
      ShiftedRead([128 + n % 128], tail, 0);
    }
  }

  /** The same anywhere in a buffer. */
  lemma VarintInside(before: seq<byte>, n: nat, rest: seq<byte>)
    ensures ReadVarint(before + (Varint(n) + rest), |before|) == Some(Cursor(n, |before| + |Varint(n)|))
  {
    VarintRoundTrip(n, rest);
    ShiftedRead(before, Varint(n) + rest, 0);
  }

  /** The encoding stops itself: no varint is a proper prefix of another. */
  lemma VarintIsPrefixFree(m: nat, n: nat)
    requires Varint(m) <= Varint(n)
    ensures m == n
  {
    VarintRoundTrip(n, []);
    assert Varint(n) + [] == Varint(n) == Varint(m) + Varint(n)[|Varint(m)|..];
    VarintRoundTrip(m, Varint(n)[|Varint(m)|..]);
  }

  /** The number in the low seven bits of the bytes, least significant first. */
  function SevenBits(bytes: seq<byte>): nat {
    if bytes == [] then 0 else bytes[0] % 128 + 128 * SevenBits(bytes[1..])
  }

  /** A varint carries its number seven bits a byte, the high bit set on all but the last, with no byte to spare. */
  lemma {:induction false} VarintMeans(n: nat)
    ensures
      var v := Varint(n);
      && SevenBits(v) == n
      && (forall k :: 0 <= k < |v| ==> (v[k] >= 128 <==> k < |v| - 1))
      && (|v| > 1 ==> v[|v| - 1] != 0)
  {
    if n < 128 {
      assert SevenBits([n]) == n % 128 + 128 * SevenBits([n][1..]);
    } else {
      VarintMeans(n / 128);
      var v, rest := Varint(n), Varint(n / 128);
      assert v[1..] == rest;
      assert n == 128 * (n / 128) + n % 128;
      assert forall k :: 1 <= k < |v| ==> v[k] == rest[k - 1];
    }
  }

  // ── Fields ────────────────────────────────────────────────────────────────

  datatype Value = Number(n: nat) | Data(bytes: seq<byte>)

  datatype Field = Field(num: nat, wire: nat, val: Value)

  /** The shapes of the four wire types that have a payload. */
  predicate IsField(f: Field) {
    match f.wire
    case 0 => f.val.Number?
    case 1 => f.val.Data? && |f.val.bytes| == 8
    case 2 => f.val.Data?
    case 5 => f.val.Data? && |f.val.bytes| == 4
    case _ => false
  }

  function VarintField(num: nat, value: nat): seq<byte> { Varint(num * 8) + Varint(value) }

  function BytesField(num: nat, data: seq<byte>): seq<byte> { Varint(num * 8 + 2) + Varint(|data|) + data }

  /** What follows the key of a field. */
  function Payload(f: Field): seq<byte>
    requires IsField(f)
  {
    match f.wire
    case 0 => Varint(f.val.n)
    case 2 => Varint(|f.val.bytes|) + f.val.bytes
    case _ => f.val.bytes
  }

  function Encode(f: Field): (out: seq<byte>)
    requires IsField(f)
    ensures |out| > 0
  {
    Varint(f.num * 8 + f.wire) + Payload(f)
  }

  /** The two writers of the probe produce such encodings. */
  lemma BytesFieldEncodes(num: nat, data: seq<byte>)
    ensures BytesField(num, data) == Encode(Field(num, 2, Data(data)))
  {
    assert BytesField(num, data) == Varint(num * 8 + 2) + (Varint(|data|) + data);
  }

  predicate AreFields(fs: seq<Field>) { forall k :: 0 <= k < |fs| ==> IsField(fs[k]) }

  function EncodeAll(fs: seq<Field>): seq<byte>
    requires AreFields(fs)
  {
    if fs == [] then [] else Encode(fs[0]) + EncodeAll(fs[1..])
  }

  function Min(a: nat, b: nat): nat { if a < b then a else b }

  /** Python's `buf[i:i + n]`, which stops at the end. */
  function Slice(buf: seq<byte>, i: nat, n: nat): seq<byte> {
    if i >= |buf| then [] else buf[i..Min(i + n, |buf|)]
  }

  /** One round of the loop in `_fields`. */
  datatype Round = Stop | Broken | Next(field: Field, at: nat)

  function ReadPayload(buf: seq<byte>, j: nat, num: nat, wire: nat): (r: Round)
    ensures r.Next? ==> j <= r.at
  {
    match wire
    case 0 =>
      var v := ReadVarint(buf, j);
      if v.None? then Broken else Next(Field(num, wire, Number(v.value.value)), v.value.next)
    case 2 =>
      var ln := ReadVarint(buf, j);
      if ln.None? then Broken
      else Next(Field(num, wire, Data(Slice(buf, ln.value.next, ln.value.value))), ln.value.next + ln.value.value)
    case 5 => Next(Field(num, wire, Data(Slice(buf, j, 4))), j + 4)
    case 1 => Next(Field(num, wire, Data(Slice(buf, j, 8))), j + 8)
    case _ => Stop
  }

  function ReadField(buf: seq<byte>, i: nat): (r: Round)
    ensures r.Next? ==> i < r.at
  {
    var key := ReadVarint(buf, i);
    if key.None? then Broken else ReadPayload(buf, key.value.next, key.value.value / 8, key.value.value % 8)
  }

  /** The fields `_fields` yields, and whether it then ended without an exception. */
  datatype Listing = Listing(fields: seq<Field>, complete: bool)

  function FieldsFrom(buf: seq<byte>, i: nat): Listing
    decreases |buf| - i
  {
    if i >= |buf| then Listing([], true)
    else
      match ReadField(buf, i)
      case Stop => Listing([], true)
      case Broken => Listing([], false)
      case Next(field, at) =>
        var rest := FieldsFrom(buf, at);
        Listing([field] + rest.fields, rest.complete)
  }

  method ListFields(buf: seq<byte>) returns (r: Listing)
    ensures r == FieldsFrom(buf, 0)
  {
    var fields, i := [], 0;
    while i < |buf|
      invariant FieldsFrom(buf, 0) == Listing(fields + FieldsFrom(buf, i).fields, FieldsFrom(buf, i).complete)
      decreases |buf| - i
    {
      match ReadField(buf, i) {
        case Stop => return Listing(fields, true);
        case Broken => return Listing(fields, false);
        case Next(field, at) =>
          assert fields + FieldsFrom(buf, i).fields == (fields + [field]) + FieldsFrom(buf, at).fields;
          fields, i := fields + [field], at;
      }
    }
    return Listing(fields, true);
  }

  // ── Reading at the same place in a longer buffer ──────────────────────────

  lemma ShiftedSlice(a: seq<byte>, b: seq<byte>, i: nat, n: nat)
    ensures Slice(a + b, |a| + i, n) == Slice(b, i, n)
  {
  }

  function Moved(r: Round, offset: nat): Round {
    match r case Stop => Stop case Broken => Broken case Next(f, at) => Next(f, offset + at)
  }

  lemma ShiftedPayload(a: seq<byte>, b: seq<byte>, j: nat, num: nat, wire: nat)
    ensures ReadPayload(a + b, |a| + j, num, wire) == Moved(ReadPayload(b, j, num, wire), |a|)
  {
    hide ReadVarint, Slice;
    ShiftedRead(a, b, j);
    ShiftedSlice(a, b, j, 4);
    ShiftedSlice(a, b, j, 8);
    var ln := ReadVarint(b, j);
    if ln.Some? {
      ShiftedSlice(a, b, ln.value.next, ln.value.value);
    }
  }

  lemma ShiftedField(a: seq<byte>, b: seq<byte>, i: nat)
    ensures ReadField(a + b, |a| + i) == Moved(ReadField(b, i), |a|)
  {
    ShiftedRead(a, b, i);
    var key := ReadVarint(b, i);
    if key.Some? {
      ShiftedPayload(a, b, key.value.next, key.value.value / 8, key.value.value % 8);
    }
  }

  lemma {:induction false} ShiftedFields(a: seq<byte>, b: seq<byte>, i: nat)
    ensures FieldsFrom(a + b, |a| + i) == FieldsFrom(b, i)
    decreases |b| - i
  {
    hide ReadField;
    if i < |b| {
      ShiftedField(a, b, i);
      var r := ReadField(b, i);
      if r.Next? {
        ShiftedFields(a, b, r.at);
        FieldsStep(a + b, |a| + i, r.field, |a| + r.at);
        FieldsStep(b, i, r.field, r.at);
      }
    }
  }

  lemma FieldsStep(buf: seq<byte>, i: nat, f: Field, at: nat)
    requires i < |buf| && ReadField(buf, i) == Next(f, at)
    ensures FieldsFrom(buf, i) == Listing([f] + FieldsFrom(buf, at).fields, FieldsFrom(buf, at).complete)
  {
  }

  // ── Round trips ───────────────────────────────────────────────────────────

  lemma KeyParts(num: nat, wire: nat)
    requires wire < 8
    ensures (num * 8 + wire) / 8 == num && (num * 8 + wire) % 8 == wire
  {
  }

  lemma PayloadIsRead(before: seq<byte>, f: Field, rest: seq<byte>)
    requires IsField(f)
    ensures ReadPayload(before + (Payload(f) + rest), |before|, f.num, f.wire) == Next(f, |before| + |Payload(f)|)
  {
    if f.wire == 0 {
      VarintInside(before, f.val.n, rest);
    } else {
      var data := f.val.bytes;
      var head := if f.wire == 2 then Varint(|data|) else [];
      if f.wire == 2 {
        VarintInside(before, |data|, data + rest);
        assert Payload(f) + rest == Varint(|data|) + (data + rest);
      }
      var buf := before + (Payload(f) + rest);
      var at := |before| + |head|;
      assert buf[at..at + |data|] == data;
    }
  }

  lemma FieldIsRead(f: Field, rest: seq<byte>)
    requires IsField(f)
    ensures ReadField(Encode(f) + rest, 0) == Next(f, |Encode(f)|)
  {
    var key := Varint(f.num * 8 + f.wire);
    assert Encode(f) + rest == key + (Payload(f) + rest);
    VarintRoundTrip(f.num * 8 + f.wire, Payload(f) + rest);
    KeyParts(f.num, f.wire);
    PayloadIsRead(key, f, rest);
  }

  /** Any list of fields is read back from its encoding, followed by what the rest of the message holds. */
  lemma {:induction false} FieldsRoundTrip(fs: seq<Field>, rest: seq<byte>)
    requires AreFields(fs)
    ensures FieldsFrom(EncodeAll(fs) + rest, 0) ==
            Listing(fs + FieldsFrom(rest, 0).fields, FieldsFrom(rest, 0).complete)
    decreases |fs|
  {
    hide FieldsFrom, Encode;
    if fs == [] {
      assert EncodeAll(fs) + rest == rest;
      assert fs + FieldsFrom(rest, 0).fields == FieldsFrom(rest, 0).fields;
    } else {
      var tail := EncodeAll(fs[1..]) + rest;
      assert EncodeAll(fs) + rest == Encode(fs[0]) + tail;
      FieldsRoundTrip(fs[1..], rest);
      HeadIsRead(fs[0], tail);
      assert fs == [fs[0]] + fs[1..];
    }
  }

  lemma HeadIsRead(f: Field, tail: seq<byte>)
    requires IsField(f)
    ensures FieldsFrom(Encode(f) + tail, 0) == Listing([f] + FieldsFrom(tail, 0).fields, FieldsFrom(tail, 0).complete)
  {
    hide ReadField, Encode;
    FieldIsRead(f, tail);
    FieldsStep(Encode(f) + tail, 0, f, |Encode(f)|);
    ShiftedFields(Encode(f), tail, 0);
  }

  lemma MessageRoundTrip(fs: seq<Field>)
    requires AreFields(fs)
    ensures FieldsFrom(EncodeAll(fs), 0) == Listing(fs, true)
  {
    FieldsRoundTrip(fs, []);
    assert EncodeAll(fs) + [] == EncodeAll(fs);
    assert FieldsFrom([], 0) == Listing([], true);
    assert fs + [] == fs;
  }
}
