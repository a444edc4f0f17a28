/**
 What the hbbs probe asks and how it judges the reply. A run of `verdict` that raises ends in Raised.
 */
module HbbsVerdict {
  import opened Basics
  import opened Wrappers
  import opened HbbsProbe

  // ── The request ───────────────────────────────────────────────────────────

  const CLIENT_VERSION: seq<byte> := [0x31, 0x2E, 0x34, 0x2E, 0x39]

  function RequestBody(peerId: seq<byte>, key: seq<byte>): seq<byte> {
    BytesField(1, peerId) + VarintField(2, 0) + BytesField(3, key) + VarintField(4, 0) + BytesField(6, CLIENT_VERSION)
  }

  function PunchHoleRequest(peerId: seq<byte>, key: seq<byte>): seq<byte> { BytesField(8, RequestBody(peerId, key)) }

  function RequestFields(peerId: seq<byte>, key: seq<byte>): (fs: seq<Field>)
    ensures AreFields(fs)
  {
    [Field(1, 2, Data(peerId)), Field(2, 0, Number(0)), Field(3, 2, Data(key)),
     Field(4, 0, Number(0)), Field(6, 2, Data(CLIENT_VERSION))]
  }

  lemma {:induction false} EncodeAppend(fs: seq<Field>, f: Field)
    requires AreFields(fs) && IsField(f)
    ensures EncodeAll(fs + [f]) == EncodeAll(fs) + Encode(f)
  {
    if fs == [] {
      assert EncodeAll([f]) == Encode(f) + EncodeAll([f][1..]);
    } else {
      assert (fs + [f])[1..] == fs[1..] + [f];
      EncodeAppend(fs[1..], f);
    }
  }

  lemma TwoMoreEncoded(fs: seq<Field>, f: Field, g: Field)
    requires AreFields(fs) && IsField(f) && IsField(g)
    ensures AreFields(fs + [f, g])
    ensures EncodeAll(fs + [f, g]) == EncodeAll(fs) + Encode(f) + Encode(g)
  {
    EncodeAppend(fs, f);
    EncodeAppend(fs + [f], g);
    assert fs + [f] + [g] == fs + [f, g];
  }

  lemma FiveEncoded(a: Field, b: Field, c: Field, d: Field, e: Field)
    requires IsField(a) && IsField(b) && IsField(c) && IsField(d) && IsField(e)
    ensures AreFields([a, b, c, d, e])
    ensures EncodeAll([a, b, c, d, e]) == Encode(a) + Encode(b) + Encode(c) + Encode(d) + Encode(e)
  {
    hide Encode;
    EncodeAppend([], a);
    assert [] + [a] == [a];
    TwoMoreEncoded([a], b, c);
    assert [a] + [b, c] == [a, b, c];
    TwoMoreEncoded([a, b, c], d, e);
    assert [a, b, c] + [d, e] == [a, b, c, d, e];
  }

  lemma BodyIsEncoded(peerId: seq<byte>, key: seq<byte>)
    ensures RequestBody(peerId, key) == EncodeAll(RequestFields(peerId, key))
  {
    var fs := RequestFields(peerId, key);
    FiveEncoded(fs[0], fs[1], fs[2], fs[3], fs[4]);
    BytesFieldEncodes(1, peerId);
    BytesFieldEncodes(3, key);
    BytesFieldEncodes(6, CLIENT_VERSION);
  }

  lemma RequestIsEncoded(peerId: seq<byte>, key: seq<byte>)
    ensures PunchHoleRequest(peerId, key) == EncodeAll([Field(8, 2, Data(RequestBody(peerId, key)))])
  {
    var outer := Field(8, 2, Data(RequestBody(peerId, key)));
    BytesFieldEncodes(8, RequestBody(peerId, key));
    EncodeAppend([], outer);
    assert [] + [outer] == [outer];
  }

  /** The request is one message in field 8, holding exactly the five fields it was built from. */
  lemma RequestReadsBack(peerId: seq<byte>, key: seq<byte>)
    ensures FieldsFrom(PunchHoleRequest(peerId, key), 0)
         == Listing([Field(8, 2, Data(RequestBody(peerId, key)))], true)
    ensures FieldsFrom(RequestBody(peerId, key), 0) == Listing(RequestFields(peerId, key), true)
  {
    RequestIsEncoded(peerId, key);
    MessageRoundTrip([Field(8, 2, Data(RequestBody(peerId, key)))]);
    BodyIsEncoded(peerId, key);
    MessageRoundTrip(RequestFields(peerId, key));
  }

  // ── The verdict ───────────────────────────────────────────────────────────

  datatype Verdict =
    | OnlineRelay
    | OnlinePunch
    | OnlineDirect
    | IdNotExist
    | Offline
    | LicenseMismatch
    | LicenseOveruse
    | OtherFailure(code: Value)
    | Unrecognised(start: seq<byte>)
    | Raised

  function FailureName(fail: Value): Verdict {
    if fail == Number(0) then IdNotExist
    else if fail == Number(2) then Offline
    else if fail == Number(3) then LicenseMismatch
    else if fail == Number(4) then LicenseOveruse
    else OtherFailure(fail)
  }

  predicate Truthy(v: Value) {
    match v
    case Number(n) => n != 0
    case Data(bytes) => bytes != []
  }

  /** The last value of a field in a message, or `default`. */
  function LastValue(fs: seq<Field>, num: nat, default: Value): Value {
    if fs == [] then default
    else if fs[|fs| - 1].num == num then fs[|fs| - 1].val
    else LastValue(fs[..|fs| - 1], num, default)
  }

  function JudgeResponse(val: Value): Verdict {
    if val.Number? then Raised
    else
      var inner := FieldsFrom(val.bytes, 0);
      if !inner.complete then Raised
      else if Truthy(LastValue(inner.fields, 1, Data([]))) then OnlineDirect
      else FailureName(LastValue(inner.fields, 3, Number(0)))
  }

  predicate Decides(f: Field) { f.num in {9, 11, 19} }

  function JudgeField(f: Field): Verdict
    requires Decides(f)
  {
    if f.num == 19 then OnlineRelay
    else if f.num == 9 then OnlinePunch
    else JudgeResponse(f.val)
  }

  /** The first deciding field decides; a broken message without one raises; None falls through. */
  function Decide(l: Listing): Option<Verdict>
    decreases |l.fields|
  {
    if l.fields == [] then (if l.complete then None else Some(Raised))
    else if Decides(l.fields[0]) then Some(JudgeField(l.fields[0]))
    else Decide(Listing(l.fields[1..], l.complete))
  }

  function VerdictOn(payload: seq<byte>): Verdict {
    Decide(FieldsFrom(payload, 0)).GetOr(Unrecognised(payload[..Min(16, |payload|)]))
  }

  method JudgeInner(val: Value) returns (v: Verdict)
    ensures v == JudgeResponse(val)
  {
    if val.Number? {
      return Raised;
    }
    var inner := ListFields(val.bytes);
    var fail, addr := Number(0), Data([]);
    for k := 0 to |inner.fields|
      invariant addr == LastValue(inner.fields[..k], 1, Data([]))
      invariant fail == LastValue(inner.fields[..k], 3, Number(0))
    {
      var f := inner.fields[k];
      assert inner.fields[..k + 1][..k] == inner.fields[..k];
      if f.num == 1 {
        addr := f.val;
      } else if f.num == 3 {
        fail := f.val;
      }
    }
    assert inner.fields[..|inner.fields|] == inner.fields;
    if !inner.complete {
      return Raised;
    }
    if Truthy(addr) {
      return OnlineDirect;
    }
    return FailureName(fail);
  }

  /** The loop consumes the fields as they are read, so a deciding field comes before a later break. */
  method Judge(payload: seq<byte>) returns (v: Verdict)
    ensures v == VerdictOn(payload)
  {
    var i := 0;
    while i < |payload|
      invariant Decide(FieldsFrom(payload, 0)) == Decide(FieldsFrom(payload, i))
      decreases |payload| - i
    {
      match ReadField(payload, i) {
        case Stop => break;
        case Broken => return Raised;
        case Next(field, at) =>
          if field.num == 19 {
            return OnlineRelay;
          }
          if field.num == 9 {
            return OnlinePunch;
          }
          if field.num == 11 {
            v := JudgeInner(field.val);
            return;
          }
          assert FieldsFrom(payload, i).fields[1..] == FieldsFrom(payload, at).fields;
          i := at;
      }
    }
    return Unrecognised(payload[..Min(16, |payload|)]);
  }

  lemma {:induction false} DecideSkips(prefix: seq<Field>, rest: Listing)
    requires forall k :: 0 <= k < |prefix| ==> !Decides(prefix[k])
    ensures Decide(Listing(prefix + rest.fields, rest.complete)) == Decide(rest)
    decreases |prefix|
  {
    if prefix == [] {
      assert prefix + rest.fields == rest.fields;
    } else {
      assert (prefix + rest.fields)[1..] == prefix[1..] + rest.fields;
      DecideSkips(prefix[1..], rest);
    }
  }

  /** Fields in front of the deciding one make no difference, whatever follows. */
  lemma VerdictIgnoresPrefix(prefix: seq<Field>, rest: seq<byte>)
    requires AreFields(prefix) && forall k :: 0 <= k < |prefix| ==> !Decides(prefix[k])
    ensures Decide(FieldsFrom(EncodeAll(prefix) + rest, 0)) == Decide(FieldsFrom(rest, 0))
  {
    FieldsRoundTrip(prefix, rest);
    DecideSkips(prefix, FieldsFrom(rest, 0));
  }

  /** A punch-hole response is judged by its own last address and failure code. */
  lemma ResponseDecides(prefix: seq<Field>, inner: seq<Field>, rest: seq<byte>)
    requires AreFields(prefix) && AreFields(inner) && forall k :: 0 <= k < |prefix| ==> !Decides(prefix[k])
    ensures VerdictOn(EncodeAll(prefix) + BytesField(11, EncodeAll(inner)) + rest) ==
            if Truthy(LastValue(inner, 1, Data([]))) then OnlineDirect else FailureName(LastValue(inner, 3, Number(0)))
  {
    hide Encode, BytesField;
    var response := Field(11, 2, Data(EncodeAll(inner)));
    var tail := BytesField(11, EncodeAll(inner)) + rest;
    assert EncodeAll(prefix) + BytesField(11, EncodeAll(inner)) + rest == EncodeAll(prefix) + tail;
    VerdictIgnoresPrefix(prefix, tail);
    BytesFieldEncodes(11, EncodeAll(inner));
    HeadIsRead(response, rest);
    MessageRoundTrip(inner);
  }

  // ── What the verdicts mean ────────────────────────────────────────────────

  /** The value is that of the last field with the number, or the default without one. */
  lemma {:induction false} LastValueMeans(fs: seq<Field>, num: nat, default: Value)
    ensures
      || (exists k :: 0 <= k < |fs| && fs[k].num == num && LastValue(fs, num, default) == fs[k].val
                      && forall m :: k < m < |fs| ==> fs[m].num != num)
      || ((forall k :: 0 <= k < |fs| ==> fs[k].num != num) && LastValue(fs, num, default) == default)
  {
    if fs != [] && fs[|fs| - 1].num != num {
      LastValueMeans(fs[..|fs| - 1], num, default);
    }
  }

  /** A response with an address is direct; without one its failure code, 0 if missing, names the verdict. */
  lemma ResponseMeans(prefix: seq<Field>, inner: seq<Field>, rest: seq<byte>)
    requires AreFields(prefix) && AreFields(inner) && forall k :: 0 <= k < |prefix| ==> !(prefix[k].num in {9, 11, 19})
    ensures
      var v := VerdictOn(EncodeAll(prefix) + BytesField(11, EncodeAll(inner)) + rest);
      var address := LastValue(inner, 1, Data([]));
      var code := LastValue(inner, 3, Number(0));
      if address != Data([]) && address != Number(0) then v == OnlineDirect
      else
        && (code == Number(0) ==> v == IdNotExist)
        && (code == Number(2) ==> v == Offline)
        && (code == Number(3) ==> v == LicenseMismatch)
        && (code == Number(4) ==> v == LicenseOveruse)
        && (code !in {Number(0), Number(2), Number(3), Number(4)} ==> v == OtherFailure(code))
  {
    hide VerdictOn, EncodeAll, BytesField, LastValue;
    ResponseDecides(prefix, inner, rest);
  }

  /** A relay response or a punch hole decides by its number alone, whatever it holds and whatever follows. */
  lemma NumberDecides(prefix: seq<Field>, f: Field, rest: seq<byte>)
    requires AreFields(prefix) && IsField(f) && forall k :: 0 <= k < |prefix| ==> !(prefix[k].num in {9, 11, 19})
    ensures f.num == 19 ==> VerdictOn(EncodeAll(prefix) + Encode(f) + rest) == OnlineRelay
    ensures f.num == 9 ==> VerdictOn(EncodeAll(prefix) + Encode(f) + rest) == OnlinePunch
  {
    hide Encode, EncodeAll;
    assert EncodeAll(prefix) + Encode(f) + rest == EncodeAll(prefix) + (Encode(f) + rest);
    VerdictIgnoresPrefix(prefix, Encode(f) + rest);
    HeadIsRead(f, rest);
  }

  /** A message without a deciding field is reported as unrecognised, with its first bytes. */
  lemma NothingDecides(fs: seq<Field>)
    requires AreFields(fs) && forall k :: 0 <= k < |fs| ==> !(fs[k].num in {9, 11, 19})
    ensures
      var payload := EncodeAll(fs);
      VerdictOn(payload) == Unrecognised(if |payload| <= 16 then payload else payload[..16])
  {
    hide EncodeAll;
    var payload := EncodeAll(fs);
    MessageRoundTrip(fs);
    DecideSkips(fs, Listing([], true));
    assert fs + [] == fs;
    assert |payload| <= 16 ==> payload[..|payload|] == payload;
  }
}
