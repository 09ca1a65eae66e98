/** Which bytes are a signed 0x16 envelope: exactly the canonical encodings of fields in their ranges. */
module TamperAccepts {
  import opened Common
  import opened Rlp
  import opened Tamper

  /** What one item stands for: a byte string, or a list by its encoded items. */
  datatype Value = Value(list: bool, payload: Bytes)

  predicate Sized(vs: seq<Value>) { forall k :: 0 <= k < |vs| ==> |vs[k].payload| < 0x1_0000_0000_0000_0000 }

  function Joined(vs: seq<Value>): Bytes
    requires Sized(vs)
  {
    if vs == [] then [] else Encode(vs[0].list, vs[0].payload) + Joined(vs[1..])
  }

  predicate IsInteger(v: Value) { !v.list && |v.payload| <= 32 && (v.payload != [] ==> v.payload[0] != 0) }

  predicate IsParity(v: Value) { !v.list && (v.payload == [] || v.payload == [1]) }

  predicate IsComponent(v: Value) { IsInteger(v) && v.payload != [] }

  predicate IsAddress(v: Value) { !v.list && |v.payload| == 20 }

  /** The sender's transaction: chain, nonce, two fees, gas, recipient, value, data, access list, signature. */
  predicate SenderFields(inner: seq<Value>) {
    && |inner| == 12 && (forall k :: 0 <= k < 5 ==> IsInteger(inner[k]))
    && (IsAddress(inner[5]) || inner[5] == Value(false, [])) && IsInteger(inner[6])
    && !inner[7].list && inner[8].list && IsParity(inner[9]) && IsComponent(inner[10]) && IsComponent(inner[11])
  }

  /** The sender's list, the fee payer and the fee payer's signature. */
  predicate OuterFields(fields: seq<Value>) {
    && |fields| == 5 && fields[0].list && IsAddress(fields[1]) && IsParity(fields[2])
    && IsComponent(fields[3]) && IsComponent(fields[4])
  }

  predicate Writes(raw: Bytes, inner: seq<Value>, fields: seq<Value>) {
    && SenderFields(inner) && OuterFields(fields) && Sized(inner) && Sized(fields)
    && fields[0].payload == Joined(inner) && |Joined(fields)| < 0x1_0000_0000_0000_0000
    && raw == [0x16] + Encode(true, Joined(fields))
  }

  // ---------- items and what they hold ----------

  predicate Holds(raw: Bytes, it: Item, v: Value) {
    it.payload <= it.end <= |raw| && raw[it.payload..it.end] == v.payload && it.list == v.list
  }

  predicate AllHold(raw: Bytes, its: seq<Item>, vs: seq<Value>) {
    |its| == |vs| && forall k :: 0 <= k < |its| ==> Holds(raw, its[k], vs[k])
  }

  function ValuesOf(raw: Bytes, its: seq<Item>): (vs: seq<Value>)
    requires InRange(raw, its)
    ensures AllHold(raw, its, vs)
  {
    seq(|its|, k requires 0 <= k < |its| => Value(its[k].list, raw[its[k].payload..its[k].end]))
  }

  lemma HeldFacts(raw: Bytes, it: Item, v: Value)
    requires Holds(raw, it, v)
    ensures IntegerOk(raw, it) <==> IsInteger(v)
    ensures IntegerOk(raw, it) && ParityOk(raw, it) <==> IsParity(v)
    ensures ComponentOk(raw, it) <==> IsComponent(v)
    ensures Size(it) == |v.payload|
  {
    if it.payload < it.end {
      assert raw[it.payload] == v.payload[0];
    }
  }

  /** The checks on the items are the ranges of what they hold. */
  lemma ShapeMeaning(raw: Bytes, e: Envelope, inner: seq<Value>, fields: seq<Value>)
    requires AllHold(raw, e.inner, inner) && AllHold(raw, e.fields, fields)
    ensures Shape(raw, e) <==>
              e.outer.list && e.outer.end == |raw| && SenderFields(inner) && OuterFields(fields)
  {
    hide IntegerOk, ParityOk, ComponentOk, IsInteger, IsParity, IsComponent;
    forall k | 0 <= k < |inner|
      ensures IntegerOk(raw, e.inner[k]) <==> IsInteger(inner[k])
      ensures IntegerOk(raw, e.inner[k]) && ParityOk(raw, e.inner[k]) <==> IsParity(inner[k])
      ensures ComponentOk(raw, e.inner[k]) <==> IsComponent(inner[k])
      ensures Size(e.inner[k]) == |inner[k].payload| && e.inner[k].list == inner[k].list
    {
      HeldFacts(raw, e.inner[k], inner[k]);
    }
    forall k | 0 <= k < |fields|
      ensures IntegerOk(raw, e.fields[k]) && ParityOk(raw, e.fields[k]) <==> IsParity(fields[k])
      ensures ComponentOk(raw, e.fields[k]) <==> IsComponent(fields[k])
      ensures Size(e.fields[k]) == |fields[k].payload| && e.fields[k].list == fields[k].list
    {
      HeldFacts(raw, e.fields[k], fields[k]);
    }
  }

  lemma EncodeGrows(list: bool, payload: Bytes)
    requires |payload| < 0x1_0000_0000_0000_0000
    ensures |Encode(list, payload)| > 0 && |payload| <= |Encode(list, payload)|
  {
  }

  /** Encodings written one after another are scanned as just those items. */
  lemma {:induction false} JoinedIsScanned(before: Bytes, vs: seq<Value>, after: Bytes)
    requires Sized(vs)
    ensures var raw := before + Joined(vs) + after;
            var fs := Fields(raw, |before|, |before| + |Joined(vs)|, |vs|);
            fs.Some? && AllHold(raw, fs.value, vs)
    decreases |vs|
  {
    hide ItemAt, Encode, Holds;
    var raw := before + Joined(vs) + after;
    if vs != [] {
      var v, rest := vs[0], vs[1..];
      var e := Encode(v.list, v.payload);
      EncodeGrows(v.list, v.payload);
      CanonicalIsAccepted(before, v.list, v.payload, Joined(rest) + after);
      assert raw == before + e + (Joined(rest) + after) == (before + e) + Joined(rest) + after;
      JoinedIsScanned(before + e, rest, after);
      PayloadLast(before, v, Joined(rest) + after);
    }
  }

  lemma PayloadLast(before: Bytes, v: Value, after: Bytes)
    requires |v.payload| < 0x1_0000_0000_0000_0000
    ensures var e := Encode(v.list, v.payload);
            |v.payload| <= |e| &&
            Holds(before + e + after, Item(|before| + |e| - |v.payload|, |before| + |e|, v.list), v)
  {
    hide Header;
    var e := Encode(v.list, v.payload);
    EncodeGrows(v.list, v.payload);
    assert e[|e| - |v.payload|..] == v.payload;
    assert (before + e + after)[|before| + |e| - |v.payload|..|before| + |e|] == e[|e| - |v.payload|..];
  }

  /** Scanned items, encoded again one after another, are the bytes they were scanned from. */
  lemma {:induction false} ScannedIsJoined(raw: Bytes, at: nat, end: nat, count: nat, vs: seq<Value>)
    requires Fields(raw, at, end, count).Some? && at <= end <= |raw| < 0x1_0000_0000_0000_0000
    requires AllHold(raw, Fields(raw, at, end, count).value, vs)
    ensures Sized(vs) && raw[at..end] == Joined(vs)
    decreases count
  {
    hide ItemAt, Encode;
    if at < end {
      var f := ItemAt(raw, at).value;
      var fs, rest := Fields(raw, at, end, count).value, Fields(raw, f.end, end, count - 1).value;
      assert fs[0] == f && Holds(raw, fs[0], vs[0]);
      AcceptedIsCanonical(raw, at);
      forall k | 0 <= k < |rest| ensures Holds(raw, rest[k], vs[1..][k]) {
        assert Holds(raw, fs[k + 1], vs[k + 1]);
      }
      ScannedIsJoined(raw, f.end, end, count - 1, vs[1..]);
      assert raw[at..end] == raw[at..f.end] + raw[f.end..end];
    }
  }

  // ---------- acceptance ----------

  lemma JoinedInside(raw: Bytes, at: nat, end: nat, vs: seq<Value>, count: nat)
    requires at <= end <= |raw| && Sized(vs) && raw[at..end] == Joined(vs) && count == |vs|
    ensures Fields(raw, at, end, count).Some? && AllHold(raw, Fields(raw, at, end, count).value, vs)
  {
    hide Fields, Joined;
    assert raw == raw[..at] + Joined(vs) + raw[end..];
    JoinedIsScanned(raw[..at], vs, raw[end..]);
  }

  lemma WrittenIsAccepted(raw: Bytes, inner: seq<Value>, fields: seq<Value>)
    requires Writes(raw, inner, fields) && |raw| <= MAX_RAW
    ensures Accepted(raw) && AllHold(raw, Scan(raw).value.inner, inner) && AllHold(raw, Scan(raw).value.fields, fields)
  {
    hide ItemAt, Fields, Encode, Joined, Shape, IsInteger, IsParity, IsComponent, IsAddress;
    var payload := Joined(fields);
    var e := Encode(true, payload);
    EncodeGrows(true, payload);
    CanonicalIsAccepted([0x16], true, payload, []);
    assert raw == [0x16] + e + [];
    PayloadLast([0x16], Value(true, payload), []);
    var outer := ItemAt(raw, 1).value;
    assert raw[outer.payload..outer.end] == payload;
    JoinedInside(raw, outer.payload, outer.end, fields, 5);
    var fs := Fields(raw, outer.payload, outer.end, 5).value;
    assert Holds(raw, fs[0], fields[0]);
    JoinedInside(raw, fs[0].payload, fs[0].end, inner, 12);
    ShapeMeaning(raw, Scan(raw).value, inner, fields);
  }

  lemma AcceptedItems(raw: Bytes)
    requires Accepted(raw)
    ensures Scan(raw).Some?
    ensures var e := Scan(raw).value;
            && |raw| <= MAX_RAW && Shape(raw, e) && InRange(raw, e.inner) && InRange(raw, e.fields)
            && |e.fields| == 5 && ItemAt(raw, 1) == Some(e.outer) && e.outer.list && e.outer.end == |raw|
            && Fields(raw, e.outer.payload, e.outer.end, 5) == Some(e.fields)
            && Fields(raw, e.fields[0].payload, e.fields[0].end, 12) == Some(e.inner) && raw[0] == 0x16
  {
    hide ItemAt, Fields, IntegerOk, ParityOk, ComponentOk;
  }

  lemma AcceptedIsWritten(raw: Bytes) returns (inner: seq<Value>, fields: seq<Value>)
    requires Accepted(raw)
    ensures Writes(raw, inner, fields) && |raw| <= MAX_RAW
  {
    hide ItemAt, Fields, Encode, Joined, SenderFields, OuterFields, Scan, Accepted, Shape, InRange;
    AcceptedItems(raw);
    var e := Scan(raw).value;
    inner, fields := ValuesOf(raw, e.inner), ValuesOf(raw, e.fields);
    ShapeMeaning(raw, e, inner, fields);
    ScannedIsJoined(raw, e.outer.payload, e.outer.end, 5, fields);
    assert Holds(raw, e.fields[0], fields[0]);
    ScannedIsJoined(raw, e.fields[0].payload, e.fields[0].end, 12, inner);
    AcceptedIsCanonical(raw, 1);
    assert raw == [0x16] + raw[1..e.outer.end];
  }

  /** The envelopes that can be tampered with are exactly the canonical encodings, of at most 1 MiB, of sender fields
      and payer fields in their ranges. */
  lemma AcceptedExactly(raw: Bytes)
    ensures Accepted(raw) <==> |raw| <= MAX_RAW && exists inner, fields :: Writes(raw, inner, fields)
  {
    hide Accepted, Writes;
    if Accepted(raw) {
      var inner, fields := AcceptedIsWritten(raw);
    }
    if |raw| <= MAX_RAW && exists inner, fields :: Writes(raw, inner, fields) {
      var inner, fields :| Writes(raw, inner, fields);
      WrittenIsAccepted(raw, inner, fields);
    }
  }
}
