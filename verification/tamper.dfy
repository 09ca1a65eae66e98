/** Changing one signature component of a signed 0x16 envelope in place: an EIP-2718 envelope around the
    EIP-1559 sender fields, a fee payer and the fee payer's signature. */
module Tamper {
  import opened Common
  import opened Rlp

  const MAX_RAW: nat := 1048576

  datatype Envelope = Envelope(outer: Item, fields: seq<Item>, inner: seq<Item>)

  function Size(it: Item): int { it.end - it.payload }

  predicate IntegerOk(raw: Bytes, it: Item)
    requires it.payload <= it.end <= |raw|
  {
    !it.list && Size(it) <= 32 && (it.end > it.payload ==> raw[it.payload] != 0)
  }

  predicate ParityOk(raw: Bytes, it: Item)
    requires it.payload <= it.end <= |raw|
  {
    Size(it) <= 1 && (it.end > it.payload ==> raw[it.payload] == 1)
  }

  predicate ComponentOk(raw: Bytes, it: Item)
    requires it.payload <= it.end <= |raw|
  {
    !it.list && 1 <= Size(it) <= 32 && raw[it.payload] != 0
  }

  predicate InRange(raw: Bytes, its: seq<Item>) { forall k :: 0 <= k < |its| ==> its[k].payload <= its[k].end <= |raw| }

  predicate Shape(raw: Bytes, e: Envelope) {
    && |e.fields| == 5 && |e.inner| == 12 && InRange(raw, e.fields) && InRange(raw, e.inner)
    && e.outer.list && e.outer.end == |raw|
    && e.fields[0].list && !e.fields[1].list && Size(e.fields[1]) == 20
    && !e.inner[5].list && (Size(e.inner[5]) == 0 || Size(e.inner[5]) == 20) && !e.inner[7].list && e.inner[8].list
    && (forall k :: 0 <= k < 5 ==> IntegerOk(raw, e.inner[k])) && IntegerOk(raw, e.inner[6]) &&
       IntegerOk(raw, e.inner[9]) && IntegerOk(raw, e.fields[2])
    && ParityOk(raw, e.inner[9]) && ParityOk(raw, e.fields[2])
    && ComponentOk(raw, e.inner[10]) && ComponentOk(raw, e.inner[11]) && ComponentOk(raw, e.fields[3]) &&
       ComponentOk(raw, e.fields[4])
  }

  /** The item boundaries of an envelope, before any check of what the items hold. */
  function Scan(raw: Bytes): Option<Envelope> {
    if |raw| < 2 || |raw| > MAX_RAW || raw[0] != 0x16 then None
    else
      match ItemAt(raw, 1)
      case None => None
      case Some(outer) =>
        match Fields(raw, outer.payload, outer.end, 5)
        case None => None
        case Some(fields) =>
          match Fields(raw, fields[0].payload, fields[0].end, 12)
          case None => None
          case Some(inner) => Some(Envelope(outer, fields, inner))
  }

  predicate Accepted(raw: Bytes) { Scan(raw).Some? && Shape(raw, Scan(raw).value) }

  datatype Which = Sender | FeePayer

  function Selected(e: Envelope, which: Which): Item
    requires |e.fields| == 5 && |e.inner| == 12
  {
    if which == Sender then e.inner[11] else e.fields[3]
  }

  /** Exclusive or with a one-bit mask. */
  function Flip(x: byte, mask: byte): byte
    requires mask == 1 || mask == 2
  {
    if mask == 1 then (if x % 2 == 0 then x + 1 else x - 1)
    else (if (x / 2) % 2 == 0 then x + 2 else x - 2)
  }

  function Mask(raw: Bytes, it: Item): byte
    requires it.payload < it.end <= |raw|
  {
    if Size(it) == 1 && raw[it.payload] == 1 then 2 else 1
  }

  /** The envelope with the last byte of the selected component changed. */
  function Tampered(raw: Bytes, which: Which): Bytes
    requires Accepted(raw)
  {
    var it := Selected(Scan(raw).value, which);
    raw[it.end - 1 := Flip(raw[it.end - 1], Mask(raw, it))]
  }

  /** TamperFeeDelegatedRaw on a copied buffer; the input is not written. */
  method TamperFeeDelegatedRaw(raw: array<byte>, which: string) returns (out: Option<array<byte>>)
    ensures out.Some? <==> Accepted(raw[..]) && (which == "sender" || which == "feepayer")
    ensures out.Some? ==>
              fresh(out.value) && out.value[..] == Tampered(raw[..], if which == "sender" then Sender else FeePayer)
  {
    hide ItemAt, Fields;
    var bytes := raw[..];
    if |bytes| < 2 || |bytes| > MAX_RAW || bytes[0] != 0x16 { return None; }
    var outer := SignatureRLPAt(bytes, 1);
    if outer.None? || !outer.value.list || outer.value.end != |bytes| { return None; }
    var fields := SignatureRLPFields(bytes, outer.value, 5);
    if fields.None? { return None; }
    FieldsInRange(bytes, outer.value.payload, outer.value.end, 5);
    var f := fields.value;
    if !f[0].list || f[1].list || Size(f[1]) != 20 { return None; }
    var inner := SignatureRLPFields(bytes, f[0], 12);
    if inner.None? { return None; }
    FieldsInRange(bytes, f[0].payload, f[0].end, 12);
    var n := inner.value;
    if n[5].list || (Size(n[5]) != 0 && Size(n[5]) != 20) || n[7].list || !n[8].list { return None; }
    var ok := ChecksPass(bytes, Envelope(outer.value, f, n));
    if !ok { return None; }
    assert Accepted(bytes);
    var selected;
    if which == "sender" {
      selected := n[11];
    } else if which == "feepayer" {
      selected := f[3];
    } else {
      return None;
    }
    var copy := new byte[raw.Length](i requires 0 <= i < raw.Length reads raw => raw[i]);
    assert copy[..] == bytes;
    var mask: byte := 1;
    if Size(selected) == 1 && copy[selected.payload] == 1 { mask := 2; }
    copy[selected.end - 1] := Flip(copy[selected.end - 1], mask);
    return Some(copy);
  }

  /** The three loops over integers, parities and components. */
  method ChecksPass(raw: Bytes, e: Envelope) returns (ok: bool)
    requires |e.fields| == 5 && |e.inner| == 12 && InRange(raw, e.fields) && InRange(raw, e.inner)
    requires e.outer.list && e.outer.end == |raw| && e.fields[0].list && !e.fields[1].list && Size(e.fields[1]) == 20
    requires !e.inner[5].list && (Size(e.inner[5]) == 0 || Size(e.inner[5]) == 20) && !e.inner[7].list &&
             e.inner[8].list
    ensures ok == Shape(raw, e)
  {
    var integers := e.inner[..5] + [e.inner[6], e.inner[9], e.fields[2]];
    for i := 0 to 8
      invariant forall k :: 0 <= k < i ==> IntegerOk(raw, integers[k])
    {
      assert integers[i] in integers;
      if integers[i].list || Size(integers[i]) > 32 ||
          (integers[i].end > integers[i].payload && raw[integers[i].payload] == 0) {
        assert !IntegerOk(raw, integers[i]);
        return false;
      }
    }
    assert integers[5] == e.inner[6] && integers[6] == e.inner[9] && integers[7] == e.fields[2];
    assert forall k :: 0 <= k < 5 ==> integers[k] == e.inner[k];
    if !ParityOk(raw, e.inner[9]) || !ParityOk(raw, e.fields[2]) { return false; }
    var components := [e.inner[10], e.inner[11], e.fields[3], e.fields[4]];
    for i := 0 to 4
      invariant forall k :: 0 <= k < i ==> ComponentOk(raw, components[k])
    {
      if components[i].list || Size(components[i]) < 1 || Size(components[i]) > 32 ||
          raw[components[i].payload] == 0 { return false; }
    }
    assert ComponentOk(raw, components[0]) && ComponentOk(raw, components[1]) && ComponentOk(raw, components[2]) &&
        ComponentOk(raw, components[3]);
    return true;
  }

  lemma FieldsInRange(raw: Bytes, at: nat, end: nat, count: nat)
    requires Fields(raw, at, end, count).Some?
    ensures InRange(raw, Fields(raw, at, end, count).value)
  {
    hide Fields;
    var fs := Fields(raw, at, end, count).value;
    forall k | 0 <= k < |fs| ensures fs[k].payload <= fs[k].end <= |raw| {
      FieldAt(raw, at, end, count, k);
    }
  }

  // ---------- the parse survives ----------

  /** Writing b at p cannot change the item that starts at `at`. */
  predicate Harmless(raw: Bytes, at: nat, it: Item, p: nat, b: byte)
    requires p < |raw|
  {
    || p < at || p >= it.end
    || (it.list && p >= it.payload)
    || (!it.list && p > it.payload)
    || (!it.list && p == it.payload && it.end == p + 1 && (raw[p] < 0x80 <==> b < 0x80))
  }

  lemma ItemStable(raw: Bytes, at: nat, p: nat, b: byte)
    requires p < |raw| && ItemAt(raw, at).Some? && Harmless(raw, at, ItemAt(raw, at).value, p, b)
    ensures ItemAt(raw[p := b], at) == ItemAt(raw, at)
  {
    var it := ItemAt(raw, at).value;
    var out := raw[p := b];
    if raw[at] >= 0x80 {
      assert p != at;
      assert out[at] == raw[at];
      var short := (raw[at] - if raw[at] >= 0xc0 then 0xc0 else 0x80) as nat;
      if short > 55 {
        var width := short - 55;
        assert out[at + 1..at + 1 + width] == raw[at + 1..at + 1 + width];
      }
    }
  }

  lemma {:induction false} FieldsStable(raw: Bytes, at: nat, end: nat, count: nat, p: nat, b: byte)
    requires p < |raw| && Fields(raw, at, end, count).Some?
    requires var fs := Fields(raw, at, end, count).value;
             forall k :: 0 <= k < count ==> Harmless(raw, StartOf(at, fs, k), fs[k], p, b)
    ensures Fields(raw[p := b], at, end, count) == Fields(raw, at, end, count)
    decreases count
  {
    hide ItemAt, Harmless;
    if at < end {
      var f := ItemAt(raw, at).value;
      var fs, rest := Fields(raw, at, end, count).value, Fields(raw, f.end, end, count - 1).value;
      assert StartOf(at, fs, 0) == at && fs[0] == f;
      ItemStable(raw, at, p, b);
      forall k | 0 <= k < count - 1 ensures Harmless(raw, StartOf(f.end, rest, k), rest[k], p, b) {
        assert fs[k + 1] == rest[k] && StartOf(at, fs, k + 1) == StartOf(f.end, rest, k);
      }
      FieldsStable(raw, f.end, end, count - 1, p, b);
    }
  }

  lemma FlipFacts(x: byte)
    ensures Flip(x, 1) != x && Flip(Flip(x, 1), 1) == x && (x < 0x80 <==> Flip(x, 1) < 0x80)
    ensures x != 1 ==> Flip(x, 1) != 0
    ensures Flip(1, 2) == 3 && Flip(3, 1) == 2
  {
  }

  /** Writing the last byte of a component leaves the component's own item alone. */
  lemma LastByteHarmless(raw: Bytes, at: nat, it: Item)
    requires ItemAt(raw, at) == Some(it) && it.payload < it.end <= |raw| && !it.list
    ensures Harmless(raw, at, it, it.end - 1, Flip(raw[it.end - 1], Mask(raw, it)))
  {
    FlipFacts(raw[it.end - 1]);
  }

  /** Fields other than the one that holds p are out of reach. */
  lemma OneFieldChanged(raw: Bytes, at: nat, end: nat, count: nat, n: nat, p: nat, b: byte)
    requires Fields(raw, at, end, count).Some? && at <= end && n < count && p < |raw|
    requires var fs := Fields(raw, at, end, count).value;
             StartOf(at, fs, n) <= p < fs[n].end && Harmless(raw, StartOf(at, fs, n), fs[n], p, b)
    ensures Fields(raw[p := b], at, end, count) == Fields(raw, at, end, count)
    ensures var fs := Fields(raw, at, end, count).value;
            forall k :: 0 <= k < count && k != n && fs[k].payload < fs[k].end ==> fs[k].payload != p
  {
    hide ItemAt, Fields;
    var fs := Fields(raw, at, end, count).value;
    forall k | 0 <= k < count
      ensures Harmless(raw, StartOf(at, fs, k), fs[k], p, b)
      ensures k != n && fs[k].payload < fs[k].end ==> fs[k].payload != p
    {
      FieldAt(raw, at, end, count, k);
      if k < n {
        FieldOrder(raw, at, end, count, k, n);
      } else if k > n {
        FieldOrder(raw, at, end, count, n, k);
      }
    }
    FieldsStable(raw, at, end, count, p, b);
  }

  /** Fields that end before p are out of reach. */
  lemma FieldsElsewhere(raw: Bytes, at: nat, end: nat, count: nat, p: nat, b: byte)
    requires Fields(raw, at, end, count).Some? && at <= end <= p < |raw|
    ensures Fields(raw[p := b], at, end, count) == Fields(raw, at, end, count)
    ensures var fs := Fields(raw, at, end, count).value; forall k :: 0 <= k < count ==> fs[k].end <= p
  {
    hide ItemAt, Fields;
    FieldsPartition(raw, at, end, count);
    FieldsStable(raw, at, end, count, p, b);
  }

  /** The items whose first byte the checks look at, besides the selected one. */
  ghost predicate OthersUntouched(raw: Bytes, e: Envelope, which: Which, p: nat)
    requires |e.fields| == 5 && |e.inner| == 12
  {
    && (forall k :: 0 <= k < 12 && !(which == Sender && k == 11) && e.inner[k].payload < e.inner[k].end ==>
       e.inner[k].payload != p)
    && (forall k :: 1 <= k < 5 && !(which == FeePayer && k == 3) && e.fields[k].payload < e.fields[k].end ==>
       e.fields[k].payload != p)
  }

  lemma SenderScan(raw: Bytes, e: Envelope, p: nat, b: byte)
    requires Accepted(raw) && Scan(raw) == Some(e) && p == e.inner[11].end - 1 &&
             b == Flip(raw[p], Mask(raw, e.inner[11]))
    ensures Scan(raw[p := b]) == Scan(raw) && OthersUntouched(raw, e, Sender, p) && p > 0
  {
    hide ItemAt, Fields;
    var at, end := e.fields[0].payload, e.fields[0].end;
    FieldAt(raw, e.outer.payload, e.outer.end, 5, 0);
    FieldAt(raw, at, end, 12, 11);
    LastByteHarmless(raw, StartOf(at, e.inner, 11), e.inner[11]);
    OneFieldChanged(raw, at, end, 12, 11, p, b);
    OneFieldChanged(raw, e.outer.payload, e.outer.end, 5, 0, p, b);
    ItemStable(raw, 1, p, b);
  }

  lemma FeePayerScan(raw: Bytes, e: Envelope, p: nat, b: byte)
    requires Accepted(raw) && Scan(raw) == Some(e) && p == e.fields[3].end - 1 &&
             b == Flip(raw[p], Mask(raw, e.fields[3]))
    ensures Scan(raw[p := b]) == Scan(raw) && OthersUntouched(raw, e, FeePayer, p) && p > 0
  {
    hide ItemAt, Fields;
    FieldAt(raw, e.outer.payload, e.outer.end, 5, 0);
    FieldAt(raw, e.outer.payload, e.outer.end, 5, 3);
    FieldOrder(raw, e.outer.payload, e.outer.end, 5, 0, 3);
    LastByteHarmless(raw, StartOf(e.outer.payload, e.fields, 3), e.fields[3]);
    OneFieldChanged(raw, e.outer.payload, e.outer.end, 5, 3, p, b);
    FieldsElsewhere(raw, e.fields[0].payload, e.fields[0].end, 12, p, b);
    ItemStable(raw, 1, p, b);
    InnerBefore(raw, e, p);
  }

  lemma InnerBefore(raw: Bytes, e: Envelope, p: nat)
    requires |e.fields| == 5 && |e.inner| == 12 && forall k :: 0 <= k < 12 ==> e.inner[k].end <= p
    ensures forall k :: 0 <= k < 12 && e.inner[k].payload < e.inner[k].end ==> e.inner[k].payload != p
  {
  }

  lemma ShapeStable(raw: Bytes, e: Envelope, which: Which, p: nat, b: byte)
    requires Shape(raw, e) && OthersUntouched(raw, e, which, p)
    requires p == Selected(e, which).end - 1 && b == Flip(raw[p], Mask(raw, Selected(e, which)))
    ensures Shape(raw[p := b], e)
  {
    FlipFacts(raw[p]);
    var out := raw[p := b];
    forall k | 0 <= k < 5 ensures IntegerOk(out, e.inner[k]) {
      assert IntegerOk(raw, e.inner[k]);
    }
  }

  /** Tampering preserves the parse: for every accepted envelope and either signature, the result has the
      same item boundaries, passes every check again and differs in exactly one byte. A second
      application restores the original unless the component was the one-byte value 1. */
  lemma TamperPreservesParse(raw: Bytes, which: Which)
    requires Accepted(raw)
    ensures var out := Tampered(raw, which);
            var it := Selected(Scan(raw).value, which);
            && |out| == |raw| && Accepted(out) && Scan(out) == Scan(raw)
            && out[it.end - 1] != raw[it.end - 1]
            && (forall i :: 0 <= i < |raw| && i != it.end - 1 ==> out[i] == raw[i])
            && (Tampered(out, which) == raw <==> !(Size(it) == 1 && raw[it.payload] == 1))
  {
    hide ItemAt, Fields, Shape;
    var e := Scan(raw).value;
    ShapeFacts(raw, e);
    var it := Selected(e, which);
    var p := it.end - 1;
    var b := Flip(raw[p], Mask(raw, it));
    if which == Sender {
      SenderScan(raw, e, p, b);
    } else {
      FeePayerScan(raw, e, p, b);
    }
    ShapeStable(raw, e, which, p, b);
    FlipFacts(raw[p]);
    var out := raw[p := b];
    assert Accepted(out);
    assert Tampered(out, which) == out[p := Flip(out[p], Mask(out, it))];
    assert out[p := raw[p]] == raw;
    assert Tampered(out, which)[p] == Flip(b, Mask(out, it));
  }

  lemma ShapeFacts(raw: Bytes, e: Envelope)
    requires Shape(raw, e)
    ensures |e.fields| == 5 && |e.inner| == 12
    ensures e.inner[11].payload < e.inner[11].end <= |raw| && e.fields[3].payload < e.fields[3].end <= |raw|
    ensures raw[e.inner[11].payload] != 0 && raw[e.fields[3].payload] != 0
  {
  }
}
