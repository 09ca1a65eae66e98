/** The canonical RLP reader of the Ethereum Yellow Paper, Appendix B, and the encoding it accepts. */
module Rlp {
  import opened Common

  newtype byte = x: int | 0 <= x < 256
  newtype uint64 = x: int | 0 <= x < 0x1_0000_0000_0000_0000

  type Bytes = seq<byte>

  /** Where an item's payload lies in the raw bytes, and whether the item is a list. */
  datatype Item = Item(payload: nat, end: nat, list: bool)

  function BigEndian(bs: Bytes): nat {
    if bs == [] then 0 else 256 * BigEndian(bs[..|bs| - 1]) + bs[|bs| - 1] as nat
  }

  /** The shortest big-endian form; zero is empty. */
  function ToBigEndian(n: nat): (bs: Bytes) {
    if n == 0 then [] else ToBigEndian(n / 256) + [(n % 256) as byte]
  }

  // ---------- the reader ----------

  function Within(raw: Bytes, size: nat, payload: nat, list: bool): (r: Option<Item>)
    requires payload <= |raw|
  {
    if size > |raw| - payload || (!list && size == 1 && raw[payload] < 0x80) then None
    else Some(Item(payload, payload + size, list))
  }

  function ItemAt(raw: Bytes, at: nat): (r: Option<Item>)
    ensures r.Some? ==> at <= r.value.payload <= r.value.end <= |raw| && at < r.value.end
  {
    if at >= |raw| then None
    else if raw[at] < 0x80 then Some(Item(at, at + 1, false))
    else
      var list := raw[at] >= 0xc0;
      var short := (raw[at] - if list then 0xc0 else 0x80) as nat;
      if short <= 55 then Within(raw, short, at + 1, list)
      else
        var width := short - 55;
        if width > |raw| - (at + 1) || raw[at + 1] == 0 then None
        else
          var size := BigEndian(raw[at + 1..at + 1 + width]);
          if size < 56 then None else Within(raw, size, at + 1 + width, list)
  }

  /** signatureRLPAt. The length is built in 64 bits; the types show that nothing overflows or leaves the slice. */
  method SignatureRLPAt(raw: Bytes, at: int) returns (r: Option<Item>)
    ensures r == if at < 0 then None else ItemAt(raw, at)
  {
    if at < 0 || at >= |raw| { return None; }
    var tag := raw[at];
    if tag < 0x80 { return Some(Item(at, at + 1, false)); }
    var list := tag >= 0xc0;
    var base: byte := if list then 0xc0 else 0x80;
    var size: uint64 := (tag - base) as uint64;
    var payload: nat := at + 1;
    if size > 55 {
      var width := (size - 55) as nat;
      if width > 8 || width > |raw| - payload || raw[payload] == 0 { return None; }
      size := 0;
      var i := 0;
      while i < width
        invariant 0 <= i <= width <= 8
        invariant size as nat == BigEndian(raw[payload..payload + i])
        invariant (size as nat) < Power256(i)
      {
        PowerStep(i, size as nat, raw[payload + i]);
        assert raw[payload..payload + i + 1][..i] == raw[payload..payload + i];
        size := 256 * size + raw[payload + i] as uint64;
        i := i + 1;
      }
      payload := payload + width;
      if size < 56 { return None; }
    }
    if size as int > |raw| - payload || (!list && size == 1 && raw[payload] < 0x80) { return None; }
    return Some(Item(payload, payload + size as nat, list));
  }

  function Power256(n: nat): nat { if n == 0 then 1 else 256 * Power256(n - 1) }

  lemma PowerStep(i: nat, size: nat, b: byte)
    requires i < 8 && size < Power256(i)
    ensures 256 * size + b as nat < Power256(i + 1) <= 0x1_0000_0000_0000_0000
  {
    assert Power256(8) == 0x1_0000_0000_0000_0000 by {
      assert Power256(2) == 65536;
      assert Power256(4) == 65536 * 65536;
      assert Power256(6) == 65536 * 65536 * 65536;
    }
    PowerMonotone(i + 1, 8);
  }

  lemma {:induction false} PowerMonotone(i: nat, j: nat)
    requires i <= j
    ensures 1 <= Power256(i) <= Power256(j)
  {
    if i < j {
      PowerMonotone(i, j - 1);
    } else if i > 0 {
      PowerMonotone(i - 1, i - 1);
    }
  }

  // ---------- the encoding ----------

  function Header(list: bool, n: nat): (h: Bytes)
    requires n < 0x1_0000_0000_0000_0000
    ensures |h| >= 1
  {
    var base: byte := if list then 0xc0 else 0x80;
    if n <= 55 then [base + n as byte]
    else
      BigEndianBounds(n);
      [base + 55 + |ToBigEndian(n)| as byte] + ToBigEndian(n)
  }

  /** RLP of a byte string, or of a list whose items are already encoded in `payload`. */
  function Encode(list: bool, payload: Bytes): Bytes
    requires |payload| < 0x1_0000_0000_0000_0000
  {
    if !list && |payload| == 1 && payload[0] < 0x80 then payload else Header(list, |payload|) + payload
  }

  lemma {:induction false} BigEndianOfNumber(n: nat)
    ensures BigEndian(ToBigEndian(n)) == n && (n > 0 ==> ToBigEndian(n) != [] && ToBigEndian(n)[0] != 0)
  {
    if n > 0 {
      BigEndianOfNumber(n / 256);
      assert ToBigEndian(n)[..|ToBigEndian(n)| - 1] == ToBigEndian(n / 256);
    }
  }

  lemma {:induction false} NumberOfBigEndian(bs: Bytes)
    requires bs != [] ==> bs[0] != 0
    ensures ToBigEndian(BigEndian(bs)) == bs && (bs != [] ==> BigEndian(bs) > 0)
  {
    if bs != [] {
      var rest := bs[..|bs| - 1];
      NumberOfBigEndian(rest);
      var last := bs[|bs| - 1] as nat;
      assert (256 * BigEndian(rest) + last) / 256 == BigEndian(rest) && (256 * BigEndian(rest) + last) % 256 == last;
      assert bs == rest + [bs[|bs| - 1]];
    }
  }

  lemma {:induction false} BigEndianLength(n: nat, k: nat)
    requires n < Power256(k)
    ensures |ToBigEndian(n)| <= k
  {
    if n > 0 && k > 0 {
      BigEndianLength(n / 256, k - 1);
    }
  }

  lemma BigEndianBounds(n: nat)
    requires n < 0x1_0000_0000_0000_0000
    ensures |ToBigEndian(n)| <= 8
  {
    assert Power256(8) == 0x1_0000_0000_0000_0000 by {
      assert Power256(2) == 65536;
      assert Power256(4) == 65536 * 65536;
      assert Power256(6) == 65536 * 65536 * 65536;
    }
    BigEndianLength(n, 8);
  }

  lemma {:induction false} BigEndianBelow(bs: Bytes)
    ensures BigEndian(bs) < Power256(|bs|)
  {
    if bs != [] { BigEndianBelow(bs[..|bs| - 1]); }
  }

  /** Every accepted item is canonical: encoding its payload again gives back its bytes. */
  lemma AcceptedIsCanonical(raw: Bytes, at: nat)
    requires ItemAt(raw, at).Some? && |raw| < 0x1_0000_0000_0000_0000
    ensures var it := ItemAt(raw, at).value; raw[at..it.end] == Encode(it.list, raw[it.payload..it.end])
  {
    var it := ItemAt(raw, at).value;
    var payload := raw[it.payload..it.end];
    if raw[at] >= 0x80 {
      AcceptedHeader(raw, at);
      hide ItemAt, Header;
      assert raw[at..it.end] == raw[at..it.payload] + payload;
    }
  }

  lemma AcceptedHeader(raw: Bytes, at: nat)
    requires ItemAt(raw, at).Some? && |raw| < 0x1_0000_0000_0000_0000 && raw[at] >= 0x80
    ensures var it := ItemAt(raw, at).value; raw[at..it.payload] == Header(it.list, it.end - it.payload)
  {
    hide BigEndian, ToBigEndian;
    var it := ItemAt(raw, at).value;
    var short := (raw[at] - if it.list then 0xc0 else 0x80) as nat;
    if short > 55 {
      var be := raw[at + 1..at + 1 + (short - 55)];
      NumberOfBigEndian(be);
      assert raw[at..it.payload] == [raw[at]] + be;
    } else {
      assert raw[at..it.payload] == [raw[at]];
    }
  }

  /** Every canonical encoding is accepted, wherever it stands and whatever surrounds it. */
  lemma CanonicalIsAccepted(before: Bytes, list: bool, payload: Bytes, after: Bytes)
    requires |payload| < 0x1_0000_0000_0000_0000
    ensures var e := Encode(list, payload);
            ItemAt(before + e + after, |before|) == Some(Item(|before| + |e| - |payload|, |before| + |e|, list))
  {
    hide ItemAt, Header;
    var e := Encode(list, payload);
    var raw := before + e + after;
    var at := |before|;
    if list || |payload| != 1 || payload[0] >= 0x80 {
      var h := Header(list, |payload|);
      assert e == h + payload && raw == before + h + (payload + after);
      assert raw[at..at + |h|] == h;
      assert |payload| >= 1 ==> raw[at + |h|] == payload[0];
      HeaderIsItem(raw, at, list, |payload|);
    } else {
      assert raw[at] == payload[0] == e[0];
      SmallByteIsItem(raw, at);
    }
  }

  lemma SmallByteIsItem(raw: Bytes, at: nat)
    requires at < |raw| && raw[at] < 0x80
    ensures ItemAt(raw, at) == Some(Item(at, at + 1, false))
  {
  }

  lemma HeaderIsItem(raw: Bytes, at: nat, list: bool, n: nat)
    requires n < 0x1_0000_0000_0000_0000 && at + |Header(list, n)| + n <= |raw|
    requires raw[at..at + |Header(list, n)|] == Header(list, n)
    requires list || n != 1 || raw[at + |Header(list, n)|] >= 0x80
    ensures ItemAt(raw, at) == Some(Item(at + |Header(list, n)|, at + |Header(list, n)| + n, list))
  {
    hide BigEndian, ToBigEndian;
    var h := Header(list, n);
    assert raw[at] == h[0];
    if n > 55 {
      BigEndianBounds(n);
      BigEndianOfNumber(n);
      var be := ToBigEndian(n);
      assert raw[at + 1..at + 1 + |be|] == raw[at..at + |h|][1..] == be;
      assert raw[at + 1] == be[0];
    }
  }

  // ---------- the fields of a list ----------

  /** The items that fill [at, end), when there are exactly `count` of them. */
  function Fields(raw: Bytes, at: nat, end: nat, count: nat): (r: Option<seq<Item>>)
    ensures r.Some? ==> |r.value| == count
    decreases if at < end then end - at else 0
  {
    if at >= end then (if count == 0 then Some([]) else None)
    else
      match ItemAt(raw, at)
      case None => None
      case Some(f) =>
        if f.end > end || count == 0 then None
        else
          match Fields(raw, f.end, end, count - 1)
          case None => None
          case Some(rest) => Some([f] + rest)
  }

  /** signatureRLPFields: the scanning loop. */
  method SignatureRLPFields(raw: Bytes, list: Item, count: nat) returns (r: Option<seq<Item>>)
    ensures r == Fields(raw, list.payload, list.end, count)
  {
    var fields: seq<Item> := [];
    var at := list.payload;
    assert forall rest: seq<Item> :: fields + rest == rest;
    while at < list.end
      invariant |fields| <= count
      invariant Fields(raw, list.payload, list.end, count) ==
                match Fields(raw, at, list.end, count - |fields|)
                  case None => None case Some(rest) => Some(fields + rest)
      decreases list.end - at
    {
      var field := SignatureRLPAt(raw, at);
      if field.None? || field.value.end > list.end || |fields| == count { return None; }
      assert forall rest: seq<Item> :: fields + ([field.value] + rest) == fields + [field.value] + rest;
      fields := fields + [field.value];
      at := field.value.end;
    }
    assert fields + [] == fields;
    if |fields| != count { return None; }
    return Some(fields);
  }

  /** The position where field k of a scan from `at` starts. */
  function StartOf(at: nat, fs: seq<Item>, k: nat): nat
    requires k < |fs|
  {
    if k == 0 then at else fs[k - 1].end
  }

  lemma {:induction false} FieldAt(raw: Bytes, at: nat, end: nat, count: nat, k: nat)
    requires Fields(raw, at, end, count).Some? && k < count
    ensures var fs := Fields(raw, at, end, count).value;
            ItemAt(raw, StartOf(at, fs, k)) == Some(fs[k]) && at <= StartOf(at, fs, k) && fs[k].end <= end
    decreases k
  {
    hide ItemAt;
    if k > 0 {
      var f := ItemAt(raw, at).value;
      FieldAt(raw, f.end, end, count - 1, k - 1);
      var fs, rest := Fields(raw, at, end, count).value, Fields(raw, f.end, end, count - 1).value;
      assert fs[k] == rest[k - 1] && StartOf(at, fs, k) == StartOf(f.end, rest, k - 1);
    }
  }

  lemma {:induction false} FieldOrder(raw: Bytes, at: nat, end: nat, count: nat, i: nat, k: nat)
    requires Fields(raw, at, end, count).Some? && i < k < count
    ensures var fs := Fields(raw, at, end, count).value; fs[i].end <= StartOf(at, fs, k)
    decreases i
  {
    hide ItemAt;
    var f := ItemAt(raw, at).value;
    var fs, rest := Fields(raw, at, end, count).value, Fields(raw, f.end, end, count - 1).value;
    assert StartOf(at, fs, k) == StartOf(f.end, rest, k - 1);
    if i == 0 {
      FieldAt(raw, f.end, end, count - 1, k - 1);
    } else {
      FieldOrder(raw, f.end, end, count - 1, i - 1, k - 1);
    }
  }

  lemma {:induction false} FieldsFill(raw: Bytes, at: nat, end: nat, count: nat)
    requires Fields(raw, at, end, count).Some? && at <= end
    ensures var fs := Fields(raw, at, end, count).value; if count == 0 then at == end else fs[count - 1].end == end
    decreases count
  {
    if at < end {
      var f := ItemAt(raw, at).value;
      FieldsFill(raw, f.end, end, count - 1);
    }
  }

  /** Accepted fields partition the payload: each starts where the one before ends, the last ends at the end. */
  lemma FieldsPartition(raw: Bytes, at: nat, end: nat, count: nat)
    requires Fields(raw, at, end, count).Some? && at <= end
    ensures var fs := Fields(raw, at, end, count).value;
            && (forall k :: 0 <= k < count ==> ItemAt(raw, StartOf(at, fs, k)) == Some(fs[k]))
            && (if count == 0 then at == end else fs[count - 1].end == end)
            && (forall i, k :: 0 <= i < k < count ==> fs[i].end <= StartOf(at, fs, k))
            && (forall k :: 0 <= k < count ==>
               at <= StartOf(at, fs, k) <= fs[k].payload <= fs[k].end <= end && StartOf(at, fs, k) < fs[k].end)
  {
    hide Fields;
    var fs := Fields(raw, at, end, count).value;
    FieldsFill(raw, at, end, count);
    forall k | 0 <= k < count
      ensures ItemAt(raw, StartOf(at, fs, k)) == Some(fs[k]) && at <= StartOf(at, fs, k) && fs[k].end <= end
    {
      FieldAt(raw, at, end, count, k);
    }
    forall i, k | 0 <= i < k < count ensures fs[i].end <= StartOf(at, fs, k) {
      FieldOrder(raw, at, end, count, i, k);
    }
  }
}
