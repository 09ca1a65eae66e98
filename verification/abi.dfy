/** Flat argument lists in the layout of the Solidity Contract ABI Specification, section "Formal Specification of
    the Encoding", and the reading of one dynamic value and of single words, in 64-bit machine arithmetic. */
module Abi {
  import opened Common
  import opened Rlp
  import Decimal

  function Zeros(n: nat): (z: Bytes)
    ensures |z| == n && forall i :: 0 <= i < n ==> z[i] == 0
  {
    if n == 0 then [] else Zeros(n - 1) + [0]
  }

  /** padWord32: pads on the left; anything past 32 bytes is cut off on the right. */
  function PadWord(b: Bytes): (w: Bytes)
    ensures |w| == 32
  {
    if |b| >= 32 then b[..32] else Zeros(32 - |b|) + b
  }

  function Number(n: nat): (w: Bytes)
    ensures |w| == 32
  {
    PadWord(ToBigEndian(n))
  }

  datatype Arg = Static(word: Bytes) | Dynamic(tail: Bytes)

  /** Uint takes the magnitude of a big integer. */
  function Uint(n: int): Arg { Static(Number(if n < 0 then -n else n)) }

  function Word(b: Bytes): Arg { Static(PadWord(b)) }

  function DynamicTail(b: Bytes): Bytes {
    Number(|b|) + b + if |b| % 32 != 0 then Zeros(32 - |b| % 32) else []
  }

  function BytesArg(b: Bytes): Arg { Dynamic(DynamicTail(b)) }

  /** What every constructor builds: whole words. */
  predicate Built(a: Arg) { if a.Static? then |a.word| == 32 else |a.tail| % 32 == 0 }

  predicate AllBuilt(args: seq<Arg>) { forall i :: 0 <= i < |args| ==> Built(args[i]) }

  lemma ConstructorsBuild(n: int, b: Bytes)
    ensures Built(Uint(n)) && Built(Word(b)) && Built(BytesArg(b))
  {
  }

  // ---------- numbers in words ----------

  lemma {:induction false} LeadingZeros(k: nat, b: Bytes)
    ensures BigEndian(Zeros(k) + b) == BigEndian(b)
    decreases |b|, k
  {
    var s := Zeros(k) + b;
    if b != [] {
      assert s[..|s| - 1] == Zeros(k) + b[..|b| - 1];
      LeadingZeros(k, b[..|b| - 1]);
    } else if k > 0 {
      assert s[..|s| - 1] == Zeros(k - 1) + [] && s[|s| - 1] == 0;
      LeadingZeros(k - 1, []);
    }
  }

  lemma NumberValue(n: nat)
    requires n < Power256(32)
    ensures BigEndian(Number(n)) == n
  {
    BigEndianLength(n, 32);
    BigEndianOfNumber(n);
    var b := ToBigEndian(n);
    if |b| < 32 {
      LeadingZeros(32 - |b|, b);
    } else {
      assert b[..32] == b;
    }
  }

  lemma WordRange()
    ensures Decimal.MAX_INT64 < Power256(8) <= Power256(32)
  {
    assert Power256(8) == 0x1_0000_0000_0000_0000 by {
      assert Power256(2) == 65536;
      assert Power256(4) == 65536 * 65536;
      assert Power256(6) == 65536 * 65536 * 65536;
    }
    PowerMonotone(8, 32);
  }

  /** A raw word of at most 32 bytes keeps its value, and of a longer one the first 32 bytes stay. */
  lemma WordValue(b: Bytes)
    ensures BigEndian(Word(b).word) == BigEndian(if |b| > 32 then b[..32] else b)
  {
    hide BigEndian, Zeros;
    if |b| < 32 {
      LeadingZeros(32 - |b|, b);
    } else {
      assert |b| == 32 ==> b[..32] == b;
    }
  }

  /** A uint256 argument's word holds the number exactly when the number is a uint256. */
  lemma UintValue(n: int)
    ensures BigEndian(Uint(n).word) == n <==> 0 <= n < Power256(32)
  {
    BigEndianBelow(Uint(n).word);
    if 0 <= n < Power256(32) {
      NumberValue(n);
    }
  }

  // ---------- the layout ----------

  function TailOf(a: Arg): Bytes { if a.Dynamic? then a.tail else [] }

  function Tails(args: seq<Arg>): Bytes {
    if args == [] then [] else Tails(args[..|args| - 1]) + TailOf(args[|args| - 1])
  }

  function HeadOf(args: seq<Arg>, base: nat, i: nat): Bytes
    requires i < |args|
  {
    if args[i].Dynamic? then Number(base + |Tails(args[..i])|) else args[i].word
  }

  function Heads(args: seq<Arg>, base: nat, n: nat): Bytes
    requires n <= |args|
  {
    if n == 0 then [] else Heads(args, base, n - 1) + HeadOf(args, base, n - 1)
  }

  function Encoded(args: seq<Arg>): Bytes { Heads(args, 32 * |args|, |args|) + Tails(args) }

  /** EncodeABI: heads and tails grow together, and a dynamic head takes the length of the tail so far. */
  method EncodeABI(args: seq<Arg>) returns (out: Bytes)
    ensures out == Encoded(args)
  {
    hide Number;
    var headLen := 32 * |args|;
    var head: Bytes, tail: Bytes := [], [];
    for i := 0 to |args|
      invariant head == Heads(args, headLen, i) && tail == Tails(args[..i])
    {
      assert args[..i + 1][..i] == args[..i];
      if args[i].Dynamic? {
        head := head + Number(headLen + |tail|);
        tail := tail + args[i].tail;
      } else {
        head := head + args[i].word;
      }
    }
    assert args[..|args|] == args;
    out := head + tail;
  }

  /** Where argument i's tail lies: after all heads and all tails before it. */
  function OffsetOf(args: seq<Arg>, i: nat): nat
    requires i <= |args|
  {
    32 * |args| + |Tails(args[..i])|
  }

  lemma SliceOfFirst(a: Bytes, b: Bytes, i: nat, j: nat)
    requires i <= j <= |a|
    ensures (a + b)[i..j] == a[i..j]
  {
  }

  lemma SliceOfSecond(a: Bytes, b: Bytes, i: nat, j: nat)
    requires i <= j <= |b|
    ensures (a + b)[|a| + i..|a| + j] == b[i..j]
  {
  }

  lemma SliceOfSlice(e: Bytes, at: nat, t: Bytes, i: nat, j: nat)
    requires at + |t| <= |e| && e[at..at + |t|] == t && i <= j <= |t|
    ensures e[at + i..at + j] == t[i..j]
  {
    forall k | i <= k < j ensures e[at + k] == t[k] {
      assert e[at..at + |t|][k] == t[k];
    }
  }

  lemma {:induction false} HeadAt(args: seq<Arg>, base: nat, n: nat, i: nat)
    requires AllBuilt(args) && n <= |args|
    ensures |Heads(args, base, n)| == 32 * n
    ensures i < n ==> Heads(args, base, n)[32 * i..32 * i + 32] == HeadOf(args, base, i)
  {
    hide Number;
    if n > 0 {
      HeadAt(args, base, n - 1, i);
      var rest, head := Heads(args, base, n - 1), HeadOf(args, base, n - 1);
      assert Built(args[n - 1]);
      if i < n - 1 {
        SliceOfFirst(rest, head, 32 * i, 32 * i + 32);
      } else if i == n - 1 {
        SliceOfSecond(rest, head, 0, 32);
        assert head[0..32] == head;
      }
    }
  }

  lemma {:induction false} TailsWhole(args: seq<Arg>)
    requires AllBuilt(args)
    ensures |Tails(args)| % 32 == 0
  {
    if args != [] {
      TailsWhole(args[..|args| - 1]);
      assert Built(args[|args| - 1]);
      SumOfWholes(|Tails(args[..|args| - 1])|, |TailOf(args[|args| - 1])|);
    }
  }

  lemma SumOfWholes(a: nat, b: nat)
    requires a % 32 == 0 && b % 32 == 0
    ensures (a + b) % 32 == 0
  {
  }

  lemma {:induction false} TailAt(args: seq<Arg>, i: nat)
    requires i < |args|
    ensures |Tails(args[..i])| + |TailOf(args[i])| == |Tails(args[..i + 1])| <= |Tails(args)|
    ensures Tails(args)[|Tails(args[..i])|..|Tails(args[..i + 1])|] == TailOf(args[i])
    decreases |args|
  {
    hide TailOf;
    var n := |args| - 1;
    var rest, last := Tails(args[..n]), TailOf(args[n]);
    assert args[..i + 1][..i] == args[..i];
    if i < n {
      assert args[..n][..i] == args[..i] && args[..n][..i + 1] == args[..i + 1];
      TailAt(args[..n], i);
      SliceOfFirst(rest, last, |Tails(args[..i])|, |Tails(args[..i + 1])|);
    } else {
      assert args[..i + 1] == args;
      SliceOfSecond(rest, last, 0, |last|);
      assert last[0..|last|] == last;
    }
  }

  /** The encoding is a whole number of words, a static argument is its own head word, and a dynamic argument's
      head word is the position of its own tail, which follows the tail before it with nothing in between. */
  lemma EncodedLayout(args: seq<Arg>, i: nat)
    requires AllBuilt(args) && |Encoded(args)| <= Decimal.MAX_INT64 && i < |args|
    ensures |Encoded(args)| % 32 == 0 && 32 * i + 32 <= |Encoded(args)|
    ensures args[i].Static? ==> Encoded(args)[32 * i..32 * i + 32] == args[i].word
    ensures args[i].Dynamic? ==> BigEndian(Encoded(args)[32 * i..32 * i + 32]) == OffsetOf(args, i)
    ensures OffsetOf(args, i) + |TailOf(args[i])| == OffsetOf(args, i + 1) <= |Encoded(args)|
    ensures Encoded(args)[OffsetOf(args, i)..OffsetOf(args, i + 1)] == TailOf(args[i])
    ensures OffsetOf(args, 0) == 32 * |args| && OffsetOf(args, |args|) == |Encoded(args)|
  {
    hide Power256, BigEndian, Number, Heads, Tails, TailOf, AllBuilt;
    var heads, tails := Heads(args, 32 * |args|, |args|), Tails(args);
    HeadAt(args, 32 * |args|, |args|, i);
    TailAt(args, i);
    TailsWhole(args);
    SliceOfFirst(heads, tails, 32 * i, 32 * i + 32);
    SliceOfSecond(heads, tails, |Tails(args[..i])|, |Tails(args[..i + 1])|);
    WordRange();
    NumberValue(OffsetOf(args, i));
    NoTails(args);
  }

  lemma NoTails(args: seq<Arg>)
    ensures Tails(args[..0]) == [] && args[..|args|] == args
  {
  }

  /** A dynamic value's tail is its length word, the data and zeros, fewer than a word of them, up to a whole word. */
  predicate IsTail(t: Bytes, b: Bytes) {
    && |t| % 32 == 0 && 32 + |b| <= |t| < 64 + |b|
    && BigEndian(t[..32]) == |b| && t[32..32 + |b|] == b
    && forall k :: 32 + |b| <= k < |t| ==> t[k] == 0
  }

  lemma TailMeaning(b: Bytes)
    requires |b| <= Decimal.MAX_INT64
    ensures IsTail(DynamicTail(b), b)
  {
    hide Power256, PadWord, BigEndian, Number;
    WordRange();
    NumberValue(|b|);
    var t := DynamicTail(b);
    assert t[..32] == Number(|b|);
  }

  /** Reading through the head word: a bytes argument's length word, data and padding lie where the head points, and
      what follows it starts where the padding ends. */
  lemma BytesAtHead(args: seq<Arg>, i: nat, b: Bytes)
    requires AllBuilt(args) && |Encoded(args)| <= Decimal.MAX_INT64 && i < |args| && args[i] == BytesArg(b)
    ensures 32 * i + 32 <= |Encoded(args)|
    ensures var e := Encoded(args);
            var at := BigEndian(e[32 * i..32 * i + 32]);
            && at + 32 + |b| <= |e| && BigEndian(e[at..at + 32]) == |b| && e[at + 32..at + 32 + |b|] == b
            && at <= OffsetOf(args, i + 1) <= |e| && IsTail(e[at..OffsetOf(args, i + 1)], b)
  {
    hide Power256, PadWord, BigEndian, Encoded, Tails, Number, IsTail, DynamicTail;
    EncodedLayout(args, i);
    var e, at := Encoded(args), OffsetOf(args, i);
    var t := DynamicTail(b);
    assert e[at..at + |t|] == t;
    LengthFits(args, i, b);
    TailMeaning(b);
    TailParts(t, b);
    SliceOfSlice(e, at, t, 0, 32);
    SliceOfSlice(e, at, t, 32, 32 + |b|);
  }

  lemma LengthFits(args: seq<Arg>, i: nat, b: Bytes)
    requires i < |args| && args[i] == BytesArg(b)
    ensures |b| <= |TailOf(args[i])|
  {
  }

  lemma TailParts(t: Bytes, b: Bytes)
    requires IsTail(t, b)
    ensures 32 + |b| <= |t| && BigEndian(t[..32]) == |b| && t[32..32 + |b|] == b
  {
  }

  // ---------- hexadecimal text ----------

  function HexDigit(n: nat): char
    requires n < 16
  {
    if n < 10 then '0' + n as char else 'a' + (n - 10) as char
  }

  function DigitValue(c: char): Option<nat> {
    if '0' <= c <= '9' then Some((c - '0') as nat)
    else if 'a' <= c <= 'f' then Some((c - 'a') as nat + 10)
    else if 'A' <= c <= 'F' then Some((c - 'A') as nat + 10)
    else None
  }

  function Hex(b: Bytes): (s: string)
    ensures |s| == 2 * |b|
  {
    if b == [] then [] else Hex(b[..|b| - 1]) + [HexDigit(b[|b| - 1] as nat / 16), HexDigit(b[|b| - 1] as nat % 16)]
  }

  /** hex.DecodeString: an even number of digits of either case. */
  function DecodeHex(s: string): Option<Bytes> {
    if s == [] then Some([])
    else if |s| == 1 then None
    else
      var rest := DecodeHex(s[..|s| - 2]);
      var hi, lo := DigitValue(s[|s| - 2]), DigitValue(s[|s| - 1]);
      if rest.None? || hi.None? || lo.None? then None else Some(rest.value + [(16 * hi.value + lo.value) as byte])
  }

  lemma {:induction false} HexRoundTrip(b: Bytes)
    ensures DecodeHex(Hex(b)) == Some(b)
  {
    if b != [] {
      var s := Hex(b);
      assert s[..|s| - 2] == Hex(b[..|b| - 1]);
      HexRoundTrip(b[..|b| - 1]);
      assert b == b[..|b| - 1] + [b[|b| - 1]];
    }
  }

  const LOWER := "0123456789abcdef"
  const UPPER := "ABCDEF"

  /** The lower-case form of a hexadecimal digit, and every other character itself. */
  function Lower(c: char): char { if 'A' <= c <= 'F' then (c as int + 32) as char else c }

  predicate IsHexText(s: string) { |s| % 2 == 0 && forall k :: 0 <= k < |s| ==> DigitValue(s[k]).Some? }

  function Lowered(s: string): (r: string) { seq(|s|, k requires 0 <= k < |s| => Lower(s[k])) }

  /** Text decodes exactly when it is an even number of hexadecimal digits, and the bytes it decodes to are written
      as the same text in lower case. */
  lemma {:induction false} HexOfDecoded(s: string)
    ensures DecodeHex(s).Some? <==> IsHexText(s)
    ensures DecodeHex(s).Some? ==> Hex(DecodeHex(s).value) == Lowered(s)
  {
    if |s| >= 2 {
      HexOfDecoded(s[..|s| - 2]);
      LastPair(s);
    }
  }

  lemma LastPair(s: string)
    requires |s| >= 2
    requires DecodeHex(s[..|s| - 2]).Some? <==> IsHexText(s[..|s| - 2])
    requires DecodeHex(s[..|s| - 2]).Some? ==> Hex(DecodeHex(s[..|s| - 2]).value) == Lowered(s[..|s| - 2])
    ensures DecodeHex(s).Some? <==> IsHexText(s)
    ensures DecodeHex(s).Some? ==> Hex(DecodeHex(s).value) == Lowered(s)
  {
    hide DecodeHex, Hex, Lowered, IsHexText;
    DecodeStep(s);
    HexTextStep(s);
    if DecodeHex(s).Some? {
      LastPairWritten(s, DecodeHex(s[..|s| - 2]).value);
    }
  }

  lemma HexTextStep(s: string)
    requires |s| >= 2
    ensures IsHexText(s) <==>
              IsHexText(s[..|s| - 2]) && DigitValue(s[|s| - 2]).Some? && DigitValue(s[|s| - 1]).Some?
  {
    hide DigitValue;
    assert s == s[..|s| - 2] + [s[|s| - 2], s[|s| - 1]];
  }

  lemma LastPairWritten(s: string, rest: Bytes)
    requires |s| >= 2 && DigitValue(s[|s| - 2]).Some? && DigitValue(s[|s| - 1]).Some?
    requires Hex(rest) == Lowered(s[..|s| - 2])
    ensures 16 * DigitValue(s[|s| - 2]).value + DigitValue(s[|s| - 1]).value < 256
    ensures var last := 16 * DigitValue(s[|s| - 2]).value + DigitValue(s[|s| - 1]).value;
            Hex(rest + [last as byte]) == Lowered(s)
  {
    hide Hex, DigitValue, Lower, HexDigit;
    var hi, lo := s[|s| - 2], s[|s| - 1];
    DigitWritten(hi);
    DigitWritten(lo);
    Halves(DigitValue(hi).value, DigitValue(lo).value);
    var b := rest + [(16 * DigitValue(hi).value + DigitValue(lo).value) as byte];
    assert b[..|b| - 1] == rest;
    HexStep(b);
    assert Lowered(s) == Lowered(s[..|s| - 2]) + [Lower(hi), Lower(lo)];
  }

  lemma Halves(hi: nat, lo: nat)
    requires hi < 16 && lo < 16
    ensures (16 * hi + lo) / 16 == hi && (16 * hi + lo) % 16 == lo
  {
  }

  lemma DecodeStep(s: string)
    requires |s| >= 2
    ensures var rest := DecodeHex(s[..|s| - 2]);
            var hi, lo := DigitValue(s[|s| - 2]), DigitValue(s[|s| - 1]);
            if rest.None? || hi.None? || lo.None? then DecodeHex(s).None?
            else DecodeHex(s) == Some(rest.value + [(16 * hi.value + lo.value) as byte])
  {
  }

  lemma DigitWritten(c: char)
    requires DigitValue(c).Some?
    ensures DigitValue(c).value < 16 && HexDigit(DigitValue(c).value) == Lower(c)
  {
  }

  /** The digits are those of either case, each with its value. */
  lemma DigitMeaning(c: char)
    ensures DigitValue(c).Some? <==> c in LOWER || c in UPPER
    ensures forall n: nat :: n < 16 ==> HexDigit(n) == LOWER[n] && DigitValue(HexDigit(n)) == Some(n)
  {
  }

  lemma {:induction false} HexSlice(b: Bytes, i: nat, j: nat)
    requires i <= j <= |b|
    ensures Hex(b)[2 * i..2 * j] == Hex(b[i..j])
    decreases j
  {
    hide Hex;
    if i < j {
      var whole := Hex(b[..j]);
      HexPrefix(b, j);
      HexPrefix(b[..j], j - 1);
      assert b[..j][..j - 1] == b[..j - 1];
      HexSlice(b, i, j - 1);
      HexStep(b[i..j]);
      HexStep(b[..j]);
      assert b[i..j][..j - i - 1] == b[i..j - 1];
      assert Hex(b)[2 * i..2 * j] == Hex(b)[2 * i..2 * (j - 1)] + Hex(b)[2 * (j - 1)..2 * j];
      assert Hex(b)[2 * (j - 1)..2 * j] == whole[2 * (j - 1)..];
    } else {
      assert b[i..j] == [];
      HexStep([]);
    }
  }

  lemma HexStep(b: Bytes)
    ensures Hex(b) ==
              if b == [] then []
              else Hex(b[..|b| - 1]) + [HexDigit(b[|b| - 1] as nat / 16), HexDigit(b[|b| - 1] as nat % 16)]
  {
  }

  lemma {:induction false} HexPrefix(b: Bytes, j: nat)
    requires j <= |b|
    ensures Hex(b)[..2 * j] == Hex(b[..j])
    decreases |b|
  {
    hide Hex;
    if j < |b| {
      var n := |b| - 1;
      HexStep(b);
      HexPrefix(b[..n], j);
      assert b[..n][..j] == b[..j];
      assert Hex(b)[..2 * j] == Hex(b[..n])[..2 * j];
    } else {
      assert b[..j] == b;
    }
  }

  function TrimPrefix(s: string): string { if "0x" <= s then s[2..] else s }

  // ---------- machine integers ----------

  const TWO63: int := 0x8000_0000_0000_0000

  /** Signed 64-bit arithmetic wraps around. */
  function Wrap(n: int): (r: int)
    ensures -TWO63 <= r < TWO63
    ensures -TWO63 <= n < TWO63 ==> r == n
  {
    (n + TWO63) % (2 * TWO63) - TWO63
  }

  /** What a Go call does: it returns, or slicing out of bounds panics. */
  datatype Outcome<T> = Panics | Returns(value: T)

  function Slice<T>(s: seq<T>, from: int, to: int): Outcome<seq<T>> {
    if 0 <= from <= to <= |s| then Returns(s[from..to]) else Panics
  }

  // ---------- DecodeString ----------

  /** DecodeString on the decoded bytes. */
  function DecodeBytes(b: Bytes): Outcome<Bytes> {
    if |b| < 64 then Returns([])
    else
      var off := BigEndian(b[..32]);
      if off >= TWO63 || Wrap(off + 32) > |b| then Returns([])
      else
        match Slice(b, off, Wrap(off + 32))
        case Panics => Panics
        case Returns(word) =>
          var n := BigEndian(word);
          var start := Wrap(off + 32);
          if n >= TWO63 || Wrap(start + n) > |b| then Returns([]) else Slice(b, start, Wrap(start + n))
  }

  function DecodeString(s: string): Outcome<Bytes> {
    match DecodeHex(TrimPrefix(s))
    case None => Returns([])
    case Some(b) => DecodeBytes(b)
  }

  /** The value an encoding of one dynamic value holds, in exact arithmetic. */
  function DynamicValue(b: Bytes): Option<Bytes> {
    if |b| < 64 then None
    else
      var off := BigEndian(b[..32]);
      if off + 32 > |b| then None
      else
        var n := BigEndian(b[off..off + 32]);
        if off + 32 + n > |b| then None else Some(b[off + 32..off + 32 + n])
  }

  predicate OffsetWraps(b: Bytes) { |b| >= 64 && TWO63 - 32 <= BigEndian(b[..32]) < TWO63 }

  predicate LengthWraps(b: Bytes) {
    |b| >= 64 &&
    var off := BigEndian(b[..32]);
    off + 32 <= |b| && TWO63 - off - 32 <= BigEndian(b[off..off + 32]) < TWO63
  }

  /** The call panics exactly when one of its two sums leaves 64 bits, and otherwise returns the value, or
      nothing when there is none. */
  lemma DecodePanicsExactly(b: Bytes)
    requires |b| <= Decimal.MAX_INT64
    ensures DecodeBytes(b).Panics? <==> OffsetWraps(b) || LengthWraps(b)
    ensures DecodeBytes(b).Returns? ==>
              DecodeBytes(b).value == match DynamicValue(b) { case Some(v) => v case None => [] }
  {
    hide BigEndian;
    if |b| >= 64 {
      var off := BigEndian(b[..32]);
      WrapsDown(off);
      if off + 32 <= |b| {
        var n := BigEndian(b[off..off + 32]);
        assert off + 32 < TWO63;
        if n < TWO63 {
          WrapsSum(off + 32, n);
        }
      }
    }
  }

  lemma WrapsDown(off: nat)
    ensures TWO63 - 32 <= off < TWO63 ==> Wrap(off + 32) < 0
  {
  }

  lemma WrapsSum(a: nat, n: nat)
    requires a < TWO63 && n < TWO63
    ensures Wrap(a + n) == if a + n < TWO63 then a + n else a + n - 2 * TWO63
  {
  }

  /** Decoding the encoding of one bytes or string value gives the value. */
  lemma DecodeRoundTrip(d: Bytes)
    requires |Encoded([BytesArg(d)])| <= Decimal.MAX_INT64
    ensures DecodeString("0x" + Hex(Encoded([BytesArg(d)]))) == Returns(d)
  {
    hide Hex, DecodeHex, DynamicTail, BigEndian, Encoded, DecodeBytes;
    var args := [BytesArg(d)];
    var e := Encoded(args);
    HexRoundTrip(e);
    assert ("0x" + Hex(e))[2..] == Hex(e);
    OneValue(d);
    DecodePanicsExactly(e);
  }

  lemma OneValue(d: Bytes)
    requires |Encoded([BytesArg(d)])| <= Decimal.MAX_INT64
    ensures var e := Encoded([BytesArg(d)]); DynamicValue(e) == Some(d) && !OffsetWraps(e) && !LengthWraps(e)
  {
    hide DynamicTail, BigEndian, Encoded, Tails;
    var args := [BytesArg(d)];
    var e := Encoded(args);
    ConstructorsBuild(0, d);
    BytesAtHead(args, 0, d);
    HeadPrecedesTail(args);
    assert e[32 * 0..32 * 0 + 32] == e[..32];
  }

  lemma HeadPrecedesTail(args: seq<Arg>)
    requires AllBuilt(args) && |args| == 1 && args[0].Dynamic? && |Encoded(args)| <= Decimal.MAX_INT64
    ensures |Encoded(args)| >= 32 && BigEndian(Encoded(args)[..32]) == 32
  {
    hide BigEndian;
    EncodedLayout(args, 0);
    assert args[..0] == [];
    assert Encoded(args)[32 * 0..32 * 0 + 32] == Encoded(args)[..32];
  }

  /** Sixty-four bytes on which the call panics: the offset is the largest 64-bit integer. */
  lemma DecodePanicExample()
    ensures DecodeBytes(Number(TWO63 - 1) + Zeros(32)).Panics?
  {
    hide Number, Power256, BigEndian, Zeros, Wrap;
    var b := Number(TWO63 - 1) + Zeros(32);
    assert b[..32] == Number(TWO63 - 1);
    WordRange();
    NumberValue(TWO63 - 1);
    DecodePanicsExactly(b);
  }

  // ---------- WordAt ----------

  predicate Space(c: char) { c == ' ' || '\t' <= c <= '\r' }

  /** strings.TrimSpace on ASCII text. */
  function TrimSpace(s: string): (r: string)
    ensures |r| <= |s|
    decreases |s|
  {
    if s == [] then s
    else if Space(s[0]) then TrimSpace(s[1..])
    else if Space(s[|s| - 1]) then TrimSpace(s[..|s| - 1])
    else s
  }

  /** The hexadecimal digits of a blob, once blanks and prefix are gone. */
  function Digits(blob: string): string { TrimPrefix(TrimSpace(blob)) }

  function WordAt(blob: string, index: int): Outcome<Option<string>> {
    var h := Digits(blob);
    var start := Wrap(index * 64);
    if index < 0 || Wrap(start + 64) > |h| then Returns(None)
    else
      match Slice(h, start, Wrap(start + 64))
      case Panics => Panics
      case Returns(word) => Returns(Some("0x" + word))
  }

  /** The word at an index, in exact arithmetic. */
  function TrueWord(blob: string, index: int): Option<string> {
    var h := Digits(blob);
    if index < 0 || index * 64 + 64 > |h| then None else Some("0x" + h[index * 64..index * 64 + 64])
  }

  /** The call is exact for every index whose end fits 64 bits; past that, the word does not exist and the call
      says so exactly when the wrapped end still lies past the text. */
  lemma WordAtExactly(blob: string, index: int)
    requires |blob| <= Decimal.MAX_INT64 && -TWO63 <= index < TWO63
    ensures WordAt(blob, index) == Returns(TrueWord(blob, index)) <==>
              index < 0 || index * 64 + 64 < TWO63 || Wrap(index * 64 + 64) > |Digits(blob)|
  {
    hide TrimSpace;
    WrapTwice(index * 64, 64);
  }

  lemma {:induction false} HexHasNoSpace(b: Bytes)
    ensures forall i :: 0 <= i < |Hex(b)| ==> !Space(Hex(b)[i])
  {
    if b != [] {
      HexHasNoSpace(b[..|b| - 1]);
    }
  }

  lemma HexTrimmed(b: Bytes)
    ensures Digits("0x" + Hex(b)) == Hex(b)
  {
    HexHasNoSpace(b);
    var s := "0x" + Hex(b);
    assert !Space(s[0]) && !Space(s[|s| - 1]);
  }

  lemma WrapTwice(a: int, n: int)
    ensures Wrap(Wrap(a) + n) == Wrap(a + n)
  {
    var k := (a + TWO63) / (2 * TWO63);
    assert Wrap(a) == a - 2 * TWO63 * k;
    assert (a + n + TWO63 - 2 * TWO63 * k) % (2 * TWO63) == (a + n + TWO63) % (2 * TWO63);
  }

  /** WordAt undoes the head packing: it reads back each static argument's word. */
  lemma WordAtInvertsHead(args: seq<Arg>, i: nat)
    requires AllBuilt(args) && 2 * |Encoded(args)| + 2 <= Decimal.MAX_INT64 && i < |args| && args[i].Static?
    ensures WordAt("0x" + Hex(Encoded(args)), i) == Returns(Some("0x" + Hex(args[i].word)))
  {
    hide Encoded, Hex, Tails;
    EncodedLayout(args, i);
    var e := Encoded(args);
    var blob := "0x" + Hex(e);
    HexTrimmed(e);
    HexSlice(e, 32 * i, 32 * i + 32);
    WordAtExactly(blob, i);
  }
}
