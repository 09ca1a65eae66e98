/** Decimal text of natural numbers, as Go's strconv writes and reads it.
    Stream cursors, log cursors and positional bundle references all carry numbers this way. */
module Decimal {
  import opened Common

  const MAX_UINT64: nat := 0xFFFF_FFFF_FFFF_FFFF
  const MAX_INT64: nat := 0x7FFF_FFFF_FFFF_FFFF

  predicate IsDigit(c: char) { '0' <= c <= '9' }

  predicate AllDigits(s: string) { forall i :: 0 <= i < |s| ==> IsDigit(s[i]) }

  function Format(n: nat): (s: string)
    ensures s != [] && AllDigits(s)
  {
    var last := [(n % 10) as char + '0'];
    if n < 10 then last else Format(n / 10) + last
  }

  function Value(s: string): nat
    requires AllDigits(s)
  {
    if s == [] then 0 else 10 * Value(s[..|s| - 1]) + (s[|s| - 1] - '0') as nat
  }

  /** strconv.ParseUint in base ten: digits only, and no more than `max`. */
  function ParseUint(s: string, max: nat): (r: Option<nat>)
  {
    if s != [] && AllDigits(s) && Value(s) <= max then Some(Value(s)) else None
  }

  /** strconv.ParseInt in base ten on 64 bits: an optional sign, then digits. */
  function ParseInt(s: string): (r: Option<int>)
  {
    if s != [] && s[0] == '-' then
      match ParseUint(s[1..], MAX_INT64 + 1)
      case Some(v) => Some(0 - (v as int))
      case None => None
    else
      match ParseUint(if s != [] && s[0] == '+' then s[1..] else s, MAX_INT64)
      case Some(v) => Some(v)
      case None => None
  }

  lemma {:induction false} ValueOfFormat(n: nat)
    ensures Value(Format(n)) == n
  {
    if n >= 10 {
      ValueOfFormat(n / 10);
      assert Format(n)[..|Format(n)| - 1] == Format(n / 10);
    }
  }

  /** Writing a number and reading it back gives the number, up to the reader's bound. */
  lemma FormatRoundTrip(n: nat, max: nat)
    ensures ParseUint(Format(n), max) == if n <= max then Some(n) else None
  {
    ValueOfFormat(n);
  }

  lemma FormatInjective(m: nat, n: nat)
    requires Format(m) == Format(n)
    ensures m == n
  {
    ValueOfFormat(m);
    ValueOfFormat(n);
  }

  /** strconv.FormatInt: a minus sign and the magnitude. */
  function FormatInt(n: int): (s: string)
    ensures s != []
    ensures n >= 0 ==> AllDigits(s)
  {
    if n < 0 then "-" + Format(-n) else Format(n)
  }

  lemma ParseIntOfFormat(n: int)
    requires -(MAX_INT64 as int) - 1 <= n <= MAX_INT64
    ensures ParseInt(FormatInt(n)) == Some(n)
  {
    if n < 0 {
      ValueOfFormat(-n);
      assert FormatInt(n)[1..] == Format(-n);
    } else {
      ValueOfFormat(n);
    }
  }
}
