/** Failure-carrying datatypes shared by the whole project. */
module Common {

  datatype Option<+T> = None | Some(value: T) {
    function UnwrapOr(default: T): T { if Some? then value else default }
  }

  datatype Result<+T, +E> = Ok(value: T) | Err(error: E)
}

/** Searching text, as Go's strings and bytes packages do. */
module Text {
  import opened Common

  /** The first position of c, or the length when there is none. */
  function IndexOf(s: string, c: char): (i: nat)
    ensures i <= |s| && c !in s[..i] && (i < |s| ==> s[i] == c)
  {
    if s == [] || s[0] == c then 0
    else
      var i := 1 + IndexOf(s[1..], c);
      assert s[..i] == [s[0]] + s[1..][..i - 1];
      i
  }

  /** The last position of c. */
  function LastIndexOf(s: string, c: char): (r: Option<nat>)
    ensures r.Some? ==> r.value < |s| && s[r.value] == c && c !in s[r.value + 1..]
    ensures r.None? ==> c !in s
  {
    if s == [] then None
    else if s[|s| - 1] == c then Some(|s| - 1)
    else
      var r := LastIndexOf(s[..|s| - 1], c);
      assert r.Some? ==> s[r.value + 1..] == s[..|s| - 1][r.value + 1..] + [s[|s| - 1]];
      assert s == s[..|s| - 1] + [s[|s| - 1]];
      r
  }

  /** The first position at which a word occurs. */
  function Find(s: string, word: string): (r: Option<nat>)
    ensures r.Some? ==> r.value <= |s| && word <= s[r.value..]
    ensures r.None? ==> !(word <= s)
  {
    if word <= s then Some(0)
    else if s == [] then None
    else match Find(s[1..], word) case None => None case Some(i) => Some(i + 1)
  }

  predicate Contains(s: string, word: string) { Find(s, word).Some? }

  function Min(a: int, b: int): int { if a <= b then a else b }
}
