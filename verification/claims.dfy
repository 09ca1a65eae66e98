/** Physical resource claims: which two claims cannot be held at the same time. */
module Claims {

  datatype Claim = Claim(host: string, dataPath: string, ports: seq<int>, executable: string, idle: bool)

  // ---------- path.Clean ----------

  predicate Component(s: string) { s != [] && '/' !in s }

  predicate Components(cs: seq<string>) { forall i :: 0 <= i < |cs| ==> Component(cs[i]) }

  /** The text between slashes, empty pieces included, as strings.Split gives it. */
  function Split(p: string): (cs: seq<string>)
    ensures |cs| > 0
    ensures forall i :: 0 <= i < |cs| ==> '/' !in cs[i]
  {
    if p == [] then [[]]
    else
      var rest := Split(p[1..]);
      if p[0] == '/' then [[]] + rest
      else [[p[0]] + rest[0]] + rest[1..]
  }

  /** One piece of a rooted path applied to the directories above it. */
  function Descend(dirs: seq<string>, piece: string): (r: seq<string>)
    requires Components(dirs) && '/' !in piece
    ensures Components(r)
  {
    if piece == "" || piece == "." then dirs
    else if piece == ".." then (if dirs == [] then [] else dirs[..|dirs| - 1])
    else dirs + [piece]
  }

  function Walk(dirs: seq<string>, pieces: seq<string>): (r: seq<string>)
    requires Components(dirs) && forall i :: 0 <= i < |pieces| ==> '/' !in pieces[i]
    ensures Components(r)
    decreases |pieces|
  {
    if pieces == [] then dirs else Walk(Descend(dirs, pieces[0]), pieces[1..])
  }

  /** The directories a rooted path names once ".", ".." and repeated slashes are gone. */
  function Directories(p: string): (cs: seq<string>)
    ensures Components(cs)
  {
    Walk([], Split(p))
  }

  function Join(cs: seq<string>): string {
    if cs == [] then [] else "/" + cs[0] + Join(cs[1..])
  }

  /** path.Clean of a rooted path. */
  function Clean(p: string): (r: string)
    ensures r != [] && r[0] == '/'
  {
    if Directories(p) == [] then "/" else Join(Directories(p))
  }

  function TrimSlash(p: string): string {
    if p != [] && p[|p| - 1] == '/' then p[..|p| - 1] else p
  }

  /** The code's textual test on two cleaned paths. */
  predicate PathsOverlap(a: string, b: string) {
    a == b || TrimSlash(b) + "/" <= a || TrimSlash(a) + "/" <= b
  }

  lemma {:induction false} JoinShape(cs: seq<string>)
    requires Components(cs)
    ensures cs == [] <==> Join(cs) == []
    ensures cs != [] ==> Join(cs)[0] == '/' && Join(cs)[|Join(cs)| - 1] != '/'
  {
    if cs != [] {
      JoinShape(cs[1..]);
      assert cs[0][|cs[0]| - 1] in cs[0];
      var j := Join(cs);
      if cs[1..] == [] {
        assert j[|j| - 1] == cs[0][|cs[0]| - 1];
      } else {
        assert j[|j| - 1] == Join(cs[1..])[|Join(cs[1..])| - 1];
      }
    }
  }

  /** Two component names followed by slashes or the end agree only when they are equal. */
  lemma SamePiece(a: string, x: string, b: string, y: string)
    requires Component(a) && Component(b)
    requires x != [] ==> x[0] == '/'
    requires y != [] ==> y[0] == '/'
    requires a + x <= b + y && (x != [] || |a| == |b|)
    ensures a == b && x <= y
  {
    var l, r := a + x, b + y;
    assert forall i :: 0 <= i < |l| ==> l[i] == r[i];
    assert forall i :: 0 <= i < |a| ==> a[i] in a && l[i] == a[i];
    assert forall i :: 0 <= i < |b| ==> b[i] in b && r[i] == b[i];
    assert x != [] ==> l[|a|] == '/';
    assert y != [] ==> r[|b|] == '/';
    assert |a| == |b|;
    forall i | 0 <= i < |a| ensures a[i] == b[i] {
      assert l[i] == r[i];
    }
    assert a == b;
    forall i | 0 <= i < |x| ensures x[i] == y[i] {
      assert l[|a| + i] == r[|a| + i];
    }
  }

  lemma JoinStep(cs: seq<string>)
    requires Components(cs)
    ensures Join(cs) == if cs == [] then [] else "/" + cs[0] + Join(cs[1..])
    ensures forall i :: 0 <= i < |cs| ==> Component(cs[i])
  {
  }

  /** A cleaned path plus a slash is a textual prefix of another exactly when its
      directories are a proper prefix. */
  lemma {:induction false} PrefixMeansInside(a: seq<string>, b: seq<string>)
    requires Components(a) && Components(b)
    ensures Join(a) + "/" <= Join(b) <==> a < b
  {
    hide Join, Component;
    JoinShape(a);
    JoinShape(b);
    JoinStep(a);
    JoinStep(b);
    if a == [] {
      if b != [] {
        assert Join(b)[0] == '/';
      }
    } else if b != [] {
      PrefixMeansInside(a[1..], b[1..]);
      JoinShape(a[1..]);
      JoinShape(b[1..]);
      PieceByPiece(a[0], Join(a[1..]) + "/", b[0], Join(b[1..]));
      assert Join(a) + "/" == "/" + a[0] + (Join(a[1..]) + "/");
      ProperPrefixStep(a, b);
    }
  }

  lemma ProperPrefixStep(a: seq<string>, b: seq<string>)
    requires a != [] && b != []
    ensures a < b <==> a[0] == b[0] && a[1..] < b[1..]
  {
    assert a == [a[0]] + a[1..] && b == [b[0]] + b[1..];
  }

  /** Texts that go on with a slash, or end, agree exactly piece by piece. */
  lemma PieceByPiece(p: string, x: string, q: string, y: string)
    requires Component(p) && Component(q) && x != [] && x[0] == '/' && (y != [] ==> y[0] == '/')
    ensures "/" + p + x <= "/" + q + y <==> p == q && x <= y
  {
    var l, r := p + x, q + y;
    assert "/" + p + x == "/" + l && "/" + q + y == "/" + r;
    if "/" + p + x <= "/" + q + y {
      assert ("/" + l)[1..] == l && ("/" + r)[1..] == r;
      assert forall i :: 0 <= i < |l| ==> l[i] == ("/" + l)[i + 1];
      assert forall i :: 0 <= i < |r| ==> r[i] == ("/" + r)[i + 1];
      assert l <= r;
      SamePiece(p, x, q, y);
    }
  }

  lemma {:induction false} JoinInjective(a: seq<string>, b: seq<string>)
    requires Components(a) && Components(b) && Join(a) == Join(b)
    ensures a == b
  {
    JoinShape(a);
    JoinShape(b);
    if a != [] {
      JoinShape(a[1..]);
      JoinShape(b[1..]);
      var x, y := Join(a[1..]), Join(b[1..]);
      assert a[0] + x == Join(a)[1..] == Join(b)[1..] == b[0] + y;
      if |a[0]| <= |b[0]| {
        assert |a[0] + x| == |b[0] + y|;
        SamePiece(a[0], x, b[0], y);
      } else {
        assert |b[0] + y| == |a[0] + x|;
        SamePiece(b[0], y, a[0], x);
      }
      assert x == y;
      JoinInjective(a[1..], b[1..]);
      assert a == [a[0]] + a[1..] && b == [b[0]] + b[1..];
    }
  }

  /** On rooted paths the textual test is the component-prefix relation: the two paths
      collide exactly when one directory is the other or contains it. */
  lemma PathTestIsContainment(p: string, q: string)
    ensures PathsOverlap(Clean(p), Clean(q))
       <==> Directories(p) <= Directories(q) || Directories(q) <= Directories(p)
  {
    var a, b := Directories(p), Directories(q);
    JoinShape(a);
    JoinShape(b);
    PrefixMeansInside(a, b);
    PrefixMeansInside(b, a);
    assert TrimSlash("/") == "";
    assert TrimSlash(Clean(p)) == Join(a);
    assert TrimSlash(Clean(q)) == Join(b);
    assert TrimSlash(Clean(p)) + "/" <= Clean(q) <==> (Join(a) + "/" <= Join(b) || (a == [] && b == []));
    assert TrimSlash(Clean(q)) + "/" <= Clean(p) <==> (Join(b) + "/" <= Join(a) || (a == [] && b == []));
    assert Clean(p)[|Clean(p)| - 1] == '/' <==> a == [];
    assert Clean(q)[|Clean(q)| - 1] == '/' <==> b == [];
    if Clean(p) == Clean(q) {
      JoinInjective(a, b);
    }
    assert a <= b <==> a == b || a < b;
    assert b <= a <==> a == b || b < a;
  }

  // ---------- overlap ----------

  predicate SharedPort(a: Claim, b: Claim) { exists p :: p in a.ports && p in b.ports }

  predicate Overlap(a: Claim, b: Claim) {
    && a.host == b.host && !a.idle && !b.idle
    && (|| (a.executable != "" && a.executable == b.executable)
        || (a.dataPath != "" && b.dataPath != "" && PathsOverlap(Clean(a.dataPath), Clean(b.dataPath)))
        || SharedPort(a, b))
  }

  /** claimsOverlap with its early returns and its nested port search. */
  method ClaimsOverlap(a: Claim, b: Claim) returns (overlap: bool)
    ensures overlap == Overlap(a, b)
    ensures overlap == Overlap(b, a)
  {
    if a.host != b.host || a.idle || b.idle { return false; }
    if a.executable != "" && a.executable == b.executable { return true; }
    if a.dataPath != "" && b.dataPath != "" {
      var x, y := Clean(a.dataPath), Clean(b.dataPath);
      if x == y || TrimSlash(y) + "/" <= x || TrimSlash(x) + "/" <= y { return true; }
    }
    for i := 0 to |a.ports|
      invariant forall k :: 0 <= k < i ==> a.ports[k] !in b.ports
    {
      for j := 0 to |b.ports|
        invariant forall k :: 0 <= k < j ==> b.ports[k] != a.ports[i]
      {
        if a.ports[i] == b.ports[j] {
          assert a.ports[i] in a.ports && a.ports[i] in b.ports;
          return true;
        }
      }
    }
    return false;
  }

  /** Two claims collide on the same machine exactly through a binary, nested data
      directories or a port, whichever claim is asked about first. */
  lemma OverlapMeaning(a: Claim, b: Claim)
    ensures Overlap(a, b) <==>
      && a.host == b.host && !a.idle && !b.idle
      && (|| (a.executable != "" && a.executable == b.executable)
          || (a.dataPath != "" && b.dataPath != ""
              && (Directories(a.dataPath) <= Directories(b.dataPath) ||
                 Directories(b.dataPath) <= Directories(a.dataPath)))
          || exists p :: p in a.ports && p in b.ports)
    ensures Overlap(a, b) == Overlap(b, a)
  {
    PathTestIsContainment(a.dataPath, b.dataPath);
  }
}
