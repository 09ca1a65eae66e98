/** The cursor that two kinds of collectors share: each writes back only what is its own. */
module LogFields {
  import opened Common
  import opened LogTail
  import GapLedger

  /** The stored cursor: every node's position, and each kind of collector's open gaps and last round. */
  datatype Shared = Shared(positions: map<string, Pos>, open: seq<GapLedger.Gap>, last: int,
                           remoteOpen: seq<GapLedger.Gap>, remoteLast: int)

  /** A remote round in flight: its own copy of the positions, and the nodes it has read. */
  datatype Remote = Remote(work: map<string, Pos>, done: set<string>)

  datatype System = System(cursor: Shared, remotes: map<nat, Remote>)

  /** A background round holds the lock throughout, so it is one step; what it reads depends on the positions of
      the nodes it reads. A remote round copies the cursor, reads without the lock, and takes the lock again to
      write; `stopped` is a cancelled or refused round, `written` whether the write succeeded. */
  datatype Action =
    | Background(read: map<string, Pos> -> map<string, Pos>, gaps: seq<GapLedger.Gap>, now: int, written: bool)
    | RemoteBegin(who: nat)
    | RemoteRead(who: nat, node: string, move: Pos -> Pos)
    | RemoteFinish(who: nat, gaps: seq<GapLedger.Gap>, now: int, stopped: bool, written: bool)
    | RemoteDrop(who: nat)
    | Detach
    | Crash

  /** The positions of some nodes, and of the others. */
  function Own(positions: map<string, Pos>, nodes: set<string>): map<string, Pos> {
    map node | node in positions && node in nodes :: positions[node]
  }

  function Others(positions: map<string, Pos>, nodes: set<string>): map<string, Pos> {
    map node | node in positions && node !in nodes :: positions[node]
  }

  /** `local` are the nodes whose logs the background collector reads itself. */
  predicate Enabled(s: System, local: set<string>, a: Action) {
    match a
    case Background(read, _, _, _) => read(Own(s.cursor.positions, local)).Keys <= local
    case RemoteBegin(k) => k !in s.remotes
    case RemoteRead(k, node, _) => k in s.remotes && node !in local
    case RemoteFinish(k, _, _, _, _) => k in s.remotes
    case RemoteDrop(k) => k in s.remotes
    case Detach => true
    case Crash => true
  }

  function At(positions: map<string, Pos>, node: string): Pos { if node in positions then positions[node] else START }

  function Do(s: System, local: set<string>, a: Action): System
    requires Enabled(s, local, a)
  {
    var c := s.cursor;
    match a
    case Background(read, gaps, now, written) =>
      if !written then s
      else
        s.(cursor := c.(positions := c.positions + read(Own(c.positions, local)),
                        open := GapLedger.Next(c.open, gaps), last := now))
    case RemoteBegin(k) => s.(remotes := s.remotes[k := Remote(c.positions, {})])
    case RemoteRead(k, node, read) =>
      var r := s.remotes[k];
      s.(remotes := s.remotes[k := Remote(r.work[node := read(At(r.work, node))], r.done + {node})])
    case RemoteFinish(k, gaps, now, stopped, written) =>
      var r := s.remotes[k];
      var t := s.(remotes := s.remotes - {k});
      if !written then t
      else
        t.(cursor := c.(positions := c.positions + Own(r.work, r.done),
                        remoteOpen := if stopped then c.remoteOpen else GapLedger.Next(c.remoteOpen, gaps),
                        remoteLast := if stopped then c.remoteLast else now))
    case RemoteDrop(k) => s.(remotes := s.remotes - {k})
    case Detach => s.(cursor := c.(remoteOpen := []))
    case Crash => s.(remotes := map[])
  }

  ghost predicate Runs(s: System, local: set<string>, actions: seq<Action>)
    decreases |actions|
  {
    actions != [] ==> Enabled(s, local, actions[0]) && Runs(Do(s, local, actions[0]), local, actions[1..])
  }

  ghost function Final(s: System, local: set<string>, actions: seq<Action>): System
    requires Runs(s, local, actions)
    decreases |actions|
  {
    if actions == [] then s else Final(Do(s, local, actions[0]), local, actions[1..])
  }

  function Only(actions: seq<Action>, background: bool): seq<Action> {
    if actions == [] then []
    else (if actions[0].Background? == background then [actions[0]] else []) + Only(actions[1..], background)
  }

  // ---------- what belongs to whom ----------

  /** The background collector's fields are the same. */
  predicate SameBackground(s: System, t: System, local: set<string>) {
    && Own(s.cursor.positions, local) == Own(t.cursor.positions, local)
    && s.cursor.open == t.cursor.open && s.cursor.last == t.cursor.last
  }

  predicate SameRound(a: Remote, b: Remote, local: set<string>) {
    a.done == b.done && a.done !! local && Others(a.work, local) == Others(b.work, local)
  }

  /** The remote collectors' fields, and their rounds in flight, are the same. */
  predicate SameRemote(s: System, t: System, local: set<string>) {
    && Others(s.cursor.positions, local) == Others(t.cursor.positions, local)
    && s.cursor.remoteOpen == t.cursor.remoteOpen && s.cursor.remoteLast == t.cursor.remoteLast
    && s.remotes.Keys == t.remotes.Keys && forall k :: k in s.remotes ==> SameRound(s.remotes[k], t.remotes[k], local)
  }

  /** Remote rounds only ever read nodes of their own. */
  predicate OwnNodes(s: System, local: set<string>) { forall k :: k in s.remotes ==> s.remotes[k].done !! local }

  lemma OwnOfUnion(a: map<string, Pos>, b: map<string, Pos>, nodes: set<string>)
    ensures Own(a + b, nodes) == Own(a, nodes) + Own(b, nodes)
    ensures Others(a + b, nodes) == Others(a, nodes) + Others(b, nodes)
    ensures b.Keys <= nodes ==> Others(b, nodes) == map[]
    ensures b.Keys !! nodes ==> Own(b, nodes) == map[] && Others(b, nodes) == b
  {
  }

  /** Another collector's step leaves the background collector's fields alone. */
  lemma RemoteLeavesBackground(s: System, local: set<string>, a: Action)
    requires OwnNodes(s, local) && Enabled(s, local, a) && !a.Background?
    ensures SameBackground(Do(s, local, a), s, local) && OwnNodes(Do(s, local, a), local)
  {
    if a.RemoteFinish? {
      var r := s.remotes[a.who];
      OwnOfUnion(s.cursor.positions, Own(r.work, r.done), local);
      assert Own(s.cursor.positions, local) + map[] == Own(s.cursor.positions, local);
    }
  }

  /** A background round leaves the remote collectors' fields alone. */
  lemma BackgroundLeavesRemote(s: System, local: set<string>, a: Action)
    requires OwnNodes(s, local) && Enabled(s, local, a) && a.Background?
    ensures SameRemote(Do(s, local, a), s, local) && OwnNodes(Do(s, local, a), local)
  {
    OwnOfUnion(s.cursor.positions, a.read(Own(s.cursor.positions, local)), local);
    assert Others(s.cursor.positions, local) + map[] == Others(s.cursor.positions, local);
  }

  /** The same background round, over the same fields of its own, has the same effect on them. */
  lemma BackgroundAlike(s: System, t: System, local: set<string>, a: Action)
    requires SameBackground(s, t, local) && Enabled(s, local, a) && a.Background?
    ensures Enabled(t, local, a) && SameBackground(Do(s, local, a), Do(t, local, a), local)
  {
    OwnOfUnion(s.cursor.positions, a.read(Own(s.cursor.positions, local)), local);
    OwnOfUnion(t.cursor.positions, a.read(Own(t.cursor.positions, local)), local);
  }

  lemma RemoteAlike(s: System, t: System, local: set<string>, a: Action)
    requires SameRemote(s, t, local) && Enabled(s, local, a) && !a.Background?
    ensures Enabled(t, local, a) && SameRemote(Do(s, local, a), Do(t, local, a), local)
  {
    match a
    case RemoteRead(k, node, read) =>
      ReadAlike(s.remotes[k], t.remotes[k], local, node, read);
    case RemoteFinish(k, _, _, _, _) =>
      var r, q := s.remotes[k], t.remotes[k];
      assert SameRound(r, q, local);
      WrittenAlike(r, q, local);
      OwnOfUnion(s.cursor.positions, Own(r.work, r.done), local);
      OwnOfUnion(t.cursor.positions, Own(q.work, q.done), local);
    case RemoteBegin(_) =>
    case RemoteDrop(_) =>
    case Detach =>
    case Crash =>
  }

  lemma WrittenAlike(r: Remote, q: Remote, local: set<string>)
    requires SameRound(r, q, local)
    ensures Own(r.work, r.done) == Own(q.work, q.done)
  {
    forall node ensures node in Own(r.work, r.done) <==> node in Own(q.work, q.done) {
      assert node in Others(r.work, local) <==> node in Others(q.work, local);
    }
    forall node | node in Own(r.work, r.done) ensures Own(r.work, r.done)[node] == Own(q.work, q.done)[node] {
      assert Others(r.work, local)[node] == Others(q.work, local)[node];
    }
  }

  lemma ReadAlike(r: Remote, q: Remote, local: set<string>, node: string, read: Pos -> Pos)
    requires SameRound(r, q, local) && node !in local
    ensures At(r.work, node) == At(q.work, node)
    ensures SameRound(Remote(r.work[node := read(At(r.work, node))], r.done + {node}),
                      Remote(q.work[node := read(At(q.work, node))], q.done + {node}), local)
  {
    assert node in Others(r.work, local) <==> node in Others(q.work, local);
    assert node in r.work ==> Others(r.work, local)[node] == Others(q.work, local)[node];
    var p := read(At(r.work, node));
    assert r.work[node := p] == r.work + map[node := p] && q.work[node := p] == q.work + map[node := p];
    OwnOfUnion(r.work, map[node := p], local);
    OwnOfUnion(q.work, map[node := p], local);
  }

  // ---------- over runs ----------

  /** Over every interleaving the background collector's positions, open gaps and last round are what its own
      rounds alone would have made of them. */
  lemma {:induction false} BackgroundAlone(s: System, t: System, local: set<string>, actions: seq<Action>)
    requires Runs(s, local, actions) && OwnNodes(s, local) && SameBackground(s, t, local)
    ensures Runs(t, local, Only(actions, true))
    ensures SameBackground(Final(s, local, actions), Final(t, local, Only(actions, true)), local)
    decreases |actions|
  {
    hide Enabled, Do, SameBackground, OwnNodes;
    if actions != [] {
      var a, rest := actions[0], actions[1..];
      if a.Background? {
        BackgroundAlike(s, t, local, a);
        BackgroundLeavesRemote(s, local, a);
        BackgroundAlone(Do(s, local, a), Do(t, local, a), local, rest);
        assert Only(actions, true)[1..] == Only(rest, true);
      } else {
        RemoteLeavesBackground(s, local, a);
        SameBackgroundTrans(Do(s, local, a), s, t, local);
        BackgroundAlone(Do(s, local, a), t, local, rest);
        assert Only(actions, true) == Only(rest, true);
      }
    }
  }

  /** And the remote collectors' fields are what their own steps alone would have made of them. */
  lemma {:induction false} RemoteAlone(s: System, t: System, local: set<string>, actions: seq<Action>)
    requires Runs(s, local, actions) && OwnNodes(s, local) && SameRemote(s, t, local)
    ensures Runs(t, local, Only(actions, false))
    ensures SameRemote(Final(s, local, actions), Final(t, local, Only(actions, false)), local)
    decreases |actions|
  {
    hide Enabled, Do, SameRemote, OwnNodes;
    if actions != [] {
      var a, rest := actions[0], actions[1..];
      if a.Background? {
        BackgroundLeavesRemote(s, local, a);
        SameRemoteTrans(Do(s, local, a), s, t, local);
        RemoteAlone(Do(s, local, a), t, local, rest);
        assert Only(actions, false) == Only(rest, false);
      } else {
        RemoteAlike(s, t, local, a);
        RemoteLeavesBackground(s, local, a);
        RemoteAlone(Do(s, local, a), Do(t, local, a), local, rest);
        assert Only(actions, false)[1..] == Only(rest, false);
      }
    }
  }

  lemma SameBackgroundTrans(s: System, t: System, u: System, local: set<string>)
    requires SameBackground(s, t, local) && SameBackground(t, u, local)
    ensures SameBackground(s, u, local)
  {
  }

  lemma SameRemoteTrans(s: System, t: System, u: System, local: set<string>)
    requires SameRemote(s, t, local) && SameRemote(t, u, local)
    ensures SameRemote(s, u, local)
  {
  }
}
