/** The document store itself: the state that each commit replaces, and the loops of its operations. */
module DocumentStore {
  import opened Common
  import opened Bundle
  import opened Documents
  import opened DocumentRuns
  import Decimal

  datatype Refusal = Forbidden | Invalid | NotFound | Conflict | KindFixed | NotWritten

  // ---------- placing the documents of an import ----------

  predicate AtMostOne(docs: Shelf, base: map<string, int>, d: Input) {
    forall a, b :: a in base && b in base && Replaces(docs, a, d) && Replaces(docs, b, d) ==> a == b
  }

  predicate ReplacesNone(docs: Shelf, c: string, inputs: seq<Input>, n: nat)
    requires n <= |inputs|
  {
    forall i :: 0 <= i < n ==> !Replaces(docs, c, inputs[i])
  }

  /** Of the first n documents, none is replaced twice and none replaces what another replaces. */
  predicate OneToOne(docs: Shelf, base: map<string, int>, inputs: seq<Input>, n: nat)
    requires n <= |inputs|
  {
    && (forall i :: 0 <= i < n ==> AtMostOne(docs, base, inputs[i]))
    && forall c, i :: c in base && 0 <= i < n && Replaces(docs, c, inputs[i]) ==> ReplacesNone(docs, c, inputs, i)
  }

  /** The replacements an import names fit its documents: each is current and replaces exactly one of them,
      and no document is replaced twice. */
  predicate Fits(docs: Shelf, base: map<string, int>, inputs: seq<Input>) {
    && AllCurrent(docs, base) && OneToOne(docs, base, inputs, |inputs|)
    && forall c :: c in base ==> !ReplacesNone(docs, c, inputs, |inputs|)
  }

  ghost function ReplacersOf(docs: Shelf, base: map<string, int>, inputs: seq<Input>, n: nat): set<string>
    requires n <= |inputs|
  {
    set c | c in base && !ReplacesNone(docs, c, inputs, n)
  }

  lemma {:induction false} ReplacersFew(docs: Shelf, base: map<string, int>, inputs: seq<Input>, n: nat)
    requires n <= |inputs| && OneToOne(docs, base, inputs, n)
    ensures |ReplacersOf(docs, base, inputs, n)| <= n
  {
    hide Replaces, ReplacesNone, AtMostOne, ReplacersOf;
    if n == 0 {
      NoReplacers(docs, base, inputs);
    } else {
      ReplacersFew(docs, base, inputs, n - 1);
      if c :| c in base && Replaces(docs, c, inputs[n - 1]) {
        ReplacersNext(docs, base, inputs, n - 1, Some(c));
      } else {
        ReplacersNext(docs, base, inputs, n - 1, None);
      }
    }
  }

  lemma NoReplacers(docs: Shelf, base: map<string, int>, inputs: seq<Input>)
    ensures ReplacersOf(docs, base, inputs, 0) == {} && OneToOne(docs, base, inputs, 0)
  {
  }

  /** No more replacements than documents can fit. */
  lemma FitsFew(docs: Shelf, base: map<string, int>, inputs: seq<Input>)
    requires Fits(docs, base, inputs)
    ensures |base| <= |inputs|
  {
    ReplacersFew(docs, base, inputs, |inputs|);
    assert ReplacersOf(docs, base, inputs, |inputs|) == base.Keys;
    assert |base.Keys| == |base|;
  }

  /** The inner loop of CommitImport, over the candidates in any order. */
  method FindPlace(docs: Shelf, base: map<string, int>, d: Input, used: set<string>)
    returns (ok: bool, place: Option<string>)
    requires HistoriesOk(docs)
    ensures ok <==>
              AllCurrent(docs, base) && AtMostOne(docs, base, d) &&
                  forall c :: c in base && Replaces(docs, c, d) ==> c !in used
    ensures ok ==> match place { case Some(c) => c in base && Replaces(docs, c, d)
                                 case None => forall c :: c in base ==> !Replaces(docs, c, d) }
  {
    hide Replaces, HistoriesOk;
    var todo := base.Keys;
    place := None;
    while todo != {}
      invariant todo <= base.Keys
      invariant forall c :: c in base && c !in todo ==> Current(docs, c, base[c])
      invariant place.Some? ==>
                  place.value in base && place.value !in todo && Replaces(docs, place.value, d) && place.value !in used
      invariant forall c :: c in base && c !in todo && Replaces(docs, c, d) ==> place == Some(c)
      decreases |todo|
    {
      var c :| c in todo;
      todo := todo - {c};
      var h := HistoryOf(docs, c);
      if h == [] || Last(h).revision != base[c] {
        assert !Current(docs, c, base[c]);
        return false, None;
      }
      if Replaces(docs, c, d) {
        if place.Some? || c in used {
          return false, None;
        }
        place := Some(c);
      }
    }
    ok := true;
  }

  ghost predicate FreshIds(ids: nat -> string, docs: Shelf) {
    && (forall i :: ids(i) != "" && ids(i) !in docs)
    && forall i, j :: i < j ==> ids(i) != ids(j)
  }

  /** Each document so far is placed: over a replacement in use, or under its own fresh id. */
  ghost predicate PlacedSoFar(docs: Shelf, base: map<string, int>, inputs: seq<Input>, ids: nat -> string,
                              author: string, used: set<string>, ds: seq<Document>) {
    && |ds| <= |inputs| && DistinctIds(ds)
    && forall i :: 0 <= i < |ds| ==> PlacedAt(docs, base, inputs, ids, author, used, ds, i)
  }

  ghost predicate PlacedAt(docs: Shelf, base: map<string, int>, inputs: seq<Input>, ids: nat -> string, author: string,
                           used: set<string>, ds: seq<Document>, i: nat)
    requires i < |ds| <= |inputs|
  {
    && ds[i].input == inputs[i] && ds[i].author == author && Placed(docs, base, inputs[i], ds[i].id, ds[i].revision)
    && (ds[i].id in used || ds[i].id == ids(i))
  }

  lemma PlaceNext(docs: Shelf, base: map<string, int>, inputs: seq<Input>, ids: nat -> string, author: string,
                  used: set<string>, ds: seq<Document>, place: Option<string>)
    requires HistoriesOk(docs) && FreshIds(ids, docs) && AllCurrent(docs, base) && used <= base.Keys
    requires PlacedSoFar(docs, base, inputs, ids, author, used, ds) && |ds| < |inputs|
    requires match place { case Some(c) => c in base && c !in used && Replaces(docs, c, inputs[|ds|])
                           case None => forall c :: c in base ==> !Replaces(docs, c, inputs[|ds|]) }
    ensures var d := Document(inputs[|ds|], place.UnwrapOr(ids(|ds|)), if place.Some? then base[place.value] + 1 else 1,
                              author);
            PlacedSoFar(docs, base, inputs, ids, author, if place.Some? then used + {place.value} else used, ds + [d])
  {
    hide Replaces, HistoriesOk, AllCurrent;
    var n := |ds|;
    var d := Document(inputs[n], place.UnwrapOr(ids(n)), if place.Some? then base[place.value] + 1 else 1, author);
    var used' := if place.Some? then used + {place.value} else used;
    assert forall c :: c in base ==> c in docs by {
      CurrentStored(docs, base);
    }
    forall i | 0 <= i < n ensures ds[i].id != d.id && PlacedAt(docs, base, inputs, ids, author, used', ds + [d], i) {
      assert PlacedAt(docs, base, inputs, ids, author, used, ds, i);
      assert ids(i) != ids(n) && ids(i) !in docs && ids(n) !in docs;
    }
    assert PlacedAt(docs, base, inputs, ids, author, used', ds + [d], n);
  }

  lemma CurrentStored(docs: Shelf, base: map<string, int>)
    requires AllCurrent(docs, base)
    ensures forall c :: c in base ==> c in docs
  {
    assert forall c :: c in base ==> Current(docs, c, base[c]);
  }

  predicate AllAdmissible(rules: Rules, inputs: seq<Input>) {
    forall i :: 0 <= i < |inputs| ==> Admissible(rules, inputs[i])
  }

  /** The document loop of CommitImport: it succeeds exactly when the replacements fit, whatever order the
      candidates are tried in. */
  method PlaceAll(rules: Rules, docs: Shelf, base: map<string, int>, inputs: seq<Input>, ids: nat -> string,
                  author: string)
    returns (r: Option<seq<Document>>)
    requires HistoriesOk(docs) && FreshIds(ids, docs) && inputs != []
    ensures r.Some? <==> Fits(docs, base, inputs) && AllAdmissible(rules, inputs)
    ensures r.Some? ==> AllPlaced(docs, base, inputs, r.value) && DistinctIds(r.value) && AllCurrent(docs, base)
    ensures r.Some? ==>
              |r.value| == |inputs| &&
                  forall i :: 0 <= i < |inputs| ==> r.value[i].input == inputs[i] && r.value[i].author == author
  {
    hide Replaces, HistoriesOk, FreshIds, Placed, Admissible, DistinctIds, Fits, ReplacersOf, OneToOne, PlacedSoFar,
         AllCurrent, AtMostOne;
    if |base| > |inputs| {
      if Fits(docs, base, inputs) {
        FitsFew(docs, base, inputs);
      }
      return None;
    }
    var used: set<string> := {};
    var ds: seq<Document> := [];
    NonePlaced(docs, base, inputs, ids, author);
    NoReplacers(docs, base, inputs);
    for i := 0 to |inputs|
      invariant used == ReplacersOf(docs, base, inputs, i) && OneToOne(docs, base, inputs, i)
      invariant |ds| == i && PlacedSoFar(docs, base, inputs, ids, author, used, ds)
      invariant i > 0 ==> AllCurrent(docs, base)
      invariant forall k :: 0 <= k < i ==> Admissible(rules, inputs[k])
    {
      var d := inputs[i];
      if !Admissible(rules, d) {
        return None;
      }
      var ok, place := FindPlace(docs, base, d, used);
      OneToOneStep(docs, base, inputs, i);
      if !ok {
        return None;
      }
      UsedInBase(docs, base, inputs, i);
      PlaceNext(docs, base, inputs, ids, author, used, ds, place);
      ReplacersNext(docs, base, inputs, i, place);
      match place {
        case Some(c) =>
          ds := ds + [Document(d, c, base[c] + 1, author)];
          used := used + {c};
        case None =>
          ds := ds + [Document(d, ids(i), 1, author)];
      }
    }
    FitsByCount(docs, base, inputs);
    if |used| != |base| {
      return None;
    }
    PlacedResult(docs, base, inputs, ids, author, used, ds);
    r := Some(ds);
  }

  lemma NonePlaced(docs: Shelf, base: map<string, int>, inputs: seq<Input>, ids: nat -> string, author: string)
    ensures PlacedSoFar(docs, base, inputs, ids, author, {}, [])
  {
  }

  lemma PlacedResult(docs: Shelf, base: map<string, int>, inputs: seq<Input>, ids: nat -> string, author: string,
                     used: set<string>, ds: seq<Document>)
    requires PlacedSoFar(docs, base, inputs, ids, author, used, ds) && |ds| == |inputs|
    ensures AllPlaced(docs, base, inputs, ds) && DistinctIds(ds)
    ensures forall i :: 0 <= i < |inputs| ==> ds[i].input == inputs[i] && ds[i].author == author
  {
    forall i | 0 <= i < |inputs|
      ensures ds[i].input == inputs[i] && ds[i].author == author &&
              Placed(docs, base, inputs[i], ds[i].id, ds[i].revision)
    {
      assert PlacedAt(docs, base, inputs, ids, author, used, ds, i);
    }
  }

  lemma UsedInBase(docs: Shelf, base: map<string, int>, inputs: seq<Input>, i: nat)
    requires i <= |inputs|
    ensures ReplacersOf(docs, base, inputs, i) <= base.Keys
  {
  }

  /** One more document keeps the pairing exactly when the search for its place finds no conflict. */
  lemma OneToOneStep(docs: Shelf, base: map<string, int>, inputs: seq<Input>, i: nat)
    requires i < |inputs| && OneToOne(docs, base, inputs, i)
    ensures OneToOne(docs, base, inputs, i + 1) <==>
              AtMostOne(docs, base, inputs[i]) &&
                  forall c :: c in base && Replaces(docs, c, inputs[i]) ==> c !in ReplacersOf(docs, base, inputs, i)
    ensures Fits(docs, base, inputs) ==> AllCurrent(docs, base) && OneToOne(docs, base, inputs, i + 1)
  {
    hide Replaces, AtMostOne, ReplacesNone, AllCurrent;
  }

  lemma ReplacersNext(docs: Shelf, base: map<string, int>, inputs: seq<Input>, i: nat, place: Option<string>)
    requires i < |inputs| && AtMostOne(docs, base, inputs[i])
    requires match place { case Some(c) => c in base && Replaces(docs, c, inputs[i])
                           case None => forall c :: c in base ==> !Replaces(docs, c, inputs[i]) }
    ensures ReplacersOf(docs, base, inputs, i + 1) ==
            ReplacersOf(docs, base, inputs, i) + if place.Some? then {place.value} else {}
  {
    hide Replaces;
    assert forall c :: ReplacesNone(docs, c, inputs, i + 1) <==>
          ReplacesNone(docs, c, inputs, i) && !Replaces(docs, c, inputs[i]);
  }

  lemma FitsByCount(docs: Shelf, base: map<string, int>, inputs: seq<Input>)
    requires AllCurrent(docs, base) && OneToOne(docs, base, inputs, |inputs|)
    ensures Fits(docs, base, inputs) <==> |ReplacersOf(docs, base, inputs, |inputs|)| == |base|
  {
    hide Replaces, AllCurrent, OneToOne, ReplacesNone;
    var used := ReplacersOf(docs, base, inputs, |inputs|);
    assert |base.Keys| == |base|;
    assert base.Keys == used + (base.Keys - used);
    assert Fits(docs, base, inputs) <==> used == base.Keys;
  }

  // ---------- resolving its positional references ----------

  /** Documents at the same positions, of the same kind and content: all that a position depends on. */
  predicate Alike(inputs: seq<Input>, ds: seq<Document>) {
    |ds| == |inputs| &&
        forall i :: 0 <= i < |ds| ==> ds[i].input.kind == inputs[i].kind && ds[i].input.content == inputs[i].content
  }

  /** The reference loop of resolveBundlePresetRefs. */
  method ResolveRefs(rules: Rules, ghost inputs: seq<Input>, ds: seq<Document>, refs: seq<Ref>)
    returns (r: Option<seq<Ref>>, presets: map<string, string>)
    requires Alike(inputs, ds)
    ensures r.Some? <==> AllPointed(rules, inputs, refs)
    ensures r.Some? ==>
              r.value == ResolvedRefs(rules, inputs, ds, refs) && presets == PointedPresets(rules, inputs, refs)
  {
    hide AllPointed, ResolvedRefs, PointedPresets;
    var out: seq<Ref> := [];
    presets := map[];
    NothingResolved(rules, inputs, ds, map[]);
    NoPointed(rules, inputs);
    for k := 0 to |refs|
      invariant AllPointed(rules, inputs, refs[..k])
      invariant out == ResolvedRefs(rules, inputs, ds, refs[..k]) && presets == PointedPresets(rules, inputs, refs[..k])
    {
      var ref := refs[k];
      PointedFails(rules, inputs, refs, k);
      if !(PREFIX <= ref.id) {
        return None, presets;
      }
      var n := Decimal.ParseInt(ref.id[|PREFIX|..]);
      if n.None? || n.value < 0 || n.value >= |ds| || ds[n.value].input.kind != PRESET {
        return None, presets;
      }
      var p := ds[n.value];
      if rules.declaredId(p.input.content) == "" {
        return None, presets;
      }
      assert refs[..k + 1] == refs[..k] + [ref];
      PointedMore(rules, inputs, refs[..k], ref);
      PointedStep(rules, inputs, ds, refs[..k], ref);
      presets := presets[rules.declaredId(p.input.content) := p.input.content];
      out := out + [Ref(p.id, p.revision)];
    }
    assert refs[..|refs|] == refs;
    r := Some(out);
  }

  lemma PointedFails(rules: Rules, inputs: seq<Input>, refs: seq<Ref>, k: nat)
    requires k < |refs|
    ensures PresetAt(rules, inputs, refs[k]).None? ==> !AllPointed(rules, inputs, refs)
  {
  }

  lemma PointedMore(rules: Rules, inputs: seq<Input>, rest: seq<Ref>, ref: Ref)
    requires AllPointed(rules, inputs, rest) && PresetAt(rules, inputs, ref).Some?
    ensures AllPointed(rules, inputs, rest + [ref])
  {
  }

  /** The documents before i carry resolved references, the others still their positions. */
  predicate ResolvedUpTo(rules: Rules, inputs: seq<Input>, placed: seq<Document>, ds: seq<Document>, i: nat) {
    && |placed| == |inputs| == |ds|
    && forall k :: 0 <= k < |ds| ==>
         (ds[k].id == placed[k].id && ds[k].revision == placed[k].revision && ds[k].author == placed[k].author &&
          if k < i then ResolvedInput(rules, inputs, ds, k) else ds[k].input == inputs[k])
  }

  lemma ResolvedAlike(rules: Rules, inputs: seq<Input>, placed: seq<Document>, ds: seq<Document>, i: nat)
    requires ResolvedUpTo(rules, inputs, placed, ds, i)
    ensures Alike(inputs, ds)
  {
    hide ResolvedRefs, AllPointed;
  }

  lemma RefsBySlots(rules: Rules, inputs: seq<Input>, a: seq<Document>, b: seq<Document>, refs: seq<Ref>)
    requires |a| == |b| == |inputs| && AllPointed(rules, inputs, refs)
    requires forall k :: 0 <= k < |a| ==> a[k].id == b[k].id && a[k].revision == b[k].revision
    ensures ResolvedRefs(rules, inputs, a, refs) == ResolvedRefs(rules, inputs, b, refs)
  {
  }

  lemma ResolvedNext(rules: Rules, inputs: seq<Input>, placed: seq<Document>, ds: seq<Document>, i: nat,
                     ds': seq<Document>)
    requires ResolvedUpTo(rules, inputs, placed, ds, i) && i < |ds| && AllPointed(rules, inputs, inputs[i].presetRefs)
    requires ds' ==
             ds[i := ds[i].(input := inputs[i].(presetRefs := ResolvedRefs(rules, inputs, ds, inputs[i].presetRefs)))]
    ensures ResolvedUpTo(rules, inputs, placed, ds', i + 1)
  {
    hide ResolvedRefs, AllPointed;
    forall k | 0 <= k < i + 1 ensures ResolvedInput(rules, inputs, ds', k) {
      assert k < i ==> ResolvedInput(rules, inputs, ds, k);
      RefsBySlots(rules, inputs, ds, ds', inputs[k].presetRefs);
    }
  }

  /** The resolving loop of CommitImport: it rewrites each document's references in place, and succeeds exactly
      when every document still satisfies the contract against the presets its positions name. */
  method ResolveAll(rules: Rules, inputs: seq<Input>, placed: seq<Document>) returns (r: Option<seq<Document>>)
    requires |placed| == |inputs| && forall i :: 0 <= i < |placed| ==> placed[i].input == inputs[i]
    ensures r.Some? <==> forall i :: 0 <= i < |inputs| ==> Resolvable(rules, inputs, i)
    ensures r.Some? ==> ResolvedUpTo(rules, inputs, placed, r.value, |inputs|)
  {
    hide ResolvedRefs, AllPointed, PointedPresets;
    var ds := placed;
    for i := 0 to |ds|
      invariant ResolvedUpTo(rules, inputs, placed, ds, i)
      invariant forall k :: 0 <= k < i ==> Resolvable(rules, inputs, k)
    {
      ResolvedAlike(rules, inputs, placed, ds, i);
      NothingResolved(rules, inputs, ds, map[]);
      if ds[i].input.presetRefs == [] {
        ResolvedNext(rules, inputs, placed, ds, i, ds);
      } else {
        var refs, presets := ResolveRefs(rules, inputs, ds, ds[i].input.presetRefs);
        if refs.None? {
          assert !Resolvable(rules, inputs, i);
          return None;
        }
        EmptyResolved(rules, inputs, ds, inputs[i].presetRefs);
        var d := ds[i].(input := ds[i].input.(presetRefs := refs.value));
        if !Judge(rules, d.input, presets) {
          assert !Resolvable(rules, inputs, i);
          return None;
        }
        assert Resolvable(rules, inputs, i);
        ResolvedNext(rules, inputs, placed, ds, i, ds[i := d]);
        ds := ds[i := d];
      }
    }
    r := Some(ds);
  }

  lemma ResolvedIsPlanned(rules: Rules, docs: Shelf, base: map<string, int>, inputs: seq<Input>, placed: seq<Document>,
                          ds: seq<Document>)
    requires AllPlaced(docs, base, inputs, placed) && DistinctIds(placed) && AllCurrent(docs, base) &&
             StillValid(rules, inputs)
    requires ResolvedUpTo(rules, inputs, placed, ds, |inputs|)
    ensures Planned(rules, docs, base, inputs, ds)
  {
    hide Placed, ResolvedInput, AllCurrent, StillValid;
    forall i | 0 <= i < |ds| ensures Placed(docs, base, inputs[i], ds[i].id, ds[i].revision) {
      assert Placed(docs, base, inputs[i], placed[i].id, placed[i].revision);
    }
  }

  // ---------- the store ----------

  /** The revision is the history's last, and the kind the one it started with. */
  predicate IsCurrent(h: seq<Document>, revision: int, kind: string) {
    h != [] && revision == |h| && h[0].input.kind == kind
  }

  class DeploymentStore {
    var state: State

    constructor ()
      ensures state == State(map[], map[], map[])
    {
      state := State(map[], map[], map[]);
    }

    /** SaveDocument after its validation, which ran before the lock was taken, at an earlier shelf. */
    method SaveDocument(rules: Rules, canEdit: bool, author: string, id: string, revision: int, input: Input,
                        ghost judged: Shelf, accepted: bool, newId: string, written: bool)
      returns (r: Result<Document, Refusal>)
      requires StoreOk(rules, state) && Extends(judged, state.documents) && accepted == Accepts(rules, judged, input)
      requires newId != "" && newId !in state.documents
      modifies this
      ensures StoreOk(rules, state) && Extends(old(state.documents), state.documents)
      ensures var t := if id == "" then New(newId) else Existing(id, revision);
              && (r.Ok? <==> canEdit && accepted && MaySave(old(state.documents), t, input) && written)
              && (r.Ok? ==> r.value == Document(input, t.id, Base(t) + 1, author) &&
                            state == Step(old(state), SaveDocumentStep(t, input, author)))
      ensures r.Ok? <==>
                canEdit && accepted && written &&
                (id == "" || (id in old(state.documents) && IsCurrent(old(state.documents)[id], revision, input.kind)))
      ensures r.Ok? ==>
                (var at := if id == "" then newId else id;
                 var h := if id == "" then [] else old(state.documents)[id];
                 state == old(state).(documents :=
                   old(state.documents)[at := h + [Document(input, at, |h| + 1, author)]]))
      ensures r.Err? ==> state == old(state)
      ensures r == Err(Conflict) ==>
                id in old(state.documents) &&
                    old(state.documents)[id][|old(state.documents)[id]| - 1].revision != revision
    {
      hide Accepts, AllJudged, WorkspacesOk;
      ExtendsSelf(state.documents);
      if !canEdit {
        return Err(Forbidden);
      }
      if !accepted {
        return Err(Invalid);
      }
      var target := New(newId);
      if id != "" {
        var h := HistoryOf(state.documents, id);
        if h == [] {
          return Err(NotFound);
        }
        if h[|h| - 1].revision != revision {
          return Err(Conflict);
        }
        if h[0].input.kind != input.kind {
          return Err(KindFixed);
        }
        target := Existing(id, revision);
      }
      var d := Document(input, target.id, Base(target) + 1, author);
      if !written {
        return Err(NotWritten);
      }
      SaveKeeps(rules, state, judged, target, input, author);
      state := state.(documents := state.documents[d.id := HistoryOf(state.documents, d.id) + [d]]);
      AppendOne(old(state.documents), d);
      r := Ok(d);
    }

    /** workspaceDocuments: one server set and one workspace config, each a revision that exists. */
    method WorkspaceDocuments(name: string, pins: seq<Ref>) returns (ok: bool)
      ensures forall id, revision :: revision >= 1 ==>
                (ok <==> WorkspaceOk(state.documents, Workspace(name, pins, id, revision)))
    {
      if name == "" || |pins| != 2 {
        return false;
      }
      var servers, config := false, false;
      for i := 0 to |pins|
        invariant forall k :: 0 <= k < i ==> Pin(state.documents, pins[k]).Some?
        invariant servers <==> exists k :: 0 <= k < i && PinsKind(state.documents, pins[k], SERVERS)
        invariant config <==> exists k :: 0 <= k < i && PinsKind(state.documents, pins[k], CONFIG)
        invariant i == 2 ==>
                    !(PinsKind(state.documents, pins[0], SERVERS) && PinsKind(state.documents, pins[1], SERVERS))
        invariant i == 2 ==> !(PinsKind(state.documents, pins[0], CONFIG) && PinsKind(state.documents, pins[1], CONFIG))
      {
        var h := HistoryOf(state.documents, pins[i].id);
        if pins[i].revision < 1 || pins[i].revision > |h| {
          assert Pin(state.documents, pins[i]).None?;
          return false;
        }
        var d := h[pins[i].revision - 1];
        assert Pin(state.documents, pins[i]) == Some(d);
        if d.input.kind == SERVERS {
          if servers {
            return false;
          }
          servers := true;
        } else if d.input.kind == CONFIG {
          if config {
            return false;
          }
          config := true;
        }
      }
      ok := servers && config;
    }

    method SaveWorkspace(rules: Rules, canEdit: bool, id: string, revision: int, name: string, pins: seq<Ref>,
                         newId: string, written: bool)
      returns (r: Result<Workspace, Refusal>)
      requires StoreOk(rules, state) && newId !in state.workspaces
      modifies this
      ensures StoreOk(rules, state) && state.documents == old(state.documents)
      ensures var t := if id == "" then New(newId) else Existing(id, revision);
              && (r.Ok? <==>
                 canEdit && MayPin(old(state), t) && WorkspaceOk(state.documents, Workspace(name, pins, t.id, 1)) &&
                     written)
              && (r.Ok? ==> r.value == Workspace(name, pins, t.id, Base(t) + 1) &&
                            state == old(state).(workspaces := old(state).workspaces[t.id := r.value]))
      ensures r.Ok? <==>
                canEdit && written && WorkspaceOk(state.documents, Workspace(name, pins, "", 1)) &&
                (id == "" || (id in old(state.workspaces) && old(state.workspaces)[id].revision == revision))
      ensures r.Ok? ==> r.value.revision == if id == "" then 1 else revision + 1
      ensures r.Err? ==> state == old(state)
    {
      hide AllJudged, HistoriesOk, WorkspaceOk;
      WorkspaceAnyId(state.documents, name, pins);
      if !canEdit {
        return Err(Forbidden);
      }
      var ok := WorkspaceDocuments(name, pins);
      if !ok {
        return Err(Invalid);
      }
      var target := New(newId);
      if id != "" {
        if id !in state.workspaces {
          return Err(NotFound);
        }
        if state.workspaces[id].revision != revision {
          return Err(Conflict);
        }
        target := Existing(id, revision);
        WorkspaceRevision(state.documents, state.workspaces[id]);
      }
      if !written {
        return Err(NotWritten);
      }
      var w := Workspace(name, pins, target.id, Base(target) + 1);
      state := state.(workspaces := state.workspaces[target.id := w]);
      r := Ok(w);
    }

    /** PreviewImport: the preview is kept, valid or not, and expired ones are dropped. */
    method PreviewImport(rules: Rules, canEdit: bool, actor: string, previewId: string, items: seq<Item>, bundle: bool,
                         expired: set<string>, written: bool)
      returns (r: Result<Import, Refusal>)
      requires StoreOk(rules, state) && (!bundle ==> |items| == 1)
      modifies this
      ensures StoreOk(rules, state) && state.documents == old(state.documents) &&
              state.workspaces == old(state.workspaces)
      ensures r.Ok? <==> canEdit && written
      ensures r.Ok? ==> state.imports == (old(state.imports) - expired)[previewId := r.value]
      ensures r.Ok? ==> r.value.owner == actor && !r.value.committed
      ensures r.Ok? && r.value.valid ==> IsPreview(rules, items, bundle, r.value.inputs)
      ensures r.Ok? && !r.value.valid ==>
                r.value.inputs == [] &&
                    (items == [] || exists i :: 0 <= i < |items| && !Taken(rules, items, bundle, i))
      ensures r.Err? ==> state == old(state)
    {
      hide AllJudged, HistoriesOk, WorkspaceOk, IsPreview, Imports, Taken;
      if !canEdit {
        return Err(Forbidden);
      }
      var docs, valid := PreviewDocuments(rules, items, bundle);
      if !written {
        return Err(NotWritten);
      }
      var entry := Import(actor, docs, valid, false);
      state := state.(imports := (state.imports - expired)[previewId := entry]);
      r := Ok(entry);
    }

    /** CommitImport: everything previewed is saved in one commit, or nothing is. */
    method CommitImport(rules: Rules, canEdit: bool, actor: string, previewId: string, base: map<string, int>,
                        ids: nat -> string, expired: bool, written: bool)
      returns (r: Result<seq<Document>, Refusal>)
      requires StoreOk(rules, state) && FreshIds(ids, state.documents)
      modifies this
      ensures StoreOk(rules, state) && Extends(old(state.documents), state.documents)
      ensures r.Err? ==> state == old(state)
      ensures r.Ok? <==>
              (canEdit && !expired && written && previewId in old(state.imports) &&
               old(state.imports)[previewId].owner == actor && old(state.imports)[previewId].valid &&
               !old(state.imports)[previewId].committed && old(state.imports)[previewId].inputs != [] &&
               StillValid(rules, old(state).imports[previewId].inputs) &&
               Fits(old(state).documents, base, old(state).imports[previewId].inputs))
      ensures r.Ok? ==>
              (MayImport(rules, old(state), previewId, base, r.value) &&
               state == Step(old(state), Action.CommitImport(previewId, base, r.value)))
    {
      hide AllJudged, WorkspacesOk, HistoriesOk, FreshIds, Fits, Planned, Placed, Admissible, Resolvable, AllCurrent,
           AllPlaced, DistinctIds, ResolvedUpTo;
      ExtendsSelf(state.documents);
      if !canEdit {
        return Err(Forbidden);
      }
      if previewId !in state.imports || state.imports[previewId].owner != actor {
        return Err(NotFound);
      }
      var entry := state.imports[previewId];
      if entry.committed || expired {
        return Err(Conflict);
      }
      if !entry.valid || entry.inputs == [] {
        return Err(Invalid);
      }
      var placed := PlaceAll(rules, state.documents, base, entry.inputs, ids, actor);
      if placed.None? {
        return Err(Conflict);
      }
      var resolved := ResolveAll(rules, entry.inputs, placed.value);
      if resolved.None? {
        return Err(Invalid);
      }
      ResolvedIsPlanned(rules, state.documents, base, entry.inputs, placed.value, resolved.value);
      if !written {
        return Err(NotWritten);
      }
      ImportKeeps(rules, state, previewId, base, resolved.value);
      var documents := state.documents;
      for i := 0 to |resolved.value|
        invariant documents == Append(state.documents, resolved.value[..i])
      {
        assert resolved.value[..i + 1][..i] == resolved.value[..i];
        var d := resolved.value[i];
        documents := documents[d.id := HistoryOf(documents, d.id) + [d]];
      }
      assert resolved.value[..|resolved.value|] == resolved.value;
      state := State(documents, state.workspaces, state.imports[previewId := entry.(committed := true)]);
      r := Ok(resolved.value);
    }
  }

  function SaveDocumentStep(t: Target, input: Input, author: string): Action { SaveDocument(t, input, author, 0) }

  predicate SameName(a: Input, b: Input) { a.kind == b.kind && a.name == b.name }

  /** A valid bundle preview commits whenever its replacements are current, have different names, and each is
      named by a document of the bundle; so with none it always does. */
  lemma PreviewFits(rules: Rules, docs: Shelf, base: map<string, int>, items: seq<Item>, inputs: seq<Input>)
    requires IsPreview(rules, items, true, inputs) && |inputs| <= Decimal.MAX_INT64
    ensures StillValid(rules, inputs)
    ensures Fits(docs, base, inputs) <==>
            (AllCurrent(docs, base) &&
             (forall c :: c in base ==> !ReplacesNone(docs, c, inputs, |inputs|)) &&
             forall i :: 0 <= i < |inputs| ==> AtMostOne(docs, base, inputs[i]))
  {
    hide IsPreview, StillValid, AllCurrent, Replaces;
    PreviewStillValid(rules, items, true, inputs);
    forall c, i | c in base && 0 <= i < |inputs| && Replaces(docs, c, inputs[i])
      ensures ReplacesNone(docs, c, inputs, i) {
      forall k | 0 <= k < i ensures !Replaces(docs, c, inputs[k]) {
        PreviewNamesDistinct(rules, items, inputs, k, i);
        OneName(docs, c, inputs[k], inputs[i]);
      }
    }
  }

  /** The latest revision of a stored document has this kind and name. */
  predicate LatestIs(docs: Shelf, id: string, d: Input) {
    id in docs && docs[id] != [] &&
        var last := docs[id][|docs[id]| - 1].input; last.kind == d.kind && last.name == d.name
  }

  /** Where an import puts its documents: a named replacement takes the one document of its latest kind and name, as
      the next revision; a document that no replacement matches is the first revision of a new id. */
  lemma ImportPlaces(rules: Rules, docs: Shelf, base: map<string, int>, inputs: seq<Input>, ds: seq<Document>, i: nat)
    requires HistoriesOk(docs) && Planned(rules, docs, base, inputs, ds) && Fits(docs, base, inputs) && i < |ds|
    ensures |inputs| == |ds| && forall c :: c in base ==> c in docs && base[c] == |docs[c]|
    ensures forall c :: c in base ==> (ds[i].id == c <==> LatestIs(docs, c, inputs[i]))
    ensures ds[i].id in base ==> ds[i].revision == base[ds[i].id] + 1
    ensures ds[i].id !in base ==>
              ds[i].id !in docs && ds[i].revision == 1 && forall c :: c in base ==> !LatestIs(docs, c, inputs[i])
  {
    hide StillValid, ResolvedInput, DistinctIds;
    forall c | c in base ensures c in docs && base[c] == |docs[c]| && (Replaces(docs, c, inputs[i]) <==>
        LatestIs(docs, c, inputs[i])) {
      assert Current(docs, c, base[c]);
      assert HistoryOk(c, docs[c]);
    }
    assert Placed(docs, base, inputs[i], ds[i].id, ds[i].revision);
    assert AtMostOne(docs, base, inputs[i]);
  }

  lemma OneName(docs: Shelf, c: string, a: Input, b: Input)
    requires Replaces(docs, c, b) && !SameName(a, b)
    ensures !Replaces(docs, c, a)
  {
  }

  lemma AppendOne(docs: Shelf, d: Document)
    ensures Append(docs, [d]) == docs[d.id := HistoryOf(docs, d.id) + [d]]
  {
    assert [d][..0] == [];
  }

  lemma WorkspaceAnyId(docs: Shelf, name: string, pins: seq<Ref>)
    ensures forall id, revision :: revision >= 1 ==>
              (WorkspaceOk(docs, Workspace(name, pins, id, revision)) <==>
               WorkspaceOk(docs, Workspace(name, pins, "", 1)))
  {
  }

  lemma WorkspaceRevision(docs: Shelf, w: Workspace)
    ensures WorkspaceOk(docs, w) ==> w.revision >= 1
  {
  }
}
