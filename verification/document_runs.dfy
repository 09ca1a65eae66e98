/** What each commit of the document store does, and what every run of saves, previews and imports keeps. */
module DocumentRuns {
  import opened Common
  import opened Bundle
  import opened Documents

  // ---------- appending revisions ----------

  function Append(docs: Shelf, ds: seq<Document>): Shelf {
    if ds == [] then docs
    else
      var before := Append(docs, ds[..|ds| - 1]);
      var d := ds[|ds| - 1];
      before[d.id := HistoryOf(before, d.id) + [d]]
  }

  predicate DistinctIds(ds: seq<Document>) { forall i, j :: 0 <= i < j < |ds| ==> ds[i].id != ds[j].id }

  /** The next revision of its document, of the document's kind. */
  predicate NextOf(docs: Shelf, d: Document) {
    var h := HistoryOf(docs, d.id);
    d.id != "" && d.revision == |h| + 1 && (h != [] ==> d.input.kind == h[0].input.kind)
  }

  function Added(ds: seq<Document>, id: string): seq<Document> {
    if ds == [] then []
    else Added(ds[..|ds| - 1], id) + if ds[|ds| - 1].id == id then [ds[|ds| - 1]] else []
  }

  lemma {:induction false} AppendAt(docs: Shelf, ds: seq<Document>, id: string)
    ensures HistoryOf(Append(docs, ds), id) == HistoryOf(docs, id) + Added(ds, id)
    ensures id in Append(docs, ds) <==> id in docs || Added(ds, id) != []
  {
    if ds != [] {
      AppendAt(docs, ds[..|ds| - 1], id);
    }
  }

  /** Of distinct ids at most one is added to each history. */
  lemma {:induction false} AddedMeaning(ds: seq<Document>, id: string)
    requires DistinctIds(ds)
    ensures Added(ds, id) == [] || exists i :: 0 <= i < |ds| && ds[i].id == id && Added(ds, id) == [ds[i]]
    ensures Added(ds, id) == [] ==> forall i :: 0 <= i < |ds| ==> ds[i].id != id
  {
    if ds != [] {
      var n := |ds| - 1;
      var rest := ds[..n];
      assert forall i :: 0 <= i < n ==> rest[i] == ds[i];
      AddedMeaning(rest, id);
      if Added(rest, id) != [] {
        var i :| 0 <= i < n && rest[i].id == id && Added(rest, id) == [rest[i]];
        assert ds[i].id == id && ds[n].id != id;
        assert Added(ds, id) == [ds[i]];
      } else if ds[n].id == id {
        assert Added(ds, id) == [ds[n]];
      }
    }
  }

  lemma AddedOne(ds: seq<Document>, i: nat)
    requires DistinctIds(ds) && i < |ds|
    ensures Added(ds, ds[i].id) == [ds[i]]
  {
    AddedMeaning(ds, ds[i].id);
  }

  predicate AllNext(docs: Shelf, ds: seq<Document>) {
    DistinctIds(ds) && forall i :: 0 <= i < |ds| ==> NextOf(docs, ds[i])
  }

  lemma AppendKeepsHistory(docs: Shelf, ds: seq<Document>, id: string)
    requires AllNext(docs, ds) && (id in docs ==> HistoryOk(id, docs[id])) && id in Append(docs, ds)
    ensures HistoryOk(id, Append(docs, ds)[id]) && (id in docs ==> docs[id] <= Append(docs, ds)[id])
  {
    hide Append, Added;
    AppendAt(docs, ds, id);
    AddedMeaning(ds, id);
    if Added(ds, id) != [] {
      var i :| 0 <= i < |ds| && ds[i].id == id && Added(ds, id) == [ds[i]];
      assert NextOf(docs, ds[i]);
    }
  }

  lemma AppendPins(docs: Shelf, ds: seq<Document>, i: nat)
    requires AllNext(docs, ds) && i < |ds|
    ensures Pin(Append(docs, ds), Ref(ds[i].id, ds[i].revision)) == Some(ds[i])
  {
    hide Append, Added, DistinctIds;
    AppendAt(docs, ds, ds[i].id);
    AddedOne(ds, i);
    assert NextOf(docs, ds[i]);
  }

  lemma AppendKeepsHistories(docs: Shelf, ds: seq<Document>)
    requires HistoriesOk(docs) && AllNext(docs, ds)
    ensures HistoriesOk(Append(docs, ds)) && Extends(docs, Append(docs, ds))
  {
    hide Append, Added, HistoryOk, AllNext;
    forall id | id in Append(docs, ds) ensures HistoryOk(id, Append(docs, ds)[id]) {
      AppendKeepsHistory(docs, ds, id);
    }
    forall id | id in docs ensures id in Append(docs, ds) && docs[id] <= Append(docs, ds)[id] {
      AppendAt(docs, ds, id);
      AppendKeepsHistory(docs, ds, id);
    }
  }

  lemma AppendedAreOldOrNew(rules: Rules, docs: Shelf, ds: seq<Document>, docs': Shelf, id: string, k: nat)
    requires DistinctIds(ds) && docs' == Append(docs, ds) && id in docs' && k < |docs'[id]|
    ensures (id in docs && k < |docs[id]| && docs'[id][k] == docs[id][k]) || docs'[id][k] in ds
  {
    hide Append, Added, DistinctIds;
    AppendAt(docs, ds, id);
    AddedMeaning(ds, id);
  }

  /** Appending judged revisions keeps the whole store in order. */
  lemma AppendKeepsStore(rules: Rules, s: State, ds: seq<Document>, s': State)
    requires StoreOk(rules, s) && AllNext(s.documents, ds)
    requires s'.documents == Append(s.documents, ds) && s'.workspaces == s.workspaces
    requires forall i :: 0 <= i < |ds| ==> Judged(rules, s'.documents, ds[i].input)
    ensures StoreOk(rules, s') && Extends(s.documents, s'.documents)
  {
    hide Append, Judged, WorkspaceOk, NextOf, HistoriesOk, Extends;
    var docs: Shelf := s.documents;
    var docs': Shelf := s'.documents;
    AppendKeepsHistories(docs, ds);
    forall id, k | id in docs' && 0 <= k < |docs'[id]| ensures Judged(rules, docs', docs'[id][k].input) {
      AppendedAreOldOrNew(rules, docs, ds, docs', id, k);
      if id in docs && k < |docs[id]| && docs'[id][k] == docs[id][k] {
        JudgedStable(rules, docs, docs', docs[id][k].input);
      }
    }
    forall id | id in s'.workspaces ensures s'.workspaces[id].id == id && WorkspaceOk(docs', s'.workspaces[id]) {
      WorkspaceStable(rules, docs, docs', s.workspaces[id]);
    }
  }

  // ---------- importing ----------

  function Last(h: seq<Document>): Document
    requires h != []
  {
    h[|h| - 1]
  }

  predicate Current(docs: Shelf, id: string, expected: int) {
    HistoryOf(docs, id) != [] && Last(HistoryOf(docs, id)).revision == expected
  }

  predicate Replaces(docs: Shelf, id: string, d: Input) {
    var h := HistoryOf(docs, id);
    h != [] && Last(h).input.kind == d.kind && Last(h).input.name == d.name
  }

  /** A document takes the place of the named replacement it matches, or a new id. */
  predicate Placed(docs: Shelf, base: map<string, int>, d: Input, id: string, revision: int) {
    || (id in base && Replaces(docs, id, d) && revision == base[id] + 1)
    || (id !in docs && id != "" && revision == 1 && forall c :: c in base ==> !Replaces(docs, c, d))
  }

  /** Positions become the ids and revisions the bundle's presets are saved under. */
  function ResolvedRefs(rules: Rules, inputs: seq<Input>, ds: seq<Document>, refs: seq<Ref>): (r: seq<Ref>)
    requires |ds| == |inputs| && AllPointed(rules, inputs, refs)
    ensures |r| == |refs|
    ensures forall k :: 0 <= k < |refs| ==>
              r[k] ==
                  Ref(ds[PresetAt(rules, inputs, refs[k]).value].id,
                      ds[PresetAt(rules, inputs, refs[k]).value].revision)
  {
    if refs == [] then []
    else
      assert forall k :: 0 <= k < |refs| - 1 ==> refs[..|refs| - 1][k] == refs[k];
      var p := ds[PresetAt(rules, inputs, refs[|refs| - 1]).value];
      ResolvedRefs(rules, inputs, ds, refs[..|refs| - 1]) + [Ref(p.id, p.revision)]
  }

  predicate ResolvedInput(rules: Rules, inputs: seq<Input>, ds: seq<Document>, i: nat)
    requires |ds| == |inputs| && i < |ds|
  {
    && AllPointed(rules, inputs, inputs[i].presetRefs)
    && ds[i].input == inputs[i].(presetRefs := ResolvedRefs(rules, inputs, ds, inputs[i].presetRefs))
  }

  predicate AllCurrent(docs: Shelf, base: map<string, int>) { forall c :: c in base ==> Current(docs, c, base[c]) }

  predicate AllPlaced(docs: Shelf, base: map<string, int>, inputs: seq<Input>, ds: seq<Document>) {
    |ds| == |inputs| && forall i :: 0 <= i < |ds| ==> Placed(docs, base, inputs[i], ds[i].id, ds[i].revision)
  }

  /** The documents an import saves. */
  predicate Planned(rules: Rules, docs: Shelf, base: map<string, int>, inputs: seq<Input>, ds: seq<Document>) {
    && AllPlaced(docs, base, inputs, ds) && DistinctIds(ds) && AllCurrent(docs, base) && StillValid(rules, inputs)
    && forall i :: 0 <= i < |ds| ==> ResolvedInput(rules, inputs, ds, i)
  }

  lemma PlannedNext(rules: Rules, docs: Shelf, base: map<string, int>, inputs: seq<Input>, ds: seq<Document>, i: nat)
    requires HistoriesOk(docs) && Planned(rules, docs, base, inputs, ds) && i < |ds|
    ensures NextOf(docs, ds[i])
  {
    assert Placed(docs, base, inputs[i], ds[i].id, ds[i].revision);
    assert ResolvedInput(rules, inputs, ds, i);
    if ds[i].id in docs {
      assert HistoryOk(ds[i].id, docs[ds[i].id]);
      assert Current(docs, ds[i].id, base[ds[i].id]);
    }
  }

  predicate SavedAlike(d: Input, saved: Document, docs': Shelf) {
    saved.input.kind == d.kind && saved.input.content == d.content &&
        Pin(docs', Ref(saved.id, saved.revision)) == Some(saved)
  }

  /** Once saved, the references of a case pin exactly the contents its positions pointed at. */
  lemma {:induction false} ResolvedPins(rules: Rules, inputs: seq<Input>, ds: seq<Document>, docs': Shelf,
                                        refs: seq<Ref>)
    requires |ds| == |inputs| && AllPointed(rules, inputs, refs)
    requires forall i :: 0 <= i < |ds| ==> SavedAlike(inputs[i], ds[i], docs')
    ensures AllPinned(rules, docs', ResolvedRefs(rules, inputs, ds, refs))
    ensures PinnedPresets(rules, docs', ResolvedRefs(rules, inputs, ds, refs)) == PointedPresets(rules, inputs, refs)
  {
    hide Pin, PresetAt, SavedAlike, PinsPreset, AllPinned, AllPointed, PinnedPresets, PointedPresets, ResolvedRefs;
    if refs == [] {
      NothingResolved(rules, inputs, ds, docs');
    } else {
      var rest, ref := refs[..|refs| - 1], refs[|refs| - 1];
      assert refs == rest + [ref];
      PointedStep(rules, inputs, ds, rest, ref);
      ResolvedPins(rules, inputs, ds, docs', rest);
      ResolvedPin(rules, inputs, ds, docs', ref);
      var p := ds[PresetAt(rules, inputs, ref).value];
      PinnedStep(rules, docs', ResolvedRefs(rules, inputs, ds, rest), Ref(p.id, p.revision));
    }
  }

  lemma NothingResolved(rules: Rules, inputs: seq<Input>, ds: seq<Document>, docs': Shelf)
    requires |ds| == |inputs|
    ensures AllPointed(rules, inputs, []) && ResolvedRefs(rules, inputs, ds, []) == [] && AllPinned(rules, docs', [])
    ensures PinnedPresets(rules, docs', []) == PointedPresets(rules, inputs, [])
  {
  }

  lemma PointedStep(rules: Rules, inputs: seq<Input>, ds: seq<Document>, rest: seq<Ref>, ref: Ref)
    requires |ds| == |inputs| && AllPointed(rules, inputs, rest + [ref])
    ensures AllPointed(rules, inputs, rest) && PresetAt(rules, inputs, ref).Some?
    ensures var j := PresetAt(rules, inputs, ref).value;
            && ResolvedRefs(rules, inputs, ds, rest + [ref]) ==
               ResolvedRefs(rules, inputs, ds, rest) + [Ref(ds[j].id, ds[j].revision)]
            && PointedPresets(rules, inputs, rest + [ref]) ==
                 PointedPresets(rules, inputs, rest)[rules.declaredId(inputs[j].content) := inputs[j].content]
  {
    hide PresetAt;
    var refs := rest + [ref];
    assert forall k :: 0 <= k < |rest| ==> refs[k] == rest[k];
    assert refs[|rest|] == ref && refs[..|refs| - 1] == rest;
  }

  lemma PinnedStep(rules: Rules, docs: Shelf, rest: seq<Ref>, ref: Ref)
    requires AllPinned(rules, docs, rest) && PinsPreset(rules, docs, ref)
    ensures AllPinned(rules, docs, rest + [ref]) && Pin(docs, ref).Some?
    ensures var p := Pin(docs, ref).value.input.content;
            PinnedPresets(rules, docs, rest + [ref]) == PinnedPresets(rules, docs, rest)[rules.declaredId(p) := p]
  {
    hide Pin;
    var refs := rest + [ref];
    assert forall k :: 0 <= k < |rest| ==> refs[k] == rest[k];
    assert refs[|rest|] == ref && refs[..|refs| - 1] == rest;
    assert AllPinned(rules, docs, refs);
  }

  lemma ResolvedPin(rules: Rules, inputs: seq<Input>, ds: seq<Document>, docs': Shelf, ref: Ref)
    requires |ds| == |inputs| && PresetAt(rules, inputs, ref).Some?
    requires forall i :: 0 <= i < |ds| ==> SavedAlike(inputs[i], ds[i], docs')
    ensures var j := PresetAt(rules, inputs, ref).value;
            && PinsPreset(rules, docs', Ref(ds[j].id, ds[j].revision))
            && Pin(docs', Ref(ds[j].id, ds[j].revision)) == Some(ds[j]) && ds[j].input.content == inputs[j].content
  {
    hide Pin, PresetAt;
    PointedIsPreset(rules, inputs, ref);
    assert SavedAlike(inputs[PresetAt(rules, inputs, ref).value], ds[PresetAt(rules, inputs, ref).value], docs');
  }

  lemma PointedIsPreset(rules: Rules, inputs: seq<Input>, ref: Ref)
    requires PresetAt(rules, inputs, ref).Some?
    ensures var j := PresetAt(rules, inputs, ref).value;
            j < |inputs| && inputs[j].kind == PRESET && rules.declaredId(inputs[j].content) != ""
  {
  }

  lemma PlannedJudged(rules: Rules, docs: Shelf, base: map<string, int>, inputs: seq<Input>, ds: seq<Document>, i: nat)
    requires HistoriesOk(docs) && Planned(rules, docs, base, inputs, ds) && i < |ds|
    ensures Judged(rules, Append(docs, ds), ds[i].input)
    ensures PinnedPresets(rules, Append(docs, ds), ds[i].input.presetRefs) ==
            PointedPresets(rules, inputs, inputs[i].presetRefs)
  {
    hide Append, PresetAt, Pin, Placed, NextOf, DistinctIds, PinnedPresets, PointedPresets, AllPinned, ResolvedRefs;
    PlannedAllNext(rules, docs, base, inputs, ds);
    PlannedSaved(rules, docs, base, inputs, ds);
    assert ResolvedInput(rules, inputs, ds, i);
    ResolvedPins(rules, inputs, ds, Append(docs, ds), inputs[i].presetRefs);
    assert Admissible(rules, inputs[i]) && Resolvable(rules, inputs, i);
    NoPointed(rules, inputs);
    EmptyResolved(rules, inputs, ds, inputs[i].presetRefs);
  }

  lemma NoPointed(rules: Rules, inputs: seq<Input>)
    ensures AllPointed(rules, inputs, []) && PointedPresets(rules, inputs, []) == map[]
  {
  }

  lemma EmptyResolved(rules: Rules, inputs: seq<Input>, ds: seq<Document>, refs: seq<Ref>)
    requires |ds| == |inputs| && AllPointed(rules, inputs, refs)
    ensures ResolvedRefs(rules, inputs, ds, refs) == [] <==> refs == []
  {
  }

  lemma PlannedAllNext(rules: Rules, docs: Shelf, base: map<string, int>, inputs: seq<Input>, ds: seq<Document>)
    requires HistoriesOk(docs) && Planned(rules, docs, base, inputs, ds)
    ensures AllNext(docs, ds)
  {
    forall k | 0 <= k < |ds| ensures NextOf(docs, ds[k]) {
      PlannedNext(rules, docs, base, inputs, ds, k);
    }
  }

  lemma PlannedSaved(rules: Rules, docs: Shelf, base: map<string, int>, inputs: seq<Input>, ds: seq<Document>)
    requires AllNext(docs, ds) && Planned(rules, docs, base, inputs, ds)
    ensures forall k :: 0 <= k < |ds| ==> SavedAlike(inputs[k], ds[k], Append(docs, ds))
  {
    hide Append, Placed, NextOf, ResolvedRefs, Pin;
    forall k | 0 <= k < |ds| ensures SavedAlike(inputs[k], ds[k], Append(docs, ds)) {
      AppendPins(docs, ds, k);
      assert ResolvedInput(rules, inputs, ds, k);
    }
  }

  // ---------- runs ----------

  datatype Target = New(id: string) | Existing(id: string, revision: int)

  /** A save names its base revision; the input was judged at an earlier moment, before the lock was taken. */
  datatype Action =
    | SaveDocument(target: Target, input: Input, author: string, judged: nat)
    | SaveWorkspace(target: Target, name: string, pins: seq<Ref>)
    | KeepPreview(previewId: string, preview: Import, expired: set<string>)
    | CommitImport(previewId: string, base: map<string, int>, docs: seq<Document>)

  function Base(t: Target): int { if t.New? then 0 else t.revision }

  predicate MaySave(docs: Shelf, t: Target, d: Input) {
    match t
    case New(id) => id != "" && id !in docs
    case Existing(id, revision) => Current(docs, id, revision) && HistoryOf(docs, id)[0].input.kind == d.kind
  }

  predicate MayPin(s: State, t: Target) {
    match t
    case New(id) => id !in s.workspaces
    case Existing(id, revision) => id in s.workspaces && s.workspaces[id].revision == revision
  }

  predicate MayImport(rules: Rules, s: State, previewId: string, base: map<string, int>, ds: seq<Document>) {
    && previewId in s.imports && s.imports[previewId].valid && !s.imports[previewId].committed
    && Planned(rules, s.documents, base, s.imports[previewId].inputs, ds)
  }

  /** The steps the last state of a history allows. */
  predicate Enabled(rules: Rules, past: seq<State>, a: Action)
    requires past != []
  {
    var s := past[|past| - 1];
    match a
    case SaveDocument(t, d, _, judged) =>
      judged < |past| && Accepts(rules, past[judged].documents, d) && MaySave(s.documents, t, d)
    case SaveWorkspace(t, name, pins) =>
      MayPin(s, t) && WorkspaceOk(s.documents, Workspace(name, pins, t.id, Base(t) + 1))
    case KeepPreview(_, preview, _) => !preview.committed
    case CommitImport(previewId, base, ds) => MayImport(rules, s, previewId, base, ds)
  }

  function Step(s: State, a: Action): State {
    match a
    case SaveDocument(t, d, author, _) => s.(documents := Append(s.documents, [Document(d, t.id, Base(t) + 1, author)]))
    case SaveWorkspace(t, name, pins) =>
      s.(workspaces := s.workspaces[t.id := Workspace(name, pins, t.id, Base(t) + 1)])
    case KeepPreview(id, preview, expired) => s.(imports := (s.imports - expired)[id := preview])
    case CommitImport(id, _, ds) =>
      State(Append(s.documents, ds), s.workspaces,
            if id in s.imports then s.imports[id := s.imports[id].(committed := true)] else s.imports)
  }

  lemma SaveKeeps(rules: Rules, s: State, judged: Shelf, t: Target, d: Input, author: string)
    requires StoreOk(rules, s) && Extends(judged, s.documents) && Accepts(rules, judged, d) &&
             MaySave(s.documents, t, d)
    ensures var s' := s.(documents := Append(s.documents, [Document(d, t.id, Base(t) + 1, author)]));
            StoreOk(rules, s') && Extends(s.documents, s'.documents)
  {
    hide Judged, Accepts, WorkspaceOk, AllJudged;
    var d1 := Document(d, t.id, Base(t) + 1, author);
    assert NextOf(s.documents, d1) by {
      if t.Existing? {
        assert HistoryOk(t.id, s.documents[t.id]);
      }
    }
    AppendKeepsHistories(s.documents, [d1]);
    AcceptedIsJudged(rules, judged, d);
    var docs' := Append(s.documents, [d1]);
    JudgedStable(rules, judged, s.documents, d);
    JudgedStable(rules, s.documents, docs', d);
    AppendKeepsStore(rules, s, [d1], s.(documents := docs'));
  }

  lemma ImportKeeps(rules: Rules, s: State, previewId: string, base: map<string, int>, ds: seq<Document>)
    requires StoreOk(rules, s) && MayImport(rules, s, previewId, base, ds)
    ensures var s' := Step(s, CommitImport(previewId, base, ds));
            StoreOk(rules, s') && Extends(s.documents, s'.documents)
  {
    hide Append, Judged, WorkspaceOk, Placed, NextOf, AllJudged;
    var inputs := s.imports[previewId].inputs;
    PlannedAllNext(rules, s.documents, base, inputs, ds);
    forall i | 0 <= i < |ds| ensures Judged(rules, Append(s.documents, ds), ds[i].input) {
      PlannedJudged(rules, s.documents, base, inputs, ds, i);
    }
    AppendKeepsStore(rules, s, ds, Step(s, CommitImport(previewId, base, ds)));
  }

  /** Every state of a run follows from the one before by an enabled step, from an empty store. */
  predicate IsRun(rules: Rules, states: seq<State>, actions: seq<Action>) {
    && |states| == |actions| + 1 && states[0] == State(map[], map[], map[])
    && forall k :: 0 <= k < |actions| ==>
       Enabled(rules, states[..k + 1], actions[k]) && states[k + 1] == Step(states[k], actions[k])
  }

  /** Over any run, every state's histories, pins and judgements are in order and no state ever loses or
      changes a revision of an earlier one. */
  lemma {:induction false} RunKeepsStore(rules: Rules, states: seq<State>, actions: seq<Action>, i: nat, j: nat)
    requires IsRun(rules, states, actions) && i <= j <= |actions|
    ensures StoreOk(rules, states[j]) && Extends(states[i].documents, states[j].documents)
    decreases j
  {
    hide Append, StoreOk, Extends, Accepts, MaySave, WorkspaceOk, Planned;
    if j == 0 {
      EmptyStore(rules);
    } else {
      var s, a := states[j - 1], actions[j - 1];
      assert Enabled(rules, states[..j], a) && states[j] == Step(s, a);
      RunKeepsStore(rules, states, actions, j - 1, j - 1);
      if a.SaveDocument? {
        assert states[..j][a.judged] == states[a.judged];
        RunKeepsStore(rules, states, actions, a.judged, j - 1);
        SaveKeeps(rules, s, states[a.judged].documents, a.target, a.input, a.author);
      } else if a.CommitImport? {
        ImportKeeps(rules, s, a.previewId, a.base, a.docs);
      } else {
        OtherKeeps(rules, states[..j], a);
      }
      if i < j {
        RunKeepsStore(rules, states, actions, i, j - 1);
        ExtendsTrans(states[i].documents, s.documents, states[j].documents);
      } else {
        ExtendsSelf(states[j].documents);
      }
    }
  }

  lemma EmptyStore(rules: Rules)
    ensures StoreOk(rules, State(map[], map[], map[])) && Extends(map[], map[])
  {
  }

  lemma ExtendsSelf(a: Shelf)
    ensures Extends(a, a)
  {
  }

  lemma ExtendsTrans(a: Shelf, b: Shelf, c: Shelf)
    requires Extends(a, b) && Extends(b, c)
    ensures Extends(a, c)
  {
  }

  lemma OtherKeeps(rules: Rules, past: seq<State>, a: Action)
    requires past != [] && Enabled(rules, past, a) && (a.SaveWorkspace? || a.KeepPreview?)
    requires StoreOk(rules, past[|past| - 1])
    ensures StoreOk(rules, Step(past[|past| - 1], a)) &&
            Extends(past[|past| - 1].documents, Step(past[|past| - 1], a).documents)
  {
    hide AllJudged, WorkspaceOk, HistoriesOk;
  }

  /** A revision once read reads the same ever after, and its number and kind are what its place says. */
  lemma ReadRevisionNeverChanges(rules: Rules, states: seq<State>, actions: seq<Action>, i: nat, j: nat, id: string,
                                 revision: int)
    requires IsRun(rules, states, actions) && i <= j <= |actions| && revision >= 1
    requires Read(states[i].documents, id, revision).Some?
    ensures Read(states[j].documents, id, revision) == Read(states[i].documents, id, revision)
    ensures var d := Read(states[i].documents, id, revision).value;
            d.id == id && d.revision == revision && d.input.kind == Read(states[j].documents, id, 0).value.input.kind
  {
    RunKeepsStore(rules, states, actions, i, j);
    RunKeepsStore(rules, states, actions, i, i);
    ReadStable(states[i].documents, states[j].documents, id, revision);
    assert HistoryOk(id, states[i].documents[id]) && HistoryOk(id, states[j].documents[id]);
    assert states[i].documents[id][revision - 1] == states[j].documents[id][revision - 1];
  }

  /** Saved document i pins saved document n, which keeps verbatim the bundle entry whose id its own entry names,
      and satisfies the contract against that content. */
  predicate PinsEntry(rules: Rules, items: seq<Item>, ds: seq<Document>, i: nat, n: nat)
    requires i < |ds| == |items| && n < |ds|
  {
    var content := ds[n].input.content;
    && ds[i].input.presetRefs == [Ref(ds[n].id, ds[n].revision)]
    && items[n] == Item(PRESET, ds[n].input.name, Some(content)) && ds[n].input.kind == PRESET
    && items[i].Item? && items[i].text.Some? && rules.named(items[i].text.value) == Some(rules.declaredId(content))
    && Judge(rules, ds[i].input, map[rules.declaredId(content) := content])
  }

  lemma PlannedPinsEntry(rules: Rules, docs: Shelf, base: map<string, int>, items: seq<Item>, inputs: seq<Input>,
                         ds: seq<Document>, i: nat)
    requires Planned(rules, docs, base, inputs, ds) && IsPreview(rules, items, true, inputs)
    requires |items| <= Decimal.MAX_INT64 && i < |ds| && ds[i].input.presetRefs != []
    ensures exists n: nat :: n < |ds| && PinsEntry(rules, items, ds, i, n)
  {
    hide PresetAt, Placed, StillValid, DistinctIds, ImportOne, Imports;
    assert ResolvedInput(rules, inputs, ds, i);
    PreviewPoints(rules, items, true, inputs, i);
    var n: nat :| n < |inputs| && PointsAt(rules, inputs, i, n) && NamesEntry(rules, items, inputs, i, n);
    PositionResolves(rules, inputs, i, n);
    assert ResolvedInput(rules, inputs, ds, n);
    assert PinsEntry(rules, items, ds, i, n);
  }

  /** A case imported with its bundle pins, then and in every later state, the very preset content the preview
      validated it against. */
  lemma ImportedCasePinsPreview(rules: Rules, states: seq<State>, actions: seq<Action>, k: nat, j: nat,
                                items: seq<Item>, i: nat)
    requires IsRun(rules, states, actions) && k < j <= |actions| && actions[k].CommitImport?
    requires var p := actions[k].previewId;
             p in states[k].imports && IsPreview(rules, items, true, states[k].imports[p].inputs)
    requires |items| <= Decimal.MAX_INT64 && i < |actions[k].docs| == |items| &&
             actions[k].docs[i].input.presetRefs != []
    ensures exists n: nat :: n < |items| && PinsEntry(rules, items, actions[k].docs, i, n) &&
              Pin(states[j].documents, actions[k].docs[i].input.presetRefs[0]) == Some(actions[k].docs[n])
    ensures Pin(states[j].documents, Ref(actions[k].docs[i].id, actions[k].docs[i].revision)) ==
            Some(actions[k].docs[i])
  {
    hide Append, StoreOk, Extends, PresetAt, Planned, NextOf, IsPreview, Pin, AllNext;
    var a := actions[k];
    assert Enabled(rules, states[..k + 1], a) && states[..k + 1][k] == states[k] && states[k + 1] == Step(states[k], a);
    var docs, inputs, ds := states[k].documents, states[k].imports[a.previewId].inputs, a.docs;
    RunKeepsStore(rules, states, actions, k, k);
    RunKeepsStore(rules, states, actions, k + 1, j);
    StoreHistories(rules, states[k]);
    PlannedAllNext(rules, docs, a.base, inputs, ds);
    PlannedPinsEntry(rules, docs, a.base, items, inputs, ds, i);
    var n: nat :| n < |ds| && PinsEntry(rules, items, ds, i, n);
    AppendPins(docs, ds, i);
    AppendPins(docs, ds, n);
    PinStable(rules, states[k + 1].documents, states[j].documents, Ref(ds[i].id, ds[i].revision));
    PinStable(rules, states[k + 1].documents, states[j].documents, Ref(ds[n].id, ds[n].revision));
  }

  /** A case's content is what its text is prepared to with the one entry that declares the preset it names. */
  ghost predicate ContentFrom(rules: Rules, items: seq<Item>, content: string, i: nat, m: nat)
    requires i < |items| && items[i].Item? && items[i].text.Some? && rules.named(items[i].text.value).Some?
  {
    var id := rules.named(items[i].text.value).value;
    && Alone(rules, items, id, m) && m < |items| && items[m].Item? && items[m].text.Some?
    && content == rules.prepare(items[i].text.value, map[id := items[m].text.value])
  }

  /** What an import saved for an entry, then and in every later state: its kind and name, and of anything but a case
      the entry's text itself; of a case its text as prepared with the preset it names, or with none. */
  lemma ImportedEntryIsStored(rules: Rules, states: seq<State>, actions: seq<Action>, k: nat, j: nat,
                              items: seq<Item>, bundle: bool, i: nat)
    requires IsRun(rules, states, actions) && k < j <= |actions| && actions[k].CommitImport?
    requires var p := actions[k].previewId;
             p in states[k].imports && IsPreview(rules, items, bundle, states[k].imports[p].inputs)
    requires i < |actions[k].docs| == |items|
    ensures var saved, entry := actions[k].docs[i], items[i];
            && Pin(states[j].documents, Ref(saved.id, saved.revision)) == Some(saved)
            && entry.Item? && entry.text.Some? && saved.input.kind == entry.kind && saved.input.name == entry.name
            && (entry.kind != CASE ==> saved.input.content == entry.text.value)
            && (entry.kind == CASE && (!bundle || rules.named(entry.text.value).None?) ==>
                  saved.input.content == rules.prepare(entry.text.value, map[]))
            && (entry.kind == CASE && bundle && rules.named(entry.text.value).Some? ==>
                  exists m: nat :: ContentFrom(rules, items, saved.input.content, i, m))
  {
    hide Append, StoreOk, Extends, PresetAt, Planned, NextOf, Pin, AllNext, ImportOne, PresetsOf, Takes;
    var a := actions[k];
    assert Enabled(rules, states[..k + 1], a) && states[..k + 1][k] == states[k] && states[k + 1] == Step(states[k], a);
    var docs, inputs, ds := states[k].documents, states[k].imports[a.previewId].inputs, a.docs;
    RunKeepsStore(rules, states, actions, k, k);
    RunKeepsStore(rules, states, actions, k + 1, j);
    StoreHistories(rules, states[k]);
    PlannedAllNext(rules, docs, a.base, inputs, ds);
    PlannedInput(rules, docs, a.base, inputs, ds, i);
    PreviewContents(rules, items, bundle, inputs, i);
    if items[i].kind == CASE && bundle && rules.named(items[i].text.value).Some? {
      var m: nat :| PreparedWith(rules, items, inputs, i, m);
      assert ContentFrom(rules, items, ds[i].input.content, i, m);
    }
    AppendPins(docs, ds, i);
    PinStable(rules, states[k + 1].documents, states[j].documents, Ref(ds[i].id, ds[i].revision));
  }

  lemma PlannedInput(rules: Rules, docs: Shelf, base: map<string, int>, inputs: seq<Input>, ds: seq<Document>, i: nat)
    requires Planned(rules, docs, base, inputs, ds) && i < |ds|
    ensures |inputs| == |ds| && ds[i].input == inputs[i].(presetRefs := ds[i].input.presetRefs)
  {
    hide Placed, StillValid, DistinctIds, ResolvedRefs, AllPointed;
    assert ResolvedInput(rules, inputs, ds, i);
  }

  lemma StoreHistories(rules: Rules, s: State)
    requires StoreOk(rules, s)
    ensures HistoriesOk(s.documents)
  {
  }
}
