/** Revisioned documents: append-only histories, workspaces that pin revisions, and imports that save a whole
    bundle or nothing. Everything a commit may do is a step of one system, and the promises hold over its runs. */
module Documents {
  import opened Common
  import opened Bundle

  datatype Document = Document(input: Input, id: string, revision: int, author: string)

  datatype Workspace = Workspace(name: string, documents: seq<Ref>, id: string, revision: int)

  datatype Import = Import(owner: string, inputs: seq<Input>, valid: bool, committed: bool)

  type Shelf = map<string, seq<Document>>

  datatype State = State(documents: Shelf, workspaces: map<string, Workspace>, imports: map<string, Import>)

  // ---------- reading ----------

  function HistoryOf(docs: Shelf, id: string): seq<Document> { if id in docs then docs[id] else [] }

  /** DocumentRevision: revision zero is the latest. */
  function Read(docs: Shelf, id: string, revision: int): Option<Document> {
    var h := HistoryOf(docs, id);
    if h == [] || revision < 0 || revision > |h| then None
    else Some(h[if revision == 0 then |h| - 1 else revision - 1])
  }

  /** A pinned revision, which is never zero. */
  function Pin(docs: Shelf, ref: Ref): Option<Document> {
    if ref.revision < 1 then None else Read(docs, ref.id, ref.revision)
  }

  predicate PinsPreset(rules: Rules, docs: Shelf, ref: Ref) {
    Pin(docs, ref).Some? && Pin(docs, ref).value.input.kind == PRESET &&
        rules.declaredId(Pin(docs, ref).value.input.content) != ""
  }

  predicate AllPinned(rules: Rules, docs: Shelf, refs: seq<Ref>) {
    forall k :: 0 <= k < |refs| ==> PinsPreset(rules, docs, refs[k])
  }

  /** The declarations that references pin, by the id each declares. */
  function PinnedPresets(rules: Rules, docs: Shelf, refs: seq<Ref>): map<string, string>
    requires AllPinned(rules, docs, refs)
  {
    if refs == [] then map[]
    else
      assert PinsPreset(rules, docs, refs[|refs| - 1]);
      var p := Pin(docs, refs[|refs| - 1]).value.input.content;
      assert forall k :: 0 <= k < |refs| - 1 ==> refs[..|refs| - 1][k] == refs[k];
      PinnedPresets(rules, docs, refs[..|refs| - 1])[rules.declaredId(p) := p]
  }

  // ---------- the invariant ----------

  predicate HistoryOk(id: string, h: seq<Document>) {
    && id != "" && h != []
    && forall i :: 0 <= i < |h| ==> h[i].id == id && h[i].revision == i + 1 && h[i].input.kind == h[0].input.kind
  }

  ghost predicate HistoriesOk(docs: Shelf) { forall id :: id in docs ==> HistoryOk(id, docs[id]) }

  /** A stored revision satisfies the contract against exactly the preset revisions it pins. */
  predicate Judged(rules: Rules, docs: Shelf, d: Input) {
    AllPinned(rules, docs, d.presetRefs) && Judge(rules, d, PinnedPresets(rules, docs, d.presetRefs))
  }

  ghost predicate AllJudged(rules: Rules, docs: Shelf) {
    forall id, i :: id in docs && 0 <= i < |docs[id]| ==> Judged(rules, docs, docs[id][i].input)
  }

  const SERVERS := "server-set"
  const CONFIG := "workspace-config"

  predicate PinsKind(docs: Shelf, ref: Ref, kind: string) {
    Pin(docs, ref).Some? && Pin(docs, ref).value.input.kind == kind
  }

  /** A workspace pins one revision of a server set and one of a workspace config. */
  predicate WorkspaceOk(docs: Shelf, w: Workspace) {
    && w.name != "" && |w.documents| == 2 && w.revision >= 1
    && (|| (PinsKind(docs, w.documents[0], SERVERS) && PinsKind(docs, w.documents[1], CONFIG))
        || (PinsKind(docs, w.documents[0], CONFIG) && PinsKind(docs, w.documents[1], SERVERS)))
  }

  ghost predicate WorkspacesOk(s: State) {
    forall id :: id in s.workspaces ==> s.workspaces[id].id == id && WorkspaceOk(s.documents, s.workspaces[id])
  }

  ghost predicate StoreOk(rules: Rules, s: State) {
    HistoriesOk(s.documents) && AllJudged(rules, s.documents) && WorkspacesOk(s)
  }

  /** Later documents keep every earlier history as a prefix. */
  ghost predicate Extends(a: Shelf, b: Shelf) { forall id :: id in a ==> id in b && a[id] <= b[id] }

  lemma ReadStable(a: Shelf, b: Shelf, id: string, revision: int)
    requires Extends(a, b) && revision >= 1 && Read(a, id, revision).Some?
    ensures Read(b, id, revision) == Read(a, id, revision)
  {
    assert a[id][revision - 1] == b[id][revision - 1];
  }

  lemma PinStable(rules: Rules, a: Shelf, b: Shelf, ref: Ref)
    requires Extends(a, b) && Pin(a, ref).Some?
    ensures Pin(b, ref) == Pin(a, ref)
  {
    ReadStable(a, b, ref.id, ref.revision);
  }

  lemma {:induction false} PinnedStable(rules: Rules, a: Shelf, b: Shelf, refs: seq<Ref>)
    requires Extends(a, b) && AllPinned(rules, a, refs)
    ensures AllPinned(rules, b, refs) && PinnedPresets(rules, b, refs) == PinnedPresets(rules, a, refs)
  {
    hide Pin, Extends;
    if refs != [] {
      var n := |refs| - 1;
      assert forall k :: 0 <= k < n ==> refs[..n][k] == refs[k];
      PinnedStable(rules, a, b, refs[..n]);
      assert PinsPreset(rules, a, refs[n]);
      PinStable(rules, a, b, refs[n]);
      assert forall k :: 0 <= k < n ==> PinsPreset(rules, b, refs[..n][k]);
      assert AllPinned(rules, b, refs);
    }
  }

  lemma JudgedStable(rules: Rules, a: Shelf, b: Shelf, d: Input)
    requires Extends(a, b) && Judged(rules, a, d)
    ensures Judged(rules, b, d)
  {
    PinnedStable(rules, a, b, d.presetRefs);
  }

  lemma WorkspaceStable(rules: Rules, a: Shelf, b: Shelf, w: Workspace)
    requires Extends(a, b) && WorkspaceOk(a, w)
    ensures WorkspaceOk(b, w)
  {
    PinStable(rules, a, b, w.documents[0]);
    PinStable(rules, a, b, w.documents[1]);
  }

  // ---------- validating against the store ----------

  /** The presets of the references, unless one is unusable or declares an id twice. */
  function CasePins(rules: Rules, docs: Shelf, refs: seq<Ref>): Option<map<string, string>> {
    if refs == [] then Some(map[])
    else
      var before := CasePins(rules, docs, refs[..|refs| - 1]);
      var last := refs[|refs| - 1];
      if before.None? || !PinsPreset(rules, docs, last) then None
      else
        var p := Pin(docs, last).value.input.content;
        if rules.declaredId(p) in before.value then None else Some(before.value[rules.declaredId(p) := p])
  }

  lemma {:induction false} CasePinsMeaning(rules: Rules, docs: Shelf, refs: seq<Ref>)
    ensures AllPinned(rules, docs, refs) ==> |PinnedPresets(rules, docs, refs)| <= |refs|
    ensures CasePins(rules, docs, refs).Some? <==>
              AllPinned(rules, docs, refs) && |PinnedPresets(rules, docs, refs)| == |refs|
    ensures CasePins(rules, docs, refs).Some? ==> CasePins(rules, docs, refs).value == PinnedPresets(rules, docs, refs)
  {
    hide PinsPreset, AllPinned, PinnedPresets, Pin;
    if refs == [] {
      NonePinned(rules, docs);
    } else {
      var n := |refs| - 1;
      CasePinsMeaning(rules, docs, refs[..n]);
      PinnedSnoc(rules, docs, refs);
      if AllPinned(rules, docs, refs) {
        var p := Pin(docs, refs[n]).value.input.content;
        PutSize(PinnedPresets(rules, docs, refs[..n]), rules.declaredId(p), p);
      }
    }
  }

  lemma NonePinned(rules: Rules, docs: Shelf)
    ensures AllPinned(rules, docs, []) && PinnedPresets(rules, docs, []) == map[]
  {
  }

  lemma PinnedSnoc(rules: Rules, docs: Shelf, refs: seq<Ref>)
    requires refs != []
    ensures AllPinned(rules, docs, refs) <==>
              AllPinned(rules, docs, refs[..|refs| - 1]) && PinsPreset(rules, docs, refs[|refs| - 1])
    ensures PinsPreset(rules, docs, refs[|refs| - 1]) ==> Pin(docs, refs[|refs| - 1]).Some?
    ensures AllPinned(rules, docs, refs) ==>
              (var p := Pin(docs, refs[|refs| - 1]).value.input.content;
               PinnedPresets(rules, docs, refs) ==
                   PinnedPresets(rules, docs, refs[..|refs| - 1])[rules.declaredId(p) := p])
  {
    hide Pin, PinsPreset;
    var n := |refs| - 1;
    assert forall k :: 0 <= k < n ==> refs[..n][k] == refs[k];
    if PinsPreset(rules, docs, refs[n]) {
      PinIsSome(rules, docs, refs[n]);
      if AllPinned(rules, docs, refs[..n]) {
        forall k | 0 <= k < |refs| ensures PinsPreset(rules, docs, refs[k]) {
          assert k < n ==> PinsPreset(rules, docs, refs[..n][k]);
        }
      }
    }
  }

  lemma PutSize(m: map<string, string>, key: string, value: string)
    ensures |m[key := value]| == |m| + if key in m then 0 else 1
  {
    assert m[key := value].Keys == m.Keys + {key};
    assert |m[key := value].Keys| == |m[key := value]| && |m.Keys| == |m|;
  }

  lemma PinIsSome(rules: Rules, docs: Shelf, ref: Ref)
    requires PinsPreset(rules, docs, ref)
    ensures Pin(docs, ref).Some?
  {
  }

  /** A case names exactly the presets it pins. */
  predicate NamesPinned(rules: Rules, content: string, presets: map<string, string>) {
    match rules.named(content)
    case None => rules.inlines(content, None) && presets == map[]
    case Some(id) => id in presets && rules.inlines(content, Some(presets[id])) && presets.Keys == {id}
  }

  predicate Accepts(rules: Rules, docs: Shelf, d: Input) {
    if d.kind != CASE || d.presetRefs == [] then Judge(rules, d, map[])
    else
      var presets := CasePins(rules, docs, d.presetRefs);
      presets.Some? && NamesPinned(rules, d.content, presets.value) && Judge(rules, d, presets.value)
  }

  /** The reference loop of CasePresets, which stops at the first unusable one. */
  method CasePresets(rules: Rules, docs: Shelf, refs: seq<Ref>) returns (r: Option<map<string, string>>)
    ensures r == CasePins(rules, docs, refs)
  {
    hide PinsPreset;
    var presets: map<string, string> := map[];
    for i := 0 to |refs|
      invariant CasePins(rules, docs, refs[..i]) == Some(presets)
    {
      assert refs[..i + 1][..i] == refs[..i] && refs[..i + 1][i] == refs[i];
      if !PinsPreset(rules, docs, refs[i]) {
        CasePinsPrefix(rules, docs, refs, i + 1);
        return None;
      }
      PinIsSome(rules, docs, refs[i]);
      var p := Pin(docs, refs[i]).value.input.content;
      if rules.declaredId(p) in presets {
        CasePinsPrefix(rules, docs, refs, i + 1);
        return None;
      }
      presets := presets[rules.declaredId(p) := p];
    }
    assert refs[..|refs|] == refs;
    r := Some(presets);
  }

  lemma {:induction false} CasePinsPrefix(rules: Rules, docs: Shelf, refs: seq<Ref>, n: nat)
    requires n <= |refs| && CasePins(rules, docs, refs[..n]).None?
    ensures CasePins(rules, docs, refs).None?
    decreases |refs|
  {
    if n < |refs| {
      assert refs[..|refs| - 1][..n] == refs[..n];
      CasePinsPrefix(rules, docs, refs[..|refs| - 1], n);
    } else {
      assert refs[..n] == refs;
    }
  }

  /** ValidateDocument: what it accepts satisfies the contract against exactly the revisions it pins. */
  method ValidateDocument(rules: Rules, docs: Shelf, d: Input) returns (ok: bool)
    ensures ok == Accepts(rules, docs, d)
  {
    if d.kind != CASE || d.presetRefs == [] {
      return Judge(rules, d, map[]);
    }
    var presets := CasePresets(rules, docs, d.presetRefs);
    if presets.None? {
      return false;
    }
    match rules.named(d.content) {
      case None =>
        ok := rules.inlines(d.content, None) && presets.value == map[];
      case Some(id) =>
        ok := id in presets.value && rules.inlines(d.content, Some(presets.value[id])) &&
            forall k :: k in presets.value.Keys ==> k == id;
        assert ok ==> presets.value.Keys == {id};
    }
    ok := ok && Judge(rules, d, presets.value);
  }

  lemma AcceptedIsJudged(rules: Rules, docs: Shelf, d: Input)
    requires Accepts(rules, docs, d)
    ensures Judged(rules, docs, d)
  {
    CasePinsMeaning(rules, docs, d.presetRefs);
  }

  /** The preset revision a reference pins: a revision of a chain preset that declares an id. */
  predicate IsPinned(rules: Rules, docs: Shelf, ref: Ref, id: string, content: string) {
    && ref.id in docs && 1 <= ref.revision <= |docs[ref.id]|
    && var d := docs[ref.id][ref.revision - 1].input;
       d.kind == PRESET && d.content == content && rules.declaredId(content) == id && id != ""
  }

  /** What is accepted with references is a case with a single one, to the stored revision of the preset it names; it
      must be inlined with that content and satisfy the contract against it alone. */
  lemma AcceptsMeaning(rules: Rules, docs: Shelf, d: Input)
    ensures d.presetRefs == [] ==> (Accepts(rules, docs, d) <==> rules.valid(d.kind, d.name, d.content, map[]))
    ensures d.presetRefs != [] ==>
              (Accepts(rules, docs, d) <==> exists id, content :: AcceptedAgainst(rules, docs, d, id, content))
  {
    hide CasePins, PinnedPresets, PinsPreset;
    var refs := d.presetRefs;
    if refs != [] && Accepts(rules, docs, d) {
      CasePinsMeaning(rules, docs, refs);
      var presets := CasePins(rules, docs, refs).value;
      assert |presets| == |refs| > 0;
      var id := rules.named(d.content).value;
      assert |presets.Keys| == |presets|;
      assert |refs| == 1 && refs == [refs[0]];
      OnePin(rules, docs, refs[0]);
      assert presets == map[id := presets[id]];
      assert AcceptedAgainst(rules, docs, d, id, presets[id]);
    }
    if refs != [] && exists id, content :: AcceptedAgainst(rules, docs, d, id, content) {
      var id, content :| AcceptedAgainst(rules, docs, d, id, content);
      assert refs == [refs[0]];
      OnePin(rules, docs, refs[0]);
      assert id in map[id := content];
    }
  }

  ghost predicate AcceptedAgainst(rules: Rules, docs: Shelf, d: Input, id: string, content: string) {
    && d.kind == CASE && |d.presetRefs| == 1 && IsPinned(rules, docs, d.presetRefs[0], id, content)
    && rules.named(d.content) == Some(id) && rules.inlines(d.content, Some(content))
    && rules.valid(CASE, d.name, d.content, map[id := content])
  }

  lemma OnePin(rules: Rules, docs: Shelf, ref: Ref)
    ensures forall id, content :: IsPinned(rules, docs, ref, id, content) <==>
              PinsPreset(rules, docs, ref) && content == Pin(docs, ref).value.input.content &&
              id == rules.declaredId(content)
    ensures CasePins(rules, docs, [ref]) ==
              if PinsPreset(rules, docs, ref) then
                Some(map[rules.declaredId(Pin(docs, ref).value.input.content) := Pin(docs, ref).value.input.content])
              else None
  {
    assert [ref][..0] == [];
  }
}
