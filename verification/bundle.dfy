/** Previewing a bundle of declarations: which documents it yields, and how a case points, by position, at a
    chain preset of the same bundle. */
module Bundle {
  import opened Common
  import Decimal

  datatype Ref = Ref(id: string, revision: int)

  datatype Input = Input(kind: string, name: string, content: string, presetRefs: seq<Ref>)

  /** What other packages decide about a declaration's text: the id it declares (empty when none), the chain
      preset it names, whether it can be inlined, how a case is stored, and whether it satisfies the contract. */
  datatype Rules = Rules(
    declaredId: string -> string, named: string -> Option<string>, inlines: (string, Option<string>) -> bool,
    prepare: (string, map<string, string>) -> string, valid: (string, string, string, map<string, string>) -> bool)

  /** One bundle entry as bundleDocument reads it; the text is what is left once private SSH values are
      removed, and is absent when the entry cannot be written as JSON. */
  datatype Item = Unusable | Item(kind: string, name: string, text: Option<string>)

  const CASE := "case"
  const PRESET := "chain-preset"
  const RUN := "run-definition"
  const PREFIX := "bundle:"

  /** validateDeploymentDocument; no presets given is the empty map. */
  predicate Judge(rules: Rules, d: Input, presets: map<string, string>) {
    (d.presetRefs == [] || (d.kind == CASE && presets != map[])) && rules.valid(d.kind, d.name, d.content, presets)
  }

  // ---------- the presets a bundle carries ----------

  datatype Preset = Preset(index: int, raw: string)

  function Declares(rules: Rules, item: Item): Option<string> {
    if item.Item? && item.kind == PRESET && item.text.Some? && rules.declaredId(item.text.value) != "" then
      Some(rules.declaredId(item.text.value))
    else None
  }

  function PresetsOf(rules: Rules, items: seq<Item>): map<string, Preset> {
    if items == [] then map[]
    else
      var n := |items| - 1;
      var before := PresetsOf(rules, items[..n]);
      match Declares(rules, items[n])
      case None => before
      case Some(id) => before[id := if id in before then Preset(-1, "") else Preset(n, items[n].text.value)]
  }

  method BundlePresets(rules: Rules, items: seq<Item>) returns (out: map<string, Preset>)
    ensures out == PresetsOf(rules, items)
  {
    out := map[];
    for i := 0 to |items|
      invariant out == PresetsOf(rules, items[..i])
    {
      assert items[..i + 1][..i] == items[..i];
      var item := items[i];
      if item.Item? && item.kind == PRESET && item.text.Some? {
        var id := rules.declaredId(item.text.value);
        if id != "" {
          if id in out {
            out := out[id := Preset(-1, "")];
          } else {
            out := out[id := Preset(i, item.text.value)];
          }
        }
      }
    }
    assert items[..|items|] == items;
  }

  predicate DeclaresAt(rules: Rules, items: seq<Item>, i: int, id: string) {
    0 <= i < |items| && Declares(rules, items[i]) == Some(id)
  }

  /** The index knows an id at a position exactly when that entry alone declares it, and marks it twice exactly
      when several do. */
  lemma {:induction false} PresetsMeaning(rules: Rules, items: seq<Item>, id: string)
    ensures var p := PresetsOf(rules, items);
            && (id in p <==> exists i :: DeclaresAt(rules, items, i, id))
            && (forall i :: (id in p && p[id].index == i && i >= 0) <==>
                  DeclaresAt(rules, items, i, id) && forall j :: DeclaresAt(rules, items, j, id) ==> j == i)
            && (id in p && p[id].index >= 0 ==>
               DeclaresAt(rules, items, p[id].index, id) && p[id].raw == items[p[id].index].text.value)
  {
    hide PresetsOf, Declares;
    PresetsStep(rules, items);
    if items != [] {
      var n, rest := |items| - 1, items[..|items| - 1];
      PresetsMeaning(rules, rest, id);
      DeclaredStep(rules, items, id);
      if Declares(rules, items[n]) == Some(id) {
        assert DeclaresAt(rules, items, n, id);
        if id in PresetsOf(rules, rest) {
          var k :| DeclaresAt(rules, rest, k, id);
          assert DeclaresAt(rules, items, k, id) && k != n;
        }
      } else {
        assert forall i :: DeclaresAt(rules, items, i, id) <==> DeclaresAt(rules, rest, i, id);
      }
    }
  }

  lemma PresetsStep(rules: Rules, items: seq<Item>)
    ensures items == [] ==> PresetsOf(rules, items) == map[]
    ensures items != [] ==>
              (var n := |items| - 1;
               var before := PresetsOf(rules, items[..n]);
               PresetsOf(rules, items) ==
               match Declares(rules, items[n])
               case None => before
               case Some(id) => before[id := if id in before then Preset(-1, "") else Preset(n, items[n].text.value)])
    ensures forall k :: 0 <= k < |items| && Declares(rules, items[k]).Some? ==>
              items[k].Item? && items[k].text.Some?
  {
  }

  lemma DeclaredStep(rules: Rules, items: seq<Item>, id: string)
    requires items != []
    ensures forall i :: DeclaresAt(rules, items, i, id) <==>
              DeclaresAt(rules, items[..|items| - 1], i, id) ||
              (i == |items| - 1 && Declares(rules, items[|items| - 1]) == Some(id))
    ensures !DeclaresAt(rules, items[..|items| - 1], |items| - 1, id)
    ensures Declares(rules, items[|items| - 1]) == Some(id) <==> DeclaresAt(rules, items, |items| - 1, id)
  {
    hide Declares;
  }

  // ---------- one document ----------

  datatype Linked = Linked(refs: seq<Ref>, pinned: map<string, string>)

  /** linkBundlePresets; a case names at most one preset. */
  function Link(rules: Rules, raw: string, presets: map<string, Preset>): Option<Linked> {
    match rules.named(raw)
    case None => if rules.inlines(raw, None) then Some(Linked([], map[])) else None
    case Some(id) =>
      if id in presets && presets[id].index >= 0 && rules.inlines(raw, Some(presets[id].raw)) then
        Some(Linked([Ref(PREFIX + Decimal.Format(presets[id].index), 0)], map[id := presets[id].raw]))
      else None
  }

  /** importDocument: the document, or none when an error is recorded instead. */
  function ImportOne(rules: Rules, item: Item, presets: Option<map<string, Preset>>): Option<Input> {
    if item.Unusable? || item.text.None? || (item.kind == RUN && presets.None?) then None
    else
      var linked :=
        if item.kind == CASE && presets.Some? then Link(rules, item.text.value, presets.value)
        else Some(Linked([], map[]));
      if linked.None? then None
      else
        var text := if item.kind == CASE then rules.prepare(item.text.value, linked.value.pinned) else item.text.value;
        var d := Input(item.kind, item.name, text, linked.value.refs);
        if Judge(rules, d, linked.value.pinned) then Some(d) else None
  }

  function Key(item: Item): string { if item.Item? then item.kind + "\0" + item.name else "\0" }

  predicate Repeats(items: seq<Item>, i: nat)
    requires i < |items|
  {
    exists j :: 0 <= j < i && Key(items[j]) == Key(items[i])
  }

  predicate Imports(rules: Rules, items: seq<Item>, i: nat, presets: Option<map<string, Preset>>)
    requires i < |items|
  {
    ImportOne(rules, items[i], presets).Some? && !(presets.Some? && Repeats(items, i))
  }

  function PresetsFor(rules: Rules, items: seq<Item>, bundle: bool): Option<map<string, Preset>> {
    if bundle then Some(PresetsOf(rules, items)) else None
  }

  /** The preview holds one document per entry, in the entries' order. */
  predicate IsPreview(rules: Rules, items: seq<Item>, bundle: bool, docs: seq<Input>) {
    && docs != [] && |docs| == |items|
    && forall i :: 0 <= i < |items| ==>
         (Imports(rules, items, i, PresetsFor(rules, items, bundle)) &&
          ImportOne(rules, items[i], PresetsFor(rules, items, bundle)) == Some(docs[i]))
  }

  /** The document loop of PreviewImport: a valid preview holds every entry's document at the entry's own
      position, and an invalid one holds none. */
  method PreviewDocuments(rules: Rules, items: seq<Item>, bundle: bool) returns (docs: seq<Input>, valid: bool)
    requires !bundle ==> |items| == 1
    ensures valid <==>
              items != [] && forall i :: 0 <= i < |items| ==> Imports(rules, items, i, PresetsFor(rules, items, bundle))
    ensures valid <==> items != [] && forall i :: 0 <= i < |items| ==> Taken(rules, items, bundle, i)
    ensures valid ==> IsPreview(rules, items, bundle, docs)
    ensures !valid ==> docs == []
  {
    hide PresetsOf, ImportOne, Takes;
    var presets: Option<map<string, Preset>> := None;
    if bundle {
      var carried := BundlePresets(rules, items);
      presets := Some(carried);
    }
    docs := [];
    var errors := 0;
    var seen: set<string> := {};
    for i := 0 to |items|
      invariant 0 <= errors && seen == set j | 0 <= j < i :: Key(items[j])
      invariant errors > 0 <==> exists j :: 0 <= j < i && !Imports(rules, items, j, presets)
      invariant errors == 0 ==>
                  |docs| == i && forall j :: 0 <= j < i ==> ImportOne(rules, items[j], presets) == Some(docs[j])
    {
      var item := items[i];
      var repeated := bundle && item.Item? && Key(item) in seen;
      assert bundle && item.Item? ==> repeated == Repeats(items, i);
      seen := seen + {Key(item)};
      var d := if repeated then None else ImportOne(rules, item, presets);
      UnusableFails(rules, item, presets);
      assert d.Some? <==> Imports(rules, items, i, presets);
      if d.None? {
        errors := errors + 1;
      } else {
        docs := docs + [d.value];
      }
    }
    assert presets == PresetsFor(rules, items, bundle);
    assert errors > 0 <==> exists j :: 0 <= j < |items| && !Imports(rules, items, j, presets);
    forall i | 0 <= i < |items| ensures Imports(rules, items, i, presets) <==> Taken(rules, items, bundle, i) {
      ImportMeaning(rules, items, bundle, i);
    }
    valid := errors == 0 && |docs| > 0;
    if !valid {
      docs := [];
    }
  }

  lemma UnusableFails(rules: Rules, item: Item, presets: Option<map<string, Preset>>)
    ensures item.Unusable? ==> ImportOne(rules, item, presets).None?
  {
  }

  // ---------- what a preview promises ----------

  /** A case's one reference gives the position of the preset it was judged against. */
  predicate PointsAt(rules: Rules, docs: seq<Input>, i: nat, j: nat)
    requires i < |docs| && j < |docs|
  {
    && docs[i].kind == CASE && docs[i].presetRefs == [Ref(PREFIX + Decimal.Format(j), 0)]
    && docs[j].kind == PRESET && rules.declaredId(docs[j].content) != ""
    && Judge(rules, docs[i], map[rules.declaredId(docs[j].content) := docs[j].content])
  }

  /** Entry i names the id that entry j, kept verbatim as a document, declares. */
  predicate NamesEntry(rules: Rules, items: seq<Item>, docs: seq<Input>, i: nat, j: nat)
    requires i < |docs| == |items| && j < |docs|
  {
    && items[j] == Item(PRESET, docs[j].name, Some(docs[j].content))
    && items[i].Item? && items[i].text.Some? &&
       rules.named(items[i].text.value) == Some(rules.declaredId(docs[j].content))
  }

  /** In a valid preview a case without references stands alone, and one with a reference points at the entry
      that declares the preset it names. */
  lemma PreviewPoints(rules: Rules, items: seq<Item>, bundle: bool, docs: seq<Input>, i: nat)
    requires IsPreview(rules, items, bundle, docs) && i < |docs|
    ensures if docs[i].presetRefs == [] then Judge(rules, docs[i], map[])
            else exists j: nat :: j < |docs| && PointsAt(rules, docs, i, j) && NamesEntry(rules, items, docs, i, j)
  {
    hide PresetsOf;
    var presets := PresetsFor(rules, items, bundle);
    assert Imports(rules, items, i, presets) && ImportOne(rules, items[i], presets) == Some(docs[i]);
    if docs[i].presetRefs != [] {
      var raw := items[i].text.value;
      var id := rules.named(raw).value;
      var p := presets.value;
      PresetsMeaning(rules, items, id);
      var j := p[id].index;
      assert DeclaresAt(rules, items, j, id);
      assert Imports(rules, items, j, presets) && ImportOne(rules, items[j], presets) == Some(docs[j]);
      assert PointsAt(rules, docs, i, j) && NamesEntry(rules, items, docs, i, j);
    }
  }

  /** The one entry of a bundle that declares an id. */
  ghost predicate Alone(rules: Rules, items: seq<Item>, id: string, j: int) {
    DeclaresAt(rules, items, j, id) && forall k :: DeclaresAt(rules, items, k, id) ==> k == j
  }

  /** When an entry becomes a document: a case of a bundle must be inlined with the one entry that declares the preset
      it names, or without any; a run definition needs a bundle; and the contract must accept what is stored. */
  ghost predicate Takes(rules: Rules, items: seq<Item>, bundle: bool, i: nat)
    requires i < |items|
  {
    && items[i].Item? && items[i].text.Some?
    && var name, text := items[i].name, items[i].text.value;
       if items[i].kind == CASE && bundle then
         match rules.named(text)
         case None => rules.inlines(text, None) && rules.valid(CASE, name, rules.prepare(text, map[]), map[])
         case Some(id) =>
           exists j: nat :: Alone(rules, items, id, j) && j < |items| && TakesWith(rules, items, i, id, j)
       else if items[i].kind == CASE then rules.valid(CASE, name, rules.prepare(text, map[]), map[])
       else (items[i].kind == RUN ==> bundle) && rules.valid(items[i].kind, name, text, map[])
  }

  predicate TakesWith(rules: Rules, items: seq<Item>, i: nat, id: string, j: nat)
    requires i < |items| && j < |items|
  {
    && items[i].Item? && items[i].text.Some? && items[j].Item? && items[j].text.Some?
    && rules.inlines(items[i].text.value, Some(items[j].text.value))
    && var given := map[id := items[j].text.value];
       rules.valid(CASE, items[i].name, rules.prepare(items[i].text.value, given), given)
  }

  /** An entry that becomes a document, and is not a later one of its kind and name in a bundle. */
  ghost predicate Taken(rules: Rules, items: seq<Item>, bundle: bool, i: nat)
    requires i < |items|
  {
    Takes(rules, items, bundle, i) && !(bundle && Repeats(items, i))
  }

  /** An entry's own verdict is what Takes says of its text, the bundle's presets and the other packages' rules. */
  lemma ImportMeaning(rules: Rules, items: seq<Item>, bundle: bool, i: nat)
    requires i < |items|
    ensures ImportOne(rules, items[i], PresetsFor(rules, items, bundle)).Some? <==> Takes(rules, items, bundle, i)
  {
    hide PresetsOf, Alone, TakesWith;
    if bundle && items[i].Item? && items[i].kind == CASE && items[i].text.Some?
       && rules.named(items[i].text.value).Some?
    {
      PointedImports(rules, items, i, rules.named(items[i].text.value).value);
    }
  }

  lemma PointedImports(rules: Rules, items: seq<Item>, i: nat, id: string)
    requires i < |items| && items[i].Item? && items[i].kind == CASE && items[i].text.Some?
    requires rules.named(items[i].text.value) == Some(id)
    ensures ImportOne(rules, items[i], Some(PresetsOf(rules, items))).Some? <==>
            exists j: nat :: Alone(rules, items, id, j) && j < |items| && TakesWith(rules, items, i, id, j)
  {
    hide PresetsOf, Alone;
    AloneIndexed(rules, items, id);
    var p := PresetsOf(rules, items);
    if id in p && p[id].index >= 0 {
      var j := p[id].index;
      var given := map[id := items[j].text.value];
      assert id in given && given != map[];
      assert Alone(rules, items, id, j);
      assert ImportOne(rules, items[i], Some(p)).Some? <==> TakesWith(rules, items, i, id, j);
    } else {
      assert Link(rules, items[i].text.value, p).None?;
    }
  }

  /** The preset index holds exactly the entries that declare their id alone. */
  lemma AloneIndexed(rules: Rules, items: seq<Item>, id: string)
    ensures var p := PresetsOf(rules, items);
            && (forall j :: (id in p && p[id].index == j && j >= 0) <==> Alone(rules, items, id, j))
            && (id in p && p[id].index >= 0 ==>
                  && p[id].index < |items| && items[p[id].index].Item? && items[p[id].index].text.Some?
                  && items[p[id].index].text.value == p[id].raw)
  {
    hide PresetsOf;
    PresetsMeaning(rules, items, id);
  }

  /** What a valid preview holds for an entry: kind and name are the entry's; anything but a case is the entry's text
      itself; a case is its text as prepared with exactly the preset its one reference points at, or with none. */
  lemma PreviewContents(rules: Rules, items: seq<Item>, bundle: bool, docs: seq<Input>, i: nat)
    requires IsPreview(rules, items, bundle, docs) && i < |docs|
    ensures items[i].Item? && items[i].text.Some? && Takes(rules, items, bundle, i)
    ensures docs[i].kind == items[i].kind && docs[i].name == items[i].name
    ensures docs[i].kind != CASE ==> docs[i].content == items[i].text.value && docs[i].presetRefs == []
    ensures docs[i].kind == CASE && (!bundle || rules.named(items[i].text.value).None?) ==>
              docs[i].content == rules.prepare(items[i].text.value, map[]) && docs[i].presetRefs == []
    ensures docs[i].kind == CASE && bundle && rules.named(items[i].text.value).Some? ==>
              exists j: nat :: PreparedWith(rules, items, docs, i, j)
  {
    hide PresetsOf;
    var presets := PresetsFor(rules, items, bundle);
    assert Imports(rules, items, i, presets) && ImportOne(rules, items[i], presets) == Some(docs[i]);
    ImportMeaning(rules, items, bundle, i);
    if bundle && docs[i].kind == CASE && rules.named(items[i].text.value).Some? {
      var id := rules.named(items[i].text.value).value;
      AloneIndexed(rules, items, id);
      assert PreparedWith(rules, items, docs, i, presets.value[id].index);
    }
  }

  ghost predicate PreparedWith(rules: Rules, items: seq<Item>, docs: seq<Input>, i: nat, j: nat)
    requires i < |docs| == |items| && items[i].Item? && items[i].text.Some?
  {
    && rules.named(items[i].text.value).Some? && Alone(rules, items, rules.named(items[i].text.value).value, j)
    && j < |items| && items[j].Item? && items[j].text.Some?
    && docs[i].presetRefs == [Ref(PREFIX + Decimal.Format(j), 0)]
    && docs[i].content ==
       rules.prepare(items[i].text.value, map[rules.named(items[i].text.value).value := items[j].text.value])
  }

  lemma PreviewNamesDistinct(rules: Rules, items: seq<Item>, docs: seq<Input>, i: nat, j: nat)
    requires IsPreview(rules, items, true, docs) && i < j < |docs|
    ensures docs[i].kind != docs[j].kind || docs[i].name != docs[j].name
  {
    hide PresetsOf;
    var presets := PresetsFor(rules, items, true);
    assert Imports(rules, items, i, presets) && Imports(rules, items, j, presets);
    assert Key(items[i]) != Key(items[j]);
  }

  // ---------- resolving positions at commit ----------

  /** The position a reference names, when it names a usable preset among these documents. */
  function PresetAt(rules: Rules, docs: seq<Input>, ref: Ref): (r: Option<nat>)
    ensures r.Some? ==> r.value < |docs| && docs[r.value].kind == PRESET
  {
    if !(PREFIX <= ref.id) then None
    else
      match Decimal.ParseInt(ref.id[|PREFIX|..])
      case None => None
      case Some(k) =>
        if 0 <= k < |docs| && docs[k].kind == PRESET && rules.declaredId(docs[k].content) != "" then Some(k) else None
  }

  predicate AllPointed(rules: Rules, docs: seq<Input>, refs: seq<Ref>) {
    forall k :: 0 <= k < |refs| ==> PresetAt(rules, docs, refs[k]).Some?
  }

  function PointedPresets(rules: Rules, docs: seq<Input>, refs: seq<Ref>): map<string, string>
    requires AllPointed(rules, docs, refs)
  {
    if refs == [] then map[]
    else
      var p := docs[PresetAt(rules, docs, refs[|refs| - 1]).value].content;
      assert forall k :: 0 <= k < |refs| - 1 ==> refs[..|refs| - 1][k] == refs[k];
      PointedPresets(rules, docs, refs[..|refs| - 1])[rules.declaredId(p) := p]
  }

  predicate Resolvable(rules: Rules, docs: seq<Input>, i: nat)
    requires i < |docs|
  {
    var refs := docs[i].presetRefs;
    refs == [] || (AllPointed(rules, docs, refs) && Judge(rules, docs[i], PointedPresets(rules, docs, refs)))
  }

  /** The first check of a commit, before the presets are known. */
  predicate Admissible(rules: Rules, d: Input) { Judge(rules, d, map[]) || (d.kind == CASE && d.presetRefs != []) }

  predicate StillValid(rules: Rules, docs: seq<Input>) {
    forall i :: 0 <= i < |docs| ==> Admissible(rules, docs[i]) && Resolvable(rules, docs, i)
  }

  /** A valid preview passes the commit's validation again, each case against the very preset content it was
      previewed with. */
  lemma PreviewStillValid(rules: Rules, items: seq<Item>, bundle: bool, docs: seq<Input>)
    requires IsPreview(rules, items, bundle, docs) && |docs| <= Decimal.MAX_INT64
    ensures StillValid(rules, docs)
  {
    hide NamesEntry;
    forall i | 0 <= i < |docs| ensures Admissible(rules, docs[i]) && Resolvable(rules, docs, i) {
      PreviewPoints(rules, items, bundle, docs, i);
      if docs[i].presetRefs != [] {
        var j: nat :| j < |docs| && PointsAt(rules, docs, i, j);
        PositionResolves(rules, docs, i, j);
      }
    }
  }

  lemma PositionResolves(rules: Rules, docs: seq<Input>, i: nat, j: nat)
    requires i < |docs| <= Decimal.MAX_INT64 && j < |docs| && PointsAt(rules, docs, i, j)
    ensures PresetAt(rules, docs, docs[i].presetRefs[0]) == Some(j)
    ensures Resolvable(rules, docs, i)
  {
    var ref := docs[i].presetRefs[0];
    assert ref.id[|PREFIX|..] == Decimal.Format(j);
    Decimal.ParseIntOfFormat(j);
    assert PresetAt(rules, docs, ref) == Some(j);
    assert docs[i].presetRefs[..0] == [];
    var p := docs[j].content;
    assert PointedPresets(rules, docs, docs[i].presetRefs) == map[][rules.declaredId(p) := p];
  }
}
