/**
 * The model catalog: a store whose only truth is the text of models.ini, re-read before and after
 * every change, and the preset writer that rewrites the same text from the catalog.
 */
module Catalog {
  import opened Text
  import opened Records
  import opened ModelsIni

  datatype Params = Params(contextSize: Option<nat>, extra: Record)

  datatype Model = Model(id: string, name: string, repoId: Option<string>, quant: Option<string>,
                         hfRef: string, pinned: bool, params: Params, createdAt: string)

  datatype State = State(activeModelId: Option<string>, models: seq<Model>, globalModelParams: Record)

  datatype Result<+T> = Ok(value: T) | UnknownModel(id: string)

  const GLOBAL_SECTION: string := "*"
  const RESERVED_MODEL_KEYS: set<string> := {"hf-repo", "alias", "load-on-startup", "offline"}

  // What `key in object` finds on every plain object besides its own keys.
  const PROTOTYPE_KEYS: set<string> := {
    "constructor", "toString", "toLocaleString", "valueOf", "hasOwnProperty", "isPrototypeOf",
    "propertyIsEnumerable", "__proto__", "__defineGetter__", "__defineSetter__",
    "__lookupGetter__", "__lookupSetter__"
  }

  // ----- parameters -----

  /** Entries with keys and values trimmed, empty keys dropped. */
  function TrimmedPairs(r: Record): Record {
    if r == [] then []
    else (if Trim(r[0].0) == [] then [] else [(Trim(r[0].0), Trim(r[0].1))]) + TrimmedPairs(r[1..])
  }

  function NormalizeParams(r: Record): Record {
    Merge([], TrimmedPairs(r))
  }

  predicate IsDigit(c: char) {
    '0' <= c <= '9'
  }

  function DigitsValue(s: string, acc: nat): nat {
    if s == [] || !IsDigit(s[0]) then acc
    else DigitsValue(s[1..], 10 * acc + (s[0] as int - '0' as int))
  }

  /** `Number.parseInt(raw, 10)` where it yields a positive number, and 0 everywhere else. */
  function PositiveInt(raw: string): nat {
    var t := TrimStart(raw);
    if t != [] && t[0] == '+' then DigitsValue(t[1..], 0) else DigitsValue(t, 0)
  }

  // A section may cap the context, lift a cap explicitly, or say nothing about it.
  datatype Cap = Silent | Lifted | Capped(tokens: nat)

  function ContextSizeFromParams(params: Record): Cap {
    var raw :=
      if Get(params, "c").Some? then Get(params, "c")
      else if Get(params, "ctx-size").Some? then Get(params, "ctx-size")
      else Get(params, "LLAMA_ARG_CTX_SIZE");
    if raw.None? then Silent
    else if PositiveInt(raw.value) > 0 then Capped(PositiveInt(raw.value))
    else Lifted
  }

  function GlobalContextSize(params: Record): Option<nat> {
    var cap := ContextSizeFromParams(params);
    if cap.Capped? then Some(cap.tokens) else None
  }

  function NormalizeModelParams(raw: Record, globalContextSize: Option<nat>): Params {
    var extra := NormalizeParams(raw);
    var own := ContextSizeFromParams(extra);
    Params(if own.Silent? then globalContextSize else if own.Capped? then Some(own.tokens) else None,
           extra)
  }

  function LowerAscii(c: char): char {
    if 'A' <= c <= 'Z' then c - 'A' + 'a' else c
  }

  function LowerCase(s: string): (r: string)
    ensures |r| == |s| && forall i :: 0 <= i < |s| ==> r[i] == LowerAscii(s[i])
  {
    seq(|s|, i requires 0 <= i < |s| => LowerAscii(s[i]))
  }

  predicate IsTruthyIniValue(value: Option<string>) {
    value.Some? &&
    var normalized := LowerCase(Trim(value.value));
    normalized == "1" || normalized == "true" || normalized == "yes" || normalized == "on"
  }

  /** The text before and after the last colon, when both are there. */
  function SplitHuggingFaceRef(ref: string): Option<(string, string)>
    decreases |ref|
  {
    SplitAtColon(ref, |ref|)
  }

  function SplitAtColon(ref: string, end: nat): Option<(string, string)>
    requires end <= |ref|
  {
    if end == 0 then None
    else if ref[end - 1] == ':' then
      if end == 1 || end == |ref| then None else Some((ref[..end - 1], ref[end..]))
    else SplitAtColon(ref, end - 1)
  }

  // ----- reading the catalog -----

  function PreviousById(models: seq<Model>, id: string): Option<Model>
    decreases |models|
  {
    if models == [] then None
    else if models[|models| - 1].id == id then Some(models[|models| - 1])
    else PreviousById(models[..|models| - 1], id)
  }

  function GetOr(o: Option<string>, default: string): string {
    if o.Some? then o.value else default
  }

  /** The catalog entry a section's values describe; a section without `hf-repo` describes none. */
  function ModelFromValues(values: Record, id: string, previous: Option<Model>,
                           globalContextSize: Option<nat>, now: string): Option<Model> {
    var hfRef := GetOr(Get(values, "hf-repo"), "");
    if hfRef == "" then None
    else
      var alias := Trim(GetOr(Get(values, "alias"), ""));
      var name :=
        if alias != "" then alias
        else if previous.Some? && previous.value.name != "" then previous.value.name
        else hfRef;
      var ref := SplitHuggingFaceRef(hfRef);
      Some(Model(id, name,
                 if ref.Some? then Some(ref.value.0) else None,
                 if ref.Some? then Some(ref.value.1) else None,
                 hfRef,
                 IsTruthyIniValue(Get(values, "offline")),
                 NormalizeModelParams(Without(values, RESERVED_MODEL_KEYS), globalContextSize),
                 if previous.Some? then previous.value.createdAt else now))
  }

  function ModelsOf(doc: Document, names: seq<string>, previous: seq<Model>,
                    globalContextSize: Option<nat>, now: string): seq<Model> {
    if names == [] then []
    else
      var m :=
        if names[0] == GLOBAL_SECTION then None
        else ModelFromValues(SectionValues(doc, Some(names[0])), names[0],
                             PreviousById(previous, names[0]), globalContextSize, now);
      (if m.Some? then [m.value] else [])
      + ModelsOf(doc, names[1..], previous, globalContextSize, now)
  }

  function GlobalParams(doc: Document): Record {
    NormalizeParams(SectionValues(doc, Some(GLOBAL_SECTION)))
  }

  predicate HasModel(models: seq<Model>, id: string) {
    exists i :: 0 <= i < |models| && models[i].id == id
  }

  /** The state a reading of `doc` leaves behind. */
  function Synced(s: State, doc: Document, now: string): State {
    var globals := GlobalParams(doc);
    var models := ModelsOf(doc, SectionNames(doc), s.models, GlobalContextSize(globals), now);
    State(if s.activeModelId.Some? && HasModel(models, s.activeModelId.value) then s.activeModelId
          else if models == [] then None else Some(models[0].id),
          models, globals)
  }

  // ----- writing the catalog -----

  /** What Nelle writes in a model's section: its own keys first, then the user's parameters. */
  function SourceValues(m: Model): Record {
    var base := [("hf-repo", m.hfRef), ("alias", if m.name != "" then m.name else m.hfRef)];
    Merge(base + (if m.pinned then [("offline", "1")] else []), m.params.extra)
  }

  function PresetModel(doc: Document, m: Model): Document {
    RemoveKeys(Upsert(doc, Some(m.id), SourceValues(m)), Some(m.id), ["load-on-startup"])
  }

  function PresetModels(doc: Document, models: seq<Model>): Document
    decreases |models|
  {
    if models == [] then doc
    else PresetModel(PresetModels(doc, models[..|models| - 1]), models[|models| - 1])
  }

  /** Every edit `writePreset` and the first write of an empty file make, in order. */
  function PresetDocument(doc: Document, s: State): Document {
    PresetModels(Upsert(Upsert(doc, None, [("version", "1")]), Some(GLOBAL_SECTION), s.globalModelParams),
                 s.models)
  }

  function EnsuredText(s: State, text: string): string {
    if text != "" then text else Print(PresetDocument([], s))
  }

  function Unreserved(r: Record): Record {
    Without(r, RESERVED_MODEL_KEYS)
  }

  function KeyList(r: Record): (ks: seq<string>)
    ensures |ks| == |r| && forall i :: 0 <= i < |r| ==> ks[i] == r[i].0
  {
    seq(|r|, i requires 0 <= i < |r| => r[i].0)
  }

  function StruckKeys(m: Model): seq<string> {
    if m.pinned then ["load-on-startup"] else ["load-on-startup", "offline"]
  }

  function ModelSection(doc: Document, m: Model, replaceEditable: bool): Document {
    var cleared :=
      if replaceEditable then
        RemoveKeys(doc, Some(m.id), KeyList(Unreserved(SectionValues(doc, Some(m.id)))))
      else doc;
    RemoveKeys(Upsert(cleared, Some(m.id), SourceValues(m)), Some(m.id), StruckKeys(m))
  }

  /** The keys of `[*]` that `!(key in nextParams)` finds stale. */
  function StaleKeys(values: Record, next: Record): seq<string> {
    KeyList(Without(values, Keys(next) + PROTOTYPE_KEYS))
  }

  function GlobalSection(doc: Document, next: Record): Document {
    Upsert(RemoveKeys(doc, Some(GLOBAL_SECTION), StaleKeys(SectionValues(doc, Some(GLOBAL_SECTION)), next)),
           Some(GLOBAL_SECTION), next)
  }

  // ----- the store -----

  function FindModel(models: seq<Model>, id: string): (i: nat)
    ensures i <= |models| && (i < |models| ==> models[i].id == id)
    ensures forall k :: 0 <= k < i ==> models[k].id != id
  {
    if models == [] || models[0].id == id then 0 else 1 + FindModel(models[1..], id)
  }

  /** The model an update asks for, before it goes through the text. */
  function Requested(previous: Model, name: Option<string>, pinned: Option<bool>, params: Option<Record>,
                     globalContextSize: Option<nat>): Model {
    previous.(
      name := if Trim(GetOr(name, "")) != "" then Trim(GetOr(name, "")) else previous.name,
      pinned := if pinned.Some? then pinned.value else previous.pinned,
      params := if params.None? then previous.params
                else NormalizeModelParams(params.value, globalContextSize))
  }

  /** The cached state and the file, as the store sees them together. */
  datatype World = World(state: State, preset: string)

  function SyncWorld(w: World, now: string): World {
    var text := EnsuredText(w.state, w.preset);
    World(Synced(w.state, Parse(text), now), text)
  }

  function UpdatedWorld(w: World, id: string, name: Option<string>, pinned: Option<bool>,
                        params: Option<Record>, now: string): World {
    var w1 := SyncWorld(w, now);
    var i := FindModel(w1.state.models, id);
    if i == |w1.state.models| then w1
    else
      var next := Requested(w1.state.models[i], name, pinned, params,
                            GlobalContextSize(w1.state.globalModelParams));
      SyncWorld(w1.(preset := Print(ModelSection(Parse(w1.preset), next, params.Some?))), now)
  }

  function GlobalsUpdatedWorld(w: World, params: Record, now: string): World {
    var w1 := SyncWorld(w, now);
    SyncWorld(w1.(preset := Print(GlobalSection(Parse(w1.preset), NormalizeParams(params)))), now)
  }

  function RemovedWorld(w: World, id: string, now: string): World {
    var w1 := SyncWorld(w, now);
    var i := FindModel(w1.state.models, id);
    if i == |w1.state.models| then w1
    else
      var w2 := SyncWorld(w1.(preset := Print(RemoveSection(Parse(w1.preset), id))), now);
      if w2.state.activeModelId == Some(id) then
        var models := w2.state.models;
        w2.(state := w2.state.(activeModelId :=
          if i < |models| then Some(models[i].id)
          else if 0 <= i - 1 < |models| then Some(models[i - 1].id)
          else None))
      else w2
  }

  function PresetWorld(w: World, now: string): World {
    var w1 := SyncWorld(w, now);
    w1.(preset := Print(PresetDocument(Parse(w1.preset), w1.state)))
  }

  /** The loop the preset writer and the store's own restoring of a missing file share. */
  method PresetEdits(start: Document, state: State) returns (document: Document)
    ensures document == PresetDocument(start, state)
  {
    hide Upsert, RemoveKeys, SourceValues;
    document := UpsertModelsIniValues(start, None, [("version", "1")]);
    document := UpsertModelsIniValues(document, Some(GLOBAL_SECTION), state.globalModelParams);
    ghost var base := document;
    for i := 0 to |state.models|
      invariant document == PresetModels(base, state.models[..i])
    {
      var model := state.models[i];
      assert state.models[..i + 1][..i] == state.models[..i];
      document := UpsertModelsIniValues(document, Some(model.id), SourceValues(model));
      document := RemoveKeys(document, Some(model.id), ["load-on-startup"]);
    }
    assert state.models[..|state.models|] == state.models;
  }

  class AppStore {
    var state: State
    var preset: string

    ghost function View(): World
      reads this
    {
      World(state, preset)
    }

    constructor (loaded: State, text: string)
      ensures View() == World(loaded, text)
    {
      state, preset := loaded, text;
    }

    method SyncModelCatalogFromPreset(now: string)
      modifies this
      ensures View() == SyncWorld(old(View()), now)
    {
      if preset == "" {
        var document := PresetEdits([], state);
        preset := Print(document);
      }
      var document := Parse(preset);
      var globals := GlobalParams(document);
      var models := ModelsOf(document, SectionNames(document), state.models, GlobalContextSize(globals), now);
      state := state.(globalModelParams := globals);
      state := state.(models := models);
      if !(state.activeModelId.Some? && HasModel(models, state.activeModelId.value)) {
        state := state.(activeModelId := if models == [] then None else Some(models[0].id));
      }
    }

    method UpsertModelSection(model: Model, replaceEditable: bool)
      modifies this`preset
      ensures preset == Print(ModelSection(Parse(old(preset)), model, replaceEditable))
    {
      var next := Parse(preset);
      if replaceEditable {
        var values := GetModelsIniSectionValues(next, Some(model.id));
        next := RemoveKeys(next, Some(model.id), KeyList(Unreserved(values)));
      }
      next := UpsertModelsIniValues(next, Some(model.id), SourceValues(model));
      next := RemoveKeys(next, Some(model.id), StruckKeys(model));
      preset := Print(next);
    }

    method UpdateModel(id: string, name: Option<string>, pinned: Option<bool>, params: Option<Record>,
                       now: string)
      returns (r: Result<Model>)
      modifies this
      ensures View() == UpdatedWorld(old(View()), id, name, pinned, params, now)
      ensures r.UnknownModel? <==> !HasModel(SyncWorld(old(View()), now).state.models, id)
      ensures r.Ok? && HasModel(state.models, id) ==> r.value in state.models && r.value.id == id
    {
      SyncModelCatalogFromPreset(now);
      var index := FindModel(state.models, id);
      if index == |state.models| {
        return UnknownModel(id);
      }
      var next := Requested(state.models[index], name, pinned, params,
                            GlobalContextSize(state.globalModelParams));
      UpsertModelSection(next, params.Some?);
      SyncModelCatalogFromPreset(now);
      var found := FindModel(state.models, id);
      r := Ok(if found < |state.models| then state.models[found] else next);
    }

    method UpdateGlobalModelParams(params: Record, now: string) returns (r: Record)
      modifies this
      ensures View() == GlobalsUpdatedWorld(old(View()), params, now)
      ensures r == state.globalModelParams
    {
      SyncModelCatalogFromPreset(now);
      var nextParams := NormalizeParams(params);
      var document := Parse(preset);
      var values := GetModelsIniSectionValues(document, Some(GLOBAL_SECTION));
      document := RemoveKeys(document, Some(GLOBAL_SECTION), StaleKeys(values, nextParams));
      document := UpsertModelsIniValues(document, Some(GLOBAL_SECTION), nextParams);
      preset := Print(document);
      SyncModelCatalogFromPreset(now);
      r := state.globalModelParams;
    }

    method RemoveModel(id: string, now: string) returns (removed: Option<Model>)
      modifies this
      ensures View() == RemovedWorld(old(View()), id, now)
      ensures removed.Some? <==> HasModel(SyncWorld(old(View()), now).state.models, id)
    {
      hide SyncWorld, RemoveSection, Parse, Print;
      SyncModelCatalogFromPreset(now);
      var index := FindModel(state.models, id);
      if index == |state.models| {
        return None;
      }
      removed := Some(state.models[index]);
      preset := Print(RemoveSection(Parse(preset), id));
      SyncModelCatalogFromPreset(now);
      if state.activeModelId == Some(id) {
        state := state.(activeModelId :=
          if index < |state.models| then Some(state.models[index].id)
          else if 0 <= index - 1 < |state.models| then Some(state.models[index - 1].id)
          else None);
      }
    }

    method WritePreset(now: string)
      modifies this
      ensures View() == PresetWorld(old(View()), now)
    {
      SyncModelCatalogFromPreset(now);
      var document := PresetEdits(Parse(preset), state);
      preset := Print(document);
    }
  }
}
