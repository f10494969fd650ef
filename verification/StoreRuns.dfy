/** Removing models, the two places where the file betrays the request, and runs of operations. */
module StoreRuns {
  import opened Text
  import opened Records
  import opened ModelsIni
  import opened ModelsIniLaws
  import opened Catalog
  import opened CatalogReadings
  import opened CatalogLaws
  import opened PresetLaws
  import opened StoreLaws
  import Seqs

  // ----- removing a model -----

  /** The section is the whole file: its header is the first line and no other section follows. */
  predicate OnlySection(doc: Document, id: string) {
    var b := SectionBounds(doc, Some(id));
    b.Some? && b.value.header == 0 && b.value.end == |doc|
  }

  lemma OnlySectionIsEmptied(doc: Document, id: string)
    requires SectionBounds(doc, Some(id)).Some?
    ensures RemoveSection(doc, id) == [] <==> OnlySection(doc, id)
  {
  }

  /** The section names around the removed one. */
  lemma NamesAround(doc: Document, id: string) returns (j: nat)
    requires DistinctNames(SectionNames(doc)) && id in SectionNames(doc)
    ensures j < |SectionNames(doc)| && SectionNames(doc)[j] == id
    ensures SectionNames(RemoveSection(doc, id)) == SectionNames(doc)[..j] + SectionNames(doc)[j + 1..]
  {
    hide SectionNames, Trim;
    NamesAndBounds(doc, id);
    var x :| 0 <= x < |SectionNames(doc)| && SectionNames(doc)[x] == id;
    assert HasName(SectionNames(doc), id);
    var b := SectionBounds(doc, Some(id)).value;
    var pre, header, body, post := doc[..b.header], doc[b.header], doc[b.start..b.end], doc[b.end..];
    assert doc == (pre + [header]) + body + post;
    NamesOfPieces(pre + [header], body, post);
    NamesConcat(pre, [header]);
    HeaderName(header);
    NamesConcat(pre, post);
    j := |SectionNames(pre)|;
    assert SectionNames(doc) == SectionNames(pre) + [header.name] + SectionNames(post);
    assert SectionNames(doc)[j] == header.name && x == j;
  }

  lemma HeaderName(n: Node)
    requires n.Section?
    ensures SectionNames([n]) == [n.name]
  {
    assert [n][1..] == [];
  }

  lemma PartOfOrderly(doc: Document, next: Document)
    requires Orderly(doc) && forall n :: n in next ==> n in doc
    ensures SettledDoc(next) && PlainKeys(next) && Parse(Print(next)) == next
  {
    hide Settled, Parse, Print, SectionNames;
    assert forall i :: 0 <= i < |next| ==> next[i] in next && next[i] in doc;
    SettledFaithful(next);
    ParseAfterPrint(next);
  }

  /** What the sync makes of the file once the section is cut out of it. */
  function CutWorld(w: World, id: string, now: string): World {
    var w1 := SyncWorld(w, now);
    SyncWorld(w1.(preset := Print(RemoveSection(Parse(w1.preset), id))), now)
  }

  /** The file left by the cut is not empty, so the sync reads it as it stands. */
  lemma CutIsRead(w1: World, id: string, now: string)
    requires InSync(w1) && HasModel(w1.state.models, id) && !OnlySection(Parse(w1.preset), id)
    ensures var d := RemoveSection(Parse(w1.preset), id); var w2 := SyncWorld(w1.(preset := Print(d)), now);
      InSync(w2) && w2.state == Synced(w1.state, d, now)
  {
    hide Parse, Print, Trim, SectionValues, ModelFromValues, SectionNames, SectionBounds, Settled, NormalizeParams,
         GlobalContextSize, Orderly, OnlySection, RemoveSection, ModelsOf, GlobalParams, HasModel;
    RemovedFile(w1, id, now);
    SyncedActive(w1.state, RemoveSection(Parse(w1.preset), id), now);
  }

  lemma CutState(w1: World, id: string, now: string)
    requires InSync(w1) && HasModel(w1.state.models, id)
    ensures var i := FindModel(w1.state.models, id);
      i < |w1.state.models|
      && (var rest := w1.state.models[..i] + w1.state.models[i + 1..];
          !HasModel(rest, id)
          && Synced(w1.state, RemoveSection(Parse(w1.preset), id), now)
             == State(if w1.state.activeModelId != Some(id) then w1.state.activeModelId
                      else if rest == [] then None else Some(rest[0].id),
                      rest, w1.state.globalModelParams))
  {
    hide Parse, Print, Trim, SectionNames, NormalizeParams, GlobalContextSize, Orderly, OnlySection, RemoveSection,
         ModelsOf, GlobalParams, HasModel, FindModel;
    var models := w1.state.models;
    var i := FindModel(models, id);
    FindPresent(models, id);
    RemovedReading(w1, id, now);
    WorldIdsDistinct(w1);
    RestWithout(models, i);
    ActiveAfterRemoval(models, i, w1.state);
  }

  /** Removing a section that is not the whole file removes its model, and only its model. */
  lemma RemoveModelReads(w: World, id: string, now: string)
    requires var w1 := SyncWorld(w, now);
      InSync(w1) && HasModel(w1.state.models, id) && !OnlySection(Parse(w1.preset), id)
    ensures RemovedWorld(w, id, now) == CutWorld(w, id, now)
    ensures var w1, w2 := SyncWorld(w, now), RemovedWorld(w, id, now);
      var i := FindModel(w1.state.models, id);
      var rest := w1.state.models[..i] + w1.state.models[i + 1..];
      && InSync(w2)
      && w2.state == State(if w1.state.activeModelId != Some(id) then w1.state.activeModelId
                           else if rest == [] then None else Some(rest[0].id),
                           rest, w1.state.globalModelParams)
      && !HasModel(rest, id)
  {
    hide Parse, Print, RemoveSection, OnlySection, InSync, Synced, SyncWorld, HasModel, FindModel;
    var w1 := SyncWorld(w, now);
    CutIsRead(w1, id, now);
    CutState(w1, id, now);
    var d := RemoveSection(Parse(w1.preset), id);
    SyncedActive(w1.state, d, now);
    NoSuchActive(Synced(w1.state, d, now), id);
  }

  lemma NoSuchActive(s: State, id: string)
    requires ActiveNamesAModel(s) && !HasModel(s.models, id)
    ensures s.activeModelId != Some(id)
  {
  }

  lemma FindPresent(models: seq<Model>, id: string)
    requires HasModel(models, id)
    ensures FindModel(models, id) < |models|
  {
  }

  lemma RemovedFile(w: World, id: string, now: string)
    requires InSync(w) && HasModel(w.state.models, id) && !OnlySection(Parse(w.preset), id)
    ensures var d := RemoveSection(Parse(w.preset), id);
      Orderly(d) && Parse(Print(d)) == d && Print(d) != ""
  {
    hide Parse, Print, Trim, SectionValues, ModelFromValues, SectionNames, SectionBounds, Settled, PlainKeys,
         OnlySection, RemoveSection, ModelsOf, GlobalParams;
    var doc := Parse(w.preset);
    var d := RemoveSection(doc, id);
    FindPresent(w.state.models, id);
    var k := ModelAt(w, FindModel(w.state.models, id), now);
    OnlySectionIsEmptied(doc, id);
    var j := NamesAround(doc, id);
    RemovedNodes(doc, id);
    PartOfOrderly(doc, d);
    PrintNonEmpty(d);
    RemovedNames(Names(w), j);
  }

  lemma RemovedReading(w: World, id: string, now: string)
    requires InSync(w) && HasModel(w.state.models, id)
    ensures var d, i := RemoveSection(Parse(w.preset), id), FindModel(w.state.models, id);
      && GlobalParams(d) == w.state.globalModelParams
      && i < |w.state.models|
      && ModelsOf(d, SectionNames(d), w.state.models, ContextCap(w), now)
         == w.state.models[..i] + w.state.models[i + 1..]
  {
    hide Parse, Trim, SectionValues, ModelFromValues, SectionNames, SectionBounds, Settled, PlainKeys, NormalizeParams,
         RemoveSection, ModelsOf;
    var doc, models := Parse(w.preset), w.state.models;
    var d := RemoveSection(doc, id);
    FindPresent(models, id);
    var i := FindModel(models, id);
    var k := ModelAt(w, i, now);
    var j := NamesAround(doc, id);
    RemoveSectionBodies(doc, id);
    StarIsTrimmed();
    assert !SameSection(STAR, Some(id));
    assert forall other :: !SameSection(other, Some(id)) ==> SectionValues(d, other) == SectionValues(doc, other) by {
      SameBodiesRead(doc, d, id);
    }
    RemovedModels(doc, d, Names(w), models, ContextCap(w), now, j, i);
  }

  lemma SameBodiesRead(doc: Document, d: Document, id: string)
    requires forall other :: !SameSection(other, Some(id)) ==> Body(d, other) == Body(doc, other)
    ensures forall other :: !SameSection(other, Some(id)) ==> SectionValues(d, other) == SectionValues(doc, other)
  {
    hide SameSection, Body, Read;
  }

  lemma PrintNonEmpty(doc: Document)
    requires doc != []
    ensures Print(doc) != ""
  {
  }

  lemma RemovedNodes(doc: Document, id: string)
    ensures forall n :: n in RemoveSection(doc, id) ==> n in doc
  {
  }

  lemma RemovedNames(names: seq<string>, j: nat)
    requires DistinctNames(names) && PlainStar(names) && j < |names|
    ensures DistinctNames(names[..j] + names[j + 1..]) && PlainStar(names[..j] + names[j + 1..])
  {
    hide Trim;
    var rest := names[..j] + names[j + 1..];
    assert forall x :: 0 <= x < |rest| ==> rest[x] == if x < j then names[x] else names[x + 1];
  }

  lemma RemovedModels(doc: Document, d: Document, names: seq<string>, models: seq<Model>, g: Option<nat>,
                      now: string, j: nat, i: nat)
    requires DistinctNames(names) && j < |names| && i < |models| && names[j] == models[i].id
    requires i == FindModel(models, models[i].id) && names[j] != GLOBAL_SECTION
    requires ModelsOf(doc, names, models, g, now) == models
    requires PreviousById(models, names[j]) == Some(models[i])
    requires ModelFromValues(SectionValues(doc, Some(names[j])), names[j], Some(models[i]), g, now) == Some(models[i])
    requires forall other :: !SameSection(other, Some(names[j])) ==>
      SectionValues(d, other) == SectionValues(doc, other)
    ensures ModelsOf(d, names[..j] + names[j + 1..], models, g, now) == models[..i] + models[i + 1..]
  {
    hide Trim, SectionValues, ModelFromValues, FindModel, PreviousById, ModelsOf, SameSection;
    var before, after := names[..j], names[j + 1..];
    ModelsSplit(doc, names, models, g, now, j);
    assert forall k :: 0 <= k < |after| ==> after[k] == names[j + 1 + k];
    EntriesKept(doc, d, before, models, g, now, names[j]);
    EntriesKept(doc, d, after, models, g, now, names[j]);
    ModelsConcat(d, before, after, models, g, now);
    var a := ModelsOf(doc, before, models, g, now);
    var b := ModelsOf(doc, after, models, g, now);
    FindAt(a, models[i], b);
    Seqs.Pieces(a, [models[i]], b);
  }

  lemma RestWithout(models: seq<Model>, i: nat)
    requires DistinctIds(models) && i < |models|
    ensures !HasModel(models[..i] + models[i + 1..], models[i].id)
  {
    hide Trim;
    var rest := models[..i] + models[i + 1..];
    forall x | 0 <= x < |rest| ensures rest[x].id != models[i].id {
      assert rest[x] == if x < i then models[x] else models[x + 1];
    }
  }

  lemma ActiveAfterRemoval(models: seq<Model>, i: nat, s: State)
    requires i < |models| && s.models == models && ActiveNamesAModel(s)
    ensures s.activeModelId.Some? && s.activeModelId.value != models[i].id ==>
      HasModel(models[..i] + models[i + 1..], s.activeModelId.value)
  {
    if s.activeModelId.Some? && s.activeModelId.value != models[i].id {
      var k :| 0 <= k < |models| && models[k].id == s.activeModelId.value;
      var rest := models[..i] + models[i + 1..];
      assert rest[if k < i then k else k - 1] == models[k];
    }
  }

  // ----- the file that empties -----

  lemma SettledNamePrintable(doc: Document, name: string)
    requires SettledDoc(doc) && name in SectionNames(doc)
    ensures PrintableName(name)
  {
    hide Settled, Trim;
    if doc[0].Section? && doc[0].name == name {
      ParsedName(PrintNode(doc[0]));
      assert Settled(doc[0]);
      SettledParses(doc[0]);
    } else {
      assert forall i :: 0 <= i < |doc[1..]| ==> doc[1..][i] == doc[i + 1];
      SettledNamePrintable(doc[1..], name);
    }
  }

  lemma SettledParses(n: Node)
    requires Settled(n)
    ensures ParseLine(PrintNode(n)) == n
  {
  }

  lemma ParsedName(raw: string)
    ensures ParseLine(raw).Section? ==> PrintableName(ParseLine(raw).name)
  {
    var t := TrimStart(raw);
    var close := IndexOf(t, ']');
    if 1 <= close {
      assert forall c :: c in t[1..close] ==> c in t[..close];
    }
  }

  /** A model written into an empty file is listed when that file is read. */
  lemma FirstWriteLists(s: State, now: string)
    requires |s.models| == 1 && s.globalModelParams == []
    requires var m := s.models[0];
      && CleanExtra(m.params.extra) && PrintableKeys(m.params.extra) && PrintableName(m.id)
      && m.hfRef != "" && Tidy(m.hfRef) == m.hfRef && Trim(m.id) != GLOBAL_SECTION
    ensures var models := Synced(s, Parse(Print(PresetDocument([], s))), now).models;
      HasModel(models, s.models[0].id) && forall i :: 0 <= i < |models| ==> models[i].id == s.models[0].id
  {
    hide Parse, Print, Trim, Tidy, SectionValues, SectionNames, SectionBounds, FaithfulDoc, PrintableKeys, SourceValues,
         PresetModel, NormalizeParams, PrintableEntries, PrintableName, SectionEdit, PlainKeys, CleanExtra, HasModel,
         GlobalParams, ModelsOf, Merge;
    var m := s.models[0];
    var d2 := FreshPreset();
    var d := PresetModel(d2, m);
    assert s.models[..|s.models| - 1] == [];
    assert PresetModels(d2, s.models) == d;
    FreshPresetShape(m.id);
    SourcePrintable(m);
    PresetModelFaithful(d2, m);
    FirstSectionReads(d2, m);
    NamesSettled(d);
    ParseAfterPrint(d);
    var doc2 := Parse(Print(d));
    EditLookup([], m, {"load-on-startup"}, "hf-repo");
    SourceReads(m);
    PresetModelReads(d2, m);
    assert m.id in SectionNames(doc2);
    assert m.id != GLOBAL_SECTION by { StarIsTrimmed(); }
    ListedInModels(doc2, SectionNames(doc2), m.id, s.models, GlobalContextSize(GlobalParams(doc2)), now);
    FreshPresetNames();
    OneModelListed(doc2, m.id, s.models, GlobalContextSize(GlobalParams(doc2)), now);
  }

  lemma OneModelListed(doc: Document, id: string, previous: seq<Model>, g: Option<nat>, now: string)
    requires SectionNames(doc) == [GLOBAL_SECTION, id]
    ensures var models := ModelsOf(doc, SectionNames(doc), previous, g, now);
      forall i :: 0 <= i < |models| ==> models[i].id == id
  {
    hide ModelsOf, SectionNames;
    ModelIds(doc, SectionNames(doc), previous, g, now);
    var models := ModelsOf(doc, SectionNames(doc), previous, g, now);
    forall i | 0 <= i < |models| ensures models[i].id == id {
      assert models[i] in models;
    }
  }

  lemma FirstSectionReads(doc: Document, m: Model)
    requires SectionValues(doc, SectionOf(m)) == [] && FaithfulDoc(PresetModel(doc, m))
    ensures SectionValues(Parse(Print(PresetModel(doc, m))), SectionOf(m)) == SectionEdit([], m, {"load-on-startup"})
  {
    hide Parse, Print, Trim, Tidy, SectionValues, FaithfulDoc, SourceValues, PresetModel, Merge, Without;
    PresetModelReads(doc, m);
    ReadThroughText(PresetModel(doc, m), SectionOf(m));
    LoadKey();
    TrimWithout(Merge([], WrittenEntries(SourceValues(m))), {"load-on-startup"});
    TrimMerged([], SourceValues(m));
    assert TrimValues([]) == [];
  }

  /** What the first write of an empty file puts down before the models. */
  function FreshPreset(): Document {
    Upsert(Upsert([], None, VERSION), STAR, [])
  }

  lemma FreshPresetShape(id: string)
    requires Trim(id) != GLOBAL_SECTION
    ensures FaithfulDoc(FreshPreset()) && PlainKeys(FreshPreset())
    ensures SectionValues(FreshPreset(), Some(id)) == [] && SectionBounds(FreshPreset(), Some(id)).None?
  {
    hide Trim, SectionValues, SectionBounds, FaithfulDoc, PlainKeys, PrintableKeys, PrintableEntries, PrintableName,
         Upsert, Merge;
    var d1 := Upsert([], None, VERSION);
    StarIsTrimmed();
    VersionPrintable();
    PrintableKeysRead(VERSION);
    EmptyDocument();
    EmptyEntries();
    UpsertFaithful([], None, VERSION);
    PlainUpsert([], None, VERSION);
    UpsertReads([], None, VERSION);
    UpsertFaithful(d1, STAR, []);
    PlainUpsert(d1, STAR, []);
    UpsertReads(d1, STAR, []);
    assert !SameSection(Some(id), None) && !SameSection(Some(id), STAR);
  }

  lemma FreshPresetNames()
    ensures SectionNames(FreshPreset()) == [GLOBAL_SECTION]
  {
    hide Trim, SectionNames, SectionBounds, Upsert;
    var d1 := Upsert([], None, VERSION);
    StarIsTrimmed();
    EmptyDocument();
    UpsertReads([], None, VERSION);
    assert SectionBounds([], STAR).None?;
    NamesAfterUpsert([], None, VERSION);
    NamesAfterUpsert(d1, STAR, []);
    assert !SameSection(STAR, None);
  }

  lemma EmptyEntries()
    ensures PrintableKeys([]) && PrintableEntries([])
  {
  }

  lemma EmptyDocument()
    ensures FaithfulDoc([]) && PlainKeys([]) && SectionNames([]) == []
    ensures forall section :: SectionValues([], section) == []
    ensures forall section: SectionRef :: section.Some? ==> SectionBounds([], section).None?
  {
  }

  lemma ListedInModels(doc: Document, names: seq<string>, name: string, previous: seq<Model>, g: Option<nat>,
                       now: string)
    requires name in names && name != GLOBAL_SECTION
    requires Get(SectionValues(doc, Some(name)), "hf-repo").Some?
    requires Get(SectionValues(doc, Some(name)), "hf-repo").value != ""
    ensures HasModel(ModelsOf(doc, names, previous, g, now), name)
  {
    hide SectionValues, NormalizeModelParams, IsTruthyIniValue, SplitHuggingFaceRef, Trim;
    var j :| 0 <= j < |names| && names[j] == name;
    assert names == names[..j] + ([name] + names[j + 1..]);
    ModelsConcat(doc, names[..j], [name] + names[j + 1..], previous, g, now);
    ModelsConcat(doc, [name], names[j + 1..], previous, g, now);
    ModelsOfOne(doc, name, previous, g, now);
    var a := ModelsOf(doc, names[..j], previous, g, now);
    assert ModelsOf(doc, names, previous, g, now)[|a|].id == name;
  }

  /**
   * A section that is the whole file cannot be removed: the emptied file is taken for a missing one
   * and written again from the state, the removed model included.
   */
  lemma RemovedModelReturns(w: World, id: string, now: string)
    requires var w1 := SyncWorld(w, now);
      InSync(w1) && HasModel(w1.state.models, id) && OnlySection(Parse(w1.preset), id)
    ensures HasModel(RemovedWorld(w, id, now).state.models, id)
    ensures RemovedWorld(w, id, now) == CutWorld(w, id, now)
  {
    hide Parse, Print, Trim, Tidy, Orderly, SectionNames, SectionBounds, NormalizeParams, GlobalContextSize,
         OnlySection, RemoveSection, PresetDocument, CleanExtra, PrintableKeys, ModelsOf, GlobalParams, HasModel,
         NormalizeModelParams;
    var w1 := SyncWorld(w, now);
    FindPresent(w1.state.models, id);
    OnlySectionLeavesNothing(w1, id, now);
    FirstWriteLists(w1.state, now);
    assert Print([]) == "" by { PrintNothing(); }
    var w2 := SyncWorld(w1.(preset := Print(RemoveSection(Parse(w1.preset), id))), now);
    assert w2.state == Synced(w1.state, Parse(Print(PresetDocument([], w1.state))), now);
    SingleModelIsActive(w1.state, Parse(Print(PresetDocument([], w1.state))), id, now);
    assert FindModel(w1.state.models, id) == 0;
  }

  lemma SingleModelIsActive(s: State, doc: Document, id: string, now: string)
    requires var models := Synced(s, doc, now).models;
      HasModel(models, id) && forall i :: 0 <= i < |models| ==> models[i].id == id
    ensures var t := Synced(s, doc, now); t.models != [] && t.models[0].id == id && t.activeModelId == Some(id)
  {
    hide ModelsOf, SectionNames, GlobalParams, GlobalContextSize;
  }

  lemma PrintNothing()
    ensures Print([]) == ""
  {
  }

  lemma OnlySectionLeavesNothing(w: World, id: string, now: string)
    requires InSync(w) && HasModel(w.state.models, id) && OnlySection(Parse(w.preset), id)
    ensures RemoveSection(Parse(w.preset), id) == []
    ensures |w.state.models| == 1 && w.state.models[0].id == id && w.state.globalModelParams == []
    ensures var m := w.state.models[0];
      && CleanExtra(m.params.extra) && PrintableKeys(m.params.extra) && PrintableName(m.id)
      && m.hfRef != "" && Tidy(m.hfRef) == m.hfRef && Trim(m.id) != GLOBAL_SECTION
  {
    hide Parse, Print, Trim, Tidy, SectionValues, ModelFromValues, SectionNames, SectionBounds, Settled,
         NormalizeParams, GlobalContextSize, PlainKeys, OnlySection, RemoveSection, CleanExtra, PrintableKeys;
    var doc, models := Parse(w.preset), w.state.models;
    FindPresent(models, id);
    var i := FindModel(models, id);
    var k := ModelAt(w, i, now);
    SectionShape(w, i, now);
    OnlySectionIsEmptied(doc, id);
    var j := NamesAround(doc, id);
    EmptyDocument();
    assert Names(w) == [id];
    OnlyModel(w, id, now);
    SettledNamePrintable(doc, id);
  }

  lemma OnlyModel(w: World, id: string, now: string)
    requires InSync(w) && Names(w) == [id] && HasModel(w.state.models, id)
    ensures |w.state.models| == 1 && w.state.models[0].id == id && w.state.globalModelParams == []
  {
    hide Parse, Trim, Settled, ModelFromValues;
    var doc := Parse(w.preset);
    var previous, earlier :| w.state.models
      == ModelsOf(doc, SectionNames(doc), previous, GlobalContextSize(GlobalParams(doc)), earlier);
    ModelsOfOne(doc, id, previous, GlobalContextSize(GlobalParams(doc)), earlier);
    EntryId(doc, id, previous, GlobalContextSize(GlobalParams(doc)), earlier);
    var m :| 0 <= m < |w.state.models| && w.state.models[m].id == id;
    var k := ModelAt(w, m, earlier);
    NamesAndBounds(doc, GLOBAL_SECTION);
    StarIsTrimmed();
    assert SectionBounds(doc, STAR).None?;
  }

  /** Removal takes effect exactly when the file holds anything besides the removed section. */
  lemma RemovalWorksIff(w: World, id: string, now: string)
    requires var w1 := SyncWorld(w, now); InSync(w1) && HasModel(w1.state.models, id)
    ensures HasModel(RemovedWorld(w, id, now).state.models, id)
       <==> OnlySection(Parse(SyncWorld(w, now).preset), id)
  {
    hide Parse, Trim, InSync, SyncWorld, RemovedWorld, OnlySection;
    if OnlySection(Parse(SyncWorld(w, now).preset), id) {
      RemovedModelReturns(w, id, now);
    } else {
      RemoveModelReads(w, id, now);
    }
  }

  /** The branch that picks a neighbouring model leaves what the sync has already decided. */
  lemma NeighbourMakesNoDifference(w: World, id: string, now: string)
    requires var w1 := SyncWorld(w, now); InSync(w1) && HasModel(w1.state.models, id)
    ensures RemovedWorld(w, id, now) == CutWorld(w, id, now)
  {
    hide Parse, Trim, InSync, SyncWorld, RemovedWorld, CutWorld, OnlySection;
    if OnlySection(Parse(SyncWorld(w, now).preset), id) {
      RemovedModelReturns(w, id, now);
    } else {
      RemoveModelReads(w, id, now);
    }
  }

  // ----- the two failures, on concrete files -----

  /** A file of one section with one key, as its writer leaves it. */
  function TinyFile(section: string, key: string, value: string): string {
    UpsertText("", Some(section), [(key, value)])
  }

  lemma TinyFileReads(section: string, key: string, value: string)
    requires PrintableName(section) && Trim(section) == section
    requires PrintableKey(key) && Trim(key) == key && Tidy(value) == value
    ensures var text := TinyFile(section, key, value);
      && text != "" && Orderly(Parse(text)) && SectionNames(Parse(text)) == [section]
      && SectionValues(Parse(text), Some(section)) == [(key, value)]
      && (forall other :: !SameSection(other, Some(section)) ==> SectionValues(Parse(text), other) == [])
      && OnlySection(Parse(text), section)
  {
    hide Trim, Tidy, Settled, Faithful, PrintableName, PrintableKey, SectionValues;
    var entries := [(key, value)];
    var doc := Upsert([], Some(section), entries);
    EmptyDocument();
    TinyFileValues(section, key, value);
    PrintableReadsBack(key, value);
    UpsertFaithful([], Some(section), entries);
    PlainUpsert([], Some(section), entries);
    NamesAfterUpsert([], Some(section), entries);
    assert [] + [section] == [section];
    assert DistinctNames(SectionNames(doc)) && PlainStar(SectionNames(doc)) by {
      assert SectionNames(doc) == [section];
    }
    StillOrderly(doc);
    TinyDocument(section, key, value);
    ParseAfterPrint(doc);
    SettledBody(doc, Some(section));
  }

  lemma TinyFileValues(section: string, key: string, value: string)
    requires PrintableName(section) && Trim(section) == section
    requires PrintableKey(key) && Trim(key) == key && Tidy(value) == value
    ensures var text := TinyFile(section, key, value);
      && SectionValues(Parse(text), Some(section)) == [(key, value)]
      && (forall other :: !SameSection(other, Some(section)) ==> SectionValues(Parse(text), other) == [])
  {
    hide Trim, Tidy, Settled, Faithful, PrintableName, PrintableKey, Upsert;
    var entries := [(key, value)];
    assert Parse("") == [];
    EmptyDocument();
    PrintableReadsBack(key, value);
    UpsertThroughText("", Some(section), entries);
    assert TidyEntries(entries) == entries;
    MergeFresh(entries);
  }

  lemma TinyDocument(section: string, key: string, value: string)
    ensures Upsert([], Some(section), [(key, value)]) == [Section(section, None, true), Written(key, value)]
    ensures OnlySection(Upsert([], Some(section), [(key, value)]), section)
  {
    hide Trim, Written;
    var header := [Section(section, None, true)];
    assert WithSection([], Some(section)) == header by {
      assert [] + header == header;
    }
    BoundsUnique(header, Some(section), Bounds(0, 1, 1));
    assert [(key, value)][..0] == [] && header[1..1] == [] && header[1..] == [] && header[..1] == header;
    assert UpsertBody([], [(key, value)]) == UpsertEntry([], key, value) == [Written(key, value)];
    assert header[..1] + [Written(key, value)] + header[1..] == [Section(section, None, true), Written(key, value)];
    assert header + [Written(key, value)] == [Section(section, None, true), Written(key, value)];
    BoundsUnique(header + [Written(key, value)], Some(section), Bounds(0, 1, 2));
  }

  lemma TinyWorldInSync(text: string, now: string)
    requires text != "" && Orderly(Parse(text))
    ensures InSync(SyncWorld(World(State(None, [], []), text), now))
  {
    SyncGivesInSync(World(State(None, [], []), text), now);
  }

  /** Removing the model of the file `[m]` / `hf-repo = r` gives the model straight back. */
  lemma SoleModelReturns(now: string)
    ensures var w := World(State(None, [], []), TinyFile("m", "hf-repo", "r"));
      HasModel(RemovedWorld(w, "m", now).state.models, "m")
  {
    hide Trim, Tidy, Parse, Settled, SectionNames, SectionBounds, SectionValues, OnlySection, RemovedWorld, CutWorld,
         InSync;
    var text := TinyFile("m", "hf-repo", "r");
    var w := World(State(None, [], []), text);
    assert Trim("m") == "m" && Tidy("r") == "r" && Trim("hf-repo") == "hf-repo" by {
      TrimTrimmed("m");
      TrimTrimmed("r");
      TidyShape("r");
      ConstantsTrimmed();
    }
    assert PrintableName("m") && PrintableKey("hf-repo") by { ConstantsPrintable(); }
    TinyFileReads("m", "hf-repo", "r");
    TinyWorldInSync(text, now);
    var doc := Parse(text);
    assert Get([("hf-repo", "r")], "hf-repo") == Some("r");
    ListedInModels(doc, ["m"], "m", [], GlobalContextSize(GlobalParams(doc)), now);
    RemovedModelReturns(w, "m", now);
  }

  /** Clearing every global parameter of the file `[*]` / `toString = 1` leaves that one behind. */
  lemma InheritedNameStays(now: string)
    ensures Get(GlobalsUpdatedWorld(World(State(None, [], []), TinyFile("*", "toString", "1")), [], now)
                  .state.globalModelParams, "toString") == Some("1")
  {
    hide Trim, Tidy, GlobalsUpdatedWorld, TinyFile, SyncWorld, NormalizeParams, PrintableKeys;
    var w := World(State(None, [], []), TinyFile("*", "toString", "1"));
    OneGlobal(now);
    NoParams();
    UpdateGlobalsReadsBack(w, [], now);
    assert Get(GlobalsUpdatedWorld(w, [], now).state.globalModelParams, "toString")
        == GlobalAnswer(SyncWorld(w, now).state.globalModelParams, [], "toString");
  }

  lemma NoParams()
    ensures NormalizeParams([]) == [] && PrintableKeys([])
  {
    EmptyEntries();
  }

  lemma OneGlobal(now: string)
    ensures var w1 := SyncWorld(World(State(None, [], []), TinyFile("*", "toString", "1")), now);
      InSync(w1) && Get(w1.state.globalModelParams, "toString") == Some("1")
  {
    hide Trim, Tidy, Parse, Settled, SectionNames, SectionBounds, SectionValues, TinyFile, InSync, Orderly;
    var text := TinyFile("*", "toString", "1");
    ToStringIsPlain();
    StarIsTrimmed();
    TinyFileReads("*", "toString", "1");
    TinyWorldInSync(text, now);
    TinyPreset(text, now);
    var v := SectionValues(Parse(text), STAR);
    StarValues(SyncWorld(World(State(None, [], []), text), now));
    GetWithout(v, {""}, "toString");
    assert Get(v, "toString") == Some("1");
  }

  lemma TinyPreset(text: string, now: string)
    requires text != ""
    ensures SyncWorld(World(State(None, [], []), text), now).preset == text
  {
    hide Parse;
  }

  lemma ToStringIsPlain()
    ensures Trim("toString") == "toString" && PrintableKey("toString") && Tidy("1") == "1"
  {
    hide Trim;
    ConstantsTrimmed();
    TrimTrimmed("toString");
  }

  // ----- runs -----

  datatype Operation =
    | Update(id: string, name: Option<string>, pinned: Option<bool>, params: Option<Record>)
    | Globals(globals: Record)
    | Remove(id: string)
    | Rewrite

  function Step(w: World, op: Operation, now: string): World {
    match op
    case Update(id, name, pinned, params) => UpdatedWorld(w, id, name, pinned, params, now)
    case Globals(globals) => GlobalsUpdatedWorld(w, globals, now)
    case Remove(id) => RemovedWorld(w, id, now)
    case Rewrite => PresetWorld(w, now)
  }

  /** Parameters are writable as lines and none of Nelle's own; a removal leaves something in the file. */
  predicate Acceptable(w: World, op: Operation) {
    match op
    case Update(_, _, _, params) => params.Some? ==> AcceptableParams(params.value)
    case Globals(globals) => PrintableKeys(NormalizeParams(globals))
    case Remove(id) => !OnlySection(Parse(w.preset), id)
    case Rewrite => true
  }

  lemma StepKeepsHealthy(w: World, op: Operation, now: string)
    requires Healthy(w) && Acceptable(w, op)
    ensures Healthy(Step(w, op, now))
  {
    hide Parse, Trim, InSync, SyncWorld, OnlySection, Tidy, PrintableKeys, NormalizeParams, AcceptableParams,
         NormalizeModelParams, TidyEntries;
    ResyncIsIdentity(w, now);
    match op
    case Update(id, name, pinned, params) =>
      var i := FindModel(w.state.models, id);
      if i < |w.state.models| {
        assert w.state.models[i].id == id;
        UpdateModelReadsBack(w, id, name, pinned, params, now);
        RequestedNameTidy(w.state.models[i], name, pinned, params, ContextCap(w));
      }
    case Globals(globals) =>
      UpdateGlobalsReadsBack(w, globals, now);
    case Remove(id) =>
      var i := FindModel(w.state.models, id);
      if i < |w.state.models| {
        assert w.state.models[i].id == id;
        RemoveModelReads(w, id, now);
      }
    case Rewrite =>
      WritePresetIsIdempotent(w, now, now);
  }

  lemma RequestedNameTidy(m: Model, name: Option<string>, pinned: Option<bool>, params: Option<Record>, g: Option<nat>)
    requires Tidy(m.name) == m.name
    ensures var r := ReadBack(Requested(m, name, pinned, params, g), g); Tidy(r.name) == r.name
  {
    hide Trim, Tidy, NormalizeModelParams, TidyEntries;
    var next := Requested(m, name, pinned, params, g);
    TidyShape(next.name);
    TidyShape(Tidy(next.name));
    TrimIdempotent(GetOr(name, ""));
    if Trim(GetOr(name, "")) != "" {
      TidyOfTrimmed(Trim(GetOr(name, "")));
    }
  }

  /** An operation and the time it runs at. */
  datatype Timed = Timed(op: Operation, now: string)

  function Run(w: World, ops: seq<Timed>): World
    decreases |ops|
  {
    if ops == [] then w else Run(Step(w, ops[0].op, ops[0].now), ops[1..])
  }

  ghost predicate AcceptableRun(w: World, ops: seq<Timed>)
    decreases |ops|
  {
    ops == [] || (Acceptable(w, ops[0].op) && AcceptableRun(Step(w, ops[0].op, ops[0].now), ops[1..]))
  }

  /** Every run of acceptable operations keeps file and catalog in step, with a live active model. */
  lemma {:induction false} RunKeepsHealthy(w: World, ops: seq<Timed>, later: string)
    requires Healthy(w) && AcceptableRun(w, ops)
    ensures Healthy(Run(w, ops)) && ActiveNamesAModel(Run(w, ops).state)
    ensures SyncWorld(Run(w, ops), later) == Run(w, ops)
    decreases |ops|
  {
    hide Step, Acceptable, Parse, Synced, Orderly;
    if ops == [] {
      ResyncIsIdentity(w, later);
    } else {
      StepKeepsHealthy(w, ops[0].op, ops[0].now);
      RunKeepsHealthy(Step(w, ops[0].op, ops[0].now), ops[1..], later);
    }
  }
}
