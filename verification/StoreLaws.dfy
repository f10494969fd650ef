/** The store's laws over whole operations: preset writes, global parameters, removal. */
module StoreLaws {
  import opened Text
  import opened Records
  import opened ModelsIni
  import opened ModelsIniLaws
  import opened Catalog
  import opened CatalogReadings
  import opened CatalogLaws
  import opened PresetLaws
  import Seqs

  const STAR: SectionRef := Some(GLOBAL_SECTION)

  /** Display names that fit on a line as they are, which every name read from the file does. */
  predicate TidyNames(models: seq<Model>) {
    forall i :: 0 <= i < |models| ==> Tidy(models[i].name) == models[i].name
  }

  /** What every operation of the store keeps. */
  ghost predicate Healthy(w: World) {
    InSync(w) && TidyNames(w.state.models)
  }

  lemma StarValues(w: World)
    requires InSync(w)
    ensures var v, g := SectionValues(Parse(w.preset), STAR), w.state.globalModelParams;
      && DistinctKeys(v) && TidyRecord(v) && PrintableKeys(v)
      && g == Without(v, {""})
      && DistinctKeys(g) && TidyRecord(g) && PrintableKeys(g) && DistinctTrimmed(g)
      && TidyEntries(g) == g && WrittenEntries(g) == g && Merge(v, g) == v
  {
    hide Parse, Settled, SectionNames, SectionBounds, Trim, Tidy, PrintableKey, SectionValues;
    var v := SectionValues(Parse(w.preset), STAR);
    OrderlyValues(Parse(w.preset), STAR);
    NormalizeDistinct(v);
    var g := Without(v, {""});
    WithoutShape(v, {""});
    forall i | 0 <= i < |g|
      ensures Trim(g[i].0) == g[i].0 && Tidy(g[i].1) == g[i].1 && PrintableKey(g[i].0)
      ensures Get(v, g[i].0) == Some(g[i].1)
    {
      assert g[i] in g && g[i] in v;
      GetOfMember(v, g[i]);
    }
    TidyIsIdentity(g);
    MergeSame(v, g);
  }

  lemma CleanWorld(w: World, now: string)
    requires InSync(w)
    ensures CleanState(w.state)
    ensures forall j :: 0 <= j < |w.state.models| ==>
      PrintableKeys(SourceValues(w.state.models[j]))
      && SectionBounds(Parse(w.preset), SectionOf(w.state.models[j])).Some?
      && Trim(w.state.models[j].id) != GLOBAL_SECTION
  {
    hide Parse, Settled, SectionNames, SectionBounds, Trim, Tidy, PrintableKey, SectionValues, SourceValues, InSync,
         CleanExtra, ModelFromValues, NormalizeModelParams;
    StarValues(w);
    WorldIdsDistinct(w);
    forall j | 0 <= j < |w.state.models|
      ensures PrintableKeys(SourceValues(w.state.models[j])) && CleanExtra(w.state.models[j].params.extra)
      ensures SectionBounds(Parse(w.preset), SectionOf(w.state.models[j])).Some?
      ensures Trim(w.state.models[j].id) != GLOBAL_SECTION
    {
      var k := ModelAt(w, j, now);
      SectionShape(w, j, now);
      SourcePrintable(w.state.models[j]);
    }
  }

  lemma WorldIdsDistinct(w: World)
    requires InSync(w)
    ensures DistinctIds(w.state.models)
  {
    hide Parse, Settled, SectionValues, ModelFromValues, Trim;
    var doc := Parse(w.preset);
    var previous, earlier :| w.state.models
      == ModelsOf(doc, SectionNames(doc), previous, GlobalContextSize(GlobalParams(doc)), earlier);
    ModelsDistinct(doc, SectionNames(doc), previous, GlobalContextSize(GlobalParams(doc)), earlier);
  }

  // ----- rewriting the preset -----

  lemma PresetFaithful(w: World, now: string)
    requires InSync(w)
    ensures var doc, d := Parse(w.preset), PresetDocument(Parse(w.preset), w.state);
      && FaithfulDoc(d) && PlainKeys(d) && d != []
      && SectionNames(d) == SectionNames(doc) + (if SectionBounds(doc, STAR).None? then [GLOBAL_SECTION] else [])
  {
    hide Parse, Settled, SectionNames, SectionBounds, Trim, PrintableKey, PrintableKeys, SectionValues, SourceValues,
         FaithfulDoc, PlainKeys, Upsert, PresetModels, CleanState, PrintableEntries, TidyRecord, PrintableName,
         LowerCase, Tidy, TidyEntries, Merge, WrittenEntries, PrintNode, GlobalParams, ModelsOf;
    var doc, s := Parse(w.preset), w.state;
    StarValues(w);
    StarIsTrimmed();
    CleanWorld(w, now);
    WorldIdsDistinct(w);
    ConstantsPrintable();
    assert PrintableKeys(VERSION) by { VersionPrintable(); }
    PrintableKeysRead(VERSION);
    PrintableKeysRead(s.globalModelParams);
    assert FaithfulDoc(doc) by { ParsedSettled(w.preset); SettledFaithful(doc); }
    var d1 := Upsert(doc, None, VERSION);
    UpsertFaithful(doc, None, VERSION);
    PlainUpsert(doc, None, VERSION);
    NamesAfterUpsert(doc, None, VERSION);
    assert SectionNames(doc) + [] == SectionNames(doc);
    UpsertReads(doc, None, VERSION);
    var d2 := Upsert(d1, STAR, s.globalModelParams);
    UpsertFaithful(d1, STAR, s.globalModelParams);
    PlainUpsert(d1, STAR, s.globalModelParams);
    NamesAfterUpsert(d1, STAR, s.globalModelParams);
    UpsertReads(d1, STAR, s.globalModelParams);
    forall j | 0 <= j < |s.models| ensures SectionBounds(d2, SectionOf(s.models[j])).Some? {
      assert SectionBounds(doc, SectionOf(s.models[j])).Some?;
    }
    PresetModelsFaithful(d2, s.models);
    PresetModelsNames(d2, s.models);
    PresetModelsReads(d2, s.models, STAR);
    BoundsNonEmpty(PresetModels(d2, s.models), STAR);
  }

  lemma VersionPrintable()
    ensures PrintableKeys(VERSION)
  {
    ConstantsPrintable();
  }

  /** Rewriting a model's section with what it says reads back the same model. */
  lemma RewrittenModelReads(w: World, j: nat, now: string)
    requires Healthy(w) && j < |w.state.models|
    ensures var m := w.state.models[j];
      ModelFromValues(SectionEdit(ValuesOf(w, m.id), m, {"load-on-startup"}), m.id, Some(m), ContextCap(w), now)
        == Some(m)
  {
    hide Parse, Trim, Tidy, PrintableKey, SectionValues, SectionEdit, SplitHuggingFaceRef, NormalizeParams,
         ContextSizeFromParams, SourceValues, IsTruthyIniValue, InSync;
    var m := w.state.models[j];
    var v := ValuesOf(w, m.id);
    SectionShape(w, j, now);
    var k := ModelAt(w, j, now);
    SourceReads(m);
    EditLookup(v, m, {"load-on-startup"}, "hf-repo");
    EditLookup(v, m, {"load-on-startup"}, "alias");
    EditLookup(v, m, {"load-on-startup"}, "offline");
    EditUnreserved(v, m, {"load-on-startup"});
    ConstantsTrimmed();
    TruthyOne();
    TidyShape(m.name);
    TrimTrimmed(m.name);
    UnreservedShape(v);
    KeptNormalizes(v);
  }

  lemma PresetValues(w: World, section: SectionRef, now: string)
    requires InSync(w)
    ensures var doc, d := Parse(w.preset), PresetDocument(Parse(w.preset), w.state);
      && (forall j :: 0 <= j < |w.state.models| && SameSection(section, SectionOf(w.state.models[j])) ==>
            SectionValues(Parse(Print(d)), section)
            == SectionEdit(SectionValues(doc, section), w.state.models[j], {"load-on-startup"}))
      && (section.Some? && (forall j :: 0 <= j < |w.state.models| ==>
                              !SameSection(section, SectionOf(w.state.models[j]))) ==>
            SectionValues(Parse(Print(d)), section) == SectionValues(doc, section))
  {
    hide Parse, Settled, SectionNames, SectionBounds, Trim, PrintableKeys, SectionValues, SourceValues, FaithfulDoc,
         PlainKeys, Upsert, PresetModels, CleanState, TidyRecord, Merge, Without, InSync;
    var doc, s := Parse(w.preset), w.state;
    var d := PresetDocument(doc, s);
    var v := SectionValues(doc, section);
    PresetFaithful(w, now);
    ReadThroughText(d, section);
    assert TrimValues(v) == v by { ParsedSettled(w.preset); SettledValuesTrimmed(doc, section); }
    StarValues(w);
    StarIsTrimmed();
    CleanWorld(w, now);
    WorldIdsDistinct(w);
    var d1 := Upsert(doc, None, VERSION);
    UpsertReads(doc, None, VERSION);
    var d2 := Upsert(d1, STAR, s.globalModelParams);
    UpsertReads(d1, STAR, s.globalModelParams);
    assert section.Some? ==> SectionValues(d2, section) == v by {
      if section.Some? {
        assert !SameSection(section, None);
        if SameSection(section, STAR) {
          SameValues(d2, section, STAR);
          SameValues(doc, section, STAR);
          assert !SameSection(STAR, None);
        }
      }
    }
    PresetModelsReads(d2, s.models, section);
    LoadKey();
    forall j | 0 <= j < |s.models| && SameSection(section, SectionOf(s.models[j]))
      ensures SectionValues(Parse(Print(d)), section) == SectionEdit(v, s.models[j], {"load-on-startup"})
    {
      TrimMerged(v, SourceValues(s.models[j]));
      TrimWithout(Merge(v, WrittenEntries(SourceValues(s.models[j]))), {"load-on-startup"});
    }
  }

  lemma PresetEntry(w: World, name: string, now: string)
    requires Healthy(w)
    requires name in Names(w) || name == GLOBAL_SECTION
    ensures var d := PresetDocument(Parse(w.preset), w.state);
      Entry(Parse(Print(d)), name, w.state.models, ContextCap(w), now)
        == Entry(Parse(w.preset), name, w.state.models, ContextCap(w), now)
  {
    hide Parse, Print, Settled, SectionBounds, Trim, SectionValues, PresetDocument, ModelFromValues, SectionEdit,
         FindModel;
    var models := w.state.models;
    if name != GLOBAL_SECTION {
      PresetValues(w, Some(name), now);
      var i := FindModel(models, name);
      if i < |models| {
        var k := ModelAt(w, i, now);
        RewrittenModelReads(w, i, now);
        assert SameSection(Some(name), SectionOf(models[i]));
      } else {
        forall j | 0 <= j < |models| ensures !SameSection(Some(name), SectionOf(models[j])) {
          var k := ModelAt(w, j, now);
          assert models[j].id != name;
          var x :| 0 <= x < |Names(w)| && Names(w)[x] == name;
          assert x != k;
        }
      }
    }
  }

  lemma PresetResync(w: World, now: string, later: string)
    requires Healthy(w)
    ensures var d := PresetDocument(Parse(w.preset), w.state);
      && InSync(World(w.state, Print(d)))
      && SyncWorld(World(w.state, Print(d)), later) == World(w.state, Print(d))
  {
    hide Parse, Print, Settled, SectionBounds, Trim, SectionValues, PresetDocument, ModelFromValues, SectionEdit,
         NormalizeParams, SectionNames, GlobalContextSize, FaithfulDoc, PlainKeys;
    var doc, s := Parse(w.preset), w.state;
    var d := PresetDocument(doc, s);
    var doc2 := Parse(Print(d));
    var names := SectionNames(doc);
    PresetFaithful(w, later);
    PresetNamesOrderly(w, later);
    StillOrderly(d);
    StarIsTrimmed();
    PresetValues(w, STAR, later);
    CleanWorld(w, later);
    assert GlobalParams(doc2) == GlobalParams(doc);
    forall n | n in SectionNames(doc2)
      ensures Entry(doc2, n, s.models, ContextCap(w), later) == Entry(doc, n, s.models, ContextCap(w), later)
    {
      PresetEntry(w, n, later);
    }
    ModelsEqual(doc2, doc, SectionNames(doc2), s.models, s.models, ContextCap(w), ContextCap(w), later, later);
    var previous, earlier :| s.models == ModelsOf(doc, names, previous, ContextCap(w), earlier);
    ResyncModels(doc, names, previous, ContextCap(w), earlier, later);
    if SectionBounds(doc, STAR).None? {
      ModelsConcat(doc, names, [GLOBAL_SECTION], s.models, ContextCap(w), later);
      ModelsOfOne(doc, GLOBAL_SECTION, s.models, ContextCap(w), later);
      assert s.models + [] == s.models;
    } else {
      assert names + [] == names;
    }
    assert ModelsOf(doc2, SectionNames(doc2), s.models, ContextCap(w), later) == s.models;
  }

  lemma PresetNamesOrderly(w: World, now: string)
    requires InSync(w)
    ensures var d := PresetDocument(Parse(w.preset), w.state);
      DistinctNames(SectionNames(d)) && PlainStar(SectionNames(d))
  {
    hide Parse, Settled, SectionBounds, Trim, SectionValues, PresetDocument, SectionNames, PlainKeys;
    PresetFaithful(w, now);
    var names := Names(w);
    NamesAndBounds(Parse(w.preset), GLOBAL_SECTION);
    assert names + [] == names;
    assert forall i :: 0 <= i < |names| ==> (names + [GLOBAL_SECTION])[i] == names[i];
  }

  /**
   * The second writer changes no reading of the catalog, and writing again changes not one character.
   */
  lemma WritePresetIsIdempotent(w: World, now: string, later: string)
    requires Healthy(SyncWorld(w, now))
    ensures var w1, w2 := SyncWorld(w, now), PresetWorld(w, now);
      && Healthy(w2) && w2.state == w1.state
      && SyncWorld(w2, later) == w2
      && PresetWorld(w2, later) == w2
  {
    hide Parse, Print, PresetDocument, InSync, Synced, EnsuredText;
    var w1, w2 := SyncWorld(w, now), PresetWorld(w, now);
    var s := w1.state;
    var d := PresetDocument(Parse(w1.preset), s);
    PresetResync(w1, now, later);
    CleanWorld(w1, now);
    PresetStamps(Parse(w1.preset), s);
    PresetFaithful(w1, now);
    ParseAfterPrint(d);
    SettleAllTwice(d);
    StampedSettled(d, SettleAll(d), s);
    PresetOfStamped(SettleAll(d), s);
    PrintBySettling(d, SettleAll(d));
  }

  lemma SettleAllTwice(d: Document)
    ensures SettleAll(SettleAll(d)) == SettleAll(d)
  {
    hide Settle;
    forall i | 0 <= i < |d| ensures SettleAll(SettleAll(d))[i] == SettleAll(d)[i] {
      SettleTwice(d[i]);
    }
  }

  lemma StampedSettled(doc: Document, next: Document, s: State)
    requires SettleAll(next) == SettleAll(doc) && Stamped(doc, s)
    ensures Stamped(next, s)
  {
    hide Carries, SectionValues, SettleAll, SourceValues;
    CarriesSettled(doc, next, None, VERSION);
    CarriesSettled(doc, next, STAR, s.globalModelParams);
    forall j | 0 <= j < |s.models| ensures CarriesModel(next, s.models[j]) {
      var section := SectionOf(s.models[j]);
      assert CarriesModel(doc, s.models[j]);
      CarriesSettled(doc, next, section, SourceValues(s.models[j]));
      BodyKeptBySettling(doc, next, section);
      BodyKeptBySettling(next, next, section);
      KeysOfTrimmed(SectionValues(doc, section));
      KeysOfTrimmed(SectionValues(next, section));
    }
  }

  // ----- replacing the global parameters -----

  lemma KeyListTrimmed(r: Record)
    requires forall i :: 0 <= i < |r| ==> Trim(r[i].0) == r[i].0
    ensures TrimmedKeys(KeyList(r)) == Keys(r)
  {
    hide Trim;
    forall i | 0 <= i < |r| ensures r[i].0 in TrimmedKeys(KeyList(r)) {
      assert KeyList(r)[i] == r[i].0;
      assert Trim(KeyList(r)[i]) in TrimmedKeys(KeyList(r));
    }
  }

  /** The values of `[*]` before the requested ones are written over them. */
  function FreshGlobals(v: Record, next: Record): Record {
    Without(v, Keys(Without(v, Keys(next) + PROTOTYPE_KEYS)))
  }

  lemma GlobalSectionReads(w: World, next: Record)
    requires InSync(w) && PrintableKeys(next)
    ensures var doc, d := Parse(w.preset), GlobalSection(Parse(w.preset), next);
      && FaithfulDoc(d) && PlainKeys(d) && d != []
      && SectionNames(d) == SectionNames(doc) + (if SectionBounds(doc, STAR).None? then [GLOBAL_SECTION] else [])
      && SectionValues(Parse(Print(d)), STAR) == Merge(FreshGlobals(SectionValues(doc, STAR), next), TidyEntries(next))
      && forall other :: !SameSection(other, STAR) ==>
           SectionValues(Parse(Print(d)), other) == SectionValues(doc, other)
  {
    hide Parse, Print, Settled, SectionNames, SectionBounds, Trim, PrintableKey, PrintableKeys, SectionValues,
         FaithfulDoc, PlainKeys, Upsert, RemoveKeys, PrintableEntries, PrintableName, Merge, Without;
    var doc, v := Parse(w.preset), SectionValues(Parse(w.preset), STAR);
    var stale := StaleKeys(v, next);
    var d1 := RemoveKeys(doc, STAR, stale);
    var d := Upsert(d1, STAR, next);
    StarValues(w);
    StarIsTrimmed();
    PrintableKeysRead(next);
    assert SettledDoc(doc) && FaithfulDoc(doc) by { ParsedSettled(w.preset); SettledFaithful(doc); }
    RemoveKeysFaithful(doc, STAR, stale);
    PlainRemoveKeys(doc, STAR, stale);
    NamesAfterRemoveKeys(doc, STAR, stale);
    RemoveKeysReads(doc, STAR, stale);
    UpsertFaithful(d1, STAR, next);
    PlainUpsert(d1, STAR, next);
    NamesAfterUpsert(d1, STAR, next);
    UpsertReads(d1, STAR, next);
    BoundsNonEmpty(d, STAR);
    WithoutShape(v, Keys(next) + PROTOTYPE_KEYS);
    var u := Without(v, Keys(next) + PROTOTYPE_KEYS);
    assert TidyRecord(u) by {
      forall i | 0 <= i < |u| ensures Trim(u[i].0) == u[i].0 && Tidy(u[i].1) == u[i].1 {
        assert u[i] in u && u[i] in v;
      }
    }
    KeyListTrimmed(u);
    ReadThroughText(d, STAR);
    SettledValuesTrimmed(doc, STAR);
    TrimWithout(v, Keys(u));
    TrimMerged(FreshGlobals(v, next), next);
    forall other | !SameSection(other, STAR)
      ensures SectionValues(Parse(Print(d)), other) == SectionValues(doc, other)
    {
      ReadThroughText(d, other);
      SettledValuesTrimmed(doc, other);
    }
  }

  lemma FreshLookup(v: Record, next: Record, k: string)
    ensures Get(FreshGlobals(v, next), k) == if k in Keys(next) + PROTOTYPE_KEYS then Get(v, k) else None
  {
    var kept := Keys(next) + PROTOTYPE_KEYS;
    KeysWithout(v, kept);
    GetKeys(v, k);
    GetWithout(v, Keys(v) - kept, k);
  }

  /** What `[*]` answers for a key after the request: its value, or what the stale check let stay. */
  function GlobalAnswer(before: Record, next: Record, k: string): Option<string> {
    match Get(next, k)
    case Some(v) => Some(Tidy(v))
    case None => if k in PROTOTYPE_KEYS then Get(before, k) else None
  }

  lemma GlobalLookup(v: Record, next: Record, k: string)
    requires DistinctKeys(v) && TidyRecord(v)
    requires DistinctKeys(next) && "" !in Keys(next)
    requires forall i :: 0 <= i < |next| ==> Trim(next[i].0) == next[i].0
    ensures var after := Merge(FreshGlobals(v, next), TidyEntries(next));
      && DistinctKeys(after) && TidyRecord(after)
      && Get(NormalizeParams(after), k) == GlobalAnswer(Without(v, {""}), next, k)
  {
    hide Trim, Tidy;
    var kept, tidy := FreshGlobals(v, next), TidyEntries(next);
    var after := Merge(kept, tidy);
    TidyEntriesShape(next);
    WithoutShape(v, Keys(Without(v, Keys(next) + PROTOTYPE_KEYS)));
    MergeDistinct(kept, tidy);
    MergeEach(kept, tidy);
    forall i | 0 <= i < |after| ensures Trim(after[i].0) == after[i].0 && Tidy(after[i].1) == after[i].1 {
      assert after[i] in after && (after[i] in v || after[i] in tidy);
    }
    NormalizeDistinct(after);
    GetWithout(after, {""}, k);
    GetMerge(kept, tidy, k);
    LastIsGet(tidy, k);
    TidyRecordLaws(next, {}, k);
    FreshLookup(v, next, k);
    GetKeys(next, k);
    GetWithout(v, {""}, k);
  }

  function Recapped(m: Model, g: Option<nat>): Model {
    m.(params := NormalizeModelParams(m.params.extra, g))
  }

  lemma RecappedEntry(w: World, i: nat, g: Option<nat>, now: string)
    requires InSync(w) && i < |w.state.models|
    ensures var m := w.state.models[i];
      ModelFromValues(ValuesOf(w, m.id), m.id, Some(m), g, now) == Some(Recapped(m, g))
  {
    hide Parse, Trim, Tidy, PrintableKeys, SectionValues, SplitHuggingFaceRef, ContextSizeFromParams, IsTruthyIniValue,
         InSync, NormalizeParams, Without, TidyRecord;
    var m := w.state.models[i];
    var k := ModelAt(w, i, now);
    SectionShape(w, i, now);
    UnreservedShape(ValuesOf(w, m.id));
    NormalizeDistinct(m.params.extra);
    WithoutNone(m.params.extra, {""});
  }

  /** Model lists read under another cap differ only in the derived context size. */
  lemma {:induction false} ModelsRecapped(docA: Document, docB: Document, names: seq<string>, models: seq<Model>,
                                          gA: Option<nat>, gB: Option<nat>, now: string)
    requires forall n :: n in names ==>
      Entry(docB, n, models, gB, now)
      == match Entry(docA, n, models, gA, now) case None => None case Some(m) => Some(Recapped(m, gB))
    ensures var a, b := ModelsOf(docA, names, models, gA, now), ModelsOf(docB, names, models, gB, now);
      |b| == |a| && forall i :: 0 <= i < |a| ==> b[i] == Recapped(a[i], gB)
  {
    hide ModelFromValues, Recapped, SectionValues;
    if names != [] {
      assert names[0] in names && forall n :: n in names[1..] ==> n in names;
      assert Entry(docB, names[0], models, gB, now)
          == match Entry(docA, names[0], models, gA, now) case None => None case Some(m) => Some(Recapped(m, gB));
      ModelsRecapped(docA, docB, names[1..], models, gA, gB, now);
    }
  }

  lemma GlobalsEntry(w: World, doc: Document, name: string, g: Option<nat>, now: string)
    requires InSync(w) && (name in Names(w) || name == GLOBAL_SECTION)
    requires forall other :: !SameSection(other, STAR) ==>
      SectionValues(doc, other) == SectionValues(Parse(w.preset), other)
    ensures Entry(doc, name, w.state.models, g, now)
         == match Entry(Parse(w.preset), name, w.state.models, ContextCap(w), now)
            case None => None case Some(m) => Some(Recapped(m, g))
  {
    hide Parse, Settled, Trim, SectionValues, NormalizeModelParams, FindModel, Recapped;
    var models := w.state.models;
    if name != GLOBAL_SECTION {
      assert !SameSection(Some(name), STAR) by {
        StarIsTrimmed();
        var x :| 0 <= x < |Names(w)| && Names(w)[x] == name;
      }
      var i := FindModel(models, name);
      if i < |models| {
        var k := ModelAt(w, i, now);
        RecappedEntry(w, i, g, now);
      } else {
        PreviousNone(models, name);
        MissingModel(w, name, now);
        ModelPresence(SectionValues(doc, Some(name)), name, PreviousById(models, name), g, ContextCap(w), now);
      }
    }
  }

  lemma ModelPresence(values: Record, id: string, previous: Option<Model>, g: Option<nat>, h: Option<nat>, now: string)
    ensures ModelFromValues(values, id, previous, g, now).Some? <==> ModelFromValues(values, id, previous, h, now).Some?
  {
  }

  lemma MissingModel(w: World, name: string, now: string)
    requires InSync(w) && name in Names(w) && name != GLOBAL_SECTION
    requires forall i :: 0 <= i < |w.state.models| ==> w.state.models[i].id != name
    ensures ModelFromValues(ValuesOf(w, name), name, PreviousById(w.state.models, name), ContextCap(w), now) == None
  {
    hide Parse, Settled, Trim, SectionValues, ModelFromValues;
    var doc, names := Parse(w.preset), Names(w);
    var previous, earlier :| w.state.models == ModelsOf(doc, names, previous, ContextCap(w), earlier);
    ResyncModels(doc, names, previous, ContextCap(w), earlier, now);
    var j :| 0 <= j < |names| && names[j] == name;
    PreviousOfModels(doc, names, w.state.models, ContextCap(w), now, j);
    PreviousNone(w.state.models, name);
  }

  /**
   * The globals answer exactly the request, except for what the stale check overlooked; every model
   * keeps its fields, with its context size derived anew, and the active id stays.
   */
  lemma UpdateGlobalsReadsBack(w: World, params: Record, now: string)
    requires InSync(SyncWorld(w, now)) && PrintableKeys(NormalizeParams(params))
    ensures var w1, w2 := SyncWorld(w, now), GlobalsUpdatedWorld(w, params, now);
      var next, g2 := NormalizeParams(params), GlobalContextSize(w2.state.globalModelParams);
      && InSync(w2)
      && (forall k :: Get(w2.state.globalModelParams, k) == GlobalAnswer(w1.state.globalModelParams, next, k))
      && |w2.state.models| == |w1.state.models|
      && (forall i :: 0 <= i < |w1.state.models| ==> w2.state.models[i] == Recapped(w1.state.models[i], g2))
      && w2.state.activeModelId == w1.state.activeModelId
  {
    hide Parse, Print, Settled, Trim, SectionValues, ModelFromValues, NormalizeModelParams, SectionNames, SectionBounds,
         NormalizeParams, GlobalContextSize, FaithfulDoc, PlainKeys, GlobalSection, Merge, Recapped, PrintableKeys,
         TidyRecord;
    var w1 := SyncWorld(w, now);
    var doc, names, models := Parse(w1.preset), Names(w1), w1.state.models;
    var next := NormalizeParams(params);
    var d := GlobalSection(doc, next);
    var v := SectionValues(doc, STAR);
    GlobalSectionReads(w1, next);
    AppendStarOrderly(w1);
    StillOrderly(d);
    var doc2 := Parse(Print(d));
    var g2 := GlobalContextSize(GlobalParams(doc2));
    StarValues(w1);
    NormalizedShape(params);
    assert forall i :: 0 <= i < |next| ==> next[i] in next;
    forall k ensures Get(GlobalParams(doc2), k) == GlobalAnswer(w1.state.globalModelParams, next, k) {
      GlobalLookup(v, next, k);
    }
    forall n | n in SectionNames(doc2)
      ensures Entry(doc2, n, models, g2, now)
           == match Entry(doc, n, models, ContextCap(w1), now) case None => None case Some(m) => Some(Recapped(m, g2))
    {
      GlobalsEntry(w1, doc2, n, g2, now);
    }
    ModelsRecapped(doc, doc2, SectionNames(doc2), models, ContextCap(w1), g2, now);
    ModelsWithStar(w1, doc, SectionNames(doc2), now);
    var w2 := GlobalsUpdatedWorld(w, params, now);
    SyncedActive(w1.state, doc2, now);
    assert w2.state.models == ModelsOf(doc2, SectionNames(doc2), models, g2, now);
    ActiveByIds(models, w2.state.models, w1.state, g2);
  }

  lemma AppendStarOrderly(w: World)
    requires InSync(w)
    ensures var names := Names(w) + (if SectionBounds(Parse(w.preset), STAR).None? then [GLOBAL_SECTION] else []);
      DistinctNames(names) && PlainStar(names)
  {
    hide Parse, Settled, SectionBounds, Trim, SectionValues, SectionNames, PlainKeys;
    var names := Names(w);
    NamesAndBounds(Parse(w.preset), GLOBAL_SECTION);
    assert names + [] == names;
    assert forall i :: 0 <= i < |names| ==> (names + [GLOBAL_SECTION])[i] == names[i];
  }

  lemma ModelsWithStar(w: World, doc: Document, names: seq<string>, now: string)
    requires InSync(w) && doc == Parse(w.preset)
    requires names == Names(w) + [GLOBAL_SECTION] || names == Names(w) + []
    ensures ModelsOf(doc, names, w.state.models, ContextCap(w), now) == w.state.models
  {
    hide Parse, Settled, Trim, SectionValues, ModelFromValues;
    var previous, earlier :| w.state.models == ModelsOf(doc, Names(w), previous, ContextCap(w), earlier);
    ResyncModels(doc, Names(w), previous, ContextCap(w), earlier, now);
    ModelsConcat(doc, Names(w), [GLOBAL_SECTION], w.state.models, ContextCap(w), now);
    ModelsOfOne(doc, GLOBAL_SECTION, w.state.models, ContextCap(w), now);
    assert Names(w) + [] == Names(w) && w.state.models + [] == w.state.models;
  }

  lemma ActiveByIds(a: seq<Model>, b: seq<Model>, s: State, g: Option<nat>)
    requires |a| == |b| && forall i :: 0 <= i < |a| ==> b[i] == Recapped(a[i], g)
    requires s.models == a && ActiveNamesAModel(s)
    ensures s.activeModelId.Some? ==> HasModel(b, s.activeModelId.value)
    ensures s.activeModelId.None? ==> b == []
  {
    if s.activeModelId.Some? {
      var i :| 0 <= i < |a| && a[i].id == s.activeModelId.value;
      assert b[i].id == a[i].id;
    }
  }

  /** The update is exact precisely when no inherited property name was set before and left out now. */
  lemma GlobalsExactIff(w: World, params: Record, now: string)
    requires InSync(SyncWorld(w, now)) && PrintableKeys(NormalizeParams(params))
    ensures SameReading(GlobalsUpdatedWorld(w, params, now).state.globalModelParams,
                        TidyEntries(NormalizeParams(params)))
       <==> forall k :: k in PROTOTYPE_KEYS && k in Keys(SyncWorld(w, now).state.globalModelParams)
              ==> k in Keys(NormalizeParams(params))
  {
    hide Parse, Print, Trim, Tidy, SyncWorld, GlobalsUpdatedWorld, InSync, PrintableKeys, NormalizeParams;
    UpdateGlobalsReadsBack(w, params, now);
    var next, before := NormalizeParams(params), SyncWorld(w, now).state.globalModelParams;
    var after := GlobalsUpdatedWorld(w, params, now).state.globalModelParams;
    assert forall e :: e in next ==> Trim(e.0) == e.0 by { NormalizedShape(params); }
    assert forall i :: 0 <= i < |next| ==> next[i] in next;
    forall k
      ensures Get(after, k) == GlobalAnswer(before, next, k)
      ensures Get(TidyEntries(next), k) == match Get(next, k) case None => None case Some(v) => Some(Tidy(v))
      ensures (Get(before, k).Some? <==> k in Keys(before)) && (Get(next, k).Some? <==> k in Keys(next))
    {
      TidyRecordLaws(next, {}, k);
      GetKeys(before, k);
      GetKeys(next, k);
    }
  }
}
