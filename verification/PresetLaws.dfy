/** The second writer of the same file: rewriting the preset changes no reading, and settles at once. */
module PresetLaws {
  import opened Text
  import opened Records
  import opened ModelsIni
  import opened ModelsIniLaws
  import opened Catalog
  import opened CatalogReadings
  import opened CatalogLaws
  import Seqs

  const VERSION: Record := [("version", "1")]
  const LOAD: seq<string> := ["load-on-startup"]

  // ----- a document that already carries a write -----

  /** The last line of the key is, once settled, the very line a write of the entry would leave. */
  predicate Holds(body: Document, key: string, value: string) {
    LastEntry(body, key) >= 0 && Settle(body[LastEntry(body, key)]) == Settle(Written(key, value))
  }

  predicate HoldsAll(body: Document, entries: Record) {
    forall i :: 0 <= i < |entries| ==> Holds(body, entries[i].0, entries[i].1)
  }

  lemma LastEntrySettled(body: Document, key: string)
    ensures LastEntry(SettleAll(body), key) == LastEntry(body, key)
  {
    var s := SettleAll(body);
    assert forall k :: 0 <= k < |body| ==> (IsEntryOf(s[k], key) <==> IsEntryOf(body[k], key));
  }

  lemma SettleTwice(n: Node)
    ensures PrintNode(Settle(n)) == PrintNode(n) && Settle(Settle(n)) == Settle(n)
  {
    if n.KeyValue? {
      TrimIdempotent(n.value);
    }
  }

  lemma HoldsSettled(body: Document, entries: Record)
    ensures HoldsAll(SettleAll(body), entries) <==> HoldsAll(body, entries)
  {
    hide Settle, LastEntry, Written;
    forall i | 0 <= i < |entries|
      ensures Holds(SettleAll(body), entries[i].0, entries[i].1) <==> Holds(body, entries[i].0, entries[i].1)
    {
      LastEntrySettled(body, entries[i].0);
      var at := LastEntry(body, entries[i].0);
      if at >= 0 {
        SettleTwice(body[at]);
      }
    }
  }

  lemma HoldsAfter(body: Document, key: string, value: string, k: string, v: string)
    requires Trim(k) == Trim(key) ==> ReplaceNewlines(v, ' ') == ReplaceNewlines(value, ' ')
    requires Trim(k) != Trim(key) ==> Holds(body, k, v)
    ensures Holds(UpsertEntry(body, key, value), k, v)
  {
    hide Trim, ReplaceNewlines, UpsertEntry, LastEntry;
    var a, m, c := UpsertSplit(body, key, value);
    var w := [Written(key, value)];
    TrimIdempotent(key);
    LastEntryConcat(a + w, c, k);
    LastEntryConcat(a, w, k);
    LastEntryConcat(a + m, c, k);
    LastEntryConcat(a, m, k);
    LastOfOne(w[0], k);
    if m != [] {
      LastOfOne(m[0], k);
      assert m == [m[0]];
    }
    NoLast(k);
    if Trim(k) == Trim(key) {
      SameKeyLast(c, k, key);
    }
  }

  lemma LastOfOne(n: Node, k: string)
    ensures LastEntry([n], k) == if IsEntryOf(n, k) then 0 else -1
  {
  }

  lemma NoLast(k: string)
    ensures LastEntry([], k) == -1
  {
  }

  lemma SameKeyLast(body: Document, a: string, b: string)
    requires Trim(a) == Trim(b)
    ensures LastEntry(body, a) == LastEntry(body, b)
  {
    SameLastEntry(body, a, b);
  }

  /** Distinct entries are all carried once they have been written. */
  lemma {:induction false} WrittenHolds(body: Document, entries: Record)
    requires forall i, j :: 0 <= i < j < |entries| ==> Trim(entries[i].0) != Trim(entries[j].0)
    ensures HoldsAll(UpsertBody(body, entries), entries)
    decreases |entries|
  {
    hide Trim, Holds, UpsertEntry;
    if entries != [] {
      var n := |entries| - 1;
      WrittenHolds(body, entries[..n]);
      var before := UpsertBody(body, entries[..n]);
      forall i | 0 <= i < |entries|
        ensures Holds(UpsertEntry(before, entries[n].0, entries[n].1), entries[i].0, entries[i].1)
      {
        if i < n {
          assert entries[..n][i] == entries[i];
        }
        HoldsAfter(before, entries[n].0, entries[n].1, entries[i].0, entries[i].1);
      }
    }
  }

  /** Writing what a body already carries leaves it as it settles. */
  lemma {:induction false} RewriteHeld(body: Document, entries: Record)
    requires HoldsAll(body, entries)
    ensures SettleAll(UpsertBody(body, entries)) == SettleAll(body)
    decreases |entries|
  {
    hide Settle, Written, LastEntry;
    if entries != [] {
      var n := |entries| - 1;
      RewriteHeld(body, entries[..n]);
      var before := UpsertBody(body, entries[..n]);
      HoldsSettled(before, entries);
      HoldsSettled(body, entries);
      var key, value := entries[n].0, entries[n].1;
      assert Holds(before, key, value);
      var i := LastEntry(before, key);
      assert SettleAll(before[i := Written(key, value)]) == SettleAll(before)[i := Settle(Written(key, value))];
      assert SettleAll(before)[i] == Settle(before[i]);
    }
  }

  lemma BodyKeptBySettling(doc: Document, next: Document, section: SectionRef)
    requires SettleAll(next) == SettleAll(doc)
    ensures SectionBounds(next, section) == SectionBounds(doc, section)
    ensures SettleAll(Body(next, section)) == SettleAll(Body(doc, section))
    ensures SectionValues(SettleAll(next), section) == TrimValues(SectionValues(doc, section))
  {
    SettledBody(doc, section);
    SettledBody(next, section);
    ReadSettled(Body(doc, section));
  }

  predicate Carries(doc: Document, section: SectionRef, entries: Record) {
    SectionBounds(doc, section).Some? && HoldsAll(Body(doc, section), entries)
  }

  lemma CarriesSettled(doc: Document, next: Document, section: SectionRef, entries: Record)
    requires SettleAll(next) == SettleAll(doc)
    ensures Carries(next, section, entries) <==> Carries(doc, section, entries)
  {
    hide HoldsAll, SectionBounds;
    BodyKeptBySettling(doc, next, section);
    HoldsSettled(Body(doc, section), entries);
    HoldsSettled(Body(next, section), entries);
  }

  lemma UpsertCarried(doc: Document, section: SectionRef, entries: Record)
    requires Carries(doc, section, entries)
    ensures SettleAll(Upsert(doc, section, entries)) == SettleAll(doc)
  {
    hide SectionBounds, HoldsAll, Settle, UpsertBody;
    var b := SectionBounds(doc, section).value;
    var body := doc[b.start..b.end];
    RewriteHeld(body, entries);
    Seqs.Cut(doc, b.start, b.end);
    SettlePieces(doc[..b.start], body, doc[b.end..]);
    SettlePieces(doc[..b.start], UpsertBody(body, entries), doc[b.end..]);
  }

  lemma SettlePieces(a: Document, b: Document, c: Document)
    ensures SettleAll(a + b + c) == SettleAll(a) + SettleAll(b) + SettleAll(c)
  {
    hide Settle;
  }

  lemma RemoveAbsent(doc: Document, section: SectionRef, keys: seq<string>)
    requires Keys(SectionValues(doc, section)) !! TrimmedKeys(keys)
    ensures RemoveKeys(doc, section, keys) == doc
  {
    hide SectionBounds, Trim;
    var c := SectionBounds(doc, section);
    if c.Some? {
      var body := doc[c.value.start..c.value.end];
      StrikeAbsent(body, TrimmedKeys(keys));
      Seqs.Cut(doc, c.value.start, c.value.end);
    }
  }

  lemma {:induction false} StrikeAbsent(body: Document, ks: set<string>)
    requires Keys(Read(body)) !! ks
    ensures RemoveFromBody(body, ks) == body
    decreases |body|
  {
    hide Trim, Put;
    if body != [] {
      var n := |body| - 1;
      assert body == body[..n] + [body[n]];
      if body[n].KeyValue? {
        PutKeys(Read(body[..n]), Trim(body[n].key), body[n].value);
      }
      StrikeAbsent(body[..n], ks);
      StrikeConcat(body[..n], [body[n]], ks);
      assert [body[n]][1..] == [];
    }
  }

  lemma PutKeys(r: Record, key: string, value: string)
    ensures Keys(Put(r, key, value)) == Keys(r) + {key}
  {
    forall k ensures k in Keys(Put(r, key, value)) <==> k in Keys(r) || k == key {
      GetPut(r, key, value, k);
      GetKeys(r, k);
      GetKeys(Put(r, key, value), k);
    }
  }

  // ----- one model's edits -----

  function SectionOf(m: Model): SectionRef {
    Some(m.id)
  }

  lemma PresetModelReads(doc: Document, m: Model)
    ensures SectionValues(PresetModel(doc, m), SectionOf(m))
         == Without(Merge(SectionValues(doc, SectionOf(m)), WrittenEntries(SourceValues(m))), TrimmedKeys(LOAD))
    ensures forall other :: !SameSection(other, SectionOf(m)) ==>
      && SectionValues(PresetModel(doc, m), other) == SectionValues(doc, other)
      && (SectionBounds(PresetModel(doc, m), other).Some? <==> SectionBounds(doc, other).Some?)
    ensures SectionBounds(PresetModel(doc, m), SectionOf(m)).Some?
    ensures SectionNames(PresetModel(doc, m))
         == SectionNames(doc) + (if SectionBounds(doc, SectionOf(m)).None? then [m.id] else [])
  {
    hide Upsert, RemoveKeys, SectionBounds, SourceValues, SectionNames, Trim, Merge, SectionValues;
    UpsertReads(doc, SectionOf(m), SourceValues(m));
    RemoveKeysReads(Upsert(doc, SectionOf(m), SourceValues(m)), SectionOf(m), LOAD);
    NamesAfterUpsert(doc, SectionOf(m), SourceValues(m));
    NamesAfterRemoveKeys(Upsert(doc, SectionOf(m), SourceValues(m)), SectionOf(m), LOAD);
  }

  /** What every section reads once each model's edits have been made. */
  lemma {:induction false} PresetModelsReads(doc: Document, models: seq<Model>, section: SectionRef)
    requires DistinctIds(models)
    ensures forall j :: 0 <= j < |models| && SameSection(section, SectionOf(models[j])) ==>
      SectionValues(PresetModels(doc, models), section)
      == Without(Merge(SectionValues(doc, section), WrittenEntries(SourceValues(models[j]))), TrimmedKeys(LOAD))
    ensures (forall j :: 0 <= j < |models| ==> !SameSection(section, SectionOf(models[j]))) ==>
      SectionValues(PresetModels(doc, models), section) == SectionValues(doc, section)
    ensures SectionBounds(doc, section).Some? ==> SectionBounds(PresetModels(doc, models), section).Some?
    decreases |models|
  {
    hide SectionBounds, SourceValues, Merge, SectionValues, PresetModel, TrimmedKeys, Trim;
    if models != [] {
      var n := |models| - 1;
      var init, m := models[..n], models[n];
      var before := PresetModels(doc, init);
      PresetModelsReads(doc, init, section);
      PresetModelReads(before, m);
      assert forall j :: 0 <= j < n ==> init[j] == models[j];
      assert forall j :: 0 <= j < n ==> Trim(models[j].id) != Trim(m.id);
      if SameSection(section, SectionOf(m)) {
        assert forall j :: 0 <= j < n ==> !SameSection(section, SectionOf(init[j]));
        SameValues(before, section, SectionOf(m));
        SameValues(PresetModel(before, m), section, SectionOf(m));
        BodyOfSame(PresetModel(before, m), section, SectionOf(m));
      }
    }
  }

  lemma SameValues(doc: Document, a: SectionRef, b: SectionRef)
    requires SameSection(a, b)
    ensures SectionValues(doc, a) == SectionValues(doc, b)
  {
    BodyOfSame(doc, a, b);
  }

  lemma {:induction false} PresetModelsNames(doc: Document, models: seq<Model>)
    requires forall j :: 0 <= j < |models| ==> SectionBounds(doc, SectionOf(models[j])).Some?
    requires DistinctIds(models)
    ensures SectionNames(PresetModels(doc, models)) == SectionNames(doc)
    decreases |models|
  {
    hide SectionBounds, SectionNames, PresetModel, Trim, SectionValues, Merge, Without, WrittenEntries, SourceValues,
         TrimmedKeys, SameSection;
    if models != [] {
      var n := |models| - 1;
      PresetModelsNames(doc, models[..n]);
      PresetModelsReads(doc, models[..n], SectionOf(models[n]));
      PresetModelReads(PresetModels(doc, models[..n]), models[n]);
      assert SectionNames(doc) + [] == SectionNames(doc);
    }
  }

  // ----- faithfulness of the whole chain -----

  predicate WritableModels(doc: Document, models: seq<Model>) {
    forall j :: 0 <= j < |models| ==>
      PrintableKeys(SourceValues(models[j])) && Writable(doc, SectionOf(models[j]))
  }

  lemma PresetModelFaithful(doc: Document, m: Model)
    requires FaithfulDoc(doc) && PlainKeys(doc)
    requires PrintableKeys(SourceValues(m)) && Writable(doc, SectionOf(m))
    ensures FaithfulDoc(PresetModel(doc, m)) && PlainKeys(PresetModel(doc, m))
  {
    hide Upsert, RemoveKeys, SectionBounds, SourceValues, FaithfulDoc, PlainKeys, PrintableKeys, PrintableEntries,
         PrintableName;
    PrintableKeysRead(SourceValues(m));
    UpsertFaithful(doc, SectionOf(m), SourceValues(m));
    PlainUpsert(doc, SectionOf(m), SourceValues(m));
    var d := Upsert(doc, SectionOf(m), SourceValues(m));
    RemoveKeysFaithful(d, SectionOf(m), LOAD);
    PlainRemoveKeys(d, SectionOf(m), LOAD);
  }

  lemma {:induction false} PresetModelsFaithful(doc: Document, models: seq<Model>)
    requires FaithfulDoc(doc) && PlainKeys(doc) && WritableModels(doc, models) && DistinctIds(models)
    ensures FaithfulDoc(PresetModels(doc, models)) && PlainKeys(PresetModels(doc, models))
    decreases |models|
  {
    hide SectionBounds, SourceValues, FaithfulDoc, PlainKeys, PrintableKeys, PrintableName, PresetModel, Trim;
    if models != [] {
      var n := |models| - 1;
      var init := models[..n];
      assert WritableModels(doc, init) by {
        assert forall j :: 0 <= j < n ==> init[j] == models[j];
      }
      PresetModelsFaithful(doc, init);
      PresetModelsReads(doc, init, SectionOf(models[n]));
      PresetModelFaithful(PresetModels(doc, init), models[n]);
    }
  }

  // ----- what each step carries on -----

  lemma {:induction false} HoldsAfterStrike(body: Document, ks: set<string>, k: string, v: string)
    requires Holds(body, k, v) && Trim(k) !in ks
    ensures Holds(RemoveFromBody(body, ks), k, v)
    decreases |body|
  {
    hide Trim, Settle, Written;
    var n := |body| - 1;
    var init, last := body[..n], [body[n]];
    assert body == init + last;
    StrikeConcat(init, last, ks);
    assert last[1..] == [];
    LastEntryConcat(init, last, k);
    LastEntryConcat(RemoveFromBody(init, ks), RemoveFromBody(last, ks), k);
    LastOfOne(body[n], k);
    NoLast(k);
    if !IsEntryOf(body[n], k) {
      HoldsAfterStrike(init, ks, k, v);
    }
  }

  lemma HoldsBlankTail(body: Document, entries: Record)
    requires HoldsAll(body, entries)
    ensures HoldsAll(body + [Blank("")], entries)
  {
    hide Trim, Settle, Written, LastEntry;
    forall i | 0 <= i < |entries| ensures Holds(body + [Blank("")], entries[i].0, entries[i].1) {
      assert Holds(body, entries[i].0, entries[i].1);
      LastEntryConcat(body, [Blank("")], entries[i].0);
      LastOfOne(Blank(""), entries[i].0);
    }
  }

  lemma CarriesWithSection(doc: Document, section: SectionRef, other: SectionRef, held: Record)
    requires !SameSection(other, section) && Carries(doc, other, held)
    ensures Carries(WithSection(doc, section), other, held)
  {
    hide HoldsAll, Trim;
    if SectionBounds(doc, section).None? {
      var base := doc + Gap(doc) + [Section(section.value, None, true)];
      assert WithSection(doc, section) == base;
      AppendAfter(doc, Gap(doc), section.value, other);
      var body := Body(doc, other);
      HoldsBlankTail(body, held);
      assert Body(base, other) == body || Body(base, other) == body + [Blank("")] by {
        assert body + [] == body;
      }
    }
  }

  lemma CarriesUpsertOther(doc: Document, section: SectionRef, entries: Record, other: SectionRef, held: Record)
    requires !SameSection(other, section) && Carries(doc, other, held)
    ensures Carries(Upsert(doc, section, entries), other, held)
  {
    hide HoldsAll, Trim, SectionBounds, WithSection, UpsertBody;
    CarriesWithSection(doc, section, other, held);
    var base := WithSection(doc, section);
    var b := SectionBounds(base, section).value;
    EditBody(base, section, UpsertBody(base[b.start..b.end], entries));
  }

  lemma CarriesRemoveOther(doc: Document, section: SectionRef, keys: seq<string>, other: SectionRef, held: Record)
    requires !SameSection(other, section) && Carries(doc, other, held)
    ensures Carries(RemoveKeys(doc, section, keys), other, held)
  {
    hide HoldsAll, Trim, SectionBounds, RemoveFromBody;
    var c := SectionBounds(doc, section);
    if c.Some? {
      var body := doc[c.value.start..c.value.end];
      var r := RemoveFromBody(body, TrimmedKeys(keys));
      assert forall i :: 0 <= i < |r| ==> r[i] in body;
      EditBody(doc, section, r);
    }
  }

  predicate DistinctTrimmed(entries: Record) {
    forall i, j :: 0 <= i < j < |entries| ==> Trim(entries[i].0) != Trim(entries[j].0)
  }

  lemma UpsertCarries(doc: Document, section: SectionRef, entries: Record)
    requires DistinctTrimmed(entries)
    ensures Carries(Upsert(doc, section, entries), section, entries)
  {
    hide HoldsAll, Trim, SectionBounds, WithSection, UpsertBody;
    var base := WithSection(doc, section);
    var b := SectionBounds(base, section).value;
    var body := base[b.start..b.end];
    WrittenHolds(body, entries);
    EditBody(base, section, UpsertBody(body, entries));
  }

  lemma SourceDistinct(m: Model)
    requires CleanExtra(m.params.extra)
    ensures DistinctTrimmed(SourceValues(m))
    ensures forall i :: 0 <= i < |SourceValues(m)| ==> Trim(SourceValues(m)[i].0) !in TrimmedKeys(LOAD)
  {
    hide Trim, SourceValues;
    SourceReads(m);
    SourceKeysTrimmed(m);
    LoadKey();
    var s := SourceValues(m);
    forall i | 0 <= i < |s| ensures Trim(s[i].0) !in TrimmedKeys(LOAD) {
      assert s[i].0 in Keys(s);
    }
  }

  lemma LoadKey()
    ensures TrimmedKeys(LOAD) == {"load-on-startup"}
  {
    ConstantsTrimmed();
    assert LOAD[0] == "load-on-startup";
    assert Trim(LOAD[0]) in TrimmedKeys(LOAD);
  }

  /** The section carries the model, and nothing in it asks to be loaded on startup. */
  predicate CarriesModel(doc: Document, m: Model) {
    Carries(doc, SectionOf(m), SourceValues(m))
    && "load-on-startup" !in Keys(SectionValues(doc, SectionOf(m)))
  }

  lemma PresetModelCarries(doc: Document, m: Model)
    requires CleanExtra(m.params.extra)
    ensures CarriesModel(PresetModel(doc, m), m)
  {
    hide Trim, SourceValues, SectionBounds, Holds, Upsert, RemoveFromBody, TrimmedKeys, Merge, SectionValues;
    SourceDistinct(m);
    var section, source := SectionOf(m), SourceValues(m);
    UpsertCarries(doc, section, source);
    var d := Upsert(doc, section, source);
    RemoveKeysBody(d, section, LOAD);
    RemoveKeysReads(d, section, LOAD);
    forall i | 0 <= i < |source|
      ensures Holds(RemoveFromBody(Body(d, section), TrimmedKeys(LOAD)), source[i].0, source[i].1)
    {
      assert Holds(Body(d, section), source[i].0, source[i].1);
      HoldsAfterStrike(Body(d, section), TrimmedKeys(LOAD), source[i].0, source[i].1);
    }
    LoadKey();
    KeysWithout(SectionValues(d, section), TrimmedKeys(LOAD));
  }

  lemma CarriesPresetOther(doc: Document, m: Model, other: SectionRef, held: Record)
    requires !SameSection(other, SectionOf(m)) && Carries(doc, other, held)
    ensures Carries(PresetModel(doc, m), other, held)
    ensures SectionValues(PresetModel(doc, m), other) == SectionValues(doc, other)
  {
    hide Carries, Upsert, RemoveKeys, SourceValues, SectionValues, SameSection;
    CarriesUpsertOther(doc, SectionOf(m), SourceValues(m), other, held);
    CarriesRemoveOther(Upsert(doc, SectionOf(m), SourceValues(m)), SectionOf(m), LOAD, other, held);
    PresetModelReads(doc, m);
  }

  predicate CleanModels(models: seq<Model>) {
    DistinctIds(models) && forall j :: 0 <= j < |models| ==> CleanExtra(models[j].params.extra)
  }

  lemma {:induction false} PresetModelsCarry(doc: Document, models: seq<Model>)
    requires CleanModels(models)
    ensures forall j :: 0 <= j < |models| ==> CarriesModel(PresetModels(doc, models), models[j])
    decreases |models|
  {
    hide Carries, PresetModel, SourceValues, SectionValues, CleanExtra, Trim;
    if models != [] {
      var n := |models| - 1;
      var init, m := models[..n], models[n];
      assert forall j :: 0 <= j < n ==> init[j] == models[j];
      PresetModelsCarry(doc, init);
      PresetModelCarries(PresetModels(doc, init), m);
      forall j | 0 <= j < n ensures CarriesModel(PresetModels(doc, models), models[j]) {
        assert CarriesModel(PresetModels(doc, init), init[j]);
        CarriesPresetOther(PresetModels(doc, init), m, SectionOf(models[j]), SourceValues(models[j]));
      }
    }
  }

  lemma {:induction false} CarriesPresetModels(doc: Document, models: seq<Model>, other: SectionRef, held: Record)
    requires forall j :: 0 <= j < |models| ==> !SameSection(other, SectionOf(models[j]))
    requires Carries(doc, other, held)
    ensures Carries(PresetModels(doc, models), other, held)
    decreases |models|
  {
    hide Carries, PresetModel, SectionValues, SameSection;
    if models != [] {
      var n := |models| - 1;
      CarriesPresetModels(doc, models[..n], other, held);
      CarriesPresetOther(PresetModels(doc, models[..n]), models[n], other, held);
    }
  }

  /** The document says everything a preset of `s` would write. */
  predicate Stamped(doc: Document, s: State) {
    && Carries(doc, None, VERSION)
    && Carries(doc, Some(GLOBAL_SECTION), s.globalModelParams)
    && forall j :: 0 <= j < |s.models| ==> CarriesModel(doc, s.models[j])
  }

  /** A state whose models have sections of their own. */
  predicate CleanState(s: State) {
    && CleanModels(s.models) && DistinctTrimmed(s.globalModelParams)
    && forall j :: 0 <= j < |s.models| ==> Trim(s.models[j].id) != GLOBAL_SECTION
  }

  lemma PresetStamps(doc: Document, s: State)
    requires CleanState(s)
    ensures Stamped(PresetDocument(doc, s), s)
  {
    hide Carries, Upsert, CarriesModel, CleanModels, PresetModels, DistinctTrimmed, Trim;
    var d1 := Upsert(doc, None, VERSION);
    var d2 := Upsert(d1, Some(GLOBAL_SECTION), s.globalModelParams);
    StarIsTrimmed();
    assert DistinctTrimmed(VERSION) by { VersionDistinct(); }
    UpsertCarries(doc, None, VERSION);
    CarriesUpsertOther(d1, Some(GLOBAL_SECTION), s.globalModelParams, None, VERSION);
    UpsertCarries(d1, Some(GLOBAL_SECTION), s.globalModelParams);
    CarriesPresetModels(d2, s.models, None, VERSION);
    CarriesPresetModels(d2, s.models, Some(GLOBAL_SECTION), s.globalModelParams);
    PresetModelsCarry(d2, s.models);
  }

  lemma VersionDistinct()
    ensures DistinctTrimmed(VERSION)
  {
  }

  lemma PresetModelStamped(doc: Document, d: Document, m: Model)
    requires SettleAll(d) == SettleAll(doc) && CarriesModel(doc, m) && CleanExtra(m.params.extra)
    ensures SettleAll(PresetModel(d, m)) == SettleAll(doc)
  {
    hide Carries, Upsert, RemoveKeys, SourceValues, SettleAll, SectionValues, TrimmedKeys, CleanExtra;
    var section, source := SectionOf(m), SourceValues(m);
    CarriesSettled(doc, d, section, source);
    UpsertCarried(d, section, source);
    var u := Upsert(d, section, source);
    BodyKeptBySettling(doc, u, section);
    BodyKeptBySettling(u, u, section);
    KeysOfTrimmed(SectionValues(u, section));
    KeysOfTrimmed(SectionValues(doc, section));
    LoadKey();
    RemoveAbsent(u, section, LOAD);
  }

  lemma KeysOfTrimmed(r: Record)
    ensures Keys(TrimValues(r)) == Keys(r)
  {
    KeysOfSameKeys(TrimValues(r), r);
  }

  lemma {:induction false} PresetModelsStamped(doc: Document, d: Document, models: seq<Model>)
    requires SettleAll(d) == SettleAll(doc) && CleanModels(models)
    requires forall j :: 0 <= j < |models| ==> CarriesModel(doc, models[j])
    ensures SettleAll(PresetModels(d, models)) == SettleAll(doc)
    decreases |models|
  {
    hide CarriesModel, PresetModel, SettleAll, CleanExtra, Trim;
    if models != [] {
      var n := |models| - 1;
      assert CleanModels(models[..n]);
      PresetModelsStamped(doc, d, models[..n]);
      PresetModelStamped(doc, PresetModels(d, models[..n]), models[n]);
    }
  }

  /** Writing a preset over a document that already carries it changes no line. */
  lemma PresetOfStamped(doc: Document, s: State)
    requires Stamped(doc, s) && CleanState(s)
    ensures SettleAll(PresetDocument(doc, s)) == SettleAll(doc)
    ensures Print(PresetDocument(doc, s)) == Print(doc)
  {
    hide Carries, CarriesModel, Upsert, SettleAll, CleanModels, PresetModels, Print;
    var d1 := Upsert(doc, None, VERSION);
    UpsertCarried(doc, None, VERSION);
    CarriesSettled(doc, d1, Some(GLOBAL_SECTION), s.globalModelParams);
    UpsertCarried(d1, Some(GLOBAL_SECTION), s.globalModelParams);
    var d2 := Upsert(d1, Some(GLOBAL_SECTION), s.globalModelParams);
    PresetModelsStamped(doc, d2, s.models);
    PrintBySettling(PresetDocument(doc, s), doc);
  }

  lemma PrintBySettling(a: Document, b: Document)
    requires SettleAll(a) == SettleAll(b)
    ensures Print(a) == Print(b)
  {
    hide Settle, PrintNode;
    assert |a| == |SettleAll(a)| == |b|;
    forall i | 0 <= i < |a| ensures PrintNode(a[i]) == PrintNode(b[i]) {
      SettleTwice(a[i]);
      SettleTwice(b[i]);
      assert SettleAll(a)[i] == SettleAll(b)[i];
    }
    assert Lines(a) == Lines(b);
  }
}
