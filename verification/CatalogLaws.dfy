/** Read-after-write for the store: what the catalog says once an update has gone through the text. */
module CatalogLaws {
  import opened Text
  import opened Records
  import opened ModelsIni
  import opened ModelsIniLaws
  import opened Catalog
  import opened CatalogReadings
  import Seqs

  // ----- a synchronised world -----

  /** The state is a reading of the text, and the text is an orderly file. */
  ghost predicate InSync(w: World) {
    var doc := Parse(w.preset);
    && w.preset != "" && Orderly(doc)
    && w.state.globalModelParams == GlobalParams(doc)
    && (exists previous, now :: w.state.models
          == ModelsOf(doc, SectionNames(doc), previous, GlobalContextSize(GlobalParams(doc)), now))
    && ActiveNamesAModel(w.state)
  }

  /** The active id is null exactly when there is no model, and otherwise names one. */
  predicate ActiveNamesAModel(s: State) {
    match s.activeModelId
    case None => s.models == []
    case Some(id) => HasModel(s.models, id)
  }

  lemma SyncedActive(s: State, doc: Document, now: string)
    ensures ActiveNamesAModel(Synced(s, doc, now))
  {
    var r := Synced(s, doc, now);
    if r.models != [] {
      assert r.models[0].id == r.models[0].id;
    }
  }

  lemma SyncGivesInSync(w: World, now: string)
    requires EnsuredText(w.state, w.preset) != "" && Orderly(Parse(EnsuredText(w.state, w.preset)))
    ensures InSync(SyncWorld(w, now))
  {
    SyncedActive(w.state, Parse(EnsuredText(w.state, w.preset)), now);
  }

  /** Reading again finds nothing new. */
  lemma ResyncIsIdentity(w: World, now: string)
    requires InSync(w)
    ensures SyncWorld(w, now) == w
  {
    hide Parse, SectionValues, ModelFromValues, Settled;
    var doc := Parse(w.preset);
    var g := GlobalContextSize(GlobalParams(doc));
    var previous, earlier :| w.state.models == ModelsOf(doc, SectionNames(doc), previous, g, earlier);
    ResyncModels(doc, SectionNames(doc), previous, g, earlier, now);
  }

  // ----- what a model's section reads after it is written -----

  /** The model as its own section will describe it: one-line, trimmed, freshly normalised. */
  function ReadBack(m: Model, g: Option<nat>): Model {
    m.(name := if Tidy(m.name) != "" then Tidy(m.name) else m.name,
       params := NormalizeModelParams(TidyEntries(m.params.extra), g))
  }

  predicate CleanExtra(extra: Record) {
    && DistinctKeys(extra) && Keys(extra) !! RESERVED_MODEL_KEYS && "" !in Keys(extra)
    && (forall i :: 0 <= i < |extra| ==> Trim(extra[i].0) == extra[i].0)
  }

  function SourceBase(m: Model): Record {
    [("hf-repo", m.hfRef), ("alias", if m.name != "" then m.name else m.hfRef)]
    + (if m.pinned then [("offline", "1")] else [])
  }

  lemma SourceReads(m: Model)
    requires CleanExtra(m.params.extra)
    ensures var s := SourceValues(m);
      && DistinctKeys(s)
      && Get(s, "hf-repo") == Some(m.hfRef)
      && Get(s, "alias") == Some(if m.name != "" then m.name else m.hfRef)
      && Get(s, "offline") == (if m.pinned then Some("1") else None)
      && "load-on-startup" !in Keys(s) && "" !in Keys(s)
      && Unreserved(s) == m.params.extra
  {
    var base, extra := SourceBase(m), m.params.extra;
    BaseReads(m);
    MergeDistinct(base, extra);
    forall k | k in RESERVED_MODEL_KEYS + {""} ensures Get(SourceValues(m), k) == Get(base, k) {
      GetMerge(base, extra, k);
      LastIn(extra, k);
    }
    GetKeys(SourceValues(m), "load-on-startup");
    GetKeys(SourceValues(m), "");
    WithoutMerge(base, extra, RESERVED_MODEL_KEYS);
    WithoutAll(base, RESERVED_MODEL_KEYS);
    WithoutNone(extra, RESERVED_MODEL_KEYS);
    MergeFresh(extra);
  }

  lemma BaseReads(m: Model)
    ensures var base := SourceBase(m);
      && DistinctKeys(base) && Keys(base) <= RESERVED_MODEL_KEYS
      && Get(base, "hf-repo") == Some(m.hfRef)
      && Get(base, "alias") == Some(if m.name != "" then m.name else m.hfRef)
      && Get(base, "offline") == (if m.pinned then Some("1") else None)
      && Get(base, "load-on-startup") == None && Get(base, "") == None
  {
    var base, pin := SourceBase(m), if m.pinned then [("offline", "1")] else [];
    forall k
      ensures Get(base, k)
           == if k == base[0].0 then Some(base[0].1) else if k == base[1].0 then Some(base[1].1) else Get(pin, k)
    {
      GetAppend([base[0], base[1]], pin, k);
      GetAppend([base[0]], [base[1]], k);
      assert [base[0]] + [base[1]] == [base[0], base[1]];
    }
    assert pin != [] ==> pin[1..] == [];
    assert |"hf-repo"| == 7 && |"alias"| == 5 && |"offline"| == 7 && |"load-on-startup"| == 15;
    assert Get(pin, "load-on-startup") == None && Get(pin, "") == None;
  }

  lemma TidyCons(e: (string, string), r: Record)
    requires Trim(e.0) == e.0
    ensures TidyEntries([e] + r) == [(e.0, Tidy(e.1))] + TidyEntries(r)
  {
    hide Tidy, Trim;
    var t := TidyEntries([e] + r);
    forall i | 0 <= i < |t| ensures t[i] == ([(e.0, Tidy(e.1))] + TidyEntries(r))[i] {
      if i > 0 {
        assert ([e] + r)[i] == r[i - 1];
      }
    }
  }

  lemma {:induction false} GetTidy(r: Record, k: string)
    requires forall i :: 0 <= i < |r| ==> Trim(r[i].0) == r[i].0
    ensures Get(TidyEntries(r), k) == match Get(r, k) case None => None case Some(v) => Some(Tidy(v))
  {
    hide Tidy, Trim, TidyEntries;
    if r == [] {
      assert TidyEntries(r) == [];
    } else {
      assert r == [r[0]] + r[1..];
      TidyCons(r[0], r[1..]);
      var t := TidyEntries(r);
      assert t[0] == (r[0].0, Tidy(r[0].1)) && t[1..] == TidyEntries(r[1..]);
      GetTidy(r[1..], k);
    }
  }

  lemma {:induction false} WithoutTidy(r: Record, keys: set<string>)
    requires forall i :: 0 <= i < |r| ==> Trim(r[i].0) == r[i].0
    ensures Without(TidyEntries(r), keys) == TidyEntries(Without(r, keys))
  {
    hide Tidy, Trim, TidyEntries;
    if r == [] {
      assert TidyEntries(r) == [];
    } else {
      assert r == [r[0]] + r[1..];
      TidyCons(r[0], r[1..]);
      var t := TidyEntries(r);
      assert t[0] == (r[0].0, Tidy(r[0].1)) && t[1..] == TidyEntries(r[1..]);
      WithoutTidy(r[1..], keys);
      TidyCons(r[0], Without(r[1..], keys));
    }
  }

  lemma TidyRecordLaws(r: Record, keys: set<string>, k: string)
    requires forall i :: 0 <= i < |r| ==> Trim(r[i].0) == r[i].0
    ensures Get(TidyEntries(r), k) == (match Get(r, k) case None => None case Some(v) => Some(Tidy(v)))
    ensures Without(TidyEntries(r), keys) == TidyEntries(Without(r, keys))
  {
    hide Tidy, Trim, TidyEntries, Get, Without;
    GetTidy(r, k);
    WithoutTidy(r, keys);
  }

  lemma TidyEntriesShape(r: Record)
    requires DistinctKeys(r) && forall i :: 0 <= i < |r| ==> Trim(r[i].0) == r[i].0
    ensures DistinctKeys(TidyEntries(r)) && TidyRecord(TidyEntries(r)) && Keys(TidyEntries(r)) == Keys(r)
  {
    forall i | 0 <= i < |r| ensures Tidy(Tidy(r[i].1)) == Tidy(r[i].1) {
      TidyShape(r[i].1);
      TidyShape(Tidy(r[i].1));
    }
    KeysOfSameKeys(TidyEntries(r), r);
  }

  /** The values of a model's section after the edit, before or after other keys were cleared. */
  function SectionAfter(v: Record, m: Model): Record {
    SectionEdit(v, m, TrimmedKeys(StruckKeys(m)))
  }

  /** A section's values once a model's own have been written over them and `struck` keys removed. */
  function SectionEdit(v: Record, m: Model, struck: set<string>): Record {
    Without(Merge(v, TidyEntries(SourceValues(m))), struck)
  }

  lemma StruckAre(m: Model)
    ensures TrimmedKeys(StruckKeys(m)) == (if m.pinned then {"load-on-startup"} else {"load-on-startup", "offline"})
  {
    ConstantsTrimmed();
    var ks := StruckKeys(m);
    assert ks[0] == "load-on-startup";
    assert Trim(ks[0]) in TrimmedKeys(ks);
    if !m.pinned {
      assert ks[1] == "offline";
      assert Trim(ks[1]) in TrimmedKeys(ks);
    }
  }

  lemma ConstantsTrimmed()
    ensures Trim("load-on-startup") == "load-on-startup" && Trim("offline") == "offline"
    ensures Trim("hf-repo") == "hf-repo" && Trim("alias") == "alias" && Trim("version") == "version"
    ensures Trim("1") == "1" && Tidy("1") == "1"
  {
    TrimTrimmed("load-on-startup");
    TrimTrimmed("offline");
    TrimTrimmed("hf-repo");
    TrimTrimmed("alias");
    TrimTrimmed("version");
    TrimTrimmed("1");
    TidyShape("1");
  }

  lemma SourceKeysTrimmed(m: Model)
    requires CleanExtra(m.params.extra)
    ensures forall i :: 0 <= i < |SourceValues(m)| ==> Trim(SourceValues(m)[i].0) == SourceValues(m)[i].0
  {
    hide Trim;
    ConstantsTrimmed();
    MergeEach(SourceBase(m), m.params.extra);
    forall i | 0 <= i < |SourceValues(m)| ensures Trim(SourceValues(m)[i].0) == SourceValues(m)[i].0 {
      var e := SourceValues(m)[i];
      assert e in SourceValues(m);
      assert e in SourceBase(m) || e in m.params.extra;
    }
  }

  lemma EditLookup(v: Record, m: Model, struck: set<string>, k: string)
    requires CleanExtra(m.params.extra)
    ensures Get(SectionEdit(v, m, struck), k)
         == (if k in struck then None
             else match Get(SourceValues(m), k) case Some(x) => Some(Tidy(x)) case None => Get(v, k))
  {
    hide Tidy, Trim, SourceValues;
    var t := TidyEntries(SourceValues(m));
    SourceReads(m);
    SourceKeysTrimmed(m);
    TidyRecordLaws(SourceValues(m), {}, k);
    TidyEntriesShape(SourceValues(m));
    LastIsGet(t, k);
    GetMerge(v, t, k);
    GetWithout(Merge(v, t), struck, k);
  }

  lemma EditUnreserved(v: Record, m: Model, struck: set<string>)
    requires CleanExtra(m.params.extra) && struck <= RESERVED_MODEL_KEYS
    ensures Unreserved(SectionEdit(v, m, struck)) == Merge(Unreserved(v), TidyEntries(m.params.extra))
  {
    hide Tidy, Trim, SourceValues;
    var s := SourceValues(m);
    SourceReads(m);
    SourceKeysTrimmed(m);
    WithoutTwice(Merge(v, TidyEntries(s)), struck, RESERVED_MODEL_KEYS);
    assert struck + RESERVED_MODEL_KEYS == RESERVED_MODEL_KEYS;
    WithoutMerge(v, TidyEntries(s), RESERVED_MODEL_KEYS);
    TidyRecordLaws(s, RESERVED_MODEL_KEYS, "");
  }

  lemma TruthyOne()
    ensures IsTruthyIniValue(Some("1"))
  {
    ConstantsTrimmed();
    assert LowerAscii('1') == '1' && LowerCase("1") == "1";
  }

  /** Reading a written section gives the model that was written, tidied, whatever was there before. */
  lemma WrittenModelReads(v: Record, m: Model, previous: Option<Model>, g: Option<nat>, now: string)
    requires CleanExtra(m.params.extra) && m.hfRef != "" && Tidy(m.hfRef) == m.hfRef && m.name != ""
    requires previous.Some? && previous.value.createdAt == m.createdAt
    requires Tidy(m.name) == "" ==> previous.value.name == m.name
    requires m.repoId == RepoOf(m.hfRef) && m.quant == QuantOf(m.hfRef)
    requires NormalizeParams(Merge(Unreserved(v), TidyEntries(m.params.extra)))
          == NormalizeParams(TidyEntries(m.params.extra))
    ensures ModelFromValues(SectionAfter(v, m), m.id, previous, g, now) == Some(ReadBack(m, g))
  {
    hide Tidy, Trim, SectionEdit, SourceValues, StruckKeys, NormalizeParams, ContextSizeFromParams, SplitHuggingFaceRef;
    SourceReads(m);
    var struck := TrimmedKeys(StruckKeys(m));
    assert SectionAfter(v, m) == SectionEdit(v, m, struck);
    StruckAre(m);
    EditLookup(v, m, struck, "hf-repo");
    EditLookup(v, m, struck, "alias");
    EditLookup(v, m, struck, "offline");
    EditUnreserved(v, m, struck);
    ConstantsTrimmed();
    TruthyOne();
    TidyShape(m.name);
    TrimTrimmed(Tidy(m.name));
  }

  function RepoOf(hfRef: string): Option<string> {
    var ref := SplitHuggingFaceRef(hfRef);
    if ref.Some? then Some(ref.value.0) else None
  }

  function QuantOf(hfRef: string): Option<string> {
    var ref := SplitHuggingFaceRef(hfRef);
    if ref.Some? then Some(ref.value.1) else None
  }

  // ----- orderly files stay orderly -----

  predicate PlainNode(n: Node) {
    n.KeyValue? ==> n.key == [] || n.key[0] != '['
  }

  lemma {:induction false} PlainUpsertBody(body: Document, entries: Record)
    requires PlainKeys(body) && PrintableKeys(entries)
    ensures PlainKeys(UpsertBody(body, entries))
    decreases |entries|
  {
    hide UpsertEntry, PlainKeys;
    if entries != [] {
      var n := |entries| - 1;
      PlainUpsertBody(body, entries[..n]);
      PlainUpsertEntry(UpsertBody(body, entries[..n]), entries[n].0, entries[n].1);
    }
  }

  lemma PlainUpsertEntry(body: Document, key: string, value: string)
    requires PlainKeys(body) && PrintableKey(key)
    ensures PlainKeys(UpsertEntry(body, key, value))
  {
    hide Trim, ReplaceNewlines, LastEntry, InsertIndex;
    assert PlainNode(Written(key, value));
  }

  lemma PlainUpsert(doc: Document, section: SectionRef, entries: Record)
    requires PlainKeys(doc) && PrintableKeys(entries)
    ensures PlainKeys(Upsert(doc, section, entries))
  {
    hide SectionBounds, UpsertBody, PrintableKeys;
    var base := WithSection(doc, section);
    assert PlainKeys(base);
    var b := SectionBounds(base, section).value;
    PlainUpsertBody(base[b.start..b.end], entries);
  }

  lemma PlainRemoveKeys(doc: Document, section: SectionRef, keys: seq<string>)
    requires PlainKeys(doc)
    ensures PlainKeys(RemoveKeys(doc, section, keys))
  {
    hide SectionBounds, RemoveFromBody;
    var c := SectionBounds(doc, section);
    if c.Some? {
      var body := doc[c.value.start..c.value.end];
      var r := RemoveFromBody(body, TrimmedKeys(keys));
      assert forall i :: 0 <= i < |r| ==> r[i] in body;
    }
  }

  lemma PlainSettled(doc: Document)
    requires PlainKeys(doc)
    ensures PlainKeys(SettleAll(doc))
  {
  }

  /** A printed edit of an orderly file is orderly when its names are still in order. */
  lemma StillOrderly(next: Document)
    requires FaithfulDoc(next) && PlainKeys(next)
    requires DistinctNames(SectionNames(next)) && PlainStar(SectionNames(next))
    ensures Orderly(Parse(Print(next))) && SectionNames(Parse(Print(next))) == SectionNames(next)
    ensures next != [] ==> Print(next) != ""
  {
    hide Faithful, Settled, Parse;
    ParseAfterPrint(next);
    ParsedSettled(Print(next));
    NamesSettled(next);
    PlainSettled(next);
  }

  lemma TrimCons(e: (string, string), r: Record)
    ensures TrimValues([e] + r) == [(e.0, Trim(e.1))] + TrimValues(r)
  {
    hide Trim;
  }

  lemma {:induction false} TrimWithout(r: Record, keys: set<string>)
    ensures TrimValues(Without(r, keys)) == Without(TrimValues(r), keys)
  {
    hide Trim, TrimValues;
    if r == [] {
      assert TrimValues(r) == [];
    } else {
      assert r == [r[0]] + r[1..];
      TrimCons(r[0], r[1..]);
      var t := TrimValues(r);
      assert t[0] == (r[0].0, Trim(r[0].1)) && t[1..] == TrimValues(r[1..]);
      TrimWithout(r[1..], keys);
      TrimCons(r[0], Without(r[1..], keys));
    }
  }

  // ----- updating a model -----

  lemma PrintableKeysRead(entries: Record)
    requires PrintableKeys(entries)
    ensures PrintableEntries(entries)
  {
    hide PrintableKey, ReadsBack;
    forall i | 0 <= i < |entries| ensures ReadsBack(entries[i].0, entries[i].1) {
      PrintableReadsBack(entries[i].0, entries[i].1);
    }
  }

  lemma ConstantsPrintable()
    ensures forall k :: k in {"hf-repo", "alias", "offline", "version"} ==> PrintableKey(k)
  {
    hide Trim;
    ConstantsTrimmed();
  }

  lemma SourcePrintable(m: Model)
    requires PrintableKeys(m.params.extra)
    ensures PrintableKeys(SourceValues(m)) && PrintableEntries(SourceValues(m))
  {
    hide PrintableKey, PrintableEntries;
    ConstantsPrintable();
    var s := SourceValues(m);
    MergeEach(SourceBase(m), m.params.extra);
    forall i | 0 <= i < |s| ensures PrintableKey(s[i].0) {
      assert s[i] in s;
      assert s[i] in SourceBase(m) || s[i] in m.params.extra;
    }
    PrintableKeysRead(s);
  }

  function ClearedValues(v: Record, replaceEditable: bool): Record {
    if replaceEditable then Without(v, TrimmedKeys(KeyList(Unreserved(v)))) else v
  }

  lemma ModelSectionReads(doc: Document, m: Model, replaceEditable: bool)
    requires SettledDoc(doc) && SectionBounds(doc, Some(m.id)).Some? && PrintableEntries(SourceValues(m))
    ensures FaithfulDoc(ModelSection(doc, m, replaceEditable))
    ensures SectionNames(ModelSection(doc, m, replaceEditable)) == SectionNames(doc)
    ensures SectionValues(Parse(Print(ModelSection(doc, m, replaceEditable))), Some(m.id))
         == SectionAfter(ClearedValues(SectionValues(doc, Some(m.id)), replaceEditable), m)
    ensures forall other :: !SameSection(other, Some(m.id)) ==>
      SectionValues(Parse(Print(ModelSection(doc, m, replaceEditable))), other) == SectionValues(doc, other)
    ensures ModelSection(doc, m, replaceEditable) != []
  {
    hide SectionBounds, Faithful, Settled, Parse, Print, SectionValues, SourceValues, StruckKeys, PrintableEntries,
         Upsert, RemoveKeys, KeyList, TrimmedKeys, Trim, Merge, Without;
    var section := Some(m.id);
    var v := SectionValues(doc, section);
    var editable := KeyList(Unreserved(v));
    var d1 := if replaceEditable then RemoveKeys(doc, section, editable) else doc;
    var d2 := Upsert(d1, section, SourceValues(m));
    var d3 := RemoveKeys(d2, section, StruckKeys(m));
    assert d3 == ModelSection(doc, m, replaceEditable);
    SettledFaithful(doc);
    RemoveKeysFaithful(doc, section, editable);
    RemoveKeysReads(doc, section, editable);
    NamesAfterRemoveKeys(doc, section, editable);
    UpsertFaithful(d1, section, SourceValues(m));
    UpsertReads(d1, section, SourceValues(m));
    NamesAfterUpsert(d1, section, SourceValues(m));
    assert SectionNames(d1) + [] == SectionNames(d1);
    RemoveKeysFaithful(d2, section, StruckKeys(m));
    RemoveKeysReads(d2, section, StruckKeys(m));
    NamesAfterRemoveKeys(d2, section, StruckKeys(m));
    var v1 := ClearedValues(v, replaceEditable);
    assert SectionValues(d1, section) == v1;
    SettledValuesTrimmed(doc, section);
    TrimWithout(v, TrimmedKeys(editable));
    TrimMerged(v1, SourceValues(m));
    TrimWithout(Merge(v1, WrittenEntries(SourceValues(m))), TrimmedKeys(StruckKeys(m)));
    ReadThroughText(d3, section);
    forall other | !SameSection(other, section)
      ensures SectionValues(Parse(Print(d3)), other) == SectionValues(doc, other)
    {
      SettledValuesTrimmed(doc, other);
      ReadThroughText(d3, other);
    }
    BoundsNonEmpty(d3, section);
  }

  lemma BoundsNonEmpty(doc: Document, section: SectionRef)
    requires section.Some? && SectionBounds(doc, section).Some?
    ensures doc != []
  {
  }

  function ContextCap(w: World): Option<nat> {
    GlobalContextSize(w.state.globalModelParams)
  }

  function Names(w: World): seq<string> {
    SectionNames(Parse(w.preset))
  }

  function ValuesOf(w: World, id: string): Record {
    SectionValues(Parse(w.preset), Some(id))
  }

  /** Each model of a world in sync is the reading of its own section. */
  lemma ModelAt(w: World, i: nat, now: string) returns (j: nat)
    requires InSync(w) && i < |w.state.models|
    ensures j < |Names(w)| && Names(w)[j] == w.state.models[i].id
    ensures PreviousById(w.state.models, w.state.models[i].id) == Some(w.state.models[i])
    ensures ModelFromValues(ValuesOf(w, w.state.models[i].id), w.state.models[i].id,
                            Some(w.state.models[i]), ContextCap(w), now) == Some(w.state.models[i])
    ensures w.state.models[i].id != GLOBAL_SECTION && Trim(w.state.models[i].id) != GLOBAL_SECTION
    ensures ModelsOf(Parse(w.preset), Names(w), w.state.models, ContextCap(w), now) == w.state.models
    ensures SectionBounds(Parse(w.preset), Some(w.state.models[i].id)).Some?
  {
    hide Parse, SectionValues, ModelFromValues, Settled, SectionBounds, SectionNames, Trim;
    var doc, names, models := Parse(w.preset), Names(w), w.state.models;
    var previous, earlier :| models == ModelsOf(doc, names, previous, ContextCap(w), earlier);
    ResyncModels(doc, names, previous, ContextCap(w), earlier, now);
    ModelIds(doc, names, models, ContextCap(w), now);
    var m := models[i];
    assert m in models;
    j :| 0 <= j < |names| && names[j] == m.id;
    PreviousOfModels(doc, names, models, ContextCap(w), now, j);
    NamesAndBounds(doc, m.id);
    assert Trim(names[j]) == Trim(m.id);
    assert HasName(names, m.id);
  }

  lemma SectionShape(w: World, i: nat, now: string)
    requires InSync(w) && i < |w.state.models|
    ensures var m, v := w.state.models[i], ValuesOf(w, w.state.models[i].id);
      && DistinctKeys(v) && TidyRecord(v) && PrintableKeys(v)
      && m.hfRef != "" && Tidy(m.hfRef) == m.hfRef && m.name != ""
      && m.repoId == RepoOf(m.hfRef) && m.quant == QuantOf(m.hfRef)
      && m.params == NormalizeModelParams(Unreserved(v), ContextCap(w))
      && m.params.extra == Without(Unreserved(v), {""})
      && CleanExtra(m.params.extra) && TidyRecord(m.params.extra) && PrintableKeys(m.params.extra)
  {
    hide Parse, Settled, SectionBounds, SectionNames, Trim, Tidy, PrintableKey, SectionValues, SplitHuggingFaceRef;
    var j := ModelAt(w, i, now);
    var m, v := w.state.models[i], ValuesOf(w, w.state.models[i].id);
    OrderlyValues(Parse(w.preset), Some(m.id));
    GetIn(v, "hf-repo");
    UnreservedShape(v);
  }

  lemma {:induction false} GetIn(r: Record, k: string)
    ensures Get(r, k).Some? ==> (k, Get(r, k).value) in r
  {
    if r != [] && r[0].0 != k {
      GetIn(r[1..], k);
    }
  }

  lemma UnreservedShape(v: Record)
    requires DistinctKeys(v) && TidyRecord(v) && PrintableKeys(v)
    ensures var extra := NormalizeParams(Unreserved(v));
      && extra == Without(Unreserved(v), {""})
      && CleanExtra(extra) && TidyRecord(extra) && PrintableKeys(extra)
  {
    hide Trim, Tidy, PrintableKey;
    var u := Unreserved(v);
    WithoutShape(v, RESERVED_MODEL_KEYS);
    assert TidyRecord(u) by {
      forall i | 0 <= i < |u| ensures Trim(u[i].0) == u[i].0 && Tidy(u[i].1) == u[i].1 {
        assert u[i] in u && u[i] in v;
      }
    }
    NormalizeDistinct(u);
    var extra := Without(u, {""});
    WithoutShape(u, {""});
    KeysWithout(v, RESERVED_MODEL_KEYS);
    KeysWithout(u, {""});
    forall i | 0 <= i < |extra|
      ensures Trim(extra[i].0) == extra[i].0 && Tidy(extra[i].1) == extra[i].1 && PrintableKey(extra[i].0)
    {
      assert extra[i] in extra && extra[i] in u && extra[i] in v;
    }
  }

  /** The parameters a request may carry: none of Nelle's own keys, each writable as a line. */
  predicate AcceptableParams(params: Record) {
    Keys(NormalizeParams(params)) !! RESERVED_MODEL_KEYS && PrintableKeys(NormalizeParams(params))
  }

  lemma NormalizedClean(params: Record)
    requires AcceptableParams(params)
    ensures CleanExtra(NormalizeParams(params))
  {
    hide Trim, PrintableKey;
    NormalizedShape(params);
    var n := NormalizeParams(params);
    assert forall i :: 0 <= i < |n| ==> n[i] in n;
  }

  lemma TidyOfTrimmed(s: string)
    requires s != "" && Trim(s) == s
    ensures Tidy(s) != ""
  {
    TrimIdempotent(s);
    var r := ReplaceNewlines(s, ' ');
    assert IsTrimmed(r);
    TrimTrimmed(r);
  }

  lemma ReplacedNormalizes(v: Record, extra: Record)
    requires CleanExtra(extra) && TidyRecord(v)
    ensures NormalizeParams(Merge(Unreserved(ClearedValues(v, true)), TidyEntries(extra)))
         == NormalizeParams(TidyEntries(extra))
  {
    hide Trim, Tidy;
    var u := Unreserved(v);
    var ks := TrimmedKeys(KeyList(u));
    assert Keys(v) <= ks + RESERVED_MODEL_KEYS by {
      forall i | 0 <= i < |v| ensures v[i].0 in ks + RESERVED_MODEL_KEYS {
        if v[i].0 !in RESERVED_MODEL_KEYS {
          WithoutShape(v, RESERVED_MODEL_KEYS);
          assert v[i] in u;
          var k :| 0 <= k < |u| && u[k] == v[i];
          assert KeyList(u)[k] == v[i].0;
          assert Trim(KeyList(u)[k]) in ks;
        }
      }
    }
    WithoutTwice(v, ks, RESERVED_MODEL_KEYS);
    WithoutAll(v, ks + RESERVED_MODEL_KEYS);
    TidyEntriesShape(extra);
    MergeFresh(TidyEntries(extra));
  }

  lemma KeptNormalizes(v: Record)
    requires DistinctKeys(v) && TidyRecord(v) && PrintableKeys(v)
    ensures var extra := NormalizeParams(Unreserved(v));
      NormalizeParams(Merge(Unreserved(v), TidyEntries(extra))) == NormalizeParams(TidyEntries(extra)) == extra
  {
    hide Trim, Tidy, PrintableKey;
    var u := Unreserved(v);
    var extra := NormalizeParams(u);
    UnreservedShape(v);
    TidyIsIdentity(extra);
    WithoutShape(v, RESERVED_MODEL_KEYS);
    WithoutShape(u, {""});
    forall i | 0 <= i < |extra| ensures Get(u, extra[i].0) == Some(extra[i].1) {
      assert extra[i] in u;
      GetOfMember(u, extra[i]);
    }
    MergeSame(u, extra);
    NormalizeDistinct(extra);
    WithoutNone(extra, {""});
  }

  lemma {:induction false} GetOfMember(r: Record, e: (string, string))
    requires DistinctKeys(r) && e in r
    ensures Get(r, e.0) == Some(e.1)
  {
    if r[0] != e {
      assert e in r[1..];
      var i :| 0 <= i < |r[1..]| && r[1..][i] == e;
      assert r[i + 1] == e;
      GetOfMember(r[1..], e);
    }
  }

  /** The requested model reads back from its section exactly, tidied. */
  lemma RequestedReads(w: World, i: nat, name: Option<string>, pinned: Option<bool>, params: Option<Record>,
                       now: string)
    requires InSync(w) && i < |w.state.models|
    requires params.Some? ==> AcceptableParams(params.value)
    ensures var m := w.state.models[i];
      var next := Requested(m, name, pinned, params, ContextCap(w));
      && CleanExtra(next.params.extra) && PrintableKeys(next.params.extra)
      && ModelFromValues(SectionAfter(ClearedValues(ValuesOf(w, m.id), params.Some?), next),
                         m.id, Some(m), ContextCap(w), now) == Some(ReadBack(next, ContextCap(w)))
      && (params.None? ==> ReadBack(next, ContextCap(w)).params == m.params)
  {
    hide Parse, Trim, Tidy, PrintableKey, SectionValues, SectionAfter, ModelFromValues, SplitHuggingFaceRef;
    var m := w.state.models[i];
    var v := ValuesOf(w, m.id);
    var next := Requested(m, name, pinned, params, ContextCap(w));
    SectionShape(w, i, now);
    if params.Some? {
      NormalizedClean(params.value);
      ReplacedNormalizes(v, next.params.extra);
    } else {
      UnreservedShape(v);
      KeptNormalizes(v);
    }
    TrimIdempotent(GetOr(name, ""));
    if Trim(GetOr(name, "")) != "" {
      TidyOfTrimmed(Trim(GetOr(name, "")));
    }
    WrittenModelReads(ClearedValues(v, params.Some?), next, Some(m), ContextCap(w), now);
  }

  /**
   * Read-after-write: the catalog after an update is the old one with exactly the requested model
   * in its place. Un-pinning sticks, and every other model, the globals and the active id are kept.
   */
  lemma UpdateModelReadsBack(w: World, id: string, name: Option<string>, pinned: Option<bool>,
                             params: Option<Record>, now: string)
    requires var w1 := SyncWorld(w, now); InSync(w1) && HasModel(w1.state.models, id)
    requires params.Some? ==> AcceptableParams(params.value)
    ensures var w1, w2 := SyncWorld(w, now), UpdatedWorld(w, id, name, pinned, params, now);
      var i := FindModel(w1.state.models, id);
      var next := Requested(w1.state.models[i], name, pinned, params, ContextCap(w1));
      && InSync(w2)
      && w2.state == w1.state.(models := w1.state.models[i := ReadBack(next, ContextCap(w1))])
      && (params.None? ==> ReadBack(next, ContextCap(w1)).params == w1.state.models[i].params)
  {
    hide Parse, Print, Trim, Tidy, PrintableKey, SectionValues, SectionAfter, ModelFromValues, SectionNames,
         SectionBounds, ModelSection, SourceValues, Settled, Faithful, PrintableEntries, NormalizeParams;
    var w1 := SyncWorld(w, now);
    var models := w1.state.models;
    var i := FindModel(models, id);
    var m := models[i];
    var next := Requested(m, name, pinned, params, ContextCap(w1));
    var doc, names := Parse(w1.preset), Names(w1);
    var d3 := ModelSection(doc, next, params.Some?);
    var j := ModelAt(w1, i, now);
    RequestedReads(w1, i, name, pinned, params, now);
    SourcePrintable(next);
    ModelSectionReads(doc, next, params.Some?);
    ModelSectionPlain(doc, next, params.Some?);
    StillOrderly(d3);
    var doc3 := Parse(Print(d3));
    GlobalsKept(doc, doc3, id);
    OneEntryChanged(doc, doc3, names, models, ContextCap(w1), now, j, i, ReadBack(next, ContextCap(w1)));
    var w2 := UpdatedWorld(w, id, name, pinned, params, now);
    SyncedActive(w1.state, doc3, now);
    ActiveKept(models, i, ReadBack(next, ContextCap(w1)), w1.state);
    assert w2.state.models == ModelsOf(doc3, SectionNames(doc3), models, ContextCap(w1), now);
  }

  lemma ModelSectionPlain(doc: Document, m: Model, replaceEditable: bool)
    requires PlainKeys(doc) && PrintableKeys(SourceValues(m))
    ensures PlainKeys(ModelSection(doc, m, replaceEditable))
  {
    hide Upsert, RemoveKeys, PrintableKeys, SectionValues, PlainKeys, SourceValues;
    var editable := KeyList(Unreserved(SectionValues(doc, Some(m.id))));
    PlainRemoveKeys(doc, Some(m.id), editable);
    var d1 := if replaceEditable then RemoveKeys(doc, Some(m.id), editable) else doc;
    PlainUpsert(d1, Some(m.id), SourceValues(m));
    PlainRemoveKeys(Upsert(d1, Some(m.id), SourceValues(m)), Some(m.id), StruckKeys(m));
  }

  lemma GlobalsKept(doc: Document, doc3: Document, id: string)
    requires Trim(id) != GLOBAL_SECTION
    requires forall other :: !SameSection(other, Some(id)) ==> SectionValues(doc3, other) == SectionValues(doc, other)
    ensures GlobalParams(doc3) == GlobalParams(doc)
  {
    hide Trim, SectionValues;
    assert Trim(GLOBAL_SECTION) == GLOBAL_SECTION by { StarIsTrimmed(); }
    assert !SameSection(Some(GLOBAL_SECTION), Some(id));
  }

  lemma OneEntryChanged(doc: Document, doc3: Document, names: seq<string>, models: seq<Model>, g: Option<nat>,
                        now: string, j: nat, i: nat, changed: Model)
    requires DistinctNames(names) && j < |names| && i < |models| && names[j] == models[i].id == changed.id
    requires names[j] != GLOBAL_SECTION && i == FindModel(models, models[i].id)
    requires ModelsOf(doc, names, models, g, now) == models
    requires PreviousById(models, names[j]) == Some(models[i])
    requires ModelFromValues(SectionValues(doc, Some(names[j])), names[j], Some(models[i]), g, now) == Some(models[i])
    requires ModelFromValues(SectionValues(doc3, Some(names[j])), names[j], Some(models[i]), g, now) == Some(changed)
    requires forall other :: !SameSection(other, Some(names[j])) ==>
      SectionValues(doc3, other) == SectionValues(doc, other)
    ensures ModelsOf(doc3, names, models, g, now) == models[i := changed]
  {
    hide Trim, SectionValues, ModelFromValues, FindModel, PreviousById, ModelsOf, SameSection;
    var before, after := names[..j], names[j + 1..];
    ModelsSplit(doc, names, models, g, now, j);
    ModelsSplit(doc3, names, models, g, now, j);
    assert forall k :: 0 <= k < |after| ==> after[k] == names[j + 1 + k];
    EntriesKept(doc, doc3, before, models, g, now, names[j]);
    EntriesKept(doc, doc3, after, models, g, now, names[j]);
    var a := ModelsOf(doc, before, models, g, now);
    var b := ModelsOf(doc, after, models, g, now);
    FindAt(a, models[i], b);
    Swap(a, models[i], b, changed);
  }

  lemma Swap(a: seq<Model>, m: Model, b: seq<Model>, changed: Model)
    ensures (a + [m] + b)[|a| := changed] == a + [changed] + b
  {
  }

  /** Sections other than the edited one give the same entries. */
  lemma EntriesKept(doc: Document, doc3: Document, part: seq<string>, models: seq<Model>, g: Option<nat>,
                    now: string, name: string)
    requires forall k :: 0 <= k < |part| ==> Trim(part[k]) != Trim(name)
    requires forall other :: !SameSection(other, Some(name)) ==> SectionValues(doc3, other) == SectionValues(doc, other)
    ensures ModelsOf(doc3, part, models, g, now) == ModelsOf(doc, part, models, g, now)
  {
    hide Trim, SectionValues, ModelFromValues, PreviousById;
    forall k | 0 <= k < |part| ensures Entry(doc3, part[k], models, g, now) == Entry(doc, part[k], models, g, now) {
      assert !SameSection(Some(part[k]), Some(name));
    }
    ModelsEqual(doc3, doc, part, models, models, g, g, now, now);
  }

  lemma ActiveKept(models: seq<Model>, i: nat, changed: Model, s: State)
    requires i < |models| && models[i].id == changed.id && s.models == models && ActiveNamesAModel(s)
    ensures s.activeModelId.Some? && HasModel(models[i := changed], s.activeModelId.value)
  {
    var id := s.activeModelId.value;
    var k :| 0 <= k < |models| && models[k].id == id;
    assert models[i := changed][k].id == id;
  }
}
