/** How the catalog is read from a document, and which readings an edit leaves alone. */
module CatalogReadings {
  import opened Text
  import opened Records
  import opened ModelsIni
  import opened ModelsIniLaws
  import opened Catalog
  import Seqs

  // ----- section names -----

  lemma {:induction false} NamesConcat(a: Document, b: Document)
    ensures SectionNames(a + b) == SectionNames(a) + SectionNames(b)
  {
    if a == [] {
      assert a + b == b;
    } else {
      assert (a + b)[1..] == a[1..] + b;
      NamesConcat(a[1..], b);
    }
  }

  lemma {:induction false} NamesOfNone(body: Document)
    requires NoSection(body)
    ensures SectionNames(body) == []
  {
    if body != [] {
      NamesOfNone(body[1..]);
    }
  }

  lemma NamesOfPieces(pre: Document, body: Document, post: Document)
    requires NoSection(body)
    ensures SectionNames(pre + body + post) == SectionNames(pre) + SectionNames(post)
  {
    NamesConcat(pre + body, post);
    NamesConcat(pre, body);
    NamesOfNone(body);
    assert SectionNames(pre) + [] == SectionNames(pre);
  }

  predicate HasName(names: seq<string>, name: string) {
    exists i :: 0 <= i < |names| && Trim(names[i]) == Trim(name)
  }

  lemma {:induction false} NamesAndBounds(doc: Document, name: string)
    ensures SectionBounds(doc, Some(name)).Some? <==> HasName(SectionNames(doc), name)
  {
    hide HasName;
    if doc != [] {
      var head, tail := doc[..1], doc[1..];
      assert doc == head + tail;
      NamesAndBounds(tail, name);
      if doc[0].Section? {
        HasNameCons(doc[0].name, SectionNames(tail), name);
      } else {
        assert SectionNames(doc) == SectionNames(tail);
      }
      if IsHeaderOf(doc[0], name) {
        assert SectionBounds(doc, Some(name)).Some?;
      } else {
        BodyPastPrefix(head, tail, name);
      }
    } else {
      HasNameNone(name);
    }
  }

  lemma HasNameNone(name: string)
    ensures !HasName([], name)
  {
  }

  lemma HasNameCons(first: string, names: seq<string>, name: string)
    ensures HasName([first] + names, name) <==> Trim(first) == Trim(name) || HasName(names, name)
  {
    var all := [first] + names;
    if Trim(first) == Trim(name) {
      assert all[0] == first;
    }
    if i :| 0 <= i < |names| && Trim(names[i]) == Trim(name) {
      assert names[i] == all[i + 1];
    }
  }

  lemma NamesAfterRemoveKeys(doc: Document, section: SectionRef, keys: seq<string>)
    ensures SectionNames(RemoveKeys(doc, section, keys)) == SectionNames(doc)
  {
    hide SectionBounds, Trim, SectionNames;
    var c := SectionBounds(doc, section);
    if c.Some? {
      var pre, body, post := doc[..c.value.start], doc[c.value.start..c.value.end], doc[c.value.end..];
      var r := RemoveFromBody(body, TrimmedKeys(keys));
      assert forall i :: 0 <= i < |r| ==> r[i] in body;
      Seqs.Cut(doc, c.value.start, c.value.end);
      NamesOfPieces(pre, body, post);
      NamesOfPieces(pre, r, post);
    }
  }

  lemma NamesAfterUpsert(doc: Document, section: SectionRef, entries: Record)
    ensures SectionNames(Upsert(doc, section, entries))
         == SectionNames(doc) + (if SectionBounds(doc, section).None? then [section.value] else [])
  {
    hide SectionBounds, Trim, SectionNames, UpsertBody;
    var base := WithSection(doc, section);
    var b := SectionBounds(base, section).value;
    var pre, body, post := base[..b.start], base[b.start..b.end], base[b.end..];
    Seqs.Cut(base, b.start, b.end);
    NamesOfPieces(pre, body, post);
    NamesOfPieces(pre, UpsertBody(body, entries), post);
    if SectionBounds(doc, section).None? {
      NamesAfterAppend(doc, section.value);
    } else {
      assert SectionNames(doc) + [] == SectionNames(doc);
    }
  }

  lemma NamesAfterAppend(doc: Document, name: string)
    ensures SectionNames(AppendSection(doc, name)) == SectionNames(doc) + [name]
  {
    var header := [Section(name, None, true)];
    assert AppendSection(doc, name) == doc + Gap(doc) + header;
    NamesOfPieces(doc, Gap(doc), header);
    assert header[1..] == [] && SectionNames(header) == [name];
  }

  lemma {:induction false} NamesSettled(doc: Document)
    ensures SectionNames(SettleAll(doc)) == SectionNames(doc)
  {
    if doc != [] {
      assert SettleAll(doc)[1..] == SettleAll(doc[1..]);
      NamesSettled(doc[1..]);
    }
  }

  // ----- documents the catalog can live in -----

  predicate DistinctNames(names: seq<string>) {
    forall i, j :: 0 <= i < j < |names| ==> Trim(names[i]) != Trim(names[j])
  }

  predicate PlainStar(names: seq<string>) {
    forall i :: 0 <= i < |names| && Trim(names[i]) == GLOBAL_SECTION ==> names[i] == GLOBAL_SECTION
  }

  /** No key opens with a bracket: such a line can turn into a section header when it is rewritten. */
  predicate PlainKeys(doc: Document) {
    forall i :: 0 <= i < |doc| && doc[i].KeyValue? ==> doc[i].key == [] || doc[i].key[0] != '['
  }

  /** A parsed file whose section names are distinct and whose keys are plain. */
  predicate Orderly(doc: Document) {
    SettledDoc(doc) && DistinctNames(SectionNames(doc)) && PlainStar(SectionNames(doc)) && PlainKeys(doc)
  }

  lemma StarIsTrimmed()
    ensures Trim(GLOBAL_SECTION) == GLOBAL_SECTION && PrintableName(GLOBAL_SECTION)
  {
    assert IsTrimmed(GLOBAL_SECTION);
    TrimTrimmed(GLOBAL_SECTION);
  }

  lemma ParsedKeyPrintable(raw: string)
    requires OneLine(raw) && ParseLine(raw).KeyValue?
    requires ParseLine(raw).key != [] ==> ParseLine(raw).key[0] != '['
    ensures PrintableKey(ParseLine(raw).key)
    ensures Trim(ParseLine(raw).key) == ParseLine(raw).key
    ensures Tidy(ParseLine(raw).value) == ParseLine(raw).value
  {
    hide SectionName, IndexOf, Trim, TrimStart, Tidy;
    var at := IndexOf(raw, '=');
    var key, value := ParseLine(raw).key, ParseLine(raw).value;
    TrimIdempotent(raw[..at]);
    TrimIdempotent(raw[at + 1..]);
    var i, j := TrimParts(raw[..at]);
    var p, q := TrimParts(raw[at + 1..]);
    assert forall k :: 0 <= k < |key| ==> key[k] == raw[i + k];
    assert forall k :: 0 <= k < |value| ==> value[k] == raw[at + 1 + p + k];
    TidyShape(value);
    if key != [] {
      TrimPrefixHead(raw, at);
    }
  }

  predicate TidyRecord(r: Record) {
    forall i :: 0 <= i < |r| ==> Trim(r[i].0) == r[i].0 && Tidy(r[i].1) == r[i].1
  }

  predicate PrintableKeys(r: Record) {
    forall i :: 0 <= i < |r| ==> PrintableKey(r[i].0)
  }

  /** What a section of an orderly file says can be written back and read again unchanged. */
  lemma {:induction false} OrderlyRead(body: Document)
    requires SettledDoc(body) && PlainKeys(body)
    ensures DistinctKeys(Read(body)) && TidyRecord(Read(body)) && PrintableKeys(Read(body))
    decreases |body|
  {
    hide PrintableKey, Tidy, Trim, Settled, Put;
    ReadKeys(body);
    if body != [] {
      var n := |body| - 1;
      OrderlyRead(body[..n]);
      if body[n].KeyValue? {
        OrderlyNode(body[n]);
        var r := Read(body[..n]);
        PutEach(r, Trim(body[n].key), body[n].value);
        forall e | e in Read(body) ensures Trim(e.0) == e.0 && Tidy(e.1) == e.1 && PrintableKey(e.0) {
          assert e in r || e == (Trim(body[n].key), body[n].value);
        }
        assert forall i :: 0 <= i < |Read(body)| ==> Read(body)[i] in Read(body);
      }
    }
  }

  lemma OrderlyNode(n: Node)
    requires Settled(n) && n.KeyValue? && (n.key == [] || n.key[0] != '[')
    ensures PrintableKey(n.key) && Trim(n.key) == n.key && Tidy(n.value) == n.value
  {
    hide PrintableKey, Tidy, Trim, ParseLine;
    ParsedKeyPrintable(PrintNode(n));
  }

  lemma {:induction false} PutEach(r: Record, key: string, value: string)
    ensures forall e :: e in Put(r, key, value) ==> e in r || e == (key, value)
  {
    if r != [] && r[0].0 != key {
      PutEach(r[1..], key, value);
    }
  }

  lemma OrderlyValues(doc: Document, section: SectionRef)
    requires SettledDoc(doc) && PlainKeys(doc)
    ensures var v := SectionValues(doc, section); DistinctKeys(v) && TidyRecord(v) && PrintableKeys(v)
  {
    hide SectionBounds, Settled;
    var body := Body(doc, section);
    assert forall i :: 0 <= i < |body| ==> body[i] in doc;
    assert forall n :: n in doc ==> Settled(n) && (n.KeyValue? ==> n.key == [] || n.key[0] != '[');
    OrderlyRead(body);
  }

  lemma TidyIsIdentity(r: Record)
    requires TidyRecord(r)
    ensures TidyEntries(r) == r && TrimValues(r) == r && WrittenEntries(r) == r
  {
    forall i | 0 <= i < |r|
      ensures TidyEntries(r)[i] == r[i] && TrimValues(r)[i] == r[i] && WrittenEntries(r)[i] == r[i]
    {
      TidyShape(r[i].1);
      TrimIdempotent(ReplaceNewlines(r[i].1, ' '));
      assert OneLine(r[i].1) && Trim(r[i].1) == r[i].1;
      assert ReplaceNewlines(r[i].1, ' ') == r[i].1;
    }
  }

  // ----- normalised parameters -----

  lemma {:induction false} NormalizeTidy(r: Record)
    requires TidyRecord(r)
    ensures TrimmedPairs(r) == Without(r, {""})
  {
    if r != [] {
      assert TidyRecord(r[1..]) by {
        assert forall i :: 0 <= i < |r[1..]| ==> r[1..][i] == r[i + 1];
      }
      NormalizeTidy(r[1..]);
      TidyShape(r[0].1);
      assert Trim(r[0].1) == r[0].1 by { TrimTrimmed(r[0].1); }
    }
  }

  lemma NormalizeDistinct(r: Record)
    requires TidyRecord(r) && DistinctKeys(r)
    ensures NormalizeParams(r) == Without(r, {""})
  {
    NormalizeTidy(r);
    WithoutShape(r, {""});
    MergeFresh(Without(r, {""}));
  }

  lemma {:induction false} TrimmedPairsShape(r: Record)
    ensures forall e :: e in TrimmedPairs(r) ==> e.0 != [] && Trim(e.0) == e.0 && Trim(e.1) == e.1
  {
    if r != [] {
      TrimmedPairsShape(r[1..]);
      TrimIdempotent(r[0].0);
      TrimIdempotent(r[0].1);
    }
  }

  lemma {:induction false} MergeEach(r: Record, entries: Record)
    ensures forall e :: e in Merge(r, entries) ==> e in r || e in entries
    decreases |entries|
  {
    if entries != [] {
      var n := |entries| - 1;
      MergeEach(r, entries[..n]);
      PutEach(Merge(r, entries[..n]), entries[n].0, entries[n].1);
      assert forall e :: e in entries[..n] ==> e in entries;
    }
  }

  lemma NormalizedShape(r: Record)
    ensures DistinctKeys(NormalizeParams(r)) && "" !in Keys(NormalizeParams(r))
    ensures forall e :: e in NormalizeParams(r) ==> Trim(e.0) == e.0 && Trim(e.1) == e.1
  {
    TrimmedPairsShape(r);
    MergeEach([], TrimmedPairs(r));
    MergeDistinct([], TrimmedPairs(r));
    assert forall e :: e in NormalizeParams(r) ==> e in TrimmedPairs(r);
    forall i | 0 <= i < |NormalizeParams(r)| ensures NormalizeParams(r)[i].0 != "" {
      assert NormalizeParams(r)[i] in NormalizeParams(r);
    }
  }

  // ----- the list of models -----

  function Entry(doc: Document, name: string, previous: seq<Model>, g: Option<nat>, now: string): Option<Model> {
    if name == GLOBAL_SECTION then None
    else ModelFromValues(SectionValues(doc, Some(name)), name, PreviousById(previous, name), g, now)
  }

  function Listed(e: Option<Model>): seq<Model> {
    if e.Some? then [e.value] else []
  }

  lemma ModelsCons(doc: Document, names: seq<string>, previous: seq<Model>, g: Option<nat>, now: string)
    requires names != []
    ensures ModelsOf(doc, names, previous, g, now)
         == Listed(Entry(doc, names[0], previous, g, now)) + ModelsOf(doc, names[1..], previous, g, now)
  {
    hide ModelFromValues, SectionValues, PreviousById;
  }

  lemma NoModels(doc: Document, previous: seq<Model>, g: Option<nat>, now: string)
    ensures ModelsOf(doc, [], previous, g, now) == []
  {
  }

  lemma {:induction false} ModelsConcat(doc: Document, a: seq<string>, b: seq<string>, previous: seq<Model>,
                                        g: Option<nat>, now: string)
    ensures ModelsOf(doc, a + b, previous, g, now)
         == ModelsOf(doc, a, previous, g, now) + ModelsOf(doc, b, previous, g, now)
  {
    hide ModelsOf, Entry, Listed;
    if a == [] {
      assert a + b == b;
      NoModels(doc, previous, g, now);
      assert [] + ModelsOf(doc, b, previous, g, now) == ModelsOf(doc, b, previous, g, now);
    } else {
      assert (a + b)[1..] == a[1..] + b && (a + b)[0] == a[0];
      ModelsCons(doc, a, previous, g, now);
      ModelsCons(doc, a + b, previous, g, now);
      ModelsConcat(doc, a[1..], b, previous, g, now);
      Seqs.Assoc(Listed(Entry(doc, a[0], previous, g, now)),
                 ModelsOf(doc, a[1..], previous, g, now), ModelsOf(doc, b, previous, g, now));
    }
  }

  lemma ModelsOfOne(doc: Document, name: string, previous: seq<Model>, g: Option<nat>, now: string)
    ensures ModelsOf(doc, [name], previous, g, now) == Listed(Entry(doc, name, previous, g, now))
  {
    assert [name][1..] == [];
  }

  /** The catalog depends on the document only through what each listed section reads. */
  lemma {:induction false} ModelsEqual(docA: Document, docB: Document, names: seq<string>,
                                       prevA: seq<Model>, prevB: seq<Model>,
                                       gA: Option<nat>, gB: Option<nat>, nowA: string, nowB: string)
    requires forall i :: 0 <= i < |names| ==>
      Entry(docA, names[i], prevA, gA, nowA) == Entry(docB, names[i], prevB, gB, nowB)
    ensures ModelsOf(docA, names, prevA, gA, nowA) == ModelsOf(docB, names, prevB, gB, nowB)
  {
    if names != [] {
      assert Entry(docA, names[0], prevA, gA, nowA) == Entry(docB, names[0], prevB, gB, nowB);
      assert forall i :: 0 <= i < |names[1..]| ==> names[1..][i] == names[i + 1];
      ModelsEqual(docA, docB, names[1..], prevA, prevB, gA, gB, nowA, nowB);
    }
  }

  lemma {:induction false} ModelIds(doc: Document, names: seq<string>, previous: seq<Model>,
                                    g: Option<nat>, now: string)
    ensures forall m :: m in ModelsOf(doc, names, previous, g, now) ==>
      m.id in names && m.id != GLOBAL_SECTION && Entry(doc, m.id, previous, g, now) == Some(m)
  {
    if names != [] {
      ModelIds(doc, names[1..], previous, g, now);
      assert forall x :: x in names[1..] ==> x in names;
    }
  }

  lemma {:induction false} PreviousAppend(a: seq<Model>, b: seq<Model>, id: string)
    ensures PreviousById(a + b, id)
         == if PreviousById(b, id).Some? then PreviousById(b, id) else PreviousById(a, id)
    decreases |b|
  {
    if b == [] {
      assert a + b == a;
    } else {
      assert (a + b)[..|a + b| - 1] == a + b[..|b| - 1];
      PreviousAppend(a, b[..|b| - 1], id);
    }
  }

  lemma {:induction false} PreviousNone(models: seq<Model>, id: string)
    requires forall i :: 0 <= i < |models| ==> models[i].id != id
    ensures PreviousById(models, id) == None
    decreases |models|
  {
    if models != [] {
      PreviousNone(models[..|models| - 1], id);
    }
  }

  lemma PreviousOne(m: Model, id: string)
    ensures PreviousById([m], id) == if m.id == id then Some(m) else None
  {
    assert [m][..0] == [];
  }

  /** Looking a section up in the catalog it was read into finds exactly its entry. */
  lemma {:induction false} PreviousOfModels(doc: Document, names: seq<string>, previous: seq<Model>,
                                            g: Option<nat>, now: string, i: nat)
    requires DistinctNames(names) && i < |names|
    ensures PreviousById(ModelsOf(doc, names, previous, g, now), names[i])
         == Entry(doc, names[i], previous, g, now)
  {
    var a, b := names[..i], names[i + 1..];
    assert names == a + ([names[i]] + b);
    ModelsConcat(doc, a, [names[i]] + b, previous, g, now);
    ModelsConcat(doc, [names[i]], b, previous, g, now);
    ModelsOfOne(doc, names[i], previous, g, now);
    var ma, mb := ModelsOf(doc, a, previous, g, now), ModelsOf(doc, b, previous, g, now);
    var e := Listed(Entry(doc, names[i], previous, g, now));
    ModelIds(doc, a, previous, g, now);
    ModelIds(doc, b, previous, g, now);
    assert names[i] !in a && names[i] !in b;
    assert forall k :: 0 <= k < |ma| ==> ma[k] in ma;
    assert forall k :: 0 <= k < |mb| ==> mb[k] in mb;
    PreviousNone(ma, names[i]);
    PreviousNone(mb, names[i]);
    PreviousAppend(ma, e + mb, names[i]);
    PreviousAppend(e, mb, names[i]);
    if e != [] {
      ModelIds(doc, [names[i]], previous, g, now);
      assert e[0] in ModelsOf(doc, [names[i]], previous, g, now);
      PreviousOne(e[0], names[i]);
    }
  }

  /** Reading a section again, with the model it gave as the previous one, gives that model again. */
  lemma ModelFixpoint(values: Record, id: string, previous: Option<Model>, g: Option<nat>, now: string, later: string)
    ensures var m := ModelFromValues(values, id, previous, g, now);
      ModelFromValues(values, id, m, g, later) == m
  {
  }

  lemma ResyncModels(doc: Document, names: seq<string>, previous: seq<Model>, g: Option<nat>,
                     now: string, later: string)
    requires DistinctNames(names)
    ensures var models := ModelsOf(doc, names, previous, g, now);
      ModelsOf(doc, names, models, g, later) == models
  {
    var models := ModelsOf(doc, names, previous, g, now);
    forall i | 0 <= i < |names|
      ensures Entry(doc, names[i], models, g, later) == Entry(doc, names[i], previous, g, now)
    {
      PreviousOfModels(doc, names, previous, g, now, i);
      if names[i] != GLOBAL_SECTION {
        ModelFixpoint(SectionValues(doc, Some(names[i])), names[i], PreviousById(previous, names[i]), g, now, later);
      }
    }
    ModelsEqual(doc, doc, names, models, previous, g, g, later, now);
  }

  predicate DistinctIds(models: seq<Model>) {
    forall i, j :: 0 <= i < j < |models| ==> Trim(models[i].id) != Trim(models[j].id)
  }

  lemma {:induction false} ModelsDistinct(doc: Document, names: seq<string>, previous: seq<Model>,
                                          g: Option<nat>, now: string)
    requires DistinctNames(names)
    ensures DistinctIds(ModelsOf(doc, names, previous, g, now))
  {
    hide Trim, ModelFromValues;
    if names != [] {
      var rest := names[1..];
      assert forall i :: 0 <= i < |rest| ==> rest[i] == names[i + 1];
      ModelsDistinct(doc, rest, previous, g, now);
      var tail := ModelsOf(doc, rest, previous, g, now);
      ModelIds(doc, rest, previous, g, now);
      forall j | 0 <= j < |tail| ensures Trim(names[0]) != Trim(tail[j].id) {
        assert tail[j] in tail;
        var k :| 0 <= k < |rest| && rest[k] == tail[j].id;
        assert names[k + 1] == tail[j].id;
      }
      var e := Entry(doc, names[0], previous, g, now);
      if e.Some? {
        EntryId(doc, names[0], previous, g, now);
        DistinctCons(e.value, tail);
        assert ModelsOf(doc, names, previous, g, now) == [e.value] + tail;
      } else {
        assert ModelsOf(doc, names, previous, g, now) == [] + tail == tail;
      }
    }
  }

  lemma EntryId(doc: Document, name: string, previous: seq<Model>, g: Option<nat>, now: string)
    ensures var e := Entry(doc, name, previous, g, now); e.Some? ==> e.value.id == name
  {
  }

  lemma DistinctCons(m: Model, tail: seq<Model>)
    requires DistinctIds(tail) && forall j :: 0 <= j < |tail| ==> Trim(m.id) != Trim(tail[j].id)
    ensures DistinctIds([m] + tail)
  {
    hide Trim;
  }

  /** The list around one listed section: the models before it, its own, and those after it. */
  lemma ModelsSplit(doc: Document, names: seq<string>, previous: seq<Model>, g: Option<nat>, now: string, j: nat)
    requires DistinctNames(names) && j < |names|
    ensures var a, b := ModelsOf(doc, names[..j], previous, g, now), ModelsOf(doc, names[j + 1..], previous, g, now);
      && ModelsOf(doc, names, previous, g, now) == a + Listed(Entry(doc, names[j], previous, g, now)) + b
      && (forall m :: m in a || m in b ==> m.id != names[j])
  {
    hide ModelFromValues;
    var a, b := names[..j], names[j + 1..];
    assert names == a + ([names[j]] + b);
    ModelsConcat(doc, a, [names[j]] + b, previous, g, now);
    ModelsConcat(doc, [names[j]], b, previous, g, now);
    ModelsOfOne(doc, names[j], previous, g, now);
    ModelIds(doc, a, previous, g, now);
    ModelIds(doc, b, previous, g, now);
    assert names[j] !in a && names[j] !in b;
  }

  lemma FindAt(a: seq<Model>, m: Model, b: seq<Model>)
    requires forall x :: x in a ==> x.id != m.id
    ensures FindModel(a + [m] + b, m.id) == |a|
    ensures (a + [m] + b)[|a|] == m
  {
    var all := a + [m] + b;
    assert all[|a|] == m && forall k :: 0 <= k < |a| ==> all[k] == a[k] && a[k] in a;
  }
}
