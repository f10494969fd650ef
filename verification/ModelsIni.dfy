/**
 * The lossless models.ini document: line parser, printer, section reads and in-place edits.
 * A document is the list of its lines; an edit rewrites or inserts lines and leaves the rest alone.
 */
module ModelsIni {
  import opened Text
  import opened Records
  import Seqs

  datatype Node =
    | Blank(raw: string)
    | Comment(raw: string)
    | Malformed(raw: string)
    | Section(name: string, source: Option<string>, dirty: bool)
    | KeyValue(key: string, value: string, source: Option<string>, dirty: bool)

  type Document = seq<Node>

  // The preamble is named by `None`, as the code names it by null.
  type SectionRef = Option<string>

  datatype Bounds = Bounds(header: int, start: nat, end: nat)

  // ----- lines -----

  /** The name a line declares when it has the shape `[name]`, optionally followed by a comment. */
  function SectionName(raw: string): Option<string> {
    var t := TrimStart(raw);
    if t == [] || t[0] != '[' then None
    else
      var close := IndexOf(t, ']');
      if close == |t| || !OneLine(t[1..close]) then None
      else
        var tail := TrimStart(t[close + 1..]);
        if tail == [] then Some(t[1..close])
        else if tail[0] != ';' && tail[0] != '#' then None
        else if exists i :: 1 <= i < |tail| && IsLineTerminator(tail[i]) then None
        else Some(t[1..close])
  }

  function ParseLine(raw: string): Node {
    var trimmed := Trim(raw);
    if trimmed == [] then Blank(raw)
    else if trimmed[0] == ';' || trimmed[0] == '#' then Comment(raw)
    else if SectionName(raw).Some? then Section(SectionName(raw).value, Some(raw), false)
    else
      var equals := IndexOf(raw, '=');
      if equals < |raw| then
        KeyValue(Trim(raw[..equals]), Trim(raw[equals + 1..]), Some(raw), false)
      else Malformed(raw)
  }

  function PrintNode(n: Node): string {
    match n
    case Blank(raw) => raw
    case Comment(raw) => raw
    case Malformed(raw) => raw
    case Section(name, source, dirty) =>
      if !dirty && source.Some? then source.value else ['['] + name + [']']
    case KeyValue(key, value, source, dirty) =>
      if !dirty && source.Some? then source.value else key + " = " + value
  }

  function TextLines(text: string): seq<string> {
    var normalized := NormalizeNewlines(text);
    if normalized == [] then []
    else if normalized[|normalized| - 1] == '\n' then Split(normalized[..|normalized| - 1], '\n')
    else Split(normalized, '\n')
  }

  function Parse(text: string): (doc: Document)
    ensures |doc| == |TextLines(text)|
    ensures forall i :: 0 <= i < |doc| ==> doc[i] == ParseLine(TextLines(text)[i])
  {
    var lines := TextLines(text);
    seq(|lines|, i requires 0 <= i < |lines| => ParseLine(lines[i]))
  }

  function Lines(doc: Document): (lines: seq<string>)
    ensures |lines| == |doc|
    ensures forall i :: 0 <= i < |doc| ==> lines[i] == PrintNode(doc[i])
  {
    seq(|doc|, i requires 0 <= i < |doc| => PrintNode(doc[i]))
  }

  function Print(doc: Document): string {
    if doc == [] then [] else Join(Lines(doc), '\n') + ['\n']
  }

  // ----- finding a section -----

  predicate IsHeaderOf(n: Node, name: string) {
    n.Section? && Trim(n.name) == Trim(name)
  }

  predicate IsEntryOf(n: Node, key: string) {
    n.KeyValue? && Trim(n.key) == Trim(key)
  }

  function FirstSectionFrom(nodes: Document, from: nat): (i: nat)
    requires from <= |nodes|
    ensures from <= i <= |nodes|
    ensures forall k :: from <= k < i ==> !nodes[k].Section?
    ensures i < |nodes| ==> nodes[i].Section?
    decreases |nodes| - from
  {
    if from == |nodes| || nodes[from].Section? then from else FirstSectionFrom(nodes, from + 1)
  }

  function FirstHeaderFrom(nodes: Document, name: string, from: nat): (i: nat)
    requires from <= |nodes|
    ensures from <= i <= |nodes|
    ensures forall k :: from <= k < i ==> !IsHeaderOf(nodes[k], name)
    ensures i < |nodes| ==> IsHeaderOf(nodes[i], name)
    decreases |nodes| - from
  {
    if from == |nodes| || IsHeaderOf(nodes[from], name) then from
    else FirstHeaderFrom(nodes, name, from + 1)
  }

  /** The lines a section owns: from after its first header to the next header of any name. */
  function SectionBounds(nodes: Document, section: SectionRef): (b: Option<Bounds>)
    ensures section.None? ==> b.Some? && b.value.header == -1 && b.value.start == 0
    ensures b.Some? ==>
      && b.value.header + 1 == b.value.start <= b.value.end <= |nodes|
      && (section.Some? ==> 0 <= b.value.header && IsHeaderOf(nodes[b.value.header], section.value))
      && (section.Some? ==> forall k :: 0 <= k < b.value.header ==> !IsHeaderOf(nodes[k], section.value))
      && (forall k :: b.value.start <= k < b.value.end ==> !nodes[k].Section?)
      && (b.value.end < |nodes| ==> nodes[b.value.end].Section?)
    ensures b.None? ==>
      section.Some? && forall k :: 0 <= k < |nodes| ==> !IsHeaderOf(nodes[k], section.value)
  {
    match section
    case None => Some(Bounds(-1, 0, FirstSectionFrom(nodes, 0)))
    case Some(name) =>
      var header := FirstHeaderFrom(nodes, name, 0);
      if header == |nodes| then None
      else Some(Bounds(header, header + 1, FirstSectionFrom(nodes, header + 1)))
  }

  function Body(nodes: Document, section: SectionRef): Document {
    var b := SectionBounds(nodes, section);
    if b.None? then [] else nodes[b.value.start..b.value.end]
  }

  /** What a section says, in the order its keys were first written. */
  function Read(body: Document): Record
    decreases |body|
  {
    if body == [] then []
    else
      var n := |body| - 1;
      if body[n].KeyValue? then Put(Read(body[..n]), Trim(body[n].key), body[n].value)
      else Read(body[..n])
  }

  function SectionValues(nodes: Document, section: SectionRef): Record {
    Read(Body(nodes, section))
  }

  // ----- editing one section body -----

  /** The last line that sets `key`, or -1. */
  function LastEntry(body: Document, key: string): (i: int)
    ensures -1 <= i < |body|
    ensures i >= 0 ==> IsEntryOf(body[i], key)
    ensures forall k :: i < k < |body| ==> !IsEntryOf(body[k], key)
    decreases |body|
  {
    if body == [] then -1
    else
      var n := |body| - 1;
      if IsEntryOf(body[n], key) then n else LastEntry(body[..n], key)
  }

  /** Where a new line goes: before the blank lines that end the section. */
  function InsertIndex(body: Document): (i: nat)
    ensures i <= |body|
    ensures forall k :: i <= k < |body| ==> body[k].Blank?
    ensures i > 0 ==> !body[i - 1].Blank?
    decreases |body|
  {
    if body != [] && body[|body| - 1].Blank? then InsertIndex(body[..|body| - 1]) else |body|
  }

  function Written(key: string, value: string): Node {
    KeyValue(Trim(key), ReplaceNewlines(value, ' '), None, true)
  }

  function UpsertEntry(body: Document, key: string, value: string): (r: Document)
    ensures (forall k :: 0 <= k < |body| ==> !body[k].Section?)
        ==> forall k :: 0 <= k < |r| ==> !r[k].Section?
  {
    var i := LastEntry(body, key);
    if i >= 0 then body[i := Written(key, value)]
    else
      var at := InsertIndex(body);
      body[..at] + [Written(key, value)] + body[at..]
  }

  function UpsertBody(body: Document, entries: Record): (r: Document)
    ensures (forall k :: 0 <= k < |body| ==> !body[k].Section?)
        ==> forall k :: 0 <= k < |r| ==> !r[k].Section?
    decreases |entries|
  {
    if entries == [] then body
    else
      var n := |entries| - 1;
      UpsertEntry(UpsertBody(body, entries[..n]), entries[n].0, entries[n].1)
  }

  function AppendSection(nodes: Document, name: string): Document {
    (if nodes != [] && !nodes[|nodes| - 1].Blank? then nodes + [Blank("")] else nodes)
    + [Section(name, None, true)]
  }

  /** The document an upsert works on: the section is created at the end when it is missing. */
  function WithSection(nodes: Document, section: SectionRef): (r: Document)
    ensures SectionBounds(r, section).Some?
  {
    if SectionBounds(nodes, section).Some? then nodes
    else
      var r := AppendSection(nodes, section.value);
      assert IsHeaderOf(r[|r| - 1], section.value);
      r
  }

  function Upsert(nodes: Document, section: SectionRef, entries: Record): Document {
    var base := WithSection(nodes, section);
    var b := SectionBounds(base, section).value;
    base[..b.start] + UpsertBody(base[b.start..b.end], entries) + base[b.end..]
  }

  function RemoveFromBody(body: Document, keys: set<string>): (r: Document)
    ensures |r| <= |body|
    ensures forall n :: n in r <==> n in body && !(n.KeyValue? && Trim(n.key) in keys)
  {
    if body == [] then []
    else if body[0].KeyValue? && Trim(body[0].key) in keys then RemoveFromBody(body[1..], keys)
    else [body[0]] + RemoveFromBody(body[1..], keys)
  }

  function TrimmedKeys(keys: seq<string>): set<string> {
    set i | 0 <= i < |keys| :: Trim(keys[i])
  }

  function RemoveKeys(nodes: Document, section: SectionRef, keys: seq<string>): Document {
    var b := SectionBounds(nodes, section);
    if b.None? then nodes
    else
      nodes[..b.value.start] + RemoveFromBody(nodes[b.value.start..b.value.end], TrimmedKeys(keys))
      + nodes[b.value.end..]
  }

  function RemoveSection(nodes: Document, name: string): Document {
    var b := SectionBounds(nodes, Some(name));
    if b.None? then nodes else nodes[..b.value.header] + nodes[b.value.end..]
  }

  function SectionNames(nodes: Document): seq<string> {
    if nodes == [] then []
    else (if nodes[0].Section? then [nodes[0].name] else []) + SectionNames(nodes[1..])
  }

  // ----- the loops, proved to compute the functions above -----

  method GetSectionBounds(nodes: Document, section: SectionRef) returns (b: Option<Bounds>)
    ensures b == SectionBounds(nodes, section)
  {
    if section.None? {
      return Some(Bounds(-1, 0, FirstSectionFrom(nodes, 0)));
    }
    var header := FirstHeaderFrom(nodes, section.value, 0);
    if header == |nodes| {
      return None;
    }
    var end := |nodes|;
    var index := header + 1;
    while index < |nodes|
      invariant header + 1 <= index <= |nodes| == end
      invariant FirstSectionFrom(nodes, header + 1) == FirstSectionFrom(nodes, index)
    {
      if nodes[index].Section? {
        end := index;
        break;
      }
      index := index + 1;
    }
    b := Some(Bounds(header, header + 1, end));
  }

  method GetModelsIniSectionValues(nodes: Document, section: SectionRef) returns (values: Record)
    ensures values == SectionValues(nodes, section)
  {
    var bounds := GetSectionBounds(nodes, section);
    hide Read, Put, Trim, FirstSectionFrom, FirstHeaderFrom;
    values := [];
    assert Read([]) == [] by { ReadNothing(); }
    if bounds.None? {
      return;
    }
    var b := bounds.value;
    ghost var body := nodes[b.start..b.end];
    var index := b.start;
    while index < b.end
      invariant b.start <= index <= b.end
      invariant values == Read(body[..index - b.start])
    {
      ReadNext(body, index - b.start);
      if nodes[index].KeyValue? {
        values := Put(values, Trim(nodes[index].key), nodes[index].value);
      }
      index := index + 1;
    }
    assert body[..b.end - b.start] == body;
  }

  lemma ReadNothing()
    ensures Read([]) == []
  {
  }

  lemma ReadNext(body: Document, i: nat)
    requires i < |body|
    ensures Read(body[..i + 1])
         == if body[i].KeyValue? then Put(Read(body[..i]), Trim(body[i].key), body[i].value) else Read(body[..i])
  {
    assert body[..i + 1][..i] == body[..i];
  }

  method FindLastKeyIndex(nodes: Document, start: nat, end: nat, key: string) returns (r: int)
    requires start <= end <= |nodes|
    ensures r == (var i := LastEntry(nodes[start..end], key); if i < 0 then -1 else start + i)
  {
    hide LastEntry, IsEntryOf;
    assert forall k :: start <= k < end ==> nodes[k] == nodes[start..end][k - start];
    var index := end - 1;
    while index >= start
      invariant start - 1 <= index < end
      invariant forall k :: index < k < end ==> !IsEntryOf(nodes[k], key)
    {
      if IsEntryOf(nodes[index], key) {
        return index;
      }
      index := index - 1;
    }
    r := -1;
  }

  method FindSectionInsertIndex(nodes: Document, start: nat, end: nat) returns (index: nat)
    requires start <= end <= |nodes|
    ensures index == start + InsertIndex(nodes[start..end])
  {
    hide InsertIndex;
    index := end;
    while index > start && nodes[index - 1].Blank?
      invariant start <= index <= end
      invariant forall k :: index <= k < end ==> nodes[k].Blank?
    {
      index := index - 1;
    }
    assert forall k :: start <= k < end ==> nodes[k] == nodes[start..end][k - start];
  }

  method UpsertModelsIniValues(document: Document, section: SectionRef, values: Record)
    returns (next: Document)
    ensures next == Upsert(document, section, values)
  {
    next := document;
    var bounds := GetSectionBounds(next, section);
    if bounds.None? {
      next := AppendSection(next, section.value);
      bounds := GetSectionBounds(next, section);
    }
    assert next == WithSection(document, section);
    next := UpsertEntries(next, bounds.value.start, bounds.value.end, values);
  }

  method UpsertEntries(nodes: Document, start: nat, sectionEnd: nat, values: Record)
    returns (next: Document)
    requires start <= sectionEnd <= |nodes|
    ensures next == nodes[..start] + UpsertBody(nodes[start..sectionEnd], values) + nodes[sectionEnd..]
  {
    next := nodes;
    var end := sectionEnd;
    ghost var before, body, after := nodes[..start], nodes[start..end], nodes[end..];
    ghost var current := body;
    for i := 0 to |values|
      invariant next == before + current + after
      invariant |before| == start && |before| + |current| == end
      invariant current == UpsertBody(body, values[..i])
    {
      assert values[..i + 1][..i] == values[..i];
      Seqs.Pieces(before, current, after);
      next, end := UpsertOne(next, start, end, values[i].0, values[i].1);
      current := UpsertEntry(current, values[i].0, values[i].1);
    }
    assert values[..|values|] == values;
  }

  method UpsertOne(nodes: Document, start: nat, end: nat, key: string, value: string)
    returns (next: Document, newEnd: nat)
    requires start <= end <= |nodes|
    ensures next == nodes[..start] + UpsertEntry(nodes[start..end], key, value) + nodes[end..]
    ensures newEnd == start + |UpsertEntry(nodes[start..end], key, value)|
  {
    hide LastEntry, InsertIndex, Trim, ReplaceNewlines, IsEntryOf, UpsertEntry;
    next, newEnd := nodes, end;
    var entry := KeyValue(Trim(key), ReplaceNewlines(value, ' '), None, true);
    WrittenTrimmedKey(nodes[start..end], key, value);
    var existing := FindLastKeyIndex(next, start, end, Trim(key));
    if existing >= 0 {
      SpliceExisting(nodes, start, end, key, value);
      next := next[existing := entry];
    } else {
      var insertAt := FindSectionInsertIndex(next, start, end);
      SpliceNew(nodes, start, end, key, value);
      next := next[..insertAt] + [entry] + next[insertAt..];
      newEnd := end + 1;
    }
  }

  lemma SpliceExisting(nodes: Document, start: nat, end: nat, key: string, value: string)
    requires start <= end <= |nodes| && LastEntry(nodes[start..end], key) >= 0
    ensures var body := nodes[start..end];
      && nodes[start + LastEntry(body, key) := Written(key, value)]
         == nodes[..start] + UpsertEntry(body, key, value) + nodes[end..]
      && |UpsertEntry(body, key, value)| == |body|
  {
    hide LastEntry, InsertIndex, Written, IsEntryOf;
    Seqs.ReplaceInside(nodes, start, end, LastEntry(nodes[start..end], key), Written(key, value));
  }

  lemma SpliceNew(nodes: Document, start: nat, end: nat, key: string, value: string)
    requires start <= end <= |nodes| && LastEntry(nodes[start..end], key) < 0
    ensures var body := nodes[start..end];
      var at := start + InsertIndex(body);
      && nodes[..at] + [Written(key, value)] + nodes[at..]
         == nodes[..start] + UpsertEntry(body, key, value) + nodes[end..]
      && |UpsertEntry(body, key, value)| == |body| + 1
  {
    hide LastEntry, InsertIndex, Written, IsEntryOf;
    Seqs.InsertInside(nodes, start, end, InsertIndex(nodes[start..end]), Written(key, value));
  }

  /** The upsert loop trims the key first; trimming again inside the search changes nothing. */
  lemma WrittenTrimmedKey(body: Document, key: string, value: string)
    ensures LastEntry(body, Trim(key)) == LastEntry(body, key)
    ensures Written(Trim(key), ReplaceNewlines(value, ' ')) == Written(key, value)
    ensures KeyValue(Trim(key), ReplaceNewlines(value, ' '), None, true) == Written(key, value)
  {
    TrimIdempotent(key);
    SameLastEntry(body, Trim(key), key);
    var v := ReplaceNewlines(value, ' ');
    assert ReplaceNewlines(v, ' ') == v;
  }

  lemma {:induction false} SameLastEntry(body: Document, key: string, other: string)
    requires Trim(key) == Trim(other) || key == Trim(other)
    ensures LastEntry(body, key) == LastEntry(body, other)
    decreases |body|
  {
    TrimIdempotent(other);
    if body != [] {
      SameLastEntry(body[..|body| - 1], key, other);
    }
  }
}
