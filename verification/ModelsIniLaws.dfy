/** What the models.ini document promises through its text: round trips, get/put and frame laws. */
module ModelsIniLaws {
  import opened Text
  import opened Records
  import opened ModelsIni
  import Seqs

  // ----- printing and parsing -----

  /** The node a line reads back as: what was written, with the line itself as its source. */
  function Settle(n: Node): Node {
    match n
    case Section(name, _, _) => Section(name, Some(PrintNode(n)), false)
    case KeyValue(key, value, _, _) => KeyValue(key, Trim(value), Some(PrintNode(n)), false)
    case _ => n
  }

  /** The node is one line of text, and reading that line gives the node back. */
  predicate Faithful(n: Node) {
    OneLine(PrintNode(n)) && ParseLine(PrintNode(n)) == Settle(n)
  }

  predicate FaithfulDoc(doc: Document) {
    forall i :: 0 <= i < |doc| ==> Faithful(doc[i])
  }

  /** The node is exactly what its own line parses to, as every node of a parsed file is. */
  predicate Settled(n: Node) {
    Faithful(n) && Settle(n) == n
  }

  predicate SettledDoc(doc: Document) {
    forall i :: 0 <= i < |doc| ==> Settled(doc[i])
  }

  function SettleAll(doc: Document): (r: Document)
    ensures |r| == |doc| && forall i :: 0 <= i < |doc| ==> r[i] == Settle(doc[i])
  {
    seq(|doc|, i requires 0 <= i < |doc| => Settle(doc[i]))
  }

  /** Text with its newlines normalised and its last line terminated. */
  function Terminated(text: string): string {
    var t := NormalizeNewlines(text);
    if t == [] || t[|t| - 1] == '\n' then t else t + ['\n']
  }

  lemma ParsedLineSettled(raw: string)
    requires OneLine(raw)
    ensures PrintNode(ParseLine(raw)) == raw && Settled(ParseLine(raw))
  {
    hide Trim, SectionName, IndexOf, OneLine;
    var n := ParseLine(raw);
    if n.KeyValue? {
      TrimIdempotent(raw[IndexOf(raw, '=') + 1..]);
    }
  }

  lemma TextLinesOneLine(text: string)
    ensures forall i :: 0 <= i < |TextLines(text)| ==> OneLine(TextLines(text)[i])
  {
    var t := NormalizeNewlines(text);
    if t != [] {
      var body := if t[|t| - 1] == '\n' then t[..|t| - 1] else t;
      JoinSplit(body, '\n');
      assert forall c :: c in body ==> c in t;
      forall i | 0 <= i < |TextLines(text)| ensures OneLine(TextLines(text)[i]) {
        var line := Split(body, '\n')[i];
        forall k | 0 <= k < |line| ensures !IsNewline(line[k]) {
          assert line[k] in line;
        }
      }
    }
  }

  lemma ParsedSettled(text: string)
    ensures SettledDoc(Parse(text))
    ensures Lines(Parse(text)) == TextLines(text)
  {
    TextLinesOneLine(text);
    forall i | 0 <= i < |TextLines(text)|
      ensures Settled(Parse(text)[i]) && PrintNode(Parse(text)[i]) == TextLines(text)[i]
    {
      ParsedLineSettled(TextLines(text)[i]);
    }
  }

  /** Parsing loses nothing: printing gives the text back, newlines normalised and terminated. */
  lemma PrintAfterParse(text: string)
    ensures Print(Parse(text)) == Terminated(text)
  {
    hide NormalizeNewlines, Split, Join, ParseLine, Settled, Parse;
    ParsedSettled(text);
    var t := NormalizeNewlines(text);
    if t != [] {
      var body := if t[|t| - 1] == '\n' then t[..|t| - 1] else t;
      JoinSplit(body, '\n');
      assert body + ['\n'] == Terminated(text);
    }
  }

  lemma LinesOfPrinted(doc: Document)
    requires forall i :: 0 <= i < |doc| ==> OneLine(PrintNode(doc[i]))
    ensures TextLines(Print(doc)) == Lines(doc)
  {
    if doc != [] {
      var lines := Lines(doc);
      var text := Print(doc);
      JoinChars(lines, '\n');
      forall c | c in text ensures c != '\r' {
        if c != '\n' {
          var k :| 0 <= k < |lines| && c in lines[k];
          var j :| 0 <= j < |lines[k]| && lines[k][j] == c;
        }
      }
      NormalizeNoCr(text);
      assert text[..|text| - 1] == Join(lines, '\n');
      forall k | 0 <= k < |lines| ensures '\n' !in lines[k] {
        assert OneLine(lines[k]);
      }
      SplitJoin(lines, '\n');
    }
  }

  /** Reading a printed document back is the identity, up to the marks an edit leaves on a node. */
  lemma ParseAfterPrint(doc: Document)
    requires FaithfulDoc(doc)
    ensures Parse(Print(doc)) == SettleAll(doc)
    ensures SettledDoc(doc) ==> Parse(Print(doc)) == doc
  {
    LinesOfPrinted(doc);
    assert forall i :: 0 <= i < |doc| ==> Parse(Print(doc))[i] == ParseLine(PrintNode(doc[i]));
  }

  lemma ParsePrintParse(text: string)
    ensures Parse(Print(Parse(text))) == Parse(text)
  {
    ParsedSettled(text);
    ParseAfterPrint(Parse(text));
  }

  // ----- which writes survive the round trip -----

  predicate PrintableKey(key: string) {
    var k := Trim(key);
    && OneLine(k) && '=' !in k
    && (k == [] || (k[0] != ';' && k[0] != '#' && k[0] != '['))
  }

  predicate PrintableName(name: string) {
    OneLine(name) && ']' !in name
  }

  /** The exact condition on a written key and value; only a leading bracket involves the value. */
  predicate ReadsBack(key: string, value: string) {
    var k := Trim(key);
    && OneLine(k) && '=' !in k
    && (k == [] || (k[0] != ';' && k[0] != '#'))
    && SectionName(PrintNode(Written(key, value))).None?
  }

  function WrittenText(key: string, value: string): string {
    Trim(key) + " = " + ReplaceNewlines(value, ' ')
  }

  lemma WrittenStart(key: string, value: string)
    ensures var k, line := Trim(key), WrittenText(key, value);
      && (OneLine(line) <==> OneLine(k))
      && Trim(line) != []
      && Trim(line)[0] == if k == [] then '=' else k[0]
  {
    hide Trim;
    var k, v, line := Trim(key), ReplaceNewlines(value, ' '), WrittenText(key, value);
    TrimIdempotent(key);
    assert OneLine(line) ==> OneLine(k) by {
      assert forall i :: 0 <= i < |k| ==> k[i] == line[i];
    }
    TrimStartDecides(line);
    if k == [] {
      assert line == " " + ("= " + v);
      TrimStartSkips(" ", "= " + v);
      assert TrimStart(line) == "= " + v;
    } else {
      assert line[0] == k[0] && !IsSpace(line[0]);
      assert TrimStart(line) == line;
    }
  }

  lemma WrittenParts(key: string, value: string)
    ensures var k, line := Trim(key), WrittenText(key, value);
      && ('=' !in k ==> IndexOf(line, '=') == |k| + 1)
      && Trim(line[..|k| + 1]) == k
      && Trim(line[|k| + 2..]) == Trim(ReplaceNewlines(value, ' '))
  {
    hide Trim;
    var k, v, line := Trim(key), ReplaceNewlines(value, ' '), WrittenText(key, value);
    TrimIdempotent(key);
    assert line == (k + " ") + ['='] + (" " + v);
    if '=' !in k {
      IndexOfFirst(k + " ", '=', " " + v);
    }
    assert line[..|k| + 1] == [] + k + " ";
    TrimCore([], k, " ");
    assert line[|k| + 2..] == " " + v + [];
    TrimAround(" ", v, []);
  }

  /** A written entry reads back exactly when its key cannot be taken for other syntax. */
  lemma WrittenFaithful(key: string, value: string)
    ensures Faithful(Written(key, value)) <==> ReadsBack(key, value)
  {
    hide Trim, SectionName, IndexOf, ReplaceNewlines;
    WrittenStart(key, value);
    WrittenParts(key, value);
    var k, line := Trim(key), WrittenText(key, value);
    assert PrintNode(Written(key, value)) == line;
    var at := IndexOf(line, '=');
    assert at < |line| by {
      assert line[|k| + 1] == '=';
      IndexOfAtMost(line, '=', |k| + 1);
    }
    if '=' in k {
      var a, b := TrimParts(line[..at]);
      assert forall c :: c in Trim(line[..at]) ==> c in line[..at];
      assert Trim(line[..at]) != k;
    }
  }

  lemma PrintableReadsBack(key: string, value: string)
    requires PrintableKey(key)
    ensures ReadsBack(key, value)
  {
    hide Trim, IndexOf;
    var line := WrittenText(key, value);
    assert PrintNode(Written(key, value)) == line;
    WrittenStart(key, value);
    TrimStartDecides(line);
  }

  lemma NothingToTrim(s: string)
    requires s == [] || !IsSpace(s[0])
    ensures TrimStart(s) == s
  {
  }

  /** What a bracketed line names: everything between the brackets when nothing in it closes them early. */
  lemma BracketedName(name: string)
    requires OneLine(name)
    ensures SectionName(['['] + name + [']']) == Some(name) <==> ']' !in name
  {
    hide Trim, IndexOf, TrimStart, OneLine;
    var line := ['['] + name + [']'];
    NothingToTrim(line);
    NothingToTrim([]);
    var close := IndexOf(line, ']');
    if ']' !in name {
      IndexOfFirst(['['] + name, ']', []);
      assert ['['] + name + [']'] + [] == line;
      assert line[1..close] == name && line[close + 1..] == [];
    } else {
      var i :| 0 <= i < |name| && name[i] == ']';
      IndexOfAtMost(line, ']', i + 1);
      assert |line[1..close]| < |name|;
    }
  }

  lemma BracketsOneLine(name: string)
    ensures OneLine(['['] + name + [']']) <==> OneLine(name)
  {
    var line := ['['] + name + [']'];
    if OneLine(line) {
      assert forall i :: 0 <= i < |name| ==> name[i] == line[i + 1];
    }
  }

  lemma BracketsNotBlank(name: string)
    ensures var line := ['['] + name + [']']; Trim(line) != [] && Trim(line)[0] == '['
  {
    hide Trim, TrimStart;
    NothingToTrim(['['] + name + [']']);
    TrimStartDecides(['['] + name + [']']);
  }

  /** An appended header reads back exactly when its name is one line and holds no closing bracket. */
  lemma AppendedFaithful(name: string)
    ensures Faithful(Section(name, None, true)) <==> PrintableName(name)
  {
    hide Trim, SectionName, OneLine;
    BracketsOneLine(name);
    BracketsNotBlank(name);
    if OneLine(name) {
      BracketedName(name);
    }
  }

  predicate PrintableEntries(entries: Record) {
    forall i :: 0 <= i < |entries| ==> ReadsBack(entries[i].0, entries[i].1)
  }

  /** The section is there already, or its name can be written as a header. */
  predicate Writable(doc: Document, section: SectionRef) {
    SectionBounds(doc, section).Some? || PrintableName(section.value)
  }

  lemma {:induction false} UpsertBodyFaithful(body: Document, entries: Record)
    requires FaithfulDoc(body) && PrintableEntries(entries)
    ensures FaithfulDoc(UpsertBody(body, entries))
    decreases |entries|
  {
    hide Faithful, ReadsBack, Written;
    if entries != [] {
      var n := |entries| - 1;
      UpsertBodyFaithful(body, entries[..n]);
      WrittenFaithful(entries[n].0, entries[n].1);
    }
  }

  lemma UpsertFaithful(doc: Document, section: SectionRef, entries: Record)
    requires FaithfulDoc(doc) && PrintableEntries(entries) && Writable(doc, section)
    ensures FaithfulDoc(Upsert(doc, section, entries))
  {
    hide Faithful, ReadsBack, PrintableName, SectionBounds, UpsertBody;
    var base := WithSection(doc, section);
    if SectionBounds(doc, section).None? {
      AppendedFaithful(section.value);
      BlankFaithful();
    }
    assert FaithfulDoc(base);
    var b := SectionBounds(base, section).value;
    UpsertBodyFaithful(base[b.start..b.end], entries);
  }

  lemma BlankFaithful()
    ensures Faithful(Blank(""))
  {
  }

  lemma RemoveKeysFaithful(doc: Document, section: SectionRef, keys: seq<string>)
    requires FaithfulDoc(doc)
    ensures FaithfulDoc(RemoveKeys(doc, section, keys))
  {
    hide Faithful, SectionBounds, RemoveFromBody, TrimmedKeys;
    var b := SectionBounds(doc, section);
    if b.Some? {
      var body := doc[b.value.start..b.value.end];
      var r := RemoveFromBody(body, TrimmedKeys(keys));
      assert forall i :: 0 <= i < |r| ==> r[i] in body;
    }
  }

  // ----- reading after an edit, on nodes -----

  predicate SameSection(a: SectionRef, b: SectionRef) {
    match (a, b)
    case (None, None) => true
    case (Some(x), Some(y)) => Trim(x) == Trim(y)
    case _ => false
  }

  predicate NoSection(body: Document) {
    forall i :: 0 <= i < |body| ==> !body[i].Section?
  }

  lemma BoundsUnique(nodes: Document, section: SectionRef, b: Bounds)
    requires b.header + 1 == b.start <= b.end <= |nodes|
    requires section.None? ==> b.header == -1
    requires section.Some? ==> 0 <= b.header && IsHeaderOf(nodes[b.header], section.value)
    requires section.Some? ==> forall k :: 0 <= k < b.header ==> !IsHeaderOf(nodes[k], section.value)
    requires NoSection(nodes[b.start..b.end]) && (b.end < |nodes| ==> nodes[b.end].Section?)
    ensures SectionBounds(nodes, section) == Some(b)
  {
    hide SectionBounds, IsHeaderOf;
    assert SectionBounds(nodes, section).Some?;
    var c := SectionBounds(nodes, section).value;
    assert c.header == b.header;
    EndUnique(nodes, b.start, b.end, c.end);
  }

  lemma EndUnique(nodes: Document, start: nat, a: nat, b: nat)
    requires start <= a <= |nodes| && start <= b <= |nodes|
    requires NoSection(nodes[start..a]) && (a < |nodes| ==> nodes[a].Section?)
    requires (forall k :: start <= k < b ==> !nodes[k].Section?) && (b < |nodes| ==> nodes[b].Section?)
    ensures a == b
  {
    assert forall k :: start <= k < a ==> nodes[k] == nodes[start..a][k - start];
  }

  lemma BodySelf(pre: Document, body: Document, post: Document, section: SectionRef)
    requires NoSection(body) && (post != [] ==> post[0].Section?)
    requires section.None? ==> pre == []
    requires section.Some? ==> pre != [] && IsHeaderOf(pre[|pre| - 1], section.value)
    requires section.Some? ==> forall k :: 0 <= k < |pre| - 1 ==> !IsHeaderOf(pre[k], section.value)
    ensures SectionBounds(pre + body + post, section) == Some(Bounds(|pre| - 1, |pre|, |pre| + |body|))
    ensures Body(pre + body + post, section) == body
  {
    var nodes := pre + body + post;
    assert nodes[|pre|..|pre| + |body|] == body;
    BoundsUnique(nodes, section, Bounds(|pre| - 1, |pre|, |pre| + |body|));
  }

  lemma BodyInPrefix(pre: Document, rest: Document, section: SectionRef)
    requires pre != [] && pre[|pre| - 1].Section?
    requires section.Some? ==> exists k :: 0 <= k < |pre| - 1 && IsHeaderOf(pre[k], section.value)
    ensures Body(pre + rest, section) == Body(pre, section)
    ensures SectionBounds(pre + rest, section).Some? && SectionBounds(pre, section).Some?
  {
    var b := SectionBounds(pre, section).value;
    var nodes := pre + rest;
    assert nodes[b.start..b.end] == pre[b.start..b.end];
    BoundsUnique(nodes, section, b);
  }

  lemma BodyPastPrefix(pre: Document, rest: Document, name: string)
    requires forall k :: 0 <= k < |pre| ==> !IsHeaderOf(pre[k], name)
    ensures Body(pre + rest, Some(name)) == Body(rest, Some(name))
    ensures SectionBounds(pre + rest, Some(name)).Some? <==> SectionBounds(rest, Some(name)).Some?
  {
    var nodes := pre + rest;
    assert forall k :: 0 <= k < |rest| ==> rest[k] == nodes[|pre| + k];
    var c := SectionBounds(rest, Some(name));
    if c.Some? {
      var b := Bounds(|pre| + c.value.header, |pre| + c.value.start, |pre| + c.value.end);
      assert nodes[b.start..b.end] == rest[c.value.start..c.value.end];
      BoundsUnique(nodes, Some(name), b);
    }
  }

  /** Rewriting one section's body changes what no other section owns. */
  lemma OtherBodies(pre: Document, body: Document, body': Document, post: Document, other: SectionRef)
    requires NoSection(body) && NoSection(body')
    requires pre == [] ==> other.Some?
    requires pre != [] ==> pre[|pre| - 1].Section?
    requires pre != [] && other.Some? ==> !IsHeaderOf(pre[|pre| - 1], other.value)
    ensures Body(pre + body + post, other) == Body(pre + body' + post, other)
    ensures SectionBounds(pre + body + post, other).Some? <==> SectionBounds(pre + body' + post, other).Some?
  {
    assert pre + body + post == pre + (body + post) && pre + body' + post == pre + (body' + post);
    if other.None? || exists k :: 0 <= k < |pre| && IsHeaderOf(pre[k], other.value) {
      BodyInPrefix(pre, body + post, other);
      BodyInPrefix(pre, body' + post, other);
    } else {
      BodyPastPrefix(pre + body, post, other.value);
      BodyPastPrefix(pre + body', post, other.value);
    }
  }

  /** The three pieces an edit of `section` sees, and what replacing the middle one does. */
  lemma EditBody(nodes: Document, section: SectionRef, body': Document)
    requires SectionBounds(nodes, section).Some? && NoSection(body')
    ensures var b := SectionBounds(nodes, section).value;
            var r := nodes[..b.start] + body' + nodes[b.end..];
            && Body(r, section) == body'
            && SectionBounds(r, section).Some?
            && (forall other :: !SameSection(other, section) ==>
                  Body(r, other) == Body(nodes, other)
                  && (SectionBounds(r, other).Some? <==> SectionBounds(nodes, other).Some?))
  {
    var b := SectionBounds(nodes, section).value;
    var pre, body, post := nodes[..b.start], nodes[b.start..b.end], nodes[b.end..];
    assert nodes == pre + body + post;
    BodySelf(pre, body', post, section);
    forall other | !SameSection(other, section)
      ensures Body(pre + body' + post, other) == Body(nodes, other)
      ensures SectionBounds(pre + body' + post, other).Some? <==> SectionBounds(nodes, other).Some?
    {
      OtherBodies(pre, body, body', post, other);
    }
  }

  lemma BodyOfSame(nodes: Document, a: SectionRef, b: SectionRef)
    requires SameSection(a, b)
    ensures SectionBounds(nodes, a) == SectionBounds(nodes, b)
  {
    if a.Some? {
      FirstHeaderOfSame(nodes, a.value, b.value, 0);
    }
  }

  lemma {:induction false} FirstHeaderOfSame(nodes: Document, a: string, b: string, from: nat)
    requires Trim(a) == Trim(b) && from <= |nodes|
    ensures FirstHeaderFrom(nodes, a, from) == FirstHeaderFrom(nodes, b, from)
    decreases |nodes| - from
  {
    hide Trim;
    if from < |nodes| && !IsHeaderOf(nodes[from], a) {
      FirstHeaderOfSame(nodes, a, b, from + 1);
    }
  }

  /** Creating a missing section at the end disturbs no section that was there. */
  lemma WithSectionFrame(nodes: Document, section: SectionRef, other: SectionRef)
    ensures SectionValues(WithSection(nodes, section), other) == SectionValues(nodes, other)
    ensures !SameSection(other, section) ==>
      (SectionBounds(WithSection(nodes, section), other).Some? <==> SectionBounds(nodes, other).Some?)
  {
    if SectionBounds(nodes, section).None? {
      AppendFrame(nodes, section.value, other);
    }
  }

  lemma AppendFrame(nodes: Document, name: string, other: SectionRef)
    requires SectionBounds(nodes, Some(name)).None?
    ensures SectionValues(AppendSection(nodes, name), other) == SectionValues(nodes, other)
    ensures !SameSection(other, Some(name)) ==>
      (SectionBounds(AppendSection(nodes, name), other).Some? <==> SectionBounds(nodes, other).Some?)
  {
    hide Trim, SectionBounds, Read;
    var gap := Gap(nodes);
    var pre := nodes + gap + [Section(name, None, true)];
    assert AppendSection(nodes, name) == pre;
    if SameSection(other, Some(name)) {
      BodyOfSame(nodes, other, Some(name));
      BodyOfSame(pre, other, Some(name));
      assert pre == pre + [] + [];
      BodySelf(pre, [], [], Some(name));
    } else if SectionBounds(nodes, other).Some? {
      AppendAfter(nodes, gap, name, other);
      var b := SectionBounds(nodes, other).value;
      ReadBlankTail(nodes[b.start..b.end]);
      assert nodes[b.start..b.end] + [] == nodes[b.start..b.end];
    } else {
      MissingAfterAppend(nodes, gap, name, other);
    }
  }

  lemma MissingAfterAppend(nodes: Document, gap: Document, name: string, other: SectionRef)
    requires SectionBounds(nodes, other).None? && NoSection(gap)
    requires Trim(other.value) != Trim(name)
    ensures SectionBounds(nodes + gap + [Section(name, None, true)], other).None?
  {
  }

  function Gap(nodes: Document): Document {
    if nodes != [] && !nodes[|nodes| - 1].Blank? then [Blank("")] else []
  }

  lemma AppendAfter(nodes: Document, gap: Document, name: string, other: SectionRef)
    requires SectionBounds(nodes, other).Some? && NoSection(gap)
    ensures var b, base := SectionBounds(nodes, other).value, nodes + gap + [Section(name, None, true)];
      && SectionBounds(base, other).Some?
      && Body(base, other) == nodes[b.start..b.end] + (if b.end == |nodes| then gap else [])
  {
    hide Trim;
    var base := nodes + gap + [Section(name, None, true)];
    var b := SectionBounds(nodes, other).value;
    var e := if b.end == |nodes| then |nodes| + |gap| else b.end;
    assert base[b.start..e] == nodes[b.start..b.end] + (if b.end == |nodes| then gap else []);
    BoundsUnique(base, other, Bounds(b.header, b.start, e));
  }

  lemma ReadBlankTail(body: Document)
    ensures Read(body + [Blank("")]) == Read(body)
  {
    assert (body + [Blank("")])[..|body|] == body;
  }

  // ----- what a body says -----

  lemma {:induction false} GetRead(body: Document, k: string)
    requires Trim(k) == k
    ensures Get(Read(body), k)
         == if LastEntry(body, k) < 0 then None else Some(body[LastEntry(body, k)].value)
    decreases |body|
  {
    if body != [] {
      var n := |body| - 1;
      GetRead(body[..n], k);
      if body[n].KeyValue? {
        GetPut(Read(body[..n]), Trim(body[n].key), body[n].value, k);
      }
    }
  }

  lemma LastEntryConcat(a: Document, b: Document, k: string)
    ensures LastEntry(a + b, k) == if LastEntry(b, k) >= 0 then |a| + LastEntry(b, k) else LastEntry(a, k)
  {
    hide IsEntryOf;
    var i, j, m := LastEntry(a + b, k), LastEntry(b, k), LastEntry(a, k);
    assert forall x :: 0 <= x < |b| ==> b[x] == (a + b)[|a| + x];
    assert forall x :: 0 <= x < |a| ==> a[x] == (a + b)[x];
  }

  lemma {:induction false} ReadKeys(body: Document)
    ensures DistinctKeys(Read(body))
    ensures forall k :: k in Keys(Read(body)) ==>
      Trim(k) == k && exists i :: 0 <= i < |body| && body[i].KeyValue? && Trim(body[i].key) == k
    decreases |body|
  {
    if body != [] {
      var n := |body| - 1;
      ReadKeys(body[..n]);
      if body[n].KeyValue? {
        TrimIdempotent(body[n].key);
        PutDistinct(Read(body[..n]), Trim(body[n].key), body[n].value);
      }
      assert forall i :: 0 <= i < n ==> body[..n][i] == body[i];
    }
  }

  /** The assignments a body makes, in line order. */
  function Pairs(body: Document): Record
    decreases |body|
  {
    if body == [] then []
    else
      var n := |body| - 1;
      Pairs(body[..n]) + (if body[n].KeyValue? then [(Trim(body[n].key), body[n].value)] else [])
  }

  lemma {:induction false} ReadConcat(a: Document, b: Document)
    ensures Read(a + b) == Merge(Read(a), Pairs(b))
    decreases |b|
  {
    if b == [] {
      assert a + b == a;
    } else {
      var n := |b| - 1;
      assert (a + b)[..|a + b| - 1] == a + b[..n];
      ReadConcat(a, b[..n]);
      if b[n].KeyValue? {
        assert Pairs(b)[..|Pairs(b)| - 1] == Pairs(b[..n]);
      } else {
        assert Pairs(b) == Pairs(b[..n]);
      }
    }
  }

  lemma {:induction false} PairsKeys(body: Document, key: string)
    requires LastEntry(body, key) == -1
    ensures Trim(key) !in Keys(Pairs(body))
    decreases |body|
  {
    if body != [] {
      var n := |body| - 1;
      PairsKeys(body[..n], key);
      var p := Pairs(body[..n]);
      assert !IsEntryOf(body[n], key);
      forall i | 0 <= i < |Pairs(body)| ensures Pairs(body)[i].0 != Trim(key) {
        if i < |p| {
          assert p[i].0 in Keys(p);
        }
      }
    }
  }

  lemma {:induction false} PairsOfBlanks(body: Document)
    requires forall i :: 0 <= i < |body| ==> body[i].Blank?
    ensures Pairs(body) == []
    decreases |body|
  {
    if body != [] {
      PairsOfBlanks(body[..|body| - 1]);
    }
  }

  /** An upsert of one entry swaps the last line of its key, or inserts a line where there is none. */
  lemma UpsertSplit(body: Document, key: string, value: string)
    returns (a: Document, m: Document, c: Document)
    ensures body == a + m + c && UpsertEntry(body, key, value) == a + [Written(key, value)] + c
    ensures LastEntry(c, key) == -1
    ensures m == [] || (|m| == 1 && IsEntryOf(m[0], key))
    ensures m == [] <==> LastEntry(body, key) == -1
    ensures m == [] ==> LastEntry(a, key) == -1
    ensures m == [] ==> forall i :: 0 <= i < |c| ==> c[i].Blank?
  {
    hide Trim, Written, IsEntryOf, LastEntry;
    var i := LastEntry(body, key);
    if i >= 0 {
      a, m, c := body[..i], [body[i]], body[i + 1..];
      Seqs.Update(body, i, Written(key, value));
      NoEntryIn(body, key, i + 1, |body|);
    } else {
      var at := InsertIndex(body);
      a, m, c := body[..at], [], body[at..];
      NoEntryIn(body, key, at, |body|);
      NoEntryIn(body, key, 0, at);
      assert a + m == a;
      assert body == a + c;
    }
  }

  lemma NoEntryIn(body: Document, key: string, i: nat, j: nat)
    requires i <= j <= |body| && LastEntry(body, key) < i
    ensures LastEntry(body[i..j], key) == -1
    ensures i == 0 ==> body[..j] == body[i..j]
    ensures j == |body| ==> body[i..] == body[i..j]
  {
    hide IsEntryOf, LastEntry;
    assert forall x :: 0 <= x < j - i ==> body[i..j][x] == body[i + x];
  }

  lemma ReadOne(n: Node)
    ensures Pairs([n]) == if n.KeyValue? then [(Trim(n.key), n.value)] else []
  {
    assert [n][..0] == [];
  }

  lemma MergeOne(r: Record, key: string, value: string)
    ensures Merge(r, [(key, value)]) == Put(r, key, value)
  {
    assert [(key, value)][..0] == [];
  }

  lemma ReadThree(a: Document, n: Node, c: Document)
    requires n.KeyValue?
    ensures Read(a + [n] + c) == Merge(Put(Read(a), Trim(n.key), n.value), Pairs(c))
  {
    ReadConcat(a + [n], c);
    ReadConcat(a, [n]);
    ReadOne(n);
    MergeOne(Read(a), Trim(n.key), n.value);
  }

  /** Writing one line is setting one key: the reading changes as a map's entry would. */
  lemma ReadUpsertEntry(body: Document, key: string, value: string)
    ensures Read(UpsertEntry(body, key, value)) == Put(Read(body), Trim(key), ReplaceNewlines(value, ' '))
  {
    hide Trim, Read, Merge, Put, ReplaceNewlines, UpsertEntry, LastEntry, Pairs;
    var k, v := Trim(key), ReplaceNewlines(value, ' ');
    var a, m, c := UpsertSplit(body, key, value);
    TrimIdempotent(key);
    ReadThree(a, Written(key, value), c);
    if m == [] {
      PairsOfBlanks(c);
      MergeNothing(Put(Read(a), k, v));
      MergeNothing(Read(a));
      ReadConcat(a, c);
      assert a + m == a;
    } else {
      ReadThree(a, m[0], c);
      assert m == [m[0]];
      var r := Put(Read(a), k, m[0].value);
      GetPut(Read(a), k, m[0].value, k);
      PutPut(Read(a), k, m[0].value, v);
      PairsKeys(c, key);
      MergePut(r, k, v, Pairs(c));
    }
  }

  lemma MergeNothing(r: Record)
    ensures Merge(r, []) == r
  {
  }

  /** The entries as an upsert writes them. */
  function WrittenEntries(entries: Record): (r: Record)
    ensures |r| == |entries|
  {
    seq(|entries|, i requires 0 <= i < |entries| =>
      (Trim(entries[i].0), ReplaceNewlines(entries[i].1, ' ')))
  }

  /** The entries as they read back from the printed text. */
  function TidyEntries(entries: Record): (r: Record)
    ensures |r| == |entries|
    ensures forall i :: 0 <= i < |r| ==> r[i] == (Trim(entries[i].0), Tidy(entries[i].1))
  {
    seq(|entries|, i requires 0 <= i < |entries| => (Trim(entries[i].0), Tidy(entries[i].1)))
  }

  lemma {:induction false} ReadUpsertBody(body: Document, entries: Record)
    ensures Read(UpsertBody(body, entries)) == Merge(Read(body), WrittenEntries(entries))
    decreases |entries|
  {
    hide Read, Put, Trim, ReplaceNewlines, UpsertEntry;
    if entries == [] {
      assert WrittenEntries(entries) == [];
    } else {
      var n := |entries| - 1;
      ReadUpsertBody(body, entries[..n]);
      ReadUpsertEntry(UpsertBody(body, entries[..n]), entries[n].0, entries[n].1);
      var w := WrittenEntries(entries);
      assert w[..n] == WrittenEntries(entries[..n]);
      assert w[n] == (Trim(entries[n].0), ReplaceNewlines(entries[n].1, ' '));
    }
  }

  lemma {:induction false} ReadRemove(body: Document, keys: set<string>)
    ensures Read(RemoveFromBody(body, keys)) == Without(Read(body), keys)
    decreases |body|
  {
    if body != [] {
      var n := |body| - 1;
      var init, last := body[..n], [body[n]];
      assert body == init + last;
      ReadRemove(init, keys);
      StrikeConcat(init, last, keys);
      assert last[1..] == [];
      if body[n].KeyValue? {
        WithoutPut(Read(init), Trim(body[n].key), body[n].value, keys);
      }
      var r := RemoveFromBody(init, keys);
      if body[n].KeyValue? && Trim(body[n].key) in keys {
        assert r + [] == r;
      } else {
        assert (r + last)[..|r + last| - 1] == r;
      }
    }
  }

  // ----- settling a document changes no reading but trims the values -----

  function TrimValues(r: Record): (t: Record)
    ensures |t| == |r| && forall i :: 0 <= i < |r| ==> t[i] == (r[i].0, Trim(r[i].1))
  {
    seq(|r|, i requires 0 <= i < |r| => (r[i].0, Trim(r[i].1)))
  }

  lemma TrimValuesCons(e: (string, string), r: Record)
    ensures TrimValues([e] + r) == [(e.0, Trim(e.1))] + TrimValues(r)
  {
    hide Trim;
  }

  lemma {:induction false} PutTrimValues(r: Record, key: string, value: string)
    ensures Put(TrimValues(r), key, Trim(value)) == TrimValues(Put(r, key, value))
  {
    hide Trim, TrimValues;
    if r == [] {
      assert [(key, value)] + [] == [(key, value)] && [(key, Trim(value))] + [] == [(key, Trim(value))];
      TrimValuesCons((key, value), []);
    } else {
      assert r == [r[0]] + r[1..];
      TrimValuesCons(r[0], r[1..]);
      assert TrimValues(r)[1..] == TrimValues(r[1..]);
      if r[0].0 == key {
        TrimValuesCons((key, value), r[1..]);
      } else {
        PutTrimValues(r[1..], key, value);
        TrimValuesCons(r[0], Put(r[1..], key, value));
      }
    }
  }

  lemma {:induction false} ReadSettled(body: Document)
    ensures Read(SettleAll(body)) == TrimValues(Read(body))
    decreases |body|
  {
    if body != [] {
      var n := |body| - 1;
      ReadSettled(body[..n]);
      assert SettleAll(body)[..n] == SettleAll(body[..n]);
      if body[n].KeyValue? {
        PutTrimValues(Read(body[..n]), Trim(body[n].key), body[n].value);
      }
    }
  }

  lemma SettledBody(doc: Document, section: SectionRef)
    ensures Body(SettleAll(doc), section) == SettleAll(Body(doc, section))
    ensures SectionBounds(SettleAll(doc), section) == SectionBounds(doc, section)
  {
    var c := SectionBounds(doc, section);
    var s := SettleAll(doc);
    if c.Some? {
      var b := c.value;
      assert s[b.start..b.end] == SettleAll(doc[b.start..b.end]);
      BoundsUnique(s, section, b);
    } else {
      assert forall k :: 0 <= k < |doc| ==> (IsHeaderOf(s[k], section.value) <==> IsHeaderOf(doc[k], section.value));
    }
  }

  /** Reading a printed document back answers every lookup as the document did, values trimmed. */
  lemma ReadThroughText(doc: Document, section: SectionRef)
    requires FaithfulDoc(doc)
    ensures SectionValues(Parse(Print(doc)), section) == TrimValues(SectionValues(doc, section))
    ensures SectionBounds(Parse(Print(doc)), section) == SectionBounds(doc, section)
  {
    ParseAfterPrint(doc);
    SettledBody(doc, section);
    ReadSettled(Body(doc, section));
  }

  lemma SettledValuesTrimmed(doc: Document, section: SectionRef)
    requires SettledDoc(doc)
    ensures TrimValues(SectionValues(doc, section)) == SectionValues(doc, section)
  {
    assert SettleAll(doc) == doc;
    SettledBody(doc, section);
    ReadSettled(Body(doc, section));
  }

  lemma {:induction false} TrimMerged(r: Record, entries: Record)
    ensures TrimValues(Merge(r, WrittenEntries(entries))) == Merge(TrimValues(r), TidyEntries(entries))
    decreases |entries|
  {
    if entries != [] {
      var n := |entries| - 1;
      assert TidyEntries(entries)[..n] == TidyEntries(entries[..n]);
      assert WrittenEntries(entries)[..n] == WrittenEntries(entries[..n]);
      TrimMerged(r, entries[..n]);
      PutTrimValues(Merge(r, WrittenEntries(entries[..n])), Trim(entries[n].0), ReplaceNewlines(entries[n].1, ' '));
    }
  }

  // ----- the laws through the text -----

  function UpsertText(text: string, section: SectionRef, entries: Record): string {
    Print(Upsert(Parse(text), section, entries))
  }

  function RemoveKeysText(text: string, section: SectionRef, keys: seq<string>): string {
    Print(RemoveKeys(Parse(text), section, keys))
  }

  function RemoveSectionText(text: string, name: string): string {
    Print(RemoveSection(Parse(text), name))
  }

  lemma UpsertReads(doc: Document, section: SectionRef, entries: Record)
    ensures SectionValues(Upsert(doc, section, entries), section)
         == Merge(SectionValues(doc, section), WrittenEntries(entries))
    ensures forall other :: !SameSection(other, section) ==>
      SectionValues(Upsert(doc, section, entries), other) == SectionValues(doc, other)
    ensures SectionBounds(Upsert(doc, section, entries), section).Some?
    ensures forall other :: !SameSection(other, section) ==>
      (SectionBounds(Upsert(doc, section, entries), other).Some? <==> SectionBounds(doc, other).Some?)
  {
    var base := WithSection(doc, section);
    var b := SectionBounds(base, section).value;
    var body := base[b.start..b.end];
    EditBody(base, section, UpsertBody(body, entries));
    forall other
      ensures SectionValues(base, other) == SectionValues(doc, other)
      ensures !SameSection(other, section) ==>
        (SectionBounds(base, other).Some? <==> SectionBounds(doc, other).Some?)
    {
      WithSectionFrame(doc, section, other);
    }
    ReadUpsertBody(body, entries);
  }

  /** Put and frame through the printed text: the section reads as a map with the entries set. */
  lemma UpsertThroughText(text: string, section: SectionRef, entries: Record)
    requires PrintableEntries(entries) && Writable(Parse(text), section)
    ensures SectionValues(Parse(UpsertText(text, section, entries)), section)
         == Merge(SectionValues(Parse(text), section), TidyEntries(entries))
    ensures forall other :: !SameSection(other, section) ==>
      SectionValues(Parse(UpsertText(text, section, entries)), other) == SectionValues(Parse(text), other)
  {
    hide Parse, SectionBounds, Upsert, PrintableEntries, Merge;
    var doc := Parse(text);
    var next := Upsert(doc, section, entries);
    ParsedSettled(text);
    UpsertFaithful(doc, section, entries);
    UpsertReads(doc, section, entries);
    ReadThroughText(next, section);
    SettledValuesTrimmed(doc, section);
    TrimMerged(SectionValues(doc, section), entries);
    forall other | !SameSection(other, section)
      ensures SectionValues(Parse(Print(next)), other) == SectionValues(doc, other)
    {
      ReadThroughText(next, other);
      SettledValuesTrimmed(doc, other);
    }
  }

  /** Get after put: a written key reads back its last written value, made one line and trimmed. */
  lemma GetAfterUpsert(text: string, section: SectionRef, entries: Record, key: string)
    requires PrintableEntries(entries) && Writable(Parse(text), section)
    ensures Get(SectionValues(Parse(UpsertText(text, section, entries)), section), key)
         == Overlay(SectionValues(Parse(text), section), TidyEntries(entries), key)
  {
    UpsertThroughText(text, section, entries);
    GetMerge(SectionValues(Parse(text), section), TidyEntries(entries), key);
  }

  lemma RemoveKeysReads(doc: Document, section: SectionRef, keys: seq<string>)
    ensures SectionValues(RemoveKeys(doc, section, keys), section)
         == Without(SectionValues(doc, section), TrimmedKeys(keys))
    ensures forall other :: !SameSection(other, section) ==>
      SectionValues(RemoveKeys(doc, section, keys), other) == SectionValues(doc, other)
    ensures forall other ::
      SectionBounds(RemoveKeys(doc, section, keys), other).Some? <==> SectionBounds(doc, other).Some?
  {
    var c := SectionBounds(doc, section);
    if c.Some? {
      var body := doc[c.value.start..c.value.end];
      var r := RemoveFromBody(body, TrimmedKeys(keys));
      assert forall i :: 0 <= i < |r| ==> r[i] in body;
      EditBody(doc, section, r);
      ReadRemove(body, TrimmedKeys(keys));
      forall other | SameSection(other, section)
        ensures SectionBounds(RemoveKeys(doc, section, keys), other).Some? && SectionBounds(doc, other).Some?
      {
        BodyOfSame(doc, other, section);
        BodyOfSame(RemoveKeys(doc, section, keys), other, section);
      }
    }
  }

  /** Removal leaves no line of a removed key, duplicates included, and reads the rest as before. */
  lemma RemoveKeysThroughText(text: string, section: SectionRef, keys: seq<string>)
    ensures SectionValues(Parse(RemoveKeysText(text, section, keys)), section)
         == Without(SectionValues(Parse(text), section), TrimmedKeys(keys))
    ensures forall other :: !SameSection(other, section) ==>
      SectionValues(Parse(RemoveKeysText(text, section, keys)), other) == SectionValues(Parse(text), other)
    ensures forall n :: n in Body(RemoveKeys(Parse(text), section, keys), section) <==>
      n in Body(Parse(text), section) && !(n.KeyValue? && Trim(n.key) in TrimmedKeys(keys))
    ensures Parse(RemoveKeysText(text, section, keys)) == RemoveKeys(Parse(text), section, keys)
  {
    hide SectionBounds, RemoveFromBody, Settled, Parse;
    var doc := Parse(text);
    ParsedSettled(text);
    RemoveKeysReads(doc, section, keys);
    RemoveKeysBody(doc, section, keys);
    RemoveKeysSettled(doc, section, keys);
  }

  lemma RemoveKeysBody(doc: Document, section: SectionRef, keys: seq<string>)
    ensures Body(RemoveKeys(doc, section, keys), section) == RemoveFromBody(Body(doc, section), TrimmedKeys(keys))
  {
    hide Trim;
    var c := SectionBounds(doc, section);
    if c.Some? {
      var body := doc[c.value.start..c.value.end];
      var r := RemoveFromBody(body, TrimmedKeys(keys));
      assert forall i :: 0 <= i < |r| ==> r[i] in body;
      EditBody(doc, section, r);
    }
  }

  lemma RemoveKeysSettled(doc: Document, section: SectionRef, keys: seq<string>)
    requires SettledDoc(doc)
    ensures Parse(Print(RemoveKeys(doc, section, keys))) == RemoveKeys(doc, section, keys)
  {
    hide SectionBounds, RemoveFromBody, Settled, Parse, Print;
    var next := RemoveKeys(doc, section, keys);
    var c := SectionBounds(doc, section);
    if c.Some? {
      var pre, body, post := doc[..c.value.start], doc[c.value.start..c.value.end], doc[c.value.end..];
      var r := RemoveFromBody(body, TrimmedKeys(keys));
      forall i | 0 <= i < |next| ensures Settled(next[i]) {
        Seqs.MemberOfPieces(pre, r, post, next[i]);
        assert next[i] in next && next[i] in doc;
      }
    }
    SettledFaithful(next);
    ParseAfterPrint(next);
  }

  lemma SettledFaithful(doc: Document)
    requires SettledDoc(doc)
    ensures FaithfulDoc(doc) && SettleAll(doc) == doc
  {
  }

  /** Removing a section uncovers the next one of that name, if any, and disturbs no other. */
  lemma RemoveSectionThroughText(text: string, name: string)
    ensures forall other :: !SameSection(other, Some(name)) ==>
      SectionValues(Parse(RemoveSectionText(text, name)), other) == SectionValues(Parse(text), other)
    ensures var b := SectionBounds(Parse(text), Some(name));
      SectionValues(Parse(RemoveSectionText(text, name)), Some(name))
      == if b.None? then [] else SectionValues(Parse(text)[b.value.end..], Some(name))
    ensures Parse(RemoveSectionText(text, name)) == RemoveSection(Parse(text), name)
  {
    hide Parse, SettledDoc, SectionBounds;
    var doc := Parse(text);
    ParsedSettled(text);
    RemoveSectionSettled(doc, name);
    SettledFaithful(RemoveSection(doc, name));
    ParseAfterPrint(RemoveSection(doc, name));
    RemoveSectionBodies(doc, name);
  }

  lemma RemoveSectionSettled(doc: Document, name: string)
    requires SettledDoc(doc)
    ensures SettledDoc(RemoveSection(doc, name))
  {
    hide Settled, SectionBounds;
    assert forall n :: n in RemoveSection(doc, name) ==> n in doc;
  }

  lemma RemoveSectionBodies(doc: Document, name: string)
    ensures forall other :: !SameSection(other, Some(name)) ==>
      Body(RemoveSection(doc, name), other) == Body(doc, other)
    ensures var b := SectionBounds(doc, Some(name));
      b.Some? ==> Body(RemoveSection(doc, name), Some(name)) == Body(doc[b.value.end..], Some(name))
  {
    hide SectionBounds, Trim;
    var c := SectionBounds(doc, Some(name));
    if c.Some? {
      var b := c.value;
      var pre, cut, post := doc[..b.header], doc[b.header..b.end], doc[b.end..];
      assert doc == pre + cut + post;
      BodyPastPrefix(pre, post, name);
      forall other | !SameSection(other, Some(name))
        ensures Body(pre + post, other) == Body(doc, other)
      {
        CutBodies(pre, cut, post, other);
      }
    }
  }

  lemma CutBodies(pre: Document, cut: Document, post: Document, other: SectionRef)
    requires cut != [] && cut[0].Section? && NoSection(cut[1..])
    requires post != [] ==> post[0].Section?
    requires other.Some? ==> !IsHeaderOf(cut[0], other.value)
    ensures Body(pre + post, other) == Body(pre + cut + post, other)
  {
    hide SectionBounds, Trim;
    Seqs.Assoc(pre, cut, post);
    if other.Some? && forall k :: 0 <= k < |pre| ==> !IsHeaderOf(pre[k], other.value) {
      assert forall k :: 1 <= k < |cut| ==> cut[k] == cut[1..][k - 1];
      BodyPastPrefix(pre, post, other.value);
      BodyPastPrefix(pre + cut, post, other.value);
    } else {
      PrefixBody(pre, cut + post, other);
      PrefixBody(pre, post, other);
    }
  }

  lemma PrefixBody(pre: Document, rest: Document, other: SectionRef)
    requires SectionBounds(pre, other).Some? && (rest != [] ==> rest[0].Section?)
    ensures Body(pre + rest, other) == Body(pre, other)
  {
    hide SectionBounds, Trim;
    var b := SectionBounds(pre, other).value;
    assert (pre + rest)[b.start..b.end] == pre[b.start..b.end];
    BoundsUnique(pre + rest, other, b);
  }

  // ----- untouched lines -----

  lemma {:induction false} StrikeConcat(a: Document, b: Document, ks: set<string>)
    ensures RemoveFromBody(a + b, ks) == RemoveFromBody(a, ks) + RemoveFromBody(b, ks)
  {
    if a == [] {
      assert a + b == b;
    } else {
      assert (a + b)[1..] == a[1..] + b;
      StrikeConcat(a[1..], b, ks);
    }
  }

  /** The lines left when the last line of each of these keys is taken out. */
  function StrikeLast(body: Document, ks: set<string>): Document {
    if body == [] then []
    else
      var n := |body| - 1;
      if body[n].KeyValue? && Trim(body[n].key) in ks then StrikeLast(body[..n], ks - {Trim(body[n].key)})
      else StrikeLast(body[..n], ks) + [body[n]]
  }

  /** The printed lines of a document but for the one line of the section that speaks for each key. */
  function OtherLines(doc: Document, section: SectionRef, keys: seq<string>): seq<string>
    requires SectionBounds(doc, section).Some?
  {
    var b := SectionBounds(doc, section).value;
    Lines(doc[..b.start] + StrikeLast(doc[b.start..b.end], TrimmedKeys(keys)) + doc[b.end..])
  }

  /**
   * Apart from the one line that speaks for each written key, every line of the text survives an upsert
   * in its order, earlier duplicates of those keys included; a missing section is only added at the end.
   */
  lemma UpsertKeepsOtherLines(text: string, section: SectionRef, entries: Record, keys: seq<string>)
    requires forall i :: 0 <= i < |entries| ==> Trim(entries[i].0) in TrimmedKeys(keys)
    ensures var doc := Parse(text); var base, next := WithSection(doc, section), Upsert(doc, section, entries);
      && SectionBounds(next, section).Some?
      && OtherLines(next, section, keys) == OtherLines(base, section, keys)
      && TextLines(text) <= Lines(base)
      && (SectionBounds(doc, section).Some? ==> Lines(base) == TextLines(text))
      && (SectionBounds(doc, section).None? ==>
            (Lines(base) == TextLines(text) + Lines(Gap(doc)) + ["[" + section.value + "]"]))
  {
    hide *;
    OtherNodesKept(Parse(text), section, entries, keys);
    LinesWithSection(text, section);
  }

  lemma OtherNodesKept(doc: Document, section: SectionRef, entries: Record, keys: seq<string>)
    requires forall i :: 0 <= i < |entries| ==> Trim(entries[i].0) in TrimmedKeys(keys)
    ensures SectionBounds(Upsert(doc, section, entries), section).Some?
    ensures OtherLines(Upsert(doc, section, entries), section, keys)
         == OtherLines(WithSection(doc, section), section, keys)
  {
    hide Trim, UpsertBody, StrikeLast, TrimmedKeys, SectionBounds, WithSection;
    var base := WithSection(doc, section);
    var b := SectionBounds(base, section).value;
    var pre, body, post := base[..b.start], base[b.start..b.end], base[b.end..];
    Seqs.Cut(base, b.start, b.end);
    Seqs.Pieces(pre, UpsertBody(body, entries), post);
    BodySelf(pre, UpsertBody(body, entries), post, section);
    StrikeLastUpsert(body, entries, TrimmedKeys(keys));
  }

  lemma LinesWithSection(text: string, section: SectionRef)
    ensures var doc := Parse(text); var base := WithSection(doc, section);
      && TextLines(text) <= Lines(base)
      && (SectionBounds(doc, section).Some? ==> Lines(base) == TextLines(text))
      && (SectionBounds(doc, section).None? ==>
            (Lines(base) == TextLines(text) + Lines(Gap(doc)) + ["[" + section.value + "]"]))
  {
    hide Parse, TextLines, SectionBounds, AppendSection, Settled;
    ParsedSettled(text);
    if SectionBounds(Parse(text), section).None? {
      LinesAppended(Parse(text), section.value);
    }
  }

  lemma LinesAppended(doc: Document, name: string)
    ensures Lines(AppendSection(doc, name)) == Lines(doc) + Lines(Gap(doc)) + ["[" + name + "]"]
  {
    var r := AppendSection(doc, name);
    assert r == doc + Gap(doc) + [Section(name, None, true)];
    assert PrintNode(r[|r| - 1]) == "[" + name + "]";
  }

  lemma {:induction false} StrikeLastUpsert(body: Document, entries: Record, ks: set<string>)
    requires forall i :: 0 <= i < |entries| ==> Trim(entries[i].0) in ks
    ensures StrikeLast(UpsertBody(body, entries), ks) == StrikeLast(body, ks)
    decreases |entries|
  {
    hide Trim, StrikeLast, UpsertEntry;
    if entries != [] {
      var n := |entries| - 1;
      StrikeLastUpsert(body, entries[..n], ks);
      StrikeLastUpsertEntry(UpsertBody(body, entries[..n]), entries[n].0, entries[n].1, ks);
    }
  }

  lemma StrikeLastUpsertEntry(body: Document, key: string, value: string, ks: set<string>)
    requires Trim(key) in ks
    ensures StrikeLast(UpsertEntry(body, key, value), ks) == StrikeLast(body, ks)
  {
    hide Trim, ReplaceNewlines, UpsertEntry, LastEntry, StrikeLast;
    var w := [Written(key, value)];
    var a, m, c := UpsertSplit(body, key, value);
    TrimIdempotent(key);
    var rest := ks - KeysIn(c);
    StrikeLastConcat(a + m, c, ks);
    StrikeLastConcat(a + w, c, ks);
    NotAmong(c, key);
    StrikeLastOne(a, w[0], rest);
    if m == [] {
      NotAmong(a, key);
      StrikeLastAbsent(a, Trim(key), rest);
      assert a + m == a;
    } else {
      StrikeLastOne(a, m[0], rest);
      assert m == [m[0]];
    }
  }

  function KeysIn(body: Document): set<string> {
    set i | 0 <= i < |body| && body[i].KeyValue? :: Trim(body[i].key)
  }

  lemma NotAmong(body: Document, key: string)
    requires LastEntry(body, key) == -1
    ensures Trim(key) !in KeysIn(body)
  {
    hide Trim, LastEntry;
  }

  lemma StrikeLastOne(a: Document, n: Node, ks: set<string>)
    requires n.KeyValue? && Trim(n.key) in ks
    ensures StrikeLast(a + [n], ks) == StrikeLast(a, ks - {Trim(n.key)})
  {
    hide Trim;
    assert (a + [n])[..|a|] == a;
  }

  lemma {:induction false} StrikeLastAbsent(a: Document, k: string, ks: set<string>)
    requires k !in KeysIn(a)
    ensures StrikeLast(a, ks) == StrikeLast(a, ks - {k})
  {
    hide Trim;
    if a != [] {
      var n := |a| - 1;
      assert forall i :: 0 <= i < n ==> a[..n][i] == a[i];
      var rest := if a[n].KeyValue? then ks - {Trim(a[n].key)} else ks;
      StrikeLastAbsent(a[..n], k, ks);
      StrikeLastAbsent(a[..n], k, rest);
      assert a[n].KeyValue? ==> ks - {k} - {Trim(a[n].key)} == rest - {k};
    }
  }

  /** Striking works from the end: a key met in the tail no longer concerns what comes before. */
  lemma {:induction false} StrikeLastConcat(a: Document, c: Document, ks: set<string>)
    ensures StrikeLast(a + c, ks) == StrikeLast(a, ks - KeysIn(c)) + StrikeLast(c, ks)
    decreases |c|
  {
    hide Trim, KeysIn;
    if c == [] {
      NoKeysIn();
      assert a + c == a && ks - KeysIn(c) == ks;
    } else {
      var n := |c| - 1;
      assert (a + c)[..|a| + n] == a + c[..n];
      KeysInLast(c);
      var met := c[n].KeyValue? && Trim(c[n].key) in ks;
      var rest := if met then ks - {Trim(c[n].key)} else ks;
      StrikeLastConcat(a, c[..n], rest);
      assert rest - KeysIn(c[..n]) == ks - KeysIn(c);
    }
  }

  lemma NoKeysIn()
    ensures KeysIn([]) == {}
  {
  }

  lemma KeysInLast(c: Document)
    requires c != []
    ensures var n := |c| - 1; KeysIn(c) == KeysIn(c[..n]) + (if c[n].KeyValue? then {Trim(c[n].key)} else {})
  {
    hide Trim;
    var n := |c| - 1;
    assert forall i :: 0 <= i < n ==> c[..n][i] == c[i];
    forall k ensures k in KeysIn(c) <==> k in KeysIn(c[..n]) || (c[n].KeyValue? && k == Trim(c[n].key)) {
      if i :| 0 <= i < |c| && c[i].KeyValue? && Trim(c[i].key) == k { assert i < n ==> c[..n][i].key == c[i].key; }
      if i :| 0 <= i < n && c[..n][i].KeyValue? && Trim(c[..n][i].key) == k { assert c[i] == c[..n][i]; }
    }
  }

  // ----- where the written line stands -----

  /** The last line within the bounds that assigns to the key. */
  predicate IsLastEntry(doc: Document, b: Bounds, key: string, i: nat)
    requires b.end <= |doc|
  {
    b.start <= i < b.end && IsEntryOf(doc[i], key) && forall j :: i < j < b.end ==> !IsEntryOf(doc[j], key)
  }

  /** Behind the last line within the bounds that is not blank. */
  predicate IsInsertPoint(doc: Document, b: Bounds, at: nat)
    requires b.end <= |doc|
  {
    && b.start <= at <= b.end && (at > b.start ==> !doc[at - 1].Blank?)
    && forall j :: at <= j < b.end ==> doc[j].Blank?
  }

  ghost predicate OneLineReplaced(doc: Document, b: Bounds, key: string, line: string, lines: seq<string>)
    requires b.end <= |doc|
  {
    exists i: nat :: i < |doc| && IsLastEntry(doc, b, key, i) && lines == Lines(doc)[i := line]
  }

  ghost predicate OneLineAdded(doc: Document, b: Bounds, key: string, line: string, lines: seq<string>)
    requires b.end <= |doc|
  {
    && (forall j :: b.start <= j < b.end ==> !IsEntryOf(doc[j], key))
    && exists at: nat ::
         at <= |doc| && IsInsertPoint(doc, b, at) && lines == Lines(doc)[..at] + [line] + Lines(doc)[at..]
  }

  /** Writing one key changes one printed line: its last one in the section, or a new one behind what is there. */
  lemma UpsertOneLine(doc: Document, section: SectionRef, key: string, value: string)
    ensures var base := WithSection(doc, section); var b := SectionBounds(base, section).value;
      var line, lines := WrittenText(key, value), Lines(Upsert(doc, section, [(key, value)]));
      OneLineReplaced(base, b, key, line, lines) || OneLineAdded(base, b, key, line, lines)
  {
    hide Trim, SectionBounds, WithSection, ReplaceNewlines, IsEntryOf, OneLineReplaced, OneLineAdded, UpsertBody, Lines;
    var base := WithSection(doc, section);
    var b := SectionBounds(base, section).value;
    UpsertBodyOne(base[b.start..b.end], key, value);
    if LastEntry(base[b.start..b.end], key) >= 0 {
      LineReplaced(base, b, key, value);
    } else {
      LineAdded(base, b, key, value);
    }
  }

  lemma LineReplaced(base: Document, b: Bounds, key: string, value: string)
    requires b.start <= b.end <= |base| && LastEntry(base[b.start..b.end], key) >= 0
    ensures OneLineReplaced(base, b, key, WrittenText(key, value),
                            Lines(base[..b.start] + UpsertEntry(base[b.start..b.end], key, value) + base[b.end..]))
  {
    hide Trim, ReplaceNewlines, IsEntryOf, LastEntry;
    var body, w := base[b.start..b.end], Written(key, value);
    var k := LastEntry(body, key);
    var i: nat := b.start + k;
    Seqs.ReplaceInside(base, b.start, b.end, k, w);
    assert forall j :: b.start <= j < b.end ==> base[j] == body[j - b.start];
    assert IsLastEntry(base, b, key, i);
    assert Lines(base[i := w]) == Lines(base)[i := PrintNode(w)];
  }

  lemma LineAdded(base: Document, b: Bounds, key: string, value: string)
    requires b.start <= b.end <= |base| && LastEntry(base[b.start..b.end], key) < 0
    ensures OneLineAdded(base, b, key, WrittenText(key, value),
                         Lines(base[..b.start] + UpsertEntry(base[b.start..b.end], key, value) + base[b.end..]))
  {
    hide Trim, ReplaceNewlines, IsEntryOf, LastEntry, InsertIndex, Lines, IsInsertPoint, Written, PrintNode;
    var body, w := base[b.start..b.end], Written(key, value);
    var at := InsertPointIn(base, b, key);
    Seqs.InsertInside(base, b.start, b.end, at - b.start, w);
    assert PrintNode(w) == WrittenText(key, value) by { PrintedWritten(key, value); }
    LinesInsert(base, at, w);
  }

  lemma PrintedWritten(key: string, value: string)
    ensures PrintNode(Written(key, value)) == WrittenText(key, value)
  {
  }

  lemma InsertPointIn(base: Document, b: Bounds, key: string) returns (at: nat)
    requires b.start <= b.end <= |base| && LastEntry(base[b.start..b.end], key) < 0
    ensures b.start <= at <= |base| && at - b.start == InsertIndex(base[b.start..b.end]) && IsInsertPoint(base, b, at)
    ensures forall j :: b.start <= j < b.end ==> !IsEntryOf(base[j], key)
  {
    hide Trim, IsEntryOf, LastEntry, InsertIndex;
    var body := base[b.start..b.end];
    at := b.start + InsertIndex(body);
    assert forall j :: b.start <= j < b.end ==> base[j] == body[j - b.start];
  }

  lemma LinesInsert(doc: Document, at: nat, n: Node)
    requires at <= |doc|
    ensures Lines(doc[..at] + [n] + doc[at..]) == Lines(doc)[..at] + [PrintNode(n)] + Lines(doc)[at..]
  {
    hide PrintNode;
  }

  lemma UpsertBodyOne(body: Document, key: string, value: string)
    ensures UpsertBody(body, [(key, value)]) == UpsertEntry(body, key, value)
  {
    hide UpsertEntry;
    assert [(key, value)][..0] == [];
  }

  lemma {:induction false} UpsertBodyConcat(body: Document, a: Record, b: Record)
    ensures UpsertBody(body, a + b) == UpsertBody(UpsertBody(body, a), b)
    decreases |b|
  {
    hide UpsertEntry;
    if b == [] {
      assert a + b == a;
    } else {
      var n := |b| - 1;
      assert (a + b)[..|a + b| - 1] == a + b[..n];
      UpsertBodyConcat(body, a, b[..n]);
    }
  }

  /** Writing several keys is writing them one after another. */
  lemma UpsertInSteps(doc: Document, section: SectionRef, a: Record, b: Record)
    ensures Upsert(doc, section, a + b) == Upsert(Upsert(doc, section, a), section, b)
  {
    hide Trim, SectionBounds, WithSection, UpsertBody;
    var base := WithSection(doc, section);
    var bounds := SectionBounds(base, section).value;
    var pre, body, post := base[..bounds.start], base[bounds.start..bounds.end], base[bounds.end..];
    Seqs.Cut(base, bounds.start, bounds.end);
    var first := UpsertBody(body, a);
    UpsertBodyConcat(body, a, b);
    BodySelf(pre, first, post, section);
    Seqs.Pieces(pre, first, post);
    assert WithSection(Upsert(doc, section, a), section) == pre + first + post by {
      Stays(pre + first + post, section);
    }
  }

  lemma Stays(doc: Document, section: SectionRef)
    requires SectionBounds(doc, section).Some?
    ensures WithSection(doc, section) == doc
  {
  }
}
