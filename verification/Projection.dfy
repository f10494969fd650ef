/**
 * Pi's active branch read back into the stored rows of a conversation, carrying across the answers a
 * regenerate branched away from: the table is the only copy of them.
 */
module Projection {
  import opened Text
  import ThinkingFilter

  datatype Role = User | Assistant | System

  /** What a row carries besides its place in the conversation. */
  datatype Details = Details(modelId: Option<string>, modelRuntimeId: Option<string>, modelAlias: Option<string>,
                             performance: Option<string>, toolCalls: Option<string>,
                             attachments: Option<string>, reasoning: Option<string>)

  const NO_DETAILS := Details(None, None, None, None, None, None, None)

  datatype Entry = Entry(id: string, parent: Option<string>, entryType: string, role: Option<Role>, text: string,
                         createdAt: nat, details: Details, regenerates: Option<string>, group: Option<string>)

  type Table = map<string, Entry>

  /** One entry of the session's active path. */
  datatype PiEntry =
    | Compaction(id: string, parent: Option<string>, summary: string, timestamp: nat)
    | Message(id: string, parent: Option<string>, role: Option<Role>, text: string, thinking: string, timestamp: nat)
    | Other(id: string)

  datatype Model = Model(id: string, runtimeId: string, name: string)

  /** The answer a run has just produced, as the run assembled it. */
  datatype Answer = Answer(content: string, details: Details)

  datatype Metadata = Metadata(answer: Option<Answer>, regenerates: Option<string>, group: Option<string>,
                               promptText: Option<string>, attachments: Option<string>)

  const SNAPSHOT := Metadata(None, None, None, None, None)

  function OrElse<T>(a: Option<T>, b: Option<T>): Option<T> {
    if a.Some? then a else b
  }

  function Lookup(table: Table, id: string): Option<Entry> {
    if id in table then Some(table[id]) else None
  }

  // ----- the active branch -----

  function DisplayedUserText(role: Option<Role>, piText: string, projected: Option<Entry>): string {
    if role == Some(User) && projected.Some? then projected.value.text else piText
  }

  function BranchDetails(e: PiEntry, row: Option<Entry>, model: Model): Details
    requires e.Message?
  {
    var d := if row.Some? then row.value.details else NO_DETAILS;
    var reasoning := if e.thinking != "" then Some(e.thinking) else d.reasoning;
    if e.role == Some(Assistant) then
      d.(modelId := OrElse(d.modelId, Some(model.id)),
         modelRuntimeId := OrElse(d.modelRuntimeId, Some(model.runtimeId)),
         modelAlias := OrElse(d.modelAlias, Some(model.name)),
         reasoning := reasoning)
    else
      d.(modelId := None, modelRuntimeId := None, modelAlias := None, reasoning := reasoning)
  }

  /** A message or compaction of the branch, with what its stored row already knew about it. */
  function BranchEntry(e: PiEntry, row: Option<Entry>, model: Model): Entry
    requires !e.Other?
  {
    match e
    case Compaction(id, parent, summary, timestamp) =>
      Entry(id, parent, "compaction", None, summary, timestamp, NO_DETAILS, None, Some(id))
    case Message(id, parent, role, text, _, timestamp) =>
      var shown := if role == Some(Assistant) then ThinkingFilter.StripLeadingThinkingEndTag(text) else text;
      Entry(id, parent, "message", role, DisplayedUserText(role, shown, row), timestamp,
            BranchDetails(e, row, model),
            if row.Some? then row.value.regenerates else None,
            if row.Some? && row.value.group.Some? then row.value.group else Some(id))
  }

  function BranchEntries(branch: seq<PiEntry>, table: Table, model: Model): (r: seq<Entry>)
    ensures forall e :: e in r <==>
      (exists p :: p in branch && !p.Other? && e == BranchEntry(p, Lookup(table, p.id), model))
    decreases |branch|
  {
    if branch == [] then []
    else
      var n := |branch| - 1;
      var init := BranchEntries(branch[..n], table, model);
      assert branch == branch[..n] + [branch[n]];
      if branch[n].Other? then init
      else init + [BranchEntry(branch[n], Lookup(table, branch[n].id), model)]
  }

  // ----- what a run's own sync adds -----

  /** The last entry of the list that is an assistant's, or -1. */
  function LastAssistant(entries: seq<Entry>): (i: int)
    ensures -1 <= i < |entries|
    ensures i >= 0 ==> entries[i].role == Some(Assistant)
    ensures forall k :: i < k < |entries| ==> entries[k].role != Some(Assistant)
  {
    if entries == [] then -1
    else if entries[|entries| - 1].role == Some(Assistant) then |entries| - 1
    else LastAssistant(entries[..|entries| - 1])
  }

  /** The nearest assistant from the end showing `content`; failing that, the first assistant of all. */
  function AnswerIndex(entries: seq<Entry>, content: string, found: int): (i: int)
    requires found == -1 || 0 <= found
    ensures i == found || 0 <= i < |entries|
  {
    if entries == [] then found
    else
      var n := |entries| - 1;
      if entries[n].role != Some(Assistant) then AnswerIndex(entries[..n], content, found)
      else if content == "" || entries[n].text == content then n
      else AnswerIndex(entries[..n], content, n)
  }

  function UserBefore(entries: seq<Entry>, end: nat): (i: int)
    requires end <= |entries|
    ensures -1 <= i < end && (i >= 0 ==> entries[i].role == Some(User))
  {
    if end == 0 then -1
    else if entries[end - 1].role == Some(User) then end - 1
    else UserBefore(entries, end - 1)
  }

  function IndexOfId(entries: seq<Entry>, id: string): (i: nat)
    ensures i <= |entries| && (i < |entries| ==> entries[i].id == id)
    ensures forall k :: 0 <= k < i ==> entries[k].id != id
  {
    if entries == [] || entries[0].id == id then 0 else 1 + IndexOfId(entries[1..], id)
  }

  /** The prompt an answer replied to: its parent when that is the user's, else the user before it. */
  function PromptIndex(entries: seq<Entry>, content: string): (i: int)
    ensures -1 <= i < |entries| && (i >= 0 ==> entries[i].role == Some(User))
  {
    var a := AnswerIndex(entries, content, -1);
    if a < 0 then -1
    else
      var parent := entries[a].parent;
      var p := if parent.Some? && parent.value != "" then IndexOfId(entries, parent.value) else |entries|;
      if p < |entries| && entries[p].role == Some(User) then p else UserBefore(entries, a)
  }

  function WithAnswer(e: Entry, answer: Answer, meta: Metadata): Entry {
    e.(details := e.details.(
         modelId := answer.details.modelId, modelRuntimeId := answer.details.modelRuntimeId,
         modelAlias := answer.details.modelAlias, performance := answer.details.performance,
         toolCalls := answer.details.toolCalls, reasoning := OrElse(e.details.reasoning, answer.details.reasoning)),
       regenerates := meta.regenerates,
       group := OrElse(meta.group, meta.regenerates))
  }

  function WithPrompt(e: Entry, meta: Metadata): Entry {
    e.(text := if meta.promptText.Some? then meta.promptText.value else e.text,
       details := e.details.(attachments := OrElse(meta.attachments, e.details.attachments)))
  }

  /** The branch with the run's own facts written onto its last answer and that answer's prompt. */
  function Adjusted(entries: seq<Entry>, meta: Metadata): (r: seq<Entry>)
    ensures |r| == |entries|
    ensures forall i :: 0 <= i < |r| ==> r[i].id == entries[i].id && r[i].role == entries[i].role
  {
    var last := LastAssistant(entries);
    if meta.answer.None? || last < 0 then entries
    else
      var answered := entries[last := WithAnswer(entries[last], meta.answer.value, meta)];
      var p := PromptIndex(answered, meta.answer.value.content);
      if p < 0 then answered else answered[p := WithPrompt(answered[p], meta)]
  }

  // ----- variant groups -----

  function Truthy(o: Option<string>): bool {
    o.Some? && o.value != ""
  }

  function GroupOf(table: Table, anchor: string, group: Option<string>): string {
    if group.Some? then group.value
    else if anchor in table && table[anchor].group.Some? then table[anchor].group.value
    else anchor
  }

  predicate Belongs(e: Entry, anchor: string, group: string) {
    e.id == anchor || e.group == Some(group) || e.regenerates == Some(anchor) || e.regenerates == Some(group)
  }

  predicate IsVariant(table: Table, id: string, anchor: string, group: string) {
    id in table && table[id].role == Some(Assistant) && Belongs(table[id], anchor, group)
  }

  predicate IsPromptOf(table: Table, id: string, answer: string) {
    answer in table && Truthy(table[answer].parent) && table[answer].parent.value == id && id in table
  }

  /** The rows one variant group brings back: its answers and the rows they hang from. */
  function GroupRows(table: Table, anchor: string, group: Option<string>): set<string> {
    if anchor == "" then {}
    else
      var g := GroupOf(table, anchor, group);
      (set id | id in table && IsVariant(table, id, anchor, g))
      + (set id, a | id in table && a in table && IsVariant(table, a, anchor, g) && IsPromptOf(table, id, a) :: id)
  }

  /** The group an answer of the branch belongs to, as the rebuild without metadata finds it. */
  function AnchorOf(e: Entry): string {
    if e.regenerates.Some? then e.regenerates.value else if e.group.Some? then e.group.value else e.id
  }

  /** Every row the sync carries across besides the branch itself. */
  function CarriedRows(entries: seq<Entry>, table: Table, meta: Metadata): set<string> {
    if Truthy(meta.regenerates) then GroupRows(table, meta.regenerates.value, meta.group)
    else set e, id | e in entries && e.role == Some(Assistant) && id in table
                     && id in GroupRows(table, AnchorOf(e), e.group) :: id
  }

  // ----- the table after a sync -----

  /** The row as it is written, with the old row's facts where the entry has none. */
  function Stored(e: Entry, row: Option<Entry>): Entry {
    var old' := if row.Some? then row.value.details else NO_DETAILS;
    e.(details := e.details.(
         performance := OrElse(e.details.performance, old'.performance),
         toolCalls := OrElse(e.details.toolCalls, old'.toolCalls),
         attachments := OrElse(e.details.attachments, old'.attachments),
         reasoning := if e.details.reasoning.Some? && Trim(e.details.reasoning.value) != ""
                      then e.details.reasoning else None),
       regenerates := OrElse(e.regenerates, if row.Some? then row.value.regenerates else None),
       group := OrElse(OrElse(e.group, if row.Some? then row.value.group else None), Some(e.id)))
  }

  /** A row as the table holds it: stored under its own id, in the form a write leaves. */
  predicate StoredRow(table: Table, id: string) {
    id in table && table[id].id == id && table[id].group.Some?
    && (table[id].details.reasoning.Some? ==> Trim(table[id].details.reasoning.value) != "")
  }

  predicate StoredTable(table: Table) {
    forall id :: id in table ==> StoredRow(table, id)
  }

  predicate DistinctIds(entries: seq<Entry>) {
    forall i, j :: 0 <= i < j < |entries| ==> entries[i].id != entries[j].id
  }

  function Ids(entries: seq<Entry>): set<string> {
    set i | 0 <= i < |entries| :: entries[i].id
  }

  /** The rows that deleting the projection and inserting `entries` leaves. */
  function TableOf(entries: seq<Entry>, table: Table): Table
    decreases |entries|
  {
    if entries == [] then map[]
    else
      var n := |entries| - 1;
      TableOf(entries[..n], table)[entries[n].id := Stored(entries[n], Lookup(table, entries[n].id))]
  }

  /** A sync's list: the adjusted branch at the end, and before it rows of the old table, each id once. */
  ghost predicate IsSyncList(entries: seq<Entry>, branch: seq<Entry>, table: Table, kept: set<string>) {
    && DistinctIds(entries)
    && |branch| <= |entries| && entries[|entries| - |branch|..] == branch
    && (forall i :: 0 <= i < |entries| - |branch| ==> entries[i].id in table && entries[i] == table[entries[i].id])
    && Ids(entries) == Ids(branch) + kept
  }

  // ----- the loops -----

  function InsertByCreation(e: Entry, sorted: seq<Entry>): (r: seq<Entry>)
    ensures multiset(r) == multiset(sorted) + multiset{e}
  {
    if sorted == [] then [e]
    else if e.createdAt < sorted[|sorted| - 1].createdAt then
      assert sorted == sorted[..|sorted| - 1] + [sorted[|sorted| - 1]];
      InsertByCreation(e, sorted[..|sorted| - 1]) + [sorted[|sorted| - 1]]
    else sorted + [e]
  }

  /** A stable sort by creation time. */
  function SortByCreation(s: seq<Entry>): (r: seq<Entry>)
    ensures multiset(r) == multiset(s)
  {
    if s == [] then []
    else
      assert s == s[..|s| - 1] + [s[|s| - 1]];
      InsertByCreation(s[|s| - 1], SortByCreation(s[..|s| - 1]))
  }

  method PrependVariantEntry(entries: seq<Entry>, e: Entry) returns (r: seq<Entry>)
    requires DistinctIds(entries) && e.group.Some?
    ensures DistinctIds(r) && Ids(r) == Ids(entries) + {e.id}
    ensures if e.id in Ids(entries) then r == entries else r == [e] + entries
  {
    for i := 0 to |entries|
      invariant forall k :: 0 <= k < i ==> entries[k].id != e.id
    {
      if entries[i].id == e.id {
        return entries;
      }
    }
    r := [e] + entries;
    IdsCons(e, entries);
  }

  lemma IdsCons(e: Entry, entries: seq<Entry>)
    ensures Ids([e] + entries) == {e.id} + Ids(entries)
  {
    var r := [e] + entries;
    assert r[0].id in Ids(r);
    forall i | 0 <= i < |entries| ensures entries[i].id in Ids(r) {
      assert r[i + 1].id in Ids(r);
    }
  }

  /** The group's rows in creation order, each prompt before the first answer that hangs from it. */
  method VariantGroupEntries(existing: seq<Entry>, table: Table, anchor: string, group: string)
    returns (groupEntries: seq<Entry>)
    requires IsReading(existing, table) && anchor != ""
    ensures forall e :: e in groupEntries ==> e.id in table && e == table[e.id]
    ensures Ids(groupEntries) == GroupRows(table, anchor, Some(group))
  {
    hide GroupRows, Belongs, IsPromptOf, Ids, IsVariant;
    var variants := VariantsIn(existing, anchor, group);
    var sorted := SortByCreation(variants);
    SameMembers(sorted, variants);
    groupEntries := WithPrompts(sorted, existing, table);
    GroupRowsAre(existing, table, anchor, group, sorted, Ids(groupEntries));
  }

  method VariantsIn(existing: seq<Entry>, anchor: string, group: string) returns (variants: seq<Entry>)
    ensures forall e :: e in variants <==> e in existing && e.role == Some(Assistant) && Belongs(e, anchor, group)
  {
    hide Belongs;
    variants := [];
    for i := 0 to |existing|
      invariant forall e :: e in variants <==>
        (e in existing[..i] && e.role == Some(Assistant) && Belongs(e, anchor, group))
    {
      assert existing[..i + 1] == existing[..i] + [existing[i]];
      if existing[i].role == Some(Assistant) && Belongs(existing[i], anchor, group) {
        variants := variants + [existing[i]];
      }
    }
    assert existing[..|existing|] == existing;
  }

  method WithPrompts(answers: seq<Entry>, existing: seq<Entry>, table: Table) returns (groupEntries: seq<Entry>)
    requires IsReading(existing, table) && forall e :: e in answers ==> e in existing
    ensures forall e :: e in groupEntries ==> e.id in table && e == table[e.id]
    ensures forall id :: id in Ids(groupEntries) <==>
      (exists k :: 0 <= k < |answers| && (answers[k].id == id || IsPromptOf(table, id, answers[k].id)))
  {
    hide Ids;
    assert Ids([]) == {} by { NoIds(); }
    groupEntries := [];
    var seen: set<string> := {};
    for i := 0 to |answers|
      invariant forall e :: e in groupEntries ==> e.id in table && e == table[e.id]
      invariant seen == Ids(groupEntries)
      invariant forall id :: id in seen <==>
        (exists k :: 0 <= k < i && (answers[k].id == id || IsPromptOf(table, id, answers[k].id)))
    {
      var assistant := answers[i];
      assert assistant in answers && assistant in existing;
      assert table[assistant.id] == assistant;
      if Truthy(assistant.parent) && assistant.parent.value in table && assistant.parent.value !in seen {
        var parent := table[assistant.parent.value];
        RowHasItsId(existing, table, assistant.parent.value);
        IdsAppend(groupEntries, parent);
        groupEntries := groupEntries + [parent];
        seen := seen + {parent.id};
      }
      if assistant.id !in seen {
        IdsAppend(groupEntries, assistant);
        groupEntries := groupEntries + [assistant];
        seen := seen + {assistant.id};
      }
    }
  }

  lemma NoIds()
    ensures Ids([]) == {}
  {
  }

  lemma RowHasItsId(existing: seq<Entry>, table: Table, id: string)
    requires IsReading(existing, table) && id in table
    ensures table[id].id == id
  {
    ReadingMembers(existing, table, id);
  }

  lemma IdsAppend(entries: seq<Entry>, e: Entry)
    ensures Ids(entries + [e]) == Ids(entries) + {e.id}
  {
    var r := entries + [e];
    assert r[|entries|].id in Ids(r);
    forall i | 0 <= i < |entries| ensures entries[i].id in Ids(r) {
      assert r[i].id in Ids(r);
    }
  }

  lemma SameMembers<T>(a: seq<T>, b: seq<T>)
    requires multiset(a) == multiset(b)
    ensures forall x :: x in a <==> x in b
  {
    forall x ensures x in a <==> x in b {
      assert x in a <==> x in multiset(a);
      assert x in b <==> x in multiset(b);
    }
  }

  /** The stored rows as a query returns them: every row once, in some order. */
  ghost predicate IsReading(existing: seq<Entry>, table: Table) {
    && DistinctIds(existing) && Ids(existing) == table.Keys
    && (forall e :: e in existing ==> e.id in table && table[e.id] == e && e.group.Some?)
  }

  lemma ReadingMembers(existing: seq<Entry>, table: Table, id: string)
    requires IsReading(existing, table) && id in table
    ensures table[id] in existing && table[id].id == id
  {
    assert id in Ids(existing);
    var i :| 0 <= i < |existing| && existing[i].id == id;
    assert existing[i] in existing;
  }

  lemma GroupRowsAre(existing: seq<Entry>, table: Table, anchor: string, group: string, sorted: seq<Entry>,
                     seen: set<string>)
    requires IsReading(existing, table) && anchor != ""
    requires forall e :: e in sorted <==> e in existing && e.role == Some(Assistant) && Belongs(e, anchor, group)
    requires forall id :: id in seen <==>
      exists k :: 0 <= k < |sorted| && (sorted[k].id == id || IsPromptOf(table, id, sorted[k].id))
    ensures seen == GroupRows(table, anchor, Some(group))
  {
    var rows := GroupRows(table, anchor, Some(group));
    forall id | id in seen ensures id in rows {
      var k :| 0 <= k < |sorted| && (sorted[k].id == id || IsPromptOf(table, id, sorted[k].id));
      assert sorted[k] in sorted && sorted[k] in existing;
      assert IsVariant(table, sorted[k].id, anchor, group);
    }
    forall id | id in rows ensures id in seen {
      var a :| a in table && IsVariant(table, a, anchor, group) && (a == id || IsPromptOf(table, id, a));
      ReadingMembers(existing, table, a);
      assert table[a] in sorted;
      var k :| 0 <= k < |sorted| && sorted[k] == table[a];
      assert sorted[k].id == a;
    }
  }

  method PrependExistingVariantGroup(entries: seq<Entry>, existing: seq<Entry>, table: Table, anchor: string,
                                     group: Option<string>, ghost branch: seq<Entry>, ghost kept: set<string>)
    returns (r: seq<Entry>)
    requires IsReading(existing, table) && IsSyncList(entries, branch, table, kept)
    ensures IsSyncList(r, branch, table, kept + GroupRows(table, anchor, group))
  {
    hide GroupRows, IsSyncList, Ids;
    assert Ids([]) == {} by { NoIds(); }
    r := entries;
    if anchor == "" {
      assert kept + GroupRows(table, anchor, group) == kept by { NoAnchor(table, group); }
      return;
    }
    var groupEntries := VariantGroupEntries(existing, table, anchor, GroupOf(table, anchor, group));
    assert GroupRows(table, anchor, group) == Ids(groupEntries) by { SameGroup(table, anchor, group); }
    var index := |groupEntries|;
    assert groupEntries[index..] == [] && kept + {} == kept;
    while index > 0
      invariant 0 <= index <= |groupEntries|
      invariant IsSyncList(r, branch, table, kept + Ids(groupEntries[index..]))
    {
      index := index - 1;
      var e := groupEntries[index];
      assert e in groupEntries;
      RowHasItsId(existing, table, e.id);
      ReadingMembers(existing, table, e.id);
      ghost var before := r;
      ghost var held := kept + Ids(groupEntries[index + 1..]);
      SyncListDistinct(r, branch, table, held);
      r := PrependVariantEntry(r, e);
      assert groupEntries[index..] == [e] + groupEntries[index + 1..];
      IdsCons(e, groupEntries[index + 1..]);
      SyncListGrows(before, r, e, branch, table, held);
      assert kept + Ids(groupEntries[index..]) == held + {e.id};
    }
    assert groupEntries[0..] == groupEntries;
  }

  lemma NoAnchor(table: Table, group: Option<string>)
    ensures GroupRows(table, "", group) == {}
  {
  }

  lemma SameGroup(table: Table, anchor: string, group: Option<string>)
    requires anchor != ""
    ensures GroupRows(table, anchor, group) == GroupRows(table, anchor, Some(GroupOf(table, anchor, group)))
  {
  }

  lemma SyncListDistinct(entries: seq<Entry>, branch: seq<Entry>, table: Table, kept: set<string>)
    requires IsSyncList(entries, branch, table, kept)
    ensures DistinctIds(entries)
  {
  }

  lemma SyncListGrows(before: seq<Entry>, r: seq<Entry>, e: Entry, branch: seq<Entry>, table: Table, kept: set<string>)
    requires IsSyncList(before, branch, table, kept) && e.id in table && e == table[e.id]
    requires DistinctIds(r) && Ids(r) == Ids(before) + {e.id}
    requires r == before || r == [e] + before
    ensures IsSyncList(r, branch, table, kept + {e.id})
  {
    hide Ids, DistinctIds;
    if r != before {
      TailOfCons(e, before, |branch|);
      assert forall i :: 1 <= i < |r| ==> r[i] == before[i - 1];
    }
  }

  lemma TailOfCons(e: Entry, s: seq<Entry>, n: nat)
    requires n <= |s|
    ensures ([e] + s)[|[e] + s| - n..] == s[|s| - n..]
  {
  }

  method SyncPiConversation(branch: seq<PiEntry>, existing: seq<Entry>, table: Table, model: Model, meta: Metadata)
    returns (entries: seq<Entry>)
    requires IsReading(existing, table) && DistinctBranch(branch)
    ensures var adjusted := Adjusted(BranchEntries(branch, table, model), meta);
      IsSyncList(entries, adjusted, table, CarriedRows(adjusted, table, meta))
  {
    hide IsSyncList, BranchEntry, Adjusted, GroupRows, Ids, IsReading, DistinctIds;
    entries := [];
    for i := 0 to |branch|
      invariant entries == BranchEntries(branch[..i], table, model)
    {
      assert branch[..i + 1][..i] == branch[..i];
      if !branch[i].Other? {
        entries := entries + [BranchEntry(branch[i], Lookup(table, branch[i].id), model)];
      }
    }
    assert branch[..|branch|] == branch;
    BranchIdsDistinct(branch, table, model);
    AdjustedDistinct(entries, meta);
    entries := Adjusted(entries, meta);
    BranchIsSyncList(entries, table);
    if Truthy(meta.regenerates) {
      ghost var adjusted := entries;
      entries := PrependExistingVariantGroup(entries, existing, table, meta.regenerates.value, meta.group,
                                               adjusted, {});
      assert {} + GroupRows(table, meta.regenerates.value, meta.group) == CarriedRows(adjusted, table, meta);
    } else {
      entries := CarryGroups(entries, existing, table, meta);
    }
  }

  lemma BranchIsSyncList(entries: seq<Entry>, table: Table)
    requires DistinctIds(entries)
    ensures IsSyncList(entries, entries, table, {})
  {
    assert Ids(entries) + {} == Ids(entries);
  }

  lemma AdjustedDistinct(entries: seq<Entry>, meta: Metadata)
    requires DistinctIds(entries)
    ensures DistinctIds(Adjusted(entries, meta)) && Ids(Adjusted(entries, meta)) == Ids(entries)
  {
    hide Adjusted;
    var r := Adjusted(entries, meta);
    forall i | 0 <= i < |r| ensures r[i].id in Ids(entries) && entries[i].id in Ids(r) {
      assert r[i].id == entries[i].id;
    }
  }

  /** Without metadata every answer of the branch brings its own variant group back. */
  method CarryGroups(snapshot: seq<Entry>, existing: seq<Entry>, table: Table, ghost meta: Metadata)
    returns (entries: seq<Entry>)
    requires IsReading(existing, table) && IsSyncList(snapshot, snapshot, table, {}) && !Truthy(meta.regenerates)
    ensures IsSyncList(entries, snapshot, table, CarriedRows(snapshot, table, meta))
  {
    hide IsSyncList, GroupRows, Ids, IsReading, AnchorOf;
    entries := snapshot;
    ghost var kept: set<string> := {};
    for i := 0 to |snapshot|
      invariant IsSyncList(entries, snapshot, table, kept)
      invariant kept == RowsOfFirst(snapshot, table, i)
    {
      var e := snapshot[i];
      RowsOfNext(snapshot, table, i);
      if e.role == Some(Assistant) {
        entries := PrependExistingVariantGroup(entries, existing, table, AnchorOf(e), e.group, snapshot, kept);
        kept := kept + GroupRows(table, AnchorOf(e), e.group);
      }
    }
    RowsOfAll(snapshot, table, meta);
  }

  ghost function RowsOfFirst(entries: seq<Entry>, table: Table, n: nat): set<string>
    requires n <= |entries|
  {
    if n == 0 then {}
    else
      var e := entries[n - 1];
      RowsOfFirst(entries, table, n - 1)
      + if e.role == Some(Assistant) then GroupRows(table, AnchorOf(e), e.group) else {}
  }

  lemma RowsOfNext(entries: seq<Entry>, table: Table, n: nat)
    requires n < |entries|
    ensures RowsOfFirst(entries, table, n + 1) == RowsOfFirst(entries, table, n)
      + if entries[n].role == Some(Assistant) then GroupRows(table, AnchorOf(entries[n]), entries[n].group) else {}
  {
  }

  lemma {:induction false} RowsOfFirstAre(entries: seq<Entry>, table: Table, n: nat, id: string)
    requires n <= |entries|
    ensures id in RowsOfFirst(entries, table, n) <==>
      exists k :: 0 <= k < n && entries[k].role == Some(Assistant)
        && id in GroupRows(table, AnchorOf(entries[k]), entries[k].group)
  {
    hide GroupRows, AnchorOf;
    if n > 0 {
      RowsOfFirstAre(entries, table, n - 1, id);
    }
  }

  lemma RowsOfAll(entries: seq<Entry>, table: Table, meta: Metadata)
    requires !Truthy(meta.regenerates)
    ensures RowsOfFirst(entries, table, |entries|) == CarriedRows(entries, table, meta)
  {
    hide GroupRows, AnchorOf;
    forall id ensures id in RowsOfFirst(entries, table, |entries|) <==> id in CarriedRows(entries, table, meta) {
      RowsOfFirstAre(entries, table, |entries|, id);
      if k :| (0 <= k < |entries| && entries[k].role == Some(Assistant)
               && id in GroupRows(table, AnchorOf(entries[k]), entries[k].group)) {
        assert entries[k] in entries;
        GroupRowsInTable(table, AnchorOf(entries[k]), entries[k].group);
      }
    }
  }

  lemma GroupRowsInTable(table: Table, anchor: string, group: Option<string>)
    ensures GroupRows(table, anchor, group) <= table.Keys
  {
  }

  predicate DistinctBranch(branch: seq<PiEntry>) {
    forall i, j :: 0 <= i < j < |branch| ==> branch[i].id != branch[j].id
  }

  lemma {:induction false} BranchIdsDistinct(branch: seq<PiEntry>, table: Table, model: Model)
    requires DistinctBranch(branch)
    ensures DistinctIds(BranchEntries(branch, table, model))
    decreases |branch|
  {
    if branch != [] {
      var n := |branch| - 1;
      var init := branch[..n];
      BranchIdsDistinct(init, table, model);
      var r := BranchEntries(init, table, model);
      forall i | 0 <= i < |r| ensures r[i].id != branch[n].id {
        assert r[i] in r;
        var p :| p in init && !p.Other? && r[i] == BranchEntry(p, Lookup(table, p.id), model);
        var k :| 0 <= k < n && init[k] == p;
        assert branch[k] == p;
      }
    }
  }

  method ReplaceConversationProjection(table: Table, entries: seq<Entry>) returns (next: Table)
    ensures next == TableOf(entries, table)
  {
    next := map[];
    for i := 0 to |entries|
      invariant next == TableOf(entries[..i], table)
    {
      assert entries[..i + 1][..i] == entries[..i];
      next := next[entries[i].id := Stored(entries[i], Lookup(table, entries[i].id))];
    }
    assert entries[..|entries|] == entries;
  }
}
