/**
 * What a sync leaves in the table, independently of the order its loops visit rows in, and what reading
 * the same branch again changes: nothing.
 */
module ProjectionLaws {
  import opened Text
  import opened Projection
  import ThinkingFilter

  function EntryOf(entries: seq<Entry>, id: string): (e: Entry)
    requires id in Ids(entries)
    ensures e in entries && e.id == id
  {
    entries[IndexOfId(entries, id)]
  }

  /** The branch's rows as they are written, and the carried rows exactly as they were. */
  ghost function After(table: Table, branch: seq<Entry>, kept: set<string>): Table {
    map id | id in Ids(branch) + kept && (id in Ids(branch) || id in table) ::
      if id in Ids(branch) then Stored(EntryOf(branch, id), Lookup(table, id)) else table[id]
  }

  ghost function Synced(table: Table, branch: seq<PiEntry>, model: Model, meta: Metadata): Table {
    var adjusted := Adjusted(BranchEntries(branch, table, model), meta);
    After(table, adjusted, CarriedRows(adjusted, table, meta))
  }

  // ----- the list a sync writes determines the table -----

  lemma {:induction false} TableOfRows(entries: seq<Entry>, table: Table)
    requires DistinctIds(entries)
    ensures TableOf(entries, table).Keys == Ids(entries)
    ensures forall i :: 0 <= i < |entries| ==>
      (entries[i].id in TableOf(entries, table)
      && TableOf(entries, table)[entries[i].id] == Stored(entries[i], Lookup(table, entries[i].id)))
    decreases |entries|
  {
    hide Stored, Ids, Lookup;
    if entries == [] {
      NoIds();
    } else {
      var n := |entries| - 1;
      TableOfRows(entries[..n], table);
      IdsAppend(entries[..n], entries[n]);
      assert entries == entries[..n] + [entries[n]];
      forall i | 0 <= i < n
        ensures entries[i].id in TableOf(entries, table)
        ensures TableOf(entries, table)[entries[i].id] == Stored(entries[i], Lookup(table, entries[i].id))
      {
        assert entries[..n][i] == entries[i];
      }
    }
  }

  lemma StoredAgain(table: Table, id: string)
    requires StoredRow(table, id)
    ensures Stored(table[id], Lookup(table, id)) == table[id]
  {
  }

  lemma EntryAt(entries: seq<Entry>, i: nat)
    requires DistinctIds(entries) && i < |entries|
    ensures entries[i].id in Ids(entries) && EntryOf(entries, entries[i].id) == entries[i]
  {
    var k := IndexOfId(entries, entries[i].id);
    assert entries[k].id == entries[i].id;
  }

  /** Whatever order the rows were gathered in, writing a sync's list leaves the same table. */
  lemma WritingTheList(entries: seq<Entry>, branch: seq<Entry>, table: Table, kept: set<string>)
    requires IsSyncList(entries, branch, table, kept) && StoredTable(table) && kept <= table.Keys
    ensures TableOf(entries, table) == After(table, branch, kept)
  {
    hide Stored, TableOf, Lookup, Ids, EntryOf, StoredRow;
    TableOfRows(entries, table);
    var next := TableOf(entries, table);
    var n := |entries| - |branch|;
    assert next.Keys == After(table, branch, kept).Keys;
    BranchDistinct(entries, branch, table, kept);
    forall id | id in next ensures next[id] == After(table, branch, kept)[id] {
      var i :| 0 <= i < |entries| && entries[i].id == id by { IndexOf(entries, id); }
      if n <= i {
        assert branch[i - n] == entries[i];
        EntryAt(branch, i - n);
      } else {
        StoredAgain(table, id) by { assert StoredRow(table, id); }
        OffBranch(entries, branch, table, kept, i);
      }
    }
  }

  lemma IndexOf(entries: seq<Entry>, id: string)
    requires id in Ids(entries)
    ensures exists i :: 0 <= i < |entries| && entries[i].id == id
  {
  }

  lemma BranchDistinct(entries: seq<Entry>, branch: seq<Entry>, table: Table, kept: set<string>)
    requires IsSyncList(entries, branch, table, kept)
    ensures DistinctIds(branch)
  {
    hide Ids;
    var n := |entries| - |branch|;
    assert forall i :: 0 <= i < |branch| ==> branch[i] == entries[n + i];
  }

  lemma OffBranch(entries: seq<Entry>, branch: seq<Entry>, table: Table, kept: set<string>, i: nat)
    requires IsSyncList(entries, branch, table, kept) && i < |entries| - |branch|
    ensures entries[i].id !in Ids(branch)
  {
    var n := |entries| - |branch|;
    forall k | 0 <= k < |branch| ensures branch[k].id != entries[i].id {
      assert branch[k] == entries[n + k];
    }
  }

  lemma CarriedInTable(entries: seq<Entry>, table: Table, meta: Metadata)
    ensures CarriedRows(entries, table, meta) <= table.Keys
  {
    hide GroupRows;
    if Truthy(meta.regenerates) {
      GroupRowsInTable(table, meta.regenerates.value, meta.group);
    }
  }

  /** The whole sync: gather the rows, then replace the conversation's projection with them. */
  method SyncConversation(table: Table, existing: seq<Entry>, branch: seq<PiEntry>, model: Model, meta: Metadata)
    returns (next: Table)
    requires IsReading(existing, table) && StoredTable(table) && DistinctBranch(branch)
    ensures next == Synced(table, branch, model, meta)
  {
    hide IsSyncList, StoredRow, BranchEntry, Adjusted, CarriedRows, After, IsReading, TableOf;
    var entries := SyncPiConversation(branch, existing, table, model, meta);
    next := ReplaceConversationProjection(table, entries);
    ghost var adjusted := Adjusted(BranchEntries(branch, table, model), meta);
    CarriedInTable(adjusted, table, meta);
    WritingTheList(entries, adjusted, table, CarriedRows(adjusted, table, meta));
  }

  // ----- the branch's own rows -----

  predicate OnBranch(branch: seq<PiEntry>, id: string) {
    exists p :: p in branch && !p.Other? && p.id == id
  }

  function PiParent(p: PiEntry): Option<string>
    requires !p.Other?
  {
    p.parent
  }

  function PiRole(p: PiEntry): Option<Role>
    requires !p.Other?
  {
    if p.Message? then p.role else None
  }

  lemma AdjustedOnBranch(table: Table, branch: seq<PiEntry>, model: Model, meta: Metadata, id: string)
    requires DistinctBranch(branch)
    ensures id in Ids(Adjusted(BranchEntries(branch, table, model), meta)) <==> OnBranch(branch, id)
  {
    hide BranchEntries, Adjusted, BranchEntry;
    var entries := BranchEntries(branch, table, model);
    BranchIdsDistinct(branch, table, model);
    AdjustedDistinct(entries, meta);
    if id in Ids(entries) {
      var i :| 0 <= i < |entries| && entries[i].id == id;
      assert entries[i] in entries;
      var p :| p in branch && !p.Other? && entries[i] == BranchEntry(p, Lookup(table, p.id), model);
      BranchEntryIs(p, Lookup(table, p.id), model);
    }
    if OnBranch(branch, id) {
      var p :| p in branch && !p.Other? && p.id == id;
      var i := IndexOnBranch(table, branch, model, p);
    }
  }

  lemma BranchEntryIs(p: PiEntry, row: Option<Entry>, model: Model)
    requires !p.Other?
    ensures var e := BranchEntry(p, row, model);
      e.id == p.id && e.parent == PiParent(p) && e.role == PiRole(p)
  {
  }

  lemma IndexOnBranch(table: Table, branch: seq<PiEntry>, model: Model, p: PiEntry) returns (i: nat)
    requires p in branch && !p.Other?
    ensures i < |BranchEntries(branch, table, model)|
    ensures BranchEntries(branch, table, model)[i] == BranchEntry(p, Lookup(table, p.id), model)
    ensures BranchEntries(branch, table, model)[i].id == p.id && p.id in Ids(BranchEntries(branch, table, model))
  {
    hide BranchEntries, BranchEntry;
    var entries := BranchEntries(branch, table, model);
    var e := BranchEntry(p, Lookup(table, p.id), model);
    assert e in entries;
    i :| 0 <= i < |entries| && entries[i] == e;
    BranchEntryIs(p, Lookup(table, p.id), model);
  }

  /** What the run writes onto its last answer and that answer's prompt leaves the rest of the branch alone. */
  lemma AdjustedRow(entries: seq<Entry>, meta: Metadata, i: nat)
    requires i < |entries|
    ensures var r := Adjusted(entries, meta);
      && (meta.answer.Some? && i == LastAssistant(entries) ==> r[i] == WithAnswer(entries[i], meta.answer.value, meta))
      && (meta.answer.None? || i != LastAssistant(entries) ==>
           r[i] == entries[i] || (entries[i].role == Some(User) && r[i] == WithPrompt(entries[i], meta)))
  {
    hide PromptIndex, WithPrompt, LastAssistant;
  }

  /** The answer a run writes its own facts onto. */
  predicate IsRunsAnswer(table: Table, branch: seq<PiEntry>, model: Model, meta: Metadata, id: string) {
    var entries := BranchEntries(branch, table, model);
    meta.answer.Some? && LastAssistant(entries) >= 0 && entries[LastAssistant(entries)].id == id
  }

  /** The row a branch entry has after the sync. */
  lemma RowAfter(table: Table, branch: seq<PiEntry>, model: Model, meta: Metadata, p: PiEntry) returns (e: Entry)
    requires DistinctBranch(branch) && p in branch && !p.Other?
    ensures e in Adjusted(BranchEntries(branch, table, model), meta) && e.id == p.id
    ensures p.id in Synced(table, branch, model, meta)
    ensures Synced(table, branch, model, meta)[p.id] == Stored(e, Lookup(table, p.id))
    ensures var b := BranchEntry(p, Lookup(table, p.id), model);
      if IsRunsAnswer(table, branch, model, meta, p.id)
      then b.role == Some(Assistant) && e == WithAnswer(b, meta.answer.value, meta)
      else e == b || (b.role == Some(User) && e == WithPrompt(b, meta))
  {
    hide BranchEntries, BranchEntry, Adjusted, Stored, WithAnswer, WithPrompt, CarriedRows, LastAssistant, Ids;
    var entries := BranchEntries(branch, table, model);
    var i := IndexOnBranch(table, branch, model, p);
    var adjusted := Adjusted(entries, meta);
    BranchIdsDistinct(branch, table, model);
    AdjustedDistinct(entries, meta);
    AdjustedRow(entries, meta, i);
    EntryAt(adjusted, i);
    e := adjusted[i];
    if IsRunsAnswer(table, branch, model, meta, p.id) {
      assert entries[i].id == entries[LastAssistant(entries)].id;
      assert i == LastAssistant(entries);
    }
  }

  lemma OffBranchRow(table: Table, branch: seq<PiEntry>, model: Model, meta: Metadata, id: string)
    requires DistinctBranch(branch) && !OnBranch(branch, id)
    ensures var adjusted := Adjusted(BranchEntries(branch, table, model), meta);
      && (id in Synced(table, branch, model, meta) <==> id in CarriedRows(adjusted, table, meta))
      && (id in Synced(table, branch, model, meta) ==>
           id in table && Synced(table, branch, model, meta)[id] == table[id])
  {
    hide BranchEntries, Adjusted, CarriedRows, Stored, Ids, OnBranch;
    AdjustedOnBranch(table, branch, model, meta, id);
    CarriedInTable(Adjusted(BranchEntries(branch, table, model), meta), table, meta);
  }

  // ----- a second reading of the same branch -----

  /** A row that another reading of its own session entry would leave as it is. */
  predicate Settled(p: PiEntry, row: Entry)
    requires !p.Other?
  {
    && row.id == p.id && row.parent == PiParent(p) && row.role == PiRole(p) && row.createdAt == p.timestamp
    && row.group.Some?
    && (row.role == Some(Assistant) <==> row.details.modelId.Some?)
    && (row.role == Some(Assistant) <==> row.details.modelRuntimeId.Some?)
    && (row.role == Some(Assistant) <==> row.details.modelAlias.Some?)
    && (row.details.reasoning.Some? ==> Trim(row.details.reasoning.value) != "")
    && if p.Compaction? then
         row.entryType == "compaction" && row.text == p.summary && row.details.reasoning.None?
           && row.group == Some(p.id)
       else
         row.entryType == "message"
         && (p.role == Some(Assistant) ==> row.text == ThinkingFilter.StripLeadingThinkingEndTag(p.text))
         && (p.role != Some(Assistant) && p.role != Some(User) ==> row.text == p.text)
         && (p.thinking != "" ==> row.details.reasoning == if Trim(p.thinking) != "" then Some(p.thinking) else None)
  }

  lemma SettledStays(p: PiEntry, row: Entry, model: Model)
    requires !p.Other? && Settled(p, row)
    ensures Stored(BranchEntry(p, Some(row), model), Some(row)) == row
  {
    hide Trim, ThinkingFilter.StripLeadingThinkingEndTag;
  }

  predicate NamesItsModel(answer: Answer) {
    answer.details.modelId.Some? && answer.details.modelRuntimeId.Some? && answer.details.modelAlias.Some?
  }

  lemma StoredSettles(p: PiEntry, row: Option<Entry>, model: Model, meta: Metadata, e: Entry)
    requires !p.Other?
    requires var b := BranchEntry(p, row, model);
      e == b || (b.role == Some(User) && e == WithPrompt(b, meta))
      || (meta.answer.Some? && NamesItsModel(meta.answer.value) && b.role == Some(Assistant)
          && e == WithAnswer(b, meta.answer.value, meta))
    ensures Settled(p, Stored(e, row))
  {
    hide Trim, ThinkingFilter.StripLeadingThinkingEndTag;
  }

  /** A session entry never changes once appended, so a row agrees with it on where it hangs and who spoke. */
  predicate Agrees(table: Table, branch: seq<PiEntry>) {
    forall p :: p in branch && !p.Other? && p.id in table
      ==> table[p.id].parent == PiParent(p) && table[p.id].role == PiRole(p)
  }

  /** The metadata of a snapshot read, or of a run whose answer is new to the table. */
  predicate RunMetadata(table: Table, branch: seq<PiEntry>, model: Model, meta: Metadata) {
    && meta.regenerates.Some? == meta.group.Some? && meta.regenerates != Some("")
    && if meta.answer.None? then meta.regenerates.None?
       else
         var entries := BranchEntries(branch, table, model);
         var last := LastAssistant(entries);
         NamesItsModel(meta.answer.value) && last >= 0 && entries[last].id !in table
  }

  /** Which rows an old row's variant facts survive in: all of them, on the branch or off it. */
  lemma VariantFactsStay(table: Table, branch: seq<PiEntry>, model: Model, meta: Metadata, id: string)
    requires DistinctBranch(branch) && StoredTable(table) && Agrees(table, branch)
      && RunMetadata(table, branch, model, meta)
    requires id in table && id in Synced(table, branch, model, meta)
    ensures var was, now := table[id], Synced(table, branch, model, meta)[id];
      && now.id == was.id && now.role == was.role && now.parent == was.parent
      && now.regenerates == was.regenerates
      && (was.role == Some(Assistant) ==> now.group == was.group)
      && now.details.performance == was.details.performance
      && now.details.toolCalls == was.details.toolCalls
      && (was.role == Some(Assistant) ==> now.details.attachments == was.details.attachments)
  {
    hide Synced, BranchEntries, Trim, ThinkingFilter.StripLeadingThinkingEndTag, LastAssistant, Adjusted;
    assert StoredRow(table, id);
    if OnBranch(branch, id) {
      var p :| p in branch && !p.Other? && p.id == id;
      var e := RowAfter(table, branch, model, meta, p);
      BranchEntryIs(p, Lookup(table, id), model);
    } else {
      OffBranchRow(table, branch, model, meta, id);
    }
  }

  lemma GroupRowsStay(table: Table, next: Table, anchor: string, group: string, id: string)
    requires id in GroupRows(table, anchor, Some(group)) && id in next
    requires forall a :: IsVariant(table, a, anchor, group) ==> a in next
    requires forall a :: a in table && a in next && table[a].role == Some(Assistant) ==>
      next[a].id == table[a].id && next[a].role == table[a].role && next[a].parent == table[a].parent
      && next[a].regenerates == table[a].regenerates && next[a].group == table[a].group
    ensures id in GroupRows(next, anchor, Some(group))
  {
    hide Truthy;
    if IsVariant(table, id, anchor, group) {
      assert IsVariant(next, id, anchor, group);
    } else {
      var a :| a in table && IsVariant(table, a, anchor, group) && IsPromptOf(table, id, a);
      assert IsVariant(next, a, anchor, group);
      assert IsPromptOf(next, id, a);
    }
  }

  lemma CarriedStay(table: Table, branch: seq<PiEntry>, model: Model, meta: Metadata, id: string)
    requires id in CarriedRows(Adjusted(BranchEntries(branch, table, model), meta), table, meta)
    ensures id in Synced(table, branch, model, meta)
  {
    hide BranchEntries, Adjusted, CarriedRows, Stored, Ids, EntryOf;
    CarriedInTable(Adjusted(BranchEntries(branch, table, model), meta), table, meta);
  }

  lemma BehindEntry(table: Table, branch: seq<PiEntry>, model: Model, i: nat) returns (p: PiEntry)
    requires i < |BranchEntries(branch, table, model)|
    ensures var e := BranchEntries(branch, table, model)[i];
      p in branch && !p.Other? && e == BranchEntry(p, Lookup(table, p.id), model)
      && p.id == e.id && PiRole(p) == e.role
  {
    hide BranchEntries, BranchEntry;
    var entries := BranchEntries(branch, table, model);
    assert entries[i] in entries;
    p :| p in branch && !p.Other? && entries[i] == BranchEntry(p, Lookup(table, p.id), model);
    BranchEntryIs(p, Lookup(table, p.id), model);
  }

  /** The anchor and group a regenerate's own answer is stored under are the ones the sync carried. */
  lemma NewAnswerAnchor(table: Table, branch: seq<PiEntry>, model: Model, meta: Metadata, p: PiEntry)
    requires DistinctBranch(branch) && RunMetadata(table, branch, model, meta) && Truthy(meta.regenerates)
    requires p in branch && !p.Other? && IsRunsAnswer(table, branch, model, meta, p.id)
    ensures p.id in Synced(table, branch, model, meta)
    ensures var now := Synced(table, branch, model, meta)[p.id];
      AnchorOf(now) == meta.regenerates.value && now.group == meta.group
  {
    hide Synced, BranchEntries, Trim, ThinkingFilter.StripLeadingThinkingEndTag, LastAssistant, Adjusted, IsRunsAnswer;
    var e := RowAfter(table, branch, model, meta, p);
  }

  /** Without regenerate metadata an answer is stored under the anchor and group the sync looked for. */
  lemma AnchorStored(table: Table, branch: seq<PiEntry>, model: Model, meta: Metadata, p: PiEntry, e: Entry)
    requires DistinctBranch(branch) && StoredTable(table) && RunMetadata(table, branch, model, meta)
    requires meta.regenerates.None?
    requires p in branch && !p.Other? && p.id == e.id && e.role == Some(Assistant)
    requires e in Adjusted(BranchEntries(branch, table, model), meta)
    ensures p.id in Synced(table, branch, model, meta)
    ensures var now := Synced(table, branch, model, meta)[p.id];
      AnchorOf(now) == AnchorOf(e) && now.group == Some(GroupOf(table, AnchorOf(e), e.group))
  {
    hide Synced, BranchEntries, Trim, ThinkingFilter.StripLeadingThinkingEndTag, LastAssistant, Adjusted;
    var f := RowAfter(table, branch, model, meta, p);
    assert e == f by { SameEntry(table, branch, model, meta, e, f); }
    BranchEntryIs(p, Lookup(table, p.id), model);
    assert p.id in table ==> StoredRow(table, p.id);
  }

  lemma SameEntry(table: Table, branch: seq<PiEntry>, model: Model, meta: Metadata, e: Entry, f: Entry)
    requires DistinctBranch(branch) && e.id == f.id
    requires e in Adjusted(BranchEntries(branch, table, model), meta)
    requires f in Adjusted(BranchEntries(branch, table, model), meta)
    ensures e == f
  {
    hide BranchEntries, Adjusted;
    BranchIdsDistinct(branch, table, model);
    AdjustedDistinct(BranchEntries(branch, table, model), meta);
  }

  lemma BehindAdjusted(table: Table, branch: seq<PiEntry>, model: Model, meta: Metadata, e: Entry) returns (p: PiEntry)
    requires e in Adjusted(BranchEntries(branch, table, model), meta)
    ensures p in branch && !p.Other? && p.id == e.id && PiRole(p) == e.role
  {
    hide BranchEntries, Adjusted;
    var r := Adjusted(BranchEntries(branch, table, model), meta);
    var i :| 0 <= i < |r| && r[i] == e;
    p := BehindEntry(table, branch, model, i);
  }

  lemma VariantsStay(table: Table, branch: seq<PiEntry>, model: Model, meta: Metadata, anchor: string, group: string)
    requires anchor != ""
    requires forall id :: id in GroupRows(table, anchor, Some(group)) ==>
      id in CarriedRows(Adjusted(BranchEntries(branch, table, model), meta), table, meta)
    ensures forall a :: IsVariant(table, a, anchor, group) ==> a in Synced(table, branch, model, meta)
  {
    hide Synced, BranchEntries, Adjusted, CarriedRows, Belongs;
    forall a | IsVariant(table, a, anchor, group) ensures a in Synced(table, branch, model, meta) {
      assert a in GroupRows(table, anchor, Some(group));
      CarriedStay(table, branch, model, meta, a);
    }
  }

  /** The anchor and group under which a carried row came back. */
  lemma CarriedUnder(table: Table, branch: seq<PiEntry>, model: Model, meta: Metadata, id: string)
    returns (p: PiEntry, anchor: string, group: string)
    requires DistinctBranch(branch) && StoredTable(table) && RunMetadata(table, branch, model, meta)
    requires id in CarriedRows(Adjusted(BranchEntries(branch, table, model), meta), table, meta)
    ensures p in branch && p.Message? && p.role == Some(Assistant)
    ensures id in GroupRows(table, anchor, Some(group))
    ensures forall a :: IsVariant(table, a, anchor, group) ==> a in Synced(table, branch, model, meta)
    ensures p.id in Synced(table, branch, model, meta)
    ensures AnchorOf(Synced(table, branch, model, meta)[p.id]) == anchor
    ensures Synced(table, branch, model, meta)[p.id].group == Some(group)
  {
    hide Synced, BranchEntries, GroupRows, Adjusted, LastAssistant, IsVariant, BranchEntry, Ids;
    var entries := BranchEntries(branch, table, model);
    var adjusted := Adjusted(entries, meta);
    if Truthy(meta.regenerates) {
      var last := LastAssistant(entries);
      p := BehindEntry(table, branch, model, last);
      NewAnswerAnchor(table, branch, model, meta, p);
      anchor, group := meta.regenerates.value, meta.group.value;
    } else {
      ghost var e :| e in adjusted && e.role == Some(Assistant) && id in GroupRows(table, AnchorOf(e), e.group);
      p := BehindAdjusted(table, branch, model, meta, e);
      anchor, group := AnchorOf(e), GroupOf(table, AnchorOf(e), e.group);
      if anchor == "" { NoAnchor(table, e.group); }
      SameGroup(table, anchor, e.group);
      AnchorStored(table, branch, model, meta, p, e);
      CarriedInTable(adjusted, table, meta);
      forall x | x in GroupRows(table, anchor, Some(group)) ensures x in CarriedRows(adjusted, table, meta) {
        GroupRowsInTable(table, anchor, Some(group));
      }
    }
    VariantsStay(table, branch, model, meta, anchor, group);
  }

  /**
   * Reading the same branch again writes the table that is already there: the same rows, every one of them
   * unchanged, whichever model is active and whether the first sync was a snapshot's or a run's.
   */
  lemma SyncSettles(table: Table, branch: seq<PiEntry>, model: Model, meta: Metadata, again: Model)
    requires StoredTable(table) && DistinctBranch(branch) && Agrees(table, branch)
    requires RunMetadata(table, branch, model, meta)
    ensures var next := Synced(table, branch, model, meta); Synced(next, branch, again, SNAPSHOT) == next
  {
    hide Synced, OnBranch, StoredTable, Agrees;
    var next := Synced(table, branch, model, meta);
    var last := Synced(next, branch, again, SNAPSHOT);
    forall id ensures id in last <==> id in next
              ensures id in next ==> last[id] == next[id] {
      if OnBranch(branch, id) {
        BranchRowSettles(table, branch, model, meta, again, id);
      } else {
        CarriedRowSettles(table, branch, model, meta, again, id);
      }
    }
  }

  lemma BranchRowSettles(table: Table, branch: seq<PiEntry>, model: Model, meta: Metadata, again: Model, id: string)
    requires DistinctBranch(branch) && RunMetadata(table, branch, model, meta) && OnBranch(branch, id)
    ensures var next := Synced(table, branch, model, meta); var last := Synced(next, branch, again, SNAPSHOT);
      id in next && id in last && last[id] == next[id]
  {
    hide Synced, BranchEntries, BranchEntry, Stored, Settled, Adjusted, LastAssistant, WithAnswer;
    var next := Synced(table, branch, model, meta);
    var p :| p in branch && !p.Other? && p.id == id;
    var e := RowAfter(table, branch, model, meta, p);
    StoredSettles(p, Lookup(table, id), model, meta, e);
    var f := RowAfter(next, branch, again, SNAPSHOT, p);
    SettledStays(p, next[id], again);
    assert WithPrompt(f, SNAPSHOT) == f;
    SnapshotPrompt(BranchEntry(p, Lookup(next, id), again));
  }

  lemma SnapshotPrompt(b: Entry)
    ensures WithPrompt(b, SNAPSHOT) == b
  {
  }

  lemma CarriedRowSettles(table: Table, branch: seq<PiEntry>, model: Model, meta: Metadata, again: Model, id: string)
    requires StoredTable(table) && DistinctBranch(branch) && Agrees(table, branch)
    requires RunMetadata(table, branch, model, meta) && !OnBranch(branch, id)
    ensures var next := Synced(table, branch, model, meta); var last := Synced(next, branch, again, SNAPSHOT);
      (id in last <==> id in next) && (id in next ==> last[id] == next[id])
  {
    hide Synced, BranchEntries, StoredTable, Agrees, RunMetadata, GroupRows, Adjusted, CarriedRows;
    var next := Synced(table, branch, model, meta);
    OffBranchRow(table, branch, model, meta, id);
    OffBranchRow(next, branch, again, SNAPSHOT, id);
    if id in next {
      var p, anchor, group := CarriedUnder(table, branch, model, meta, id);
      forall a | a in table && a in next && table[a].role == Some(Assistant)
        ensures next[a].id == table[a].id && next[a].role == table[a].role && next[a].parent == table[a].parent
          && next[a].regenerates == table[a].regenerates && next[a].group == table[a].group
      {
        VariantFactsStay(table, branch, model, meta, a);
      }
      GroupRowsStay(table, next, anchor, group, id);
      FoundAgain(next, branch, again, p, id);
    }
  }

  /** A row the branch's answer leads to is carried by a sync without metadata. */
  lemma FoundAgain(table: Table, branch: seq<PiEntry>, model: Model, p: PiEntry, id: string)
    requires DistinctBranch(branch) && p in branch && p.Message? && p.role == Some(Assistant) && p.id in table
    requires table[p.id].group.Some?
    requires id in GroupRows(table, AnchorOf(table[p.id]), table[p.id].group)
    ensures id in CarriedRows(Adjusted(BranchEntries(branch, table, model), SNAPSHOT), table, SNAPSHOT)
  {
    hide BranchEntries, GroupRows;
    var i := IndexOnBranch(table, branch, model, p);
    var e := BranchEntries(branch, table, model)[i];
    assert e in BranchEntries(branch, table, model);
    GroupRowsInTable(table, AnchorOf(e), e.group);
  }
}
