/**
 * Variant groups over a conversation's whole history: any sequence of snapshot reads, chats, regenerations
 * and variant switches, over a session that only ever grows.
 */
module VariantHistory {
  import opened Text
  import opened Projection
  import opened ProjectionLaws
  import ThinkingFilter

  // ----- where a regeneration branches from -----

  datatype Source = Source(answer: Entry, prompt: Entry, branchFrom: Option<string>, regenerates: string, group: string)

  /** The prompt an answer is regenerated from: its parent when that is the user's, else the nearest user before it. */
  function PromptOf(entries: seq<Entry>, table: Table, id: string): (prompt: Option<Entry>)
    requires id in table
    ensures prompt.Some? ==> prompt.value.role == Some(User)
  {
    var parent := table[id].parent;
    if parent.Some? && parent.value in table && table[parent.value].role == Some(User) then Some(table[parent.value])
    else
      var i := UserBefore(entries, IndexOfId(entries, id));
      if i >= 0 then Some(entries[i]) else None
  }

  /** A user's row the answer at `i` hangs from, or, when it hangs from none, the nearest user's row above it. */
  ghost predicate IsPromptFor(entries: seq<Entry>, i: nat, u: Entry)
    requires i < |entries|
  {
    && u in entries && u.role == Some(User)
    && (|| entries[i].parent == Some(u.id)
        || (&& (forall e :: e in entries && entries[i].parent == Some(e.id) ==> e.role != Some(User))
            && exists k :: 0 <= k < i && entries[k] == u && NoUserBetween(entries, k, i)))
  }

  ghost predicate NoUserBetween(entries: seq<Entry>, k: nat, i: nat) {
    forall m :: k < m < i && m < |entries| ==> entries[m].role != Some(User)
  }

  /** That row is what the search finds, and it finds nothing exactly when there is none. */
  lemma PromptOfIff(entries: seq<Entry>, table: Table, i: nat, u: Entry)
    requires IsReading(entries, table) && i < |entries| && entries[i].id in table
    ensures PromptOf(entries, table, entries[i].id) == Some(u) <==> IsPromptFor(entries, i, u)
  {
    hide IndexOfId, UserBefore, Ids;
    var e := entries[i];
    assert table[e.id] == e;
    assert IndexOfId(entries, e.id) == i;
    if e.parent.Some? && e.parent.value in table {
      ReadingMembers(entries, table, e.parent.value);
    }
    assert forall x :: x in entries ==> table[x.id] == x;
    NearestUser(entries, i);
  }

  lemma {:induction false} NearestUser(entries: seq<Entry>, i: nat)
    requires i <= |entries|
    ensures var k := UserBefore(entries, i);
      if k >= 0 then NoUserBetween(entries, k, i) else forall m :: 0 <= m < i ==> entries[m].role != Some(User)
  {
    if i > 0 && entries[i - 1].role != Some(User) {
      NearestUser(entries, i - 1);
    }
  }

  method GetRegenerationSource(entries: seq<Entry>, table: Table, id: string) returns (source: Option<Source>)
    requires IsReading(entries, table)
    ensures source.Some? <==> id in table && table[id].role == Some(Assistant) && PromptOf(entries, table, id).Some?
    ensures source.Some? ==>
      (var s := source.value;
       && s.answer == table[id] && Some(s.prompt) == PromptOf(entries, table, id) && s.branchFrom == s.prompt.parent
       && s.regenerates == OriginalOf(table, id) && s.group == GroupOfRow(table, id))
  {
    hide IsReading, IndexOfId, OriginalOf, GroupOfRow;
    if id !in table || table[id].role != Some(Assistant) {
      return None;
    }
    var answer := table[id];
    ReadingMembers(entries, table, id);
    var prompt: Option<Entry> := None;
    if answer.parent.Some? && answer.parent.value in table && table[answer.parent.value].role == Some(User) {
      prompt := Some(table[answer.parent.value]);
    }
    if prompt.None? {
      var index := IndexOfId(entries, id);
      ghost var start := index;
      while index > 0
        invariant 0 <= index <= start
        invariant UserBefore(entries, start) == UserBefore(entries, index)
      {
        index := index - 1;
        if entries[index].role == Some(User) {
          prompt := Some(entries[index]);
          break;
        }
      }
    }
    if prompt.None? {
      return None;
    }
    source := Some(Source(answer, prompt.value, prompt.value.parent, OriginalOf(table, id), GroupOfRow(table, id)));
  }

  function OriginalOf(table: Table, id: string): string
    requires id in table
  {
    if table[id].regenerates.Some? then table[id].regenerates.value else id
  }

  function GroupOfRow(table: Table, id: string): string
    requires id in table
  {
    if table[id].group.Some? then table[id].group.value else id
  }

  // ----- steps -----

  type Session = map<string, PiEntry>

  datatype State = State(session: Session, table: Table)

  /** Switching variants changes only which branch the next step walks. */
  datatype Step =
    | Snapshot(session: Session, branch: seq<PiEntry>, model: Model)
    | Chat(session: Session, branch: seq<PiEntry>, model: Model, answer: Answer, prompt: string,
           attachments: Option<string>)
    | Regenerate(session: Session, branch: seq<PiEntry>, model: Model, answer: Answer, prompt: string,
                 attachments: Option<string>, target: string)

  function MetaOf(table: Table, step: Step): Metadata
    requires step.Regenerate? ==> step.target in table
  {
    match step
    case Snapshot(_, _, _) => SNAPSHOT
    case Chat(_, _, _, answer, prompt, attachments) => Metadata(Some(answer), None, None, Some(prompt), attachments)
    case Regenerate(_, _, _, answer, prompt, attachments, target) =>
      Metadata(Some(answer), Some(OriginalOf(table, target)), Some(GroupOfRow(table, target)), Some(prompt),
               attachments)
  }

  predicate AnswerAt(session: Session, id: string) {
    id in session && session[id].Message? && session[id].role == Some(Assistant)
  }

  /** A run appends a chain of entries that opens with its prompt: each new answer hangs from its own new entry. */
  ghost predicate NewPlaces(before: Session, after: Session) {
    && (forall id :: AnswerAt(after, id) && id !in before ==>
         after[id].parent.Some? && after[id].parent.value in after && after[id].parent.value !in before)
    && (forall a, b :: AnswerAt(after, a) && AnswerAt(after, b) && a !in before && b !in before && a != b ==>
         after[a].parent != after[b].parent)
  }

  /** Entries are only ever added. */
  ghost predicate Append(before: Session, after: Session) {
    && (forall id :: id in before ==> id in after && after[id] == before[id])
    && (forall id :: id in after ==> id != "" && after[id].id == id)
    && NewPlaces(before, after)
  }

  /** No two answers of the session hang from one entry. */
  ghost predicate OwnPlaces(session: Session) {
    && (forall id :: AnswerAt(session, id) ==> session[id].parent.Some? && session[id].parent.value in session)
    && (forall a, b :: AnswerAt(session, a) && AnswerAt(session, b) && a != b ==>
         session[a].parent != session[b].parent)
  }

  lemma OwnPlacesKept(before: Session, after: Session)
    requires OwnPlaces(before) && Append(before, after)
    ensures OwnPlaces(after)
  {
    forall a, b | AnswerAt(after, a) && AnswerAt(after, b) && a != b ensures after[a].parent != after[b].parent {
      assert a in before ==> AnswerAt(before, a);
      assert b in before ==> AnswerAt(before, b);
    }
    forall a | AnswerAt(after, a) ensures after[a].parent.Some? && after[a].parent.value in after {
      assert a in before ==> AnswerAt(before, a);
    }
  }

  predicate NewAnswer(s: State, step: Step)
    requires !step.Snapshot?
  {
    var entries := BranchEntries(step.branch, s.table, step.model);
    var last := LastAssistant(entries);
    NamesItsModel(step.answer) && last >= 0 && entries[last].id !in s.session
  }

  ghost predicate Enabled(s: State, step: Step) {
    && Append(s.session, step.session)
    && DistinctBranch(step.branch) && (forall p :: p in step.branch ==> p.id in step.session && step.session[p.id] == p)
    && (!step.Snapshot? ==> NewAnswer(s, step))
    && (step.Regenerate? ==> step.target in s.table && s.table[step.target].role == Some(Assistant))
  }

  ghost function Next(s: State, step: Step): State
    requires Enabled(s, step)
  {
    State(step.session, Synced(s.table, step.branch, step.model, MetaOf(s.table, step)))
  }

  // ----- flat groups -----

  /** An answer either founds its group or regenerates the founder, which itself regenerates nothing. */
  predicate FlatRow(table: Table, id: string)
    requires id in table
  {
    match table[id].regenerates
    case None => table[id].group == Some(id)
    case Some(r) => table[id].group == Some(r) && r != id && (r in table ==> table[r].regenerates.None?)
  }

  predicate Flat(table: Table) {
    forall id :: id in table ==> FlatRow(table, id)
  }

  predicate FromSession(session: Session, table: Table, id: string)
    requires id in table
  {
    && id in session && !session[id].Other?
    && table[id].parent == PiParent(session[id]) && table[id].role == PiRole(session[id])
    && (table[id].entryType == "message" <==> session[id].Message?)
    && (table[id].regenerates.Some? ==>
         table[id].role == Some(Assistant) && AnswerAt(session, table[id].regenerates.value))
  }

  ghost predicate Inv(s: State) {
    && Append(s.session, s.session) && OwnPlaces(s.session) && StoredTable(s.table) && Flat(s.table)
    && (forall id :: id in s.table ==> FromSession(s.session, s.table, id))
  }

  lemma StepIsARun(s: State, step: Step)
    requires Inv(s) && Enabled(s, step)
    ensures Agrees(s.table, step.branch) && RunMetadata(s.table, step.branch, step.model, MetaOf(s.table, step))
  {
    hide BranchEntries, LastAssistant;
    forall p | p in step.branch && !p.Other? && p.id in s.table
      ensures s.table[p.id].parent == PiParent(p) && s.table[p.id].role == PiRole(p)
    {
      assert FromSession(s.session, s.table, p.id);
    }
    if step.Regenerate? {
      assert FromSession(s.session, s.table, step.target) && StoredRow(s.table, step.target)
        && FlatRow(s.table, step.target);
    }
  }

  predicate Answers(s: State, step: Step, id: string) {
    !step.Snapshot? && (var entries := BranchEntries(step.branch, s.table, step.model);
                        LastAssistant(entries) >= 0 && entries[LastAssistant(entries)].id == id)
  }

  /** A row's place in its group after a step: the run's answer is new, every other row keeps the place it had. */
  lemma PlaceAfter(s: State, step: Step, id: string)
    requires Inv(s) && Enabled(s, step) && id in Next(s, step).table
    ensures var now := Next(s, step).table[id];
      && StoredRow(Next(s, step).table, id) && id in step.session && !step.session[id].Other?
      && now.parent == PiParent(step.session[id]) && now.role == PiRole(step.session[id])
      && (now.entryType == "message" <==> step.session[id].Message?)
      && if Answers(s, step, id) then
           id !in s.session && now.role == Some(Assistant)
           && if step.Regenerate? then
                now.regenerates == Some(OriginalOf(s.table, step.target))
                  && now.group == Some(GroupOfRow(s.table, step.target))
              else now.regenerates.None? && now.group == Some(id)
         else if id in s.table then now.regenerates == s.table[id].regenerates && now.group == s.table[id].group
         else now.regenerates.None? && now.group == Some(id)
  {
    hide Synced, BranchEntries, LastAssistant, Adjusted, Trim, ThinkingFilter.StripLeadingThinkingEndTag, NewAnswer;
    StepIsARun(s, step);
    var meta := MetaOf(s.table, step);
    if id in s.table {
      assert FromSession(s.session, s.table, id) && StoredRow(s.table, id) && FlatRow(s.table, id);
    }
    if OnBranch(step.branch, id) {
      var p :| p in step.branch && !p.Other? && p.id == id;
      var e := RowAfter(s.table, step.branch, step.model, meta, p);
      PlaceOnBranch(s, step, p, e);
    } else {
      OffBranchRow(s.table, step.branch, step.model, meta, id);
      NotTheAnswer(s, step, id);
    }
  }

  lemma NotTheAnswer(s: State, step: Step, id: string)
    requires !OnBranch(step.branch, id)
    ensures !Answers(s, step, id)
  {
    hide BranchEntries, LastAssistant;
    if Answers(s, step, id) {
      var p := BehindEntry(s.table, step.branch, step.model,
        LastAssistant(BranchEntries(step.branch, s.table, step.model)));
    }
  }

  lemma PlaceOnBranch(s: State, step: Step, p: PiEntry, e: Entry)
    requires Inv(s) && Enabled(s, step) && p in step.branch && !p.Other?
    requires var b := BranchEntry(p, Lookup(s.table, p.id), step.model); var meta := MetaOf(s.table, step);
      if IsRunsAnswer(s.table, step.branch, step.model, meta, p.id)
      then b.role == Some(Assistant) && e == WithAnswer(b, meta.answer.value, meta)
      else e == b || (b.role == Some(User) && e == WithPrompt(b, meta))
    ensures var now := Stored(e, Lookup(s.table, p.id)); var id := p.id;
      && now.id == id && now.group.Some? && (now.details.reasoning.Some? ==> Trim(now.details.reasoning.value) != "")
      && now.parent == PiParent(p) && now.role == PiRole(p) && (now.entryType == "message" <==> p.Message?)
      && if Answers(s, step, id) then
           id !in s.session && now.role == Some(Assistant)
           && if step.Regenerate? then
                now.regenerates == Some(OriginalOf(s.table, step.target))
                  && now.group == Some(GroupOfRow(s.table, step.target))
              else now.regenerates.None? && now.group == Some(id)
         else if id in s.table then now.regenerates == s.table[id].regenerates && now.group == s.table[id].group
         else now.regenerates.None? && now.group == Some(id)
  {
    hide BranchEntries, LastAssistant, Trim, ThinkingFilter.StripLeadingThinkingEndTag;
    if p.id in s.table {
      assert FromSession(s.session, s.table, p.id) && StoredRow(s.table, p.id) && FlatRow(s.table, p.id);
    }
  }

  lemma NothingNew(session: Session)
    ensures NewPlaces(session, session)
  {
  }

  /** Every step, whatever branch it walks, leaves groups flat and rows in step with the session. */
  lemma StepKeepsInv(s: State, step: Step)
    requires Inv(s) && Enabled(s, step)
    ensures Inv(Next(s, step))
  {
    hide Synced, NewAnswer, StoredRow, Answers, OwnPlaces, NewPlaces;
    var t := Next(s, step);
    OwnPlacesKept(s.session, step.session);
    assert NewPlaces(step.session, step.session) by { NothingNew(step.session); }
    forall id | id in t.table
      ensures StoredRow(t.table, id) && FlatRow(t.table, id) && FromSession(t.session, t.table, id)
    {
      PlaceAfter(s, step, id);
      if id in s.table {
        assert FlatRow(s.table, id) && FromSession(s.session, s.table, id);
      }
      if step.Regenerate? {
        assert FlatRow(s.table, step.target) && FromSession(s.session, s.table, step.target) by {
          assert step.target in s.table;
        }
        assert StoredRow(s.table, step.target);
        hide StoredRow;
      }
      if t.table[id].regenerates.Some? && t.table[id].regenerates.value in t.table {
        var r := t.table[id].regenerates.value;
        PlaceAfter(s, step, r);
        assert r in s.table ==> FlatRow(s.table, r);
      }
    }
  }

  // ----- runs -----

  ghost predicate CanRun(s: State, steps: seq<Step>)
    decreases |steps|
  {
    steps == [] || (Enabled(s, steps[0]) && CanRun(Next(s, steps[0]), steps[1..]))
  }

  ghost function Run(s: State, steps: seq<Step>): State
    requires CanRun(s, steps)
    decreases |steps|
  {
    if steps == [] then s else Run(Next(s, steps[0]), steps[1..])
  }

  /** Over any history a regenerated answer points at one that regenerates nothing, and shares its group id. */
  lemma {:induction false} RunStaysFlat(s: State, steps: seq<Step>)
    requires Inv(s) && CanRun(s, steps)
    ensures Inv(Run(s, steps))
    ensures forall id :: id in Run(s, steps).table ==> FlatRow(Run(s, steps).table, id)
    decreases |steps|
  {
    hide Enabled, Next, StoredRow, FromSession, FlatRow;
    if steps != [] {
      StepKeepsInv(s, steps[0]);
      RunStaysFlat(Next(s, steps[0]), steps[1..]);
    }
  }

  predicate InGroup(table: Table, id: string, group: string) {
    id in table && table[id].role == Some(Assistant) && table[id].group == Some(group)
  }

  /** In flat groups, "belongs to the anchor or its group" is one thing: carrying the group's id. */
  lemma FlatVariants(s: State, group: string, id: string)
    requires Inv(s) && (group in s.table ==> s.table[group].group == Some(group))
    ensures IsVariant(s.table, id, group, group) <==> InGroup(s.table, id, group)
  {
    hide StoredRow, FromSession;
    if id in s.table {
      assert StoredRow(s.table, id) && FlatRow(s.table, id);
    }
    assert id in s.table ==> s.table[id].id == id by {
      if id in s.table { RowId(s.table, id); }
    }
  }

  lemma RowId(table: Table, id: string)
    requires StoredRow(table, id)
    ensures table[id].id == id
  {
  }

  /** The step walks an answer of the group, or regenerates one. */
  predicate Touches(s: State, step: Step, group: string) {
    if step.Regenerate? then InGroup(s.table, step.target, group)
    else exists p :: p in step.branch && !p.Other? && InGroup(s.table, p.id, group)
  }

  /** What a carried answer keeps, on the branch or off it. */
  predicate Intact(before: Entry, now: Entry) {
    && now.id == before.id && now.role == before.role && now.parent == before.parent
    && now.regenerates == before.regenerates && now.group == before.group
    && now.details.performance == before.details.performance
    && now.details.toolCalls == before.details.toolCalls && now.details.attachments == before.details.attachments
  }

  /** Every answer of the group survives the step with what it carries, and so does the prompt it hangs from. */
  ghost predicate GroupKept(before: Table, after: Table, group: string) {
    && (forall id :: InGroup(before, id, group) ==> id in after && Intact(before[id], after[id]))
    && (forall id, a :: InGroup(before, a, group) && IsPromptOf(before, id, a) ==> id in after)
  }

  lemma GroupCarried(s: State, step: Step, group: string)
    requires Inv(s) && Enabled(s, step) && Touches(s, step, group)
    ensures var adjusted := Adjusted(BranchEntries(step.branch, s.table, step.model), MetaOf(s.table, step));
      GroupRows(s.table, group, Some(group)) <= CarriedRows(adjusted, s.table, MetaOf(s.table, step))
  {
    hide BranchEntries, LastAssistant, Adjusted, NewAnswer, GroupRows, StoredRow;
    StepIsARun(s, step);
    var meta := MetaOf(s.table, step);
    if step.Regenerate? {
      assert FlatRow(s.table, step.target) && FromSession(s.session, s.table, step.target)
        && StoredRow(s.table, step.target);
    } else {
      var p :| p in step.branch && !p.Other? && InGroup(s.table, p.id, group);
      var e := RowAfter(s.table, step.branch, step.model, meta, p);
      AnchorOfMember(s, step, p, e, group);
      GroupRowsInTable(s.table, AnchorOf(e), e.group);
    }
  }

  lemma AnchorOfMember(s: State, step: Step, p: PiEntry, e: Entry, group: string)
    requires Inv(s) && Enabled(s, step) && !step.Regenerate?
    requires p in step.branch && !p.Other? && InGroup(s.table, p.id, group)
    requires var b := BranchEntry(p, Lookup(s.table, p.id), step.model); var meta := MetaOf(s.table, step);
      if IsRunsAnswer(s.table, step.branch, step.model, meta, p.id)
      then b.role == Some(Assistant) && e == WithAnswer(b, meta.answer.value, meta)
      else e == b || (b.role == Some(User) && e == WithPrompt(b, meta))
    ensures e.role == Some(Assistant) && AnchorOf(e) == group && e.group == Some(group)
  {
    hide BranchEntries, LastAssistant, Trim, ThinkingFilter.StripLeadingThinkingEndTag;
    assert FlatRow(s.table, p.id) && FromSession(s.session, s.table, p.id) && StoredRow(s.table, p.id);
  }

  /** A step that walks or regenerates an answer of a group loses none of its answers and none of their prompts. */
  lemma StepKeepsGroup(s: State, step: Step, group: string)
    requires Inv(s) && Enabled(s, step) && Touches(s, step, group)
    ensures GroupKept(s.table, Next(s, step).table, group)
    ensures forall id :: InGroup(s.table, id, group) && !OnBranch(step.branch, id) ==>
      (id in Next(s, step).table && Next(s, step).table[id] == s.table[id])
  {
    hide BranchEntries, LastAssistant, Adjusted, NewAnswer, StoredRow, Synced, CarriedRows, OnBranch, Flat, FromSession;
    var meta := MetaOf(s.table, step);
    var t := Next(s, step).table;
    GroupCarried(s, step, group);
    StepIsARun(s, step);
    forall id | InGroup(s.table, id, group)
      ensures id in t && Intact(s.table[id], t[id])
      ensures !OnBranch(step.branch, id) ==> t[id] == s.table[id]
    {
      assert IsVariant(s.table, id, group, group);
      assert id in GroupRows(s.table, group, Some(group)) by { GroupNotEmptyId(s, id, group); }
      CarriedStay(s.table, step.branch, step.model, meta, id);
      VariantFactsStay(s.table, step.branch, step.model, meta, id);
      if !OnBranch(step.branch, id) {
        OffBranchRow(s.table, step.branch, step.model, meta, id);
      }
    }
    forall id, a | InGroup(s.table, a, group) && IsPromptOf(s.table, id, a) ensures id in t {
      assert IsVariant(s.table, a, group, group);
      assert id in GroupRows(s.table, group, Some(group)) by { GroupNotEmptyId(s, a, group); }
      CarriedStay(s.table, step.branch, step.model, meta, id);
    }
  }

  /** A group's id names a session entry, so it is never the empty string. */
  lemma GroupNotEmptyId(s: State, id: string, group: string)
    requires Inv(s) && InGroup(s.table, id, group)
    ensures group != ""
  {
    assert FlatRow(s.table, id) && FromSession(s.session, s.table, id);
  }

  ghost predicate AlwaysTouches(s: State, steps: seq<Step>, group: string)
    requires CanRun(s, steps)
    decreases |steps|
  {
    steps == [] || (Touches(s, steps[0], group) && AlwaysTouches(Next(s, steps[0]), steps[1..], group))
  }

  /** Regenerating, switching, chatting and reading along one group's answers never shrinks the group. */
  lemma {:induction false} HistoryKeepsGroup(s: State, steps: seq<Step>, group: string)
    requires Inv(s) && CanRun(s, steps) && AlwaysTouches(s, steps, group)
    ensures GroupKept(s.table, Run(s, steps).table, group)
    decreases |steps|
  {
    hide Enabled, Next, StoredRow, FromSession, FlatRow, Touches, Flat, IsPromptOf;
    if steps == [] {
      assert forall id, a :: IsPromptOf(s.table, id, a) ==> id in s.table by { PromptsInTable(s.table); }
    } else {
      var t := Next(s, steps[0]);
      StepKeepsInv(s, steps[0]);
      StepKeepsGroup(s, steps[0], group);
      HistoryKeepsGroup(t, steps[1..], group);
      GroupKeptChains(s.table, t.table, Run(s, steps).table, group);
    }
  }

  lemma PromptsInTable(table: Table)
    ensures forall id, a :: IsPromptOf(table, id, a) ==> id in table
  {
  }

  lemma GroupKeptChains(a: Table, b: Table, c: Table, group: string)
    requires GroupKept(a, b, group) && GroupKept(b, c, group)
    ensures GroupKept(a, c, group)
  {
    forall id | InGroup(a, id, group) ensures id in c && Intact(a[id], c[id]) {
      assert InGroup(b, id, group);
    }
    forall id, x | InGroup(a, x, group) && IsPromptOf(a, id, x) ensures id in c {
      assert InGroup(b, x, group) && IsPromptOf(b, id, x);
    }
  }

  // ----- what a sync does not carry -----

  /** The answers of a group and the rows they hang from. */
  predicate WithGroup(table: Table, id: string, group: string) {
    InGroup(table, id, group) || exists a :: a in table && InGroup(table, a, group) && IsPromptOf(table, id, a)
  }

  lemma CarriedWithGroup(s: State, anchor: string, group: Option<string>, id: string)
    requires Inv(s) && anchor != "" && GroupOf(s.table, anchor, group) == anchor
    requires anchor in s.table ==> s.table[anchor].group == Some(anchor)
    ensures id in GroupRows(s.table, anchor, group) <==> WithGroup(s.table, id, anchor)
  {
    hide StoredRow, Flat, IsVariant, IsPromptOf, GroupOf, Inv, InGroup;
    forall x ensures IsVariant(s.table, x, anchor, anchor) <==> InGroup(s.table, x, anchor) {
      FlatVariants(s, anchor, x);
    }
    assert forall x, a :: IsPromptOf(s.table, x, a) ==> x in s.table && a in s.table by { PromptRowsInTable(s.table); }
    assert forall x, g :: InGroup(s.table, x, g) ==> x in s.table by { GroupInTable(s.table); }
  }

  lemma GroupInTable(table: Table)
    ensures forall x, g :: InGroup(table, x, g) ==> x in table
  {
  }

  /**
   * Off the branch, a regenerate's sync keeps exactly the regenerated group and the rows its answers hang from.
   * The siblings of every other answer on the branch are dropped.
   */
  lemma RegenerateKeepsExactly(s: State, step: Step, id: string)
    requires Inv(s) && Enabled(s, step) && step.Regenerate? && !OnBranch(step.branch, id)
    ensures id in Next(s, step).table <==> WithGroup(s.table, id, GroupOfRow(s.table, step.target))
  {
    hide BranchEntries, LastAssistant, Adjusted, NewAnswer, Inv, Synced, OnBranch, GroupRows, WithGroup, Append;
    var meta := MetaOf(s.table, step);
    var group := GroupOfRow(s.table, step.target);
    RegeneratedGroup(s, step);
    OffBranchRow(s.table, step.branch, step.model, meta, id);
    CarriedWithGroup(s, group, Some(group), id);
  }

  /** The group an answer on the branch stands in: its row's, or its own when it has no row. */
  function BranchGroup(table: Table, id: string): string {
    if id in table then GroupOfRow(table, id) else id
  }

  predicate IsAnswerOf(branch: seq<PiEntry>, p: PiEntry) {
    p in branch && p.Message? && p.role == Some(Assistant)
  }

  /** Off the branch, any other sync keeps exactly the groups of the branch's answers and the rows those hang from. */
  lemma SyncKeepsExactly(s: State, step: Step, id: string)
    requires Inv(s) && Enabled(s, step) && !step.Regenerate? && !OnBranch(step.branch, id)
    ensures id in Next(s, step).table
       <==> exists p :: IsAnswerOf(step.branch, p) && WithGroup(s.table, id, BranchGroup(s.table, p.id))
  {
    hide BranchEntries, LastAssistant, Adjusted, NewAnswer, Inv, Synced, OnBranch, GroupRows, WithGroup, AnchorOf,
         BranchEntry, BranchGroup, Append, GroupOf, WithAnswer, IsRunsAnswer;
    var meta := MetaOf(s.table, step);
    var adjusted := Adjusted(BranchEntries(step.branch, s.table, step.model), meta);
    OffBranchRow(s.table, step.branch, step.model, meta, id);
    if p :| IsAnswerOf(step.branch, p) && WithGroup(s.table, id, BranchGroup(s.table, p.id)) {
      var e := RowAfter(s.table, step.branch, step.model, meta, p);
      AnswerAnchor(s, step, p, e);
      CarriedWithGroup(s, AnchorOf(e), e.group, id);
      assert id in s.table by { WithGroupInTable(s.table, id, AnchorOf(e)); }
    }
    if id in CarriedRows(adjusted, s.table, meta) {
      var e :| e in adjusted && e.role == Some(Assistant) && id in GroupRows(s.table, AnchorOf(e), e.group);
      var p := BehindAdjusted(s.table, step.branch, step.model, meta, e);
      var f := RowAfter(s.table, step.branch, step.model, meta, p);
      SameEntry(s.table, step.branch, step.model, meta, e, f);
      AnswerAnchor(s, step, p, e);
      CarriedWithGroup(s, AnchorOf(e), e.group, id);
      assert IsAnswerOf(step.branch, p);
    }
  }

  lemma WithGroupInTable(table: Table, id: string, group: string)
    requires WithGroup(table, id, group)
    ensures id in table
  {
  }

  lemma AnswerAnchor(s: State, step: Step, p: PiEntry, e: Entry)
    requires Inv(s) && Enabled(s, step) && !step.Regenerate? && IsAnswerOf(step.branch, p)
    requires var b := BranchEntry(p, Lookup(s.table, p.id), step.model); var meta := MetaOf(s.table, step);
      if IsRunsAnswer(s.table, step.branch, step.model, meta, p.id)
      then b.role == Some(Assistant) && e == WithAnswer(b, meta.answer.value, meta)
      else e == b || (b.role == Some(User) && e == WithPrompt(b, meta))
    ensures var g := BranchGroup(s.table, p.id);
      && e.role == Some(Assistant) && AnchorOf(e) == g && g != "" && GroupOf(s.table, g, e.group) == g
      && (g in s.table ==> s.table[g].group == Some(g))
  {
    hide BranchEntries, LastAssistant, Trim, ThinkingFilter.StripLeadingThinkingEndTag, OwnPlaces, NewPlaces;
    var g := BranchGroup(s.table, p.id);
    if p.id in s.table {
      assert FlatRow(s.table, p.id) && FromSession(s.session, s.table, p.id) && StoredRow(s.table, p.id);
    }
    assert g in s.table ==> FlatRow(s.table, g);
  }

  lemma PromptRowsInTable(table: Table)
    ensures forall x, a :: IsPromptOf(table, x, a) ==> x in table && a in table
  {
  }

  lemma RegeneratedGroup(s: State, step: Step)
    requires Inv(s) && Enabled(s, step) && step.Regenerate?
    ensures var meta := MetaOf(s.table, step); var group := GroupOfRow(s.table, step.target);
      && meta.regenerates == Some(group) && meta.group == Some(group) && group != ""
      && (group in s.table ==> s.table[group].group == Some(group))
  {
    assert FlatRow(s.table, step.target) && FromSession(s.session, s.table, step.target)
      && StoredRow(s.table, step.target);
    var group := GroupOfRow(s.table, step.target);
    assert group in s.table ==> FlatRow(s.table, group);
  }

  function Plain(id: string, parent: string, role: Role): PiEntry {
    Message(id, Some(parent), Some(role), "text", "", 0)
  }

  function PlainRow(id: string, parent: string, role: Role, regenerates: Option<string>, group: string): Entry {
    Entry(id, Some(parent), "message", Some(role), "text", 0, NO_DETAILS, regenerates, Some(group))
  }

  lemma NewestIsTheAnswer(earlier: seq<PiEntry>, newest: PiEntry, table: Table, model: Model)
    requires newest.Message? && newest.role == Some(Assistant)
    ensures var entries := BranchEntries(earlier + [newest], table, model);
      |entries| > 0 && LastAssistant(entries) == |entries| - 1 && entries[|entries| - 1].id == newest.id
  {
    hide ThinkingFilter.StripLeadingThinkingEndTag;
    var branch := earlier + [newest];
    assert branch[..|branch| - 1] == earlier;
  }

  /** A prompt answered twice, then another prompt under the newer answer, answered once. */
  const TWO_PROMPTS := State(
    map["u1" := Plain("u1", "root", User), "a1" := Plain("a1", "u1", Assistant),
        "u2" := Plain("u2", "root", User), "a2" := Plain("a2", "u2", Assistant),
        "w" := Plain("w", "a2", User), "b" := Plain("b", "w", Assistant)],
    map["u1" := PlainRow("u1", "root", User, None, "u1"), "a1" := PlainRow("a1", "u1", Assistant, None, "a1"),
        "u2" := PlainRow("u2", "root", User, None, "u2"), "a2" := PlainRow("a2", "u2", Assistant, Some("a1"), "a1"),
        "w" := PlainRow("w", "a2", User, None, "w"), "b" := PlainRow("b", "w", Assistant, None, "b")])

  const NAMED_ANSWER := Answer("text",
    NO_DETAILS.(modelId := Some("m"), modelRuntimeId := Some("m"), modelAlias := Some("m")))

  const REPLAYED := [Plain("u2", "root", User), Plain("a2", "u2", Assistant), Plain("w2", "a2", User)]

  /** The second prompt's answer regenerated: its prompt is replayed and a new answer follows. */
  const SECOND_REGENERATED := Regenerate(
    TWO_PROMPTS.session["w2" := Plain("w2", "a2", User)]["n" := Plain("n", "w2", Assistant)],
    REPLAYED + [Plain("n", "w2", Assistant)], Model("m", "m", "m"), NAMED_ANSWER, "text", None, "b")

  lemma TwoPromptsStored()
    ensures StoredTable(TWO_PROMPTS.table)
  {
  }

  lemma TwoPromptsFlat()
    ensures Flat(TWO_PROMPTS.table)
  {
  }

  lemma TwoPromptsGrown()
    ensures Append(TWO_PROMPTS.session, TWO_PROMPTS.session)
  {
    hide NewPlaces;
    NothingNew(TWO_PROMPTS.session);
  }

  lemma TwoPromptsOwnPlaces()
    ensures OwnPlaces(TWO_PROMPTS.session)
  {
    var session := TWO_PROMPTS.session;
    assert forall id :: AnswerAt(session, id) ==> id == "a1" || id == "a2" || id == "b";
  }

  lemma TwoPromptsFromSession(id: string)
    requires id in TWO_PROMPTS.table
    ensures FromSession(TWO_PROMPTS.session, TWO_PROMPTS.table, id)
  {
  }

  lemma TwoPromptsInv()
    ensures Inv(TWO_PROMPTS)
  {
    hide StoredTable, Flat, Append, OwnPlaces, FromSession, TWO_PROMPTS;
    TwoPromptsStored();
    TwoPromptsFlat();
    TwoPromptsGrown();
    TwoPromptsOwnPlaces();
    forall id | id in TWO_PROMPTS.table ensures FromSession(TWO_PROMPTS.session, TWO_PROMPTS.table, id) {
      TwoPromptsFromSession(id);
    }
  }

  lemma FirstPromptApart()
    ensures var table := TWO_PROMPTS.table;
      && InGroup(table, "a1", "a1") && InGroup(table, "a2", "a1")
      && GroupOfRow(table, "b") == "b" && !WithGroup(table, "a1", "b")
  {
    var table := TWO_PROMPTS.table;
    assert forall a :: a in table && InGroup(table, a, "b") ==> a == "b";
  }

  lemma SecondRegeneratedAppends()
    ensures Append(TWO_PROMPTS.session, SECOND_REGENERATED.session)
  {
  }

  lemma SecondRegeneratedWalks()
    ensures var branch := SECOND_REGENERATED.branch;
      DistinctBranch(branch)
      && forall p :: p in branch ==> p.id in SECOND_REGENERATED.session && SECOND_REGENERATED.session[p.id] == p
  {
    var branch := SECOND_REGENERATED.branch;
    assert |branch| == 4 && branch[0].id == "u2" && branch[1].id == "a2" && branch[2].id == "w2" && branch[3].id == "n";
  }

  lemma SecondRegeneratedEnabled()
    ensures Enabled(TWO_PROMPTS, SECOND_REGENERATED)
  {
    hide BranchEntries, LastAssistant, Append, DistinctBranch;
    NewestIsTheAnswer(REPLAYED, Plain("n", "w2", Assistant), TWO_PROMPTS.table, SECOND_REGENERATED.model);
    SecondRegeneratedAppends();
    SecondRegeneratedWalks();
  }

  /** Regenerating the second answer drops the first prompt's older answer, though its sibling is on the branch. */
  lemma OtherGroupIsLost()
    ensures Inv(TWO_PROMPTS) && Enabled(TWO_PROMPTS, SECOND_REGENERATED)
    ensures OnBranch(SECOND_REGENERATED.branch, "a2")
    ensures InGroup(TWO_PROMPTS.table, "a1", "a1") && InGroup(TWO_PROMPTS.table, "a2", "a1")
    ensures "a1" !in Next(TWO_PROMPTS, SECOND_REGENERATED).table
  {
    hide Next, Enabled, Inv, InGroup, WithGroup, GroupOfRow;
    TwoPromptsInv();
    SecondRegeneratedEnabled();
    FirstPromptApart();
    OnlyReplayed();
    RegenerateKeepsExactly(TWO_PROMPTS, SECOND_REGENERATED, "a1");
  }

  lemma OnlyReplayed()
    ensures OnBranch(SECOND_REGENERATED.branch, "a2") && OnBranch(SECOND_REGENERATED.branch, "u2")
    ensures !OnBranch(SECOND_REGENERATED.branch, "a1")
  {
    var branch := SECOND_REGENERATED.branch;
    assert branch[0].id == "u2" && branch[0] in branch;
    assert branch[1].id == "a2" && branch[1] in branch;
    assert forall p :: p in branch ==> p.id != "a1";
  }
}
