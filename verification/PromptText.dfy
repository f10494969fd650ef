/** Onto which prompt of the branch a run's sync writes what the user typed and attached. */
module PromptText {
  import opened Text
  import opened Projection
  import opened ProjectionLaws
  import ThinkingFilter
  import VariantHistory

  // ----- the answer looked for, and the prompt it replied to -----

  predicate IsAnswer(e: Entry) {
    e.role == Some(Assistant)
  }

  predicate IsUsers(e: Entry) {
    e.role == Some(User)
  }

  /** An answer with the text the run streamed; any answer when it streamed none. */
  predicate Shows(e: Entry, content: string) {
    IsAnswer(e) && (content == "" || e.text == content)
  }

  ghost predicate NoneShows(entries: seq<Entry>, content: string) {
    forall j :: 0 <= j < |entries| ==> !Shows(entries[j], content)
  }

  /** The last answer that shows the content; when none does, the very first answer. */
  ghost predicate IsAnswerTaken(entries: seq<Entry>, content: string, a: int) {
    || (0 <= a < |entries| && Shows(entries[a], content)
        && forall j :: a < j < |entries| ==> !Shows(entries[j], content))
    || (NoneShows(entries, content) && 0 <= a < |entries| && IsAnswer(entries[a]) && NoAnswerBefore(entries, a))
    || (NoneShows(entries, content) && a == -1 && NoAnswerBefore(entries, |entries|))
  }

  ghost predicate NoAnswerBefore(entries: seq<Entry>, a: nat) {
    forall j :: 0 <= j < a && j < |entries| ==> !IsAnswer(entries[j])
  }

  /** The nearest user's row above `a`, or -1. */
  ghost predicate IsUserAbove(entries: seq<Entry>, a: nat, p: int) {
    && (-1 <= p < a && p < |entries|) && (p >= 0 ==> IsUsers(entries[p]))
    && forall j :: p < j < a && j < |entries| ==> !IsUsers(entries[j])
  }

  predicate HangsFrom(entries: seq<Entry>, a: nat, k: nat)
    requires a < |entries| && k < |entries|
  {
    Truthy(entries[a].parent) && entries[k].id == entries[a].parent.value
  }

  /** The user's row the answer hangs from; when it hangs from none, the nearest one above it. */
  ghost predicate IsPromptTaken(entries: seq<Entry>, a: int, p: int) {
    if a < 0 || a >= |entries| then p == -1
    else
      || (0 <= p < |entries| && HangsFrom(entries, a, p) && IsUsers(entries[p]))
      || ((forall k :: 0 <= k < |entries| && HangsFrom(entries, a, k) ==> !IsUsers(entries[k]))
          && IsUserAbove(entries, a, p))
  }

  lemma {:induction false} AnswerTaken(entries: seq<Entry>, content: string, found: int)
    requires found == -1 || found >= 0
    ensures var a := AnswerIndex(entries, content, found);
      if NoneShows(entries, content) then
        (NoAnswerBefore(entries, |entries|) && a == found)
        || (0 <= a < |entries| && IsAnswer(entries[a]) && NoAnswerBefore(entries, a))
      else
        && 0 <= a < |entries| && Shows(entries[a], content)
        && forall j :: a < j < |entries| ==> !Shows(entries[j], content)
    decreases |entries|
  {
    if entries != [] {
      var n := |entries| - 1;
      assert forall j :: 0 <= j < n ==> entries[..n][j] == entries[j];
      if !IsAnswer(entries[n]) {
        AnswerTaken(entries[..n], content, found);
        assert NoneShows(entries, content) <==> NoneShows(entries[..n], content);
      } else if !Shows(entries[n], content) {
        AnswerTaken(entries[..n], content, n);
        assert NoneShows(entries, content) <==> NoneShows(entries[..n], content);
      }
    }
  }

  lemma {:induction false} UserAbove(entries: seq<Entry>, end: nat)
    requires end <= |entries|
    ensures IsUserAbove(entries, end, UserBefore(entries, end))
  {
    if end > 0 && !IsUsers(entries[end - 1]) {
      UserAbove(entries, end - 1);
    }
  }

  /** The search finds the prompt described, and that description leaves no choice. */
  lemma PromptIs(entries: seq<Entry>, content: string, p: int)
    requires DistinctIds(entries)
    ensures PromptIndex(entries, content) == p
      <==> exists a :: IsAnswerTaken(entries, content, a) && IsPromptTaken(entries, a, p)
  {
    hide IsAnswerTaken, IsPromptTaken, AnswerIndex;
    var a := TheAnswer(entries, content);
    PromptOfAnswer(entries, content, a);
    forall b | IsAnswerTaken(entries, content, b) ensures b == a {
      OneAnswerTaken(entries, content, a, b);
    }
    forall q | IsPromptTaken(entries, a, q) ensures q == PromptIndex(entries, content) {
      OnePromptTaken(entries, a, PromptIndex(entries, content), q);
    }
  }

  lemma TheAnswer(entries: seq<Entry>, content: string) returns (a: int)
    ensures IsAnswerTaken(entries, content, a) && a == AnswerIndex(entries, content, -1)
  {
    hide AnswerIndex;
    a := AnswerIndex(entries, content, -1);
    AnswerTaken(entries, content, -1);
  }

  lemma OneAnswerTaken(entries: seq<Entry>, content: string, a: int, b: int)
    requires IsAnswerTaken(entries, content, a) && IsAnswerTaken(entries, content, b)
    ensures a == b
  {
    hide Shows, IsAnswer;
  }

  lemma PromptOfAnswer(entries: seq<Entry>, content: string, a: int)
    requires DistinctIds(entries) && a == AnswerIndex(entries, content, -1)
    ensures IsPromptTaken(entries, a, PromptIndex(entries, content))
  {
    hide AnswerIndex, UserBefore, IsUserAbove;
    if a >= 0 {
      UserAbove(entries, a);
      var parent := entries[a].parent;
      if Truthy(parent) {
        FoundById(entries, parent.value);
      }
    }
  }

  lemma FoundById(entries: seq<Entry>, id: string)
    requires DistinctIds(entries)
    ensures forall k :: 0 <= k < |entries| && entries[k].id == id ==> IndexOfId(entries, id) == k
  {
  }

  lemma OnePromptTaken(entries: seq<Entry>, a: int, p: int, q: int)
    requires DistinctIds(entries) && IsPromptTaken(entries, a, p) && IsPromptTaken(entries, a, q)
    ensures p == q
  {
    hide IsUsers, Truthy;
  }

  // ----- the rows after the sync -----

  /** The two lists differ in nothing the search looks at. */
  predicate LookAlike(a: seq<Entry>, b: seq<Entry>) {
    |a| == |b| && forall i :: 0 <= i < |a| ==>
      a[i].id == b[i].id && a[i].role == b[i].role && a[i].text == b[i].text && a[i].parent == b[i].parent
  }

  lemma SamePrompt(a: seq<Entry>, b: seq<Entry>, content: string)
    requires LookAlike(a, b) && DistinctIds(a) && DistinctIds(b)
    ensures PromptIndex(a, content) == PromptIndex(b, content)
  {
    hide PromptIndex, AnswerIndex, IsAnswerTaken, IsPromptTaken;
    var x := TheAnswer(a, content);
    SameAnswerTaken(a, b, content, x);
    PromptOfAnswer(a, content, x);
    SamePromptTaken(a, b, x, PromptIndex(a, content));
    PromptIs(b, content, PromptIndex(a, content));
  }

  lemma SameAnswerTaken(a: seq<Entry>, b: seq<Entry>, content: string, x: int)
    requires LookAlike(a, b) && IsAnswerTaken(a, content, x)
    ensures IsAnswerTaken(b, content, x)
  {
    assert forall j :: 0 <= j < |a| ==>
      (Shows(a[j], content) <==> Shows(b[j], content)) && (IsAnswer(a[j]) <==> IsAnswer(b[j]));
    hide Shows, IsAnswer;
  }

  lemma SamePromptTaken(a: seq<Entry>, b: seq<Entry>, x: int, p: int)
    requires LookAlike(a, b) && IsPromptTaken(a, x, p)
    ensures IsPromptTaken(b, x, p)
  {
    assert forall j :: 0 <= j < |a| ==> (IsUsers(a[j]) <==> IsUsers(b[j]));
    assert 0 <= x < |a| ==> forall k :: 0 <= k < |a| ==> (HangsFrom(a, x, k) <==> HangsFrom(b, x, k));
    hide HangsFrom, IsUsers;
  }

  /** The row the run's sync takes for its prompt. */
  ghost predicate IsRunsPrompt(entries: seq<Entry>, meta: Metadata, id: string) {
    && meta.answer.Some?
    && exists a, k :: 0 <= k < |entries| && entries[k].id == id
                      && IsAnswerTaken(entries, meta.answer.value.content, a) && IsPromptTaken(entries, a, k)
  }

  lemma AdjustedUser(entries: seq<Entry>, meta: Metadata, i: nat)
    requires DistinctIds(entries) && i < |entries| && IsUsers(entries[i])
    ensures Adjusted(entries, meta)[i]
         == if IsRunsPrompt(entries, meta, entries[i].id) then WithPrompt(entries[i], meta) else entries[i]
  {
    hide PromptIndex, AnswerIndex, IsAnswerTaken, IsPromptTaken, WithPrompt;
    var last := LastAssistant(entries);
    if meta.answer.Some? {
      var content := meta.answer.value.content;
      PromptIs(entries, content, i);
      assert IsRunsPrompt(entries, meta, entries[i].id) <==> PromptIndex(entries, content) == i;
      if last >= 0 {
        var answered := entries[last := WithAnswer(entries[last], meta.answer.value, meta)];
        SamePrompt(entries, answered, content);
      } else {
        NoAnswerNoPrompt(entries, content);
      }
    }
  }

  lemma NoAnswerNoPrompt(entries: seq<Entry>, content: string)
    requires LastAssistant(entries) < 0
    ensures PromptIndex(entries, content) == -1
  {
    AnswerTaken(entries, content, -1);
  }

  /** What a user's row holds before the run's own facts reach it: what is stored, or Pi's text when it is new. */
  function KeptText(p: PiEntry, table: Table): string
    requires p.Message?
  {
    if p.id in table then table[p.id].text else p.text
  }

  function KeptAttachments(p: PiEntry, table: Table): Option<string> {
    if p.id in table then table[p.id].details.attachments else None
  }

  /** A run's sync writes the typed text and the attachments onto one prompt and leaves every other as it was. */
  lemma PromptRow(table: Table, branch: seq<PiEntry>, model: Model, meta: Metadata, p: PiEntry)
    requires DistinctBranch(branch) && p in branch && p.Message? && p.role == Some(User)
    ensures p.id in Synced(table, branch, model, meta)
    ensures var row := Synced(table, branch, model, meta)[p.id];
      var taken := IsRunsPrompt(BranchEntries(branch, table, model), meta, p.id);
      && row.role == Some(User)
      && row.text == (if taken then OrElse(meta.promptText, Some(KeptText(p, table))).value else KeptText(p, table))
      && row.details.attachments
         == (if taken then OrElse(meta.attachments, KeptAttachments(p, table)) else KeptAttachments(p, table))
  {
    hide BranchEntries, Synced, Adjusted, Trim, IsRunsPrompt, ThinkingFilter.StripLeadingThinkingEndTag, Ids;
    var entries := BranchEntries(branch, table, model);
    var adjusted := Adjusted(entries, meta);
    var i := IndexOnBranch(table, branch, model, p);
    BranchIdsDistinct(branch, table, model);
    AdjustedDistinct(entries, meta);
    AdjustedUser(entries, meta, i);
    var e := RowAfter(table, branch, model, meta, p);
    assert e == adjusted[i] by {
      assert adjusted[i] in adjusted;
      SameEntry(table, branch, model, meta, e, adjusted[i]);
    }
  }

  /** An answer's row shows Pi's text without a stray end tag; the run's own carries what the run measured. */
  lemma AnswerRow(table: Table, branch: seq<PiEntry>, model: Model, meta: Metadata, p: PiEntry)
    requires DistinctBranch(branch) && p in branch && p.Message? && p.role == Some(Assistant)
    ensures p.id in Synced(table, branch, model, meta)
    ensures var row := Synced(table, branch, model, meta)[p.id];
      && row.text == ThinkingFilter.StripLeadingThinkingEndTag(p.text)
      && (IsRunsAnswer(table, branch, model, meta, p.id) ==>
            && row.details.modelId == meta.answer.value.details.modelId
            && row.details.modelRuntimeId == meta.answer.value.details.modelRuntimeId
            && row.details.modelAlias == meta.answer.value.details.modelAlias
            && (meta.answer.value.details.performance.Some? ==>
                  row.details.performance == meta.answer.value.details.performance)
            && (meta.answer.value.details.toolCalls.Some? ==>
                  row.details.toolCalls == meta.answer.value.details.toolCalls))
  {
    hide BranchEntries, Synced, Adjusted, Trim, ThinkingFilter.StripLeadingThinkingEndTag, Ids, LastAssistant;
    var e := RowAfter(table, branch, model, meta, p);
  }

  function KeptDetails(p: PiEntry, table: Table): Details
    requires !p.Other?
  {
    if p.Message? && p.id in table then table[p.id].details else NO_DETAILS
  }

  /** Where a row of the branch stands, who speaks in it and when; a compaction's row shows its summary. */
  lemma BranchRow(table: Table, branch: seq<PiEntry>, model: Model, meta: Metadata, p: PiEntry)
    requires DistinctBranch(branch) && p in branch && !p.Other?
    ensures p.id in Synced(table, branch, model, meta)
    ensures var row := Synced(table, branch, model, meta)[p.id];
      && row.id == p.id && row.parent == p.parent && row.createdAt == p.timestamp
      && row.role == (if p.Message? then p.role else None)
      && row.entryType == (if p.Message? then "message" else "compaction")
      && (p.Compaction? ==> row.text == p.summary && row.group == Some(p.id))
      && (p.Message? && p.role != Some(User) && p.role != Some(Assistant) ==> row.text == p.text)
  {
    hide BranchEntries, Synced, Adjusted, Trim, ThinkingFilter.StripLeadingThinkingEndTag, Ids, LastAssistant;
    var e := RowAfter(table, branch, model, meta, p);
  }

  /** Only answers name a model: the one that wrote them, or the active one when none is stored. */
  lemma ModelRow(table: Table, branch: seq<PiEntry>, model: Model, meta: Metadata, p: PiEntry)
    requires DistinctBranch(branch) && p in branch && p.Message?
    ensures p.id in Synced(table, branch, model, meta)
    ensures var row, kept := Synced(table, branch, model, meta)[p.id], KeptDetails(p, table);
      && (p.role != Some(Assistant) ==> row.details.modelId.None? && row.details.modelAlias.None?)
      && (p.role == Some(Assistant) && !IsRunsAnswer(table, branch, model, meta, p.id) ==>
            && row.details.modelId == OrElse(kept.modelId, Some(model.id))
            && row.details.modelRuntimeId == OrElse(kept.modelRuntimeId, Some(model.runtimeId))
            && row.details.modelAlias == OrElse(kept.modelAlias, Some(model.name)))
      && (p.thinking != "" && Trim(p.thinking) != "" ==> row.details.reasoning == Some(p.thinking))
      && (p.thinking == "" && kept.reasoning.Some? && Trim(kept.reasoning.value) != "" ==>
            row.details.reasoning == kept.reasoning)
  {
    hide BranchEntries, Synced, Adjusted, Trim, ThinkingFilter.StripLeadingThinkingEndTag, Ids, LastAssistant;
    var e := RowAfter(table, branch, model, meta, p);
  }

  // ----- when that prompt is the run's own -----

  /** On a path an entry hangs from the one right above it, if from any of the list. */
  ghost predicate OnPath(entries: seq<Entry>) {
    forall a, k :: 0 <= a < |entries| && 0 <= k < |entries| && HangsFrom(entries, a, k) ==> k == a - 1
  }

  /** The prompt of the latest turn: the nearest user's row above the last answer. */
  ghost predicate IsOwnPrompt(entries: seq<Entry>, u: nat) {
    LastAssistant(entries) >= 0 && IsUserAbove(entries, LastAssistant(entries), u)
  }

  /** The turn shows the streamed text in one answer, or nothing shows it and the conversation has only this turn. */
  ghost predicate TurnIsFound(entries: seq<Entry>, content: string, u: nat) {
    || content == ""
    || (exists j :: u < j < |entries| && Shows(entries[j], content))
    || (NoneShows(entries, content) && NoAnswerBefore(entries, u))
  }

  lemma TurnOfAnswer(entries: seq<Entry>, content: string, u: nat, a: int)
    requires IsOwnPrompt(entries, u) && IsAnswerTaken(entries, content, a)
    ensures 0 <= a <= LastAssistant(entries) && a != u
    ensures a > u <==> TurnIsFound(entries, content, u)
  {
    var last := LastAssistant(entries);
    assert IsAnswer(entries[last]) && IsUsers(entries[u]) && u < last;
    if content == "" {
      assert Shows(entries[last], content);
    }
  }

  /** The run's text goes to its own prompt exactly when its turn is found. */
  lemma OwnPromptIff(entries: seq<Entry>, content: string, u: nat)
    requires DistinctIds(entries) && OnPath(entries) && IsOwnPrompt(entries, u)
    ensures PromptIndex(entries, content) == u <==> TurnIsFound(entries, content, u)
  {
    hide PromptIndex, AnswerIndex, IsAnswerTaken, IsPromptTaken, TurnIsFound, LastAssistant;
    var a := TheAnswer(entries, content);
    TurnOfAnswer(entries, content, u, a);
    PromptOfAnswer(entries, content, a);
    NearestAbove(entries, a, u, PromptIndex(entries, content));
  }

  lemma NearestAbove(entries: seq<Entry>, a: nat, u: nat, p: int)
    requires OnPath(entries) && IsOwnPrompt(entries, u) && a <= LastAssistant(entries) && a != u
    requires IsPromptTaken(entries, a, p)
    ensures p < a && (a > u ==> p == u)
  {
    hide HangsFrom, IsUsers, LastAssistant;
  }

  /** In the table: the latest prompt takes what was typed exactly when its turn is found, else keeps what it had. */
  lemma OwnPromptRow(table: Table, branch: seq<PiEntry>, model: Model, meta: Metadata, p: PiEntry, u: nat)
    requires DistinctBranch(branch) && p in branch && p.Message? && p.role == Some(User) && meta.answer.Some?
    requires var entries := BranchEntries(branch, table, model);
      OnPath(entries) && u < |entries| && entries[u].id == p.id && IsOwnPrompt(entries, u)
    ensures p.id in Synced(table, branch, model, meta)
    ensures var row := Synced(table, branch, model, meta)[p.id];
      var found := TurnIsFound(BranchEntries(branch, table, model), meta.answer.value.content, u);
      && row.text == (if found then OrElse(meta.promptText, Some(KeptText(p, table))).value else KeptText(p, table))
      && row.details.attachments
         == (if found then OrElse(meta.attachments, KeptAttachments(p, table)) else KeptAttachments(p, table))
  {
    hide BranchEntries, Synced, PromptIndex, IsAnswerTaken, IsPromptTaken, TurnIsFound, OnPath, IsOwnPrompt;
    var entries := BranchEntries(branch, table, model);
    var content := meta.answer.value.content;
    BranchIdsDistinct(branch, table, model);
    PromptRow(table, branch, model, meta, p);
    OwnPromptIff(entries, content, u);
    PromptIs(entries, content, u);
    assert IsRunsPrompt(entries, meta, p.id) <==> PromptIndex(entries, content) == u;
  }

  /** In a history: after a chat or a regeneration whose turn is found, its prompt holds what was typed and attached. */
  lemma TypedPromptIsStored(s: VariantHistory.State, step: VariantHistory.Step, p: PiEntry, u: nat)
    requires VariantHistory.Enabled(s, step) && !step.Snapshot?
    requires p in step.branch && p.Message? && p.role == Some(User)
    requires var entries := BranchEntries(step.branch, s.table, step.model);
      && OnPath(entries) && u < |entries| && entries[u].id == p.id && IsOwnPrompt(entries, u)
      && TurnIsFound(entries, step.answer.content, u)
    ensures p.id in VariantHistory.Next(s, step).table
    ensures var row := VariantHistory.Next(s, step).table[p.id];
      row.text == step.prompt && (step.attachments.Some? ==> row.details.attachments == step.attachments)
  {
    hide BranchEntries, Synced, OnPath, IsOwnPrompt, TurnIsFound;
    OwnPromptRow(s.table, step.branch, step.model, VariantHistory.MetaOf(s.table, step), p, u);
  }

  // ----- a second prompt that overwrites the first -----

  function Said(id: string, parent: string, role: Role, text: string): PiEntry {
    Message(id, Some(parent), Some(role), text, "", 0)
  }

  /** Two turns; in the second the model speaks once before its tool call and once after it. */
  const TWO_TURNS := [Said("u1", "root", User, "first"), Said("a1", "u1", Assistant, "one"),
                      Said("u2", "a1", User, "second and its files"), Said("t", "u2", Assistant, "looking"),
                      Said("a2", "t", Assistant, "found")]

  const M := Model("m", "m", "m")

  /** The run streamed both texts as one answer. */
  const SECOND_RUN := Metadata(Some(Answer("lookingfound", NO_DETAILS)), None, None, Some("second"), None)

  lemma {:induction false} FiveEntries()
    ensures var entries := BranchEntries(TWO_TURNS, map[], M);
      |entries| == 5 && forall i :: 0 <= i < 5 ==> entries[i] == BranchEntry(TWO_TURNS[i], None, M)
  {
    hide BranchEntry;
    var b := TWO_TURNS;
    assert b[..5] == b;
    forall i | 0 <= i < 5 ensures BranchEntries(b[..i + 1], map[], M)
      == BranchEntries(b[..i], map[], M) + [BranchEntry(b[i], None, M)]
    {
      assert b[..i + 1][..i] == b[..i];
    }
    assert BranchEntries(b[..0], map[], M) == [];
  }

  lemma PlainTextStays(s: string)
    requires s != "" && !IsSpace(s[0]) && s[0] != '<'
    ensures ThinkingFilter.StripLeadingThinkingEndTag(s) == s
  {
    hide ThinkingFilter.LeadingTag, ThinkingFilter.IsTag;
    ThinkingFilter.TagLengths();
    assert TrimStart(s) == s;
  }

  lemma TwoTurnsShow()
    ensures var entries := BranchEntries(TWO_TURNS, map[], M);
      && |entries| == 5
      && entries[0].id == "u1" && IsUsers(entries[0]) && entries[2].id == "u2" && IsUsers(entries[2])
      && IsAnswer(entries[1]) && entries[1].parent == Some("u1")
      && NoneShows(entries, "lookingfound") && NoAnswerBefore(entries, 1)
  {
    hide ThinkingFilter.StripLeadingThinkingEndTag, BranchEntries;
    FiveEntries();
    var entries := BranchEntries(TWO_TURNS, map[], M);
    PlainTextStays("one");
    PlainTextStays("looking");
    PlainTextStays("found");
    assert entries[0] == BranchEntry(TWO_TURNS[0], None, M) && entries[1] == BranchEntry(TWO_TURNS[1], None, M);
    assert entries[2] == BranchEntry(TWO_TURNS[2], None, M) && entries[3] == BranchEntry(TWO_TURNS[3], None, M);
    assert entries[4] == BranchEntry(TWO_TURNS[4], None, M);
  }

  lemma TwoTurnsDistinct()
    ensures DistinctBranch(TWO_TURNS) && TWO_TURNS[0] in TWO_TURNS && TWO_TURNS[2] in TWO_TURNS
  {
  }

  /** What was typed second is written onto the first prompt, and the second keeps Pi's text. */
  lemma FirstPromptOverwritten()
    ensures var t := Synced(map[], TWO_TURNS, M, SECOND_RUN);
      && "u1" in t && t["u1"].text == "second"
      && "u2" in t && t["u2"].text == "second and its files"
  {
    hide BranchEntries, Synced, IsAnswerTaken, IsPromptTaken, IsRunsPrompt, DistinctIds, PromptIndex;
    var entries := BranchEntries(TWO_TURNS, map[], M);
    TwoTurnsShow();
    TwoTurnsDistinct();
    BranchIdsDistinct(TWO_TURNS, map[], M);
    assert IsAnswerTaken(entries, "lookingfound", 1) by { FirstAnswerTaken(entries, "lookingfound", 1); }
    assert IsPromptTaken(entries, 1, 0) by { ParentTaken(entries, 1, 0); }
    PromptIs(entries, "lookingfound", 0);
    PromptIs(entries, "lookingfound", 2);
    assert IsRunsPrompt(entries, SECOND_RUN, "u1") && !IsRunsPrompt(entries, SECOND_RUN, "u2") by {
      OnlyOne(entries, 0, 2, "u1", "u2");
    }
    PromptRow(map[], TWO_TURNS, M, SECOND_RUN, TWO_TURNS[0]);
    PromptRow(map[], TWO_TURNS, M, SECOND_RUN, TWO_TURNS[2]);
  }

  lemma FirstAnswerTaken(entries: seq<Entry>, content: string, a: nat)
    requires a < |entries| && NoneShows(entries, content) && IsAnswer(entries[a]) && NoAnswerBefore(entries, a)
    ensures IsAnswerTaken(entries, content, a)
  {
  }

  lemma ParentTaken(entries: seq<Entry>, a: nat, p: nat)
    requires a < |entries| && p < |entries| && entries[p].id != "" && entries[a].parent == Some(entries[p].id)
    requires IsUsers(entries[p])
    ensures IsPromptTaken(entries, a, p)
  {
  }

  lemma OnlyOne(entries: seq<Entry>, p: nat, q: nat, id: string, other: string)
    requires DistinctIds(entries) && p < |entries| && q < |entries| && entries[p].id == id && entries[q].id == other
    requires PromptIndex(entries, SECOND_RUN.answer.value.content) == p != q
    ensures IsRunsPrompt(entries, SECOND_RUN, id) && !IsRunsPrompt(entries, SECOND_RUN, other)
  {
    hide PromptIndex, IsAnswerTaken, IsPromptTaken;
    PromptIs(entries, SECOND_RUN.answer.value.content, p);
    PromptIs(entries, SECOND_RUN.answer.value.content, q);
  }
}
