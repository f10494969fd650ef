/** The rendered prompts of a conversation with variants, over any history of its rows. */
module VariantRendering {
  import opened Text
  import opened Projection
  import opened VariantHistory
  import ProjectionLaws
  import Messages

  /** A user message some answer of the table hangs from. */
  predicate Prompts(s: State, u: Entry, answer: string) {
    && answer in s.table && s.table[answer].role == Some(Assistant) && s.table[answer].parent == Some(u.id)
    && u.id in s.table && s.table[u.id] == u && u.role == Some(User)
  }

  lemma RowsAreMessages(s: State, id: string)
    requires Inv(s) && id in s.table && s.table[id].role.Some?
    ensures Messages.IsMessage(s.table[id]) && s.table[id].id == id && s.table[id].group.Some?
  {
    hide OwnPlaces, NewPlaces, Flat;
    assert FromSession(s.session, s.table, id) && StoredRow(s.table, id);
  }

  lemma AnswerOfGroup(s: State, id: string)
    requires Inv(s) && id in s.table && s.table[id].role == Some(Assistant)
    ensures Messages.IsAnswer(s.table[id], GroupOfRow(s.table, id)) && AnswerAt(s.session, id)
    ensures Truthy(s.table[id].regenerates) <==> GroupOfRow(s.table, id) != id
    ensures var g := GroupOfRow(s.table, id); g in s.table ==> GroupOfRow(s.table, g) == g
    ensures var g := GroupOfRow(s.table, id); g in s.table && Truthy(s.table[id].regenerates) ==>
      !Truthy(s.table[g].regenerates)
  {
    hide OwnPlaces, NewPlaces;
    RowsAreMessages(s, id);
    assert FromSession(s.session, s.table, id) && StoredRow(s.table, id) && FlatRow(s.table, id);
    var g := GroupOfRow(s.table, id);
    assert g in s.table ==> FlatRow(s.table, g);
  }

  /** The row a group is named after is its first answer. */
  lemma GroupFounded(s: State, id: string)
    requires Inv(s) && id in s.table && s.table[id].role == Some(Assistant) && GroupOfRow(s.table, id) in s.table
    ensures var g := GroupOfRow(s.table, id); InGroup(s.table, g, g)
  {
    hide OwnPlaces, NewPlaces, Flat;
    var g := GroupOfRow(s.table, id);
    assert FromSession(s.session, s.table, id) && StoredRow(s.table, id)
      && FlatRow(s.table, id) by { RowsAreFlat(s, id); }
    assert FromSession(s.session, s.table, g) && StoredRow(s.table, g) && FlatRow(s.table, g) by { RowsAreFlat(s, g); }
  }

  lemma RowsAreFlat(s: State, id: string)
    requires Inv(s) && id in s.table
    ensures FromSession(s.session, s.table, id) && StoredRow(s.table, id) && FlatRow(s.table, id)
  {
  }

  /** Two answers never hang from one prompt. */
  lemma OnePromptOneAnswer(s: State, a: string, b: string)
    requires Inv(s) && a in s.table && b in s.table
    requires s.table[a].role == Some(Assistant) && s.table[b].role == Some(Assistant)
    requires s.table[a].parent == s.table[b].parent
    ensures a == b
  {
    hide NewPlaces, Flat;
    AnswerOfGroup(s, a);
    AnswerOfGroup(s, b);
    assert FromSession(s.session, s.table, a) && FromSession(s.session, s.table, b);
  }

  lemma Read(entries: seq<Entry>, table: Table, id: string)
    requires IsReading(entries, table) && id in table
    ensures table[id] in entries
  {
    var i :| 0 <= i < |entries| && entries[i].id == id;
    assert entries[i] in entries;
  }

  /** The rows meet what rendering asks of a group, whenever the group's first answer is among them. */
  lemma GroupsAreFlat(s: State, entries: seq<Entry>, group: string)
    requires Inv(s) && IsReading(entries, s.table) && InGroup(s.table, group, group)
    ensures Messages.FlatGroup(entries, group, s.table[group])
  {
    hide Inv, IsReading, Truthy, GroupOfRow, Messages.IsAnswer;
    var founder := s.table[group];
    Read(entries, s.table, group);
    AnswerOfGroup(s, group);
    assert GroupOfRow(s.table, group) == group by { GroupedUnderItself(s.table, group); }
    forall a | a in entries && Messages.IsMessage(a) && a.role == Some(Assistant)
      ensures Messages.IsAnswer(a, group) && a != founder ==> Truthy(a.regenerates)
      ensures Truthy(a.regenerates) ==> a.parent != founder.parent
    {
      InTable(entries, s.table, a);
      AnswerOfGroup(s, a.id);
      if Messages.IsAnswer(a, group) {
        GroupOfAnswer(s, a, group);
      }
      if a.parent == founder.parent {
        OnePromptOneAnswer(s, a.id, group);
      }
    }
    assert forall a :: Messages.IsAnswer(a, group) ==> Messages.IsMessage(a) && a.role == Some(Assistant) by {
      AnswersAreMessages(group);
    }
  }

  lemma AnswersAreMessages(group: string)
    ensures forall a :: Messages.IsAnswer(a, group) ==> Messages.IsMessage(a) && a.role == Some(Assistant)
  {
  }

  lemma GroupedUnderItself(table: Table, group: string)
    requires InGroup(table, group, group)
    ensures GroupOfRow(table, group) == group
  {
  }

  lemma InTable(entries: seq<Entry>, table: Table, a: Entry)
    requires IsReading(entries, table) && a in entries
    ensures a.id in table && table[a.id] == a && a.group.Some?
  {
  }

  lemma GroupOfAnswer(s: State, a: Entry, group: string)
    requires a.id in s.table && s.table[a.id] == a && a.group.Some? && Messages.IsAnswer(a, group)
    ensures GroupOfRow(s.table, a.id) == group
  {
  }

  /**
   * After any history, the prompt of an answer is drawn exactly when the group's first answer is still stored
   * and hangs from that prompt.
   */
  lemma PromptDrawnIff(s: State, steps: seq<Step>, entries: seq<Entry>, attachments: seq<Messages.Attachment>,
                       calls: Option<string> -> nat, u: Entry, answer: string)
    requires Inv(s) && CanRun(s, steps)
    requires var t := Run(s, steps); IsReading(entries, t.table) && Prompts(t, u, answer)
    ensures var t := Run(s, steps); var all := Messages.AllMessages(entries, attachments);
      var g := GroupOfRow(t.table, answer);
      Messages.IsMessage(u)
      && (Messages.Render(u, attachments) in Messages.Visible(all, all, calls)
          <==> g in t.table && t.table[g].parent == Some(u.id))
  {
    hide CanRun, Run, Inv, IsReading;
    RunStaysFlat(s, steps);
    PromptDrawnNow(Run(s, steps), entries, attachments, calls, u, answer);
  }

  lemma PromptDrawnNow(t: State, entries: seq<Entry>, attachments: seq<Messages.Attachment>,
                       calls: Option<string> -> nat, u: Entry, answer: string)
    requires Inv(t) && IsReading(entries, t.table) && Prompts(t, u, answer)
    ensures var all := Messages.AllMessages(entries, attachments); var g := GroupOfRow(t.table, answer);
      Messages.IsMessage(u)
      && (Messages.Render(u, attachments) in Messages.Visible(all, all, calls)
          <==> g in t.table && t.table[g].parent == Some(u.id))
  {
    hide Inv, IsReading, Truthy, GroupOfRow, Messages.IsAnswer, Messages.Visible, Messages.AllMessages, Messages.Render,
         Messages.FlatGroup;
    var g, a := GroupOfRow(t.table, answer), t.table[answer];
    RowsAreMessages(t, u.id);
    AnswerOfGroup(t, answer);
    Read(entries, t.table, answer);
    Read(entries, t.table, u.id);
    if g in t.table {
      GroupFounded(t, answer);
      GroupsAreFlat(t, entries, g);
      Messages.PromptShownOnce(entries, attachments, calls, g, t.table[g], u);
    } else {
      RowsAreMessages(t, answer);
      Messages.DrawnIff(entries, attachments, calls, u);
    }
  }

  /** The conversation that lost its first answer: the other one stays on the active path without its prompt. */
  lemma ReplyLosesItsPrompt(entries: seq<Entry>, attachments: seq<Messages.Attachment>, calls: Option<string> -> nat)
    requires Enabled(TWO_PROMPTS, SECOND_REGENERATED)
    requires IsReading(entries, Next(TWO_PROMPTS, SECOND_REGENERATED).table)
    ensures var t := Next(TWO_PROMPTS, SECOND_REGENERATED); var all := Messages.AllMessages(entries, attachments);
      && "u2" in t.table && "a2" in t.table && Prompts(t, t.table["u2"], "a2")
      && Messages.IsMessage(t.table["u2"])
      && Messages.Render(t.table["u2"], attachments) !in Messages.Visible(all, all, calls)
  {
    hide Next, Enabled, Inv, IsReading, TWO_PROMPTS, SECOND_REGENERATED, ProjectionLaws.OnBranch;
    OtherGroupIsLost();
    var t := Next(TWO_PROMPTS, SECOND_REGENERATED);
    StepKeepsInv(TWO_PROMPTS, SECOND_REGENERATED);
    ReplayedRows();
    PromptDrawnNow(t, entries, attachments, calls, t.table["u2"], "a2");
  }

  lemma ReplayedRows()
    requires Enabled(TWO_PROMPTS, SECOND_REGENERATED)
    ensures var t := Next(TWO_PROMPTS, SECOND_REGENERATED);
      "u2" in t.table && "a2" in t.table && Prompts(t, t.table["u2"], "a2") && GroupOfRow(t.table, "a2") == "a1"
  {
    hide Next, Enabled, Inv, Answers, ProjectionLaws.OnBranch;
    OtherGroupIsLost();
    OnlyReplayed();
    WalkedStay(TWO_PROMPTS, SECOND_REGENERATED, "u2");
    WalkedStay(TWO_PROMPTS, SECOND_REGENERATED, "a2");
    PlaceAfter(TWO_PROMPTS, SECOND_REGENERATED, "u2");
    PlaceAfter(TWO_PROMPTS, SECOND_REGENERATED, "a2");
  }

  lemma WalkedStay(s: State, step: Step, id: string)
    requires Enabled(s, step) && ProjectionLaws.OnBranch(step.branch, id)
    ensures id in Next(s, step).table
  {
    hide ProjectionLaws.Synced, Append;
    var p :| p in step.branch && !p.Other? && p.id == id;
    var e := ProjectionLaws.RowAfter(s.table, step.branch, step.model, MetaOf(s.table, step), p);
  }
}
