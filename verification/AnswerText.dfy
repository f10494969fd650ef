/**
 * The text a chat's client is sent: the filtered answer, whole and in order however the run ends, and exactly
 * when some of it arrives behind the run's own verdict.
 */
module AnswerText {
  import opened Text
  import opened RunProtocol
  import ThinkingFilter

  /** The shown text of a trace. */
  function Texts(queue: seq<Event>): string {
    if queue == [] then ""
    else
      var e := queue[|queue| - 1];
      Texts(queue[..|queue| - 1]) + if e.Delta? then e.text else ""
  }

  /** The deltas the model streamed. */
  function Deltas(steps: seq<Step>): seq<string> {
    if steps == [] then []
    else (if steps[0].Streamed? then [steps[0].delta] else []) + Deltas(steps[1..])
  }

  /** Some text is queued behind the run's own verdict. */
  predicate TextAfterVerdict(queue: seq<Event>) {
    exists i, j :: 0 <= i < j < |queue| && queue[i].Completed? && queue[i].run == Main && queue[j].Delta?
  }

  // ----- traces -----

  lemma {:induction false} TextsAppend(a: seq<Event>, b: seq<Event>)
    ensures Texts(a + b) == Texts(a) + Texts(b)
    decreases |b|
  {
    if b == [] {
      assert a + b == a;
    } else {
      var n := |b| - 1;
      assert (a + b)[..|a + b| - 1] == a + b[..n];
      TextsAppend(a, b[..n]);
    }
  }

  lemma TextsOfText(text: string)
    ensures Texts(TextEvents(text)) == text
  {
    if text != "" {
      assert [Delta(text)][..0] == [];
    }
  }

  predicate NoText(events: seq<Event>) {
    forall i :: 0 <= i < |events| ==> !events[i].Delta?
  }

  predicate NoVerdict(events: seq<Event>) {
    forall i :: 0 <= i < |events| ==> !(events[i].Completed? && events[i].run == Main)
  }

  lemma {:induction false} NoTextNoTexts(events: seq<Event>)
    requires NoText(events)
    ensures Texts(events) == ""
    decreases |events|
  {
    if events != [] {
      NoTextNoTexts(events[..|events| - 1]);
    }
  }

  lemma {:induction false} EndlessHasNoVerdict(events: seq<Event>)
    requires Ends(events, Main) == []
    ensures NoVerdict(events)
    decreases |events|
  {
    if events != [] {
      var n := |events| - 1;
      EndlessHasNoVerdict(events[..n]);
      assert forall i :: 0 <= i < n ==> events[i] == events[..n][i];
    }
  }

  lemma AfterNoVerdict(q: seq<Event>, e: seq<Event>)
    requires NoVerdict(q)
    ensures TextAfterVerdict(q + e) <==> TextAfterVerdict(e)
  {
    var all := q + e;
    if i, j :| 0 <= i < j < |e| && e[i].Completed? && e[i].run == Main && e[j].Delta? {
      assert all[|q| + i] == e[i] && all[|q| + j] == e[j];
    }
    if i, j :| 0 <= i < j < |all| && all[i].Completed? && all[i].run == Main && all[j].Delta? {
      assert i >= |q|;
      assert e[i - |q|] == all[i] && e[j - |q|] == all[j];
    }
  }

  lemma BeforeNoText(q: seq<Event>, e: seq<Event>)
    requires NoText(e)
    ensures TextAfterVerdict(q + e) <==> TextAfterVerdict(q)
  {
    var all := q + e;
    if i, j :| 0 <= i < j < |q| && q[i].Completed? && q[i].run == Main && q[j].Delta? {
      assert all[i] == q[i] && all[j] == q[j];
    }
    if i, j :| 0 <= i < j < |all| && all[i].Completed? && all[i].run == Main && all[j].Delta? {
      assert j < |q|;
    }
  }

  lemma CaughtEventsShape(flags: Flags)
    ensures var e := CaughtEvents(flags);
      && NoText(e) && e != [] && e[|e| - 1].Completed? && e[|e| - 1].run == Main
  {
  }

  lemma CaughtThenText(flags: Flags, held: string)
    ensures TextAfterVerdict(CaughtEvents(flags) + TextEvents(held)) <==> held != ""
  {
    hide CaughtEvents;
    CaughtEventsShape(flags);
    var e := CaughtEvents(flags);
    var all := e + TextEvents(held);
    if held == "" {
      assert all == e;
    } else {
      assert all[|e| - 1] == e[|e| - 1] && all[|e|] == Delta(held);
    }
  }

  // ----- the step in which the prompt settles -----

  lemma CaughtQueue(s: State, late: seq<Event>)
    ensures Caught(s, late).queue == s.queue + (CaughtEvents(s.flags) + late)
  {
    hide AbortEvents;
  }

  /** What the settling step queues: text, then the verdict's events, then text again only after a rejection. */
  lemma SettledQueue(s: State, work: Work) returns (shown: seq<Event>, rest: seq<Event>)
    requires s.pc.Working? && s.kind.Chat?
    ensures ChatSettled(s, work).queue == s.queue + shown + rest
    ensures NoVerdict(shown) && (work.Resolved? ==> NoText(rest))
    ensures work.Rejected? ==>
      (shown == [] && rest == CaughtEvents(s.flags) + TextEvents(ThinkingFilter.FlushStep(s.answer.filter).1))
    ensures work.Resolved? ==> s.queue + shown == Completing(s, work.thinking, work.reasoning).queue
  {
    hide Caught, CaughtEvents, Completing, Concluded, ShowsNothing, TextEvents;
    if work.Rejected? {
      shown, rest := [], CaughtEvents(s.flags) + TextEvents(ThinkingFilter.FlushStep(s.answer.filter).1);
      CaughtQueue(s, TextEvents(ThinkingFilter.FlushStep(s.answer.filter).1));
      assert s.queue + [] == s.queue;
    } else {
      var t := Completing(s, work.thinking, work.reasoning);
      shown := CompletingQueue(s, work.thinking, work.reasoning);
      CompletingShape(s, work.thinking, work.reasoning);
      if ShowsNothing(s, work) {
        CaughtQueue(t, []);
        CaughtEventsShape(t.flags);
        rest := CaughtEvents(t.flags) + [];
      } else {
        rest := ConcludedQueue(t, work.syncFails, work.title);
      }
    }
  }

  lemma CompletingQueue(s: State, thinking: string, reasoning: bool) returns (shown: seq<Event>)
    ensures Completing(s, thinking, reasoning).queue == s.queue + shown && NoVerdict(shown)
  {
    hide Trim, ThinkingFilter.FlushStep;
    var held := ThinkingFilter.FlushStep(s.answer.filter).1;
    var t := Shown(s, ThinkingFilter.FlushStep(s.answer.filter).0, held);
    if Trim(t.answer.content) != "" || Trim(thinking) == "" || reasoning {
      shown := TextEvents(held);
    } else {
      shown := TextEvents(held) + [Delta(Trim(thinking))];
      assert s.queue + shown == s.queue + TextEvents(held) + [Delta(Trim(thinking))];
    }
  }

  lemma ConcludedQueue(s: State, syncFails: bool, title: TitlePlan) returns (rest: seq<Event>)
    ensures Concluded(s, syncFails, title).queue == s.queue + rest && NoText(rest)
  {
    hide Caught, CaughtEvents, Published, PublishedEvents;
    CaughtEventsShape(s.flags);
    if !CanTransition(s.status, Running) {
      CaughtQueue(s, []);
      rest := CaughtEvents(s.flags) + [];
    } else if syncFails {
      CaughtQueue(s.(status := Running), []);
      rest := CaughtEvents(s.flags) + [];
    } else {
      PublishedQueue(s.(status := Running), title);
      rest := PublishedEvents(Planned(s.(status := Running), title));
      PublishedHasNoText(Planned(s.(status := Running), title));
    }
  }

  lemma PublishedHasNoText(title: TitlePlan)
    ensures NoText(PublishedEvents(title))
  {
  }

  /** Text follows the verdict exactly when the prompt rejects while the filter still holds some, aborted or not. */
  lemma SettledTextAfterVerdict(s: State, work: Work)
    requires Inv(s) && s.pc.Working? && s.kind.Chat?
    ensures TextAfterVerdict(Next(s, WorkSettled(work)).queue)
      <==> work.Rejected? && ThinkingFilter.FlushStep(s.answer.filter).1 != ""
  {
    hide ChatSettled, CaughtEvents, TextAfterVerdict, TextEvents, NoVerdict, Ends;
    EndlessHasNoVerdict(s.queue);
    var shown, rest := SettledQueue(s, work);
    NoVerdictAppend(s.queue, shown);
    AfterNoVerdict(s.queue + shown, rest);
    if work.Rejected? {
      CaughtThenText(s.flags, ThinkingFilter.FlushStep(s.answer.filter).1);
    } else {
      BeforeNoText([], rest);
      assert [] + rest == rest;
      NothingAfterNothing();
    }
  }

  lemma NothingAfterNothing()
    ensures !TextAfterVerdict([])
  {
  }

  lemma NoVerdictAppend(a: seq<Event>, b: seq<Event>)
    requires NoVerdict(a) && NoVerdict(b)
    ensures NoVerdict(a + b)
  {
  }

  // ----- whole runs -----

  lemma {:induction false} RunSplit(s: State, a: seq<Step>, b: seq<Step>)
    requires CanRun(s, a + b)
    ensures CanRun(s, a) && CanRun(After(s, a), b) && After(s, a + b) == After(After(s, a), b)
    decreases |a|
  {
    hide Next, Enabled;
    if a == [] {
      assert a + b == b;
    } else {
      assert (a + b)[1..] == a[1..] + b;
      RunSplit(Next(s, a[0]), a[1..], b);
    }
  }

  /** Once the run is over nothing but the title's own events is queued. */
  lemma NoLateText(s: State, step: Step) returns (added: seq<Event>)
    requires MainOver(s) && Enabled(s, step)
    ensures Next(s, step).queue == s.queue + added && NoText(added)
  {
    hide ChatSettled, CompactSettled, Over, SessionOpened, Completing, ThinkingFilter.PushStep;
    match step
    case TitleSettled(result) => added := TitleEvents(s.flags.title, s.name, result);
    case Resumed => added := if s.pc.Rethrown? then [Errored] else [];
    case _ => added := [];
  }

  lemma {:induction false} TextAfterVerdictIsFinal(s: State, steps: seq<Step>)
    requires Inv(s) && MainOver(s) && CanRun(s, steps)
    ensures TextAfterVerdict(After(s, steps).queue) <==> TextAfterVerdict(s.queue)
    decreases |steps|
  {
    hide Next, Enabled, Inv, MainOver, TextAfterVerdict, NoText;
    if steps != [] {
      var added := NoLateText(s, steps[0]);
      BeforeNoText(s.queue, added);
      VerdictStays(s, steps[0]);
      StepKeepsInv(s, steps[0]);
      TextAfterVerdictIsFinal(Next(s, steps[0]), steps[1..]);
    }
  }

  /**
   * In every run of a chat, text arrives behind the run's verdict exactly when the prompt rejected while the tag
   * filter held some back, whether the run was aborted or failed.
   */
  lemma HeldTextFollowsTheVerdict(before: seq<Step>, work: Work, later: seq<Step>)
    requires CanRun(Start(Chat), before + ([WorkSettled(work)] + later))
    ensures CanRun(Start(Chat), before)
    ensures var s := After(Start(Chat), before);
      TextAfterVerdict(After(Start(Chat), before + ([WorkSettled(work)] + later)).queue)
      <==> work.Rejected? && ThinkingFilter.FlushStep(s.answer.filter).1 != ""
  {
    hide Next, Inv, TextAfterVerdict;
    var settled := [WorkSettled(work)];
    RunSplit(Start(Chat), before, settled + later);
    var s := After(Start(Chat), before);
    assert (settled + later)[0] == WorkSettled(work) && (settled + later)[1..] == later;
    StartInv(Chat);
    RunKeepsInv(Start(Chat), before);
    KindStays(Start(Chat), before);
    SettledTextAfterVerdict(s, work);
    ChatVerdict(s, work);
    TextAfterVerdictIsFinal(Next(s, WorkSettled(work)), later);
  }

  const FAILED_HOLDING := [SessionBuilt(false)] + ([StateLoaded] + ([Streamed("<")] + [WorkSettled(Rejected)]))

  lemma OneBracketIsHeld()
    ensures ThinkingFilter.PushStep(ThinkingFilter.START, "<") == (ThinkingFilter.Filter("<", false), "")
    ensures ThinkingFilter.FlushStep(ThinkingFilter.Filter("<", false)).1 == "<"
  {
    var tag := ThinkingFilter.THINKING_END_TAGS[0];
    assert !IsSpace('<') && TrimStart("<") == "<" && "" + "<" == "<";
    assert tag in ThinkingFilter.THINKING_END_TAGS && "<" <= tag;
  }

  /** A run that streams one bracket and fails, with no abort anywhere: the bracket comes after the verdict. */
  lemma FailedRunShowsHeldText()
    ensures CanRun(Start(Chat), FAILED_HOLDING)
    ensures After(Start(Chat), FAILED_HOLDING).queue == [Started(Main), Completed(Main, Failed), Delta("<")]
    ensures TextAfterVerdict(After(Start(Chat), FAILED_HOLDING).queue)
  {
    hide TextAfterVerdict, ThinkingFilter.PushStep, ThinkingFilter.FlushStep;
    OneBracketIsHeld();
    var settled := WorkSettled(Rejected);
    var loading := Start(Chat).(pc := Loading);
    var working := loading.(pc := Working);
    var holding := working.(answer := RunProtocol.Answer(ThinkingFilter.Filter("<", false), ""));
    assert "" + "" == "" && [Started(Main)] + [] == [Started(Main)];
    assert Next(Start(Chat), SessionBuilt(false)) == loading && Next(loading, StateLoaded) == working;
    assert Next(working, Streamed("<")) == holding;
    var over := Next(holding, settled);
    assert over.queue == [Started(Main)] + ([Completed(Main, Failed)] + [Delta("<")]);
    assert [settled] + [] == [settled];
    RunCons(holding, settled, []);
    RunCons(working, Streamed("<"), [settled]);
    RunCons(loading, StateLoaded, [Streamed("<")] + [settled]);
    RunCons(Start(Chat), SessionBuilt(false), [StateLoaded] + ([Streamed("<")] + [settled]));
    var q := over.queue;
    assert q[1] == Completed(Main, Failed) && q[2] == Delta("<");
    FollowsAt(q, 1, 2);
  }

  lemma FollowsAt(queue: seq<Event>, i: nat, j: nat)
    requires i < j < |queue| && queue[i].Completed? && queue[i].run == Main && queue[j].Delta?
    ensures TextAfterVerdict(queue)
  {
  }

  // ----- the answer arrives whole -----

  /** Before the prompt settles, what is shown and what is held make up what the filter lets through. */
  lemma {:induction false} ShownAndHeld(s: State, steps: seq<Step>)
    requires Inv(s) && s.kind.Chat? && CanRun(s, steps) && !MainOver(After(s, steps))
    requires s.answer.content == Texts(s.queue)
    ensures var t := After(s, steps);
      && t.answer.content == Texts(t.queue)
      && Texts(t.queue) + ThinkingFilter.FlushStep(t.answer.filter).1
         == Texts(s.queue) + ThinkingFilter.Filtered(s.answer.filter, Deltas(steps))
    decreases |steps|
  {
    hide Next, Enabled, Inv, MainOver, Texts, ThinkingFilter.PushStep, ThinkingFilter.FlushStep;
    if steps != [] {
      var t := Next(s, steps[0]);
      StepKeepsInv(s, steps[0]);
      StepKeepsKind(s, steps[0]);
      if MainOver(t) {
        StaysOver(t, steps[1..]);
      } else {
        QuietStep(s, steps[0]);
        ShownAndHeld(t, steps[1..]);
        DeltasCons(steps);
        if steps[0].Streamed? {
          var d := [steps[0].delta] + Deltas(steps[1..]);
          assert d[1..] == Deltas(steps[1..]);
        } else {
          assert [] + Deltas(steps[1..]) == Deltas(steps[1..]);
        }
      }
    } else {
      assert Deltas(steps) == [];
    }
  }

  lemma DeltasCons(steps: seq<Step>)
    requires steps != []
    ensures Deltas(steps) == (if steps[0].Streamed? then [steps[0].delta] else []) + Deltas(steps[1..])
  {
  }

  lemma StaysOver(s: State, steps: seq<Step>)
    requires Inv(s) && MainOver(s) && CanRun(s, steps)
    ensures MainOver(After(s, steps))
  {
    hide Ends;
    VerdictIsFinal(s, steps);
  }

  /** A step before the end shows what the filter lets through of a delta, and nothing else shows anything. */
  lemma QuietStep(s: State, step: Step)
    requires Enabled(s, step) && !MainOver(Next(s, step)) && s.answer.content == Texts(s.queue) && s.kind.Chat?
    ensures var t := Next(s, step);
      && t.answer.content == Texts(t.queue)
      && if step.Streamed? then
           var r := ThinkingFilter.PushStep(s.answer.filter, step.delta);
           t.answer.filter == r.0 && Texts(t.queue) == Texts(s.queue) + r.1
         else t.answer.filter == s.answer.filter && Texts(t.queue) == Texts(s.queue)
  {
    hide Texts, TextEvents, ThinkingFilter.PushStep;
    if OwnStep(step) {
      QuietOwnStep(s, step);
    } else if step.Streamed? {
      var text := ThinkingFilter.PushStep(s.answer.filter, step.delta).1;
      TextsOfText(text);
      TextsAppend(s.queue, TextEvents(text));
    }
  }

  lemma QuietOwnStep(s: State, step: Step)
    requires Enabled(s, step) && OwnStep(step) && !MainOver(Next(s, step)) && s.kind.Chat?
    ensures Next(s, step).answer == s.answer && Next(s, step).queue == s.queue
  {
    hide ChatSettled, CompactSettled, Caught;
    match step
    case SessionBuilt(empty) => CaughtIsOver(s, []);
    case WorkSettled(work) => ChatShape(s, work);
    case _ =>
  }

  /** The text a settled prompt adds: what was held, and thinking where a blank answer leaves room for it. */
  lemma SettledTexts(s: State, work: Work)
    requires s.pc.Working? && s.kind.Chat? && s.answer.content == Texts(s.queue)
    ensures var whole := s.answer.content + ThinkingFilter.FlushStep(s.answer.filter).1;
      Texts(ChatSettled(s, work).queue) == whole + Fallback(whole, work)
  {
    hide ChatSettled, Completing, CaughtEvents, Texts, TextEvents, ThinkingFilter.FlushStep, Trim, NoText, NoVerdict;
    var held := ThinkingFilter.FlushStep(s.answer.filter).1;
    var shown, rest := SettledQueue(s, work);
    TextsAppend(s.queue + shown, rest);
    TextsAppend(s.queue, shown);
    if work.Rejected? {
      CaughtEventsShape(s.flags);
      NoTextNoTexts(CaughtEvents(s.flags));
      TextsAppend(CaughtEvents(s.flags), TextEvents(held));
      TextsOfText(held);
      assert s.queue + [] == s.queue;
      assert "" + held == held && s.answer.content + held + "" == s.answer.content + held;
    } else {
      NoTextNoTexts(rest);
      CompletingTexts(s, work.thinking, work.reasoning);
    }
  }

  /** Thinking shown in place of an answer that stayed blank. */
  function Fallback(answer: string, work: Work): string {
    if work.Resolved? && Trim(answer) == "" && !work.reasoning then Trim(work.thinking) else ""
  }

  lemma CompletingTexts(s: State, thinking: string, reasoning: bool)
    requires s.answer.content == Texts(s.queue)
    ensures var whole := s.answer.content + ThinkingFilter.FlushStep(s.answer.filter).1;
      Texts(Completing(s, thinking, reasoning).queue)
      == whole + if Trim(whole) == "" && !reasoning then Trim(thinking) else ""
  {
    hide Texts, TextEvents, ThinkingFilter.FlushStep, Trim;
    var held := ThinkingFilter.FlushStep(s.answer.filter).1;
    var whole := s.answer.content + held;
    TextsOfText(held);
    TextsAppend(s.queue, TextEvents(held));
    var fallback := Trim(thinking);
    assert whole + "" == whole;
    if Trim(whole) == "" && fallback != "" && !reasoning {
      TextsAppend(s.queue + TextEvents(held), [Delta(fallback)]);
      TextsOfText(fallback);
      assert TextEvents(fallback) == [Delta(fallback)] by { NonEmptyText(fallback); }
    }
  }

  lemma NonEmptyText(text: string)
    requires text != ""
    ensures TextEvents(text) == [Delta(text)]
  {
  }

  /**
   * Answered, failed or aborted, and whatever else interleaves: the text the client is sent is the filtered answer,
   * whole and in order, with thinking after it only where a resolved prompt answered with blank space.
   */
  lemma AnswerArrivesWhole(before: seq<Step>, work: Work)
    requires CanRun(Start(Chat), before) && After(Start(Chat), before).pc.Working?
    ensures var s := After(Start(Chat), before);
      var answer := ThinkingFilter.Filtered(ThinkingFilter.START, Deltas(before));
      Enabled(s, WorkSettled(work)) && Texts(Next(s, WorkSettled(work)).queue) == answer + Fallback(answer, work)
  {
    hide ChatSettled, Inv, Texts, Trim, ThinkingFilter.FlushStep, Fallback, ThinkingFilter.Filtered;
    var s := After(Start(Chat), before);
    StartInv(Chat);
    NothingShownYet();
    KindStays(Start(Chat), before);
    ShownAndHeld(Start(Chat), before);
    SettledTexts(s, work);
    var answer := ThinkingFilter.Filtered(ThinkingFilter.START, Deltas(before));
    assert "" + answer == answer;
  }

  lemma NothingShownYet()
    ensures Texts(Start(Chat).queue) == ""
  {
    NoTextNoTexts([Started(Main)]);
  }
  /** The finished message holds that answer, or the thinking alone where it was shown for want of one. */
  lemma MessageHoldsTheAnswer(before: seq<Step>, work: Work)
    requires CanRun(Start(Chat), before) && After(Start(Chat), before).pc.Working?
    ensures var s := After(Start(Chat), before);
      var answer := ThinkingFilter.Filtered(ThinkingFilter.START, Deltas(before));
      var t := Next(s, WorkSettled(work));
      t.answer.content == if Fallback(answer, work) == "" then answer else Fallback(answer, work)
  {
    hide ChatSettled, Inv, Texts, ThinkingFilter.FlushStep, Fallback, ThinkingFilter.Filtered;
    var s := After(Start(Chat), before);
    StartInv(Chat);
    NothingShownYet();
    KindStays(Start(Chat), before);
    ShownAndHeld(Start(Chat), before);
    SettledContent(s, work);
    var answer := ThinkingFilter.Filtered(ThinkingFilter.START, Deltas(before));
    assert "" + answer == answer;
  }

  lemma SettledContent(s: State, work: Work)
    ensures var whole := s.answer.content + ThinkingFilter.FlushStep(s.answer.filter).1;
      ChatSettled(s, work).answer.content == if Fallback(whole, work) == "" then whole else Fallback(whole, work)
  {
    hide Caught, ThinkingFilter.FlushStep, Trim, TextEvents, CanTransition, ShowsNothing, Published;
    if work.Resolved? {
      var t := Completing(s, work.thinking, work.reasoning);
      CaughtAnswer(t, []);
      CaughtAnswer(t.(status := Running), []);
      PublishedAnswer(t.(status := Running), work.title);
    }
  }

  lemma PublishedAnswer(s: State, title: TitlePlan)
    ensures Published(s, title).answer == s.answer
  {
    hide PublishedEvents;
  }

  /** A chat is published exactly when it resolves with an answer or thinking that is not all blank, and syncs. */
  lemma PublishedIff(before: seq<Step>, work: Work)
    requires CanRun(Start(Chat), before) && After(Start(Chat), before).pc.Working?
    ensures var s := After(Start(Chat), before);
      var answer := ThinkingFilter.Filtered(ThinkingFilter.START, Deltas(before));
      Ends(Next(s, WorkSettled(work)).queue, Main) == [Completed(Main, Succeeded)]
      <==> (&& work.Resolved? && !work.syncFails && (s.status.Ready? || s.status.Running?)
            && !(AllSpace(answer) && AllSpace(work.thinking)))
  {
    hide ChatSettled, Inv, Texts, Ends, Trim, IsSpace, ThinkingFilter.FlushStep, ThinkingFilter.Filtered;
    var s := After(Start(Chat), before);
    StartInv(Chat);
    RunKeepsInv(Start(Chat), before);
    NothingShownYet();
    KindStays(Start(Chat), before);
    ShownAndHeld(Start(Chat), before);
    ChatVerdict(s, work);
    var answer := ThinkingFilter.Filtered(ThinkingFilter.START, Deltas(before));
    assert "" + answer == answer;
    BlankIff(answer);
    if work.Resolved? {
      BlankIff(work.thinking);
    }
  }
}
