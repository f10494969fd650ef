/**
 * One run on a conversation as the steps between its awaits, interleaved with abort requests and with the
 * other writers of the conversation's status.
 */
module RunProtocol {
  import opened Text
  import ThinkingFilter

  // ----- the status table -----

  datatype Status = Ready | Running | Compacting | Aborting | Unavailable

  predicate Allowed(from: Status, to: Status) {
    match from
    case Ready => to.Running? || to.Compacting? || to.Unavailable?
    case Running => to.Ready? || to.Aborting? || to.Unavailable?
    case Compacting => to.Ready? || to.Aborting? || to.Unavailable?
    case Aborting => to.Ready? || to.Unavailable?
    case Unavailable => to.Ready?
  }

  predicate CanTransition(from: Status, to: Status) {
    from == to || Allowed(from, to)
  }

  // ----- events -----

  /** The run itself (a chat, a regenerate or a compaction) and the title run a chat may start at its end. */
  datatype Run = Main | Title

  datatype Outcome = Succeeded | Failed | WasAborted

  datatype Event =
    | Started(run: Run)
    | Delta(text: string)
    | Answered
    | Compacted
    | Titled
    | Aborted(run: Run)
    | AbortWarning
    | Completed(run: Run, outcome: Outcome)
    | Errored

  /** What is left of a trace when only the ends of `run` are kept. */
  function Ends(events: seq<Event>, run: Run): seq<Event> {
    if events == [] then []
    else
      var e := events[|events| - 1];
      Ends(events[..|events| - 1], run)
      + if (e.Aborted? || e.Completed?) && e.run == run then [e] else []
  }

  // ----- the state between two awaits -----

  datatype Kind = Chat | Compact

  datatype Pc =
    | Opening      // the session is being built
    | Loading      // a chat reads the store before it prompts
    | Working      // the prompt, or the compaction, is in flight
    | Estimating   // a compaction counts tokens after its sync
    | Titling      // the title run's own request is in flight
    | Unwinding    // the title run is over, its caller has not resumed
    | Rethrown     // the run failed, its caller's handler has not run
    | Finished

  /** Who asked for an abort, and whether the check that follows one left a warning. */
  datatype Flags = Flags(main: bool, title: bool, warning: bool)

  /** A chat's answer so far: what the tag filter holds back, and what has been shown. */
  datatype Answer = Answer(filter: ThinkingFilter.Filter, content: string)

  /**
   * History: an abort answered yes, a status set to ready during the run, the run's slot taken away by a request
   * that found the session gone, and a generated title stored.
   */
  datatype Past = Past(acceptedMain: bool, acceptedTitle: bool, released: bool, dropped: bool, titled: bool)

  const NOTHING_YET := Past(false, false, false, false, false)

  /** Where the conversation's title comes from; only the fallback gives way to a generated one. */
  datatype NameSource = Fallback | Generated | Users

  datatype State = State(kind: Kind, pc: Pc, status: Status, active: Option<Run>, flags: Flags, answer: Answer,
                         queue: seq<Event>, ended: bool, name: NameSource, past: Past)

  /** What a finished chat does about its title. */
  datatype TitlePlan = NoTitle | FirstLine | Llm

  /** How the call ends; a chat that showed nothing falls back on its thinking text, unless reasoning is shown. */
  datatype Work =
    | Rejected
    | Resolved(thinking: string, reasoning: bool, syncFails: bool, title: TitlePlan)

  datatype TitleResult = GotTitle | GotNothing(firstLine: bool) | TitleFailed

  datatype Step =
    | SessionBuilt(empty: bool)
    | StateLoaded
    | Streamed(delta: string)
    | WorkSettled(work: Work)
    | Estimated
    | TitleSettled(result: TitleResult)
    | Resumed
    | AbortRun(target: Run)
    | AbortVerified(warn: bool)
    | AbortCompaction(managed: bool)
    | MarkUnavailable
    | SessionLost
    | Repair
    | SnapshotRead
    | Renamed

  function Base(kind: Kind): Status {
    if kind.Chat? then Running else Compacting
  }

  function Start(kind: Kind): State {
    State(kind, Opening, Base(kind), Some(Main), Flags(false, false, false), Answer(ThinkingFilter.START, ""),
          [Started(Main)], false, Fallback, NOTHING_YET)
  }

  predicate MainOver(s: State) {
    s.pc.Titling? || s.pc.Unwinding? || s.pc.Rethrown? || s.pc.Finished?
  }

  predicate Enabled(s: State, step: Step) {
    match step
    case SessionBuilt(_) => s.pc.Opening?
    case StateLoaded => s.pc.Loading?
    case Streamed(_) => s.pc.Working? && s.kind.Chat?
    case WorkSettled(_) => s.pc.Working?
    case Estimated => s.pc.Estimating?
    case TitleSettled(_) => s.pc.Titling?
    case Resumed => s.pc.Unwinding? || s.pc.Rethrown?
    case AbortVerified(_) => s.past.acceptedMain
    case _ => true
  }

  // ----- what each step does -----

  function Finish(active: Option<Run>, run: Run): Option<Run> {
    if active == Some(run) then None else active
  }

  function ReadyUnlessUnavailable(status: Status): Status {
    if status.Unavailable? then Unavailable else Ready
  }

  function AbortEvents(warning: bool): seq<Event> {
    if warning then [Aborted(Main), AbortWarning, Completed(Main, WasAborted)]
    else [Aborted(Main), Completed(Main, WasAborted)]
  }

  /** The end of the main run: its slot is freed and its row released. */
  function Over(s: State, pc: Pc, events: seq<Event>, ended: bool): State {
    s.(pc := pc, active := Finish(s.active, Main), status := ReadyUnlessUnavailable(s.status),
       queue := s.queue + events, ended := s.ended || ended)
  }

  function Caught(s: State, late: seq<Event>): State {
    if s.flags.main then Over(s, Finished, AbortEvents(s.flags.warning) + late, true)
    else Over(s, Rethrown, [Completed(Main, Failed)] + late, false)
  }

  function PublishedEvents(title: TitlePlan): seq<Event> {
    match title
    case NoTitle => [Answered, Completed(Main, Succeeded)]
    case FirstLine => [Answered, Completed(Main, Succeeded), Titled]
    case Llm => [Answered, Completed(Main, Succeeded), Started(Title)]
  }

  /** A generated title is stored unless the conversation already has one of its own. */
  function Named(s: State): State {
    if s.name.Fallback? then s.(name := Generated, past := s.past.(titled := true)) else s
  }

  /** What is done about the title: nothing for a conversation that has one. */
  function Planned(s: State, title: TitlePlan): TitlePlan {
    if s.name.Fallback? then title else NoTitle
  }

  /** The answer is out; a title run takes the slot, or the run is over. */
  function Published(s: State, title: TitlePlan): State {
    var plan := Planned(s, title);
    if plan.Llm? then Over(s, Titling, PublishedEvents(plan), false).(active := Some(Title))
    else if plan.FirstLine? then Named(Over(s, Finished, PublishedEvents(plan), true))
    else Over(s, Finished, PublishedEvents(plan), true)
  }

  /** Text as it is shown: no event for an empty one. */
  function TextEvents(text: string): seq<Event> {
    if text == "" then [] else [Delta(text)]
  }

  function Shown(s: State, filter: ThinkingFilter.Filter, text: string): State {
    s.(answer := Answer(filter, s.answer.content + text), queue := s.queue + TextEvents(text))
  }

  /** The prompt has resolved: held text is shown, and thinking in place of an answer that stayed blank. */
  function Completing(s: State, thinking: string, reasoning: bool): State {
    var (filter, held) := ThinkingFilter.FlushStep(s.answer.filter);
    var t := Shown(s, filter, held);
    if Trim(t.answer.content) != "" || Trim(thinking) == "" || reasoning then t
    else t.(answer := Answer(filter, Trim(thinking)), queue := t.queue + [Delta(Trim(thinking))])
  }

  function Concluded(s: State, syncFails: bool, title: TitlePlan): State {
    if !CanTransition(s.status, Running) then Caught(s, [])
    else if syncFails then Caught(s.(status := Running), [])
    else Published(s.(status := Running), title)
  }

  /** Nothing to show: no answer and no thinking either. */
  predicate ShowsNothing(s: State, work: Work)
    requires work.Resolved?
  {
    Trim(s.answer.content + ThinkingFilter.FlushStep(s.answer.filter).1) == "" && Trim(work.thinking) == ""
  }

  function CaughtHolding(s: State): State {
    var (filter, held) := ThinkingFilter.FlushStep(s.answer.filter);
    Caught(s, TextEvents(held)).(answer := Answer(filter, s.answer.content + held))
  }

  /** Held text is flushed as soon as the prompt resolves; after a rejection only once the verdict is out. */
  function ChatSettled(s: State, work: Work): State {
    match work
    case Rejected => CaughtHolding(s)
    case Resolved(thinking, reasoning, syncFails, title) =>
      var t := Completing(s, thinking, reasoning);
      if ShowsNothing(s, work) then Caught(t, []) else Concluded(t, syncFails, title)
  }

  function CompactSettled(s: State, work: Work): State {
    if !work.Resolved? || !CanTransition(s.status, Compacting) then Caught(s, [])
    else
      var synced := s.(status := Compacting);
      if work.syncFails then Caught(synced, [])
      else if s.flags.main then Over(synced, Finished, AbortEvents(s.flags.warning), true)
      else synced.(pc := Estimating)
  }

  /** The model's title is announced even when it comes too late to be stored; a first line only when it is. */
  function TitleEvents(aborted: bool, name: NameSource, result: TitleResult): seq<Event> {
    if aborted then [Aborted(Title), Completed(Title, WasAborted)]
    else match result
      case GotTitle => [Titled, Completed(Title, Succeeded)]
      case GotNothing(firstLine) =>
        (if firstLine && name.Fallback? then [Titled] else []) + [Completed(Title, Succeeded)]
      case TitleFailed => [Completed(Title, Failed)]
  }

  /** The title run ends with a title to store. */
  predicate HasTitle(s: State, result: TitleResult) {
    !s.flags.title && (result.GotTitle? || (result.GotNothing? && result.firstLine))
  }

  /** The run's own continuations. */
  predicate OwnStep(step: Step) {
    step.SessionBuilt? || step.StateLoaded? || step.WorkSettled? || step.Estimated? || step.TitleSettled?
      || step.Resumed?
  }

  function SessionOpened(s: State, empty: bool): State {
    if s.flags.main then Over(s, Finished, AbortEvents(s.flags.warning), true)
    else if s.kind.Chat? then s.(pc := Loading)
    else if empty then Caught(s, [])
    else s.(pc := Working)
  }

  function TitleOver(s: State, result: TitleResult): State {
    var t := s.(pc := Unwinding, active := Finish(s.active, Title), status := Ready,
                queue := s.queue + TitleEvents(s.flags.title, s.name, result));
    if HasTitle(s, result) then Named(t) else t
  }

  function Continued(s: State): State {
    if s.pc.Rethrown? then
      s.(pc := Finished, status := ReadyUnlessUnavailable(s.status), queue := s.queue + [Errored], ended := true)
    else s.(pc := Finished, status := ReadyUnlessUnavailable(s.status), active := Finish(s.active, Main), ended := true)
  }

  function Proceed(s: State, step: Step): State
    requires OwnStep(step) && Enabled(s, step)
  {
    match step
    case SessionBuilt(empty) => SessionOpened(s, empty)
    case StateLoaded => s.(pc := Working)
    case WorkSettled(work) => if s.kind.Chat? then ChatSettled(s, work) else CompactSettled(s, work)
    case Estimated => Over(s, Finished, [Compacted, Completed(Main, Succeeded)], true)
    case TitleSettled(result) => TitleOver(s, result)
    case Resumed => Continued(s)
  }

  /** Everything that happens around the run: aborts, other writers of the row's status, streamed text. */
  function Around(s: State, step: Step): State
    requires !OwnStep(step)
  {
    match step
    case Streamed(delta) =>
      var (filter, text) := ThinkingFilter.PushStep(s.answer.filter, delta);
      Shown(s, filter, text)
    case AbortRun(target) =>
      if s.active != Some(target) then s
      else if target == Title then s.(flags := s.flags.(title := true), past := s.past.(acceptedTitle := true))
      else if !CanTransition(s.status, Aborting) then s.(flags := s.flags.(main := true))
      else s.(flags := s.flags.(main := true), past := s.past.(acceptedMain := true), status := Aborting)
    case AbortVerified(warn) => s.(flags := s.flags.(warning := warn))
    case AbortCompaction(managed) =>
      var marked := s.(flags := s.flags.(main := s.flags.main || (s.kind.Compact? && s.active == Some(Main))));
      if managed then MadeReady(marked) else marked
    case MarkUnavailable => s.(status := Unavailable)
    case SessionLost => s.(status := Unavailable, active := None, past := s.past.(dropped := true))
    case Repair => if s.status.Unavailable? then MadeReady(s) else s
    case SnapshotRead => if s.active.Some? || s.status.Unavailable? then s else s.(status := Ready)
    case Renamed => s.(name := Users)
  }

  function MadeReady(s: State): State {
    s.(status := Ready, past := s.past.(released := s.past.released || !MainOver(s)))
  }

  function Next(s: State, step: Step): State
    requires Enabled(s, step)
  {
    if OwnStep(step) then Proceed(s, step) else Around(s, step)
  }

  // ----- the harness -----

  class PiHarness {
    const kind: Kind
    const answerFilter: ThinkingFilter.ThinkingEndTagFilter
    var pc: Pc
    var status: Status
    var active: Option<Run>
    var abortMain: bool
    var abortTitle: bool
    var warning: bool
    var content: string
    var queue: seq<Event>
    var ended: bool
    var name: NameSource
    ghost var past: Past

    ghost function View(): State
      reads this, answerFilter
    {
      State(kind, pc, status, active, Flags(abortMain, abortTitle, warning), Answer(answerFilter.View(), content),
            queue, ended, name, past)
    }

    constructor (kind: Kind)
      ensures View() == Start(kind) && fresh(answerFilter)
    {
      this.kind := kind;
      answerFilter := new ThinkingFilter.ThinkingEndTagFilter();
      pc, status, active := Opening, Base(kind), Some(Main);
      abortMain, abortTitle, warning, ended := false, false, false, false;
      content, queue := "", [Started(Main)];
      name, past := Fallback, NOTHING_YET;
    }

    /** Returns false where the source throws. */
    method SetConversationStatus(to: Status) returns (ok: bool)
      modifies `status
      ensures ok == CanTransition(old(status), to)
      ensures status == if ok then to else old(status)
    {
      ok := CanTransition(status, to);
      if ok {
        status := to;
      }
    }

    method SetConversationReadyUnlessUnavailable()
      modifies `status
      ensures status == ReadyUnlessUnavailable(old(status))
    {
      if !status.Unavailable? {
        var ok := SetConversationStatus(Ready);
        assert ok;
      }
    }

    method FinishRun(run: Run)
      modifies `active
      ensures active == Finish(old(active), run)
    {
      if active == Some(run) {
        active := None;
      }
    }

    method PushRunAbortedEvents()
      modifies `queue
      ensures queue == old(queue) + AbortEvents(warning)
    {
      queue := queue + [Aborted(Main)];
      if warning {
        queue := queue + [AbortWarning];
      }
      queue := queue + [Completed(Main, WasAborted)];
      assert queue == old(queue) + AbortEvents(warning);
    }

    method Release(to: Pc)
      modifies `pc, `active, `status
      ensures pc == to && active == Finish(old(active), Main) && status == ReadyUnlessUnavailable(old(status))
    {
      FinishRun(Main);
      SetConversationReadyUnlessUnavailable();
      pc := to;
    }

    method PushAnswerText(text: string)
      modifies `content, `queue
      ensures content == old(content) + text && queue == old(queue) + TextEvents(text)
    {
      if text != "" {
        content := content + text;
        queue := queue + [Delta(text)];
      }
    }

    method Stream(delta: string)
      requires Enabled(View(), Streamed(delta))
      modifies this, answerFilter
      ensures View() == Next(old(View()), Streamed(delta))
    {
      var text := answerFilter.Push(delta);
      PushAnswerText(text);
    }

    method PushVerdict() returns (to: Pc)
      modifies `queue, `ended
      ensures queue == old(queue) + CaughtEvents(Flags(abortMain, abortTitle, warning))
      ensures ended == (old(ended) || abortMain) && to == if abortMain then Finished else Rethrown
    {
      if abortMain {
        PushRunAbortedEvents();
        ended := true;
        return Finished;
      }
      queue := queue + [Completed(Main, Failed)];
      to := Rethrown;
    }

    /** The catch and the finally around a call; only a chat's prompt has text to let go of. */
    method Catch()
      modifies this, answerFilter
      ensures View() == if kind.Chat? then CaughtHolding(old(View())) else Caught(old(View()), [])
    {
      hide CaughtEvents, TextEvents, ThinkingFilter.FlushStep, AbortEvents, Finish, ReadyUnlessUnavailable, Caught;
      ghost var was := View();
      var to := PushVerdict();
      CaughtParts(was, []);
      if kind.Chat? {
        var held := answerFilter.Flush();
        CaughtParts(was, TextEvents(held));
        PushAnswerText(held);
      }
      Release(to);
    }

    method SessionReady(empty: bool)
      requires Enabled(View(), SessionBuilt(empty))
      modifies this, answerFilter
      ensures View() == Next(old(View()), SessionBuilt(empty))
    {
      if abortMain {
        PushRunAbortedEvents();
        Release(Finished);
        ended := true;
      } else if kind.Chat? {
        pc := Loading;
      } else if empty {
        Catch();
      } else {
        pc := Working;
      }
    }

    /** What the resolved prompt still has to show; answers whether there was nothing at all. */
    method CompleteAnswer(thinking: string, reasoning: bool) returns (nothing: bool)
      modifies this, answerFilter
      ensures View() == Completing(old(View()), thinking, reasoning)
      ensures nothing == ShowsNothing(old(View()), Resolved(thinking, reasoning, false, NoTitle))
    {
      var held := answerFilter.Flush();
      PushAnswerText(held);
      if Trim(content) != "" {
        return false;
      }
      var fallback := Trim(thinking);
      if fallback == "" {
        return true;
      }
      if !reasoning {
        content := fallback;
        queue := queue + [Delta(fallback)];
      }
      nothing := false;
    }

    method PromptSettled(work: Work)
      requires kind.Chat? && Enabled(View(), WorkSettled(work))
      modifies this, answerFilter
      ensures View() == Next(old(View()), WorkSettled(work))
    {
      if work.Rejected? {
        Catch();
        return;
      }
      var nothing := CompleteAnswer(work.thinking, work.reasoning);
      if nothing {
        NothingHeld(View());
        Catch();
        return;
      }
      Conclude(work.syncFails, work.title);
    }

    method Conclude(syncFails: bool, title: TitlePlan)
      requires kind.Chat? && pc.Working? && answerFilter.decided
      modifies this, answerFilter
      ensures View() == Concluded(old(View()), syncFails, title)
    {
      var synced := SetConversationStatus(Running);
      if !synced || syncFails {
        NothingHeld(View());
        Catch();
        return;
      }
      Publish(title);
    }

    /** Returns whether the title was stored. */
    method SetGeneratedTitle() returns (stored: bool)
      modifies `name, `past
      ensures stored == old(name).Fallback?
      ensures name == (if stored then Generated else old(name))
      ensures past == (if stored then old(past).(titled := true) else old(past))
    {
      stored := name.Fallback?;
      if stored {
        name, past := Generated, past.(titled := true);
      }
    }

    method ApplyFirstLineTitle()
      modifies `name, `past, `queue
      ensures View().(queue := old(queue)) == Named(old(View()))
      ensures queue == old(queue) + if old(name).Fallback? then [Titled] else []
    {
      var stored := SetGeneratedTitle();
      if stored {
        queue := queue + [Titled];
      }
    }

    method PublishAnswer()
      modifies `queue, `active, `status
      ensures queue == old(queue) + [Answered, Completed(Main, Succeeded)]
      ensures active == Finish(old(active), Main) && status == ReadyUnlessUnavailable(old(status))
    {
      queue := queue + [Answered];
      queue := queue + [Completed(Main, Succeeded)];
      FinishRun(Main);
      SetConversationReadyUnlessUnavailable();
      assert queue == old(queue) + [Answered, Completed(Main, Succeeded)];
    }

    method Publish(title: TitlePlan)
      requires kind.Chat? && pc.Working? && status.Running?
      modifies this
      ensures View() == Published(old(View()), title)
    {
      hide CanTransition, Allowed;
      ghost var before := queue;
      PublishAnswer();
      if name.Fallback? && title.Llm? {
        active, pc := Some(Title), Titling;
        queue := queue + [Started(Title)];
        assert queue == before + PublishedEvents(title);
        return;
      }
      if name.Fallback? && title.FirstLine? {
        ApplyFirstLineTitle();
        assert queue == before + PublishedEvents(title);
      }
      ended := true;
      Release(Finished);
    }

    method CompactionSettled(work: Work)
      requires kind.Compact? && Enabled(View(), WorkSettled(work))
      modifies this, answerFilter
      ensures View() == Next(old(View()), WorkSettled(work))
    {
      if work.Rejected? {
        Catch();
        return;
      }
      var synced := SetConversationStatus(Compacting);
      if !synced || work.syncFails {
        Catch();
        return;
      }
      if abortMain {
        PushRunAbortedEvents();
        Release(Finished);
        ended := true;
        return;
      }
      pc := Estimating;
    }

    method TellTitle(result: TitleResult)
      modifies `name, `past, `queue
      ensures queue == old(queue) + TitleEvents(abortTitle, old(name), result)
      ensures View().(queue := old(queue))
           == if HasTitle(old(View()), result) then Named(old(View())) else old(View())
    {
      if abortTitle {
        queue := queue + [Aborted(Title)];
        queue := queue + [Completed(Title, WasAborted)];
      } else if result.TitleFailed? {
        queue := queue + [Completed(Title, Failed)];
      } else {
        if result.GotTitle? {
          var stored := SetGeneratedTitle();
          queue := queue + [Titled];
        } else if result.firstLine {
          ApplyFirstLineTitle();
        }
        queue := queue + [Completed(Title, Succeeded)];
      }
    }

    method TitleGenerated(result: TitleResult)
      requires Enabled(View(), TitleSettled(result))
      modifies this
      ensures View() == Next(old(View()), TitleSettled(result))
    {
      hide TitleEvents, HasTitle;
      TellTitle(result);
      FinishRun(Title);
      var ok := SetConversationStatus(Ready);
      assert ok;
      pc := Unwinding;
    }

    /** Answers whether the abort was taken up; `None` where the source throws. */
    method AbortConversationRun(run: Run) returns (aborted: Option<bool>)
      modifies this
      ensures View() == Next(old(View()), AbortRun(run))
      ensures aborted == Some(true) <==>
        old(active) == Some(run) && (run == Title || CanTransition(old(status), Aborting))
      ensures aborted == Some(true) ==> if run == Main then past.acceptedMain else past.acceptedTitle
    {
      if active != Some(run) {
        return Some(false);
      }
      if run == Title {
        abortTitle, past := true, past.(acceptedTitle := true);
        return Some(true);
      }
      abortMain := true;
      var ok := SetConversationStatus(Aborting);
      if !ok {
        return None;
      }
      past := past.(acceptedMain := true);
      aborted := Some(true);
    }

    method CompactionAbort(managed: bool) returns (aborted: bool)
      modifies this
      ensures View() == Next(old(View()), AbortCompaction(managed))
      ensures aborted == (managed || (kind.Compact? && old(active) == Some(Main)))
    {
      if active == Some(Main) && kind.Compact? {
        abortMain := true;
      }
      if !managed {
        return active == Some(Main) && kind.Compact?;
      }
      var ok := SetConversationStatus(Ready);
      assert ok;
      past := past.(released := past.released || !MainOver(View()));
      aborted := true;
    }

    /** Another request found the session gone: the row, the session and whatever run holds the slot are given up. */
    method AssertConversationSessionAvailable(missing: bool) returns (available: bool)
      modifies this
      ensures available == !(missing || old(status).Unavailable?)
      ensures View() == if available then old(View()) else Next(old(View()), SessionLost)
    {
      if missing {
        var ok := SetConversationStatus(Unavailable);
        assert ok;
      }
      available := !status.Unavailable?;
      if !available {
        active, past := None, past.(dropped := true);
      }
    }

    /** The caller's continuation: a failed run's handler, or the return from the title run. */
    method Resume()
      requires Enabled(View(), Resumed)
      modifies this
      ensures View() == Next(old(View()), Resumed)
    {
      if pc.Rethrown? {
        SetConversationReadyUnlessUnavailable();
        queue := queue + [Errored];
        ended := true;
      } else {
        ended := true;
        FinishRun(Main);
        SetConversationReadyUnlessUnavailable();
      }
      pc := Finished;
    }
  }

  /** Once decided, the filter holds nothing, so a second flush shows nothing. */
  lemma NothingHeld(s: State)
    requires s.answer.filter.decided
    ensures CaughtHolding(s) == Caught(s, [])
  {
    hide Caught;
    CaughtAnswer(s, []);
    assert s.answer.content + "" == s.answer.content;
  }

  /** A caught error field by field. */
  lemma CaughtParts(s: State, late: seq<Event>)
    ensures Caught(s, late) ==
      s.(pc := if s.flags.main then Finished else Rethrown, active := Finish(s.active, Main),
         status := ReadyUnlessUnavailable(s.status), queue := s.queue + CaughtEvents(s.flags) + late,
         ended := s.ended || s.flags.main)
  {
    hide AbortEvents;
    assert s.queue + (CaughtEvents(s.flags) + late) == s.queue + CaughtEvents(s.flags) + late;
  }

  lemma CaughtAnswer(s: State, late: seq<Event>)
    ensures Caught(s, late).answer == s.answer
  {
  }

  // ----- whole runs -----

  /** A finalizer's release is legal from every status, and so is giving the session up. */
  lemma ReleaseIsAlwaysLegal(from: Status)
    ensures CanTransition(from, Ready)
    ensures CanTransition(from, Unavailable) && (!from.Ready? ==> !CanTransition(from, Running) || from.Running?)
  {
  }

  // ----- the shape of a step -----

  function Remaining(pc: Pc): nat {
    match pc
    case Opening => 5
    case Loading => 4
    case Working => 3
    case Estimating => 2
    case Titling => 2
    case Unwinding => 1
    case Rethrown => 1
    case Finished => 0
  }

  lemma OverShape(s: State, pc: Pc, events: seq<Event>, ended: bool)
    ensures var t := Over(s, pc, events, ended);
      t.kind == s.kind && t.pc == pc && (t.status.Unavailable? <==> s.status.Unavailable?)
  {
  }

  lemma CaughtShape(s: State, late: seq<Event>)
    ensures var t := Caught(s, late);
      t.kind == s.kind && (t.pc.Finished? || t.pc.Rethrown?) && (t.status.Unavailable? <==> s.status.Unavailable?)
  {
    hide Over, AbortEvents;
    OverShape(s, Finished, AbortEvents(s.flags.warning) + late, true);
    OverShape(s, Rethrown, [Completed(Main, Failed)] + late, false);
  }

  lemma ChatShape(s: State, work: Work)
    ensures var t := ChatSettled(s, work);
      t.kind == s.kind && (t.pc.Finished? || t.pc.Rethrown? || t.pc.Titling?)
      && (t.status.Unavailable? <==> s.status.Unavailable?)
  {
    hide Caught, Completing, Concluded, ShowsNothing;
    if work.Rejected? {
      CaughtShape(s, TextEvents(ThinkingFilter.FlushStep(s.answer.filter).1));
    } else {
      var t := Completing(s, work.thinking, work.reasoning);
      CompletingShape(s, work.thinking, work.reasoning);
      CaughtShape(t, []);
      ConcludedShape(t, work.syncFails, work.title);
    }
  }

  /** Completing the answer touches the answer and the queue, nothing else. */
  lemma CompletingShape(s: State, thinking: string, reasoning: bool)
    ensures var t := Completing(s, thinking, reasoning);
      && t == s.(answer := t.answer, queue := t.queue)
      && t.answer.filter.decided
  {
    hide Trim;
  }

  lemma SyncableIsAvailable(status: Status)
    ensures CanTransition(status, Running) <==> status.Ready? || status.Running?
  {
  }

  lemma ConcludedShape(s: State, syncFails: bool, title: TitlePlan)
    ensures var t := Concluded(s, syncFails, title);
      t.kind == s.kind && (t.pc.Finished? || t.pc.Rethrown? || t.pc.Titling?)
      && (t.status.Unavailable? <==> s.status.Unavailable?)
  {
    hide Over, Caught, CanTransition, PublishedEvents;
    SyncableIsAvailable(s.status);
    var running := s.(status := Running);
    var plan := Planned(running, title);
    CaughtShape(s, []);
    CaughtShape(running, []);
    OverShape(running, Titling, PublishedEvents(plan), false);
    OverShape(running, Finished, PublishedEvents(plan), true);
  }

  lemma CompactShape(s: State, work: Work)
    ensures var t := CompactSettled(s, work);
      t.kind == s.kind && (t.pc.Finished? || t.pc.Rethrown? || t.pc.Estimating?)
      && (t.status.Unavailable? <==> s.status.Unavailable?)
  {
    hide Over, Caught, AbortEvents;
    CaughtShape(s, []);
    CaughtShape(s.(status := Compacting), []);
    OverShape(s.(status := Compacting), Finished, AbortEvents(s.flags.warning), true);
  }

  /** Each of the run's own continuations takes it closer to its end, and only the title's forgets a lost session. */
  lemma ProceedShape(s: State, step: Step)
    requires OwnStep(step) && Enabled(s, step)
    ensures var t := Proceed(s, step);
      t.kind == s.kind && Remaining(t.pc) < Remaining(s.pc)
      && (s.status.Unavailable? ==> (t.status.Unavailable? <==> !step.TitleSettled?))
  {
    hide SessionOpened, Over, ChatSettled, CompactSettled, TitleOver, Continued;
    match step
    case SessionBuilt(empty) => SessionShape(s, empty);
    case WorkSettled(work) =>
      if s.kind.Chat? { ChatShape(s, work); } else { CompactShape(s, work); }
    case Estimated => OverShape(s, Finished, [Compacted, Completed(Main, Succeeded)], true);
    case TitleSettled(result) => TitleShape(s, result);
    case Resumed => ContinuedShape(s);
    case StateLoaded =>
  }

  lemma SessionShape(s: State, empty: bool)
    ensures var t := SessionOpened(s, empty);
      t.kind == s.kind && (t.pc.Loading? || t.pc.Working? || t.pc.Finished? || t.pc.Rethrown?)
      && (t.status.Unavailable? <==> s.status.Unavailable?)
  {
    hide Over, Caught, AbortEvents;
    OverShape(s, Finished, AbortEvents(s.flags.warning), true);
    CaughtShape(s, []);
  }

  lemma TitleShape(s: State, result: TitleResult)
    ensures var t := TitleOver(s, result); t.kind == s.kind && t.pc.Unwinding? && t.status.Ready?
  {
    hide TitleEvents;
  }

  lemma ContinuedShape(s: State)
    ensures var t := Continued(s);
      t.kind == s.kind && t.pc.Finished? && (t.status.Unavailable? <==> s.status.Unavailable?)
  {
  }

  lemma AroundShape(s: State, step: Step)
    requires !OwnStep(step)
    ensures Around(s, step).kind == s.kind && Around(s, step).pc == s.pc
  {
    hide CanTransition, MainOver;
    match step
    case AbortRun(target) =>
    case AbortCompaction(managed) =>
    case Repair =>
    case SnapshotRead =>
    case _ =>
  }

  lemma {:induction false} EndsAppend(a: seq<Event>, b: seq<Event>, run: Run)
    ensures Ends(a + b, run) == Ends(a, run) + Ends(b, run)
    decreases |b|
  {
    if b == [] {
      assert a + b == a;
    } else {
      var n := |b| - 1;
      assert (a + b)[..|a + b| - 1] == a + b[..n];
      EndsAppend(a, b[..n], run);
    }
  }

  const ABORT_VERDICT := [Aborted(Main), Completed(Main, WasAborted)]

  /** Exactly one completion, and an abort is announced exactly when the completion says so. */
  predicate IsVerdict(ends: seq<Event>, run: Run) {
    ends == [Completed(run, Succeeded)] || ends == [Completed(run, Failed)]
    || ends == [Aborted(run), Completed(run, WasAborted)]
  }

  predicate InvMain(s: State) {
    && (s.pc.Loading? || s.pc.Titling? || s.pc.Unwinding? ==> s.kind.Chat?)
    && (s.pc.Estimating? ==> s.kind.Compact?)
    && (s.past.acceptedMain ==> s.flags.main)
    && if !MainOver(s) then
         && (s.active == Some(Main) || (s.past.dropped && s.active == None))
         && !s.ended && Ends(s.queue, Main) == []
         && (s.past.dropped && !s.past.released ==> s.status.Unavailable?)
         && (s.past.acceptedMain && !s.past.released && s.kind.Chat? ==> s.status.Aborting? || s.status.Unavailable?)
       else
         && IsVerdict(Ends(s.queue, Main), Main)
         && (s.past.acceptedMain && !s.past.released && s.kind.Chat? ==> Ends(s.queue, Main) == ABORT_VERDICT)
         && (s.pc.Titling? ==> s.active == Some(Title) || (s.past.dropped && s.active == None))
         && (!s.pc.Titling? ==> s.active == None)
         && (s.pc.Finished? ==> s.ended)
  }

  predicate InvTitle(s: State) {
    && (s.past.acceptedTitle ==> s.flags.title && MainOver(s) && !s.pc.Rethrown?)
    && (!MainOver(s) || s.pc.Titling? ==> Ends(s.queue, Title) == [])
    && (!MainOver(s) ==> !s.flags.title)
    && (s.pc.Unwinding? ==> IsVerdict(Ends(s.queue, Title), Title))
    && (s.pc.Finished? || s.pc.Rethrown? ==> Ends(s.queue, Title) == [] || IsVerdict(Ends(s.queue, Title), Title))
    && (s.past.acceptedTitle && !s.pc.Titling? ==>
         Ends(s.queue, Title) == [Aborted(Title), Completed(Title, WasAborted)])
  }

  predicate Inv(s: State) {
    InvMain(s) && InvTitle(s)
    && (s.pc.Finished? ==> s.status.Ready? || s.status.Unavailable?)
  }

  function End(e: Event, run: Run): seq<Event> {
    if (e.Aborted? || e.Completed?) && e.run == run then [e] else []
  }

  lemma EndsOne(e: Event, run: Run)
    ensures Ends([e], run) == End(e, run)
  {
    assert [e][..0] == [];
  }

  lemma EndsMore(events: seq<Event>, e: Event, run: Run)
    ensures Ends(events + [e], run) == Ends(events, run) + End(e, run)
  {
    hide End;
    EndsAppend(events, [e], run);
    EndsOne(e, run);
  }

  lemma EndsTwo(a: Event, b: Event, run: Run)
    ensures Ends([a, b], run) == End(a, run) + End(b, run)
  {
    hide End, Ends;
    EndsOne(a, run);
    EndsMore([a], b, run);
    assert [a] + [b] == [a, b];
  }

  lemma EndsThree(a: Event, b: Event, c: Event, run: Run)
    ensures Ends([a, b, c], run) == End(a, run) + End(b, run) + End(c, run)
  {
    hide End, Ends;
    EndsTwo(a, b, run);
    EndsMore([a, b], c, run);
    assert [a, b] + [c] == [a, b, c];
  }

  lemma AbortEventsEnd(warning: bool, run: Run)
    ensures Ends(AbortEvents(warning), run) == if run == Main then ABORT_VERDICT else []
  {
    hide Ends;
    EndsThree(Aborted(Main), AbortWarning, Completed(Main, WasAborted), run);
    EndsTwo(Aborted(Main), Completed(Main, WasAborted), run);
  }

  lemma PublishedEnds(title: TitlePlan, run: Run)
    ensures Ends(PublishedEvents(title), run) == if run == Main then [Completed(Main, Succeeded)] else []
  {
    hide Ends;
    EndsTwo(Answered, Completed(Main, Succeeded), run);
    EndsThree(Answered, Completed(Main, Succeeded), Titled, run);
    EndsThree(Answered, Completed(Main, Succeeded), Started(Title), run);
  }

  lemma TitleEventsEnd(aborted: bool, name: NameSource, result: TitleResult, run: Run)
    ensures Ends(TitleEvents(aborted, name, result), run) ==
      if run == Main then []
      else if aborted then [Aborted(Title), Completed(Title, WasAborted)]
      else [Completed(Title, if result.TitleFailed? then Failed else Succeeded)]
  {
    hide Ends;
    if aborted {
      EndsTwo(Aborted(Title), Completed(Title, WasAborted), run);
    } else if result.TitleFailed? {
      EndsOne(Completed(Title, Failed), run);
    } else {
      EndsTwo(Titled, Completed(Title, Succeeded), run);
      EndsOne(Completed(Title, Succeeded), run);
      assert [] + [Completed(Title, Succeeded)] == [Completed(Title, Succeeded)];
      assert [Titled] + [Completed(Title, Succeeded)] == [Titled, Completed(Title, Succeeded)];
    }
  }

  /** Ending the main run with one verdict keeps the invariant. */
  lemma OverKeepsInv(s: State, pc: Pc, events: seq<Event>, ended: bool)
    requires Inv(s) && !MainOver(s) && (pc.Finished? || pc.Rethrown?) && (pc.Finished? ==> ended)
    requires IsVerdict(Ends(events, Main), Main) && Ends(events, Title) == []
    requires s.past.acceptedMain && !s.past.released && s.kind.Chat? ==> Ends(events, Main) == ABORT_VERDICT
    ensures Inv(Over(s, pc, events, ended))
  {
    hide Ends, IsVerdict;
    EndsAppend(s.queue, events, Main);
    EndsAppend(s.queue, events, Title);
    assert [] + Ends(events, Main) == Ends(events, Main);
  }

  lemma TextEnds(text: string, run: Run)
    ensures Ends(TextEvents(text), run) == []
  {
    EndsOne(Delta(text), run);
  }

  /** Whatever status a sync has written by then, a caught error ends the run with the verdict its flag asks for. */
  lemma CaughtKeepsInv(s: State, status: Status, late: string)
    requires Inv(s) && !MainOver(s)
    requires s.past.acceptedMain && !s.past.released && s.kind.Chat? ==> status == s.status
    requires s.past.dropped && !s.past.released ==> status == s.status
    ensures Inv(Caught(s.(status := status), TextEvents(late)))
    ensures Ends(Caught(s.(status := status), TextEvents(late)).queue, Main) == CaughtEnds(s.flags)
  {
    hide Ends, TextEvents, AbortEvents;
    var events := CaughtEvents(s.flags) + TextEvents(late);
    CaughtEventsEnd(s.flags, late, Main);
    CaughtEventsEnd(s.flags, late, Title);
    var t := s.(status := status);
    OverKeepsInv(t, if s.flags.main then Finished else Rethrown, events, s.flags.main);
    EndsAppend(s.queue, events, Main);
    assert [] + Ends(events, Main) == Ends(events, Main);
  }

  function CaughtEvents(flags: Flags): seq<Event> {
    if flags.main then AbortEvents(flags.warning) else [Completed(Main, Failed)]
  }

  function CaughtEnds(flags: Flags): seq<Event> {
    if flags.main then ABORT_VERDICT else [Completed(Main, Failed)]
  }

  lemma CaughtEventsEnd(flags: Flags, late: string, run: Run)
    ensures Ends(CaughtEvents(flags) + TextEvents(late), run) == if run == Main then CaughtEnds(flags) else []
  {
    hide Ends, TextEvents, AbortEvents;
    AbortEventsEnd(flags.warning, run);
    EndsOne(Completed(Main, Failed), run);
    TextEnds(late, run);
    EndsAppend(CaughtEvents(flags), TextEvents(late), run);
  }

  lemma AbortedKeepsInv(s: State, status: Status)
    requires Inv(s) && !MainOver(s) && s.flags.main && (s.kind.Chat? ==> status == s.status)
    requires s.past.dropped && !s.past.released ==> status == s.status
    ensures Inv(Over(s.(status := status), Finished, AbortEvents(s.flags.warning), true))
    ensures Ends(Over(s.(status := status), Finished, AbortEvents(s.flags.warning), true).queue, Main) == ABORT_VERDICT
  {
    hide Ends;
    AbortEventsEnd(s.flags.warning, Main);
    AbortEventsEnd(s.flags.warning, Title);
    OverKeepsInv(s.(status := status), Finished, AbortEvents(s.flags.warning), true);
    EndsAppend(s.queue, AbortEvents(s.flags.warning), Main);
  }

  /** There is something to show, the row may still be set running, and the sync succeeds. */
  predicate Publishes(s: State, work: Work) {
    work.Resolved? && !ShowsNothing(s, work) && !work.syncFails && (s.status.Ready? || s.status.Running?)
  }

  /** The answer is published exactly when there is one and the sync goes through; else an abort asked for wins. */
  lemma ChatVerdict(s: State, work: Work)
    requires Inv(s) && s.pc.Working? && s.kind.Chat?
    ensures var t := Next(s, WorkSettled(work)); var ends := Ends(t.queue, Main);
      && Inv(t) && MainOver(t)
      && (ends == [Completed(Main, Succeeded)] <==> Publishes(s, work))
      && (ends == ABORT_VERDICT <==> s.flags.main && !Publishes(s, work))
  {
    hide Ends, Inv, Caught, Concluded, Completing, ShowsNothing;
    if work.Rejected? {
      var held := ThinkingFilter.FlushStep(s.answer.filter).1;
      CaughtKeepsInv(s, s.status, held) by { Unfinished(s); }
      CaughtIsOver(s, TextEvents(held));
      AnswerDoesNotMatter(Caught(s, TextEvents(held)), CaughtHolding(s).answer);
    } else {
      var t := Completing(s, work.thinking, work.reasoning);
      CompletingShape(s, work.thinking, work.reasoning);
      CompletingKeepsInv(s, work.thinking, work.reasoning);
      if ShowsNothing(s, work) {
        CaughtKeepsInv(t, t.status, "") by { Unfinished(t); }
        CaughtIsOver(t, []);
      } else {
        ConcludedVerdict(t, work.syncFails, work.title);
      }
    }
  }

  lemma Unfinished(s: State)
    requires s.pc.Working?
    ensures !MainOver(s)
  {
  }

  lemma CaughtIsOver(s: State, late: seq<Event>)
    ensures MainOver(Caught(s, late))
  {
  }

  lemma AnswerDoesNotMatter(s: State, answer: Answer)
    requires Inv(s)
    ensures Inv(s.(answer := answer)) && MainOver(s.(answer := answer)) == MainOver(s)
  {
    hide Ends, IsVerdict;
  }

  /** Text shown before the verdict leaves every end where it was. */
  lemma CompletingKeepsInv(s: State, thinking: string, reasoning: bool)
    requires Inv(s) && s.pc.Working?
    ensures Inv(Completing(s, thinking, reasoning))
  {
    hide Ends, IsVerdict, Trim, TextEvents, ThinkingFilter.FlushStep;
    var t := Completing(s, thinking, reasoning);
    CompletingShape(s, thinking, reasoning);
    CompletingEnds(s, thinking, reasoning, Main);
    CompletingEnds(s, thinking, reasoning, Title);
  }

  lemma CompletingEnds(s: State, thinking: string, reasoning: bool, run: Run)
    ensures Ends(Completing(s, thinking, reasoning).queue, run) == Ends(s.queue, run)
  {
    hide Ends, Trim, ThinkingFilter.FlushStep, TextEvents;
    var held := ThinkingFilter.FlushStep(s.answer.filter).1;
    var fallback := Delta(Trim(thinking));
    TextEnds(held, run);
    EndsAppend(s.queue, TextEvents(held), run);
    EndsMore(s.queue + TextEvents(held), fallback, run);
    assert Ends(s.queue, run) + [] == Ends(s.queue, run);
  }

  lemma ConcludedVerdict(s: State, syncFails: bool, title: TitlePlan)
    requires Inv(s) && s.pc.Working? && s.kind.Chat?
    ensures var t := Concluded(s, syncFails, title); var ends := Ends(t.queue, Main);
      var published := !syncFails && (s.status.Ready? || s.status.Running?);
      && Inv(t) && MainOver(t)
      && ends == if published then [Completed(Main, Succeeded)] else CaughtEnds(s.flags)
  {
    hide Ends, Inv, Caught, Published, CanTransition;
    SyncableIsAvailable(s.status);
    if !CanTransition(s.status, Running) {
      CaughtKeepsInv(s, s.status, "");
      CaughtIsOver(s, []);
    } else if syncFails {
      CaughtSyncing(s);
      CaughtIsOver(s.(status := Running), []);
    } else {
      PublishedKeepsInv(s, title);
    }
  }

  /** A sync that set the row running and then failed: no abort can have been accepted unless the row was released. */
  lemma CaughtSyncing(s: State)
    requires Inv(s) && s.pc.Working? && s.kind.Chat? && (s.status.Ready? || s.status.Running?)
    ensures Inv(Caught(s.(status := Running), []))
    ensures Ends(Caught(s.(status := Running), []).queue, Main) == CaughtEnds(s.flags)
  {
    hide Ends, Caught;
    CaughtKeepsInv(s, Running, "");
  }

  lemma PublishedKeepsInv(s: State, title: TitlePlan)
    requires Inv(s) && s.pc.Working? && s.kind.Chat? && (s.status.Ready? || s.status.Running?)
    ensures var t := Published(s.(status := Running), title);
      Inv(t) && MainOver(t) && Ends(t.queue, Main) == [Completed(Main, Succeeded)]
  {
    hide Ends, PublishedEvents;
    PublishedTrace(s, title, Main);
    PublishedTrace(s, title, Title);
  }

  lemma PublishedTrace(s: State, title: TitlePlan, run: Run)
    requires Ends(s.queue, run) == []
    ensures Ends(Published(s.(status := Running), title).queue, run)
         == if run == Main then [Completed(Main, Succeeded)] else []
  {
    hide Ends, PublishedEvents, Published;
    var plan := Planned(s, title);
    PublishedEnds(plan, run);
    PublishedQueue(s.(status := Running), title);
    EndsAppend(s.queue, PublishedEvents(plan), run);
    assert [] + Ends(PublishedEvents(plan), run) == Ends(PublishedEvents(plan), run);
  }

  lemma PublishedQueue(s: State, title: TitlePlan)
    ensures Published(s, title).queue == s.queue + PublishedEvents(Planned(s, title))
  {
    hide PublishedEvents, Over;
    OverQueue(s, Titling, PublishedEvents(Planned(s, title)), false);
    OverQueue(s, Finished, PublishedEvents(Planned(s, title)), true);
  }

  lemma OverQueue(s: State, pc: Pc, events: seq<Event>, ended: bool)
    ensures Over(s, pc, events, ended).queue == s.queue + events
  {
  }

  /** Once its session stands, a run asked to stop is aborted, a compaction of nothing fails, and any other goes on. */
  lemma SessionVerdict(s: State, empty: bool)
    requires Inv(s) && s.pc.Opening?
    ensures var t := Next(s, SessionBuilt(empty)); var ends := Ends(t.queue, Main);
      && Inv(t)
      && (s.flags.main ==> MainOver(t) && ends == ABORT_VERDICT)
      && (!s.flags.main && s.kind.Compact? && empty ==> MainOver(t) && ends == [Completed(Main, Failed)])
      && (!s.flags.main && !(s.kind.Compact? && empty) ==> !MainOver(t) && t.queue == s.queue)
  {
    hide Ends;
    if s.flags.main {
      AbortedKeepsInv(s, s.status);
    } else if s.kind.Compact? && empty {
      CaughtKeepsInv(s, s.status, "");
      CaughtIsOver(s, TextEvents(""));
    }
  }

  /** A compaction's abort counts when it is asked for before the sync, by either route; after that it is too late. */
  lemma CompactVerdict(s: State, work: Work)
    requires Inv(s) && s.pc.Working? && s.kind.Compact?
    ensures var t := Next(s, WorkSettled(work)); var ends := Ends(t.queue, Main);
      && Inv(t)
      && (s.flags.main ==> MainOver(t) && ends == ABORT_VERDICT)
      && (!s.flags.main && work.Resolved? && !work.syncFails && (s.status.Ready? || s.status.Compacting?) ==>
           t.pc.Estimating?)
      && (!s.flags.main && !(work.Resolved? && !work.syncFails && (s.status.Ready? || s.status.Compacting?)) ==>
           MainOver(t) && ends == [Completed(Main, Failed)])
  {
    hide Ends;
    if work.Resolved? && CanTransition(s.status, Compacting) {
      if work.syncFails {
        CaughtKeepsInv(s, Compacting, "");
      } else if s.flags.main {
        AbortedKeepsInv(s, Compacting);
      }
    } else {
      CaughtKeepsInv(s, s.status, "");
    }
  }

  lemma EstimatedKeepsInv(s: State)
    requires Inv(s) && s.pc.Estimating?
    ensures Inv(Next(s, Estimated)) && MainOver(Next(s, Estimated))
      && Ends(Next(s, Estimated).queue, Main) == [Completed(Main, Succeeded)]
  {
    hide Ends;
    var events := [Compacted, Completed(Main, Succeeded)];
    forall run ensures Ends(events, run) == if run == Main then [Completed(Main, Succeeded)] else [] {
      EndsTwo(Compacted, Completed(Main, Succeeded), run);
    }
    OverKeepsInv(s, Finished, events, true);
    EndsAppend(s.queue, events, Main);
  }

  lemma TitleKeepsInv(s: State, result: TitleResult)
    requires Inv(s) && s.pc.Titling?
    ensures Inv(Next(s, TitleSettled(result)))
  {
    hide Ends, TitleEvents;
    TitleEventsEnd(s.flags.title, s.name, result, Main);
    TitleEventsEnd(s.flags.title, s.name, result, Title);
    EndsAppend(s.queue, TitleEvents(s.flags.title, s.name, result), Main);
    EndsAppend(s.queue, TitleEvents(s.flags.title, s.name, result), Title);
  }

  lemma StepKeepsInv(s: State, step: Step)
    requires Inv(s) && Enabled(s, step)
    ensures Inv(Next(s, step))
  {
    hide Next, Inv, Proceed, Around;
    match step
    case WorkSettled(work) =>
      if s.kind.Chat? { ChatVerdict(s, work); } else { CompactVerdict(s, work); }
    case SessionBuilt(empty) => SessionKeepsInv(s, empty);
    case StateLoaded => LoadedKeepsInv(s);
    case Estimated => EstimatedKeepsInv(s);
    case TitleSettled(result) => TitleKeepsInv(s, result);
    case Resumed => ResumedKeepsInv(s);
    case _ => OtherStepKeepsInv(s, step);
  }

  lemma SessionKeepsInv(s: State, empty: bool)
    requires Inv(s) && s.pc.Opening?
    ensures Inv(Next(s, SessionBuilt(empty)))
  {
    hide Ends, IsVerdict, AbortEvents;
    if s.flags.main {
      AbortedKeepsInv(s, s.status);
    } else if s.kind.Compact? && empty {
      CaughtKeepsInv(s, s.status, "");
    }
  }

  lemma LoadedKeepsInv(s: State)
    requires Inv(s) && s.pc.Loading?
    ensures Inv(Next(s, StateLoaded))
  {
    hide Ends, IsVerdict;
  }

  lemma ResumedKeepsInv(s: State)
    requires Inv(s) && (s.pc.Unwinding? || s.pc.Rethrown?)
    ensures Inv(Next(s, Resumed))
  {
    hide Ends, IsVerdict;
    EndsMore(s.queue, Errored, Main);
    EndsMore(s.queue, Errored, Title);
    assert Ends(s.queue, Main) + [] == Ends(s.queue, Main) && Ends(s.queue, Title) + [] == Ends(s.queue, Title);
  }

  lemma StreamedKeepsInv(s: State, delta: string)
    requires Inv(s) && Enabled(s, Streamed(delta))
    ensures Inv(Next(s, Streamed(delta)))
  {
    hide Ends, IsVerdict, TextEvents, ThinkingFilter.PushStep;
    var text := ThinkingFilter.PushStep(s.answer.filter, delta).1;
    TextEnds(text, Main);
    TextEnds(text, Title);
    EndsAppend(s.queue, TextEvents(text), Main);
    EndsAppend(s.queue, TextEvents(text), Title);
    assert Ends(s.queue, Main) + [] == Ends(s.queue, Main) && Ends(s.queue, Title) + [] == Ends(s.queue, Title);
  }

  lemma AbortRunKeepsInv(s: State, target: Run)
    requires Inv(s)
    ensures Inv(Next(s, AbortRun(target)))
  {
    hide Ends, IsVerdict;
  }

  /** Aborts, other writers of the status, and streamed text. */
  lemma OtherStepKeepsInv(s: State, step: Step)
    requires Inv(s) && Enabled(s, step) && !OwnStep(step)
    ensures Inv(Next(s, step))
  {
    hide Ends, IsVerdict, Proceed, TextEvents, ThinkingFilter.PushStep, CanTransition;
    match step
    case Streamed(delta) => StreamedKeepsInv(s, delta);
    case AbortRun(target) => AbortRunKeepsInv(s, target);
    case AbortCompaction(managed) =>
    case Repair =>
    case _ =>
  }

  predicate CanRun(s: State, steps: seq<Step>)
    decreases |steps|
  {
    steps == [] || (Enabled(s, steps[0]) && CanRun(Next(s, steps[0]), steps[1..]))
  }

  function After(s: State, steps: seq<Step>): State
    requires CanRun(s, steps)
    decreases |steps|
  {
    if steps == [] then s else After(Next(s, steps[0]), steps[1..])
  }

  lemma {:induction false} RunKeepsInv(s: State, steps: seq<Step>)
    requires Inv(s) && CanRun(s, steps)
    ensures Inv(After(s, steps))
    decreases |steps|
  {
    hide Inv, Next, Enabled;
    if steps != [] {
      StepKeepsInv(s, steps[0]);
      RunKeepsInv(Next(s, steps[0]), steps[1..]);
    }
  }

  lemma StartInv(kind: Kind)
    ensures Inv(Start(kind))
  {
    EndsOne(Started(Main), Main);
    EndsOne(Started(Main), Title);
  }

  /**
   * An abort answered yes is final for a chat: unless some other writer sets the row to ready meanwhile, however
   * the steps interleave the run cannot end any other way than run.aborted and then its one run.completed.
   */
  lemma AcceptedAbortWins(steps: seq<Step>)
    requires CanRun(Start(Chat), steps)
    ensures var t := After(Start(Chat), steps);
      && (t.past.acceptedMain && !t.past.released && MainOver(t) ==> Ends(t.queue, Main) == ABORT_VERDICT)
      && (t.past.acceptedMain && !t.past.released && !MainOver(t) ==> !CanTransition(t.status, Running))
      && (t.past.acceptedTitle && !t.pc.Titling? ==>
           Ends(t.queue, Title) == [Aborted(Title), Completed(Title, WasAborted)])
  {
    hide Ends, Next, Enabled;
    StartInv(Chat);
    RunKeepsInv(Start(Chat), steps);
    KindStays(Start(Chat), steps);
  }

  lemma {:induction false} KindStays(s: State, steps: seq<Step>)
    requires CanRun(s, steps)
    ensures After(s, steps).kind == s.kind
    decreases |steps|
  {
    hide Enabled;
    if steps != [] {
      StepKeepsKind(s, steps[0]);
      hide Next;
      KindStays(Next(s, steps[0]), steps[1..]);
    }
  }

  lemma StepKeepsKind(s: State, step: Step)
    requires Enabled(s, step)
    ensures Next(s, step).kind == s.kind
  {
    hide Proceed, Around;
    if OwnStep(step) { ProceedShape(s, step); } else { AroundShape(s, step); }
  }

  /** Under any interleaving a run of either kind has one verdict once over, and gives its slot and row back. */
  lemma OneVerdict(kind: Kind, steps: seq<Step>)
    requires CanRun(Start(kind), steps)
    ensures var t := After(Start(kind), steps);
      && (MainOver(t) ==> IsVerdict(Ends(t.queue, Main), Main))
      && (!MainOver(t) ==> Ends(t.queue, Main) == [] && (t.active == Some(Main) || t.past.dropped))
      && (t.pc.Finished? ==> t.ended && t.active == None && (t.status.Ready? || t.status.Unavailable?))
      && (t.pc.Finished? ==> Ends(t.queue, Title) == [] || IsVerdict(Ends(t.queue, Title), Title))
  {
    hide Ends, Next, Enabled;
    StartInv(kind);
    RunKeepsInv(Start(kind), steps);
  }

  // ----- the run always moves on -----

  function OwnSteps(steps: seq<Step>): nat {
    if steps == [] then 0 else OwnSteps(steps[1..]) + if OwnStep(steps[0]) then 1 else 0
  }

  /** Each of the run's own continuations takes it closer to its end, and nothing else moves it back: five at most. */
  lemma {:induction false} RunEnds(s: State, steps: seq<Step>)
    requires CanRun(s, steps)
    ensures OwnSteps(steps) + Remaining(After(s, steps).pc) <= Remaining(s.pc)
    decreases |steps|
  {
    hide Enabled;
    if steps != [] {
      StepMovesOn(s, steps[0]);
      hide Next;
      RunEnds(Next(s, steps[0]), steps[1..]);
    }
  }

  /** Which steps of a run are its own. */
  function OwnAt(steps: seq<Step>): set<nat> {
    set i: nat | i < |steps| && OwnStep(steps[i])
  }

  lemma FiveAtMost(kind: Kind, steps: seq<Step>)
    requires CanRun(Start(kind), steps)
    ensures |OwnAt(steps)| <= 5
  {
    hide Next, Enabled;
    RunEnds(Start(kind), steps);
    OwnCount(steps);
  }

  lemma {:induction false} OwnCount(steps: seq<Step>)
    ensures |OwnAt(steps)| == OwnSteps(steps)
    decreases |steps|
  {
    hide OwnStep;
    if steps != [] {
      var rest := OwnAt(steps[1..]);
      OwnCount(steps[1..]);
      ShiftSize(rest);
      forall i: nat ensures i in OwnAt(steps) <==> i in Shifted(rest) || (i == 0 && OwnStep(steps[0])) {
        ShiftMember(rest, i);
        assert 0 < i < |steps| ==> steps[i] == steps[1..][i - 1];
      }
      ShiftMember(rest, 0);
      assert OwnAt(steps) == Shifted(rest) + if OwnStep(steps[0]) then {0} else {};
    }
  }

  function Shifted(s: set<nat>): set<nat> {
    set i: nat | i in s :: i + 1
  }

  lemma {:induction false} ShiftSize(s: set<nat>)
    ensures |Shifted(s)| == |s|
    decreases |s|
  {
    if s == {} {
      assert Shifted(s) == {};
    } else {
      var x :| x in s;
      ShiftSize(s - {x});
      forall i: nat ensures i in Shifted(s) <==> i in Shifted(s - {x}) || i == x + 1 {
        ShiftMember(s, i);
        ShiftMember(s - {x}, i);
      }
      assert Shifted(s) == Shifted(s - {x}) + {x + 1};
      ShiftMember(s - {x}, x + 1);
    }
  }

  lemma ShiftMember(s: set<nat>, i: nat)
    ensures i in Shifted(s) <==> i > 0 && i - 1 in s
  {
    if i > 0 && i - 1 in s {
      var k: nat := i - 1;
      assert k + 1 in Shifted(s);
    }
  }

  lemma StepMovesOn(s: State, step: Step)
    requires Enabled(s, step)
    ensures Remaining(Next(s, step).pc) + (if OwnStep(step) then 1 else 0) <= Remaining(s.pc)
  {
    hide Proceed, Around;
    if OwnStep(step) { ProceedShape(s, step); } else { AroundShape(s, step); }
  }

  // ----- where an accepted abort does not win -----

  lemma VerdictStays(s: State, step: Step)
    requires Inv(s) && MainOver(s) && Enabled(s, step)
    ensures MainOver(Next(s, step)) && Ends(Next(s, step).queue, Main) == Ends(s.queue, Main)
  {
    hide Ends, TitleEvents, IsVerdict, Proceed;
    if OwnStep(step) {
      OwnVerdictStays(s, step);
    }
  }

  lemma OwnVerdictStays(s: State, step: Step)
    requires MainOver(s) && Enabled(s, step) && OwnStep(step)
    ensures MainOver(Next(s, step)) && Ends(Next(s, step).queue, Main) == Ends(s.queue, Main)
  {
    hide Ends, TitleEvents, ChatSettled, CompactSettled, Over, SessionOpened;
    assert Ends(s.queue, Main) + [] == Ends(s.queue, Main);
    if step.TitleSettled? {
      TitleEventsEnd(s.flags.title, s.name, step.result, Main);
      EndsAppend(s.queue, TitleEvents(s.flags.title, s.name, step.result), Main);
    } else {
      EndsMore(s.queue, Errored, Main);
    }
  }

  lemma {:induction false} VerdictIsFinal(s: State, steps: seq<Step>)
    requires Inv(s) && MainOver(s) && CanRun(s, steps)
    ensures MainOver(After(s, steps)) && Ends(After(s, steps).queue, Main) == Ends(s.queue, Main)
    decreases |steps|
  {
    hide Ends, Next, Enabled, Inv, MainOver;
    if steps != [] {
      VerdictStays(s, steps[0]);
      StepKeepsInv(s, steps[0]);
      VerdictIsFinal(Next(s, steps[0]), steps[1..]);
    }
  }

  /** Once a compaction has synced, no abort changes its verdict, though aborts are still answered yes. */
  lemma {:induction false} SyncedCompactionSucceeds(s: State, steps: seq<Step>)
    requires Inv(s) && s.pc.Estimating? && CanRun(s, steps)
    ensures var t := After(s, steps); MainOver(t) ==> Ends(t.queue, Main) == [Completed(Main, Succeeded)]
    decreases |steps|
  {
    hide Ends, Inv, Proceed, Around;
    if steps != [] {
      var t := Next(s, steps[0]);
      StepKeepsInv(s, steps[0]);
      if steps[0].Estimated? {
        EstimatedKeepsInv(s);
        VerdictIsFinal(t, steps[1..]);
      } else {
        AroundShape(s, steps[0]);
        SyncedCompactionSucceeds(t, steps[1..]);
      }
    }
  }

  lemma RunCons(s: State, step: Step, rest: seq<Step>)
    requires Enabled(s, step) && CanRun(Next(s, step), rest)
    ensures CanRun(s, [step] + rest) && After(s, [step] + rest) == After(Next(s, step), rest)
  {
    hide Next, Enabled;
    assert ([step] + rest)[1..] == rest;
  }

  const ANSWERED := WorkSettled(Resolved("thought", false, false, NoTitle))

  const ABORTED_THEN_RELEASED :=
    [SessionBuilt(false)] + ([StateLoaded] + ([AbortRun(Main)] + ([AbortCompaction(true)] + [ANSWERED])))

  lemma PublishedAtOnce(s: State)
    requires s.pc.Working? && s.kind.Chat? && s.status.Ready? && !ShowsNothing(s, ANSWERED.work)
    ensures var t := Next(s, ANSWERED); t.pc.Finished? && t.past == s.past
  {
    hide Published, CanTransition, Caught, CompactSettled, Completing, ShowsNothing;
    var work := ANSWERED.work;
    CompletingShape(s, work.thinking, work.reasoning);
    var t := Completing(s, work.thinking, work.reasoning);
    SyncableIsAvailable(t.status);
    OverAtOnce(t.(status := Running));
  }

  lemma OverAtOnce(s: State)
    ensures Published(s, NoTitle).pc.Finished? && Published(s, NoTitle).past == s.past
  {
    hide PublishedEvents;
  }

  lemma ThoughtShows()
    ensures Trim("thought") == "thought"
  {
    TrimTrimmed("thought");
  }

  /** The compaction route's abort, used on a chat, releases the row: the answer overtakes an accepted abort. */
  lemma ReleasedAbortPublishes()
    ensures CanRun(Start(Chat), ABORTED_THEN_RELEASED)
    ensures var t := After(Start(Chat), ABORTED_THEN_RELEASED);
      t.pc.Finished? && t.past.acceptedMain && Ends(t.queue, Main) == [Completed(Main, Succeeded)]
  {
    hide Ends, ChatSettled, CompactSettled, Trim;
    var loading := Start(Chat).(pc := Loading);
    var working := loading.(pc := Working);
    var aborting := working.(flags := Flags(true, false, false), past := NOTHING_YET.(acceptedMain := true),
      status := Aborting);
    var released := aborting.(status := Ready, past := NOTHING_YET.(acceptedMain := true, released := true));
    StartInv(Chat);
    ThoughtShows();
    ReleasedInv(released);
    ChatVerdict(released, ANSWERED.work);
    PublishedAtOnce(released);
    var over := Next(released, ANSWERED);
    assert Next(Start(Chat), SessionBuilt(false)) == loading && Next(loading, StateLoaded) == working;
    assert Next(working, AbortRun(Main)) == aborting && Next(aborting, AbortCompaction(true)) == released;
    assert [ANSWERED] + [] == [ANSWERED];
    RunCons(released, ANSWERED, []);
    RunCons(aborting, AbortCompaction(true), [ANSWERED]);
    RunCons(working, AbortRun(Main), [AbortCompaction(true)] + [ANSWERED]);
    RunCons(loading, StateLoaded, [AbortRun(Main)] + ([AbortCompaction(true)] + [ANSWERED]));
    RunCons(Start(Chat), SessionBuilt(false),
      [StateLoaded] + ([AbortRun(Main)] + ([AbortCompaction(true)] + [ANSWERED])));
  }

  lemma ReleasedInv(s: State)
    requires Inv(Start(Chat)) && s == Start(Chat).(pc := Working, flags := s.flags, past := s.past, status := s.status)
    requires s.flags == Flags(true, false, false) && s.past == NOTHING_YET.(acceptedMain := true, released := true)
    ensures Inv(s)
  {
    hide Ends, IsVerdict;
  }

  /** Only the title run's finalizer sets the row ready when the session was found missing meanwhile. */
  lemma OnlyTheTitleForgetsUnavailable(s: State, step: Step)
    requires Enabled(s, step) && s.status.Unavailable?
    ensures !Next(s, step).status.Unavailable? <==>
      step.TitleSettled? || step.Repair? || (step.AbortCompaction? && step.managed)
  {
    hide Proceed;
    if OwnStep(step) { ProceedShape(s, step); }
  }

  const TITLED := WorkSettled(Resolved("thought", false, false, Llm))

  lemma TitlingNext(s: State)
    requires s.pc.Working? && s.kind.Chat? && s.status.Running? && s.name.Fallback? && !ShowsNothing(s, TITLED.work)
    ensures var t := Next(s, TITLED); t.pc.Titling? && t.active == Some(Title) && t.status.Ready?
  {
    hide PublishedEvents, Caught, CompactSettled, Completing, ShowsNothing;
    CompletingShape(s, TITLED.work.thinking, TITLED.work.reasoning);
  }

  /** A chat whose session is found missing while its title is made ends with its row ready again. */
  lemma TitleRunForgets()
    ensures var steps := [SessionBuilt(false)]
                         + ([StateLoaded] + ([TITLED] + ([MarkUnavailable] + [TitleSettled(GotTitle)])));
      CanRun(Start(Chat), steps) && After(Start(Chat), steps).status.Ready?
  {
    hide ChatSettled, CompactSettled, Trim, TitleEvents;
    var loading := Start(Chat).(pc := Loading);
    var working := loading.(pc := Working);
    ThoughtShows();
    TitlingNext(working);
    var titling := Next(working, TITLED);
    var missing := Next(titling, MarkUnavailable);
    var titled := TitleSettled(GotTitle);
    assert Next(Start(Chat), SessionBuilt(false)) == loading && Next(loading, StateLoaded) == working;
    assert [titled] + [] == [titled];
    RunCons(missing, titled, []);
    RunCons(titling, MarkUnavailable, [titled]);
    RunCons(working, TITLED, [MarkUnavailable] + [titled]);
    RunCons(loading, StateLoaded, [TITLED] + ([MarkUnavailable] + [titled]));
    RunCons(Start(Chat), SessionBuilt(false), [StateLoaded] + ([TITLED] + ([MarkUnavailable] + [titled])));
  }

  /** A compaction that answers an abort yes after its sync and completes all the same. */
  lemma LateAbortCompletes()
    ensures var steps := [SessionBuilt(false)] + ([ANSWERED] + ([AbortRun(Main)] + [Estimated]));
      CanRun(Start(Compact), steps)
      && (var t := After(Start(Compact), steps);
          t.pc.Finished? && t.past.acceptedMain && Ends(t.queue, Main) == [Completed(Main, Succeeded)])
  {
    hide Ends, ChatSettled;
    var working := Start(Compact).(pc := Working);
    var synced := working.(pc := Estimating);
    var aborting := synced.(flags := Flags(true, false, false), past := NOTHING_YET.(acceptedMain := true),
                            status := Aborting);
    StartInv(Compact);
    assert Next(Start(Compact), SessionBuilt(false)) == working && Next(working, ANSWERED) == synced;
    assert Next(synced, AbortRun(Main)) == aborting;
    StepKeepsInv(Start(Compact), SessionBuilt(false));
    StepKeepsInv(working, ANSWERED);
    StepKeepsInv(synced, AbortRun(Main));
    EstimatedKeepsInv(aborting);
    assert [Estimated] + [] == [Estimated];
    RunCons(aborting, Estimated, []);
    RunCons(synced, AbortRun(Main), [Estimated]);
    RunCons(working, ANSWERED, [AbortRun(Main)] + [Estimated]);
    RunCons(Start(Compact), SessionBuilt(false), [ANSWERED] + ([AbortRun(Main)] + [Estimated]));
  }
}
