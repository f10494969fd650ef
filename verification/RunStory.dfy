/**
 * The whole story a run tells its client: which events are queued, in which order, and what each of them is true
 * of.
 */
module RunStory {
  import opened Text
  import opened RunProtocol
  import AnswerText
  import ThinkingFilter

  // ----- the shape of a queue -----

  predicate OnlyText(events: seq<Event>) {
    forall e :: e in events ==> e.Delta?
  }

  /** The finished message and the completion, the one right before the other. */
  function Success(kind: Kind): seq<Event> {
    [if kind.Chat? then Answered else Compacted, Completed(Main, Succeeded)]
  }

  predicate IsAbort(verdict: seq<Event>) {
    verdict == [Aborted(Main), Completed(Main, WasAborted)]
    || verdict == [Aborted(Main), AbortWarning, Completed(Main, WasAborted)]
  }

  const FAILURE := [Completed(Main, Failed)]

  /** A title run from its start to its end. */
  predicate IsTitleStory(tail: seq<Event>) {
    || tail == [Started(Title), Titled, Completed(Title, Succeeded)]
    || tail == [Started(Title), Completed(Title, Succeeded)]
    || tail == [Started(Title), Completed(Title, Failed)]
    || tail == [Started(Title), Aborted(Title), Completed(Title, WasAborted)]
  }

  /** The start, the text shown, the verdict, the text held until then, and what comes after the run. */
  predicate Tells(s: State, shown: seq<Event>, verdict: seq<Event>, late: seq<Event>, tail: seq<Event>) {
    && OnlyText(shown) && OnlyText(late)
    && s.queue == [Started(Main)] + shown + verdict + late + tail
    && Fits(s, verdict, late, tail)
  }

  predicate Fits(s: State, verdict: seq<Event>, late: seq<Event>, tail: seq<Event>) {
    if !MainOver(s) then verdict == [] && late == [] && tail == []
    else if s.pc.Rethrown? then verdict == FAILURE && tail == []
    else if s.pc.Titling? then verdict == Success(Chat) && late == [] && tail == [Started(Title)]
    else if s.pc.Unwinding? then verdict == Success(Chat) && late == [] && IsTitleStory(tail)
    else
      || (verdict == FAILURE && tail == [Errored])
      || (IsAbort(verdict) && tail == [])
      || (verdict == Success(s.kind) && late == []
          && (tail == [] || (s.kind.Chat? && (tail == [Titled] || IsTitleStory(tail)))))
  }

  predicate KindFits(s: State) {
    && (s.pc.Loading? || s.pc.Titling? || s.pc.Unwinding? ==> s.kind.Chat?)
    && (s.pc.Estimating? ==> s.kind.Compact?)
  }

  ghost predicate Story(s: State) {
    KindFits(s) && exists shown, verdict, late, tail :: Tells(s, shown, verdict, late, tail)
  }

  lemma Told(s: State, shown: seq<Event>, verdict: seq<Event>, late: seq<Event>, tail: seq<Event>)
    requires Tells(s, shown, verdict, late, tail) && KindFits(s)
    ensures Story(s)
  {
  }

  // ----- step by step -----

  /** Before the run is over only text has been queued behind its start. */
  lemma SoFar(s: State) returns (shown: seq<Event>)
    requires Story(s) && !MainOver(s)
    ensures OnlyText(shown) && s.queue == [Started(Main)] + shown
  {
    var verdict, late, tail;
    shown, verdict, late, tail :| Tells(s, shown, verdict, late, tail);
    assert [Started(Main)] + shown + [] + [] + [] == [Started(Main)] + shown;
  }

  /** The run goes on, having shown `more`. */
  lemma GoesOn(s: State, t: State, more: seq<Event>)
    requires Story(s) && !MainOver(s) && !MainOver(t) && KindFits(t)
    requires OnlyText(more) && t.queue == s.queue + more
    ensures Story(t)
  {
    var shown := SoFar(s);
    assert t.queue == [Started(Main)] + (shown + more) + [] + [] + [];
    Told(t, shown + more, [], [], []);
  }

  /** The run ends, having shown `more`, in a verdict with held text and a tail behind it. */
  lemma Concludes(s: State, t: State, more: seq<Event>, verdict: seq<Event>, late: seq<Event>, tail: seq<Event>)
    requires Story(s) && !MainOver(s) && MainOver(t) && KindFits(t)
    requires OnlyText(more) && OnlyText(late) && Fits(t, verdict, late, tail)
    requires t.queue == s.queue + more + verdict + late + tail
    ensures Story(t)
  {
    hide Fits;
    var shown := SoFar(s);
    assert t.queue == [Started(Main)] + (shown + more) + verdict + late + tail;
    Told(t, shown + more, verdict, late, tail);
  }

  lemma TextIsText(text: string)
    ensures OnlyText(TextEvents(text)) && OnlyText([])
  {
  }

  /** A caught error tells the failure, or the abort that was asked for. */
  lemma CaughtTells(s: State, t: State, more: seq<Event>, late: seq<Event>)
    requires Story(s) && !MainOver(s) && s.kind == t.kind && !MainOver(t) && OnlyText(more) && OnlyText(late)
    requires t.queue == s.queue + more
    ensures Story(Caught(t, late))
  {
    var verdict := CaughtEvents(t.flags);
    CaughtParts(t, late);
    assert s.queue + more + verdict + late == s.queue + more + verdict + late + [];
    Concludes(s, Caught(t, late), more, verdict, late, []);
  }

  lemma AbortTells(s: State, t: State)
    requires Story(s) && !MainOver(s) && s.kind == t.kind && t.queue == s.queue
    ensures Story(Over(t, Finished, AbortEvents(t.flags.warning), true))
  {
    var verdict := AbortEvents(t.flags.warning);
    var over := Over(t, Finished, verdict, true);
    TextIsText("");
    assert s.queue + verdict == s.queue + [] + verdict + [] + [];
    Concludes(s, over, [], verdict, [], []);
  }

  lemma PublishedTells(s: State, t: State, more: seq<Event>, title: TitlePlan)
    requires Story(s) && !MainOver(s) && s.kind.Chat? && t.kind.Chat? && OnlyText(more)
    requires t.queue == s.queue + more
    ensures Story(Published(t, title))
  {
    var plan := Planned(t, title);
    var over := Published(t, title);
    PublishedQueue(t, title);
    TextIsText("");
    var tail := if plan.Llm? then [Started(Title)] else if plan.FirstLine? then [Titled] else [];
    assert PublishedEvents(plan) == Success(Chat) + tail;
    assert s.queue + more + PublishedEvents(plan) == s.queue + more + Success(Chat) + [] + tail;
    Concludes(s, over, more, Success(Chat), [], tail);
  }

  lemma CompletingTells(s: State, thinking: string, reasoning: bool) returns (more: seq<Event>)
    ensures OnlyText(more) && Completing(s, thinking, reasoning).queue == s.queue + more
  {
    hide Trim, ThinkingFilter.FlushStep;
    var held := ThinkingFilter.FlushStep(s.answer.filter).1;
    var t := Completing(s, thinking, reasoning);
    TextIsText(held);
    if t.queue == s.queue + TextEvents(held) {
      more := TextEvents(held);
    } else {
      more := TextEvents(held) + [Delta(Trim(thinking))];
      assert s.queue + TextEvents(held) + [Delta(Trim(thinking))] == s.queue + more;
    }
  }

  lemma ChatSettledTells(s: State, work: Work)
    requires Story(s) && s.pc.Working? && s.kind.Chat?
    ensures Story(ChatSettled(s, work))
  {
    hide Story, Caught, Published, Completing, ShowsNothing, CanTransition, ThinkingFilter.FlushStep, TextEvents,
         OnlyText;
    TextIsText("");
    if work.Rejected? {
      var held := ThinkingFilter.FlushStep(s.answer.filter).1;
      TextIsText(held);
      assert s.queue + [] == s.queue;
      CaughtTells(s, s, [], TextEvents(held));
      AnswerAside(Caught(s, TextEvents(held)), CaughtHolding(s).answer);
    } else {
      var t := Completing(s, work.thinking, work.reasoning);
      CompletingShape(s, work.thinking, work.reasoning);
      var more := CompletingTells(s, work.thinking, work.reasoning);
      CaughtTells(s, t, more, []);
      CaughtTells(s, t.(status := Running), more, []);
      PublishedTells(s, t.(status := Running), more, work.title);
    }
  }

  lemma AnswerAside(s: State, answer: Answer)
    requires Story(s)
    ensures Story(s.(answer := answer))
  {
    var shown, verdict, late, tail :| Tells(s, shown, verdict, late, tail);
    Told(s.(answer := answer), shown, verdict, late, tail);
  }

  lemma CompactSettledTells(s: State, work: Work)
    requires Story(s) && s.pc.Working? && s.kind.Compact?
    ensures Story(CompactSettled(s, work))
  {
    hide Story, Caught, Over, AbortEvents, CanTransition;
    var synced := s.(status := Compacting);
    TextIsText("");
    assert s.queue + [] == s.queue;
    CaughtTells(s, s, [], []);
    CaughtTells(s, synced, [], []);
    AbortTells(s, synced);
    GoesOn(s, synced.(pc := Estimating), []);
  }

  lemma EstimatedTells(s: State)
    requires Story(s) && s.pc.Estimating?
    ensures Story(Next(s, Estimated))
  {
    var t := Next(s, Estimated);
    TextIsText("");
    assert t.queue == s.queue + [] + Success(Compact) + [] + [];
    Concludes(s, t, [], Success(Compact), [], []);
  }

  lemma TitleTells(s: State, result: TitleResult)
    requires Story(s) && s.pc.Titling?
    ensures Story(TitleOver(s, result))
  {
    var shown, verdict, late, tail :| Tells(s, shown, verdict, late, tail);
    var t := TitleOver(s, result);
    var more := TitleEvents(s.flags.title, s.name, result);
    assert IsTitleStory(tail + more) by { TitleEnds(s.flags.title, s.name, result); }
    assert t.queue == [Started(Main)] + shown + verdict + late + (tail + more);
    Told(t, shown, verdict, late, tail + more);
  }

  lemma TitleEnds(aborted: bool, name: NameSource, result: TitleResult)
    ensures IsTitleStory([Started(Title)] + TitleEvents(aborted, name, result))
  {
  }

  lemma ContinuedTells(s: State)
    requires Story(s) && (s.pc.Unwinding? || s.pc.Rethrown?)
    ensures Story(Continued(s))
  {
    var shown, verdict, late, tail :| Tells(s, shown, verdict, late, tail);
    var t := Continued(s);
    if s.pc.Rethrown? {
      assert t.queue == [Started(Main)] + shown + verdict + late + [Errored];
      Told(t, shown, verdict, late, [Errored]);
    } else {
      Told(t, shown, verdict, late, tail);
    }
  }

  lemma SessionTells(s: State, empty: bool)
    requires Story(s) && s.pc.Opening?
    ensures Story(SessionOpened(s, empty))
  {
    hide Story, Caught, Over, AbortEvents;
    TextIsText("");
    assert s.queue + [] == s.queue;
    AbortTells(s, s);
    CaughtTells(s, s, [], []);
    if !s.flags.main && s.kind.Chat? {
      GoesOn(s, s.(pc := Loading), []);
    } else {
      GoesOn(s, s.(pc := Working), []);
    }
  }

  lemma AroundTells(s: State, step: Step)
    requires Story(s) && Enabled(s, step) && !OwnStep(step)
    ensures Story(Around(s, step))
  {
    hide CanTransition, ThinkingFilter.PushStep;
    var t := Around(s, step);
    AroundShape(s, step);
    if step.Streamed? {
      var text := ThinkingFilter.PushStep(s.answer.filter, step.delta).1;
      TextIsText(text);
      GoesOn(s, t, TextEvents(text));
    } else {
      assert t.queue == s.queue;
      var shown, verdict, late, tail :| Tells(s, shown, verdict, late, tail);
      Told(t, shown, verdict, late, tail);
    }
  }

  lemma StepTells(s: State, step: Step)
    requires Story(s) && Enabled(s, step)
    ensures Story(Next(s, step))
  {
    hide Story, ChatSettled, CompactSettled, Around, TitleOver, Continued, SessionOpened, Over;
    if !OwnStep(step) {
      AroundTells(s, step);
    } else {
      match step
      case SessionBuilt(empty) => SessionTells(s, empty);
      case StateLoaded => LoadedTells(s);
      case WorkSettled(work) =>
        if s.kind.Chat? { ChatSettledTells(s, work); } else { CompactSettledTells(s, work); }
      case Estimated => EstimatedTells(s);
      case TitleSettled(result) => TitleTells(s, result);
      case Resumed => ContinuedTells(s);
    }
  }

  lemma LoadedTells(s: State)
    requires Story(s) && s.pc.Loading?
    ensures Story(s.(pc := Working))
  {
    TextIsText("");
    assert s.queue + [] == s.queue;
    GoesOn(s, s.(pc := Working), []);
  }

  lemma {:induction false} StoryGoesOn(s: State, steps: seq<Step>)
    requires Story(s) && CanRun(s, steps)
    ensures Story(After(s, steps))
    decreases |steps|
  {
    hide Story, Next, Enabled;
    if steps != [] {
      StepTells(s, steps[0]);
      StoryGoesOn(Next(s, steps[0]), steps[1..]);
    }
  }

  lemma StartTells(kind: Kind)
    ensures Story(Start(kind))
  {
    TextIsText("");
    assert [Started(Main)] == [Started(Main)] + [] + [] + [] + [];
    Told(Start(kind), [], [], [], []);
  }

  /** In every run, whatever interleaves, the client is told one of these stories and no other. */
  lemma EveryRunTells(kind: Kind, steps: seq<Step>)
    requires CanRun(Start(kind), steps)
    ensures Story(After(Start(kind), steps))
  {
    hide Story, CanRun, After;
    StartTells(kind);
    StoryGoesOn(Start(kind), steps);
  }

  // ----- the finished message -----

  /** What a run of this kind sends when it has succeeded. */
  function Announced(kind: Kind): Event {
    if kind.Chat? then Answered else Compacted
  }

  predicate IsNews(e: Event) {
    e.Answered? || e.Compacted? || e == Completed(Main, Succeeded)
  }

  lemma TailHasNoNews(s: State, verdict: seq<Event>, late: seq<Event>, tail: seq<Event>)
    requires Fits(s, verdict, late, tail) && KindFits(s) && OnlyText(late)
    ensures forall e :: e in late || e in tail ==> !IsNews(e)
    ensures verdict == Success(s.kind) || forall e :: e in verdict ==> !IsNews(e)
  {
  }

  lemma NewsPlace(q: seq<Event>, a: seq<Event>, verdict: seq<Event>, b: seq<Event>, c: seq<Event>, kind: Kind)
    requires q == a + verdict + b + c && forall e :: e in a || e in b || e in c ==> !IsNews(e)
    requires verdict == Success(kind) || forall e :: e in verdict ==> !IsNews(e)
    ensures forall i :: 0 <= i < |q| && IsNews(q[i]) ==> verdict == Success(kind) && |a| <= i <= |a| + 1
    ensures verdict == Success(kind) ==>
      |a| + 1 < |q| && q[|a|] == Announced(kind) && q[|a| + 1] == Completed(Main, Succeeded)
  {
    hide IsNews;
    var n, m := |a| + |verdict|, |a| + |verdict| + |b|;
    assert forall i :: 0 <= i < |a| ==> q[i] == a[i] && q[i] in a;
    assert forall i :: |a| <= i < n ==> q[i] == verdict[i - |a|] && q[i] in verdict;
    assert forall i :: n <= i < m ==> q[i] == b[i - n] && q[i] in b;
    assert forall i :: m <= i < |q| ==> q[i] == c[i - m] && q[i] in c;
  }

  /** The finished message, once and right before the completion, exactly when the run succeeded. */
  ghost predicate Announces(q: seq<Event>, kind: Kind) {
    && (Announced(kind) in q <==> Completed(Main, Succeeded) in q)
    && (forall i :: 0 <= i < |q| && q[i] == Announced(kind) ==> i + 1 < |q| && q[i + 1] == Completed(Main, Succeeded))
    && (forall i, j :: 0 <= i < |q| && 0 <= j < |q| && q[i] == q[j] == Announced(kind) ==> i == j)
    && (forall e :: e in q && (e.Answered? || e.Compacted?) ==> e == Announced(kind))
  }

  lemma StoryAnnounces(s: State)
    requires Story(s)
    ensures Announces(s.queue, s.kind)
  {
    hide Fits, KindFits;
    var shown, verdict, late, tail :| Tells(s, shown, verdict, late, tail);
    TailHasNoNews(s, verdict, late, tail);
    var a := [Started(Main)] + shown;
    assert forall e :: e in a ==> !IsNews(e);
    NewsPlace(s.queue, a, verdict, late, tail, s.kind);
    AnnouncedAt(s.queue, |a|, s.kind, verdict == Success(s.kind));
  }

  lemma AnnouncedAt(q: seq<Event>, n: nat, kind: Kind, succeeded: bool)
    requires forall i :: 0 <= i < |q| && IsNews(q[i]) ==> succeeded && n <= i <= n + 1
    requires succeeded ==> n + 1 < |q| && q[n] == Announced(kind) && q[n + 1] == Completed(Main, Succeeded)
    ensures Announces(q, kind)
  {
    forall e | e in q && IsNews(e) ensures succeeded && (e == q[n] || e == q[n + 1]) {
      var i :| 0 <= i < |q| && q[i] == e;
    }
  }

  /** In every run the finished message is queued exactly when the verdict is success, once and directly before it. */
  lemma AnnouncedIff(kind: Kind, steps: seq<Step>)
    requires CanRun(Start(kind), steps)
    ensures Announces(After(Start(kind), steps).queue, kind)
  {
    hide Story, CanRun, After, Announces;
    EveryRunTells(kind, steps);
    KindStays(Start(kind), steps);
    StoryAnnounces(After(Start(kind), steps));
  }

  // ----- the title -----

  /** The client has been told of a title exactly when a generated title has been stored. */
  predicate Honest(s: State) {
    Titled in s.queue <==> s.past.titled
  }

  /** Before the title is settled none has been told or stored; afterwards nothing about it changes. */
  predicate TitleState(s: State) {
    && (s.name.Generated? ==> s.past.titled)
    && (!MainOver(s) || s.pc.Titling? || s.pc.Rethrown? ==> !s.past.titled && Titled !in s.queue)
  }

  /** The title run ends with a title of the model's for a conversation that was named meanwhile. */
  predicate Misnaming(s: State, step: Step) {
    step.TitleSettled? && !s.flags.title && step.result.GotTitle? && !s.name.Fallback?
  }

  ghost predicate Misnames(s: State, steps: seq<Step>)
    requires CanRun(s, steps)
    decreases |steps|
  {
    steps != [] && (Misnaming(s, steps[0]) || Misnames(Next(s, steps[0]), steps[1..]))
  }

  lemma NotTitled(q: seq<Event>, more: seq<Event>)
    requires Titled !in more
    ensures Titled in q + more <==> Titled in q
  {
  }

  lemma TextIsNotTitle(text: string, flags: Flags)
    ensures Titled !in TextEvents(text) && Titled !in CaughtEvents(flags) && Titled !in AbortEvents(flags.warning)
  {
  }

  /** The run ends without a word about a title. */
  lemma CaughtTitle(s: State, late: seq<Event>)
    requires TitleState(s) && !MainOver(s) && Titled !in late
    ensures TitleState(Caught(s, late)) && Honest(Caught(s, late))
  {
    hide CaughtEvents, AbortEvents;
    CaughtParts(s, late);
    TextIsNotTitle("", s.flags);
    NotTitled(s.queue, CaughtEvents(s.flags));
    NotTitled(s.queue + CaughtEvents(s.flags), late);
  }

  lemma PublishedTitle(s: State, title: TitlePlan)
    requires TitleState(s) && !MainOver(s)
    ensures TitleState(Published(s, title)) && Honest(Published(s, title))
  {
    hide PublishedEvents;
    PublishedQueue(s, title);
    TitleAmong(Planned(s, title));
  }

  lemma TitleAmong(plan: TitlePlan)
    ensures Titled in PublishedEvents(plan) <==> plan.FirstLine?
  {
  }

  lemma ChatTitle(s: State, work: Work)
    requires TitleState(s) && s.pc.Working?
    ensures TitleState(ChatSettled(s, work)) && Honest(ChatSettled(s, work))
  {
    hide Caught, Published, Completing, ShowsNothing, CanTransition, ThinkingFilter.FlushStep, TextEvents, AbortEvents;
    if work.Rejected? {
      var held := ThinkingFilter.FlushStep(s.answer.filter).1;
      TextIsNotTitle(held, s.flags);
      CaughtTitle(s, TextEvents(held));
    } else {
      var t := Completing(s, work.thinking, work.reasoning);
      CompletingShape(s, work.thinking, work.reasoning);
      var more := CompletingTells(s, work.thinking, work.reasoning);
      NotTitled(s.queue, more);
      CaughtTitle(t, []);
      CaughtTitle(t.(status := Running), []);
      PublishedTitle(t.(status := Running), work.title);
    }
  }

  lemma CompactTitle(s: State, work: Work)
    requires TitleState(s) && s.pc.Working?
    ensures TitleState(CompactSettled(s, work)) && Honest(CompactSettled(s, work))
  {
    hide Caught, CanTransition, AbortEvents;
    CaughtTitle(s, []);
    CaughtTitle(s.(status := Compacting), []);
    TextIsNotTitle("", s.flags);
    NotTitled(s.queue, AbortEvents(s.flags.warning));
  }

  lemma OwnStepTitle(s: State, step: Step)
    requires TitleState(s) && Honest(s) && Enabled(s, step) && OwnStep(step)
    ensures TitleState(Proceed(s, step)) && (Honest(Proceed(s, step)) <==> !Misnaming(s, step))
  {
    hide ChatSettled, CompactSettled, Caught, AbortEvents;
    match step
    case SessionBuilt(empty) =>
      CaughtTitle(s, []);
      TextIsNotTitle("", s.flags);
      NotTitled(s.queue, AbortEvents(s.flags.warning));
    case WorkSettled(work) =>
      if s.kind.Chat? { ChatTitle(s, work); } else { CompactTitle(s, work); }
    case _ =>
  }

  lemma OtherStepTitle(s: State, step: Step)
    requires TitleState(s) && Honest(s) && Enabled(s, step) && !OwnStep(step)
    ensures TitleState(Around(s, step)) && Honest(Around(s, step))
  {
    hide CanTransition, ThinkingFilter.PushStep, TextEvents;
    if step.Streamed? {
      var text := ThinkingFilter.PushStep(s.answer.filter, step.delta).1;
      TextIsNotTitle(text, s.flags);
      NotTitled(s.queue, TextEvents(text));
    }
  }

  /** A wrong word about the title is never taken back: the title run is over, and nothing after it speaks of titles. */
  lemma StaysDishonest(s: State, step: Step)
    requires !Honest(s) && (s.pc.Unwinding? || s.pc.Finished?) && Enabled(s, step)
    ensures var t := Next(s, step); !Honest(t) && (t.pc.Unwinding? || t.pc.Finished?) && !Misnaming(s, step)
  {
    hide CanTransition;
  }

  lemma {:induction false} Dishonest(s: State, steps: seq<Step>)
    requires !Honest(s) && (s.pc.Unwinding? || s.pc.Finished?) && CanRun(s, steps)
    ensures !Honest(After(s, steps))
    decreases |steps|
  {
    hide Next, Enabled, Honest;
    if steps != [] {
      StaysDishonest(s, steps[0]);
      Dishonest(Next(s, steps[0]), steps[1..]);
    }
  }

  lemma {:induction false} TitleFrom(s: State, steps: seq<Step>)
    requires TitleState(s) && Honest(s) && CanRun(s, steps)
    ensures Honest(After(s, steps)) <==> !Misnames(s, steps)
    decreases |steps|
  {
    hide Proceed, Around, Enabled, Honest, TitleState;
    if steps != [] {
      if OwnStep(steps[0]) {
        OwnStepTitle(s, steps[0]);
      } else {
        OtherStepTitle(s, steps[0]);
      }
      var t := Next(s, steps[0]);
      if Misnaming(s, steps[0]) {
        TitleUnwinds(s, steps[0]);
        Dishonest(t, steps[1..]);
      } else {
        TitleFrom(t, steps[1..]);
      }
    }
  }

  lemma TitleUnwinds(s: State, step: Step)
    requires Enabled(s, step) && Misnaming(s, step)
    ensures Next(s, step).pc.Unwinding?
  {
  }

  /**
   * A client is told of a title exactly when a generated one is stored, unless the user names the conversation while
   * the model is at work on its title.
   */
  lemma TitleToldIff(kind: Kind, steps: seq<Step>)
    requires CanRun(Start(kind), steps)
    ensures Honest(After(Start(kind), steps)) <==> !Misnames(Start(kind), steps)
  {
    hide CanRun, After, Misnames;
    TitleFrom(Start(kind), steps);
  }

  const RENAMED_MEANWHILE := [TITLED] + ([Renamed] + [TitleSettled(GotTitle)])

  /** A conversation named by its user during the title run: the client is told of a title that is not stored. */
  lemma RenamedMeanwhile()
    ensures var steps := [SessionBuilt(false)] + ([StateLoaded] + RENAMED_MEANWHILE);
      CanRun(Start(Chat), steps)
      && (var t := After(Start(Chat), steps); Titled in t.queue && !t.past.titled && t.name.Users?)
  {
    hide ChatSettled, CompactSettled, Trim;
    var loading := Start(Chat).(pc := Loading);
    var working := loading.(pc := Working);
    ThoughtShows();
    TitlingNext(working);
    ChatTitle(working, TITLED.work);
    var titling := Next(working, TITLED);
    var named := Next(titling, Renamed);
    var settled := TitleSettled(GotTitle);
    assert [settled] + [] == [settled];
    assert named.past == titling.past && named.queue == titling.queue;
    FlagsKept(working, TITLED.work);
    var over := Next(named, settled);
    assert over.queue == named.queue + [Titled, Completed(Title, Succeeded)];
    RunCons(named, settled, []);
    RunCons(titling, Renamed, [settled]);
    RunCons(working, TITLED, [Renamed] + [settled]);
    RunCons(loading, StateLoaded, RENAMED_MEANWHILE);
    RunCons(Start(Chat), SessionBuilt(false), [StateLoaded] + RENAMED_MEANWHILE);
  }

  lemma FlagsKept(s: State, work: Work)
    ensures ChatSettled(s, work).flags == s.flags
  {
    hide Trim, ThinkingFilter.FlushStep, CanTransition, AbortEvents, PublishedEvents, TextEvents, ShowsNothing;
    if work.Resolved? {
      CompletingShape(s, work.thinking, work.reasoning);
      hide Completing;
    }
  }

  // ----- the warning an abort may carry -----

  /** No word of an abort. */
  predicate NoAbort(events: seq<Event>) {
    AbortWarning !in events && Aborted(Main) !in events
  }

  /** An abort is told with a warning exactly when the check that followed it left one. */
  predicate Warns(queue: seq<Event>, warning: bool) {
    AbortWarning in queue <==> Aborted(Main) in queue && warning
  }

  lemma CaughtWarns(s: State, late: seq<Event>)
    requires NoAbort(s.queue) && OnlyText(late)
    ensures Warns(Caught(s, late).queue, s.flags.warning)
  {
    CaughtParts(s, late);
    assert NoAbort(late);
  }

  lemma PublishedNoAbort(s: State, title: TitlePlan)
    requires NoAbort(s.queue)
    ensures NoAbort(Published(s, title).queue)
  {
    PublishedQueue(s, title);
  }

  lemma ChatWarns(s: State, work: Work)
    requires NoAbort(s.queue)
    ensures Warns(ChatSettled(s, work).queue, s.flags.warning)
  {
    hide Caught, Published, Completing, ShowsNothing, CanTransition, ThinkingFilter.FlushStep, TextEvents, OnlyText,
         Warns, NoAbort;
    TextIsText("");
    if work.Rejected? {
      var held := ThinkingFilter.FlushStep(s.answer.filter).1;
      TextIsText(held);
      CaughtWarns(s, TextEvents(held));
    } else {
      var t := Completing(s, work.thinking, work.reasoning);
      CompletingShape(s, work.thinking, work.reasoning);
      var more := CompletingTells(s, work.thinking, work.reasoning);
      TextNoAbort(s.queue, more);
      CaughtWarns(t, []);
      CaughtWarns(t.(status := Running), []);
      PublishedNoAbort(t.(status := Running), work.title);
      NoAbortWarns(Published(t.(status := Running), work.title).queue, s.flags.warning);
    }
  }

  lemma TextNoAbort(queue: seq<Event>, more: seq<Event>)
    requires NoAbort(queue) && OnlyText(more)
    ensures NoAbort(queue + more)
  {
  }

  lemma NoAbortWarns(queue: seq<Event>, warning: bool)
    requires NoAbort(queue)
    ensures Warns(queue, warning)
  {
  }

  lemma OverWarns(s: State)
    requires NoAbort(s.queue)
    ensures Warns(Over(s, Finished, AbortEvents(s.flags.warning), true).queue, s.flags.warning)
  {
  }

  lemma OwnStepWarns(s: State, step: Step)
    requires NoAbort(s.queue) && Enabled(s, step) && OwnStep(step) && !MainOver(s)
    ensures var t := Proceed(s, step);
      Warns(t.queue, s.flags.warning) && (!MainOver(t) ==> NoAbort(t.queue))
  {
    hide Caught, ChatSettled, AbortEvents, CanTransition, OnlyText, Warns, NoAbort;
    TextIsText("");
    NoAbortWarns(s.queue, s.flags.warning);
    CaughtWarns(s, []);
    CaughtWarns(s.(status := Compacting), []);
    OverWarns(s);
    OverWarns(s.(status := Compacting));
    CaughtIsOver(s, []);
    CaughtIsOver(s.(status := Compacting), []);
    if step.WorkSettled? {
      ChatWarns(s, step.work);
      ChatShape(s, step.work);
    }
    if step.Estimated? {
      EstimatedNoAbort(s);
    }
  }

  lemma EstimatedNoAbort(s: State)
    requires NoAbort(s.queue) && s.pc.Estimating?
    ensures Warns(Next(s, Estimated).queue, s.flags.warning) && MainOver(Next(s, Estimated))
  {
  }

  lemma StepWarns(s: State, step: Step)
    requires NoAbort(s.queue) && Enabled(s, step) && !MainOver(s)
    ensures var t := Next(s, step);
      Warns(t.queue, s.flags.warning) && (!MainOver(t) ==> NoAbort(t.queue))
  {
    hide Proceed, TextEvents, ThinkingFilter.PushStep;
    if OwnStep(step) {
      OwnStepWarns(s, step);
    } else if step.Streamed? {
      TextIsText(ThinkingFilter.PushStep(s.answer.filter, step.delta).1);
      TextNoAbort(s.queue, TextEvents(ThinkingFilter.PushStep(s.answer.filter, step.delta).1));
    }
  }

  lemma {:induction false} NoAbortYet(s: State, steps: seq<Step>)
    requires NoAbort(s.queue) && CanRun(s, steps) && Inv(s) && !MainOver(After(s, steps))
    ensures NoAbort(After(s, steps).queue)
    decreases |steps|
  {
    hide Next, Enabled, Inv, MainOver, NoAbort;
    if steps != [] {
      var t := Next(s, steps[0]);
      StepKeepsInv(s, steps[0]);
      if MainOver(s) {
        VerdictStays(s, steps[0]);
      } else {
        StepWarns(s, steps[0]);
      }
      if MainOver(t) {
        VerdictIsFinal(t, steps[1..]);
      } else {
        NoAbortYet(t, steps[1..]);
      }
    }
  }

  lemma {:induction false} NothingMoreOfAborts(s: State, steps: seq<Step>)
    requires Inv(s) && MainOver(s) && CanRun(s, steps)
    ensures AbortWarning in After(s, steps).queue <==> AbortWarning in s.queue
    ensures Aborted(Main) in After(s, steps).queue <==> Aborted(Main) in s.queue
    decreases |steps|
  {
    hide Next, Enabled, Inv, MainOver;
    if steps != [] {
      NoLateAbort(s, steps[0]);
      VerdictStays(s, steps[0]);
      StepKeepsInv(s, steps[0]);
      NothingMoreOfAborts(Next(s, steps[0]), steps[1..]);
    }
  }

  lemma NoLateAbort(s: State, step: Step)
    requires MainOver(s) && Enabled(s, step)
    ensures AbortWarning in Next(s, step).queue <==> AbortWarning in s.queue
    ensures Aborted(Main) in Next(s, step).queue <==> Aborted(Main) in s.queue
  {
    hide ChatSettled, CompactSettled, Over, SessionOpened, Completing, ThinkingFilter.PushStep;
    if step.TitleSettled? {
      var more := TitleEvents(s.flags.title, s.name, step.result);
      assert AbortWarning !in more && Aborted(Main) !in more;
    }
  }

  /** What the last check after an abort found. */
  function LastCheck(steps: seq<Step>): bool {
    if steps == [] then false
    else
      var last := steps[|steps| - 1];
      if last.AbortVerified? then last.warn else LastCheck(steps[..|steps| - 1])
  }

  lemma {:induction false} WarningIsLastCheck(kind: Kind, steps: seq<Step>)
    requires CanRun(Start(kind), steps)
    ensures After(Start(kind), steps).flags.warning == LastCheck(steps)
    decreases |steps|
  {
    hide Next, Enabled, Start;
    if steps == [] {
      StartHasNoWarning(kind);
    } else {
      var n := |steps| - 1;
      assert steps == steps[..n] + [steps[n]];
      AnswerText.RunSplit(Start(kind), steps[..n], [steps[n]]);
      WarningIsLastCheck(kind, steps[..n]);
      var s := After(Start(kind), steps[..n]);
      OneStep(s, steps[n]);
      StepWarning(s, steps[n]);
    }
  }

  lemma OneStep(s: State, step: Step)
    requires CanRun(s, [step])
    ensures Enabled(s, step) && After(s, [step]) == Next(s, step)
  {
    hide Next, Enabled;
    assert [step][1..] == [];
  }

  lemma StartHasNoWarning(kind: Kind)
    ensures !Start(kind).flags.warning && NoAbort(Start(kind).queue)
  {
  }

  lemma StepWarning(s: State, step: Step)
    requires Enabled(s, step)
    ensures Next(s, step).flags.warning == if step.AbortVerified? then step.warn else s.flags.warning
  {
    hide Over, Completing, Caught, Published, ShowsNothing, CanTransition;
    if OwnStep(step) {
      OwnStepKeepsFlags(s, step);
    }
  }

  lemma OwnStepKeepsFlags(s: State, step: Step)
    requires Enabled(s, step) && OwnStep(step)
    ensures Proceed(s, step).flags == s.flags
  {
    hide ChatSettled, AbortEvents, CanTransition;
    if step.WorkSettled? && s.kind.Chat? {
      FlagsKept(s, step.work);
    }
  }

  /**
   * In every run an abort is told with a warning exactly when the last check after it, before the run ended, left
   * one; a check that comes later is not told.
   */
  lemma WarnedIff(kind: Kind, before: seq<Step>, step: Step, later: seq<Step>)
    requires CanRun(Start(kind), before) && CanRun(Start(kind), before + [step])
    requires CanRun(Start(kind), before + ([step] + later))
    requires !MainOver(After(Start(kind), before)) && MainOver(After(Start(kind), before + [step]))
    ensures var q := After(Start(kind), before + ([step] + later)).queue;
      AbortWarning in q <==> Aborted(Main) in q && LastCheck(before)
  {
    hide Next, Enabled, Inv, MainOver, NoAbort, LastCheck;
    AnswerText.RunSplit(Start(kind), before, [step] + later);
    var s := After(Start(kind), before);
    StartInv(kind);
    StartHasNoWarning(kind);
    RunKeepsInv(Start(kind), before);
    NoAbortYet(Start(kind), before);
    WarningIsLastCheck(kind, before);
    AnswerText.RunSplit(s, [step], later);
    OneStep(s, step);
    StepWarns(s, step);
    StepKeepsInv(s, step);
    AnswerText.RunSplit(Start(kind), before, [step]);
    NothingMoreOfAborts(Next(s, step), later);
  }
  // ----- what the flags and the history stand for -----

  /** At some point of the run such a step is taken in such a state. */
  ghost predicate Happens(s: State, steps: seq<Step>, what: (State, Step) -> bool)
    requires CanRun(s, steps)
    decreases |steps|
  {
    steps != [] && (what(s, steps[0]) || Happens(Next(s, steps[0]), steps[1..], what))
  }

  /** A request to stop reaches the run itself, or the compaction's own route does while it compacts. */
  predicate AsksMain(s: State, step: Step) {
    s.active == Some(Main) && (step == AbortRun(Main) || (step.AbortCompaction? && s.kind.Compact?))
  }

  /** It is answered yes: the row can still be set aborting. */
  predicate AcceptsMain(s: State, step: Step) {
    s.active == Some(Main) && step == AbortRun(Main) && !s.status.Ready? && !s.status.Unavailable?
  }

  predicate AsksTitle(s: State, step: Step) {
    s.active == Some(Title) && step == AbortRun(Title)
  }

  /** Another writer sets the row ready while the run is under way. */
  predicate Releases(s: State, step: Step) {
    !MainOver(s) && (step == AbortCompaction(true) || (step.Repair? && s.status.Unavailable?))
  }

  predicate LosesSession(s: State, step: Step) {
    step.SessionLost?
  }

  predicate Marks(s: State, step: Step, t: State) {
    && (t.flags.main <==> s.flags.main || AsksMain(s, step))
    && (t.flags.title <==> s.flags.title || AsksTitle(s, step))
    && (t.past.acceptedMain <==> s.past.acceptedMain || AcceptsMain(s, step))
    && (t.past.acceptedTitle <==> s.past.acceptedTitle || AsksTitle(s, step))
    && (t.past.released <==> s.past.released || Releases(s, step))
    && (t.past.dropped <==> s.past.dropped || LosesSession(s, step))
  }

  lemma StepMarks(s: State, step: Step)
    requires Enabled(s, step)
    ensures Marks(s, step, Next(s, step))
  {
    hide Proceed, Around, Marks;
    if OwnStep(step) {
      OwnStepKeepsFlags(s, step);
      OwnStepKeepsPast(s, step);
      MarksKept(s, step, Proceed(s, step));
    } else {
      OutsideMarks(s, step);
    }
  }

  lemma MarksKept(s: State, step: Step, t: State)
    requires OwnStep(step) && t.flags == s.flags && t.past == s.past.(titled := t.past.titled)
    ensures Marks(s, step, t)
  {
    hide MainOver;
  }

  lemma OutsideMarks(s: State, step: Step)
    requires !OwnStep(step)
    ensures Marks(s, step, Around(s, step))
  {
    hide ThinkingFilter.PushStep, TextEvents, CanTransition;
    assert CanTransition(s.status, Aborting) <==> !s.status.Ready? && !s.status.Unavailable? by { CanAbort(s.status); }
    match step
    case AbortRun(target) =>
    case AbortCompaction(managed) =>
    case _ =>
  }

  lemma CanAbort(status: Status)
    ensures CanTransition(status, Aborting) <==> !status.Ready? && !status.Unavailable?
  {
  }

  lemma OwnStepKeepsPast(s: State, step: Step)
    requires Enabled(s, step) && OwnStep(step)
    ensures Proceed(s, step).past == s.past.(titled := Proceed(s, step).past.titled)
  {
    hide ChatSettled, AbortEvents, CanTransition;
    if step.WorkSettled? && s.kind.Chat? {
      ChatKeepsPast(s, step.work);
    }
  }

  lemma ChatKeepsPast(s: State, work: Work)
    ensures ChatSettled(s, work).past == s.past.(titled := ChatSettled(s, work).past.titled)
  {
    hide Caught, Published, Completing, TextEvents, ThinkingFilter.FlushStep, CanTransition, ShowsNothing;
    if work.Rejected? {
      CaughtParts(s, TextEvents(ThinkingFilter.FlushStep(s.answer.filter).1));
    } else {
      var t := Completing(s, work.thinking, work.reasoning);
      CompletingShape(s, work.thinking, work.reasoning);
      CaughtParts(t, []);
      CaughtParts(t.(status := Running), []);
      PublishedPast(t.(status := Running), work.title);
    }
  }

  lemma PublishedPast(s: State, title: TitlePlan)
    ensures Published(s, title).past == s.past.(titled := Published(s, title).past.titled)
  {
    hide PublishedEvents;
  }

  lemma {:induction false} MarksFrom(s: State, steps: seq<Step>)
    requires CanRun(s, steps)
    ensures var t := After(s, steps);
      && (t.flags.main <==> s.flags.main || Happens(s, steps, AsksMain))
      && (t.flags.title <==> s.flags.title || Happens(s, steps, AsksTitle))
      && (t.past.acceptedMain <==> s.past.acceptedMain || Happens(s, steps, AcceptsMain))
      && (t.past.acceptedTitle <==> s.past.acceptedTitle || Happens(s, steps, AsksTitle))
      && (t.past.released <==> s.past.released || Happens(s, steps, Releases))
      && (t.past.dropped <==> s.past.dropped || Happens(s, steps, LosesSession))
    decreases |steps|
  {
    hide Next, Enabled, AsksMain, AsksTitle, AcceptsMain, Releases, LosesSession;
    if steps != [] {
      StepMarks(s, steps[0]);
      MarksFrom(Next(s, steps[0]), steps[1..]);
    }
  }

  /** In every run the flags and the history hold exactly what has happened. */
  lemma MarksTell(kind: Kind, steps: seq<Step>)
    requires CanRun(Start(kind), steps)
    ensures var s, t := Start(kind), After(Start(kind), steps);
      && (t.flags.main <==> Happens(s, steps, AsksMain))
      && (t.flags.title <==> Happens(s, steps, AsksTitle))
      && (t.past.acceptedMain <==> Happens(s, steps, AcceptsMain))
      && (t.past.acceptedTitle <==> Happens(s, steps, AsksTitle))
      && (t.past.released <==> Happens(s, steps, Releases))
      && (t.past.dropped <==> Happens(s, steps, LosesSession))
  {
    hide Happens, After, CanRun;
    MarksFrom(Start(kind), steps);
  }

  /** Who, besides the run itself, writes the row's status, and to what. */
  lemma OutsideWrites(s: State, step: Step)
    requires Enabled(s, step) && !OwnStep(step)
    ensures var t := Next(s, step);
      && (t.status.Aborting? <==> (s.status.Aborting? && t.status == s.status) || AcceptsMain(s, step))
      && (t.status.Unavailable? && !s.status.Unavailable? ==> step.MarkUnavailable? || step.SessionLost?)
      && (step.MarkUnavailable? || step.SessionLost? ==> t.status.Unavailable?)
      && (t.status.Ready? && !s.status.Ready? <==>
            !s.status.Ready?
            && (|| step == AbortCompaction(true) || (step.Repair? && s.status.Unavailable?)
                || (step.SnapshotRead? && s.active.None? && !s.status.Unavailable?)))
      && (t.status.Running? || t.status.Compacting? ==> t.status == s.status)
  {
    hide ThinkingFilter.PushStep, TextEvents;
  }
}
