/**
 * The queue between a run and its one consumer: pushes, the end, a failure, and the iterator that parks when
 * there is nothing to read.
 */
module AsyncQueue {
  import opened Text

  /** Where the iterator is: at the top of its loop (or about to be), parked on `wait`, or over. */
  datatype Consumer = Reading | Parked | Returned | Raised

  /**
   * The queue, its consumer, and what has gone in and come out. `failure` is `None` until `fail` is called;
   * the iterator raises it only when it is a truthy value.
   */
  datatype State<T, E> = State(values: seq<T>, ended: bool, failure: Option<E>, consumer: Consumer,
                               pushed: seq<T>, delivered: seq<T>, raised: Option<E>)

  datatype Step<T, E> = Push(value: T) | End | Fail(error: E) | Read

  function Start<T, E>(): State<T, E> {
    State([], false, None, Reading, [], [], None)
  }

  function Woken(c: Consumer): Consumer {
    if c == Parked then Reading else c
  }

  function Next<T, E>(s: State<T, E>, step: Step<T, E>, truthy: E -> bool): State<T, E> {
    match step
    case Push(value) => s.(values := s.values + [value], pushed := s.pushed + [value], consumer := Woken(s.consumer))
    case End => s.(ended := true, consumer := Woken(s.consumer))
    case Fail(error) => s.(failure := Some(error), ended := true, consumer := Woken(s.consumer))
    case Read =>
      if s.consumer != Reading then s
      else if s.values != [] then s.(values := s.values[1..], delivered := s.delivered + [s.values[0]])
      else if !s.ended then s.(consumer := Parked)
      else if s.failure.Some? && truthy(s.failure.value) then s.(consumer := Raised, raised := s.failure)
      else s.(consumer := Returned)
  }

  /** Falsy errors end the queue without raising, so truthiness is the error type's own. */
  class AsyncQueue<T, E> {
    const truthy: E -> bool
    var values: seq<T>
    var ended: bool
    var failure: Option<E>
    var notify: bool
    var over: bool
    var raised: Option<E>
    ghost var pushed: seq<T>
    ghost var delivered: seq<T>

    ghost function View(): State<T, E>
      reads this
    {
      State(values, ended, failure,
            if notify then Parked else if !over then Reading else if raised.Some? then Raised else Returned,
            pushed, delivered, raised)
    }

    ghost predicate Valid()
      reads this
    {
      (over ==> !notify) && (raised.Some? ==> over)
    }

    constructor (truthy: E -> bool)
      ensures Valid() && View() == Start() && this.truthy == truthy
    {
      this.truthy := truthy;
      values, ended, failure, notify, over, raised := [], false, None, false, false, None;
      pushed, delivered := [], [];
    }

    method Wake()
      requires Valid()
      modifies `notify
      ensures Valid() && !notify
    {
      notify := false;
    }

    method Push(value: T)
      requires Valid()
      modifies this
      ensures Valid() && View() == Next(old(View()), Step.Push(value), truthy)
    {
      values := values + [value];
      pushed := pushed + [value];
      Wake();
    }

    method End()
      requires Valid()
      modifies this
      ensures Valid() && View() == Next(old(View()), Step.End, truthy)
    {
      ended := true;
      Wake();
    }

    method Fail(error: E)
      requires Valid()
      modifies this
      ensures Valid() && View() == Next(old(View()), Step.Fail(error), truthy)
    {
      failure := Some(error);
      ended := true;
      Wake();
    }

    /** One turn of the iterator's loop: up to its next yield, its await, or its end. */
    method Read() returns (value: Option<T>)
      requires Valid()
      modifies this
      ensures Valid() && View() == Next(old(View()), Step.Read, truthy)
      ensures value == if old(View().consumer) == Reading && old(values) != [] then Some(old(values)[0]) else None
    {
      value := None;
      if notify || over {
        return;
      }
      if !ended || |values| > 0 {
        if |values| > 0 {
          value := Some(values[0]);
          delivered := delivered + [values[0]];
          values := values[1..];
        } else {
          notify := true;
        }
        return;
      }
      over := true;
      if failure.Some? && truthy(failure.value) {
        raised := failure;
      }
    }
  }

  // ----- every interleaving -----

  ghost function After<T, E>(s: State<T, E>, steps: seq<Step<T, E>>, truthy: E -> bool): State<T, E>
    decreases |steps|
  {
    if steps == [] then s else After(Next(s, steps[0], truthy), steps[1..], truthy)
  }

  ghost predicate Inv<T(!new), E(!new)>(s: State<T, E>, truthy: E -> bool) {
    && s.delivered + s.values == s.pushed
    && (s.consumer == Parked ==> s.values == [] && !s.ended)
    && (s.consumer == Returned || s.consumer == Raised ==> s.ended)
    && (s.consumer == Raised <==> s.raised.Some?)
    && (s.raised.Some? ==> truthy(s.raised.value))
  }

  lemma StepKeepsInv<T(!new), E(!new)>(s: State<T, E>, step: Step<T, E>, truthy: E -> bool)
    requires Inv(s, truthy)
    ensures Inv(Next(s, step, truthy), truthy)
  {
    match step
    case Push(value) => assert s.delivered + (s.values + [value]) == (s.delivered + s.values) + [value];
    case Read =>
      if s.values != [] {
        assert s.values == [s.values[0]] + s.values[1..];
        assert s.delivered + [s.values[0]] + s.values[1..] == s.delivered + s.values;
      }
    case _ =>
  }

  /**
   * However pushes, ends, failures and reads interleave: nothing is lost, repeated or reordered; the consumer is
   * parked only while there is nothing to read and more may come; only a truthy failure is ever raised.
   */
  lemma {:induction false} RunKeepsInv<T(!new), E(!new)>(s: State<T, E>, steps: seq<Step<T, E>>, truthy: E -> bool)
    requires Inv(s, truthy)
    ensures Inv(After(s, steps, truthy), truthy)
    decreases |steps|
  {
    hide Inv, Next;
    if steps != [] {
      StepKeepsInv(s, steps[0], truthy);
      RunKeepsInv(Next(s, steps[0], truthy), steps[1..], truthy);
    }
  }

  lemma EveryRun<T(!new), E(!new)>(steps: seq<Step<T, E>>, truthy: E -> bool)
    ensures var s := After(Start<T, E>(), steps, truthy);
      && s.delivered + s.values == s.pushed
      && (s.consumer == Parked ==> s.values == [] && !s.ended)
  {
    RunKeepsInv(Start<T, E>(), steps, truthy);
  }

  /** The iterator ends only once everything pushed has been delivered, and raises exactly a truthy failure. */
  lemma EndsAfterDelivery<T(!new), E(!new)>(s: State<T, E>, step: Step<T, E>, truthy: E -> bool)
    requires Inv(s, truthy) && s.consumer != Returned && s.consumer != Raised
    ensures var t := Next(s, step, truthy);
      && (t.consumer == Returned || t.consumer == Raised ==> step.Read? && s.ended && t.delivered == t.pushed)
      && (t.consumer == Raised ==> s.failure.Some? && truthy(s.failure.value) && t.raised == s.failure)
      && (t.consumer == Returned ==> s.failure.None? || !truthy(s.failure.value))
  {
    hide Inv;
    StepKeepsInv(s, step, truthy);
    InvDelivers(s, truthy);
  }

  lemma InvDelivers<T(!new), E(!new)>(s: State<T, E>, truthy: E -> bool)
    requires Inv(s, truthy)
    ensures s.values == [] ==> s.delivered == s.pushed
  {
    if s.values == [] {
      assert s.delivered + [] == s.delivered;
    }
  }

  /** The queue ends only by `end` or `fail`, and what it fails with is what the last `fail` gave. */
  lemma {:induction false} EndedBySomeone<T(!new), E(!new)>(steps: seq<Step<T, E>>, truthy: E -> bool)
    ensures var s := After(Start<T, E>(), steps, truthy);
      && (s.ended <==> exists i :: 0 <= i < |steps| && (steps[i].End? || steps[i].Fail?))
      && s.failure == LastFailure(steps)
      && s.pushed == Pushes(steps)
    decreases |steps|
  {
    if steps != [] {
      var n := |steps| - 1;
      EndedBySomeone(steps[..n], truthy);
      AfterOneMore(Start<T, E>(), steps, truthy);
    }
  }

  function LastFailure<T, E>(steps: seq<Step<T, E>>): Option<E> {
    if steps == [] then None
    else
      var last := steps[|steps| - 1];
      if last.Fail? then Some(last.error) else LastFailure(steps[..|steps| - 1])
  }

  function Pushes<T, E>(steps: seq<Step<T, E>>): seq<T> {
    if steps == [] then []
    else
      var last := steps[|steps| - 1];
      Pushes(steps[..|steps| - 1]) + if last.Push? then [last.value] else []
  }

  lemma {:induction false} AfterOneMore<T, E>(s: State<T, E>, steps: seq<Step<T, E>>, truthy: E -> bool)
    requires steps != []
    ensures var n := |steps| - 1;
      After(s, steps, truthy) == Next(After(s, steps[..n], truthy), steps[n], truthy)
    decreases |steps|
  {
    hide Next;
    var n := |steps| - 1;
    if n > 0 {
      AfterOneMore(Next(s, steps[0], truthy), steps[1..], truthy);
      assert steps[1..][..n - 1] == steps[..n][1..];
    }
  }

  function Reads<T, E>(n: nat): (r: seq<Step<T, E>>)
    ensures |r| == n && forall i :: 0 <= i < n ==> r[i] == Read
  {
    seq(n, i => Read)
  }

  /** No wake-up is lost: after the end, one read per buffered value and one more deliver everything and close. */
  lemma {:induction false} Drains<T(!new), E(!new)>(s: State<T, E>, truthy: E -> bool)
    requires Inv(s, truthy) && s.ended && s.consumer != Returned && s.consumer != Raised
    ensures var t := After(s, Reads(|s.values| + 1), truthy);
      && t.delivered == s.pushed
      && t.consumer == if s.failure.Some? && truthy(s.failure.value) then Raised else Returned
    decreases |s.values|
  {
    var turns := Reads<T, E>(|s.values| + 1);
    var t := Next(s, Read, truthy);
    StepKeepsInv(s, Read, truthy);
    assert turns[1..] == Reads<T, E>(|s.values|);
    if s.values == [] {
      InvDelivers(s, truthy);
      assert turns[1..] == [];
    } else {
      Drains(t, truthy);
    }
  }

  /**
   * A turn of the iterator hands over the oldest value, parks exactly when there is nothing and more may come, and
   * closes exactly when there is nothing and no more will; parked or closed it does nothing.
   */
  lemma TurnIs<T(!new), E(!new)>(s: State<T, E>, truthy: E -> bool)
    ensures var t := Next(s, Read, truthy);
      if s.consumer != Reading then t == s
      else if s.values != [] then
        t.consumer == Reading && t.delivered == s.delivered + [s.values[0]] && s.values == [s.values[0]] + t.values
      else
        && t.values == [] && t.delivered == s.delivered
        && (t.consumer == Parked <==> !s.ended)
        && (t.consumer == Raised <==> s.ended && s.failure.Some? && truthy(s.failure.value))
        && t.consumer != Reading
  {
  }

  /** A push or an end always leaves the consumer able to read. */
  lemma NothingParksForGood<T(!new), E(!new)>(s: State<T, E>, step: Step<T, E>, truthy: E -> bool)
    requires Inv(s, truthy) && !step.Read?
    ensures Next(s, step, truthy).consumer != Parked
    ensures Next(s, step, truthy).consumer == if s.consumer == Parked then Reading else s.consumer
  {
  }
}
