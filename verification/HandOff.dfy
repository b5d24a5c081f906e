/** The one-slot hand-off between a stream's producer and its `for await` consumer (src/streams.ts): a queue, one
    waiter, and a done flag. `subscribeTicks` has the same shape. */
module HandOff {
  import opened Results

  /** How one call of next() is answered. */
  datatype Answer<T, E> = Item(value: T) | End | Failed(error: E)

  /** The fields of the iterator, plus what an observer sees: how many next() calls were made (they are numbered
      from 0), the answers given so far with the number of the call each one answers, and the values produced. */
  datatype State<T, E> = State(
    queue: seq<T>,
    waiter: Option<nat>,
    done: bool,
    error: Option<E>,
    calls: nat,
    log: seq<(nat, Answer<T, E>)>,
    produced: seq<T>)

  /** `Finish` carries no error when the stream ends cleanly; return() and close() finish that way too. */
  datatype Event<T, E> = Produce(value: T) | Finish(error: Option<E>) | Next

  function Start<T, E>(): State<T, E> {
    State([], None, false, None, 0, [], [])
  }

  function EndAnswer<T, E>(error: Option<E>): Answer<T, E> {
    if error.Some? then Failed(error.value) else End
  }

  function Step<T, E>(s: State<T, E>, e: Event<T, E>): State<T, E> {
    match e
    case Produce(x) =>
      if s.waiter.Some? then
        s.(waiter := None, log := s.log + [(s.waiter.value, Item(x))], produced := s.produced + [x])
      else
        s.(queue := s.queue + [x], produced := s.produced + [x])
    case Finish(err) =>
      if s.done then s
      else
        var t := s.(done := true, error := err);
        if s.waiter.Some? then t.(waiter := None, log := s.log + [(s.waiter.value, EndAnswer(err))]) else t
    case Next =>
      var id := s.calls;
      var t := s.(calls := id + 1);
      if s.queue != [] then t.(queue := s.queue[1..], log := s.log + [(id, Item(s.queue[0]))])
      else if s.done then t.(log := s.log + [(id, EndAnswer(s.error))])
      else t.(waiter := Some(id))
  }

  function Run<T, E>(s: State<T, E>, events: seq<Event<T, E>>): State<T, E>
    decreases |events|
  {
    if events == [] then s else Run(Step(s, events[0]), events[1..])
  }

  /** At most one next() is outstanding: none is made while an earlier one waits. */
  predicate OneAtATime<T, E>(s: State<T, E>, events: seq<Event<T, E>>)
    decreases |events|
  {
    events == [] || (!(events[0].Next? && s.waiter.Some?) && OneAtATime(Step(s, events[0]), events[1..]))
  }

  /** The values handed to the consumer, in the order of the answers. */
  function Delivered<T, E>(log: seq<(nat, Answer<T, E>)>): seq<T> {
    if log == [] then []
    else
      var init, last := log[..|log| - 1], log[|log| - 1].1;
      Delivered(init) + (if last.Item? then [last.value] else [])
  }

  lemma DeliveredSnoc<T, E>(log: seq<(nat, Answer<T, E>)>, last: (nat, Answer<T, E>))
    ensures Delivered(log + [last]) == Delivered(log) + (if last.1.Item? then [last.1.value] else [])
  {
    assert (log + [last])[..|log|] == log;
  }

  // ---- What every run keeps, even one with overlapping calls ----

  ghost predicate Sound<T, E>(s: State<T, E>) {
    && (s.waiter.Some? ==> s.queue == [] && !s.done && s.waiter.value < s.calls)
    && (s.error.Some? ==> s.done)
    && Delivered(s.log) + s.queue == s.produced
    && |s.log| + (if s.waiter.Some? then 1 else 0) <= s.calls
  }

  lemma StepKeepsSound<T, E>(s: State<T, E>, e: Event<T, E>)
    requires Sound(s)
    ensures Sound(Step(s, e))
  {
    var t := Step(s, e);
    if |t.log| > |s.log| {
      DeliveredSnoc(s.log, t.log[|s.log|]);
    }
    match e
    case Produce(x) => assert Delivered(s.log) + (s.queue + [x]) == s.produced + [x];
    case Finish(_) => assert Delivered(s.log) + [] == Delivered(s.log);
    case Next =>
      if s.queue != [] {
        assert Delivered(s.log) + [s.queue[0]] + s.queue[1..] == s.produced;
      } else {
        assert Delivered(s.log) + [] == Delivered(s.log);
      }
  }

  /** In every run, whatever the consumer does: a waiter means an empty queue and a live stream; the values
      delivered followed by the queue are the values produced, in order, none lost and none repeated. */
  lemma {:induction false} RunIsSound<T, E>(s: State<T, E>, events: seq<Event<T, E>>)
    requires Sound(s)
    ensures Sound(Run(s, events))
    decreases |events|
  {
    if events != [] {
      StepKeepsSound(s, events[0]);
      RunIsSound(Step(s, events[0]), events[1..]);
    }
  }

  lemma EndNeedsDrained<T, E>(s: State<T, E>, e: Event<T, E>)
    requires Sound(s)
    ensures var t := Step(s, e);
            |t.log| > |s.log| && !t.log[|t.log| - 1].1.Item? ==> t.queue == [] && Delivered(t.log) == t.produced
  {
    StepKeepsSound(s, e);
    var t := Step(s, e);
    assert Delivered(t.log) + [] == Delivered(t.log);
  }

  /** The end, or the error, is only ever reported once everything produced so far has been delivered. */
  lemma EndOnlyAfterDraining<T, E>(events: seq<Event<T, E>>, e: Event<T, E>)
    ensures var s := Run(Start<T, E>(), events);
            var t := Step(s, e);
            |t.log| > |s.log| && !t.log[|t.log| - 1].1.Item? ==> t.queue == [] && Delivered(t.log) == t.produced
  {
    RunIsSound(Start<T, E>(), events);
    EndNeedsDrained(Run(Start<T, E>(), events), e);
  }

  lemma {:induction false} RunSnoc<T, E>(s: State<T, E>, events: seq<Event<T, E>>, e: Event<T, E>)
    ensures Run(s, events + [e]) == Step(Run(s, events), e)
    decreases |events|
  {
    if events == [] {
      assert Run(Step(s, e), (events + [e])[1..]) == Step(s, e);
    } else {
      assert (events + [e])[1..] == events[1..] + [e];
      RunSnoc(Step(s, events[0]), events[1..], e);
    }
  }

  /** Finishing always settles the waiting call, with the reason of the first finish, which no later one changes. */
  lemma FinishSettles<T, E>(events: seq<Event<T, E>>, err: Option<E>)
    ensures var s := Run(Start<T, E>(), events);
            var t := Step(s, Finish(err));
            && t.done && t.waiter == None
            && t.error == (if s.done then s.error else err)
            && (s.waiter.Some? ==> t.log == s.log + [(s.waiter.value, EndAnswer(err))])
  {
    RunIsSound(Start<T, E>(), events);
  }

  lemma {:induction false} ReasonIsFinal<T, E>(s: State<T, E>, events: seq<Event<T, E>>)
    requires Sound(s) && s.done
    ensures Run(s, events).done && Run(s, events).error == s.error && Run(s, events).waiter == None
    decreases |events|
  {
    if events != [] {
      StepKeepsSound(s, events[0]);
      ReasonIsFinal(Step(s, events[0]), events[1..]);
    }
  }

  // ---- Answers in order, and the call that gets lost ----

  /** Every call so far is answered, in call order, or is the one waiting. */
  ghost predicate Accounted<T, E>(s: State<T, E>) {
    && |s.log| + (if s.waiter.Some? then 1 else 0) == s.calls
    && (forall i | 0 <= i < |s.log| :: s.log[i].0 == i)
    && (s.waiter.Some? ==> s.waiter.value == |s.log|)
  }

  /** How many next() calls were made while an earlier one was waiting. */
  function Overlaps<T, E>(s: State<T, E>, events: seq<Event<T, E>>): nat
    decreases |events|
  {
    if events == [] then 0
    else (if events[0].Next? && s.waiter.Some? then 1 else 0) + Overlaps(Step(s, events[0]), events[1..])
  }

  lemma {:induction false} NoOverlapMeansOneAtATime<T, E>(s: State<T, E>, events: seq<Event<T, E>>)
    ensures Overlaps(s, events) == 0 <==> OneAtATime(s, events)
    decreases |events|
  {
    if events != [] {
      NoOverlapMeansOneAtATime(Step(s, events[0]), events[1..]);
    }
  }

  lemma StepKeepsAccounted<T, E>(s: State<T, E>, e: Event<T, E>)
    requires Sound(s) && Accounted(s) && !(e.Next? && s.waiter.Some?)
    ensures Accounted(Step(s, e))
  {
  }

  lemma {:induction false} OneAtATimeIsAccounted<T, E>(s: State<T, E>, events: seq<Event<T, E>>)
    requires Sound(s) && Accounted(s) && OneAtATime(s, events)
    ensures Accounted(Run(s, events))
    decreases |events|
  {
    if events != [] {
      StepKeepsAccounted(s, events[0]);
      StepKeepsSound(s, events[0]);
      OneAtATimeIsAccounted(Step(s, events[0]), events[1..]);
    }
  }

  lemma {:induction false} OverlapsAreLost<T, E>(s: State<T, E>, events: seq<Event<T, E>>)
    requires Sound(s)
    ensures var t := Run(s, events);
            && Sound(t)
            && t.calls - |t.log| - (if t.waiter.Some? then 1 else 0)
               == s.calls - |s.log| - (if s.waiter.Some? then 1 else 0) + Overlaps(s, events)
    decreases |events|
  {
    if events != [] {
      StepKeepsSound(s, events[0]);
      OverlapsAreLost(Step(s, events[0]), events[1..]);
    }
  }

  /** Every call is answered in order or still waiting exactly when no call was made while another waited. Each
      overlapping call costs exactly one answer. */
  lemma NoAnswerLostIffOneAtATime<T, E>(events: seq<Event<T, E>>)
    ensures var t := Run(Start<T, E>(), events);
            && (Accounted(t) <==> OneAtATime(Start<T, E>(), events))
            && t.calls - |t.log| - (if t.waiter.Some? then 1 else 0) == Overlaps(Start<T, E>(), events)
  {
    OverlapsAreLost(Start<T, E>(), events);
    NoOverlapMeansOneAtATime(Start<T, E>(), events);
    if OneAtATime(Start<T, E>(), events) {
      OneAtATimeIsAccounted(Start<T, E>(), events);
    }
  }

  /** Two overlapping calls: the value goes to the second and the first is never answered. */
  lemma OverlapLosesTheFirstCall()
    ensures Run(Start<int, int>(), [Next, Next, Produce(7), Finish(None)]).log == [(1, Item(7))]
  {
    var s := Start<int, int>();
    var s1 := Step(s, Next);
    var s2 := Step(s1, Next);
    var s3 := Step(s2, Produce(7));
    var s4 := Step(s3, Finish(None));
    assert Run(s4, []) == s4;
    assert Run(s3, [Finish(None)]) == s4;
    assert [Produce(7), Finish(None)][1..] == [Event<int, int>.Finish(None)];
    assert Run(s2, [Produce(7), Finish(None)]) == s4;
    assert [Next, Produce(7), Finish(None)][1..] == [Event<int, int>.Produce(7), Finish(None)];
    assert Run(s1, [Next, Produce(7), Finish(None)]) == s4;
    assert [Next, Next, Produce(7), Finish(None)][1..] == [Event<int, int>.Next, Produce(7), Finish(None)];
  }

  // ---- The iterator object ----

  class Channel<T, E> {
    var queue: seq<T>
    var waiter: Option<nat>
    var done: bool
    var error: Option<E>
    ghost var calls: nat
    ghost var log: seq<(nat, Answer<T, E>)>
    ghost var produced: seq<T>

    ghost function Now(): State<T, E>
      reads this
    {
      State(queue, waiter, done, error, calls, log, produced)
    }

    constructor ()
      ensures Now() == Start()
    {
      queue, waiter, done, error := [], None, false, None;
      calls, log, produced := 0, [], [];
    }

    /** The pump hands over one frame. */
    method Deliver(x: T)
      modifies this
      ensures Now() == Step(old(Now()), Produce(x))
    {
      produced := produced + [x];
      if waiter.Some? {
        Settle(Item(x));
      } else {
        queue := queue + [x];
      }
    }

    method Finish(err: Option<E>)
      modifies this
      ensures Now() == Step(old(Now()), Event.Finish(err))
    {
      if done {
        return;
      }
      done := true;
      error := err;
      if waiter.Some? {
        Settle(EndAnswer(err));
      }
    }

    /** Resolves the waiting promise and frees the slot. */
    method Settle(answer: Answer<T, E>)
      requires waiter.Some?
      modifies this`waiter, this`log
      ensures waiter == None && log == old(log) + [(old(waiter).value, answer)]
    {
      log := log + [(waiter.value, answer)];
      waiter := None;
    }

    /** A call made while another waits takes over the waiter slot. `id` numbers the calls. */
    method Next(id: nat) returns (answer: Option<Answer<T, E>>)
      requires id == calls
      modifies this
      ensures Now() == Step(old(Now()), Event.Next)
      ensures answer == (if |log| > old(|log|) then Some(log[|log| - 1].1) else None)
    {
      calls := calls + 1;
      if queue != [] {
        answer := Some(Item(queue[0]));
        queue := queue[1..];
      } else if done {
        answer := Some(EndAnswer(error));
      } else {
        waiter := Some(id);
        return None;
      }
      log := log + [(id, answer.value)];
    }

    /** return() and close() end the stream without an error. */
    method Close()
      modifies this
      ensures Now() == Step(old(Now()), Event.Finish(None))
    {
      Finish(None);
    }
  }
}
