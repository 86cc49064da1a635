/** `BrowserCopilotSession.query` as a state machine. The generator's local state is the queue
    and the `done` flag; `waiting` says the consumer is suspended on the wake-up promise (its
    `resolve` is installed), `subscribed` that the generator's handler is in the session's
    subscriber set. Four things can happen:
    - `Arrive(e)`: the session dispatches `e` to the generator's handler, which pushes it, calls
      the installed `resolve` (if any) and sets `done` on `session.idle`;
    - `SendRejected`: the prompt's `session.send` request rejects, and the `.catch` sets `done`;
    - `ConsumerPull`: the consumer's `next()` makes progress: the first one runs the body up to the
      loop (subscribing and sending the prompt); a consumer suspended on the promise resumes only
      once it has been woken, that is once an event has been queued;
    - `Abandon`: the consumer calls `return()` (a `break` out of `for await`), which runs the
      `finally` block.
    Two history fields record every event the handler received and every event yielded. */
module Query {
  import opened Protocol

  datatype State = State(
    started: bool,
    subscribed: bool,
    waiting: bool,
    finished: bool,
    abandoned: bool,
    done: bool,
    queue: seq<Event>,
    received: seq<Event>,
    yielded: seq<Event>)

  datatype Action = Arrive(event: Event) | SendRejected | ConsumerPull | Abandon

  /** What the consumer observes: a yielded event, the end of the sequence (`{done: true}`),
      a `next()` that stays pending, or nothing (an action of the producer side). */
  datatype Signal = Yielded(event: Event) | Completed | Pending | Quiet

  /** The generator object before its first `next()`. */
  const Initial: State := State(false, false, false, false, false, false, [], [], [])

  /** The invariant of the generator's state. */
  ghost predicate Inv(s: State)
  {
    && s.received == s.yielded + s.queue
    && s.subscribed == (s.started && !s.finished)
    && (s.waiting ==> s.subscribed)
    && (!s.started ==> s.received == [] && s.queue == [] && !s.done && !s.waiting)
    && (s.abandoned ==> s.finished)
    && (s.finished && !s.abandoned ==> s.started && s.done && s.queue == [])
  }

  /** One pass of `while (!done || queue.length > 0)` up to the next yield, the loop's exit
      (followed by the `finally` block that unsubscribes) or the next `await`. */
  function Loop(s: State): (r: (State, Signal))
    ensures r.0.yielded + r.0.queue == s.yielded + s.queue
    ensures r.0.received == s.received && r.0.started == s.started && r.0.done == s.done
    ensures r.1.Yielded? <==> |s.queue| > 0
    ensures r.1.Yielded? ==> r.1.event == s.queue[0]
    ensures r.1 == Completed <==> s.queue == [] && s.done
    ensures r.1 == Completed ==> r.0.finished && !r.0.subscribed
    ensures r.1 == Pending ==> r.0.waiting && r.0.queue == [] && !r.0.done
    ensures r.1 != Quiet
  {
    if |s.queue| > 0 then
      assert (s.yielded + [s.queue[0]]) + s.queue[1..] == s.yielded + s.queue;
      (s.(queue := s.queue[1..], yielded := s.yielded + [s.queue[0]]), Yielded(s.queue[0]))
    else if s.done then (s.(subscribed := false, finished := true), Completed)
    else (s.(waiting := true), Pending)
  }

  /** One action. Only an arrival to a subscribed handler adds to the events received and
      queued, only a pull yields, and it yields the head of the queue; the producer's actions
      signal nothing to the consumer. `done` becomes set by `session.idle` or by a rejected
      send of a started query, and never becomes unset. */
  function Step(s: State, a: Action): (r: (State, Signal))
    ensures var arrived := if a.Arrive? && s.subscribed then [a.event] else [];
      && r.0.received == s.received + arrived
      && r.0.yielded + r.0.queue == s.yielded + s.queue + arrived
    ensures r.1.Yielded? ==> a == ConsumerPull && s.queue != [] && r.1.event == s.queue[0]
    ensures a.Arrive? || a == SendRejected ==> r.1 == Quiet
    ensures r.0.done == (|| s.done
                         || (a.Arrive? && s.subscribed && a.event.eventType == SESSION_IDLE)
                         || (a == SendRejected && s.started))
  {
    match a
    case Arrive(e) =>
      if !s.subscribed then (s, Quiet)
      else (s.(queue := s.queue + [e], received := s.received + [e], done := s.done || e.eventType == SESSION_IDLE), Quiet)
    case SendRejected =>
      if s.started then (s.(done := true), Quiet) else (s, Quiet)
    case ConsumerPull =>
      if s.finished then (s, Completed)
      else if !s.started then Loop(s.(started := true, subscribed := true))
      else if s.waiting then (if |s.queue| > 0 then Loop(s.(waiting := false)) else (s, Pending))
      else Loop(s)
    case Abandon =>
      if s.waiting then (s, Pending)
      else (s.(subscribed := false, finished := true, abandoned := s.abandoned || !s.finished), Completed)
  }

  /** The state and the signals after a sequence of actions. */
  function Run(s: State, t: seq<Action>): (State, seq<Signal>)
    decreases |t|
  {
    if t == [] then (s, [])
    else
      var (s1, sig) := Step(s, t[0]);
      var (s2, sigs) := Run(s1, t[1..]);
      (s2, [sig] + sigs)
  }

  /** The events among a sequence of signals. */
  function YieldedEvents(sigs: seq<Signal>): seq<Event>
    decreases |sigs|
  {
    if sigs == [] then []
    else (if sigs[0].Yielded? then [sigs[0].event] else []) + YieldedEvents(sigs[1..])
  }

  lemma InitialInv()
    ensures Inv(Initial)
  {
  }

  /** Every action keeps the invariant; in particular a finished generator is never subscribed,
      whichever way it finished. */
  lemma StepKeepsInv(s: State, a: Action)
    requires Inv(s)
    ensures Inv(Step(s, a).0)
  {
  }

  /** The signals of a step are recorded in the `yielded` history. */
  lemma StepRecordsYield(s: State, a: Action)
    ensures Step(s, a).0.yielded == s.yielded + YieldedEvents([Step(s, a).1])
  {
    assert YieldedEvents([Step(s, a).1]) == (if Step(s, a).1.Yielded? then [Step(s, a).1.event] else []) + YieldedEvents([]);
  }

  /** Along any run the invariant holds and the yielded events are exactly the ones the
      `yielded` history gained. */
  lemma {:induction false} RunKeepsInv(s: State, t: seq<Action>)
    requires Inv(s)
    ensures Inv(Run(s, t).0)
    ensures Run(s, t).0.yielded == s.yielded + YieldedEvents(Run(s, t).1)
    decreases |t|
  {
    if t != [] {
      var (s1, sig) := Step(s, t[0]);
      StepKeepsInv(s, t[0]);
      StepRecordsYield(s, t[0]);
      RunKeepsInv(s1, t[1..]);
      var sigs := Run(s1, t[1..]).1;
      assert YieldedEvents([sig] + sigs) == YieldedEvents([sig]) + YieldedEvents(sigs) by {
        assert ([sig] + sigs)[1..] == sigs;
        assert ([sig] + sigs)[0] == sig;
        assert YieldedEvents([sig]) == (if sig.Yielded? then [sig.event] else []) + YieldedEvents([]);
      }
    }
  }

  /** From the fresh generator, the consumer sees the events the handler received, in arrival
      order, none duplicated: always a prefix of them, and, once the sequence has ended by
      exhaustion rather than by `return()`, all of them. The handler is unsubscribed in every
      finished state. */
  lemma QueryYieldsArrivalsInOrder(t: seq<Action>)
    ensures var (s, sigs) := Run(Initial, t);
      && YieldedEvents(sigs) <= s.received
      && (s.finished ==> !s.subscribed)
      && (s.finished && !s.abandoned ==> YieldedEvents(sigs) == s.received)
  {
    RunKeepsInv(Initial, t);
  }

  /** The sequence ends by exhaustion only with `done` set and nothing queued. */
  lemma CompletesOnlyWhenDrained(s: State)
    requires Inv(s) && !s.finished
    requires Step(s, ConsumerPull).1 == Completed
    ensures s.done && s.queue == []
    ensures Step(s, ConsumerPull).0.finished && !Step(s, ConsumerPull).0.subscribed
  {
  }

  /** An event that arrives after `session.idle` but before the queue is drained is still
      queued behind the others, so it will be yielded. */
  lemma ArrivalAfterIdleIsQueued(s: State, e: Event)
    requires Inv(s) && s.subscribed && s.done
    ensures Step(s, Arrive(e)).0.queue == s.queue + [e]
  {
  }

  function Pulls(n: nat): (t: seq<Action>)
    ensures |t| == n && forall i :: 0 <= i < n ==> t[i] == ConsumerPull
  {
    seq(n, i => ConsumerPull)
  }

  function YieldAll(q: seq<Event>): (sigs: seq<Signal>)
    ensures |sigs| == |q| && forall i :: 0 <= i < |q| ==> sigs[i] == Yielded(q[i])
  {
    seq(|q|, i requires 0 <= i < |q| => Yielded(q[i]))
  }

  /** Once `done` is set and the consumer is not blocked, pulling drains the queue in order and
      then ends the sequence, releasing the subscription: the query terminates. */
  lemma {:induction false} DrainThenComplete(s: State)
    requires Inv(s) && s.started && !s.finished && s.done
    requires !s.waiting || |s.queue| > 0
    ensures var (f, sigs) := Run(s, Pulls(|s.queue| + 1));
      f.finished && !f.abandoned && !f.subscribed && sigs == YieldAll(s.queue) + [Completed]
    decreases |s.queue|
  {
    var t := Pulls(|s.queue| + 1);
    var (s1, sig) := Step(s, ConsumerPull);
    assert t[1..] == Pulls(|s.queue|);
    if |s.queue| == 0 {
      assert Run(s1, []) == (s1, []);
    } else {
      assert sig == Yielded(s.queue[0]) && s1.queue == s.queue[1..];
      DrainThenComplete(s1);
      assert YieldAll(s.queue) == [Yielded(s.queue[0])] + YieldAll(s.queue[1..]);
    }
  }

  /** A consumer blocked on an empty queue stays blocked, whatever the send rejection and the
      consumer do, until an event arrives: a rejected `send` sets `done` but calls no `resolve`,
      so it neither wakes the consumer nor ends the sequence with a fault. */
  lemma {:induction false} BlockedUntilArrival(s: State, t: seq<Action>)
    requires Inv(s) && s.waiting && s.queue == []
    requires forall i :: 0 <= i < |t| ==> !t[i].Arrive?
    ensures var (f, sigs) := Run(s, t);
      f.waiting && f.subscribed && !f.finished && f.queue == [] && (s.done ==> f.done) &&
      forall i :: 0 <= i < |sigs| ==> sigs[i] == Pending || sigs[i] == Quiet
    decreases |t|
  {
    if t != [] {
      var (s1, sig) := Step(s, t[0]);
      BlockedUntilArrival(s1, t[1..]);
    }
  }

  /** The first `next()` always suspends (the prompt's reply cannot have arrived yet); if the
      send then rejects and no event ever comes, the query never ends. */
  lemma RejectedSendHangs(t: seq<Action>)
    requires forall i :: 0 <= i < |t| ==> !t[i].Arrive?
    ensures var (f, sigs) := Run(Initial, [ConsumerPull, SendRejected] + t);
      f.done && f.waiting && !f.finished &&
      forall i :: 0 <= i < |sigs| ==> sigs[i] == Pending || sigs[i] == Quiet
  {
    var (s1, sig1) := Step(Initial, ConsumerPull);
    var (s2, sig2) := Step(s1, SendRejected);
    assert s2.done && s2.waiting && s2.queue == [];
    var u := [ConsumerPull, SendRejected] + t;
    assert u[1..] == [SendRejected] + t && ([SendRejected] + t)[1..] == t;
    BlockedUntilArrival(s2, t);
  }
}
