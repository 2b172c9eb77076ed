/** The event sender: event handlers push onto a bounded queue behind a circuit breaker, one consumer thread publishes
    and keeps an unsent message across reconnects, and shutdown stops the consumer. All of them interleave. */
module EventSender {

  type Message = int

  datatype InHand = Nothing | Holding(message: Message)

  /** Where the consumer stands: at the test of `running`; inside the loop; calling the blocking pop; waiting in it;
      woken there; sending; and, after the loop, the three parts of its end. */
  datatype Consumer =
    | Top | Loop | Popping | Waiting | Woken | Sending
    | Aborting | Closing | Draining(toPop: nat) | Gone

  /** A handler has read the clock; then it has also passed the breaker, when `trips` trips had happened. */
  datatype Handler = Entered(message: Message, now: int) | Passed(message: Message, now: int, trips: nat)

  /** A handler that found the queue full: the time it had read, and the number of trips when it passed the breaker. */
  datatype Trip = Trip(now: int, passedAt: nat)

  datatype Shutdown = Up | Flagged | Interrupted

  /** `reset` is circuit_breaker_reset_time. From `accepted` on, the history; `late` counts the messages accepted since
      the consumer began to empty the queue. */
  datatype State = State(
    shutdown: Shutdown,
    connected: bool,
    consumer: Consumer,
    inHand: InHand,
    queue: seq<Message>,
    reset: int,
    handlers: seq<Handler>,
    accepted: seq<Message>,
    published: seq<Message>,
    freed: seq<Message>,
    leaked: seq<Message>,
    trips: seq<Trip>,
    late: nat)

  /** amqpSendQueueSize and the breaker interval in microseconds, circuit_breaker_ms * 1000. */
  datatype Config = Config(capacity: nat, interval: nat)

  /** The last eight are the consumer's own. */
  datatype Action =
    | Enter(message: Message, now: int)
    | Check(handler: nat)
    | Push(handler: nat)
    | Flag
    | Interrupt
    | TestRunning
    | Reconnect(ok: bool)
    | Choose
    | Pop
    | Resume
    | Send(ok: bool)
    | Abort
    | Close
    | Drain

  const INITIAL := State(Up, false, Top, Nothing, [], 0, [], [], [], [], [], [], 0)

  predicate Running(s: State) {
    s.shutdown.Up?
  }

  predicate Enabled(s: State, a: Action) {
    match a
    case Enter(_, _) => true
    case Check(h) => h < |s.handlers| && s.handlers[h].Entered?
    case Push(h) => h < |s.handlers| && s.handlers[h].Passed?
    case Flag => s.shutdown.Up?
    case Interrupt => s.shutdown.Flagged?
    case TestRunning => s.consumer.Top?
    case Reconnect(_) => s.consumer.Loop? && !s.connected
    case Choose => s.consumer.Loop? && s.connected
    case Pop => s.consumer.Popping?
    case Resume => s.consumer.Woken?
    case Send(_) => s.consumer.Sending?
    case Abort => s.consumer.Aborting?
    case Close => s.consumer.Closing?
    case Drain => s.consumer.Draining?
  }

  function RemoveAt<T>(items: seq<T>, i: nat): seq<T>
    requires i < |items|
  {
    items[..i] + items[i + 1..]
  }

  function Step(c: Config, s: State, a: Action): State
    requires Enabled(s, a)
  {
    match a
    case Enter(m, now) => s.(handlers := s.handlers + [Entered(m, now)])
    case Check(h) =>
      var e := s.handlers[h];
      if !Running(s) || e.now < s.reset then s.(handlers := RemoveAt(s.handlers, h))
      else s.(handlers := s.handlers[h := Passed(e.message, e.now, |s.trips|)])
    case Push(h) => PushStep(c, s, h)
    case Flag => s.(shutdown := Flagged)
    case Interrupt => s.(shutdown := Interrupted, consumer := if s.consumer.Waiting? then Woken else s.consumer)
    case TestRunning => s.(consumer := if Running(s) then Loop else Aborting)
    case Reconnect(ok) => s.(connected := ok, consumer := Top)
    case Choose => s.(consumer := if s.inHand.Nothing? then Popping else Sending)
    case Pop =>
      if s.queue == [] then s.(consumer := Waiting)
      else s.(inHand := Holding(s.queue[0]), queue := s.queue[1..], consumer := Sending)
    case Resume =>
      if s.queue == [] then s.(consumer := Top)
      else s.(inHand := Holding(s.queue[0]), queue := s.queue[1..], consumer := Sending)
    case Send(ok) =>
      if !s.connected || s.inHand.Nothing? then s.(consumer := Top)
      else if ok then
        s.(consumer := Top, inHand := Nothing,
           published := s.published + [s.inHand.message], freed := s.freed + [s.inHand.message])
      else s.(consumer := Top, connected := false)
    case Abort => s.(consumer := Closing, inHand := Nothing, freed := s.freed + Held(s.inHand))
    case Close => s.(consumer := Draining(c.capacity), connected := false, late := 0)
    case Drain =>
      if s.consumer.toPop == 0 || s.queue == [] then s.(consumer := Gone)
      else s.(consumer := Draining(s.consumer.toPop - 1), freed := s.freed + [s.queue[0]], queue := s.queue[1..])
  }

  /** trypush; a refused message trips the breaker, and nobody frees it. */
  function PushStep(c: Config, s: State, h: nat): State
    requires h < |s.handlers| && s.handlers[h].Passed?
  {
    var p := s.handlers[h];
    var s' := s.(handlers := RemoveAt(s.handlers, h));
    if |s.queue| < c.capacity then
      s'.(queue := s.queue + [p.message],
          accepted := s.accepted + [p.message],
          consumer := if s.consumer.Waiting? then Woken else s.consumer,
          late := s.late + 1)
    else
      s'.(reset := p.now + c.interval, leaked := s.leaked + [p.message], trips := s.trips + [Trip(p.now, p.trips)])
  }

  function Held(h: InHand): seq<Message> {
    if h.Holding? then [h.message] else []
  }

  function Run(c: Config, s: State, actions: seq<Action>): State {
    if actions == [] then s
    else
      var s' := Run(c, s, actions[..|actions| - 1]);
      var a := actions[|actions| - 1];
      if Enabled(s', a) then Step(c, s', a) else s'
  }

  // ---------------------------------------------------------------------------------------------
  // Safety
  // ---------------------------------------------------------------------------------------------

  /** Accepted messages are freed in the order of acceptance, each once; the rest is in hand or queued. */
  ghost predicate InOrder(s: State) {
    s.accepted == s.freed + Held(s.inHand) + s.queue
  }

  predicate Ending(p: Consumer) {
    p.Closing? || p.Draining? || p.Gone?
  }

  /** Until the consumer gives up its message, exactly the published messages are freed. */
  ghost predicate PublishedFirst(s: State) {
    && s.published <= s.freed
    && (!Ending(s.consumer) ==> s.published == s.freed)
  }

  /** What the consumer knows at each place; in particular it sends only with a connection and a message. */
  predicate Knows(s: State) {
    match s.consumer
    case Top => true
    case Loop => true
    case Popping => s.connected && s.inHand.Nothing?
    case Waiting => s.connected && s.inHand.Nothing? && s.queue == []
    case Woken => s.connected && s.inHand.Nothing?
    case Sending => s.connected && s.inHand.Holding?
    case Aborting => !Running(s)
    case Closing => !Running(s) && s.inHand.Nothing?
    case Draining(_) => !Running(s) && s.inHand.Nothing? && !s.connected
    case Gone => !Running(s) && s.inHand.Nothing? && !s.connected
  }

  /** While emptying the queue, what may remain is what came late. */
  predicate Emptied(c: Config, s: State) {
    && |s.queue| <= c.capacity
    && (s.consumer.Draining? ==> |s.queue| <= s.consumer.toPop + s.late && s.consumer.toPop <= c.capacity)
    && (s.consumer.Gone? ==> |s.queue| <= s.late)
  }

  /** A clock read as `now` was late enough to pass the breaker after the first n trips. */
  predicate LateEnough(c: Config, trips: seq<Trip>, n: nat, now: int) {
    n <= |trips| && ResetAfter(c, trips, n) <= now
  }

  predicate HandlerKept(c: Config, trips: seq<Trip>, h: Handler) {
    h.Passed? ==> LateEnough(c, trips, h.trips, h.now)
  }

  predicate TripKept(c: Config, trips: seq<Trip>, j: nat)
    requires j < |trips|
  {
    trips[j].passedAt <= j && LateEnough(c, trips, trips[j].passedAt, trips[j].now)
  }

  /** The breaker was set by the last trip, and a handler that passed it had read a late enough clock. */
  ghost predicate BreakerKept(c: Config, s: State) {
    && s.reset == ResetAfter(c, s.trips, |s.trips|)
    && (forall h :: h in s.handlers ==> HandlerKept(c, s.trips, h))
    && (forall j :: 0 <= j < |s.trips| ==> TripKept(c, s.trips, j))
  }

  /** The reset time when the first n trips had happened. */
  function ResetAfter(c: Config, trips: seq<Trip>, n: nat): int
    requires n <= |trips|
  {
    if n == 0 then 0 else trips[n - 1].now + c.interval
  }

  ghost predicate Inv(c: Config, s: State) {
    InOrder(s) && PublishedFirst(s) && Knows(s) && Emptied(c, s) && BreakerKept(c, s)
  }

  lemma {:induction false} StepKeepsInv(c: Config, s: State, a: Action)
    requires Inv(c, s) && Enabled(s, a)
    ensures Inv(c, Step(c, s, a))
  {
    hide BreakerKept, PublishedFirst, Knows, Emptied, InOrder;
    StepKeepsOrder(c, s, a);
    StepKeepsRest(c, s, a);
    StepKeepsBreaker(c, s, a);
  }

  lemma {:induction false} StepKeepsOrder(c: Config, s: State, a: Action)
    requires InOrder(s) && Knows(s) && Enabled(s, a)
    ensures InOrder(Step(c, s, a))
  {
    hide RemoveAt, PushStep;
    match a {
      case Push(h) => PushKeepsOrder(c, s, h);
      case Pop => TakeFirst(s.queue);
      case Resume => TakeFirst(s.queue);
      case Drain => TakeFirst(s.queue);
      case _ =>
    }
  }

  lemma {:induction false} TakeFirst(queue: seq<Message>)
    ensures queue != [] ==> queue == [queue[0]] + queue[1..]
  {
  }

  lemma {:induction false} PushKeepsOrder(c: Config, s: State, h: nat)
    requires InOrder(s) && h < |s.handlers| && s.handlers[h].Passed?
    ensures InOrder(PushStep(c, s, h))
  {
    hide RemoveAt;
  }

  lemma {:induction false} StepKeepsRest(c: Config, s: State, a: Action)
    requires PublishedFirst(s) && Knows(s) && Emptied(c, s) && Enabled(s, a)
    ensures PublishedFirst(Step(c, s, a)) && Knows(Step(c, s, a)) && Emptied(c, Step(c, s, a))
  {
    hide RemoveAt;
  }

  lemma {:induction false} StepKeepsBreaker(c: Config, s: State, a: Action)
    requires BreakerKept(c, s) && Enabled(s, a)
    ensures BreakerKept(c, Step(c, s, a))
  {
    hide RemoveAt, HandlerKept, TripKept, PushStep;
    match a {
      case Enter(m, now) => FreshIsKept(c, s.trips, m, now);
      case Check(h) =>
        RemoveAtKeeps(s.handlers, h);
        if !(!Running(s) || s.handlers[h].now < s.reset) {
          PassedIsKept(c, s, h);
        }
      case Push(h) => PushKeepsBreaker(c, s, h);
      case _ =>
    }
  }

  lemma {:induction false} FreshIsKept(c: Config, trips: seq<Trip>, m: Message, now: int)
    ensures HandlerKept(c, trips, Entered(m, now))
  {
  }

  lemma {:induction false} PassedIsKept(c: Config, s: State, h: nat)
    requires s.reset == ResetAfter(c, s.trips, |s.trips|)
    requires h < |s.handlers| && s.handlers[h].now >= s.reset
    ensures HandlerKept(c, s.trips, Passed(s.handlers[h].message, s.handlers[h].now, |s.trips|))
  {
  }

  lemma {:induction false} RemoveAtKeeps<T>(items: seq<T>, i: nat)
    requires i < |items|
    ensures forall x :: x in RemoveAt(items, i) ==> x in items
  {
  }

  lemma {:induction false} MoreTrips(c: Config, trips: seq<Trip>, t: Trip, n: nat, now: int)
    requires LateEnough(c, trips, n, now)
    ensures LateEnough(c, trips + [t], n, now)
  {
  }

  lemma {:induction false} PushKeepsBreaker(c: Config, s: State, h: nat)
    requires BreakerKept(c, s) && h < |s.handlers| && s.handlers[h].Passed?
    ensures BreakerKept(c, PushStep(c, s, h))
  {
    hide RemoveAt, LateEnough;
    RemoveAtKeeps(s.handlers, h);
    var p := s.handlers[h];
    assert HandlerKept(c, s.trips, p);
    var t := Trip(p.now, p.trips);
    var trips := s.trips + [t];
    forall x | x in s.handlers ensures HandlerKept(c, trips, x) {
      if x.Passed? {
        MoreTrips(c, s.trips, t, x.trips, x.now);
      }
    }
    forall j | 0 <= j < |s.trips| ensures TripKept(c, trips, j) {
      assert TripKept(c, s.trips, j);
      MoreTrips(c, s.trips, t, s.trips[j].passedAt, s.trips[j].now);
    }
    assert TripKept(c, trips, |s.trips|) by { PassedBefore(c, s.trips, p.trips, p.now); MoreTrips(c, s.trips, t, p.trips, p.now); }
  }

  lemma {:induction false} PassedBefore(c: Config, trips: seq<Trip>, n: nat, now: int)
    requires LateEnough(c, trips, n, now)
    ensures n <= |trips|
  {
  }

  lemma {:induction false} RunKeepsInv(c: Config, s: State, actions: seq<Action>)
    requires Inv(c, s)
    ensures Inv(c, Run(c, s, actions))
    decreases |actions|
  {
    hide Inv, Step, Enabled;
    if actions != [] {
      RunKeepsInv(c, s, actions[..|actions| - 1]);
      var s' := Run(c, s, actions[..|actions| - 1]);
      if Enabled(s', actions[|actions| - 1]) {
        StepKeepsInv(c, s', actions[|actions| - 1]);
      }
    }
  }

  /** The main result, for every interleaving: accepted messages are freed in the order of their acceptance, each once,
      and until the consumer has left its loop freeing means publishing; the queue keeps its bound; when the consumer is
      gone, no more messages are left than came in while it was emptying the queue. */
  lemma {:induction false} NothingIsLostOrRepeated(c: Config, actions: seq<Action>)
    ensures var s := Run(c, INITIAL, actions);
            && s.accepted == s.freed + Held(s.inHand) + s.queue
            && s.published <= s.freed
            && (!Ending(s.consumer) ==> s.accepted == s.published + Held(s.inHand) + s.queue)
            && |s.queue| <= c.capacity
            && (s.consumer.Waiting? ==> s.queue == [])
            && (s.consumer.Sending? ==> s.connected && s.inHand.Holding?)
            && (s.consumer.Gone? ==> s.accepted == s.freed + s.queue && |s.queue| <= s.late)
  {
    hide BreakerKept, Run;
    RunKeepsInv(c, INITIAL, actions) by { StartsWell(c); }
  }

  lemma {:induction false} StartsWell(c: Config)
    ensures Inv(c, INITIAL)
  {
  }

  /** Every accepted message is freed when no handler is late. */
  lemma {:induction false} AllAreFreed(c: Config, actions: seq<Action>)
    ensures var s := Run(c, INITIAL, actions); s.consumer.Gone? && s.late == 0 ==> s.freed == s.accepted
  {
    hide Run;
    NothingIsLostOrRepeated(c, actions);
  }

  /** Which messages are lost: what the gone consumer has left in the queue, and what is accepted after that; none of it
      is ever freed. */
  lemma {:induction false} LostExactly(c: Config, actions: seq<Action>, later: seq<Action>)
    requires Run(c, INITIAL, actions).consumer.Gone?
    ensures var s, s' := Run(c, INITIAL, actions), Run(c, INITIAL, actions + later);
            && s'.consumer.Gone? && s'.freed == s.freed
            && s'.accepted == s.freed + s'.queue && s.queue <= s'.queue
    decreases |later|
  {
    hide BreakerKept, PublishedFirst, Emptied, Step, Enabled;
    RunKeepsInv(c, INITIAL, actions + later) by { StartsWell(c); }
    if later == [] {
      assert actions + later == actions;
    } else {
      var n := |later| - 1;
      LostExactly(c, actions, later[..n]);
      assert (actions + later)[..|actions| + n] == actions + later[..n];
      var s := Run(c, INITIAL, actions + later[..n]);
      if Enabled(s, later[n]) {
        GoneStays(c, s, later[n]);
      }
    }
  }

  lemma {:induction false} GoneStays(c: Config, s: State, a: Action)
    requires s.consumer.Gone? && Enabled(s, a)
    ensures var s' := Step(c, s, a); s'.consumer.Gone? && s'.freed == s.freed && s.queue <= s'.queue
  {
    hide RemoveAt;
  }

  /** Shutdown unbinds the handler before it sets the flag: no handler is under way then, and none begins later. */
  predicate UnboundFirst(c: Config, actions: seq<Action>) {
    actions == []
    || (var n := |actions| - 1;
        var s := Run(c, INITIAL, actions[..n]);
        && UnboundFirst(c, actions[..n])
        && (actions[n].Enter? ==> Running(s))
        && (actions[n].Flag? ==> s.handlers == []))
  }

  lemma {:induction false} UnboundIsQuiet(c: Config, actions: seq<Action>)
    requires UnboundFirst(c, actions)
    ensures var s := Run(c, INITIAL, actions);
            && (!Running(s) ==> s.handlers == [])
            && (Ending(s.consumer) ==> !Running(s))
            && (s.consumer.Draining? || s.consumer.Gone? ==> s.late == 0)
    decreases |actions|
  {
    hide RemoveAt;
    if actions != [] {
      UnboundIsQuiet(c, actions[..|actions| - 1]);
      RunKeepsInv(c, INITIAL, actions[..|actions| - 1]) by { StartsWell(c); }
    }
  }

  /** Then every accepted message is freed, exactly once, when the consumer is gone. */
  lemma {:induction false} UnboundLosesNothing(c: Config, actions: seq<Action>)
    requires UnboundFirst(c, actions)
    ensures var s := Run(c, INITIAL, actions); s.consumer.Gone? ==> s.freed == s.accepted
  {
    hide Run, UnboundFirst;
    UnboundIsQuiet(c, actions);
    AllAreFreed(c, actions);
  }

  lemma {:induction false} RunTwo(c: Config, s: State, before: seq<Action>, a: Action, b: Action)
    requires Enabled(Run(c, s, before), a) && Enabled(Step(c, Run(c, s, before), a), b)
    ensures Run(c, s, before + [a, b]) == Step(c, Step(c, Run(c, s, before), a), b)
  {
    hide Step, Enabled;
    assert (before + [a, b])[..|before| + 1] == before + [a] && (before + [a])[..|before|] == before;
  }

  // ---------------------------------------------------------------------------------------------
  // Shutdown
  // ---------------------------------------------------------------------------------------------

  predicate Own(a: Action) {
    !a.Enter? && !a.Check? && !a.Push? && !a.Flag? && !a.Interrupt?
  }

  /** The consumer is past its last test of `running` and will wait for a message that never comes. */
  predicate Doomed(s: State) {
    && !Running(s) && s.queue == []
    && (s.consumer.Waiting? || s.consumer.Popping? || (s.consumer.Loop? && s.connected && s.inHand.Nothing?))
  }

  predicate NoEvents(actions: seq<Action>) {
    forall i :: 0 <= i < |actions| ==> !actions[i].Enter?
  }

  /** A doomed consumer does not end: after the interrupt, and with no more events, it stays doomed. */
  lemma {:induction false} DoomedForGood(c: Config, s: State, actions: seq<Action>)
    requires s.shutdown.Interrupted? && Doomed(s) && s.handlers == [] && NoEvents(actions)
    ensures var s' := Run(c, s, actions); s'.shutdown.Interrupted? && Doomed(s') && s'.handlers == []
    decreases |actions|
  {
    if actions != [] {
      DoomedForGood(c, s, actions[..|actions| - 1]);
    }
  }

  function Rank(c: Config, p: Consumer): nat {
    match p
    case Loop => c.capacity + 10
    case Popping => c.capacity + 9
    case Waiting => c.capacity + 9
    case Woken => c.capacity + 9
    case Sending => c.capacity + 8
    case Top => c.capacity + 7
    case Aborting => c.capacity + 6
    case Closing => c.capacity + 5
    case Draining(n) => n + 1
    case Gone => 0
  }

  /** Otherwise, once `running` is off, each of its steps brings the consumer nearer to its end. */
  lemma {:induction false} OwnStepsEnd(c: Config, s: State, a: Action)
    requires Inv(c, s) && !Running(s) && !Doomed(s) && Own(a) && Enabled(s, a)
    ensures !Doomed(Step(c, s, a)) && Rank(c, Step(c, s, a).consumer) < Rank(c, s.consumer)
  {
  }

  function NextStep(s: State): Action {
    match s.consumer
    case Top => TestRunning
    case Loop => if s.connected then Choose else Reconnect(false)
    case Popping => Pop
    case Woken => Resume
    case Sending => Send(false)
    case Aborting => Abort
    case Closing => Close
    case _ => Drain
  }

  /** It always has such a step until it is gone. */
  lemma {:induction false} OwnStepExists(c: Config, s: State)
    requires Inv(c, s) && !Doomed(s) && !Running(s) && !s.consumer.Gone?
    ensures Own(NextStep(s)) && Enabled(s, NextStep(s))
  {
  }

  predicate OwnSteps(actions: seq<Action>) {
    forall i :: 0 <= i < |actions| ==> Own(actions[i])
  }

  lemma {:induction false} Ends(c: Config, s: State) returns (actions: seq<Action>)
    requires Inv(c, s) && !Running(s) && !Doomed(s)
    ensures OwnSteps(actions) && Run(c, s, actions).consumer.Gone?
    decreases Rank(c, s.consumer)
  {
    hide Inv, Step, Enabled, Doomed;
    actions := [];
    if !s.consumer.Gone? {
      var a := NextStep(s);
      OwnStepExists(c, s);
      OwnStepsEnd(c, s, a);
      StepKeepsInv(c, s, a);
      assert !Running(Step(c, s, a)) by { StaysDown(c, s, a); }
      var rest := Ends(c, Step(c, s, a));
      actions := [a] + rest;
      RunFirst(c, s, a, rest);
    }
  }

  lemma {:induction false} StaysDown(c: Config, s: State, a: Action)
    requires !Running(s) && Enabled(s, a)
    ensures !Running(Step(c, s, a))
  {
  }

  lemma {:induction false} RunFirst(c: Config, s: State, a: Action, rest: seq<Action>)
    requires Enabled(s, a)
    ensures Run(c, s, [a] + rest) == Run(c, Step(c, s, a), rest)
    decreases |rest|
  {
    hide Step, Enabled;
    if rest == [] {
      assert [a] + rest == [a] && [a][..0] == [];
    } else {
      var n := |rest| - 1;
      assert ([a] + rest)[..n + 1] == [a] + rest[..n] && ([a] + rest)[n + 1] == rest[n];
      RunFirst(c, s, a, rest[..n]);
    }
  }

  /** After the interrupt and without events the consumer can end exactly when it is not doomed; every one of its own
      runs then does, by OwnStepsEnd and OwnStepExists. */
  lemma {:induction false} ShutdownCompletesExactly(c: Config, s: State)
    requires Inv(c, s) && s.shutdown.Interrupted? && s.handlers == []
    ensures !Doomed(s) <==> exists actions :: OwnSteps(actions) && Run(c, s, actions).consumer.Gone?
  {
    hide Inv, Run;
    if Doomed(s) {
      forall actions | OwnSteps(actions) ensures !Run(c, s, actions).consumer.Gone? {
        assert NoEvents(actions);
        DoomedForGood(c, s, actions);
      }
    } else {
      var actions := Ends(c, s);
    }
  }

  /** The interrupt can come too early: the consumer has tested `running` and is about to pop from an empty queue. */
  lemma {:induction false} MissedInterrupt(c: Config, later: seq<Action>)
    requires NoEvents(later)
    ensures var s := Run(c, INITIAL, [TestRunning, Reconnect(true), TestRunning, Choose, Flag, Interrupt]);
            s.shutdown.Interrupted? && !Run(c, s, later).consumer.Gone?
  {
    var two, four := [TestRunning, Reconnect(true)], [TestRunning, Reconnect(true), TestRunning, Choose];
    RunTwo(c, INITIAL, [], TestRunning, Reconnect(true));
    RunTwo(c, INITIAL, two, TestRunning, Choose);
    assert two + [TestRunning, Choose] == four;
    RunTwo(c, INITIAL, four, Flag, Interrupt);
    assert four + [Flag, Interrupt] == [TestRunning, Reconnect(true), TestRunning, Choose, Flag, Interrupt];
    DoomedForGood(c, Run(c, INITIAL, four + [Flag, Interrupt]), later);
  }

  // ---------------------------------------------------------------------------------------------
  // The module's globals, changed in place
  // ---------------------------------------------------------------------------------------------

  class Globals {
    const config: Config
    var shutdown: Shutdown
    var connected: bool
    var consumer: Consumer
    var msg: InHand
    var queue: seq<Message>
    var resetTime: int
    var handlers: seq<Handler>
    ghost var accepted: seq<Message>
    ghost var published: seq<Message>
    ghost var freed: seq<Message>
    ghost var leaked: seq<Message>
    ghost var trips: seq<Trip>
    ghost var late: nat
    var tripCount: nat

    ghost function View(): State
      reads this
    {
      State(shutdown, connected, consumer, msg, queue, resetTime, handlers, accepted, published, freed, leaked, trips, late)
    }

    ghost predicate Valid()
      reads this
    {
      tripCount == |trips|
    }

    constructor (config: Config)
      ensures Valid() && View() == INITIAL && this.config == config
    {
      this.config := config;
      shutdown, connected, consumer, msg, queue, resetTime := Up, false, Top, Nothing, [], 0;
      handlers, tripCount := [], 0;
      accepted, published, freed, leaked, trips, late := [], [], [], [], [], 0;
    }

    /** mod_AMQP_event_handler reads the clock. */
    method BeginEvent(m: Message, now: int)
      requires Valid()
      modifies this`handlers
      ensures Valid() && View() == Step(config, old(View()), Enter(m, now))
    {
      handlers := handlers + [Entered(m, now)];
    }

    /** It ignores the event unless the module runs and the breaker is closed. */
    method CheckBreaker(h: nat)
      requires Valid() && Enabled(View(), Check(h))
      modifies this`handlers
      ensures Valid() && View() == Step(config, old(View()), Check(h))
    {
      var e := handlers[h];
      if shutdown != Up || e.now < resetTime {
        handlers := RemoveAt(handlers, h);
      } else {
        handlers := handlers[h := Passed(e.message, e.now, tripCount)];
      }
    }

    /** trypush: a full queue trips the breaker, an accepted message wakes a waiting consumer. */
    method TryPush(h: nat)
      requires Valid() && Enabled(View(), Push(h))
      modifies this
      ensures Valid() && View() == Step(config, old(View()), Push(h))
    {
      hide RemoveAt;
      var p := handlers[h];
      handlers := RemoveAt(handlers, h);
      if |queue| < config.capacity {
        queue := queue + [p.message];
        accepted := accepted + [p.message];
        late := late + 1;
        if consumer == Waiting {
          consumer := Woken;
        }
      } else {
        resetTime := p.now + config.interval;
        leaked := leaked + [p.message];
        trips := trips + [Trip(p.now, p.trips)];
        tripCount := tripCount + 1;
      }
    }

    /** mod_amqp_shutdown: first the flag, then the interrupt. */
    method ShutdownStep(a: Action)
      requires Valid() && Enabled(View(), a) && (a.Flag? || a.Interrupt?)
      modifies this`shutdown, this`consumer
      ensures Valid() && View() == Step(config, old(View()), a)
    {
      if a == Flag {
        shutdown := Flagged;
      } else {
        shutdown := Interrupted;
        if consumer == Waiting {
          consumer := Woken;
        }
      }
    }

    /** The head of the consumer's loop: go on, reconnect, or look for a message. `ok` is the result of opening a
        connection. */
    method LoopHead(ok: bool)
      requires Valid() && (consumer.Top? || consumer.Loop?)
      modifies this`consumer, this`connected
      ensures Valid()
      ensures View() == Step(config, old(View()), if old(consumer).Top? then TestRunning
                                                  else if old(connected) then Choose else Reconnect(ok))
    {
      if consumer == Top {
        consumer := if shutdown == Up then Loop else Aborting;
      } else if !connected {
        connected := ok;
        consumer := Top;
      } else {
        consumer := if msg == Nothing then Popping else Sending;
      }
    }

    /** switch_queue_pop: it waits on an empty queue, and returns empty-handed if the queue is empty when it is woken. */
    method QueuePop()
      requires Valid() && (consumer.Popping? || consumer.Woken?)
      modifies this`consumer, this`msg, this`queue
      ensures Valid() && View() == Step(config, old(View()), if old(consumer).Popping? then Pop else Resume)
    {
      if |queue| == 0 {
        consumer := if consumer == Popping then Waiting else Top;
      } else {
        msg := Holding(queue[0]);
        queue := queue[1..];
        consumer := Sending;
      }
    }

    /** mod_amqp_send and what the loop does with its result; `ok` is the result of publishing. */
    method SendMessage(ok: bool)
      requires Valid() && consumer.Sending?
      modifies this`consumer, this`msg, this`connected, this`published, this`freed
      ensures Valid() && View() == Step(config, old(View()), Send(ok))
    {
      if msg != Nothing && connected {
        if ok {
          published := published + [msg.message];
          freed := freed + [msg.message];
          msg := Nothing;
        } else {
          connected := false;
        }
      }
      consumer := Top;
    }

    /** After the loop: free the message in hand, disconnect, and empty the queue one message at a time. */
    method EndStep()
      requires Valid() && (consumer.Aborting? || consumer.Closing? || consumer.Draining?)
      modifies this
      ensures Valid() && View() == Step(config, old(View()), if old(consumer).Aborting? then Abort
                                                             else if old(consumer).Closing? then Close else Drain)
    {
      match consumer {
        case Aborting =>
          if msg != Nothing {
            freed := freed + [msg.message];
            msg := Nothing;
          }
          consumer := Closing;
        case Closing =>
          connected := false;
          consumer := Draining(config.capacity);
          late := 0;
        case Draining(toPop) =>
          if toPop > 0 && |queue| > 0 {
            freed := freed + [queue[0]];
            queue := queue[1..];
            consumer := Draining(toPop - 1);
          } else {
            consumer := Gone;
          }
      }
    }
  }
}
