/** What the event sender does to each message, told from the actions alone: which handlers' messages the queue took and
    which it refused, and which messages the broker took. */
module SenderHistory {
  import opened EventSender

  /** The action takes effect in the run. */
  predicate Acts(c: Config, actions: seq<Action>, n: nat)
    requires n < |actions|
  {
    Enabled(Run(c, INITIAL, actions[..n]), actions[n])
  }

  /** The messages whose handlers found room in the queue, or found it full. */
  function Pushed(c: Config, actions: seq<Action>, room: bool): seq<Message> {
    if actions == [] then []
    else
      var n := |actions| - 1;
      var s, rest := Run(c, INITIAL, actions[..n]), Pushed(c, actions[..n], room);
      if Acts(c, actions, n) && actions[n].Push? && (|s.queue| < c.capacity) == room
      then rest + [s.handlers[actions[n].handler].message] else rest
  }

  /** The messages in hand whenever the broker accepted a send. */
  function Delivered(c: Config, actions: seq<Action>): seq<Message> {
    if actions == [] then []
    else
      var n := |actions| - 1;
      var s, rest := Run(c, INITIAL, actions[..n]), Delivered(c, actions[..n]);
      if Acts(c, actions, n) && actions[n] == Send(true) && s.inHand.Holding? then rest + [s.inHand.message] else rest
  }

  /** The messages that the last thread steps have taken out of the queue to send them, in order. */
  function TakenOut(c: Config, actions: seq<Action>): seq<Message> {
    if actions == [] then []
    else
      var n := |actions| - 1;
      var s, rest := Run(c, INITIAL, actions[..n]), TakenOut(c, actions[..n]);
      if Acts(c, actions, n) && (actions[n].Pop? || actions[n].Resume?) && s.queue != [] then rest + [s.queue[0]] else rest
  }

  ghost predicate Told(c: Config, actions: seq<Action>, s: State) {
    && s.accepted == Pushed(c, actions, true)
    && s.leaked == Pushed(c, actions, false)
    && s.published == Delivered(c, actions)
    && (!Ending(s.consumer) ==> TakenOut(c, actions) == s.published + Held(s.inHand))
  }

  lemma {:induction false} RunIsTold(c: Config, actions: seq<Action>)
    ensures Told(c, actions, Run(c, INITIAL, actions))
    decreases |actions|
  {
    hide Step;
    if actions != [] {
      var n := |actions| - 1;
      RunIsTold(c, actions[..n]);
      RunKeepsInv(c, INITIAL, actions[..n]) by { StartsWell(c); }
      if Acts(c, actions, n) {
        StepIsTold(c, actions, Run(c, INITIAL, actions[..n]));
      }
    }
  }

  lemma {:induction false} StepIsTold(c: Config, actions: seq<Action>, s: State)
    requires actions != [] && s == Run(c, INITIAL, actions[..|actions| - 1])
    requires Told(c, actions[..|actions| - 1], s) && Inv(c, s) && Enabled(s, actions[|actions| - 1])
    ensures Told(c, actions, Step(c, s, actions[|actions| - 1]))
  {
    hide Run, Step, Enabled, BreakerKept, Emptied, InOrder;
    PushesAreTold(c, s, actions[|actions| - 1]);
    SendsAreTold(c, s, actions[|actions| - 1]);
  }

  lemma {:induction false} PushesAreTold(c: Config, s: State, a: Action)
    requires Enabled(s, a)
    ensures a.Push? ==> a.handler < |s.handlers|
    ensures var s', room := Step(c, s, a), |s.queue| < c.capacity;
            && s'.accepted == s.accepted + (if a.Push? && room then [s.handlers[a.handler].message] else [])
            && s'.leaked == s.leaked + (if a.Push? && !room then [s.handlers[a.handler].message] else [])
  {
    hide RemoveAt;
  }

  lemma {:induction false} SendsAreTold(c: Config, s: State, a: Action)
    requires PublishedFirst(s) && Knows(s) && Enabled(s, a)
    ensures var s' := Step(c, s, a);
            var taken := if (a.Pop? || a.Resume?) && s.queue != [] then [s.queue[0]] else [];
            && s'.published == s.published + (if a == Send(true) && s.inHand.Holding? then [s.inHand.message] else [])
            && (!Ending(s'.consumer) ==>
                  !Ending(s.consumer) && s'.published + Held(s'.inHand) == s.published + Held(s.inHand) + taken)
  {
    hide RemoveAt;
  }

  /** The main result, over every run: what counts as published are the messages that the broker accepted, in order, what
      counts as accepted are those whose handlers found room, and nothing is sent but what was taken out of the queue. */
  lemma {:induction false} PublishedAreDelivered(c: Config, actions: seq<Action>)
    ensures var s := Run(c, INITIAL, actions);
            && s.published == Delivered(c, actions)
            && s.accepted == Pushed(c, actions, true) && s.leaked == Pushed(c, actions, false)
            && Delivered(c, actions) <= Pushed(c, actions, true)
            && (!Ending(s.consumer) ==>
                  Pushed(c, actions, true) == Delivered(c, actions) + Held(s.inHand) + s.queue)
  {
    hide Run;
    RunIsTold(c, actions);
    NothingIsLostOrRepeated(c, actions);
  }

  // ---------------------------------------------------------------------------------------------
  // A failed send
  // ---------------------------------------------------------------------------------------------

  /** Without a connection the consumer goes round its loop; only the shutdown makes it give up its message. */
  predicate Stranded(s: State, m: Message) {
    !s.connected && (s.consumer.Top? || s.consumer.Loop? || s.consumer.Aborting?) && s.inHand == Holding(m)
  }

  predicate NoReconnect(actions: seq<Action>) {
    forall i :: 0 <= i < |actions| ==> actions[i] != Reconnect(true)
  }

  /** After a failed send the same message is still in hand, and until a reconnect succeeds there is no other send and no
      pop; only the end of the consumer frees the message, unpublished. */
  lemma {:induction false} FailedSendKeepsMessage(c: Config, actions: seq<Action>, later: seq<Action>)
    requires Enabled(Run(c, INITIAL, actions), Send(false)) && NoReconnect(later)
    ensures var s, s' := Run(c, INITIAL, actions), Run(c, INITIAL, actions + [Send(false)] + later);
            && s.inHand.Holding?
            && (Stranded(s', s.inHand.message) || Ending(s'.consumer))
            && s'.published == s.published
            && !Enabled(s', Send(true)) && !Enabled(s', Pop) && !Enabled(s', Resume)
    decreases |later|
  {
    hide Step;
    var s := Run(c, INITIAL, actions);
    RunKeepsInv(c, INITIAL, actions) by { StartsWell(c); }
    var all := actions + [Send(false)] + later;
    if later == [] {
      assert all[..|actions|] == actions && all[|actions|] == Send(false);
      SendFails(c, s);
    } else {
      var n := |later| - 1;
      FailedSendKeepsMessage(c, actions, later[..n]);
      assert all[..|all| - 1] == actions + [Send(false)] + later[..n];
      var s' := Run(c, INITIAL, actions + [Send(false)] + later[..n]);
      if Enabled(s', later[n]) {
        StaysStranded(c, s', later[n], s.inHand.message);
      }
    }
  }

  lemma {:induction false} SendFails(c: Config, s: State)
    requires Inv(c, s) && Enabled(s, Send(false))
    ensures s.inHand.Holding?
    ensures var s' := Step(c, s, Send(false)); Stranded(s', s.inHand.message) && s'.published == s.published
  {
  }

  lemma {:induction false} StaysStranded(c: Config, s: State, a: Action, m: Message)
    requires Enabled(s, a) && a != Reconnect(true) && (Stranded(s, m) || Ending(s.consumer))
    ensures var s' := Step(c, s, a);
            (Stranded(s', m) || Ending(s'.consumer)) && s'.published == s.published
  {
    hide RemoveAt;
  }

  // ---------------------------------------------------------------------------------------------
  // Every accepted message can be delivered
  // ---------------------------------------------------------------------------------------------

  /** The consumer's next step, if the broker is willing. */
  function Willing(s: State): Action {
    match s.consumer
    case Top => TestRunning
    case Loop => if s.connected then Choose else Reconnect(true)
    case Popping => Pop
    case Woken => Resume
    case _ => Send(true)
  }

  function Distance(s: State): nat {
    match s.consumer
    case Top => if s.connected then 3 else 5
    case Loop => if s.connected then 2 else 4
    case Sending => 0
    case _ => 1
  }

  lemma {:induction false} WillingStep(c: Config, s: State)
    requires Inv(c, s) && Running(s) && Held(s.inHand) + s.queue != []
    ensures var a := Willing(s);
            && Own(a) && Enabled(s, a) && Inv(c, Step(c, s, a))
            && var s' := Step(c, s, a);
            && Running(s')
            && (if a.Send? then
                  s'.published + (Held(s'.inHand) + s'.queue) == s.published + (Held(s.inHand) + s.queue)
                  && |Held(s'.inHand) + s'.queue| < |Held(s.inHand) + s.queue|
                else
                  s'.published == s.published && Held(s'.inHand) + s'.queue == Held(s.inHand) + s.queue
                  && Distance(s') < Distance(s))
  {
    hide BreakerKept, InOrder, Emptied, PublishedFirst, Inv;
    KnowsIs(c, s);
    StepKeepsInv(c, s, Willing(s));
  }

  lemma {:induction false} KnowsIs(c: Config, s: State)
    requires Inv(c, s)
    ensures Knows(s)
  {
  }

  /** While the module runs, the consumer's own steps can deliver everything that is in hand or queued, in order. */
  lemma {:induction false} CanBeDelivered(c: Config, s: State) returns (actions: seq<Action>)
    requires Inv(c, s) && Running(s)
    ensures OwnSteps(actions)
    ensures var s' := Run(c, s, actions);
            s'.published == s.published + (Held(s.inHand) + s.queue) && s'.inHand.Nothing? && s'.queue == []
    decreases |Held(s.inHand) + s.queue|, Distance(s)
  {
    hide Inv, Step, Enabled;
    actions := [];
    assert s.published + [] == s.published;
    if Held(s.inHand) + s.queue != [] {
      var a := Willing(s);
      WillingStep(c, s);
      var rest := CanBeDelivered(c, Step(c, s, a));
      actions := [a] + rest;
      RunFirst(c, s, a, rest);
    }
  }

  /** In any run in which the module still runs, every message the queue took can still be delivered. */
  lemma {:induction false} AcceptedCanBeDelivered(c: Config, actions: seq<Action>) returns (more: seq<Action>)
    requires Running(Run(c, INITIAL, actions))
    ensures OwnSteps(more)
    ensures Run(c, Run(c, INITIAL, actions), more).published == Pushed(c, actions, true)
  {
    hide Run;
    RunKeepsInv(c, INITIAL, actions) by { StartsWell(c); }
    var s := Run(c, INITIAL, actions);
    more := CanBeDelivered(c, s);
    PublishedAreDelivered(c, actions);
    assert s.published + (Held(s.inHand) + s.queue) == s.published + Held(s.inHand) + s.queue;
  }

  // ---------------------------------------------------------------------------------------------
  // The breaker's test
  // ---------------------------------------------------------------------------------------------

  /** A handler passes exactly while the module runs and an interval has gone by since the last trip. */
  lemma {:induction false} PassesExactly(c: Config, actions: seq<Action>, h: nat)
    requires Enabled(Run(c, INITIAL, actions), Check(h))
    ensures var s := Run(c, INITIAL, actions);
            var s', now := Run(c, INITIAL, actions + [Check(h)]), s.handlers[h].now;
            var passes := s.shutdown == Up
                          && now >= (if s.trips == [] then 0 else s.trips[|s.trips| - 1].now + c.interval);
            && (passes ==> s'.handlers == s.handlers[h := Passed(s.handlers[h].message, now, |s.trips|)])
            && (!passes ==> s'.handlers == s.handlers[..h] + s.handlers[h + 1..])
  {
    RunKeepsInv(c, INITIAL, actions) by { StartsWell(c); }
    assert (actions + [Check(h)])[..|actions|] == actions;
  }
}
