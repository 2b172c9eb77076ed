/** The delayed calls as they were made, told from the actions alone, and the order in which they are performed. */
module DelayedOrder {
  import opened DelayedCalls

  function ClockAfter(now: int, actions: seq<Action>): int {
    if actions == [] then now
    else
      var last := actions[|actions| - 1];
      if last.SetClock? then last.now else ClockAfter(now, actions[..|actions| - 1])
  }

  /** Every call with its key and delay, and the clock that it read. */
  function CallsMade(now: int, actions: seq<Action>): seq<Item> {
    if actions == [] then []
    else
      var n := |actions| - 1;
      var a, rest := actions[n], CallsMade(now, actions[..n]);
      if a.Schedule? then rest + [Item(|rest|, a.key, ClockAfter(now, actions[..n]), a.ms)] else rest
  }

  lemma {:induction false} ScheduledAreCalls(now: int, actions: seq<Action>)
    ensures var s := Run(Initial(now), actions);
            s.scheduled == CallsMade(now, actions) && s.now == ClockAfter(now, actions)
    decreases |actions|
  {
    if actions != [] {
      ScheduledAreCalls(now, actions[..|actions| - 1]);
    }
  }

  /** The main result, over the calls that were made: each one is in exactly one place, and is taken off the list only by a
      handler that has read a clock at which its delay was over. */
  lemma {:induction false} EveryCallIsInOnePlace(now: int, actions: seq<Action>)
    ensures var s := Run(Initial(now), actions);
            && (forall item :: item in CallsMade(now, actions) ==> Whereabouts(s, item) == 1)
            && (forall c :: c in s.collected ==> c.item in CallsMade(now, actions) && c.item.at + c.item.ms <= c.current)
  {
    hide Run, Whereabouts, CallsMade, Accounted;
    ScheduledAreCalls(now, actions);
    EachCallIsInOnePlace(now, actions);
    RunKeepsHistory(Initial(now), actions) by { StartsWell(now); }
    var s := Run(Initial(now), actions);
    forall c | c in s.collected ensures c.item in s.scheduled {
      CollectedIsScheduled(s, c);
    }
  }

  lemma {:induction false} CollectedIsScheduled(s: State, c: Collection)
    requires Accounted(s) && c in s.collected
    ensures c.item in s.scheduled
  {
    TakenHas(s.collected, c);
    assert c.item in multiset(s.scheduled);
  }

  lemma {:induction false} TakenHas(cs: seq<Collection>, c: Collection)
    requires c in cs
    ensures c.item in Taken(cs)
    decreases |cs|
  {
    var n := |cs| - 1;
    if c != cs[n] {
      assert c in cs[..n];
      TakenHas(cs[..n], c);
    }
  }

  // ---------------------------------------------------------------------------------------------
  // Order
  // ---------------------------------------------------------------------------------------------

  /** What a handler has taken is in the order of the calls. */
  ghost predicate InOrder(s: State) {
    OneEach(s.functions) && forall h :: h in s.handlers && h.Working? ==> OneEach(h.todo)
  }

  lemma {:induction false} DueOneEach(items: seq<Item>, current: int)
    requires OneEach(items)
    ensures OneEach(DueBy(items, current))
    decreases |items|
  {
    if items != [] {
      var n := |items| - 1;
      DueOneEach(items[..n], current);
      DueExactly(items[..n], current);
      var due := DueBy(items[..n], current);
      forall j | 0 <= j < |due| ensures due[j].serial < items[n].serial {
        assert due[j] in due;
        var k :| 0 <= k < n && items[..n][k] == due[j];
      }
    }
  }

  lemma {:induction false} StepKeepsOrder(s: State, a: Action)
    requires InOrder(s) && History(s) && Enabled(s, a)
    ensures InOrder(Step(s, a))
  {
    hide OneEach, ScheduleStep, RemoveAt, Accounted, Fair, DueBy, NotDueBy, Collections;
    StepKeepsHistory(s, a);
    match a {
      case Schedule(key, ms) => ScheduledElsewhere(s, Item(|s.scheduled|, key, s.now, ms));
      case Collect(h) =>
        DueOneEach(s.functions, s.handlers[h].current);
      case Perform(h) => RestOneEach(s.handlers[h].todo);
      case Throw(h) => RemoveAtKeeps(s.handlers, h);
      case Finish(h) => RemoveAtKeeps(s.handlers, h);
      case _ =>
    }
  }

  lemma {:induction false} RestOneEach(items: seq<Item>)
    requires OneEach(items) && items != []
    ensures OneEach(items[1..])
  {
  }

  lemma {:induction false} RunKeepsOrder(now: int, actions: seq<Action>)
    ensures InOrder(Run(Initial(now), actions))
    decreases |actions|
  {
    hide InOrder, Step, Enabled, History, Newest, Performed;
    RunKeepsHistory(Initial(now), actions) by { StartsWell(now); }
    if actions != [] {
      var n := |actions| - 1;
      RunKeepsOrder(now, actions[..n]);
      RunKeepsHistory(Initial(now), actions[..n]) by { StartsWell(now); }
      if Enabled(Run(Initial(now), actions[..n]), actions[n]) {
        StepKeepsOrder(Run(Initial(now), actions[..n]), actions[n]);
      }
    } else {
      assert InOrder(Initial(now)) by { StartsWell(now); }
    }
  }

  lemma {:induction false} StartsWell(now: int)
    ensures InOrder(Initial(now)) && History(Initial(now)) && Newest(Initial(now)) && Performed(Initial(now))
  {
  }

  /** A handler performs the earliest call that it still has, and keeps all others. */
  lemma {:induction false} EarliestIsPerformed(now: int, actions: seq<Action>, h: nat)
    requires Enabled(Run(Initial(now), actions), Perform(h))
    ensures var s, s' := Run(Initial(now), actions), Run(Initial(now), actions + [Perform(h)]);
            && |s'.performed| == |s.performed| + 1 && s'.performed[..|s.performed|] == s.performed
            && |s'.handlers| == |s.handlers| && s'.handlers[h].Working?
            && var item, left := s'.performed[|s.performed|], s'.handlers[h].todo;
               && multiset(s.handlers[h].todo) == multiset(left) + multiset{item}
               && forall x :: x in left ==> item.serial < x.serial
  {
    RunKeepsOrder(now, actions);
    RunLast(Initial(now), actions, Perform(h));
    var s := Run(Initial(now), actions);
    var todo := s.handlers[h].todo;
    assert s.handlers[h] in s.handlers && OneEach(todo);
    assert todo == [todo[0]] + todo[1..];
    forall x | x in todo[1..] ensures todo[0].serial < x.serial {
      var k :| 0 <= k < |todo| - 1 && todo[1..][k] == x;
      assert x == todo[k + 1];
    }
  }
}
