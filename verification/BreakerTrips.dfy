/** How far apart the trips of the circuit breaker are, and when they can coincide. */
module BreakerTrips {
  import opened EventSender

  /** A handler that trips the breaker had read a time at least one interval after that of the last trip before it
      passed the breaker, whatever the clock and the other handlers do. */
  lemma {:induction false} TripsKeepDistance(c: Config, actions: seq<Action>, j: nat)
    requires j < |Run(c, INITIAL, actions).trips| && 0 < Run(c, INITIAL, actions).trips[j].passedAt
    ensures var trips := Run(c, INITIAL, actions).trips;
            trips[j].passedAt <= j && trips[j].now >= trips[trips[j].passedAt - 1].now + c.interval
  {
    hide Run;
    RunKeepsInv(c, INITIAL, actions) by { StartsWell(c); }
    var s := Run(c, INITIAL, actions);
    assert TripKept(c, s.trips, j);
  }

  /** From trip i to trip j, every tripping handler passed the breaker after the trip before its own. */
  predicate PassedInTurn(trips: seq<Trip>, i: nat, j: nat)
    requires j < |trips|
  {
    forall k :: i < k <= j ==> trips[k].passedAt == k
  }

  /** Then trips i and j are as many intervals apart as there are trips from one to the other, however other handlers
      overlap with these. */
  lemma {:induction false} TripsAreApart(c: Config, actions: seq<Action>, i: nat, j: nat)
    requires i <= j < |Run(c, INITIAL, actions).trips| && PassedInTurn(Run(c, INITIAL, actions).trips, i, j)
    ensures var trips := Run(c, INITIAL, actions).trips; trips[j].now >= trips[i].now + (j - i) * c.interval
    decreases j
  {
    hide Run;
    if i < j {
      TripsAreApart(c, actions, i, j - 1);
      TripsKeepDistance(c, actions, j);
    }
  }

  /** No two handlers overlap. */
  predicate OneAtATime(c: Config, actions: seq<Action>) {
    |Run(c, INITIAL, actions).handlers| <= 1 && (actions != [] ==> OneAtATime(c, actions[..|actions| - 1]))
  }

  ghost predicate Alone(s: State) {
    && (forall h :: 0 <= h < |s.handlers| && s.handlers[h].Passed? ==> s.handlers[h].trips == |s.trips|)
    && (forall j :: 0 <= j < |s.trips| ==> s.trips[j].passedAt == j)
  }

  /** Handlers that do not overlap pass in turn. */
  lemma {:induction false} StayAlone(c: Config, actions: seq<Action>)
    requires OneAtATime(c, actions)
    ensures Alone(Run(c, INITIAL, actions))
    decreases |actions|
  {
    if actions != [] {
      StayAlone(c, actions[..|actions| - 1]);
    }
  }

  // ---------------------------------------------------------------------------------------------
  // The same schedule at other times
  // ---------------------------------------------------------------------------------------------

  /** The clock reading `x`, when the time from `l` to `m` is left out. */
  function Cut(x: int, l: int, m: int): int {
    if x <= l then x else if x <= m then l else x - (m - l)
  }

  function CutAction(a: Action, l: int, m: int): Action {
    if a.Enter? then Enter(a.message, Cut(a.now, l, m)) else a
  }

  function CutAll(actions: seq<Action>, l: int, m: int): seq<Action> {
    if actions == [] then [] else CutAll(actions[..|actions| - 1], l, m) + [CutAction(actions[|actions| - 1], l, m)]
  }

  function CutHandler(h: Handler, l: int, m: int): Handler {
    h.(now := Cut(h.now, l, m))
  }

  function CutHandlers(hs: seq<Handler>, l: int, m: int): (cut: seq<Handler>)
    ensures |cut| == |hs| && forall h :: 0 <= h < |hs| ==> cut[h] == CutHandler(hs[h], l, m)
  {
    seq(|hs|, h requires 0 <= h < |hs| => CutHandler(hs[h], l, m))
  }

  function CutTrips(trips: seq<Trip>, l: int, m: int): (cut: seq<Trip>)
    ensures |cut| == |trips| && forall j :: 0 <= j < |trips| ==> cut[j] == trips[j].(now := Cut(trips[j].now, l, m))
  {
    seq(|trips|, j requires 0 <= j < |trips| => trips[j].(now := Cut(trips[j].now, l, m)))
  }

  function CutState(c: Config, s: State, l: int, m: int): State {
    s.(handlers := CutHandlers(s.handlers, l, m),
       trips := CutTrips(s.trips, l, m),
       reset := ResetAfter(c, CutTrips(s.trips, l, m), |s.trips|))
  }

  /** A handler that passes the breaker does so with time to spare for the cut: it had read the clock before the cut, or
      the last trip was after it, or there is an interval between them even without it. */
  predicate SparesCut(c: Config, s: State, a: Action, l: int, m: int) {
    a.Check? && Enabled(s, a) && s.trips != [] && s.reset <= s.handlers[a.handler].now ==>
      var now, last := s.handlers[a.handler].now, s.trips[|s.trips| - 1].now;
      now <= l || m <= last || now - last >= c.interval + (m - l)
  }

  predicate AllSpareCut(c: Config, actions: seq<Action>, l: int, m: int) {
    actions == []
    || (var n := |actions| - 1;
        AllSpareCut(c, actions[..n], l, m) && SparesCut(c, Run(c, INITIAL, actions[..n]), actions[n], l, m))
  }

  /** Handlers read the clock in order, from 0 on. */
  predicate ReadingsRun(actions: seq<Action>) {
    && (forall i :: 0 <= i < |actions| && actions[i].Enter? ==> 0 <= actions[i].now)
    && (forall i, j :: 0 <= i < j < |actions| && actions[i].Enter? && actions[j].Enter? ==> actions[i].now <= actions[j].now)
  }

  lemma {:induction false} CutAllIs(actions: seq<Action>, l: int, m: int)
    ensures |CutAll(actions, l, m)| == |actions|
    ensures forall i :: 0 <= i < |actions| ==> CutAll(actions, l, m)[i] == CutAction(actions[i], l, m)
    decreases |actions|
  {
    if actions != [] {
      CutAllIs(actions[..|actions| - 1], l, m);
    }
  }

  lemma {:induction false} CutKeepsReadings(actions: seq<Action>, l: int, m: int)
    requires ReadingsRun(actions) && 0 <= l <= m
    ensures ReadingsRun(CutAll(actions, l, m))
  {
    CutAllIs(actions, l, m);
  }

  lemma {:induction false} CheckCuts(c: Config, s: State, h: nat, l: int, m: int)
    requires s.reset == ResetAfter(c, s.trips, |s.trips|) && 0 <= l <= m && c.interval > 0
    requires Enabled(s, Check(h)) && SparesCut(c, s, Check(h), l, m)
    ensures Enabled(CutState(c, s, l, m), Check(h))
    ensures Step(c, CutState(c, s, l, m), Check(h)) == CutState(c, Step(c, s, Check(h)), l, m)
  {
    var s' := CutState(c, s, l, m);
    assert s'.handlers[h].now < s'.reset <==> s.handlers[h].now < s.reset;
    assert CutHandlers(RemoveAt(s.handlers, h), l, m) == RemoveAt(s'.handlers, h);
    var p := Passed(s.handlers[h].message, s.handlers[h].now, |s.trips|);
    assert CutHandlers(s.handlers[h := p], l, m) == s'.handlers[h := CutHandler(p, l, m)];
  }

  lemma {:induction false} PushCuts(c: Config, s: State, h: nat, l: int, m: int)
    requires s.reset == ResetAfter(c, s.trips, |s.trips|) && 0 <= l <= m && c.interval > 0 && Enabled(s, Push(h))
    ensures Enabled(CutState(c, s, l, m), Push(h))
    ensures Step(c, CutState(c, s, l, m), Push(h)) == CutState(c, Step(c, s, Push(h)), l, m)
  {
    var s', p := CutState(c, s, l, m), s.handlers[h];
    assert CutHandlers(RemoveAt(s.handlers, h), l, m) == RemoveAt(s'.handlers, h);
    var t := Trip(p.now, p.trips);
    assert CutTrips(s.trips + [t], l, m) == s'.trips + [t.(now := Cut(t.now, l, m))];
  }

  lemma {:induction false} StepCuts(c: Config, s: State, a: Action, l: int, m: int)
    requires s.reset == ResetAfter(c, s.trips, |s.trips|) && 0 <= l <= m && c.interval > 0 && SparesCut(c, s, a, l, m)
    ensures var s', a' := CutState(c, s, l, m), CutAction(a, l, m);
            && (Enabled(s', a') <==> Enabled(s, a))
            && (Enabled(s, a) ==> Step(c, s', a') == CutState(c, Step(c, s, a), l, m))
  {
    hide PushStep, RemoveAt, ResetAfter, SparesCut;
    if Enabled(s, a) {
      match a {
        case Enter(e, now) =>
          assert CutHandlers(s.handlers + [Entered(e, now)], l, m)
              == CutHandlers(s.handlers, l, m) + [Entered(e, Cut(now, l, m))];
        case Check(h) => CheckCuts(c, s, h, l, m);
        case Push(h) => PushCuts(c, s, h, l, m);
        case _ =>
      }
    }
  }

  /** The cut schedule does the same things at its own times. */
  lemma {:induction false} RunCuts(c: Config, actions: seq<Action>, l: int, m: int)
    requires 0 <= l <= m && c.interval > 0 && AllSpareCut(c, actions, l, m)
    ensures Run(c, INITIAL, CutAll(actions, l, m)) == CutState(c, Run(c, INITIAL, actions), l, m)
    decreases |actions|
  {
    hide Step, Enabled, CutState, SparesCut, CutAction;
    if actions == [] {
      assert CutState(c, INITIAL, l, m) == INITIAL by { NothingToCut(c, l, m); }
    } else {
      var n := |actions| - 1;
      RunCuts(c, actions[..n], l, m);
      var rest := CutAll(actions[..n], l, m);
      assert CutAll(actions, l, m)[..|rest|] == rest;
      ResetIsLast(c, actions[..n]);
      StepCuts(c, Run(c, INITIAL, actions[..n]), actions[n], l, m);
    }
  }

  lemma {:induction false} NothingToCut(c: Config, l: int, m: int)
    ensures CutState(c, INITIAL, l, m) == INITIAL
  {
    assert CutHandlers([], l, m) == [] && CutTrips([], l, m) == [];
  }

  lemma {:induction false} ResetIsLast(c: Config, actions: seq<Action>)
    ensures var s := Run(c, INITIAL, actions); s.reset == ResetAfter(c, s.trips, |s.trips|)
  {
    RunKeepsInv(c, INITIAL, actions) by { StartsWell(c); }
  }

  /** The converse of TripsAreApart. If nobody needed the time between two trips to pass the breaker, then the same
      schedule, with readings that are still in order, does the same and trips twice at the same time. */
  lemma {:induction false} TripsCanCoincide(c: Config, actions: seq<Action>, i: nat, j: nat)
    requires ReadingsRun(actions) && i < |Run(c, INITIAL, actions).trips| && j < |Run(c, INITIAL, actions).trips|
    requires var l, m := Run(c, INITIAL, actions).trips[i].now, Run(c, INITIAL, actions).trips[j].now;
             0 <= l <= m && c.interval > 0 && AllSpareCut(c, actions, l, m)
    ensures var l, m := Run(c, INITIAL, actions).trips[i].now, Run(c, INITIAL, actions).trips[j].now;
            var trips := Run(c, INITIAL, CutAll(actions, l, m)).trips;
            && ReadingsRun(CutAll(actions, l, m))
            && |trips| == |Run(c, INITIAL, actions).trips| && trips[i].now == trips[j].now
  {
    hide Run, ReadingsRun, AllSpareCut, ResetAfter;
    var l, m := Run(c, INITIAL, actions).trips[i].now, Run(c, INITIAL, actions).trips[j].now;
    CutKeepsReadings(actions, l, m);
    RunCuts(c, actions, l, m);
  }

  /** The two exclude each other: handlers that pass in turn need the time between the trips. */
  lemma {:induction false} InTurnSparesNothing(c: Config, actions: seq<Action>, i: nat, j: nat)
    requires ReadingsRun(actions) && c.interval > 0 && i < j < |Run(c, INITIAL, actions).trips|
    requires PassedInTurn(Run(c, INITIAL, actions).trips, i, j) && 0 <= Run(c, INITIAL, actions).trips[i].now
    ensures !AllSpareCut(c, actions, Run(c, INITIAL, actions).trips[i].now, Run(c, INITIAL, actions).trips[j].now)
  {
    hide Run, ReadingsRun, AllSpareCut, ResetAfter;
    var l, m := Run(c, INITIAL, actions).trips[i].now, Run(c, INITIAL, actions).trips[j].now;
    TripsAreApart(c, actions, i, j);
    if AllSpareCut(c, actions, l, m) {
      TripsCanCoincide(c, actions, i, j);
      RunCuts(c, actions, l, m);
      TripsAreApart(c, CutAll(actions, l, m), i, j);
    }
  }

  // ---------------------------------------------------------------------------------------------
  // Examples
  // ---------------------------------------------------------------------------------------------

  lemma {:induction false} RunNext(c: Config, before: seq<Action>, a: Action)
    ensures var s := Run(c, INITIAL, before);
            Run(c, INITIAL, before + [a]) == if Enabled(s, a) then Step(c, s, a) else s
  {
    hide Step, Enabled;
    assert (before + [a])[..|before|] == before;
  }

  /** Handlers that come one by one at time 0 fill the queue. */
  lemma {:induction false} Fill(c: Config, m: Message, n: nat) returns (actions: seq<Action>)
    requires n <= c.capacity
    ensures ReadingsRun(actions) && forall i :: 0 <= i < |actions| && actions[i].Enter? ==> actions[i].now == 0
    ensures var s := Run(c, INITIAL, actions);
            && |s.queue| == n && s.handlers == [] && s.trips == [] && s.reset == 0
            && Running(s) && s.consumer.Top? && !s.connected && s.inHand.Nothing?
  {
    actions := [];
    if n > 0 {
      var less := Fill(c, m, n - 1);
      var passed := OnePasses(c, m, less);
      assert Run(c, INITIAL, passed).handlers == [Passed(m, 0, 0)];
      RunNext(c, passed, Push(0));
      actions := passed + [Push(0)];
    }
  }

  /** One more handler passes at time 0. */
  lemma {:induction false} OnePasses(c: Config, m: Message, before: seq<Action>) returns (actions: seq<Action>)
    requires var s := Run(c, INITIAL, before); Running(s) && s.trips == [] && s.reset == 0
    ensures actions == before + [Enter(m, 0)] + [Check(|Run(c, INITIAL, before).handlers|)]
    ensures var s := Run(c, INITIAL, before);
            Run(c, INITIAL, actions) == s.(handlers := s.handlers + [Passed(m, 0, 0)])
  {
    hide Run;
    var s := Run(c, INITIAL, before);
    RunNext(c, before, Enter(m, 0));
    RunNext(c, before + [Enter(m, 0)], Check(|s.handlers|));
    assert (s.handlers + [Entered(m, 0)])[|s.handlers| := Passed(m, 0, 0)] == s.handlers + [Passed(m, 0, 0)];
    actions := before + [Enter(m, 0)] + [Check(|s.handlers|)];
  }

  /** Two handlers past the breaker, and a full queue. */
  lemma {:induction false} BothTrip(c: Config, s: State, h: Handler)
    requires h.Passed? && s.handlers == [h, h] && |s.queue| == c.capacity && s.trips == []
    ensures Enabled(s, Push(0)) && Enabled(Step(c, s, Push(0)), Push(0))
    ensures var s' := Step(c, Step(c, s, Push(0)), Push(0));
            |s'.trips| == 2 && s'.trips[0].now == s'.trips[1].now && s'.queue == s.queue
  {
    var s1 := Step(c, s, Push(0));
    assert s1.handlers == [h];
  }

  /** Two overlapping handlers trip the breaker at the same time, whatever the capacity and the interval. */
  lemma {:induction false} OverlappingTrips(c: Config, m: Message) returns (actions: seq<Action>)
    ensures ReadingsRun(actions)
    ensures var s := Run(c, INITIAL, actions);
            |s.trips| == 2 && s.trips[0].now == s.trips[1].now && |s.queue| == c.capacity
  {
    hide Run, Step, Enabled;
    var full := Fill(c, m, c.capacity);
    var one := OnePasses(c, m, full);
    var two := OnePasses(c, m, one);
    BothTrip(c, Run(c, INITIAL, two), Passed(m, 0, 0));
    RunNext(c, two, Push(0));
    RunNext(c, two + [Push(0)], Push(0));
    actions := two + [Push(0)] + [Push(0)];
  }

  /** Two messages z and y overtake each other between two trips of x and y: after x has tripped the breaker and the
      consumer has taken a message, z needs an interval to fill the queue again for y. */
  function Detour(x: int, z: int, y: int): seq<Action> {
    [Enter(0, 0), Check(0), Push(0), Enter(1, x), Check(0), Enter(2, z), Enter(3, y), Check(2), Push(0),
     TestRunning, Reconnect(true), TestRunning, Choose, Pop, Check(0), Push(0), Push(0)]
  }

  /** So y passed before x tripped, and yet no readings in order can bring their trips together. */
  lemma {:induction false} SeparatedByAnother(interval: nat, x: int, z: int, y: int)
    requires 0 <= x <= z <= y
    ensures var trips := Run(Config(1, interval), INITIAL, Detour(x, z, y)).trips;
            && (|trips| == 2 <==> z >= x + interval)
            && (|trips| == 2 ==> trips == [Trip(x, 0), Trip(y, 0)] && y >= x + interval)
  {
    var c, d := Config(1, interval), Detour(x, z, y);
    var s := OneTaken(c, x, z, y);
    RunNext(c, d[..14], Check(0));
    RunNext(c, d[..14] + [Check(0)], Push(0));
    RunNext(c, d[..14] + [Check(0)] + [Push(0)], Push(0));
    assert d == d[..14] + [Check(0)] + [Push(0)] + [Push(0)];
  }

  lemma {:induction false} OneTaken(c: Config, x: int, z: int, y: int) returns (s: State)
    requires c.capacity == 1 && 0 <= x <= z <= y
    ensures s == Run(c, INITIAL, Detour(x, z, y)[..14])
    ensures Running(s) && s.reset == x + c.interval && s.queue == [] && s.trips == [Trip(x, 0)]
    ensures s.handlers == [Entered(2, z), Passed(3, y, 0)]
  {
    var d := Detour(x, z, y);
    s := TripOfX(c, x, z, y);
    Steps(c, d[..9], TestRunning, Reconnect(true), TestRunning, Choose, Pop);
    assert d[..14] == d[..9] + [TestRunning] + [Reconnect(true)] + [TestRunning] + [Choose] + [Pop];
    s := s.(consumer := Sending, connected := true, inHand := Holding(0), queue := []);
  }

  lemma {:induction false} TripOfX(c: Config, x: int, z: int, y: int) returns (s: State)
    requires c.capacity == 1 && 0 <= x <= z <= y
    ensures s == Run(c, INITIAL, Detour(x, z, y)[..9])
    ensures s == INITIAL.(queue := [0], reset := x + c.interval, handlers := [Entered(2, z), Passed(3, y, 0)],
                          accepted := [0], leaked := [1], trips := [Trip(x, 0)], late := 1)
  {
    hide PushStep;
    var d := Detour(x, z, y);
    var s5 := FullAndPassed(c, x, z, y);
    Steps(c, d[..5], Enter(2, z), Enter(3, y), Check(2), Push(0), Flag);
    assert d[..9] == d[..5] + [Enter(2, z)] + [Enter(3, y)] + [Check(2)] + [Push(0)];
    var s8 := s5.(handlers := [Passed(1, x, 0), Entered(2, z), Passed(3, y, 0)]);
    assert Step(c, Step(c, Step(c, s5, Enter(2, z)), Enter(3, y)), Check(2)) == s8;
    FirstTrips(c, s8);
    s := Step(c, s8, Push(0));
    assert s.handlers == [Entered(2, z), Passed(3, y, 0)];
  }

  lemma {:induction false} FirstTrips(c: Config, s: State)
    requires |s.handlers| == 3 && s.handlers[0].Passed? && |s.queue| == c.capacity
    ensures var p := s.handlers[0];
            Step(c, s, Push(0)) == s.(handlers := [s.handlers[1], s.handlers[2]], reset := p.now + c.interval,
                                      leaked := s.leaked + [p.message], trips := s.trips + [Trip(p.now, p.trips)])
  {
  }

  lemma {:induction false} FullAndPassed(c: Config, x: int, z: int, y: int) returns (s: State)
    requires c.capacity == 1 && 0 <= x
    ensures s == Run(c, INITIAL, Detour(x, z, y)[..5])
    ensures s == INITIAL.(queue := [0], handlers := [Passed(1, x, 0)], accepted := [0], late := 1)
  {
    var d := Detour(x, z, y);
    Steps(c, [], Enter(0, 0), Check(0), Push(0), Enter(1, x), Check(0));
    assert d[..5] == [] + [Enter(0, 0)] + [Check(0)] + [Push(0)] + [Enter(1, x)] + [Check(0)];
    var s2 := INITIAL.(handlers := [Passed(0, 0, 0)]);
    assert Step(c, Step(c, INITIAL, Enter(0, 0)), Check(0)) == s2;
    var s3 := INITIAL.(queue := [0], accepted := [0], late := 1);
    assert Step(c, s2, Push(0)) == s3;
    s := s3.(handlers := [Passed(1, x, 0)]);
    assert Step(c, Step(c, s3, Enter(1, x)), Check(0)) == s;
  }

  lemma {:induction false} Steps(c: Config, before: seq<Action>, a: Action, b: Action, d: Action, e: Action, f: Action)
    ensures var s1 := Next(c, Run(c, INITIAL, before), a);
            var s2 := Next(c, s1, b);
            var s3 := Next(c, s2, d);
            var s4 := Next(c, s3, e);
            && Run(c, INITIAL, before + [a] + [b] + [d] + [e]) == s4
            && Run(c, INITIAL, before + [a] + [b] + [d] + [e] + [f]) == Next(c, s4, f)
  {
    hide Step, Enabled;
    RunNext(c, before, a);
    RunNext(c, before + [a], b);
    RunNext(c, before + [a] + [b], d);
    RunNext(c, before + [a] + [b] + [d], e);
    RunNext(c, before + [a] + [b] + [d] + [e], f);
  }

  function Next(c: Config, s: State, a: Action): State {
    if Enabled(s, a) then Step(c, s, a) else s
  }
}
