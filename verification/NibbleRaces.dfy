/** Runs with readings in order in which two operations get the mutex in the other order, or a resume comes twice. */
module NibbleRaces {
  import opened NibbleBilling
  import opened NibblePrices
  import opened NibbleCharges

  const NOBAL := -2.0

  /** One unit of money a microsecond. */
  const RATE := 60000000.0

  function StateAfter(actions: seq<Action>): State {
    Run(NOBAL, Initial(map[]), actions)
  }

  lemma {:induction false} RunNext(before: seq<Action>, a: Action)
    requires ReadingsRun(before) && Clock(before) <= TimeOf(a, Clock(before)) && Enabled(StateAfter(before), a)
    ensures StateAfter(before + [a]) == Step(NOBAL, StateAfter(before), a)
    ensures ReadingsRun(before + [a]) && Clock(before + [a]) == TimeOf(a, Clock(before))
  {
    hide Step, Enabled, TimeOf;
    assert (before + [a])[..|before|] == before;
  }

  /** Nothing is under way, and the clock can show `ts`. */
  ghost predicate Quiet(before: seq<Action>, x: Session, ts: int) {
    && ReadingsRun(before) && Clock(before) <= ts
    && StateAfter(before).sessions == [x] && StateAfter(before).requests == [] && StateAfter(before).lock.Free?
  }

  lemma {:induction false} EnterAlone(s: State, h: nat, now: int)
    requires |s.sessions| == 1 && h < |s.requests| && s.requests[h].session == 0 && s.requests[h].passed && s.lock.Free?
    requires s.requests[h].kind.Pause? ==> s.sessions[0].stored.Has?
    ensures var a, r := Enter(h, true, false, now), s.requests[h];
            && Enabled(s, a)
            && Step(NOBAL, s, a).sessions == [After(s.sessions[0], r.kind, r.rate, r.ts)]
            && Step(NOBAL, s, a).requests == RemoveAt(s.requests, h) && Step(NOBAL, s, a).lock.Free?
  {
    hide After, Amount;
    EnterIs(NOBAL, s, Enter(h, true, false, now));
  }

  /** One operation from its reading to its end, with nobody in between. */
  lemma {:induction false} Served(before: seq<Action>, x: Session, kind: Kind, ts: int) returns (actions: seq<Action>)
    requires Quiet(before, x, ts) && Passes(x, kind) && (kind.Pause? ==> x.stored.Has?)
    ensures Quiet(actions, After(x, kind, x.rate, ts), ts)
  {
    hide After, Passes, EnterStep, ReadingsRun;
    var a1, a2, a3 := Read(1, kind, 0, ts), Test(0), Enter(0, true, false, ts);
    RunNext(before, a1);
    RunNext(before + [a1], a2);
    var s := StateAfter(before + [a1] + [a2]);
    EnterAlone(s, 0, ts);
    actions := before + [a1] + [a2] + [a3];
    RunNext(before + [a1] + [a2], a3);
  }

  lemma {:induction false} BothUnderWay(before: seq<Action>, x: Session, first: Kind, ts1: int, second: Kind, ts2: int)
    returns (actions: seq<Action>)
    requires Quiet(before, x, ts1) && ts1 <= ts2 && Passes(x, first) && Passes(x, second)
    ensures ReadingsRun(actions) && Clock(actions) <= ts2
    ensures var s := StateAfter(actions);
            && s.sessions == [x] && s.lock.Free?
            && s.requests == [Request(1, first, 0, ts1, true, x.rate), Request(2, second, 0, ts2, true, x.rate)]
  {
    hide Passes, EnterStep, ReadingsRun;
    var a1, a2 := Read(1, first, 0, ts1), Read(2, second, 0, ts2);
    RunNext(before, a1);
    RunNext(before + [a1], a2);
    var both := before + [a1] + [a2];
    assert StateAfter(both).requests == [Request(1, first, 0, ts1, false, 0.0), Request(2, second, 0, ts2, false, 0.0)];
    RunNext(both, Test(0));
    RunNext(both + [Test(0)], Test(1));
    actions := both + [Test(0)] + [Test(1)];
  }

  /** Two operations: the first one reads the clock first and gets the mutex last. */
  lemma {:induction false} Overtaken(before: seq<Action>, x: Session, first: Kind, ts1: int, second: Kind, ts2: int)
    returns (actions: seq<Action>)
    requires Quiet(before, x, ts1) && ts1 <= ts2 && Passes(x, first) && Passes(x, second)
    requires x.stored.Has? || (second.Bill? && !x.hungUp)
    ensures Quiet(actions, After(After(x, second, x.rate, ts2), first, x.rate, ts1), ts2)
  {
    hide After, Passes, EnterStep, Step, Enabled, ReadingsRun;
    var both := BothUnderWay(before, x, first, ts1, second, ts2);
    EnterAlone(StateAfter(both), 1, ts2);
    RunNext(both, Enter(1, true, false, ts2));
    var one := both + [Enter(1, true, false, ts2)];
    assert StateAfter(one).requests == [Request(1, first, 0, ts1, true, x.rate)];
    StillStored(x, second, ts2);
    EnterAlone(StateAfter(one), 0, ts2);
    RunNext(one, Enter(0, true, false, ts2));
    actions := one + [Enter(0, true, false, ts2)];
  }

  lemma {:induction false} StillStored(x: Session, kind: Kind, ts: int)
    ensures x.stored.Has? || (kind.Bill? && !x.hungUp) ==> After(x, kind, x.rate, ts).stored.Has?
  {
  }

  lemma {:induction false} Beginning() returns (actions: seq<Action>, x: Session)
    ensures x == Session(0, RATE, 1, false, NoData, NO_PAST.(latest := 1)) && Quiet(actions, x, 1)
  {
    var a1, a2 := NewCall(0, RATE), Answer(0, 1);
    RunNext([], a1);
    RunNext([] + [a1], a2);
    actions := [] + [a1] + [a2];
    x := Session(0, RATE, 1, false, NoData, NO_PAST.(latest := 1));
  }

  lemma {:induction false} OneEach(time: int)
    ensures Price(RATE, time) == time as real
  {
    assert PerMicro(RATE) == 1.0;
  }

  /** A pause read at 10 gets the mutex after a bill read at 20: the bill after the resume charges a negative amount. */
  lemma {:induction false} PauseOvertakenByBill() returns (actions: seq<Action>)
    ensures ReadingsRun(actions)
    ensures var ss := StateAfter(actions).sessions; |ss| == 1 && ss[0].past.charges == [19.0, -10.0]
  {
    hide StateAfter, Price, ReadingsRun;
    var start, x := Beginning();
    var a := Overtaken(start, x, Pause, 10, Bill, 20);
    OneEach(19);
    var y := After(After(x, Bill, x.rate, 20), Pause, x.rate, 10);
    assert y.stored == Has(Data(20, 19.0, 10, 0.0));
    var b := Served(a, y, Resume, 30);
    OneEach(20);
    var z := After(y, Resume, y.rate, 30);
    assert z.stored == Has(Data(20, 19.0, 0, 20.0));
    actions := Served(b, z, Bill, 30);
    OneEach(10);
  }

  /** A bill read at 10 gets the mutex after one read at 20: the ten between them are charged twice. */
  lemma {:induction false} BillOvertakenByBill() returns (actions: seq<Action>)
    ensures ReadingsRun(actions)
    ensures var ss := StateAfter(actions).sessions;
            |ss| == 1 && ss[0].past.charges == [19.0, 20.0] && TalkTime(ss[0], 30) == 29
  {
    hide StateAfter, Price, ReadingsRun;
    var start, x := Beginning();
    var a := Overtaken(start, x, Bill, 10, Bill, 20);
    OneEach(19);
    var y := After(After(x, Bill, x.rate, 20), Bill, x.rate, 10);
    assert y.stored == Has(Data(10, 19.0, 0, 0.0));
    actions := Served(a, y, Bill, 30);
    OneEach(20);
  }

  /** Two resumes of one pause, in perfect order: the second one pays back the whole epoch. */
  lemma {:induction false} ResumedTwice() returns (actions: seq<Action>)
    ensures ReadingsRun(actions)
    ensures var ss := StateAfter(actions).sessions; |ss| == 1 && ss[0].past.charges == [19.0, -20.0]
  {
    hide StateAfter, Price, ReadingsRun;
    var start, x := Beginning();
    var a := Served(start, x, Bill, 20);
    OneEach(19);
    var w := After(x, Bill, x.rate, 20);
    assert w.stored == Has(Data(20, 19.0, 0, 0.0));
    var b := Served(a, w, Pause, 30);
    var y := After(w, Pause, w.rate, 30);
    assert y.stored == Has(Data(20, 19.0, 30, 0.0));
    var c := Overtaken(b, y, Resume, 40, Resume, 40);
    OneEach(10);
    OneEach(40);
    var z := After(After(y, Resume, y.rate, 40), Resume, y.rate, 40);
    assert z.stored == Has(Data(20, 19.0, 0, 50.0));
    actions := Served(c, z, Bill, 50);
    OneEach(30);
  }

  /** An ordinary call: a pause of ten is not paid for, and a reset leaves out the ten before it. */
  lemma {:induction false} OrdinaryCall() returns (actions: seq<Action>)
    ensures ReadingsRun(actions)
    ensures var ss := StateAfter(actions).sessions; |ss| == 1 && ss[0].past.charges == [19.0, 20.0, 10.0]
  {
    hide StateAfter, Price, ReadingsRun;
    var start, x := Beginning();
    var a := Served(start, x, Bill, 20);
    OneEach(19);
    var y := After(x, Bill, x.rate, 20);
    assert y.stored == Has(Data(20, 19.0, 0, 0.0));
    var b := Served(a, y, Pause, 30);
    y := After(y, Pause, y.rate, 30);
    assert y.stored == Has(Data(20, 19.0, 30, 0.0));
    b := Served(b, y, Resume, 40);
    OneEach(10);
    y := After(y, Resume, y.rate, 40);
    assert y.stored == Has(Data(20, 19.0, 0, 10.0));
    b := Served(b, y, Bill, 50);
    OneEach(30);
    y := After(y, Bill, y.rate, 50);
    assert y.stored == Has(Data(50, 39.0, 0, 0.0)) && y.past.charges == [19.0, 20.0];
    b := Served(b, y, Reset, 60);
    y := After(y, Reset, y.rate, 60);
    assert y.stored == Has(Data(60, 39.0, 0, 0.0));
    actions := Served(b, y, Bill, 70);
  }
}
