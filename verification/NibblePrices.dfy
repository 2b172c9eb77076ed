/** What a call is charged: the price of its time, and the sign of each charge. */
module NibblePrices {
  import opened NibbleBilling

  // ---------------------------------------------------------------------------------------------
  // The price of the time
  // ---------------------------------------------------------------------------------------------

  /** The time that ought to be paid for up to `ts`. */
  function TalkTime(s: Session, ts: int): int {
    ts - s.answered - s.past.paused - s.past.leftOut
  }

  /** The time that is paid for up to `ts`. */
  function PaidTime(s: Session, ts: int): int {
    TalkTime(s, ts) - s.past.credit + s.past.back
  }

  /** The law of a session: while the rate is constant, what has been charged, less what is owed back, is the price of
      the time up to the last bill. The rest says how a session begins. */
  ghost predicate PaysForTime(s: Session) {
    && (s.stored.Has? ==> s.answered >= 1 && s.stored.data.total == Sum(s.past.charges))
    && (s.stored.Has? && s.past.fixed ==>
          && s.stored.data.adjustments == Price(s.rate, s.past.owed)
          && s.stored.data.total - s.stored.data.adjustments == Price(s.rate, PaidTime(s, s.stored.data.lastts)))
    && (s.stored.NoData? ==> s.past.(charges := [], fixed := true, back := 0, latest := 0) == NO_PAST)
    && (s.stored.NoData? && !s.hungUp ==> s.past.charges == [] && s.past.back == 0)
  }

  /** The call was billed for the first time after its hangup; its data are not kept. */
  predicate BilledAtHangup(s: Session) {
    s.hungUp && s.stored.NoData? && (s.past.charges != [] || s.past.back != 0)
  }

  /** What a request knows about its session. */
  predicate Knows(sessions: seq<Session>, r: Request) {
    && r.session < |sessions|
    && (r.passed && r.kind.Bill? ==>
          sessions[r.session].answered >= 1 && (sessions[r.session].past.fixed ==> r.rate == sessions[r.session].rate))
  }

  ghost predicate AllPay(s: State) {
    && (forall i :: 0 <= i < |s.sessions| ==> PaysForTime(s.sessions[i]))
    && (forall r :: r in s.requests ==> Knows(s.sessions, r))
  }

  lemma {:induction false} BilledKeepsLaw(s: Session, rate: real, ts: int)
    requires PaysForTime(s) && s.answered >= 1 && (s.past.fixed ==> rate == s.rate)
    ensures PaysForTime(Billed(s, rate, ts))
  {
    hide Price, Sum;
    var last := Current(s).lastts;
    PriceOfNothing(s.rate);
    PriceAdds(s.rate, PaidTime(s, last), ts - last);
    SumAppend(s.past.charges, Amount(s, rate, ts));
    SumOfNone();
  }

  lemma {:induction false} OthersKeepLaw(s: Session, ts: int)
    requires PaysForTime(s)
    ensures PaysForTime(PausedAt(s, ts)) && PaysForTime(ResumedAt(s, ts)) && PaysForTime(ResetAt(s, ts))
  {
    hide Price, Sum;
    if s.stored.Has? {
      var d := s.stored.data;
      PriceAdds(s.rate, PaidTime(s, d.lastts) - (ts - d.pausets), ts - d.pausets);
      PriceAdds(s.rate, s.past.owed, ts - d.pausets);
    }
  }

  lemma {:induction false} AfterKeepsLaw(s: Session, kind: Kind, rate: real, ts: int, now: int)
    requires PaysForTime(s) && (kind.Bill? ==> s.answered >= 1 && (s.past.fixed ==> rate == s.rate))
    ensures PaysForTime(After(s, kind, rate, ts)) && PaysForTime(PausedAt(After(s, kind, rate, ts), now))
  {
    hide PaysForTime, Billed, PausedAt, ResumedAt, ResetAt;
    if kind.Bill? {
      BilledKeepsLaw(s, rate, ts);
    }
    OthersKeepLaw(s, ts);
    OthersKeepLaw(After(s, kind, rate, ts), now);
  }

  lemma {:induction false} FieldsKeepLaw(s: Session, ts: int, rate: real)
    requires PaysForTime(s)
    ensures PaysForTime(Answered(s, ts)) && PaysForTime(s.(hungUp := true))
    ensures PaysForTime(s.(rate := rate, past := s.past.(fixed := false)))
  {
  }

  /** What a session keeps of itself in any step, as far as requests care. */
  predicate Follows(x: Session, x': Session) {
    && (x.answered >= 1 ==> x'.answered >= 1)
    && (x'.past.fixed ==> x.past.fixed && x'.rate == x.rate)
    && x'.account == x.account
  }

  lemma {:induction false} AfterFollows(x: Session, kind: Kind, rate: real, ts: int, now: int)
    ensures Follows(x, After(x, kind, rate, ts)) && Follows(x, PausedAt(After(x, kind, rate, ts), now))
  {
  }

  lemma {:induction false} FieldsFollow(x: Session, ts: int, rate: real)
    ensures Follows(x, Answered(x, ts)) && Follows(x, x.(hungUp := true))
    ensures Follows(x, x.(rate := rate, past := x.past.(fixed := false)))
  {
  }

  lemma {:induction false} NewCallPays(account: Account, rate: real)
    ensures PaysForTime(Session(account, rate, 0, false, NoData, NO_PAST))
  {
  }

  lemma {:induction false} EnterKeepsLaw(nobal: real, s: State, a: Action)
    requires AllPay(s) && a.Enter? && Enabled(s, a)
    ensures AllPay(Step(nobal, s, a))
  {
    hide PaysForTime, After, PausedAt, Low, Charge, Follows, Step, RemoveAt;
    var r, s' := s.requests[a.request], Step(nobal, s, a);
    var x := s.sessions[r.session];
    EnterIs(nobal, s, a);
    assert Knows(s.sessions, r);
    AfterKeepsLaw(x, r.kind, r.rate, r.ts, a.now);
    AfterFollows(x, r.kind, r.rate, r.ts, a.now);
    RemoveAtKeeps(s.requests, a.request);
  }

  lemma {:induction false} StepKeepsLaw(nobal: real, s: State, a: Action)
    requires AllPay(s) && Enabled(s, a)
    ensures AllPay(Step(nobal, s, a))
  {
    hide PaysForTime, EnterStep, Answered, Follows, Take, RemoveAt;
    match a {
      case NewCall(account, rate) => NewCallPays(account, rate);
      case Answer(i, ts) =>
        FieldsKeepLaw(s.sessions[i], ts, 0.0);
        FieldsFollow(s.sessions[i], ts, 0.0);
      case HangUp(i) =>
        FieldsKeepLaw(s.sessions[i], 0, 0.0);
        FieldsFollow(s.sessions[i], 0, 0.0);
      case SetRate(i, rate) =>
        FieldsKeepLaw(s.sessions[i], 0, rate);
        FieldsFollow(s.sessions[i], 0, rate);
      case Adjust(i, amount, saved) => TakeKeepsSessions(s, s.sessions[i].account, -amount, saved);
      case Read(_, _, _, _) =>
      case Test(h) => RemoveAtKeeps(s.requests, h);
      case Enter(_, _, _, _) => EnterKeepsLaw(nobal, s, a);
    }
  }

  lemma {:induction false} RunKeepsLaw(nobal: real, s: State, actions: seq<Action>)
    requires AllPay(s)
    ensures AllPay(Run(nobal, s, actions))
    decreases |actions|
  {
    hide AllPay, Step, Enabled;
    if actions != [] {
      RunKeepsLaw(nobal, s, actions[..|actions| - 1]);
      var s' := Run(nobal, s, actions[..|actions| - 1]);
      if Enabled(s', actions[|actions| - 1]) {
        StepKeepsLaw(nobal, s', actions[|actions| - 1]);
      }
    }
  }

  /** After any run a bill that charges brings the total to the price of the paid time, whatever the heartbeats, flushes
      and other calls do, in whatever order they get the mutex. */
  lemma {:induction false} BillsPayForTime(nobal: real, cash: map<Account, real>, actions: seq<Action>, i: nat, ts: int)
    requires i < |Run(nobal, Initial(cash), actions).sessions|
    requires var s := Run(nobal, Initial(cash), actions).sessions[i];
             s.answered >= 1 && !Paused(s) && Current(s).lastts <= ts && s.past.fixed && !BilledAtHangup(s)
    ensures var s := Run(nobal, Initial(cash), actions).sessions[i];
            Sum(Billed(s, s.rate, ts).past.charges) == Price(s.rate, PaidTime(s, ts))
  {
    hide Run, Price, Sum;
    RunKeepsLaw(nobal, Initial(cash), actions);
    var s := Run(nobal, Initial(cash), actions).sessions[i];
    assert PaysForTime(s);
    var last := Current(s).lastts;
    PriceOfNothing(s.rate);
    PriceAdds(s.rate, PaidTime(s, last), ts - last);
    SumAppend(s.past.charges, Amount(s, s.rate, ts));
    SumOfNone();
  }

  // ---------------------------------------------------------------------------------------------
  // The clock
  // ---------------------------------------------------------------------------------------------

  function TimeOf(a: Action, clock: int): int {
    match a
    case Answer(_, ts) => ts
    case Read(_, _, _, ts) => ts
    case Enter(_, _, _, now) => now
    case _ => clock
  }

  /** The clock after the actions; it starts positive. */
  function Clock(actions: seq<Action>): int {
    if actions == [] then 1 else TimeOf(actions[|actions| - 1], Clock(actions[..|actions| - 1]))
  }

  /** The clock is read in order; nothing is said about the order in which the readings are used. */
  predicate ReadingsRun(actions: seq<Action>) {
    actions == []
    || (var n := |actions| - 1;
        ReadingsRun(actions[..n]) && Clock(actions[..n]) <= TimeOf(actions[n], Clock(actions[..n])))
  }

  ghost predicate Timely(s: State, clock: int) {
    && clock >= 1
    && (forall r :: r in s.requests ==> 1 <= r.ts <= clock)
    && (forall i :: 0 <= i < |s.sessions| ==> s.sessions[i].past.latest <= clock)
  }

  lemma {:induction false} StepIsTimely(nobal: real, s: State, a: Action, clock: int)
    requires Timely(s, clock) && Enabled(s, a) && clock <= TimeOf(a, clock)
    ensures Timely(Step(nobal, s, a), TimeOf(a, clock))
  {
    hide EnterStep, Take, RemoveAt;
    match a {
      case Test(h) => RemoveAtKeeps(s.requests, h);
      case Enter(h, _, _, now) =>
        var r := s.requests[h];
        EnterIs(nobal, s, a);
        RemoveAtKeeps(s.requests, h);
        LatestAfter(s.sessions[r.session], r.kind, r.rate, r.ts, now);
      case Adjust(i, amount, saved) => TakeKeepsSessions(s, s.sessions[i].account, -amount, saved);
      case _ =>
    }
  }

  lemma {:induction false} LatestAfter(x: Session, kind: Kind, rate: real, ts: int, now: int)
    ensures After(x, kind, rate, ts).past.latest <= Max(x.past.latest, ts)
    ensures PausedAt(After(x, kind, rate, ts), now).past.latest <= Max(Max(x.past.latest, ts), now)
  {
    hide Price, Amount;
  }

  lemma {:induction false} RunIsTimely(nobal: real, cash: map<Account, real>, actions: seq<Action>)
    requires ReadingsRun(actions)
    ensures Timely(Run(nobal, Initial(cash), actions), Clock(actions))
    decreases |actions|
  {
    hide Step, Enabled;
    if actions != [] {
      var n := |actions| - 1;
      RunIsTimely(nobal, cash, actions[..n]);
      if Enabled(Run(nobal, Initial(cash), actions[..n]), actions[n]) {
        StepIsTimely(nobal, Run(nobal, Initial(cash), actions[..n]), actions[n], Clock(actions[..n]));
      }
    }
  }

  // ---------------------------------------------------------------------------------------------
  // When the total is right
  // ---------------------------------------------------------------------------------------------

  /** The step is the locked part of such an operation on the session, with the reading `ts`. */
  predicate Enters(s: State, a: Action, i: nat, kind: Kind) {
    a.Enter? && Enabled(s, a) && s.requests[a.request].session == i && s.requests[a.request].kind == kind
  }

  /** A bill or a reset whose reading is before the last bill. */
  predicate SetsBack(s: State, a: Action, i: nat) {
    && (Enters(s, a, i, Bill) || Enters(s, a, i, Reset))
    && var x, r := s.sessions[i], s.requests[a.request];
       (r.kind.Bill? ==> !Paused(x)) && (r.kind.Reset? ==> x.stored.Has?) && r.ts < Current(x).lastts
  }

  /** The locked part of a resume that finds no pause. */
  predicate FindsNoPause(s: State, a: Action, i: nat) {
    Enters(s, a, i, Resume) && s.sessions[i].stored.Has? && s.sessions[i].stored.data.pausets == 0
  }

  predicate NeverSetBack(nobal: real, cash: map<Account, real>, actions: seq<Action>, i: nat) {
    actions == []
    || (var n := |actions| - 1;
        NeverSetBack(nobal, cash, actions[..n], i)
        && !SetsBack(Run(nobal, Initial(cash), actions[..n]), actions[n], i))
  }

  predicate AlwaysFindsPause(nobal: real, cash: map<Account, real>, actions: seq<Action>, i: nat) {
    actions == []
    || (var n := |actions| - 1;
        AlwaysFindsPause(nobal, cash, actions[..n], i)
        && !FindsNoPause(Run(nobal, Initial(cash), actions[..n]), actions[n], i))
  }

  /** Only these two kinds of steps make the paid time differ from the talk time. */
  lemma {:induction false} StrayStep(nobal: real, s: State, a: Action, i: nat)
    requires Enabled(s, a) && i < |s.sessions| && forall r :: r in s.requests ==> r.ts >= 1
    ensures i < |Step(nobal, s, a).sessions|
    ensures var b, b' := s.sessions[i].past.back, Step(nobal, s, a).sessions[i].past.back;
            b <= b' && (b == b' <==> !SetsBack(s, a, i))
    ensures var c, c' := s.sessions[i].past.credit, Step(nobal, s, a).sessions[i].past.credit;
            c <= c' && (c == c' <==> !FindsNoPause(s, a, i))
  {
    hide EnterStep, Take, RemoveAt, Price, Amount, Low;
    match a {
      case Enter(h, _, _, now) =>
        EnterIs(nobal, s, a);
        assert s.requests[h] in s.requests;
      case Adjust(j, amount, saved) => TakeKeepsSessions(s, s.sessions[j].account, -amount, saved);
      case _ =>
    }
  }

  lemma {:induction false} StraysExactly(nobal: real, cash: map<Account, real>, actions: seq<Action>, i: nat)
    requires ReadingsRun(actions)
    ensures var ss := Run(nobal, Initial(cash), actions).sessions;
            && (i < |ss| ==> ss[i].past.back >= 0 && ss[i].past.credit >= 0)
            && (NeverSetBack(nobal, cash, actions, i) <==> (i < |ss| ==> ss[i].past.back == 0))
            && (AlwaysFindsPause(nobal, cash, actions, i) <==> (i < |ss| ==> ss[i].past.credit == 0))
    decreases |actions|
  {
    hide Step, Enabled, SetsBack, FindsNoPause;
    if actions != [] {
      var n := |actions| - 1;
      var s := Run(nobal, Initial(cash), actions[..n]);
      StraysExactly(nobal, cash, actions[..n], i);
      RunIsTimely(nobal, cash, actions[..n]);
      if !Enabled(s, actions[n]) {
        DisabledStrays(s, actions[n], i);
      } else if i < |s.sessions| {
        StrayStep(nobal, s, actions[n], i);
      } else {
        NewSessionStrays(nobal, s, actions[n], i);
      }
    }
  }

  lemma {:induction false} DisabledStrays(s: State, a: Action, i: nat)
    requires !Enabled(s, a)
    ensures !SetsBack(s, a, i) && !FindsNoPause(s, a, i)
  {
  }

  lemma {:induction false} NewSessionStrays(nobal: real, s: State, a: Action, i: nat)
    requires Enabled(s, a) && i >= |s.sessions|
    ensures !SetsBack(s, a, i) && !FindsNoPause(s, a, i)
    ensures var ss := Step(nobal, s, a).sessions; i < |ss| ==> ss[i].past == NO_PAST
  {
    hide Take, Low, PausedAt, After;
    if a.Adjust? {
      TakeKeepsSessions(s, s.sessions[a.session].account, -a.amount, a.saved);
    } else if a.Enter? {
      EnterIs(nobal, s, a);
    }
  }

  /** The first main result. Readings in order, a constant positive rate: when a bill that is not paused charges, the
      total is rate times talk time exactly if the times given back without a pause and the times by which bills and
      resets set the last bill back cancel out; so, if no resume ever found no pause, exactly if no bill or reset ever
      came with a reading before the last bill; and the other way round. */
  lemma {:induction false} TotalIsRateTimesTalkTimeExactly(
      nobal: real, cash: map<Account, real>, actions: seq<Action>, i: nat, ts: int)
    requires ReadingsRun(actions) && i < |Run(nobal, Initial(cash), actions).sessions|
    requires var s := Run(nobal, Initial(cash), actions).sessions[i];
             s.answered >= 1 && !Paused(s) && Current(s).lastts <= ts && s.past.fixed && s.rate > 0.0
             && !BilledAtHangup(s)
    ensures var s := Run(nobal, Initial(cash), actions).sessions[i];
            var right := Sum(Billed(s, s.rate, ts).past.charges) == Price(s.rate, TalkTime(s, ts));
            && (right <==> s.past.back == s.past.credit)
            && (AlwaysFindsPause(nobal, cash, actions, i) ==> (right <==> NeverSetBack(nobal, cash, actions, i)))
            && (NeverSetBack(nobal, cash, actions, i) ==> (right <==> AlwaysFindsPause(nobal, cash, actions, i)))
  {
    hide Run, Price, Sum, Billed, ReadingsRun;
    var s := Run(nobal, Initial(cash), actions).sessions[i];
    BillsPayForTime(nobal, cash, actions, i, ts);
    StraysExactly(nobal, cash, actions, i);
    PriceOrders(s.rate, PaidTime(s, ts), TalkTime(s, ts));
    PriceOrders(s.rate, TalkTime(s, ts), PaidTime(s, ts));
  }
}
