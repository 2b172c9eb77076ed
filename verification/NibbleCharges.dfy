/** The sign of a charge: exactly which late operations can make one negative. */
module NibbleCharges {
  import opened NibbleBilling
  import opened NibblePrices

  // ---------------------------------------------------------------------------------------------
  // Safe sessions
  // ---------------------------------------------------------------------------------------------

  ghost predicate NoneNegative(charges: seq<real>) {
    forall c :: c in charges ==> c >= 0.0
  }

  /** The time up to which the call is paid for, what is to be paid back included. */
  function PaidUntil(x: Session): int {
    Current(x).lastts + x.past.owed
  }

  /** The next charge, if everything goes in order from here: a resume at `r` if the call is paused, and a bill at `b`. */
  function NextCharge(x: Session, r: int, b: int): real {
    var x' := if Paused(x) then ResumedAt(x, r) else x;
    if Charges(x', b) then Amount(x', x'.rate, b) else 0.0
  }

  /** No operation in order causes a negative charge. */
  ghost predicate Safe(x: Session) {
    forall r, b :: x.past.latest <= r <= b ==> NextCharge(x, r, b) >= 0.0
  }

  /** A session with a constant natural rate, between operations. */
  predicate Ready(x: Session) {
    && x.past.fixed && x.rate >= 0.0 && x.answered <= x.past.latest && 0 <= x.past.latest
    && (x.stored.NoData? ==> x.past.owed == 0)
    && (x.stored.Has? ==>
          var d := x.stored.data;
          d.adjustments == Price(x.rate, x.past.owed) && d.lastts <= x.past.latest && 0 <= d.pausets <= x.past.latest)
  }

  lemma {:induction false} PriceSign(rate: real, time: int)
    requires rate >= 0.0
    ensures Price(rate, time) >= 0.0 <==> rate == 0.0 || time >= 0
  {
    hide PerMicro;
    PriceOfNothing(rate);
    if rate > 0.0 {
      PriceOrders(rate, 0, time);
    } else {
      FreeOfCharge(time);
    }
  }

  lemma {:induction false} FreeOfCharge(time: int)
    ensures Price(0.0, time) == 0.0
  {
  }

  /** A bill in a ready session charges for the time since `PaidUntil`. */
  lemma {:induction false} AmountIs(x: Session, ts: int)
    requires Current(x).adjustments == Price(x.rate, x.past.owed)
    ensures Amount(x, x.rate, ts) == Price(x.rate, ts - PaidUntil(x))
  {
    hide Price;
    PriceAdds(x.rate, ts - PaidUntil(x), x.past.owed);
  }

  lemma {:induction false} CurrentOwes(x: Session)
    requires Ready(x)
    ensures Current(x).adjustments == Price(x.rate, x.past.owed)
  {
    hide Price;
    PriceOfNothing(x.rate);
  }

  lemma {:induction false} NextChargeExactly(x: Session, r: int, b: int)
    requires Ready(x) && x.past.latest <= r <= b
    ensures NextCharge(x, r, b) >= 0.0
       <==> x.rate == 0.0 || PaidUntil(x) <= (if Paused(x) then x.stored.data.pausets + (b - r) else b)
  {
    hide Price;
    CurrentOwes(x);
    if Paused(x) {
      var x' := ResumedAt(x, r);
      PriceAdds(x.rate, x.past.owed, r - x.stored.data.pausets);
      AmountIs(x', b);
      PriceSign(x.rate, b - PaidUntil(x'));
    } else {
      AmountIs(x, b);
      PriceSign(x.rate, b - PaidUntil(x));
    }
  }

  lemma {:induction false} SafeExactly(x: Session)
    requires Ready(x)
    ensures Safe(x)
       <==> x.rate == 0.0 || PaidUntil(x) <= (if Paused(x) then x.stored.data.pausets else x.past.latest)
  {
    hide Price, NextCharge;
    NextChargeExactly(x, x.past.latest, x.past.latest);
    forall r, b | x.past.latest <= r <= b
      ensures NextCharge(x, r, b) >= 0.0
         <==> x.rate == 0.0 || PaidUntil(x) <= (if Paused(x) then x.stored.data.pausets + (b - r) else b)
    {
      NextChargeExactly(x, r, b);
    }
  }

  // ---------------------------------------------------------------------------------------------
  // Harmless operations
  // ---------------------------------------------------------------------------------------------

  /** A guard for the locked part of each operation, when it gets the mutex with the reading `ts`. */
  predicate Harmless(x: Session, kind: Kind, ts: int) {
    x.rate == 0.0
    || match kind
       case Bill => Paused(x) || ts < Current(x).lastts || PaidUntil(x) <= ts
       case Pause => x.stored.NoData? || x.stored.data.pausets != 0 || PaidUntil(x) <= ts
       case Resume => x.stored.NoData? || x.stored.data.pausets != 0 || PaidUntil(x) + ts <= Max(x.past.latest, ts)
       case Reset =>
         x.stored.NoData?
         || ts + x.past.owed <= (if Paused(x) then x.stored.data.pausets else Max(x.past.latest, ts))
  }

  lemma {:induction false} AfterIsReady(x: Session, kind: Kind, ts: int)
    requires Ready(x) && ts >= 1
    ensures Ready(After(x, kind, x.rate, ts))
  {
    hide Price;
    PriceOfNothing(x.rate);
    if x.stored.Has? {
      PriceAdds(x.rate, x.past.owed, ts - x.stored.data.pausets);
    }
  }

  /** A bill: its own charge is natural exactly if it is harmless, and it never leaves the session unsafe. */
  lemma {:induction false} BillIsHarmlessExactly(x: Session, ts: int)
    requires Ready(x) && Safe(x) && ts >= 1
    ensures Safe(Billed(x, x.rate, ts))
    ensures (Charges(x, ts) ==> Amount(x, x.rate, ts) >= 0.0) <==> Harmless(x, Bill, ts)
  {
    hide Price, Safe;
    SafeExactly(x);
    AfterIsReady(x, Bill, ts);
    SafeExactly(Billed(x, x.rate, ts));
    CurrentOwes(x);
    AmountIs(x, ts);
    PriceSign(x.rate, ts - PaidUntil(x));
  }

  /** A pause never causes a negative charge exactly if the call has no data, is already paused, or is not paid for beyond
      the pause. With nothing to be paid back this says that the pause is not before the last bill; with something to be
      paid back that is still needed, but no longer enough. */
  lemma {:induction false} PauseIsHarmlessExactly(x: Session, ts: int)
    requires Ready(x) && Safe(x) && ts >= 1
    ensures Safe(PausedAt(x, ts)) <==> Harmless(x, Pause, ts)
    ensures x.rate > 0.0 && x.past.owed == 0 ==>
              (Harmless(x, Pause, ts)
               <==> x.stored.NoData? || x.stored.data.pausets != 0 || x.stored.data.lastts <= ts)
    ensures x.rate > 0.0 && x.past.owed >= 0 && Harmless(x, Pause, ts) ==>
              x.stored.NoData? || x.stored.data.pausets != 0 || x.stored.data.lastts <= ts
  {
    hide Price, Safe;
    SafeExactly(x);
    AfterIsReady(x, Pause, ts);
    SafeExactly(PausedAt(x, ts));
  }

  /** With a pause still to be paid back, a late pause after the last bill can do harm. */
  lemma {:induction false} PauseBeforePayback()
    ensures var x := Session(0, 60000000.0, 1, false, Has(Data(5, 4.0, 0, 15.0)),
                             NO_PAST.(charges := [4.0], paused := 15, owed := 15, latest := 25));
            Ready(x) && Safe(x) && x.stored.data.lastts <= 12 && !Safe(PausedAt(x, 12))
  {
    var x := Session(0, 60000000.0, 1, false, Has(Data(5, 4.0, 0, 15.0)),
                     NO_PAST.(charges := [4.0], paused := 15, owed := 15, latest := 25));
    assert Price(60000000.0, 15) == 15.0 by { assert PerMicro(60000000.0) == 1.0; }
    assert Safe(x) by { SafeExactly(x); }
    PauseIsHarmlessExactly(x, 12);
  }

  /** The locked part of a resume: with readings since an epoch long ago, exactly if it finds a pause. */
  lemma {:induction false} ResumeIsHarmlessExactly(x: Session, ts: int)
    requires Ready(x) && Safe(x) && ts >= 1
    ensures Safe(ResumedAt(x, ts)) <==> Harmless(x, Resume, ts)
    ensures x.rate > 0.0 && x.stored.Has? && PaidUntil(x) + ts > Max(x.past.latest, ts) ==>
              (Harmless(x, Resume, ts) <==> x.stored.data.pausets != 0)
  {
    hide Price, Safe;
    SafeExactly(x);
    AfterIsReady(x, Resume, ts);
    SafeExactly(ResumedAt(x, ts));
  }

  /** A reset in order is harmless exactly if nothing is owed back, and no pause has begun earlier. */
  lemma {:induction false} ResetIsHarmlessExactly(x: Session, ts: int)
    requires Ready(x) && Safe(x) && ts >= 1
    ensures Safe(ResetAt(x, ts)) <==> Harmless(x, Reset, ts)
    ensures x.rate > 0.0 && x.stored.Has? && x.past.latest <= ts && x.past.owed >= 0 ==>
              (Harmless(x, Reset, ts)
               <==> x.past.owed == 0 && (x.stored.data.pausets == 0 || x.stored.data.pausets == ts))
  {
    hide Price, Safe;
    SafeExactly(x);
    AfterIsReady(x, Reset, ts);
    SafeExactly(ResetAt(x, ts));
  }

  /** All four at once: from a safe session, an operation charges nothing negative and leaves the session safe exactly
      if it is harmless. */
  lemma {:induction false} HarmlessExactly(x: Session, kind: Kind, ts: int)
    requires Ready(x) && Safe(x) && NoneNegative(x.past.charges) && ts >= 1
    ensures var x' := After(x, kind, x.rate, ts);
            NoneNegative(x'.past.charges) && Safe(x') <==> Harmless(x, kind, ts)
  {
    hide Price, Safe, Harmless, Ready, Amount;
    BillIsHarmlessExactly(x, ts);
    PauseIsHarmlessExactly(x, ts);
    ResumeIsHarmlessExactly(x, ts);
    ResetIsHarmlessExactly(x, ts);
    OneMoreCharge(x, ts);
    ChargesStay(x, ts);
  }

  lemma {:induction false} OneMoreCharge(x: Session, ts: int)
    requires NoneNegative(x.past.charges)
    ensures NoneNegative(Billed(x, x.rate, ts).past.charges)
       <==> (Charges(x, ts) ==> Amount(x, x.rate, ts) >= 0.0)
  {
    hide Amount;
    if Charges(x, ts) {
      assert Amount(x, x.rate, ts) in Billed(x, x.rate, ts).past.charges;
    }
  }

  lemma {:induction false} ChargesStay(x: Session, ts: int)
    ensures PausedAt(x, ts).past.charges == x.past.charges && PausedAt(x, ts).account == x.account
    ensures ResumedAt(x, ts).past.charges == x.past.charges && ResumedAt(x, ts).account == x.account
    ensures ResetAt(x, ts).past.charges == x.past.charges && ResetAt(x, ts).account == x.account
  {
  }

  /** Operations that use their readings in order do no harm, but for resumes and resets. */
  lemma {:induction false} InOrderIsHarmless(x: Session, kind: Kind, ts: int)
    requires Ready(x) && Safe(x) && x.past.latest <= ts && (kind.Bill? || kind.Pause?)
    ensures Harmless(x, kind, ts)
  {
    hide Price, Safe;
    SafeExactly(x);
  }

  /** The pause that a low balance causes inside a bill is always harmless. */
  lemma {:induction false} OwnPauseIsHarmless(x: Session, now: int)
    requires Ready(x) && x.past.latest <= now && now >= 1
    ensures Ready(PausedAt(x, now)) && (Safe(x) ==> Safe(PausedAt(x, now)))
  {
    hide Price, Safe;
    SafeExactly(x);
    AfterIsReady(x, Pause, now);
    SafeExactly(PausedAt(x, now));
  }

  // ---------------------------------------------------------------------------------------------
  // Whole runs
  // ---------------------------------------------------------------------------------------------

  /** Natural rates that do not change. */
  predicate Gentle(actions: seq<Action>) {
    forall i :: 0 <= i < |actions| ==> !actions[i].SetRate? && (actions[i].NewCall? ==> actions[i].rate >= 0.0)
  }

  ghost predicate AllReady(s: State) {
    forall i :: 0 <= i < |s.sessions| ==> Ready(s.sessions[i])
  }

  ghost predicate SafeSession(x: Session) {
    NoneNegative(x.past.charges) && Safe(x)
  }

  ghost predicate AllSafe(s: State) {
    forall i :: 0 <= i < |s.sessions| ==> SafeSession(s.sessions[i])
  }

  predicate HarmlessStep(s: State, a: Action) {
    a.Enter? && Enabled(s, a) ==>
      var r := s.requests[a.request]; Harmless(s.sessions[r.session], r.kind, r.ts)
  }

  /** The facts about a reachable state that the steps below share. */
  ghost predicate Reached(s: State, clock: int) {
    AllPay(s) && Timely(s, clock) && AllReady(s)
  }

  lemma {:induction false} EnterFacts(s: State, a: Action, clock: int)
    requires Reached(s, clock) && a.Enter? && Enabled(s, a)
    ensures var r := s.requests[a.request];
            var x := s.sessions[r.session];
            && Ready(x) && x.past.latest <= clock && 1 <= r.ts <= clock
            && (r.kind.Bill? ==> r.rate == x.rate)
  {
    var r := s.requests[a.request];
    assert r in s.requests && Knows(s.sessions, r);
  }

  lemma {:induction false} BillRateOnly(x: Session, kind: Kind, rate: real, ts: int)
    requires kind.Bill? ==> rate == x.rate
    ensures After(x, kind, rate, ts) == After(x, kind, x.rate, ts)
  {
  }

  lemma {:induction false} FieldsStayReady(x: Session, ts: int)
    requires Ready(x) && PaysForTime(x) && ts >= 0
    ensures Ready(Answered(x, ts)) && Ready(x.(hungUp := true))
    ensures SafeSession(x) ==> SafeSession(Answered(x, ts)) && SafeSession(x.(hungUp := true))
  {
    hide Price, Safe, NoneNegative;
    SafeExactly(x);
    SafeExactly(Answered(x, ts));
    SafeExactly(x.(hungUp := true));
  }

  lemma {:induction false} NewCallIsReady(account: Account, rate: real)
    requires rate >= 0.0
    ensures var x := Session(account, rate, 0, false, NoData, NO_PAST); Ready(x) && SafeSession(x)
  {
    hide Price, Safe;
    SafeExactly(Session(account, rate, 0, false, NoData, NO_PAST));
  }

  lemma {:induction false} EnterStaysReady(nobal: real, s: State, a: Action, clock: int)
    requires Reached(s, clock) && a.Enter? && Enabled(s, a) && clock <= a.now
    ensures AllReady(Step(nobal, s, a))
    ensures AllSafe(s) ==> (AllSafe(Step(nobal, s, a)) <==> HarmlessStep(s, a))
  {
    hide Ready, Safe, NoneNegative, Harmless, After, PausedAt, Low, Charge, Step, RemoveAt, AllPay, Timely;
    EnterFacts(s, a, clock);
    EnterIs(nobal, s, a);
    var r, s' := s.requests[a.request], Step(nobal, s, a);
    var x := s.sessions[r.session];
    var x' := After(x, r.kind, r.rate, r.ts);
    BillRateOnly(x, r.kind, r.rate, r.ts);
    AfterIsReady(x, r.kind, r.ts);
    LatestAfter(x, r.kind, r.rate, r.ts, a.now);
    OwnPauseIsHarmless(x', a.now);
    ChargesStay(x', a.now);
    if AllSafe(s) {
      assert SafeSession(x);
      HarmlessExactly(x, r.kind, r.ts);
      OnlyBillsAreLow(nobal, s, r, a.saved, a.found);
      if r.kind.Bill? {
        BillStaysSafe(x, r.ts);
      }
      assert SafeSession(s'.sessions[r.session]) <==> Harmless(x, r.kind, r.ts);
      assert forall i :: 0 <= i < |s.sessions| && i != r.session ==> s'.sessions[i] == s.sessions[i];
    }
  }

  lemma {:induction false} BillStaysSafe(x: Session, ts: int)
    requires Ready(x) && Safe(x) && ts >= 1
    ensures Safe(After(x, Bill, x.rate, ts))
  {
    hide Safe, Ready, Billed;
    BillIsHarmlessExactly(x, ts);
  }

  lemma {:induction false} OnlyBillsAreLow(nobal: real, s: State, r: Request, saved: bool, found: bool)
    requires r.session < |s.sessions|
    ensures Low(nobal, s, r, saved, found) ==> r.kind.Bill?
  {
  }

  lemma {:induction false} StepStaysReady(nobal: real, s: State, a: Action, clock: int)
    requires Reached(s, clock) && Enabled(s, a) && clock <= TimeOf(a, clock)
    requires !a.SetRate? && (a.NewCall? ==> a.rate >= 0.0)
    ensures AllReady(Step(nobal, s, a))
    ensures AllSafe(s) ==> (AllSafe(Step(nobal, s, a)) <==> HarmlessStep(s, a))
  {
    hide Ready, SafeSession, Harmless, EnterStep, Take, RemoveAt, Answered, PaysForTime, Knows;
    match a {
      case NewCall(account, rate) => NewCallIsReady(account, rate);
      case Answer(i, ts) => FieldsStayReady(s.sessions[i], ts);
      case HangUp(i) => FieldsStayReady(s.sessions[i], 0);
      case Adjust(i, amount, saved) => TakeKeepsSessions(s, s.sessions[i].account, -amount, saved);
      case Enter(_, _, _, _) => EnterStaysReady(nobal, s, a, clock);
      case _ =>
    }
  }

  lemma {:induction false} RunIsReached(nobal: real, cash: map<Account, real>, actions: seq<Action>)
    requires ReadingsRun(actions) && Gentle(actions)
    ensures Reached(Run(nobal, Initial(cash), actions), Clock(actions))
    decreases |actions|
  {
    hide Step, Enabled, Timely, AllPay, TimeOf;
    RunKeepsLaw(nobal, Initial(cash), actions) by { NobodyYet(cash); }
    RunIsTimely(nobal, cash, actions);
    if actions != [] {
      var n := |actions| - 1;
      RunIsReached(nobal, cash, actions[..n]);
      if Enabled(Run(nobal, Initial(cash), actions[..n]), actions[n]) {
        StepStaysReady(nobal, Run(nobal, Initial(cash), actions[..n]), actions[n], Clock(actions[..n]));
      }
    }
  }

  lemma {:induction false} NobodyYet(cash: map<Account, real>)
    ensures AllPay(Initial(cash))
  {
  }

  /** After every action so far, no charge was negative and none will be if the rest goes in order. */
  ghost predicate SafeThroughout(nobal: real, cash: map<Account, real>, actions: seq<Action>) {
    AllSafe(Run(nobal, Initial(cash), actions))
    && (actions != [] ==> SafeThroughout(nobal, cash, actions[..|actions| - 1]))
  }

  predicate AllHarmless(nobal: real, cash: map<Account, real>, actions: seq<Action>) {
    actions == []
    || (var n := |actions| - 1;
        AllHarmless(nobal, cash, actions[..n]) && HarmlessStep(Run(nobal, Initial(cash), actions[..n]), actions[n]))
  }

  /** The main result. Constant natural rates, and readings in order, used in any order: all along no charge is negative,
      nor doomed to be, exactly if every operation was harmless when it got the mutex. */
  lemma {:induction false} SafeThroughoutExactly(nobal: real, cash: map<Account, real>, actions: seq<Action>)
    requires ReadingsRun(actions) && Gentle(actions)
    ensures SafeThroughout(nobal, cash, actions) <==> AllHarmless(nobal, cash, actions)
    decreases |actions|
  {
    hide Step, Enabled, Reached, AllSafe, TimeOf, HarmlessStep;
    if actions == [] {
      assert AllSafe(Initial(cash)) by { SafeYet(cash); }
    } else {
      var n := |actions| - 1;
      var s := Run(nobal, Initial(cash), actions[..n]);
      SafeThroughoutExactly(nobal, cash, actions[..n]);
      RunIsReached(nobal, cash, actions[..n]);
      if Enabled(s, actions[n]) {
        StepStaysReady(nobal, s, actions[n], Clock(actions[..n]));
      } else {
        DisabledIsHarmless(s, actions[n]);
      }
    }
  }

  lemma {:induction false} SafeYet(cash: map<Account, real>)
    ensures AllSafe(Initial(cash))
  {
  }

  lemma {:induction false} DisabledIsHarmless(s: State, a: Action)
    requires !Enabled(s, a)
    ensures HarmlessStep(s, a)
  {
  }

  // ---------------------------------------------------------------------------------------------
  // Operations that keep their order
  // ---------------------------------------------------------------------------------------------

  /** Each operation uses a reading not before those that its own session has used; a resume finds its pause, and a reset
      meets nothing to be paid back. Nothing is said about the order between sessions. */
  predicate OrderKept(nobal: real, cash: map<Account, real>, actions: seq<Action>) {
    actions == []
    || (var n := |actions| - 1;
        && OrderKept(nobal, cash, actions[..n])
        && InOrder(Run(nobal, Initial(cash), actions[..n]), actions[n]))
  }

  predicate InOrder(s: State, a: Action) {
    a.Enter? && Enabled(s, a) ==>
      var r := s.requests[a.request];
      var x := s.sessions[r.session];
      && x.past.latest <= r.ts
      && (r.kind.Resume? ==> x.stored.Has? && x.stored.data.pausets != 0)
      && (r.kind.Reset? && x.stored.Has? ==>
            x.past.owed == 0 && (x.stored.data.pausets == 0 || x.stored.data.pausets == r.ts))
  }

  lemma {:induction false} InOrderStep(s: State, a: Action, clock: int)
    requires Reached(s, clock) && AllSafe(s) && InOrder(s, a)
    ensures HarmlessStep(s, a)
  {
    hide Price, NoneNegative, Safe;
    if a.Enter? && Enabled(s, a) {
      EnterFacts(s, a, clock);
      var r := s.requests[a.request];
      assert SafeSession(s.sessions[r.session]);
      if r.kind.Bill? || r.kind.Pause? {
        InOrderIsHarmless(s.sessions[r.session], r.kind, r.ts);
      }
    }
  }

  /** Then no single charge is negative. */
  lemma {:induction false} NoChargeIsNegative(nobal: real, cash: map<Account, real>, actions: seq<Action>)
    requires ReadingsRun(actions) && Gentle(actions) && OrderKept(nobal, cash, actions)
    ensures AllHarmless(nobal, cash, actions) && AllSafe(Run(nobal, Initial(cash), actions))
    decreases |actions|
  {
    hide Run, Reached, AllSafe, TimeOf, HarmlessStep, InOrder;
    SafeThroughoutExactly(nobal, cash, actions);
    if actions != [] {
      var n := |actions| - 1;
      NoChargeIsNegative(nobal, cash, actions[..n]);
      RunIsReached(nobal, cash, actions[..n]);
      InOrderStep(Run(nobal, Initial(cash), actions[..n]), actions[n], Clock(actions[..n]));
    }
  }

  lemma {:induction false} InOrderStrays(s: State, a: Action, clock: int, i: nat)
    requires Reached(s, clock) && InOrder(s, a)
    ensures !SetsBack(s, a, i) && !FindsNoPause(s, a, i)
  {
    if a.Enter? && Enabled(s, a) {
      EnterFacts(s, a, clock);
    }
  }

  lemma {:induction false} OrderKeptNeverStrays(nobal: real, cash: map<Account, real>, actions: seq<Action>, i: nat)
    requires ReadingsRun(actions) && Gentle(actions) && OrderKept(nobal, cash, actions)
    ensures NeverSetBack(nobal, cash, actions, i) && AlwaysFindsPause(nobal, cash, actions, i)
    decreases |actions|
  {
    hide Run, Reached, TimeOf, InOrder, SetsBack, FindsNoPause;
    if actions != [] {
      var n := |actions| - 1;
      OrderKeptNeverStrays(nobal, cash, actions[..n], i);
      RunIsReached(nobal, cash, actions[..n]);
      InOrderStrays(Run(nobal, Initial(cash), actions[..n]), actions[n], Clock(actions[..n]), i);
    }
  }

  /** And every bill of a call that is not paused charges, and brings the total to rate times talk time. */
  lemma {:induction false} TotalIsRateTimesTalkTime(nobal: real, cash: map<Account, real>, actions: seq<Action>,
                                                    i: nat, ts: int)
    requires ReadingsRun(actions) && Gentle(actions) && OrderKept(nobal, cash, actions)
    requires i < |Run(nobal, Initial(cash), actions).sessions|
    requires var s := Run(nobal, Initial(cash), actions).sessions[i];
             s.answered >= 1 && !Paused(s) && s.past.latest <= ts && !BilledAtHangup(s)
    ensures var s := Run(nobal, Initial(cash), actions).sessions[i];
            && Sum(Billed(s, s.rate, ts).past.charges) == Price(s.rate, TalkTime(s, ts))
            && NoneNegative(Billed(s, s.rate, ts).past.charges)
  {
    hide Run, Price, Sum, NoneNegative, Safe, Billed, ReadingsRun, OrderKept, Timely, PaysForTime;
    RunIsReached(nobal, cash, actions);
    OrderKeptNeverStrays(nobal, cash, actions, i);
    StraysExactly(nobal, cash, actions, i);
    NoChargeIsNegative(nobal, cash, actions);
    var s := Run(nobal, Initial(cash), actions).sessions[i];
    BillsPayForTime(nobal, cash, actions, i, ts);
    assert SafeSession(s);
    InOrderIsHarmless(s, Bill, ts);
    HarmlessExactly(s, Bill, ts) by { assert s.past.latest >= s.answered; }
  }
}
