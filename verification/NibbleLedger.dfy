/** The accounts' ledger, the calls that end unpaid or paid twice, and the mutex. */
module NibbleLedger {
  import opened NibbleBilling
  import opened NibblePrices
  import opened NibbleCharges

  // ---------------------------------------------------------------------------------------------
  // Calls that end unpaid, or paid twice
  // ---------------------------------------------------------------------------------------------

  /** Hanging up a paused call bills nothing: the time from the last bill to the pause is never paid. */
  lemma {:induction false} PausedHangupIsUnpaid(s: Session, rate: real, ts: int)
    requires PaysForTime(s) && s.past.fixed && Paused(s)
    ensures var s' := Billed(s.(hungUp := true), rate, ts);
            && s'.past.charges == s.past.charges
            && Sum(s'.past.charges) + (Price(s.rate, s.stored.data.pausets - s.stored.data.lastts)
                                       - s.stored.data.adjustments)
               == Price(s.rate, PaidTime(s, s.stored.data.pausets))
  {
    hide Price, Sum;
    var d := s.stored.data;
    PriceAdds(s.rate, PaidTime(s, d.lastts), d.pausets - d.lastts);
  }

  /** The first bill after the hangup is forgotten: a second one charges the whole call again. */
  lemma {:induction false} SecondHangupBillRepeats(s: Session, ts: int, later: int)
    requires s.hungUp && s.stored.NoData? && s.answered <= ts <= later
    ensures Billed(Billed(s, s.rate, ts), s.rate, later).past.charges
         == s.past.charges + [Price(s.rate, ts - s.answered), Price(s.rate, later - s.answered)]
  {
    hide Price;
  }

  // ---------------------------------------------------------------------------------------------
  // The ledger
  // ---------------------------------------------------------------------------------------------

  function Charged(sessions: seq<Session>, account: Account): real {
    if sessions == [] then 0.0
    else
      var s := sessions[|sessions| - 1];
      Charged(sessions[..|sessions| - 1], account) + (if s.account == account then Sum(s.past.charges) else 0.0)
  }

  lemma {:induction false} ChargedUpdate(sessions: seq<Session>, i: nat, s: Session, account: Account)
    requires i < |sessions| && s.account == sessions[i].account
    ensures Charged(sessions[i := s], account)
         == Charged(sessions, account)
            + (if s.account == account then Sum(s.past.charges) - Sum(sessions[i].past.charges) else 0.0)
    decreases |sessions|
  {
    hide Sum;
    var n := |sessions| - 1;
    if i < n {
      ChargedUpdate(sessions[..n], i, s, account);
      assert sessions[i := s][..n] == sessions[..n][i := s];
    } else {
      assert sessions[i := s][..n] == sessions[..n];
    }
  }

  /** An account's cash is its initial cash, less all charges of its sessions, plus its adjustments, plus what failed
      updates did not take. */
  ghost predicate Balances(cash: map<Account, real>, s: State) {
    && s.cash.Keys == cash.Keys
    && forall a :: a in cash ==> s.cash[a] == cash[a] - Charged(s.sessions, a) + At(s.adjusted, a) + At(s.lost, a)
  }

  /** One charge or adjustment, from the account's point of view. */
  lemma {:induction false} TakeIs(s: State, account: Account, amount: real, saved: bool)
    ensures var s' := Take(s, account, amount, saved);
            && s'.cash.Keys == s.cash.Keys && s'.sessions == s.sessions && s'.adjusted == s.adjusted
            && forall a :: a in s.cash ==>
                 s'.cash[a] - At(s'.lost, a) == s.cash[a] - At(s.lost, a) - (if a == account then amount else 0.0)
  {
  }

  /** What an operation adds to the charges of its session is what it takes from the account. */
  lemma {:induction false} ChargeIs(s: State, r: Request, saved: bool, now: int)
    requires r.session < |s.sessions|
    ensures var x, s' := s.sessions[r.session], Charge(s, r, saved);
            var x' := After(x, r.kind, r.rate, r.ts);
            var amount := Sum(x'.past.charges) - Sum(x.past.charges);
            && PausedAt(x', now).past.charges == x'.past.charges
            && x'.account == x.account && PausedAt(x', now).account == x.account
            && s'.cash.Keys == s.cash.Keys && s'.adjusted == s.adjusted
            && forall a :: a in s.cash ==>
                 s'.cash[a] - At(s'.lost, a) == s.cash[a] - At(s.lost, a) - (if a == x.account then amount else 0.0)
  {
    hide Sum, Take, Amount, At, Price;
    var x := s.sessions[r.session];
    ChargesStay(x, r.ts);
    ChargesStay(After(x, r.kind, r.rate, r.ts), now);
    TakeIs(s, x.account, Amount(x, r.rate, r.ts), saved);
    SumAppend(x.past.charges, Amount(x, r.rate, r.ts));
  }

  lemma {:induction false} EnterBalances(nobal: real, cash: map<Account, real>, s: State, a: Action)
    requires Balances(cash, s) && a.Enter? && Enabled(s, a)
    ensures Balances(cash, Step(nobal, s, a))
  {
    hide Charged, Sum, Take, Amount, At, After, PausedAt, Low, Charge, RemoveAt;
    var r, s' := s.requests[a.request], Step(nobal, s, a);
    ChargeIs(s, r, a.saved, a.now);
    EnterIs(nobal, s, a);
    assert s'.cash == Charge(s, r, a.saved).cash && s'.lost == Charge(s, r, a.saved).lost;
    forall b | b in cash ensures s'.cash[b] == cash[b] - Charged(s'.sessions, b) + At(s'.adjusted, b) + At(s'.lost, b) {
      ChargedUpdate(s.sessions, r.session, s'.sessions[r.session], b);
    }
  }

  lemma {:induction false} AdjustBalances(nobal: real, cash: map<Account, real>, s: State, a: Action)
    requires Balances(cash, s) && a.Adjust? && Enabled(s, a)
    ensures Balances(cash, Step(nobal, s, a))
  {
    hide Charged, Take;
    TakeIs(s, s.sessions[a.session].account, -a.amount, a.saved);
  }

  lemma {:induction false} StepBalances(nobal: real, cash: map<Account, real>, s: State, a: Action)
    requires Balances(cash, s) && Enabled(s, a)
    ensures Balances(cash, Step(nobal, s, a))
  {
    hide Charged, Sum, EnterStep, At;
    if a.Enter? {
      EnterBalances(nobal, cash, s, a);
    } else if a.Adjust? {
      AdjustBalances(nobal, cash, s, a);
    } else {
      var s' := Step(nobal, s, a);
      forall b | b in cash ensures Charged(s'.sessions, b) == Charged(s.sessions, b) {
        if a.NewCall? {
          NewCallIsFree(s.sessions, s'.sessions[|s.sessions|], b);
        } else if a.Answer? || a.HangUp? || a.SetRate? {
          ChargedUpdate(s.sessions, a.session, s'.sessions[a.session], b);
        }
      }
    }
  }

  lemma {:induction false} NewCallIsFree(sessions: seq<Session>, s: Session, account: Account)
    requires s.past.charges == []
    ensures Charged(sessions + [s], account) == Charged(sessions, account)
  {
    assert (sessions + [s])[..|sessions|] == sessions;
    SumOfNone();
  }

  /** The ledger's main result, over any interleaving of sessions. */
  lemma {:induction false} LedgerBalances(nobal: real, cash: map<Account, real>, actions: seq<Action>)
    ensures Balances(cash, Run(nobal, Initial(cash), actions))
    decreases |actions|
  {
    hide Balances, Step, Enabled;
    if actions == [] {
      assert Balances(cash, Initial(cash)) by { StartsBalanced(cash); }
    } else {
      var rest := actions[..|actions| - 1];
      LedgerBalances(nobal, cash, rest);
      if Enabled(Run(nobal, Initial(cash), rest), actions[|actions| - 1]) {
        StepBalances(nobal, cash, Run(nobal, Initial(cash), rest), actions[|actions| - 1]);
      }
    }
  }

  lemma {:induction false} StartsBalanced(cash: map<Account, real>)
    ensures Balances(cash, Initial(cash))
  {
  }

  /** Cash, charges and adjustments add up exactly when nothing was lost to failed updates, which the module reports as
      success. */
  lemma {:induction false} CashIsConservedExactly(nobal: real, cash: map<Account, real>, actions: seq<Action>, a: Account)
    requires a in cash
    ensures var s := Run(nobal, Initial(cash), actions);
            && a in s.cash
            && (s.cash[a] + Charged(s.sessions, a) - At(s.adjusted, a) == cash[a] <==> At(s.lost, a) == 0.0)
  {
    hide Charged, Run, At;
    LedgerBalances(nobal, cash, actions);
  }

  /** Every update succeeds; of the operations only bills and adjustments use the answer. */
  predicate AllSaved(actions: seq<Action>) {
    forall i :: 0 <= i < |actions| ==> (actions[i].Enter? || actions[i].Adjust? ==> actions[i].saved)
  }

  lemma {:induction false} SavedLosesNothing(nobal: real, cash: map<Account, real>, actions: seq<Action>, a: Account)
    requires a in cash && AllSaved(actions)
    ensures At(Run(nobal, Initial(cash), actions).lost, a) == 0.0
    decreases |actions|
  {
    hide Balances, Step, Enabled, At;
    if actions == [] {
      assert At(map[], a) == 0.0 by { NothingAt(a); }
    } else {
      var s, x := Run(nobal, Initial(cash), actions[..|actions| - 1]), actions[|actions| - 1];
      SavedLosesNothing(nobal, cash, actions[..|actions| - 1], a);
      LedgerBalances(nobal, cash, actions[..|actions| - 1]);
      BalancesKeys(cash, s);
      if Enabled(s, x) {
        SavedStep(nobal, s, x, a);
      }
    }
  }

  lemma {:induction false} SavedStep(nobal: real, s: State, x: Action, a: Account)
    requires Enabled(s, x) && a in s.cash && (x.Enter? || x.Adjust? ==> x.saved)
    ensures At(Step(nobal, s, x).lost, a) == At(s.lost, a)
  {
    hide After, PausedAt, Balance, Amount, Charges, RemoveAt;
  }

  lemma {:induction false} NothingAt(a: Account)
    ensures At(map[], a) == 0.0
  {
  }

  lemma {:induction false} BalancesKeys(cash: map<Account, real>, s: State)
    requires Balances(cash, s)
    ensures s.cash.Keys == cash.Keys
  {
  }

  /** No update succeeds. */
  predicate NoneSaved(actions: seq<Action>) {
    forall i :: 0 <= i < |actions| ==> (actions[i].Enter? || actions[i].Adjust? ==> !actions[i].saved)
  }

  /** Then no account changes, whatever is charged and adjusted. */
  lemma {:induction false} UnsavedTakesNothing(nobal: real, cash: map<Account, real>, actions: seq<Action>)
    requires NoneSaved(actions)
    ensures Run(nobal, Initial(cash), actions).cash == cash
    decreases |actions|
  {
    hide After, PausedAt, Balance, Amount, Charges, RemoveAt;
    if actions != [] {
      UnsavedTakesNothing(nobal, cash, actions[..|actions| - 1]);
    }
  }

  /** The adjustments of an account, told from the actions alone. */
  function Adjustments(nobal: real, cash: map<Account, real>, actions: seq<Action>, account: Account): real {
    if actions == [] then 0.0
    else
      var n := |actions| - 1;
      var s, a, sum := Run(nobal, Initial(cash), actions[..n]), actions[n], Adjustments(nobal, cash, actions[..n], account);
      if a.Adjust? && Enabled(s, a) && s.sessions[a.session].account == account then sum + a.amount else sum
  }

  lemma {:induction false} AdjustedIs(nobal: real, cash: map<Account, real>, actions: seq<Action>, account: Account)
    ensures At(Run(nobal, Initial(cash), actions).adjusted, account) == Adjustments(nobal, cash, actions, account)
    decreases |actions|
  {
    hide After, PausedAt, Balance, Amount, Charges, RemoveAt;
    if actions != [] {
      AdjustedIs(nobal, cash, actions[..|actions| - 1], account);
    }
  }

  /** If every update succeeds, an account's cash is what it was, less the charges of its sessions, plus its adjustments. */
  lemma {:induction false} SavedCashIsExact(nobal: real, cash: map<Account, real>, actions: seq<Action>, a: Account)
    requires a in cash && AllSaved(actions)
    ensures var s := Run(nobal, Initial(cash), actions);
            a in s.cash && s.cash[a] == cash[a] - Charged(s.sessions, a) + Adjustments(nobal, cash, actions, a)
  {
    hide Run, Charged, At, Adjustments;
    LedgerBalances(nobal, cash, actions);
    SavedLosesNothing(nobal, cash, actions, a);
    AdjustedIs(nobal, cash, actions, a);
  }

  // ---------------------------------------------------------------------------------------------
  // Low balances
  // ---------------------------------------------------------------------------------------------

  /** After the bill of a call that goes on and was not paused, it is paused exactly if the cash that is left after the
      charge, or -1 if the database does not say, is below the limit; a call that has hung up is not paused by it. */
  lemma {:induction false} LowBalancePausesExactly(nobal: real, s: State, a: Action)
    requires a.Enter? && Enabled(s, a) && s.requests[a.request].kind.Bill? && a.now > 0
    requires var x := s.sessions[s.requests[a.request].session];
             !Paused(x) && (x.stored.Has? ==> x.stored.data.pausets == 0)
    ensures var i, s' := s.requests[a.request].session, Step(nobal, s, a);
            var account := s.sessions[i].account;
            var left := if !a.found then -1.0 else if account in s'.cash then s'.cash[account] else 0.0;
            Paused(s'.sessions[i]) <==> !s.sessions[i].hungUp && left < nobal
  {
    hide Price, Amount, RemoveAt;
  }

  /** What a request has seen when it has passed its tests: an answered call for a bill, a pause for a resume, billing data
      for a reset; otherwise it ends there. */
  lemma {:induction false} TestsExactly(nobal: real, s: State, h: nat)
    requires Enabled(s, Test(h))
    ensures var r, s' := s.requests[h], Step(nobal, s, Test(h));
            var x := s.sessions[r.session];
            var seen := match r.kind
                        case Bill => 0 < x.answered
                        case Pause => true
                        case Resume => x.stored != NoData && x.stored.data.pausets != 0
                        case Reset => x.stored != NoData;
            && (seen ==> s'.requests == s.requests[h := Request(r.thread, r.kind, r.session, r.ts, true, x.rate)])
            && (!seen ==> s'.requests == s.requests[..h] + s.requests[h + 1..])
            && s'.sessions == s.sessions && s'.lock == s.lock
  {
  }

  // ---------------------------------------------------------------------------------------------
  // The mutex
  // ---------------------------------------------------------------------------------------------

  /** Only a pause of a call without billing data keeps the mutex. */
  lemma {:induction false} MutexIsKeptExactly(nobal: real, s: State, a: Action)
    requires s.lock.Free? && Enabled(s, a)
    ensures Step(nobal, s, a).lock.Free?
       <==> !(a.Enter? && var r := s.requests[a.request]; r.kind.Pause? && s.sessions[r.session].stored.NoData?)
  {
    hide After, PausedAt, Amount, Charges;
  }

  /** The thread has nothing under way and begins nothing. */
  predicate ByOthers(s: State, actions: seq<Action>, thread: Thread) {
    && (forall r :: r in s.requests ==> r.thread != thread)
    && (forall i :: 0 <= i < |actions| && actions[i].Read? ==> actions[i].thread != thread)
  }

  /** Then no other thread ever gets the mutex: all calls go on free of charge. */
  lemma {:induction false} KeptMutexStopsBilling(nobal: real, s: State, actions: seq<Action>, thread: Thread)
    requires s.lock == HeldBy(thread) && ByOthers(s, actions, thread)
    ensures var s' := Run(nobal, s, actions);
            && s'.lock == HeldBy(thread) && |s.sessions| <= |s'.sessions|
            && (forall r :: r in s'.requests ==> r.thread != thread)
            && (forall i :: 0 <= i < |s.sessions| ==> s'.sessions[i].past.charges == s.sessions[i].past.charges)
            && (forall i :: |s.sessions| <= i < |s'.sessions| ==> s'.sessions[i].past.charges == [])
    decreases |actions|
  {
    hide EnterStep, RemoveAt;
    if actions != [] {
      KeptMutexStopsBilling(nobal, s, actions[..|actions| - 1], thread);
      var s', a := Run(nobal, s, actions[..|actions| - 1]), actions[|actions| - 1];
      if a.Test? && Enabled(s', a) {
        RemoveAtKeeps(s'.requests, a.request);
      } else if a.Enter? && a.request < |s'.requests| {
        assert s'.requests[a.request] in s'.requests;
      }
    }
  }
}
