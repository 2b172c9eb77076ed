/** The billing module, changed in place: the data of each call, the accounts, the mutex and the operations under way. */
module NibbleModule {
  import opened NibbleBilling

  class NibbleData {
    var lastts: int
    var total: real
    var pausets: int
    var adjustments: real
    ghost const place: nat

    function Value(): Data
      reads this
    {
      Data(lastts, total, pausets, adjustments)
    }

    constructor (lastts: int, ghost place: nat)
      ensures Value() == Data(lastts, 0.0, 0, 0.0) && this.place == place
    {
      this.lastts, total, pausets, adjustments, this.place := lastts, 0.0, 0, 0.0, place;
    }
  }

  class CallSession {
    var account: Account
    var rate: real
    var answered: int
    var hungUp: bool
    var data: NibbleData?
    ghost var past: Past
    ghost const place: nat

    ghost function Value(): Session
      reads this, data
    {
      Session(account, rate, answered, hungUp, if data == null then NoData else Has(data.Value()), past)
    }

    constructor (account: Account, rate: real, ghost place: nat)
      ensures Value() == Session(account, rate, 0, false, NoData, NO_PAST)
      ensures this.place == place && data == null
    {
      this.account, this.rate, answered, hungUp, data := account, rate, 0, false, null;
      past, this.place := NO_PAST, place;
    }

    /** The tests that an operation makes before it takes the mutex. */
    method MayEnter(kind: Kind) returns (ok: bool)
      ensures ok == Passes(Value(), kind)
    {
      match kind {
        case Bill => ok := !(answered < 1);
        case Pause => ok := true;
        case Resume => ok := data != null && data.pausets != 0;
        case Reset => ok := data != null;
      }
    }

    /** What do_billing would bill now, if anything. */
    method AmountDue(billrate: real, ts: int) returns (charged: bool, amount: real)
      requires !Paused(Value())
      ensures charged == Charges(Value(), ts) && (charged ==> amount == Amount(Value(), billrate, ts))
    {
      hide Price;
      var last, adjustments := answered, 0.0;
      if data != null {
        last, adjustments := data.lastts, data.adjustments;
      }
      charged := ts - last >= 0;
      amount := Price(billrate, ts - last) - adjustments;
    }

    /** The session's data after that. */
    method BillUntil(ts: int, charged: bool, amount: real, ghost billrate: real)
      requires !Paused(Value())
      requires charged == Charges(Value(), ts) && (charged ==> amount == Amount(Value(), billrate, ts))
      modifies this`data, this`past, data
      ensures Value() == Billed(old(Value()), billrate, ts)
      ensures data == old(data) || (!hungUp && data != null && fresh(data) && data.place == place)
      ensures !hungUp ==> data != null
    {
      hide Price, Amount;
      ghost var before := Value();
      var d := data;
      if d == null {
        d := new NibbleData(answered, place);
      }
      if charged {
        d.total := d.total + amount;
        d.adjustments := 0.0;
      }
      d.lastts := ts;
      if !hungUp {
        data := d;
      }
      past := Billed(before, billrate, ts).past;
    }

    /** nibblebill_pause after it has taken the mutex; a call without data keeps it. */
    method SetPause(ts: int) returns (released: bool)
      modifies this`past, data
      ensures data == old(data) && Value() == PausedAt(old(Value()), ts)
      ensures released <==> old(Value()).stored.Has?
    {
      if data == null {
        return false;
      }
      past := PausedAt(Value(), ts).past;
      if data.pausets == 0 {
        data.pausets := ts;
      }
      released := true;
    }

    /** nibblebill_resume after it has taken the mutex; it has made its tests before. */
    method EndPause(ts: int)
      modifies this`past, data
      ensures data == old(data) && Value() == ResumedAt(old(Value()), ts)
    {
      if data != null {
        past := ResumedAt(Value(), ts).past;
        data.adjustments := data.adjustments + Price(rate, ts - data.pausets);
        data.pausets := 0;
      }
    }

    method ResetTime(ts: int)
      modifies this`past, data
      ensures data == old(data) && Value() == ResetAt(old(Value()), ts)
    {
      if data != null {
        past := ResetAt(Value(), ts).past;
        data.lastts := ts;
      }
    }
  }

  class Module {
    const nobal: real
    var sessions: seq<CallSession>
    var cash: map<Account, real>
    var lock: Lock
    var requests: seq<Request>
    ghost var adjusted: map<Account, real>
    ghost var lost: map<Account, real>
    ghost var values: seq<Session>
    ghost var datas: set<NibbleData>

    ghost predicate Valid()
      reads this, sessions, datas
    {
      && |values| == |sessions|
      && forall i :: 0 <= i < |sessions| ==>
           (sessions[i].data != null ==> sessions[i].data in datas) && Linked(sessions[i], i, values[i], datas)
    }

    static ghost predicate Linked(s: CallSession, i: nat, value: Session, datas: set<NibbleData>)
      reads s, s.data
    {
      && s.place == i
      && (s.data != null ==> s.data in datas && s.data.place == i)
      && s.Value() == value
    }

    ghost function View(): State
      reads this
    {
      State(values, cash, lock, requests, adjusted, lost)
    }

    constructor (nobal: real, cash: map<Account, real>)
      ensures Valid() && View() == Initial(cash) && this.nobal == nobal
    {
      this.nobal := nobal;
      this.cash, sessions, lock, requests := cash, [], Free, [];
      adjusted, lost, values, datas := map[], map[], [], {};
    }

    /** A call begins. */
    method BeginCall(account: Account, rate: real)
      requires Valid()
      modifies this
      ensures Valid() && View() == Step(nobal, old(View()), NewCall(account, rate))
    {
      var s := new CallSession(account, rate, |sessions|);
      sessions, values := sessions + [s], values + [s.Value()];
      forall j | 0 <= j < |sessions| - 1 ensures Linked(sessions[j], j, values[j], datas) {
        assert old(Linked(sessions[j], j, values[j], datas));
      }
    }

    /** An operation reads the clock. */
    method ReadClock(thread: Thread, kind: Kind, i: nat, ts: int)
      requires Valid() && Enabled(View(), Read(thread, kind, i, ts))
      modifies this`requests
      ensures Valid() && View() == Step(nobal, old(View()), Read(thread, kind, i, ts))
    {
      requests := requests + [Request(thread, kind, i, ts, false, 0.0)];
    }

    /** It makes its unlocked tests, and a bill reads the rate. */
    method TestRequest(h: nat)
      requires Valid() && Enabled(View(), Test(h))
      modifies this`requests
      ensures Valid() && View() == Step(nobal, old(View()), Test(h))
    {
      hide Passes, RemoveAt;
      var r := requests[h];
      assert Linked(sessions[r.session], r.session, values[r.session], datas);
      var ok := sessions[r.session].MayEnter(r.kind);
      if ok {
        requests := requests[h := r.(passed := true, rate := sessions[r.session].rate)];
      } else {
        requests := RemoveAt(requests, h);
      }
    }

    /** bill_event. */
    method BillEvent(account: Account, amount: real, saved: bool)
      modifies this`cash, this`lost
      ensures View() == Take(old(View()), account, amount, saved)
    {
      if saved && account in cash {
        cash := cash[account := cash[account] - amount];
      } else {
        lost := lost[account := At(lost, account) + amount];
      }
    }

    method BillSession(i: nat, ts: int, charged: bool, amount: real, ghost billrate: real)
      requires Valid() && i < |values| && !Paused(values[i])
      requires charged == Charges(values[i], ts) && (charged ==> amount == Amount(values[i], billrate, ts))
      modifies this`values, this`datas, sessions, datas
      ensures Valid() && values == old(values)[i := Billed(old(values)[i], billrate, ts)] && i < |sessions|
      ensures datas >= old(datas) && fresh(datas - old(datas))
    {
      hide Billed, Amount, Price, Charges;
      var s := sessions[i];
      assert Linked(sessions[i], i, values[i], datas);
      s.BillUntil(ts, charged, amount, billrate);
      if s.data != null {
        datas := datas + {s.data};
      }
      values := values[i := s.Value()];
      forall j | 0 <= j < |sessions| && j != i ensures Linked(sessions[j], j, values[j], datas) {
        assert old(Linked(sessions[j], j, values[j], datas));
      }
    }

    method PauseSession(i: nat, ts: int) returns (released: bool)
      requires Valid() && i < |values|
      modifies this`values, sessions, datas
      ensures Valid() && values == old(values)[i := PausedAt(old(values)[i], ts)] && i < |sessions|
      ensures released <==> old(values)[i].stored.Has?
    {
      hide PausedAt;
      assert Linked(sessions[i], i, values[i], datas);
      released := sessions[i].SetPause(ts);
      values := values[i := sessions[i].Value()];
      forall j | 0 <= j < |sessions| && j != i ensures Linked(sessions[j], j, values[j], datas) {
        assert old(Linked(sessions[j], j, values[j], datas));
      }
    }

    /** do_billing past its test for a pause: the charge, the new data, and the pause of a low balance. */
    method ChargeSession(r: Request, saved: bool, found: bool, now: int)
      requires Valid() && r.session < |values| && r.kind.Bill? && !Paused(values[r.session])
      modifies this`cash, this`lost, this`values, this`datas, sessions, datas
      ensures Valid()
      ensures var x := old(values)[r.session];
              var x' := Billed(x, r.rate, r.ts);
              View() == Charge(old(View()), r, saved).(
                sessions := old(values)[r.session :=
                  if Low(nobal, old(View()), r, saved, found) then PausedAt(x', now) else x'])
    {
      hide Billed, Amount, Price, PausedAt, Charges, Linked, Take, At;
      var s := sessions[r.session];
      LinkedFacts(r.session);
      var hungUp, account := s.hungUp, s.account;
      var charged, amount := s.AmountDue(r.rate, r.ts);
      if charged {
        BillEvent(account, amount, saved);
      }
      BillSession(r.session, r.ts, charged, amount, r.rate);
      if !hungUp {
        var balance := if !found then -1.0 else At(cash, account);
        if balance < nobal {
          var _ := PauseSession(r.session, now);
        }
      }
      assert values == old(values)[r.session := values[r.session]];
    }

    /** The locked part of do_billing; `saved` and `found` are the database's answers, `now` the clock of the pause. */
    method DoBilling(h: nat, saved: bool, found: bool, now: int)
      requires Valid() && Enabled(View(), Enter(h, saved, found, now)) && requests[h].kind.Bill?
      modifies this, sessions, datas
      ensures Valid() && sessions == old(sessions)
      ensures View() == Step(nobal, old(View()), Enter(h, saved, found, now))
    {
      hide Billed, PausedAt, Linked, RemoveAt, Charge, Low;
      var r := requests[h];
      var s := sessions[r.session];
      LinkedFacts(r.session);
      if s.data != null && s.data.pausets > 0 {
        PausedIsLeft(View(), r, saved, found);
      } else {
        ChargeSession(r, saved, found, now);
      }
      requests := RemoveAt(requests, h);
    }

    lemma {:induction false} PausedIsLeft(s: State, r: Request, saved: bool, found: bool)
      requires r.session < |s.sessions| && r.kind.Bill? && Paused(s.sessions[r.session])
      ensures Charge(s, r, saved) == s && !Low(nobal, s, r, saved, found)
      ensures After(s.sessions[r.session], r.kind, r.rate, r.ts) == s.sessions[r.session]
      ensures s.sessions[r.session := s.sessions[r.session]] == s.sessions
    {
    }

    lemma {:induction false} LinkedFacts(i: nat)
      requires Valid() && i < |values|
      ensures i < |sessions| && sessions[i].Value() == values[i]
    {
      assert Linked(sessions[i], i, values[i], datas);
    }

    /** The locked parts of the other operations. */
    method DoOther(h: nat, ghost saved: bool, ghost found: bool, ghost now: int)
      requires Valid() && Enabled(View(), Enter(h, saved, found, now)) && !requests[h].kind.Bill?
      modifies this, sessions, datas
      ensures Valid() && sessions == old(sessions)
      ensures View() == Step(nobal, old(View()), Enter(h, saved, found, now))
    {
      hide PausedAt, ResumedAt, ResetAt, RemoveAt;
      var r := requests[h];
      assert Linked(sessions[r.session], r.session, values[r.session], datas);
      requests := RemoveAt(requests, h);
      if r.kind == Pause {
        var released := sessions[r.session].SetPause(r.ts);
        if !released {
          lock := HeldBy(r.thread);
        }
      } else if r.kind == Resume {
        sessions[r.session].EndPause(r.ts);
      } else {
        sessions[r.session].ResetTime(r.ts);
      }
      values := values[r.session := sessions[r.session].Value()];
      forall j | 0 <= j < |sessions| && j != r.session ensures Linked(sessions[j], j, values[j], datas) {
        assert old(Linked(sessions[j], j, values[j], datas));
      }
    }

    /** nibblebill_adjust, which takes no lock. */
    method AdjustCall(i: nat, amount: real, saved: bool)
      requires Valid() && Enabled(View(), Adjust(i, amount, saved))
      modifies this
      ensures Valid() && sessions == old(sessions)
      ensures View() == Step(nobal, old(View()), Adjust(i, amount, saved))
    {
      assert Linked(sessions[i], i, values[i], datas);
      var account := sessions[i].account;
      BillEvent(account, -amount, saved);
      assert forall j :: 0 <= j < |sessions| ==> old(Linked(sessions[j], j, values[j], datas));
      adjusted := adjusted[account := At(adjusted, account) + amount];
    }
  }
}
