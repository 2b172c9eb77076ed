/** Billing of running calls by the minute: heartbeats and flushes bill, a pause withholds time, a resume gives it back,
    and an account's cash is updated in a database. An operation reads the clock first, makes its unlocked tests next,
    and takes the recursive mutex of all sessions last; operations of different threads interleave between these.
    Amounts are reals. */
module NibbleBilling {

  type Account(==) = int
  type Thread(==) = int

  // ---------------------------------------------------------------------------------------------
  // One session
  // ---------------------------------------------------------------------------------------------

  /** nibble_data_t: microseconds, and `pausets` 0 unless paused. */
  datatype Data = Data(lastts: int, total: real, pausets: int, adjustments: real)

  datatype Stored = NoData | Has(data: Data)

  /** The history of a session: the amounts billed; whether the rate is still the first one; the time in completed
      pauses; the time that resets left out; the time by which bills and resets set the last bill back; the time that
      resumes without a pause gave back; the time to be paid back by the next bill; and the latest reading used. */
  datatype Past = Past(
    charges: seq<real>,
    fixed: bool,
    paused: int,
    leftOut: int,
    back: int,
    credit: int,
    owed: int,
    latest: int)

  const NO_PAST := Past([], true, 0, 0, 0, 0, 0, 0)

  /** A call with its nibble_account and nibble_rate; `answered` is below 1 until the call is answered. */
  datatype Session = Session(
    account: Account,
    rate: real,
    answered: int,
    hungUp: bool,
    stored: Stored,
    past: Past)

  function Max(a: int, b: int): int {
    if a < b then b else a
  }

  /** The price of a microsecond. */
  function PerMicro(rate: real): real {
    rate / 1000000.0 / 60.0
  }

  function Price(rate: real, time: int): real {
    PerMicro(rate) * time as real
  }

  predicate Paused(s: Session) {
    s.stored.Has? && s.stored.data.pausets > 0
  }

  /** The stored data, or new data that start at the answer. */
  function Current(s: Session): Data {
    if s.stored.Has? then s.stored.data else Data(s.answered, 0.0, 0, 0.0)
  }

  function Amount(s: Session, rate: real, ts: int): real {
    Price(rate, ts - Current(s).lastts) - Current(s).adjustments
  }

  predicate Charges(s: Session, ts: int) {
    !Paused(s) && ts - Current(s).lastts >= 0
  }

  /** The locked part of do_billing, without its pause. */
  function Billed(s: Session, rate: real, ts: int): Session {
    if Paused(s) then s
    else
      var d := Current(s);
      var latest := Max(s.past.latest, ts);
      var d' := if Charges(s, ts) then Data(ts, d.total + Amount(s, rate, ts), d.pausets, 0.0) else d.(lastts := ts);
      s.(stored := if s.hungUp && s.stored.NoData? then NoData else Has(d'),
         past := if Charges(s, ts) then
                   s.past.(charges := s.past.charges + [Amount(s, rate, ts)], owed := 0, latest := latest)
                 else s.past.(back := s.past.back + (d.lastts - ts), latest := latest))
  }

  /** The locked part of a pause, which keeps the mutex if there are no data. */
  function PausedAt(s: Session, ts: int): Session {
    if s.stored.Has? && s.stored.data.pausets == 0 then
      s.(stored := Has(s.stored.data.(pausets := ts)), past := s.past.(latest := Max(s.past.latest, ts)))
    else s
  }

  /** The locked part of a resume, which does not test again that the call is paused. */
  function ResumedAt(s: Session, ts: int): Session {
    if s.stored.NoData? then s
    else
      var d := s.stored.data;
      var time := ts - d.pausets;
      s.(stored := Has(d.(adjustments := d.adjustments + Price(s.rate, time), pausets := 0)),
         past := s.past.(paused := if d.pausets != 0 then s.past.paused + time else s.past.paused,
                         credit := if d.pausets != 0 then s.past.credit else s.past.credit + time,
                         owed := s.past.owed + time,
                         latest := Max(s.past.latest, ts)))
  }

  function ResetAt(s: Session, ts: int): Session {
    if s.stored.NoData? then s
    else
      var step := ts - s.stored.data.lastts;
      s.(stored := Has(s.stored.data.(lastts := ts)),
         past := s.past.(leftOut := if step >= 0 then s.past.leftOut + step else s.past.leftOut,
                         back := if step >= 0 then s.past.back else s.past.back - step,
                         latest := Max(s.past.latest, ts)))
  }

  datatype Kind = Bill | Pause | Resume | Reset

  /** The unlocked tests of an operation. */
  predicate Passes(s: Session, kind: Kind) {
    match kind
    case Bill => s.answered >= 1
    case Pause => true
    case Resume => s.stored.Has? && s.stored.data.pausets != 0
    case Reset => s.stored.Has?
  }

  /** The locked part of an operation that has read `ts`, and `rate` if it is a bill. */
  function After(s: Session, kind: Kind, rate: real, ts: int): Session {
    match kind
    case Bill => Billed(s, rate, ts)
    case Pause => PausedAt(s, ts)
    case Resume => ResumedAt(s, ts)
    case Reset => ResetAt(s, ts)
  }

  // ---------------------------------------------------------------------------------------------
  // All sessions, the mutex and the accounts
  // ---------------------------------------------------------------------------------------------

  datatype Lock = Free | HeldBy(thread: Thread)

  /** An operation under way: it has read the clock; then it has passed its tests, and a bill has read the rate. */
  datatype Request = Request(thread: Thread, kind: Kind, session: nat, ts: int, passed: bool, rate: real)

  /** `adjusted` and `lost` are history: the adjustments reported as recorded, and what the failed updates would have
      taken from the cash. */
  datatype State = State(
    sessions: seq<Session>,
    cash: map<Account, real>,
    lock: Lock,
    requests: seq<Request>,
    adjusted: map<Account, real>,
    lost: map<Account, real>)

  /** `Enter` is the locked part of a request, when the clock shows `now`; `saved` and `found` are the database's
      answers to a bill. */
  datatype Action =
    | NewCall(account: Account, rate: real)
    | Answer(session: nat, ts: int)
    | HangUp(session: nat)
    | SetRate(session: nat, rate: real)
    | Adjust(session: nat, amount: real, saved: bool)
    | Read(thread: Thread, kind: Kind, session: nat, ts: int)
    | Test(request: nat)
    | Enter(request: nat, saved: bool, found: bool, now: int)

  function At(m: map<Account, real>, a: Account): real {
    if a in m then m[a] else 0.0
  }

  predicate Enabled(s: State, a: Action) {
    match a
    case NewCall(_, _) => true
    case Answer(i, _) => i < |s.sessions|
    case HangUp(i) => i < |s.sessions|
    case SetRate(i, _) => i < |s.sessions|
    case Adjust(i, _, _) => i < |s.sessions|
    case Read(t, _, i, _) => i < |s.sessions| && forall h :: 0 <= h < |s.requests| ==> s.requests[h].thread != t
    case Test(h) => InRange(s, h) && !s.requests[h].passed
    case Enter(h, _, _, _) =>
      InRange(s, h) && s.requests[h].passed && (s.lock.Free? || s.lock == HeldBy(s.requests[h].thread))
  }

  predicate InRange(s: State, h: nat) {
    h < |s.requests| && s.requests[h].session < |s.sessions|
  }

  function RemoveAt<T>(items: seq<T>, i: nat): seq<T>
    requires i < |items|
  {
    items[..i] + items[i + 1..]
  }

  /** bill_event, which reports success either way. */
  function Take(s: State, account: Account, amount: real, saved: bool): State {
    if saved && account in s.cash then s.(cash := s.cash[account := s.cash[account] - amount])
    else s.(lost := s.lost[account := At(s.lost, account) + amount])
  }

  /** get_balance: no row reads as 0, a failed query as -1. */
  function Balance(s: State, account: Account, found: bool): real {
    if found then At(s.cash, account) else -1.0
  }

  /** What a charge takes from the account. */
  function Charge(s: State, r: Request, saved: bool): State
    requires r.session < |s.sessions|
  {
    var x := s.sessions[r.session];
    if r.kind.Bill? && Charges(x, r.ts) then Take(s, x.account, Amount(x, r.rate, r.ts), saved) else s
  }

  /** A bill of a call that goes on finds too little money. */
  predicate Low(nobal: real, s: State, r: Request, saved: bool, found: bool)
    requires r.session < |s.sessions|
  {
    var x := s.sessions[r.session];
    r.kind.Bill? && !Paused(x) && !x.hungUp && Balance(Charge(s, r, saved), x.account, found) < nobal
  }

  function EnterStep(nobal: real, s: State, a: Action): State
    requires a.Enter? && InRange(s, a.request)
  {
    var r := s.requests[a.request];
    var x := s.sessions[r.session];
    var x' := After(x, r.kind, r.rate, r.ts);
    Charge(s, r, a.saved).(
      sessions := s.sessions[r.session := if Low(nobal, s, r, a.saved, a.found) then PausedAt(x', a.now) else x'],
      requests := RemoveAt(s.requests, a.request),
      lock := if r.kind.Pause? && x.stored.NoData? then HeldBy(r.thread) else s.lock)
  }

  function Answered(x: Session, ts: int): Session {
    if x.answered < 1 then x.(answered := ts, past := x.past.(latest := Max(x.past.latest, ts))) else x
  }

  function Step(nobal: real, s: State, a: Action): State
    requires Enabled(s, a)
  {
    match a
    case NewCall(account, rate) => s.(sessions := s.sessions + [Session(account, rate, 0, false, NoData, NO_PAST)])
    case Answer(i, ts) => s.(sessions := s.sessions[i := Answered(s.sessions[i], ts)])
    case HangUp(i) => s.(sessions := s.sessions[i := s.sessions[i].(hungUp := true)])
    case SetRate(i, rate) =>
      s.(sessions := s.sessions[i := s.sessions[i].(rate := rate, past := s.sessions[i].past.(fixed := false))])
    case Adjust(i, amount, saved) =>
      var account := s.sessions[i].account;
      Take(s, account, -amount, saved).(adjusted := s.adjusted[account := At(s.adjusted, account) + amount])
    case Read(t, kind, i, ts) => s.(requests := s.requests + [Request(t, kind, i, ts, false, 0.0)])
    case Test(h) =>
      var r := s.requests[h];
      var x := s.sessions[r.session];
      s.(requests := if Passes(x, r.kind) then s.requests[h := r.(passed := true, rate := x.rate)]
                     else RemoveAt(s.requests, h))
    case Enter(_, _, _, _) => EnterStep(nobal, s, a)
  }

  function Run(nobal: real, s: State, actions: seq<Action>): State {
    if actions == [] then s
    else
      var s' := Run(nobal, s, actions[..|actions| - 1]);
      var a := actions[|actions| - 1];
      if Enabled(s', a) then Step(nobal, s', a) else s'
  }

  function Initial(cash: map<Account, real>): State {
    State([], cash, Free, [], map[], map[])
  }

  // ---------------------------------------------------------------------------------------------
  // Sums and prices
  // ---------------------------------------------------------------------------------------------

  function Sum(xs: seq<real>): real {
    if xs == [] then 0.0 else Sum(xs[..|xs| - 1]) + xs[|xs| - 1]
  }

  lemma {:induction false} SumAppend(xs: seq<real>, x: real)
    ensures Sum(xs + [x]) == Sum(xs) + x
  {
    assert (xs + [x])[..|xs|] == xs;
  }

  lemma {:induction false} SumOfNone()
    ensures Sum([]) == 0.0
  {
  }

  lemma {:induction false} PriceAdds(rate: real, a: int, b: int)
    ensures Price(rate, a + b) == Price(rate, a) + Price(rate, b)
  {
    assert (a + b) as real == a as real + b as real;
  }

  lemma {:induction false} PriceOfNothing(rate: real)
    ensures Price(rate, 0) == 0.0
  {
  }

  lemma {:induction false} RateIsPositive(rate: real)
    requires rate > 0.0
    ensures PerMicro(rate) > 0.0
  {
  }

  /** For a positive rate prices are ordered like times. */
  lemma {:induction false} PriceOrders(rate: real, a: int, b: int)
    requires rate > 0.0
    ensures Price(rate, a) <= Price(rate, b) <==> a <= b
  {
    hide PerMicro;
    assert PerMicro(rate) > 0.0 by { RateIsPositive(rate); }
    if a <= b {
      Grows(PerMicro(rate), a as real, b as real);
    } else {
      StrictlyGrows(PerMicro(rate), b as real, a as real);
    }
  }

  lemma {:induction false} Grows(p: real, a: real, b: real)
    requires p > 0.0 && a <= b
    ensures p * a <= p * b
  {
  }

  lemma {:induction false} StrictlyGrows(p: real, a: real, b: real)
    requires p > 0.0 && a < b
    ensures p * a < p * b
  {
  }

  // ---------------------------------------------------------------------------------------------
  // What a step changes
  // ---------------------------------------------------------------------------------------------

  lemma {:induction false} TakeKeepsSessions(s: State, account: Account, amount: real, saved: bool)
    ensures var s' := Take(s, account, amount, saved);
            s'.sessions == s.sessions && s'.requests == s.requests && s'.lock == s.lock
  {
  }

  /** Entering changes one session, and makes an end of one request. */
  lemma {:induction false} EnterIs(nobal: real, s: State, a: Action)
    requires a.Enter? && Enabled(s, a)
    ensures var r, s' := s.requests[a.request], Step(nobal, s, a);
            var x' := After(s.sessions[r.session], r.kind, r.rate, r.ts);
            && s'.sessions == s.sessions[r.session := if Low(nobal, s, r, a.saved, a.found) then PausedAt(x', a.now) else x']
            && s'.requests == RemoveAt(s.requests, a.request)
  {
    hide After, PausedAt, Low, Amount, Charges;
  }

  lemma {:induction false} RemoveAtKeeps<T>(items: seq<T>, i: nat)
    requires i < |items|
    ensures forall x :: x in RemoveAt(items, i) ==> x in items
  {
  }
}
