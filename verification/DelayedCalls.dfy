/** The scheduler of delayed actions: a locked list, a periodic timer whose handlers may overlap, and a flag that says
    whether somebody has armed the timer. Calls, ticks and handlers interleave between any two steps. */
module DelayedCalls {

  /** Only what String.IsNullOrWhiteSpace asks of a character; a null key behaves like the empty one. */
  predicate IsSpace(c: char) {
    var n := c as int;
    || 9 <= n <= 13 || n == 0x20 || n == 0x85 || n == 0xA0 || n == 0x1680 || 0x2000 <= n <= 0x200A
    || n == 0x2028 || n == 0x2029 || n == 0x202F || n == 0x205F || n == 0x3000
  }

  predicate Blank(key: string) {
    forall i :: 0 <= i < |key| ==> IsSpace(key[i])
  }

  /** One call of DelayedCall; `serial`, the number of earlier calls, stands for the identity of its action, `at` is the clock it read and `ms` the delay it asked for. */
  datatype Item = Item(serial: nat, key: string, at: int, ms: int) {
    function Due(): int { at + ms }
  }

  /** Where a running handler stands; `current` is the clock it read, `todo` the actions it has not performed yet. */
  datatype Handler = Entered | Ready(current: int) | Working(todo: seq<Item>)

  datatype Replacement = Replacement(item: Item, newer: Item)

  /** An action taken off the list, by a handler that read `current`, when the clock showed `when`. */
  datatype Collection = Collection(item: Item, current: int, when: int)

  /** `armed` is timer.Enabled. From `scheduled` on, the history of the run: `lost` are the
      collected actions that a throwing one kept from being performed. */
  datatype State = State(
    now: int,
    functions: seq<Item>,
    armed: bool,
    timerEnabled: bool,
    handlers: seq<Handler>,
    scheduled: seq<Item>,
    replaced: seq<Replacement>,
    collected: seq<Collection>,
    performed: seq<Item>,
    lost: seq<Item>)

  /** `Tick` starts a handler. `Throw` is an action that throws: the timer swallows the exception and the handler ends.
      The clock may be set to any value. */
  datatype Action =
    | SetClock(now: int)
    | Schedule(key: string, ms: int)
    | Tick
    | Disarm(handler: nat)
    | Collect(handler: nat)
    | Perform(handler: nat)
    | Throw(handler: nat)
    | Finish(handler: nat)

  function Initial(now: int): State {
    State(now, [], false, false, [], [], [], [], [], [])
  }

  predicate Enabled(s: State, a: Action) {
    match a
    case SetClock(_) => true
    case Schedule(_, _) => true
    case Tick => s.armed
    case Disarm(h) => h < |s.handlers| && s.handlers[h].Entered?
    case Collect(h) => h < |s.handlers| && s.handlers[h].Ready?
    case Perform(h) => h < |s.handlers| && s.handlers[h].Working? && s.handlers[h].todo != []
    case Throw(h) => h < |s.handlers| && s.handlers[h].Working? && s.handlers[h].todo != []
    case Finish(h) => h < |s.handlers| && s.handlers[h].Working? && s.handlers[h].todo == []
  }

  // ---------------------------------------------------------------------------------------------
  // The list
  // ---------------------------------------------------------------------------------------------

  function IndexOfKey(items: seq<Item>, key: string): (i: nat)
    ensures i <= |items|
    ensures i < |items| ==> items[i].key == key
    ensures forall j :: 0 <= j < i ==> items[j].key != key
  {
    if items == [] || items[0].key == key then 0 else 1 + IndexOfKey(items[1..], key)
  }

  function RemoveAt<T>(items: seq<T>, i: nat): seq<T>
    requires i < |items|
  {
    items[..i] + items[i + 1..]
  }

  /** The position of the entry a new call with this key replaces, |items| if there is none. */
  function Replaced(items: seq<Item>, key: string): (i: nat)
    ensures i <= |items|
  {
    if Blank(key) then |items| else IndexOfKey(items, key)
  }

  function DueBy(items: seq<Item>, current: int): seq<Item> {
    if items == [] then []
    else
      var rest := DueBy(items[..|items| - 1], current);
      if items[|items| - 1].Due() > current then rest else rest + [items[|items| - 1]]
  }

  function NotDueBy(items: seq<Item>, current: int): seq<Item> {
    if items == [] then []
    else
      var rest := NotDueBy(items[..|items| - 1], current);
      if items[|items| - 1].Due() > current then rest + [items[|items| - 1]] else rest
  }

  function Collections(items: seq<Item>, current: int, when: int): (cs: seq<Collection>)
    ensures |cs| == |items|
  {
    seq(|items|, i requires 0 <= i < |items| => Collection(items[i], current, when))
  }

  function Step(s: State, a: Action): State
    requires Enabled(s, a)
  {
    match a
    case SetClock(t) => s.(now := t)
    case Schedule(key, ms) => ScheduleStep(s, Item(|s.scheduled|, key, s.now, ms))
    case Tick => s.(handlers := s.handlers + [Entered])
    case Disarm(h) => s.(armed := false, handlers := s.handlers[h := Ready(s.now)])
    case Collect(h) => CollectStep(s, h)
    case Perform(h) => s.(performed := s.performed + [s.handlers[h].todo[0]],
                          handlers := s.handlers[h := Working(s.handlers[h].todo[1..])])
    case Throw(h) => s.(performed := s.performed + [s.handlers[h].todo[0]], lost := s.lost + s.handlers[h].todo[1..],
                        handlers := RemoveAt(s.handlers, h))
    case Finish(h) => s.(armed := s.functions != [], timerEnabled := s.functions != [],
                         handlers := RemoveAt(s.handlers, h))
  }

  function ScheduleStep(s: State, item: Item): State {
    var i := Replaced(s.functions, item.key);
    var s' := if i < |s.functions| then
                s.(functions := RemoveAt(s.functions, i), replaced := s.replaced + [Replacement(s.functions[i], item)])
              else s;
    s'.(functions := s'.functions + [item],
        scheduled := s.scheduled + [item],
        armed := s.armed || !s.timerEnabled,
        timerEnabled := true)
  }

  function CollectStep(s: State, h: nat): State
    requires h < |s.handlers| && s.handlers[h].Ready?
  {
    var current := s.handlers[h].current;
    var due := DueBy(s.functions, current);
    s.(functions := NotDueBy(s.functions, current),
       handlers := s.handlers[h := Working(due)],
       collected := s.collected + Collections(due, current, s.now))
  }

  function Run(s: State, actions: seq<Action>): State {
    if actions == [] then s
    else
      var s' := Run(s, actions[..|actions| - 1]);
      var a := actions[|actions| - 1];
      if Enabled(s', a) then Step(s', a) else s'
  }

  // ---------------------------------------------------------------------------------------------
  // What becomes of a scheduled action
  // ---------------------------------------------------------------------------------------------

  function Items(rs: seq<Replacement>): seq<Item> {
    if rs == [] then [] else Items(rs[..|rs| - 1]) + [rs[|rs| - 1].item]
  }

  function Taken(cs: seq<Collection>): seq<Item> {
    if cs == [] then [] else Taken(cs[..|cs| - 1]) + [cs[|cs| - 1].item]
  }

  /** Every scheduled action is on the list, replaced or collected. */
  ghost predicate Accounted(s: State) {
    multiset(s.scheduled) == multiset(s.functions) + multiset(Items(s.replaced)) + multiset(Taken(s.collected))
  }

  function Todo(h: Handler): multiset<Item> {
    if h.Working? then multiset(h.todo) else multiset{}
  }

  function InHand(handlers: seq<Handler>): multiset<Item> {
    if handlers == [] then multiset{}
    else InHand(handlers[..|handlers| - 1]) + Todo(handlers[|handlers| - 1])
  }

  /** Every collected action is performed, still in the hands of its handler, or lost. */
  ghost predicate Performed(s: State) {
    multiset(Taken(s.collected)) == multiset(s.performed) + InHand(s.handlers) + multiset(s.lost)
  }

  predicate Numbered(s: State) {
    forall i :: 0 <= i < |s.scheduled| ==> s.scheduled[i].serial == i
  }

  predicate LaterSameKey(r: Replacement) {
    r.item.key == r.newer.key && !Blank(r.newer.key) && r.item.serial < r.newer.serial
  }

  predicate InTime(c: Collection) {
    c.item.Due() <= c.current
  }

  /** A keyed action on the list is the newest of its key. */
  ghost predicate Newest(s: State) {
    forall p, q :: p in s.functions && q in s.scheduled && p.key == q.key && !Blank(p.key) ==> q.serial <= p.serial
  }

  predicate OneEach(items: seq<Item>) {
    forall i, j :: 0 <= i < j < |items| ==> items[i].serial < items[j].serial
  }

  ghost predicate Listed(s: State) {
    && OneEach(s.functions)
    && (forall p :: p in s.functions ==> p in s.scheduled)
  }

  ghost predicate Fair(s: State) {
    && (forall r :: r in s.replaced ==> LaterSameKey(r) && r.newer in s.scheduled)
    && (forall c :: c in s.collected ==> InTime(c))
  }

  ghost predicate History(s: State) {
    Accounted(s) && Numbered(s) && Listed(s) && Fair(s)
  }

  lemma {:induction false} ItemsAppend(rs: seq<Replacement>, r: Replacement)
    ensures Items(rs + [r]) == Items(rs) + [r.item]
  {
    assert (rs + [r])[..|rs|] == rs;
  }

  lemma {:induction false} TakenAppend(cs: seq<Collection>, items: seq<Item>, current: int, when: int)
    ensures Taken(cs + Collections(items, current, when)) == Taken(cs) + items
    decreases |items|
  {
    var added := Collections(items, current, when);
    if items == [] {
      assert cs + added == cs;
    } else {
      var n := |items| - 1;
      assert (cs + added)[..|cs| + n] == cs + Collections(items[..n], current, when);
      TakenAppend(cs, items[..n], current, when);
      assert items == items[..n] + [items[n]];
    }
  }

  lemma {:induction false} Append<T>(items: seq<T>)
    requires items != []
    ensures items == items[..|items| - 1] + [items[|items| - 1]]
    ensures multiset(items) == multiset(items[..|items| - 1]) + multiset{items[|items| - 1]}
  {
    assert items == items[..|items| - 1] + [items[|items| - 1]];
  }

  /** The two halves of a collection split the list. */
  lemma {:induction false} DueSplits(items: seq<Item>, current: int)
    ensures multiset(DueBy(items, current)) + multiset(NotDueBy(items, current)) == multiset(items)
    decreases |items|
  {
    if items != [] {
      DueSplits(items[..|items| - 1], current);
      Append(items);
    }
  }

  lemma {:induction false} DueExactly(items: seq<Item>, current: int)
    ensures forall p :: p in DueBy(items, current) <==> p in items && p.Due() <= current
    ensures forall p :: p in NotDueBy(items, current) <==> p in items && p.Due() > current
    decreases |items|
  {
    if items != [] {
      DueExactly(items[..|items| - 1], current);
      Append(items);
    }
  }

  lemma {:induction false} NotDueOneEach(items: seq<Item>, current: int)
    requires OneEach(items)
    ensures OneEach(NotDueBy(items, current))
    decreases |items|
  {
    if items != [] {
      var n := |items| - 1;
      NotDueOneEach(items[..n], current);
      DueExactly(items[..n], current);
      forall j | 0 <= j < |NotDueBy(items[..n], current)|
        ensures NotDueBy(items[..n], current)[j].serial < items[n].serial
      {
        assert NotDueBy(items[..n], current)[j] in NotDueBy(items[..n], current);
        var k :| 0 <= k < n && items[..n][k] == NotDueBy(items[..n], current)[j];
      }
    }
  }

  lemma {:induction false} RemoveAtTakesOne<T>(items: seq<T>, i: nat)
    requires i < |items|
    ensures multiset(items) == multiset(RemoveAt(items, i)) + multiset{items[i]}
  {
    assert items == items[..i] + [items[i]] + items[i + 1..];
  }

  lemma {:induction false} RemoveAtKeeps<T>(items: seq<T>, i: nat)
    requires i < |items|
    ensures forall p :: p in RemoveAt(items, i) ==> p in items
  {
  }

  lemma {:induction false} RemoveAtOneEach(items: seq<Item>, i: nat)
    requires i < |items| && OneEach(items)
    ensures OneEach(RemoveAt(items, i))
  {
    var r := RemoveAt(items, i);
    forall j, k | 0 <= j < k < |r| ensures r[j].serial < r[k].serial {
      assert r[j] == items[if j < i then j else j + 1] && r[k] == items[if k < i then k else k + 1];
    }
  }

  lemma {:induction false} ScheduleKeepsAccount(s: State, item: Item)
    requires Accounted(s)
    ensures Accounted(ScheduleStep(s, item))
  {
    hide Items, Taken, Replaced, RemoveAt, OneEach;
    var i := Replaced(s.functions, item.key);
    if i < |s.functions| {
      RemoveAtTakesOne(s.functions, i);
      ItemsAppend(s.replaced, Replacement(s.functions[i], item));
    }
  }

  lemma {:induction false} OldSerials(s: State)
    requires Numbered(s)
    ensures forall p :: p in s.scheduled ==> p.serial < |s.scheduled|
  {
    forall p | p in s.scheduled ensures p.serial < |s.scheduled| {
      var k :| 0 <= k < |s.scheduled| && s.scheduled[k] == p;
    }
  }

  lemma {:induction false} OneMore(items: seq<Item>, item: Item)
    requires OneEach(items) && forall p :: p in items ==> p.serial < item.serial
    ensures OneEach(items + [item])
  {
    assert forall k :: 0 <= k < |items| ==> items[k] in items;
  }

  lemma {:induction false} ScheduleKeepsListed(s: State, item: Item)
    requires Numbered(s) && Listed(s) && item.serial == |s.scheduled|
    ensures Listed(ScheduleStep(s, item))
  {
    hide Replaced, RemoveAt, OneEach;
    var i := Replaced(s.functions, item.key);
    OldSerials(s);
    var kept := if i < |s.functions| then RemoveAt(s.functions, i) else s.functions;
    if i < |s.functions| {
      RemoveAtKeeps(s.functions, i);
      RemoveAtOneEach(s.functions, i);
    }
    OneMore(kept, item);
  }

  lemma {:induction false} ScheduleKeepsFair(s: State, item: Item)
    requires Numbered(s) && Listed(s) && Fair(s) && item.serial == |s.scheduled|
    ensures Fair(ScheduleStep(s, item))
  {
    hide Blank, OneEach;
    var i := Replaced(s.functions, item.key);
    OldSerials(s);
    if i < |s.functions| {
      assert s.functions[i] in s.functions;
    }
  }

  lemma {:induction false} CollectKeepsHistory(s: State, h: nat)
    requires History(s) && h < |s.handlers| && s.handlers[h].Ready?
    ensures History(CollectStep(s, h))
  {
    hide Items, Taken, OneEach, LaterSameKey, DueBy, NotDueBy;
    var current := s.handlers[h].current;
    var due := DueBy(s.functions, current);
    DueSplits(s.functions, current);
    DueExactly(s.functions, current);
    NotDueOneEach(s.functions, current);
    TakenAppend(s.collected, due, current, s.now);
    forall c | c in Collections(due, current, s.now) ensures InTime(c) {
      assert c.item in due;
    }
  }

  lemma {:induction false} StepKeepsHistory(s: State, a: Action)
    requires History(s) && Enabled(s, a)
    ensures History(Step(s, a))
  {
    hide ScheduleStep, CollectStep, Items, Taken, OneEach, LaterSameKey, InTime;
    match a {
      case Schedule(key, ms) =>
        var item := Item(|s.scheduled|, key, s.now, ms);
        ScheduleKeepsAccount(s, item);
        ScheduleKeepsListed(s, item);
        ScheduleKeepsFair(s, item);
        assert ScheduleStep(s, item).scheduled == s.scheduled + [item] by { ScheduledIs(s, item); }
      case Collect(h) => CollectKeepsHistory(s, h);
      case _ =>
    }
  }

  lemma {:induction false} ScheduledIs(s: State, item: Item)
    ensures ScheduleStep(s, item).scheduled == s.scheduled + [item]
  {
  }

  lemma {:induction false} AddToBoth<T>(a: multiset<T>, b: multiset<T>, c: multiset<T>, d: multiset<T>, e: multiset<T>)
    requires a + b == c + d
    ensures (a + e) + b == (c + e) + d
  {
    assert (a + e) + b == (a + b) + e && (c + e) + d == (c + d) + e;
  }

  lemma {:induction false} PlusNothing<T>(a: multiset<T>)
    ensures a + multiset{} == a
  {
  }

  lemma {:induction false} Cancel<T>(a: multiset<T>, b: multiset<T>, c: multiset<T>)
    requires a + c == b + c
    ensures a == b
  {
    forall x ensures a[x] == b[x] {
      assert (a + c)[x] == (b + c)[x];
    }
  }

  lemma {:induction false} InHandUpdate(handlers: seq<Handler>, h: nat, x: Handler)
    requires h < |handlers|
    ensures InHand(handlers[h := x]) + Todo(handlers[h]) == InHand(handlers) + Todo(x)
    decreases |handlers|
  {
    hide Todo;
    var n := |handlers| - 1;
    if h < n {
      InHandUpdate(handlers[..n], h, x);
      assert handlers[h := x][..n] == handlers[..n][h := x];
      AddToBoth(InHand(handlers[..n][h := x]), Todo(handlers[h]), InHand(handlers[..n]), Todo(x), Todo(handlers[n]));
    } else {
      assert handlers[h := x][..n] == handlers[..n];
    }
  }

  lemma {:induction false} InHandRemove(handlers: seq<Handler>, h: nat)
    requires h < |handlers|
    ensures InHand(RemoveAt(handlers, h)) + Todo(handlers[h]) == InHand(handlers)
    decreases |handlers|
  {
    hide Todo;
    var n := |handlers| - 1;
    if h < n {
      InHandRemove(handlers[..n], h);
      var less := RemoveAt(handlers[..n], h);
      assert RemoveAt(handlers, h) == less + [handlers[n]];
      InHandAppend(less, handlers[n]);
      AddToBoth(InHand(less), Todo(handlers[h]), InHand(handlers[..n]), multiset{}, Todo(handlers[n]));
    } else {
      assert RemoveAt(handlers, h) == handlers[..n];
    }
  }

  lemma {:induction false} InHandAppend(handlers: seq<Handler>, x: Handler)
    ensures InHand(handlers + [x]) == InHand(handlers) + Todo(x)
  {
    assert (handlers + [x])[..|handlers|] == handlers;
  }

  lemma {:induction false} ScheduledElsewhere(s: State, item: Item)
    ensures var s' := ScheduleStep(s, item);
            && s'.collected == s.collected && s'.performed == s.performed
            && s'.handlers == s.handlers && s'.lost == s.lost
  {
  }

  lemma {:induction false} CollectKeepsPerformed(s: State, h: nat)
    requires Performed(s) && h < |s.handlers| && s.handlers[h].Ready?
    ensures Performed(CollectStep(s, h))
  {
    hide InHand, Taken, DueBy, NotDueBy, Collections;
    var due := DueBy(s.functions, s.handlers[h].current);
    InHandUpdate(s.handlers, h, Working(due));
    PlusNothing(InHand(s.handlers[h := Working(due)]));
    TakenAppend(s.collected, due, s.handlers[h].current, s.now);
    assert multiset(Taken(s.collected) + due) == multiset(Taken(s.collected)) + multiset(due);
    AddToBoth(multiset(s.performed) + InHand(s.handlers) + multiset(s.lost), multiset{},
              multiset(Taken(s.collected)), multiset{}, multiset(due));
  }

  /** The handler whose turn it is hands on its first action. */
  lemma {:induction false} FirstInHand(handlers: seq<Handler>, h: nat)
    requires h < |handlers| && handlers[h].Working? && handlers[h].todo != []
    ensures var todo := handlers[h].todo;
            && InHand(handlers[h := Working(todo[1..])]) + multiset{todo[0]} == InHand(handlers)
            && InHand(RemoveAt(handlers, h)) + multiset(todo[1..]) + multiset{todo[0]} == InHand(handlers)
  {
    hide InHand, RemoveAt;
    var todo := handlers[h].todo;
    var after := InHand(handlers[h := Working(todo[1..])]);
    InHandUpdate(handlers, h, Working(todo[1..]));
    InHandRemove(handlers, h);
    assert todo == [todo[0]] + todo[1..];
    assert after + Todo(handlers[h]) == (after + multiset{todo[0]}) + multiset(todo[1..]);
    Cancel(after + multiset{todo[0]}, InHand(handlers), multiset(todo[1..]));
  }

  lemma {:induction false} DisarmKeepsInHand(handlers: seq<Handler>, h: nat, now: int)
    requires h < |handlers| && handlers[h].Entered?
    ensures InHand(handlers[h := Ready(now)]) == InHand(handlers)
  {
    hide InHand;
    InHandUpdate(handlers, h, Ready(now));
    PlusNothing(InHand(handlers[h := Ready(now)]));
    PlusNothing(InHand(handlers));
  }

  lemma {:induction false} FirstKeepsPerformed(s: State, a: Action)
    requires Performed(s) && Enabled(s, a) && (a.Perform? || a.Throw?)
    ensures Performed(Step(s, a))
  {
    hide InHand, Taken, RemoveAt, ScheduleStep, CollectStep;
    FirstInHand(s.handlers, a.handler);
  }

  lemma {:induction false} StepKeepsPerformed(s: State, a: Action)
    requires Performed(s) && Enabled(s, a)
    ensures Performed(Step(s, a))
  {
    hide InHand, Taken, ScheduleStep, CollectStep, RemoveAt;
    match a {
      case Tick => InHandAppend(s.handlers, Entered);
      case Disarm(h) => DisarmKeepsInHand(s.handlers, h, s.now);
      case Collect(h) => CollectKeepsPerformed(s, h);
      case Perform(h) => FirstKeepsPerformed(s, a);
      case Throw(h) => FirstKeepsPerformed(s, a);
      case Finish(h) => InHandRemove(s.handlers, h);
      case Schedule(key, ms) => ScheduledElsewhere(s, Item(|s.scheduled|, key, s.now, ms));
      case SetClock(_) =>
    }
  }

  lemma {:induction false} OthersDiffer(items: seq<Item>, i: nat)
    requires i < |items| && OneEach(items)
    ensures forall p :: p in RemoveAt(items, i) ==> p in items && p.serial != items[i].serial
  {
    forall p | p in RemoveAt(items, i) ensures p in items && p.serial != items[i].serial {
      var k :| 0 <= k < |RemoveAt(items, i)| && RemoveAt(items, i)[k] == p;
      assert p == items[if k < i then k else k + 1];
    }
  }

  lemma {:induction false} ScheduleKeepsNewest(s: State, item: Item)
    requires Numbered(s) && Listed(s) && Newest(s) && item.serial == |s.scheduled|
    ensures Newest(ScheduleStep(s, item))
  {
    hide Blank, RemoveAt, OneEach;
    var i := Replaced(s.functions, item.key);
    var kept := if i < |s.functions| then RemoveAt(s.functions, i) else s.functions;
    OldSerials(s);
    if i < |s.functions| {
      OthersDiffer(s.functions, i);
      assert s.functions[i] in s.functions;
    }
    forall p | p in kept && !Blank(p.key) ensures p.key != item.key {
      if i == |s.functions| {
        var j :| 0 <= j < |s.functions| && s.functions[j] == p;
      }
    }
  }

  lemma {:induction false} StepKeepsNewest(s: State, a: Action)
    requires History(s) && Newest(s) && Enabled(s, a)
    ensures Newest(Step(s, a))
  {
    hide ScheduleStep, Blank, Accounted;
    match a {
      case Schedule(key, ms) => ScheduleKeepsNewest(s, Item(|s.scheduled|, key, s.now, ms));
      case Collect(h) => DueExactly(s.functions, s.handlers[h].current);
      case _ =>
    }
  }

  lemma {:induction false} RunKeepsHistory(s: State, actions: seq<Action>)
    requires History(s) && Newest(s) && Performed(s)
    ensures History(Run(s, actions)) && Newest(Run(s, actions)) && Performed(Run(s, actions))
    decreases |actions|
  {
    hide History, Newest, Performed, Step, Enabled;
    if actions != [] {
      RunKeepsHistory(s, actions[..|actions| - 1]);
      var s', a := Run(s, actions[..|actions| - 1]), actions[|actions| - 1];
      if Enabled(s', a) {
        StepKeepsHistory(s', a);
        StepKeepsNewest(s', a);
        StepKeepsPerformed(s', a);
      }
    }
  }

  /** How often an action is somewhere: on the list, replaced, in the hands of a handler, performed or lost. */
  function Whereabouts(s: State, item: Item): int {
    multiset(s.functions)[item] + multiset(Items(s.replaced))[item] + InHand(s.handlers)[item]
    + multiset(s.performed)[item] + multiset(s.lost)[item]
  }

  lemma {:induction false} DistinctItems(items: seq<Item>, item: Item)
    requires OneEach(items)
    ensures multiset(items)[item] == if item in items then 1 else 0
    decreases |items|
  {
    if items != [] {
      var n := |items| - 1;
      DistinctItems(items[..n], item);
      Append(items);
      if item in items[..n] {
        var k :| 0 <= k < n && items[k] == item;
        assert item.serial < items[n].serial;
      }
    }
  }

  /** The first main result, for every interleaving, even with actions that throw: a scheduled action is in exactly one
      place; a replaced one gave way to a later call with its key; at most one action of a nonblank key is waiting, the
      newest; and an action is only taken off the list by a handler whose clock had reached its end time. */
  lemma {:induction false} EachCallIsInOnePlace(now: int, actions: seq<Action>)
    ensures var s := Run(Initial(now), actions);
            && (forall item :: item in s.scheduled ==> Whereabouts(s, item) == 1)
            && (forall r :: r in s.replaced ==> LaterSameKey(r) && r.newer in s.scheduled)
            && (forall p, q :: p in s.functions && q in s.scheduled && p.key == q.key && !Blank(p.key)
                               ==> q.serial <= p.serial)
            && (forall i, j :: 0 <= i < j < |s.functions| && !Blank(s.functions[i].key)
                               ==> s.functions[i].key != s.functions[j].key)
            && (forall c :: c in s.collected ==> InTime(c))
  {
    hide LaterSameKey, InTime, Blank, Step, Enabled;
    RunKeepsHistory(Initial(now), actions);
    var s := Run(Initial(now), actions);
    forall item | item in s.scheduled ensures Whereabouts(s, item) == 1 {
      DistinctItems(s.scheduled, item);
    }
    forall i, j | 0 <= i < j < |s.functions| && !Blank(s.functions[i].key)
      ensures s.functions[i].key != s.functions[j].key
    {
      assert s.functions[i] in s.functions && s.functions[j] in s.functions;
    }
  }

  // ---------------------------------------------------------------------------------------------
  // The clock
  // ---------------------------------------------------------------------------------------------

  predicate ClockRuns(s: State, actions: seq<Action>) {
    actions == []
    || (var n := |actions| - 1;
        ClockRuns(s, actions[..n]) && (actions[n].SetClock? ==> Run(s, actions[..n]).now <= actions[n].now))
  }

  ghost predicate ReadingsArePast(s: State) {
    && (forall h :: 0 <= h < |s.handlers| && s.handlers[h].Ready? ==> s.handlers[h].current <= s.now)
    && (forall c :: c in s.collected ==> c.current <= c.when)
  }

  /** While the clock does not go back, no action leaves the list sooner than its delay after its call. */
  lemma {:induction false} NothingIsEarly(now: int, actions: seq<Action>)
    requires ClockRuns(Initial(now), actions)
    ensures forall c :: c in Run(Initial(now), actions).collected ==> c.item.at + c.item.ms <= c.when
  {
    hide Run, ClockRuns;
    EachCallIsInOnePlace(now, actions);
    ReadingsStayPast(now, actions);
  }

  lemma {:induction false} ReadingsStayPast(now: int, actions: seq<Action>)
    requires ClockRuns(Initial(now), actions)
    ensures ReadingsArePast(Run(Initial(now), actions))
    decreases |actions|
  {
    if actions != [] {
      ReadingsStayPast(now, actions[..|actions| - 1]);
    }
  }

  // ---------------------------------------------------------------------------------------------
  // The timer
  // ---------------------------------------------------------------------------------------------

  /** Somebody is going to look at a nonempty list. */
  predicate Healthy(s: State) {
    && (s.functions != [] ==> s.timerEnabled)
    && (s.timerEnabled ==> s.armed || s.handlers != [])
  }

  /** The flag claims that the timer is armed, but it is not, and no handler is left to arm it. */
  predicate Dead(s: State) {
    s.timerEnabled && !s.armed && s.handlers == []
  }

  /** The only step that stops the timer: the last handler in progress throws before anyone has armed it again. */
  lemma {:induction false} HealthyExactly(s: State, a: Action)
    requires Healthy(s) && Enabled(s, a)
    ensures Healthy(Step(s, a)) <==> !(a.Throw? && s.timerEnabled && !s.armed && |s.handlers| == 1)
    ensures !Healthy(Step(s, a)) ==> Dead(Step(s, a))
  {
    if a.Collect? {
      DueSplits(s.functions, s.handlers[a.handler].current);
      if s.functions == [] {
        assert multiset(s.functions) == multiset{};
        assert |multiset(NotDueBy(s.functions, s.handlers[a.handler].current))| == 0;
      }
    }
  }

  /** Once dead, always dead: no later call is ever collected or performed. */
  lemma {:induction false} DeadForever(s: State, actions: seq<Action>)
    requires Dead(s)
    ensures var s' := Run(s, actions);
            Dead(s') && s'.collected == s.collected && s'.performed == s.performed
    decreases |actions|
  {
    if actions != [] {
      DeadForever(s, actions[..|actions| - 1]);
    }
  }

  predicate NoThrow(actions: seq<Action>) {
    forall i :: 0 <= i < |actions| ==> !actions[i].Throw?
  }

  lemma {:induction false} RunStaysHealthy(s: State, actions: seq<Action>)
    requires Healthy(s) && NoThrow(actions)
    ensures Healthy(Run(s, actions)) && Run(s, actions).lost == s.lost
    decreases |actions|
  {
    hide Healthy;
    if actions != [] {
      RunStaysHealthy(s, actions[..|actions| - 1]);
      var s', a := Run(s, actions[..|actions| - 1]), actions[|actions| - 1];
      if Enabled(s', a) {
        HealthyExactly(s', a);
      }
    }
  }

  /** The second main result: while no action throws, a nonempty list implies that the timer is armed or a handler is
      still in progress, however the handlers overlap, and no action is lost. */
  lemma {:induction false} TimerIsNeverForgotten(now: int, actions: seq<Action>)
    requires NoThrow(actions)
    ensures var s := Run(Initial(now), actions);
            (s.functions != [] ==> s.armed || s.handlers != []) && s.lost == []
  {
    RunStaysHealthy(Initial(now), actions);
  }

  /** An action that throws while its handler is alone: the call after it is waiting for ever. */
  lemma {:induction false} ThrowStopsTheTimer(later: seq<Action>)
    ensures var first := [Schedule("a", 0), Tick, Disarm(0), Collect(0), Throw(0), Schedule("b", 0)];
            var s := Run(Initial(0), first);
            && |s.functions| == 1
            && Run(s, later).collected == s.collected && Run(s, later).performed == s.performed
  {
    hide Step, Enabled, Run;
    var two := [Schedule("a", 0), Tick];
    OneTick();
    OneTaken();
    var four := two + [Disarm(0), Collect(0)];
    var s := Run(Initial(0), four);
    OneThrows(s);
    RunTwo(Initial(0), four, Throw(0), Schedule("b", 0));
    assert four + [Throw(0), Schedule("b", 0)]
        == [Schedule("a", 0), Tick, Disarm(0), Collect(0), Throw(0), Schedule("b", 0)];
    DeadForever(Run(Initial(0), four + [Throw(0), Schedule("b", 0)]), later);
  }

  /** Scheduling onto an empty list. */
  lemma {:induction false} ScheduleFirst(s: State, key: string, ms: int)
    requires s.functions == []
    ensures var s' := Step(s, Schedule(key, ms));
            && s'.functions == [Item(|s.scheduled|, key, s.now, ms)] && s'.handlers == s.handlers && s'.now == s.now
            && s'.timerEnabled && s'.armed == (s.armed || !s.timerEnabled)
  {
  }

  lemma {:induction false} OneTick()
    ensures var s := Run(Initial(0), [Schedule("a", 0), Tick]);
            && s.now == 0 && s.functions == [Item(0, "a", 0, 0)] && s.handlers == [Entered] && s.timerEnabled && s.armed
  {
    ScheduleFirst(Initial(0), "a", 0);
    RunTwo(Initial(0), [], Schedule("a", 0), Tick);
  }

  lemma {:induction false} OneTaken()
    ensures var s := Run(Initial(0), [Schedule("a", 0), Tick] + [Disarm(0), Collect(0)]);
            s.functions == [] && s.handlers == [Working([Item(0, "a", 0, 0)])] && s.timerEnabled && !s.armed
  {
    hide Run, Step, Enabled;
    var two := [Schedule("a", 0), Tick];
    OneTick();
    OneTaking(Run(Initial(0), two), Item(0, "a", 0, 0));
    RunTwo(Initial(0), two, Disarm(0), Collect(0));
  }

  lemma {:induction false} OneTaking(s: State, a: Item)
    requires s.functions == [a] && a.Due() <= s.now == 0 && s.handlers == [Entered] && s.timerEnabled
    ensures Enabled(s, Disarm(0)) && Enabled(Step(s, Disarm(0)), Collect(0))
    ensures var s' := Step(Step(s, Disarm(0)), Collect(0));
            s'.functions == [] && s'.handlers == [Working([a])] && s'.timerEnabled && !s'.armed
  {
    hide ScheduleStep;
    assert Step(s, Disarm(0)).handlers == [Ready(0)];
    OneDue(a);
  }

  lemma {:induction false} OneThrows(s: State)
    requires s.functions == [] && |s.handlers| == 1 && s.handlers[0].Working? && s.handlers[0].todo != []
    requires s.timerEnabled && !s.armed
    ensures Enabled(s, Throw(0)) && Enabled(Step(s, Throw(0)), Schedule("b", 0))
    ensures var s' := Step(Step(s, Throw(0)), Schedule("b", 0)); Dead(s') && |s'.functions| == 1
  {
    hide ScheduleStep;
    assert Step(s, Throw(0)).handlers == [];
    ScheduleFirst(Step(s, Throw(0)), "b", 0);
  }

  lemma {:induction false} OneDue(a: Item)
    requires a.Due() <= 0
    ensures DueBy([a], 0) == [a] && NotDueBy([a], 0) == []
  {
    assert [a][..0] == [];
  }

  lemma {:induction false} RunLast(s: State, before: seq<Action>, a: Action)
    requires Enabled(Run(s, before), a)
    ensures Run(s, before + [a]) == Step(Run(s, before), a)
  {
    hide Step, Enabled;
    assert (before + [a])[..|before|] == before;
  }

  lemma {:induction false} RunTwo(s: State, before: seq<Action>, a: Action, b: Action)
    requires Enabled(Run(s, before), a) && Enabled(Step(Run(s, before), a), b)
    ensures Run(s, before + [a, b]) == Step(Step(Run(s, before), a), b)
  {
    hide Step, Enabled;
    RunLast(s, before, a);
    RunLast(s, before + [a], b);
    assert before + [a, b] == before + [a] + [b];
  }

  // ---------------------------------------------------------------------------------------------
  // Progress
  // ---------------------------------------------------------------------------------------------

  lemma {:induction false} RunConcat(s: State, a: seq<Action>, b: seq<Action>)
    ensures Run(s, a + b) == Run(Run(s, a), b)
    decreases |b|
  {
    hide Step, Enabled;
    if b == [] {
      assert a + b == a;
    } else {
      var n := |b| - 1;
      assert (a + b)[..|a| + n] == a + b[..n] && (a + b)[|a| + n] == b[n];
      RunConcat(s, a, b[..n]);
    }
  }

  lemma {:induction false} RunFirst(s: State, a: Action, rest: seq<Action>)
    requires Enabled(s, a)
    ensures Run(s, [a] + rest) == Run(Step(s, a), rest)
  {
    RunConcat(s, [a], rest);
    assert [a][..0] == [];
  }

  predicate OwnSteps(actions: seq<Action>) {
    forall i :: 0 <= i < |actions| ==> !actions[i].Throw? && !actions[i].Schedule? && !actions[i].SetClock?
  }

  function Rank(h: Handler): nat {
    match h
    case Entered => 0
    case Ready(_) => 0
    case Working(todo) => |todo|
  }

  function Stage(h: Handler): nat {
    match h
    case Entered => 2
    case Ready(_) => 1
    case Working(_) => 0
  }

  function NextStep(h: Handler, i: nat): Action {
    match h
    case Entered => Disarm(i)
    case Ready(_) => Collect(i)
    case Working(todo) => if todo == [] then Finish(i) else Perform(i)
  }

  /** The handlers in progress can always run to their end. */
  lemma {:induction false} HandlersFinish(s: State) returns (actions: seq<Action>)
    ensures OwnSteps(actions)
    ensures var s' := Run(s, actions);
            && s'.handlers == [] && s'.now == s.now && s'.scheduled == s.scheduled
            && (forall p :: p in s'.functions ==> p in s.functions)
            && (s.handlers != [] ==> s'.armed == (s'.functions != []))
            && (s.handlers == [] ==> s' == s)
    decreases |s.handlers|, if s.handlers == [] then 0 else Stage(s.handlers[|s.handlers| - 1]),
              if s.handlers == [] then 0 else Rank(s.handlers[|s.handlers| - 1])
  {
    actions := [];
    if s.handlers != [] {
      var n := |s.handlers| - 1;
      var a := NextStep(s.handlers[n], n);
      var s1 := Step(s, a);
      if a.Collect? {
        DueExactly(s.functions, s.handlers[n].current);
      }
      var rest := HandlersFinish(s1);
      actions := [a] + rest;
      RunFirst(s, a, rest);
    }
  }

  /** From every healthy state whose clock has reached all end times, the timer and the handlers can empty the list and
      come to rest; with every action then in one place, each one has been performed, replaced or lost. */
  lemma {:induction false} EverythingDueIsPerformed(s: State) returns (actions: seq<Action>)
    requires Healthy(s) && History(s) && Newest(s) && Performed(s)
    requires forall p :: p in s.functions ==> p.Due() <= s.now
    ensures OwnSteps(actions)
    ensures var s' := Run(s, actions);
            && s'.functions == [] && s'.handlers == [] && !s'.armed && s'.lost == s.lost
            && multiset(s.scheduled) == multiset(Items(s'.replaced)) + multiset(s'.performed) + multiset(s.lost)
  {
    hide Run, Healthy, History, Newest, Performed;
    var first := HandlersFinish(s);
    var s1 := Run(s, first);
    RunStaysHealthy(s, first);
    actions := first;
    if s1.armed {
      var round := [Tick, Disarm(0), Collect(0)];
      var s2 := OneRound(s1);
      var last := HandlersFinish(s2);
      RunConcat(s1, round, last);
      RunConcat(s, first, round + last);
      actions := first + (round + last);
      assert Run(s, actions).functions == [] by { NoItems(Run(s, actions).functions, s2.functions); }
    } else {
      assert s1.functions == [] by { assert Healthy(s1); HealthyFacts(s1); }
    }
    RunKeepsHistory(s, actions);
    RunStaysHealthy(s, actions);
    RestFacts(Run(s, actions));
  }

  lemma {:induction false} NoItems(items: seq<Item>, none: seq<Item>)
    requires forall p :: p in items ==> p in none
    ensures none == [] ==> items == []
  {
    if items != [] {
      assert items[0] in none;
    }
  }

  lemma {:induction false} HealthyFacts(s: State)
    requires Healthy(s) && s.handlers == [] && !s.armed
    ensures s.functions == []
  {
  }

  lemma {:induction false} RestFacts(s: State)
    requires History(s) && Performed(s) && s.functions == [] && s.handlers == []
    ensures multiset(s.scheduled) == multiset(Items(s.replaced)) + multiset(s.performed) + multiset(s.lost)
  {
  }

  /** One tick takes everything that is due. */
  lemma {:induction false} OneRound(s: State) returns (s': State)
    requires s.armed && s.handlers == [] && forall p :: p in s.functions ==> p.Due() <= s.now
    ensures s' == Run(s, [Tick, Disarm(0), Collect(0)])
    ensures s'.functions == [] && s'.handlers != [] && s'.now == s.now && s'.scheduled == s.scheduled
  {
    RunTwo(s, [], Tick, Disarm(0));
    RunLast(s, [Tick, Disarm(0)], Collect(0));
    assert [Tick, Disarm(0)] + [Collect(0)] == [Tick, Disarm(0), Collect(0)];
    var s2 := Step(Step(s, Tick), Disarm(0));
    assert s2.handlers == [Ready(s.now)];
    s' := Step(s2, Collect(0));
    DueExactly(s.functions, s.now);
    NoItems(s'.functions, []);
  }

  lemma {:induction false} NoneDue(current: int)
    ensures DueBy([], current) == NotDueBy([], current) == []
  {
  }

  lemma {:induction false} DueNext(items: seq<Item>, k: nat, current: int)
    requires k < |items|
    ensures DueBy(items[..k + 1], current)
         == DueBy(items[..k], current) + (if items[k].Due() <= current then [items[k]] else [])
    ensures NotDueBy(items[..k + 1], current)
         == NotDueBy(items[..k], current) + (if items[k].Due() <= current then [] else [items[k]])
  {
    assert items[..k + 1][..k] == items[..k];
  }

  lemma {:induction false} SplitNext<T>(kept: seq<T>, all: seq<T>, k: nat)
    requires k < |all|
    ensures var functions := kept + all[k..];
            && functions[|kept|] == all[k]
            && RemoveAt(functions, |kept|) == kept + all[k + 1..]
            && functions == (kept + [all[k]]) + all[k + 1..]
  {
  }

  // ---------------------------------------------------------------------------------------------
  // The scheduler, changed in place
  // ---------------------------------------------------------------------------------------------

  class DelayedFunction {
    var now: int
    var functions: seq<Item>
    var timerIsEnabled: bool
    var timerEnabled: bool
    var handlers: seq<Handler>
    ghost var scheduled: seq<Item>
    ghost var replaced: seq<Replacement>
    ghost var collected: seq<Collection>
    ghost var performed: seq<Item>
    ghost var lost: seq<Item>
    var calls: nat

    ghost predicate Valid()
      reads this
    {
      calls == |scheduled|
    }

    ghost function View(): State
      reads this
    {
      State(now, functions, timerIsEnabled, timerEnabled, handlers, scheduled, replaced, collected, performed, lost)
    }

    constructor (clock: int)
      ensures Valid() && View() == Initial(clock)
    {
      now, functions, timerIsEnabled, timerEnabled, handlers, calls := clock, [], false, false, [], 0;
      scheduled, replaced, collected, performed, lost := [], [], [], [], [];
    }

    /** DelayedCall, under the lock of the list. */
    method DelayedCall(key: string, ms: int)
      requires Valid()
      modifies this
      ensures Valid() && View() == Step(old(View()), Schedule(key, ms))
    {
      hide Blank, IndexOfKey, RemoveAt;
      var item := Item(calls, key, now, ms);
      if !Blank(key) {
        var i := 0;
        while i < |functions| && functions[i].key != key
          invariant i <= |functions|
          invariant forall j :: 0 <= j < i ==> functions[j].key != key
        {
          i := i + 1;
        }
        if i < |functions| {
          replaced := replaced + [Replacement(functions[i], item)];
          functions := RemoveAt(functions, i);
        }
      }
      functions := functions + [item];
      scheduled := scheduled + [item];
      calls := calls + 1;
      if !timerEnabled {
        timerIsEnabled := true;
        timerEnabled := true;
      }
    }

    /** The timer raises Elapsed: one more handler, whatever the others are doing. */
    method Elapse()
      requires Valid() && Enabled(View(), Tick)
      modifies this`handlers
      ensures Valid() && View() == Step(old(View()), Tick)
    {
      handlers := handlers + [Entered];
    }

    /** The handler stops the timer and reads the clock, outside the lock. */
    method StopTimer(h: nat)
      requires Valid() && Enabled(View(), Disarm(h))
      modifies this`timerIsEnabled, this`handlers
      ensures Valid() && View() == Step(old(View()), Disarm(h))
    {
      timerIsEnabled := false;
      handlers := handlers[h := Ready(now)];
    }

    /** The handler takes what is due off the list, under the lock. */
    method TakeDue(h: nat)
      requires Valid() && Enabled(View(), Collect(h))
      modifies this`functions, this`handlers, this`collected
      ensures Valid() && View() == Step(old(View()), Collect(h))
    {
      hide DueBy, NotDueBy, Collections, RemoveAt, ScheduleStep;
      var current := handlers[h].current;
      var toPerform := [];
      NoneDue(current);
      ghost var all, kept, k := functions, [], 0;
      var i := 0;
      while i < |functions|
        invariant 0 <= i <= |functions| && 0 <= k <= |all|
        invariant i == |kept| && kept == NotDueBy(all[..k], current)
        invariant functions == kept + all[k..]
        invariant toPerform == DueBy(all[..k], current)
        invariant handlers == old(handlers) && collected == old(collected)
        decreases |all| - k
      {
        DueNext(all, k, current);
        SplitNext(kept, all, k);
        if functions[i].Due() <= current {
          toPerform := toPerform + [functions[i]];
          functions := RemoveAt(functions, i);
          i := i - 1;
        } else {
          kept := kept + [functions[i]];
        }
        i := i + 1;
        k := k + 1;
      }
      assert all[..k] == all;
      handlers := handlers[h := Working(toPerform)];
      collected := collected + Collections(toPerform, current, now);
    }

    /** The handler performs its next action; one that throws ends the handler. */
    method PerformNext(h: nat, throws: bool)
      requires Valid() && Enabled(View(), Perform(h))
      modifies this`handlers, this`performed, this`lost
      ensures Valid() && View() == Step(old(View()), if throws then Throw(h) else Perform(h))
    {
      var todo := handlers[h].todo;
      performed := performed + [todo[0]];
      if throws {
        lost := lost + todo[1..];
        handlers := RemoveAt(handlers, h);
      } else {
        handlers := handlers[h := Working(todo[1..])];
      }
    }

    /** The handler is done and sets the timer and the flag, under the lock. */
    method EndHandler(h: nat)
      requires Valid() && Enabled(View(), Finish(h))
      modifies this`timerIsEnabled, this`timerEnabled, this`handlers
      ensures Valid() && View() == Step(old(View()), Finish(h))
    {
      timerIsEnabled := |functions| != 0;
      timerEnabled := timerIsEnabled;
      handlers := RemoveAt(handlers, h);
    }
  }
}
