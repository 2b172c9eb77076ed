/** The softphone's calls: a list of call objects, the active call, and the events that drive them. */
module Calls {

  /** A uuid or header value; null is one of them. */
  type Id(==) = int

  datatype CallState = None | Answered | Ringing | Ended | Busy | Failed | Missed | Hold | HoldRinging

  predicate Terminal(s: CallState) {
    !s.Answered? && !s.Ringing? && !s.Hold? && !s.HoldRinging?
  }

  /** What the events read and write of a call object. */
  datatype Record = Record(
    legA: Id,
    legB: Id,
    portaudioId: int,
    isOutgoing: bool,
    isConference: bool,
    state: CallState,
    callEnded: bool)

  datatype ActiveCall = NoCall | Active(call: nat)

  /** `made` holds every call object ever made, and a call is named by its place there; `listed` is Call.calls. */
  datatype State = State(made: seq<Record>, listed: seq<nat>, active: ActiveCall)

  const INITIAL := State([], [], NoCall)

  /** The headers a new call copies; the port audio id is 0 when its header is missing. */
  datatype Headers = Headers(uuid: Id, otherLeg: Id, portaudioId: int)

  datatype Event =
    | PortaudioRinging(headers: Headers)
    | MakeCall(fail: bool, conference: bool, headers: Headers)
    | CallHeld(portaudioId: int)
    | CallResumed(portaudioId: int)
    | Outgoing(uuid: Id, otherLeg: Id)
    | HangupComplete(uuid: Id)
    | ChannelAnswer(autoAnswer: bool, headers: Headers)
    | RemoveFromHistory(call: nat)
    | ClearHistory

  /** `Duplicate` is SingleOrDefault finding more than one call; the handler then throws before it changes anything. */
  datatype Outcome = Fine | Duplicate | NotSure | UnknownState

  datatype Field = LegA | LegB | EitherLeg | PortaudioId

  predicate Matches(r: Record, field: Field, id: Id) {
    && !r.callEnded
    && match field
       case LegA => r.legA == id
       case LegB => r.legB == id
       case EitherLeg => r.legA == id || r.legB == id
       case PortaudioId => r.portaudioId == id
  }

  datatype Query = Nobody | One(call: nat) | Many

  ghost predicate Known(s: State) {
    forall i :: 0 <= i < |s.listed| ==> s.listed[i] < |s.made|
  }

  /** `(from c in calls where … select c).SingleOrDefault()`. */
  function Single(made: seq<Record>, listed: seq<nat>, field: Field, id: Id): (q: Query)
    ensures q.One? ==> q.call in listed && q.call < |made| && Matches(made[q.call], field, id)
  {
    if listed == [] then Nobody
    else
      var q := Single(made, listed[..|listed| - 1], field, id);
      var c := listed[|listed| - 1];
      if c < |made| && Matches(made[c], field, id) then (if q.Nobody? then One(c) else Many) else q
  }

  /** The first incoming call that rings, other than `call`. */
  function NextRinging(made: seq<Record>, listed: seq<nat>, call: nat): (a: ActiveCall)
    ensures a.Active? ==> a.call in listed && a.call < |made| && a.call != call
                          && made[a.call].state == Ringing && !made[a.call].isOutgoing
  {
    if listed == [] then NoCall
    else
      var c := listed[0];
      if c < |made| && made[c].state == Ringing && !made[c].isOutgoing && c != call then Active(c)
      else NextRinging(made, listed[1..], call)
  }

  /** UpdateCallState. */
  function Update(s: State, call: nat, newState: CallState, newActive: ActiveCall): (s': State)
    requires call < |s.made|
  {
    var r := s.made[call];
    var r' := r.(state := newState, callEnded := r.callEnded || Terminal(newState));
    s.(made := s.made[call := r'], active := newActive)
  }

  function NewCall(s: State, headers: Headers, isOutgoing: bool, isConference: bool): State {
    s.(made := s.made + [Record(headers.uuid, headers.otherLeg, headers.portaudioId, isOutgoing, isConference, None, false)],
       listed := s.listed + [|s.made|])
  }

  function LiveListed(made: seq<Record>, listed: seq<nat>): seq<nat> {
    if listed == [] then []
    else
      var rest := LiveListed(made, listed[..|listed| - 1]);
      var c := listed[|listed| - 1];
      if c < |made| && made[c].callEnded then rest else rest + [c]
  }

  function Without(listed: seq<nat>, call: nat): seq<nat> {
    if listed == [] then [] else if listed[0] == call then listed[1..] else [listed[0]] + Without(listed[1..], call)
  }

  function Hangup(s: State, call: nat): (State, Outcome)
    requires call < |s.made|
  {
    var r := s.made[call];
    var newState :=
      if r.state != Answered && r.state != Missed && r.state != Hold then
        if !r.isOutgoing && r.state == Ringing then Missed else Failed
      else if r.state == Answered || r.state == Hold then Ended
      else None;
    if newState == None then (s, NotSure)
    else
      var newActive := if s.active != Active(call) then s.active else NextRinging(s.made, s.listed, call);
      (Update(s, call, newState, newActive), Fine)
  }

  function Answer(s: State, call: nat): (State, Outcome)
    requires call < |s.made|
  {
    var r := s.made[call];
    if r.state == Answered then (s, Fine)
    else if r.state == Ringing || (r.state == HoldRinging && !r.isOutgoing) then
      (Update(s, call, Answered, if r.isOutgoing || r.isConference then s.active else Active(call)), Fine)
    else if r.state == HoldRinging then (Update(s, call, Hold, s.active), Fine)
    else (s, UnknownState)
  }

  /** What an event finds when it looks for its call. */
  function Found(s: State, e: Event): Query {
    match e
    case CallHeld(id) => Single(s.made, s.listed, PortaudioId, id)
    case CallResumed(id) => Single(s.made, s.listed, PortaudioId, id)
    case Outgoing(_, otherLeg) => Single(s.made, s.listed, LegA, otherLeg)
    case HangupComplete(uuid) => Single(s.made, s.listed, EitherLeg, uuid)
    case ChannelAnswer(_, headers) => Single(s.made, s.listed, LegB, headers.uuid)
    case _ => Nobody
  }

  function Step(s: State, e: Event): (State, Outcome) {
    match e
    case PortaudioRinging(headers) =>
      if !Single(s.made, s.listed, LegA, headers.uuid).Nobody? then (s, Fine)
      else
        var call := |s.made|;
        (Update(NewCall(s, headers, false, false), call, Ringing, if s.active.NoCall? then Active(call) else s.active), Fine)
    case MakeCall(fail, conference, headers) =>
      if fail then (s, Fine)
      else
        var call := |s.made|;
        (Update(NewCall(s, headers, true, conference), call, if conference then Answered else Ringing, Active(call)), Fine)
    case RemoveFromHistory(call) =>
      if call < |s.made| && s.made[call].callEnded then (s.(listed := Without(s.listed, call)), Fine) else (s, Fine)
    case ClearHistory => (s.(listed := LiveListed(s.made, s.listed)), Fine)
    case _ => Dispatch(s, e, Found(s, e))
  }

  /** The other events first look for their call. */
  function Dispatch(s: State, e: Event, found: Query): (State, Outcome)
    requires found.One? ==> found.call < |s.made|
  {
    match found
    case Many => (s, Duplicate)
    case One(call) => Handle(s, e, call)
    case Nobody =>
      if e.ChannelAnswer? && e.autoAnswer then
        Answer(Update(NewCall(s, e.headers, false, false), |s.made|, Ringing, Active(|s.made|)), |s.made|)
      else (s, Fine)
  }

  /** The events that concern an existing live call. */
  function Handle(s: State, e: Event, call: nat): (State, Outcome)
    requires call < |s.made|
  {
    var r := s.made[call];
    match e
    case CallHeld(_) =>
      (Update(s, call, if r.state == Ringing then HoldRinging else Hold,
              if s.active == Active(call) then NoCall else s.active), Fine)
    case CallResumed(_) => (Update(s, call, Answered, Active(call)), Fine)
    case Outgoing(uuid, _) =>
      (if r.isOutgoing then s.(made := s.made[call := r.(legB := uuid)]) else s, Fine)
    case HangupComplete(_) => Hangup(s, call)
    case ChannelAnswer(_, _) => Answer(s, call)
    case _ => (s, Fine)
  }

  function Run(s: State, events: seq<Event>): State {
    if events == [] then s else Step(Run(s, events[..|events| - 1]), events[|events| - 1]).0
  }

  // ---------------------------------------------------------------------------------------------
  // What every event keeps
  // ---------------------------------------------------------------------------------------------

  /** A call object counts as ended exactly when its state is terminal. */
  ghost predicate EndedExactly(s: State) {
    forall i :: 0 <= i < |s.made| ==> (s.made[i].callEnded <==> Terminal(s.made[i].state))
  }

  ghost predicate ActiveIsLive(s: State) {
    s.active.Active? ==> s.active.call in s.listed && s.active.call < |s.made| && !s.made[s.active.call].callEnded
  }

  predicate NoRepeats(listed: seq<nat>) {
    forall i, j :: 0 <= i < j < |listed| ==> listed[i] != listed[j]
  }

  /** Every live call is listed, and no call twice. */
  ghost predicate LiveAreListed(s: State) {
    && (forall i :: 0 <= i < |s.made| && !s.made[i].callEnded ==> i in s.listed)
    && NoRepeats(s.listed)
  }

  ghost predicate Inv(s: State) {
    Known(s) && EndedExactly(s) && ActiveIsLive(s) && LiveAreListed(s)
  }

  lemma {:induction false} UpdateKeepsInv(s: State, call: nat, newState: CallState, newActive: ActiveCall)
    requires Inv(s) && call in s.listed && !s.made[call].callEnded
    requires newActive == s.active || newActive.NoCall? || (newActive.call in s.listed && !s.made[newActive.call].callEnded)
    requires newActive == Active(call) ==> !Terminal(newState)
    ensures Inv(Update(s, call, newState, newActive))
  {
  }

  lemma {:induction false} NewCallKeepsInv(s: State, headers: Headers, isOutgoing: bool, isConference: bool,
                                           newState: CallState, newActive: ActiveCall)
    requires Inv(s) && !Terminal(newState) && (newActive == s.active || newActive == Active(|s.made|))
    ensures Inv(Update(NewCall(s, headers, isOutgoing, isConference), |s.made|, newState, newActive))
  {
    var s' := Update(NewCall(s, headers, isOutgoing, isConference), |s.made|, newState, newActive);
    assert s'.listed[|s.listed|] == |s.made|;
    assert forall i :: i in s.listed ==> i in s'.listed;
  }

  lemma {:induction false} RemovalKeepsInv(s: State, listed: seq<nat>)
    requires Inv(s)
    requires NoRepeats(listed)
    requires forall c :: c in listed ==> c in s.listed
    requires forall c :: c in s.listed && !s.made[c].callEnded ==> c in listed
    ensures Inv(s.(listed := listed))
  {
    var s' := s.(listed := listed);
    forall i | 0 <= i < |listed| ensures listed[i] < |s.made| {
      assert listed[i] in s.listed;
    }
    assert forall i :: 0 <= i < |s.made| && !s.made[i].callEnded ==> i in s'.listed;
  }

  lemma {:induction false} WithoutFacts(listed: seq<nat>, call: nat)
    requires NoRepeats(listed)
    ensures var l := Without(listed, call);
            && NoRepeats(l)
            && (forall c :: c in l <==> c in listed && c != call)
  {
    hide Without;
    if call in listed {
      var i :| 0 <= i < |listed| && listed[i] == call;
      WithoutIs(listed, call, i);
    } else {
      WithoutNone(listed, call);
    }
  }

  lemma {:induction false} LiveListedFacts(made: seq<Record>, listed: seq<nat>)
    requires NoRepeats(listed)
    ensures var l := LiveListed(made, listed);
            && NoRepeats(l)
            && (forall c :: c in l <==> c in listed && !(c < |made| && made[c].callEnded))
    decreases |listed|
  {
    if listed != [] {
      var n := |listed| - 1;
      assert listed == listed[..n] + [listed[n]];
      LiveListedFacts(made, listed[..n]);
      assert listed[n] !in listed[..n];
      var l := LiveListed(made, listed[..n]);
      assert forall i :: 0 <= i < |l| ==> l[i] in listed[..n];
    }
  }

  lemma {:induction false} AnswerKeepsInv(s: State, call: nat)
    requires Inv(s) && call in s.listed && !s.made[call].callEnded
    ensures Inv(Answer(s, call).0)
  {
    hide Update, LiveAreListed;
    var r := s.made[call];
    if r.state == Ringing || (r.state == HoldRinging && !r.isOutgoing) {
      UpdateKeepsInv(s, call, Answered, if r.isOutgoing || r.isConference then s.active else Active(call));
    } else if r.state == HoldRinging {
      UpdateKeepsInv(s, call, Hold, s.active);
    }
  }

  /** The hangup handler always knows what happened, and never leaves an ended call active. */
  lemma {:induction false} HangupKeepsInv(s: State, call: nat)
    requires Inv(s) && call in s.listed && !s.made[call].callEnded
    ensures Inv(Hangup(s, call).0) && Hangup(s, call).1 == Fine && Hangup(s, call).0.made[call].callEnded
  {
    hide LiveAreListed;
    var r := s.made[call];
    var newState := if r.state == Answered || r.state == Hold then Ended
                    else if !r.isOutgoing && r.state == Ringing then Missed else Failed;
    var newActive := if s.active != Active(call) then s.active else NextRinging(s.made, s.listed, call);
    UpdateKeepsInv(s, call, newState, newActive);
  }

  lemma {:induction false} HandleKeepsInv(s: State, e: Event, call: nat)
    requires Inv(s) && call in s.listed && !s.made[call].callEnded
    ensures Inv(Handle(s, e, call).0)
  {
    hide Update, Answer, Hangup;
    var r := s.made[call];
    match e {
      case CallHeld(_) =>
        UpdateKeepsInv(s, call, if r.state == Ringing then HoldRinging else Hold,
                       if s.active == Active(call) then NoCall else s.active);
      case CallResumed(_) => UpdateKeepsInv(s, call, Answered, Active(call));
      case HangupComplete(_) => HangupKeepsInv(s, call);
      case ChannelAnswer(_, _) => AnswerKeepsInv(s, call);
      case Outgoing(_, _) => OutgoingKeepsInv(s, e, call);
      case _ =>
    }
  }

  lemma {:induction false} OutgoingKeepsInv(s: State, e: Event, call: nat)
    requires Inv(s) && call in s.listed && !s.made[call].callEnded && e.Outgoing?
    ensures Inv(Handle(s, e, call).0)
  {
  }

  /** An auto-answered call is new: it rings, is active, and is answered at once. */
  lemma {:induction false} AutoAnswerKeepsInv(s: State, headers: Headers)
    requires Inv(s)
    ensures var s' := Update(NewCall(s, headers, false, false), |s.made|, Ringing, Active(|s.made|));
            Inv(s') && Inv(Answer(s', |s.made|).0) && Answer(s', |s.made|).1 == Fine
  {
    NewCallKeepsInv(s, headers, false, false, Ringing, Active(|s.made|));
    var s' := Update(NewCall(s, headers, false, false), |s.made|, Ringing, Active(|s.made|));
    hide NewCall, Update, Inv;
    AutoAnswered(s, headers);
    AnswerKeepsInv(s', |s.made|);
  }

  lemma {:induction false} AutoAnswered(s: State, headers: Headers)
    ensures var s' := Update(NewCall(s, headers, false, false), |s.made|, Ringing, Active(|s.made|));
            && |s'.made| == |s.made| + 1
            && s'.made[|s.made|].state == Ringing && !s'.made[|s.made|].callEnded
            && |s.made| in s'.listed
  {
    assert NewCall(s, headers, false, false).listed[|s.listed|] == |s.made|;
  }

  lemma {:induction false} StepKeepsInv(s: State, e: Event)
    requires Inv(s)
    ensures Inv(Step(s, e).0)
    ensures Step(s, e).1 != NotSure
  {
    hide Update, NewCall, Dispatch, Inv, Without, LiveListed;
    match e {
      case PortaudioRinging(h) =>
        NewCallKeepsInv(s, h, false, false, Ringing, if s.active.NoCall? then Active(|s.made|) else s.active);
      case MakeCall(_, conference, h) =>
        NewCallKeepsInv(s, h, true, conference, if conference then Answered else Ringing, Active(|s.made|));
      case RemoveFromHistory(call) =>
        if call < |s.made| && s.made[call].callEnded {
          RemoveKeepsInv(s, call);
        }
      case ClearHistory => ClearKeepsInv(s);
      case _ => DispatchKeepsInv(s, e);
    }
  }

  lemma {:induction false} DispatchKeepsInv(s: State, e: Event)
    requires Inv(s)
    ensures Inv(Dispatch(s, e, Found(s, e)).0)
    ensures Dispatch(s, e, Found(s, e)).1 != NotSure
  {
    hide Update, NewCall, Answer, Handle, Hangup, Inv;
    var q := Found(s, e);
    if q.One? {
      HandleKeepsInv(s, e, q.call);
      HandleIsSure(s, e, q.call);
    } else if q.Nobody? && e.ChannelAnswer? && e.autoAnswer {
      AutoAnswerKeepsInv(s, e.headers);
    }
  }

  lemma {:induction false} HandleIsSure(s: State, e: Event, call: nat)
    requires Inv(s) && call in s.listed && !s.made[call].callEnded
    ensures Handle(s, e, call).1 != NotSure
  {
    hide Inv, Update;
    if e.HangupComplete? {
      HangupKeepsInv(s, call);
    }
  }

  lemma {:induction false} RemoveKeepsInv(s: State, call: nat)
    requires Inv(s) && call < |s.made| && s.made[call].callEnded
    ensures Inv(s.(listed := Without(s.listed, call)))
  {
    WithoutFacts(s.listed, call);
    RemovalKeepsInv(s, Without(s.listed, call));
  }

  lemma {:induction false} ClearKeepsInv(s: State)
    requires Inv(s)
    ensures Inv(s.(listed := LiveListed(s.made, s.listed)))
  {
    LiveListedFacts(s.made, s.listed);
    RemovalKeepsInv(s, LiveListed(s.made, s.listed));
  }

  lemma {:induction false} RunKeepsInv(s: State, events: seq<Event>)
    requires Inv(s)
    ensures Inv(Run(s, events))
    decreases |events|
  {
    hide Inv, Step;
    if events != [] {
      RunKeepsInv(s, events[..|events| - 1]);
      StepKeepsInv(Run(s, events[..|events| - 1]), events[|events| - 1]);
    }
  }

  /** The main result, for every sequence of events: calls count as ended exactly in a terminal state, the active call
      is a listed live call or none, every live call is listed, and the hangup handler never throws. */
  lemma {:induction false} EveryRunIsConsistent(events: seq<Event>)
    ensures Inv(Run(INITIAL, events))
    ensures forall e :: Step(Run(INITIAL, events), e).1 != NotSure
  {
    hide Step;
    RunKeepsInv(INITIAL, events);
    forall e ensures Step(Run(INITIAL, events), e).1 != NotSure {
      StepKeepsInv(Run(INITIAL, events), e);
    }
  }

  // ---------------------------------------------------------------------------------------------
  // When a handler throws
  // ---------------------------------------------------------------------------------------------

  ghost predicate Hit(s: State, i: int, field: Field, id: Id) {
    0 <= i < |s.listed| && s.listed[i] < |s.made| && Matches(s.made[s.listed[i]], field, id)
  }

  /** The query answers whether no, one or more listed live calls match. */
  lemma {:induction false} SingleExactly(s: State, field: Field, id: Id)
    ensures var q := Single(s.made, s.listed, field, id);
            && (q.Nobody? <==> forall i :: !Hit(s, i, field, id))
            && (q.Many? <==> exists i, j :: i < j && Hit(s, i, field, id) && Hit(s, j, field, id))
            && (q.One? ==> forall i :: Hit(s, i, field, id) ==> s.listed[i] == q.call)
    decreases |s.listed|
  {
    hide Matches;
    if s.listed != [] {
      var n := |s.listed| - 1;
      var less := s.(listed := s.listed[..n]);
      SingleExactly(less, field, id);
      assert forall i :: i != n ==> (Hit(less, i, field, id) <==> Hit(s, i, field, id));
      if Hit(s, n, field, id) && !Single(less.made, less.listed, field, id).Nobody? {
        var i :| Hit(less, i, field, id);
        assert Hit(s, i, field, id) && i < n;
      }
    }
  }

  ghost predicate TwoHits(s: State, field: Field, id: Id) {
    exists i, j :: i < j && Hit(s, i, field, id) && Hit(s, j, field, id)
  }

  /** The field and the id by which an event looks for its call. */
  function Wanted(e: Event): (Field, Id)
    requires LooksForCall(e)
  {
    match e
    case CallHeld(id) => (PortaudioId, id)
    case CallResumed(id) => (PortaudioId, id)
    case Outgoing(_, otherLeg) => (LegA, otherLeg)
    case HangupComplete(uuid) => (EitherLeg, uuid)
    case ChannelAnswer(_, headers) => (LegB, headers.uuid)
  }

  predicate LooksForCall(e: Event) {
    e.CallHeld? || e.CallResumed? || e.Outgoing? || e.HangupComplete? || e.ChannelAnswer?
  }

  /** In a reachable state a handler throws exactly for an ambiguous id, or for the answer of a call that is on hold;
      a handler that throws has changed nothing. */
  lemma {:induction false} ThrowsExactly(s: State, e: Event)
    requires Inv(s)
    ensures Step(s, e).1 == Duplicate <==> LooksForCall(e) && TwoHits(s, Wanted(e).0, Wanted(e).1)
    ensures Step(s, e).1 == UnknownState
       <==> e.ChannelAnswer? && Found(s, e).One? && s.made[Found(s, e).call].state == Hold
    ensures Step(s, e).1 != Fine ==> Step(s, e).0 == s
  {
    hide Update, NewCall, Single, LiveAreListed, Hit, Without, LiveListed, Run;
    StepKeepsInv(s, e);
    if LooksForCall(e) {
      SingleExactly(s, Wanted(e).0, Wanted(e).1);
      if e.ChannelAnswer? {
        AutoAnswered(s, e.headers);
      }
    }
  }

  /** The exception that does happen: an answered call that was put on hold is answered once more. */
  lemma {:induction false} AnsweringAHeldCallThrows(h: Headers)
    ensures var answer := ChannelAnswer(false, Headers(h.otherLeg, 0, 0));
            var s := Run(INITIAL, [PortaudioRinging(h), answer, CallHeld(h.portaudioId)]);
            Step(s, answer) == (s, UnknownState)
  {
    var e1, e2, e3 := PortaudioRinging(h), ChannelAnswer(false, Headers(h.otherLeg, 0, 0)), CallHeld(h.portaudioId);
    var s1 := Step(INITIAL, e1).0;
    var r := Record(h.uuid, h.otherLeg, h.portaudioId, false, false, Ringing, false);
    assert s1 == State([r], [0], Active(0));
    OnlyOne(r, LegB, h.otherLeg);
    var s2 := Step(s1, e2).0;
    var r2 := r.(state := Answered);
    assert s2 == State([r2], [0], Active(0));
    OnlyOne(r2, PortaudioId, h.portaudioId);
    var s3 := Step(s2, e3).0;
    var r3 := r.(state := Hold);
    assert s3 == State([r3], [0], NoCall);
    OnlyOne(r3, LegB, h.otherLeg);
    RunThree(e1, e2, e3);
  }

  lemma {:induction false} RunThree(a: Event, b: Event, c: Event)
    ensures Run(INITIAL, [a, b, c]) == Step(Step(Step(INITIAL, a).0, b).0, c).0
  {
    hide Step;
    assert [a, b, c][..2] == [a, b] && [a, b][..1] == [a] && [a][..0] == [];
    assert Run(INITIAL, []) == INITIAL;
    assert Run(INITIAL, [a]) == Step(INITIAL, a).0;
    assert Run(INITIAL, [a, b]) == Step(Run(INITIAL, [a]), b).0;
  }

  lemma {:induction false} OnlyOne(r: Record, field: Field, id: Id)
    requires Matches(r, field, id)
    ensures Single([r], [0], field, id) == One(0)
  {
    assert [0 as nat][..0] == [];
  }

  predicate Waits(s: State, i: int, call: nat) {
    && 0 <= i < |s.listed| && s.listed[i] < |s.made| && s.listed[i] != call
    && s.made[s.listed[i]].state == Ringing && !s.made[s.listed[i]].isOutgoing
  }

  lemma {:induction false} NextRingingIsFirst(s: State, call: nat) returns (i: int)
    ensures var next := NextRinging(s.made, s.listed, call);
            && (next.NoCall? ==> forall j :: !Waits(s, j, call))
            && (next.Active? ==> Waits(s, i, call) && s.listed[i] == next.call && forall j :: j < i ==> !Waits(s, j, call))
    decreases |s.listed|
  {
    i := 0;
    if s.listed != [] && !Waits(s, 0, call) {
      var rest := s.(listed := s.listed[1..]);
      i := NextRingingIsFirst(rest, call);
      i := i + 1;
      assert forall j :: j != 0 ==> (Waits(s, j, call) <==> Waits(rest, j - 1, call));
    }
  }

  /** Whose turn it is after a hangup: another active call stays active; if the active call ends, the first incoming
      call on the list that rings takes over, and it is live. */
  lemma {:induction false} HangupPassesOn(s: State, uuid: Id) returns (i: int)
    requires Inv(s) && Found(s, HangupComplete(uuid)).One?
    ensures var call, s' := Found(s, HangupComplete(uuid)).call, Step(s, HangupComplete(uuid)).0;
            && s'.made[call].callEnded
            && (s.active != Active(call) ==> s'.active == s.active)
            && (s.active == Active(call) && s'.active.NoCall? ==> forall j :: !Waits(s, j, call))
            && (s.active == Active(call) && s'.active.Active?
                ==> Waits(s, i, call) && s.listed[i] == s'.active.call && (forall j :: j < i ==> !Waits(s, j, call))
                    && !s'.made[s'.active.call].callEnded)
  {
    hide LiveAreListed, Single, NextRinging, Waits;
    var call := Found(s, HangupComplete(uuid)).call;
    i := NextRingingIsFirst(s, call);
    HangupKeepsInv(s, call);
  }

  // ---------------------------------------------------------------------------------------------
  // The life of a call
  // ---------------------------------------------------------------------------------------------

  predicate MayBecome(before: CallState, after: CallState, isOutgoing: bool) {
    match before
    case Ringing => after in {Ringing, Answered, HoldRinging, if isOutgoing then Failed else Missed}
    case HoldRinging => after in {HoldRinging, Answered, Hold, Failed}
    case Answered => after in {Answered, Hold, Ended}
    case Hold => after in {Hold, Answered, Ended}
    case _ => after == before
  }

  /** One event takes an existing call along an edge of the state graph and keeps what identifies it. */
  predicate Evolves(r: Record, r': Record) {
    && MayBecome(r.state, r'.state, r.isOutgoing)
    && r'.legA == r.legA && r'.portaudioId == r.portaudioId
    && r'.isOutgoing == r.isOutgoing && r'.isConference == r.isConference
    && (r'.legB != r.legB ==> r.isOutgoing && r'.state == r.state && !r.callEnded)
    && (r.callEnded ==> r' == r)
  }

  /** What one event may change: at most one existing call, along an edge, and a new call starts live. */
  ghost predicate OneEvolves(s: State, s': State) {
    && |s.made| <= |s'.made| <= |s.made| + 1
    && (forall i :: 0 <= i < |s.made| ==> Evolves(s.made[i], s'.made[i]))
    && (forall i, j :: 0 <= i < j < |s.made| && s'.made[i] != s.made[i] ==> s'.made[j] == s.made[j])
    && (|s'.made| > |s.made| ==> s'.made[|s.made|].state in {Ringing, Answered}
                                 && s'.made[..|s.made|] == s.made)
  }

  lemma {:induction false} StepEvolves(s: State, e: Event)
    requires Inv(s)
    ensures OneEvolves(s, Step(s, e).0)
  {
    hide LiveAreListed, Single, Without, LiveListed, Found, NextRinging;
    var q := Found(s, e);
    match e {
      case PortaudioRinging(h) =>
      case MakeCall(_, conference, h) =>
      case RemoveFromHistory(call) =>
      case ClearHistory =>
      case _ => DispatchEvolves(s, e);
    }
  }

  lemma {:induction false} DispatchEvolves(s: State, e: Event)
    requires Inv(s) && LooksForCall(e)
    ensures OneEvolves(s, Dispatch(s, e, Found(s, e)).0)
  {
    hide LiveAreListed, Single, NextRinging, Handle, OneEvolves;
    NewEvolves(s, e);
    var q := Found(s, e);
    if q.One? {
      HandleEvolves(s, e, q.call);
    }
  }

  lemma {:induction false} NewEvolves(s: State, e: Event)
    requires Inv(s)
    ensures OneEvolves(s, Dispatch(s, e, Nobody).0) && OneEvolves(s, s)
  {
    hide LiveAreListed;
  }

  lemma {:induction false} HandleEvolves(s: State, e: Event, call: nat)
    requires Inv(s) && LooksForCall(e) && call in s.listed && !s.made[call].callEnded
    ensures OneEvolves(s, Handle(s, e, call).0)
  {
    hide LiveAreListed, NextRinging;
  }

  /** A call that has ended never changes again, whatever happens later. */
  lemma {:induction false} EndedForGood(events: seq<Event>, later: seq<Event>, call: nat)
    requires call < |Run(INITIAL, events).made| && Run(INITIAL, events).made[call].callEnded
    ensures var s := Run(INITIAL, events + later);
            call < |s.made| && s.made[call] == Run(INITIAL, events).made[call]
    decreases |later|
  {
    hide Step;
    if later == [] {
      assert events + later == events;
    } else {
      var n := |later| - 1;
      EndedForGood(events, later[..n], call);
      var s := Run(INITIAL, events + later[..n]);
      assert (events + later)[..|events| + n] == events + later[..n];
      RunKeepsInv(INITIAL, events + later[..n]);
      StepEvolves(s, later[n]);
      assert Evolves(s.made[call], Step(s, later[n]).0.made[call]);
    }
  }

  /** The call was connected at some time. */
  predicate Engaged(state: CallState) {
    state.Answered? || state.Hold? || state.Ended?
  }

  predicate EngagedNow(s: State, call: nat) {
    call < |s.made| && s.made[call].state in {Answered, Hold}
  }

  /** Now or after some earlier event, the call was answered or on hold. */
  predicate WasEngaged(events: seq<Event>, call: nat) {
    EngagedNow(Run(INITIAL, events), call) || (events != [] && WasEngaged(events[..|events| - 1], call))
  }

  /** The final state tells the truth about the past: a call that has ended shows Ended exactly when it was answered or
      held at some time, Missed or Failed when it never was; and only incoming calls are missed. */
  lemma {:induction false} EndTellsTheTruth(events: seq<Event>, call: nat)
    requires call < |Run(INITIAL, events).made| && Run(INITIAL, events).made[call].callEnded
    ensures var r := Run(INITIAL, events).made[call];
            && (r.state == Ended <==> WasEngaged(events, call))
            && (r.state in {Missed, Failed} <==> !WasEngaged(events, call))
            && (r.state == Missed ==> !r.isOutgoing)
  {
    hide Run, Step;
    EngagedExactly(events, call);
    RunKeepsInv(INITIAL, events);
  }

  lemma {:induction false} EngagedExactly(events: seq<Event>, call: nat)
    requires call < |Run(INITIAL, events).made|
    ensures var r := Run(INITIAL, events).made[call];
            && (Engaged(r.state) <==> WasEngaged(events, call))
            && r.state !in {None, Busy}
            && (r.state == Missed ==> !r.isOutgoing)
    decreases |events|
  {
    hide Step;
    if events != [] {
      var n := |events| - 1;
      var s, s' := Run(INITIAL, events[..n]), Run(INITIAL, events);
      RunKeepsInv(INITIAL, events[..n]);
      StepEvolves(s, events[n]);
      if call < |s.made| {
        EngagedExactly(events[..n], call);
        assert Evolves(s.made[call], s'.made[call]);
      } else {
        NotYetEngaged(events[..n], call);
      }
    }
  }

  lemma {:induction false} NotYetEngaged(events: seq<Event>, call: nat)
    requires call >= |Run(INITIAL, events).made|
    ensures !WasEngaged(events, call)
    decreases |events|
  {
    hide Step;
    if events != [] {
      var n := |events| - 1;
      RunKeepsInv(INITIAL, events[..n]);
      StepEvolves(Run(INITIAL, events[..n]), events[n]);
      NotYetEngaged(events[..n], call);
    }
  }

  // ---------------------------------------------------------------------------------------------
  // The call objects, changed in place
  // ---------------------------------------------------------------------------------------------

  class Call {
    var legA: Id
    var legB: Id
    var portaudioId: int
    var isOutgoing: bool
    var isConference: bool
    var state: CallState
    var callEnded: bool
    ghost const place: nat

    function Value(): Record
      reads this
    {
      Record(legA, legB, portaudioId, isOutgoing, isConference, state, callEnded)
    }

    constructor (h: Headers, outgoing: bool, conference: bool, ghost place: nat)
      ensures Value() == Record(h.uuid, h.otherLeg, h.portaudioId, outgoing, conference, None, false)
      ensures this.place == place
    {
      legA, legB, portaudioId := h.uuid, h.otherLeg, h.portaudioId;
      isOutgoing, isConference, state, callEnded := outgoing, conference, None, false;
      this.place := place;
    }
  }

  class CallList {
    var calls: seq<Call>
    var activeCall: Call?
    ghost var made: seq<Call>
    ghost var view: State

    ghost predicate Valid()
      reads this, made
    {
      ObjectsValid() && Places(calls, view.listed, made) && ActiveValid(activeCall, view.active)
    }

    ghost predicate ObjectsValid()
      reads this, made
    {
      && |view.made| == |made|
      && (forall i :: 0 <= i < |made| ==> made[i].place == i && made[i].Value() == view.made[i])
    }

    static ghost predicate Places(calls: seq<Call>, listed: seq<nat>, made: seq<Call>) {
      && |listed| == |calls|
      && (forall i :: 0 <= i < |calls| ==> listed[i] < |made| && made[listed[i]] == calls[i])
    }

    ghost predicate ActiveValid(c: Call?, active: ActiveCall)
      reads this
    {
      if c == null then active.NoCall? else active.Active? && Is(c, active.call)
    }

    /** The object is the one made at this place. */
    ghost predicate Is(c: Call, place: nat)
      reads this
    {
      place < |made| && made[place] == c
    }

    constructor ()
      ensures Valid() && view == INITIAL
    {
      calls, activeCall, made, view := [], null, [], INITIAL;
    }

    /** The query behind most events: the live call with this id, and whether there was more than one. */
    method FindSingle(field: Field, id: Id) returns (found: Call?, many: bool)
      requires Valid()
      ensures var q := Single(view.made, view.listed, field, id);
              && (many <==> q.Many?) && (found != null <==> q.One?)
              && (found != null ==> Is(found, q.call))
    {
      found, many := null, false;
      ghost var listed := view.listed;
      for i := 0 to |calls|
        invariant var q := Single(view.made, listed[..i], field, id);
                  && (many <==> q.Many?) && (found != null <==> q.One?)
                  && (found != null ==> Is(found, q.call))
      {
        assert listed[..i + 1][..i] == listed[..i];
        var c := calls[i];
        assert Is(c, listed[i]);
        if Matches(c.Value(), field, id) {
          if found == null && !many {
            found := c;
          } else {
            found, many := null, true;
          }
        }
      }
      assert listed[..|calls|] == listed;
    }

    /** UpdateCallState; that it skips writing a value already there only saves a notification. */
    method UpdateCallState(call: Call, newState: CallState, newActive: Call?, ghost newView: ActiveCall)
      requires Valid() && Is(call, call.place)
      requires ActiveValid(newActive, newView)
      modifies this, call
      ensures Valid() && view == Update(old(view), call.place, newState, newView)
      ensures made == old(made)
    {
      hide Places, Terminal;
      var endsNow := Terminal(newState) && !call.callEnded;
      call.state := newState;
      activeCall := newActive;
      if endsNow {
        call.callEnded := true;
      }
      view := Update(view, call.place, newState, newView);
    }

    /** A new call object, added to the list. */
    method Add(h: Headers, outgoing: bool, conference: bool) returns (call: Call)
      requires Valid()
      modifies this
      ensures Valid() && view == NewCall(old(view), h, outgoing, conference)
      ensures fresh(call) && made == old(made) + [call] && call.place == |old(made)|
    {
      call := new Call(h, outgoing, conference, |made|);
      view := NewCall(view, h, outgoing, conference);
      made := made + [call];
      calls := calls + [call];
    }

    ghost function ActiveView(c: Call?): ActiveCall {
      if c == null then NoCall else Active(c.place)
    }

    method Ringing(h: Headers)
      requires Valid()
      modifies this, made
      ensures Valid() && view == Step(old(view), PortaudioRinging(h)).0
    {
      var found, many := FindSingle(LegA, h.uuid);
      if found == null && !many {
        var call := Add(h, false, false);
        var newActive := if activeCall == null then call else activeCall;
        UpdateCallState(call, CallState.Ringing, newActive, ActiveView(newActive));
      }
    }

    method MakeCallEvent(fail: bool, conference: bool, h: Headers)
      requires Valid()
      modifies this, made
      ensures Valid() && view == Step(old(view), MakeCall(fail, conference, h)).0
    {
      if !fail {
        var call := Add(h, true, conference);
        UpdateCallState(call, if conference then Answered else CallState.Ringing, call, ActiveView(call));
      }
    }

    method Held(portaudioId: int) returns (o: Outcome)
      requires Valid()
      modifies this, made
      ensures Valid() && (view, o) == Step(old(view), CallHeld(portaudioId))
    {
      var call, many := FindSingle(Field.PortaudioId, portaudioId);
      o := if many then Duplicate else Fine;
      if call != null {
        var newActive := if call == activeCall then null else activeCall;
        UpdateCallState(call, if call.state == CallState.Ringing then HoldRinging else Hold,
                        newActive, ActiveView(newActive));
      }
    }

    method Resumed(portaudioId: int) returns (o: Outcome)
      requires Valid()
      modifies this, made
      ensures Valid() && (view, o) == Step(old(view), CallResumed(portaudioId))
    {
      var call, many := FindSingle(Field.PortaudioId, portaudioId);
      o := if many then Duplicate else Fine;
      if call != null {
        UpdateCallState(call, Answered, call, ActiveView(call));
      }
    }

    method OutgoingEvent(uuid: Id, otherLeg: Id) returns (o: Outcome)
      requires Valid()
      modifies this, made
      ensures Valid() && (view, o) == Step(old(view), Outgoing(uuid, otherLeg))
    {
      var call, many := FindSingle(LegA, otherLeg);
      o := if many then Duplicate else Fine;
      if call != null && call.isOutgoing {
        call.legB := uuid;
        view := view.(made := view.made[call.place := call.Value()]);
      }
    }

    /** The next incoming call that rings. */
    method FindRinging(call: Call) returns (next: Call?)
      requires Valid() && Is(call, call.place)
      ensures var a := NextRinging(view.made, view.listed, call.place);
              if next == null then a.NoCall? else a.Active? && Is(next, a.call)
    {
      for i := 0 to |calls|
        invariant NextRinging(view.made, view.listed, call.place) == NextRinging(view.made, view.listed[i..], call.place)
      {
        var c := calls[i];
        assert Is(c, view.listed[i]);
        if c.state == CallState.Ringing && !c.isOutgoing && c != call {
          return c;
        }
      }
      next := null;
    }

    method HangupComplete(uuid: Id) returns (o: Outcome)
      requires Valid()
      modifies this, made
      ensures Valid() && (view, o) == Step(old(view), Event.HangupComplete(uuid))
    {
      var call, many := FindSingle(EitherLeg, uuid);
      o := if many then Duplicate else Fine;
      if call == null {
        return;
      }
      var newState := None;
      if call.state != Answered && call.state != Missed && call.state != Hold {
        newState := if !call.isOutgoing && call.state == CallState.Ringing then Missed else Failed;
      } else if call.state == Answered || call.state == Hold {
        newState := Ended;
      }
      if newState == None {
        return NotSure;
      }
      var newActive := activeCall;
      if activeCall == call {
        newActive := FindRinging(call);
      }
      UpdateCallState(call, newState, newActive, ActiveView(newActive));
    }

    method ChannelAnswerEvent(autoAnswer: bool, h: Headers) returns (o: Outcome)
      requires Valid()
      modifies this, made
      ensures Valid() && (view, o) == Step(old(view), ChannelAnswer(autoAnswer, h))
    {
      var call, many := FindSingle(LegB, h.uuid);
      if many {
        return Duplicate;
      }
      o := Fine;
      if call == null {
        if !autoAnswer {
          return;
        }
        call := Add(h, false, false);
        UpdateCallState(call, CallState.Ringing, call, ActiveView(call));
      }
      if call.state == Answered {
        return;
      }
      if call.state == CallState.Ringing || (call.state == HoldRinging && !call.isOutgoing) {
        var newActive := if call.isOutgoing || call.isConference then activeCall else call;
        UpdateCallState(call, Answered, newActive, ActiveView(newActive));
      } else if call.state == HoldRinging {
        UpdateCallState(call, Hold, activeCall, ActiveView(activeCall));
      } else {
        o := UnknownState;
      }
    }

    /** Takes an ended call off the list. */
    method RemoveCallFromHistory(call: Call)
      requires Valid() && Is(call, call.place)
      modifies this
      ensures Valid() && view == Step(old(view), RemoveFromHistory(call.place)).0
      ensures made == old(made)
    {
      if !call.callEnded {
        return;
      }
      hide Without;
      var i := 0;
      while i < |calls| && calls[i] != call
        invariant i <= |calls|
        invariant forall j :: 0 <= j < i ==> view.listed[j] != call.place
      {
        assert Is(calls[i], view.listed[i]);
        i := i + 1;
      }
      WithoutIs(view.listed, call.place, i);
      if i < |calls| {
        assert Is(calls[i], view.listed[i]);
        calls := calls[..i] + calls[i + 1..];
      }
      view := view.(listed := Without(view.listed, call.place));
    }

    method ClearCallsFromHistory()
      requires Valid()
      modifies this
      ensures Valid() && view == Step(old(view), ClearHistory).0
    {
      hide Valid, Without, LiveListed;
      var all := calls;
      ghost var v, made0 := view, made;
      ListedAre();
      for k := 0 to |all|
        invariant Valid() && made == made0 && view.made == v.made && view.active == v.active
        invariant view.listed == LiveListed(v.made, v.listed[..k]) + v.listed[k..]
      {
        ClearNext(v.made, v.listed, k);
        ValueAt(all[k]);
        RemoveCallFromHistory(all[k]);
      }
      assert v.listed[..|all|] == v.listed;
    }

    lemma {:induction false} ListedAre()
      requires Valid()
      ensures |calls| == |view.listed| && forall i :: 0 <= i < |calls| ==> Is(calls[i], view.listed[i])
      ensures forall i :: 0 <= i < |calls| ==> calls[i].place == view.listed[i]
      ensures |view.made| == |made| && LiveListed(view.made, []) == []
    {
      assert forall i :: 0 <= i < |calls| ==> Is(calls[i], view.listed[i]);
    }

    lemma {:induction false} ValueAt(c: Call)
      requires Valid() && Is(c, c.place)
      ensures |view.made| == |made| && view.made[c.place] == c.Value()
    {
    }
  }

  /** Clearing the list from the front: the part done holds live calls only. */
  lemma {:induction false} ClearNext(made: seq<Record>, listed: seq<nat>, k: nat)
    requires k < |listed| && listed[k] < |made|
    ensures var before, c := LiveListed(made, listed[..k]) + listed[k..], listed[k];
            (if made[c].callEnded then Without(before, c) else before)
            == LiveListed(made, listed[..k + 1]) + listed[k + 1..]
  {
    var done, c := LiveListed(made, listed[..k]), listed[k];
    assert listed[..k + 1][..k] == listed[..k];
    assert listed[k..] == [c] + listed[k + 1..];
    OnlyLive(made, listed[..k]);
    if made[c].callEnded {
      WithoutMiddle(done, c, listed[k + 1..]);
      assert done + listed[k..] == done + [c] + listed[k + 1..];
    }
  }

  lemma {:induction false} OnlyLive(made: seq<Record>, listed: seq<nat>)
    ensures forall c :: c in LiveListed(made, listed) ==> !(c < |made| && made[c].callEnded)
    decreases |listed|
  {
    if listed != [] {
      OnlyLive(made, listed[..|listed| - 1]);
    }
  }

  lemma {:induction false} WithoutIs(listed: seq<nat>, c: nat, i: nat)
    requires i <= |listed| && c !in listed[..i]
    ensures i == |listed| ==> Without(listed, c) == listed
    ensures i < |listed| && listed[i] == c ==> Without(listed, c) == listed[..i] + listed[i + 1..]
  {
    if i == |listed| {
      WithoutNone(listed, c);
    } else if listed[i] == c {
      WithoutMiddle(listed[..i], c, listed[i + 1..]);
      assert listed == listed[..i] + [c] + listed[i + 1..];
    }
  }

  lemma {:induction false} WithoutNone(listed: seq<nat>, c: nat)
    requires c !in listed
    ensures Without(listed, c) == listed
    decreases |listed|
  {
    if listed != [] {
      WithoutNone(listed[1..], c);
    }
  }

  lemma {:induction false} WithoutMiddle(a: seq<nat>, c: nat, b: seq<nat>)
    requires c !in a
    ensures Without(a + [c] + b, c) == a + b
    decreases |a|
  {
    if a != [] {
      WithoutMiddle(a[1..], c, b);
      assert (a + [c] + b)[1..] == a[1..] + [c] + b;
    }
  }
}
