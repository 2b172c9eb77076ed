/** What each event does to its call, and to which call is active, in any reachable state. */
module CallEvents {
  import opened Calls

  /** What each event compares: held and resumed calls by port audio id, and the others by one leg or either. */
  lemma {:induction false} MatchesExactly(r: Record, id: Id)
    ensures Matches(r, LegA, id) <==> !r.callEnded && id == r.legA
    ensures Matches(r, LegB, id) <==> !r.callEnded && id == r.legB
    ensures Matches(r, EitherLeg, id) <==> !r.callEnded && (id == r.legA || id == r.legB)
    ensures Matches(r, PortaudioId, id) <==> !r.callEnded && id == r.portaudioId
  {
  }

  /** The call that an event finds by one of its ids: the one listed live call that has it. */
  ghost predicate Finds(s: State, field: Field, id: Id, call: nat) {
    && call in s.listed && call < |s.made| && Matches(s.made[call], field, id)
    && forall i, j :: Hit(s, i, field, id) && Hit(s, j, field, id) ==> i == j
  }

  lemma {:induction false} FindsIt(s: State, field: Field, id: Id, call: nat)
    requires Finds(s, field, id, call)
    ensures Single(s.made, s.listed, field, id) == One(call)
  {
    hide Single;
    SingleExactly(s, field, id);
    var i :| 0 <= i < |s.listed| && s.listed[i] == call;
    assert Hit(s, i, field, id);
  }

  /** Nobody listed and live has the id. */
  ghost predicate NoneFound(s: State, field: Field, id: Id) {
    forall i :: !Hit(s, i, field, id)
  }

  lemma {:induction false} FindsNone(s: State, field: Field, id: Id)
    requires NoneFound(s, field, id)
    ensures Single(s.made, s.listed, field, id) == Nobody
  {
    hide Single;
    SingleExactly(s, field, id);
  }

  /** A first ring makes an incoming call that rings; it is active if no call was. */
  lemma {:induction false} RingingIsIncoming(s: State, h: Headers)
    requires NoneFound(s, LegA, h.uuid)
    ensures var s', o := Step(s, PortaudioRinging(h)).0, Step(s, PortaudioRinging(h)).1;
            && o == Fine
            && s'.made == s.made + [Record(h.uuid, h.otherLeg, h.portaudioId, false, false, Ringing, false)]
            && s'.listed == s.listed + [|s.made|]
            && s'.active == if s.active == NoCall then Active(|s.made|) else s.active
  {
    FindsNone(s, LegA, h.uuid);
  }

  /** A made call is outgoing and active at once; it rings, or is answered if it is the conference. */
  lemma {:induction false} MadeCallIsOutgoing(s: State, conference: bool, h: Headers)
    ensures var s' := Step(s, MakeCall(false, conference, h)).0;
            && s'.made == s.made + [Record(h.uuid, h.otherLeg, h.portaudioId, true, conference,
                                           if conference then Answered else Ringing, false)]
            && s'.listed == s.listed + [|s.made|] && s'.active == Active(|s.made|)
    ensures Step(s, MakeCall(true, conference, h)) == (s, Fine)
  {
  }

  /** A call put on hold: a ringing one rings on; none is active if it was. */
  lemma {:induction false} HeldCallIsOnHold(s: State, id: int, call: nat)
    requires Inv(s) && Finds(s, PortaudioId, id, call)
    ensures var s', r := Step(s, CallHeld(id)).0, s.made[call];
            && s'.made == s.made[call := r.(state := if r.state == Ringing then HoldRinging else Hold)]
            && s'.listed == s.listed && s'.active == if s.active == Active(call) then NoCall else s.active
  {
    hide Single;
    FindsIt(s, PortaudioId, id, call);
  }

  /** A resumed call is answered and active. */
  lemma {:induction false} ResumedCallIsAnswered(s: State, id: int, call: nat)
    requires Inv(s) && Finds(s, PortaudioId, id, call)
    ensures var s' := Step(s, CallResumed(id)).0;
            && s'.made == s.made[call := s.made[call].(state := Answered)]
            && s'.listed == s.listed && s'.active == Active(call)
  {
    hide Single;
    FindsIt(s, PortaudioId, id, call);
  }

  /** The other leg of an outgoing call becomes known; an incoming one keeps its own. */
  lemma {:induction false} OutgoingCallGetsLeg(s: State, uuid: Id, otherLeg: Id, call: nat)
    requires Inv(s) && Finds(s, LegA, otherLeg, call)
    ensures var s', r := Step(s, Outgoing(uuid, otherLeg)).0, s.made[call];
            && s'.made == s.made[call := if r.isOutgoing then r.(legB := uuid) else r]
            && s'.listed == s.listed && s'.active == s.active
  {
    hide Single;
    FindsIt(s, LegA, otherLeg, call);
  }

  /** An answered call: one that rings is answered, and active if it is incoming; an outgoing one that rings on hold stays
      on hold; an answered one stays as it is. */
  lemma {:induction false} AnsweredCallIsConnected(s: State, auto: bool, h: Headers, call: nat)
    requires Inv(s) && Finds(s, LegB, h.uuid, call) && s.made[call].state != Hold
    ensures var s', r := Step(s, ChannelAnswer(auto, h)).0, s.made[call];
            var onHold := r.state == HoldRinging && r.isOutgoing;
            && Step(s, ChannelAnswer(auto, h)).1 == Fine
            && s'.made == s.made[call := r.(state := if onHold then Hold else Answered)]
            && s'.listed == s.listed
            && s'.active == if r.state == Answered || r.isOutgoing || r.isConference then s.active else Active(call)
  {
    hide Single;
    FindsIt(s, LegB, h.uuid, call);
    assert s.made[call := s.made[call]] == s.made;
  }

  /** An answer nobody waits for is dropped, or makes an incoming call that is answered and active. */
  lemma {:induction false} AutoAnsweredCallIsNew(s: State, auto: bool, h: Headers)
    requires NoneFound(s, LegB, h.uuid)
    ensures var s' := Step(s, ChannelAnswer(auto, h)).0;
            if auto then
              && s'.made == s.made + [Record(h.uuid, h.otherLeg, h.portaudioId, false, false, Answered, false)]
              && s'.listed == s.listed + [|s.made|] && s'.active == Active(|s.made|)
            else s' == s
  {
    hide Single;
    FindsNone(s, LegB, h.uuid);
    var r := Record(h.uuid, h.otherLeg, h.portaudioId, false, false, Ringing, false);
    assert (s.made + [r])[|s.made| := r.(state := Answered)] == s.made + [r.(state := Answered)];
  }

  /** A hangup ends its call: missed if it rang and was incoming, ended if it was connected or on hold, failed otherwise. */
  lemma {:induction false} HungUpCallHasEnded(s: State, uuid: Id, call: nat)
    requires Inv(s) && Finds(s, EitherLeg, uuid, call)
    ensures var s', r := Step(s, HangupComplete(uuid)).0, s.made[call];
            var end := if r.state in {Answered, Hold} then Ended
                       else if r.state == Ringing && !r.isOutgoing then Missed else Failed;
            && s'.made == s.made[call := r.(state := end, callEnded := true)]
            && s'.listed == s.listed
  {
    hide Single, NextRinging;
    FindsIt(s, EitherLeg, uuid, call);
  }

  /** The history is cleared of ended calls only, one by one or all at once. */
  lemma {:induction false} HistoryIsCleared(s: State, call: nat)
    requires Inv(s)
    ensures var s' := Step(s, RemoveFromHistory(call)).0;
            && s'.made == s.made && s'.active == s.active
            && forall c :: c in s'.listed <==> c in s.listed && !(c == call && s.made[c].callEnded)
    ensures var s' := Step(s, ClearHistory).0;
            && s'.made == s.made && s'.active == s.active
            && forall c :: c in s'.listed <==> c in s.listed && !s.made[c].callEnded
  {
    WithoutFacts(s.listed, call);
    LiveListedFacts(s.made, s.listed);
  }
}
