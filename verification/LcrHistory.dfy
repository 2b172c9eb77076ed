/** What a run of the locking protocol publishes, told from the turns alone: which thread loaded which database, whose
    swap was the last, and what became of every database. */
module LcrHistory {
  import opened LcrLocking

  /** The turn takes effect, as this action of this thread. */
  predicate Takes(s: State, turn: Turn, action: Action) {
    turn.action == action && Enabled(s, turn.thread, action)
  }

  /** Databases are numbered in the order of their loading; database 0 was there before. */
  function Loads(threads: nat, turns: seq<Turn>): nat {
    if turns == [] then 0
    else
      var n := |turns| - 1;
      Loads(threads, turns[..n]) + (if Takes(Run(Initial(threads), turns[..n]), turns[n], Load) then 1 else 0)
  }

  /** The database that the thread loaded last, 0 if it never loaded one. */
  function LoadedBy(threads: nat, turns: seq<Turn>, t: nat): Db {
    if turns == [] then 0
    else
      var n := |turns| - 1;
      if Takes(Run(Initial(threads), turns[..n]), turns[n], Load) && turns[n].thread == t
      then Loads(threads, turns[..n]) + 1
      else LoadedBy(threads, turns[..n], t)
  }

  /** The database that the thread of the last swap had loaded; the first one if there was no swap. */
  function LastSwappedIn(threads: nat, turns: seq<Turn>): Db {
    if turns == [] then 0
    else
      var n := |turns| - 1;
      if Takes(Run(Initial(threads), turns[..n]), turns[n], Swap) then LoadedBy(threads, turns[..n], turns[n].thread)
      else LastSwappedIn(threads, turns[..n])
  }

  /** The databases whose threads took the action while they had them. */
  function Had(threads: nat, turns: seq<Turn>, action: Action): set<Db> {
    if turns == [] then {}
    else
      var n := |turns| - 1;
      var before := Had(threads, turns[..n], action);
      if Takes(Run(Initial(threads), turns[..n]), turns[n], action)
      then before + {LoadedBy(threads, turns[..n], turns[n].thread)} else before
  }

  /** A reload's own database, from loading to swapping. */
  function InHand(pc: Pc): Option<Db> {
    match pc
    case Loaded(db) => Some(db)
    case ReplacerEntered(db) => Some(db)
    case ReplacerRead(db, _) => Some(db)
    case _ => None
  }

  ghost predicate Told(threads: nat, turns: seq<Turn>, s: State) {
    && s.created == Loads(threads, turns) + 1
    && s.current == Some(LastSwappedIn(threads, turns))
    && (forall t :: 0 <= t < |s.pcs| && InHand(s.pcs[t]).Some? ==> InHand(s.pcs[t]) == Some(LoadedBy(threads, turns, t)))
  }

  lemma {:induction false} RunIsTold(threads: nat, turns: seq<Turn>)
    ensures Told(threads, turns, Run(Initial(threads), turns))
    decreases |turns|
  {
    if turns != [] {
      var n := |turns| - 1;
      RunIsTold(threads, turns[..n]);
      InitialInv(threads);
      RunKeepsInv(Initial(threads), turns[..n]);
      var s := Run(Initial(threads), turns[..n]);
      if Enabled(s, turns[n].thread, turns[n].action) {
        StepIsTold(threads, turns, s);
      }
    }
  }

  lemma {:induction false} StepIsTold(threads: nat, turns: seq<Turn>, s: State)
    requires turns != [] && s == Run(Initial(threads), turns[..|turns| - 1])
    requires Told(threads, turns[..|turns| - 1], s) && Inv(s)
    requires Enabled(s, turns[|turns| - 1].thread, turns[|turns| - 1].action)
    ensures Told(threads, turns, Step(s, turns[|turns| - 1].thread, turns[|turns| - 1].action))
  {
    hide Run, Apart, Covered, ReadersMatch, WritersMatch;
    SomethingIsPublished(s);
  }

  /** Whatever thread reads or swaps: the published database is the one that the last swap brought in, and so is the one
      that a reader locks next. */
  lemma {:induction false} ReloadsArePublished(threads: nat, turns: seq<Turn>, t: nat)
    ensures var s := Run(Initial(threads), turns);
            && s.current == Some(LastSwappedIn(threads, turns))
            && (Enabled(s, t, LockForReading) ==> s.pcs[t].db == LastSwappedIn(threads, turns))
  {
    hide Run;
    RunIsTold(threads, turns);
    OnlyCurrentIsAcquired(threads, turns, t);
  }

  /** What a thread swapped in stays published, and is what readers lock, until another swap. */
  lemma {:induction false} StaysPublished(threads: nat, before: seq<Turn>, t: nat, later: seq<Turn>)
    requires Enabled(Run(Initial(threads), before), t, Swap)
    requires var all := before + [Turn(t, Swap)] + later;
             forall n :: |before| < n < |all| ==> !Takes(Run(Initial(threads), all[..n]), all[n], Swap)
    ensures LastSwappedIn(threads, before + [Turn(t, Swap)] + later) == LoadedBy(threads, before, t)
    decreases |later|
  {
    hide Run;
    var all := before + [Turn(t, Swap)] + later;
    if later == [] {
      assert all[..|before|] == before && all[|before|] == Turn(t, Swap);
    } else {
      var n := |all| - 1;
      var less := before + [Turn(t, Swap)] + later[..|later| - 1];
      assert all[..n] == less;
      forall k | |before| < k < |less| ensures !Takes(Run(Initial(threads), less[..k]), less[k], Swap) {
        assert less[..k] == all[..k] && less[k] == all[k];
      }
      StaysPublished(threads, before, t, later[..|later| - 1]);
    }
  }

  /** At rest: the database of the last swap is published, and every other one that was ever loaded is destroyed. */
  lemma {:induction false} AtRestTheLastSwapStands(threads: nat, turns: seq<Turn>)
    requires AtRest(Run(Initial(threads), turns))
    ensures var s := Run(Initial(threads), turns);
            && s.current == Some(LastSwappedIn(threads, turns))
            && forall db :: 0 <= db <= Loads(threads, turns) ==>
                 s.destroyed[db] == if db == LastSwappedIn(threads, turns) then 0 else 1
  {
    hide Run;
    RunIsTold(threads, turns);
    AtRestAllReplacedAreDestroyed(threads, turns);
  }

  // ---------------------------------------------------------------------------------------------
  // The fate of a database
  // ---------------------------------------------------------------------------------------------

  /** The databases that entered the replacer, those whose loading failed, and those that were swapped in. */
  datatype Fate = Fate(entered: set<Db>, failed: set<Db>, swapped: set<Db>)

  function FateOf(threads: nat, turns: seq<Turn>): Fate {
    Fate(Had(threads, turns, EnterReplacer), Had(threads, turns, FailLoad), Had(threads, turns, Swap))
  }

  /** Published at some time, or given up because its loading failed. */
  predicate Done(f: Fate, db: Db) {
    db == 0 || db in f.swapped || db in f.failed
  }

  /** The databases that a thread is going to destroy. */
  function Old(pc: Pc): Option<Db> {
    match pc
    case ReplacerRead(_, o) => o
    case ReplacerSwapped(o) => o
    case Destroying(o) => o
    case HasWriteLock(db) => Some(db)
    case _ => None
  }

  ghost predicate Known(s: State, f: Fate) {
    && (forall db :: db in f.entered || db in f.failed || db in f.swapped ==> 0 < db < s.created)
    && f.entered !! f.failed && 0 < s.created
  }

  predicate HandKnown(pc: Pc, created: nat, f: Fate) {
    InHand(pc).Some? ==>
      var db := InHand(pc).value;
      db !in f.failed && db !in f.swapped && 0 < db < created && (db in f.entered <==> !pc.Loaded?)
  }

  predicate OldDone(pc: Pc, f: Fate) {
    Old(pc).Some? ==> Done(f, Old(pc).value)
  }

  ghost predicate Fates(s: State, f: Fate) {
    && Known(s, f)
    && (forall t :: 0 <= t < |s.pcs| ==> HandKnown(s.pcs[t], s.created, f) && OldDone(s.pcs[t], f))
    && (s.current.Some? ==> Done(f, s.current.value))
    && (forall db :: s.destroyed[db] > 0 ==> Done(f, db))
  }

  /** What an action adds to the fates. */
  function Add(f: Fate, pc: Pc, a: Action): Fate {
    if InHand(pc).None? then f
    else
      var db := InHand(pc).value;
      match a
      case EnterReplacer => f.(entered := f.entered + {db})
      case FailLoad => f.(failed := f.failed + {db})
      case Swap => f.(swapped := f.swapped + {db})
      case _ => f
  }

  lemma {:induction false} RunKeepsFates(threads: nat, turns: seq<Turn>)
    ensures Fates(Run(Initial(threads), turns), FateOf(threads, turns))
    decreases |turns|
  {
    hide Step, Enabled, Fates, Inv, Told;
    if turns == [] {
      assert Fates(Initial(threads), FateOf(threads, [])) by { NoFatesYet(threads); }
    } else {
      var n := |turns| - 1;
      RunKeepsFates(threads, turns[..n]);
      RunIsTold(threads, turns[..n]);
      InitialInv(threads);
      RunKeepsInv(Initial(threads), turns[..n]);
      if Enabled(Run(Initial(threads), turns[..n]), turns[n].thread, turns[n].action) {
        StepKeepsFates(threads, turns, Run(Initial(threads), turns[..n]));
      } else {
        IdleKeepsFates(threads, turns, Run(Initial(threads), turns[..n]));
      }
    }
  }

  lemma {:induction false} NoFatesYet(threads: nat)
    ensures Fates(Initial(threads), FateOf(threads, []))
  {
  }

  lemma {:induction false} IdleKeepsFates(threads: nat, turns: seq<Turn>, s: State)
    requires turns != [] && s == Run(Initial(threads), turns[..|turns| - 1])
    requires Fates(s, FateOf(threads, turns[..|turns| - 1]))
    requires !Enabled(s, turns[|turns| - 1].thread, turns[|turns| - 1].action)
    ensures Fates(s, FateOf(threads, turns))
  {
    hide Run;
  }

  /** What the action of the last turn adds. */
  lemma {:induction false} HadGrows(threads: nat, turns: seq<Turn>)
    requires turns != []
    requires var s := Run(Initial(threads), turns[..|turns| - 1]);
             Enabled(s, turns[|turns| - 1].thread, turns[|turns| - 1].action)
    ensures var before, turn := turns[..|turns| - 1], turns[|turns| - 1];
            forall a :: Had(threads, turns, a)
                == Had(threads, before, a) + if turn.action == a then {LoadedBy(threads, before, turn.thread)} else {}
  {
    hide Run, Enabled;
  }

  lemma {:induction false} StepKeepsFates(threads: nat, turns: seq<Turn>, s: State)
    requires turns != [] && s == Run(Initial(threads), turns[..|turns| - 1])
    requires Fates(s, FateOf(threads, turns[..|turns| - 1])) && Told(threads, turns[..|turns| - 1], s) && Inv(s)
    requires Enabled(s, turns[|turns| - 1].thread, turns[|turns| - 1].action)
    ensures Fates(Step(s, turns[|turns| - 1].thread, turns[|turns| - 1].action), FateOf(threads, turns))
  {
    hide Run, Had, LoadedBy, LastSwappedIn, Loads, Fates, Step, Inv;
    var t, a := turns[|turns| - 1].thread, turns[|turns| - 1].action;
    HadGrows(threads, turns);
    assert FateOf(threads, turns) == Add(FateOf(threads, turns[..|turns| - 1]), s.pcs[t], a);
    OwnersDiffer(s, t);
    AnyStepKeepsFates(s, t, a, FateOf(threads, turns[..|turns| - 1]));
  }

  lemma {:induction false} AnyStepKeepsFates(s: State, t: nat, a: Action, f: Fate)
    requires Fates(s, f) && Enabled(s, t, a)
    requires forall u :: 0 <= u < |s.pcs| && u != t && InHand(s.pcs[u]).Some? ==> InHand(s.pcs[u]) != InHand(s.pcs[t])
    ensures Fates(Step(s, t, a), Add(f, s.pcs[t], a))
  {
    hide HandKnown, OldDone, Step;
    var s', f' := Step(s, t, a), Add(f, s.pcs[t], a);
    assert HandKnown(s.pcs[t], s.created, f) && OldDone(s.pcs[t], f);
    OwnFate(s, t, a, f);
    forall u | 0 <= u < |s.pcs| && u != t ensures HandKnown(s'.pcs[u], s'.created, f') && OldDone(s'.pcs[u], f') {
      OtherFate(s, t, a, f, u);
    }
  }

  lemma {:induction false} OwnFate(s: State, t: nat, a: Action, f: Fate)
    requires Known(s, f) && Enabled(s, t, a) && HandKnown(s.pcs[t], s.created, f) && OldDone(s.pcs[t], f)
    requires s.current.Some? ==> Done(f, s.current.value)
    requires forall db :: s.destroyed[db] > 0 ==> Done(f, db)
    ensures var s', f' := Step(s, t, a), Add(f, s.pcs[t], a);
            && |s'.pcs| == |s.pcs| && Known(s', f') && HandKnown(s'.pcs[t], s'.created, f') && OldDone(s'.pcs[t], f')
            && (s'.current.Some? ==> Done(f', s'.current.value))
            && forall db :: s'.destroyed[db] > 0 ==> Done(f', db)
  {
  }

  lemma {:induction false} OtherFate(s: State, t: nat, a: Action, f: Fate, u: nat)
    requires Enabled(s, t, a) && u < |s.pcs| && u != t && HandKnown(s.pcs[u], s.created, f) && OldDone(s.pcs[u], f)
    requires InHand(s.pcs[u]).Some? ==> InHand(s.pcs[u]) != InHand(s.pcs[t])
    ensures var s', f' := Step(s, t, a), Add(f, s.pcs[t], a);
            |s'.pcs| == |s.pcs| && HandKnown(s'.pcs[u], s'.created, f') && OldDone(s'.pcs[u], f')
  {
  }

  lemma {:induction false} OwnersDiffer(s: State, t: nat)
    requires Inv(s) && t < |s.pcs|
    ensures forall u :: 0 <= u < |s.pcs| && u != t && InHand(s.pcs[u]).Some? ==> InHand(s.pcs[u]) != InHand(s.pcs[t])
  {
    assert forall u :: 0 <= u < |s.pcs| && InHand(s.pcs[u]).Some? ==> Owned(s.pcs[u]) == InHand(s.pcs[u]);
  }

  ghost predicate WasCurrent(threads: nat, turns: seq<Turn>, db: Db) {
    exists n :: 0 <= n <= |turns| && Run(Initial(threads), turns[..n]).current == Some(db)
  }

  lemma {:induction false} SwappedWasCurrent(threads: nat, turns: seq<Turn>, db: Db)
    requires db in Had(threads, turns, Swap)
    ensures WasCurrent(threads, turns, db)
    decreases |turns|
  {
    hide Run;
    var n := |turns| - 1;
    if db in Had(threads, turns[..n], Swap) {
      SwappedWasCurrent(threads, turns[..n], db);
      var k :| 0 <= k <= n && Run(Initial(threads), turns[..n][..k]).current == Some(db);
      assert turns[..n][..k] == turns[..k];
    } else {
      RunIsTold(threads, turns);
      assert turns[..|turns|] == turns;
    }
  }

  /** Every destroyed database was published before, unless its loading had failed; one whose reload has entered the
      replacer did not fail, so it was. */
  lemma {:induction false} DestroyedWasCurrent(threads: nat, turns: seq<Turn>, db: Db)
    requires Run(Initial(threads), turns).destroyed[db] > 0
    ensures WasCurrent(threads, turns, db) || db in Had(threads, turns, FailLoad)
    ensures db in Had(threads, turns, EnterReplacer) ==> WasCurrent(threads, turns, db)
  {
    hide Run;
    RunKeepsFates(threads, turns);
    if db == 0 {
      assert turns[..0] == [];
      assert Run(Initial(threads), []).current == Some(0) by { FirstIsCurrent(threads); }
    } else if db in Had(threads, turns, Swap) {
      SwappedWasCurrent(threads, turns, db);
    }
  }

  lemma {:induction false} FirstIsCurrent(threads: nat)
    ensures Run(Initial(threads), []).current == Some(0)
  {
  }
}
