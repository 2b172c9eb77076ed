/** The locking protocol of the LCR database: readers take the database pointer and a read lock on it under the
    update lock; a reload publishes a new database under the update lock, then waits for the write lock of the
    old one and destroys it. Threads interleave between any two of the steps below. */
module LcrLocking {

  datatype Option<T> = None | Some(value: T)

  type Db = nat

  /** What a thread has done so far in the procedure it is running. */
  datatype Pc =
    | Idle
    | Crashed
    // lcr_rdlock and lcr_unlock
    | ReaderEntered
    | ReaderRead(db: Db)
    | ReaderLocked(db: Db)
    | Reading(db: Db)
    // load_config, with lcr_replace and lcr_destroy
    | Loaded(db: Db)
    | ReplacerEntered(db: Db)
    | ReplacerRead(db: Db, old_: Option<Db>)
    | ReplacerSwapped(old_: Option<Db>)
    | Destroying(old_: Option<Db>)
    | HasWriteLock(db: Db)

  datatype Action =
    | EnterReader | ReadGlobal | LockForReading | LeaveReader | Unlock
    | Load | FailLoad | EnterReplacer | SaveOld | Swap | LeaveReplacer | NothingToDestroy | LockForWriting | Destroy

  /** Shared memory and the program counter of every thread. Databases are numbered in the order of their creation;
      `readers` and `writers` are their read-write locks. */
  datatype State = State(
    updateLock: Option<nat>,
    current: Option<Db>,
    readers: map<Db, set<nat>>,
    writers: set<Db>,
    destroyed: multiset<Db>,
    created: nat,
    pcs: seq<Pc>)

  function ReadersOf(s: State, db: Db): set<nat> {
    if db in s.readers then s.readers[db] else {}
  }

  predicate Enabled(s: State, t: nat, a: Action) {
    t < |s.pcs| &&
    match a
    case EnterReader => s.pcs[t].Idle? && s.updateLock.None?
    case ReadGlobal => s.pcs[t].ReaderEntered?
    case LockForReading => s.pcs[t].ReaderRead? && s.pcs[t].db !in s.writers
    case LeaveReader => s.pcs[t].ReaderLocked?
    case Unlock => s.pcs[t].Reading?
    case Load => s.pcs[t].Idle?
    case FailLoad => s.pcs[t].Loaded?
    case EnterReplacer => s.pcs[t].Loaded? && s.updateLock.None?
    case SaveOld => s.pcs[t].ReplacerEntered?
    case Swap => s.pcs[t].ReplacerRead?
    case LeaveReplacer => s.pcs[t].ReplacerSwapped?
    case NothingToDestroy => s.pcs[t].Destroying? && s.pcs[t].old_.None?
    case LockForWriting =>
      s.pcs[t].Destroying? && s.pcs[t].old_.Some?
      && ReadersOf(s, s.pcs[t].old_.value) == {} && s.pcs[t].old_.value !in s.writers
    case Destroy => s.pcs[t].HasWriteLock?
  }

  function Step(s: State, t: nat, a: Action): State
    requires Enabled(s, t, a)
  {
    var pc := s.pcs[t];
    match a
    case EnterReader => s.(updateLock := Some(t), pcs := s.pcs[t := ReaderEntered])
    case ReadGlobal =>
      s.(pcs := s.pcs[t := if s.current.None? then Crashed else ReaderRead(s.current.value)])
    case LockForReading =>
      s.(readers := s.readers[pc.db := ReadersOf(s, pc.db) + {t}], pcs := s.pcs[t := ReaderLocked(pc.db)])
    case LeaveReader => s.(updateLock := None, pcs := s.pcs[t := Reading(pc.db)])
    case Unlock => s.(readers := s.readers[pc.db := ReadersOf(s, pc.db) - {t}], pcs := s.pcs[t := Idle])
    case Load => s.(created := s.created + 1, pcs := s.pcs[t := Loaded(s.created)])
    case FailLoad => s.(pcs := s.pcs[t := Destroying(Some(pc.db))])
    case EnterReplacer => s.(updateLock := Some(t), pcs := s.pcs[t := ReplacerEntered(pc.db)])
    case SaveOld => s.(pcs := s.pcs[t := ReplacerRead(pc.db, s.current)])
    case Swap => s.(current := Some(pc.db), pcs := s.pcs[t := ReplacerSwapped(pc.old_)])
    case LeaveReplacer => s.(updateLock := None, pcs := s.pcs[t := Destroying(pc.old_)])
    case NothingToDestroy => s.(pcs := s.pcs[t := Idle])
    case LockForWriting =>
      s.(writers := s.writers + {pc.old_.value}, pcs := s.pcs[t := HasWriteLock(pc.old_.value)])
    case Destroy => s.(destroyed := s.destroyed + multiset{pc.db}, pcs := s.pcs[t := Idle])
  }

  /** `threads` idle threads and one published database. */
  function Initial(threads: nat): State {
    State(None, Some(0), map[], {}, multiset{}, 1, seq(threads, _ => Idle))
  }

  datatype Turn = Turn(thread: nat, action: Action)

  /** A turn whose step is blocked or does not apply changes nothing. */
  function Run(s: State, turns: seq<Turn>): State {
    if turns == [] then s
    else
      var s' := Run(s, turns[..|turns| - 1]);
      var turn := turns[|turns| - 1];
      if Enabled(s', turn.thread, turn.action) then Step(s', turn.thread, turn.action) else s'
  }

  // ---------------------------------------------------------------------------------------------
  // The invariant
  // ---------------------------------------------------------------------------------------------

  predicate HoldsUpdateLock(pc: Pc) {
    pc.ReaderEntered? || pc.ReaderRead? || pc.ReaderLocked?
    || pc.ReplacerEntered? || pc.ReplacerRead? || pc.ReplacerSwapped?
  }

  /** The database that a thread alone is responsible for: not yet published, or to be destroyed. */
  function Owned(pc: Pc): Option<Db> {
    match pc
    case Loaded(db) => Some(db)
    case ReplacerEntered(db) => Some(db)
    case ReplacerRead(db, _) => Some(db)
    case ReplacerSwapped(o) => o
    case Destroying(o) => o
    case HasWriteLock(db) => Some(db)
    case _ => None
  }

  predicate HoldsReadLock(pc: Pc, db: Db) {
    (pc.ReaderLocked? || pc.Reading?) && pc.db == db
  }

  /** The update lock is held by the one thread that is between its two lock calls, and what that thread has read
      is still current. */
  ghost predicate LockInv(s: State) {
    && (s.updateLock.Some? ==> s.updateLock.value < |s.pcs|)
    && (forall t :: 0 <= t < |s.pcs| ==> (HoldsUpdateLock(s.pcs[t]) <==> s.updateLock == Some(t)))
    && (forall t :: 0 <= t < |s.pcs| && (s.pcs[t].ReaderRead? || s.pcs[t].ReaderLocked?) ==>
          s.current == Some(s.pcs[t].db))
    && (forall t :: 0 <= t < |s.pcs| && s.pcs[t].ReplacerRead? ==> s.pcs[t].old_ == s.current)
  }

  ghost predicate HasOwner(s: State, db: Db) {
    exists t :: 0 <= t < |s.pcs| && Owned(s.pcs[t]) == Some(db)
  }

  /** A database is published, or one thread's responsibility, or destroyed once: never two of these ... */
  ghost predicate Apart(s: State) {
    && s.current.Some? && s.current.value < s.created && s.destroyed[s.current.value] == 0
    && (forall t :: 0 <= t < |s.pcs| && Owned(s.pcs[t]).Some? ==>
          Owned(s.pcs[t]).value < s.created && Owned(s.pcs[t]) != s.current && s.destroyed[Owned(s.pcs[t]).value] == 0)
    && (forall t, u :: 0 <= t < |s.pcs| && 0 <= u < |s.pcs| && t != u && Owned(s.pcs[t]).Some? ==>
          Owned(s.pcs[t]) != Owned(s.pcs[u]))
    && (forall db :: s.destroyed[db] <= if db < s.created then 1 else 0)
  }

  /** ... and always one of them. */
  ghost predicate Covered(s: State) {
    forall db :: 0 <= db < s.created ==> Some(db) == s.current || s.destroyed[db] == 1 || HasOwner(s, db)
  }

  /** The read locks are those of the threads that are reading. */
  ghost predicate ReadersMatch(s: State) {
    && (forall t, db :: 0 <= t < |s.pcs| ==> (t in ReadersOf(s, db) <==> HoldsReadLock(s.pcs[t], db)))
    && (forall t, db :: t in ReadersOf(s, db) ==> t < |s.pcs|)
  }

  /** The write locks are those of the databases that are destroyed or about to be, and nobody reads these. */
  ghost predicate WritersMatch(s: State) {
    && (forall db :: db in s.writers ==>
          ReadersOf(s, db) == {} && (s.destroyed[db] == 1 || exists t :: 0 <= t < |s.pcs| && s.pcs[t] == HasWriteLock(db)))
    && (forall t :: 0 <= t < |s.pcs| && s.pcs[t].HasWriteLock? ==> s.pcs[t].db in s.writers)
    && (forall db :: s.destroyed[db] > 0 ==> db in s.writers)
  }

  ghost predicate NobodyCrashed(s: State) {
    forall t :: 0 <= t < |s.pcs| ==> !s.pcs[t].Crashed?
  }

  ghost predicate Inv(s: State) {
    LockInv(s) && Apart(s) && Covered(s) && ReadersMatch(s) && WritersMatch(s) && NobodyCrashed(s)
  }

  lemma {:induction false} InitialInv(threads: nat)
    ensures Inv(Initial(threads))
  {
  }

  /** Nobody has the write lock of a published database, nor of one whose owner has not taken it yet. */
  lemma {:induction false} WriteLockedIsOwned(s: State, db: Db)
    requires Apart(s) && WritersMatch(s) && db in s.writers
    ensures s.current != Some(db)
    ensures forall t :: 0 <= t < |s.pcs| && Owned(s.pcs[t]) == Some(db) ==> s.pcs[t].HasWriteLock?
  {
  }

  lemma {:induction false} SomethingIsPublished(s: State)
    requires Apart(s)
    ensures s.current.Some?
  {
  }

  lemma {:induction false} KeepsLockInv(s: State, t: nat, a: Action)
    requires LockInv(s) && s.current.Some? && Enabled(s, t, a)
    ensures LockInv(Step(s, t, a))
  {
    match a
    case EnterReader | ReadGlobal | LockForReading | LeaveReader | Unlock =>
    case Load | FailLoad | EnterReplacer | SaveOld | Swap =>
    case LeaveReplacer | NothingToDestroy | LockForWriting | Destroy =>
  }

  lemma {:induction false} KeepsApart(s: State, t: nat, a: Action)
    requires LockInv(s) && Apart(s) && Enabled(s, t, a)
    ensures Apart(Step(s, t, a))
  {
    var s' := Step(s, t, a);
    assert forall u :: 0 <= u < |s.pcs| && u != t ==> s'.pcs[u] == s.pcs[u];
    if a.Load? || a.Swap? || a.Destroy? {
      ChangesApart(s, t, a);
    } else {
      assert Owned(s'.pcs[t]) == Owned(s.pcs[t]);
    }
  }

  lemma {:induction false} ChangesApart(s: State, t: nat, a: Action)
    requires LockInv(s) && Apart(s) && Enabled(s, t, a) && (a.Load? || a.Swap? || a.Destroy?)
    ensures Apart(Step(s, t, a))
  {
    var s' := Step(s, t, a);
    assert a.Load? ==> Owned(s'.pcs[t]) == Some(s.created);
    assert a.Swap? ==> Owned(s'.pcs[t]) == s.current && Owned(s.pcs[t]) == s'.current;
    assert a.Destroy? ==> Owned(s'.pcs[t]) == None;
  }

  /** Where the databases go in one step. */
  lemma {:induction false} Passes(s: State, t: nat, a: Action)
    requires LockInv(s) && Apart(s) && Enabled(s, t, a)
    ensures var s' := Step(s, t, a);
            && |s'.pcs| == |s.pcs| && (forall u :: 0 <= u < |s.pcs| && u != t ==> s'.pcs[u] == s.pcs[u])
            && (forall db :: s.destroyed[db] <= s'.destroyed[db] <= 1)
            && (Owned(s.pcs[t]).Some? ==> var db := Owned(s.pcs[t]);
                  db == s'.current || s'.destroyed[db.value] == 1 || Owned(s'.pcs[t]) == db)
            && (s'.current == s.current || Owned(s'.pcs[t]) == s.current)
            && (s'.created == s.created || (s'.created == s.created + 1 && Owned(s'.pcs[t]) == Some(s.created)))
  {
  }

  lemma {:induction false} KeepsCovered(s: State, t: nat, a: Action)
    requires LockInv(s) && Apart(s) && Covered(s) && Enabled(s, t, a)
    ensures Covered(Step(s, t, a))
  {
    hide Step, Owned, LockInv, Apart;
    Passes(s, t, a);
    var s' := Step(s, t, a);
    forall db | 0 <= db < s'.created
      ensures Some(db) == s'.current || s'.destroyed[db] == 1 || HasOwner(s', db)
    {
      if Owned(s'.pcs[t]) != Some(db) && HasOwner(s, db) {
        var u :| 0 <= u < |s.pcs| && Owned(s.pcs[u]) == Some(db);
        assert u != t ==> Owned(s'.pcs[u]) == Some(db);
      }
    }
  }

  lemma {:induction false} KeepsReadersMatch(s: State, t: nat, a: Action)
    requires ReadersMatch(s) && Enabled(s, t, a)
    ensures ReadersMatch(Step(s, t, a))
  {
    var s' := Step(s, t, a);
    if a.LockForReading? || a.Unlock? {
      var d := s.pcs[t].db;
      assert forall db :: db != d ==> ReadersOf(s', db) == ReadersOf(s, db);
      assert ReadersOf(s', d) == if a.Unlock? then ReadersOf(s, d) - {t} else ReadersOf(s, d) + {t};
    } else {
      assert forall db :: ReadersOf(s', db) == ReadersOf(s, db);
      assert forall db :: HoldsReadLock(s'.pcs[t], db) == HoldsReadLock(s.pcs[t], db);
    }
  }

  lemma {:induction false} KeepsWritersMatch(s: State, t: nat, a: Action)
    requires Apart(s) && WritersMatch(s) && Enabled(s, t, a)
    ensures WritersMatch(Step(s, t, a))
  {
    var s' := Step(s, t, a);
    forall db | db in s'.writers
      ensures ReadersOf(s', db) == {}
      ensures s'.destroyed[db] == 1 || exists u :: 0 <= u < |s'.pcs| && s'.pcs[u] == HasWriteLock(db)
    {
      if db in s.writers && s.destroyed[db] != 1 {
        var u :| 0 <= u < |s.pcs| && s.pcs[u] == HasWriteLock(db);
        assert u == t || s'.pcs[u] == HasWriteLock(db);
      } else if db !in s.writers {
        assert s'.pcs[t] == HasWriteLock(db);
      }
    }
  }

  lemma {:induction false} KeepsNobodyCrashed(s: State, t: nat, a: Action)
    requires Apart(s) && NobodyCrashed(s) && Enabled(s, t, a)
    ensures NobodyCrashed(Step(s, t, a))
  {
  }

  lemma {:induction false} StepKeepsInv(s: State, t: nat, a: Action)
    requires Inv(s) && Enabled(s, t, a)
    ensures Inv(Step(s, t, a))
  {
    hide Step, LockInv, Apart, Covered, ReadersMatch, WritersMatch, NobodyCrashed;
    SomethingIsPublished(s);
    KeepsLockInv(s, t, a);
    KeepsApart(s, t, a);
    KeepsCovered(s, t, a);
    KeepsReadersMatch(s, t, a);
    KeepsWritersMatch(s, t, a);
    KeepsNobodyCrashed(s, t, a);
  }

  lemma {:induction false} RunKeepsInv(s: State, turns: seq<Turn>)
    requires Inv(s)
    ensures Inv(Run(s, turns)) && |Run(s, turns).pcs| == |s.pcs|
    decreases |turns|
  {
    hide Inv;
    if turns != [] {
      var before := turns[..|turns| - 1];
      var turn := turns[|turns| - 1];
      RunKeepsInv(s, before);
      var s' := Run(s, before);
      if Enabled(s', turn.thread, turn.action) {
        StepKeepsInv(s', turn.thread, turn.action);
      }
    }
  }

  // ---------------------------------------------------------------------------------------------
  // Safety
  // ---------------------------------------------------------------------------------------------

  /** The thread has a pointer to the database, from reading the global pointer to unlocking. */
  predicate Holds(pc: Pc, db: Db) {
    (pc.ReaderRead? || pc.ReaderLocked? || pc.Reading?) && pc.db == db
  }

  /** No reader ever holds a destroyed database, no database is destroyed twice, and no reader crashes on a
      database that is not there. */
  ghost predicate Safe(s: State) {
    && (forall t, db :: 0 <= t < |s.pcs| && Holds(s.pcs[t], db) ==> s.destroyed[db] == 0)
    && (forall db :: s.destroyed[db] <= 1)
    && NobodyCrashed(s)
  }

  lemma {:induction false} InvIsSafe(s: State)
    requires Inv(s)
    ensures Safe(s)
  {
    forall t, db | 0 <= t < |s.pcs| && Holds(s.pcs[t], db)
      ensures s.destroyed[db] == 0
    {
      if s.pcs[t].Reading? {
        assert t in ReadersOf(s, db);
      }
    }
  }

  /** The main result: every interleaving of any number of readers and reloaders is safe. */
  lemma {:induction false} EveryRunIsSafe(threads: nat, turns: seq<Turn>)
    ensures Safe(Run(Initial(threads), turns))
  {
    InitialInv(threads);
    RunKeepsInv(Initial(threads), turns);
    InvIsSafe(Run(Initial(threads), turns));
  }

  /** In any run, a reader can only lock the published database: none can acquire one that was swapped out; and a
      database is destroyed only while nobody reads it and after it was swapped out. */
  lemma {:induction false} OnlyCurrentIsAcquired(threads: nat, turns: seq<Turn>, t: nat)
    ensures var s := Run(Initial(threads), turns);
            && (Enabled(s, t, LockForReading) ==> s.current == Some(s.pcs[t].db))
            && (Enabled(s, t, Destroy) ==> SafeToDestroy(s, s.pcs[t].db))
  {
    hide Run;
    InitialInv(threads);
    RunKeepsInv(Initial(threads), turns);
    var s := Run(Initial(threads), turns);
    if Enabled(s, t, Destroy) {
      WriteLockedIsSafe(s, t);
    }
  }

  /** Swapped out, not destroyed before, and held by no reader. */
  ghost predicate SafeToDestroy(s: State, db: Db) {
    && s.current != Some(db) && s.destroyed[db] == 0
    && forall u :: 0 <= u < |s.pcs| ==> !Holds(s.pcs[u], db)
  }

  lemma {:induction false} WriteLockedIsSafe(s: State, t: nat)
    requires Inv(s) && t < |s.pcs| && s.pcs[t].HasWriteLock?
    ensures SafeToDestroy(s, s.pcs[t].db)
  {
    var db := s.pcs[t].db;
    assert Owned(s.pcs[t]) == Some(db) && ReadersOf(s, db) == {};
    forall u | 0 <= u < |s.pcs|
      ensures !Holds(s.pcs[u], db)
    {
      assert !HoldsReadLock(s.pcs[u], db);
    }
  }

  // ---------------------------------------------------------------------------------------------
  // Progress
  // ---------------------------------------------------------------------------------------------

  /** A step that begins a new procedure; any other finishes what was begun. */
  predicate Begins(a: Action) {
    a.EnterReader? || a.Load?
  }

  /** An upper bound on the steps that a thread has left in its procedure. */
  function Rank(pc: Pc): nat {
    match pc
    case Idle => 0
    case Crashed => 0
    case ReaderEntered => 4
    case ReaderRead(_) => 3
    case ReaderLocked(_) => 2
    case Reading(_) => 1
    case Loaded(_) => 7
    case ReplacerEntered(_) => 6
    case ReplacerRead(_, _) => 5
    case ReplacerSwapped(_) => 4
    case Destroying(_) => 2
    case HasWriteLock(_) => 1
  }

  function TotalRank(pcs: seq<Pc>): nat {
    if pcs == [] then 0 else Rank(pcs[0]) + TotalRank(pcs[1..])
  }

  lemma {:induction false} TotalRankUpdate(pcs: seq<Pc>, t: nat, pc: Pc)
    requires t < |pcs|
    ensures TotalRank(pcs[t := pc]) == TotalRank(pcs) - Rank(pcs[t]) + Rank(pc)
  {
    if t == 0 {
      assert pcs[t := pc][1..] == pcs[1..];
    } else {
      assert pcs[t := pc][1..] == pcs[1..][t - 1 := pc];
      TotalRankUpdate(pcs[1..], t - 1, pc);
    }
  }

  /** Every step that does not begin something brings the run closer to rest. */
  lemma {:induction false} StepsFinish(s: State, t: nat, a: Action)
    requires Enabled(s, t, a) && !Begins(a)
    ensures TotalRank(Step(s, t, a).pcs) < TotalRank(s.pcs)
  {
    TotalRankUpdate(s.pcs, t, Step(s, t, a).pcs[t]);
  }

  ghost predicate AtRest(s: State) {
    forall t :: 0 <= t < |s.pcs| ==> s.pcs[t].Idle?
  }

  /** There is no deadlock: unless all threads are at rest, one of them can finish a step. */
  lemma {:induction false} SomeoneCanStep(s: State) returns (t: nat, a: Action)
    requires Inv(s) && !AtRest(s)
    ensures Enabled(s, t, a) && !Begins(a)
  {
    if s.updateLock.Some? {
      t := s.updateLock.value;
      a := match s.pcs[t]
        case ReaderEntered => ReadGlobal
        case ReaderRead(_) => LockForReading
        case ReaderLocked(_) => LeaveReader
        case ReplacerEntered(_) => SaveOld
        case ReplacerRead(_, _) => Swap
        case _ => LeaveReplacer;
      if s.pcs[t].ReaderRead? && s.pcs[t].db in s.writers {
        WriteLockedIsOwned(s, s.pcs[t].db);
      }
    } else {
      t :| 0 <= t < |s.pcs| && !s.pcs[t].Idle?;
      t, a := UnlockedThreadLeads(s, t);
    }
  }

  lemma {:induction false} UnlockedThreadLeads(s: State, u: nat) returns (t: nat, a: Action)
    requires Inv(s) && u < |s.pcs| && !s.pcs[u].Idle?
    requires s.updateLock.None?
    ensures Enabled(s, t, a) && !Begins(a)
  {
    t := u;
    a := match s.pcs[u]
      case Reading(_) => Unlock
      case Loaded(_) => EnterReplacer
      case Destroying(None) => NothingToDestroy
      case Destroying(Some(_)) => LockForWriting
      case _ => Destroy;
    if s.pcs[u].Destroying? && s.pcs[u].old_.Some? {
      var db := s.pcs[u].old_.value;
      if db in s.writers {
        WriteLockedIsOwned(s, db);
      }
      if ReadersOf(s, db) != {} {
        t :| t in ReadersOf(s, db);
        a := Unlock;
        assert HoldsReadLock(s.pcs[t], db);
      }
    }
  }

  /** At rest, every database but the published one has been destroyed, exactly once, and no lock is held. */
  lemma {:induction false} AtRestAllReplacedAreDestroyed(threads: nat, turns: seq<Turn>)
    requires AtRest(Run(Initial(threads), turns))
    ensures var s := Run(Initial(threads), turns);
            && s.current.Some? && s.current.value < s.created
            && (forall db :: 0 <= db < s.created ==> s.destroyed[db] == if Some(db) == s.current then 0 else 1)
            && (forall db :: ReadersOf(s, db) == {})
  {
    InitialInv(threads);
    RunKeepsInv(Initial(threads), turns);
    var s := Run(Initial(threads), turns);
    forall db
      ensures ReadersOf(s, db) == {}
    {
      assert forall t :: 0 <= t < |s.pcs| ==> !HoldsReadLock(s.pcs[t], db);
    }
  }

  /** Without a first database a reader crashes: a successful first load is needed. */
  lemma {:induction false} ReaderNeedsDatabase()
    ensures var s := Initial(1).(current := None, created := 0);
            !NobodyCrashed(Run(s, [Turn(0, EnterReader), Turn(0, ReadGlobal)]))
  {
    var s := Initial(1).(current := None, created := 0);
    var enter, read := Turn(0, EnterReader), Turn(0, ReadGlobal);
    assert [enter, read][..1] == [enter] && [enter][..0] == [];
    assert Run(s, [enter]) == Step(s, 0, EnterReader);
    assert Run(s, [enter, read]) == Step(Step(s, 0, EnterReader), 0, ReadGlobal);
    assert Run(s, [enter, read]).pcs[0] == Crashed;
  }

  // ---------------------------------------------------------------------------------------------
  // The module's memory, changed in place
  // ---------------------------------------------------------------------------------------------

  class LcrModule {
    var updateLock: Option<nat>
    var lcr: Option<Db>
    var readers: map<Db, set<nat>>
    var writers: set<Db>
    var destroyed: multiset<Db>
    var created: nat
    var pcs: seq<Pc>

    function View(): State
      reads this
    {
      State(updateLock, lcr, readers, writers, destroyed, created, pcs)
    }

    /** The module after a first, successful load. */
    constructor (threads: nat)
      ensures View() == Initial(threads)
    {
      updateLock := None;
      lcr := Some(0);
      readers := map[];
      writers := {};
      destroyed := multiset{};
      created := 1;
      pcs := seq(threads, _ => Idle);
    }

    /** lcr_rdlock and lcr_unlock, one atomic step at a time. */
    method ReaderStep(t: nat, a: Action)
      requires Enabled(View(), t, a) && (a.EnterReader? || a.ReadGlobal? || a.LockForReading? || a.LeaveReader? || a.Unlock?)
      modifies this
      ensures View() == Step(old(View()), t, a)
    {
      var pc := pcs[t];
      match a {
        case EnterReader =>
          updateLock := Some(t);
          pcs := pcs[t := ReaderEntered];
        case ReadGlobal =>
          if lcr.None? {
            pcs := pcs[t := Crashed];
          } else {
            pcs := pcs[t := ReaderRead(lcr.value)];
          }
        case LockForReading =>
          readers := readers[pc.db := (if pc.db in readers then readers[pc.db] else {}) + {t}];
          pcs := pcs[t := ReaderLocked(pc.db)];
        case LeaveReader =>
          updateLock := None;
          pcs := pcs[t := Reading(pc.db)];
        case Unlock =>
          readers := readers[pc.db := (if pc.db in readers then readers[pc.db] else {}) - {t}];
          pcs := pcs[t := Idle];
      }
    }

    /** load_config, lcr_replace and lcr_destroy, one atomic step at a time. */
    method ReloaderStep(t: nat, a: Action)
      requires Enabled(View(), t, a) && !(a.EnterReader? || a.ReadGlobal? || a.LockForReading? || a.LeaveReader? || a.Unlock?)
      modifies this
      ensures View() == Step(old(View()), t, a)
    {
      var pc := pcs[t];
      match a {
        case Load =>
          pcs := pcs[t := Loaded(created)];
          created := created + 1;
        case FailLoad =>
          pcs := pcs[t := Destroying(Some(pc.db))];
        case EnterReplacer =>
          updateLock := Some(t);
          pcs := pcs[t := ReplacerEntered(pc.db)];
        case SaveOld =>
          pcs := pcs[t := ReplacerRead(pc.db, lcr)];
        case Swap =>
          lcr := Some(pc.db);
          pcs := pcs[t := ReplacerSwapped(pc.old_)];
        case LeaveReplacer =>
          updateLock := None;
          pcs := pcs[t := Destroying(pc.old_)];
        case NothingToDestroy =>
          pcs := pcs[t := Idle];
        case LockForWriting =>
          writers := writers + {pc.old_.value};
          pcs := pcs[t := HasWriteLock(pc.old_.value)];
        case Destroy =>
          destroyed := destroyed + multiset{pc.db};
          pcs := pcs[t := Idle];
      }
    }

    /** Let the threads take the given turns, skipping those that are blocked. */
    method Schedule(turns: seq<Turn>)
      requires Inv(View())
      modifies this
      ensures View() == Run(old(View()), turns) && Safe(View())
    {
      hide Step, Inv, Safe, Enabled;
      RunKeepsInv(View(), turns);
      InvIsSafe(Run(View(), turns));
      for i := 0 to |turns|
        invariant View() == Run(old(View()), turns[..i])
      {
        var turn := turns[i];
        assert turns[..i + 1][..i] == turns[..i];
        if Enabled(View(), turn.thread, turn.action) {
          var a := turn.action;
          if a.EnterReader? || a.ReadGlobal? || a.LockForReading? || a.LeaveReader? || a.Unlock? {
            ReaderStep(turn.thread, a);
          } else {
            ReloaderStep(turn.thread, a);
          }
        }
      }
      assert turns[..|turns|] == turns;
    }
  }
}
