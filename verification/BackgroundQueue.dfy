/** The background command queue: one worker, a locked queue of pending commands, and a dequeue that is posted
    whenever the worker reports completion. Callers, worker and dispatcher interleave between any two steps. */
module BackgroundQueue {

  type Command = int

  /** RunWorkerAsync has been called; then DoWork has returned but the worker still counts as busy. */
  datatype Worker = Idle | Running(command: Command) | Reporting

  /** Who holds the lock of the queue, and what they saw when they tested it. */
  datatype Lock =
    | Free
    | Starting(command: Command)
    | Enqueuing(command: Command)
    | Dequeuing(start: bool)

  /** `completions` counts completion events whose handler has not posted its dequeue yet, `posted` the posted
      dequeues; `faulted` records a worker started while it was busy. `submitted` and `finished` are the history. */
  datatype State = State(
    pending: seq<Command>,
    worker: Worker,
    lock: Lock,
    completions: nat,
    posted: nat,
    faulted: bool,
    submitted: seq<Command>,
    finished: seq<Command>)

  datatype Action = Submit(command: Command) | TakePosted | Leave | FinishWork | ClearBusy | PostDequeue

  const INITIAL := State([], Idle, Free, 0, 0, false, [], [])

  predicate Enabled(s: State, a: Action) {
    match a
    case Submit(_) => s.lock.Free?
    case TakePosted => s.lock.Free? && s.posted > 0
    case Leave => !s.lock.Free?
    case FinishWork => s.worker.Running?
    case ClearBusy => s.worker.Reporting?
    case PostDequeue => s.completions > 0
  }

  function Start(s: State, command: Command): State {
    if s.worker.Idle? then s.(worker := Running(command)) else s.(faulted := true)
  }

  function Step(s: State, a: Action): State
    requires Enabled(s, a)
  {
    match a
    case Submit(c) => s.(lock := if !s.worker.Idle? || s.pending != [] then Enqueuing(c) else Starting(c))
    case TakePosted => s.(posted := s.posted - 1, lock := Dequeuing(s.pending != [] && s.worker.Idle?))
    case Leave => LeaveLock(s).(lock := Free)
    case FinishWork => s.(worker := Reporting, finished := s.finished + [s.worker.command])
    case ClearBusy => s.(worker := Idle, completions := s.completions + 1)
    case PostDequeue => s.(completions := s.completions - 1, posted := s.posted + 1)
  }

  /** The second half of bgapi_exec or bgapi_dequeue, still under the lock. */
  function LeaveLock(s: State): State {
    match s.lock
    case Free => s
    case Starting(c) => Start(s, c).(submitted := s.submitted + [c])
    case Enqueuing(c) => s.(pending := s.pending + [c], submitted := s.submitted + [c])
    case Dequeuing(start) =>
      if start && s.pending != [] then Start(s.(pending := s.pending[1..]), s.pending[0]) else s
  }

  function Run(s: State, actions: seq<Action>): State {
    if actions == [] then s
    else
      var s' := Run(s, actions[..|actions| - 1]);
      var a := actions[|actions| - 1];
      if Enabled(s', a) then Step(s', a) else s'
  }

  // ---------------------------------------------------------------------------------------------
  // Safety
  // ---------------------------------------------------------------------------------------------

  function InHand(s: State): seq<Command> {
    if s.worker.Running? then [s.worker.command] else []
  }

  /** A dequeue is on its way, or will be. */
  predicate WillDequeue(s: State) {
    !s.worker.Idle? || s.completions > 0 || s.posted > 0
  }

  ghost predicate Inv(s: State) {
    && !s.faulted
    && s.submitted == s.finished + InHand(s) + s.pending
    && (s.lock.Starting? ==> s.worker.Idle? && s.pending == [])
    && (s.lock.Enqueuing? ==> s.pending != [] || WillDequeue(s))
    && (s.lock == Dequeuing(true) ==> s.worker.Idle? && s.pending != [])
    && (s.pending != [] ==> WillDequeue(s) || s.lock == Dequeuing(true))
  }

  lemma {:induction false} StepKeepsInv(s: State, a: Action)
    requires Inv(s) && Enabled(s, a)
    ensures Inv(Step(s, a))
  {
    var s' := Step(s, a);
    if a.Leave? && s.lock == Dequeuing(true) {
      assert s.pending == [s.pending[0]] + s.pending[1..];
    }
    assert s'.submitted == s'.finished + InHand(s') + s'.pending;
  }

  lemma {:induction false} RunKeepsInv(s: State, actions: seq<Action>)
    requires Inv(s)
    ensures Inv(Run(s, actions))
    decreases |actions|
  {
    if actions != [] {
      RunKeepsInv(s, actions[..|actions| - 1]);
      var s' := Run(s, actions[..|actions| - 1]);
      if Enabled(s', actions[|actions| - 1]) {
        StepKeepsInv(s', actions[|actions| - 1]);
      }
    }
  }

  /** The main result: in every interleaving the commands run in the order of their submission, each once, the worker
      is never started while busy, and a waiting command is always going to be fetched. */
  lemma {:induction false} CommandsRunInOrder(actions: seq<Action>)
    ensures var s := Run(INITIAL, actions);
            && s.submitted == s.finished + InHand(s) + s.pending
            && !s.faulted
            && (s.pending != [] ==> WillDequeue(s) || s.lock == Dequeuing(true))
  {
    RunKeepsInv(INITIAL, actions);
  }

  /** The commands that callers submitted, told from the actions alone. */
  function Submissions(actions: seq<Action>): seq<Command> {
    if actions == [] then []
    else
      var n := |actions| - 1;
      var rest := Submissions(actions[..n]);
      if actions[n].Submit? && Enabled(Run(INITIAL, actions[..n]), actions[n]) then rest + [actions[n].command] else rest
  }

  /** The commands that the worker was running whenever it finished. */
  function Executions(actions: seq<Action>): seq<Command> {
    if actions == [] then []
    else
      var n := |actions| - 1;
      var s, rest := Run(INITIAL, actions[..n]), Executions(actions[..n]);
      if actions[n].FinishWork? && Enabled(s, FinishWork) then rest + [s.worker.command] else rest
  }

  /** The command of a caller that holds the lock. */
  function UnderLock(l: Lock): seq<Command> {
    if l.Starting? || l.Enqueuing? then [l.command] else []
  }

  lemma {:induction false} HistoryIsTold(actions: seq<Action>)
    ensures var s := Run(INITIAL, actions);
            Submissions(actions) == s.submitted + UnderLock(s.lock) && Executions(actions) == s.finished
    decreases |actions|
  {
    hide Step, Enabled, Inv;
    if actions != [] {
      var n := |actions| - 1;
      HistoryIsTold(actions[..n]);
      RunKeepsInv(INITIAL, actions[..n]) by { StartsWell(); }
      if Enabled(Run(INITIAL, actions[..n]), actions[n]) {
        StepTells(Run(INITIAL, actions[..n]), actions[n]);
      }
    }
  }

  lemma {:induction false} StartsWell()
    ensures Inv(INITIAL)
  {
  }

  lemma {:induction false} StepTells(s: State, a: Action)
    requires Inv(s) && Enabled(s, a)
    ensures var s' := Step(s, a);
            && s'.submitted + UnderLock(s'.lock)
               == s.submitted + UnderLock(s.lock) + (if a.Submit? then [a.command] else [])
            && (if a.FinishWork? then s.worker.Running? && s'.finished == s.finished + [s.worker.command]
                else s'.finished == s.finished)
  {
  }

  /** The worker executes the commands that were submitted, in order: what is still missing is running, pending, or just
      being submitted. */
  lemma {:induction false} ExecutionsFollowSubmissions(actions: seq<Action>)
    ensures var s := Run(INITIAL, actions);
            Submissions(actions) == Executions(actions) + InHand(s) + s.pending + UnderLock(s.lock)
    ensures AtRest(Run(INITIAL, actions)) ==> Executions(actions) == Submissions(actions)
  {
    hide Run;
    HistoryIsTold(actions);
    RunKeepsInv(INITIAL, actions);
    if AtRest(Run(INITIAL, actions)) {
      AtRestAllHaveFinished(actions);
      assert !Enabled(Run(INITIAL, actions), Leave);
    }
  }

  // ---------------------------------------------------------------------------------------------
  // Progress
  // ---------------------------------------------------------------------------------------------

  function LockRank(l: Lock): nat {
    match l
    case Free => 0
    case Starting(_) => 6
    case Enqueuing(_) => 7
    case Dequeuing(_) => 1
  }

  function WorkerRank(w: Worker): nat {
    match w
    case Idle => 0
    case Running(_) => 5
    case Reporting => 4
  }

  function Rank(s: State): nat {
    6 * |s.pending| + WorkerRank(s.worker) + LockRank(s.lock) + 3 * s.completions + 2 * s.posted
  }

  /** Without new submissions, every step brings the queue closer to rest. */
  lemma {:induction false} StepsFinish(s: State, a: Action)
    requires Inv(s) && Enabled(s, a) && !a.Submit?
    ensures Rank(Step(s, a)) < Rank(s)
  {
  }

  ghost predicate AtRest(s: State) {
    forall a: Action :: !a.Submit? ==> !Enabled(s, a)
  }

  /** Whenever nothing but a new submission can happen, every submitted command has finished. */
  lemma {:induction false} AtRestAllHaveFinished(actions: seq<Action>)
    requires AtRest(Run(INITIAL, actions))
    ensures Run(INITIAL, actions).finished == Run(INITIAL, actions).submitted
  {
    RunKeepsInv(INITIAL, actions);
    var s := Run(INITIAL, actions);
    assert !Enabled(s, TakePosted) && !Enabled(s, Leave) && !Enabled(s, FinishWork);
    assert !Enabled(s, ClearBusy) && !Enabled(s, PostDequeue);
  }

  /** From any reached state, some finite continuation without new submissions finishes every submitted command. */
  lemma {:induction false} EverythingFinishes(s: State) returns (actions: seq<Action>)
    requires Inv(s)
    ensures forall a :: a in actions ==> !a.Submit?
    ensures AtRest(Run(s, actions)) && Run(s, actions).finished == Run(s, actions).submitted
    decreases Rank(s)
  {
    if a: Action :| !a.Submit? && Enabled(s, a) {
      StepKeepsInv(s, a);
      StepsFinish(s, a);
      var rest := EverythingFinishes(Step(s, a));
      actions := [a] + rest;
      RunConcat(s, [a], rest);
      assert [a][..0] == [];
    } else {
      actions := [];
      assert !Enabled(s, TakePosted) && !Enabled(s, Leave) && !Enabled(s, FinishWork);
      assert !Enabled(s, ClearBusy) && !Enabled(s, PostDequeue);
    }
  }

  lemma {:induction false} RunConcat(s: State, a: seq<Action>, b: seq<Action>)
    ensures Run(s, a + b) == Run(Run(s, a), b)
    decreases |b|
  {
    hide Step, Enabled;
    if b == [] {
      assert a + b == a;
    } else {
      var n := |b| - 1;
      assert (a + b)[..|a| + n] == a + b[..n] && (a + b)[|a| + n] == b[n];
      RunConcat(s, a, b[..n]);
    }
  }

  // ---------------------------------------------------------------------------------------------
  // The queue, changed in place
  // ---------------------------------------------------------------------------------------------

  class Utils {
    var pending: seq<Command>
    var worker: Worker
    var lock: Lock
    var completions: nat
    var posted: nat
    ghost var faulted: bool
    ghost var submitted: seq<Command>
    ghost var finished: seq<Command>

    ghost function View(): State
      reads this
    {
      State(pending, worker, lock, completions, posted, faulted, submitted, finished)
    }

    constructor ()
      ensures View() == INITIAL
    {
      pending, worker, lock, completions, posted := [], Idle, Free, 0, 0;
      faulted, submitted, finished := false, [], [];
    }

    /** RunWorkerAsync. */
    method RunWorkerAsync(c: Command)
      modifies this`worker, this`faulted
      ensures View() == Start(old(View()), c)
    {
      if worker.Idle? {
        worker := Running(c);
      } else {
        faulted := true;
      }
    }

    /** bgapi_exec, up to its decision under the lock. */
    method BeginExec(c: Command)
      requires Enabled(View(), Submit(c))
      modifies this`lock
      ensures View() == Step(old(View()), Submit(c))
    {
      if !worker.Idle? || |pending| > 0 {
        lock := Enqueuing(c);
      } else {
        lock := Starting(c);
      }
    }

    /** bgapi_dequeue, up to its decision under the lock. */
    method BeginDequeue()
      requires Enabled(View(), TakePosted)
      modifies this`lock, this`posted
      ensures View() == Step(old(View()), TakePosted)
    {
      posted := posted - 1;
      lock := Dequeuing(|pending| > 0 && worker.Idle?);
    }

    /** The rest of bgapi_exec or bgapi_dequeue. */
    method EndLocked()
      requires Enabled(View(), Leave)
      modifies this
      ensures View() == Step(old(View()), Leave)
    {
      match lock {
        case Starting(c) =>
          RunWorkerAsync(c);
          submitted := submitted + [c];
        case Enqueuing(c) =>
          pending := pending + [c];
          submitted := submitted + [c];
        case Dequeuing(start) =>
          if start && |pending| > 0 {
            var c := pending[0];
            pending := pending[1..];
            RunWorkerAsync(c);
          }
      }
      lock := Free;
    }

    /** The worker's side: DoWork returns; the worker stops being busy; the completion handler posts a dequeue. */
    method WorkerStep(a: Action)
      requires Enabled(View(), a) && (a.FinishWork? || a.ClearBusy? || a.PostDequeue?)
      modifies this
      ensures View() == Step(old(View()), a)
    {
      match a {
        case FinishWork =>
          finished := finished + [worker.command];
          worker := Reporting;
        case ClearBusy =>
          worker := Idle;
          completions := completions + 1;
        case PostDequeue =>
          completions := completions - 1;
          posted := posted + 1;
      }
    }
  }
}
