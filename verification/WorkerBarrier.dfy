/** The worker threads of a hasty space and the condition variables they meet at, as interleaved steps. */
module WorkerThreads {
  import opened Options

  type Func = nat

  /** Where a worker stands in WorkerThreadLoop. */
  datatype Worker =
    | Unborn
    | Entering              // about to lock the mutex
    | Locked                // about to decrement num_working
    | Signalling            // it was the last: about to signal cond_resume
    | Parking               // about to wait
    | Waiting               // asleep on cond_work
    | Woken                 // awake, has to get the mutex back
    | Leaving               // has the mutex back, about to unlock it
    | Fetching              // about to read work into func
    | Calling               // func was not NULL: about to read work again and call it
    | Working(func: Func)   // inside the function
    | Exited
    | Crashed               // called a NULL function

  /** Where the main thread stands in cpHastySpaceSetThreads, RunWorkers or HaltThreads. */
  datatype Main =
    | Begin | Creating(made: nat) | Starting | StartWoken | StartLeaving
    | Idle
    | SettingCount(f: Func) | SettingWork(f: Func) | Locking(f: Func) | Broadcasting(f: Func) | Unlocking(f: Func)
    | OwnShare(f: Func) | Relocking(f: Func) | Checking(f: Func) | Resuming(f: Func) | Resumed(f: Func)
    | Releasing(f: Func)
    | Clearing(f: Func)
    | HaltLocking | HaltClearing | HaltBroadcasting | HaltUnlocking | Joining | Done

  datatype Owner = Nobody | MainThread | WorkerThread(i: nat)

  /** runs counts how often each worker has finished the function of the current round, mainRuns the same for the
      main thread. */
  datatype State = State(workers: seq<Worker>, main: Main, numWorking: int, work: Option<Func>, mutex: Owner,
                         runs: seq<nat>, mainRuns: nat)

  function Init(n: nat): State {
    State(seq(n, i => Unborn), Begin, 0, None, Nobody, seq(n, i => 0), 0)
  }

  function Broadcast(ws: seq<Worker>): (r: seq<Worker>)
    ensures |r| == |ws| && forall i :: 0 <= i < |ws| ==> r[i] == if ws[i] == Waiting then Woken else ws[i]
  {
    seq(|ws|, i requires 0 <= i < |ws| => if ws[i] == Waiting then Woken else ws[i])
  }

  /** Signalling cond_resume wakes the main thread if it is waiting there; otherwise the signal is lost. */
  function Signalled(m: Main): Main {
    match m
    case Starting => StartWoken
    case Resuming(f) => Resumed(f)
    case _ => m
  }

  /** One step of worker i, if it can move. */
  function WorkerStep(s: State, i: nat): Option<State>
    requires i < |s.workers| == |s.runs|
  {
    var ws := s.workers;
    match ws[i]
    case Entering =>
      if s.mutex == Nobody then Some(s.(workers := ws[i := Locked], mutex := WorkerThread(i))) else None
    case Locked =>
      Some(s.(workers := ws[i := if s.numWorking - 1 == 0 then Signalling else Parking],
        numWorking := s.numWorking - 1))
    case Signalling =>
      Some(s.(workers := ws[i := Parking], main := Signalled(s.main)))
    case Parking =>
      Some(s.(workers := ws[i := Waiting], mutex := Nobody))
    case Woken =>
      if s.mutex == Nobody then Some(s.(workers := ws[i := Leaving], mutex := WorkerThread(i))) else None
    case Leaving =>
      Some(s.(workers := ws[i := Fetching], mutex := Nobody))
    case Fetching =>
      Some(s.(workers := ws[i := if s.work.Some? then Calling else Exited]))
    case Calling =>
      Some(s.(workers := ws[i := if s.work.Some? then Working(s.work.value) else Crashed]))
    case Working(_) =>
      Some(s.(workers := ws[i := Entering], runs := s.runs[i := s.runs[i] + 1]))
    case _ => None
  }

  /** What the caller asks for next: a round or the end of the threads, and after that perhaps new ones. */
  datatype Command = RunFunc(f: Func) | Halt | Restart(threads: nat)

  /** One step of the main thread, if it can move. */
  function MainStep(s: State, c: Command): Option<State> {
    var n := |s.workers|;
    match s.main
    case Begin =>
      if n == 0 then Some(s.(main := Idle)) else
      if s.mutex == Nobody then Some(s.(main := Creating(0), mutex := MainThread, numWorking := n)) else None
    case Creating(k) =>
      if k < n then Some(s.(main := Creating(k + 1), workers := s.workers[k := Entering]))
      else Some(s.(main := Starting, mutex := Nobody))
    case StartWoken =>
      if s.mutex == Nobody then Some(s.(main := StartLeaving, mutex := MainThread)) else None
    case StartLeaving => Some(s.(main := Idle, mutex := Nobody))
    case Idle =>
      if c.RunFunc? then Some(s.(main := SettingCount(c.f), runs := seq(n, i => 0), mainRuns := 0))
      else if c.Halt? then Some(s.(main := HaltLocking))
      else None
    case SettingCount(f) => Some(s.(main := SettingWork(f), numWorking := n))
    case SettingWork(f) => Some(s.(main := if s.numWorking > 0 then Locking(f) else OwnShare(f), work := Some(f)))
    case Locking(f) =>
      if s.mutex == Nobody then Some(s.(main := Broadcasting(f), mutex := MainThread)) else None
    case Broadcasting(f) => Some(s.(main := Unlocking(f), workers := Broadcast(s.workers)))
    case Unlocking(f) => Some(s.(main := OwnShare(f), mutex := Nobody))
    case OwnShare(f) => Some(s.(main := if n > 0 then Relocking(f) else Clearing(f), mainRuns := s.mainRuns + 1))
    case Relocking(f) =>
      if s.mutex == Nobody then Some(s.(main := Checking(f), mutex := MainThread)) else None
    case Checking(f) =>
      Some(if s.numWorking > 0 then s.(main := Resuming(f), mutex := Nobody) else s.(main := Releasing(f)))
    case Resumed(f) =>
      if s.mutex == Nobody then Some(s.(main := Releasing(f), mutex := MainThread)) else None
    case Releasing(f) => Some(s.(main := Clearing(f), mutex := Nobody))
    case Clearing(f) => Some(s.(main := Idle, work := None))
    case HaltLocking =>
      if s.mutex == Nobody then Some(s.(main := HaltClearing, mutex := MainThread)) else None
    case HaltClearing => Some(s.(main := HaltBroadcasting, work := None))
    case HaltBroadcasting => Some(s.(main := HaltUnlocking, workers := Broadcast(s.workers)))
    case HaltUnlocking => Some(s.(main := Joining, mutex := Nobody))
    case Joining =>
      if forall i :: 0 <= i < n ==> s.workers[i] == Exited then Some(s.(main := Done)) else None
    case Done => if c.Restart? then Some(Init(c.threads)) else None
    case _ => None
  }

  ghost predicate Step(s: State, s': State) {
    && |s.runs| == |s.workers|
    && ((exists i :: 0 <= i < |s.workers| && WorkerStep(s, i) == Some(s')) || (exists c :: MainStep(s, c) == Some(s')))
  }
}

/** What every reachable state keeps, and what follows for the barrier. */
module WorkerBarrier {
  import opened Options
  import opened WorkerThreads

  // ---- counting ----

  /** Has this worker still to report in this round? */
  predicate Pending(w: Worker) {
    w == Unborn || w == Entering || w == Locked || w == Woken || w == Leaving || w == Fetching || w == Calling
      || w.Working?
  }

  function Left(ws: seq<Worker>): nat {
    if ws == [] then 0 else (if Pending(ws[0]) then 1 else 0) + Left(ws[1..])
  }

  lemma {:induction false} LeftUpdate(ws: seq<Worker>, i: nat, w: Worker)
    requires i < |ws|
    ensures Left(ws[i := w]) == Left(ws) - (if Pending(ws[i]) then 1 else 0) + (if Pending(w) then 1 else 0)
  {
    if i == 0 {
      assert ws[i := w][1..] == ws[1..];
    } else {
      LeftUpdate(ws[1..], i - 1, w);
      assert ws[i := w][1..] == ws[1..][i - 1 := w];
    }
  }

  lemma LeftBounds(ws: seq<Worker>)
    ensures Left(ws) <= |ws|
    ensures Left(ws) == 0 <==> forall i :: 0 <= i < |ws| ==> !Pending(ws[i])
    ensures Left(ws) == |ws| <==> forall i :: 0 <= i < |ws| ==> Pending(ws[i])
  {
    if ws != [] {
      LeftBounds(ws[1..]);
      assert forall i :: 0 < i < |ws| ==> ws[i] == ws[1..][i - 1];
      assert forall i :: 0 <= i < |ws[1..]| ==> ws[1..][i] == ws[i + 1];
    }
  }

  // ---- the invariant ----

  predicate MainHolds(m: Main) {
    m.Creating? || m.StartLeaving? || m.Broadcasting? || m.Unlocking? || m.Checking? || m.Releasing?
      || m.HaltClearing? || m.HaltBroadcasting? || m.HaltUnlocking?
  }

  predicate WorkerHolds(w: Worker) {
    w == Locked || w == Signalling || w == Parking || w == Leaving
  }

  datatype Phase = BeforeStart | Start | Ready | Round | Halting | Halted

  function PhaseOf(m: Main): Phase {
    match m
    case Begin => BeforeStart
    case Creating(_) => Start
    case Starting => Start
    case StartWoken => Start
    case StartLeaving => Start
    case Idle => Ready
    case SettingCount(_) => Ready
    case SettingWork(_) => Ready
    case Locking(_) => Ready
    case Broadcasting(_) => Ready
    case HaltLocking => Halting
    case HaltClearing => Halting
    case HaltBroadcasting => Halting
    case HaltUnlocking => Halted
    case Joining => Halted
    case Done => Halted
    case _ => Round
  }

  /** The function of the round, from the moment it has been stored until it is cleared. */
  function WorkOf(m: Main): Option<Func> {
    match m
    case Locking(f) => Some(f)
    case Broadcasting(f) => Some(f)
    case Unlocking(f) => Some(f)
    case OwnShare(f) => Some(f)
    case Relocking(f) => Some(f)
    case Checking(f) => Some(f)
    case Resuming(f) => Some(f)
    case Resumed(f) => Some(f)
    case Releasing(f) => Some(f)
    case Clearing(f) => Some(f)
    case _ => None
  }

  /** In a round: not yet run, run but not reported, or reported. */
  predicate InRound(w: Worker, runs: nat, f: Func) {
    if w == Woken || w == Leaving || w == Fetching || w == Calling || w == Working(f) then runs == 0
    else (w == Entering || w == Locked || w == Signalling || w == Parking || w == Waiting) && runs == 1
  }

  predicate WorkerOk(s: State, i: nat)
    requires i < |s.workers| == |s.runs|
  {
    var w := s.workers[i];
    match PhaseOf(s.main)
    case BeforeStart => w == Unborn
    case Start =>
      if s.main.Creating? then w == (if i < s.main.made then Entering else Unborn)
      else w == Entering || w == Locked || w == Signalling || w == Parking || w == Waiting
    case Ready => w == Waiting
    case Round => WorkOf(s.main).Some? && InRound(w, s.runs[i], WorkOf(s.main).value)
    case Halting => w == Waiting || w == Woken || w == Leaving || w == Fetching || w == Exited
    case Halted => w == Woken || w == Leaving || w == Fetching || w == Exited
  }

  /** The main thread sleeps only while some worker is still going to signal it. */
  ghost predicate WillSignal(s: State) {
    s.numWorking > 0 || exists i :: 0 <= i < |s.workers| && s.workers[i] == Signalling
  }

  ghost predicate MutexOk(s: State) {
    && (s.mutex == MainThread <==> MainHolds(s.main))
    && (s.mutex.WorkerThread? ==> s.mutex.i < |s.workers|)
    && (forall i :: 0 <= i < |s.workers| ==> (s.mutex == WorkerThread(i) <==> WorkerHolds(s.workers[i])))
  }

  ghost predicate CountOk(s: State) {
    && (PhaseOf(s.main) == Start || PhaseOf(s.main) == Round ==> s.numWorking == Left(s.workers))
    && (s.main.SettingWork? || s.main.Locking? || s.main.Broadcasting? ==> s.numWorking == |s.workers|)
    && (forall i :: 0 <= i < |s.workers| && s.workers[i] == Signalling ==> s.numWorking == 0)
  }

  ghost predicate MainOk(s: State) {
    && (s.main.Creating? ==> s.main.made <= |s.workers| && |s.workers| > 0)
    && (s.main.Done? ==> forall i :: 0 <= i < |s.workers| ==> s.workers[i] == Exited)
    && (s.main.Starting? || s.main.Resuming? ==> WillSignal(s))
    && (s.main.StartWoken? || s.main.StartLeaving? || s.main.Resumed? || s.main.Releasing? || s.main.Clearing?
      ==> s.numWorking == 0)
    && (s.main.Clearing? || s.main.StartLeaving? || s.main.Releasing?
      ==> forall i :: 0 <= i < |s.workers| ==> s.workers[i] == Waiting)
    && (s.main.Locking? || s.main.Broadcasting? || s.main.Unlocking? || s.main.Relocking? ==> |s.workers| > 0)
    && (s.main.Checking? || s.main.Resuming? || s.main.Resumed? || s.main.Releasing? ==> |s.workers| > 0)
  }

  ghost predicate RunsOk(s: State) {
    && (s.main.SettingCount? || s.main.SettingWork? || s.main.Locking? || s.main.Broadcasting?
      ==> forall i :: 0 <= i < |s.runs| ==> s.runs[i] == 0)
    && (s.main.SettingCount? || s.main.SettingWork? || s.main.Locking? ==> s.mainRuns == 0)
    && (s.main.Broadcasting? || s.main.Unlocking? || s.main.OwnShare? ==> s.mainRuns == 0)
    && (s.main.Relocking? || s.main.Checking? || s.main.Resuming? ==> s.mainRuns == 1)
    && (s.main.Resumed? || s.main.Releasing? || s.main.Clearing? ==> s.mainRuns == 1)
  }

  ghost predicate Inv(s: State) {
    && |s.runs| == |s.workers| && s.work == WorkOf(s.main)
    && (forall i :: 0 <= i < |s.workers| ==> WorkerOk(s, i))
    && MutexOk(s) && CountOk(s) && MainOk(s) && RunsOk(s)
  }

  lemma InitInv(n: nat)
    ensures Inv(Init(n))
  {
  }

  // ---- steps of a worker ----

  lemma WorkerKeepsRuns(s: State, i: nat, s': State)
    requires Inv(s) && i < |s.workers| && WorkerStep(s, i) == Some(s')
    ensures |s'.runs| == |s'.workers| == |s.workers| && s'.work == WorkOf(s'.main) && RunsOk(s')
    ensures PhaseOf(s'.main) == PhaseOf(s.main) && WorkOf(s'.main) == WorkOf(s.main)
    ensures s'.main.Creating? ==> s'.main == s.main
  {
    assert WorkerOk(s, i);
  }

  lemma WorkerKeepsOther(s: State, i: nat, s': State, j: nat)
    requires Inv(s) && i < |s.workers| && WorkerStep(s, i) == Some(s') && j < |s.workers| && j != i
    ensures j < |s'.workers| == |s'.runs| && WorkerOk(s', j)
  {
    WorkerKeepsRuns(s, i, s');
    assert WorkerOk(s, j);
  }

  lemma WorkerKeepsItself(s: State, i: nat, s': State)
    requires Inv(s) && i < |s.workers| && WorkerStep(s, i) == Some(s')
    ensures i < |s'.workers| == |s'.runs| && WorkerOk(s', i)
  {
    assert WorkerOk(s, i);
  }

  lemma WorkerKeepsWorkers(s: State, i: nat, s': State)
    requires Inv(s) && i < |s.workers| && WorkerStep(s, i) == Some(s')
    ensures |s'.runs| == |s'.workers| && forall j :: 0 <= j < |s'.workers| ==> WorkerOk(s', j)
  {
    WorkerKeepsRuns(s, i, s');
    forall j | 0 <= j < |s'.workers| ensures WorkerOk(s', j) {
      if j == i {
        WorkerKeepsItself(s, i, s');
      } else {
        WorkerKeepsOther(s, i, s', j);
      }
    }
  }

  lemma WorkerKeepsMutex(s: State, i: nat, s': State)
    requires Inv(s) && i < |s.workers| && WorkerStep(s, i) == Some(s')
    ensures MutexOk(s')
  {
    assert WorkerOk(s, i);
  }

  lemma WorkerKeepsLeft(s: State, i: nat, s': State)
    requires Inv(s) && i < |s.workers| && WorkerStep(s, i) == Some(s')
    ensures PhaseOf(s'.main) == Start || PhaseOf(s'.main) == Round ==> s'.numWorking == Left(s'.workers)
  {
    assert WorkerOk(s, i);
    LeftUpdate(s.workers, i, s'.workers[i]);
  }

  lemma WorkerKeepsCount(s: State, i: nat, s': State)
    requires Inv(s) && i < |s.workers| && WorkerStep(s, i) == Some(s')
    ensures CountOk(s')
  {
    WorkerKeepsLeft(s, i, s');
    WorkerKeepsFull(s, i, s');
    WorkerKeepsSignal(s, i, s');
  }

  lemma WorkerKeepsFull(s: State, i: nat, s': State)
    requires Inv(s) && i < |s.workers| && WorkerStep(s, i) == Some(s')
    ensures s'.main.SettingWork? || s'.main.Locking? || s'.main.Broadcasting? ==> s'.numWorking == |s'.workers|
  {
    assert WorkerOk(s, i);
    LeftBounds(s.workers);
  }

  lemma WorkerKeepsSignal(s: State, i: nat, s': State)
    requires Inv(s) && i < |s.workers| && WorkerStep(s, i) == Some(s')
    ensures forall j :: 0 <= j < |s'.workers| && s'.workers[j] == Signalling ==> s'.numWorking == 0
  {
    assert WorkerOk(s, i);
    forall j | 0 <= j < |s'.workers| && s'.workers[j] == Signalling ensures s'.numWorking == 0 {
      assert WorkerOk(s, j);
    }
  }

  lemma WorkerKeepsMain(s: State, i: nat, s': State)
    requires Inv(s) && i < |s.workers| && WorkerStep(s, i) == Some(s')
    ensures MainOk(s')
  {
    assert WorkerOk(s, i);
    LeftBounds(s.workers);
    if s'.main.Starting? || s'.main.Resuming? {
      assert s'.workers[i] == Signalling || s'.numWorking > 0 || WillSignal(s');
    }
  }

  lemma WorkerKeeps(s: State, i: nat, s': State)
    requires Inv(s) && i < |s.workers| && WorkerStep(s, i) == Some(s')
    ensures Inv(s')
  {
    WorkerKeepsRuns(s, i, s');
    WorkerKeepsWorkers(s, i, s');
    WorkerKeepsMutex(s, i, s');
    WorkerKeepsCount(s, i, s');
    WorkerKeepsMain(s, i, s');
  }

  // ---- steps of the main thread ----

  /** When nobody is pending and nobody holds the mutex, every worker waits. */
  lemma AllWaiting(s: State)
    requires Inv(s) && (PhaseOf(s.main) == Start || PhaseOf(s.main) == Round) && !s.main.Creating? && s.numWorking == 0
    requires !s.mutex.WorkerThread?
    ensures forall i :: 0 <= i < |s.workers| ==> s.workers[i] == Waiting
  {
    LeftBounds(s.workers);
    forall i | 0 <= i < |s.workers| ensures s.workers[i] == Waiting {
      assert WorkerOk(s, i) && !Pending(s.workers[i]);
      assert s.mutex != WorkerThread(i);
    }
  }

  lemma MainKeepsRuns(s: State, c: Command, s': State)
    requires Inv(s) && MainStep(s, c) == Some(s') && !s.main.Done?
    ensures RunsOk(s')
  {
  }

  lemma MainKeepsWork(s: State, c: Command, s': State)
    requires Inv(s) && MainStep(s, c) == Some(s') && !s.main.Done?
    ensures |s'.runs| == |s'.workers| && s'.work == WorkOf(s'.main)
  {
  }

  lemma MainKeepsInRound(s: State, c: Command, s': State, j: nat)
    requires Inv(s) && MainStep(s, c) == Some(s') && PhaseOf(s.main) == Round && |s'.runs| == |s'.workers|
    requires j < |s.workers|
    ensures j < |s'.workers| && WorkerOk(s', j)
  {
    assert WorkerOk(s, j);
    if s.main.Checking? && s.numWorking == 0 {
      AllWaiting(s);
    }
  }

  lemma MainKeepsOutside(s: State, c: Command, s': State, j: nat)
    requires Inv(s) && MainStep(s, c) == Some(s') && PhaseOf(s.main) != Round && !s.main.Done?
    requires |s'.runs| == |s'.workers| && j < |s.workers|
    ensures j < |s'.workers| && WorkerOk(s', j)
  {
    assert WorkerOk(s, j);
  }

  lemma MainKeepsWorkers(s: State, c: Command, s': State)
    requires Inv(s) && MainStep(s, c) == Some(s') && !s.main.Done? && |s'.runs| == |s'.workers|
    ensures forall j :: 0 <= j < |s'.workers| ==> WorkerOk(s', j)
  {
    forall j | 0 <= j < |s.workers| ensures j < |s'.workers| && WorkerOk(s', j) {
      if PhaseOf(s.main) == Round {
        MainKeepsInRound(s, c, s', j);
      } else {
        MainKeepsOutside(s, c, s', j);
      }
    }
  }

  lemma MainKeepsHolder(s: State, c: Command, s': State, j: nat)
    requires Inv(s) && MainStep(s, c) == Some(s') && !s.main.Done? && j < |s.workers|
    ensures |s'.workers| == |s.workers| && (s'.mutex == WorkerThread(j) <==> WorkerHolds(s'.workers[j]))
  {
    assert WorkerOk(s, j);
  }

  lemma MainKeepsOwn(s: State, c: Command, s': State)
    requires Inv(s) && MainStep(s, c) == Some(s') && !s.main.Done?
    ensures |s'.workers| == |s.workers| && (s'.mutex == MainThread <==> MainHolds(s'.main))
    ensures s'.mutex.WorkerThread? ==> s'.mutex.i < |s'.workers|
  {
  }

  lemma MainKeepsMutex(s: State, c: Command, s': State)
    requires Inv(s) && MainStep(s, c) == Some(s') && !s.main.Done?
    ensures MutexOk(s')
  {
    MainKeepsOwn(s, c, s');
    forall j | 0 <= j < |s.workers| ensures s'.mutex == WorkerThread(j) <==> WorkerHolds(s'.workers[j]) {
      MainKeepsHolder(s, c, s', j);
    }
  }

  lemma MainKeepsCount(s: State, c: Command, s': State)
    requires Inv(s) && MainStep(s, c) == Some(s') && !s.main.Done?
    ensures CountOk(s')
  {
    MainKeepsLeft(s, c, s');
    forall j | 0 <= j < |s.workers| ensures s'.workers[j] == Signalling ==> s'.numWorking == 0 {
      assert WorkerOk(s, j);
    }
  }

  lemma MainKeepsLeft(s: State, c: Command, s': State)
    requires Inv(s) && MainStep(s, c) == Some(s') && !s.main.Done?
    ensures PhaseOf(s'.main) == Start || PhaseOf(s'.main) == Round ==> s'.numWorking == Left(s'.workers)
  {
    if s.main.Begin? || s.main.SettingWork? || s.main.Broadcasting? {
      RoundOpens(s, c, s');
    } else if s.main.Creating? && s.main.made < |s.workers| {
      assert WorkerOk(s, s.main.made);
      LeftUpdate(s.workers, s.main.made, Entering);
    }
  }

  /** All workers are pending when a round or the start-up begins. */
  lemma RoundOpens(s: State, c: Command, s': State)
    requires Inv(s) && MainStep(s, c) == Some(s') && (s.main.Begin? || s.main.SettingWork? || s.main.Broadcasting?)
    ensures PhaseOf(s'.main) == Start || PhaseOf(s'.main) == Round ==> s'.numWorking == Left(s'.workers)
  {
    LeftBounds(s'.workers);
    forall i | 0 <= i < |s.workers| ensures s.workers[i] == if s.main.Begin? then Unborn else Waiting {
      assert WorkerOk(s, i);
    }
  }

  lemma MainKeepsSleep(s: State, c: Command, s': State)
    requires Inv(s) && MainStep(s, c) == Some(s') && !s.main.Done?
    ensures s'.main.Starting? || s'.main.Resuming? ==> WillSignal(s')
  {
    LeftBounds(s.workers);
    if s.main.Creating? {
      forall i | 0 <= i < |s.workers| ensures Pending(s.workers[i]) {
        assert WorkerOk(s, i);
      }
    }
  }

  lemma MainKeepsMain(s: State, c: Command, s': State)
    requires Inv(s) && MainStep(s, c) == Some(s') && !s.main.Done?
    ensures MainOk(s')
  {
    MainKeepsSleep(s, c, s');
    if (s.main.StartWoken? || s.main.Checking? || s.main.Resumed?) && s.numWorking == 0 {
      AllWaiting(s);
    }
  }

  lemma MainKeeps(s: State, c: Command, s': State)
    requires Inv(s) && MainStep(s, c) == Some(s')
    ensures Inv(s')
  {
    if s.main.Done? {
      InitInv(c.threads);
      return;
    }
    MainKeepsWork(s, c, s');
    MainKeepsRuns(s, c, s');
    MainKeepsWorkers(s, c, s');
    MainKeepsMutex(s, c, s');
    MainKeepsCount(s, c, s');
    MainKeepsMain(s, c, s');
  }

  lemma StepKeeps(s: State, s': State)
    requires Inv(s) && Step(s, s')
    ensures Inv(s')
  {
    if i :| 0 <= i < |s.workers| && WorkerStep(s, i) == Some(s') {
      WorkerKeeps(s, i, s');
    } else {
      var c :| MainStep(s, c) == Some(s');
      MainKeeps(s, c, s');
    }
  }

  // ---- whole runs ----

  ghost predicate StepAt(trace: seq<State>, k: int)
    requires 0 <= k < |trace| - 1
  {
    Step(trace[k], trace[k + 1])
  }

  ghost predicate Run(trace: seq<State>) {
    forall k {:trigger StepAt(trace, k)} :: 0 <= k < |trace| - 1 ==> StepAt(trace, k)
  }

  /** Every interleaving from the start keeps the invariant. */
  lemma {:induction false} RunKeeps(trace: seq<State>, k: nat)
    requires Run(trace) && k < |trace| && Inv(trace[0])
    ensures Inv(trace[k])
  {
    if k > 0 {
      RunKeeps(trace, k - 1);
      NextKeeps(trace, k - 1);
    }
  }

  lemma NextKeeps(trace: seq<State>, k: nat)
    requires Run(trace) && k + 1 < |trace| && Inv(trace[k])
    ensures Inv(trace[k + 1])
  {
    assert StepAt(trace, k);
    StepKeeps(trace[k], trace[k + 1]);
  }

  /** RunWorkers returns only when every worker has run the function exactly once, and so has the main thread; all
      workers wait again. */
  lemma RoundComplete(s: State, c: Command, s': State)
    requires Inv(s) && s.main.Clearing? && MainStep(s, c) == Some(s')
    ensures s'.main == Idle && s'.mainRuns == 1 && s'.work == None
    ensures forall i :: 0 <= i < |s'.workers| ==> s'.workers[i] == Waiting && s'.runs[i] == 1
  {
    forall i | 0 <= i < |s.workers| ensures s.runs[i] == 1 {
      assert WorkerOk(s, i);
    }
  }

  function RoundFunc(m: Main): Option<Func> {
    match m
    case SettingCount(f) => Some(f)
    case SettingWork(f) => Some(f)
    case _ => WorkOf(m)
  }

  /** A worker only ever runs the function of the round, never a NULL one. */
  lemma OnlyTheGivenFunction(s: State, i: nat)
    requires Inv(s) && i < |s.workers|
    ensures s.workers[i] != Crashed
    ensures s.workers[i].Working? ==> RoundFunc(s.main) == Some(s.workers[i].func)
  {
    assert WorkerOk(s, i);
  }

  /** The round keeps its function until it returns. */
  lemma SameRound(s: State, s': State)
    requires Step(s, s') && RoundFunc(s.main).Some?
    ensures RoundFunc(s'.main) == RoundFunc(s.main) || (s.main.Clearing? && s'.main == Idle)
  {
    if j :| 0 <= j < |s.workers| && WorkerStep(s, j) == Some(s') {
    } else {
      var c :| MainStep(s, c) == Some(s');
    }
  }

  /** Is the main thread inside one of the three functions? */
  predicate Busy(m: Main) {
    m != Idle && m != Done
  }

  /** While the main thread has something to do, somebody can move. */
  lemma NoDeadlock(s: State)
    requires Inv(s) && Busy(s.main)
    ensures exists s' :: Step(s, s')
  {
    if s.mutex.WorkerThread? {
      assert WorkerHolds(s.workers[s.mutex.i]);
      Moves(s, s.mutex.i);
    } else if s.main.Starting? || s.main.Resuming? {
      var i := SomePending(s);
      Moves(s, i);
    } else if s.main.Joining? && exists i :: 0 <= i < |s.workers| && s.workers[i] != Exited {
      var i :| 0 <= i < |s.workers| && s.workers[i] != Exited;
      assert WorkerOk(s, i);
      Moves(s, i);
    } else {
      assert MainStep(s, Halt).Some?;
      assert Step(s, MainStep(s, Halt).value);
    }
  }

  lemma Moves(s: State, i: nat)
    requires i < |s.workers| == |s.runs| && WorkerStep(s, i).Some?
    ensures exists s' :: Step(s, s')
  {
    assert Step(s, WorkerStep(s, i).value);
  }

  lemma SomePending(s: State) returns (i: nat)
    requires Inv(s) && (s.main.Starting? || s.main.Resuming?) && s.mutex == Nobody
    ensures i < |s.workers| && WorkerStep(s, i).Some?
  {
    LeftBounds(s.workers);
    assert forall j :: 0 <= j < |s.workers| ==> s.mutex != WorkerThread(j);
    i :| 0 <= i < |s.workers| && Pending(s.workers[i]);
    assert WorkerOk(s, i);
  }

  // ---- progress ----

  function WorkerRank(w: Worker): nat {
    match w
    case Woken => 9
    case Leaving => 8
    case Fetching => 7
    case Calling => 6
    case Working(_) => 5
    case Entering => 4
    case Locked => 3
    case Signalling => 2
    case Parking => 1
    case _ => 0
  }

  function RankSum(ws: seq<Worker>): nat {
    if ws == [] then 0 else WorkerRank(ws[0]) + RankSum(ws[1..])
  }

  function MainRank(m: Main, n: nat): int {
    match m
    case Begin => 5 * n + 5
    case Creating(k) => 5 * (n - k) + 4
    case Starting => 3
    case StartWoken => 2
    case StartLeaving => 1
    case SettingCount(_) => 9 * n + 11
    case SettingWork(_) => 9 * n + 10
    case Locking(_) => 9 * n + 9
    case Broadcasting(_) => 9 * n + 8
    case Unlocking(_) => 7
    case OwnShare(_) => 6
    case Relocking(_) => 5
    case Checking(_) => 4
    case Resuming(_) => 3
    case Resumed(_) => 2
    case Releasing(_) => 1
    case Clearing(_) => 0
    case HaltLocking => 9 * n + 4
    case HaltClearing => 9 * n + 3
    case HaltBroadcasting => 9 * n + 2
    case HaltUnlocking => 1
    case Joining => 0
    case _ => -1
  }

  function Rank(s: State): int {
    1 + MainRank(s.main, |s.workers|) + RankSum(s.workers)
  }

  lemma {:induction false} RankUpdate(ws: seq<Worker>, i: nat, w: Worker)
    requires i < |ws|
    ensures RankSum(ws[i := w]) == RankSum(ws) - WorkerRank(ws[i]) + WorkerRank(w)
  {
    if i == 0 {
      assert ws[i := w][1..] == ws[1..];
    } else {
      RankUpdate(ws[1..], i - 1, w);
      assert ws[i := w][1..] == ws[1..][i - 1 := w];
    }
  }

  lemma RankBroadcast(ws: seq<Worker>)
    ensures RankSum(Broadcast(ws)) <= RankSum(ws) + 9 * |ws|
  {
    if ws != [] {
      RankBroadcast(ws[1..]);
      assert Broadcast(ws)[1..] == Broadcast(ws[1..]);
    }
  }

  lemma WorkerMoves(s: State, i: nat, s': State)
    requires Inv(s) && i < |s.workers| && WorkerStep(s, i) == Some(s') && s.main != Idle
    ensures s'.workers == s.workers[i := s'.workers[i]] && WorkerRank(s'.workers[i]) < WorkerRank(s.workers[i])
    ensures MainRank(s'.main, |s.workers|) <= MainRank(s.main, |s.workers|)
  {
    assert WorkerOk(s, i);
  }

  lemma WorkerDescends(s: State, i: nat, s': State)
    requires Inv(s) && i < |s.workers| && WorkerStep(s, i) == Some(s') && s.main != Idle
    ensures Rank(s') < Rank(s)
  {
    WorkerMoves(s, i, s');
    RankUpdate(s.workers, i, s'.workers[i]);
  }

  lemma CreatingDescends(s: State, c: Command, s': State)
    requires Inv(s) && MainStep(s, c) == Some(s') && s.main.Creating? && s.main.made < |s.workers|
    ensures Rank(s') < Rank(s)
  {
    assert WorkerOk(s, s.main.made);
    RankUpdate(s.workers, s.main.made, Entering);
  }

  lemma BroadcastDescends(s: State, c: Command, s': State)
    requires MainStep(s, c) == Some(s') && (s.main.Broadcasting? || s.main.HaltBroadcasting?)
    ensures Rank(s') < Rank(s)
  {
    RankBroadcast(s.workers);
  }

  lemma MainMoves(s: State, c: Command, s': State)
    requires MainStep(s, c) == Some(s') && Busy(s.main) && !s.main.Broadcasting? && !s.main.HaltBroadcasting?
    requires s.main.Creating? ==> s.main.made == |s.workers|
    ensures s'.workers == s.workers && MainRank(s'.main, |s.workers|) < MainRank(s.main, |s.workers|)
  {
  }

  lemma MainDescends(s: State, c: Command, s': State)
    requires Inv(s) && MainStep(s, c) == Some(s') && Busy(s.main)
    ensures Rank(s') < Rank(s)
  {
    if s.main.Creating? && s.main.made < |s.workers| {
      CreatingDescends(s, c, s');
    } else if s.main.Broadcasting? || s.main.HaltBroadcasting? {
      BroadcastDescends(s, c, s');
    } else {
      MainMoves(s, c, s');
    }
  }

  /** Every step but a new command brings the main thread closer to its return. */
  lemma StepDescends(s: State, s': State)
    requires Inv(s) && Step(s, s') && Busy(s.main)
    ensures 0 <= Rank(s') < Rank(s)
  {
    StepKeeps(s, s');
    RankBound(s');
    if i :| 0 <= i < |s.workers| && WorkerStep(s, i) == Some(s') {
      WorkerDescends(s, i, s');
    } else {
      var c :| MainStep(s, c) == Some(s');
      MainDescends(s, c, s');
    }
  }

  lemma RankBound(s: State)
    requires Inv(s)
    ensures Rank(s) >= 0
  {
  }

  /** So no run goes on for longer than Rank without the main thread becoming idle: RunWorkers, the start-up and
      HaltThreads end in every interleaving. */
  lemma {:induction false} RunEnds(trace: seq<State>)
    requires trace != [] && Run(trace) && Inv(trace[0]) && forall k :: 0 <= k < |trace| - 1 ==> Busy(trace[k].main)
    ensures |trace| <= 1 + if Rank(trace[0]) >= 0 then Rank(trace[0]) else 0
  {
    if |trace| > 1 {
      assert StepAt(trace, 0);
      StepKeeps(trace[0], trace[1]);
      StepDescends(trace[0], trace[1]);
      forall k | 0 <= k < |trace[1..]| - 1 ensures StepAt(trace[1..], k) {
        assert StepAt(trace, k + 1);
      }
      RunEnds(trace[1..]);
    }
  }

  /** When HaltThreads has returned, every worker has left its loop. */
  lemma HaltEnds(s: State, c: Command, s': State)
    requires Inv(s) && MainStep(s, c) == Some(s') && s'.main == Done
    ensures forall i :: 0 <= i < |s'.workers| ==> s'.workers[i] == Exited
  {
  }

  // ---- from the very start ----

  /** Every state of every interleaving of any number of workers. */
  lemma EveryRun(n: nat, trace: seq<State>, k: nat)
    requires Run(trace) && k < |trace| && trace[0] == Init(n)
    ensures Inv(trace[k])
    ensures Busy(trace[k].main) ==> exists s' :: Step(trace[k], s')
    ensures trace[k].main == Done ==> forall i :: 0 <= i < |trace[k].workers| ==> trace[k].workers[i] == Exited
    ensures forall i :: 0 <= i < |trace[k].workers| ==> trace[k].workers[i] != Crashed
  {
    InitInv(n);
    RunKeeps(trace, k);
    if Busy(trace[k].main) {
      NoDeadlock(trace[k]);
    }
    forall i | 0 <= i < |trace[k].workers| ensures trace[k].workers[i] != Crashed {
      OnlyTheGivenFunction(trace[k], i);
    }
  }

  /** Whenever RunWorkers returns, in whatever interleaving, the round is complete. */
  lemma EveryRound(n: nat, trace: seq<State>, k: nat)
    requires Run(trace) && k + 1 < |trace| && trace[0] == Init(n) && trace[k].main.Clearing?
    requires trace[k + 1].main == Idle
    ensures var s := trace[k + 1];
            s.mainRuns == 1 && |s.runs| == |s.workers| && forall i :: 0 <= i < |s.workers| ==>
              s.workers[i] == Waiting && s.runs[i] == 1
  {
    EveryRun(n, trace, k);
    var s, s' := trace[k], trace[k + 1];
    assert StepAt(trace, k);
    if i :| 0 <= i < |s.workers| && WorkerStep(s, i) == Some(s') {
    } else {
      var c :| MainStep(s, c) == Some(s');
      RoundComplete(s, c, s');
    }
  }

  // ---- the function that was asked for ----

  /** One step from state k of the trace, the caller asking for c if it is the main thread's turn to ask. */
  ghost predicate StepFor(trace: seq<State>, commands: seq<Command>, k: int)
    requires 0 <= k < |trace| - 1 && |commands| == |trace| - 1
  {
    && |trace[k].runs| == |trace[k].workers|
    && ((exists i :: 0 <= i < |trace[k].workers| && WorkerStep(trace[k], i) == Some(trace[k + 1]))
        || MainStep(trace[k], commands[k]) == Some(trace[k + 1]))
  }

  /** A run with the commands of the caller. */
  ghost predicate CommandRun(trace: seq<State>, commands: seq<Command>) {
    |trace| == |commands| + 1
    && forall k {:trigger StepFor(trace, commands, k)} :: 0 <= k < |commands| ==> StepFor(trace, commands, k)
  }

  lemma CommandsRun(trace: seq<State>, commands: seq<Command>)
    requires CommandRun(trace, commands)
    ensures Run(trace)
  {
    forall k | 0 <= k < |trace| - 1 ensures StepAt(trace, k) {
      assert StepFor(trace, commands, k);
    }
  }

  /** From the first to the last of these states the main thread is in a round of f. */
  ghost predicate InRoundOf(trace: seq<State>, a: nat, b: nat, f: Func) {
    a <= b < |trace| && forall j :: a <= j <= b ==> RoundFunc(trace[j].main) == Some(f)
  }

  lemma {:induction false} StaysInRound(trace: seq<State>, a: nat, b: nat, f: Func)
    requires Run(trace) && a <= b < |trace| && RoundFunc(trace[a].main) == Some(f)
    requires forall j :: a <= j <= b ==> trace[j].main != Idle
    ensures InRoundOf(trace, a, b, f)
    decreases b - a
  {
    if a < b {
      StaysInRound(trace, a, b - 1, f);
      assert StepAt(trace, b - 1);
      SameRound(trace[b - 1], trace[b]);
    }
  }

  /** In a round a step finishes the function of worker i only if it was in it. */
  lemma RunsStep(s: State, s': State, i: nat)
    requires Step(s, s') && RoundFunc(s.main).Some? && i < |s.workers|
    ensures |s'.runs| == |s'.workers| == |s.workers|
    ensures s'.runs[i] == s.runs[i] || s.workers[i].Working?
    ensures s'.mainRuns == s.mainRuns || s.main.OwnShare?
  {
    if j :| 0 <= j < |s.workers| && WorkerStep(s, j) == Some(s') {
    } else {
      var c :| MainStep(s, c) == Some(s');
    }
  }

  lemma {:induction false} WasWorking(trace: seq<State>, a: nat, b: nat, f: Func, i: nat) returns (j: nat)
    requires Run(trace) && InRoundOf(trace, a, b, f) && b + 1 < |trace| && i < |trace[a].workers|
    requires |trace[a].runs| == |trace[a].workers| && i < |trace[b + 1].runs|
    requires trace[b + 1].runs[i] != trace[a].runs[i]
    ensures a <= j <= b && i < |trace[j].workers| && trace[j].workers[i].Working?
    decreases b - a
  {
    assert StepAt(trace, a);
    RunsStep(trace[a], trace[a + 1], i);
    if trace[a].workers[i].Working? {
      j := a;
    } else {
      j := WasWorking(trace, a + 1, b, f, i);
    }
  }

  lemma {:induction false} HadItsShare(trace: seq<State>, a: nat, b: nat, f: Func) returns (j: nat)
    requires Run(trace) && InRoundOf(trace, a, b, f) && b + 1 < |trace| && |trace[a].runs| == |trace[a].workers|
    requires trace[b + 1].mainRuns != trace[a].mainRuns
    ensures a <= j <= b && trace[j].main == OwnShare(f)
    decreases b - a
  {
    assert StepAt(trace, a);
    ShareStep(trace[a], trace[a + 1]);
    if trace[a].main.OwnShare? {
      j := a;
    } else {
      j := HadItsShare(trace, a + 1, b, f);
    }
  }

  lemma ShareStep(s: State, s': State)
    requires Step(s, s') && RoundFunc(s.main).Some?
    ensures |s'.runs| == |s'.workers|
    ensures s'.mainRuns == s.mainRuns || s.main.OwnShare?
  {
    if j :| 0 <= j < |s.workers| && WorkerStep(s, j) == Some(s') {
    } else {
      var c :| MainStep(s, c) == Some(s');
    }
  }

  lemma {:induction false} SameCrew(trace: seq<State>, a: nat, b: nat, f: Func)
    requires Run(trace) && InRoundOf(trace, a, b, f) && b + 1 < |trace|
    ensures |trace[b + 1].workers| == |trace[a].workers|
    ensures forall j :: a <= j <= b ==> |trace[j].workers| == |trace[a].workers|
    decreases b - a
  {
    if a < b {
      SameCrew(trace, a, b - 1, f);
    }
    assert StepAt(trace, b);
    CrewStep(trace[b], trace[b + 1]);
  }

  lemma CrewStep(s: State, s': State)
    requires Step(s, s') && RoundFunc(s.main).Some?
    ensures |s'.workers| == |s.workers|
  {
    if j :| 0 <= j < |s.workers| && WorkerStep(s, j) == Some(s') {
    } else {
      var c :| MainStep(s, c) == Some(s');
    }
  }

  /** The call of RunWorkers with f: the step at k makes it, and at m the main thread is idle again. */
  ghost predicate CalledWith(trace: seq<State>, commands: seq<Command>, k: nat, m: nat, f: Func) {
    && CommandRun(trace, commands) && k + 1 < m < |trace| && commands[k] == RunFunc(f)
    && trace[k].main == Idle && MainStep(trace[k], commands[k]) == Some(trace[k + 1])
    && trace[m].main == Idle && forall j :: k < j < m ==> trace[j].main != Idle
  }

  /** A call is one round: all counts start at 0 and end at 1. */
  lemma CallIsRound(n: nat, trace: seq<State>, commands: seq<Command>, k: nat, m: nat, f: Func)
    requires CalledWith(trace, commands, k, m, f) && trace[0] == Init(n)
    ensures Run(trace) && InRoundOf(trace, k + 1, m - 1, f)
    ensures Counted(trace[k + 1], 0) && Counted(trace[m], 1) && |trace[k + 1].workers| == |trace[k].workers|
  {
    CommandsRun(trace, commands);
    StaysInRound(trace, k + 1, m - 1, f);
    EveryRun(n, trace, k);
    CallOpens(trace[k], f, trace[k + 1]);
    assert StepAt(trace, m - 1);
    SameRound(trace[m - 1], trace[m]);
    EveryRound(n, trace, m - 1);
  }

  /** Everybody has finished the function of the round so many times. */
  ghost predicate Counted(s: State, times: nat) {
    |s.runs| == |s.workers| && s.mainRuns == times && forall i :: 0 <= i < |s.runs| ==> s.runs[i] == times
  }

  lemma CallOpens(s: State, f: Func, s': State)
    requires Inv(s) && s.main == Idle && MainStep(s, RunFunc(f)) == Some(s')
    ensures RoundFunc(s'.main) == Some(f) && Counted(s', 0) && |s'.workers| == |s.workers|
  {
  }

  /** Nobody is in another function than f. */
  predicate OnlyIn(s: State, f: Func) {
    && (s.main.OwnShare? ==> s.main == OwnShare(f))
    && forall i :: 0 <= i < |s.workers| && s.workers[i].Working? ==> s.workers[i] == Working(f)
  }

  /** At some moment between k and m worker i has been in f. */
  ghost predicate WasIn(trace: seq<State>, k: nat, m: nat, i: nat, f: Func) {
    exists j :: k < j < m < |trace| && i < |trace[j].workers| && trace[j].workers[i] == Working(f)
  }

  ghost predicate MainWasIn(trace: seq<State>, k: nat, m: nat, f: Func) {
    exists j :: k < j < m < |trace| && trace[j].main == OwnShare(f)
  }

  lemma OnlyInRound(s: State, f: Func)
    requires Inv(s) && (RoundFunc(s.main) == Some(f) || s.main == Idle)
    ensures OnlyIn(s, f)
  {
    forall i | 0 <= i < |s.workers| && s.workers[i].Working? ensures s.workers[i] == Working(f) {
      OnlyTheGivenFunction(s, i);
    }
  }

  lemma AllOnlyIn(n: nat, trace: seq<State>, k: nat, m: nat, f: Func)
    requires Run(trace) && trace != [] && trace[0] == Init(n) && k + 1 < m < |trace|
    requires InRoundOf(trace, k + 1, m - 1, f) && trace[k].main == Idle && trace[m].main == Idle
    ensures forall j :: k <= j <= m ==> OnlyIn(trace[j], f)
  {
    forall j | k <= j <= m ensures OnlyIn(trace[j], f) {
      EveryRun(n, trace, j);
      OnlyInRound(trace[j], f);
    }
  }

  lemma WorkerWasIn(trace: seq<State>, k: nat, m: nat, i: nat, f: Func)
    requires Run(trace) && k + 1 < m < |trace| && InRoundOf(trace, k + 1, m - 1, f) && i < |trace[k + 1].workers|
    requires Counted(trace[k + 1], 0) && Counted(trace[m], 1) && |trace[m].workers| == |trace[k + 1].workers|
    requires forall j :: k <= j <= m ==> OnlyIn(trace[j], f)
    ensures WasIn(trace, k, m, i, f)
  {
    var j := WasWorking(trace, k + 1, m - 1, f, i);
    assert OnlyIn(trace[j], f);
  }

  /** Every call of RunWorkers, in whatever interleaving, runs the function it was given and no other: each worker has
      been in it, once, and so has the main thread. */
  lemma GivenFunction(n: nat, trace: seq<State>, commands: seq<Command>, k: nat, m: nat, f: Func)
    requires CalledWith(trace, commands, k, m, f) && trace[0] == Init(n)
    ensures forall j :: k <= j <= m ==> OnlyIn(trace[j], f)
    ensures |trace[m].workers| == |trace[k].workers| && Counted(trace[m], 1) && MainWasIn(trace, k, m, f)
    ensures forall i :: 0 <= i < |trace[k].workers| ==> WasIn(trace, k, m, i, f)
  {
    CallIsRound(n, trace, commands, k, m, f);
    SameCrew(trace, k + 1, m - 1, f);
    AllOnlyIn(n, trace, k, m, f);
    forall i | 0 <= i < |trace[k].workers| ensures WasIn(trace, k, m, i, f) {
      WorkerWasIn(trace, k, m, i, f);
    }
    var j := HadItsShare(trace, k + 1, m - 1, f);
  }
}
