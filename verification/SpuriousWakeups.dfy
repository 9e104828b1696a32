/** What happens when a thread wakes up by itself, which POSIX allows: exactly when it breaks the barrier. */
module SpuriousWakeups {
  import opened Options
  import opened WorkerThreads
  import opened WorkerBarrier

  /** A worker that has not come to its wait after starting or after the function. */
  predicate NotYetWaiting(w: Worker) {
    w == Unborn || w == Entering || w == Locked || w == Signalling || w == Parking
  }

  /** What must not happen to worker i: it calls a NULL function; it leaves before the threads are halted; it runs the
      function twice in a round; RunWorkers returns before it has run the function once and waits; the start-up returns
      before it waits. */
  predicate BadAt(s: State, i: nat)
    requires i < |s.workers| == |s.runs|
  {
    var w := s.workers[i];
    || w == Crashed
    || (w == Exited && PhaseOf(s.main) != Halting && PhaseOf(s.main) != Halted)
    || (PhaseOf(s.main) == Round && s.runs[i] >= 2)
    || (s.main.Clearing? && !(w == Waiting && s.runs[i] == 1))
    || (s.main == Idle && NotYetWaiting(w))
  }

  ghost predicate Bad(s: State) {
    |s.runs| == |s.workers| && exists i :: 0 <= i < |s.workers| && BadAt(s, i)
  }

  ghost predicate RunToBad(trace: seq<State>, x: State) {
    trace != [] && Run(trace) && trace[0] == x && Bad(trace[|trace| - 1])
  }

  /** Some run from x comes to a bad state. */
  ghost predicate Harmful(x: State) {
    exists trace :: RunToBad(trace, x)
  }

  lemma InvGood(s: State)
    requires Inv(s)
    ensures !Bad(s)
  {
    forall i | 0 <= i < |s.workers| ensures !BadAt(s, i) {
      assert WorkerOk(s, i);
    }
  }

  lemma InvRunGood(trace: seq<State>)
    requires trace != [] && Run(trace) && Inv(trace[0])
    ensures !Bad(trace[|trace| - 1])
  {
    RunKeeps(trace, |trace| - 1);
    InvGood(trace[|trace| - 1]);
  }

  lemma InvHarmless(x: State)
    requires Inv(x)
    ensures !Harmful(x)
  {
    if Harmful(x) {
      var trace :| RunToBad(trace, x);
      InvRunGood(trace);
    }
  }

  lemma Rest(trace: seq<State>)
    requires |trace| > 1 && Run(trace) && Bad(trace[|trace| - 1])
    ensures Step(trace[0], trace[1]) && Harmful(trace[1])
  {
    assert StepAt(trace, 0);
    var rest := trace[1..];
    forall k | 0 <= k < |rest| - 1 ensures StepAt(rest, k) {
      assert StepAt(trace, k + 1);
    }
    assert RunToBad(rest, trace[1]);
  }

  lemma StepsHarmless(x: State)
    requires !Bad(x) && forall y :: Step(x, y) ==> !Harmful(y)
    ensures !Harmful(x)
  {
    if Harmful(x) {
      var trace :| RunToBad(trace, x);
      if |trace| > 1 {
        Rest(trace);
      }
    }
  }

  /** A set of states that has every bad state and every state from which one step leads into it. */
  ghost predicate Lost(lost: iset<State>) {
    (forall x :: Bad(x) ==> x in lost) && forall x, y :: Step(x, y) && y in lost ==> x in lost
  }

  /** The harmful states are such a set. */
  lemma HarmfulLost() returns (lost: iset<State>)
    ensures Lost(lost) && forall x :: x in lost <==> Harmful(x)
  {
    lost := iset x: State | Harmful(x);
    forall x | Bad(x) ensures Harmful(x) {
      BadHarmful(x);
    }
    forall x, y | Step(x, y) && y in lost ensures x in lost {
      StepHarmful(x, y);
    }
  }

  lemma BadHarmful(x: State)
    requires Bad(x)
    ensures Harmful(x)
  {
    assert Run([x]);
    assert RunToBad([x], x);
  }

  lemma StepHarmful(x: State, y: State)
    requires Step(x, y) && Harmful(y)
    ensures Harmful(x)
  {
    var trace :| RunToBad(trace, y);
    Longer(x, y, trace);
  }

  lemma Longer(x: State, y: State, trace: seq<State>)
    requires RunToBad(trace, y) && Step(x, y)
    ensures RunToBad([x] + trace, x)
  {
    var longer := [x] + trace;
    forall k | 0 <= k < |longer| - 1 ensures StepAt(longer, k) {
      if k > 0 {
        assert StepAt(trace, k - 1);
      }
    }
    assert longer[|longer| - 1] == trace[|trace| - 1];
  }

  // ---- a worker wakes up ----

  function Spurious(s: State, i: nat): State
    requires i < |s.workers| && s.workers[i] == Waiting
  {
    s.(workers := s.workers[i := Woken])
  }

  lemma WorkerLost(lost: iset<State>, x: State, i: nat, y: State)
    requires Lost(lost) && i < |x.workers| == |x.runs| && WorkerStep(x, i) == Some(y) && y in lost
    ensures x in lost
  {
    assert Step(x, y);
  }

  function Put(x: State, i: nat, w: Worker): State
    requires i < |x.workers|
  {
    x.(workers := x.workers[i := w])
  }

  lemma PutTwice(x: State, i: nat, v: Worker, w: Worker)
    requires i < |x.workers|
    ensures Put(Put(x, i, v), i, w) == Put(x, i, w)
  {
    assert x.workers[i := v][i := w] == x.workers[i := w];
  }

  /** An awake worker takes the mutex, gives it back, and goes on to read the work. */
  lemma Proceeds(lost: iset<State>, x: State, i: nat)
    requires Lost(lost) && i < |x.workers| == |x.runs| && x.workers[i] == Woken && x.mutex == Nobody
    requires Put(x, i, Fetching) in lost
    ensures x in lost
  {
    var x1 := Put(x, i, Leaving).(mutex := WorkerThread(i));
    PutTwice(x, i, Leaving, Fetching);
    WorkerLost(lost, x1, i, Put(x, i, Fetching));
    WorkerLost(lost, x, i, x1);
  }

  /** An awake worker that finds no work leaves. */
  lemma LeavesEarly(lost: iset<State>, x: State, i: nat)
    requires Lost(lost) && i < |x.workers| == |x.runs| && x.workers[i] == Woken && x.mutex == Nobody && x.work == None
    requires PhaseOf(x.main) != Halting && PhaseOf(x.main) != Halted
    ensures x in lost
  {
    var gone := Put(x, i, Exited);
    assert BadAt(gone, i);
    PutTwice(x, i, Fetching, Exited);
    WorkerLost(lost, Put(x, i, Fetching), i, gone);
    Proceeds(lost, x, i);
  }

  /** Worker i once it has run the function. */
  function RanIt(x: State, i: nat): State
    requires i < |x.workers| == |x.runs|
  {
    x.(workers := x.workers[i := Entering], runs := x.runs[i := x.runs[i] + 1])
  }

  /** A worker that reads the work runs it. */
  lemma Calls(lost: iset<State>, x: State, i: nat, f: Func)
    requires Lost(lost) && i < |x.workers| == |x.runs| && x.work == Some(f) && RanIt(x, i) in lost
    ensures Put(x, i, Fetching) in lost
  {
    PutTwice(x, i, Working(f), Entering);
    WorkerLost(lost, Put(x, i, Working(f)), i, RanIt(x, i));
    PutTwice(x, i, Calling, Working(f));
    WorkerLost(lost, Put(x, i, Calling), i, Put(x, i, Working(f)));
    PutTwice(x, i, Fetching, Calling);
    WorkerLost(lost, Put(x, i, Fetching), i, Put(x, i, Calling));
  }

  /** In a round a worker that has finished and wakes up runs the function again. */
  lemma RunsTwice(lost: iset<State>, x: State, i: nat)
    requires Lost(lost) && i < |x.workers| == |x.runs| && x.workers[i] == Woken && x.mutex == Nobody && x.work.Some?
    requires PhaseOf(x.main) == Round && x.runs[i] >= 1
    ensures x in lost
  {
    assert BadAt(RanIt(x, i), i);
    Calls(lost, x, i, x.work.value);
    Proceeds(lost, x, i);
  }

  lemma MainLost(lost: iset<State>, x: State, c: Command, y: State)
    requires Lost(lost) && |x.runs| == |x.workers| && MainStep(x, c) == Some(y) && y in lost
    ensures x in lost
  {
    assert Step(x, y);
  }

  /** Worker i has run the function, waits again, and is woken by the broadcast it has anticipated. */
  lemma CalledAgain(lost: iset<State>, x: State, i: nat, f: Func)
    requires Lost(lost) && i < |x.workers| == |x.runs| && x.workers[i] == Waiting && x.mutex == Nobody
    requires x.work == Some(f)
    requires x.main == Locking(f) && x.runs[i] >= 1
    ensures x in lost
  {
    var x2 := x.(main := Unlocking(f), workers := Broadcast(x.workers), mutex := MainThread);
    RunsTwice(lost, x2.(main := OwnShare(f), mutex := Nobody), i);
    MainLost(lost, x2, Halt, x2.(main := OwnShare(f), mutex := Nobody));
    MainLost(lost, x.(main := Broadcasting(f), mutex := MainThread), Halt, x2);
    MainLost(lost, x, Halt, x.(main := Broadcasting(f), mutex := MainThread));
  }

  /** A worker that has run the function reports and waits; before the round nobody listens to its signal. */
  lemma Reports(lost: iset<State>, y: State, i: nat)
    requires Lost(lost) && i < |y.workers| == |y.runs| && y.workers[i] == Entering && y.mutex == Nobody
    requires y.main.Locking?
    requires Put(y, i, Waiting).(numWorking := y.numWorking - 1) in lost
    ensures y in lost
  {
    var held := y.(mutex := WorkerThread(i), numWorking := y.numWorking - 1);
    PutTwice(y, i, Parking, Waiting);
    WorkerLost(lost, Put(held, i, Parking), i, Put(y, i, Waiting).(numWorking := y.numWorking - 1));
    Signals(lost, y, i, held);
    WorkerLost(lost, y, i, Put(y, i, Locked).(mutex := WorkerThread(i)));
  }

  lemma Signals(lost: iset<State>, y: State, i: nat, held: State)
    requires Lost(lost) && i < |y.workers| == |y.runs| && y.main.Locking?
    requires held == y.(mutex := WorkerThread(i), numWorking := y.numWorking - 1) && Put(held, i, Parking) in lost
    ensures Put(y, i, Locked).(mutex := WorkerThread(i)) in lost
  {
    var locked := Put(y, i, Locked).(mutex := WorkerThread(i));
    PutTwice(y, i, Locked, Parking);
    if y.numWorking - 1 == 0 {
      PutTwice(y, i, Locked, Signalling);
      PutTwice(y, i, Signalling, Parking);
      WorkerLost(lost, Put(held, i, Signalling), i, Put(held, i, Parking));
      WorkerLost(lost, locked, i, Put(held, i, Signalling));
    } else {
      WorkerLost(lost, locked, i, Put(held, i, Parking));
    }
  }

  /** A worker that wakes up when the work is stored but not yet announced runs it twice. */
  lemma RunsBeforeCall(lost: iset<State>, x: State, i: nat, f: Func)
    requires Lost(lost) && i < |x.workers| == |x.runs| && x.workers[i] == Woken && x.mutex == Nobody
    requires x.work == Some(f)
    requires x.main == Locking(f)
    ensures x in lost
  {
    var y := RanIt(x, i);
    CalledAgain(lost, Put(y, i, Waiting).(numWorking := y.numWorking - 1), i, f);
    Reports(lost, y, i);
    Calls(lost, x, i, f);
    Proceeds(lost, x, i);
  }

  /** The states of the main thread in which an early wake-up is absorbed: the broadcast is on its way, or the
      threads are being halted. */
  predicate Absorbed(m: Main) {
    m.Broadcasting? || m.HaltLocking? || m.HaltClearing? || m.HaltBroadcasting?
  }

  /** How long the mutex will be held at most. */
  function HoldRank(s: State): nat {
    match s.mutex
    case Nobody => 0
    case MainThread => if s.main.Checking? then 2 else 1
    case WorkerThread(j) => if j < |s.workers| then WorkerRank(s.workers[j]) else 0
  }

  /** The steps of the others do not depend on worker i. */
  lemma OtherStep(s: State, i: nat, j: nat, s': State)
    requires Inv(s) && i < |s.workers| && j < |s.workers| && i != j && s.workers[i] == Waiting
    requires WorkerStep(s, j) == Some(s')
    ensures s'.workers[i] == Waiting && Step(Spurious(s, i), Spurious(s', i))
  {
    assert WorkerOk(s, j);
    Swapped(s.workers, i, j, s'.workers[j]);
    OtherStepIs(s, i, j, s', s'.workers[j]);
  }

  lemma Swapped(ws: seq<Worker>, i: nat, j: nat, w: Worker)
    requires i < |ws| && j < |ws| && i != j
    ensures ws[i := Woken][j := w] == ws[j := w][i := Woken]
  {
  }

  lemma OtherStepIs(s: State, i: nat, j: nat, s': State, w: Worker)
    requires i < |s.workers| == |s.runs| && j < |s.workers| && i != j && s.workers[i] == Waiting
    requires WorkerStep(s, j) == Some(s') && s'.workers == s.workers[j := w] && s'.workers[i] == Waiting
    requires s'.workers[j] == w
    requires s.workers[i := Woken][j := w] == s'.workers[i := Woken]
    ensures Step(Spurious(s, i), Spurious(s', i))
  {
    assert WorkerStep(Spurious(s, i), j) == Some(Spurious(s', i));
  }

  lemma MainReleases(s: State, i: nat, s': State)
    requires Inv(s) && i < |s.workers| && s.workers[i] == Waiting && s.mutex == MainThread && !Absorbed(s.main)
    requires MainStep(s, Halt) == Some(s')
    ensures i < |s'.workers| && s'.workers[i] == Waiting && !Absorbed(s'.main) && HoldRank(s') < HoldRank(s)
    ensures Step(Spurious(s, i), Spurious(s', i))
  {
    assert WorkerOk(s, i);
    assert MainStep(Spurious(s, i), Halt) == Some(Spurious(s', i));
  }

  /** The mutex will be free sooner or later, and then the awake worker takes its chance. */
  lemma {:induction false} AwakeLost(lost: iset<State>, s: State, i: nat)
    requires Lost(lost) && Inv(s) && i < |s.workers| && s.workers[i] == Waiting && !Absorbed(s.main)
    ensures Spurious(s, i) in lost
    decreases HoldRank(s)
  {
    assert WorkerOk(s, i);
    if s.mutex == Nobody {
      FreeLost(lost, s, i);
    } else if s.mutex == MainThread {
      var s' := MainStep(s, Halt).value;
      MainReleases(s, i, s');
      MainKeeps(s, Halt, s');
      AwakeLost(lost, s', i);
    } else {
      var j := s.mutex.i;
      assert WorkerHolds(s.workers[j]);
      var s' := WorkerStep(s, j).value;
      OtherStep(s, i, j, s');
      WorkerKeeps(s, j, s');
      HolderGoesOn(s, j, s');
      AwakeLost(lost, s', i);
    }
  }

  lemma HolderGoesOn(s: State, j: nat, s': State)
    requires Inv(s) && j < |s.workers| && s.mutex == WorkerThread(j) && WorkerStep(s, j) == Some(s')
    ensures HoldRank(s') < HoldRank(s) && (!Absorbed(s.main) ==> !Absorbed(s'.main))
  {
    assert WorkerHolds(s.workers[j]);
  }

  lemma FreeLost(lost: iset<State>, s: State, i: nat)
    requires Lost(lost) && Inv(s) && i < |s.workers| && s.workers[i] == Waiting && !Absorbed(s.main)
    requires s.mutex == Nobody
    ensures Spurious(s, i) in lost
  {
    assert WorkerOk(s, i);
    var x := Spurious(s, i);
    if s.main.Locking? {
      RunsBeforeCall(lost, x, i, s.main.f);
    } else if s.work == None {
      LeavesEarly(lost, x, i);
    } else {
      RunsTwice(lost, x, i);
    }
  }

  /** Once HaltThreads has begun, a worker that wakes up by itself changes nothing that matters. */
  lemma SpuriousWhileHalting(s: State, i: nat)
    requires Inv(s) && i < |s.workers| && s.workers[i] == Waiting && PhaseOf(s.main) == Halting
    ensures Inv(Spurious(s, i))
  {
    var s' := Spurious(s, i);
    forall j | 0 <= j < |s'.workers| ensures WorkerOk(s', j) {
      assert WorkerOk(s, j);
    }
  }

  lemma NobodyElse(s: State, i: nat, j: nat)
    requires Inv(s) && i < |s.workers| && s.workers[i] == Waiting && s.main.Broadcasting? && j < |s.workers|
    ensures !BadAt(Spurious(s, i), j) && WorkerStep(Spurious(s, i), j) == None
  {
    assert WorkerOk(s, j);
  }

  lemma SameBroadcast(s: State, i: nat, c: Command)
    requires i < |s.workers| == |s.runs| && s.workers[i] == Waiting && s.main.Broadcasting?
    ensures MainStep(Spurious(s, i), c) == MainStep(s, c)
  {
    assert Broadcast(Spurious(s, i).workers) == Broadcast(s.workers);
  }

  /** While the main thread broadcasts, it holds the mutex, and the broadcast wakes everybody anyway. */
  lemma SpuriousWhileBroadcasting(s: State, i: nat)
    requires Inv(s) && i < |s.workers| && s.workers[i] == Waiting && s.main.Broadcasting?
    ensures !Harmful(Spurious(s, i))
  {
    var x := Spurious(s, i);
    forall j | 0 <= j < |s.workers| ensures !BadAt(x, j) && WorkerStep(x, j) == None {
      NobodyElse(s, i, j);
    }
    forall y | Step(x, y) ensures !Harmful(y) {
      var c :| MainStep(x, c) == Some(y);
      SameBroadcast(s, i, c);
      MainKeeps(s, c, y);
      InvHarmless(y);
    }
    StepsHarmless(x);
  }

  /** A worker that wakes up by itself does harm exactly when the main thread is neither about to broadcast with the
      mutex in hand nor halting the threads. */
  lemma WorkerWakeup(s: State, i: nat)
    requires Inv(s) && i < |s.workers| && s.workers[i] == Waiting
    ensures Harmful(Spurious(s, i)) <==> !Absorbed(s.main)
  {
    if !Absorbed(s.main) {
      var lost := HarmfulLost();
      AwakeLost(lost, s, i);
    } else if s.main.Broadcasting? {
      SpuriousWhileBroadcasting(s, i);
    } else {
      SpuriousWhileHalting(s, i);
      InvHarmless(Spurious(s, i));
    }
  }

  // ---- the main thread wakes up ----

  function Awake(s: State): State
    requires s.main.Starting? || s.main.Resuming?
  {
    s.(main := if s.main.Starting? then StartWoken else Resumed(s.main.f))
  }

  ghost predicate SomeLocked(s: State) {
    exists j :: 0 <= j < |s.workers| && s.workers[j] == Locked
  }

  /** Somebody has yet to report besides the worker that is just doing so. */
  ghost predicate Outstanding(s: State) {
    s.numWorking > if SomeLocked(s) then 1 else 0
  }

  lemma {:induction false} EarlyLost(lost: iset<State>, s: State)
    requires Lost(lost) && Inv(s) && (s.main.Starting? || s.main.Resuming?) && Outstanding(s)
    ensures Awake(s) in lost
    decreases HoldRank(s)
  {
    if s.mutex == Nobody {
      EarlyReturn(lost, s);
    } else {
      var j := s.mutex.i;
      assert WorkerHolds(s.workers[j]) && WorkerOk(s, j);
      var s' := WorkerStep(s, j).value;
      HolderReports(s, j, s');
      WorkerKeeps(s, j, s');
      HolderGoesOn(s, j, s');
      EarlyLost(lost, s');
    }
  }

  lemma HolderReports(s: State, j: nat, s': State)
    requires Inv(s) && (s.main.Starting? || s.main.Resuming?) && Outstanding(s)
    requires j < |s.workers| && s.mutex == WorkerThread(j) && WorkerStep(s, j) == Some(s')
    ensures s'.main == s.main && Outstanding(s') && Step(Awake(s), Awake(s'))
  {
    assert WorkerHolds(s.workers[j]) && s.workers[j] != Signalling;
    assert s.workers[j] == Locked ==> SomeLocked(s);
    forall k | 0 <= k < |s'.workers| ensures s'.workers[k] != Locked {
      assert k != j ==> !WorkerHolds(s.workers[k]);
    }
    assert WorkerStep(Awake(s), j) == Some(Awake(s'));
  }

  /** With the mutex free the main thread returns, although worker i is not back. */
  lemma StartsEarly(lost: iset<State>, x: State, i: nat)
    requires Lost(lost) && i < |x.workers| == |x.runs| && x.main == StartWoken && x.mutex == Nobody
    requires NotYetWaiting(x.workers[i])
    ensures x in lost
  {
    var y := x.(main := Idle);
    assert BadAt(y, i);
    MainLost(lost, x.(main := StartLeaving, mutex := MainThread), Halt, y);
    MainLost(lost, x, Halt, x.(main := StartLeaving, mutex := MainThread));
  }

  lemma ReturnsEarly(lost: iset<State>, x: State, i: nat, f: Func)
    requires Lost(lost) && i < |x.workers| == |x.runs| && x.main == Resumed(f) && x.mutex == Nobody
    requires Pending(x.workers[i])
    ensures x in lost
  {
    var y := x.(main := Clearing(f));
    assert BadAt(y, i);
    MainLost(lost, x.(main := Releasing(f), mutex := MainThread), Halt, y);
    MainLost(lost, x, Halt, x.(main := Releasing(f), mutex := MainThread));
  }

  lemma EarlyReturn(lost: iset<State>, s: State)
    requires Lost(lost) && Inv(s) && (s.main.Starting? || s.main.Resuming?) && s.mutex == Nobody && s.numWorking > 0
    ensures Awake(s) in lost
  {
    LeftBounds(s.workers);
    var i :| 0 <= i < |s.workers| && Pending(s.workers[i]);
    assert WorkerOk(s, i);
    if s.main.Starting? {
      StartsEarly(lost, Awake(s), i);
    } else {
      ReturnsEarly(lost, Awake(s), i, s.main.f);
    }
  }

  /** When all have reported, the signal is on its way, and the main thread only comes before it. */
  lemma AllReported(s: State)
    requires Inv(s) && (s.main.Starting? || s.main.Resuming?) && s.numWorking == 0
    ensures Inv(Awake(s))
  {
    var x := Awake(s);
    forall j | 0 <= j < |x.workers| ensures WorkerOk(x, j) {
      assert WorkerOk(s, j);
    }
  }

  lemma {:induction false} OnlyOneLeft(ws: seq<Worker>, j: nat, k: nat)
    requires j < |ws| && k < |ws| && j != k && Left(ws) == 1 && Pending(ws[j])
    ensures !Pending(ws[k])
  {
    LeftUpdate(ws, j, Waiting);
    LeftBounds(ws[j := Waiting]);
    assert ws[j := Waiting][k] == ws[k];
  }

  /** One worker is left to report, and it holds the mutex. */
  ghost predicate LastOne(s: State, j: nat) {
    && Inv(s) && (s.main.Starting? || s.main.Resuming?) && s.numWorking == 1
    && j < |s.workers| && s.workers[j] == Locked
  }

  lemma OthersStay(s: State, j: nat, k: nat)
    requires LastOne(s, j) && k < |s.workers| && k != j
    ensures WorkerStep(Awake(s), k) == None
  {
    assert WorkerOk(s, k);
    OnlyOneLeft(s.workers, j, k);
  }

  lemma NotBadYet(s: State, j: nat)
    requires LastOne(s, j)
    ensures !Bad(Awake(s))
  {
    forall k | 0 <= k < |s.workers| ensures !BadAt(Awake(s), k) {
      assert WorkerOk(s, k);
    }
  }

  lemma MainStays(s: State, j: nat, c: Command)
    requires LastOne(s, j)
    ensures MainStep(Awake(s), c) == None
  {
    assert s.mutex == WorkerThread(j);
  }

  lemma LastStep(s: State, j: nat, s': State, y: State)
    requires LastOne(s, j) && WorkerStep(s, j) == Some(s') && Step(Awake(s), y)
    ensures s'.main == s.main && s'.numWorking == 0 && y == Awake(s')
  {
    forall c ensures MainStep(Awake(s), c) == None {
      MainStays(s, j, c);
    }
    var k :| 0 <= k < |s.workers| && WorkerStep(Awake(s), k) == Some(y);
    if k != j {
      OthersStay(s, j, k);
    }
  }

  /** When the last worker is about to report and holds the mutex, the main thread has to wait for it. */
  lemma LastReporting(s: State, j: nat)
    requires LastOne(s, j)
    ensures !Harmful(Awake(s))
  {
    var s' := WorkerStep(s, j).value;
    WorkerKeeps(s, j, s');
    forall y | Step(Awake(s), y) ensures !Harmful(y) {
      LastStep(s, j, s', y);
      AllReported(s');
      InvHarmless(y);
    }
    NotBadYet(s, j);
    StepsHarmless(Awake(s));
  }

  /** A main thread that wakes up by itself, in the start-up or in RunWorkers, does harm exactly when somebody has
      yet to report besides the worker that is just doing so. */
  lemma MainWakeup(s: State)
    requires Inv(s) && (s.main.Starting? || s.main.Resuming?)
    ensures Harmful(Awake(s)) <==> Outstanding(s)
  {
    if Outstanding(s) {
      var lost := HarmfulLost();
      EarlyLost(lost, s);
    } else if s.numWorking == 0 {
      AllReported(s);
      InvHarmless(Awake(s));
    } else {
      LeftBounds(s.workers);
      var j :| 0 <= j < |s.workers| && s.workers[j] == Locked;
      LastReporting(s, j);
    }
  }

  // ---- the end of one such run ----

  /** The states after the wake-up. */
  function Trail(f: Func): seq<State> {
    var gone := State([Exited], Idle, 0, None, Nobody, [0], 0);
    var called := gone.(numWorking := 1, work := Some(f));
    [ State([Woken], Idle, 0, None, Nobody, [0], 0),
      State([Leaving], Idle, 0, None, WorkerThread(0), [0], 0),
      State([Fetching], Idle, 0, None, Nobody, [0], 0),
      gone,
      gone.(main := SettingCount(f)),
      gone.(main := SettingWork(f), numWorking := 1),
      called.(main := Locking(f)),
      called.(main := Broadcasting(f), mutex := MainThread),
      called.(main := Unlocking(f), mutex := MainThread),
      called.(main := OwnShare(f)),
      called.(main := Relocking(f), mainRuns := 1),
      called.(main := Checking(f), mainRuns := 1, mutex := MainThread),
      called.(main := Resuming(f), mainRuns := 1)]
  }

  lemma TrailStep(f: Func, k: nat)
    requires k < 12
    ensures Step(Trail(f)[k], Trail(f)[k + 1])
  {
    if k < 3 {
      assert [Woken][0 := Leaving] == [Leaving] && [Leaving][0 := Fetching] == [Fetching]
        && [Fetching][0 := Exited] == [Exited];
      assert WorkerStep(Trail(f)[k], 0) == Some(Trail(f)[k + 1]);
    } else {
      assert seq(|[Exited]|, i => 0) == [0] && Broadcast([Exited]) == [Exited];
      assert MainStep(Trail(f)[k], RunFunc(f)) == Some(Trail(f)[k + 1]);
    }
  }

  lemma TrailRuns(f: Func)
    ensures Run(Trail(f))
  {
    forall k | 0 <= k < |Trail(f)| - 1 ensures StepAt(Trail(f), k) {
      TrailStep(f, k);
    }
  }

  /** The main thread waits for a worker that has gone. */
  lemma Stuck(s: State, s': State)
    requires s.workers == [Exited] && s.main.Resuming?
    ensures !Step(s, s')
  {
  }

  /** The idle state in which the single worker waits. */
  function Resting(): State {
    State([Waiting], Idle, 0, None, Nobody, [0], 0)
  }

  /** A single worker that wakes up between two rounds finds no work and leaves; the next round then waits for it
      forever. */
  lemma SpuriousWakeup(f: Func)
    ensures Inv(Resting()) && Trail(f)[0] == Spurious(Resting(), 0) && Run(Trail(f))
    ensures Trail(f)[12].main == Resuming(f) && forall s' :: !Step(Trail(f)[12], s')
  {
    assert [Waiting][0 := Woken] == [Woken];
    TrailRuns(f);
    forall s' ensures !Step(Trail(f)[12], s') {
      Stuck(Trail(f)[12], s');
    }
  }
}
