/** `AbstractThread`, the pausable polling thread, as a state machine over
    its semaphore's permit count, its `run` flag and where the worker thread
    is in `run()`. Every method is a guarded transition: a call that would
    block on `acquire` is simply not enabled until a permit is available. */
module AbstractThread {
  import opened Wrappers

  /** Where the worker thread is: not yet started, started but not yet in
      `run()`, at the loop test, blocked in or about to `acquire`, about to
      run `doStuff`, about to `release`, in `sleep`, or returned. */
  datatype Pc = NotStarted | Started | LoopTop | Acquiring | Working | Releasing | Sleeping | Exited

  datatype Worker = Worker(permits: nat, run: bool, pause: bool, pc: Pc)

  /** The constructor: one permit, `run` and `pause` false, and the thread
      not yet started. */
  function Create(): (r: Worker)
    ensures r.permits == 1 && !r.run && !r.pause
    ensures r.pc == NotStarted && Held(r.pc) == 0
  {
    Worker(1, false, false, NotStarted)
  }

  /** Permits held by the worker thread itself (between its acquire and its
      release). */
  function Held(pc: Pc): nat {
    if pc == Working || pc == Releasing then 1 else 0
  }

  // Calls made by the owner of the thread.

  /** `Thread.start`: allowed once. */
  function StartThread(w: Worker): (r: Option<Worker>)
    ensures r.Some? <==> w.pc == NotStarted
    ensures r.Some? ==> r.value == w.(pc := Started)
  {
    if w.pc == NotStarted then Some(w.(pc := Started)) else None
  }

  /** `pauseThread`: takes one permit, so it waits while none is available
      (the worker is inside `doStuff`, or the thread is already paused). */
  function PauseThread(w: Worker): (r: Option<Worker>)
    ensures r.Some? <==> w.permits >= 1
    ensures r.Some? ==> r.value.permits + 1 == w.permits && r.value == w.(permits := r.value.permits)
  {
    if w.permits >= 1 then Some(w.(permits := w.permits - 1)) else None
  }

  /** `pauseThread` whose `acquire` throws `InterruptedException`: the
      caller was interrupted before the call or while waiting, so this can
      happen whatever the permit count. The exception is printed and the call
      returns without having taken a permit. */
  function PauseInterrupted(w: Worker): (r: Option<Worker>)
    ensures r == Some(w)
  {
    Some(w)
  }

  /** An interrupted pause does not pause: with a permit available before
      it, the worker's next acquire still goes through, whereas after a
      completed pause of the last permit it waits. */
  lemma InterruptedPauseLeavesWorkerRunning(w: Worker)
    requires w.pc == Acquiring && w.permits == 1
    ensures Acquire(PauseInterrupted(w).value).Some?
    ensures Acquire(PauseThread(w).value).None?
  {
  }

  /** `resumeThread`: gives back a permit only when none is available. */
  function ResumeThread(w: Worker): (r: Worker)
    ensures r.permits >= 1
    ensures w.permits >= 1 ==> r == w
    ensures w.permits == 0 ==> r == w.(permits := 1)
  {
    if w.permits < 1 then w.(permits := w.permits + 1) else w
  }

  /** `stopThread`: releases a permit whatever the count, then clears `run`. */
  function StopThread(w: Worker): (r: Worker)
    ensures r.permits == w.permits + 1
    ensures !r.run
    ensures r.pc == w.pc && r.pause == w.pause
  {
    w.(permits := w.permits + 1).(run := false)
  }

  // Steps of the worker thread in `run()`.

  /** Entering `run()`: sets `run`, overwriting any earlier stop. */
  function Begin(w: Worker): (r: Option<Worker>)
    ensures r.Some? <==> w.pc == Started
    ensures r.Some? ==> r.value.run && r.value.pc == LoopTop
    ensures r.Some? ==> r.value == w.(run := r.value.run, pc := r.value.pc)
  {
    if w.pc == Started then Some(w.(run := true, pc := LoopTop)) else None
  }

  /** The loop test: continue while `run` is set, otherwise return. */
  function Check(w: Worker): (r: Option<Worker>)
    ensures r.Some? <==> w.pc == LoopTop
    ensures r.Some? ==> (r.value.pc == Exited <==> !w.run)
    ensures r.Some? && w.run ==> r.value.pc == Acquiring
    ensures r.Some? ==> r.value == w.(pc := r.value.pc)
  {
    if w.pc != LoopTop then None
    else if w.run then Some(w.(pc := Acquiring))
    else Some(w.(pc := Exited))
  }

  /** The worker's `acquire`: waits until a permit is available, then takes
      it and goes on to `doStuff`. */
  function Acquire(w: Worker): (r: Option<Worker>)
    ensures r.Some? <==> w.pc == Acquiring && w.permits >= 1
    ensures r.Some? ==> r.value.permits + 1 == w.permits && r.value.pc == Working
    ensures r.Some? ==> r.value == w.(permits := r.value.permits, pc := r.value.pc)
  {
    if w.pc == Acquiring && w.permits >= 1 then Some(w.(permits := w.permits - 1, pc := Working))
    else None
  }

  /** One call of `doStuff`, the subclass's unit of work. */
  function DoStuff(w: Worker): (r: Option<Worker>)
    ensures r.Some? <==> w.pc == Working
    ensures r.Some? ==> r.value == w.(pc := Releasing)
  {
    if w.pc == Working then Some(w.(pc := Releasing)) else None
  }

  /** `doStuff` throwing an unchecked exception: only
      `InterruptedException` is caught, so the exception ends `run()` before
      the release, and the permit the worker holds is never given back. */
  function DoStuffThrows(w: Worker): (r: Option<Worker>)
    ensures r.Some? <==> w.pc == Working
    ensures r.Some? ==> r.value.pc == Exited && r.value.permits == w.permits
    ensures r.Some? ==> r.value.permits + Held(r.value.pc) + 1 == w.permits + Held(w.pc)
    ensures r.Some? ==> r.value == w.(pc := r.value.pc)
  {
    if w.pc == Working then Some(w.(pc := Exited)) else None
  }

  /** The worker's `release` after `doStuff`, then on to `sleep`. */
  function Release(w: Worker): (r: Option<Worker>)
    ensures r.Some? <==> w.pc == Releasing
    ensures r.Some? ==> r.value.permits == w.permits + 1 && r.value.pc == Sleeping
    ensures r.Some? ==> r.value == w.(permits := r.value.permits, pc := r.value.pc)
  {
    if w.pc == Releasing then Some(w.(permits := w.permits + 1, pc := Sleeping)) else None
  }

  /** `sleep(poll)` returning normally. */
  function Wake(w: Worker): (r: Option<Worker>)
    ensures r.Some? <==> w.pc == Sleeping
    ensures r.Some? ==> r.value == w.(pc := LoopTop)
  {
    if w.pc == Sleeping then Some(w.(pc := LoopTop)) else None
  }

  /** An `InterruptedException` from `acquire` or `sleep`: caught, printed,
      and the loop goes on to its test, without a permit changing hands. */
  function Interrupt(w: Worker): (r: Option<Worker>)
    ensures r.Some? <==> w.pc == Acquiring || w.pc == Sleeping
    ensures r.Some? ==> r.value == w.(pc := LoopTop)
  {
    if w.pc == Acquiring || w.pc == Sleeping then Some(w.(pc := LoopTop)) else None
  }

  datatype Op =
    | Start | Pause | PauseInterrupt | Resume | Stop
    | BeginRun | TestRun | AcquirePermit | Work | WorkThrows | ReleasePermit | SleepDone | Interrupted
  {
    predicate IsWorkerStep() {
      BeginRun? || TestRun? || AcquirePermit? || Work? || WorkThrows? || ReleasePermit? || SleepDone? || Interrupted?
    }
  }

  function Step(w: Worker, op: Op): Option<Worker> {
    match op
    case Start => StartThread(w)
    case Pause => PauseThread(w)
    case PauseInterrupt => PauseInterrupted(w)
    case Resume => Some(ResumeThread(w))
    case Stop => Some(StopThread(w))
    case BeginRun => Begin(w)
    case TestRun => Check(w)
    case AcquirePermit => Acquire(w)
    case Work => DoStuff(w)
    case WorkThrows => DoStuffThrows(w)
    case ReleasePermit => Release(w)
    case SleepDone => Wake(w)
    case Interrupted => Interrupt(w)
  }

  /** Runs `ops` in order; None as soon as one of them is not enabled. */
  function Run(w: Worker, ops: seq<Op>): Option<Worker>
    decreases |ops|
  {
    if |ops| == 0 then Some(w)
    else match Step(w, ops[0])
      case None => None
      case Some(w') => Run(w', ops[1..])
  }

  /** The worker's own steps neither create nor destroy permits: the permits
      available plus the one it may hold stay the same, except that a
      `doStuff` that throws takes the held permit with it. */
  lemma WorkerStepConservesPermits(w: Worker, op: Op)
    requires op.IsWorkerStep() && Step(w, op).Some?
    ensures Step(w, op).value.permits + Held(Step(w, op).value.pc)
      == w.permits + Held(w.pc) - (if op == WorkThrows then 1 else 0)
  {
  }

  /** A worker that dies in `doStuff` on a thread with no spare permit
      leaves none: a later `pauseThread` waits until someone resumes. */
  lemma ThrowingWorkBlocksPause(w: Worker)
    requires w.pc == Working && w.permits == 0
    ensures var d := DoStuffThrows(w).value;
      d.pc == Exited && PauseThread(d).None? && PauseThread(ResumeThread(d)).Some?
  {
  }

  /** A fresh thread can be paused exactly once before a resume: the second
      pause waits. */
  lemma CreateAllowsOnePause()
    ensures PauseThread(Create()).Some?
    ensures PauseThread(PauseThread(Create()).value).None?
    ensures ResumeThread(PauseThread(Create()).value) == Create()
  {
  }

  /** Resuming twice is resuming once. */
  lemma ResumeIdempotent(w: Worker)
    ensures ResumeThread(ResumeThread(w)) == ResumeThread(w)
  {
  }

  /** Pauses do not stack: after one pause of the last permit a second
      pause waits, one resume makes a permit available again, and a second
      resume adds none. */
  lemma PausesCollapse(w: Worker)
    requires w.permits == 1 && PauseThread(w).Some?
    ensures var p := PauseThread(w).value;
      PauseThread(p).None? && ResumeThread(p).permits == 1 && ResumeThread(ResumeThread(p)).permits == 1
  {
  }

  /** There is no "at most one permit" invariant: stopping a thread that was
      never paused leaves two permits. */
  lemma StopIdleGivesTwoPermits()
    ensures Run(Create(), [Start, BeginRun, Stop]) == Some(Worker(2, false, false, LoopTop))
  {
    var w1 := Create().(pc := Started);
    var w2 := w1.(run := true, pc := LoopTop);
    assert Run(Create(), [Start, BeginRun, Stop]) == Run(w1, [BeginRun, Stop]) by {
      assert [Start, BeginRun, Stop][1..] == [BeginRun, Stop];
    }
    assert Run(w1, [BeginRun, Stop]) == Run(w2, [Stop]) by {
      assert [BeginRun, Stop][1..] == [Stop];
    }
    assert Run(w2, [Stop]) == Run(StopThread(w2), []) by {
      assert [Stop][1..] == [];
    }
  }

  /** A full iteration with nobody else acting leaves the state exactly as
      it was: acquire, `doStuff`, release, sleep, test. */
  lemma IterationRestoresState(w: Worker)
    requires w.pc == Acquiring && w.permits >= 1
    ensures Run(w, [AcquirePermit, Work, ReleasePermit, SleepDone]).Some?
    ensures var w' := Run(w, [AcquirePermit, Work, ReleasePermit, SleepDone]).value;
      w' == w.(pc := LoopTop) && Check(w').Some? && (Check(w').value == w <==> w.run)
  {
  }

  /** A stop issued before the thread enters `run()` is overwritten: the loop
      runs anyway, and with the extra permit the stop released. */
  lemma StopBeforeRunIsOverwritten(w: Worker)
    requires w.pc == Started
    ensures var w' := Begin(StopThread(w)).value;
      w'.run && w'.permits == w.permits + 1 && Check(w').value.pc == Acquiring
  {
  }

  /** A worker waiting in `acquire` on a paused thread gets the permit that
      `stopThread` releases and runs `doStuff` once more before it sees the
      cleared flag and returns. */
  lemma StopReleasesBlockedWorker(w: Worker)
    requires w.pc == Acquiring && w.permits == 0
    ensures Acquire(w).None?
    ensures Acquire(StopThread(w)).Some? && DoStuff(Acquire(StopThread(w)).value).Some?
    ensures Run(StopThread(w), DrainOps(Acquiring)) == Some(StopThread(w).(pc := Exited))
  {
    DrainFrom(StopThread(w));
  }

  /** Running `ops` is running its first operation, then the rest. */
  lemma RunStep(w: Worker, ops: seq<Op>, w': Worker, rest: seq<Op>)
    requires |ops| > 0 && Step(w, ops[0]) == Some(w') && rest == ops[1..]
    ensures Run(w, ops) == Run(w', rest)
  {
  }

  /** The worker ends in one of two ways: at the loop test with `run`
      false, or by an exception out of `doStuff`. */
  lemma ExitPoints(w: Worker, op: Op)
    requires w.pc != Exited && Step(w, op).Some? && Step(w, op).value.pc == Exited
    ensures (op == TestRun && w.pc == LoopTop && !w.run) || (op == WorkThrows && w.pc == Working)
  {
  }

  /** Interrupts do not end the loop: they lead back to the test, with `run`
      and the permits untouched. */
  lemma InterruptContinues(w: Worker)
    requires Interrupt(w).Some?
    ensures Interrupt(w).value.pc == LoopTop
    ensures Interrupt(w).value.run == w.run && Interrupt(w).value.permits == w.permits
  {
  }

  /** The worker's remaining steps to its return once `run` is false: finish
      the current iteration, then fail the test. */
  function DrainOps(pc: Pc): seq<Op> {
    match pc
    case LoopTop => [TestRun]
    case Acquiring => [AcquirePermit, Work, ReleasePermit, SleepDone, TestRun]
    case Working => [Work, ReleasePermit, SleepDone, TestRun]
    case Releasing => [ReleasePermit, SleepDone, TestRun]
    case Sleeping => [SleepDone, TestRun]
    case _ => []
  }

  /** `stopThread` never leaves a running worker stuck, however often the
      thread was paused: by itself the worker reaches its return. */
  lemma {:induction false} StopThenDrain(w: Worker)
    requires w.pc in {LoopTop, Acquiring, Working, Releasing, Sleeping}
    ensures var s := StopThread(w);
      Run(s, DrainOps(s.pc)) == Some(s.(permits := w.permits + 1 + Held(w.pc), pc := Exited))
  {
    var s := StopThread(w);
    DrainFrom(s);
  }

  lemma {:induction false} DrainFrom(s: Worker)
    requires !s.run && s.pc in {LoopTop, Acquiring, Working, Releasing, Sleeping}
    requires s.pc == Acquiring ==> s.permits >= 1
    ensures Run(s, DrainOps(s.pc)) == Some(s.(permits := s.permits + Held(s.pc), pc := Exited))
    decreases |DrainOps(s.pc)|
  {
    var ops := DrainOps(s.pc);
    var next := Step(s, ops[0]).value;
    RunStep(s, ops, next, ops[1..]);
    if s.pc == LoopTop {
      assert ops[1..] == [];
    } else {
      assert ops[1..] == DrainOps(next.pc);
      DrainFrom(next);
    }
  }
}
