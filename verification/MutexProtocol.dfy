/**
 The futex mutex of um_sync.c: `um_mutex_lock`, `um_mutex_unlock`, `um_mutex_synchronize` and the kernel's waits
 and wakes. The C code between two yields is one step. Fibers that have not waited may lock at any moment, so a
 newcomer can take the mutex before a woken waiter runs; and a waiting fiber may be resumed by something else at
 any moment, with or without an exception.
 */
module MutexProtocol {

  datatype Word = Unlocked | Locked

  /** What the kernel has done with the fiber's wait. */
  datatype Wait = Issued | Parked | Done

  /** Whether something else resumed the waiting fiber, and whether it raises. */
  datatype Interrupt = NotInterrupted | Resumed | Raised

  /** `Releasing` is a fiber inside unlock, waiting for the CQE of its own wake operation. */
  datatype Fiber = Idle | Waiting(wait: Wait, interrupt: Interrupt) | Holding | Releasing

  datatype Mutex = Mutex(
    state: Word, numWaiters: int,
    wakes: nat,  // wake operations the kernel has not performed yet
    fibers: seq<Fiber>)

  function Initial(fibers: nat): Mutex {
    Mutex(Unlocked, 0, 0, seq(fibers, k => Idle))
  }

  function SetFiber(m: Mutex, f: nat, fiber: Fiber): Mutex
    requires f < |m.fibers|
  {
    m.(fibers := m.fibers[f := fiber])
  }

  /** The loop of `um_mutex_lock` from a test of the word on: wait again, or take the mutex. */
  function TryLock(m: Mutex, f: nat): Mutex
    requires f < |m.fibers|
  {
    if m.state == Locked then SetFiber(m, f, Waiting(Issued, NotInterrupted))
    else SetFiber(m, f, Holding).(numWaiters := m.numWaiters - 1, state := Locked)
  }

  /** `um_mutex_unlock`, up to the yield of its wake. The ensure block of `um_mutex_synchronize` runs it after an
      exception from the lock call as well, which has then not lowered `num_waiters`. */
  function Unlock(m: Mutex, f: nat): Mutex
    requires f < |m.fibers|
  {
    if m.numWaiters != 0 then SetFiber(m, f, Releasing).(state := Unlocked, wakes := m.wakes + 1)
    else SetFiber(m, f, Idle).(state := Unlocked)
  }

  datatype Step =
    | Lock(f: nat)
    | Compare(f: nat)                     // the kernel takes the wait and compares the word
    | Wake(f: nat)                        // the kernel performs a wake and finds this fiber parked
    | WakeNobody                          // the kernel performs a wake and finds nobody parked
    | InterruptWait(f: nat, raises: bool)
    | CancelHits(f: nat)                  // the kernel cancels the wait of an interrupted fiber
    | Resume(f: nat)                      // a waiter whose wait ended runs again
    | Release(f: nat)                     // the holder unlocks
    | Return(f: nat)                      // unlock returns

  predicate Is(m: Mutex, f: nat, fiber: Fiber) {
    f < |m.fibers| && m.fibers[f] == fiber
  }

  predicate WaitingIs(m: Mutex, f: nat, wait: Wait) {
    f < |m.fibers| && m.fibers[f].Waiting? && m.fibers[f].wait == wait
  }

  /** A waiter is about to unwind with an exception while somebody holds the mutex. */
  predicate Unwinds(m: Mutex, step: Step) {
    step.Resume? && WaitingIs(m, step.f, Done) && m.fibers[step.f].interrupt == Raised && m.state == Locked
  }

  predicate Possible(m: Mutex, step: Step) {
    match step
    case Lock(f) => Is(m, f, Idle)
    case Compare(f) => WaitingIs(m, f, Issued)
    case Wake(f) => m.wakes > 0 && WaitingIs(m, f, Parked)
    case WakeNobody => m.wakes > 0 && forall f :: 0 <= f < |m.fibers| ==> !WaitingIs(m, f, Parked)
    case InterruptWait(f, _) => f < |m.fibers| && m.fibers[f].Waiting? && m.fibers[f].interrupt == NotInterrupted
    case CancelHits(f) =>
      f < |m.fibers| && m.fibers[f].Waiting? && m.fibers[f].wait != Done && m.fibers[f].interrupt != NotInterrupted
    case Resume(f) => WaitingIs(m, f, Done)
    case Release(f) => Is(m, f, Holding)
    case Return(f) => Is(m, f, Releasing)
  }

  /** The steps of the runs below: all but one, which InterruptSafeIff shows to be the exception. */
  predicate Enabled(m: Mutex, step: Step) {
    Possible(m, step) && !Unwinds(m, step)
  }

  function SetWait(m: Mutex, f: nat, wait: Wait): Mutex
    requires f < |m.fibers| && m.fibers[f].Waiting?
  {
    SetFiber(m, f, m.fibers[f].(wait := wait))
  }

  function Apply(m: Mutex, step: Step): Mutex
    requires Possible(m, step)
  {
    match step
    case Lock(f) => TryLock(m.(numWaiters := m.numWaiters + 1), f)
    case Compare(f) => SetWait(m, f, if m.state == Locked then Parked else Done)
    case Wake(f) => SetWait(m, f, Done).(wakes := m.wakes - 1)
    case WakeNobody => m.(wakes := m.wakes - 1)
    case InterruptWait(f, raises) => SetFiber(m, f, m.fibers[f].(interrupt := if raises then Raised else Resumed))
    case CancelHits(f) => SetWait(m, f, Done)
    case Resume(f) => if m.fibers[f].interrupt == Raised then Unlock(m, f) else TryLock(m, f)
    case Release(f) => Unlock(m, f)
    case Return(f) => SetFiber(m, f, Idle)
  }

  function Run(m: Mutex, steps: seq<Step>): Mutex
    decreases |steps|
  {
    if steps == [] then m
    else if Enabled(m, steps[0]) then Run(Apply(m, steps[0]), steps[1..])
    else Run(m, steps[1..])
  }

  // ----- The invariant

  function Waiters(fibers: seq<Fiber>): nat {
    if fibers == [] then 0
    else (if fibers[0].Waiting? then 1 else 0) + Waiters(fibers[1..])
  }

  /** Parked, and nothing but a wake will resume it. */
  predicate Asleep(fiber: Fiber) {
    fiber == Waiting(Parked, NotInterrupted)
  }

  /** Waiting, and certain to run again without another wake. */
  predicate Active(fiber: Fiber) {
    fiber.Waiting? && !Asleep(fiber)
  }

  /** A fiber between lock and unlock, exactly when the word says so, and never two. */
  ghost predicate Exclusive(m: Mutex) {
    && (forall f, g :: 0 <= f < |m.fibers| && 0 <= g < |m.fibers| && m.fibers[f].Holding? && m.fibers[g].Holding? ==>
         f == g)
    && (m.state == Locked <==> exists f :: 0 <= f < |m.fibers| && m.fibers[f].Holding?)
  }

  /** A sleeping waiter of a free mutex has a wake in flight, or a fellow waiter that is not asleep. */
  ghost predicate NoLostWakeup(m: Mutex) {
    m.state == Unlocked && (exists f :: 0 <= f < |m.fibers| && Asleep(m.fibers[f]))
    ==> m.wakes > 0 || exists f :: 0 <= f < |m.fibers| && Active(m.fibers[f])
  }

  ghost predicate Inv(m: Mutex) {
    Exclusive(m) && NoLostWakeup(m) && m.numWaiters >= Waiters(m.fibers)
  }

  lemma {:induction false} WaitersUpdate(fibers: seq<Fiber>, f: nat, fiber: Fiber)
    requires f < |fibers|
    ensures Waiters(fibers[f := fiber]) ==
      Waiters(fibers) - (if fibers[f].Waiting? then 1 else 0) + (if fiber.Waiting? then 1 else 0)
  {
    if f == 0 {
      assert fibers[f := fiber][1..] == fibers[1..];
    } else {
      assert fibers[f := fiber][1..] == fibers[1..][f - 1 := fiber];
      WaitersUpdate(fibers[1..], f - 1, fiber);
    }
  }

  lemma {:induction false} WaitersPositive(fibers: seq<Fiber>, f: nat)
    requires f < |fibers| && fibers[f].Waiting?
    ensures Waiters(fibers) > 0
  {
    if f > 0 {
      WaitersPositive(fibers[1..], f - 1);
    }
  }

  lemma {:induction false} InitialInv(n: nat)
    ensures Inv(Initial(n))
  {
    if n > 0 {
      InitialInv(n - 1);
      assert seq(n, k => Idle)[1..] == seq(n - 1, k => Idle);
    }
  }

  /** The holder of a locked mutex is not disturbed by a change of another fiber that does not take it. */
  lemma ExclusiveUpdate(m: Mutex, f: nat, fiber: Fiber)
    requires Exclusive(m) && f < |m.fibers| && !m.fibers[f].Holding? && !fiber.Holding?
    ensures Exclusive(SetFiber(m, f, fiber))
  {
    var m' := SetFiber(m, f, fiber);
    assert forall g :: 0 <= g < |m.fibers| && g != f ==> m'.fibers[g] == m.fibers[g];
    if m.state == Locked {
      var h :| 0 <= h < |m.fibers| && m.fibers[h].Holding?;
      assert m'.fibers[h].Holding?;
    }
  }

  lemma TryLockKeeps(m: Mutex, f: nat)
    requires f < |m.fibers| && !m.fibers[f].Holding? && Exclusive(m)
    requires m.numWaiters >= Waiters(m.fibers) + (if m.fibers[f].Waiting? then 0 else 1)
    ensures Inv(TryLock(m, f))
  {
    WaitersUpdate(m.fibers, f, Waiting(Issued, NotInterrupted));
    WaitersUpdate(m.fibers, f, Holding);
    var m' := TryLock(m, f);
    if m.state == Locked {
      ExclusiveUpdate(m, f, Waiting(Issued, NotInterrupted));
    } else {
      assert forall g :: 0 <= g < |m.fibers| && g != f ==> m'.fibers[g] == m.fibers[g];
      assert m'.fibers[f].Holding?;
    }
  }

  /** Unlocking by the holder, or by anybody while nobody holds it, wakes somebody whenever somebody waits. */
  lemma UnlockKeeps(m: Mutex, f: nat)
    requires Inv(m) && f < |m.fibers| && (m.fibers[f].Holding? || m.state == Unlocked)
    ensures Inv(Unlock(m, f))
  {
    var m' := Unlock(m, f);
    WaitersUpdate(m.fibers, f, m'.fibers[f]);
    assert forall g :: 0 <= g < |m.fibers| && g != f ==> m'.fibers[g] == m.fibers[g];
    if g :| 0 <= g < |m'.fibers| && Asleep(m'.fibers[g]) {
      WaitersPositive(m'.fibers, g);
      assert m'.wakes > 0;
    }
  }

  /** A change that leaves `f` waiting keeps every wakeup if it leaves it awake, or the mutex is locked. */
  lemma SetWaiterKeeps(m: Mutex, f: nat, fiber: Fiber, wakes: nat)
    requires Inv(m) && f < |m.fibers| && m.fibers[f].Waiting? && fiber.Waiting?
    requires Active(fiber) || m.state == Locked
    ensures Inv(SetFiber(m, f, fiber).(wakes := wakes))
  {
    WaitersUpdate(m.fibers, f, fiber);
    ExclusiveUpdate(m, f, fiber);
    var m' := SetFiber(m, f, fiber).(wakes := wakes);
    assert m'.fibers[f] == fiber;
  }

  lemma ReturnKeeps(m: Mutex, f: nat)
    requires Inv(m) && Is(m, f, Releasing)
    ensures Inv(SetFiber(m, f, Idle))
  {
    WaitersUpdate(m.fibers, f, Idle);
    ExclusiveUpdate(m, f, Idle);
    var m' := SetFiber(m, f, Idle);
    assert forall g :: 0 <= g < |m.fibers| && g != f ==> m'.fibers[g] == m.fibers[g];
    if m.wakes == 0 && m.state == Unlocked && exists g :: 0 <= g < |m'.fibers| && Asleep(m'.fibers[g]) {
      var g :| 0 <= g < |m'.fibers| && Asleep(m'.fibers[g]);
      assert Asleep(m.fibers[g]);
      var h :| 0 <= h < |m.fibers| && Active(m.fibers[h]);
      assert Active(m'.fibers[h]);
    }
  }

  lemma WakeNobodyKeeps(m: Mutex)
    requires Inv(m) && Enabled(m, WakeNobody)
    ensures Inv(Apply(m, WakeNobody))
  {
    forall f | 0 <= f < |m.fibers| ensures !Asleep(m.fibers[f]) {
      assert !WaitingIs(m, f, Parked);
    }
  }

  lemma StepKeepsInv(m: Mutex, step: Step)
    requires Inv(m) && Enabled(m, step)
    ensures Inv(Apply(m, step))
  {
    hide NoLostWakeup, Waiters, TryLock, Unlock;
    match step
    case Lock(f) => TryLockKeeps(m.(numWaiters := m.numWaiters + 1), f);
    case Compare(f) => SetWaiterKeeps(m, f, m.fibers[f].(wait := if m.state == Locked then Parked else Done), m.wakes);
    case Wake(f) => SetWaiterKeeps(m, f, m.fibers[f].(wait := Done), m.wakes - 1);
    case WakeNobody => WakeNobodyKeeps(m);
    case InterruptWait(f, raises) =>
      SetWaiterKeeps(m, f, m.fibers[f].(interrupt := if raises then Raised else Resumed), m.wakes);
    case CancelHits(f) => SetWaiterKeeps(m, f, m.fibers[f].(wait := Done), m.wakes);
    case Resume(f) =>
      if m.fibers[f].interrupt == Raised { UnlockKeeps(m, f); } else { TryLockKeeps(m, f); }
    case Release(f) => UnlockKeeps(m, f);
    case Return(f) => ReturnKeeps(m, f);
  }

  // ----- Main results

  lemma {:induction false} RunKeepsInv(m: Mutex, steps: seq<Step>)
    requires Inv(m)
    ensures Inv(Run(m, steps))
    decreases |steps|
  {
    hide Inv, Possible, Apply;
    if steps != [] {
      if Enabled(m, steps[0]) {
        StepKeepsInv(m, steps[0]);
        RunKeepsInv(Apply(m, steps[0]), steps[1..]);
      } else {
        RunKeepsInv(m, steps[1..]);
      }
    }
  }

  /** In every run, at most one fiber is between lock and unlock. */
  lemma MutualExclusion(fibers: nat, steps: seq<Step>, f: nat, g: nat)
    requires Is(Run(Initial(fibers), steps), f, Holding) && Is(Run(Initial(fibers), steps), g, Holding)
    ensures f == g
  {
    InitialInv(fibers);
    RunKeepsInv(Initial(fibers), steps);
  }

  /** In every run, as long as a fiber waits some step is enabled that is neither a new lock nor an interruption. */
  lemma NeverStuck(fibers: nat, steps: seq<Step>, f: nat) returns (step: Step)
    requires var m := Run(Initial(fibers), steps); f < |m.fibers| && m.fibers[f].Waiting?
    ensures !step.Lock? && !step.InterruptWait? && Enabled(Run(Initial(fibers), steps), step)
  {
    hide Run;
    InitialInv(fibers);
    RunKeepsInv(Initial(fibers), steps);
    var m := Run(Initial(fibers), steps);
    if m.state == Locked {
      var g :| 0 <= g < |m.fibers| && m.fibers[g].Holding?;
      step := Release(g);
    } else if Active(m.fibers[f]) {
      step := NextStep(m.fibers[f], f);
    } else if m.wakes > 0 {
      step := Wake(f);
    } else {
      var g :| 0 <= g < |m.fibers| && Active(m.fibers[g]);
      step := NextStep(m.fibers[g], g);
    }
  }

  function NextStep(fiber: Fiber, f: nat): Step
    requires Active(fiber)
  {
    if fiber.wait == Issued then Compare(f)
    else if fiber.wait == Parked then CancelHits(f)
    else Resume(f)
  }

  // ----- What a call is granted, and what is counted

  /** Who asks for the mutex, or asks again when a wait has ended, gets it exactly if nobody has it, and waits
      otherwise. */
  lemma GrantedIff(m: Mutex, step: Step)
    requires Inv(m) && Possible(m, step)
    requires step.Lock? || (step.Resume? && m.fibers[step.f].interrupt != Raised)
    ensures var m' := Apply(m, step);
      if forall g :: 0 <= g < |m.fibers| ==> !m.fibers[g].Holding? then Is(m', step.f, Holding)
      else Is(m', step.f, Waiting(Issued, NotInterrupted))
  {
  }

  /** A step is a waiter's giving up with an exception. */
  predicate GivesUp(m: Mutex, step: Step)
    requires Possible(m, step)
  {
    step.Resume? && m.fibers[step.f].interrupt == Raised
  }

  /** How many waiters have given up with an exception in a run. */
  function GivenUp(m: Mutex, steps: seq<Step>): nat
    decreases |steps|
  {
    if steps == [] then 0
    else if Enabled(m, steps[0]) then
      (if GivesUp(m, steps[0]) then 1 else 0) + GivenUp(Apply(m, steps[0]), steps[1..])
    else GivenUp(m, steps[1..])
  }

  lemma StepCounts(m: Mutex, step: Step)
    requires Possible(m, step)
    ensures var m' := Apply(m, step);
      m'.numWaiters - Waiters(m'.fibers) == m.numWaiters - Waiters(m.fibers) + if GivesUp(m, step) then 1 else 0
  {
    hide Waiters;
    if !step.WakeNobody? { WaitersUpdate(m.fibers, step.f, Apply(m, step).fibers[step.f]); }
  }

  lemma {:induction false} CountsGoOn(m: Mutex, steps: seq<Step>)
    ensures var m' := Run(m, steps);
      m'.numWaiters - Waiters(m'.fibers) == m.numWaiters - Waiters(m.fibers) + GivenUp(m, steps)
    decreases |steps|
  {
    hide Waiters, Apply, Enabled, GivesUp;
    if steps != [] {
      if Enabled(m, steps[0]) {
        EnabledIsPossible(m, steps[0]);
        StepCounts(m, steps[0]);
        CountsGoOn(Apply(m, steps[0]), steps[1..]);
      } else {
        CountsGoOn(m, steps[1..]);
      }
    }
  }

  lemma EnabledIsPossible(m: Mutex, step: Step)
    requires Enabled(m, step)
    ensures Possible(m, step)
  {
  }

  /** In every run, `num_waiters` is the number of fibers that wait, and one too many for each that has given up. */
  lemma WaitersAreCounted(fibers: nat, steps: seq<Step>)
    ensures var m := Run(Initial(fibers), steps); m.numWaiters == Waiters(m.fibers) + GivenUp(Initial(fibers), steps)
  {
    NobodyWaits(fibers);
    CountsGoOn(Initial(fibers), steps);
  }

  lemma {:induction false} NobodyWaits(n: nat)
    ensures Waiters(Initial(n).fibers) == 0
  {
    if n > 0 {
      NobodyWaits(n - 1);
      assert seq(n, k => Idle)[1..] == seq(n - 1, k => Idle);
    }
  }

  /** In a run in which none has, an unlock issues a wake exactly if a fiber waits, and then waits for it itself. */
  lemma UnlockWakesIff(fibers: nat, steps: seq<Step>, f: nat)
    requires GivenUp(Initial(fibers), steps) == 0 && Possible(Run(Initial(fibers), steps), Release(f))
    ensures var m := Run(Initial(fibers), steps);
      var m' := Apply(m, Release(f));
      && m'.state == Unlocked
      && if exists g :: 0 <= g < |m.fibers| && m.fibers[g].Waiting?
         then m'.wakes == m.wakes + 1 && Is(m', f, Releasing)
         else m'.wakes == m.wakes && Is(m', f, Idle)
  {
    hide Run, GivenUp;
    WaitersAreCounted(fibers, steps);
    var m := Run(Initial(fibers), steps);
    if g :| 0 <= g < |m.fibers| && m.fibers[g].Waiting? { WaitersPositive(m.fibers, g); }
    if Waiters(m.fibers) > 0 { var g := SomeWaiter(m.fibers); }
  }

  lemma {:induction false} SomeWaiter(fibers: seq<Fiber>) returns (f: nat)
    requires Waiters(fibers) > 0
    ensures f < |fibers| && fibers[f].Waiting?
  {
    if fibers[0].Waiting? {
      f := 0;
    } else {
      f := SomeWaiter(fibers[1..]);
      f := f + 1;
    }
  }

  // ----- A free mutex is taken

  /** A step of the kernel, or of a fiber it has let go: nobody outside has to act. */
  predicate Internal(step: Step) {
    step.Compare? || step.Wake? || step.WakeNobody? || step.CancelHits? || step.Resume? || step.Return?
  }

  predicate AllEnabled(m: Mutex, steps: seq<Step>)
    decreases |steps|
  {
    steps == [] || (Enabled(m, steps[0]) && AllEnabled(Apply(m, steps[0]), steps[1..]))
  }

  /** Some fiber has the mutex at some point of these steps. */
  predicate Taken(m: Mutex, steps: seq<Step>)
    requires AllEnabled(m, steps)
    decreases |steps|
  {
    m.state == Locked || (steps != [] && Taken(Apply(m, steps[0]), steps[1..]))
  }

  function Weight(fiber: Fiber): nat {
    match fiber
    case Waiting(Issued, _) => 5
    case Waiting(Parked, _) => 4
    case Waiting(Done, _) => 3
    case Releasing => 1
    case _ => 0
  }

  function TotalWeight(fibers: seq<Fiber>): nat {
    if fibers == [] then 0 else Weight(fibers[0]) + TotalWeight(fibers[1..])
  }

  lemma {:induction false} WeightUpdate(fibers: seq<Fiber>, f: nat, fiber: Fiber)
    requires f < |fibers|
    ensures TotalWeight(fibers[f := fiber]) == TotalWeight(fibers) - Weight(fibers[f]) + Weight(fiber)
  {
    if f == 0 {
      assert fibers[f := fiber][1..] == fibers[1..];
    } else {
      assert fibers[f := fiber][1..] == fibers[1..][f - 1 := fiber];
      WeightUpdate(fibers[1..], f - 1, fiber);
    }
  }

  /** What goes down with each of these steps while nobody takes the mutex. */
  function Distance(m: Mutex): nat {
    TotalWeight(m.fibers) + m.wakes
  }

  lemma ProgressCounts(m: Mutex, step: Step)
    requires m.state == Unlocked && Internal(step) && Enabled(m, step)
    ensures Apply(m, step).state == Locked || Distance(Apply(m, step)) < Distance(m)
  {
    hide TotalWeight;
    if !step.WakeNobody? { WeightUpdate(m.fibers, step.f, Apply(m, step).fibers[step.f]); }
  }

  /** Whichever internal steps are taken from a free mutex, in whatever order, a fiber takes it within a number of them
      that the state bounds, or the steps run out; and they run out only when nobody waits. */
  lemma {:induction false} LockIsInevitable(m: Mutex, steps: seq<Step>)
    requires Inv(m) && m.state == Unlocked && AllEnabled(m, steps)
    requires forall k :: 0 <= k < |steps| ==> Internal(steps[k])
    ensures Taken(m, steps) || |steps| <= Distance(m)
    ensures Taken(m, steps) || Run(m, steps).state == Unlocked
    ensures !Taken(m, steps) && (forall step :: Internal(step) ==> !Enabled(Run(m, steps), step)) ==>
      forall f :: 0 <= f < |Run(m, steps).fibers| ==> !Run(m, steps).fibers[f].Waiting?
    decreases |steps|
  {
    hide Inv, Apply, Enabled, Distance;
    if steps == [] {
      SomebodyMoves(m);
    } else {
      EnabledIsPossible(m, steps[0]);
      StepKeepsInv(m, steps[0]);
      ProgressCounts(m, steps[0]);
      var m' := Apply(m, steps[0]);
      if m'.state == Unlocked { LockIsInevitable(m', steps[1..]); }
    }
  }

  lemma SomebodyMoves(m: Mutex)
    requires Inv(m) && m.state == Unlocked
    ensures (exists f :: 0 <= f < |m.fibers| && m.fibers[f].Waiting?) ==>
      exists step :: Internal(step) && Enabled(m, step)
  {
    if f :| 0 <= f < |m.fibers| && m.fibers[f].Waiting? {
      var g := f;
      if Asleep(m.fibers[f]) {
        if m.wakes > 0 {
          assert Internal(Wake(f)) && Enabled(m, Wake(f));
          return;
        }
        g :| 0 <= g < |m.fibers| && Active(m.fibers[g]);
      }
      var step := NextStep(m.fibers[g], g);
      assert Internal(step) && Enabled(m, step);
    }
  }

  // ----- A waiter that unwinds

  /** Whatever can happen keeps the mutex sound exactly when it is not a waiter's unwinding from its lock call
      while somebody else holds the mutex. */
  lemma InterruptSafeIff(m: Mutex, step: Step)
    requires Inv(m) && Possible(m, step)
    ensures Inv(Apply(m, step)) <==> !Unwinds(m, step)
  {
    if Unwinds(m, step) {
      var h :| 0 <= h < |m.fibers| && m.fibers[h].Holding?;
      assert Apply(m, step).fibers[h].Holding? && Apply(m, step).state == Unlocked;
    } else {
      StepKeepsInv(m, step);
    }
  }

  /** When somebody does hold it, the next fiber to lock gets in beside the holder. */
  lemma InterruptLetsSecondFiberIn(m: Mutex, f: nat, g: nat) returns (h: nat)
    requires Inv(m) && Possible(m, Resume(f)) && Unwinds(m, Resume(f)) && Is(m, g, Idle)
    ensures var m' := Apply(m, Resume(f));
      && Enabled(m', Lock(g))
      && h != g && Is(Apply(m', Lock(g)), h, Holding) && Is(Apply(m', Lock(g)), g, Holding)
  {
    h :| 0 <= h < |m.fibers| && m.fibers[h].Holding?;
  }

  // ----- The C code between two yields, on the mutex's own fields

  class UmMutex {
    var state: Word
    var numWaiters: int

    ghost predicate Agrees(m: Mutex)
      reads this
    {
      m.state == state && m.numWaiters == numWaiters
    }

    /** `um_mutex_init`. */
    constructor ()
      ensures forall fibers :: Agrees(Initial(fibers))
    {
      state, numWaiters := Unlocked, 0;
    }

    /** `um_mutex_lock` from its start to its first wait or to its end. */
    method LockBegin(ghost m: Mutex, ghost f: nat) returns (acquired: bool)
      requires Agrees(m) && Possible(m, Lock(f))
      modifies this
      ensures Agrees(Apply(m, Lock(f))) && (acquired <==> Is(Apply(m, Lock(f)), f, Holding))
    {
      numWaiters := numWaiters + 1;
      acquired := LockTest();
    }

    /** `um_mutex_synchronize` from the end of a wait to the next wait, to the mutex being taken, or, when the wait
        raises, to its ensure block; `wake` tells whether that issues a wake. */
    method LockResume(raised: bool, ghost m: Mutex, ghost f: nat) returns (acquired: bool, wake: bool)
      requires Agrees(m) && Possible(m, Step.Resume(f)) && raised == (m.fibers[f].interrupt == Raised)
      modifies this
      ensures Agrees(Apply(m, Step.Resume(f)))
      ensures acquired <==> Is(Apply(m, Step.Resume(f)), f, Holding)
      ensures wake <==> Apply(m, Step.Resume(f)).wakes == m.wakes + 1
    {
      if raised {
        wake := UnlockWord();
        return false, wake;
      }
      acquired := LockTest();
      return acquired, false;
    }

    method LockTest() returns (acquired: bool)
      modifies this
      ensures state == Locked && (acquired <==> old(state) == Unlocked)
      ensures numWaiters == old(numWaiters) - (if acquired then 1 else 0)
    {
      if state == Locked { return false; }
      numWaiters := numWaiters - 1;
      state := Locked;
      return true;
    }

    /** The holder's `um_mutex_unlock`; `wake` tells whether it issues a wake and waits for its CQE. */
    method Unlock(ghost m: Mutex, ghost f: nat) returns (wake: bool)
      requires Agrees(m) && Possible(m, Release(f))
      modifies this
      ensures Agrees(Apply(m, Release(f))) && (wake <==> Apply(m, Release(f)).wakes == m.wakes + 1)
    {
      wake := UnlockWord();
    }

    method UnlockWord() returns (wake: bool)
      modifies `state
      ensures state == Unlocked && (wake <==> numWaiters != 0)
    {
      state := Unlocked;
      wake := numWaiters != 0;
    }
  }
}
