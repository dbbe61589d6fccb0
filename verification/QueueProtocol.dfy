/**
 The wait/wake protocol of `um_queue_push/unshift/pop/shift` (um_sync.c). Consumers park on the futex word
 `state`; producers and leaving consumers wake one of them. The C code between two yields is one step; the
 kernel compares the word when a wait is issued, and serves wakes and cancellations in any order. A waiting
 consumer may be interrupted at any point, with or without an exception.
 */
module QueueProtocol {

  /** The futex word. */
  datatype Word = Empty | Ready

  /** What the kernel has done with the consumer's wait. */
  datatype Wait = Issued | Parked | Done

  /** Whether something else resumed the waiting fiber, and whether it raises. */
  datatype Interrupt = NotInterrupted | Resumed | Raised

  datatype Consumer = Idle | Waiting(wait: Wait, interrupt: Interrupt)

  datatype Queue = Queue(
    word: Word, items: seq<int>, count: int, numWaiters: int,
    wakes: nat,                      // wake operations the kernel has not performed yet
    consumers: seq<Consumer>,
    popping: bool,                   // consumers use pop rather than shift
    added: seq<int>, taken: seq<int>)

  function Initial(consumers: nat, popping: bool): Queue {
    Queue(Empty, [], 0, 0, 0, seq(consumers, k => Idle), popping, [], [])
  }

  /** `um_queue_add`. */
  function Add(q: Queue, value: int, atHead: bool): Queue {
    q.(items := if atHead then [value] + q.items else q.items + [value],
       count := q.count + 1, word := Ready,
       wakes := if q.numWaiters != 0 then q.wakes + 1 else q.wakes,
       added := q.added + [value])
  }

  /** `um_queue_remove_complete`, run whether the removal took an item or raised. */
  function Complete(q: Queue, f: nat): Queue
    requires f < |q.consumers|
  {
    var left := q.numWaiters - 1;
    var q1 := q.(numWaiters := left, consumers := q.consumers[f := Idle]);
    if left != 0 && q.items != [] then q1.(wakes := q.wakes + 1)
    else if q.items == [] then q1.(word := Empty)
    else q1
  }

  /** The loop of `um_queue_remove_start` from a test of the word on: wait again, or take and leave. */
  function TryTake(q: Queue, f: nat): Queue
    requires f < |q.consumers| && (q.word == Ready ==> q.items != [])
  {
    if q.word == Empty then q.(consumers := q.consumers[f := Waiting(Issued, NotInterrupted)])
    else
      var n := |q.items|;
      var value := if q.popping then q.items[n - 1] else q.items[0];
      var rest := if q.popping then q.items[..n - 1] else q.items[1..];
      Complete(q.(items := rest, count := q.count - 1, taken := q.taken + [value]), f)
  }

  /** The start of `um_queue_remove_start`. */
  function Entered(q: Queue, f: nat): Queue
    requires f < |q.consumers|
  {
    q.(numWaiters := q.numWaiters + 1, consumers := q.consumers[f := Waiting(Done, NotInterrupted)])
  }

  datatype Step =
    | Push(value: int, atHead: bool)
    | Begin(f: nat)                       // pop or shift is called
    | Compare(f: nat)                     // the kernel takes the wait and compares the word
    | Wake(f: nat)                        // the kernel performs a wake and finds this consumer parked
    | WakeNobody                          // the kernel performs a wake and finds nobody parked
    | InterruptWait(f: nat, raises: bool)
    | CancelHits(f: nat)                  // the kernel cancels the wait of an interrupted consumer
    | Resume(f: nat)                      // the consumer runs again after its wait ended

  predicate WaitingIs(q: Queue, f: nat, wait: Wait) {
    f < |q.consumers| && q.consumers[f].Waiting? && q.consumers[f].wait == wait
  }

  predicate Enabled(q: Queue, step: Step) {
    match step
    case Push(_, _) => true
    case Begin(f) => f < |q.consumers| && q.consumers[f].Idle?
    case Compare(f) => WaitingIs(q, f, Issued)
    case Wake(f) => q.wakes > 0 && WaitingIs(q, f, Parked)
    case WakeNobody => q.wakes > 0 && forall f :: 0 <= f < |q.consumers| ==> !WaitingIs(q, f, Parked)
    case InterruptWait(f, _) =>
      f < |q.consumers| && q.consumers[f].Waiting? && q.consumers[f].interrupt == NotInterrupted
    case CancelHits(f) =>
      && f < |q.consumers| && q.consumers[f].Waiting? && q.consumers[f].wait != Done
      && q.consumers[f].interrupt != NotInterrupted
    case Resume(f) => WaitingIs(q, f, Done)
  }

  function SetWait(q: Queue, f: nat, wait: Wait): Queue
    requires f < |q.consumers| && q.consumers[f].Waiting?
  {
    q.(consumers := q.consumers[f := q.consumers[f].(wait := wait)])
  }

  function Apply(q: Queue, step: Step): Queue
    requires Inv(q) && Enabled(q, step)
  {
    match step
    case Push(value, atHead) => Add(q, value, atHead)
    case Begin(f) => TryTake(Entered(q, f), f)
    case Compare(f) => SetWait(q, f, if q.word == Empty then Parked else Done)
    case Wake(f) => SetWait(q, f, Done).(wakes := q.wakes - 1)
    case WakeNobody => q.(wakes := q.wakes - 1)
    case InterruptWait(f, raises) =>
      q.(consumers := q.consumers[f := q.consumers[f].(interrupt := if raises then Raised else Resumed)])
    case CancelHits(f) => SetWait(q, f, Done)
    case Resume(f) => if q.consumers[f].interrupt == Raised then Complete(q, f) else TryTake(q, f)
  }

  // ----- The invariant

  function Waiters(consumers: seq<Consumer>): nat {
    if consumers == [] then 0
    else (if consumers[0].Waiting? then 1 else 0) + Waiters(consumers[1..])
  }

  /** Parked, and nothing but a wake will resume it. */
  predicate Asleep(c: Consumer) {
    c == Waiting(Parked, NotInterrupted)
  }

  /** Inside pop or shift and certain to run again without another wake. */
  predicate Active(c: Consumer) {
    c.Waiting? && !Asleep(c)
  }

  /** No wakeup is lost: items and a sleeping consumer mean a wake is in flight or another consumer is active. */
  predicate NoLostWakeup(q: Queue) {
    q.items != [] && (exists f :: 0 <= f < |q.consumers| && Asleep(q.consumers[f]))
    ==> q.wakes > 0 || exists f :: 0 <= f < |q.consumers| && Active(q.consumers[f])
  }

  predicate Inv(q: Queue) {
    && (q.word == Ready <==> q.items != [])
    && q.count == |q.items|
    && q.numWaiters == Waiters(q.consumers)
    && NoLostWakeup(q)
    && multiset(q.added) == multiset(q.taken) + multiset(q.items)
  }

  lemma {:induction false} WaitersUpdate(consumers: seq<Consumer>, f: nat, c: Consumer)
    requires f < |consumers|
    ensures Waiters(consumers[f := c]) ==
      Waiters(consumers) - (if consumers[f].Waiting? then 1 else 0) + (if c.Waiting? then 1 else 0)
  {
    if f == 0 {
      assert consumers[f := c][1..] == consumers[1..];
    } else {
      assert consumers[f := c][1..] == consumers[1..][f - 1 := c];
      WaitersUpdate(consumers[1..], f - 1, c);
    }
  }

  lemma {:induction false} WaitersPositive(consumers: seq<Consumer>, f: nat)
    requires f < |consumers| && consumers[f].Waiting?
    ensures Waiters(consumers) > 0
  {
    if f > 0 {
      WaitersPositive(consumers[1..], f - 1);
    }
  }

  lemma {:induction false} NoWaiters(n: nat)
    ensures Waiters(seq(n, k => Idle)) == 0
  {
    if n > 0 {
      assert seq(n, k => Idle)[1..] == seq(n - 1, k => Idle);
      NoWaiters(n - 1);
    }
  }

  lemma InitialInv(consumers: nat, popping: bool)
    ensures Inv(Initial(consumers, popping))
  {
    NoWaiters(consumers);
  }

  lemma AddKeeps(q: Queue, value: int, atHead: bool)
    requires Inv(q)
    ensures Inv(Add(q, value, atHead))
  {
    var q' := Add(q, value, atHead);
    assert multiset(q'.items) == multiset(q.items) + multiset{value};
    if f :| 0 <= f < |q.consumers| && Asleep(q.consumers[f]) {
      WaitersPositive(q.consumers, f);
    }
  }

  /** Leaving the queue passes the wakeup on if items and other waiters remain. */
  lemma CompleteKeeps(q: Queue, f: nat)
    requires f < |q.consumers| && q.consumers[f].Waiting?
    requires q.items != [] ==> q.word == Ready
    requires q.count == |q.items| && q.numWaiters == Waiters(q.consumers)
    requires multiset(q.added) == multiset(q.taken) + multiset(q.items)
    ensures Inv(Complete(q, f))
  {
    WaitersUpdate(q.consumers, f, Idle);
    var q' := Complete(q, f);
    if g :| 0 <= g < |q'.consumers| && Asleep(q'.consumers[g]) {
      WaitersPositive(q'.consumers, g);
    }
  }

  lemma TryTakeKeeps(q: Queue, f: nat)
    requires f < |q.consumers| && q.consumers[f].Waiting?
    requires q.word == Ready <==> q.items != []
    requires q.count == |q.items| && q.numWaiters == Waiters(q.consumers)
    requires multiset(q.added) == multiset(q.taken) + multiset(q.items)
    ensures Inv(TryTake(q, f))
  {
    hide Complete, Waiters;
    if q.word == Empty {
      WaitersUpdate(q.consumers, f, Waiting(Issued, NotInterrupted));
    } else {
      var n := |q.items|;
      var value := if q.popping then q.items[n - 1] else q.items[0];
      var rest := if q.popping then q.items[..n - 1] else q.items[1..];
      TakenConserves(q.added, q.taken, q.items, rest, value);
      CompleteKeeps(q.(items := rest, count := q.count - 1, taken := q.taken + [value]), f);
    }
  }

  lemma TakenConserves(added: seq<int>, taken: seq<int>, items: seq<int>, rest: seq<int>, value: int)
    requires multiset(added) == multiset(taken) + multiset(items)
    requires items != []
    requires (value == items[0] && rest == items[1..]) || (value == items[|items| - 1] && rest == items[..|items| - 1])
    ensures multiset(added) == multiset(taken + [value]) + multiset(rest)
  {
    assert items == [items[0]] + items[1..];
    assert items == items[..|items| - 1] + [items[|items| - 1]];
  }

  /** A change that leaves `f` waiting and not asleep keeps every wakeup. */
  lemma SetConsumerKeeps(q: Queue, f: nat, c: Consumer, wakes: nat)
    requires Inv(q) && f < |q.consumers| && q.consumers[f].Waiting? && c.Waiting?
    requires Active(c) || q.items == []
    ensures Inv(q.(consumers := q.consumers[f := c], wakes := wakes))
  {
    WaitersUpdate(q.consumers, f, c);
    var q' := q.(consumers := q.consumers[f := c], wakes := wakes);
    assert q'.consumers[f] == c;
  }

  lemma StepKeepsInv(q: Queue, step: Step)
    requires Inv(q) && Enabled(q, step)
    ensures Inv(Apply(q, step))
  {
    hide Inv, Add, TryTake, Complete;
    match step
    case Push(value, atHead) => AddKeeps(q, value, atHead);
    case Begin(f) => BeginKeeps(q, f);
    case Compare(f) => CompareKeeps(q, f);
    case Wake(f) => SetConsumerKeeps(q, f, q.consumers[f].(wait := Done), q.wakes - 1);
    case WakeNobody => WakeNobodyKeeps(q);
    case InterruptWait(f, raises) =>
      SetConsumerKeeps(q, f, q.consumers[f].(interrupt := if raises then Raised else Resumed), q.wakes);
    case CancelHits(f) => SetConsumerKeeps(q, f, q.consumers[f].(wait := Done), q.wakes);
    case Resume(f) =>
      ResumeKeeps(q, f);
  }

  lemma BeginKeeps(q: Queue, f: nat)
    requires Inv(q) && Enabled(q, Begin(f))
    ensures Inv(Apply(q, Begin(f)))
  {
    hide TryTake, NoLostWakeup, Waiters;
    var c := Waiting(Done, NotInterrupted);
    WaitersUpdate(q.consumers, f, c);
    TryTakeKeeps(q.(numWaiters := q.numWaiters + 1, consumers := q.consumers[f := c]), f);
  }

  lemma CompareKeeps(q: Queue, f: nat)
    requires Inv(q) && Enabled(q, Compare(f))
    ensures Inv(Apply(q, Compare(f)))
  {
    hide NoLostWakeup, Waiters;
    SetConsumerKeeps(q, f, q.consumers[f].(wait := if q.word == Empty then Parked else Done), q.wakes);
  }

  lemma WakeNobodyKeeps(q: Queue)
    requires Inv(q) && Enabled(q, WakeNobody)
    ensures Inv(Apply(q, WakeNobody))
  {
    forall f | 0 <= f < |q.consumers| ensures !Asleep(q.consumers[f]) {
      assert !WaitingIs(q, f, Parked);
    }
  }

  lemma ResumeKeeps(q: Queue, f: nat)
    requires Inv(q) && Enabled(q, Resume(f))
    ensures Inv(Apply(q, Resume(f)))
  {
    hide TryTake, Complete, NoLostWakeup, Waiters;
    if q.consumers[f].interrupt == Raised {
      CompleteKeeps(q, f);
    } else {
      TryTakeKeeps(q, f);
    }
  }

  // ----- Runs

  /** Take the steps in order, leaving out those that are not enabled when their turn comes. */
  function Run(q: Queue, steps: seq<Step>): (r: Queue)
    requires Inv(q)
    ensures Inv(r)
    decreases |steps|
  {
    if steps == [] then q
    else if Enabled(q, steps[0]) then StepKeepsInv(q, steps[0]); Run(Apply(q, steps[0]), steps[1..])
    else Run(q, steps[1..])
  }

  /** A step of the kernel, or of a consumer the kernel has let go: nobody outside has to act. */
  predicate Internal(step: Step) {
    step.Compare? || step.Wake? || step.CancelHits? || step.Resume?
  }

  /** In every run, whatever is cancelled: as long as there are items and somebody waiting for one, some
      internal step is enabled. The queue is never stuck with items and only sleeping consumers. */
  lemma NeverStuck(q: Queue, steps: seq<Step>, f: nat) returns (step: Step)
    requires Inv(q)
    requires var r := Run(q, steps); r.items != [] && f < |r.consumers| && r.consumers[f].Waiting?
    ensures Internal(step) && Enabled(Run(q, steps), step)
  {
    var r := Run(q, steps);
    if Asleep(r.consumers[f]) {
      if r.wakes > 0 {
        step := Wake(f);
      } else {
        var g :| 0 <= g < |r.consumers| && Active(r.consumers[g]);
        step := NextStep(r.consumers[g], g);
      }
    } else {
      step := NextStep(r.consumers[f], f);
    }
  }

  function NextStep(c: Consumer, f: nat): Step
    requires Active(c)
  {
    if c.wait == Issued then Compare(f)
    else if c.wait == Parked then CancelHits(f)
    else Resume(f)
  }

  /** Internal steps alone lead from items and a waiting consumer to a delivered item or to nobody waiting:
      the wakeup survives every cancelled consumer it passes through. */
  lemma {:induction false} ItemsReachConsumers(q: Queue, f: nat) returns (steps: seq<Step>)
    requires Inv(q) && q.items != [] && f < |q.consumers| && q.consumers[f].Waiting?
    ensures forall k :: 0 <= k < |steps| ==> Internal(steps[k])
    ensures |Run(q, steps).taken| == |q.taken| + 1 || Run(q, steps).numWaiters == 0
    decreases q.numWaiters
  {
    var first := NeverStuck(q, [], f);
    WaitEnds(q, first);
    var g := first.f;
    var toDone := if first.Resume? then [] else [first];
    var q1 := Run(q, toDone);
    ResumeOutcome(q1, g);
    hide Inv, Apply, WaitingIs, Enabled, Waiters;
    steps := toDone + [Resume(g)];
    RunTwo(q, toDone, [Resume(g)]);
    var q2 := Run(q1, [Resume(g)]);
    if |q2.taken| == |q1.taken| && q2.numWaiters != 0 {
      var h := SomeWaiter(q2.consumers);
      var more := ItemsReachConsumers(q2, h);
      RunTwo(q, steps, more);
      steps := steps + more;
    }
  }

  /** A consumer whose wait has ended takes an item, or raises and leaves. */
  lemma ResumeOutcome(q: Queue, g: nat)
    requires Inv(q) && q.items != [] && WaitingIs(q, g, Done)
    ensures var r := Run(q, [Resume(g)]);
      || |r.taken| == |q.taken| + 1
      || (r.taken == q.taken && r.items == q.items && r.numWaiters == q.numWaiters - 1 == Waiters(r.consumers))
  {
    RunOne(q, Resume(g));
  }

  /** With items in the queue, any internal step but a resumption ends the wait of its consumer. */
  lemma WaitEnds(q: Queue, step: Step)
    requires Inv(q) && q.items != [] && Internal(step) && Enabled(q, step)
    ensures var q1 := Run(q, if step.Resume? then [] else [step]);
      && Inv(q1) && WaitingIs(q1, step.f, Done)
      && q1.items == q.items && q1.taken == q.taken && q1.numWaiters == q.numWaiters
  {
    RunOne(q, step);
  }

  // ----- What a call gets, and what it wakes

  /** A consumer that asks, or asks again when a wait has ended, gets an item exactly if there is one, the last with
      pop and the first with shift, and waits otherwise. */
  lemma TakesItemIff(q: Queue, step: Step)
    requires Inv(q) && Enabled(q, step)
    requires step.Begin? || (step.Resume? && q.consumers[step.f].interrupt != Raised)
    ensures Asked(q, Apply(q, step), step.f)
  {
    hide Inv, TryTake, Asked;
    WordTellsItems(q);
    if step.Begin? {
      TryTakeAsked(Entered(q, step.f), step.f);
      hide Apply;
      AskedAgain(q, Apply(q, step), step.f);
    } else {
      TryTakeAsked(q, step.f);
    }
  }

  ghost predicate Asked(q: Queue, r: Queue, f: nat) {
    var n := |q.items|;
    f < |r.consumers|
    && if n == 0 then r.items == [] && r.taken == q.taken && r.consumers[f] == Waiting(Issued, NotInterrupted)
       else
         && r.taken == q.taken + [if q.popping then q.items[n - 1] else q.items[0]]
         && q.items == (if q.popping then r.items + [q.items[n - 1]] else [q.items[0]] + r.items)
         && r.consumers[f].Idle?
  }

  lemma WordTellsItems(q: Queue)
    requires Inv(q)
    ensures q.word == Ready <==> q.items != []
  {
  }

  lemma TryTakeAsked(q: Queue, f: nat)
    requires f < |q.consumers| && (q.word == Ready <==> q.items != [])
    ensures Asked(q, TryTake(q, f), f)
  {
  }

  lemma AskedAgain(q: Queue, r: Queue, f: nat)
    requires f < |q.consumers|
    requires Asked(Entered(q, f), r, f)
    ensures Asked(q, r, f)
  {
  }

  predicate SomebodyWaits(q: Queue) {
    exists f :: 0 <= f < |q.consumers| && q.consumers[f].Waiting?
  }

  /** An added item wakes a consumer exactly if one waits. */
  lemma AddWakesIff(q: Queue, value: int, atHead: bool)
    requires Inv(q)
    ensures var r := Apply(q, Push(value, atHead));
      && r.wakes == q.wakes + (if SomebodyWaits(q) then 1 else 0)
      && r.items == if atHead then [value] + q.items else q.items + [value]
  {
    hide NoLostWakeup, Waiters;
    WaitersIff(q);
  }

  /** A consumer that leaves, with an item or an exception, wakes another exactly if an item is left and another waits;
      one that goes on waiting wakes nobody. */
  lemma LeavingWakesIff(q: Queue, step: Step)
    requires Inv(q) && Enabled(q, step) && (step.Begin? || step.Resume?)
    ensures var r := Apply(q, step);
      r.wakes == q.wakes + if r.consumers[step.f].Idle? && r.items != [] && SomebodyWaits(r) then 1 else 0
  {
    hide Inv, TryTake, Complete, SomebodyWaits;
    StepKeepsInv(q, step);
    var r := Apply(q, step);
    CountIsWaiters(r);
    WaitersIff(r);
    WordTellsItems(q);
    if step.Begin? {
      TryTakeWakes(Entered(q, step.f), step.f);
    } else if q.consumers[step.f].interrupt == Raised {
      CompleteWakes(q, step.f);
    } else {
      TryTakeWakes(q, step.f);
    }
  }

  /** A waiting consumer that something else resumes runs again once its wait is over or cancelled: with an exception it
      leaves without an item, and without one it asks again. */
  lemma RaisedLeaves(q: Queue, f: nat, raises: bool)
    requires Inv(q) && Enabled(q, InterruptWait(f, raises))
    ensures var q1 := Interrupted(q, f, raises);
      && Inv(q1) && Enabled(q1, Resume(f)) && q1.items == q.items && q1.taken == q.taken
      && var r := Apply(q1, Resume(f));
         if raises then r.consumers[f].Idle? && r.items == q.items && r.taken == q.taken else Asked(q, r, f)
  {
    InterruptedIs(q, f, raises);
    hide Inv, Asked, Interrupted, TryTake;
    var q1 := Interrupted(q, f, raises);
    if raises {
      CompleteWakes(q1, f);
    } else {
      TakesItemIff(q1, Resume(f));
      AskedSame(q, q1, Apply(q1, Resume(f)), f);
    }
  }

  lemma InterruptedIs(q: Queue, f: nat, raises: bool)
    requires Inv(q) && Enabled(q, InterruptWait(f, raises))
    ensures var q1 := Interrupted(q, f, raises);
      && Inv(q1) && Enabled(q1, Resume(f)) && q1.items == q.items && q1.taken == q.taken && q1.popping == q.popping
      && q1.consumers[f].interrupt == if raises then Raised else Resumed
  {
    hide Inv, TryTake, Complete, Add;
    StepKeepsInv(q, InterruptWait(f, raises));
    var q1 := Apply(q, InterruptWait(f, raises));
    if q1.consumers[f].wait != Done { StepKeepsInv(q1, CancelHits(f)); }
  }

  /** `f` has been resumed by something else, and its wait has ended. */
  function Interrupted(q: Queue, f: nat, raises: bool): Queue
    requires Inv(q) && Enabled(q, InterruptWait(f, raises))
  {
    StepKeepsInv(q, InterruptWait(f, raises));
    var q1 := Apply(q, InterruptWait(f, raises));
    if q1.consumers[f].wait == Done then q1 else Apply(q1, CancelHits(f))
  }

  lemma AskedSame(q: Queue, q1: Queue, r: Queue, f: nat)
    requires Asked(q1, r, f) && q1.items == q.items && q1.taken == q.taken && q1.popping == q.popping
    ensures Asked(q, r, f)
  {
  }

  lemma CountIsWaiters(q: Queue)
    requires Inv(q)
    ensures q.numWaiters == Waiters(q.consumers)
  {
  }

  lemma CompleteWakes(q: Queue, f: nat)
    requires f < |q.consumers|
    ensures var r := Complete(q, f);
      && r.consumers == q.consumers[f := Idle] && r.items == q.items
      && r.wakes == q.wakes + if r.numWaiters != 0 && r.items != [] then 1 else 0
  {
  }

  lemma TryTakeWakes(q: Queue, f: nat)
    requires f < |q.consumers| && (q.word == Ready <==> q.items != [])
    ensures var r := TryTake(q, f);
      && |r.consumers| == |q.consumers|
      && r.wakes == q.wakes + if r.consumers[f].Idle? && r.numWaiters != 0 && r.items != [] then 1 else 0
  {
  }

  lemma WaitersIff(q: Queue)
    ensures SomebodyWaits(q) <==> Waiters(q.consumers) > 0
  {
    if f :| 0 <= f < |q.consumers| && q.consumers[f].Waiting? { WaitersPositive(q.consumers, f); }
    if Waiters(q.consumers) > 0 { var f := SomeWaiter(q.consumers); }
  }

  // ----- Delivery cannot be put off

  /** Internal steps, and wakes that find nobody. */
  predicate Progress(step: Step) {
    Internal(step) || step.WakeNobody?
  }

  /** The steps can be taken one after the other. */
  predicate AllEnabled(q: Queue, steps: seq<Step>)
    requires Inv(q)
    decreases |steps|
  {
    steps == [] || (Enabled(q, steps[0]) && (StepKeepsInv(q, steps[0]); AllEnabled(Apply(q, steps[0]), steps[1..])))
  }

  function Unfinished(consumers: seq<Consumer>): nat {
    if consumers == [] then 0
    else (if consumers[0].Waiting? && consumers[0].wait != Done then 1 else 0) + Unfinished(consumers[1..])
  }

  lemma {:induction false} UnfinishedUpdate(consumers: seq<Consumer>, f: nat, c: Consumer)
    requires f < |consumers|
    ensures Unfinished(consumers[f := c]) == Unfinished(consumers)
      - (if consumers[f].Waiting? && consumers[f].wait != Done then 1 else 0)
      + (if c.Waiting? && c.wait != Done then 1 else 0)
  {
    if f == 0 {
      assert consumers[f := c][1..] == consumers[1..];
    } else {
      assert consumers[f := c][1..] == consumers[1..][f - 1 := c];
      UnfinishedUpdate(consumers[1..], f - 1, c);
    }
  }

  /** What goes down with each of these steps while no item is taken. */
  function Distance(q: Queue): nat {
    2 * Waiters(q.consumers) + Unfinished(q.consumers) + q.wakes
  }

  lemma ProgressCounts(q: Queue, step: Step)
    requires Inv(q) && q.items != [] && Progress(step) && Enabled(q, step)
    ensures var r := Apply(q, step);
      || |r.taken| == |q.taken| + 1
      || (r.taken == q.taken && r.items == q.items && Distance(r) < Distance(q))
  {
    hide NoLostWakeup, Waiters, Unfinished;
    if !step.WakeNobody? {
      var f := step.f;
      WaitersUpdate(q.consumers, f, Idle);
      UnfinishedUpdate(q.consumers, f, Idle);
      WaitersUpdate(q.consumers, f, q.consumers[f].(wait := Done));
      UnfinishedUpdate(q.consumers, f, q.consumers[f].(wait := Done));
    }
  }

  /** Whichever internal steps are taken, in whatever order, an item is delivered within a number of them that
      the state bounds, or the steps run out; and they run out only when nobody waits. */
  lemma {:induction false} DeliveryIsInevitable(q: Queue, steps: seq<Step>)
    requires Inv(q) && q.items != [] && AllEnabled(q, steps)
    requires forall k :: 0 <= k < |steps| ==> Progress(steps[k])
    ensures |steps| <= Distance(q) || |Run(q, steps).taken| > |q.taken|
    ensures |Run(q, steps).taken| >= |q.taken|
    ensures |Run(q, steps).taken| == |q.taken| ==>
      && Run(q, steps).items == q.items
      && ((forall step :: Progress(step) ==> !Enabled(Run(q, steps), step)) ==> Run(q, steps).numWaiters == 0)
    decreases |steps|
  {
    hide Inv, Enabled, Apply, Distance;
    if steps == [] {
      SomebodyMoves(q);
    } else {
      var q' := Apply(q, steps[0]);
      StepKeepsInv(q, steps[0]);
      ProgressCounts(q, steps[0]);
      if |q'.taken| == |q.taken| {
        DeliveryIsInevitable(q', steps[1..]);
      } else {
        TakenGrows(q', steps[1..]);
      }
    }
  }

  lemma SomebodyMoves(q: Queue)
    requires Inv(q) && q.items != []
    ensures q.numWaiters == 0 || exists step :: Progress(step) && Enabled(q, step)
  {
    if q.numWaiters != 0 {
      var f := SomeWaiter(q.consumers);
      var step := NeverStuck(q, [], f);
      assert Progress(step);
    }
  }

  lemma {:induction false} TakenGrows(q: Queue, steps: seq<Step>)
    requires Inv(q)
    ensures |Run(q, steps).taken| >= |q.taken|
    decreases |steps|
  {
    hide Inv, Waiters;
    if steps != [] {
      if Enabled(q, steps[0]) {
        StepKeepsInv(q, steps[0]);
        TakenGrows(Apply(q, steps[0]), steps[1..]);
      } else {
        TakenGrows(q, steps[1..]);
      }
    }
  }

  lemma RunOne(q: Queue, step: Step)
    requires Inv(q) && Enabled(q, step)
    ensures Run(q, [step]) == Apply(q, step)
  {
    StepKeepsInv(q, step);
    assert [step][1..] == [];
  }

  lemma {:induction false} RunTwo(q: Queue, a: seq<Step>, b: seq<Step>)
    requires Inv(q)
    ensures Run(q, a + b) == Run(Run(q, a), b)
    decreases |a|
  {
    hide Inv, Enabled, Apply;
    if a == [] {
      assert a + b == b;
    } else {
      assert (a + b)[1..] == a[1..] + b;
      if Enabled(q, a[0]) {
        StepKeepsInv(q, a[0]);
        RunTwo(Apply(q, a[0]), a[1..], b);
      } else {
        RunTwo(q, a[1..], b);
      }
    }
  }

  lemma {:induction false} SomeWaiter(consumers: seq<Consumer>) returns (f: nat)
    requires Waiters(consumers) > 0
    ensures f < |consumers| && consumers[f].Waiting?
  {
    if consumers[0].Waiting? {
      f := 0;
    } else {
      f := SomeWaiter(consumers[1..]);
      f := f + 1;
    }
  }

  /** In every run from an empty queue each added item is taken at most once and none is lost; READY is set
      exactly when an item is left, and `count` and `num_waiters` are what they count. */
  lemma RunConserves(consumers: nat, popping: bool, steps: seq<Step>)
    ensures Inv(Initial(consumers, popping))
    ensures var r := Run(Initial(consumers, popping), steps);
      && multiset(r.added) == multiset(r.taken) + multiset(r.items)
      && (r.word == Ready <==> r.items != [])
      && r.count == |r.items| && r.numWaiters == Waiters(r.consumers)
  {
    InitialInv(consumers, popping);
  }

  /** With push and shift only, items come out in the order they went in, whoever takes them. */
  lemma {:induction false} ShiftIsFifo(q: Queue, steps: seq<Step>)
    requires Inv(q) && !q.popping && q.added == q.taken + q.items
    requires forall k :: 0 <= k < |steps| && steps[k].Push? ==> !steps[k].atHead
    ensures Run(q, steps).added == Run(q, steps).taken + Run(q, steps).items
    decreases |steps|
  {
    if steps != [] {
      if Enabled(q, steps[0]) {
        StepKeepsInv(q, steps[0]);
        StepIsFifo(q, steps[0]);
        ShiftIsFifo(Apply(q, steps[0]), steps[1..]);
      } else {
        ShiftIsFifo(q, steps[1..]);
      }
    }
  }

  lemma StepIsFifo(q: Queue, step: Step)
    requires Inv(q) && Enabled(q, step) && !q.popping && q.added == q.taken + q.items
    requires step.Push? ==> !step.atHead
    ensures var r := Apply(q, step); !r.popping && r.added == r.taken + r.items
  {
    if (step.Begin? || step.Resume?) && q.items != [] {
      assert q.items == [q.items[0]] + q.items[1..];
      assert q.taken + q.items == (q.taken + [q.items[0]]) + q.items[1..];
    }
  }
}
