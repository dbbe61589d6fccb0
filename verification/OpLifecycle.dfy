/**
 The life of an operation record (`struct um_op`): who may still touch it, when it is recycled, and what
 one scheduler turn does with the runqueue.

 An op can be held by the kernel (its terminal CQE is outstanding), by the runqueue, and by an owner (the
 fiber that issued it, a stream, or an AsyncOp object). The source keeps only a 32-bit `ref_count` and some
 flags; the holders are history that the model keeps beside them. A run interleaves submissions,
 completions, cancellations and scheduler turns in any order.
 */
module OpLifecycle {

  const UINT32: nat := 0x1_0000_0000

  /** C's `x--` on a `uint`. */
  function Dec32(x: nat): (y: nat)
    requires x < UINT32
    ensures y < UINT32
  {
    if x == 0 then UINT32 - 1 else x - 1
  }

  /** Who, other than the kernel and the runqueue, holds a reference to an op. `Orphan` is the reference
      `io_clear` leaves behind for the second release of a discarded op. */
  datatype Owner = NoOwner | Fiber | Stream | Handle | Orphan

  /** The one intrusive list the op's `next` pointer threads at the moment. */
  datatype Link = Unlinked | InRunqueue | InTransient | InFreelist

  datatype Op = Op(
    refCount: nat,
    seen: bool, done: bool, scheduled: bool, canceled: bool,
    multishot: bool, async: bool, transient: bool, skip: bool,
    link: Link, inKernel: bool, owner: Owner,
    acquired: nat, recycled: nat)

  datatype Machine = Machine(
    ops: seq<Op>, runqueue: seq<nat>, transient: seq<nat>, freelist: seq<nat>, batches: nat,
    opsPending: int, opsRunqueue: int, opsFree: int, opsTransient: int)

  const BATCH: nat := 256

  function Initial(): Machine {
    Machine([], [], [], [], 0, 0, 0, 0, 0)
  }

  // ----- The C functions of um_op.c, on values

  /** `s` without the first occurrence of `id`. */
  function Without(s: seq<nat>, id: nat): seq<nat> {
    if s == [] then []
    else if s[0] == id then s[1..]
    else [s[0]] + Without(s[1..], id)
  }

  function Set(m: Machine, id: nat, op: Op): Machine
    requires id < |m.ops|
  {
    m.(ops := m.ops[id := op])
  }

  function RunqueuePush(m: Machine, id: nat): Machine
    requires id < |m.ops|
  {
    Set(m, id, m.ops[id].(link := InRunqueue)).(runqueue := m.runqueue + [id], opsRunqueue := m.opsRunqueue + 1)
  }

  function RunqueueShift(m: Machine): Machine
    requires m.runqueue != [] && m.runqueue[0] < |m.ops|
  {
    var id := m.runqueue[0];
    Set(m, id, m.ops[id].(link := Unlinked)).(runqueue := m.runqueue[1..], opsRunqueue := m.opsRunqueue - 1)
  }

  function TransientAdd(m: Machine, id: nat): Machine
    requires id < |m.ops|
  {
    Set(m, id, m.ops[id].(link := InTransient)).(transient := [id] + m.transient, opsTransient := m.opsTransient + 1)
  }

  function TransientRemove(m: Machine, id: nat): Machine
    requires id < |m.ops|
  {
    Set(m, id, m.ops[id].(link := Unlinked, transient := false))
    .(transient := Without(m.transient, id), opsTransient := m.opsTransient - 1)
  }

  /** A record as `malloc` leaves it, linked into the freelist. */
  function BlankOp(): Op {
    Op(0, false, false, false, false, false, false, false, false, InFreelist, false, NoOwner, 0, 0)
  }

  /** `um_op_alloc`: pop the freelist, or grow by a batch and hand out its first record. */
  function Alloc(m: Machine): (r: (Machine, nat))
    requires m.freelist != [] ==> m.freelist[0] < |m.ops|
    ensures r.1 < |r.0.ops|
  {
    if m.freelist != [] then
      var id := m.freelist[0];
      var op := m.ops[id];
      (Set(m, id, op.(link := Unlinked, acquired := op.acquired + 1))
       .(freelist := m.freelist[1..], opsFree := m.opsFree - 1), id)
    else
      var id := |m.ops|;
      var grown := m.ops + seq(BATCH, k => BlankOp());
      (m.(ops := grown[id := BlankOp().(link := Unlinked, acquired := 1)],
          freelist := seq(BATCH - 1, (k: nat) => id + 1 + k),
          batches := m.batches + 1, opsFree := m.opsFree + (BATCH - 1)), id)
  }

  /** `um_op_release`: drop one reference; at zero the record goes back to the freelist. */
  function Release(m: Machine, id: nat): Machine
    requires id < |m.ops| && m.ops[id].refCount < UINT32
  {
    var op := m.ops[id];
    var count := Dec32(op.refCount);
    if count != 0 then Set(m, id, op.(refCount := count))
    else
      Set(m, id, op.(refCount := 0, link := InFreelist, recycled := op.recycled + 1))
      .(freelist := [id] + m.freelist, opsFree := m.opsFree + 1)
  }

  // ----- The C functions of um.c, on values

  /** `um_schedule_op`. */
  function ScheduleOp(m: Machine, id: nat): Machine
    requires id < |m.ops|
  {
    var op := m.ops[id];
    RunqueuePush(Set(m, id, op.(scheduled := true, refCount := (op.refCount + 1) % UINT32)), id)
  }

  /** `um_process_cqe` for an op; `more` is the CQE's F_MORE flag. */
  function ProcessCqe(m: Machine, id: nat, more: bool): Machine
    requires id < |m.ops| && m.ops[id].refCount < UINT32
  {
    var op := m.ops[id];
    var done := !(op.multishot && more);
    if op.transient then ProcessTransient(m, id)
    else
      var m1 := if done then ReleaseKernel(m, id) else m;
      if op.canceled then if done then SecondRelease(m1, id) else m1
      else
        var op1 := m1.ops[id];
        if op.multishot then
          var m2 := Set(m1, id, op1.(seen := true, done := op1.done || done));
          if op1.scheduled || op1.async then m2 else ScheduleOp(m2, id)
        else
          var m2 := Set(m1, id, op1.(seen := true, done := true));
          if op1.async then m2 else ScheduleOp(m2, id)
  }

  /** The F_TRANSIENT branch (um.c:164-174). */
  function ProcessTransient(m: Machine, id: nat): Machine
    requires id < |m.ops| && m.ops[id].refCount < UINT32
  {
    var m1 := TransientRemove(m.(opsPending := m.opsPending - 1), id);
    var op := m1.ops[id];
    var seen := op.refCount > 1;
    Release(Set(m1, id, op.(inKernel := false, seen := op.seen || seen, done := op.done || seen)), id)
  }

  /** The kernel's reference ends with the terminal CQE (um.c:176-179). */
  function ReleaseKernel(m: Machine, id: nat): (r: Machine)
    requires id < |m.ops| && m.ops[id].refCount < UINT32
    ensures |r.ops| == |m.ops| && r.ops[id].refCount < UINT32
  {
    Release(Set(m, id, m.ops[id].(inKernel := false)).(opsPending := m.opsPending - 1), id)
  }

  /** The release on behalf of whoever discarded the op (um.c:181-189). */
  function SecondRelease(m: Machine, id: nat): Machine
    requires id < |m.ops| && m.ops[id].refCount < UINT32
  {
    var op := m.ops[id];
    Release(Set(m, id, op.(seen := true, done := true, owner := NoOwner)), id)
  }

  /** One pop of the runqueue in `um_switch`, up to resuming the op's fiber or skipping it. */
  function PopRunqueue(m: Machine): Machine
    requires m.runqueue != [] && m.runqueue[0] < |m.ops| && m.ops[m.runqueue[0]].refCount < UINT32
  {
    var id := m.runqueue[0];
    var m1 := RunqueueShift(m);
    Release(Set(m1, id, m1.ops[id].(scheduled := false)), id)
  }

  /** What is submitted: a blocking call, a stream's multishot read, an async call whose completion nobody
      reads, or an AsyncOp timeout. */
  datatype Kind = Blocking(multishot: bool) | StreamRead | FireAndForget(transient: bool) | AsyncTimeout

  /** The record `um_prep_op` leaves (with the history fields kept) once the SQE is queued. */
  function Prepared(was: Op, kind: Kind): Op {
    var refs := if kind.FireAndForget? then 1 else 2;
    var multishot := kind.StreamRead? || (kind.Blocking? && kind.multishot);
    var async := kind.FireAndForget? || kind.AsyncTimeout?;
    var transient := kind.AsyncTimeout? || (kind.FireAndForget? && kind.transient);
    var owner := match kind
      case Blocking(_) => Fiber
      case StreamRead => Stream
      case FireAndForget(_) => NoOwner
      case AsyncTimeout => Handle;
    Op(refs, false, false, false, false, multishot, async, transient, false,
       was.link, true, owner, was.acquired, was.recycled)
  }

  /** Acquire, prepare and submit an op. */
  function Submit(m: Machine, kind: Kind): Machine
    requires m.freelist != [] ==> m.freelist[0] < |m.ops|
  {
    var (m1, id) := Alloc(m);
    var op := Prepared(m1.ops[id], kind);
    var m2 := Set(m1, id, op).(opsPending := m1.opsPending + 1);
    if op.transient then TransientAdd(m2, id) else m2
  }

  /** `um_schedule`: an op that only resumes a fiber. */
  function Schedule(m: Machine): Machine
    requires m.freelist != [] ==> m.freelist[0] < |m.ops|
  {
    var (m1, id) := Alloc(m);
    var op := m1.ops[id];
    RunqueuePush(Set(m1, id, BlankOp().(refCount := 1, scheduled := true, link := op.link,
                                        acquired := op.acquired, recycled := op.recycled)), id)
  }

  // ----- Steps and runs

  datatype Step =
    | DoSubmit(kind: Kind)
    | DoSchedule
    | Cqe(id: nat, more: bool)          // the kernel's next CQE is processed
    | Pop                                // one turn of um_switch
    | FinishBlocking(id: nat)            // um_verify_op_completion on a done op, then one release
    | DiscardBlocking(id: nat)           // cancel-and-discard, then the caller's release
    | FinishSelect(id: nat)              // um_select on a done op: SKIP if still queued, then release
    | ClearSeen(id: nat)                 // a multishot owner has taken its results (or awaits a cancel)
    | SetAsync(id: nat, on: bool)        // a stream starts or stops waiting
    | FinishStream(id: nat)              // a stream lets go of a done op
    | ClearStream(id: nat)               // io_clear of a stream whose op is outstanding
    | AwaitHandle(id: nat)               // um_async_op_await on an outstanding op
    | FreeHandle(id: nat)                // AsyncOp_free

  predicate Owned(m: Machine, id: nat, owner: Owner) {
    id < |m.ops| && m.ops[id].owner == owner
  }

  /** When a step may be taken: the kernel still owes the CQE, or the caller owns the op. */
  predicate Enabled(m: Machine, step: Step) {
    match step
    case DoSubmit(_) => true
    case DoSchedule => true
    case Cqe(id, more) => id < |m.ops| && m.ops[id].inKernel
    case Pop => m.runqueue != []
    case FinishBlocking(id) => Owned(m, id, Fiber) && m.ops[id].done
    case DiscardBlocking(id) => Owned(m, id, Fiber) && !m.ops[id].done && !m.ops[id].multishot
    case FinishSelect(id) => Owned(m, id, Fiber) && m.ops[id].done && !m.ops[id].multishot
    case ClearSeen(id) => id < |m.ops| && m.ops[id].owner in {Fiber, Stream} && m.ops[id].multishot
    case SetAsync(id, _) => Owned(m, id, Stream)
    case FinishStream(id) => Owned(m, id, Stream) && m.ops[id].done
    case ClearStream(id) => Owned(m, id, Stream) && !m.ops[id].done
    case AwaitHandle(id) => Owned(m, id, Handle) && !m.ops[id].done && m.ops[id].transient
    case FreeHandle(id) => Owned(m, id, Handle) && m.ops[id].done
  }

  function Disown(m: Machine, id: nat): Machine
    requires id < |m.ops| && m.ops[id].refCount < UINT32
  {
    Release(Set(m, id, m.ops[id].(owner := NoOwner)), id)
  }

  function Apply(m: Machine, step: Step): Machine
    requires Inv(m) && Enabled(m, step)
  {
    match step
    case DoSubmit(kind) => Submit(m, kind)
    case DoSchedule => Schedule(m)
    case Cqe(id, more) => ProcessCqe(m, id, more)
    case Pop => PopRunqueue(m)
    case FinishBlocking(id) => Disown(m, id)
    case DiscardBlocking(id) => Disown(Set(m, id, m.ops[id].(canceled := true)), id)
    case FinishSelect(id) => Disown(Set(m, id, m.ops[id].(skip := m.ops[id].skip || m.ops[id].scheduled)), id)
    case ClearSeen(id) => Set(m, id, m.ops[id].(seen := false))
    case SetAsync(id, on) => Set(m, id, m.ops[id].(async := on))
    case FinishStream(id) => Disown(m, id)
    case ClearStream(id) => Set(m, id, m.ops[id].(canceled := true, owner := Orphan))
    case AwaitHandle(id) => var m1 := TransientRemove(m, id); Set(m1, id, m1.ops[id].(async := false))
    case FreeHandle(id) => Disown(m, id)
  }

  function Run(m: Machine, steps: seq<Step>): Machine
    requires Inv(m)
    decreases |steps|
  {
    if steps == [] then m
    else if Enabled(m, steps[0]) then StepKeepsInv(m, steps[0]); Run(Apply(m, steps[0]), steps[1..])
    else Run(m, steps[1..])
  }

  // ----- The invariant

  predicate Live(op: Op) {
    op.link != InFreelist
  }

  /** The number of holders of an op. */
  function Holders(op: Op): nat {
    (if op.inKernel then 1 else 0) + (if op.owner != NoOwner then 1 else 0) + (if op.link == InRunqueue then 1 else 0)
  }

  ghost predicate OpInv(op: Op) {
    && op.acquired == op.recycled + (if Live(op) then 1 else 0)
    && op.refCount < UINT32
    && (!Live(op) ==> !op.inKernel && op.owner == NoOwner)
    && (Live(op) ==>
      && op.refCount == Holders(op) > 0
      && op.scheduled == (op.link == InRunqueue)
      && op.transient == (op.link == InTransient)
      && (op.transient ==> op.inKernel && op.async && !op.multishot && !op.canceled && op.owner in {NoOwner, Handle})
      && (op.inKernel && !op.multishot ==> op.link != InRunqueue)
      && (op.owner in {Fiber, Stream, Handle} ==> !op.canceled && op.done == !op.inKernel)
      && (op.owner in {Fiber, Stream} ==> !op.transient)
      && (op.owner == Fiber ==> !op.async)
      && (op.owner == Handle ==> !op.multishot)
      && (op.owner == Stream ==> op.multishot)
      && (op.owner == Orphan ==> op.canceled && op.inKernel && op.multishot)
      && (op.canceled && op.inKernel && op.owner == NoOwner ==> !op.multishot)
      && (op.owner == NoOwner && op.inKernel && !op.canceled ==> op.async && !op.multishot)
      && (op.skip ==> op.link == InRunqueue && !op.inKernel && op.owner == NoOwner))
  }

  ghost predicate ListInv(ops: seq<Op>, list: seq<nat>, link: Link) {
    && (forall k :: 0 <= k < |list| ==> list[k] < |ops|)
    && (forall j, k :: 0 <= j < k < |list| ==> list[j] != list[k])
    && (forall id: nat :: id < |ops| ==> (id in list <==> ops[id].link == link))
  }

  datatype Tally = Outstanding | Free

  function Weight(t: Tally, op: Op): nat {
    match t
    case Outstanding => if op.inKernel then 1 else 0
    case Free => if Live(op) then 0 else 1
  }

  /** How many ops have an outstanding terminal CQE, or are free. */
  function Count(t: Tally, ops: seq<Op>): nat {
    if ops == [] then 0 else Weight(t, ops[0]) + Count(t, ops[1..])
  }

  ghost predicate Inv(m: Machine) {
    && (forall id: nat :: id < |m.ops| ==> OpInv(m.ops[id]))
    && ListInv(m.ops, m.runqueue, InRunqueue)
    && ListInv(m.ops, m.transient, InTransient)
    && ListInv(m.ops, m.freelist, InFreelist)
    && m.opsRunqueue == |m.runqueue| && m.opsTransient == |m.transient| && m.opsFree == |m.freelist|
    && m.opsPending == Count(Outstanding, m.ops)
    && m.opsFree == Count(Free, m.ops)
    && |m.ops| == BATCH * m.batches
  }

  // ----- Lists and tallies under one record's change

  lemma {:induction false} CountUpdate(t: Tally, ops: seq<Op>, id: nat, op: Op)
    requires id < |ops|
    ensures Count(t, ops[id := op]) == Count(t, ops) - Weight(t, ops[id]) + Weight(t, op)
  {
    if id == 0 {
      assert ops[id := op][1..] == ops[1..];
    } else {
      assert ops[id := op][1..] == ops[1..][id - 1 := op];
      CountUpdate(t, ops[1..], id - 1, op);
    }
  }

  lemma {:induction false} CountAppend(t: Tally, a: seq<Op>, b: seq<Op>)
    ensures Count(t, a + b) == Count(t, a) + Count(t, b)
  {
    if a == [] {
      assert a + b == b;
    } else {
      assert (a + b)[1..] == a[1..] + b;
      CountAppend(t, a[1..], b);
    }
  }

  lemma {:induction false} CountBlank(n: nat)
    ensures Count(Outstanding, seq(n, k => BlankOp())) == 0
    ensures Count(Free, seq(n, k => BlankOp())) == n
  {
    if n > 0 {
      assert seq(n, k => BlankOp())[1..] == seq(n - 1, k => BlankOp());
      CountBlank(n - 1);
    }
  }

  lemma {:induction false} WithoutMembers(s: seq<nat>, id: nat)
    requires forall j, k :: 0 <= j < k < |s| ==> s[j] != s[k]
    ensures forall x :: x in Without(s, id) <==> x in s && x != id
    ensures forall j, k :: 0 <= j < k < |Without(s, id)| ==> Without(s, id)[j] != Without(s, id)[k]
    ensures id in s ==> |Without(s, id)| == |s| - 1
  {
    if s != [] {
      assert forall x :: x in s <==> x == s[0] || x in s[1..];
      if s[0] != id {
        WithoutMembers(s[1..], id);
        var w := Without(s[1..], id);
        assert Without(s, id) == [s[0]] + w;
        assert forall x :: x in [s[0]] + w <==> x == s[0] || x in w;
        assert s[0] !in w;
      }
    }
  }

  /** A record that is not (and does not get) linked in a list can change freely. */
  lemma ListKeep(ops: seq<Op>, list: seq<nat>, link: Link, id: nat, op: Op)
    requires id < |ops| && ListInv(ops, list, link)
    requires (op.link == link) == (ops[id].link == link)
    ensures ListInv(ops[id := op], list, link)
  {
  }

  lemma ListPush(ops: seq<Op>, list: seq<nat>, link: Link, id: nat, op: Op)
    requires id < |ops| && ListInv(ops, list, link)
    requires op.link == link && ops[id].link != link
    ensures ListInv(ops[id := op], list + [id], link)
    ensures ListInv(ops[id := op], [id] + list, link)
  {
    assert forall x :: x in list + [id] <==> x in list || x == id;
    assert forall x :: x in [id] + list <==> x in list || x == id;
  }

  lemma ListPop(ops: seq<Op>, list: seq<nat>, link: Link, op: Op)
    requires list != [] && ListInv(ops, list, link) && op.link != link
    ensures ListInv(ops[list[0] := op], list[1..], link)
  {
    assert forall x :: x in list <==> x == list[0] || x in list[1..];
  }

  lemma ListRemove(ops: seq<Op>, list: seq<nat>, link: Link, id: nat, op: Op)
    requires id < |ops| && ListInv(ops, list, link) && ops[id].link == link && op.link != link
    ensures ListInv(ops[id := op], Without(list, id), link)
    ensures |Without(list, id)| == |list| - 1
  {
    WithoutMembers(list, id);
    forall k | 0 <= k < |Without(list, id)| ensures Without(list, id)[k] < |ops| {
      assert Without(list, id)[k] in list;
    }
  }

  // ----- Every primitive keeps everything but the record it works on

  ghost predicate InvExcept(m: Machine, id: nat) {
    && id < |m.ops|
    && (forall other: nat :: other < |m.ops| && other != id ==> OpInv(m.ops[other]))
    && ListInv(m.ops, m.runqueue, InRunqueue)
    && ListInv(m.ops, m.transient, InTransient)
    && ListInv(m.ops, m.freelist, InFreelist)
    && m.opsRunqueue == |m.runqueue| && m.opsTransient == |m.transient| && m.opsFree == |m.freelist|
    && m.opsPending == Count(Outstanding, m.ops)
    && m.opsFree == Count(Free, m.ops)
    && |m.ops| == BATCH * m.batches
  }

  lemma SetKeeps(m: Machine, id: nat, op: Op)
    requires InvExcept(m, id) && op.link == m.ops[id].link
    ensures InvExcept(
      Set(m, id, op).(opsPending := m.opsPending - Weight(Outstanding, m.ops[id]) + Weight(Outstanding, op)), id)
  {
    ListKeep(m.ops, m.runqueue, InRunqueue, id, op);
    ListKeep(m.ops, m.transient, InTransient, id, op);
    ListKeep(m.ops, m.freelist, InFreelist, id, op);
    CountUpdate(Outstanding, m.ops, id, op);
    CountUpdate(Free, m.ops, id, op);
  }

  lemma PushKeeps(m: Machine, id: nat)
    requires InvExcept(m, id) && m.ops[id].link == Unlinked
    ensures InvExcept(RunqueuePush(m, id), id)
  {
    var op := m.ops[id].(link := InRunqueue);
    ListPush(m.ops, m.runqueue, InRunqueue, id, op);
    ListKeep(m.ops, m.transient, InTransient, id, op);
    ListKeep(m.ops, m.freelist, InFreelist, id, op);
    CountUpdate(Outstanding, m.ops, id, op);
    CountUpdate(Free, m.ops, id, op);
  }

  lemma ShiftKeeps(m: Machine)
    requires m.runqueue != [] && InvExcept(m, m.runqueue[0])
    ensures InvExcept(RunqueueShift(m), m.runqueue[0])
  {
    var id := m.runqueue[0];
    assert id in m.runqueue;
    var op := m.ops[id].(link := Unlinked);
    ListPop(m.ops, m.runqueue, InRunqueue, op);
    ListKeep(m.ops, m.transient, InTransient, id, op);
    ListKeep(m.ops, m.freelist, InFreelist, id, op);
    CountUpdate(Outstanding, m.ops, id, op);
    CountUpdate(Free, m.ops, id, op);
  }

  lemma TransientAddKeeps(m: Machine, id: nat)
    requires InvExcept(m, id) && m.ops[id].link == Unlinked
    ensures InvExcept(TransientAdd(m, id), id)
  {
    var op := m.ops[id].(link := InTransient);
    ListKeep(m.ops, m.runqueue, InRunqueue, id, op);
    ListPush(m.ops, m.transient, InTransient, id, op);
    ListKeep(m.ops, m.freelist, InFreelist, id, op);
    CountUpdate(Outstanding, m.ops, id, op);
    CountUpdate(Free, m.ops, id, op);
  }

  lemma TransientRemoveKeeps(m: Machine, id: nat)
    requires InvExcept(m, id) && m.ops[id].link == InTransient
    ensures InvExcept(TransientRemove(m, id), id)
  {
    var op := m.ops[id].(link := Unlinked, transient := false);
    ListKeep(m.ops, m.runqueue, InRunqueue, id, op);
    ListRemove(m.ops, m.transient, InTransient, id, op);
    ListKeep(m.ops, m.freelist, InFreelist, id, op);
    CountUpdate(Outstanding, m.ops, id, op);
    CountUpdate(Free, m.ops, id, op);
  }

  /** A release keeps the lists sound provided an op whose count reaches zero is linked nowhere. */
  lemma ReleaseKeeps(m: Machine, id: nat)
    requires InvExcept(m, id) && m.ops[id].refCount < UINT32
    requires m.ops[id].refCount == 1 ==> m.ops[id].link == Unlinked
    ensures InvExcept(Release(m, id), id)
  {
    hide ListInv, Count;
    var op := m.ops[id];
    if op.refCount != 1 {
      SetKeeps(m, id, op.(refCount := Dec32(op.refCount)));
    } else {
      var op' := op.(refCount := 0, link := InFreelist, recycled := op.recycled + 1);
      ListKeep(m.ops, m.runqueue, InRunqueue, id, op');
      ListKeep(m.ops, m.transient, InTransient, id, op');
      ListPush(m.ops, m.freelist, InFreelist, id, op');
      CountUpdate(Outstanding, m.ops, id, op');
      CountUpdate(Free, m.ops, id, op');
    }
  }

  lemma AllocKeeps(m: Machine)
    requires Inv(m)
    ensures var (m', id) := Alloc(m);
      && InvExcept(m', id)
      && m'.ops[id].link == Unlinked && !m'.ops[id].inKernel
      && m'.ops[id].acquired == m'.ops[id].recycled + 1
      && m'.runqueue == m.runqueue
  {
    if m.freelist != [] {
      HeadLinked(m.ops, m.freelist, InFreelist);
      FreeKeeps(m);
    } else {
      GrowKeeps(m);
    }
  }

  lemma FreeKeeps(m: Machine)
    requires Inv(m) && m.freelist != [] && m.freelist[0] < |m.ops| && m.ops[m.freelist[0]].link == InFreelist
    ensures InvExcept(Alloc(m).0, Alloc(m).1)
    ensures !m.ops[m.freelist[0]].inKernel && m.ops[m.freelist[0]].acquired == m.ops[m.freelist[0]].recycled
  {
    hide ListInv, Count;
    var id := m.freelist[0];
    assert OpInv(m.ops[id]);
    var op := m.ops[id].(link := Unlinked, acquired := m.ops[id].acquired + 1);
    ListKeep(m.ops, m.runqueue, InRunqueue, id, op);
    ListKeep(m.ops, m.transient, InTransient, id, op);
    ListPop(m.ops, m.freelist, InFreelist, op);
    CountUpdate(Outstanding, m.ops, id, op);
    CountUpdate(Free, m.ops, id, op);
  }

  lemma GrowKeeps(m: Machine)
    requires Inv(m) && m.freelist == []
    ensures InvExcept(Alloc(m).0, Alloc(m).1)
  {
    var blanks := seq(BATCH, k => BlankOp());
    var id := |m.ops|;
    var op := BlankOp().(link := Unlinked, acquired := 1);
    CountAppend(Outstanding, m.ops, blanks);
    CountAppend(Free, m.ops, blanks);
    CountBlank(BATCH);
    CountUpdate(Outstanding, m.ops + blanks, id, op);
    CountUpdate(Free, m.ops + blanks, id, op);
    GrowList(m.ops, m.runqueue, InRunqueue);
    GrowList(m.ops, m.transient, InTransient);
    GrowFreelist(m.ops);
  }

  function Grown(ops: seq<Op>): seq<Op> {
    (ops + seq(BATCH, k => BlankOp()))[|ops| := BlankOp().(link := Unlinked, acquired := 1)]
  }

  lemma GrowList(ops: seq<Op>, list: seq<nat>, link: Link)
    requires ListInv(ops, list, link) && link in {InRunqueue, InTransient}
    ensures ListInv(Grown(ops), list, link)
  {
  }

  lemma GrowFreelist(ops: seq<Op>)
    requires ListInv(ops, [], InFreelist)
    ensures ListInv(Grown(ops), seq(BATCH - 1, (k: nat) => |ops| + 1 + k), InFreelist)
  {
    var free := seq(BATCH - 1, (k: nat) => |ops| + 1 + k);
    forall id: nat | id < |ops| + BATCH ensures id in free <==> Grown(ops)[id].link == InFreelist {
      if id > |ops| {
        assert free[id - |ops| - 1] == id;
      } else if id < |ops| {
        assert id !in [];
      }
    }
  }

  // ----- Every step keeps the invariant

  /** Releasing one reference more than there are holders re-establishes the invariant. */
  lemma DropKeeps(m: Machine, id: nat)
    requires InvExcept(m, id)
    requires var op := m.ops[id];
      && op.acquired == op.recycled + 1
      && op.refCount == Holders(op) + 1 < UINT32
      && (if Holders(op) == 0 then op.link == Unlinked else OpInv(op.(refCount := Holders(op))))
    ensures Inv(Release(m, id))
  {
    hide ListInv, Count;
    ReleaseKeeps(m, id);
  }

  lemma DisownKeeps(m: Machine, id: nat)
    requires InvExcept(m, id)
    requires var op := m.ops[id];
      && op.owner in {Fiber, Stream, Handle}
      && op.acquired == op.recycled + 1
      && op.refCount == Holders(op)
      && op.scheduled == (op.link == InRunqueue)
      && op.link in {Unlinked, InRunqueue} && !op.transient
      && (op.skip ==> op.link == InRunqueue && !op.inKernel)
      && (op.inKernel ==> op.canceled && !op.multishot && op.link != InRunqueue)
    ensures Inv(Disown(m, id))
  {
    hide ListInv, Count;
    var op := m.ops[id].(owner := NoOwner);
    SetKeeps(m, id, op);
    DropKeeps(Set(m, id, op), id);
  }

  lemma HeadLinked(ops: seq<Op>, list: seq<nat>, link: Link)
    requires list != [] && ListInv(ops, list, link)
    ensures list[0] < |ops| && ops[list[0]].link == link
  {
    assert list[0] in list;
  }

  lemma PopKeeps(m: Machine)
    requires Inv(m) && m.runqueue != []
    ensures Inv(PopRunqueue(m))
  {
    HeadLinked(m.ops, m.runqueue, InRunqueue);
    hide ListInv, Count;
    var id := m.runqueue[0];
    ShiftKeeps(m);
    var m1 := RunqueueShift(m);
    var op := m1.ops[id].(scheduled := false);
    SetKeeps(m1, id, op);
    OffQueue(m.ops[id]);
    DropKeeps(Set(m1, id, op), id);
  }

  /** A queued op that has left the queue lacks one holder. */
  lemma OffQueue(op: Op)
    requires OpInv(op) && op.link == InRunqueue
    ensures var op' := op.(link := Unlinked, scheduled := false);
      && op'.acquired == op'.recycled + 1 && op'.refCount == Holders(op') + 1 < UINT32
      && (Holders(op') > 0 ==> OpInv(op'.(refCount := Holders(op'))))
  {
  }

  lemma SubmitKeeps(m: Machine, kind: Kind)
    requires Inv(m)
    ensures Inv(Submit(m, kind))
  {
    hide ListInv, Count;
    AllocKeeps(m);
    var (m1, id) := Alloc(m);
    var op := Prepared(m1.ops[id], kind);
    SetKeeps(m1, id, op);
    if op.transient {
      TransientAddKeeps(Set(m1, id, op).(opsPending := m1.opsPending + 1), id);
    }
  }

  lemma ScheduleKeeps(m: Machine)
    requires Inv(m)
    ensures Inv(Schedule(m))
  {
    hide ListInv, Count;
    AllocKeeps(m);
    var (m1, id) := Alloc(m);
    var op := m1.ops[id];
    var op' := BlankOp().(refCount := 1, scheduled := true, link := op.link,
                          acquired := op.acquired, recycled := op.recycled);
    SetKeeps(m1, id, op');
    PushKeeps(Set(m1, id, op'), id);
  }

  lemma ScheduleOpKeeps(m: Machine, id: nat)
    requires InvExcept(m, id)
    requires m.ops[id].link == Unlinked
    requires OpInv(m.ops[id].(link := InRunqueue, scheduled := true, refCount := m.ops[id].refCount + 1))
    ensures Inv(ScheduleOp(m, id))
  {
    hide ListInv, Count;
    var op := m.ops[id].(scheduled := true, refCount := m.ops[id].refCount + 1);
    SetKeeps(m, id, op);
    PushKeeps(Set(m, id, op), id);
  }

  lemma TransientCqeKeeps(m: Machine, id: nat)
    requires Inv(m) && id < |m.ops| && m.ops[id].inKernel && m.ops[id].transient
    ensures Inv(ProcessTransient(m, id))
  {
    hide ListInv, Count;
    var m1 := TransientRemove(m.(opsPending := m.opsPending - 1), id);
    TransientRemoveKeeps(m, id);
    var op := m1.ops[id];
    var op' := op.(inKernel := false, seen := op.seen || op.refCount > 1, done := op.done || op.refCount > 1);
    SetKeeps(TransientRemove(m, id), id, op');
    ReleaseKeeps(Set(m1, id, op'), id);
  }

  /** A completion whose op was discarded: both releases, the second one possibly wrapping. */
  lemma DiscardedCqeKeeps(m: Machine, id: nat)
    requires Inv(m) && id < |m.ops| && m.ops[id].inKernel && m.ops[id].canceled
    ensures Inv(SecondRelease(ReleaseKernel(m, id), id))
  {
    hide ListInv, Count;
    var op := m.ops[id].(inKernel := false);
    SetKeeps(m, id, op);
    ReleaseKeeps(Set(m, id, op).(opsPending := m.opsPending - 1), id);
    var m1 := ReleaseKernel(m, id);
    var op1 := m1.ops[id].(seen := true, done := true, owner := NoOwner);
    SetKeeps(m1, id, op1);
    ReleaseKeeps(Set(m1, id, op1), id);
  }

  lemma CqeKeeps(m: Machine, id: nat, more: bool)
    requires Inv(m) && id < |m.ops| && m.ops[id].inKernel
    ensures Inv(ProcessCqe(m, id, more))
  {
    hide ListInv, Count;
    var op := m.ops[id];
    var done := !(op.multishot && more);
    if op.transient {
      TransientCqeKeeps(m, id);
    } else if op.canceled {
      if done {
        DiscardedCqeKeeps(m, id);
      }
    } else {
      var m1 := if done then ReleaseKernel(m, id) else m;
      if done {
        SetKeeps(m, id, op.(inKernel := false));
        ReleaseKeeps(Set(m, id, op.(inKernel := false)).(opsPending := m.opsPending - 1), id);
      }
      LiveCqeKeeps(m, m1, id, done);
    }
  }

  /** The completion of an op somebody still wants, or of an async op nobody reads. */
  lemma LiveCqeKeeps(m: Machine, m1: Machine, id: nat, done: bool)
    requires Inv(m) && id < |m.ops| && m.ops[id].inKernel && !m.ops[id].canceled && !m.ops[id].transient
    requires m1 == if done then ReleaseKernel(m, id) else m
    requires !m.ops[id].multishot ==> done
    requires InvExcept(m1, id)
    ensures var op1 := m1.ops[id];
      var m2 := Set(m1, id, op1.(seen := true, done := op1.done || done));
      Inv(if (op1.multishot && op1.scheduled) || op1.async then m2 else ScheduleOp(m2, id))
  {
    hide ListInv, Count;
    var op1 := m1.ops[id].(seen := true, done := m1.ops[id].done || done);
    SetKeeps(m1, id, op1);
    if !((op1.multishot && op1.scheduled) || op1.async) {
      ScheduleOpKeeps(Set(m1, id, op1), id);
    }
  }

  lemma StepKeepsInv(m: Machine, step: Step)
    requires Inv(m) && Enabled(m, step)
    ensures Inv(Apply(m, step))
  {
    hide Inv, Submit, Schedule, ProcessCqe, PopRunqueue;
    match step
    case DoSubmit(kind) => SubmitKeeps(m, kind);
    case DoSchedule => ScheduleKeeps(m);
    case Cqe(id, more) => CqeKeeps(m, id, more);
    case Pop => PopKeeps(m);
    case DiscardBlocking(id) => DiscardBlockingKeeps(m, id);
    case FinishSelect(id) => FinishSelectKeeps(m, id);
    case AwaitHandle(id) => AwaitHandleKeeps(m, id);
    case _ => FlagStepKeeps(m, step);
  }

  lemma FlagStepKeeps(m: Machine, step: Step)
    requires Inv(m) && Enabled(m, step)
    requires step.FinishBlocking? || step.ClearSeen? || step.SetAsync? || step.FinishStream? || step.ClearStream?
             || step.FreeHandle?
    ensures Inv(Apply(m, step))
  {
    hide ListInv, Count;
    match step
    case FinishBlocking(id) => DisownKeeps(m, id);
    case ClearSeen(id) => SetKeeps(m, id, m.ops[id].(seen := false));
    case SetAsync(id, on) => SetKeeps(m, id, m.ops[id].(async := on));
    case FinishStream(id) => DisownKeeps(m, id);
    case ClearStream(id) => SetKeeps(m, id, m.ops[id].(canceled := true, owner := Orphan));
    case FreeHandle(id) => DisownKeeps(m, id);
  }

  lemma DiscardBlockingKeeps(m: Machine, id: nat)
    requires Inv(m) && Enabled(m, DiscardBlocking(id))
    ensures Inv(Apply(m, DiscardBlocking(id)))
  {
    hide ListInv, Count;
    var op := m.ops[id].(canceled := true);
    SetKeeps(m, id, op);
    DisownKeeps(Set(m, id, op), id);
  }

  lemma FinishSelectKeeps(m: Machine, id: nat)
    requires Inv(m) && Enabled(m, FinishSelect(id))
    ensures Inv(Apply(m, FinishSelect(id)))
  {
    hide ListInv, Count;
    var op := m.ops[id].(skip := m.ops[id].skip || m.ops[id].scheduled);
    SetKeeps(m, id, op);
    DisownKeeps(Set(m, id, op), id);
  }

  lemma AwaitHandleKeeps(m: Machine, id: nat)
    requires Inv(m) && Enabled(m, AwaitHandle(id))
    ensures Inv(Apply(m, AwaitHandle(id)))
  {
    hide ListInv, Count;
    TransientRemoveKeeps(m, id);
    var m1 := TransientRemove(m, id);
    SetKeeps(m1, id, m1.ops[id].(async := false));
  }

  // ----- Main results

  /** The holders of an op, counted from the machine's lists rather than from the op's link. */
  function HoldersOf(m: Machine, id: nat): nat
    requires id < |m.ops|
  {
    (if m.ops[id].inKernel then 1 else 0) + (if m.ops[id].owner != NoOwner then 1 else 0)
    + (if id in m.runqueue then 1 else 0)
  }

  lemma {:induction false} RunKeepsInv(m: Machine, steps: seq<Step>)
    requires Inv(m)
    ensures Inv(Run(m, steps))
    decreases |steps|
  {
    hide Inv, Apply, Enabled;
    if steps != [] {
      if Enabled(m, steps[0]) {
        StepKeepsInv(m, steps[0]);
        RunKeepsInv(Apply(m, steps[0]), steps[1..]);
      } else {
        RunKeepsInv(m, steps[1..]);
      }
    }
  }

  lemma InitialInv()
    ensures Inv(Initial())
  {
  }

  /** After any run, a record is on the freelist exactly when nobody holds it; otherwise its reference count
      is the number of its holders. Every acquisition but a live one has been recycled exactly once. */
  lemma ReferencesAreHolders(steps: seq<Step>, id: nat)
    requires id < |Run(Initial(), steps).ops|
    ensures var m := Run(Initial(), steps);
      && (id in m.freelist <==> HoldersOf(m, id) == 0)
      && (id !in m.freelist ==> m.ops[id].refCount == HoldersOf(m, id))
      && m.ops[id].acquired == m.ops[id].recycled + (if id in m.freelist then 0 else 1)
  {
    RunKeepsInv(Initial(), steps);
  }

  /** After any run no op is linked twice, SCHEDULED is set on a live op exactly when it is in the runqueue,
      and every counter equals what it counts. */
  lemma ListsAndCountersAgree(steps: seq<Step>)
    ensures var m := Run(Initial(), steps);
      && (forall j, k :: 0 <= j < k < |m.runqueue| ==> m.runqueue[j] != m.runqueue[k])
      && (forall j, k :: 0 <= j < k < |m.freelist| ==> m.freelist[j] != m.freelist[k])
      && (forall id: nat :: id < |m.ops| ==> !(id in m.runqueue && (id in m.freelist || id in m.transient)))
      && (forall id: nat :: id < |m.ops| && id !in m.freelist ==> (m.ops[id].scheduled <==> id in m.runqueue))
      && m.opsRunqueue == |m.runqueue| && m.opsTransient == |m.transient| && m.opsFree == |m.freelist|
      && m.opsPending == Count(Outstanding, m.ops)
      && |m.ops| - Count(Free, m.ops) + m.opsFree == 256 * m.batches
  {
    RunKeepsInv(Initial(), steps);
  }

  /** Acquiring never hands out a record that somebody still holds. */
  lemma AcquiredIsUnheld(m: Machine)
    requires Inv(m)
    ensures Alloc(m).1 < |m.ops| ==> HoldersOf(m, Alloc(m).1) == 0
    ensures Alloc(m).1 !in Alloc(m).0.freelist
    ensures m.freelist != [] ==> m.freelist == [Alloc(m).1] + Alloc(m).0.freelist && |Alloc(m).0.ops| == |m.ops|
    ensures m.freelist == [] ==> |Alloc(m).0.ops| == |m.ops| + 256 && |Alloc(m).0.freelist| == 255
  {
    if m.freelist != [] {
      assert m.freelist[0] in m.freelist;
    }
  }

  /** When the fiber that discarded an op has already given up its reference, the kernel's release recycles
      the record and the second release wraps the counter without recycling it again. */
  lemma SecondReleaseWraps(m: Machine, id: nat)
    requires Inv(m) && id < |m.ops|
    requires m.ops[id].canceled && m.ops[id].inKernel && m.ops[id].owner == NoOwner
    ensures ProcessCqe(m, id, false).ops[id].refCount == 0xFFFF_FFFF
    ensures ProcessCqe(m, id, false).freelist == [id] + m.freelist
    ensures id !in m.freelist
  {
  }

  /** When a stream left its reference behind, the second release is the one that recycles, at once or when
      the op leaves the runqueue. */
  lemma SecondReleaseFreesOrphan(m: Machine, id: nat)
    requires Inv(m) && id < |m.ops| && m.ops[id].owner == Orphan
    ensures var m' := ProcessCqe(m, id, false);
      if id in m.runqueue then m'.ops[id].refCount == 1 && m'.freelist == m.freelist
      else m'.freelist == [id] + m.freelist
  {
  }

  /** `um_switch` between two waits: pop until an op is not to be skipped. */
  function Switch(m: Machine): (r: (Machine, seq<nat>))
    requires Inv(m)
    decreases |m.runqueue|
  {
    if m.runqueue == [] then (m, [])
    else
      StepKeepsInv(m, Pop);
      var id := m.runqueue[0];
      var m' := Apply(m, Pop);
      if m.ops[id].skip then Switch(m') else (m', [id])
  }

  /** Fibers are resumed in the order their ops were pushed, and only SKIP ops are dropped. */
  lemma {:induction false} SwitchResumesInOrder(m: Machine) returns (k: nat)
    requires Inv(m)
    ensures Inv(Switch(m).0) && k <= |m.runqueue|
    ensures forall j :: 0 <= j < k ==> m.runqueue[j] < |m.ops| && m.ops[m.runqueue[j]].skip
    ensures k == |m.runqueue| ==> Switch(m).1 == [] && Switch(m).0.runqueue == []
    ensures k < |m.runqueue| ==>
      && m.runqueue[k] < |m.ops| && !m.ops[m.runqueue[k]].skip
      && Switch(m).1 == [m.runqueue[k]] && Switch(m).0.runqueue == m.runqueue[k + 1..]
    decreases |m.runqueue|
  {
    hide Inv, Apply;
    k := 0;
    if m.runqueue != [] {
      PopEffect(m);
      var m' := Apply(m, Pop);
      if m.ops[m.runqueue[0]].skip {
        var k' := SwitchResumesInOrder(m');
        k := k' + 1;
        assert forall j :: 0 <= j < |m'.runqueue| ==> m'.runqueue[j] == m.runqueue[j + 1];
      }
    }
  }

  lemma PopEffect(m: Machine)
    requires Inv(m) && m.runqueue != []
    ensures Enabled(m, Pop) && m.runqueue[0] < |m.ops|
    ensures var m' := Apply(m, Pop);
      && Inv(m') && m'.runqueue == m.runqueue[1..] && |m'.ops| == |m.ops|
      && forall id :: 0 <= id < |m.ops| ==> m'.ops[id].skip == m.ops[id].skip
  {
    hide PopRunqueue;
    StepKeepsInv(m, Pop);
    HeadLinked(m.ops, m.runqueue, InRunqueue);
    PopLeaves(m);
  }

  lemma PopLeaves(m: Machine)
    requires m.runqueue != [] && m.runqueue[0] < |m.ops| && m.ops[m.runqueue[0]].refCount < UINT32
    ensures var m' := PopRunqueue(m);
      && m'.runqueue == m.runqueue[1..] && |m'.ops| == |m.ops|
      && forall id :: 0 <= id < |m.ops| ==> m'.ops[id].skip == m.ops[id].skip
  {
    var id := m.runqueue[0];
    var m1 := RunqueueShift(m);
    ReleaseLeaves(Set(m1, id, m1.ops[id].(scheduled := false)), id);
    hide Release;
  }

  lemma ReleaseLeaves(m: Machine, id: nat)
    requires id < |m.ops| && m.ops[id].refCount < UINT32
    ensures var m' := Release(m, id);
      && m'.runqueue == m.runqueue && |m'.ops| == |m.ops|
      && forall k :: 0 <= k < |m.ops| ==> m'.ops[k].skip == m.ops[k].skip
  {
    hide Dec32;
    var op := m.ops[id];
    var m' := Release(m, id);
    assert m'.ops == m.ops[id := m'.ops[id]];
    assert m'.ops[id].skip == op.skip;
  }

  datatype Completion = Completion(id: nat, more: bool)

  /** The completions that one wait brings, processed in order; there are none for ops the kernel does not have. */
  function ProcessAll(m: Machine, cqes: seq<Completion>): (r: Machine)
    requires Inv(m)
    ensures Inv(r)
    decreases |cqes|
  {
    if cqes == [] then m
    else
      var step := Cqe(cqes[0].id, cqes[0].more);
      if Enabled(m, step) then StepKeepsInv(m, step); ProcessAll(Apply(m, step), cqes[1..])
      else ProcessAll(m, cqes[1..])
  }

  /** The whole of `um_switch`: it waits whenever the runqueue has run empty. Given what each wait brings, the
      fiber it resumes, or none if it is still waiting. */
  function SwitchWaiting(m: Machine, waits: seq<seq<Completion>>): (r: (Machine, seq<nat>))
    requires Inv(m)
    ensures Inv(r.0)
    decreases |waits|
  {
    SwitchKeepsInv(m);
    var (m', resumed) := Switch(m);
    if resumed != [] || waits == [] then (m', resumed) else SwitchWaiting(ProcessAll(m', waits[0]), waits[1..])
  }

  lemma CountFits(m: Machine, id: nat)
    requires Inv(m) && id < |m.ops|
    ensures m.ops[id].refCount < UINT32
  {
    assert OpInv(m.ops[id]);
  }

  lemma SwitchKeepsInv(m: Machine)
    requires Inv(m)
    ensures Inv(Switch(m).0)
  {
    var _ := SwitchResumesInOrder(m);
  }

  /** It waits only while nothing but SKIP ops is queued, and each wait starts from an empty queue. */
  lemma {:induction false} SwitchWaitsWhenIdle(m: Machine, waits: seq<seq<Completion>>)
    requires Inv(m)
    ensures Inv(Switch(m).0)
    ensures (exists k :: 0 <= k < |m.runqueue| && Runs(m, m.runqueue[k])) ==> SwitchWaiting(m, waits) == Switch(m)
    ensures (forall k :: 0 <= k < |m.runqueue| ==> !Runs(m, m.runqueue[k])) ==>
      && Switch(m).1 == [] && Switch(m).0.runqueue == []
      && (waits != [] ==> SwitchWaiting(m, waits) == SwitchWaiting(ProcessAll(Switch(m).0, waits[0]), waits[1..]))
  {
    hide Inv, Switch, ProcessAll;
    SwitchKeepsInv(m);
    var k := SwitchResumesInOrder(m);
    assert k < |m.runqueue| ==> Runs(m, m.runqueue[k]);
    if j :| 0 <= j < |m.runqueue| && Runs(m, m.runqueue[j]) {
      assert k < |m.runqueue|;
    }
  }

  predicate Runs(m: Machine, id: nat) {
    id < |m.ops| && !m.ops[id].skip
  }

  // ----- What a completion does, and who gets a turn

  /** The completion of an op wakes its fiber: the op is neither discarded nor asynchronous, and, if there may be
      more completions, none before it has yet to be noticed. */
  predicate Wakes(op: Op, queued: bool) {
    !op.canceled && !op.transient && !op.async && !(op.multishot && queued)
  }

  /** A completion of any kind of op queues it, last, exactly if it wakes its fiber. */
  lemma CompletionQueuesIff(m: Machine, id: nat, more: bool)
    requires Inv(m) && id < |m.ops| && m.ops[id].inKernel
    ensures var m' := ProcessCqe(m, id, more);
      m'.runqueue == m.runqueue + if Wakes(m.ops[id], id in m.runqueue) then [id] else []
  {
    hide Count;
    assert OpInv(m.ops[id]);
  }

  /** A completion is the kernel's last for the op unless it is one of several and has F_MORE. The owner of an op that
      is not discarded finds it seen, and done with the last one; nobody else's op is touched. */
  ghost predicate Completed(m: Machine, m': Machine, id: nat, last: bool)
    requires id < |m.ops|
  {
    var op := m.ops[id];
    && |m'.ops| == |m.ops| && (forall k :: 0 <= k < |m.ops| && k != id ==> m'.ops[k] == m.ops[k])
    && (m'.ops[id].inKernel <==> !last) && m'.opsPending == m.opsPending - (if last then 1 else 0)
    && (op.owner in {Fiber, Stream, Handle} ==>
         m'.ops[id].owner == op.owner && m'.ops[id].seen && (m'.ops[id].done <==> last))
    && m'.transient == (if op.transient then Without(m.transient, id) else m.transient)
    && m'.freelist ==
         (if last && op.owner in {NoOwner, Orphan} && id !in m'.runqueue then [id] + m.freelist else m.freelist)
  }

  lemma CompletionMarks(m: Machine, id: nat, more: bool)
    requires Inv(m) && id < |m.ops| && m.ops[id].inKernel
    ensures Completed(m, ProcessCqe(m, id, more), id, !(m.ops[id].multishot && more))
  {
    hide Count, ListInv, Completed;
    assert OpInv(m.ops[id]);
    var op := m.ops[id];
    if op.transient { TransientMarks(m, id); }
    else if op.canceled { DiscardedMarks(m, id, more); }
    else { LiveMarks(m, id, more); }
  }

  lemma TransientMarks(m: Machine, id: nat)
    requires Inv(m) && id < |m.ops| && m.ops[id].inKernel && m.ops[id].transient
    ensures !m.ops[id].multishot && Completed(m, ProcessTransient(m, id), id, true)
  {
    hide Count, Without;
    assert OpInv(m.ops[id]);
  }

  lemma DiscardedMarks(m: Machine, id: nat, more: bool)
    requires Inv(m) && id < |m.ops| && m.ops[id].inKernel && m.ops[id].canceled && !m.ops[id].transient
    ensures Completed(m, ProcessCqe(m, id, more), id, !(m.ops[id].multishot && more))
  {
    hide Count;
    assert OpInv(m.ops[id]);
  }

  lemma LiveMarks(m: Machine, id: nat, more: bool)
    requires Inv(m) && id < |m.ops| && m.ops[id].inKernel && !m.ops[id].canceled && !m.ops[id].transient
    ensures Completed(m, ProcessCqe(m, id, more), id, !(m.ops[id].multishot && more))
  {
    hide Count;
    assert OpInv(m.ops[id]);
  }

  /** From submission to the first completion: what is submitted in which way wakes its fiber, goes on, is done, or is
      free again. */
  lemma FirstCompletion(m: Machine, kind: Kind, more: bool)
    requires Inv(m) && Inv(Submit(m, kind)) && Enabled(Submit(m, kind), Cqe(Alloc(m).1, more))
    ensures var m1, id := Submit(m, kind), Alloc(m).1;
      && m1.runqueue == m.runqueue && m1.opsPending == m.opsPending + 1
      && id < |m1.ops| && !m1.ops[id].seen && !m1.ops[id].done
      && m1.transient == if kind.AsyncTimeout? || kind == FireAndForget(true) then [id] + m.transient else m.transient
    ensures var id, m2 := Alloc(m).1, Apply(Submit(m, kind), Cqe(Alloc(m).1, more));
      && m2.runqueue == m.runqueue + (if kind.Blocking? || kind.StreamRead? then [id] else [])
      && id < |m2.ops| && (m2.ops[id].inKernel <==> more && (kind == Blocking(true) || kind.StreamRead?))
      && (id in m2.freelist <==> kind.FireAndForget?)
      && (kind.AsyncTimeout? ==> m2.ops[id].done && m2.ops[id].owner == Handle)
  {
    var m1, id := Submit(m, kind), Alloc(m).1;
    hide Count, ListInv, ProcessCqe, Inv;
    SubmittedIs(m, kind);
    CompletionQueuesIff(m1, id, more);
    CompletionMarks(m1, id, more);
    OneCompletion(m1, id, more, kind);
  }

  /** A submission can be completed. */
  lemma SubmittedIs(m: Machine, kind: Kind)
    requires Inv(m)
    ensures var m1, id := Submit(m, kind), Alloc(m).1;
      && Inv(m1) && (forall more :: Enabled(m1, Cqe(id, more)))
      && m1.ops[id] == Prepared(m1.ops[id], kind).(link := m1.ops[id].link)
      && !m1.ops[id].seen && !m1.ops[id].done
      && id !in m1.runqueue && id !in m1.freelist && m1.runqueue == m.runqueue && m1.opsPending == m.opsPending + 1
      && m1.transient == if kind.AsyncTimeout? || kind == FireAndForget(true) then [id] + m.transient else m.transient
  {
    SubmitKeeps(m, kind);
    var m1, id := Submit(m, kind), Alloc(m).1;
    hide Count, ListInv;
    FreshIsUnlinked(m, id);
    InFreelistIs(m1, id);
  }

  lemma InFreelistIs(m: Machine, id: nat)
    requires Inv(m) && id < |m.ops|
    ensures id in m.freelist <==> m.ops[id].link == InFreelist
    ensures id in m.runqueue <==> m.ops[id].link == InRunqueue
  {
  }

  lemma OneCompletion(m: Machine, id: nat, more: bool, kind: Kind)
    requires Inv(m) && Enabled(m, Cqe(id, more)) && m.ops[id] == Prepared(m.ops[id], kind).(link := m.ops[id].link)
    requires id !in m.runqueue && id !in m.freelist
    requires Completed(m, Apply(m, Cqe(id, more)), id, !(m.ops[id].multishot && more))
    requires Apply(m, Cqe(id, more)).runqueue == m.runqueue + if Wakes(m.ops[id], id in m.runqueue) then [id] else []
    ensures var m2 := Apply(m, Cqe(id, more));
      && m2.runqueue == m.runqueue + (if kind.Blocking? || kind.StreamRead? then [id] else [])
      && id < |m2.ops| && (m2.ops[id].inKernel <==> more && (kind == Blocking(true) || kind.StreamRead?))
      && (id in m2.freelist <==> kind.FireAndForget?)
      && (kind.AsyncTimeout? ==> m2.ops[id].done && m2.ops[id].owner == Handle)
  {
    hide Inv, ProcessCqe;
  }

  lemma FreshIsUnlinked(m: Machine, id: nat)
    requires Inv(m) && id == Alloc(m).1
    ensures id !in m.runqueue && id !in m.transient && Alloc(m).0.transient == m.transient
    ensures Alloc(m).0.opsPending == m.opsPending
  {
    hide Count;
    if m.freelist != [] { assert m.freelist[0] in m.freelist; }
  }

  /** An op that is awaited wakes its fiber with its completion, which it did not do before. */
  lemma AwaitIsWoken(m: Machine, id: nat)
    requires Inv(m) && Enabled(m, AwaitHandle(id))
    ensures ProcessCqe(m, id, false).runqueue == m.runqueue
    ensures var m' := Apply(m, AwaitHandle(id));
      Inv(m') && Enabled(m', Cqe(id, false)) && ProcessCqe(m', id, false).runqueue == m.runqueue + [id]
  {
    hide Count;
    StepKeepsInv(m, AwaitHandle(id));
    CompletionQueuesIff(m, id, false);
    CompletionQueuesIff(Apply(m, AwaitHandle(id)), id, false);
  }

  /** An op that select has let go of while it was queued gives its fiber no turn any more. */
  lemma FinishedSelectIsSkipped(m: Machine, id: nat)
    requires Inv(m) && Enabled(m, FinishSelect(id))
    ensures var m' := Apply(m, FinishSelect(id)); Inv(m') && m'.runqueue == m.runqueue && Switch(m').1 != [id]
  {
    hide Count;
    StepKeepsInv(m, FinishSelect(id));
    var m' := Apply(m, FinishSelect(id));
    assert OpInv(m.ops[id]);
    hide Inv, Switch;
    var k := SwitchResumesInOrder(m');
    QueuedIsScheduled(m, id);
  }

  lemma QueuedIsScheduled(m: Machine, id: nat)
    requires Inv(m) && id < |m.ops|
    ensures id in m.runqueue ==> m.ops[id].scheduled
  {
    assert OpInv(m.ops[id]);
  }

  /** What a step puts at the end of the runqueue. */
  function Queues(m: Machine, step: Step): seq<nat>
    requires Inv(m) && Enabled(m, step)
  {
    match step
    case Cqe(id, _) => if Wakes(m.ops[id], id in m.runqueue) then [id] else []
    case DoSchedule => [if m.freelist != [] then m.freelist[0] else |m.ops|]
    case _ => []
  }

  /** Nothing else enters the runqueue, and nothing leaves it but its first op with its turn. */
  lemma StepQueues(m: Machine, step: Step)
    requires Inv(m) && Enabled(m, step)
    ensures Apply(m, step).runqueue == if step.Pop? then m.runqueue[1..] else m.runqueue + Queues(m, step)
  {
    hide Inv, ProcessCqe, Submit, Schedule, PopRunqueue, Release, TransientRemove;
    match step
    case DoSubmit(kind) => SubmittedIs(m, kind);
    case DoSchedule => ScheduledIs(m);
    case Cqe(id, more) => CompletionQueuesIff(m, id, more);
    case Pop => PopEffect(m);
    case AwaitHandle(id) => TransientLeaves(m, id);
    case _ => CountFits(m, step.id); DisownLeaves();
  }

  /** A scheduled fiber gets its turn, and at once if nothing else is queued; its op is free again then. */
  lemma ScheduledGetsTurn(m: Machine)
    requires Inv(m)
    ensures var id, m' := (if m.freelist != [] then m.freelist[0] else |m.ops|), Schedule(m);
      && Inv(m') && id < |m'.ops| && !m'.ops[id].skip && m'.runqueue == m.runqueue + [id]
      && (m.runqueue == [] ==> Switch(m').1 == [id] && Switch(m').0.freelist == [id] + m'.freelist)
  {
    ScheduledIs(m);
    ScheduleKeeps(m);
    ScheduledOp(m);
    hide Inv, Schedule;
    if m.runqueue == [] { OnlyTurn(Schedule(m)); }
  }

  lemma ScheduledOp(m: Machine)
    requires Inv(m)
    ensures var id, m' := (if m.freelist != [] then m.freelist[0] else |m.ops|), Schedule(m);
      id < |m'.ops| && !m'.ops[id].skip && m'.ops[id].refCount == 1
  {
    hide Count, ListInv, OpInv;
  }

  lemma OnlyTurn(m: Machine)
    requires Inv(m) && |m.runqueue| == 1 && m.runqueue[0] < |m.ops| && !m.ops[m.runqueue[0]].skip
    requires m.ops[m.runqueue[0]].refCount == 1
    ensures Switch(m).1 == m.runqueue && Switch(m).0.freelist == m.runqueue + m.freelist
  {
    hide Inv;
    PopEffect(m);
  }

  lemma ScheduledIs(m: Machine)
    requires Inv(m)
    ensures Schedule(m).runqueue == m.runqueue + [if m.freelist != [] then m.freelist[0] else |m.ops|]
  {
    hide Count, ListInv, OpInv;
  }

  lemma TransientLeaves(m: Machine, id: nat)
    requires id < |m.ops|
    ensures TransientRemove(m, id).runqueue == m.runqueue
  {
  }

  lemma DisownLeaves()
    ensures forall m: Machine, id: nat :: id < |m.ops| && m.ops[id].refCount < UINT32 ==>
      Release(m, id).runqueue == m.runqueue
  {
  }

  /** All that a run queues, in order, and all that it takes off the queue. */
  function QueuedIn(m: Machine, steps: seq<Step>): seq<nat>
    requires Inv(m)
    decreases |steps|
  {
    if steps == [] then []
    else if Enabled(m, steps[0]) then
      StepKeepsInv(m, steps[0]);
      Queues(m, steps[0]) + QueuedIn(Apply(m, steps[0]), steps[1..])
    else QueuedIn(m, steps[1..])
  }

  function TurnsIn(m: Machine, steps: seq<Step>): seq<nat>
    requires Inv(m)
    decreases |steps|
  {
    if steps == [] then []
    else if Enabled(m, steps[0]) then
      StepKeepsInv(m, steps[0]);
      (if steps[0].Pop? then [m.runqueue[0]] else []) + TurnsIn(Apply(m, steps[0]), steps[1..])
    else TurnsIn(m, steps[1..])
  }

  /** Over any run the completions that wake a fiber, and what is scheduled, get their turns in the order in which they
      came, each once, and what has had none yet is still queued. */
  lemma {:induction false} TurnsFollowWakes(m: Machine, steps: seq<Step>)
    requires Inv(m)
    ensures m.runqueue + QueuedIn(m, steps) == TurnsIn(m, steps) + Run(m, steps).runqueue
    decreases |steps|
  {
    hide Inv, Apply, Enabled, Queues;
    if steps != [] {
      if Enabled(m, steps[0]) {
        StepKeepsInv(m, steps[0]);
        StepQueues(m, steps[0]);
        var m', rest := Apply(m, steps[0]), steps[1..];
        TurnsFollowWakes(m', rest);
        if steps[0].Pop? {
          PopHasFirst(m);
          PopQueuesNothing(m);
          var first := [m.runqueue[0]];
          assert m.runqueue == first + m'.runqueue;
          assert m.runqueue + QueuedIn(m', rest) == first + (m'.runqueue + QueuedIn(m', rest));
          assert QueuedIn(m, steps) == [] + QueuedIn(m', rest) == QueuedIn(m', rest);
          assert TurnsIn(m, steps) == first + TurnsIn(m', rest);
        } else {
          assert m'.runqueue + QueuedIn(m', rest) == m.runqueue + (Queues(m, steps[0]) + QueuedIn(m', rest));
        }
      } else {
        TurnsFollowWakes(m, steps[1..]);
      }
    }
  }

  lemma PopHasFirst(m: Machine)
    requires Inv(m) && Enabled(m, Pop)
    ensures m.runqueue != []
  {
  }

  lemma PopQueuesNothing(m: Machine)
    requires Inv(m) && Enabled(m, Pop)
    ensures Queues(m, Pop) == []
  {
  }

  // ----- Two callers that do not follow the protocol

  /** `um_futex_wait` when its wait ended normally: it releases the op twice (um_sync.c:20-27). */
  function FinishFutexWait(m: Machine, id: nat): Machine
    requires Inv(m) && Owned(m, id, Fiber)
  {
    var m1 := Disown(m, id);
    if m1.ops[id].refCount < UINT32 then Release(m1, id) else m1
  }

  /** The double release is harmless exactly when the op has already left the runqueue: then the second one
      wraps. If the fiber was resumed by something else while its op was queued, the op is recycled while
      it is still linked. */
  lemma FutexWaitSafeIff(m: Machine, id: nat)
    requires Inv(m) && Owned(m, id, Fiber) && m.ops[id].done && !m.ops[id].multishot
    ensures Inv(FinishFutexWait(m, id)) <==> id !in m.runqueue
  {
    hide Inv, FinishFutexWait;
    StepKeepsInv(m, FinishBlocking(id));
    OwnerLetsGo(m, id);
    if id in m.runqueue { RecycledQueued(m, id); } else { RecycledOnce(m, id); }
  }

  lemma OwnerLetsGo(m: Machine, id: nat)
    requires Inv(m) && Owned(m, id, Fiber) && m.ops[id].done
    ensures m.ops[id].refCount == if id in m.runqueue then 2 else 1
  {
    hide Count;
    assert OpInv(m.ops[id]);
  }

  lemma RecycledQueued(m: Machine, id: nat)
    requires Inv(m) && Owned(m, id, Fiber) && id in m.runqueue && m.ops[id].refCount == 2
    ensures !Inv(FinishFutexWait(m, id))
  {
    hide Count;
    var m2 := FinishFutexWait(m, id);
    assert m2.ops[id].link == InFreelist && m2.runqueue == m.runqueue;
    assert !ListInv(m2.ops, m2.runqueue, InRunqueue);
  }

  lemma RecycledOnce(m: Machine, id: nat)
    requires Inv(m) && Owned(m, id, Fiber) && m.ops[id].refCount == 1 && Inv(Disown(m, id))
    ensures Inv(FinishFutexWait(m, id))
  {
    hide Count, ListInv;
    var m1 := Disown(m, id);
    assert m1.ops[id].refCount == 0;
    SetKeeps(m1, id, m1.ops[id].(refCount := UINT32 - 1));
  }

  /** What is left of a linked list, walked from its head, once the link after `id` is cleared. */
  function UpTo(list: seq<nat>, id: nat): seq<nat> {
    if list == [] then [] else if list[0] == id then [id] else [list[0]] + UpTo(list[1..], id)
  }

  lemma {:induction false} UpToIs(list: seq<nat>, id: nat)
    ensures id !in list ==> UpTo(list, id) == list
    ensures forall k :: 0 <= k < |list| && list[k] == id && id !in list[..k] ==> UpTo(list, id) == list[..k + 1]
  {
    if list != [] {
      var rest := list[1..];
      UpToIs(rest, id);
      forall k | 0 <= k < |list| && list[k] == id && id !in list[..k] ensures UpTo(list, id) == list[..k + 1] {
        if k > 0 {
          assert list[..k][0] == list[0] && rest[..k - 1] == list[..k][1..];
          assert list[..k + 1] == [list[0]] + rest[..k];
        }
      }
    }
  }

  /** `um_writev` preparing the same op again for the rest of a partial write (um.c:684-690). `um_prep_op` clears
      the record, its links included. */
  function PrepareAgain(m: Machine, id: nat): Machine
    requires id < |m.ops|
  {
    Set(m, id, Prepared(m.ops[id], Blocking(false))).(opsPending := m.opsPending + 1, runqueue := UpTo(m.runqueue, id))
  }

  /** Preparing an op again is sound exactly when it is not queued. */
  lemma PrepareAgainSafeIff(m: Machine, id: nat)
    requires Inv(m) && Owned(m, id, Fiber) && m.ops[id].done && !m.ops[id].multishot
    ensures Inv(PrepareAgain(m, id)) <==> id !in m.runqueue
  {
    if id !in m.runqueue {
      UpToIs(m.runqueue, id);
      SetKeeps(m, id, Prepared(m.ops[id], Blocking(false)));
    } else {
      assert PrepareAgain(m, id).ops[id].refCount == 2;
      assert !OpInv(PrepareAgain(m, id).ops[id]);
    }
  }

  /** Otherwise every op queued after it is lost to the runqueue, while it still counts as scheduled. */
  lemma PrepareAgainCutsQueue(m: Machine, id: nat, k: nat)
    requires Inv(m) && Owned(m, id, Fiber) && m.ops[id].done && !m.ops[id].multishot
    requires k < |m.runqueue| && m.runqueue[k] == id
    ensures var m' := PrepareAgain(m, id);
      && m'.runqueue == m.runqueue[..k + 1] && m'.opsRunqueue == |m.runqueue|
      && forall j :: k < j < |m.runqueue| ==>
           m.runqueue[j] < |m'.ops| && m'.ops[m.runqueue[j]].scheduled && m.runqueue[j] !in m'.runqueue
  {
    hide UpTo, Count;
    UpToIs(m.runqueue, id);
    forall j | k < j < |m.runqueue|
      ensures m.runqueue[j] < |m.ops| && m.ops[m.runqueue[j]].scheduled && m.runqueue[j] !in m.runqueue[..k + 1]
    {
      assert m.runqueue[j] in m.runqueue && OpInv(m.ops[m.runqueue[j]]);
    }
  }

  /** The unsafe case is always one early resume away: as soon as the CQE of a fiber's blocking op is
      processed the op is done and queued, so finishing the wait before its runqueue turn recycles a queued op. */
  lemma FutexWaitUnsafeBeforeItsTurn(m: Machine, id: nat)
    requires Inv(m) && Owned(m, id, Fiber) && m.ops[id].inKernel && !m.ops[id].multishot
    ensures var m' := ProcessCqe(m, id, false);
      && Inv(m') && Owned(m', id, Fiber) && m'.ops[id].done && id in m'.runqueue
      && id in FinishFutexWait(m', id).freelist && id in FinishFutexWait(m', id).runqueue
  {
    StepKeepsInv(m, Cqe(id, false));
    CompletionQueuesIff(m, id, false);
    CompletionMarks(m, id, false);
    NotQueuedYet(m, id);
    DoubleReleaseRecycles(ProcessCqe(m, id, false), id);
  }

  lemma NotQueuedYet(m: Machine, id: nat)
    requires Inv(m) && Owned(m, id, Fiber) && m.ops[id].inKernel && !m.ops[id].multishot
    ensures id !in m.runqueue && Wakes(m.ops[id], false)
  {
    assert OpInv(m.ops[id]);
  }

  lemma DoubleReleaseRecycles(m: Machine, id: nat)
    requires Inv(m) && Owned(m, id, Fiber) && m.ops[id].done && id in m.runqueue
    ensures var m' := FinishFutexWait(m, id); m'.freelist == [id] + m.freelist && m'.runqueue == m.runqueue
  {
  }
}
