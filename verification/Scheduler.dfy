/**
 The scheduler of um.c statement by statement: it updates op flags, reference counts, the runqueue and the
 metrics in place. Each method is tied to OpLifecycle's function of the same name, about which the run
 properties are proved. The lists are fields of indices here; OpLists has them as linked records.
 */
module Scheduler {
  import L = OpLifecycle

  class UringMachine {
    var ops: seq<L.Op>
    var runqueue: seq<nat>
    var transient: seq<nat>
    var freelist: seq<nat>
    var opsPending: int
    var opsRunqueue: int
    var opsFree: int
    var opsTransient: int
    ghost var batches: nat

    ghost function Model(): L.Machine
      reads this
    {
      L.Machine(ops, runqueue, transient, freelist, batches, opsPending, opsRunqueue, opsFree, opsTransient)
    }

    constructor ()
      ensures Model() == L.Initial()
    {
      ops, runqueue, transient, freelist := [], [], [], [];
      opsPending, opsRunqueue, opsFree, opsTransient, batches := 0, 0, 0, 0, 0;
    }

    /** `um_op_release`. */
    method Release(id: nat)
      requires id < |ops| && ops[id].refCount < L.UINT32
      modifies this
      ensures Model() == L.Release(old(Model()), id)
    {
      ops := ops[id := ops[id].(refCount := L.Dec32(ops[id].refCount))];
      if ops[id].refCount != 0 { return; }
      freelist := [id] + freelist;
      opsFree := opsFree + 1;
      ops := ops[id := ops[id].(link := L.InFreelist, recycled := ops[id].recycled + 1)];
    }

    /** `um_schedule_op`. */
    method ScheduleOp(id: nat)
      requires id < |ops|
      modifies this
      ensures Model() == L.ScheduleOp(old(Model()), id)
    {
      ops := ops[id := ops[id].(scheduled := true)];
      runqueue := runqueue + [id];
      opsRunqueue := opsRunqueue + 1;
      ops := ops[id := ops[id].(link := L.InRunqueue, refCount := (ops[id].refCount + 1) % L.UINT32)];
    }

    /** `um_op_transient_remove`. */
    method TransientRemove(id: nat)
      requires id < |ops|
      modifies this
      ensures Model() == L.TransientRemove(old(Model()), id)
      ensures |ops| == |old(ops)| && ops[id].refCount == old(ops[id].refCount)
    {
      ops := ops[id := ops[id].(transient := false, link := L.Unlinked)];
      transient := L.Without(transient, id);
      opsTransient := opsTransient - 1;
    }

    /** The F_TRANSIENT branch of `um_process_cqe`. */
    method ProcessTransient(id: nat)
      requires id < |ops| && ops[id].refCount < L.UINT32
      modifies this
      ensures Model() == L.ProcessTransient(old(Model()), id)
    {
      hide L.Release, L.TransientRemove;
      opsPending := opsPending - 1;
      TransientRemove(id);
      var op := ops[id];
      ops := ops[id := if op.refCount > 1 then op.(inKernel := false, seen := true, done := true)
                       else op.(inKernel := false)];
      Release(id);
    }

    /** The kernel's reference goes with the terminal CQE. */
    method ReleaseKernel(id: nat)
      requires id < |ops| && ops[id].refCount < L.UINT32
      modifies this
      ensures Model() == L.ReleaseKernel(old(Model()), id)
    {
      opsPending := opsPending - 1;
      ops := ops[id := ops[id].(inKernel := false)];
      Release(id);
    }

    /** The second release of a discarded op. */
    method SecondRelease(id: nat)
      requires id < |ops| && ops[id].refCount < L.UINT32
      modifies this
      ensures Model() == L.SecondRelease(old(Model()), id)
    {
      ops := ops[id := ops[id].(seen := true, done := true, owner := L.NoOwner)];
      Release(id);
    }

    /** `um_process_cqe`; a single-shot op is done whatever the F_MORE flag says. */
    method ProcessCqe(id: nat, more: bool)
      requires id < |ops| && ops[id].refCount < L.UINT32
      modifies this
      ensures Model() == L.ProcessCqe(old(Model()), id, more)
    {
      hide L.Release, L.ScheduleOp, L.ProcessTransient, L.SecondRelease;
      var done := if ops[id].multishot then !more else true;
      if ops[id].transient {
        ProcessTransient(id);
        return;
      }
      var canceled, multishot := ops[id].canceled, ops[id].multishot;
      if done { ReleaseKernel(id); }
      if canceled {
        if done { SecondRelease(id); }
        return;
      }
      var op := ops[id];
      if multishot {
        ops := ops[id := op.(seen := true, done := op.done || done)];
        if !(op.scheduled || op.async) { ScheduleOp(id); }
      } else {
        ops := ops[id := op.(seen := true, done := true)];
        if !op.async { ScheduleOp(id); }
      }
    }

    /** Taking the next op off the runqueue, up to the transfer to its fiber. */
    method PopRunqueue()
      requires runqueue != [] && runqueue[0] < |ops| && ops[runqueue[0]].refCount < L.UINT32
      modifies this
      ensures Model() == L.PopRunqueue(old(Model()))
    {
      hide L.Release;
      var id := runqueue[0];
      ghost var shifted := L.RunqueueShift(Model());
      runqueue := runqueue[1..];
      opsRunqueue := opsRunqueue - 1;
      ops := ops[id := ops[id].(link := L.Unlinked)];
      assert Model() == shifted;
      ops := ops[id := ops[id].(scheduled := false)];
      Release(id);
    }

    /** `um_switch` up to its next wait: drops SKIP ops and returns the op whose fiber it resumes, if any. */
    method Switch() returns (resumed: seq<nat>)
      requires L.Inv(Model())
      modifies this
      ensures L.Inv(Model())
      ensures (Model(), resumed) == L.Switch(old(Model()))
    {
      ghost var start := Model();
      while runqueue != []
        invariant L.Inv(Model())
        invariant L.Switch(Model()) == L.Switch(start)
        decreases |runqueue|
      {
        L.HeadLinked(ops, runqueue, L.InRunqueue);
        L.StepKeepsInv(Model(), L.Pop);
        var id := runqueue[0];
        assert L.OpInv(ops[id]);
        hide L.Inv, L.Release;
        var skip := ops[id].skip;
        PopRunqueue();
        if !skip { return [id]; }
      }
      return [];
    }

    /** The whole of `um_switch`. `waits` is what its waits for completions bring. */
    method SwitchWaiting(waits: seq<seq<L.Completion>>) returns (resumed: seq<nat>)
      requires L.Inv(Model())
      modifies this
      ensures L.Inv(Model())
      ensures (Model(), resumed) == L.SwitchWaiting(old(Model()), waits)
    {
      hide L.Inv, L.Switch, L.ProcessAll;
      ghost var start := Model();
      resumed := Switch();
      L.SwitchKeepsInv(start);
      assert waits[0..] == waits;
      for i := 0 to |waits|
        invariant L.Inv(Model()) && L.SwitchWaiting(start, waits) ==
          if resumed != [] || i == |waits| then (Model(), resumed)
          else L.SwitchWaiting(L.ProcessAll(Model(), waits[i]), waits[i + 1..])
      {
        if resumed != [] { return; }
        assert waits[i + 1..] == [] || waits[i + 1..][1..] == waits[i + 2..];
        ProcessReadyCqes(waits[i]);
        L.SwitchKeepsInv(Model());
        resumed := Switch();
      }
    }

    /** `um_process_ready_cqes`. */
    method ProcessReadyCqes(cqes: seq<L.Completion>)
      requires L.Inv(Model())
      modifies this
      ensures L.Inv(Model()) && Model() == L.ProcessAll(old(Model()), cqes)
    {
      hide L.Inv, L.ProcessCqe;
      assert cqes[0..] == cqes;
      for i := 0 to |cqes|
        invariant L.Inv(Model()) && L.ProcessAll(Model(), cqes[i..]) == L.ProcessAll(old(Model()), cqes)
      {
        assert cqes[i..][1..] == cqes[i + 1..];
        var id, more := cqes[i].id, cqes[i].more;
        if id < |ops| && ops[id].inKernel {
          L.StepKeepsInv(Model(), L.Cqe(id, more));
          L.CountFits(Model(), id);
          ProcessCqe(id, more);
        }
      }
    }
  }
}
