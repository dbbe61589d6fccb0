/**
 What the steps of SharedStreams change about the pool as a whole, and what that comes to over a run: how far the
 commit level grows, how many slots are lost, and for how long the bytes of all streams are right.
 */
module SharedRuns {
  import opened FlatStream
  import opened CommitLevel
  import opened BufferPool
  import opened SharedBuffers
  import opened SharedStreams
  import opened SharedFacts

  // ----- One step

  /** `step` is a growth of the pool. */
  predicate Growth(w: World, step: Step) {
    step.TakeResults? && Grows(w, step.s) && !Starved(w, step.s)
  }

  /** `step` throws data away. */
  predicate Throws(w: World, step: Step) {
    step.Process? && DiscardsData(w)
  }

  /** `step` throws data away that leaves its buffer open. */
  predicate ThrowsOpen(w: World, step: Step) {
    Throws(w, step) && w.cqes[0].more
  }

  /** `step` throws away the last data of a buffer. */
  predicate ThrowsLast(w: World, step: Step) {
    Throws(w, step) && !w.cqes[0].more
  }

  function ThrownBy(w: World, step: Step): nat {
    if Throws(w, step) then |w.cqes[0].data| else 0
  }

  predicate AllExact(streams: seq<Stream>) {
    forall s :: 0 <= s < |streams| ==> streams[s].exact
  }

  /** The pool's cursor stays in step. */
  ghost predicate StaysInStep(p: Pool, p': Pool) {
    InStep(p) ==> InStep(p')
  }

  predicate SameLosses(p: Pool, p': Pool) {
    p'.lost == p.lost && p'.thrown == p.thrown
  }

  predicate SameLevel(p: Pool, p': Pool) {
    p'.gen == p.gen && p'.level == p.level
  }

  ghost predicate Calm(p: Pool, p': Pool) {
    SameLevel(p, p') && SameLosses(p, p') && StaysInStep(p, p')
  }

  /** Streams stay as exact as they are, if the pool's cursor is in step. */
  ghost predicate StaysExact(w: World, w': World) {
    InStep(w.pool) && AllExact(w.streams) ==> AllExact(w'.streams)
  }

  /** Nothing but a growth changes the commit level. Nothing but throwing its last data away loses a buffer's slot.
      Nothing but throwing data away that leaves its buffer open gets the pool's cursor out of step, and while it is
      in step every segment is exact. */
  lemma StepEffect(w: World, step: Step)
    requires Inv(w) && Enabled(w, step)
    ensures var p := Apply(w, step).pool;
      if Growth(w, step) then p.gen == w.pool.gen + 1 && p.level == 2 * w.pool.level else SameLevel(w.pool, p)
    ensures var p := Apply(w, step).pool;
      && p.lost == (if ThrowsLast(w, step) then w.pool.lost + [w.cqes[0].entry] else w.pool.lost)
      && p.thrown == w.pool.thrown + ThrownBy(w, step)
    ensures !ThrowsOpen(w, step) ==> StaysInStep(w.pool, Apply(w, step).pool)
    ensures StaysExact(w, Apply(w, step))
  {
    hide Inv, Enabled, DoStart, DoReceive, DoTerminal, DoProcess, DoTake, DoRead, WithWorking, FillWorking, DoClose,
      DoDrop, DoDropWorking, Grows, Starved, InStep, AllExact;
    match step
    case Start(s) => StartEffect(w, s);
    case Receive(s, data, final) => ReceiveEffect(w, s, data, final);
    case RunOut(s) => ArmedFirst(w, step); TerminalEffect(w, s, NoBuffers(s));
    case Finish(s) => ArmedFirst(w, step); TerminalEffect(w, s, End(s));
    case Fail(s) => ArmedFirst(w, step); TerminalEffect(w, s, Failed(s));
    case Cancel(s) => ArmedFirst(w, step); TerminalEffect(w, s, Cancelled(s));
    case Process => SomeCqe(w); ProcessEffect(w);
    case TakeResults(s) => TakeEffect(w, s);
    case Read(s, n) => ReadEffect(w, s, n);
    case ReadSsl(s, data) => SslEffect(w, s, data);
    case Close(s) => CloseEffect(w, s);
    case Drop(s) => DropEffect(w, s);
    case DropWorking(s) => DropWorkingEffect(w, s);
  }

  lemma ArmedFirst(w: World, step: Step)
    requires Enabled(w, step) && (step.RunOut? || step.Finish? || step.Fail? || step.Cancel?)
    ensures step.s < |w.streams| && Armed(w.streams[step.s])
  {
  }

  lemma SomeCqe(w: World)
    requires Enabled(w, Process)
    ensures w.cqes != []
  {
  }

  /** What a step that neither throws data away nor lets the pool grow leaves. */
  ghost predicate CalmStep(w: World, w': World) {
    Calm(w.pool, w'.pool) && StaysExact(w, w')
  }

  /** A pool whose oldest buffer is as consumed as it was is as much in step as it was. */
  lemma HeadKept(p: Pool, p': Pool)
    requires PoolOk(p') && p.ring <= p'.ring && p'.reported == p.reported && (p.ring == [] ==> p.reported == 0)
    requires p.ring != [] ==>
      var b := p.ring[0].buf; p.Live(b) && p'.Live(b) && p'.Buf(b).pos == p.Buf(b).pos
    ensures StaysInStep(p, p')
  {
    hide PoolOk;
    if p.ring == [] { UnreportedInStep(p'); }
  }

  lemma UnreportedInStep(p: Pool)
    requires PoolOk(p) && p.reported == 0
    ensures InStep(p)
  {
  }

  lemma SameExact(streams: seq<Stream>, s: nat, x: Stream)
    requires s < |streams| && (streams[s].exact ==> x.exact)
    ensures AllExact(streams) ==> AllExact(streams[s := x])
  {
  }

  lemma PoolInv(w: World)
    requires Inv(w)
    ensures PoolOk(w.pool) && (w.pool.ring == [] ==> w.pool.reported == 0)
  {
    hide KeysOk, OrderOk, WorkersOk, StreamsOk, HeadOpen, Synced, Accounted, SlicesOk, Disjoint, CqesOk;
    NothingReported(w.pool);
  }

  lemma StartEffect(w: World, s: nat)
    requires Inv(w) && Enabled(w, Start(s))
    ensures CalmStep(w, DoStart(w, s))
  {
    hide Inv, PoolOk, EnsureLevel, InStep, IdsSuffice, AllExact;
    PoolInv(w);
    EnsureLevelKeeps(w.pool);
    ExtendedCalm(w.pool, EnsureLevel(w.pool));
    SameExact(w.streams, s, DoStart(w, s).streams[s]);
  }

  lemma ExtendedCalm(p: Pool, p': Pool)
    requires PoolOk(p) && PoolOk(p') && Extended(p, p')
    ensures Calm(p, p')
  {
    hide PoolOk, Outside;
    HeadHeld(p);
    NothingReported(p);
    HeadKept(p, p');
  }

  lemma ReceiveEffect(w: World, s: nat, data: seq<Byte>, final: bool)
    requires Inv(w) && Enabled(w, Receive(s, data, final))
    ensures CalmStep(w, Apply(w, Receive(s, data, final)))
  {
    hide Inv, Reported, AllExact, PoolOk, Overwrite;
    ReceiveDefined(w, s, data, final);
    var w' := Apply(w, Receive(s, data, final));
    StepKeepsInv(w, Receive(s, data, final));
    PoolInv(w);
    PoolInv(w');
    HeadHeld(w.pool);
    HeadKept(w.pool, w'.pool);
    SameExact(w.streams, s, w'.streams[s]);
  }

  lemma TerminalEffect(w: World, s: nat, c: Cqe)
    requires s < |w.streams| && Armed(w.streams[s])
    ensures CalmStep(w, DoTerminal(w, s, c))
  {
    hide AllExact, InStep;
    SameExact(w.streams, s, DoTerminal(w, s, c).streams[s]);
  }

  lemma ProcessEffect(w: World)
    requires Inv(w) && w.cqes != []
    ensures var p := DoProcess(w).pool;
      && SameLevel(w.pool, p)
      && p.lost == (if ThrowsLast(w, Process) then w.pool.lost + [w.cqes[0].entry] else w.pool.lost)
      && p.thrown == w.pool.thrown + ThrownBy(w, Process)
    ensures !ThrowsOpen(w, Process) ==> StaysInStep(w.pool, DoProcess(w).pool)
    ensures StaysExact(w, DoProcess(w))
  {
    hide Inv, AllExact, InStep, DoProcess;
    if !w.cqes[0].Data? { ProcessTerminalEffect(w); }
    else if DiscardsData(w) { DiscardEffect(w); }
    else { ProcessDataEffect(w); }
  }

  lemma ProcessTerminalEffect(w: World)
    requires Inv(w) && w.cqes != [] && !w.cqes[0].Data?
    ensures CalmStep(w, DoProcess(w))
  {
    hide Inv, AllExact, InStep;
    FirstCqe(w);
    var s := w.cqes[0].stream;
    SameExact(w.streams, s, DoProcess(w).streams[s]);
  }

  lemma DiscardEffect(w: World)
    requires Inv(w) && DiscardsData(w)
    ensures var p := DoProcess(w).pool;
      && SameLevel(w.pool, p)
      && p.lost == (if ThrowsLast(w, Process) then w.pool.lost + [w.cqes[0].entry] else w.pool.lost)
      && p.thrown == w.pool.thrown + ThrownBy(w, Process)
    ensures !ThrowsOpen(w, Process) ==> StaysInStep(w.pool, DoProcess(w).pool)
    ensures StaysExact(w, DoProcess(w))
  {
    hide Inv, InStep, DoProcess, PoolOk;
    FirstCqe(w);
    DiscardDataKeeps(w);
    PoolInv(DoProcess(w));
    if !w.cqes[0].more { UnreportedInStep(DoProcess(w).pool); }
  }

  lemma ProcessDataEffect(w: World)
    requires Inv(w) && w.cqes != [] && w.cqes[0].Data? && !DiscardsData(w)
    ensures CalmStep(w, DoProcess(w))
  {
    hide Inv, ProcessResult, Consumable, PoolOk, AllExact, DoProcess;
    var c := w.cqes[0];
    PoolInv(w);
    ProcessDataIs(w);
    ProcessDataKeeps(w);
    PoolInv(DoProcess(w));
    ProcessResultKeeps(w.pool, c.entry.bid, |c.data|, c.more);
    var w' := DoProcess(w);
    ProcessedCalm(w.pool, w'.pool, |c.data|, c.more);
    if InStep(w.pool) { SameExact(w.streams, c.stream, w'.streams[c.stream]); }
  }

  lemma ProcessedCalm(p: Pool, p': Pool, n: nat, more: bool)
    requires p.ring != [] && p.Live(p.ring[0].buf) && Processed(p, p', n, more) && PoolOk(p')
    ensures Calm(p, p')
  {
    hide PoolOk, Outside;
    if more {
      assert p'.ring[0] == p.ring[0];
    } else {
      UnreportedInStep(p');
    }
  }

  lemma TakeEffect(w: World, s: nat)
    requires Inv(w) && Enabled(w, TakeResults(s))
    ensures var p := DoTake(w, s).pool;
      if Grows(w, s) && !Starved(w, s) then p.gen == w.pool.gen + 1 && p.level == 2 * w.pool.level
      else SameLevel(w.pool, p)
    ensures var p := DoTake(w, s).pool; SameLosses(w.pool, p) && StaysInStep(w.pool, p)
    ensures StaysExact(w, DoTake(w, s))
  {
    hide Inv, PoolOk, Grow, Bytes, InStep, AllExact;
    PoolInv(w);
    if w.pool.level < MAX_LEVEL { GrowEffect(w.pool); }
    SameExact(w.streams, s, DoTake(w, s).streams[s]);
  }

  lemma GrowEffect(p: Pool)
    requires PoolOk(p) && p.level < MAX_LEVEL
    ensures var p' := Grow(p);
      p'.gen == p.gen + 1 && p'.level == 2 * p.level && SameLosses(p, p') && StaysInStep(p, p')
  {
    hide PoolOk, Grow, InStep;
    GrowKeeps(p);
    HeadHeld(p);
    NothingReported(p);
    HeadKept(p, Grow(p));
  }

  /** A reference has been given back. */
  lemma GivenBackCalm(w: World, h: Holder)
    requires Inv(w) && h in w.holds && w.pool.Held(w.holds[h].buf)
    ensures Calm(w.pool, Checkin(w.pool, w.holds[h].buf))
  {
    hide PoolOk, Synced, SlicesOk, Disjoint, CqesOk, Accounted, HeadOpen, StreamsOk, WorkersOk, OrderOk, KeysOk,
      Checkin, InStep;
    GiveBackKeeps(w.pool, w.holds, w.kernel, w.cqes, h);
    CheckedInCalm(w.pool, Checkin(w.pool, w.holds[h].buf), w.holds[h].buf);
  }

  lemma CheckedInCalm(p: Pool, p': Pool, b: nat)
    requires PoolOk(p) && PoolOk(p') && CheckedIn(p, p', b)
    ensures Calm(p, p')
  {
    hide PoolOk, InStep, CheckedIn;
    HeadHeld(p);
    NothingReported(p);
    CheckedInFields(p, p', b);
    if p.ring != [] { CheckedInRing(p, p', b, p.ring[0].buf); }
    HeadKept(p, p');
  }

  lemma ReadEffect(w: World, s: nat, n: nat)
    requires Inv(w) && Enabled(w, Read(s, n))
    ensures CalmStep(w, DoRead(w, s, n))
  {
    hide Inv, Checkin, SliceOk, CheckedIn, InStep, AllExact;
    HeldBy(w, Segment(s, w.streams[s].first));
    GivenBackCalm(w, Segment(s, w.streams[s].first));
    SameExact(w.streams, s, DoRead(w, s, n).streams[s]);
  }

  lemma SslEffect(w: World, s: nat, data: seq<Byte>)
    requires Inv(w) && Enabled(w, ReadSsl(s, data))
    ensures CalmStep(w, Apply(w, ReadSsl(s, data)))
  {
    hide Inv, Filled, Checkin, InStep, AllExact, Sound, StreamsOk, KeysOk, OrderOk, WorkersOk;
    WithWorkingKeeps(w, s);
    var mid := WithWorking(w, s);
    WithWorkingCalm(w, s);
    FillingCalm(mid, s, data);
    FullCalm(mid, s, data);
    CalmTwice(w.pool, mid.pool, Filling(mid, s, data).pool);
    var w' := FillWorking(mid, s, data);
    CalmTwice(w.pool, Filling(mid, s, data).pool, w'.pool);
    SameExact(w.streams, s, w'.streams[s]);
  }

  lemma CalmTwice(p: Pool, q: Pool, r: Pool)
    requires Calm(p, q) && Calm(q, r)
    ensures Calm(p, r)
  {
  }

  lemma WithWorkingCalm(w: World, s: nat)
    requires Inv(w)
    ensures Calm(w.pool, WithWorking(w, s).pool)
  {
    hide Inv, PoolOk, Checkout, InStep;
    if Working(s) !in w.holds {
      PoolInv(w);
      CheckoutKeeps(w.pool);
      var (p, b) := Checkout(w.pool);
      HeadHeld(w.pool);
      CheckedOutFrame(w.pool, p, b);
      HeadKept(w.pool, p);
    }
  }

  lemma FillingCalm(w: World, s: nat, data: seq<Byte>)
    requires Inv(w) && Working(s) in w.holds && s < |w.streams| && w.streams[s].ssl && !w.streams[s].closed
    requires data != [] && w.pool.Held(w.holds[Working(s)].buf)
    requires var x := w.pool.Buf(w.holds[Working(s)].buf); x.pos + |data| <= x.len == |x.mem|
    ensures PoolOk(Filling(w, s, data).pool) && Calm(w.pool, Filling(w, s, data).pool)
  {
    hide Inv, PoolOk, InStep, Filled;
    PoolInv(w);
    var b := w.holds[Working(s)].buf;
    assert !InRing(w.pool.Slotted(), b) by { WorkerOutside(w, s); }
    FilledPool(w.pool, b, data);
    FilledFields(w.pool, b, data);
    HeadHeld(w.pool);
    FilledGen(w.pool, b, data);
    HeadKept(w.pool, Filled(w.pool, b, data));
  }

  lemma WorkerOutside(w: World, s: nat)
    requires Inv(w) && Working(s) in w.holds
    ensures !InRing(w.pool.Slotted(), w.holds[Working(s)].buf)
  {
    hide Sound, StreamsOk, KeysOk, OrderOk;
    WorkerFacts(w, s);
  }

  lemma FilledGen(p: Pool, b: nat, data: seq<Byte>)
    requires p.Live(b) && p.Buf(b).pos + |data| <= |p.Buf(b).mem|
    ensures Filled(p, b, data).gen == p.gen
  {
  }

  lemma FullCalm(w: World, s: nat, data: seq<Byte>)
    requires Inv(w) && s < |w.streams| && w.streams[s].ssl && !w.streams[s].closed && data != []
    requires Working(s) in w.holds && w.pool.Held(w.holds[Working(s)].buf)
    requires var x := w.pool.Buf(w.holds[Working(s)].buf); x.pos + |data| <= x.len == |x.mem|
    ensures Calm(Filling(w, s, data).pool, FillWorking(w, s, data).pool)
  {
    hide PoolOk, Synced, SlicesOk, Disjoint, CqesOk, Accounted, HeadOpen, StreamsOk, WorkersOk, OrderOk, KeysOk,
      Checkin, Filled, InStep;
    FillingKeeps(w, s, data);
    var mid := Filling(w, s, data);
    if |data| == RoomFor(w, s) {
      GiveBackKeeps(mid.pool, mid.holds, mid.kernel, mid.cqes, Working(s));
      CheckedInCalm(mid.pool, Checkin(mid.pool, mid.holds[Working(s)].buf), mid.holds[Working(s)].buf);
    }
  }

  lemma CloseEffect(w: World, s: nat)
    requires Inv(w) && Enabled(w, Close(s))
    ensures CalmStep(w, DoClose(w, s))
  {
    hide Inv, InStep, AllExact;
    SameExact(w.streams, s, DoClose(w, s).streams[s]);
  }

  lemma DropEffect(w: World, s: nat)
    requires Inv(w) && Enabled(w, Drop(s))
    ensures CalmStep(w, DoDrop(w, s))
  {
    hide Sound, StreamsOk, WorkersOk, OrderOk, Checkin, InStep, AllExact;
    HeldBy(w, Segment(s, w.streams[s].first));
    GivenBackCalm(w, Segment(s, w.streams[s].first));
    SameExact(w.streams, s, DoDrop(w, s).streams[s]);
  }

  lemma DropWorkingEffect(w: World, s: nat)
    requires Inv(w) && Enabled(w, DropWorking(s))
    ensures CalmStep(w, DoDropWorking(w, s))
  {
    hide Inv, Checkin, InStep, AllExact;
    HeldBy(w, Working(s));
    GivenBackCalm(w, Working(s));
  }

  // ----- How far the level grows

  /** How often the pool grows in a run. */
  function Growths(w: World, steps: seq<Step>): nat
    requires Inv(w) && Possible(w, steps)
    decreases |steps|
  {
    if steps == [] then 0
    else
      StepKeepsInv(w, steps[0]);
      (if Growth(w, steps[0]) then 1 else 0) + Growths(Apply(w, steps[0]), steps[1..])
  }

  lemma {:induction false} RunLevel(w: World, steps: seq<Step>)
    requires Inv(w) && Possible(w, steps)
    ensures Run(w, steps).pool.gen == w.pool.gen + Growths(w, steps)
    ensures Run(w, steps).pool.level >= w.pool.level
    decreases |steps|
  {
    hide Inv, Apply, Growth, Enabled;
    if steps != [] {
      StepKeepsInv(w, steps[0]);
      StepEffect(w, steps[0]);
      RunLevel(Apply(w, steps[0]), steps[1..]);
    }
  }

  /** A pool that has just been set up grows at most twelve times, each time to twice the level; growth raises an
      error exactly when it has grown that often. After the first growth a buffer has a quarter of the level. */
  lemma GrowthBound(w: World, steps: seq<Step>)
    requires Inv(w) && w.pool.gen == 0 && Possible(w, steps)
    ensures Growths(w, steps) <= GROWTHS
    ensures var p := Run(w, steps).pool;
      && p.level == Pow2(18 + Growths(w, steps)) <= MAX_LEVEL
      && p.size == (if Growths(w, steps) == 0 then INITIAL_SIZE else p.level / 4)
      && (p.level >= MAX_LEVEL <==> Growths(w, steps) == GROWTHS)
  {
    hide Inv, Run, Growths, Possible, Pow2;
    RunLevel(w, steps);
    RunKeepsInv(w, steps);
    ReachedLevel(Run(w, steps));
  }

  lemma ReachedLevel(w: World)
    requires Inv(w)
    ensures w.pool.gen <= GROWTHS && w.pool.level == Pow2(18 + w.pool.gen) <= MAX_LEVEL
    ensures w.pool.size == if w.pool.gen == 0 then INITIAL_SIZE else w.pool.level / 4
    ensures w.pool.level >= MAX_LEVEL <==> w.pool.gen == GROWTHS
  {
    hide Synced, SlicesOk, Disjoint, CqesOk, Accounted, HeadOpen, StreamsOk, WorkersOk, OrderOk, KeysOk;
    LevelMaximum(w.pool.gen);
    LevelMaximum(GROWTHS);
    LevelFacts(w.pool.gen);
    if w.pool.gen < GROWTHS { LevelMaximum(w.pool.gen + 1); LevelFacts(w.pool.gen); }
    if w.pool.gen > 0 { LevelFacts(w.pool.gen - 1); }
  }

  /** However many operations run out of buffers at one commit level, the pool grows at most once for it: once
      it has grown, no operation started at that level or a lower one makes it grow again. */
  lemma GrowsOncePerLevel(w: World, step: Step, steps: seq<Step>, s: nat)
    requires Inv(w) && Enabled(w, step) && Growth(w, step)
    requires Inv(Apply(w, step)) && Possible(Apply(w, step), steps)
    ensures var w' := Run(Apply(w, step), steps);
      s < |w'.streams| && w'.streams[s].op.Some? && w'.streams[s].op.value.level <= w.pool.level ==> !Grows(w', s)
  {
    hide Inv, Apply, Growth, Enabled, Run, Possible;
    StepEffect(w, step);
    RunLevel(Apply(w, step), steps);
    LevelIsPositive(w);
  }

  lemma LevelIsPositive(w: World)
    requires Inv(w)
    ensures w.pool.level > 0
  {
    LevelPositive(w.pool);
  }

  // ----- How many slots are lost

  /** How often a run throws away the last data of a buffer. */
  function Losses(w: World, steps: seq<Step>): nat
    requires Inv(w) && Possible(w, steps)
    decreases |steps|
  {
    if steps == [] then 0
    else
      StepKeepsInv(w, steps[0]);
      (if ThrowsLast(w, steps[0]) then 1 else 0) + Losses(Apply(w, steps[0]), steps[1..])
  }

  /** How many bytes a run throws away. */
  function ThrownIn(w: World, steps: seq<Step>): nat
    requires Inv(w) && Possible(w, steps)
    decreases |steps|
  {
    if steps == [] then 0
    else
      StepKeepsInv(w, steps[0]);
      ThrownBy(w, steps[0]) + ThrownIn(Apply(w, steps[0]), steps[1..])
  }

  /** A slot that is lost stays so. */
  lemma {:induction false} RunLosses(w: World, steps: seq<Step>)
    requires Inv(w) && Possible(w, steps)
    ensures var p := Run(w, steps).pool;
      && w.pool.lost <= p.lost && |p.lost| == |w.pool.lost| + Losses(w, steps)
      && p.thrown == w.pool.thrown + ThrownIn(w, steps)
    decreases |steps|
  {
    hide Inv, Apply, Throws, Enabled;
    if steps != [] {
      StepKeepsInv(w, steps[0]);
      StepEffect(w, steps[0]);
      RunLosses(Apply(w, steps[0]), steps[1..]);
    }
  }

  /** From setup, at most 65 slots and one for each time that the last data of a buffer was thrown away are occupied,
      and the pool counts all that was ever thrown away as committed. */
  lemma SlotsInUse(kinds: seq<bool>, steps: seq<Step>)
    requires Inv(Initial(kinds)) && Possible(Initial(kinds), steps)
    ensures var w := Run(Initial(kinds), steps);
      && |Occupied(w.pool.slots)| <= 65 + Losses(Initial(kinds), steps)
      && w.pool.total == Sum(w.kernel.ring) - w.kernel.pos + DataLen(w.cqes) + ThrownIn(Initial(kinds), steps)
  {
    hide Inv, Possible, Run, Losses, ThrownIn, Occupied;
    RunLosses(Initial(kinds), steps);
    RunKeepsInv(Initial(kinds), steps);
    CommittedFacts(Run(Initial(kinds), steps));
    NothingLost();
  }

  lemma NothingLost()
    ensures Setup().lost == [] && Setup().thrown == 0
  {
  }

  // ----- For how long bytes are right

  /** How often a run throws data away that leaves its buffer open. */
  function Slips(w: World, steps: seq<Step>): nat
    requires Inv(w) && Possible(w, steps)
    decreases |steps|
  {
    if steps == [] then 0
    else
      StepKeepsInv(w, steps[0]);
      (if ThrowsOpen(w, steps[0]) then 1 else 0) + Slips(Apply(w, steps[0]), steps[1..])
  }

  /** Until data is thrown away that leaves its buffer open, the bytes of every stream are right. */
  lemma {:induction false} RunStaysExact(w: World, steps: seq<Step>)
    requires Inv(w) && Possible(w, steps) && InStep(w.pool) && AllExact(w.streams) && Slips(w, steps) == 0
    ensures InStep(Run(w, steps).pool) && AllExact(Run(w, steps).streams)
    decreases |steps|
  {
    hide Inv, Apply, ThrowsOpen, Enabled, InStep, AllExact;
    if steps != [] {
      StepKeepsInv(w, steps[0]);
      StepEffect(w, steps[0]);
      RunStaysExact(Apply(w, steps[0]), steps[1..]);
    }
  }

  /** From setup, every open stream is read as it was sent, however many others were closed, unless data was thrown
      away that left its buffer open. */
  lemma InOrderWithoutSlips(kinds: seq<bool>, steps: seq<Step>, s: nat)
    requires Inv(Initial(kinds)) && Possible(Initial(kinds), steps) && Slips(Initial(kinds), steps) == 0
    requires s < |Run(Initial(kinds), steps).streams| && !Run(Initial(kinds), steps).streams[s].closed
    ensures var w := Run(Initial(kinds), steps);
      var x := w.streams[s];
      && SlicesOk(w.pool, w.holds)
      && x.delivered == x.consumed + After(InMemory(w, s, x.first, x.next), x.cur) + Pending(w.cqes, s)
  {
    hide Inv, Possible, Run, Slips, InMemory, After, Pending;
    SetupInStep(kinds);
    RunStaysExact(Initial(kinds), steps);
    RunKeepsInv(Initial(kinds), steps);
    InvHasSlices(Run(Initial(kinds), steps));
    BytesArriveInOrder(Run(Initial(kinds), steps), s);
  }

  lemma SetupInStep(kinds: seq<bool>)
    ensures InStep(Initial(kinds).pool) && AllExact(Initial(kinds).streams)
  {
  }

  lemma InvHasSlices(w: World)
    requires Inv(w)
    ensures SlicesOk(w.pool, w.holds)
  {
  }
}
