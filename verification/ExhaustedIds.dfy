/**
 What lost slots lead to: a pool that has lost up to 447 of them always has an id for the next commit, and one that
 goes on losing them comes to look for an id when there is none.
 */
module ExhaustedIds {
  import opened FlatStream
  import opened CommitLevel
  import opened BufferPool
  import opened SharedBuffers
  import opened SharedStreams
  import opened SharedFacts
  import opened SharedRuns
  import opened ThrownData

  /** Processing the next completion, the pool commits buffers until every id is taken and no bit of the bitmap is
      set, and has not reached the commit level then: `commit_buffer` looks for an id all the same. */
  ghost predicate OutOfIds(w: World)
    requires Inv(w)
  {
    && w.cqes != [] && w.cqes[0].Data? && !DiscardsData(w)
    && (FirstCqe(w);
        var c := w.cqes[0];
        ConsumeKeeps(w.pool, c.entry.bid, |c.data|, c.more);
        Exhausts(ConsumeCommitted(w.pool, w.pool.ring[0].buf, |c.data|)))
  }

  ghost predicate Exhausts(p: Pool)
    requires PoolOk(p)
  {
    p.total <= p.level / 2
    && var p' := EnsureLevel(p); p'.count == USABLE && p'.total < p'.level && FirstSet(p'.bits) == ENTRIES
  }

  /** `IdsForNext` is the exact condition for that not to happen. */
  lemma StuckIff(w: World)
    requires Inv(w) && w.cqes != []
    ensures !IdsForNext(w) <==> OutOfIds(w)
  {
    hide Inv, PoolOk, EnsureLevel, IdsSuffice, Exhausts, ConsumeCommitted;
    if w.cqes[0].Data? && !DiscardsData(w) {
      FirstCqe(w);
      InvHasPool(w);
      var c := w.cqes[0];
      ConsumeKeeps(w.pool, c.entry.bid, |c.data|, c.more);
      ConsumedIds(w.pool, w.pool.ring[0].buf, |c.data|);
      FillStuckIff(ConsumeCommitted(w.pool, w.pool.ring[0].buf, |c.data|));
    }
  }

  lemma ConsumedIds(p: Pool, b: nat, n: nat)
    requires p.Live(b)
    ensures var q := ConsumeCommitted(p, b, n);
      && q.size == p.size && q.lost == p.lost && q.level == p.level && q.total == p.total - n
      && (p.size > 0 ==> (IdsSuffice(q) <==> IdsSuffice(p.(total := p.total - n))))
  {
  }

  lemma FillStuckIff(p: Pool)
    requires PoolOk(p)
    ensures p.size > 0 && (!IdsSuffice(p) <==> Exhausts(p))
  {
    hide PoolOk, IdsSuffice, Fill, FirstSet, Extended;
    EnsureLevelKeeps(p);
    FillKeeps(p);
    BidAvailableIff(EnsureLevel(p));
    LevelPositive(p);
  }

  /** From setup, there are ids enough as long as no more than 447 slots are lost. */
  lemma FewLossesSuffice(kinds: seq<bool>, steps: seq<Step>)
    requires Inv(Initial(kinds)) && Possible(Initial(kinds), steps) && Losses(Initial(kinds), steps) <= 447
    ensures var w := Run(Initial(kinds), steps);
      IdsForNext(w) && w.pool.size > 0 && IdsSuffice(w.pool)
  {
    hide Inv, Possible, Run, Losses, IdsSuffice, PoolOk;
    var w := Run(Initial(kinds), steps);
    RunLosses(Initial(kinds), steps);
    RunKeepsInv(Initial(kinds), steps);
    NothingLost();
    InvHasPool(w);
    FewLostSuffice(w.pool);
    if w.cqes != [] && w.cqes[0].Data? && !DiscardsData(w) { FewLostForNext(w); }
  }

  lemma FewLostForNext(w: World)
    requires Inv(w) && w.cqes != [] && w.cqes[0].Data? && |w.pool.lost| <= 447
    ensures w.pool.size > 0 && IdsSuffice(w.pool.(total := w.pool.total - |w.cqes[0].data|))
  {
    hide Inv, PoolOk, IdsSuffice, ConsumeCommitted;
    var c := w.cqes[0];
    FirstCqe(w);
    InvHasPool(w);
    ConsumeKeeps(w.pool, c.entry.bid, |c.data|, c.more);
    ConsumedIds(w.pool, w.pool.ring[0].buf, |c.data|);
    FewLostSuffice(ConsumeCommitted(w.pool, w.pool.ring[0].buf, |c.data|));
  }

  // ----- A run that loses every slot

  const STREAMS: nat := 513

  /** `n` streams have been closed with one byte on its way, each the last byte of a buffer; stream 0 is open, and the
      kernel has a buffer that nothing has been put into. */
  ghost predicate Round(w: World, n: nat) {
    && Inv(w) && w.cqes == [] && |w.streams| == STREAMS
    && w.pool.gen == 0 && |w.pool.lost| == n && w.pool.thrown == n
    && w.pool.ring != [] && w.pool.reported == 0
    && Armed(w.streams[0]) && !w.streams[0].closed
    && forall s :: n < s < STREAMS ==> w.streams[s] == NewStream(false)
  }

  /** The kernel has put all but one byte into its first buffer, for stream 0, and that is processed. */
  ghost predicate AlmostFull(w: World, n: nat) {
    && Inv(w) && w.cqes == [] && |w.streams| == STREAMS && n <= 511
    && w.pool.gen == 0 && |w.pool.lost| == n && w.pool.thrown == n
    && w.pool.ring != [] && w.pool.reported == 16383 && w.pool.total > w.pool.level / 2
    && Armed(w.streams[0]) && !w.streams[0].closed
    && forall s :: n < s < STREAMS ==> w.streams[s] == NewStream(false)
  }

  lemma KernelIsTail(w: World)
    requires Inv(w) && w.cqes == []
    ensures w.kernel == Tail(w.pool)
    ensures w.pool.gen == 0 && w.pool.ring != [] ==> SizeOf(w.pool.ring[0].gen) == 16384
    ensures |w.pool.ring| + |w.pool.lost| <= USABLE
  {
    hide KeysOk, OrderOk, WorkersOk, StreamsOk, CqesOk, Disjoint, SlicesOk, Accounted, FreeOk, BitmapOk, MetricsOk, Sum,
      Admitted;
    CommittedFacts(w);
    RingDistinct(w.pool);
    if w.pool.ring != [] { assert EntryOk(w.pool, w.pool.ring[0]); }
  }

  /** The open stream gets all but the last byte of a buffer, unless the pool runs out of ids over it. */
  lemma FillsAlmost(w: World, n: nat) returns (w': World, steps: seq<Step>)
    requires Round(w, n)
    ensures n <= 511 && Possible(w, steps) && Run(w, steps) == w'
    ensures Inv(w') && (OutOfIds(w') || AlmostFull(w', n))
  {
    hide Inv, Apply, Enabled, Possible, Run, OutOfIds, IdsForNext;
    KernelIsTail(w);
    var data := Blank(16383);
    KernelFills(w, 0, data);
    var w1 := Apply(w, Receive(0, data, false));
    StuckIff(w1);
    NoSteps(w1);
    if OutOfIds(w1) {
      w' := w1;
      steps := OneMore(w, Receive(0, data, false), []);
    } else {
      ProcessEnabledNow(w1);
      Processes(w1);
      w' := Apply(w1, Process);
      NoSteps(w');
      steps := OneMore(w1, Process, []);
      steps := OneMore(w, Receive(0, data, false), steps);
    }
  }

  lemma ProcessEnabledNow(w: World)
    requires w.cqes != [] && IdsForNext(w)
    ensures Enabled(w, Process)
  {
  }

  /** Data of an open stream is processed, and there are ids enough. */
  lemma Processes(w: World)
    requires Inv(w) && |w.cqes| == 1 && w.cqes[0].Data? && w.cqes[0].more && !DiscardsData(w) && Enabled(w, Process)
    ensures Inv(Apply(w, Process))
    ensures var w', c := Apply(w, Process), w.cqes[0];
      && w'.cqes == [] && w'.pool.ring != [] && w'.pool.gen == w.pool.gen
      && w'.pool.lost == w.pool.lost && w'.pool.thrown == w.pool.thrown
      && w'.pool.reported == w.pool.reported + |c.data| && w'.pool.total > w'.pool.level / 2
      && c.stream < |w.streams| && OthersSame(w, w', c.stream)
      && w'.streams[c.stream].op == w.streams[c.stream].op && w'.streams[c.stream].closed == w.streams[c.stream].closed
  {
    hide Inv, PoolOk, ProcessResult, Consumable, InStep, IdsSuffice;
    var c := w.cqes[0];
    ProcessDataIs(w);
    StepKeepsInv(w, Process);
    InvHasPool(w);
    ProcessResultKeeps(w.pool, c.entry.bid, |c.data|, c.more);
    var w' := Apply(w, Process);
    ProcessedHead(w.pool, w'.pool, |c.data|, c.more);
    ProcessedGen(w.pool, w'.pool, |c.data|, c.more);
    LevelReached(w.pool, c.entry.bid, |c.data|);
  }

  lemma ProcessedGen(p: Pool, p': Pool, n: nat, more: bool)
    requires p.ring != [] && p.Live(p.ring[0].buf) && Processed(p, p', n, more)
    ensures p'.gen == p.gen && p'.lost == p.lost && p'.thrown == p.thrown
  {
  }

  lemma LevelReached(p: Pool, bid: nat, n: nat)
    requires PoolOk(p) && Consumable(p, bid, n, true) && p.size > 0 && IdsSuffice(p.(total := p.total - n))
    ensures ProcessResult(p, bid, n, true).total > ProcessResult(p, bid, n, true).level / 2
  {
    hide PoolOk, IdsSuffice, EnsureLevel, ConsumeCommitted;
    ConsumeKeeps(p, bid, n, true);
    ConsumedIds(p, p.ring[0].buf, n);
    EnsureLevelKeeps(ConsumeCommitted(p, p.ring[0].buf, n));
  }

  /** One more stream gets the last byte of the buffer, and is closed before that is processed. */
  lemma LosesOne(w: World, n: nat) returns (w': World, steps: seq<Step>)
    requires AlmostFull(w, n)
    ensures Possible(w, steps) && Run(w, steps) == w' && Round(w', n + 1)
  {
    hide Inv, Apply, Enabled, Possible, Run;
    var s := n + 1;
    KernelIsTail(w);
    StartsIdle(w, s);
    var w1 := Apply(w, Start(s));
    KernelFills(w1, s, [0]);
    var w2 := Apply(w1, Receive(s, [0], false));
    Closes(w2, s);
    var w3 := Apply(w2, Close(s));
    ThrowsAway(w3);
    w' := Apply(w3, Process);
    NoSteps(w');
    steps := OneMore(w3, Process, []);
    steps := OneMore(w2, Close(s), steps);
    steps := OneMore(w1, Receive(s, [0], false), steps);
    steps := OneMore(w, Start(s), steps);
    RingGoesOn(w');
  }

  /** Above half the level, a start commits nothing. */
  lemma StartsIdle(w: World, s: nat)
    requires Inv(w) && s < |w.streams| && w.streams[s] == NewStream(false) && w.pool.total > w.pool.level / 2
    ensures Enabled(w, Start(s)) && Inv(Apply(w, Start(s)))
    ensures var w' := Apply(w, Start(s));
      && w'.pool == w.pool && w'.kernel == w.kernel && w'.cqes == w.cqes && OthersSame(w, w', s)
      && Armed(w'.streams[s]) && !w'.streams[s].closed && w'.streams[s].last.None?
  {
    hide Inv, PoolOk;
    InvHasPool(w);
    EnsureLevelKeeps(w.pool);
    StepKeepsInv(w, Start(s));
    assert w.kernel.ring + [] == w.kernel.ring;
  }

  lemma ThrowsAway(w: World)
    requires Inv(w) && |w.cqes| == 1 && DiscardsData(w) && !w.cqes[0].more
    ensures Enabled(w, Process) && Inv(Apply(w, Process))
    ensures var w' := Apply(w, Process);
      && w'.cqes == [] && w'.streams == w.streams && w.pool.ring != [] && w'.pool.reported == 0
      && |w'.pool.lost| == |w.pool.lost| + 1 && w'.pool.thrown == w.pool.thrown + |w.cqes[0].data|
      && w'.pool.total == w.pool.total && w'.pool.level == w.pool.level && w'.pool.gen == w.pool.gen
  {
    hide Inv, DoProcess;
    DiscardDataKeeps(w);
    FirstOfClosed(w);
  }

  lemma FirstOfClosed(w: World)
    requires |w.cqes| == 1
    ensures w.cqes[1..] == []
  {
  }

  /** Half the level is more than can have been thrown away. */
  lemma RingGoesOn(w: World)
    requires Inv(w) && w.pool.gen == 0 && w.pool.total > w.pool.level / 2
    requires w.pool.thrown <= 512 && w.pool.reported == 0
    ensures w.pool.ring != []
  {
    hide KeysOk, OrderOk, WorkersOk, StreamsOk, CqesOk, Disjoint, SlicesOk, Accounted, FreeOk, BitmapOk, MetricsOk,
      Admitted, HeadOpen, Synced;
    assert LevelOf(0) == INITIAL_LEVEL;
  }

  lemma {:induction false} RunOn(w: World, a: seq<Step>, b: seq<Step>)
    requires Inv(w) && Possible(w, a) && Inv(Run(w, a)) && Possible(Run(w, a), b)
    ensures Possible(w, a + b) && Run(w, a + b) == Run(Run(w, a), b)
    decreases |a|
  {
    hide Inv, Apply, Enabled;
    if a == [] {
      assert a + b == b;
    } else {
      StepKeepsInv(w, a[0]);
      RunOn(Apply(w, a[0]), a[1..], b);
      assert (a + b)[1..] == a[1..] + b;
    }
  }

  lemma {:induction false} LosesAll(w: World, n: nat) returns (steps: seq<Step>)
    requires Round(w, n)
    ensures Possible(w, steps) && Inv(Run(w, steps)) && OutOfIds(Run(w, steps))
    decreases 512 - n
  {
    hide Inv, Possible, Run, OutOfIds, Round, AlmostFull;
    assert Inv(w) by { RoundIsInv(w, n); }
    var w1;
    w1, steps := FillsAlmost(w, n);
    if !OutOfIds(w1) {
      var w2, more := LosesOne(w1, n);
      RoundIsInv(w2, n + 1);
      RunOn(w, steps, more);
      var rest := LosesAll(w2, n + 1);
      RunOn(w, steps + more, rest);
      steps := steps + more + rest;
    }
  }

  lemma RoundIsInv(w: World, n: nat)
    requires Round(w, n)
    ensures Inv(w)
  {
  }

  /** From setup, a run of 513 streams, all but one of them closed at most once and with a single byte on its way,
      leads to where an open stream's data is processed and the pool looks for an id when none is left. */
  lemma IdsRunOut() returns (steps: seq<Step>)
    ensures Inv(Initial(Plain(STREAMS))) && Possible(Initial(Plain(STREAMS)), steps)
    ensures Inv(Run(Initial(Plain(STREAMS)), steps)) && OutOfIds(Run(Initial(Plain(STREAMS)), steps))
  {
    hide Inv, Apply, Enabled, Possible, Run, OutOfIds, Initial;
    var w := Initial(Plain(STREAMS));
    InitialInv(Plain(STREAMS));
    InitialStreams(STREAMS);
    StartsFeeding(w, 0);
    var w1 := Apply(w, Start(0));
    KernelIsTail(w1);
    steps := LosesAll(w1, 0);
    steps := OneMore(w, Start(0), steps);
  }
}
