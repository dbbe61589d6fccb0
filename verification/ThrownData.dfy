/**
 What becomes of the pool when the completions of closed streams are thrown away together with their data: which of
 its views of the kernel that puts wrong, and where it leads.
 */
module ThrownData {
  import opened FlatStream
  import opened CommitLevel
  import opened BufferPool
  import opened SharedBuffers
  import opened SharedStreams
  import opened SharedFacts
  import opened SharedRuns

  /** By how much the pool counts more as committed than the kernel can still fill, or has reported and is not
      processed. */
  function Excess(w: World): int {
    w.pool.total - (Sum(w.kernel.ring) - w.kernel.pos + DataLen(w.cqes))
  }

  /** What the pool has in its slots, and the cursor that it keeps in the oldest of them. */
  function OwnView(p: Pool): Cursor {
    Cursor(p.Slotted(), if p.Slotted() != [] && p.Live(p.Slotted()[0].buf) then p.Buf(p.Slotted()[0].buf).pos else 0)
  }

  /** Going by its own slots and cursor, the pool knows where the kernel is. */
  ghost predicate InAgreement(w: World) {
    Replay(OwnView(w.pool), w.cqes) == Some(w.kernel)
  }

  /** When the completion of a closed stream is thrown away, the pool's account of committed space stays as right as
      it was, and pool and kernel in agreement, if and only if the completion had no data; the pool's cursor is in
      step afterwards if and only if the data had used up its buffer. */
  lemma DiscardIff(w: World)
    requires Inv(w) && w.cqes != [] && w.cqes[0].stream < |w.streams| && w.streams[w.cqes[0].stream].closed
    ensures Excess(w) == w.pool.thrown && (w.pool.lost == [] && InStep(w.pool) ==> InAgreement(w))
    ensures var w' := DoProcess(w);
      && Excess(w') == Excess(w) + (if w.cqes[0].Data? then |w.cqes[0].data| else 0)
      && (InAgreement(w) ==> (InAgreement(w') <==> !w.cqes[0].Data?))
    ensures w.cqes[0].Data? ==> w.cqes[0].data != [] && (InStep(DoProcess(w).pool) <==> !w.cqes[0].more)
  {
    hide Inv, Sum, DataLen, InStep, InAgreement, DoProcess, Throw;
    CommittedFacts(w);
    if w.pool.lost == [] && InStep(w.pool) { WholeView(w); }
    if w.cqes[0].Data? { DiscardedData(w); } else { DiscardedTerminal(w); }
  }

  lemma WholeView(w: World)
    requires Inv(w) && w.pool.lost == [] && InStep(w.pool)
    ensures InAgreement(w)
  {
    hide PoolOk, SlicesOk, Disjoint, CqesOk, Accounted, HeadOpen, StreamsOk, WorkersOk, OrderOk, KeysOk, Replay;
    assert w.pool.Slotted() == w.pool.ring;
    NothingReported(w.pool);
  }

  lemma DiscardedTerminal(w: World)
    requires Inv(w) && w.cqes != [] && !w.cqes[0].Data?
    requires w.cqes[0].stream < |w.streams| && w.streams[w.cqes[0].stream].closed
    ensures Excess(w) == w.pool.thrown ==> Excess(DoProcess(w)) == Excess(w)
    ensures InAgreement(w) ==> InAgreement(DoProcess(w))
  {
    hide Inv, Sum, InStep;
  }

  lemma DiscardedData(w: World)
    requires Inv(w) && DiscardsData(w)
    ensures Excess(w) == w.pool.thrown ==> Excess(DoProcess(w)) == Excess(w) + |w.cqes[0].data|
    ensures InAgreement(w) ==> !InAgreement(DoProcess(w))
    ensures w.cqes[0].data != [] && (InStep(DoProcess(w).pool) <==> !w.cqes[0].more)
  {
    hide Inv, Sum, DataLen, InStep, DoProcess, Throw, PoolOk, Replay;
    var c, w' := w.cqes[0], DoProcess(w);
    DiscardDataKeeps(w);
    FirstCqe(w);
    InvHasPool(w);
    ThrowKeeps(w.pool, c.entry.bid, |c.data|, c.more);
    ThrownMemory(w.pool, |c.data|, c.more);
    ThrownFields(w.pool, |c.data|, c.more);
    CommittedFacts(w);
    CommittedFacts(w');
    if InAgreement(w) {
      assert w.cqes == [c] + w'.cqes;
      DiscardBreaksReplay(OwnView(w.pool), c, w'.cqes);
    }
    ThrownCursor(w.pool, c);
    if !c.more { InvHasPool(w'); UnreportedInStep(w'.pool); }
  }

  /** Thrown away, a completion leaves the pool's cursor where it is. */
  lemma ThrownCursor(p: Pool, c: Cqe)
    requires PoolOk(p) && c.Data? && Consumable(p, c.entry.bid, |c.data|, c.more)
    ensures c.data != [] && p.ring != []
    ensures c.more ==> !InStep(Throw(p, |c.data|, c.more))
    ensures !c.more ==> Throw(p, |c.data|, c.more).reported == 0
  {
    hide PoolOk;
    HeadHeld(p);
  }

  /** The kernel has entry `e`, or a completion that is not processed names it. */
  ghost predicate Named(w: World, e: Entry) {
    e in w.kernel.ring || exists i :: 0 <= i < |w.cqes| && w.cqes[i].Data? && w.cqes[i].entry == e
  }

  /** When data is thrown away, its buffer stays in its slot. Nothing names that slot any more, so that nothing will
      ever empty it, if and only if the data had used up the buffer. */
  lemma DiscardLosesSlotIff(w: World)
    requires Inv(w) && DiscardsData(w)
    ensures var w' := DoProcess(w);
      var e := w.cqes[0].entry;
      && e.bid < |w'.pool.slots| && w'.pool.slots[e.bid] == Some(e.buf)
      && (!Named(w', e) <==> !w.cqes[0].more)
      && (e in w'.pool.lost <==> !w.cqes[0].more)
  {
    hide Inv, DoProcess, Throw, PoolOk, Named;
    var c, w' := w.cqes[0], DoProcess(w);
    DiscardDataKeeps(w);
    FirstCqe(w);
    InvHasPool(w);
    InvHasPool(w');
    ThrownPlace(w.pool, |c.data|, c.more);
    SlotsApart(w'.pool, c.entry);
    if c.more { OldestIsNamed(w'); } else { LostIsUnnamed(w', c.entry); }
  }

  lemma ThrownPlace(p: Pool, n: nat, more: bool)
    requires p.ring != []
    ensures var p' := Throw(p, n, more);
      && p'.slots == p.slots
      && (if more then p'.ring == p.ring else p'.lost == p.lost + [p.ring[0]] && p.ring[0] in p'.lost)
  {
  }

  /** No entry is both lost and in the ring. */
  lemma SlotsApart(p: Pool, e: Entry)
    requires PoolOk(p)
    ensures e in p.lost ==> e !in p.ring
  {
    hide Sum, Admitted, BitmapOk, FreeOk, MetricsOk, LevelOf, SizeOf, CursorOk;
    forall i, j | 0 <= i < |p.lost| && 0 <= j < |p.ring| ensures p.lost[i] != p.ring[j] {
      assert p.Slotted()[i] == p.lost[i] && p.Slotted()[|p.lost| + j] == p.ring[j];
    }
  }

  lemma LostIsUnnamed(w: World, e: Entry)
    requires Inv(w) && e in w.pool.lost
    ensures !Named(w, e)
  {
    hide PoolOk, SlicesOk, Disjoint, CqesOk, Accounted, HeadOpen, StreamsOk, WorkersOk, OrderOk, KeysOk, Replay;
    SlotsApart(w.pool, e);
    KernelFacts(w.pool, w.kernel, w.cqes);
    forall i | 0 <= i < |w.cqes| && w.cqes[i].Data? ensures w.cqes[i].entry != e {
      assert InPlace(w.pool.ring, w.kernel, w.cqes[i]);
    }
  }

  lemma OldestIsNamed(w: World)
    requires Inv(w) && w.pool.ring != []
    ensures Named(w, w.pool.ring[0])
  {
    hide PoolOk, SlicesOk, Disjoint, CqesOk, Accounted, HeadOpen, StreamsOk, WorkersOk, OrderOk, KeysOk, Replay;
    ReplayNames(Tail(w.pool), w.cqes);
  }

  lemma {:induction false} ReplayNames(k: Cursor, cqes: seq<Cqe>)
    requires Replay(k, cqes).Some? && k.ring != []
    ensures k.ring[0] in Replay(k, cqes).value.ring ||
      exists i :: 0 <= i < |cqes| && cqes[i].Data? && cqes[i].entry == k.ring[0]
    decreases |cqes|
  {
    if cqes != [] && !cqes[0].Data? {
      ReplayNames(k, cqes[1..]);
      if i :| 0 <= i < |cqes[1..]| && cqes[1..][i].Data? && cqes[1..][i].entry == k.ring[0] {
        assert cqes[i + 1] == cqes[1..][i];
      }
    }
  }

  /** Over any run, a slot that is lost stays occupied by the same buffer, and nothing names it. */
  lemma LostForGood(w: World, steps: seq<Step>, e: Entry)
    requires Inv(w) && Possible(w, steps) && e in w.pool.lost
    ensures var w' := Run(w, steps);
      e in w'.pool.lost && e.bid < |w'.pool.slots| && w'.pool.slots[e.bid] == Some(e.buf) && !Named(w', e)
  {
    hide Inv, Run, Possible, Named, PoolOk;
    RunLosses(w, steps);
    RunKeepsInv(w, steps);
    var w' := Run(w, steps);
    InvHasPool(w');
    assert forall i :: 0 <= i < |w.pool.lost| ==> w'.pool.lost[i] == w.pool.lost[i];
    SlotKept(w'.pool, e);
    LostIsUnnamed(w', e);
  }

  lemma SlotKept(p: Pool, e: Entry)
    requires PoolOk(p) && e in p.lost
    ensures e.bid < |p.slots| && p.slots[e.bid] == Some(e.buf)
  {
    hide Sum, Admitted, BitmapOk, FreeOk, MetricsOk, LevelOf, SizeOf, CursorOk;
    var i :| 0 <= i < |p.lost| && p.lost[i] == e;
    assert p.Slotted()[i] == e && EntryOk(p, p.Slotted()[i]);
  }

  /** After data has been thrown away, the next segment of whichever stream is what that stream was sent if and
      only if the data had used up its buffer. Otherwise it starts with the bytes that were thrown away, if the pool's
      cursor was in step until then. */
  lemma DiscardMisplacesIff(w: World, j: nat)
    requires Inv(w) && DiscardsData(w) && 0 < j < |w.cqes| && w.cqes[j].Data?
    requires forall i :: 0 < i < j ==> !w.cqes[i].Data?
    ensures var c, d, p := w.cqes[0], w.cqes[j], DoProcess(w).pool;
      && SegmentDefined(p, d) && SegmentFor(p, d).buf == d.entry.buf
      && (SegmentFor(p, d) == Piece(d) <==> !c.more)
      && (c.more && InStep(w.pool) ==> SegmentFor(p, d).off == c.off && SameStart(SegmentFor(p, d).data, c.data))
  {
    hide Inv, DoProcess, PoolOk, Throw;
    var c, d, p := w.cqes[0], w.cqes[j], w.pool;
    DiscardDataKeeps(w);
    ThrownMemory(p, |c.data|, c.more);
    ThrownPlace(p, |c.data|, c.more);
    InvHasPool(w);
    InvHasCqes(w);
    NextPiece(p, w.kernel, w.cqes, j);
    MisplacedIff(p, Throw(p, |c.data|, c.more), c, d);
  }

  lemma InvHasCqes(w: World)
    requires Inv(w)
    ensures Synced(w.pool, w.kernel, w.cqes) && CqesOk(w.pool, w.cqes)
  {
  }

  lemma MisplacedIff(p: Pool, p': Pool, c: Cqe, d: Cqe)
    requires PoolOk(p) && p'.bufs == p.bufs && p'.slots == p.slots && c.Data? && d.Data? && CqeOk(p, c) && CqeOk(p, d)
    requires p.ring != [] && (!c.more ==> |p.ring| > 1) && c.data != []
    requires c.entry == p.ring[0] && c.off == p.reported && d.entry == (if c.more then p.ring[0] else p.ring[1])
    requires d.off == (if c.more then c.off + |c.data| else 0) && d.off + |d.data| <= SizeOf(d.entry.gen)
    ensures SegmentDefined(p', d) && SegmentFor(p', d).buf == d.entry.buf
    ensures SegmentFor(p', d) == Piece(d) <==> !c.more
    ensures c.more && InStep(p) ==> SegmentFor(p', d).off == c.off && SameStart(SegmentFor(p', d).data, c.data)
  {
    hide Sum, SizeOf, BitmapOk, Admitted, FreeOk, MetricsOk;
    RingDistinct(p);
    assert EntryOk(p, d.entry);
    var mem := p.Buf(d.entry.buf).mem;
    if c.more {
      var piece := mem[c.off..c.off + |c.data|];
      assert forall i :: 0 <= i < |piece| ==> piece[i] == mem[c.off + i];
    }
  }

  /** As far as both go, they are the same. */
  predicate SameStart(f: seq<Byte>, g: seq<Byte>) {
    forall i :: 0 <= i < |f| && i < |g| ==> f[i] == g[i]
  }

  /** The first data after a completion lies behind it in the same buffer, or at the start of the next. */
  lemma NextPiece(p: Pool, k: Cursor, cqes: seq<Cqe>, j: nat)
    requires PoolOk(p) && Synced(p, k, cqes) && 0 < j < |cqes| && cqes[0].Data? && cqes[j].Data?
    requires forall i :: 0 < i < j ==> !cqes[i].Data?
    ensures p.ring != [] && (!cqes[0].more ==> |p.ring| > 1)
    ensures var c, d := cqes[0], cqes[j];
      && c.entry == p.ring[0] && c.off == p.reported && c.data != []
      && d.entry == (if c.more then p.ring[0] else p.ring[1])
      && d.off == (if c.more then c.off + |c.data| else 0)
      && d.off + |d.data| <= SizeOf(d.entry.gen)
  {
    hide PoolOk, SizeOf;
    var k0 := Tail(p);
    var k1 := Reported(k0, cqes[0]).value;
    assert forall i :: 0 <= i < j - 1 ==> cqes[1..][i] == cqes[i + 1];
    ReplaySkip(k1, cqes[1..], j - 1);
    assert cqes[1..][j - 1] == cqes[j];
  }

  lemma {:induction false} ReplaySkip(k: Cursor, cqes: seq<Cqe>, j: nat)
    requires Replay(k, cqes).Some? && j < |cqes| && forall i :: 0 <= i < j ==> !cqes[i].Data?
    ensures Reported(k, cqes[j]).Some?
    decreases |cqes|
  {
    if j > 0 {
      assert forall i :: 0 <= i < j - 1 ==> cqes[1..][i] == cqes[i + 1];
      ReplaySkip(k, cqes[1..], j - 1);
    }
  }

  /** From setup, five steps lead to where a closed stream's data comes first and an open stream's behind it in the
      same buffer: the open stream is then handed the closed one's byte. */
  lemma DiscardReachable(a: Byte, b: Byte) returns (w0: World, steps: seq<Step>)
    ensures w0 == Initial(Plain(2)) && Inv(w0) && Possible(w0, steps) && HandsOver(Run(w0, steps), a, b)
  {
    hide Inv, Apply, Enabled, Possible, Run, HandsOver;
    w0 := Initial(Plain(2));
    InitialInv(Plain(2));
    InitialStreams(2);
    StartsFeeding(w0, 0);
    var w1 := Apply(w0, Start(0));
    StartsFeeding(w1, 1);
    var w2 := Apply(w1, Start(1));
    SizeAtLeast(w2.kernel.ring[0].gen);
    KernelFills(w2, 0, [a]);
    var w3 := Apply(w2, Receive(0, [a], false));
    KernelFills(w3, 1, [b]);
    var w4 := Apply(w3, Receive(1, [b], false));
    Closes(w4, 0);
    var w5 := Apply(w4, Close(0));
    steps := [];
    NoSteps(w5);
    steps := OneMore(w4, Close(0), steps);
    steps := OneMore(w3, Receive(1, [b], false), steps);
    steps := OneMore(w2, Receive(0, [a], false), steps);
    steps := OneMore(w1, Start(1), steps);
    steps := OneMore(w0, Start(0), steps);
    WillHandOver(w5, a, b);
  }

  /** Stream 1 has been sent `b`; after the next completion, of the closed stream 0, it gets `a`. */
  ghost predicate HandsOver(w: World, a: Byte, b: Byte) {
    && Inv(w) && DiscardsData(w) && |w.cqes| == 2 && w.cqes[0].stream == 0 && w.cqes[0].data == [a]
    && w.cqes[1].Data? && w.cqes[1].stream == 1 && |w.streams| == 2 && !w.streams[1].closed && w.cqes[1].data == [b]
    && SegmentDefined(DoProcess(w).pool, w.cqes[1]) && SegmentFor(DoProcess(w).pool, w.cqes[1]).data == [a]
  }

  lemma WillHandOver(w: World, a: Byte, b: Byte)
    requires Inv(w) && |w.cqes| == 2 && |w.streams| == 2 && w.cqes[0].Data? && w.cqes[1].Data? && w.cqes[0].more
    requires w.cqes[0].stream == 0 && w.streams[0].closed && w.cqes[0].data == [a]
    requires w.cqes[1].stream == 1 && !w.streams[1].closed && w.cqes[1].data == [b] && w.pool.reported == 0
    ensures HandsOver(w, a, b)
  {
    hide Inv, InStep, DoProcess;
    InvHasPool(w);
    UnreportedInStep(w.pool);
    DiscardMisplacesIff(w, 1);
  }

  lemma NoSteps(w: World)
    requires Inv(w)
    ensures Possible(w, []) && Run(w, []) == w
  {
  }

  lemma OneMore(w: World, step: Step, rest: seq<Step>) returns (steps: seq<Step>)
    requires Inv(w) && Enabled(w, step) && Inv(Apply(w, step)) && Possible(Apply(w, step), rest)
    ensures Possible(w, steps) && Run(w, steps) == Run(Apply(w, step), rest)
  {
    hide Inv, Apply, Enabled;
    steps := [step] + rest;
    assert steps[1..] == rest;
  }

  /** `n` streams that read into committed buffers. */
  function Plain(n: nat): seq<bool> {
    seq(n, _ => false)
  }

  lemma InitialStreams(n: nat)
    ensures var w := Initial(Plain(n));
      && w.cqes == [] && w.pool.gen == 0 && w.pool.lost == [] && w.pool.thrown == 0 && w.pool.reported == 0
      && |w.streams| == n && forall s :: 0 <= s < n ==> w.streams[s] == NewStream(false)
  {
  }

  lemma SizeAtLeast(gen: nat)
    ensures SizeOf(gen) >= 16384
  {
  }

  /** All but stream `s` are as they were. */
  predicate OthersSame(w: World, w': World, s: nat) {
    |w'.streams| == |w.streams| && forall t :: 0 <= t < |w.streams| && t != s ==> w'.streams[t] == w.streams[t]
  }

  /** Nothing is reported, lost or thrown away, and the pool does not grow. */
  predicate SamePlace(p: Pool, p': Pool) {
    SameReports(p, p') && p'.gen == p.gen
  }

  lemma StartsFeeding(w: World, s: nat)
    requires Inv(w) && w.cqes == [] && s < |w.streams| && w.pool.lost == [] && w.pool.thrown == 0
    requires !w.streams[s].ssl && !w.streams[s].closed && w.streams[s].op.None? && !w.streams[s].eof
    ensures Enabled(w, Start(s)) && Inv(Apply(w, Start(s)))
    ensures var w' := Apply(w, Start(s));
      && w'.cqes == [] && w'.kernel.ring != [] && OthersSame(w, w', s) && SamePlace(w.pool, w'.pool)
      && Armed(w'.streams[s]) && w'.streams[s] == w.streams[s].(op := w'.streams[s].op)
      && w'.kernel.pos == w.kernel.pos
  {
    hide Inv, PoolOk, EnsureLevel, IdsSuffice;
    InvHasPool(w);
    FewLostSuffice(w.pool);
    StepKeepsInv(w, Start(s));
    StartFeedsKernel(w, s);
    EnsureLevelKeeps(w.pool);
    NoData();
  }

  lemma NoData()
    ensures DataLen([]) == 0
  {
  }

  lemma KernelFills(w: World, s: nat, data: seq<Byte>)
    requires Inv(w) && s < |w.streams| && Armed(w.streams[s]) && data != [] && w.kernel.ring != []
    requires w.kernel.pos + |data| <= SizeOf(w.kernel.ring[0].gen)
    ensures Enabled(w, Receive(s, data, false)) && Inv(Apply(w, Receive(s, data, false)))
    ensures var w' := Apply(w, Receive(s, data, false));
      var more := w.kernel.pos + |data| < SizeOf(w.kernel.ring[0].gen);
      && w'.cqes == w.cqes + [Data(s, w.kernel.ring[0], w.kernel.pos, data, more)]
      && w'.kernel == (if more then Cursor(w.kernel.ring, w.kernel.pos + |data|) else Cursor(w.kernel.ring[1..], 0))
      && w'.streams == w.streams[s := w.streams[s].(delivered := w.streams[s].delivered + data)]
      && SamePlace(w.pool, w'.pool) && w'.pool.total == w.pool.total && w'.pool.ring == w.pool.ring
      && w'.pool.level == w.pool.level
  {
    hide Inv, SizeOf, Overwrite;
    ReceiveDefined(w, s, data, false);
    StepKeepsInv(w, Receive(s, data, false));
  }

  lemma Closes(w: World, s: nat)
    requires Inv(w) && s < |w.streams| && !w.streams[s].closed && w.streams[s].last.None?
    ensures Enabled(w, Close(s)) && Inv(Apply(w, Close(s)))
    ensures var w' := Apply(w, Close(s));
      && w'.cqes == w.cqes && w'.pool == w.pool && OthersSame(w, w', s) && w'.streams[s].closed
  {
    hide Inv;
    StepKeepsInv(w, Close(s));
  }
}
