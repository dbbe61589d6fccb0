/**
 What holds of streams and buffers in every state that SharedStreams can reach, whatever was closed and thrown away
 on the way.
 */
module SharedFacts {
  import opened FlatStream
  import opened CommitLevel
  import opened BufferPool
  import opened SharedBuffers
  import opened SharedStreams

  /** The bytes of segments `i` to `j` of stream `s`, as they are in memory now. */
  function InMemory(w: World, s: nat, i: nat, j: nat): seq<Byte>
    requires SlicesOk(w.pool, w.holds)
    decreases j - i
  {
    if i >= j then []
    else
      (if Segment(s, i) in w.holds then
         var x := w.holds[Segment(s, i)];
         assert SliceOk(w.pool, x);
         w.pool.Buf(x.buf).mem[x.off..x.off + |x.data|]
       else [])
      + InMemory(w, s, i + 1, j)
  }

  lemma {:induction false} MemoryIsBytes(w: World, s: nat, i: nat, j: nat)
    requires SlicesOk(w.pool, w.holds)
    ensures InMemory(w, s, i, j) == Bytes(w.holds, s, i, j)
    decreases j - i
  {
    if i < j { MemoryIsBytes(w, s, i + 1, j); }
  }

  /** As long as the pool's cursor was in step whenever a segment was made for a stream, what the stream was sent is
      what has been read from it, then what its live segments hold in memory from its cursor on, then what is
      reported but not processed: in order, nothing lost, repeated or overwritten. */
  lemma BytesArriveInOrder(w: World, s: nat)
    requires Inv(w) && s < |w.streams| && !w.streams[s].closed && w.streams[s].exact
    ensures var x := w.streams[s];
      x.delivered == x.consumed + After(InMemory(w, s, x.first, x.next), x.cur) + Pending(w.cqes, s)
    ensures var x := w.streams[s];
      x.first == x.next && Pending(w.cqes, s) == [] ==> x.consumed == x.delivered
  {
    hide PoolOk, Synced, Disjoint, CqesOk, Accounted, HeadOpen, KeysOk, OrderOk, WorkersOk;
    var x := w.streams[s];
    assert StreamOk(w.pool.level, w.holds, w.cqes, s, x);
    MemoryIsBytes(w, s, x.first, x.next);
  }

  /** Live segments and reported pieces are pairwise disjoint, and the kernel's cursor is behind them all. */
  lemma NothingOverlaps(w: World)
    requires Inv(w)
    ensures forall g, h :: g in w.holds && h in w.holds && g != h ==> Apart(w.holds[g], w.holds[h])
    ensures forall h, i :: h in w.holds && 0 <= i < |w.cqes| && w.cqes[i].Data? ==> Apart(w.holds[h], Piece(w.cqes[i]))
    ensures forall i, j :: 0 <= i < j < |w.cqes| && w.cqes[i].Data? && w.cqes[j].Data? ==>
      Apart(Piece(w.cqes[i]), Piece(w.cqes[j]))
    ensures w.kernel.ring != [] ==>
      && (forall h :: h in w.holds && w.holds[h].buf == w.kernel.ring[0].buf ==>
           w.holds[h].off + |w.holds[h].data| <= w.kernel.pos)
      && (forall i :: 0 <= i < |w.cqes| && w.cqes[i].Data? && w.cqes[i].entry.buf == w.kernel.ring[0].buf ==>
           w.cqes[i].off + |w.cqes[i].data| <= w.kernel.pos)
  {
    hide PoolOk, KeysOk, OrderOk, WorkersOk, StreamsOk, Accounted, CqesOk, Apart, SliceOk, InPlace, Replay;
    KernelFacts(w.pool, w.kernel, w.cqes);
    PiecesApart(Tail(w.pool), w.cqes);
    ReplayAhead(Tail(w.pool), w.cqes);
    forall h, i | h in w.holds && 0 <= i < |w.cqes| && w.cqes[i].Data? ensures Apart(w.holds[h], Piece(w.cqes[i])) {
      SliceBehind(w.pool, w.holds[h]);
      PieceApart(w.pool, w.kernel, w.holds[h], w.cqes[i]);
    }
    forall h | h in w.holds
      ensures w.pool.Live(w.holds[h].buf) && w.holds[h].off + |w.holds[h].data| <= w.pool.Buf(w.holds[h].buf).pos
    {
      SliceBehind(w.pool, w.holds[h]);
    }
    forall i | 0 <= i < |w.cqes|
      ensures w.kernel.ring != [] && w.cqes[i].Data? && w.cqes[i].entry.buf == w.kernel.ring[0].buf ==>
        w.cqes[i].off + |w.cqes[i].data| <= w.kernel.pos
    {
      if w.kernel.ring != [] { ReportedBehind(w.pool, w.kernel, w.cqes, i); }
    }
  }

  lemma PieceApart(p: Pool, k: Cursor, x: Slice, c: Cqe)
    requires PoolOk(p) && c.Data? && InPlace(p.ring, k, c) && p.Live(x.buf) && x.off + |x.data| <= p.Buf(x.buf).pos
    requires Ahead(Tail(p), c)
    ensures Apart(x, Piece(c))
  {
    hide Sum, Admitted, SizeOf, BitmapOk;
    RingDistinct(p);
    var j :| 0 <= j < |p.ring| && p.ring[j] == c.entry;
    assert EntryOk(p, p.ring[j]);
  }

  function WorkingOn(w: World, b: nat): set<Holder> {
    set h | h in w.holds && h.Working? && w.holds[h].buf == b
  }

  function SegmentsOf(w: World, b: nat): set<Holder> {
    set h | h in w.holds && h.Segment? && w.holds[h].buf == b
  }

  /** A buffer's reference count is one for its slot, one for each stream that reads into it and one for each
      live segment in it; it is on the freelist, with the current size, exactly when that is zero. */
  lemma ReferencesAreHolders(w: World, b: nat)
    requires Inv(w) && w.pool.Live(b)
    ensures w.pool.Buf(b).refs ==
      (if InRing(w.pool.Slotted(), b) then 1 else 0) + |WorkingOn(w, b)| + |SegmentsOf(w, b)|
    ensures InRing(w.pool.Slotted(), b) <==> exists k :: 0 <= k < |w.pool.slots| && w.pool.slots[k] == Some(b)
    ensures b in w.pool.free <==> w.pool.Buf(b).refs == 0
    ensures b in w.pool.free ==> w.pool.Buf(b).len == w.pool.size
  {
    hide Synced, KeysOk, OrderOk, WorkersOk, StreamsOk, CqesOk, Disjoint, SlicesOk, InRing, RingOk, BitmapOk, MetricsOk,
      SizeOf, LevelOf;
    assert HoldersOf(w.holds, b) == WorkingOn(w, b) + SegmentsOf(w, b);
    assert WorkingOn(w, b) !! SegmentsOf(w, b);
    assert Outside(w.pool, b) == Uses(w.holds, b);
    SlotOf(w.pool, b);
  }

  lemma SlotOf(p: Pool, b: nat)
    requires PoolOk(p)
    ensures InRing(p.Slotted(), b) <==> exists k :: 0 <= k < |p.slots| && p.slots[k] == Some(b)
  {
    hide Sum, Admitted, BitmapOk, FreeOk, MetricsOk, LevelOf, SizeOf, CursorOk;
    if i :| 0 <= i < |p.Slotted()| && p.Slotted()[i].buf == b {
      assert EntryOk(p, p.Slotted()[i]);
    }
    if k :| 0 <= k < |p.slots| && p.slots[k] == Some(b) {
      assert k in Bids(p.Slotted());
      var i :| 0 <= i < |p.Slotted()| && p.Slotted()[i].bid == k;
      assert EntryOk(p, p.Slotted()[i]);
    }
  }

  function Occupied(slots: seq<Option<nat>>): set<nat> {
    set k | 0 <= k < |slots| && slots[k].Some?
  }

  /** As many slots are occupied as the pool counts: those of at most 65 buffers that the kernel fills or has filled,
      and those that were lost. There is an id for the next commit, with an empty slot, if and only if fewer than
      512 are occupied. What is counted as committed is what the kernel can still fill, what it has reported and is
      not processed, and what was thrown away. */
  lemma CommittedFacts(w: World)
    requires Inv(w)
    ensures w.pool.count == |Occupied(w.pool.slots)| == |w.pool.ring| + |w.pool.lost| && |w.pool.ring| <= 65
    ensures |w.pool.slots| == ENTRIES && |w.pool.bits| == WORDS && |Occupied(w.pool.slots)| <= USABLE
    ensures var bid := FirstSet(w.pool.bits);
      bid < ENTRIES && bid % 64 < 32 && w.pool.slots[bid].None? <==> |Occupied(w.pool.slots)| < USABLE
    ensures w.pool.total == Sum(w.kernel.ring) - w.kernel.pos + DataLen(w.cqes) + w.pool.thrown
    ensures w.pool.total >= 0
  {
    hide KeysOk, OrderOk, WorkersOk, StreamsOk, CqesOk, Disjoint, SlicesOk, Accounted, FreeOk, BitmapOk, MetricsOk, Sum,
      Replay, SizeOf, LevelOf, Admitted, FirstSet, Bids, Occupied;
    SlotBound(w.pool);
    BidAvailableIff(w.pool);
    ReplayConserves(Tail(w.pool), w.cqes);
    OccupiedAreBids(w.pool);
    DistinctBids(w.pool.Slotted());
    if w.pool.ring != [] { SumHead(w.pool.ring); }
  }

  lemma OccupiedAreBids(p: Pool)
    requires PoolOk(p)
    ensures Occupied(p.slots) == Bids(p.Slotted())
    ensures forall i, j :: 0 <= i < j < |p.Slotted()| ==> p.Slotted()[i].bid != p.Slotted()[j].bid
  {
    hide Sum, Admitted, BitmapOk, FreeOk, MetricsOk, LevelOf, SizeOf, CursorOk;
    SlotsAreBids(p);
  }

  /** When an operation has just been started, the kernel can be out of buffers only if completions for more than
      half the commit level are waiting to be processed or were thrown away. */
  lemma StartFeedsKernel(w: World, s: nat)
    requires Inv(w) && Enabled(w, Start(s))
    ensures var w' := DoStart(w, s); w'.kernel.ring == [] ==> DataLen(w'.cqes) + w'.pool.thrown > w'.pool.level / 2
  {
    hide Inv, PoolOk, EnsureLevel, KeepsHeld, Outside, IdsSuffice;
    InvHasPool(w);
    EnsureLevelKeeps(w.pool);
    var w' := DoStart(w, s);
    StartKeeps(w, s);
    CommittedFacts(w');
  }

  lemma InvHasPool(w: World)
    requires Inv(w)
    ensures PoolOk(w.pool)
  {
  }
}
