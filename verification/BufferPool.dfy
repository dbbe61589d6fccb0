/**
 The buffer pool of um_buffer_pool.c as a value: buffers with reference counts, the freelist, the slots that
 hold the buffers committed to the kernel, the bitmap of available buffer ids, and the commit level. Each
 function here is what the C function of that name does to the pool; UmBufferPool does it in place.
 */
module BufferPool {
  import opened FlatStream
  import opened CommitLevel

  datatype Buffer = Buffer(len: nat, pos: nat, refs: nat, mem: seq<Byte>)

  datatype Pool = Pool(
    bufs: seq<Option<Buffer>>,  // every buffer ever allocated; None once freed
    free: seq<nat>,             // bp_buffer_freelist
    slots: seq<Option<nat>>,    // bp_commited_buffers
    bits: seq<Word>,            // bp_avail_bid_bitmap
    ring: seq<Entry>,           // what is committed and not reported as used up, oldest first
    lost: seq<Entry>,           // what is still in its slot although it was reported as used up
    reported: nat,              // how much of the oldest of the ring has been reported
    thrown: nat,                // how many reported bytes have been thrown away
    count: nat,                 // bp_buffer_count
    total: int,                 // bp_total_commited
    level: nat,                 // bp_commit_level
    size: nat,                  // bp_buffer_size
    gen: nat,                   // how often the pool has grown
    numBuffers: int,            // metrics.buffers_allocated
    space: int                  // metrics.buffer_space_allocated
  ) {
    predicate Live(b: nat) {
      b < |bufs| && bufs[b].Some?
    }

    function Buf(b: nat): Buffer
      requires Live(b)
    {
      bufs[b].value
    }

    /** A buffer that somebody refers to. */
    predicate Held(b: nat) {
      Live(b) && Buf(b).refs > 0
    }

    /** What the slots hold. */
    function Slotted(): seq<Entry> {
      lost + ring
    }
  }

  // ----- Operations

  function With(p: Pool, b: nat, x: Buffer): Pool
    requires b < |p.bufs|
  {
    p.(bufs := p.bufs[b := Some(x)])
  }

  function Blank(size: nat): seq<Byte> {
    seq(size, _ => 0)
  }

  /** `bp_setup`. */
  function Setup(): Pool {
    Pool([], [], seq(ENTRIES, _ => None), seq(WORDS, _ => AllOnes()), [], [], 0, 0, 0, 0, INITIAL_LEVEL, INITIAL_SIZE,
         0, 0, 0)
  }

  function AllOnes(): Word {
    seq(64, _ => true)
  }

  /** `bp_buffer_checkout`: the pool, and the buffer that was taken from the freelist or allocated. */
  function Checkout(p: Pool): (r: (Pool, nat))
    requires p.free != [] ==> p.Live(p.free[0])
  {
    if p.free != [] then
      var b := p.free[0];
      (With(p, b, p.Buf(b).(refs := p.Buf(b).refs + 1, pos := 0)).(free := p.free[1..]), b)
    else
      (p.(bufs := p.bufs + [Some(Buffer(p.size, 0, 1, Blank(p.size)))],
          numBuffers := p.numBuffers + 1, space := p.space + p.size),
       |p.bufs|)
  }

  /** `buffer_free`. */
  function BufferFree(p: Pool, b: nat): Pool
    requires p.Live(b)
  {
    if p.Buf(b).len != p.size then
      p.(bufs := p.bufs[b := None], numBuffers := p.numBuffers - 1, space := p.space - p.Buf(b).len)
    else p.(free := [b] + p.free)
  }

  /** `bp_buffer_checkin`. */
  function Checkin(p: Pool, b: nat): Pool
    requires p.Held(b)
  {
    var p' := With(p, b, p.Buf(b).(refs := p.Buf(b).refs - 1));
    if p.Buf(b).refs == 1 then BufferFree(p', b) else p'
  }

  /** `commit_buffer`, with the reference count that it ends up with. */
  function Commit(p: Pool): Pool
    requires p.free != [] ==> p.Live(p.free[0])
    requires |p.slots| == ENTRIES && FirstSet(p.bits) < ENTRIES && |p.bits| == WORDS && FirstSet(p.bits) % 64 < 32
  {
    var bid := FirstSet(p.bits);
    var (p', b) := Checkout(p);
    With(p', b, p'.Buf(b).(refs := 1)).(
      bits := UnsetBit(p.bits, bid), slots := p.slots[bid := Some(b)], ring := p.ring + [Entry(bid, b, p.gen)],
      count := p.count + 1, total := p.total + p'.Buf(b).len)
  }

  /** `uncommit_buffer`, of the oldest of the committed buffers. */
  function Uncommit(p: Pool, b: nat, bid: nat): Pool
    requires p.Held(b) && |p.slots| == ENTRIES && |p.bits| == WORDS && bid < ENTRIES && bid % 64 < 32
    requires p.ring != [] && p.count > 0
  {
    Checkin(Withdrawn(p, bid), b)
  }

  function Withdrawn(p: Pool, bid: nat): Pool
    requires |p.slots| == ENTRIES && |p.bits| == WORDS && bid < ENTRIES && bid % 64 < 32
    requires p.ring != [] && p.count > 0
  {
    p.(count := p.count - 1, slots := p.slots[bid := None], bits := SetBit(p.bits, bid),
       ring := p.ring[1..], reported := 0)
  }

  /** `commit_buffer` where there is an id for it. */
  function CommitNext(p: Pool): (p': Pool)
    requires PoolOk(p) && p.total < p.level && p.count < USABLE
    ensures PoolOk(p') && p'.count == p.count + 1
  {
    CommitKeeps(p);
    Commit(p)
  }

  /** The fill loop of `bp_ensure_commit_level`, up to where it looks for an id and there is none. */
  function Fill(p: Pool): Pool
    requires PoolOk(p)
    decreases ENTRIES - p.count
  {
    if p.count < ENTRIES && p.total < p.level && p.count < USABLE then Fill(CommitNext(p)) else p
  }

  /** `bp_ensure_commit_level`. */
  function EnsureLevel(p: Pool): Pool
    requires PoolOk(p)
  {
    if p.total > p.level / 2 then p else Fill(p)
  }

  /** `bp_ensure_commit_level` finds an id whenever it looks for one. */
  predicate IdsSuffice(p: Pool)
    requires p.size > 0
  {
    p.count + CommitsNeeded(p) <= USABLE
  }

  function CommitsNeeded(p: Pool): nat
    requires p.size > 0
  {
    if p.total > p.level / 2 then 0 else Parts(p.level - p.total, p.size)
  }

  /** `bp_discard_buffer_freelist`. */
  function DiscardFree(p: Pool): Pool
    requires Freeable(p)
    decreases |p.free|
  {
    if p.free == [] then p else DiscardFirst(p); DiscardFree(DiscardOne(p))
  }

  predicate Freeable(p: Pool) {
    && (forall k :: 0 <= k < |p.free| ==> p.Live(p.free[k]))
    && (forall i, j :: 0 <= i < j < |p.free| ==> p.free[i] != p.free[j])
  }

  function DiscardOne(p: Pool): Pool
    requires p.free != [] && p.Live(p.free[0])
  {
    var b := p.free[0];
    p.(bufs := p.bufs[b := None], numBuffers := p.numBuffers - 1, space := p.space - p.Buf(b).len, free := p.free[1..])
  }

  lemma DiscardFirst(p: Pool)
    requires Freeable(p) && p.free != []
    ensures Freeable(DiscardOne(p))
  {
    var p' := DiscardOne(p);
    assert forall k :: 0 <= k < |p'.free| ==> p'.free[k] == p.free[k + 1] && p.free[k + 1] != p.free[0];
  }

  /** The loop of `bp_handle_enobufs`. */
  function GrownSize(size: nat, level: nat): nat
    requires size > 0
    decreases level - size
  {
    if size < level / 4 then GrownSize(size * 2, level) else size
  }

  /** `bp_handle_enobufs`, when it does not raise. */
  function Grow(p: Pool): Pool
    requires PoolOk(p)
  {
    var level := p.level * 2;
    DiscardFree(p.(level := level, size := GrownSize(p.size, level), gen := p.gen + 1))
  }

  /** `bp_buffer_consume`, without the segment. */
  function Consume(p: Pool, b: nat, n: nat): Pool
    requires p.Live(b)
  {
    With(p, b, p.Buf(b).(pos := p.Buf(b).pos + n, refs := p.Buf(b).refs + 1))
  }

  // ----- What every operation keeps

  predicate InRing(ring: seq<Entry>, b: nat) {
    exists i :: 0 <= i < |ring| && ring[i].buf == b
  }

  /** How far the oldest committed buffer has been consumed. */
  function HeadPos(p: Pool): nat
    requires p.ring != [] ==> p.Live(p.ring[0].buf)
  {
    if p.ring == [] then 0 else p.Buf(p.ring[0].buf).pos
  }

  /** How many times `b` is referred to. */
  function Refs(p: Pool, b: nat): nat {
    if p.Live(b) then p.Buf(b).refs else 0
  }

  /** How many times `b` is referred to from outside the pool. */
  function Outside(p: Pool, b: nat): int {
    Refs(p, b) - if InRing(p.Slotted(), b) then 1 else 0
  }

  ghost predicate LevelOk(p: Pool) {
    p.gen <= GROWTHS && p.size == SizeOf(p.gen) && p.level == LevelOf(p.gen)
  }

  ghost predicate BufsOk(p: Pool) {
    forall b :: p.Live(b) ==> |p.Buf(b).mem| == p.Buf(b).len && p.Buf(b).pos <= p.Buf(b).len
  }

  ghost predicate FreeOk(p: Pool) {
    && (forall k :: 0 <= k < |p.free| ==>
         p.Live(p.free[k]) && p.Buf(p.free[k]).refs == 0 && p.Buf(p.free[k]).len == p.size)
    && (forall i, j :: 0 <= i < j < |p.free| ==> p.free[i] != p.free[j])
    && (forall b :: p.Live(b) && p.Buf(b).refs == 0 ==> b in p.free)
  }

  ghost predicate EntryOk(p: Pool, e: Entry) {
    && e.bid < ENTRIES && e.bid < |p.slots| && p.slots[e.bid] == Some(e.buf)
    && p.Held(e.buf) && p.Buf(e.buf).len == SizeOf(e.gen) && e.gen <= p.gen
  }

  ghost predicate RingOk(p: Pool) {
    && p.count == |p.Slotted()|
    && (forall i :: 0 <= i < |p.Slotted()| ==> EntryOk(p, p.Slotted()[i]))
    && (forall i, j :: 0 <= i < j < |p.Slotted()| ==>
         p.Slotted()[i].bid != p.Slotted()[j].bid && p.Slotted()[i].buf != p.Slotted()[j].buf)
    && (forall k :: 0 <= k < |p.slots| && p.slots[k].Some? ==> k in Bids(p.Slotted()))
    && CursorOk(p)
  }

  /** Nothing is reported of any but the oldest buffer of the ring, and the pool's cursor in that one is not ahead
      of what is reported. What is counted as committed is what is not reported, and what was thrown away. */
  ghost predicate CursorOk(p: Pool) {
    && (forall i :: 1 <= i < |p.ring| ==> p.Live(p.ring[i].buf) && p.Buf(p.ring[i].buf).pos == 0)
    && (if p.ring == [] then p.reported == 0
        else p.Live(p.ring[0].buf) && p.Buf(p.ring[0].buf).pos <= p.reported <= SizeOf(p.ring[0].gen))
    && p.total == Sum(p.ring) - p.reported + p.thrown
    && (p.ring != [] ==> Admitted(p.ring[1..]))
  }

  function Alive(bufs: seq<Option<Buffer>>): nat {
    if bufs == [] then 0 else Alive(bufs[..|bufs| - 1]) + if bufs[|bufs| - 1].Some? then 1 else 0
  }

  function Space(bufs: seq<Option<Buffer>>): nat {
    if bufs == [] then 0
    else Space(bufs[..|bufs| - 1]) + match bufs[|bufs| - 1] case Some(x) => x.len case None => 0
  }

  ghost predicate MetricsOk(p: Pool) {
    p.numBuffers == Alive(p.bufs) && p.space == Space(p.bufs)
  }

  ghost predicate PoolOk(p: Pool) {
    LevelOk(p) && BufsOk(p) && FreeOk(p) && BitmapOk(p.bits, p.slots) && RingOk(p) && MetricsOk(p)
  }

  /** Buffers that somebody refers to are left alone. */
  ghost predicate KeepsHeld(p: Pool, p': Pool) {
    forall b :: p.Held(b) ==> p'.Live(b) && p'.Buf(b) == p.Buf(b)
  }

  /** Only buffer `b` is affected. */
  ghost predicate Elsewhere(p: Pool, p': Pool, b: nat) {
    forall x :: x != b ==> p'.Live(x) == p.Live(x) && (p.Live(x) ==> p'.Buf(x) == p.Buf(x))
  }

  lemma {:induction false} MetricsUpdate(bufs: seq<Option<Buffer>>, b: nat, x: Option<Buffer>)
    requires b < |bufs|
    ensures Alive(bufs[b := x]) == Alive(bufs) - (if bufs[b].Some? then 1 else 0) + if x.Some? then 1 else 0
    ensures Space(bufs[b := x]) ==
      Space(bufs) - (if bufs[b].Some? then bufs[b].value.len else 0) + if x.Some? then x.value.len else 0
  {
    var n := |bufs| - 1;
    var bufs' := bufs[b := x];
    if b == n {
      assert bufs'[..n] == bufs[..n];
    } else {
      assert bufs'[..n] == bufs[..n][b := x];
      MetricsUpdate(bufs[..n], b, x);
    }
  }

  lemma MetricsAppend(bufs: seq<Option<Buffer>>, x: Buffer)
    ensures Alive(bufs + [Some(x)]) == Alive(bufs) + 1 && Space(bufs + [Some(x)]) == Space(bufs) + x.len
  {
    assert (bufs + [Some(x)])[..|bufs|] == bufs;
  }

  /** A buffer that is in use may be written to, and its references may change but not go. */
  lemma UpdateKeeps(p: Pool, b: nat, x: Buffer)
    requires PoolOk(p) && p.Held(b)
    requires x.refs > 0 && x.len == p.Buf(b).len && |x.mem| == x.len && x.pos <= x.len
    requires InRing(p.ring, b) ==> x.pos == p.Buf(b).pos || (b == p.ring[0].buf && x.pos <= p.reported)
    ensures PoolOk(With(p, b, x))
  {
    hide Sum, Alive, Space, Admitted, BitmapOk, SizeOf, LevelOf, RingOk;
    MetricsUpdate(p.bufs, b, Some(x));
    assert Elsewhere(p, With(p, b, x), b);
    assert RingOk(With(p, b, x)) by { UpdateKeepsRing(p, b, x); }
  }

  lemma UpdateKeepsRing(p: Pool, b: nat, x: Buffer)
    requires RingOk(p) && p.Held(b) && x.refs > 0 && x.len == p.Buf(b).len
    requires InRing(p.ring, b) ==> x.pos == p.Buf(b).pos || (b == p.ring[0].buf && x.pos <= p.reported)
    ensures RingOk(With(p, b, x))
  {
    hide Sum, Admitted, SizeOf, CursorOk;
    var p' := With(p, b, x);
    forall i | 0 <= i < |p'.Slotted()| ensures EntryOk(p', p'.Slotted()[i]) {
      assert EntryOk(p, p.Slotted()[i]);
    }
    UpdateKeepsCursor(p, b, x);
  }

  lemma UpdateKeepsCursor(p: Pool, b: nat, x: Buffer)
    requires RingOk(p) && p.Live(b)
    requires InRing(p.ring, b) ==> x.pos == p.Buf(b).pos || (b == p.ring[0].buf && x.pos <= p.reported)
    ensures CursorOk(With(p, b, x))
  {
    hide Sum, Admitted, SizeOf;
    RingDistinct(p);
    assert p.ring != [] ==> InRing(p.ring, p.ring[0].buf);
    assert forall i :: 1 <= i < |p.ring| && p.ring[i].buf == b ==> InRing(p.ring, b);
  }

  lemma RingDistinct(p: Pool)
    requires RingOk(p)
    ensures forall i, j :: 0 <= i < j < |p.ring| ==> p.ring[i].buf != p.ring[j].buf && p.ring[i].bid != p.ring[j].bid
    ensures forall i :: 0 <= i < |p.ring| ==> EntryOk(p, p.ring[i])
    ensures forall b :: InRing(p.ring, b) ==> InRing(p.Slotted(), b)
  {
    hide CursorOk, EntryOk, Bids;
    var n, all := |p.lost|, p.Slotted();
    assert forall i :: 0 <= i < |p.ring| ==> p.ring[i] == all[n + i];
    forall i, j | 0 <= i < j < |p.ring| ensures p.ring[i].buf != p.ring[j].buf && p.ring[i].bid != p.ring[j].bid {
      assert all[n + i] == p.ring[i] && all[n + j] == p.ring[j];
    }
    forall b | InRing(p.ring, b) ensures InRing(all, b) {
      var i :| 0 <= i < |p.ring| && p.ring[i].buf == b;
      assert all[n + i].buf == b;
    }
  }

  /** Taking a buffer that nobody refers to. */
  lemma CheckoutKeeps(p: Pool)
    requires PoolOk(p)
    ensures p.free != [] ==> p.Live(p.free[0])
    ensures var (p', b) := Checkout(p); PoolOk(p') && CheckedOut(p, p', b)
  {
    hide Sum, Alive, Space, Admitted, BitmapOk, SizeOf, LevelOf, RingOk;
    var (p', b) := Checkout(p);
    assert Elsewhere(p, p', b);
    if p.free != [] {
      MetricsUpdate(p.bufs, b, Some(p'.Buf(b)));
      forall x | p'.Live(x) && p'.Buf(x).refs == 0 ensures x in p'.free {
        assert x in p.free && p.free == [p.free[0]] + p'.free;
      }
    } else {
      MetricsAppend(p.bufs, p'.Buf(b));
    }
    assert RingOk(p') by { FrameKeepsRing(p, p'); }
    NotHeldNotInRing(p, b);
  }

  ghost predicate CheckedOut(p: Pool, p': Pool, b: nat) {
    && !p.Held(b) && !InRing(p.Slotted(), b) && p'.Live(b)
    && p'.Buf(b).len == p.size && p'.Buf(b).pos == 0 && p'.Buf(b).refs == 1
    && Elsewhere(p, p', b)
    && p' == p.(bufs := p'.bufs, free := p'.free, numBuffers := p'.numBuffers, space := p'.space)
  }

  lemma NotHeldNotInRing(p: Pool, b: nat)
    requires RingOk(p) && !p.Held(b)
    ensures !InRing(p.Slotted(), b)
  {
    forall i | 0 <= i < |p.Slotted()| ensures p.Slotted()[i].buf != b {
      assert EntryOk(p, p.Slotted()[i]);
    }
  }

  /** Nothing has changed about what is in the slots and what is reported of it. */
  predicate SameSlots(p: Pool, p': Pool) {
    && p'.ring == p.ring && p'.lost == p.lost && p'.slots == p.slots && p'.count == p.count
    && p'.total == p.total && p'.reported == p.reported && p'.thrown == p.thrown
  }

  /** The ring depends on the buffers only through those that are in slots. */
  lemma FrameKeepsRing(p: Pool, p': Pool)
    requires RingOk(p) && SameSlots(p, p') && p'.gen >= p.gen
    requires forall b :: p.Held(b) && InRing(p.Slotted(), b) ==>
      p'.Held(b) && p'.Buf(b).len == p.Buf(b).len && p'.Buf(b).pos == p.Buf(b).pos
    ensures RingOk(p')
  {
    hide Sum, Admitted, SizeOf;
    forall i | 0 <= i < |p'.Slotted()| ensures EntryOk(p', p'.Slotted()[i]) {
      assert EntryOk(p, p.Slotted()[i]) && InRing(p.Slotted(), p.Slotted()[i].buf);
    }
    RingDistinct(p);
    forall i | 0 <= i < |p.ring|
      ensures p'.Live(p.ring[i].buf) && p'.Buf(p.ring[i].buf).pos == p.Buf(p.ring[i].buf).pos
    {
      assert InRing(p.ring, p.ring[i].buf);
    }
  }

  /** A buffer of the freelist is used again, and only if there is none a new one of the current size is made. */
  lemma CheckoutReuses(p: Pool)
    requires PoolOk(p)
    ensures p.free != [] ==> p.Live(p.free[0])
    ensures var (p', b) := Checkout(p);
      if p.free != [] then p.free == [b] + p'.free && p'.numBuffers == p.numBuffers && p'.space == p.space
      else
        && p'.free == [] && !p.Live(b) && p'.Live(b) && p'.Buf(b).len == p.size
        && p'.numBuffers == p.numBuffers + 1 && p'.space == p.space + p.size
  {
    hide RingOk, BitmapOk, LevelOk, MetricsOk, BufsOk;
  }

  /** With its last reference a buffer goes to the freelist if it has the current size, and is freed otherwise. */
  lemma CheckinRecycles(p: Pool, b: nat)
    requires p.Held(b)
    ensures var p' := Checkin(p, b);
      if p.Buf(b).refs > 1 then p'.free == p.free && p'.Live(b) && p'.numBuffers == p.numBuffers
      else if p.Buf(b).len == p.size then p'.free == [b] + p.free && p'.Live(b) && p'.numBuffers == p.numBuffers
      else
        p'.free == p.free && !p'.Live(b) && p'.numBuffers == p.numBuffers - 1 && p'.space == p.space - p.Buf(b).len
  {
  }

  /** Giving back a reference; the last one is not the ring's. */
  lemma CheckinKeeps(p: Pool, b: nat)
    requires PoolOk(p) && p.Held(b) && (p.Buf(b).refs > 1 || !InRing(p.Slotted(), b))
    ensures PoolOk(Checkin(p, b)) && CheckedIn(p, Checkin(p, b), b)
  {
    hide Sum, Alive, Space, Admitted, BitmapOk, SizeOf, LevelOf, RingOk;
    var x := p.Buf(b).(refs := p.Buf(b).refs - 1);
    var p' := Checkin(p, b);
    assert Elsewhere(p, p', b);
    if x.refs > 0 {
      UpdateKeeps(p, b, x);
    } else {
      MetricsUpdate(p.bufs, b, Some(x));
      MetricsUpdate(With(p, b, x).bufs, b, None);
      assert b !in p.free;
      assert RingOk(p') by { FrameKeepsRing(p, p'); }
    }
  }

  ghost predicate CheckedIn(p: Pool, p': Pool, b: nat) {
    && p.Live(b) && Refs(p', b) == p.Buf(b).refs - 1
    && (p'.Held(b) ==> p'.Buf(b) == p.Buf(b).(refs := p.Buf(b).refs - 1))
    && Elsewhere(p, p', b)
    && p' == p.(bufs := p'.bufs, free := p'.free, numBuffers := p'.numBuffers, space := p'.space)
  }

  /** There is an id for the next commit, whose slot is empty and whose bit the 32-bit shift can reach, if and only
      if fewer than 512 slots are taken. Otherwise no bit of the bitmap is set. */
  lemma BidAvailableIff(p: Pool)
    requires PoolOk(p)
    ensures |p.slots| == ENTRIES && |p.bits| == WORDS && p.count <= USABLE
    ensures var bid := FirstSet(p.bits); bid < ENTRIES && bid % 64 < 32 && p.slots[bid].None? <==> p.count < USABLE
    ensures p.count == USABLE ==> FirstSet(p.bits) == ENTRIES
  {
    hide Admitted, Sum, FirstSet;
    SlotsAreBids(p);
    BidIsFreeIff(p.slots, p.Slotted());
    if p.count < USABLE { AvailableBid(p.bits, p.slots); } else { NoBidLeft(p.bits, p.slots); }
  }

  lemma SlotsAreBids(p: Pool)
    requires PoolOk(p)
    ensures |p.slots| == ENTRIES
    ensures forall k :: k in Bids(p.Slotted()) <==> 0 <= k < ENTRIES && p.slots[k].Some?
    ensures forall k :: k in Bids(p.Slotted()) ==> k % 64 < 32
  {
    hide Sum, Admitted, FreeOk, MetricsOk, LevelOf, SizeOf, CursorOk;
    forall k | k in Bids(p.Slotted()) ensures k < ENTRIES && p.slots[k].Some? && k % 64 < 32 {
      var i :| 0 <= i < |p.Slotted()| && p.Slotted()[i].bid == k;
      assert EntryOk(p, p.Slotted()[i]);
    }
  }

  /** The kernel never has more than 65 buffers to fill or to report; the other slots hold what was lost. */
  lemma SlotBound(p: Pool)
    requires PoolOk(p)
    ensures |p.ring| <= 65 && p.count == |p.ring| + |p.lost|
  {
    hide Admitted;
    if p.ring != [] { AdmittedBound(p.ring[1..]); }
  }

  /** What follows the checkout in `commit_buffer`. */
  function Publish(p: Pool, b: nat, bid: nat): Pool
    requires p.Live(b) && |p.slots| == ENTRIES && |p.bits| == WORDS && bid < ENTRIES && bid % 64 < 32
  {
    p.(bits := UnsetBit(p.bits, bid), slots := p.slots[bid := Some(b)], ring := p.ring + [Entry(bid, b, p.gen)],
       count := p.count + 1, total := p.total + p.Buf(b).len)
  }

  lemma CommitIsPublish(p: Pool)
    requires PoolOk(p) && FirstSet(p.bits) < ENTRIES && FirstSet(p.bits) % 64 < 32
    ensures p.free != [] ==> p.Live(p.free[0])
    ensures var (p', b) := Checkout(p); p'.Live(b) && Commit(p) == Publish(p', b, FirstSet(p.bits))
  {
    hide BitmapOk, RingOk, LevelOk, MetricsOk;
    var (p', b) := Checkout(p);
    assert p'.Buf(b).refs == 1;
    assert p'.bufs[b := Some(p'.Buf(b))] == p'.bufs;
    assert |p.slots| == ENTRIES && |p.bits| == WORDS by { BidAvailableIff(p); }
  }

  lemma PublishKeeps(p: Pool, b: nat, bid: nat)
    requires PoolOk(p) && p.Held(b) && !InRing(p.Slotted(), b) && p.Buf(b).len == p.size && p.Buf(b).pos == 0
    requires p.total < p.level && |p.slots| == ENTRIES && |p.bits| == WORDS
    requires bid < ENTRIES && bid % 64 < 32 && p.slots[bid].None?
    ensures PoolOk(Publish(p, b, bid))
  {
    hide Sum, Alive, Space, Admitted, BitmapOk, RingOk, UnsetBit, LevelOf, SizeOf;
    var p' := Publish(p, b, bid);
    assert Elsewhere(p, p', |p.bufs|);
    assert BitmapOk(p'.bits, p'.slots) by { UnsetKeepsBitmap(p.bits, p.slots, bid, b); }
    assert RingOk(p') by { PublishKeepsRing(p, b, bid); }
  }

  lemma PublishKeepsRing(p: Pool, b: nat, bid: nat)
    requires RingOk(p) && LevelOk(p) && p.Held(b) && !InRing(p.Slotted(), b)
    requires p.Buf(b).len == p.size && p.Buf(b).pos == 0
    requires p.total < p.level && |p.slots| == ENTRIES && |p.bits| == WORDS
    requires bid < ENTRIES && bid % 64 < 32 && p.slots[bid].None?
    ensures RingOk(Publish(p, b, bid))
  {
    hide Sum, Admitted, UnsetBit, LevelOf, SizeOf, Bids, CursorOk;
    var p' := Publish(p, b, bid);
    var e := Entry(bid, b, p.gen);
    assert p'.Slotted() == p.Slotted() + [e];
    forall i | 0 <= i < |p'.Slotted()| ensures EntryOk(p', p'.Slotted()[i]) {
      if i < |p.Slotted()| { assert EntryOk(p, p.Slotted()[i]); }
    }
    forall i | 0 <= i < |p.Slotted()| ensures p.Slotted()[i].bid != bid && p.Slotted()[i].buf != b {
      assert EntryOk(p, p.Slotted()[i]);
    }
    assert Bids(p'.Slotted()) == Bids(p.Slotted()) + {bid} by { BidsAppend(p.Slotted(), e); }
    PublishKeepsCursor(p, b, bid);
  }

  lemma PublishKeepsCursor(p: Pool, b: nat, bid: nat)
    requires RingOk(p) && LevelOk(p) && p.Live(b) && p.Buf(b).len == p.size && p.Buf(b).pos == 0 && p.total < p.level
    requires |p.slots| == ENTRIES && |p.bits| == WORDS && bid < ENTRIES && bid % 64 < 32
    ensures CursorOk(Publish(p, b, bid))
  {
    hide Sum, Admitted, UnsetBit, LevelOf, SizeOf;
    var e := Entry(bid, b, p.gen);
    SumAppend(p.ring, e);
    if p.ring != [] {
      AdmitNext(p, e);
      assert (p.ring + [e])[1..] == p.ring[1..] + [e];
    } else {
      NoneAdmitted();
      assert (p.ring + [e])[1..] == [];
    }
  }

  /** Below the commit level, one more buffer may follow those of the ring. */
  lemma AdmitNext(p: Pool, e: Entry)
    requires CursorOk(p) && LevelOk(p) && p.ring != [] && p.total < p.level && e.gen == p.gen
    ensures Admitted(p.ring[1..] + [e])
  {
    hide Sum, Admitted, LevelOf, SizeOf;
    SumHead(p.ring);
    AdmittedAppend(p.ring[1..], e);
  }

  lemma BidsAppend(ring: seq<Entry>, e: Entry)
    ensures Bids(ring + [e]) == Bids(ring) + {e.bid}
  {
    var ring' := ring + [e];
    assert ring'[|ring|] == e && forall i :: 0 <= i < |ring| ==> ring'[i] == ring[i];
  }

  lemma NoneAdmitted()
    ensures Admitted([])
  {
  }

  lemma CommitKeeps(p: Pool)
    requires PoolOk(p) && p.total < p.level && p.count < USABLE
    ensures p.free != [] ==> p.Live(p.free[0])
    ensures |p.slots| == ENTRIES && |p.bits| == WORDS
    ensures var bid := FirstSet(p.bits); bid < ENTRIES && bid % 64 < 32 && p.slots[bid].None?
    ensures PoolOk(Commit(p)) && Commit(p).count == p.count + 1 && Extended(p, Commit(p))
  {
    hide PoolOk, FirstSet, Publish, Checkout, Commit, CheckedOut;
    BidAvailableIff(p);
    CheckoutKeeps(p);
    CommitIsPublish(p);
    var (p', b) := Checkout(p);
    CheckedOutFacts(p, p', b);
    PublishKeeps(p', b, FirstSet(p.bits));
    PublishExtends(p, p', b, FirstSet(p.bits));
  }

  lemma CheckedOutFacts(p: Pool, p': Pool, b: nat)
    requires CheckedOut(p, p', b)
    ensures p'.Held(b) && !InRing(p'.Slotted(), b) && p'.Buf(b).len == p'.size && p'.Buf(b).pos == 0
    ensures p'.total == p.total && p'.level == p.level && p'.slots == p.slots && p'.bits == p.bits
    ensures p'.count == p.count
  {
  }

  /** Nothing has been reported, lost or thrown away. */
  predicate SameReports(p: Pool, p': Pool) {
    p'.lost == p.lost && p'.reported == p.reported && p'.thrown == p.thrown
  }

  /** Slot `k` is empty. */
  predicate WasFree(p: Pool, k: nat) {
    k < |p.slots| && p.slots[k].None?
  }

  /** What committing buffers leaves: the ring has grown by buffers that nobody had, and everything that
      somebody refers to is as it was. */
  ghost predicate Extended(p: Pool, p': Pool) {
    && KeepsHeld(p, p') && p.ring <= p'.ring && SameReports(p, p')
    && (forall i :: |p.ring| <= i < |p'.ring| ==> !p.Held(p'.ring[i].buf) && WasFree(p, p'.ring[i].bid))
    && (forall k :: WasFree(p', k) ==> WasFree(p, k))
    && (forall b :: Outside(p', b) == Outside(p, b))
    && (forall i :: |p.ring| <= i < |p'.ring| ==> p'.Held(p'.ring[i].buf) && p'.Buf(p'.ring[i].buf).pos == 0)
    && p'.gen == p.gen && p'.level == p.level && p'.size == p.size
  }

  lemma InRingAppend(ring: seq<Entry>, e: Entry, b: nat)
    ensures InRing(ring + [e], b) <==> InRing(ring, b) || e.buf == b
  {
    if InRing(ring, b) {
      var i :| 0 <= i < |ring| && ring[i].buf == b;
      assert (ring + [e])[i].buf == b;
    }
    if e.buf == b { assert (ring + [e])[|ring|].buf == b; }
  }

  lemma PublishExtends(p: Pool, p': Pool, b: nat, bid: nat)
    requires CheckedOut(p, p', b) && |p.slots| == ENTRIES && |p.bits| == WORDS && bid < ENTRIES && bid % 64 < 32
    requires p.slots[bid].None?
    ensures Extended(p, Publish(p', b, bid)) && Publish(p', b, bid).count == p.count + 1
  {
    hide UnsetBit;
    var q := Publish(p', b, bid);
    forall x ensures Outside(q, x) == Outside(p, x) {
      assert q.Slotted() == p.Slotted() + [Entry(bid, b, p'.gen)];
      InRingAppend(p.Slotted(), Entry(bid, b, p'.gen), x);
    }
  }

  lemma ExtendedTwice(p: Pool, q: Pool, r: Pool)
    requires Extended(p, q) && Extended(q, r)
    ensures Extended(p, r)
  {
  }

  lemma {:induction false} FillKeeps(p: Pool)
    requires PoolOk(p)
    ensures PoolOk(Fill(p)) && Extended(p, Fill(p)) && (Fill(p).total >= p.level || Fill(p).count == USABLE)
    ensures Fill(p) == p || Fill(p).total < p.level + p.size
    decreases ENTRIES - p.count
  {
    hide PoolOk, Extended, Commit;
    CommitKeepsAll(p);
    if p.total < p.level && p.count < USABLE {
      FillKeeps(CommitNext(p));
      SizeKept(p, CommitNext(p));
      ExtendedTwice(p, CommitNext(p), Fill(CommitNext(p)));
    }
  }

  lemma CommitKeepsAll(p: Pool)
    requires PoolOk(p)
    ensures p.total < p.level && p.count < USABLE ==>
      && (p.free != [] ==> p.Live(p.free[0])) && |p.slots| == ENTRIES && |p.bits| == WORDS
      && FirstSet(p.bits) < ENTRIES && FirstSet(p.bits) % 64 < 32
      && PoolOk(Commit(p)) && Commit(p).count == p.count + 1 && Extended(p, Commit(p))
      && Commit(p).total == p.total + p.size
    ensures Extended(p, p) && p.count <= USABLE && p.size > 0
  {
    hide FirstSet, RingOk, BitmapOk, UnsetBit, BufsOk, MetricsOk;
    BidAvailableIff(p);
    if p.total < p.level && p.count < USABLE { CommitKeeps(p); }
  }

  /** The fill loop reaches the level if and only if there are ids for as many buffers as that takes. */
  lemma {:induction false} FillReachesIff(p: Pool)
    requires PoolOk(p) && p.size > 0
    ensures Fill(p).total >= p.level <==> p.count + Parts(p.level - p.total, p.size) <= USABLE
    decreases ENTRIES - p.count
  {
    hide PoolOk, Extended, Commit;
    CommitKeepsAll(p);
    if p.total < p.level && p.count < USABLE {
      SizeKept(p, CommitNext(p));
      FillReachesIff(CommitNext(p));
    }
  }

  lemma SizeKept(p: Pool, p': Pool)
    requires Extended(p, p')
    ensures p'.size == p.size && p'.level == p.level && p'.gen == p.gen
  {
  }

  /** If there are ids enough, more than half the commit level is committed afterwards. There are if and only if the
      level is high enough already, or the loop reaches it. */
  lemma EnsureLevelKeeps(p: Pool)
    requires PoolOk(p)
    ensures PoolOk(EnsureLevel(p)) && Extended(p, EnsureLevel(p)) && |EnsureLevel(p).ring| <= 65
    ensures p.size > 0 && EnsureLevel(p).level == p.level
    ensures IdsSuffice(p) <==> p.total > p.level / 2 || EnsureLevel(p).total >= p.level
    ensures IdsSuffice(p) ==> EnsureLevel(p).total > p.level / 2
    ensures p.total > p.level / 2 ==> EnsureLevel(p) == p
    ensures EnsureLevel(p) == p || EnsureLevel(p).total < p.level + p.size
  {
    hide PoolOk, CommitNext, Commit, Parts;
    CommitKeepsAll(p);
    FillKeeps(p);
    FillReachesIff(p);
    SlotBound(EnsureLevel(p));
    LevelPositive(p);
  }

  /** There are ids enough as long as no more than 447 buffers are lost. */
  lemma FewLostSuffice(p: Pool)
    requires PoolOk(p) && |p.lost| <= 447
    ensures p.size > 0 && IdsSuffice(p)
  {
    hide PoolOk, CommitNext, Commit, Parts, Extended;
    CommitKeepsAll(p);
    FillKeeps(p);
    EnsureLevelKeeps(p);
    SizeKept(p, Fill(p));
    SameLost(p, Fill(p));
    RoomBelowLevel(Fill(p));
  }

  lemma SameLost(p: Pool, p': Pool)
    requires Extended(p, p')
    ensures p'.lost == p.lost
  {
  }

  lemma RoomBelowLevel(p: Pool)
    requires PoolOk(p)
    ensures p.total < p.level ==> p.count <= 64 + |p.lost|
  {
    hide Admitted, Sum, LevelOf, SizeOf, BitmapOk, MetricsOk, FreeOk;
    if p.ring != [] && p.total < p.level {
      var e := p.ring[0].(gen := p.gen);
      AdmitNext(p, e);
      AdmittedBound(p.ring[1..] + [e]);
    }
  }

  lemma LevelPositive(p: Pool)
    requires PoolOk(p)
    ensures p.level > 0
  {
  }

  lemma WithdrawnKeepsRing(p: Pool)
    requires RingOk(p) && BitmapOk(p.bits, p.slots) && p.ring != [] && p.reported == SizeOf(p.ring[0].gen)
    ensures p.ring[0].bid < ENTRIES && p.ring[0].bid % 64 < 32 && p.count > 0
    ensures RingOk(Withdrawn(p, p.ring[0].bid))
    ensures !InRing(Withdrawn(p, p.ring[0].bid).Slotted(), p.ring[0].buf)
  {
    hide Sum, Admitted, SetBit, SizeOf, CursorOk, Bids;
    RingDistinct(p);
    var n := |p.lost|;
    var p' := Withdrawn(p, p.ring[0].bid);
    assert p.Slotted()[n] == p.ring[0];
    forall i | 0 <= i < |p'.Slotted()| ensures p'.Slotted()[i] == p.Slotted()[if i < n then i else i + 1] {
    }
    forall i | 0 <= i < |p'.Slotted()| ensures EntryOk(p', p'.Slotted()[i]) {
      assert EntryOk(p, p.Slotted()[if i < n then i else i + 1]);
    }
    BidsWithout(p.Slotted(), p'.Slotted(), n);
    WithdrawnKeepsCursor(p);
  }

  lemma BidsWithout(all: seq<Entry>, rest: seq<Entry>, n: nat)
    requires n < |all| && |rest| == |all| - 1
    requires forall i :: 0 <= i < |rest| ==> rest[i] == all[if i < n then i else i + 1]
    ensures forall k :: k in Bids(all) && k != all[n].bid ==> k in Bids(rest)
  {
    forall k | k in Bids(all) && k != all[n].bid ensures k in Bids(rest) {
      var i :| 0 <= i < |all| && all[i].bid == k;
      assert rest[if i < n then i else i - 1].bid == k;
    }
  }

  lemma WithdrawnKeepsCursor(p: Pool)
    requires CursorOk(p) && p.ring != [] && p.reported == SizeOf(p.ring[0].gen)
    requires |p.slots| == ENTRIES && |p.bits| == WORDS && p.count > 0
    requires p.ring[0].bid < ENTRIES && p.ring[0].bid % 64 < 32
    ensures CursorOk(Withdrawn(p, p.ring[0].bid))
  {
    hide Sum, Admitted, SetBit, SizeOf;
    SumHead(p.ring);
    if |p.ring| > 1 { AdmittedTail(p.ring[1..]); }
  }

  /** The oldest committed buffer leaves once it has been reported to its end. */
  lemma UncommitKeeps(p: Pool)
    requires PoolOk(p) && p.ring != [] && p.reported == SizeOf(p.ring[0].gen)
    ensures EntryOk(p, p.ring[0]) && p.ring[0].bid % 64 < 32
    ensures |p.slots| == ENTRIES && |p.bits| == WORDS && p.count > 0
    ensures var p' := Uncommit(p, p.ring[0].buf, p.ring[0].bid); PoolOk(p') && Uncommitted(p, p')
  {
    hide Sum, Alive, Space, BitmapOk, SizeOf, LevelOf, RingOk, SetBit;
    var e := p.ring[0];
    assert EntryOk(p, e) && |p.slots| == ENTRIES && |p.bits| == WORDS && p.count > 0 by { HeadFacts(p); }
    WithdrawnKeepsRing(p);
    var q := Withdrawn(p, e.bid);
    SetKeepsBitmap(p.bits, p.slots, e.bid);
    assert Elsewhere(p, q, |p.bufs|);
    assert PoolOk(q);
    CheckinKeeps(q, e.buf);
    OutsideAfterUncommit(p, Checkin(q, e.buf));
  }

  lemma HeadFacts(p: Pool)
    requires PoolOk(p) && p.ring != []
    ensures EntryOk(p, p.ring[0]) && |p.slots| == ENTRIES && |p.bits| == WORDS && p.count > 0
    ensures p.ring[0].bid % 64 < 32
  {
    hide Sum, Admitted, SizeOf, LevelOf, MetricsOk, FreeOk, CursorOk;
    RingDistinct(p);
    assert EntryOk(p, p.ring[0]);
  }

  ghost predicate Uncommitted(p: Pool, p': Pool)
    requires p.ring != []
  {
    var b := p.ring[0].buf;
    && p'.ring == p.ring[1..] && p'.lost == p.lost && p'.reported == 0 && p'.thrown == p.thrown
    && Elsewhere(p, p', b) && (forall x :: Outside(p', x) == Outside(p, x))
    && (p'.Held(b) ==> p.Live(b) && p'.Buf(b) == p.Buf(b).(refs := p'.Buf(b).refs))
    && p'.gen == p.gen && p'.level == p.level && p'.size == p.size
  }

  lemma OutsideAfterUncommit(p: Pool, p': Pool)
    requires p.ring != [] && p'.ring == p.ring[1..] && p'.lost == p.lost && !InRing(p'.Slotted(), p.ring[0].buf)
    requires Elsewhere(p, p', p.ring[0].buf) && Refs(p', p.ring[0].buf) == Refs(p, p.ring[0].buf) - 1
    ensures forall x :: Outside(p', x) == Outside(p, x)
  {
    var n := |p.lost|;
    assert p.Slotted()[n] == p.ring[0];
    forall x ensures InRing(p.Slotted(), x) <==> x == p.ring[0].buf || InRing(p'.Slotted(), x) {
      if i :| 0 <= i < |p.Slotted()| && p.Slotted()[i].buf == x {
        if i != n { assert p'.Slotted()[if i < n then i else i - 1].buf == x; }
      }
      if i :| 0 <= i < |p'.Slotted()| && p'.Slotted()[i].buf == x {
        assert p.Slotted()[if i < n then i else i + 1].buf == x;
      }
    }
  }

  // ----- Buffers coming back from the kernel

  /** A completion for `n` bytes in buffer `bid` is the next that the kernel owes. */
  ghost predicate Consumable(p: Pool, bid: nat, n: nat, more: bool) {
    && p.ring != [] && p.ring[0].bid == bid && n > 0
    && p.reported + n <= SizeOf(p.ring[0].gen) && (more <==> p.reported + n < SizeOf(p.ring[0].gen))
  }

  /** The first half of `bp_get_op_result_segment`. */
  function ConsumeCommitted(p: Pool, b: nat, n: nat): Pool
    requires p.Live(b)
  {
    Consume(p, b, n).(total := p.total - n, reported := p.reported + n)
  }

  /** `bp_get_op_result_segment`, without the segment. */
  function ProcessResult(p: Pool, bid: nat, n: nat, more: bool): Pool
    requires PoolOk(p) && Consumable(p, bid, n, more)
  {
    ConsumeKeeps(p, bid, n, more);
    var b := p.slots[bid].value;
    var p' := EnsureLevel(ConsumeCommitted(p, b, n));
    if more then p' else ConsumedHead(p, bid, n, more); Uncommit(p', b, bid)
  }

  /** A completion that is not processed: nothing changes but what is reported and forgotten. */
  function Throw(p: Pool, n: nat, more: bool): Pool
    requires p.ring != []
  {
    if more then p.(reported := p.reported + n, thrown := p.thrown + n)
    else p.(reported := 0, thrown := p.thrown + n, lost := p.lost + [p.ring[0]], ring := p.ring[1..])
  }

  lemma ThrowKeeps(p: Pool, bid: nat, n: nat, more: bool)
    requires PoolOk(p) && Consumable(p, bid, n, more)
    ensures PoolOk(Throw(p, n, more)) && Throw(p, n, more).Slotted() == p.Slotted()
    ensures forall b :: Outside(Throw(p, n, more), b) == Outside(p, b)
    ensures p.Live(p.ring[0].buf)
  {
    hide Sum, Admitted, SizeOf, LevelOf, Alive, Space, BitmapOk, Bids;
    var p' := Throw(p, n, more);
    assert p'.Slotted() == p.Slotted();
    assert Elsewhere(p, p', |p.bufs|);
    forall i | 0 <= i < |p'.Slotted()| ensures EntryOk(p', p'.Slotted()[i]) {
      assert EntryOk(p, p.Slotted()[i]);
    }
    if !more {
      SumHead(p.ring);
      if |p.ring| > 1 { AdmittedTail(p.ring[1..]); }
    }
  }

  lemma ConsumeKeeps(p: Pool, bid: nat, n: nat, more: bool)
    requires PoolOk(p) && Consumable(p, bid, n, more)
    ensures p.ring != [] && bid < |p.slots| && p.slots[bid] == Some(p.ring[0].buf) && p.Held(p.ring[0].buf)
    ensures var b := p.ring[0].buf;
      && PoolOk(ConsumeCommitted(p, b, n)) && Elsewhere(p, ConsumeCommitted(p, b, n), b)
      && p.Buf(b).pos + n <= p.Buf(b).len
  {
    hide Sum, Alive, Space, Admitted, BitmapOk, SizeOf, LevelOf, RingOk;
    var b := p.ring[0].buf;
    HeadFacts(p);
    var q := p.(total := p.total - n, reported := p.reported + n);
    assert Elsewhere(p, q, |p.bufs|);
    assert RingOk(q) && p.Buf(b).pos <= p.reported by { ReportKeepsRing(p, n); }
    RingBufs(q);
    UpdateKeeps(q, b, p.Buf(b).(pos := p.Buf(b).pos + n, refs := p.Buf(b).refs + 1));
  }

  lemma ReportKeepsRing(p: Pool, n: nat)
    requires RingOk(p) && p.ring != [] && p.reported + n <= SizeOf(p.ring[0].gen)
    ensures RingOk(p.(total := p.total - n, reported := p.reported + n)) && p.Buf(p.ring[0].buf).pos <= p.reported
  {
    hide Sum, Admitted, SizeOf;
    var q := p.(total := p.total - n, reported := p.reported + n);
    forall i | 0 <= i < |q.Slotted()| ensures EntryOk(q, q.Slotted()[i]) {
      assert EntryOk(p, p.Slotted()[i]);
    }
  }

  lemma RingBufs(p: Pool)
    requires RingOk(p)
    ensures p.ring != [] ==> p.Held(p.ring[0].buf) && InRing(p.ring, p.ring[0].buf)
  {
    RingDistinct(p);
    if p.ring != [] { assert EntryOk(p, p.ring[0]); }
  }

  lemma ConsumedHead(p: Pool, bid: nat, n: nat, more: bool)
    requires PoolOk(p) && Consumable(p, bid, n, more)
    ensures bid < |p.slots| && p.slots[bid] == Some(p.ring[0].buf) && p.Held(p.ring[0].buf)
    ensures PoolOk(ConsumeCommitted(p, p.ring[0].buf, n))
    ensures var p' := EnsureLevel(ConsumeCommitted(p, p.ring[0].buf, n));
      && PoolOk(p') && p'.ring != [] && p'.ring[0] == p.ring[0]
      && EntryOk(p', p'.ring[0]) && bid % 64 < 32 && bid < ENTRIES && p'.Held(p.ring[0].buf)
      && |p'.slots| == ENTRIES && |p'.bits| == WORDS && p'.count > 0
      && p'.Buf(p.ring[0].buf) == ConsumeCommitted(p, p.ring[0].buf, n).Buf(p.ring[0].buf)
      && p'.reported == p.reported + n
  {
    hide PoolOk, EnsureLevel, Bids;
    ConsumeKeeps(p, bid, n, more);
    var q := ConsumeCommitted(p, p.ring[0].buf, n);
    EnsureLevelKeeps(q);
    HeadFacts(EnsureLevel(q));
  }

  /** What is left of the ring once the kernel has reported `n` more bytes. */
  function RestOfRing(p: Pool, more: bool): seq<Entry>
    requires p.ring != []
  {
    if more then p.ring else p.ring[1..]
  }

  /** The segment's buffer has one more reference and its cursor has moved on; other buffers in use are as they
      were; and the ring has lost its oldest buffer if that is used up, and may have grown by others. */
  ghost predicate Processed(p: Pool, p': Pool, n: nat, more: bool)
    requires p.ring != [] && p.Live(p.ring[0].buf)
  {
    var b := p.ring[0].buf;
    && p'.Held(b) && p'.Buf(b) == p.Buf(b).(pos := p.Buf(b).pos + n, refs := p'.Buf(b).refs)
    && (forall x :: x != b && p.Held(x) ==> p'.Live(x) && p'.Buf(x) == p.Buf(x))
    && (forall x :: Outside(p', x) == Outside(p, x) + if x == b then 1 else 0)
    && p'.lost == p.lost && p'.thrown == p.thrown && p'.reported == (if more then p.reported + n else 0)
    && RestOfRing(p, more) <= p'.ring
    && (forall i :: |RestOfRing(p, more)| <= i < |p'.ring| ==>
         !p.Held(p'.ring[i].buf) && p'.Held(p'.ring[i].buf) && p'.Buf(p'.ring[i].buf).pos == 0)
    && p'.level == p.level && p'.gen == p.gen
  }

  lemma ProcessResultKeeps(p: Pool, bid: nat, n: nat, more: bool)
    requires PoolOk(p) && Consumable(p, bid, n, more)
    ensures p.Held(p.ring[0].buf)
    ensures PoolOk(ProcessResult(p, bid, n, more)) && Processed(p, ProcessResult(p, bid, n, more), n, more)
  {
    hide PoolOk, EnsureLevel, Uncommit, InRing;
    ConsumeKeeps(p, bid, n, more);
    var q := ConsumeCommitted(p, p.ring[0].buf, n);
    var p' := EnsureLevel(q);
    EnsureLevelKeeps(q);
    ConsumedHead(p, bid, n, more);
    assert Processed(p, p', n, true);
    if !more {
      UncommitKeeps(p');
      ProcessedLast(p, p', Uncommit(p', p.ring[0].buf, bid), n);
    }
  }

  lemma ProcessedLast(p: Pool, q: Pool, p': Pool, n: nat)
    requires p.ring != [] && p.Held(p.ring[0].buf) && q.ring != [] && Processed(p, q, n, true) && Uncommitted(q, p')
    ensures Processed(p, p', n, false)
  {
    hide InRing;
    var b := p.ring[0].buf;
    assert q.ring[0] == p.ring[0];
    assert Outside(p, b) >= 0;
    assert Outside(p', b) > 0;
    forall i | |p.ring| - 1 <= i < |p'.ring|
      ensures !p.Held(p'.ring[i].buf) && p'.Held(p'.ring[i].buf) && p'.Buf(p'.ring[i].buf).pos == 0
    {
      assert p'.ring[i] == q.ring[i + 1];
    }
  }

  // ----- Growth

  lemma GrownSizeIs(gen: nat)
    ensures GrownSize(SizeOf(gen), LevelOf(gen + 1)) == SizeOf(gen + 1)
  {
    LevelFacts(gen);
    hide SizeOf, LevelOf;
    var s, l := SizeOf(gen), LevelOf(gen + 1);
    if gen == 0 {
      assert GrownSize(s * 8, l) == s * 8;
      assert GrownSize(s * 4, l) == GrownSize(s * 8, l);
      assert GrownSize(s * 2, l) == GrownSize(s * 4, l);
    } else {
      assert GrownSize(s * 2, l) == s * 2;
    }
  }

  lemma {:induction false} DiscardKeeps(p: Pool)
    requires Freeable(p) && MetricsOk(p) && forall k :: 0 <= k < |p.free| ==> p.Buf(p.free[k]).refs == 0
    ensures var p' := DiscardFree(p); MetricsOk(p') && Discarded(p, p')
    decreases |p.free|
  {
    hide Alive, Space, Discarded, DiscardOne;
    if p.free == [] {
      NothingDiscarded(p);
    } else {
      DiscardFirst(p);
      DiscardOneKeeps(p);
      DiscardKeeps(DiscardOne(p));
      DiscardedTwice(p, DiscardFree(DiscardOne(p)));
    }
  }

  lemma NothingDiscarded(p: Pool)
    requires p.free == []
    ensures Discarded(p, p)
  {
  }

  lemma DiscardOneKeeps(p: Pool)
    requires Freeable(p) && MetricsOk(p) && p.free != []
    requires forall k :: 0 <= k < |p.free| ==> p.Buf(p.free[k]).refs == 0
    ensures var q := DiscardOne(p);
      MetricsOk(q) && Freeable(q) && |q.free| < |p.free| && forall k :: 0 <= k < |q.free| ==> q.Buf(q.free[k]).refs == 0
  {
    hide Alive, Space;
    var q := DiscardOne(p);
    MetricsUpdate(p.bufs, p.free[0], None);
    assert forall k :: 0 <= k < |q.free| ==> q.free[k] == p.free[k + 1] && q.free[k] != p.free[0];
  }

  lemma DiscardedTwice(p: Pool, p': Pool)
    requires Freeable(p) && p.free != [] && Discarded(DiscardOne(p), p')
    ensures Discarded(p, p')
  {
    var q := DiscardOne(p);
    assert Elsewhere(p, q, p.free[0]);
    assert p.free == [p.free[0]] + q.free;
  }

  ghost predicate Discarded(p: Pool, p': Pool) {
    && (forall b :: p'.Live(b) <==> p.Live(b) && b !in p.free)
    && (forall b :: p'.Live(b) ==> p'.Buf(b) == p.Buf(b))
    && p' == p.(bufs := p'.bufs, free := [], numBuffers := p'.numBuffers, space := p'.space)
  }

  /** A growth doubles the level and makes the size a quarter of it. The freelist is emptied, so that its
      buffers all have the current size again. */
  lemma GrowKeeps(p: Pool)
    requires PoolOk(p) && p.level < MAX_LEVEL
    ensures var p' := Grow(p);
      && PoolOk(p') && p'.level == 2 * p.level && p'.size == p'.level / 4 && p'.gen == p.gen + 1
      && SameSlots(p, p') && KeepsHeld(p, p') && forall b :: Outside(p', b) == Outside(p, b)
  {
    hide Sum, Alive, Space, BitmapOk, RingOk, LevelOf, SizeOf, GrownSize, DiscardFree, MetricsOk;
    GrownSizeIs(p.gen);
    LevelFacts(p.gen);
    LevelMaximum(p.gen);
    var q := p.(level := p.level * 2, size := GrownSize(p.size, p.level * 2), gen := p.gen + 1);
    assert MetricsOk(q) by { SameMetrics(p, q); }
    DiscardKeeps(q);
    GrownFrame(p, q, DiscardFree(q));
  }

  lemma SameMetrics(p: Pool, q: Pool)
    requires MetricsOk(p) && q.bufs == p.bufs && q.numBuffers == p.numBuffers && q.space == p.space
    ensures MetricsOk(q)
  {
  }

  lemma GrownFrame(p: Pool, q: Pool, p': Pool)
    requires PoolOk(p) && q == p.(level := q.level, size := q.size, gen := q.gen) && q.gen >= p.gen
    requires Discarded(q, p') && LevelOk(q) && MetricsOk(p')
    ensures PoolOk(p') && SameSlots(p, p') && KeepsHeld(p, p') && forall b :: Outside(p', b) == Outside(p, b)
  {
    hide Sum, Alive, Space, BitmapOk, RingOk, LevelOf, SizeOf, MetricsOk;
    assert forall b :: p'.Live(b) ==> p.Live(b) && p'.Buf(b) == p.Buf(b);
    assert RingOk(p') by { FrameKeepsRing(p, p'); }
  }

  lemma SetupOk()
    ensures PoolOk(Setup()) && forall b :: Outside(Setup(), b) == 0
  {
    hide BitmapOk;
    SetupBitmap();
    EmptyOk(Setup());
  }

  lemma EmptyOk(p: Pool)
    requires p.ring == [] && p.lost == [] && p.reported == 0 && p.thrown == 0
    requires p.bufs == [] && p.free == [] && p.count == 0 && p.total == 0 && p.gen == 0
    requires p.level == INITIAL_LEVEL && p.size == INITIAL_SIZE && p.numBuffers == 0 && p.space == 0
    requires BitmapOk(p.bits, p.slots) && forall k :: 0 <= k < |p.slots| ==> p.slots[k].None?
    ensures PoolOk(p) && forall b :: Outside(p, b) == 0
  {
    hide BitmapOk, Admitted;
    assert LevelOf(0) == INITIAL_LEVEL;
  }

  lemma SetupBitmap()
    ensures BitmapOk(Setup().bits, Setup().slots)
    ensures forall k :: 0 <= k < |Setup().slots| ==> Setup().slots[k].None?
  {
    var bits := Setup().bits;
    forall k | 0 <= k < ENTRIES ensures Bit(bits, k) {
      assert bits[k / 64] == AllOnes();
    }
  }
}
