/**
 Many streams sharing one buffer pool with the kernel, as um.c, um_op.c, um_io.c and um_buffer_pool.c do it
 together. A state machine whose steps are what happens between two points where the C code gives up control;
 the kernel is any environment that keeps to the assumptions in Enabled.
 */
module SharedStreams {
  import opened FlatStream
  import opened CommitLevel
  import opened BufferPool
  import opened SharedBuffers

  /** A multishot operation: the commit level it was started at, and whether the kernel still has it. */
  datatype Op = Op(level: nat, armed: bool)

  datatype Terminal = Enobufs | Eof | Ecanceled | Error

  datatype Stream = Stream(
    ssl: bool,
    op: Option<Op>,
    first: nat, taken: nat, next: nat,  // segments first..taken are in the stream's list, taken..next in op results
    last: Option<Terminal>,             // the last of the op results, after its segments
    cur: nat,                           // io->pos
    eof: bool,
    closed: bool,                       // by io_clear
    delivered: seq<Byte>,               // all that the stream's source has handed over
    consumed: seq<Byte>,                // all that has been read
    exact: bool                         // each segment was made while the pool's cursor was in step
  )

  datatype World = World(
    pool: Pool,
    holds: map<Holder, Slice>,
    kernel: Cursor,  // the buffers that the kernel still has, and how far it has filled the first of them
    cqes: seq<Cqe>,
    streams: seq<Stream>
  )

  // ----- The bytes of a stream

  /** The bytes of segments `i` to `j` of stream `s`. */
  function Bytes(holds: map<Holder, Slice>, s: nat, i: nat, j: nat): seq<Byte>
    decreases j - i
  {
    if i >= j then []
    else (if Segment(s, i) in holds then holds[Segment(s, i)].data else []) + Bytes(holds, s, i + 1, j)
  }

  function Pending(cqes: seq<Cqe>, s: nat): seq<Byte> {
    if cqes == [] then []
    else (if cqes[0].Data? && cqes[0].stream == s then cqes[0].data else []) + Pending(cqes[1..], s)
  }

  function After(f: seq<Byte>, n: nat): seq<Byte> {
    if n <= |f| then f[n..] else []
  }

  lemma {:induction false} BytesSame(holds: map<Holder, Slice>, holds': map<Holder, Slice>, s: nat, i: nat, j: nat)
    requires SameSegments(holds, holds', s, i, j)
    ensures Bytes(holds', s, i, j) == Bytes(holds, s, i, j)
    decreases j - i
  {
    if i < j { BytesSame(holds, holds', s, i + 1, j); }
  }

  ghost predicate SameSegments(holds: map<Holder, Slice>, holds': map<Holder, Slice>, s: nat, i: nat, j: nat) {
    forall k: nat :: i <= k < j ==>
      (Segment(s, k) in holds' <==> Segment(s, k) in holds)
      && (Segment(s, k) in holds ==> holds'[Segment(s, k)] == holds[Segment(s, k)])
  }

  lemma {:induction false} BytesAppend(holds: map<Holder, Slice>, s: nat, i: nat, j: nat, x: Slice)
    requires i <= j && Segment(s, j) !in holds
    ensures Bytes(holds[Segment(s, j) := x], s, i, j + 1) == Bytes(holds, s, i, j) + x.data
    decreases j - i
  {
    if i < j {
      BytesAppend(holds, s, i + 1, j, x);
    } else {
      assert Bytes(holds[Segment(s, j) := x], s, j + 1, j + 1) == [];
    }
  }

  lemma {:induction false} PendingAppend(cqes: seq<Cqe>, c: Cqe, s: nat)
    ensures Pending(cqes + [c], s) == Pending(cqes, s) + if c.Data? && c.stream == s then c.data else []
  {
    if cqes == [] {
      assert ([c])[1..] == [];
    } else {
      assert (cqes + [c])[1..] == cqes[1..] + [c];
      PendingAppend(cqes[1..], c, s);
    }
  }

  lemma {:induction false} PendingNone(cqes: seq<Cqe>, s: nat)
    requires forall i :: 0 <= i < |cqes| ==> cqes[i].stream != s
    ensures Pending(cqes, s) == []
  {
    if cqes != [] { PendingNone(cqes[1..], s); }
  }

  // ----- The invariant

  /** The buffer that a stream reads into has room, is not committed, and is nobody else's to read into. */
  ghost predicate WorkerOk(p: Pool, x: Slice) {
    && x.off == 0 && x.data == [] && p.Live(x.buf) && !InRing(p.Slotted(), x.buf)
    && p.Buf(x.buf).pos < p.Buf(x.buf).len
  }

  ghost predicate WorkersOk(p: Pool, holds: map<Holder, Slice>, streams: seq<Stream>) {
    && (forall s: nat :: Working(s) in holds ==> s < |streams| && streams[s].ssl && WorkerOk(p, holds[Working(s)]))
    && (forall s: nat, t: nat :: Working(s) in holds && Working(t) in holds && s != t ==>
         holds[Working(s)].buf != holds[Working(t)].buf)
  }

  ghost predicate KeysOk(holds: map<Holder, Slice>, streams: seq<Stream>) {
    forall s: nat, k: nat :: Segment(s, k) in holds <==> s < |streams| && streams[s].first <= k < streams[s].next
  }

  /** A stream that has completions has an operation, and a completion without data is its last. */
  ghost predicate OrderOk(cqes: seq<Cqe>, streams: seq<Stream>) {
    && (forall i :: 0 <= i < |cqes| ==> CqeOrder(cqes[i], streams))
    && (forall i, j :: 0 <= i < j < |cqes| && cqes[i].stream == cqes[j].stream ==> cqes[i].Data?)
    && (forall s :: 0 <= s < |streams| && streams[s].last.Some? ==> streams[s].op.Some? && !streams[s].op.value.armed)
  }

  ghost predicate CqeOrder(c: Cqe, streams: seq<Stream>) {
    && c.stream < |streams| && !streams[c.stream].ssl
    && streams[c.stream].op.Some? && streams[c.stream].last.None?
    && (streams[c.stream].op.value.armed ==> c.Data?)
  }

  ghost predicate StreamOk(level: nat, holds: map<Holder, Slice>, cqes: seq<Cqe>, s: nat, x: Stream) {
    && x.first <= x.taken <= x.next
    && (x.ssl ==> x.taken == x.next && x.op.None? && x.last.None?)
    && (x.op.Some? ==> x.op.value.level <= level)
    && (forall k: nat :: x.first <= k < x.next ==> Segment(s, k) in holds && holds[Segment(s, k)].data != [])
    && (!x.closed ==> (if x.first < x.next then x.cur < |holds[Segment(s, x.first)].data| else x.cur == 0))
    && (!x.closed && x.exact ==>
         x.delivered == x.consumed + After(Bytes(holds, s, x.first, x.next), x.cur) + Pending(cqes, s))
  }

  ghost predicate StreamsOk(level: nat, holds: map<Holder, Slice>, cqes: seq<Cqe>, streams: seq<Stream>) {
    forall s :: 0 <= s < |streams| ==> StreamOk(level, holds, cqes, s, streams[s])
  }

  /** What every step keeps. */
  ghost predicate Inv(w: World) {
    && Sound(w.pool, w.holds, w.kernel, w.cqes) && WorkersOk(w.pool, w.holds, w.streams)
    && KeysOk(w.holds, w.streams) && OrderOk(w.cqes, w.streams)
    && StreamsOk(w.pool.level, w.holds, w.cqes, w.streams)
  }

  // ----- Steps

  datatype Step =
    | Start(s: nat)                       // io_multishot_op_start
    | Receive(s: nat, data: seq<Byte>, final: bool)  // the kernel fills a buffer for stream s, perhaps the last
    | RunOut(s: nat)                      // the kernel has no buffer for stream s
    | Finish(s: nat)                      // the kernel has reached the end of stream s
    | Fail(s: nat)                        // the operation of stream s fails
    | Cancel(s: nat)                      // the operation of stream s ends with -ECANCELED
    | Process                             // um_process_cqe
    | TakeResults(s: nat)                 // the body of the loop in io_get_more_segments_bp, after the wait
    | Read(s: nat, n: nat)                // the body of the loop in io_copy
    | ReadSsl(s: nat, data: seq<Byte>)    // io_get_more_segments_ssl
    | Close(s: nat)                       // io_clear, up to its loop
    | Drop(s: nat)                        // the body of the loop in io_clear
    | DropWorking(s: nat)                 // the end of io_clear

  predicate Armed(x: Stream) {
    x.op.Some? && x.op.value.armed
  }

  /** The next completion has data, and its stream has been closed: `um_process_cqe` throws it away. */
  predicate DiscardsData(w: World) {
    && w.cqes != [] && w.cqes[0].Data?
    && w.cqes[0].stream < |w.streams| && w.streams[w.cqes[0].stream].closed
  }

  /** There are ids for all that `bp_ensure_commit_level` will commit when the next completion is processed. */
  predicate IdsForNext(w: World) {
    w.cqes != [] && w.cqes[0].Data? && !DiscardsData(w) ==>
      w.pool.size > 0 && IdsSuffice(w.pool.(total := w.pool.total - |w.cqes[0].data|))
  }

  /** What can happen, up to where the pool looks for an id and none is left. A stream can be closed at any time,
      and its operation lives on until its last completion. */
  predicate Enabled(w: World, step: Step) {
    match step
    case Start(s) => s < |w.streams| && !w.streams[s].ssl && !w.streams[s].closed && w.streams[s].op.None? &&
      !w.streams[s].eof && w.pool.size > 0 && IdsSuffice(w.pool)
    case Receive(s, data, _) =>
      && s < |w.streams| && Armed(w.streams[s]) && data != []
      && w.kernel.ring != [] && w.kernel.pos + |data| <= SizeOf(w.kernel.ring[0].gen)
    case RunOut(s) => s < |w.streams| && Armed(w.streams[s]) && w.kernel.ring == []
    case Finish(s) => s < |w.streams| && Armed(w.streams[s])
    case Fail(s) => s < |w.streams| && Armed(w.streams[s])
    case Cancel(s) => s < |w.streams| && Armed(w.streams[s])
    case Process => w.cqes != [] && IdsForNext(w)
    case TakeResults(s) =>
      s < |w.streams| && !w.streams[s].closed && (w.streams[s].taken < w.streams[s].next || w.streams[s].last.Some?)
    case Read(s, n) =>
      && s < |w.streams| && !w.streams[s].closed && w.streams[s].first < w.streams[s].taken && n > 0
      && Segment(s, w.streams[s].first) in w.holds
      && w.streams[s].cur + n <= |w.holds[Segment(s, w.streams[s].first)].data|
    case ReadSsl(s, data) =>
      && s < |w.streams| && w.streams[s].ssl && !w.streams[s].closed && data != [] && |data| <= RoomFor(w, s)
    case Close(s) => s < |w.streams| && !w.streams[s].closed && w.streams[s].last != Some(Error)
    case Drop(s) => s < |w.streams| && w.streams[s].closed && w.streams[s].first < w.streams[s].next
    case DropWorking(s) => s < |w.streams| && w.streams[s].closed && Working(s) in w.holds
  }

  /** The room in the working buffer of stream `s`, or in the one that it will get. */
  function RoomFor(w: World, s: nat): int {
    if Working(s) in w.holds && w.pool.Live(w.holds[Working(s)].buf) then
      w.pool.Buf(w.holds[Working(s)].buf).len - w.pool.Buf(w.holds[Working(s)].buf).pos
    else w.pool.size
  }

  /** `bp_ensure_commit_level`, then the new operation, which remembers the level. */
  function DoStart(w: World, s: nat): World
    requires PoolOk(w.pool) && s < |w.streams|
  {
    var p := EnsureLevel(w.pool);
    World(p, w.holds, w.kernel.(ring := w.kernel.ring + Fresh(p.ring, |w.pool.ring|)), w.cqes,
          w.streams[s := w.streams[s].(op := Some(Op(p.level, true)))])
  }

  function Received(w: World, s: nat, data: seq<Byte>): Cqe
    requires w.kernel.ring != []
  {
    var e := w.kernel.ring[0];
    Data(s, e, w.kernel.pos, data, w.kernel.pos + |data| < SizeOf(e.gen))
  }

  function DoReceive(w: World, s: nat, data: seq<Byte>, final: bool): World
    requires s < |w.streams| && Armed(w.streams[s]) && w.kernel.ring != []
    requires Reported(w.kernel, Received(w, s, data)).Some? && w.pool.Live(w.kernel.ring[0].buf)
    requires w.kernel.pos + |data| <= |w.pool.Buf(w.kernel.ring[0].buf).mem|
  {
    var c := Received(w, s, data);
    var x := if final then Disarmed(w.streams[s]) else w.streams[s];
    World(Written(w.pool, c.entry.buf, c.off, data), w.holds, Reported(w.kernel, c).value, w.cqes + [c],
          w.streams[s := x.(delivered := x.delivered + data)])
  }

  function Disarmed(x: Stream): Stream
    requires x.op.Some?
  {
    x.(op := Some(x.op.value.(armed := false)))
  }

  function DoTerminal(w: World, s: nat, c: Cqe): World
    requires s < |w.streams| && Armed(w.streams[s])
  {
    w.(cqes := w.cqes + [c], streams := w.streams[s := Disarmed(w.streams[s])])
  }

  /** `um_process_cqe` for a multishot operation, down to `bp_get_op_result_segment`. A cancelled operation gets no
      results: what comes for it is thrown away, and it goes with its last completion. */
  function DoProcess(w: World): World
    requires Inv(w) && w.cqes != []
  {
    var c := w.cqes[0];
    FirstCqe(w);
    var x := w.streams[c.stream];
    if x.closed then
      if c.Data? then w.(pool := Throw(w.pool, |c.data|, c.more), cqes := w.cqes[1..])
      else w.(cqes := w.cqes[1..], streams := w.streams[c.stream := x.(op := None)])
    else
    match c
    case Data(s, e, _, data, more) =>
      var p := ProcessResult(w.pool, e.bid, |data|, more);
      World(p, w.holds[Segment(s, x.next) := SegmentFor(w.pool, c)],
            w.kernel.(ring := w.kernel.ring + Fresh(p.ring, |RestOfRing(w.pool, more)|)), w.cqes[1..],
            w.streams[s := x.(next := x.next + 1, exact := x.exact && InStep(w.pool))])
    case NoBuffers(s) => w.(cqes := w.cqes[1..], streams := w.streams[s := x.(last := Some(Enobufs))])
    case End(s) => w.(cqes := w.cqes[1..], streams := w.streams[s := x.(last := Some(Eof))])
    case Cancelled(s) => w.(cqes := w.cqes[1..], streams := w.streams[s := x.(last := Some(Ecanceled))])
    case Failed(s) => w.(cqes := w.cqes[1..], streams := w.streams[s := x.(last := Some(Error))])
  }

  lemma FirstCqe(w: World)
    requires Inv(w) && w.cqes != []
    ensures CqeOrder(w.cqes[0], w.streams)
    ensures w.cqes[0].Data? ==>
      var c := w.cqes[0];
      && Consumable(w.pool, c.entry.bid, |c.data|, c.more) && c.entry == w.pool.ring[0] && SegmentDefined(w.pool, c)
      && w.pool.Held(w.pool.ring[0].buf) && w.pool.slots[c.entry.bid] == Some(w.pool.ring[0].buf)
  {
    hide Consumable, PoolOk, Synced, Outside, Uses;
    if w.cqes[0].Data? { ProcessEnabled(w.pool, w.kernel, w.cqes); }
  }

  /** Whether `io_handle_enobufs` lets the pool grow. */
  predicate Grows(w: World, s: nat) {
    && s < |w.streams| && w.streams[s].last == Some(Enobufs) && w.streams[s].op.Some?
    && PendingBytes(w, s) < w.pool.size * 4 && w.streams[s].op.value.level == w.pool.level
  }

  function PendingBytes(w: World, s: nat): int
    requires s < |w.streams|
  {
    |Bytes(w.holds, s, w.streams[s].first, w.streams[s].next)| - w.streams[s].cur
  }

  /** `bp_handle_enobufs` raises an error instead of growing. */
  predicate Starved(w: World, s: nat) {
    Grows(w, s) && w.pool.level >= MAX_LEVEL
  }

  /** `io_process_segments`, `um_op_multishot_results_clear` and `io_handle_enobufs`. An error is raised, once. */
  function DoTake(w: World, s: nat): World
    requires PoolOk(w.pool) && s < |w.streams|
  {
    var x := w.streams[s].(taken := w.streams[s].next, last := None);
    match w.streams[s].last
    case None => w.(streams := w.streams[s := x])
    case Some(Ecanceled) => w.(streams := w.streams[s := x])
    case Some(Error) => w.(streams := w.streams[s := x])
    case Some(Eof) => w.(streams := w.streams[s := x.(eof := true)])
    case Some(Enobufs) =>
      if Starved(w, s) then w.(streams := w.streams[s := x])
      else w.(pool := if Grows(w, s) then Grow(w.pool) else w.pool, streams := w.streams[s := x.(op := None)])
  }

  /** `n` bytes of the head segment, out of its buffer; the segment leaves with its last byte. */
  function DoRead(w: World, s: nat, n: nat): World
    requires Inv(w) && Enabled(w, Read(s, n))
  {
    var x := w.streams[s];
    var h := Segment(s, x.first);
    HeldBy(w, h);
    var from := w.holds[h].off + x.cur;
    var y := x.(consumed := x.consumed + w.pool.Buf(w.holds[h].buf).mem[from..from + n]);
    if x.cur + n == |w.holds[h].data| then
      World(Checkin(w.pool, w.holds[h].buf), w.holds - {h}, w.kernel, w.cqes,
            w.streams[s := y.(first := x.first + 1, cur := 0)])
    else w.(streams := w.streams[s := y.(cur := x.cur + n)])
  }

  lemma HeldBy(w: World, h: Holder)
    requires Inv(w) && h in w.holds
    ensures w.pool.Held(w.holds[h].buf) && SliceOk(w.pool, w.holds[h])
  {
    hide PoolOk, Synced, SliceOk, Outside, Uses, WorkersOk, KeysOk, OrderOk, StreamsOk;
    HolderFacts(w.pool, w.holds, h);
  }

  /** A working buffer for a stream that has none. */
  function WithWorking(w: World, s: nat): World
    requires Inv(w)
  {
    if Working(s) in w.holds then w
    else
      TakeBufferKeeps(w.pool, w.holds, w.kernel, w.cqes, Working(s));
      var (p, b) := Checkout(w.pool);
      w.(pool := p, holds := w.holds[Working(s) := Slice(b, 0, [])])
  }

  /** `data` goes into the working buffer; the segment goes to the stream; a full buffer is given back. */
  function FillWorking(w: World, s: nat, data: seq<Byte>): World
    requires s < |w.streams| && Working(s) in w.holds && w.pool.Held(w.holds[Working(s)].buf)
    requires w.pool.Buf(w.holds[Working(s)].buf).pos + |data| <= |w.pool.Buf(w.holds[Working(s)].buf).mem|
  {
    var x := w.streams[s];
    var b := w.holds[Working(s)].buf;
    var p := Filled(w.pool, b, data);
    var holds := w.holds[Segment(s, x.next) := Slice(b, w.pool.Buf(b).pos, data)];
    var full := |data| == w.pool.Buf(b).len - w.pool.Buf(b).pos;
    World(if full then Checkin(p, b) else p, if full then holds - {Working(s)} else holds, w.kernel, w.cqes,
          w.streams[s := x.(taken := x.next + 1, next := x.next + 1, delivered := x.delivered + data)])
  }

  // ----- What one stream does leaves the others alone

  ghost predicate SameOthers(holds: map<Holder, Slice>, holds': map<Holder, Slice>, s: nat) {
    forall t: nat, k: nat :: t != s ==>
      (Segment(t, k) in holds' <==> Segment(t, k) in holds)
      && (Segment(t, k) in holds ==> holds'[Segment(t, k)] == holds[Segment(t, k)])
  }

  ghost predicate PendingOthers(cqes: seq<Cqe>, cqes': seq<Cqe>, s: nat) {
    forall t: nat :: t != s ==> Pending(cqes', t) == Pending(cqes, t)
  }

  lemma OneStream(w: World, w': World, s: nat)
    requires s < |w.streams| && |w'.streams| == |w.streams| && w'.streams == w.streams[s := w'.streams[s]]
    requires StreamsOk(w.pool.level, w.holds, w.cqes, w.streams) && KeysOk(w.holds, w.streams)
    requires w'.pool.level >= w.pool.level && SameOthers(w.holds, w'.holds, s) && PendingOthers(w.cqes, w'.cqes, s)
    requires StreamOk(w'.pool.level, w'.holds, w'.cqes, s, w'.streams[s])
    requires forall k: nat :: Segment(s, k) in w'.holds <==> w'.streams[s].first <= k < w'.streams[s].next
    ensures StreamsOk(w'.pool.level, w'.holds, w'.cqes, w'.streams) && KeysOk(w'.holds, w'.streams)
  {
    hide StreamOk;
    forall t | 0 <= t < |w'.streams| ensures StreamOk(w'.pool.level, w'.holds, w'.cqes, t, w'.streams[t]) {
      if t != s { OtherStream(w, w', s, t); }
    }
  }

  lemma OtherStream(w: World, w': World, s: nat, t: nat)
    requires t != s && t < |w.streams| && t < |w'.streams| && w'.streams[t] == w.streams[t]
    requires StreamOk(w.pool.level, w.holds, w.cqes, t, w.streams[t])
    requires w'.pool.level >= w.pool.level && SameOthers(w.holds, w'.holds, s) && PendingOthers(w.cqes, w'.cqes, s)
    ensures StreamOk(w'.pool.level, w'.holds, w'.cqes, t, w'.streams[t])
  {
    hide Bytes, Pending;
    var x := w.streams[t];
    BytesSame(w.holds, w'.holds, t, x.first, x.next);
  }

  /** The working buffers are left alone if they are still held and the ring has not taken them. */
  lemma WorkersSame(w: World, w': World)
    requires WorkersOk(w.pool, w.holds, w.streams)
    requires |w'.streams| == |w.streams| && forall s :: 0 <= s < |w.streams| ==> w'.streams[s].ssl == w.streams[s].ssl
    requires forall s: nat :: Working(s) in w'.holds ==>
      && Working(s) in w.holds && w'.holds[Working(s)] == w.holds[Working(s)]
      && LeftAlone(w.pool, w'.pool, w.holds[Working(s)].buf) && !InRing(w'.pool.Slotted(), w.holds[Working(s)].buf)
    ensures WorkersOk(w'.pool, w'.holds, w'.streams)
  {
    hide InRing;
  }

  // ----- Every step keeps the invariant

  lemma StartKeeps(w: World, s: nat)
    requires Inv(w) && Enabled(w, Start(s))
    ensures Inv(DoStart(w, s))
  {
    hide PoolOk, Synced, SlicesOk, Disjoint, CqesOk, Accounted, HeadOpen, StreamOk, EnsureLevel, Extended, CqeOrder,
      KeepsHeld;
    var w' := DoStart(w, s);
    EnsureLevelKeeps(w.pool);
    ExtendedFacts(w.pool, w'.pool);
    UndisturbedKeeps(w.pool, w.holds, w.kernel, w.cqes, w'.pool);
    UndisturbedWorkers(w, w');
    OneStream(w, w', s) by { RestartedStream(w.pool.level, w.holds, w.cqes, s, w.streams[s]); }
    forall i | 0 <= i < |w.cqes| ensures CqeOrder(w.cqes[i], w'.streams) {
      RestartedCqe(w.cqes[i], w.streams, s, w'.streams[s]);
    }
  }

  lemma ExtendedFacts(p: Pool, p': Pool)
    requires Extended(p, p')
    ensures Undisturbed(p, p') && p'.level == p.level
  {
  }

  lemma RestartedStream(level: nat, holds: map<Holder, Slice>, cqes: seq<Cqe>, s: nat, x: Stream)
    requires StreamOk(level, holds, cqes, s, x) && !x.ssl
    ensures StreamOk(level, holds, cqes, s, x.(op := Some(Op(level, true))))
  {
  }

  lemma RestartedCqe(c: Cqe, streams: seq<Stream>, s: nat, x: Stream)
    requires CqeOrder(c, streams) && s < |streams| && streams[s].op.None?
    ensures CqeOrder(c, streams[s := x])
  {
  }

  lemma UndisturbedWorkers(w: World, w': World)
    requires Inv(w) && Undisturbed(w.pool, w'.pool) && w'.holds == w.holds
    requires |w'.streams| == |w.streams| && forall s :: 0 <= s < |w.streams| ==> w'.streams[s].ssl == w.streams[s].ssl
    ensures WorkersOk(w'.pool, w'.holds, w'.streams)
  {
    hide PoolOk, Synced, SlicesOk, Disjoint, CqesOk, HeadOpen, StreamsOk, KeysOk, OrderOk, Outside, Uses, Accounted,
      WorkerOk;
    forall s: nat | Working(s) in w.holds
      ensures LeftAlone(w.pool, w'.pool, w.holds[Working(s)].buf) && !InRing(w'.pool.Slotted(), w.holds[Working(s)].buf)
    {
      HolderFacts(w.pool, w.holds, Working(s));
      WorkerNotCommitted(w.pool, w.holds[Working(s)]);
      NotInExtension(w.pool, w'.pool, w.holds[Working(s)].buf);
    }
    WorkersSame(w, w');
  }

  lemma WorkerNotCommitted(p: Pool, x: Slice)
    requires WorkerOk(p, x)
    ensures !InRing(p.Slotted(), x.buf)
  {
  }

  lemma NotInExtension(p: Pool, p': Pool, b: nat)
    requires Undisturbed(p, p') && p.Held(b) && !InRing(p.Slotted(), b)
    ensures !InRing(p'.Slotted(), b) && LeftAlone(p, p', b)
  {
    hide Outside;
    var n := |p.lost|;
    forall i | 0 <= i < |p'.Slotted()| ensures p'.Slotted()[i].buf != b {
      if i < |p.Slotted()| {
        assert p'.Slotted()[i] == p.Slotted()[i];
      } else {
        assert p'.Slotted()[i] == p'.ring[i - n];
      }
    }
  }

  /** The pool and the kernel agree on what the kernel may report next. */
  lemma ReceiveDefined(w: World, s: nat, data: seq<Byte>, final: bool)
    requires Inv(w) && Enabled(w, Receive(s, data, final))
    ensures Reported(w.kernel, Received(w, s, data)).Some? && w.pool.Live(w.kernel.ring[0].buf)
    ensures w.kernel.pos + |data| <= |w.pool.Buf(w.kernel.ring[0].buf).mem|
  {
    hide PoolOk, Synced, SlicesOk, Disjoint, CqesOk, Accounted, HeadOpen, WorkersOk, KeysOk, OrderOk, StreamsOk, SizeOf;
    KernelRoom(w.pool, w.kernel, w.cqes);
  }

  lemma DoReceiveKeeps(w: World, s: nat, data: seq<Byte>, final: bool)
    requires Inv(w) && Enabled(w, Receive(s, data, final))
    requires Reported(w.kernel, Received(w, s, data)).Some? && w.pool.Live(w.kernel.ring[0].buf)
    requires w.kernel.pos + |data| <= |w.pool.Buf(w.kernel.ring[0].buf).mem|
    ensures Inv(DoReceive(w, s, data, final))
  {
    hide PoolOk, Synced, SlicesOk, Disjoint, CqesOk, Accounted, HeadOpen, StreamOk, CqeOrder, Reported, WorkersOk,
      SizeOf;
    var c := Received(w, s, data);
    var w' := DoReceive(w, s, data, final);
    ReceiveKeeps(w.pool, w.holds, w.kernel, w.cqes, c);
    WrittenWorkers(w, w', c);
    forall t: nat | t != s ensures Pending(w'.cqes, t) == Pending(w.cqes, t) { PendingAppend(w.cqes, c, t); }
    assert PendingOthers(w.cqes, w'.cqes, s);
    ReceivingStream(w.pool.level, w.holds, w.cqes, s, w.streams[s], c, w'.streams[s]);
    OneStream(w, w', s);
    ArmedIsPlain(w, s);
    AppendOrder(w.cqes, w.streams, c, w'.streams[s]);
  }

  lemma WrittenWorkers(w: World, w': World, c: Cqe)
    requires WorkersOk(w.pool, w.holds, w.streams) && c.Data? && w.pool.Live(c.entry.buf)
    requires c.off + |c.data| <= |w.pool.Buf(c.entry.buf).mem| && w'.holds == w.holds
    requires w'.pool == Written(w.pool, c.entry.buf, c.off, c.data)
    requires |w'.streams| == |w.streams| && forall s :: 0 <= s < |w.streams| ==> w'.streams[s].ssl == w.streams[s].ssl
    ensures WorkersOk(w'.pool, w'.holds, w'.streams)
  {
    hide InRing, Overwrite;
  }

  lemma ReceivingStream(level: nat, holds: map<Holder, Slice>, cqes: seq<Cqe>, s: nat, x: Stream, c: Cqe, y: Stream)
    requires StreamOk(level, holds, cqes, s, x) && c.Data? && c.stream == s && Armed(x)
    requires y.op == x.op || y.op == Disarmed(x).op
    requires y == x.(delivered := x.delivered + c.data, op := y.op)
    ensures StreamOk(level, holds, cqes + [c], s, y)
  {
    hide Bytes, Pending;
    PendingAppend(cqes, c, s);
  }

  lemma AppendOrder(cqes: seq<Cqe>, streams: seq<Stream>, c: Cqe, x: Stream)
    requires OrderOk(cqes, streams) && c.stream < |streams| && Armed(streams[c.stream])
    requires var y := streams[c.stream];
      && !y.ssl && x == y.(delivered := x.delivered, op := x.op)
      && x.op.Some? && (x.op.value.armed ==> c.Data?)
    ensures OrderOk(cqes + [c], streams[c.stream := x])
  {
    var cqes' := cqes + [c];
    assert streams[c.stream].last.None?;
    forall i | 0 <= i < |cqes'| ensures CqeOrder(cqes'[i], streams[c.stream := x]) {
      if i < |cqes| { assert CqeOrder(cqes[i], streams); }
    }
  }

  lemma DoTerminalKeeps(w: World, s: nat, c: Cqe)
    requires Inv(w) && s < |w.streams| && Armed(w.streams[s]) && c.stream == s && !c.Data?
    ensures Inv(DoTerminal(w, s, c))
  {
    hide PoolOk, Synced, SlicesOk, Disjoint, CqesOk, Accounted, HeadOpen, StreamOk, CqeOrder, WorkersOk;
    var w' := DoTerminal(w, s, c);
    AppendTerminal(w, c);
    SameWorkers(w, w');
    forall t: nat ensures Pending(w'.cqes, t) == Pending(w.cqes, t) { PendingAppend(w.cqes, c, t); }
    assert PendingOthers(w.cqes, w'.cqes, s);
    ArmedIsPlain(w, s);
    DisarmedStream(w.pool.level, w.holds, w.cqes, w'.cqes, s, w.streams[s]);
    OneStream(w, w', s);
    AppendOrder(w.cqes, w.streams, c, w'.streams[s]);
  }

  lemma ArmedIsPlain(w: World, s: nat)
    requires Inv(w) && s < |w.streams| && Armed(w.streams[s])
    ensures !w.streams[s].ssl
  {
    hide PoolOk, Synced, SlicesOk, Disjoint, CqesOk, Accounted, HeadOpen, KeysOk, OrderOk, WorkersOk;
    assert StreamOk(w.pool.level, w.holds, w.cqes, s, w.streams[s]);
  }

  lemma AppendTerminal(w: World, c: Cqe)
    requires Sound(w.pool, w.holds, w.kernel, w.cqes) && !c.Data?
    ensures Sound(w.pool, w.holds, w.kernel, w.cqes + [c])
  {
    hide PoolOk, SlicesOk, Disjoint, Accounted, HeadOpen;
    ReplayAppend(Tail(w.pool), w.cqes, c);
  }

  lemma SameWorkers(w: World, w': World)
    requires WorkersOk(w.pool, w.holds, w.streams) && w'.pool == w.pool && w'.holds == w.holds
    requires |w'.streams| == |w.streams| && forall s :: 0 <= s < |w.streams| ==> w'.streams[s].ssl == w.streams[s].ssl
    ensures WorkersOk(w'.pool, w'.holds, w'.streams)
  {
  }

  lemma DisarmedStream(level: nat, holds: map<Holder, Slice>, cqes: seq<Cqe>, cqes': seq<Cqe>, s: nat, x: Stream)
    requires StreamOk(level, holds, cqes, s, x) && Armed(x) && Pending(cqes', s) == Pending(cqes, s)
    ensures StreamOk(level, holds, cqes', s, Disarmed(x))
  {
    hide Bytes, Pending;
  }

  lemma DoProcessKeeps(w: World)
    requires Inv(w) && Enabled(w, Process)
    ensures Inv(DoProcess(w))
  {
    if !w.cqes[0].Data? { ProcessTerminalKeeps(w); }
    else if DiscardsData(w) { DiscardDataKeeps(w); }
    else { ProcessDataKeeps(w); }
  }

  lemma ProcessTerminalKeeps(w: World)
    requires Inv(w) && w.cqes != [] && !w.cqes[0].Data?
    ensures Inv(DoProcess(w))
  {
    hide PoolOk, Synced, SlicesOk, Disjoint, CqesOk, Accounted, HeadOpen, StreamOk, CqeOrder, WorkersOk, Consumable;
    FirstCqe(w);
    var s := w.cqes[0].stream;
    FirstOrder(w.cqes, w.streams);
    var w' := DoProcess(w);
    DropTerminal(w);
    SameWorkers(w, w');
    assert PendingOthers(w.cqes, w'.cqes, s);
    EndedStream(w.pool.level, w.holds, w.cqes, s, w.streams[s], w'.streams[s]);
    OneStream(w, w', s);
    ProcessedOrder(w.cqes, w.streams, w'.streams[s]);
  }

  lemma FirstOrder(cqes: seq<Cqe>, streams: seq<Stream>)
    requires OrderOk(cqes, streams) && cqes != []
    ensures cqes[0].stream < |streams| && streams[cqes[0].stream].op.Some? && !streams[cqes[0].stream].ssl
    ensures streams[cqes[0].stream].last.None?
  {
    assert CqeOrder(cqes[0], streams);
  }

  lemma DropTerminal(w: World)
    requires Sound(w.pool, w.holds, w.kernel, w.cqes) && w.cqes != [] && !w.cqes[0].Data?
    ensures Sound(w.pool, w.holds, w.kernel, w.cqes[1..])
  {
    hide PoolOk, SlicesOk, Disjoint, Accounted, HeadOpen;
    assert forall i :: 0 <= i < |w.cqes[1..]| ==> w.cqes[1..][i] == w.cqes[i + 1];
  }

  lemma EndedStream(level: nat, holds: map<Holder, Slice>, cqes: seq<Cqe>, s: nat, x: Stream, y: Stream)
    requires StreamOk(level, holds, cqes, s, x) && cqes != [] && !cqes[0].Data? && !x.ssl
    requires y == x.(last := y.last, op := y.op) && (y.op == x.op || y.op.None?)
    ensures StreamOk(level, holds, cqes[1..], s, y)
  {
    hide Bytes;
  }

  lemma ProcessedOrder(cqes: seq<Cqe>, streams: seq<Stream>, x: Stream)
    requires OrderOk(cqes, streams) && cqes != [] && cqes[0].stream < |streams|
    requires var y := streams[cqes[0].stream];
      || (cqes[0].Data? && x == y.(next := x.next, exact := x.exact))
      || (!cqes[0].Data? && (x == y.(last := x.last) || x == y.(op := None)))
    ensures OrderOk(cqes[1..], streams[cqes[0].stream := x])
  {
    assert CqeOrder(cqes[0], streams);
    forall i | 0 <= i < |cqes[1..]| ensures CqeOrder(cqes[1..][i], streams[cqes[0].stream := x]) {
      assert cqes[1..][i] == cqes[i + 1];
      assert CqeOrder(cqes[i + 1], streams);
    }
  }

  lemma ProcessDataKeeps(w: World)
    requires Inv(w) && w.cqes != [] && w.cqes[0].Data? && !DiscardsData(w)
    ensures Inv(DoProcess(w))
  {
    hide PoolOk, Synced, SlicesOk, Disjoint, CqesOk, Accounted, HeadOpen, StreamOk, CqeOrder, WorkersOk, Consumable,
      ProcessResult, Processed, Bytes, Outside, Uses;
    FirstCqe(w);
    FirstOrder(w.cqes, w.streams);
    var c := w.cqes[0];
    var s := c.stream;
    var x := w.streams[s];
    var h := Segment(s, x.next);
    ProcessKeeps(w.pool, w.holds, w.kernel, w.cqes, h);
    ProcessResultKeeps(w.pool, c.entry.bid, |c.data|, c.more);
    var w' := DoProcess(w);
    ProcessDataIs(w);
    ProcessedLevel(w.pool, w'.pool, |c.data|, c.more);
    ProcessedWorkers(w, w', |c.data|, c.more, h);
    assert PendingOthers(w.cqes, w'.cqes, s);
    assert SameOthers(w.holds, w'.holds, s);
    SegmentsOrdered(w, s);
    NextSegment(w);
    ExtendedStream(w.pool.level, w.holds, w.cqes, s, x, w'.holds[h], w'.streams[s].exact);
    OneStream(w, w', s);
    ProcessedOrder(w.cqes, w.streams, w'.streams[s]);
  }

  /** Data that is thrown away matters to nobody but the stream that it was for, and that one is closed. */
  lemma DiscardDataKeeps(w: World)
    requires Inv(w) && DiscardsData(w)
    ensures w.pool.ring != [] && DoProcess(w) == w.(pool := DoProcess(w).pool, cqes := w.cqes[1..])
    ensures DoProcess(w).pool == Throw(w.pool, |w.cqes[0].data|, w.cqes[0].more)
    ensures Inv(DoProcess(w))
  {
    hide PoolOk, Synced, SlicesOk, Disjoint, CqesOk, Accounted, HeadOpen, CqeOrder, WorkersOk, Consumable, Bytes,
      Outside, Uses, Throw;
    FirstCqe(w);
    FirstOrder(w.cqes, w.streams);
    var c := w.cqes[0];
    var w' := DoProcess(w);
    ThrowSound(w.pool, w.holds, w.kernel, w.cqes);
    ThrowKeeps(w.pool, c.entry.bid, |c.data|, c.more);
    ThrownMemory(w.pool, |c.data|, c.more);
    ThrownFields(w.pool, |c.data|, c.more);
    ThrownWorkers(w, w');
    assert PendingOthers(w.cqes, w'.cqes, c.stream);
    assert StreamOk(w.pool.level, w.holds, w.cqes, c.stream, w.streams[c.stream]);
    assert w'.streams == w.streams[c.stream := w'.streams[c.stream]];
    OneStream(w, w', c.stream);
    ProcessedOrder(w.cqes, w.streams, w'.streams[c.stream]);
  }

  lemma ThrownFields(p: Pool, n: nat, more: bool)
    requires p.ring != []
    ensures var p' := Throw(p, n, more); p'.level == p.level && p'.gen == p.gen && p'.thrown == p.thrown + n
  {
  }

  lemma ThrownWorkers(w: World, w': World)
    requires WorkersOk(w.pool, w.holds, w.streams) && w'.holds == w.holds && w'.streams == w.streams
    requires w'.pool.bufs == w.pool.bufs && w'.pool.Slotted() == w.pool.Slotted()
    ensures WorkersOk(w'.pool, w'.holds, w'.streams)
  {
    hide InRing;
    forall s: nat | Working(s) in w.holds ensures WorkerOk(w'.pool, w'.holds[Working(s)]) {
      assert WorkerOk(w.pool, w.holds[Working(s)]);
    }
  }

  lemma SegmentsOrdered(w: World, s: nat)
    requires StreamsOk(w.pool.level, w.holds, w.cqes, w.streams) && s < |w.streams|
    ensures w.streams[s].first <= w.streams[s].taken <= w.streams[s].next
  {
    assert StreamOk(w.pool.level, w.holds, w.cqes, s, w.streams[s]);
  }

  lemma ProcessDataIs(w: World)
    requires Inv(w) && w.cqes != [] && w.cqes[0].Data? && !DiscardsData(w)
    ensures var c := w.cqes[0];
      && Consumable(w.pool, c.entry.bid, |c.data|, c.more) && w.pool.Held(w.pool.ring[0].buf) && c.data != []
      && c.stream < |w.streams| && w.pool.ring != [] && SegmentDefined(w.pool, c)
    ensures var c := w.cqes[0];
      var x := w.streams[c.stream];
      var p := ProcessResult(w.pool, c.entry.bid, |c.data|, c.more);
      DoProcess(w) == World(p, w.holds[Segment(c.stream, x.next) := SegmentFor(w.pool, c)],
        w.kernel.(ring := w.kernel.ring + Fresh(p.ring, |RestOfRing(w.pool, c.more)|)), w.cqes[1..],
        w.streams[c.stream := x.(next := x.next + 1, exact := x.exact && InStep(w.pool))])
  {
    hide PoolOk, Synced, SlicesOk, Disjoint, CqesOk, Accounted, HeadOpen, StreamsOk, WorkersOk, OrderOk, KeysOk,
      ProcessResult, InStep;
    FirstCqe(w);
  }

  /** The bytes of the next segment are those received if the pool's cursor is in step. */
  lemma NextSegment(w: World)
    requires Inv(w) && w.cqes != [] && w.cqes[0].Data?
    ensures SegmentDefined(w.pool, w.cqes[0])
    ensures var x := SegmentFor(w.pool, w.cqes[0]);
      x.data != [] && (InStep(w.pool) ==> x.data == w.cqes[0].data)
  {
    hide PoolOk, Synced, InStep, Consumable, SegmentFor, CqeOk;
    FirstCqe(w);
    SegmentRightIff(w.pool, w.kernel, w.cqes);
    SomeData(w.pool, w.cqes[0]);
  }

  lemma SomeData(p: Pool, c: Cqe)
    requires c.Data? && Consumable(p, c.entry.bid, |c.data|, c.more)
    ensures c.data != []
  {
  }

  lemma ProcessedLevel(p: Pool, p': Pool, n: nat, more: bool)
    requires p.ring != [] && p.Live(p.ring[0].buf) && Processed(p, p', n, more)
    ensures p'.level == p.level
  {
  }

  lemma ExtendedStream(level: nat, holds: map<Holder, Slice>, cqes: seq<Cqe>, s: nat, x: Stream, y: Slice, exact: bool)
    requires StreamOk(level, holds, cqes, s, x) && Segment(s, x.next) !in holds && !x.ssl && !x.closed
    requires cqes != [] && cqes[0].Data? && cqes[0].stream == s && y.data != []
    requires exact ==> x.exact && y.data == cqes[0].data
    ensures StreamOk(level, holds[Segment(s, x.next) := y], cqes[1..], s, x.(next := x.next + 1, exact := exact))
  {
    hide Bytes, After, Pending;
    BytesAppend(holds, s, x.first, x.next, y);
    if x.first < x.next { BytesFirst(holds, s, x.first, x.next); } else { NoBytes(holds, s, x.first, x.next); }
    AfterAppend(Bytes(holds, s, x.first, x.next), y.data, x.cur);
    if exact && !x.closed {
      PendingFirst(cqes, s);
      Regroup(x.consumed, After(Bytes(holds, s, x.first, x.next), x.cur), y.data, Pending(cqes[1..], s));
    }
  }

  lemma NoBytes(holds: map<Holder, Slice>, s: nat, i: nat, j: nat)
    requires i >= j
    ensures Bytes(holds, s, i, j) == []
  {
  }

  lemma PendingFirst(cqes: seq<Cqe>, s: nat)
    requires cqes != [] && cqes[0].Data? && cqes[0].stream == s
    ensures Pending(cqes, s) == cqes[0].data + Pending(cqes[1..], s)
  {
  }

  lemma Regroup(a: seq<Byte>, b: seq<Byte>, c: seq<Byte>, d: seq<Byte>)
    ensures a + b + (c + d) == a + (b + c) + d
  {
  }

  lemma BytesFirst(holds: map<Holder, Slice>, s: nat, i: nat, j: nat)
    requires i < j && Segment(s, i) in holds
    ensures Bytes(holds, s, i, j) == holds[Segment(s, i)].data + Bytes(holds, s, i + 1, j)
    ensures |holds[Segment(s, i)].data| <= |Bytes(holds, s, i, j)|
  {
  }

  lemma AfterAppend(f: seq<Byte>, g: seq<Byte>, n: nat)
    requires n <= |f|
    ensures After(f + g, n) == After(f, n) + g
  {
  }

  /** A working buffer is neither the oldest committed one nor one of those that were committed anew. */
  lemma ProcessedWorkers(w: World, w': World, n: nat, more: bool, h: Holder)
    requires Inv(w) && w.pool.ring != [] && w.pool.Live(w.pool.ring[0].buf) && Processed(w.pool, w'.pool, n, more)
    requires h.Segment? && h in w'.holds && w'.holds == w.holds[h := w'.holds[h]]
    requires |w'.streams| == |w.streams| && forall s :: 0 <= s < |w.streams| ==> w'.streams[s].ssl == w.streams[s].ssl
    ensures WorkersOk(w'.pool, w'.holds, w'.streams)
  {
    hide PoolOk, Synced, SlicesOk, Disjoint, CqesOk, HeadOpen, StreamsOk, KeysOk, OrderOk, Outside, Uses, Accounted,
      WorkerOk, Processed;
    forall s: nat | Working(s) in w.holds
      ensures LeftAlone(w.pool, w'.pool, w.holds[Working(s)].buf) && !InRing(w'.pool.Slotted(), w.holds[Working(s)].buf)
    {
      HolderFacts(w.pool, w.holds, Working(s));
      WorkerNotCommitted(w.pool, w.holds[Working(s)]);
      NotInProcessed(w.pool, w'.pool, n, more, w.holds[Working(s)].buf);
    }
    WorkersSame(w, w');
  }

  lemma NotInProcessed(p: Pool, p': Pool, n: nat, more: bool, b: nat)
    requires p.ring != [] && p.Live(p.ring[0].buf) && Processed(p, p', n, more)
    requires p.Held(b) && !InRing(p.Slotted(), b)
    ensures !InRing(p'.Slotted(), b) && LeftAlone(p, p', b)
  {
    hide Outside;
    var m := |p.lost|;
    assert p.Slotted()[m] == p.ring[0];
    forall i | 0 <= i < |p'.Slotted()| ensures p'.Slotted()[i].buf != b {
      if i < m {
        assert p'.Slotted()[i] == p.Slotted()[i];
      } else {
        assert p'.Slotted()[i] == p'.ring[i - m];
        NotInRest(p, p', n, more, b, i - m);
      }
    }
  }

  lemma NotInRest(p: Pool, p': Pool, n: nat, more: bool, b: nat, i: nat)
    requires p.ring != [] && p.Live(p.ring[0].buf) && Processed(p, p', n, more)
    requires p.Held(b) && !InRing(p.Slotted(), b) && i < |p'.ring|
    ensures p'.ring[i].buf != b
  {
    hide Outside;
    var rest := RestOfRing(p, more);
    if i < |rest| {
      var j := if more then i else i + 1;
      assert p'.ring[i] == rest[i] == p.ring[j] == p.Slotted()[|p.lost| + j];
    }
  }

  lemma DoTakeKeeps(w: World, s: nat)
    requires Inv(w) && s < |w.streams|
    ensures Inv(DoTake(w, s))
  {
    hide PoolOk, Synced, SlicesOk, Disjoint, CqesOk, Accounted, HeadOpen, StreamOk, CqeOrder, WorkersOk, Grow, Bytes,
      KeepsHeld, Outside;
    var w' := DoTake(w, s);
    if w'.pool != w.pool {
      GrowKeeps(w.pool);
      GrowUndisturbs(w.pool);
      UndisturbedKeeps(w.pool, w.holds, w.kernel, w.cqes, w'.pool);
      assert w.kernel.ring + Fresh(w'.pool.ring, |w.pool.ring|) == w.kernel.ring;
      UndisturbedWorkers(w, w');
    } else {
      SameWorkers(w, w');
    }
    TakingStream(w, s, w');
    OneStream(w, w', s);
    TakenOrder(w.cqes, w.streams, s, w'.streams[s]);
  }

  lemma GrowUndisturbs(p: Pool)
    requires PoolOk(p) && p.level < MAX_LEVEL
    ensures Undisturbed(p, Grow(p)) && Grow(p).ring == p.ring && Grow(p).level == 2 * p.level
  {
    hide PoolOk, Grow, Outside;
    GrowKeeps(p);
  }

  lemma TakingStream(w: World, s: nat, w': World)
    requires s < |w.streams| && StreamsOk(w.pool.level, w.holds, w.cqes, w.streams) && w'.pool.level >= w.pool.level
    requires var x := w.streams[s]; |w'.streams| == |w.streams| && var y := w'.streams[s];
      y == x.(taken := x.next, last := None, eof := y.eof, op := y.op) && (y.op == x.op || y.op.None?)
    ensures StreamOk(w'.pool.level, w.holds, w.cqes, s, w'.streams[s])
  {
    hide Bytes, Pending;
    assert StreamOk(w.pool.level, w.holds, w.cqes, s, w.streams[s]);
  }

  lemma TakenOrder(cqes: seq<Cqe>, streams: seq<Stream>, s: nat, y: Stream)
    requires OrderOk(cqes, streams) && s < |streams|
    requires var x := streams[s]; y == x.(taken := y.taken, last := None, eof := y.eof, op := y.op)
    requires streams[s].last.None? ==> y.op == streams[s].op
    ensures OrderOk(cqes, streams[s := y])
  {
    forall i | 0 <= i < |cqes| ensures CqeOrder(cqes[i], streams[s := y]) {
      assert CqeOrder(cqes[i], streams);
    }
  }

  lemma DoReadKeeps(w: World, s: nat, n: nat)
    requires Inv(w) && Enabled(w, Read(s, n))
    ensures Inv(DoRead(w, s, n))
  {
    hide PoolOk, Synced, SlicesOk, Disjoint, CqesOk, Accounted, HeadOpen, StreamOk, CqeOrder, WorkersOk, Checkin, Bytes,
      SliceOk, CheckedIn;
    var x := w.streams[s];
    var h := Segment(s, x.first);
    HeldBy(w, h);
    ReadIsData(w.pool, w.holds[h], x.cur, n);
    var w' := DoRead(w, s, n);
    if x.cur + n == |w.holds[h].data| {
      DroppedSegment(w, w', s);
      ReadLastStream(w.pool.level, w.holds, w.cqes, s, x);
      assert w.holds[h].data[x.cur..x.cur + n] == w.holds[h].data[x.cur..];
      assert SameOthers(w.holds, w'.holds, s);
    } else {
      SameWorkers(w, w');
      ReadStream(w.pool.level, w.holds, w.cqes, s, x, n);
    }
    OneStream(w, w', s);
    SameOrder(w.cqes, w.streams, s, w'.streams[s]);
  }

  /** What is read out of memory is what was received. */
  lemma ReadIsData(p: Pool, x: Slice, cur: nat, n: nat)
    requires SliceOk(p, x) && cur + n <= |x.data|
    ensures p.Live(x.buf) && x.off + cur + n <= |p.Buf(x.buf).mem|
    ensures p.Buf(x.buf).mem[x.off + cur..x.off + cur + n] == x.data[cur..cur + n]
  {
    assert x.data[cur..cur + n] == p.Buf(x.buf).mem[x.off..x.off + |x.data|][cur..cur + n];
  }

  lemma ReadStream(level: nat, holds: map<Holder, Slice>, cqes: seq<Cqe>, s: nat, x: Stream, n: nat)
    requires StreamOk(level, holds, cqes, s, x) && !x.closed && x.first < x.next
    requires x.cur + n < |holds[Segment(s, x.first)].data|
    ensures StreamOk(level, holds, cqes, s, x.(cur := x.cur + n,
      consumed := x.consumed + holds[Segment(s, x.first)].data[x.cur..x.cur + n]))
  {
    hide Pending;
    BytesFirst(holds, s, x.first, x.next);
    var data := holds[Segment(s, x.first)].data;
    var all := Bytes(holds, s, x.first, x.next);
    hide Bytes;
    assert all[x.cur..] == data[x.cur..x.cur + n] + all[x.cur + n..];
  }

  lemma ReadLastStream(level: nat, holds: map<Holder, Slice>, cqes: seq<Cqe>, s: nat, x: Stream)
    requires StreamOk(level, holds, cqes, s, x) && !x.closed && x.first < x.taken
    ensures Segment(s, x.first) in holds && x.cur < |holds[Segment(s, x.first)].data|
    ensures var data := holds[Segment(s, x.first)].data;
      StreamOk(level, holds - {Segment(s, x.first)}, cqes, s,
        x.(first := x.first + 1, cur := 0, consumed := x.consumed + data[x.cur..]))
  {
    hide Pending, Bytes;
    var h := Segment(s, x.first);
    var data := holds[h].data;
    var rest := Bytes(holds, s, x.first + 1, x.next);
    BytesFirst(holds, s, x.first, x.next);
    BytesSame(holds, holds - {h}, s, x.first + 1, x.next);
    assert (data + rest)[x.cur..] == data[x.cur..] + rest;
    assert After(rest, 0) == rest;
  }

  /** The head segment of stream `s` has gone, and its buffer has been given back. */
  lemma DroppedSegment(w: World, w': World, s: nat)
    requires Inv(w) && s < |w.streams| && Segment(s, w.streams[s].first) in w.holds
    requires w.pool.Held(w.holds[Segment(s, w.streams[s].first)].buf)
    requires w'.pool == Checkin(w.pool, w.holds[Segment(s, w.streams[s].first)].buf)
    requires w'.holds == w.holds - {Segment(s, w.streams[s].first)} && w'.kernel == w.kernel && w'.cqes == w.cqes
    requires |w'.streams| == |w.streams| && forall s :: 0 <= s < |w.streams| ==> w'.streams[s].ssl == w.streams[s].ssl
    ensures Sound(w'.pool, w'.holds, w'.kernel, w'.cqes) && WorkersOk(w'.pool, w'.holds, w'.streams)
    ensures w'.pool.level == w.pool.level
  {
    Dropped(w, w', Segment(s, w.streams[s].first));
  }

  lemma Dropped(w: World, w': World, h: Holder)
    requires Inv(w) && h in w.holds && w.pool.Held(w.holds[h].buf)
    requires w'.pool == Checkin(w.pool, w.holds[h].buf) && w'.holds == w.holds - {h}
    requires w'.kernel == w.kernel && w'.cqes == w.cqes
    requires |w'.streams| == |w.streams| && forall s :: 0 <= s < |w.streams| ==> w'.streams[s].ssl == w.streams[s].ssl
    ensures Sound(w'.pool, w'.holds, w'.kernel, w'.cqes) && WorkersOk(w'.pool, w'.holds, w'.streams)
    ensures w'.pool.level == w.pool.level
  {
    hide PoolOk, Synced, SlicesOk, Disjoint, CqesOk, HeadOpen, StreamsOk, KeysOk, OrderOk, Outside, Uses, Accounted,
      WorkerOk, Checkin, CheckedIn;
    GiveBackKeeps(w.pool, w.holds, w.kernel, w.cqes, h);
    CheckedInFields(w.pool, w'.pool, w.holds[h].buf);
    forall s: nat | Working(s) in w'.holds
      ensures LeftAlone(w.pool, w'.pool, w.holds[Working(s)].buf) && !InRing(w'.pool.Slotted(), w.holds[Working(s)].buf)
    {
      HolderFacts(w'.pool, w'.holds, Working(s));
      CheckedInFrame(w.pool, w'.pool, w.holds[h].buf, w.holds[Working(s)].buf);
      WorkerNotCommitted(w.pool, w.holds[Working(s)]);
    }
    WorkersSame(w, w');
  }

  /** Nothing that the order of completions depends on has changed. */
  lemma SameOrder(cqes: seq<Cqe>, streams: seq<Stream>, s: nat, y: Stream)
    requires OrderOk(cqes, streams) && s < |streams|
    requires var x := streams[s]; y.ssl == x.ssl && y.closed == x.closed && y.op == x.op && y.last == x.last
    ensures OrderOk(cqes, streams[s := y])
  {
    forall i | 0 <= i < |cqes| ensures CqeOrder(cqes[i], streams[s := y]) {
      assert CqeOrder(cqes[i], streams);
    }
  }

  /** `io_clear` up to its loop: the results are taken, ENOBUFS or not, and the operation is left to the kernel.
      After an unseen error result it raises instead, as TakeResults does. */
  function DoClose(w: World, s: nat): World
    requires s < |w.streams|
  {
    var x := w.streams[s];
    w.(streams := w.streams[s := x.(taken := x.next, last := None, closed := true)])
  }

  lemma DoCloseKeeps(w: World, s: nat)
    requires Inv(w) && s < |w.streams|
    ensures Inv(DoClose(w, s))
  {
    hide PoolOk, Synced, SlicesOk, Disjoint, CqesOk, Accounted, HeadOpen, CqeOrder, WorkersOk, Bytes, Pending;
    var w' := DoClose(w, s);
    SameWorkers(w, w');
    assert StreamOk(w.pool.level, w.holds, w.cqes, s, w.streams[s]);
    OneStream(w, w', s);
    ClosedOrder(w.cqes, w.streams, s, w'.streams[s]);
  }

  lemma ClosedOrder(cqes: seq<Cqe>, streams: seq<Stream>, s: nat, y: Stream)
    requires OrderOk(cqes, streams) && s < |streams|
    requires var x := streams[s]; y == x.(taken := y.taken, last := None, closed := true)
    ensures OrderOk(cqes, streams[s := y])
  {
    forall i | 0 <= i < |cqes| ensures CqeOrder(cqes[i], streams[s := y]) {
      assert CqeOrder(cqes[i], streams);
    }
  }

  /** A segment of a closed stream is given back. */
  function DoDrop(w: World, s: nat): World
    requires Inv(w) && Enabled(w, Drop(s))
  {
    var x := w.streams[s];
    var h := Segment(s, x.first);
    assert h in w.holds;
    HeldBy(w, h);
    World(Checkin(w.pool, w.holds[h].buf), w.holds - {h}, w.kernel, w.cqes,
          w.streams[s := x.(first := x.first + 1, taken := if x.taken > x.first then x.taken else x.first + 1)])
  }

  lemma DoDropKeeps(w: World, s: nat)
    requires Inv(w) && Enabled(w, Drop(s))
    ensures Inv(DoDrop(w, s))
  {
    hide PoolOk, Synced, SlicesOk, Disjoint, CqesOk, Accounted, HeadOpen, CqeOrder, WorkersOk, Checkin, Bytes, Pending;
    var x := w.streams[s];
    var h := Segment(s, x.first);
    var w' := DoDrop(w, s);
    HeldBy(w, h);
    DroppedSegment(w, w', s);
    assert SameOthers(w.holds, w'.holds, s);
    assert StreamOk(w.pool.level, w.holds, w.cqes, s, x);
    OneStream(w, w', s);
    SameOrder(w.cqes, w.streams, s, w'.streams[s]);
  }

  function DoDropWorking(w: World, s: nat): World
    requires Inv(w) && Enabled(w, DropWorking(s))
  {
    HeldBy(w, Working(s));
    w.(pool := Checkin(w.pool, w.holds[Working(s)].buf), holds := w.holds - {Working(s)})
  }

  lemma DoDropWorkingKeeps(w: World, s: nat)
    requires Inv(w) && Enabled(w, DropWorking(s))
    ensures Inv(DoDropWorking(w, s))
  {
    hide PoolOk, Synced, SlicesOk, Disjoint, CqesOk, Accounted, HeadOpen, CqeOrder, WorkersOk, Checkin, StreamOk;
    HeldBy(w, Working(s));
    var w' := DoDropWorking(w, s);
    Dropped(w, w', Working(s));
    assert forall t: nat :: SameOthers(w.holds, w'.holds, t);
    SameStreams(w, w');
  }

  /** The streams do not depend on working buffers. */
  lemma SameStreams(w: World, w': World)
    requires StreamsOk(w.pool.level, w.holds, w.cqes, w.streams) && KeysOk(w.holds, w.streams)
    requires w'.streams == w.streams && w'.cqes == w.cqes && w'.pool.level == w.pool.level
    requires forall t: nat :: SameOthers(w.holds, w'.holds, t)
    ensures StreamsOk(w'.pool.level, w'.holds, w'.cqes, w'.streams) && KeysOk(w'.holds, w'.streams)
  {
    hide StreamOk;
    forall t | 0 <= t < |w'.streams| ensures StreamOk(w'.pool.level, w'.holds, w'.cqes, t, w'.streams[t]) {
      assert SameOthers(w.holds, w'.holds, t + 1);
      OtherStream(w, w', t + 1, t);
    }
    forall t: nat, k: nat ensures Segment(t, k) in w'.holds <==> Segment(t, k) in w.holds {
      assert SameOthers(w.holds, w'.holds, t + 1);
    }
  }

  // ----- Streams that read into a buffer of their own

  lemma WithWorkingKeeps(w: World, s: nat)
    requires Inv(w) && s < |w.streams| && w.streams[s].ssl
    ensures Inv(WithWorking(w, s)) && WithWorking(w, s).streams == w.streams && Working(s) in WithWorking(w, s).holds
    ensures var w' := WithWorking(w, s);
      var b := w'.holds[Working(s)].buf;
      && w'.pool.Held(b) && w'.pool.Buf(b).len - w'.pool.Buf(b).pos == RoomFor(w, s)
      && |w'.pool.Buf(b).mem| == w'.pool.Buf(b).len
  {
    if Working(s) in w.holds {
      HeldBy(w, Working(s));
      WithinBuffers(w.pool);
    } else {
      TakeWorkingKeeps(w, s);
    }
  }

  lemma TakeWorkingKeeps(w: World, s: nat)
    requires Inv(w) && s < |w.streams| && w.streams[s].ssl && Working(s) !in w.holds
    ensures var w' := WithWorking(w, s);
      Inv(w') && w'.streams == w.streams && Working(s) in w'.holds
    ensures var w' := WithWorking(w, s);
      var b := w'.holds[Working(s)].buf;
      && w'.pool.Held(b) && w'.pool.Buf(b).len - w'.pool.Buf(b).pos == w.pool.size
      && |w'.pool.Buf(b).mem| == w'.pool.Buf(b).len
  {
    hide PoolOk, Synced, SlicesOk, Disjoint, CqesOk, Accounted, HeadOpen, StreamOk, OrderOk, CqeOrder, WorkersOk,
      Checkout, CheckedOut;
    var h := Working(s);
    TakeBufferKeeps(w.pool, w.holds, w.kernel, w.cqes, h);
    var (p, b) := Checkout(w.pool);
    var w' := WithWorking(w, s);
    assert w' == w.(pool := p, holds := w.holds[h := Slice(b, 0, [])]);
    CheckedOutFrame(w.pool, p, b);
    CheckedOutRoom(w.pool, p, b);
    WithinBuffers(p);
    assert forall t: nat :: SameOthers(w.holds, w'.holds, t);
    SameStreams(w, w');
    TakenWorkers(w, w', s);
  }

  lemma CheckedOutRoom(p: Pool, p': Pool, b: nat)
    requires CheckedOut(p, p', b) && PoolOk(p)
    ensures p'.Held(b) && p'.Buf(b).len == p.size > 0 && p'.Buf(b).pos == 0 && !p.Held(b) && !InRing(p'.Slotted(), b)
  {
  }

  lemma TakenWorkers(w: World, w': World, s: nat)
    requires Inv(w) && Working(s) in w'.holds && Working(s) !in w.holds
    requires w'.holds == w.holds[Working(s) := w'.holds[Working(s)]]
    requires s < |w.streams| && w.streams[s].ssl && w'.streams == w.streams
    requires CheckedOut(w.pool, w'.pool, w'.holds[Working(s)].buf) && WorkerOk(w'.pool, w'.holds[Working(s)])
    ensures WorkersOk(w'.pool, w'.holds, w'.streams)
  {
    hide PoolOk, Synced, SlicesOk, Disjoint, CqesOk, HeadOpen, StreamsOk, KeysOk, OrderOk, Outside, Uses, Accounted,
      InRing;
    var b := w'.holds[Working(s)].buf;
    forall t: nat | t != s && Working(t) in w'.holds
      ensures w.holds[Working(t)].buf != b && WorkerOk(w'.pool, w'.holds[Working(t)])
    {
      HolderFacts(w.pool, w.holds, Working(t));
      assert WorkerOk(w.pool, w.holds[Working(t)]);
    }
  }

  /** `FillWorking` without giving back a full buffer. */
  function Filling(w: World, s: nat, data: seq<Byte>): World
    requires s < |w.streams| && Working(s) in w.holds && w.pool.Held(w.holds[Working(s)].buf)
    requires w.pool.Buf(w.holds[Working(s)].buf).pos + |data| <= |w.pool.Buf(w.holds[Working(s)].buf).mem|
  {
    var x := w.streams[s];
    var b := w.holds[Working(s)].buf;
    World(Filled(w.pool, b, data), w.holds[Segment(s, x.next) := Slice(b, w.pool.Buf(b).pos, data)], w.kernel, w.cqes,
          w.streams[s := x.(taken := x.next + 1, next := x.next + 1, delivered := x.delivered + data)])
  }

  lemma NothingPending(cqes: seq<Cqe>, streams: seq<Stream>, s: nat)
    requires OrderOk(cqes, streams) && s < |streams| && streams[s].ssl
    ensures Pending(cqes, s) == []
  {
    forall i | 0 <= i < |cqes| ensures cqes[i].stream != s {
      assert CqeOrder(cqes[i], streams);
    }
    PendingNone(cqes, s);
  }

  lemma FillingStream(level: nat, holds: map<Holder, Slice>, cqes: seq<Cqe>, s: nat, x: Stream, y: Slice)
    requires StreamOk(level, holds, cqes, s, x) && Segment(s, x.next) !in holds && x.ssl && !x.closed
    requires Pending(cqes, s) == [] && y.data != []
    ensures StreamOk(level, holds[Segment(s, x.next) := y], cqes, s,
      x.(taken := x.next + 1, next := x.next + 1, delivered := x.delivered + y.data))
  {
    hide Bytes, Pending, After;
    BytesAppend(holds, s, x.first, x.next, y);
    if x.first < x.next { BytesFirst(holds, s, x.first, x.next); }
    AfterAppend(Bytes(holds, s, x.first, x.next), y.data, x.cur);
  }

  /** All that the invariant asks, but for room in the working buffer of stream `s`. */
  lemma FillingKeeps(w: World, s: nat, data: seq<Byte>)
    requires Inv(w) && s < |w.streams| && w.streams[s].ssl && !w.streams[s].closed && data != []
    requires Working(s) in w.holds && w.pool.Held(w.holds[Working(s)].buf)
    requires var x := w.pool.Buf(w.holds[Working(s)].buf); x.pos + |data| <= x.len == |x.mem|
    ensures var w' := Filling(w, s, data);
      && Sound(w'.pool, w'.holds, w'.kernel, w'.cqes) && WorkersOk(w'.pool, w'.holds - {Working(s)}, w'.streams)
      && KeysOk(w'.holds, w'.streams) && OrderOk(w'.cqes, w'.streams)
      && StreamsOk(w'.pool.level, w'.holds, w'.cqes, w'.streams)
      && Working(s) in w'.holds && w'.pool.Held(w'.holds[Working(s)].buf)
      && (|data| < RoomFor(w, s) ==> WorkersOk(w'.pool, w'.holds, w'.streams))
  {
    hide PoolOk, Synced, SlicesOk, Disjoint, CqesOk, Accounted, HeadOpen, StreamOk, OrderOk, CqeOrder, Filled,
      WorkersOk;
    var b := w.holds[Working(s)].buf;
    var h := Segment(s, w.streams[s].next);
    WorkerFacts(w, s);
    FilledKeeps(w.pool, w.holds, w.kernel, w.cqes, h, b, data);
    var w' := Filling(w, s, data);
    FilledFields(w.pool, b, data);
    assert SameOthers(w.holds, w'.holds, s);
    SegmentsOrdered(w, s);
    NothingPending(w.cqes, w.streams, s);
    FillingStream(w.pool.level, w.holds, w.cqes, s, w.streams[s], w'.holds[h]);
    OneStream(w, w', s);
    SameOrder(w.cqes, w.streams, s, w'.streams[s]);
    FillingWorkers(w, w', s, data);
  }

  lemma WorkerFacts(w: World, s: nat)
    requires WorkersOk(w.pool, w.holds, w.streams) && Working(s) in w.holds
    ensures !InRing(w.pool.Slotted(), w.holds[Working(s)].buf) && WorkerOk(w.pool, w.holds[Working(s)])
  {
  }

  lemma FilledFields(p: Pool, b: nat, data: seq<Byte>)
    requires p.Live(b) && p.Buf(b).pos + |data| <= |p.Buf(b).mem|
    ensures var p' := Filled(p, b, data);
      && SameSlots(p, p') && p'.level == p.level && p'.size == p.size && p'.Live(b)
      && p'.Buf(b).pos == p.Buf(b).pos + |data| && p'.Buf(b).len == p.Buf(b).len
  {
  }

  lemma FillingWorkers(w: World, w': World, s: nat, data: seq<Byte>)
    requires WorkersOk(w.pool, w.holds, w.streams) && Working(s) in w.holds
    requires w.pool.Live(w.holds[Working(s)].buf)
    requires var b := w.holds[Working(s)].buf;
      && Elsewhere(w.pool, w'.pool, b) && w'.pool.Live(b) && SameSlots(w.pool, w'.pool)
      && w'.pool.Buf(b).pos == w.pool.Buf(b).pos + |data| && w'.pool.Buf(b).len == w.pool.Buf(b).len
    requires forall t: nat :: (Working(t) in w'.holds <==> Working(t) in w.holds)
    requires forall t: nat :: Working(t) in w.holds ==> w'.holds[Working(t)] == w.holds[Working(t)]
    requires |w'.streams| == |w.streams| && forall t :: 0 <= t < |w.streams| ==> w'.streams[t].ssl == w.streams[t].ssl
    ensures WorkersOk(w'.pool, w'.holds - {Working(s)}, w'.streams)
    ensures |data| < RoomFor(w, s) ==> WorkersOk(w'.pool, w'.holds, w'.streams)
  {
    hide InRing;
    forall t: nat | Working(t) in w.holds && (t != s || |data| < RoomFor(w, s))
      ensures WorkerOk(w'.pool, w'.holds[Working(t)])
    {
      assert WorkerOk(w.pool, w.holds[Working(t)]);
    }
  }

  lemma FillWorkingKeeps(w: World, s: nat, data: seq<Byte>)
    requires Inv(w) && s < |w.streams| && w.streams[s].ssl && !w.streams[s].closed && data != []
    requires Working(s) in w.holds && w.pool.Held(w.holds[Working(s)].buf)
    requires var x := w.pool.Buf(w.holds[Working(s)].buf); x.pos + |data| <= x.len == |x.mem|
    ensures Inv(FillWorking(w, s, data))
  {
    hide Sound, StreamsOk, KeysOk, OrderOk, WorkersOk, Filled, Checkin;
    FillingKeeps(w, s, data);
    var mid := Filling(w, s, data);
    var w' := FillWorking(w, s, data);
    if |data| == RoomFor(w, s) {
      FullGivenBack(mid, w', s);
    } else {
      assert w' == mid;
    }
  }

  lemma FullGivenBack(w: World, w': World, s: nat)
    requires Sound(w.pool, w.holds, w.kernel, w.cqes) && WorkersOk(w.pool, w.holds - {Working(s)}, w.streams)
    requires KeysOk(w.holds, w.streams) && OrderOk(w.cqes, w.streams)
    requires StreamsOk(w.pool.level, w.holds, w.cqes, w.streams)
    requires Working(s) in w.holds && w.pool.Held(w.holds[Working(s)].buf)
    requires w' == w.(pool := Checkin(w.pool, w.holds[Working(s)].buf), holds := w.holds - {Working(s)})
    ensures Inv(w')
  {
    hide PoolOk, Synced, SlicesOk, Disjoint, CqesOk, HeadOpen, StreamsOk, KeysOk, OrderOk, Outside, Uses, Accounted,
      WorkerOk, Checkin, CheckedIn;
    GiveBackKeeps(w.pool, w.holds, w.kernel, w.cqes, Working(s));
    CheckedInFields(w.pool, w'.pool, w.holds[Working(s)].buf);
    forall t: nat | Working(t) in w'.holds
      ensures LeftAlone(w.pool, w'.pool, w.holds[Working(t)].buf) && !InRing(w'.pool.Slotted(), w.holds[Working(t)].buf)
    {
      HolderFacts(w'.pool, w'.holds, Working(t));
      CheckedInFrame(w.pool, w'.pool, w.holds[Working(s)].buf, w.holds[Working(t)].buf);
      WorkerNotCommitted(w.pool, w.holds[Working(t)]);
    }
    WorkersSame(w.(holds := w'.holds), w');
    assert forall t: nat :: SameOthers(w.holds, w'.holds, t);
    SameStreams(w, w');
  }

  // ----- Runs

  function DoReceiveEnabled(w: World, s: nat, data: seq<Byte>, final: bool): World
    requires Inv(w) && Enabled(w, Receive(s, data, final))
  {
    ReceiveDefined(w, s, data, final);
    DoReceive(w, s, data, final)
  }

  /** `io_get_more_segments_ssl`. */
  function DoReadSsl(w: World, s: nat, data: seq<Byte>): World
    requires Inv(w) && Enabled(w, ReadSsl(s, data))
  {
    WithWorkingKeeps(w, s);
    FillWorking(WithWorking(w, s), s, data)
  }

  function Apply(w: World, step: Step): World
    requires Inv(w) && Enabled(w, step)
  {
    match step
    case Start(s) => DoStart(w, s)
    case Receive(s, data, final) => DoReceiveEnabled(w, s, data, final)
    case RunOut(s) => DoTerminal(w, s, NoBuffers(s))
    case Finish(s) => DoTerminal(w, s, End(s))
    case Fail(s) => DoTerminal(w, s, Failed(s))
    case Cancel(s) => DoTerminal(w, s, Cancelled(s))
    case Process => DoProcess(w)
    case TakeResults(s) => DoTake(w, s)
    case Read(s, n) => DoRead(w, s, n)
    case ReadSsl(s, data) => DoReadSsl(w, s, data)
    case Close(s) => DoClose(w, s)
    case Drop(s) => DoDrop(w, s)
    case DropWorking(s) => DoDropWorking(w, s)
  }

  lemma StepKeepsInv(w: World, step: Step)
    requires Inv(w) && Enabled(w, step)
    ensures Inv(Apply(w, step))
  {
    hide Inv, DoStart, DoReceive, DoTerminal, DoProcess, DoTake, DoRead, WithWorking, FillWorking, DoClose, DoDrop,
      DoDropWorking;
    match step
    case Start(s) => StartKeeps(w, s);
    case Receive(s, data, final) => ReceiveDefined(w, s, data, final); DoReceiveKeeps(w, s, data, final);
    case RunOut(s) => DoTerminalKeeps(w, s, NoBuffers(s));
    case Finish(s) => DoTerminalKeeps(w, s, End(s));
    case Fail(s) => DoTerminalKeeps(w, s, Failed(s));
    case Cancel(s) => DoTerminalKeeps(w, s, Cancelled(s));
    case Process => DoProcessKeeps(w);
    case TakeResults(s) => DoTakeKeeps(w, s);
    case Read(s, n) => DoReadKeeps(w, s, n);
    case ReadSsl(s, data) => WithWorkingKeeps(w, s); FillWorkingKeeps(WithWorking(w, s), s, data);
    case Close(s) => DoCloseKeeps(w, s);
    case Drop(s) => DoDropKeeps(w, s);
    case DropWorking(s) => DoDropWorkingKeeps(w, s);
  }

  function NewStream(ssl: bool): Stream {
    Stream(ssl, None, 0, 0, 0, None, 0, false, false, [], [], true)
  }

  /** A machine that has just been set up, with streams of the given kinds. */
  function Initial(kinds: seq<bool>): World {
    World(Setup(), map[], Cursor([], 0), [], seq(|kinds|, i requires 0 <= i < |kinds| => NewStream(kinds[i])))
  }

  lemma InitialInv(kinds: seq<bool>)
    ensures Inv(Initial(kinds)) && Initial(kinds).pool.gen == 0
  {
    hide PoolOk, Setup;
    SetupOk();
    SetupRing();
    forall b: nat ensures Uses(map[], b) == 0 {
      assert HoldersOf(map[], b) == {};
    }
  }

  lemma SetupRing()
    ensures Setup().ring == [] && Setup().gen == 0 && Setup().reported == 0
  {
  }

  /** The steps of a run can be taken one after the other. */
  ghost predicate Possible(w: World, steps: seq<Step>)
    requires Inv(w)
    decreases |steps|
  {
    steps == [] || (Enabled(w, steps[0]) && (StepKeepsInv(w, steps[0]); Possible(Apply(w, steps[0]), steps[1..])))
  }

  function Run(w: World, steps: seq<Step>): World
    requires Inv(w) && Possible(w, steps)
    decreases |steps|
  {
    if steps == [] then w else StepKeepsInv(w, steps[0]); Run(Apply(w, steps[0]), steps[1..])
  }

  lemma {:induction false} RunKeepsInv(w: World, steps: seq<Step>)
    requires Inv(w) && Possible(w, steps)
    ensures Inv(Run(w, steps))
    decreases |steps|
  {
    hide Inv, Apply;
    if steps != [] {
      StepKeepsInv(w, steps[0]);
      RunKeepsInv(Apply(w, steps[0]), steps[1..]);
    }
  }
}
