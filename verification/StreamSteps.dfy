/**
 What each step of SharedStreams means to the stream that it is about: what the stream has been sent, has read and can
 still read, what its operation and its results are, and when running out of buffers lets the pool grow.
 */
module StreamSteps {
  import opened FlatStream
  import opened CommitLevel
  import opened BufferPool
  import opened SharedBuffers
  import opened SharedStreams
  import opened SharedFacts
  import opened SharedRuns

  /** What stream `s` can read: the bytes of its segments in memory, from its cursor on. */
  function Unread(w: World, s: nat): seq<Byte>
    requires SlicesOk(w.pool, w.holds) && s < |w.streams|
  {
    After(InMemory(w, s, w.streams[s].first, w.streams[s].next), w.streams[s].cur)
  }

  lemma UnreadIsBytes(w: World, s: nat)
    requires Inv(w) && s < |w.streams| && !w.streams[s].closed
    ensures SlicesOk(w.pool, w.holds)
    ensures var x := w.streams[s];
      && Unread(w, s) == After(Bytes(w.holds, s, x.first, x.next), x.cur)
      && |Unread(w, s)| == PendingBytes(w, s)
  {
    hide PoolOk, Synced, Disjoint, CqesOk, Accounted, HeadOpen, KeysOk, OrderOk, WorkersOk, InMemory, SliceOk;
    var x := w.streams[s];
    assert StreamOk(w.pool.level, w.holds, w.cqes, s, x);
    MemoryIsBytes(w, s, x.first, x.next);
    if x.first < x.next { BytesFirst(w.holds, s, x.first, x.next); }
  }

  /** Nothing has changed but stream `s`. */
  predicate OnlyStream(w: World, w': World, s: nat) {
    && w'.pool == w.pool && w'.holds == w.holds && w'.kernel == w.kernel && w'.cqes == w.cqes && OthersKept(w, w', s)
  }

  predicate OthersKept(w: World, w': World, s: nat) {
    |w'.streams| == |w.streams| && forall t :: 0 <= t < |w.streams| && t != s ==> w'.streams[t] == w.streams[t]
  }

  // ----- Operations and their results

  /** A new operation remembers the commit level of its start. */
  lemma StartIs(w: World, s: nat)
    requires Inv(w) && Enabled(w, Start(s))
    ensures var w' := Apply(w, Start(s));
      && w'.streams == w.streams[s := w.streams[s].(op := Some(Op(w.pool.level, true)))]
      && w'.pool.level == w.pool.level && w'.holds == w.holds && w'.cqes == w.cqes
  {
    hide Inv, PoolOk, EnsureLevel, IdsSuffice;
    InvHasPool(w);
    EnsureLevelKeeps(w.pool);
  }

  /** The kernel's last word about an operation. */
  predicate Ends(step: Step, s: nat, c: Cqe) {
    || (step == RunOut(s) && c == NoBuffers(s)) || (step == Finish(s) && c == End(s))
    || (step == Fail(s) && c == Failed(s)) || (step == Cancel(s) && c == Cancelled(s))
  }

  lemma EndIs(w: World, step: Step, s: nat, c: Cqe)
    requires Inv(w) && Enabled(w, step) && Ends(step, s, c)
    ensures s < |w.streams|
    ensures var w', x := Apply(w, step), w.streams[s];
      && w'.cqes == w.cqes + [c] && w'.pool == w.pool && w'.holds == w.holds && w'.kernel == w.kernel
      && x.op.Some? && w'.streams == w.streams[s := x.(op := Some(x.op.value.(armed := false)))]
  {
    hide Inv;
  }

  /** Data goes to where the kernel stands, and is reported with whether that leaves room in the buffer. */
  lemma ReceiveIs(w: World, s: nat, data: seq<Byte>, final: bool)
    requires Inv(w) && Enabled(w, Receive(s, data, final))
    ensures var w', x, e := Apply(w, Receive(s, data, final)), w.streams[s], w.kernel.ring[0];
      && x.op.Some? && x.op.value.armed && OthersKept(w, w', s)
      && w'.cqes == w.cqes + [Data(s, e, w.kernel.pos, data, w.kernel.pos + |data| < SizeOf(e.gen))]
      && w'.streams[s] == x.(delivered := x.delivered + data, op := Some(x.op.value.(armed := !final)))
      && w'.kernel == (if w.kernel.pos + |data| < SizeOf(e.gen) then Cursor(w.kernel.ring, w.kernel.pos + |data|)
                       else Cursor(w.kernel.ring[1..], 0))
  {
    hide Inv, SizeOf, Overwrite;
    ReceiveDefined(w, s, data, final);
  }

  /** Processed, a completion without data is the last result of its stream; one with data is a new segment behind the
      others, of as many bytes. A closed stream only loses its operation. */
  lemma ProcessIs(w: World)
    requires Inv(w) && Enabled(w, Process) && w.cqes[0].stream < |w.streams|
    ensures var w', c := Apply(w, Process), w.cqes[0];
      var x, s := w.streams[c.stream], c.stream;
      && w'.cqes == w.cqes[1..] && OthersKept(w, w', s)
      && (x.closed ==> w'.streams[s] == (if c.Data? then x else x.(op := None)) && w'.holds == w.holds)
      && (!x.closed && !c.Data? ==>
           && w'.holds == w.holds && w'.pool == w.pool && w'.kernel == w.kernel
           && w'.streams[s] == x.(last := Some(match c
                case NoBuffers(_) => Enobufs
                case End(_) => Eof
                case Cancelled(_) => Ecanceled
                case _ => Error)))
      && (!x.closed && c.Data? ==>
           && w'.streams[s] == x.(next := x.next + 1, exact := w'.streams[s].exact)
           && Segment(s, x.next) in w'.holds && |w'.holds[Segment(s, x.next)].data| == |c.data|
           && w'.holds[Segment(s, x.next)].buf == c.entry.buf
           && w'.holds == w.holds[Segment(s, x.next) := w'.holds[Segment(s, x.next)]])
  {
    hide Inv, InStep, ProcessResult, Consumable, Throw, IdsSuffice;
    FirstCqe(w);
    if w.cqes[0].Data? { NextSegmentSize(w); }
  }

  lemma NextSegmentSize(w: World)
    requires Inv(w) && w.cqes != [] && w.cqes[0].Data?
    ensures SegmentDefined(w.pool, w.cqes[0])
    ensures var x := SegmentFor(w.pool, w.cqes[0]);
      |x.data| == |w.cqes[0].data| && x.buf == w.cqes[0].entry.buf
  {
    hide PoolOk, Synced, InStep, Consumable, CqeOk;
    FirstCqe(w);
  }

  /** Taken, results can be read; the end of the data is noted; and an operation that has run out of buffers is gone,
      unless the pool raises an error over it. */
  lemma TakeResultsIs(w: World, s: nat)
    requires Inv(w) && Enabled(w, TakeResults(s))
    ensures var w', x := Apply(w, TakeResults(s)), w.streams[s];
      && w'.holds == w.holds && w'.kernel == w.kernel && w'.cqes == w.cqes && OthersKept(w, w', s)
      && w'.streams[s] == x.(taken := x.next, last := None, eof := x.eof || x.last == Some(Eof), op := w'.streams[s].op)
      && (x.last != Some(Enobufs) ==> w'.streams[s].op == x.op && w'.pool == w.pool)
  {
    hide Inv, PoolOk, Grow, Bytes;
  }

  /** An operation that has run out of buffers lets the pool grow if and only if the stream has less than four buffers
      of unread bytes, and the pool has not grown since the operation was started, and not to its maximum, where an
      error is raised instead. */
  lemma EnobufsGrowsIff(w: World, s: nat)
    requires Inv(w) && Enabled(w, TakeResults(s)) && w.streams[s].last == Some(Enobufs)
    ensures SlicesOk(w.pool, w.holds) && w.streams[s].op.Some?
    ensures var p, x := w.pool, w.streams[s];
      var w' := Apply(w, TakeResults(s));
      if |Unread(w, s)| < 4 * p.size && x.op.value.level == p.level then
        if p.level < 0x4000_0000 then w'.pool.level == 2 * p.level && w'.streams[s].op.None?
        else w'.pool == p && w'.streams[s].op == x.op
      else w'.pool == p && w'.streams[s].op.None?
  {
    hide Sound, KeysOk, WorkersOk, StreamsOk, PoolOk, Grow, InMemory, After, SlicesOk;
    UnreadIsBytes(w, s);
    InvHasPool(w);
    hide OrderOk;
    HasOperation(w, s);
    if w.pool.level < MAX_LEVEL { GrowEffect(w.pool); }
  }

  lemma HasOperation(w: World, s: nat)
    requires Inv(w) && s < |w.streams| && w.streams[s].last.Some?
    ensures w.streams[s].op.Some?
  {
    hide Sound, KeysOk, WorkersOk, StreamsOk, CqeOrder;
  }

  /** From the kernel to the stream: how an operation ends when nothing else is reported. */
  lemma EndReachesStream(w: World, step: Step, s: nat, c: Cqe)
    requires Inv(w) && Enabled(w, step) && Ends(step, s, c) && w.cqes == [] && !w.streams[s].closed
    ensures Possible(w, [step, Process, TakeResults(s)]) && SlicesOk(w.pool, w.holds)
    ensures var w', p, x := Run(w, [step, Process, TakeResults(s)]), w.pool, w.streams[s];
      && w'.cqes == [] && w'.holds == w.holds && OthersKept(w, w', s)
      && s < |w'.streams| && (w'.streams[s].eof <==> x.eof || step.Finish?)
      && (!step.RunOut? ==> w'.pool == p)
      && (step.RunOut? && |Unread(w, s)| < 4 * p.size && x.op.Some? && x.op.value.level == p.level
          && p.level < 0x4000_0000 ==>
            w'.pool.level == 2 * p.level && w'.streams[s].op.None?)
  {
    hide Inv, Enabled, Apply, Possible, Run, Unread;
    EndIs(w, step, s, c);
    StepKeepsInv(w, step);
    var w1 := Apply(w, step);
    OneCqe(w, w1, c);
    assert w1.streams[s] == w.streams[s].(op := w1.streams[s].op);
    EndEnables(w1, c);
    ProcessIs(w1);
    StepKeepsInv(w1, Process);
    var w2 := Apply(w1, Process);
    ResultEnables(w2, s);
    TakeResultsIs(w2, s);
    StepKeepsInv(w2, TakeResults(s));
    ThreeSteps(w, step, Process, TakeResults(s));
    InvHasSlices(w);
    InvHasSlices(w2);
    SameUnread(w, w2, s);
    if step.RunOut? { EnobufsGrowsIff(w2, s); }
  }

  lemma OneCqe(w: World, w1: World, c: Cqe)
    requires w.cqes == [] && w1.cqes == w.cqes + [c]
    ensures w1.cqes[0] == c && w1.cqes[1..] == []
  {
  }

  lemma EndEnables(w: World, c: Cqe)
    requires w.cqes != [] && w.cqes[0] == c && !c.Data?
    ensures Enabled(w, Process)
  {
  }

  lemma ResultEnables(w: World, s: nat)
    requires s < |w.streams| && !w.streams[s].closed && w.streams[s].last.Some?
    ensures Enabled(w, TakeResults(s))
  {
  }

  lemma SameUnread(w: World, w': World, s: nat)
    requires SlicesOk(w.pool, w.holds) && SlicesOk(w'.pool, w'.holds) && s < |w.streams| && s < |w'.streams|
    requires w'.pool == w.pool && w'.holds == w.holds
    requires w'.streams[s] == w.streams[s].(op := w'.streams[s].op, last := w'.streams[s].last)
    ensures Unread(w', s) == Unread(w, s)
  {
    hide InMemory;
    SameMemoryOf(w, w', s, w.streams[s].first, w.streams[s].next);
  }

  lemma {:induction false} SameMemoryOf(w: World, w': World, s: nat, i: nat, j: nat)
    requires SlicesOk(w.pool, w.holds) && w'.pool == w.pool && w'.holds == w.holds
    ensures InMemory(w', s, i, j) == InMemory(w, s, i, j)
    decreases j - i
  {
    if i < j { SameMemoryOf(w, w', s, i + 1, j); }
  }

  lemma ThreeSteps(w: World, a: Step, b: Step, c: Step)
    requires Inv(w) && Enabled(w, a) && Inv(Apply(w, a)) && Enabled(Apply(w, a), b)
    requires Inv(Apply(Apply(w, a), b)) && Enabled(Apply(Apply(w, a), b), c) && Inv(Apply(Apply(Apply(w, a), b), c))
    ensures Possible(w, [a, b, c]) && Run(w, [a, b, c]) == Apply(Apply(Apply(w, a), b), c)
  {
    hide Inv, Enabled, Apply;
    var w1 := Apply(w, a);
    var w2 := Apply(w1, b);
    assert [a, b, c][1..] == [b, c] && [b, c][1..] == [c] && [c][1..] == [];
    assert Possible(Apply(w2, c), []) && Possible(w2, [c]) && Possible(w1, [b, c]);
    assert Run(w2, [c]) == Run(Apply(w2, c), []);
    assert Run(w1, [b, c]) == Run(w2, [c]);
  }

  // ----- Reading

  /** A read takes the next bytes, whichever segments they are in. */
  lemma ReadIs(w: World, s: nat, n: nat)
    requires Inv(w) && Enabled(w, Read(s, n))
    ensures SlicesOk(w.pool, w.holds) && n <= |Unread(w, s)|
    ensures var w', x := Apply(w, Read(s, n)), w.streams[s];
      && Inv(w') && SlicesOk(w'.pool, w'.holds) && OthersKept(w, w', s) && s < |w'.streams|
      && w'.streams[s].consumed == x.consumed + Unread(w, s)[..n] && Unread(w', s) == Unread(w, s)[n..]
      && w'.streams[s] == x.(first := w'.streams[s].first, cur := w'.streams[s].cur, consumed := w'.streams[s].consumed)
  {
    hide Inv, Bytes, Unread, Apply, InMemory;
    var x := w.streams[s];
    ReadOfHead(w, s, n);
    StepKeepsInv(w, Read(s, n));
    var w' := Apply(w, Read(s, n));
    UnreadIsBytes(w, s);
    UnreadIsBytes(w', s);
    var h := Segment(s, x.first);
    BytesFirst(w.holds, s, x.first, x.next);
    var data, rest := w.holds[h].data, Bytes(w.holds, s, x.first + 1, x.next);
    if x.cur + n == |data| { BytesSame(w.holds, w'.holds, s, x.first + 1, x.next); }
    SplitUnread(data, rest, x.cur, n);
  }

  lemma ReadOfHead(w: World, s: nat, n: nat)
    requires Inv(w) && Enabled(w, Read(s, n))
    ensures s < |w.streams| && !w.streams[s].closed && w.streams[s].first < w.streams[s].next
    ensures Segment(s, w.streams[s].first) in w.holds
    ensures w.streams[s].cur + n <= |w.holds[Segment(s, w.streams[s].first)].data|
    ensures var w', x, h := Apply(w, Read(s, n)), w.streams[s], Segment(s, w.streams[s].first);
      var data := w.holds[h].data;
      && OthersKept(w, w', s) && s < |w'.streams|
      && w'.streams[s] == x.(consumed := x.consumed + data[x.cur..x.cur + n],
           first := if x.cur + n == |data| then x.first + 1 else x.first,
           cur := if x.cur + n == |data| then 0 else x.cur + n)
      && w'.holds == if x.cur + n == |data| then w.holds - {h} else w.holds
  {
    hide Sound, KeysOk, WorkersOk, OrderOk, Checkin;
    var x := w.streams[s];
    SegmentsOrdered(w, s);
    hide StreamsOk;
    HeldBy(w, Segment(s, x.first));
    ReadIsData(w.pool, w.holds[Segment(s, x.first)], x.cur, n);
  }

  lemma SplitUnread(data: seq<Byte>, rest: seq<Byte>, cur: nat, n: nat)
    requires cur + n <= |data|
    ensures var unread := After(data + rest, cur);
      && n <= |unread| && unread[..n] == data[cur..cur + n] && unread[n..] == After(data + rest, cur + n)
      && (cur + n == |data| ==> unread[n..] == rest == After(rest, 0))
  {
  }

  /** A read into the stream's own buffer adds what was sent to what can be read. */
  lemma ReadSslIs(w: World, s: nat, data: seq<Byte>)
    requires Inv(w) && Enabled(w, ReadSsl(s, data))
    ensures SlicesOk(w.pool, w.holds)
    ensures var w', x := Apply(w, ReadSsl(s, data)), w.streams[s];
      && Inv(w') && SlicesOk(w'.pool, w'.holds) && OthersKept(w, w', s) && s < |w'.streams|
      && w'.streams[s] == x.(taken := x.next + 1, next := x.next + 1, delivered := x.delivered + data)
      && Unread(w', s) == Unread(w, s) + data
  {
    hide Sound, KeysOk, WorkersOk, OrderOk, StreamsOk, Bytes, Unread, Checkin, Filled, After;
    UnreadIsBytes(w, s);
    WithWorkingKeeps(w, s);
    StepKeepsInv(w, ReadSsl(s, data));
    var mid, w' := WithWorking(w, s), Apply(w, ReadSsl(s, data));
    UnreadIsBytes(w', s);
    var x := w.streams[s];
    NextIsNew(w, s);
    NextIsNew(mid, s);
    WithWorkingSegments(w, s);
    BytesSame(w.holds, mid.holds, s, x.first, x.next);
    FilledBytes(mid, s, data);
    StartsWithin(w, s);
    AfterAppend(Bytes(w.holds, s, x.first, x.next), data, x.cur);
  }

  lemma NextIsNew(w: World, s: nat)
    requires Inv(w) && s < |w.streams|
    ensures Segment(s, w.streams[s].next) !in w.holds && w.streams[s].first <= w.streams[s].next
  {
    hide Sound, WorkersOk, OrderOk;
    SegmentsOrdered(w, s);
  }

  lemma StartsWithin(w: World, s: nat)
    requires Inv(w) && s < |w.streams| && !w.streams[s].closed
    ensures w.streams[s].cur <= |Bytes(w.holds, s, w.streams[s].first, w.streams[s].next)|
  {
    hide Sound, WorkersOk, OrderOk, KeysOk, Bytes;
    var x := w.streams[s];
    assert StreamOk(w.pool.level, w.holds, w.cqes, s, x);
    if x.first < x.next { BytesFirst(w.holds, s, x.first, x.next); }
  }

  lemma WithWorkingSegments(w: World, s: nat)
    requires Inv(w)
    ensures forall t: nat, k: nat :: Segment(t, k) in WithWorking(w, s).holds <==> Segment(t, k) in w.holds
    ensures forall t: nat, k: nat :: Segment(t, k) in w.holds ==>
      WithWorking(w, s).holds[Segment(t, k)] == w.holds[Segment(t, k)]
    ensures WithWorking(w, s).streams == w.streams
  {
    hide Inv, Checkout;
  }

  lemma FilledBytes(w: World, s: nat, data: seq<Byte>)
    requires s < |w.streams| && Working(s) in w.holds && w.pool.Held(w.holds[Working(s)].buf)
    requires w.pool.Buf(w.holds[Working(s)].buf).pos + |data| <= |w.pool.Buf(w.holds[Working(s)].buf).mem|
    requires Segment(s, w.streams[s].next) !in w.holds && w.streams[s].first <= w.streams[s].next
    ensures var w', x := FillWorking(w, s, data), w.streams[s];
      Bytes(w'.holds, s, x.first, x.next + 1) == Bytes(w.holds, s, x.first, x.next) + data
  {
    hide Bytes, Filled, Checkin;
    var w', x := FillWorking(w, s, data), w.streams[s];
    var y := Slice(w.holds[Working(s)].buf, w.pool.Buf(w.holds[Working(s)].buf).pos, data);
    var added := w.holds[Segment(s, x.next) := y];
    BytesAppend(w.holds, s, x.first, x.next, y);
    BytesSame(added, w'.holds, s, x.first, x.next + 1);
  }

  // ----- Closing

  /** Closing takes the results and leaves the operation to the kernel. */
  lemma CloseIs(w: World, s: nat)
    requires Inv(w) && Enabled(w, Close(s))
    ensures var w', x := Apply(w, Close(s)), w.streams[s];
      OnlyStream(w, w', s) && w'.streams[s] == x.(taken := x.next, last := None, closed := true)
  {
    hide Inv;
  }

  /** A closed stream gives its segments back one by one, oldest first, and its own buffer, and nothing else. */
  lemma DropIs(w: World, s: nat)
    requires Inv(w) && Enabled(w, Drop(s))
    ensures var w', x := Apply(w, Drop(s)), w.streams[s];
      && Segment(s, x.first) in w.holds && w'.holds == w.holds - {Segment(s, x.first)}
      && w'.streams[s] == x.(first := x.first + 1, taken := w'.streams[s].taken) && OthersKept(w, w', s)
      && w'.kernel == w.kernel && w'.cqes == w.cqes
  {
    hide Sound, StreamsOk, WorkersOk, OrderOk, Checkin;
    HeldBy(w, Segment(s, w.streams[s].first));
  }

  lemma DropWorkingIs(w: World, s: nat)
    requires Inv(w) && Enabled(w, DropWorking(s))
    ensures var w' := Apply(w, DropWorking(s));
      && w'.holds == w.holds - {Working(s)} && w'.streams == w.streams && w'.kernel == w.kernel && w'.cqes == w.cqes
  {
    hide Inv, Checkin;
    HeldBy(w, Working(s));
  }
}
