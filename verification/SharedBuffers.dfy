/**
 Buffers that are shared between the kernel, which fills the committed ones in order and a piece at a time, and
 those who hold parts of them: segments, and streams that read into a buffer of their own. The kernel reports
 each piece with a completion, which becomes a segment when it is processed. The model remembers with each
 completion the bytes that were received, and with each segment those that it was made of, so that they can be
 compared with what is in memory.
 */
module SharedBuffers {
  import opened FlatStream
  import opened CommitLevel
  import opened BufferPool

  /** Who can refer to a buffer besides its slot: a stream that reads into it, or a segment. The segments of a
      stream are numbered in the order in which they were made. */
  datatype Holder = Working(stream: nat) | Segment(stream: nat, k: nat)

  datatype Slice = Slice(buf: nat, off: nat, data: seq<Byte>)

  datatype Cqe =
    | Data(stream: nat, entry: Entry, off: nat, data: seq<Byte>, more: bool)  // more: IORING_CQE_F_BUF_MORE
    | NoBuffers(stream: nat)                                                  // -ENOBUFS
    | End(stream: nat)                                                        // 0
    | Cancelled(stream: nat)                                                  // -ECANCELED
    | Failed(stream: nat)                                                     // another error

  // ----- The kernel's side of the ring

  datatype Cursor = Cursor(ring: seq<Entry>, pos: nat)

  /** Where the kernel is after it has reported `c`; None if it could not have reported that here. */
  function Reported(k: Cursor, c: Cqe): Option<Cursor> {
    if !c.Data? then Some(k)
    else if k.ring == [] || c.entry != k.ring[0] || c.off != k.pos || c.data == [] then None
    else
      var end := k.pos + |c.data|;
      var size := SizeOf(k.ring[0].gen);
      if end > size || c.more != (end < size) then None
      else if c.more then Some(Cursor(k.ring, end))
      else Some(Cursor(k.ring[1..], 0))
  }

  function Replay(k: Cursor, cqes: seq<Cqe>): Option<Cursor>
    decreases |cqes|
  {
    if cqes == [] then Some(k)
    else
      match Reported(k, cqes[0])
      case None => None
      case Some(k') => Replay(k', cqes[1..])
  }

  lemma {:induction false} ReplayAppend(k: Cursor, cqes: seq<Cqe>, c: Cqe)
    requires Replay(k, cqes).Some?
    ensures Replay(k, cqes + [c]) == Reported(Replay(k, cqes).value, c)
    decreases |cqes|
  {
    if cqes == [] {
      assert [c][1..] == [];
    } else {
      assert (cqes + [c])[1..] == cqes[1..] + [c];
      ReplayAppend(Reported(k, cqes[0]).value, cqes[1..], c);
    }
  }

  /** Buffers added at the end of the ring do not matter to what has been reported. */
  lemma {:induction false} ReplayExtend(k: Cursor, cqes: seq<Cqe>, es: seq<Entry>)
    requires Replay(k, cqes).Some?
    ensures Replay(k.(ring := k.ring + es), cqes)
      == Some(Cursor(Replay(k, cqes).value.ring + es, Replay(k, cqes).value.pos))
    decreases |cqes|
  {
    if cqes != [] {
      var k' := Reported(k, cqes[0]).value;
      if k.ring != [] { assert (k.ring + es)[1..] == k.ring[1..] + es; }
      ReplayExtend(k', cqes[1..], es);
    }
  }

  ghost predicate DistinctBufs(ring: seq<Entry>) {
    forall i, j :: 0 <= i < j < |ring| ==> ring[i].buf != ring[j].buf
  }

  /** The kernel has what remains of the ring, at a cursor that is not behind the pool's, and what is reported
      but not processed lies in buffers of the ring, behind the kernel's cursor. */
  lemma {:induction false} ReplayFacts(k: Cursor, cqes: seq<Cqe>)
    requires Replay(k, cqes).Some? && DistinctBufs(k.ring)
    ensures var k' := Replay(k, cqes).value;
      && |k'.ring| <= |k.ring| && k'.ring == k.ring[|k.ring| - |k'.ring|..]
      && (|k'.ring| == |k.ring| ==> k.pos <= k'.pos)
      && forall i :: 0 <= i < |cqes| && cqes[i].Data? ==> InPlace(k.ring, k', cqes[i])
    decreases |cqes|
  {
    if cqes != [] {
      var c := cqes[0];
      var k1 := Reported(k, c).value;
      var k' := Replay(k, cqes).value;
      ReplayFacts(k1, cqes[1..]);
      assert |k'.ring| == |k.ring| ==> k1.ring == k.ring;
      forall i | 0 <= i < |cqes| && cqes[i].Data? ensures InPlace(k.ring, k', cqes[i]) {
        if i > 0 {
          assert cqes[i] == cqes[1..][i - 1];
          assert InPlace(k1.ring, k', cqes[i]);
          if k1.ring != k.ring { TailMember(k.ring, cqes[i].entry); }
        }
      }
    }
  }

  lemma TailMember(ring: seq<Entry>, e: Entry)
    requires ring != [] && e in ring[1..]
    ensures e in ring
  {
  }

  ghost predicate InPlace(ring: seq<Entry>, k: Cursor, c: Cqe)
    requires c.Data?
  {
    && c.entry in ring
    && (k.ring != [] && k.ring[0].buf == c.entry.buf ==> c.off + |c.data| <= k.pos)
    && (forall j :: 1 <= j < |k.ring| ==> k.ring[j].buf != c.entry.buf)
  }

  /** What is reported lies ahead of the pool's cursor. */
  lemma {:induction false} ReplayAhead(k: Cursor, cqes: seq<Cqe>)
    requires Replay(k, cqes).Some? && DistinctBufs(k.ring)
    ensures forall i :: 0 <= i < |cqes| && cqes[i].Data? ==> Ahead(k, cqes[i])
    decreases |cqes|
  {
    if cqes != [] {
      var k1 := Reported(k, cqes[0]).value;
      ReplayAhead(k1, cqes[1..]);
      ReplayFacts(k1, cqes[1..]);
      forall i | 0 <= i < |cqes| && cqes[i].Data? ensures Ahead(k, cqes[i]) {
        if i > 0 {
          assert cqes[i] == cqes[1..][i - 1] && Ahead(k1, cqes[i]) && cqes[i].entry in k1.ring;
          if k1.ring != k.ring {
            var j :| 0 <= j < |k1.ring| && k1.ring[j] == cqes[i].entry;
            assert k.ring[j + 1] == cqes[i].entry;
          }
        }
      }
    }
  }

  ghost predicate Ahead(k: Cursor, c: Cqe)
    requires c.Data?
  {
    k.ring != [] && (c.entry.buf == k.ring[0].buf ==> k.pos <= c.off)
  }

  function Piece(c: Cqe): Slice
    requires c.Data?
  {
    Slice(c.entry.buf, c.off, c.data)
  }

  /** No two reported pieces overlap. */
  lemma {:induction false} PiecesApart(k: Cursor, cqes: seq<Cqe>)
    requires Replay(k, cqes).Some? && DistinctBufs(k.ring)
    ensures forall i, j :: 0 <= i < j < |cqes| && cqes[i].Data? && cqes[j].Data? ==>
      Apart(Piece(cqes[i]), Piece(cqes[j]))
    decreases |cqes|
  {
    hide Apart;
    if cqes != [] {
      var k1 := Reported(k, cqes[0]).value;
      PiecesApart(k1, cqes[1..]);
      ReplayAhead(k1, cqes[1..]);
      ReplayFacts(k1, cqes[1..]);
      forall i, j | 0 <= i < j < |cqes| && cqes[i].Data? && cqes[j].Data?
        ensures Apart(Piece(cqes[i]), Piece(cqes[j]))
      {
        assert cqes[j] == cqes[1..][j - 1];
        if i > 0 { assert cqes[i] == cqes[1..][i - 1]; } else { FirstApart(k, cqes[0], cqes[j]); }
      }
    }
  }

  lemma FirstApart(k: Cursor, c: Cqe, d: Cqe)
    requires c.Data? && d.Data? && Reported(k, c).Some? && DistinctBufs(k.ring)
    requires Ahead(Reported(k, c).value, d) && d.entry in Reported(k, c).value.ring
    ensures Apart(Piece(c), Piece(d))
  {
    if !c.more {
      var j :| 0 <= j < |k.ring[1..]| && k.ring[1..][j] == d.entry;
      assert k.ring[j + 1] == d.entry;
    }
  }

  function DataLen(cqes: seq<Cqe>): nat {
    if cqes == [] then 0 else (if cqes[0].Data? then |cqes[0].data| else 0) + DataLen(cqes[1..])
  }

  /** The kernel's space and the reported bytes together are what the pool counts as committed. */
  lemma {:induction false} ReplayConserves(k: Cursor, cqes: seq<Cqe>)
    requires Replay(k, cqes).Some?
    ensures var k' := Replay(k, cqes).value; Sum(k.ring) - k.pos == Sum(k'.ring) - k'.pos + DataLen(cqes)
    decreases |cqes|
  {
    if cqes != [] {
      if k.ring != [] { SumHead(k.ring); }
      ReplayConserves(Reported(k, cqes[0]).value, cqes[1..]);
    }
  }

  /** A data completion that is thrown away unprocessed, as those of a discarded operation are, leaves the pool
      at odds with the kernel. */
  lemma DiscardBreaksReplay(k: Cursor, c: Cqe, rest: seq<Cqe>)
    requires Replay(k, [c] + rest).Some? && c.Data?
    ensures Replay(k, rest) != Replay(k, [c] + rest)
  {
    assert ([c] + rest)[1..] == rest;
    ReplayConserves(k, [c] + rest);
    if Replay(k, rest).Some? { ReplayConserves(k, rest); }
  }

  // ----- Holders

  function HoldersOf(holds: map<Holder, Slice>, b: nat): set<Holder> {
    set h | h in holds && holds[h].buf == b
  }

  /** How many hold buffer `b`. */
  function Uses(holds: map<Holder, Slice>, b: nat): nat {
    |HoldersOf(holds, b)|
  }

  lemma UsesAdd(holds: map<Holder, Slice>, h: Holder, x: Slice, b: nat)
    requires h !in holds
    ensures Uses(holds[h := x], b) == Uses(holds, b) + if x.buf == b then 1 else 0
  {
    assert HoldersOf(holds[h := x], b) == if x.buf == b then HoldersOf(holds, b) + {h} else HoldersOf(holds, b);
  }

  lemma UsesRemove(holds: map<Holder, Slice>, h: Holder, b: nat)
    requires h in holds
    ensures Uses(holds - {h}, b) == Uses(holds, b) - if holds[h].buf == b then 1 else 0
  {
    assert HoldersOf(holds, b) == HoldersOf(holds - {h}, b) + if holds[h].buf == b then {h} else {};
  }

  lemma UsesSome(holds: map<Holder, Slice>, h: Holder)
    requires h in holds
    ensures Uses(holds, holds[h].buf) > 0
  {
    assert h in HoldersOf(holds, holds[h].buf);
  }

  /** Every buffer has one reference for its slot, if it has one, and one for each that holds it. */
  ghost predicate Accounted(p: Pool, holds: map<Holder, Slice>) {
    forall b: nat :: Outside(p, b) == Uses(holds, b)
  }

  /** A slice is where it was made, untouched, behind the buffer's cursor. */
  ghost predicate SliceOk(p: Pool, x: Slice) {
    && p.Live(x.buf) && x.off + |x.data| <= p.Buf(x.buf).pos <= |p.Buf(x.buf).mem|
    && p.Buf(x.buf).mem[x.off..x.off + |x.data|] == x.data
  }

  ghost predicate SlicesOk(p: Pool, holds: map<Holder, Slice>) {
    forall h :: h in holds ==> SliceOk(p, holds[h])
  }

  ghost predicate Apart(x: Slice, y: Slice) {
    x.buf != y.buf || x.off + |x.data| <= y.off || y.off + |y.data| <= x.off
  }

  ghost predicate Disjoint(holds: map<Holder, Slice>) {
    forall g, h :: g in holds && h in holds && g != h ==> Apart(holds[g], holds[h])
  }

  /** The bytes of an unprocessed completion are in memory. */
  ghost predicate CqeOk(p: Pool, c: Cqe) {
    c.Data? ==>
      && p.Live(c.entry.buf) && c.off + |c.data| <= |p.Buf(c.entry.buf).mem|
      && p.Buf(c.entry.buf).mem[c.off..c.off + |c.data|] == c.data
  }

  ghost predicate CqesOk(p: Pool, cqes: seq<Cqe>) {
    forall i :: 0 <= i < |cqes| ==> CqeOk(p, cqes[i])
  }

  /** Not all of the oldest buffer of the ring has been reported. */
  ghost predicate HeadOpen(p: Pool) {
    p.ring != [] ==> p.reported < SizeOf(p.ring[0].gen)
  }

  /** Where the completions start that are not processed yet. */
  function Tail(p: Pool): Cursor {
    Cursor(p.ring, p.reported)
  }

  /** The completions that are not processed yet lead from there to where the kernel is. */
  ghost predicate Synced(p: Pool, k: Cursor, cqes: seq<Cqe>) {
    Replay(Tail(p), cqes) == Some(k)
  }

  /** The part of the invariant that concerns buffers. */
  ghost predicate Sound(p: Pool, holds: map<Holder, Slice>, k: Cursor, cqes: seq<Cqe>) {
    && PoolOk(p) && HeadOpen(p) && Synced(p, k, cqes)
    && Accounted(p, holds) && SlicesOk(p, holds) && Disjoint(holds) && CqesOk(p, cqes)
  }

  /** What somebody holds is in use, and not only by its slot. */
  lemma HolderFacts(p: Pool, holds: map<Holder, Slice>, h: Holder)
    requires Accounted(p, holds) && h in holds
    ensures p.Held(holds[h].buf) && (InRing(p.Slotted(), holds[h].buf) ==> p.Buf(holds[h].buf).refs > 1)
  {
    UsesSome(holds, h);
    assert Outside(p, holds[h].buf) > 0;
  }

  /** What is reported lies in committed buffers, behind the kernel's cursor; so does what has been processed. */
  lemma KernelFacts(p: Pool, k: Cursor, cqes: seq<Cqe>)
    requires PoolOk(p) && Synced(p, k, cqes)
    ensures forall i :: 0 <= i < |cqes| && cqes[i].Data? ==> InPlace(p.ring, k, cqes[i]) && p.Held(cqes[i].entry.buf)
    ensures k.ring != [] ==>
      && k.ring[0] in p.ring && EntryOk(p, k.ring[0])
      && p.Buf(k.ring[0].buf).pos <= k.pos
    ensures DistinctBufs(p.ring) && |k.ring| <= |p.ring| && k.ring == p.ring[|p.ring| - |k.ring|..]
  {
    hide Sum, Alive, Space, BitmapOk, LevelOf, SizeOf, Replay, Admitted;
    RingDistinct(p);
    ReplayFacts(Tail(p), cqes);
    forall i | 0 <= i < |cqes| && cqes[i].Data? ensures p.Held(cqes[i].entry.buf) {
      assert InPlace(p.ring, k, cqes[i]);
      var j :| 0 <= j < |p.ring| && p.ring[j] == cqes[i].entry;
      assert EntryOk(p, p.ring[j]);
    }
    if k.ring != [] {
      assert EntryOk(p, p.ring[|p.ring| - |k.ring|]);
    }
  }

  // ----- What keeps the buffers sound

  /** Buffers that are in use stay as they are; the ring may grow by others. */
  ghost predicate Undisturbed(p: Pool, p': Pool) {
    && KeepsHeld(p, p') && p.ring <= p'.ring && SameReports(p, p') && (forall b :: Outside(p', b) == Outside(p, b))
    && (forall i :: |p.ring| <= i < |p'.ring| ==>
         !p.Held(p'.ring[i].buf) && p'.Live(p'.ring[i].buf) && p'.Buf(p'.ring[i].buf).pos == 0)
  }

  function Fresh(ring: seq<Entry>, count: nat): seq<Entry> {
    if count <= |ring| then ring[count..] else []
  }

  lemma UndisturbedKeeps(p: Pool, holds: map<Holder, Slice>, k: Cursor, cqes: seq<Cqe>, p': Pool)
    requires Sound(p, holds, k, cqes) && PoolOk(p') && Undisturbed(p, p')
    ensures Sound(p', holds, k.(ring := k.ring + Fresh(p'.ring, |p.ring|)), cqes)
  {
    hide PoolOk, Synced, SliceOk, CqeOk, HeadOpen, Outside, Uses, Apart, KeepsHeld;
    UndisturbedRing(p, k, cqes, p');
    forall h | h in holds ensures SliceOk(p', holds[h]) {
      HolderFacts(p, holds, h);
      SameSlice(p, p', holds[h]);
    }
    KernelFacts(p, k, cqes);
    forall i | 0 <= i < |cqes| ensures CqeOk(p', cqes[i]) {
      SameCqe(p, p', cqes[i]);
    }
  }

  lemma SameSlice(p: Pool, p': Pool, x: Slice)
    requires SliceOk(p, x) && p.Held(x.buf) && KeepsHeld(p, p')
    ensures SliceOk(p', x)
  {
  }

  lemma SameCqe(p: Pool, p': Pool, c: Cqe)
    requires CqeOk(p, c) && (c.Data? ==> p.Held(c.entry.buf)) && KeepsHeld(p, p')
    ensures CqeOk(p', c)
  {
  }

  lemma UndisturbedRing(p: Pool, k: Cursor, cqes: seq<Cqe>, p': Pool)
    requires PoolOk(p) && HeadOpen(p) && Synced(p, k, cqes) && PoolOk(p') && Undisturbed(p, p')
    ensures HeadOpen(p') && Synced(p', k.(ring := k.ring + Fresh(p'.ring, |p.ring|)), cqes)
  {
    hide PoolOk, Replay, SizeOf, Outside, InRing;
    var es := Fresh(p'.ring, |p.ring|);
    assert p'.ring == p.ring + es;
    ReplayExtend(Tail(p), cqes, es);
    NothingReported(p);
    SizePositive();
  }

  lemma NothingReported(p: Pool)
    requires PoolOk(p)
    ensures p.ring == [] ==> p.reported == 0
  {
  }

  lemma HeadHeld(p: Pool)
    requires PoolOk(p)
    ensures p.ring != [] ==>
      && p.Held(p.ring[0].buf) && p.Buf(p.ring[0].buf).len == SizeOf(p.ring[0].gen)
      && p.Buf(p.ring[0].buf).pos <= p.reported && InRing(p.ring, p.ring[0].buf)
  {
    hide Sum, Admitted, SizeOf, BitmapOk;
    RingDistinct(p);
    if p.ring != [] { assert EntryOk(p, p.ring[0]); }
  }

  lemma WithinBuffers(p: Pool)
    requires PoolOk(p)
    ensures BufsOk(p)
  {
  }

  lemma SizePositive()
    ensures forall gen :: SizeOf(gen) > 0
  {
  }

  // ----- The kernel fills a buffer

  function Overwrite(mem: seq<Byte>, at: nat, data: seq<Byte>): seq<Byte>
    requires at + |data| <= |mem|
  {
    mem[..at] + data + mem[at + |data|..]
  }

  function Written(p: Pool, b: nat, at: nat, data: seq<Byte>): Pool
    requires p.Live(b) && at + |data| <= |p.Buf(b).mem|
  {
    With(p, b, p.Buf(b).(mem := Overwrite(p.Buf(b).mem, at, data)))
  }

  lemma OverwriteFacts(mem: seq<Byte>, at: nat, data: seq<Byte>, off: nat, len: nat)
    requires at + |data| <= |mem|
    ensures Overwrite(mem, at, data)[at..at + |data|] == data
    ensures off + len <= at ==> Overwrite(mem, at, data)[off..off + len] == mem[off..off + len]
  {
  }

  lemma WrittenKeepsSlice(p: Pool, b: nat, at: nat, data: seq<Byte>, x: Slice)
    requires p.Live(b) && at + |data| <= |p.Buf(b).mem|
    requires SliceOk(p, x) && (x.buf == b ==> p.Buf(b).pos <= at)
    ensures SliceOk(Written(p, b, at, data), x)
  {
    if x.buf == b { OverwriteFacts(p.Buf(b).mem, at, data, x.off, |x.data|); }
  }

  lemma WrittenKeepsCqe(p: Pool, b: nat, at: nat, data: seq<Byte>, c: Cqe)
    requires p.Live(b) && at + |data| <= |p.Buf(b).mem|
    requires CqeOk(p, c) && (c.Data? && c.entry.buf == b ==> c.off + |c.data| <= at)
    ensures CqeOk(Written(p, b, at, data), c)
  {
    if c.Data? && c.entry.buf == b { OverwriteFacts(p.Buf(b).mem, at, data, c.off, |c.data|); }
  }

  /** The kernel writes behind everything that has been received. */
  lemma ReceiveKeeps(p: Pool, holds: map<Holder, Slice>, k: Cursor, cqes: seq<Cqe>, c: Cqe)
    requires Sound(p, holds, k, cqes) && c.Data? && Reported(k, c).Some?
    ensures p.Live(c.entry.buf) && c.off + |c.data| <= |p.Buf(c.entry.buf).mem|
    ensures Sound(Written(p, c.entry.buf, c.off, c.data), holds, Reported(k, c).value, cqes + [c])
  {
    hide PoolOk, Synced, SliceOk, CqeOk, HeadOpen, Apart, Overwrite, InPlace;
    KernelRoom(p, k, cqes);
    var b := c.entry.buf;
    var p' := Written(p, b, c.off, c.data);
    WrittenRing(p, k, cqes, c);
    forall h | h in holds ensures SliceOk(p', holds[h]) {
      WrittenKeepsSlice(p, b, c.off, c.data, holds[h]);
    }
    var cqes' := cqes + [c];
    forall i | 0 <= i < |cqes'| ensures CqeOk(p', cqes'[i]) {
      if i < |cqes| {
        assert cqes'[i] == cqes[i];
        ReportedBehind(p, k, cqes, i);
        WrittenKeepsCqe(p, b, c.off, c.data, cqes[i]);
      } else {
        WrittenCqe(p, c);
      }
    }
  }

  lemma WrittenCqe(p: Pool, c: Cqe)
    requires c.Data? && p.Live(c.entry.buf) && c.off + |c.data| <= |p.Buf(c.entry.buf).mem|
    ensures CqeOk(Written(p, c.entry.buf, c.off, c.data), c)
  {
    OverwriteFacts(p.Buf(c.entry.buf).mem, c.off, c.data, 0, 0);
  }

  lemma KernelRoom(p: Pool, k: Cursor, cqes: seq<Cqe>)
    requires PoolOk(p) && Synced(p, k, cqes)
    ensures k.ring != [] ==>
      var b := k.ring[0].buf;
      p.Held(b) && p.Buf(b).len == |p.Buf(b).mem| == SizeOf(k.ring[0].gen) && p.Buf(b).pos <= k.pos
  {
    KernelFacts(p, k, cqes);
  }

  lemma ReportedBehind(p: Pool, k: Cursor, cqes: seq<Cqe>, i: nat)
    requires PoolOk(p) && Synced(p, k, cqes) && i < |cqes| && k.ring != []
    ensures cqes[i].Data? && cqes[i].entry.buf == k.ring[0].buf ==> cqes[i].off + |cqes[i].data| <= k.pos
  {
    KernelFacts(p, k, cqes);
    if cqes[i].Data? { assert InPlace(p.ring, k, cqes[i]); }
  }

  lemma WrittenRing(p: Pool, k: Cursor, cqes: seq<Cqe>, c: Cqe)
    requires PoolOk(p) && HeadOpen(p) && Synced(p, k, cqes) && c.Data? && Reported(k, c).Some?
    requires p.Held(c.entry.buf) && c.off + |c.data| <= |p.Buf(c.entry.buf).mem|
    ensures var p' := Written(p, c.entry.buf, c.off, c.data);
      && PoolOk(p') && HeadOpen(p') && Synced(p', Reported(k, c).value, cqes + [c])
      && forall b :: Outside(p', b) == Outside(p, b)
  {
    hide Replay, Reported, SizeOf, LevelOf, Sum, Admitted, RingOk, FreeOk, BitmapOk, MetricsOk, InRing;
    var b := c.entry.buf;
    assert p.Buf(b).pos <= p.Buf(b).len == |p.Buf(b).mem|;
    var x := p.Buf(b).(mem := Overwrite(p.Buf(b).mem, c.off, c.data));
    UpdateKeeps(p, b, x);
    ReplayAppend(Tail(p), cqes, c);
  }

  // ----- A completion is processed

  lemma ProcessEnabled(p: Pool, k: Cursor, cqes: seq<Cqe>)
    requires PoolOk(p) && Synced(p, k, cqes) && cqes != [] && cqes[0].Data?
    ensures Consumable(p, cqes[0].entry.bid, |cqes[0].data|, cqes[0].more)
    ensures p.ring != [] && cqes[0].entry == p.ring[0] && cqes[0].off == p.reported
    ensures p.Held(p.ring[0].buf) && cqes[0].entry.bid < |p.slots| && p.slots[cqes[0].entry.bid] == Some(p.ring[0].buf)
    ensures p.Buf(p.ring[0].buf).pos <= cqes[0].off
    ensures p.Buf(p.ring[0].buf).pos + |cqes[0].data| <= |p.Buf(p.ring[0].buf).mem|
  {
    hide Sum, Admitted, SizeOf;
    RingDistinct(p);
    assert EntryOk(p, p.ring[0]);
  }

  lemma ProcessedRing(p: Pool, k: Cursor, cqes: seq<Cqe>, p': Pool)
    requires PoolOk(p) && Synced(p, k, cqes) && cqes != [] && cqes[0].Data? && p.ring != [] && p.Live(p.ring[0].buf)
    requires PoolOk(p') && Processed(p, p', |cqes[0].data|, cqes[0].more)
    ensures HeadOpen(p')
    ensures Synced(p', k.(ring := k.ring + Fresh(p'.ring, |RestOfRing(p, cqes[0].more)|)), cqes[1..])
  {
    hide PoolOk, Processed, Replay, Reported, SizeOf;
    var c := cqes[0];
    var k1 := NextCursor(p, |c.data|, c.more);
    ReplayFirst(Tail(p), cqes);
    ReplayProcessed(p, c);
    ProcessedHead(p, p', |c.data|, c.more);
    ReplayExtend(k1, cqes[1..], Fresh(p'.ring, |k1.ring|));
    SizePositive();
  }

  function NextCursor(p: Pool, n: nat, more: bool): Cursor
    requires p.ring != []
  {
    Cursor(RestOfRing(p, more), if more then p.reported + n else 0)
  }

  lemma ReplayProcessed(p: Pool, c: Cqe)
    requires p.ring != [] && c.Data? && Reported(Tail(p), c).Some?
    ensures Reported(Tail(p), c) == Some(NextCursor(p, |c.data|, c.more))
    ensures c.more ==> p.reported + |c.data| < SizeOf(p.ring[0].gen)
  {
    hide SizeOf;
  }

  lemma ProcessedHead(p: Pool, p': Pool, n: nat, more: bool)
    requires p.ring != [] && p.Live(p.ring[0].buf) && Processed(p, p', n, more)
    ensures p'.ring == NextCursor(p, n, more).ring + Fresh(p'.ring, |NextCursor(p, n, more).ring|)
    ensures more ==> p'.ring != [] && p'.ring[0] == p.ring[0]
    ensures p'.reported == NextCursor(p, n, more).pos
  {
    hide InRing, Outside;
  }

  lemma ReplayFirst(k: Cursor, cqes: seq<Cqe>)
    requires Replay(k, cqes).Some? && cqes != []
    ensures Reported(k, cqes[0]).Some? && Replay(Reported(k, cqes[0]).value, cqes[1..]) == Replay(k, cqes)
  {
  }

  /** Where `bp_get_op_result_segment` finds the bytes of a completion: in the buffer that the slot names, at the
      cursor that the pool keeps for it. */
  function SegmentFor(p: Pool, c: Cqe): Slice
    requires c.Data? && SegmentDefined(p, c)
  {
    var b := p.slots[c.entry.bid].value;
    Slice(b, p.Buf(b).pos, p.Buf(b).mem[p.Buf(b).pos..p.Buf(b).pos + |c.data|])
  }

  predicate SegmentDefined(p: Pool, c: Cqe)
    requires c.Data?
  {
    && c.entry.bid < |p.slots| && p.slots[c.entry.bid].Some? && p.Live(p.slots[c.entry.bid].value)
    && p.Buf(p.slots[c.entry.bid].value).pos + |c.data| <= |p.Buf(p.slots[c.entry.bid].value).mem|
  }

  /** The cursor that the pool keeps in the oldest buffer of the ring is where the next completion starts. */
  predicate InStep(p: Pool) {
    p.ring != [] ==> p.Live(p.ring[0].buf) && HeadPos(p) == p.reported
  }

  /** The next segment is what was received if and only if the pool's cursor is where the completion starts. */
  lemma SegmentRightIff(p: Pool, k: Cursor, cqes: seq<Cqe>)
    requires PoolOk(p) && Synced(p, k, cqes) && cqes != [] && cqes[0].Data? && CqeOk(p, cqes[0])
    ensures SegmentDefined(p, cqes[0]) && |SegmentFor(p, cqes[0]).data| == |cqes[0].data|
    ensures SegmentFor(p, cqes[0]) == Piece(cqes[0]) <==> InStep(p)
  {
    hide PoolOk, Synced;
    ProcessEnabled(p, k, cqes);
  }

  /** The segment made from a completion overlaps no other, and nothing will be written where it lies. */
  lemma ProcessKeeps(p: Pool, holds: map<Holder, Slice>, k: Cursor, cqes: seq<Cqe>, h: Holder)
    requires Sound(p, holds, k, cqes) && cqes != [] && cqes[0].Data? && h !in holds
    ensures Consumable(p, cqes[0].entry.bid, |cqes[0].data|, cqes[0].more) && SegmentDefined(p, cqes[0])
    ensures var c := cqes[0];
      var p' := ProcessResult(p, c.entry.bid, |c.data|, c.more);
      Sound(p', holds[h := SegmentFor(p, c)], k.(ring := k.ring + Fresh(p'.ring, |RestOfRing(p, c.more)|)), cqes[1..])
  {
    hide PoolOk, Synced, SliceOk, CqeOk, HeadOpen, Consumable, ProcessResult, Outside, Uses, InPlace, Apart;
    var c := cqes[0];
    ProcessEnabled(p, k, cqes);
    ProcessResultKeeps(p, c.entry.bid, |c.data|, c.more);
    var b := p.ring[0].buf;
    var p' := ProcessResult(p, c.entry.bid, |c.data|, c.more);
    assert BufsOk(p') by { WithinBuffers(p'); }
    var x := SegmentFor(p, c);
    ProcessedRing(p, k, cqes, p');
    forall y: nat ensures Outside(p', y) == Uses(holds[h := x], y) { UsesAdd(holds, h, x, y); }
    forall g | g in holds ensures SliceOk(p', holds[g]) && Apart(holds[g], x) && Apart(x, holds[g]) {
      HolderFacts(p, holds, g);
      ProcessedSlice(p, p', |c.data|, c.more, holds[g]);
      SliceBehind(p, holds[g]);
      BehindApart(p, holds[g], x);
    }
    NewSlice(p, p', c);
    KernelFacts(p, k, cqes);
    forall i | 0 <= i < |cqes[1..]| ensures CqeOk(p', cqes[1..][i]) {
      assert cqes[1..][i] == cqes[i + 1] && CqeOk(p, cqes[i + 1]);
      ProcessedCqe(p, p', |c.data|, c.more, cqes[i + 1]);
    }
  }

  lemma BehindApart(p: Pool, x: Slice, y: Slice)
    requires p.Live(x.buf) && x.off + |x.data| <= p.Buf(x.buf).pos && (y.buf == x.buf ==> y.off == p.Buf(x.buf).pos)
    ensures Apart(x, y) && Apart(y, x)
  {
  }

  /** A completion that is thrown away changes nothing in memory. */
  lemma ThrowSound(p: Pool, holds: map<Holder, Slice>, k: Cursor, cqes: seq<Cqe>)
    requires Sound(p, holds, k, cqes) && cqes != [] && cqes[0].Data?
    ensures p.ring != [] && Sound(Throw(p, |cqes[0].data|, cqes[0].more), holds, k, cqes[1..])
  {
    hide PoolOk, Synced, SliceOk, CqeOk, HeadOpen, Consumable, Outside, Uses, Apart, Throw;
    var c := cqes[0];
    ProcessEnabled(p, k, cqes);
    ThrowKeeps(p, c.entry.bid, |c.data|, c.more);
    var p' := Throw(p, |c.data|, c.more);
    ThrownRing(p, k, cqes);
    SameMemory(p, p', holds, cqes[1..]) by {
      forall i | 0 <= i < |cqes[1..]| ensures CqeOk(p, cqes[1..][i]) { assert cqes[1..][i] == cqes[i + 1]; }
      ThrownMemory(p, |c.data|, c.more);
    }
  }

  lemma ThrownMemory(p: Pool, n: nat, more: bool)
    requires p.ring != []
    ensures Throw(p, n, more).bufs == p.bufs
  {
  }

  lemma SameMemory(p: Pool, p': Pool, holds: map<Holder, Slice>, cqes: seq<Cqe>)
    requires SlicesOk(p, holds) && CqesOk(p, cqes) && p'.bufs == p.bufs
    ensures SlicesOk(p', holds) && CqesOk(p', cqes)
  {
    forall h | h in holds ensures SliceOk(p', holds[h]) { assert SliceOk(p, holds[h]); }
    forall i | 0 <= i < |cqes| ensures CqeOk(p', cqes[i]) { assert CqeOk(p, cqes[i]); }
  }

  lemma ThrownRing(p: Pool, k: Cursor, cqes: seq<Cqe>)
    requires PoolOk(p) && Synced(p, k, cqes) && cqes != [] && cqes[0].Data? && p.ring != []
    ensures var p' := Throw(p, |cqes[0].data|, cqes[0].more); HeadOpen(p') && Synced(p', k, cqes[1..])
  {
    hide PoolOk, Replay, Reported, SizeOf;
    ReplayFirst(Tail(p), cqes);
    ReplayProcessed(p, cqes[0]);
    SizePositive();
  }

  lemma SliceBehind(p: Pool, x: Slice)
    requires SliceOk(p, x)
    ensures p.Live(x.buf) && x.off + |x.data| <= p.Buf(x.buf).pos
  {
  }

  lemma NewSlice(p: Pool, p': Pool, c: Cqe)
    requires p.ring != [] && p.Live(p.ring[0].buf) && c.Data? && Processed(p, p', |c.data|, c.more)
    requires SegmentDefined(p, c) && p.slots[c.entry.bid] == Some(p.ring[0].buf) && BufsOk(p')
    ensures SliceOk(p', SegmentFor(p, c))
  {
    hide Outside, InRing;
  }

  lemma ProcessedSlice(p: Pool, p': Pool, n: nat, more: bool, x: Slice)
    requires p.ring != [] && p.Live(p.ring[0].buf) && Processed(p, p', n, more)
    requires SliceOk(p, x) && p.Held(x.buf) && BufsOk(p')
    ensures SliceOk(p', x)
  {
    hide Outside, InRing;
  }

  lemma ProcessedCqe(p: Pool, p': Pool, n: nat, more: bool, c: Cqe)
    requires p.ring != [] && p.Live(p.ring[0].buf) && Processed(p, p', n, more)
    requires CqeOk(p, c) && (c.Data? ==> p.Held(c.entry.buf))
    ensures CqeOk(p', c)
  {
    hide Outside, InRing;
  }

  // ----- Holders come and go

  lemma FrameSynced(p: Pool, k: Cursor, cqes: seq<Cqe>, p': Pool)
    requires Synced(p, k, cqes) && HeadOpen(p) && p'.ring == p.ring && p'.reported == p.reported
    ensures Synced(p', k, cqes) && HeadOpen(p')
  {
  }

  /** A holder gives its buffer back. */
  lemma GiveBackKeeps(p: Pool, holds: map<Holder, Slice>, k: Cursor, cqes: seq<Cqe>, h: Holder)
    requires Sound(p, holds, k, cqes) && h in holds
    ensures p.Held(holds[h].buf) && Sound(Checkin(p, holds[h].buf), holds - {h}, k, cqes)
    ensures CheckedIn(p, Checkin(p, holds[h].buf), holds[h].buf)
  {
    hide PoolOk, Synced, SliceOk, CqeOk, HeadOpen, Outside, Uses, InPlace, Checkin, CheckedIn, Apart;
    var b := holds[h].buf;
    HolderFacts(p, holds, h);
    CheckinKeeps(p, b);
    var p' := Checkin(p, b);
    var holds' := holds - {h};
    assert Accounted(p', holds') by {
      forall y: nat ensures Outside(p', y) == Uses(holds', y) {
        UsesRemove(holds, h, y);
        OutsideCheckedIn(p, p', b, y);
      }
    }
    forall g | g in holds' ensures SliceOk(p', holds'[g]) {
      HolderFacts(p', holds', g);
      CheckedInFrame(p, p', b, holds[g].buf);
      LeftAloneSlice(p, p', holds[g]);
    }
    KernelFacts(p, k, cqes);
    forall i | 0 <= i < |cqes| ensures CqeOk(p', cqes[i]) {
      if cqes[i].Data? {
        InPlaceInRing(p.ring, k, cqes[i]);
        CheckedInRing(p, p', b, cqes[i].entry.buf);
      }
      LeftAloneCqe(p, p', cqes[i]);
    }
    CheckedInFields(p, p', b);
    FrameSynced(p, k, cqes, p');
  }

  lemma InPlaceInRing(ring: seq<Entry>, k: Cursor, c: Cqe)
    requires c.Data? && InPlace(ring, k, c)
    ensures InRing(ring, c.entry.buf)
  {
    var j :| 0 <= j < |ring| && ring[j] == c.entry;
    assert ring[j].buf == c.entry.buf;
  }

  lemma CheckedInFields(p: Pool, p': Pool, b: nat)
    requires CheckedIn(p, p', b)
    ensures SameSlots(p, p') && p'.level == p.level && p'.size == p.size && p'.gen == p.gen
  {
  }

  lemma OutsideCheckedIn(p: Pool, p': Pool, b: nat, y: nat)
    requires CheckedIn(p, p', b)
    ensures Outside(p', y) == Outside(p, y) - if y == b then 1 else 0
  {
  }

  /** A buffer that is still in use has only lost a reference. */
  ghost predicate LeftAlone(p: Pool, p': Pool, b: nat) {
    p.Live(b) && p'.Live(b) && p'.Buf(b) == p.Buf(b).(refs := p'.Buf(b).refs)
  }

  lemma CheckedInFrame(p: Pool, p': Pool, b: nat, y: nat)
    requires CheckedIn(p, p', b) && p'.Held(y)
    ensures LeftAlone(p, p', y)
  {
  }

  lemma CheckedInRing(p: Pool, p': Pool, b: nat, y: nat)
    requires CheckedIn(p, p', b) && PoolOk(p') && p.Held(y) && InRing(p.ring, y)
    ensures LeftAlone(p, p', y)
  {
    hide Sum, Admitted, SizeOf, BitmapOk, FreeOk, MetricsOk;
    RingDistinct(p');
    var i :| 0 <= i < |p.ring| && p.ring[i].buf == y;
    assert EntryOk(p', p'.ring[i]);
  }

  lemma LeftAloneSlice(p: Pool, p': Pool, x: Slice)
    requires SliceOk(p, x) && LeftAlone(p, p', x.buf)
    ensures SliceOk(p', x)
  {
  }

  lemma LeftAloneCqe(p: Pool, p': Pool, c: Cqe)
    requires CqeOk(p, c) && (c.Data? ==> LeftAlone(p, p', c.entry.buf))
    ensures CqeOk(p', c)
  {
  }

  /** A stream gets a buffer to read into. */
  lemma TakeBufferKeeps(p: Pool, holds: map<Holder, Slice>, k: Cursor, cqes: seq<Cqe>, h: Holder)
    requires Sound(p, holds, k, cqes) && h !in holds
    ensures p.free != [] ==> p.Live(p.free[0])
    ensures var (p', b) := Checkout(p);
      CheckedOut(p, p', b) && Sound(p', holds[h := Slice(b, 0, [])], k, cqes)
  {
    hide PoolOk, Synced, SliceOk, CqeOk, HeadOpen, Outside, Uses, Checkout, CheckedOut, Apart, KeepsHeld;
    CheckoutKeeps(p);
    var (p', b) := Checkout(p);
    var x := Slice(b, 0, []);
    CheckedOutFrame(p, p', b);
    forall y: nat ensures Outside(p', y) == Uses(holds[h := x], y) { UsesAdd(holds, h, x, y); }
    forall g | g in holds ensures SliceOk(p', holds[g]) && Apart(holds[g], x) && Apart(x, holds[g]) {
      HolderFacts(p, holds, g);
      SameSlice(p, p', holds[g]);
      EmptyApart(holds[g], x);
    }
    EmptySlice(p', x);
    KernelFacts(p, k, cqes);
    forall i | 0 <= i < |cqes| ensures CqeOk(p', cqes[i]) {
      SameCqe(p, p', cqes[i]);
    }
    FrameSynced(p, k, cqes, p');
  }

  lemma EmptyApart(x: Slice, y: Slice)
    requires y.off == 0 && y.data == []
    ensures Apart(x, y) && Apart(y, x)
  {
  }

  lemma EmptySlice(p: Pool, x: Slice)
    requires PoolOk(p) && p.Live(x.buf) && x.off == 0 && x.data == []
    ensures SliceOk(p, x)
  {
    assert p.Buf(x.buf).mem[0..0] == [];
  }

  lemma CheckedOutFrame(p: Pool, p': Pool, b: nat)
    requires CheckedOut(p, p', b)
    ensures KeepsHeld(p, p') && SameSlots(p, p') && p'.Live(b)
    ensures p'.level == p.level && p'.size == p.size && p'.gen == p.gen
    ensures forall y: nat :: Outside(p', y) == Outside(p, y) + if y == b then 1 else 0
  {
  }

  /** A stream reads `data` into its buffer, and makes a segment of it. */
  function Filled(p: Pool, b: nat, data: seq<Byte>): Pool
    requires p.Live(b) && p.Buf(b).pos + |data| <= |p.Buf(b).mem|
  {
    Consume(Written(p, b, p.Buf(b).pos, data), b, |data|)
  }

  lemma FilledKeeps(p: Pool, holds: map<Holder, Slice>, k: Cursor, cqes: seq<Cqe>, h: Holder, b: nat, data: seq<Byte>)
    requires Sound(p, holds, k, cqes) && h !in holds && p.Held(b) && !InRing(p.Slotted(), b)
    requires p.Buf(b).pos + |data| <= p.Buf(b).len
    ensures p.Buf(b).pos + |data| <= |p.Buf(b).mem|
    ensures Sound(Filled(p, b, data), holds[h := Slice(b, p.Buf(b).pos, data)], k, cqes)
    ensures Elsewhere(p, Filled(p, b, data), b) && Filled(p, b, data).Held(b)
  {
    hide PoolOk, Synced, SliceOk, CqeOk, HeadOpen, Outside, Uses, Apart, Filled, InPlace;
    WithinBuffers(p);
    FilledPool(p, b, data);
    var p' := Filled(p, b, data);
    var x := Slice(b, p.Buf(b).pos, data);
    forall y: nat ensures Outside(p', y) == Uses(holds[h := x], y) { UsesAdd(holds, h, x, y); }
    forall g | g in holds ensures SliceOk(p', holds[g]) && Apart(holds[g], x) && Apart(x, holds[g]) {
      FilledSlice(p, b, data, holds[g]);
    }
    FilledSegment(p, b, data);
    KernelFacts(p, k, cqes);
    forall i | 0 <= i < |cqes| ensures CqeOk(p', cqes[i]) {
      if cqes[i].Data? { InPlaceInRing(p.ring, k, cqes[i]); }
      FilledCqe(p, b, data, cqes[i]);
    }
    FrameSynced(p, k, cqes, p');
  }

  lemma FilledPool(p: Pool, b: nat, data: seq<Byte>)
    requires PoolOk(p) && p.Held(b) && !InRing(p.Slotted(), b)
    requires p.Buf(b).pos + |data| <= p.Buf(b).len == |p.Buf(b).mem|
    ensures var p' := Filled(p, b, data);
      && PoolOk(p') && Elsewhere(p, p', b) && SameSlots(p, p') && p'.Held(b)
      && forall y: nat :: Outside(p', y) == Outside(p, y) + if y == b then 1 else 0
    ensures !InRing(p.ring, b)
  {
    hide PoolOk;
    var x := p.Buf(b).(mem := Overwrite(p.Buf(b).mem, p.Buf(b).pos, data), pos := p.Buf(b).pos + |data|,
                       refs := p.Buf(b).refs + 1);
    RingInSlots(p);
    UpdateKeeps(p, b, x);
    assert With(p, b, x) == Filled(p, b, data);
  }

  lemma RingInSlots(p: Pool)
    requires PoolOk(p)
    ensures forall b :: InRing(p.ring, b) ==> InRing(p.Slotted(), b)
  {
    hide Sum, Admitted, SizeOf, BitmapOk;
    RingDistinct(p);
  }

  lemma FilledSlice(p: Pool, b: nat, data: seq<Byte>, x: Slice)
    requires p.Held(b) && p.Buf(b).pos + |data| <= |p.Buf(b).mem| && SliceOk(p, x)
    ensures SliceOk(Filled(p, b, data), x)
    ensures Apart(x, Slice(b, p.Buf(b).pos, data)) && Apart(Slice(b, p.Buf(b).pos, data), x)
  {
    WrittenKeepsSlice(p, b, p.Buf(b).pos, data, x);
  }

  lemma FilledSegment(p: Pool, b: nat, data: seq<Byte>)
    requires p.Held(b) && p.Buf(b).pos + |data| <= |p.Buf(b).mem|
    ensures SliceOk(Filled(p, b, data), Slice(b, p.Buf(b).pos, data))
  {
    OverwriteFacts(p.Buf(b).mem, p.Buf(b).pos, data, 0, 0);
  }

  lemma FilledCqe(p: Pool, b: nat, data: seq<Byte>, c: Cqe)
    requires p.Held(b) && p.Buf(b).pos + |data| <= |p.Buf(b).mem|
    requires CqeOk(p, c) && (c.Data? ==> c.entry.buf != b)
    ensures CqeOk(Filled(p, b, data), c)
  {
    WrittenKeepsCqe(p, b, p.Buf(b).pos, data, c);
  }
}
