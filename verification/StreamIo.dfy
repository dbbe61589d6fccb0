/**
 `struct um_io`: a stream of segments with a cursor, and the reads of um_io.c over it. The segments that the
 multishot operation has still to deliver are known to the model as `arrivals`; a read that runs out of
 segments waits for the next of them, or learns of EOF. Every read is proved to do to the flat bytes what
 FlatStream says, whatever the segments' boundaries are and whenever they arrive.
 */
module StreamIo {
  import opened FlatStream
  import opened Segments
  import opened LineLimit

  /** How the search for a delimiter ends. */
  datatype ScanEnd = AtDelim | AtLimit | Exhausted

  class Stream {
    var segs: seq<seq<Byte>>
    var pos: nat
    var pendingBytes: int
    var consumedBytes: int
    var eof: bool
    ghost var receivedBytes: int
    ghost const totalBytes: int  // all the bytes the stream receives before EOF
    var arrivals: seq<seq<seq<Byte>>>
    const eofWithLast: bool  // EOF comes together with the last segments
    const fails: bool        // the operation ends with an error instead of EOF
    var raised: bool         // a wait has raised that error, and so has the read that waited
    ghost var waits: nat          // how often a read has had to wait
    ghost var held: seq<Byte>     // what was buffered when the last wait began

    ghost predicate Valid()
      reads this
    {
      && NonEmpty(segs)
      && (forall k :: 0 <= k < |arrivals| ==> arrivals[k] != [] && NonEmpty(arrivals[k]))
      && (if segs == [] then pos == 0 else pos < |segs[0]|)
      && (eof ==> arrivals == [])
      && pendingBytes == |Buffered()|
      && consumedBytes + pendingBytes == receivedBytes
      && receivedBytes + |JoinAll(arrivals)| == totalBytes
    }

    /** What has been received and not consumed. */
    ghost function Buffered(): seq<Byte>
      reads this
    {
      From(segs, 0, pos)
    }

    /** Everything that can still be read. */
    ghost function Flat(): seq<Byte>
      reads this
    {
      Buffered() + JoinAll(arrivals)
    }

    /** One segment holds everything there is to read. */
    predicate Whole()
      reads this
    {
      |segs| <= 1 && arrivals == []
    }

    lemma BufferedFacts()
      requires Valid()
      ensures Buffered() == [] <==> segs == []
      ensures |Buffered()| <= |Flat()| && consumedBytes == totalBytes - |Flat()|
      ensures arrivals == [] ==> Flat() == Buffered()
      ensures eof ==> arrivals == []
      ensures segs != [] ==> pos < |segs[0]| && |segs[0]| - pos <= |Buffered()|
      ensures segs == [] ==> pos == 0
    {
      if segs != [] { FromNext(segs, 0); }
    }

    constructor (arrivals: seq<seq<seq<Byte>>>, eofWithLast: bool, fails: bool)
      requires forall k :: 0 <= k < |arrivals| ==> arrivals[k] != [] && NonEmpty(arrivals[k])
      ensures Valid() && Flat() == JoinAll(arrivals) && segs == [] && this.arrivals == arrivals
      ensures totalBytes == |JoinAll(arrivals)| && !eof && !raised
      ensures this.eofWithLast == eofWithLast && this.fails == fails
    {
      segs, pos, pendingBytes, consumedBytes, eof := [], 0, 0, 0, false;
      receivedBytes, totalBytes := 0, |JoinAll(arrivals)|;
      this.arrivals := arrivals;
      this.eofWithLast, this.fails, raised := eofWithLast, fails, false;
      waits, held := 0, [];
    }

    /** What a read that waits for no more than it has to finds: what is buffered, or, if that is nothing, what arrives
        first. */
    ghost function Available(): seq<Byte>
      reads this
    {
      if segs != [] then Buffered() else if arrivals != [] then Join(arrivals[0]) else []
    }

    /** The segments that can still be read after the current one. */
    ghost function Later(current: nat): seq<seq<Byte>>
      reads this
    {
      (if current < |segs| then segs[current + 1..] else []) + Concat(arrivals)
    }

    /** All that is unread, cut as it is or will be. */
    ghost function Unread(): seq<seq<Byte>>
      reads this
    {
      if segs == [] then Concat(arrivals) else if pos <= |segs[0]| then [segs[0][pos..]] + Later(0) else []
    }

    lemma UnreadIsFlat()
      requires Valid()
      ensures Join(Unread()) == Flat()
    {
      JoinConcat(arrivals);
      if segs != [] { JoinSplit(segs[1..], Concat(arrivals)); }
    }

    /** Without a wait nothing arrives, and nothing is noticed or raised; the end is noticed, or an error raised, only
        when everything has arrived. */
    twostate predicate Quiet()
      reads this
    {
      && waits >= old(waits)
      && (waits == old(waits) ==>
           arrivals == old(arrivals) && eof == old(eof) && raised == old(raised) && held == old(held))
      && (eof != old(eof) ==> eof && arrivals == [])
      && (raised != old(raised) ==> raised && fails && !old(eof) && arrivals == [])
      && |arrivals| <= |old(arrivals)|
    }

    /** A search takes nothing, and nothing is lost of what was buffered. */
    twostate predicate Searches()
      reads this
    {
      Quiet() && old(Buffered()) <= Buffered() && (waits == old(waits) ==> segs == old(segs) && pos == old(pos))
    }

    /** EOF has been noticed before, or was announced with the last segments, which have arrived since. */
    predicate NoticedEof(before: bool, hadArrivals: bool)
      reads this
    {
      eof == (before || (hadArrivals && arrivals == [] && eofWithLast))
    }

    /** `io_get_more_segments` and `io_add_segment`: appends what arrives next, learns of EOF, or raises. Nothing is
        done to the stream after it raises, as after it has learnt of EOF. */
    method GetMoreSegments() returns (more: bool)
      requires Valid()
      modifies this
      ensures Valid() && Flat() == old(Flat()) && pos == old(pos)
      ensures more ==> |segs| > |old(segs)| && segs[..|old(segs)|] == old(segs)
      ensures more ==> old(arrivals) != [] && segs == old(segs) + old(arrivals)[0] && arrivals == old(arrivals)[1..]
      ensures !more ==> segs == old(segs) && arrivals == old(arrivals) == []
      ensures !more ==> if fails && !old(eof) then raised && eof == old(eof) else eof && raised == old(raised)
      ensures more ==> raised == old(raised)
      ensures more ==> NoticedEof(old(eof), old(arrivals) != [])
      ensures consumedBytes == old(consumedBytes)
      ensures old(Whole()) ==> Whole()
      ensures waits == old(waits) + 1 && held == old(Buffered())
    {
      hide From, Join, JoinAll;
      waits, held := waits + 1, Buffered();
      if arrivals == [] {
        if !eof && fails { raised := true; } else { eof := true; }
        return false;
      }
      BatchArrives(segs, pos, arrivals);
      var batch := arrivals[0];
      arrivals := arrivals[1..];
      segs := segs + batch;
      var len := TotalLen(batch);
      pendingBytes := pendingBytes + len;
      receivedBytes := receivedBytes + len;
      if arrivals == [] && eofWithLast { eof := true; }
      return true;
    }

    /** `io_shift_head`, once the head segment has been read to its end. */
    method ShiftHead()
      requires NonEmpty(segs) && segs != [] && pos == |segs[0]|
      modifies `segs, `pos
      ensures NonEmpty(segs) && segs == old(segs)[1..] && pos == 0
      ensures Buffered() == old(Buffered())
    {
      FromNext(segs, 0);
      assert segs[1..] == segs[1..][0..];
      if |segs| > 1 { FromNext(segs, 1); FromNext(segs[1..], 0); }
      segs := segs[1..];
      pos := 0;
    }

    /** The common step of `io_copy` and `io_skip`: `n` bytes of the head segment, which leaves if they were
        its last. */
    method TakeFromHead(n: nat) returns (bytes: seq<Byte>)
      requires Valid() && segs != [] && 0 < n <= |segs[0]| - pos
      modifies `segs, `pos, `consumedBytes, `pendingBytes
      ensures Valid() && n <= |old(Buffered())| && |Buffered()| == |old(Buffered())| - n
      ensures bytes == old(Buffered())[..n] && Buffered() == old(Buffered())[n..]
      ensures Flat() == old(Flat())[n..]
      ensures consumedBytes == old(consumedBytes) + n
      ensures old(Whole()) ==> Whole()
    {
      hide Join, JoinAll;
      FromPart(segs, pos, n);
      DropJoin(Buffered(), JoinAll(arrivals), n);
      hide From;
      bytes := segs[0][pos..pos + n];
      pos := pos + n;
      consumedBytes := consumedBytes + n;
      pendingBytes := pendingBytes - n;
      if pos == |segs[0]| { ShiftHead(); }
    }

    /** `io_copy`: takes `len` bytes that are known to be buffered. */
    method Copy(len: nat) returns (dest: seq<Byte>)
      requires Valid() && len <= |Buffered()|
      modifies `segs, `pos, `consumedBytes, `pendingBytes
      ensures Valid() && dest == old(Buffered())[..len] && Buffered() == old(Buffered())[len..]
      ensures consumedBytes == old(consumedBytes) + len
      ensures old(Whole()) ==> Whole()
    {
      hide Valid, Buffered, From, Join, JoinAll;
      dest := [];
      var left := len;
      ghost var was := Buffered();
      while left > 0
        invariant old(Whole()) ==> Whole()
        invariant Valid() && 0 <= left <= len && left <= |Buffered()|
        invariant was[..len] == dest + Buffered()[..left] && was[len..] == Buffered()[left..]
        invariant consumedBytes == old(consumedBytes) + (len - left)
      {
        BufferedFacts();
        var segmentLen := |segs[0]| - pos;
        var n := if segmentLen <= left then segmentLen else left;
        CopyStep(dest, Buffered(), n, left);
        var bytes := TakeFromHead(n);
        dest := dest + bytes;
        left := left - n;
      }
    }

    /** `io_skip`. When `safe` it waits for more segments; otherwise the bytes must be buffered. */
    method SkipBytes(inc: nat, safe: bool)
      requires Valid() && (!safe ==> inc <= |Buffered()|)
      modifies this
      ensures Valid() && Flat() == FlatStream.Skip(old(Flat()), inc)
      ensures !safe ==> arrivals == old(arrivals) && eof == old(eof) && |Buffered()| == |old(Buffered())| - inc
      ensures old(Whole()) ==> Whole()
      ensures Quiet() && (waits != old(waits) ==> safe && held == [] && (|old(Buffered())| < inc || old(segs) == []))
    {
      hide Valid, From, Join, JoinAll;
      BufferedFacts();
      if eof && segs == [] { return; }
      if safe && segs == [] {
        var more := GetMoreSegments();
        BufferedFacts();
        if !more { return; }
      }
      SkipLoop(inc, safe);
    }

    method SkipLoop(inc: nat, safe: bool)
      requires Valid() && (inc > 0 ==> segs != []) && (!safe ==> inc <= |Buffered()|)
      modifies this
      ensures Valid() && Flat() == FlatStream.Skip(old(Flat()), inc)
      ensures !safe ==> arrivals == old(arrivals) && eof == old(eof) && |Buffered()| == |old(Buffered())| - inc
      ensures old(Whole()) ==> Whole()
      ensures Quiet() && (waits != old(waits) ==> safe && held == [] && |old(Buffered())| < inc)
    {
      hide Valid, Flat, Buffered, FlatStream.Skip;
      BufferedFacts();
      var left := inc;
      ghost var was := Flat();
      assert FlatStream.Skip(was, inc) == FlatStream.Skip(Flat(), left);
      while left > 0
        invariant old(Whole()) ==> Whole()
        invariant Valid() && 0 <= left <= inc && (left > 0 ==> segs != [])
        invariant segs != [] ==> pos < |segs[0]| && |segs[0]| - pos <= |Buffered()|
        invariant FlatStream.Skip(was, inc) == FlatStream.Skip(Flat(), left)
        invariant !safe ==> arrivals == old(arrivals) && eof == old(eof) && left <= |Buffered()|
        invariant waits == old(waits) ==> |Buffered()| == |old(Buffered())| - (inc - left)
        invariant Quiet() && (waits != old(waits) ==> safe && held == [] && |old(Buffered())| < inc)
        decreases left
      {
        var segmentLen := |segs[0]| - pos;
        var n := if segmentLen <= left then segmentLen else left;
        BufferedFacts();
        SkipSplit(Flat(), n, left);
        var bytes := TakeFromHead(n);
        left := left - n;
        BufferedFacts();
        if left > 0 && safe && segs == [] {
          var more := GetMoreSegments();
          BufferedFacts();
          if !more { return; }
        }
      }
    }

    /** `io_consume_string` without an output buffer: `len` buffered bytes, then `inc` bytes of terminator. */
    method ConsumeString(len: nat, inc: nat, safe: bool) returns (str: seq<Byte>)
      requires Valid() && len <= |Buffered()| && (!safe ==> len + inc <= |Buffered()|)
      modifies this
      ensures Valid() && len <= |old(Flat())| && str == old(Flat())[..len]
      ensures Flat() == FlatStream.Skip(old(Flat())[len..], inc)
      ensures old(Whole()) ==> Whole()
      ensures Quiet() && (waits != old(waits) ==> safe && held == [] && |old(Buffered())| < len + inc)
    {
      hide From, Join, JoinAll, FlatStream.Skip;
      BufferedFacts();
      PrefixAndRest(Buffered(), JoinAll(arrivals), len);
      str := Copy(len);
      NothingSkipped(Flat());
      BufferedFacts();
      if inc > 0 { SkipBytes(inc, safe); }
    }

    /** A scan has passed the bytes `scanned` and stands at byte `p` of segment `current`. */
    ghost predicate At(current: nat, p: nat, scanned: seq<Byte>)
      reads this
    {
      && current < |segs| && p < |segs[current]|
      && (if current == 0 then p == pos && scanned == []
          else p == 0 && scanned != [] && segs[current - 1] != []
               && scanned[|scanned| - 1] == segs[current - 1][|segs[current - 1]| - 1])
      && Buffered() == scanned + From(segs, current, p)
    }

    /** How every read begins: with a segment to scan, or at EOF. */
    method BeginScan() returns (ok: bool)
      requires Valid()
      modifies this
      ensures Valid() && Flat() == old(Flat())
      ensures if ok then At(0, pos, []) else Flat() == []
      ensures pos == old(pos) && (old(segs) != [] ==> ok && segs == old(segs) && Buffered() == old(Buffered()))
      ensures old(Whole()) ==> Whole()
      ensures Unread() == old(Unread()) && |arrivals| <= |old(arrivals)|
      ensures ok ==> NoticedEof(old(eof), old(arrivals) != []) && Buffered() == old(Available()) != []
      ensures !ok ==> old(Available()) == []
      ensures Searches() && (waits != old(waits) ==> held == old(Buffered()) == [])
      ensures if ok then At(0, pos, []) && Unread() == [segs[0][pos..]] + Later(0) else Unread() == []
    {
      BufferedFacts();
      if eof && segs == [] { return false; }
      ok := true;
      if segs == [] {
        ok := GetMoreSegments();
        if ok { assert segs[0][0..] == segs[0] && [segs[0]] + segs[1..] == segs; }
        BufferedFacts();
      }
      assert [] + Buffered() == Buffered();
    }

    /** How every scan goes on: to the next segment, waiting for it if need be, or to EOF. */
    method NextSegment(current: nat, p: nat, ghost scanned: seq<Byte>) returns (more: bool)
      requires Valid() && At(current, p, scanned)
      modifies this
      ensures Valid() && Flat() == old(Flat())
      ensures current < |old(segs)| <= |segs| && segs[current] == old(segs)[current] && p < |segs[current]|
      ensures more ==> At(current + 1, 0, scanned + segs[current][p..])
      ensures more ==> |arrivals| < |old(arrivals)| || (arrivals == old(arrivals) && segs == old(segs))
      ensures !more ==> Flat() == scanned + segs[current][p..]
      ensures more ==> NoticedEof(old(eof), old(arrivals) != []) && |arrivals| <= |old(arrivals)|
      ensures Later(current) == old(Later(current))
      ensures if more then Later(current) == [segs[current + 1]] + Later(current + 1) else Later(current) == []
      ensures current + 1 < |old(segs)| ==> more && segs == old(segs) && waits == old(waits)
      ensures old(Whole()) ==> Whole()
      ensures Searches() && (waits != old(waits) ==> held == old(Buffered()) == scanned + segs[current][p..])
    {
      hide Flat, Buffered, At, Later, From, JoinAll;
      more := true;
      ScanIsBuffered(current, p, scanned);
      if current + 1 == |segs| {
        more := ArriveAfter(current, p, scanned);
        if !more { return; }
      }
      AtNext(current, p, scanned);
    }

    /** Waiting for a segment after the last one. */
    method ArriveAfter(current: nat, p: nat, ghost scanned: seq<Byte>) returns (more: bool)
      requires Valid() && At(current, p, scanned) && current + 1 == |segs|
      modifies this
      ensures Valid() && Flat() == old(Flat())
      ensures current < |old(segs)| <= |segs| && segs[current] == old(segs)[current] && p < |segs[current]|
      ensures Later(current) == old(Later(current))
      ensures more ==> At(current, p, scanned) && current + 1 < |segs| && |arrivals| < |old(arrivals)|
      ensures more ==> NoticedEof(old(eof), old(arrivals) != [])
      ensures !more ==> Flat() == scanned + segs[current][p..] && Later(current) == []
      ensures old(Whole()) ==> Whole()
      ensures Quiet() && waits == old(waits) + 1 && held == old(Buffered()) <= Buffered()
    {
      hide From, Join, JoinAll, Concat;
      FromStep(segs, current, p);
      if arrivals != [] {
        LaterArrives(segs, arrivals, current);
        FromMore(segs, arrivals[0], current, p);
        FromMore(segs, arrivals[0], 0, pos);
        Associate(scanned, From(segs, current, p), Join(arrivals[0]));
      }
      NoBatches();
      more := GetMoreSegments();
      if !more { BufferedFacts(); }
    }

    lemma AtNext(current: nat, p: nat, scanned: seq<Byte>)
      requires NonEmpty(segs) && At(current, p, scanned) && current + 1 < |segs|
      ensures At(current + 1, 0, scanned + segs[current][p..])
      ensures Later(current) == [segs[current + 1]] + Later(current + 1)
    {
      hide Later, From;
      LaterNext(current);
      FromStep(segs, current, p);
      Associate(scanned, segs[current][p..], From(segs, current + 1, 0));
      LastByte(scanned, segs[current], p);
    }

    lemma LaterNext(current: nat)
      requires current + 1 < |segs|
      ensures Later(current) == [segs[current + 1]] + Later(current + 1)
    {
      hide Concat;
      assert segs[current + 1..] == [segs[current + 1]] + segs[current + 2..];
    }

    /** The branch of `io_read_line` that has found the LF, `len` bytes into the current segment. */
    method TakeLine(current: nat, p: nat, totalLen: nat, len: nat, ghost scanned: seq<Byte>) returns (line: seq<Byte>)
      requires Valid() && At(current, p, scanned) && totalLen == |scanned| && len < |segs[current]| - p
      modifies this
      ensures Valid() && old(totalLen + len < |Flat()|)
      ensures line == Chomp(old(Flat())[..totalLen + len]) && Flat() == old(Flat())[totalLen + len + 1..]
      ensures Quiet() && waits == old(waits)
    {
      hide Valid, Flat, Buffered, From, Join, JoinAll, FlatStream.Skip, Chomp;
      ScanIsBuffered(current, p, scanned);
      var seg := segs[current][p..];
      var total: nat, inc := totalLen + len, 1;
      ghost var text := scanned + seg[..len];
      LineTaken(Flat(), text);
      if total > 0 {
        if (len > 0 && seg[len - 1] == CR)
           || (len == 0 && current > 0 && segs[current - 1][|segs[current - 1]| - 1] == CR) {
          total := total - 1;
          inc := 2;
        }
      }
      assert inc == 2 <==> EndsWithCr(text);
      line := ConsumeString(total, inc, false);
    }

    /** The search loop of `io_read_line`: the LF is `len` bytes after byte `p` of segment `current`, and `totalLen`
        bytes come before those. */
    method FindLf(limit: nat)
      returns (found: bool, current: nat, p: nat, totalLen: nat, len: nat, ghost scanned: seq<Byte>)
      requires Valid() && limit < WRAP
      modifies this
      ensures Valid() && Flat() == old(Flat())
      ensures found ==> At(current, p, scanned) && totalLen == |scanned| && len < |segs[current]| - p
      ensures Search(old(Unread()), limit, limit) == if found then Some(totalLen + len) else None
      ensures Searches() && (waits != old(waits) ==> NoLfIn(old(Buffered()), held, limit))
    {
      NothingFurther();
      NothingUnread(limit);
      NoLfHeld([], limit);
      hide Valid, Search, Wrapped, Further, Flat, Unread, Later, Window, NoticedEof, Whole, IndexOf, From, Buffered,
        PassedOver, NoLfIn, Available;
      ghost var unread := Unread();
      found := BeginScan();
      current, p, totalLen, len, scanned := 0, pos, 0, 0, [];
      if !found { return; }
      var remainingLen: nat := limit;
      while true
        invariant Valid() && Flat() == old(Flat()) && At(current, p, scanned)
        invariant totalLen == |scanned| && remainingLen < WRAP
        invariant Search(unread, limit, limit)
          == Further(totalLen, Search([segs[current][p..]] + Later(current), remainingLen, limit))
        invariant PassedOver(scanned, remainingLen, limit)
        invariant Searches() && (waits != old(waits) ==> NoLfIn(old(Buffered()), held, limit))
        decreases |arrivals|, |segs| - current
      {
        var seg := segs[current][p..];
        SearchRound(seg, Later(current), totalLen, remainingLen, limit);
        found, len := FindInWindow(seg, remainingLen, limit);
        if found { return; }
        if limit > 0 && |seg| >= limit { return; }
        PassedWithoutLf(scanned, seg, remainingLen, limit);
        NoLfHeld(scanned + seg, limit);
        totalLen := totalLen + |seg|;
        remainingLen := Wrapped(remainingLen - |seg|);
        var more := NextSegment(current, p, scanned);
        scanned := scanned + seg;
        if !more {
          NoneFurther(remainingLen, limit);
          return;
        }
        current, p := current + 1, 0;
        assert segs[current][0..] == segs[current];
      }
    }

    /** `io_read_line`. A limit of 0 is none. The CR before the LF may be in an earlier segment than the LF. */
    method ReadLine(limit: nat) returns (line: Option<seq<Byte>>)
      requires Valid() && limit < WRAP
      modifies this
      ensures Valid() && (line, Flat()) == LimitedLine(old(Unread()), limit)
      ensures limit == 0 ==> (line, Flat()) == FlatStream.Line(old(Flat()))
      ensures Quiet() && (waits != old(waits) ==> NoLfIn(old(Buffered()), held, limit))
    {
      UnreadIsFlat();
      UnlimitedIsLine(Unread());
      LineFrom(Unread(), limit);
      hide Valid, Flat, Unread, Search, LimitedLine, FlatStream.Line, Join, At, Chomp;
      var found, current, p, totalLen, len, scanned := FindLf(limit);
      if !found { return None; }
      var str := TakeLine(current, p, totalLen, len, scanned);
      return Some(str);
    }

    /** `io_read` with a positive length: all of it or nothing, then `inc` bytes of terminator. */
    method ReadExact(n: nat, inc: nat) returns (data: Option<seq<Byte>>)
      requires Valid() && n > 0
      modifies this
      ensures Valid()
      ensures data == FlatStream.Exact(old(Flat()), n).0
      ensures Flat() == if data.Some? then FlatStream.Skip(old(Flat())[n..], inc) else old(Flat())
      ensures old(Whole()) ==> Whole()
      ensures Quiet() && (waits != old(waits) ==> |old(Buffered())| < n + inc && |held| < n)
    {
      hide Valid, At, From, Join, JoinAll;
      var enough := CountExact(n);
      BufferedFacts();
      if !enough { return None; }
      var str := ConsumeString(n, inc, true);
      return Some(str);
    }

    /** The loop of `io_read` for such a length. */
    method CountExact(n: nat) returns (enough: bool)
      requires Valid() && n > 0
      modifies this
      ensures Valid() && Flat() == old(Flat()) && (enough <==> n <= |Flat()|) && (enough ==> n <= |Buffered()|)
      ensures old(Whole()) ==> Whole()
      ensures Searches() && (waits != old(waits) ==> |old(Buffered())| < n && |held| < n)
    {
      hide Valid, At, From, Join, JoinAll, Flat, Buffered, Whole, Later, Unread, Available;
      ghost var was := Flat();
      BufferedFacts();
      var ok := BeginScan();
      if !ok { return false; }
      var current: nat, p: nat, remainingLen, totalLen: nat := 0, pos, n, 0;
      ghost var scanned: seq<Byte> := [];
      while true
        invariant old(Whole()) ==> Whole()
        invariant Valid() && Flat() == was && At(current, p, scanned)
        invariant totalLen == |scanned| && remainingLen == n - totalLen > 0
        invariant Searches() && (waits != old(waits) ==> |old(Buffered())| < n && |held| < n)
        decreases |arrivals|, |segs| - current
      {
        ScanIsBuffered(current, p, scanned);
        var segmentLen := |segs[current]| - p;
        if segmentLen > remainingLen { segmentLen := remainingLen; }
        totalLen := totalLen + segmentLen;
        remainingLen := remainingLen - segmentLen;
        if remainingLen == 0 { return true; }
        ghost var seg := segs[current][p..];
        var more := NextSegment(current, p, scanned);
        scanned := scanned + seg;
        if !more { return false; }
        current, p := current + 1, 0;
      }
    }

    /** `io_read` with a length of zero or less: what is available, up to `limit` bytes if that is not zero. */
    method ReadAvailable(limit: nat, inc: nat) returns (data: Option<seq<Byte>>)
      requires Valid()
      modifies this
      ensures Valid()
      ensures data.None? <==> old(Flat()) == []
      ensures data == if old(Available()) == [] then None else Some(UpTo(old(Available()), limit))
      ensures data.None? ==> Flat() == []
      ensures data.Some? ==>
        && data.value != [] && data.value <= old(Flat())
        && Flat() == FlatStream.Skip(old(Flat())[|data.value|..], inc)
      ensures old(Whole()) ==> Whole()
      ensures Quiet() && (waits != old(waits) ==>
        held == [] && (old(segs) == [] || (data.Some? && |old(Buffered())| < |data.value| + inc)))
    {
      hide Valid, At, From, Join, JoinAll;
      BufferedFacts();
      var ok := BeginScan();
      if !ok {
        NothingLeft();
        return None;
      }
      var len := CountAvailable(limit);
      var str := ConsumeString(len, inc, true);
      return Some(str);
    }

    lemma NothingLeft()
      requires Valid()
      ensures Flat() == [] ==> Available() == []
    {
      BufferedFacts();
      AllArrived();
    }

    /** The loop of `io_read` for such a length: it goes on to the last segment there is. */
    method CountAvailable(limit: nat) returns (totalLen: nat)
      requires Valid() && At(0, pos, [])
      modifies this
      ensures Valid() && Flat() == old(Flat()) && Buffered() == old(Buffered()) && (old(Whole()) ==> Whole())
      ensures totalLen == |UpTo(Buffered(), limit)| && 0 < totalLen <= |Buffered()| <= |Flat()|
      ensures UpTo(Buffered(), limit) == Flat()[..totalLen]
      ensures Quiet() && waits == old(waits)
    {
      hide Valid, At, From, Join, JoinAll;
      var current: nat, p: nat, remainingLen := 0, pos, limit;
      totalLen := 0;
      ghost var was, buffered := Flat(), Buffered();
      ghost var scanned: seq<Byte> := [];
      while true
        invariant old(Whole()) ==> Whole()
        invariant Valid() && Flat() == was && At(current, p, scanned) && Buffered() == buffered
        invariant Quiet() && waits == old(waits)
        invariant totalLen == |scanned| && (limit > 0 ==> remainingLen == limit - totalLen > 0)
        decreases |segs| - current
      {
        ScanIsBuffered(current, p, scanned);
        var segmentLen := |segs[current]| - p;
        if limit > 0 && segmentLen > remainingLen { segmentLen := remainingLen; }
        totalLen := totalLen + segmentLen;
        if limit > 0 { remainingLen := remainingLen - segmentLen; }
        if (limit > 0 && remainingLen == 0) || current + 1 == |segs| { return; }
        var more := NextSegment(current, p, scanned);
        scanned := scanned + segs[current][p..];
        current, p := current + 1, 0;
      }
    }

    /** What a scan has passed and the rest of its segment are buffered. */
    lemma ScanIsBuffered(current: nat, p: nat, scanned: seq<Byte>)
      requires Valid() && At(current, p, scanned)
      ensures current < |segs| && p < |segs[current]|
      ensures scanned + segs[current][p..] <= Buffered() <= Flat()
      ensures current + 1 == |segs| ==> Buffered() == scanned + segs[current][p..]
    {
      hide From, Join, JoinAll;
      FromStep(segs, current, p);
      var seg, next := segs[current][p..], From(segs, current + 1, 0);
      Associate(scanned, seg, next);
      Associate(scanned + seg, next, JoinAll(arrivals));
      if current + 1 == |segs| { assert scanned + seg + [] == scanned + seg; }
    }

    /** The search loop of `io_read_to_delim`; `total` bytes come before the delimiter, or before the limit. */
    method FindDelim(delim: Byte, limit: nat) returns (end: ScanEnd, total: nat)
      requires Valid()
      modifies this
      ensures Valid() && Flat() == old(Flat())
      ensures end != Exhausted ==> NoticedEof(old(eof), old(arrivals) != [])
      ensures end == AtDelim ==>
        && total + 1 <= |Buffered()| <= |Flat()|
        && FlatStream.ToDelim(Flat(), delim, limit) == (Some(Flat()[..total]), Flat()[total + 1..])
      ensures end != AtDelim ==> FlatStream.ToDelim(Flat(), delim, limit) == (None, Flat())
      ensures end == AtLimit ==> 0 < limit == total <= |Buffered()| <= |Flat()|
      ensures end == Exhausted && limit > 0 ==> |Flat()| < limit
      ensures Searches() && (waits != old(waits) ==> NoDelimIn(old(Buffered()), held, delim, limit))
    {
      hide Valid, At, From, Join, JoinAll, IndexOf, FlatStream.ToDelim, Flat, Buffered, Unread, Later, Whole, Available,
        NoDelimIn;
      BufferedFacts();
      ghost var was := Flat();
      end, total := Exhausted, 0;
      NoDelimHeld([], delim, limit);
      var ok := BeginScan();
      if !ok {
        DelimAbsent(was, delim, limit);
        return;
      }
      var current: nat, p: nat, remainingLen := 0, pos, limit;
      ghost var scanned: seq<Byte> := [];
      while true
        invariant Valid() && Flat() == was && At(current, p, scanned) && delim !in scanned && end == Exhausted
        invariant total == |scanned| && (limit > 0 ==> remainingLen == limit - total > 0)
        invariant NoticedEof(old(eof), old(arrivals) != []) && (arrivals != [] ==> old(arrivals) != [])
        invariant Searches() && (waits != old(waits) ==> NoDelimIn(old(Buffered()), held, delim, limit))
        decreases |arrivals|, |segs| - current
      {
        ScanIsBuffered(current, p, scanned);
        var searchLen := |segs[current]| - p;
        if limit > 0 && searchLen > remainingLen { searchLen := remainingLen; }
        ghost var seg := segs[current][p..];
        var len := IndexOf(segs[current][p..p + searchLen], delim);
        assert seg[..searchLen] == segs[current][p..p + searchLen];
        if len < searchLen {
          total := total + len;
          assert FlatStream.ToDelim(was, delim, limit) == (Some(was[..total]), was[total + 1..]) by {
            DelimHere(was, scanned, seg, len, delim, limit);
          }
          end := AtDelim;
          return;
        }
        total := total + searchLen;
        if limit > 0 {
          remainingLen := remainingLen - searchLen;
          if total >= limit {
            DelimBeyond(was, scanned, seg, searchLen, delim, limit);
            end := AtLimit;
            return;
          }
        }
        assert delim !in scanned + seg by {
          assert seg[..searchLen] == seg;
        }
        NoDelimHeld(scanned + seg, delim, limit);
        var more := NextSegment(current, p, scanned);
        scanned := scanned + seg;
        if !more {
          DelimAbsent(was, delim, limit);
          return;
        }
        current, p := current + 1, 0;
      }
    }

    /** `io_read_to_delim`. With a negative limit and no delimiter within it, it takes as many bytes as the limit
        and skips one more. `fault` tells that it does so where there is no segment to skip it in. That is what is
        documented if and only if the delimiter is there, or nothing is, or exactly as many bytes as the limit are
        left and EOF has been noticed. */
    method ReadToDelim(delim: Byte, limit: int) returns (data: Option<seq<Byte>>, fault: bool)
      requires Valid()
      modifies this
      ensures Valid()
      ensures limit >= 0 ==> !fault && (data, Flat()) == FlatStream.ToDelim(old(Flat()), delim, limit)
      ensures limit < 0 && FlatStream.ToDelim(old(Flat()), delim, -limit).0.Some? ==>
        !fault && (data, Flat()) == FlatStream.ToDelim(old(Flat()), delim, -limit)
      ensures limit < 0 && FlatStream.ToDelim(old(Flat()), delim, -limit).0.None? ==>
        if |old(Flat())| < -limit then !fault && data == None && Flat() == old(Flat())
        else
          && data == Some(old(Flat())[..-limit])
          && Flat() == FlatStream.Skip(old(Flat())[-limit..], if fault then 0 else 1)
      ensures fault ==> segs == [] && !eof
      ensures limit < 0 ==>
        (!fault && (data, Flat()) == FlatStream.ToDelimOrLimit(old(Flat()), delim, -limit) <==>
          || FlatStream.ToDelim(old(Flat()), delim, -limit).0.Some?
          || old(Flat()) == []
          || (|old(Flat())| == -limit && (old(eof) || (old(arrivals) != [] && eofWithLast))))
      ensures Quiet() && (waits != old(waits) ==>
        NoDelimIn(old(Buffered()), held, delim, if limit < 0 then -limit else limit))
    {
      hide Valid, From, Join, JoinAll, IndexOf, FlatStream.ToDelim, Flat, Buffered;
      var absLimit: nat := if limit < 0 then -limit else limit;
      var end, total := FindDelim(delim, absLimit);
      match end {
        case AtDelim =>
          var str := ConsumeString(total, 1, false);
          return Some(str), false;
        case Exhausted => return None, false;
        case AtLimit =>
          if limit > 0 { return None, false; }
          data, fault := TakeLimit(absLimit);
      }
    }

    /** `io_consume_string` for a negative limit, and its unsafe `io_skip` of one byte. */
    method TakeLimit(n: nat) returns (data: Option<seq<Byte>>, fault: bool)
      requires Valid() && n <= |Buffered()| <= |Flat()|
      modifies this
      ensures Valid() && eof == old(eof) && data == Some(old(Flat())[..n])
      ensures Flat() == FlatStream.Skip(old(Flat())[n..], if fault then 0 else 1)
      ensures fault ==> segs == [] && !eof
      ensures |old(Flat())| == n ==> old(arrivals) == [] && fault == !eof
      ensures Quiet() && waits == old(waits)
    {
      hide Valid, From, Join, JoinAll;
      BufferedFacts();
      AllArrived();
      ghost var was := Buffered();
      assert Flat()[..n] == was[..n] && Flat()[n..] == was[n..] + JoinAll(arrivals);
      var str := Copy(n);
      BufferedFacts();
      fault := segs == [] && !eof;
      if segs != [] { SkipBytes(1, false); }
      return Some(str), fault;
    }

    lemma AllArrived()
      requires Valid()
      ensures |Flat()| == |Buffered()| ==> arrivals == []
    {
      if arrivals != [] { assert Join(arrivals[0]) != []; }
    }

    /** `io_read_uint_be`. */
    method ReadUint(n: nat) returns (result: Option<nat>)
      requires Valid() && n <= 8
      modifies this
      ensures Valid() && (result, Flat()) == FlatStream.Uint(old(Flat()), n)
      ensures Quiet() && (waits != old(waits) ==> held == [] && (|old(Buffered())| < n || old(segs) == []))
    {
      hide Valid, At, Flat, Buffered, FlatStream.Uint, UintFrom;
      ghost var was := Flat();
      var ok := BeginScan();
      UintOfNothing(n);
      if !ok { return None; }
      ScanHasSegment();
      BufferedFacts();
      UintFromStart(was, n);
      var value: nat, left: nat := 0, n;
      while true
        invariant Valid() && segs != []
        invariant FlatStream.Uint(was, n) == UintFrom(value, Flat(), left)
        invariant Quiet() && (waits != old(waits) ==> held == [] && (|old(Buffered())| < n || old(segs) == []))
        invariant waits == old(waits) ==> left <= n && |Buffered()| == |old(Buffered())| - (n - left)
        decreases left, |arrivals|
      {
        var count := TakeCount(left);
        UintFromSplit(value, Flat(), left, count);
        value := TakeUintBytes(value, count);
        left := left - count;
        UintFromEnd(value, Flat(), left);
        BufferedFacts();
        if left == 0 { return Some(value); }
        if segs == [] {
          var more := GetMoreSegments();
          BufferedFacts();
          if !more { return None; }
        }
      }
    }

    lemma ScanHasSegment()
      requires Valid() && At(0, pos, [])
      ensures segs != [] && Flat() != []
    {
      BufferedFacts();
    }

    method TakeCount(left: nat) returns (count: nat)
      requires Valid() && segs != []
      ensures count <= left && count <= |segs[0]| - pos && count <= |Flat()| && (left > 0 ==> count > 0)
    {
      HeadIsBuffered();
      var segmentLen := |segs[0]| - pos;
      return if segmentLen < left then segmentLen else left;
    }

    /** One round of the outer loop of `io_read_uint_be`: `count` bytes of the head segment. */
    method TakeUintBytes(start: nat, count: nat) returns (value: nat)
      requires Valid() && segs != [] && count <= |segs[0]| - pos && count <= |Flat()|
      modifies this
      ensures Valid() && value == Accumulated(start, old(Flat())[..count]) && Flat() == old(Flat())[count..]
      ensures arrivals == old(arrivals) && |Buffered()| == |old(Buffered())| - count
      ensures Quiet() && waits == old(waits)
    {
      HeadIsBuffered();
      hide From, Join, JoinAll;
      var bytes := segs[0][pos..pos + count];
      assert bytes == Flat()[..count];
      value := start;
      for i := 0 to count
        invariant Accumulated(value, bytes[i..]) == Accumulated(start, bytes)
      {
        value := value * 0x100 + bytes[i];
      }
      if count > 0 { SkipBytes(count, false); }
    }

    lemma HeadIsBuffered()
      requires Valid() && segs != []
      ensures segs[0][pos..] <= Buffered() <= Flat()
    {
    }

    /** A delimiter found in the current segment is the first of the stream, and is buffered. */
    lemma FoundAt(current: nat, p: nat, scanned: seq<Byte>, b: Byte)
      requires Valid() && At(current, p, scanned)
      requires b !in scanned && b in segs[current][p..]
      ensures var len := IndexOf(segs[current][p..], b);
        && IndexOf(Flat(), b) == |scanned| + len < |Buffered()| <= |Flat()|
        && Flat()[..|scanned| + len] == scanned + segs[current][p..][..len]
    {
      FromStep(segs, current, p);
      hide From, Join, JoinAll, IndexOf;
      FoundInFlat(scanned, segs[current][p..], From(segs, current + 1, 0), JoinAll(arrivals), b);
    }
  }

  /** What was buffered when the last wait began has no delimiter, and less than the limit. */
  predicate NoDelimIn(buffered: seq<Byte>, held: seq<Byte>, delim: Byte, limit: nat) {
    buffered <= held && delim !in held && (limit > 0 ==> |held| < limit)
  }

  lemma NoDelimHeld(held: seq<Byte>, delim: Byte, limit: nat)
    requires delim !in held && (limit > 0 ==> |held| < limit)
    ensures forall buffered :: buffered <= held ==> NoDelimIn(buffered, held, delim, limit)
  {
  }

  /** What was buffered when the last wait began has no LF within the limit. */
  predicate NoLfIn(buffered: seq<Byte>, held: seq<Byte>, limit: nat) {
    buffered <= held && LF !in UpTo(held, limit)
  }

  /** There is no LF within the limit in what a search has passed, and `remaining` is left of the limit. */
  predicate PassedOver(scanned: seq<Byte>, remaining: nat, limit: nat) {
    LF !in UpTo(scanned, limit) && (|scanned| < limit ==> remaining == limit - |scanned|)
  }

  lemma PassedWithoutLf(scanned: seq<Byte>, seg: seq<Byte>, remaining: nat, limit: nat)
    requires PassedOver(scanned, remaining, limit) && limit < WRAP
    requires LF !in if limit > 0 then Window(seg, remaining) else seg
    ensures PassedOver(scanned + seg, Wrapped(remaining - |seg|), limit)
  {
    if limit > 0 && |scanned| >= limit {
      assert (scanned + seg)[..limit] == scanned[..limit];
      assert UpTo(scanned, limit) == scanned[..limit];
    } else if limit > 0 {
      assert UpTo(scanned + seg, limit) == scanned + Window(seg, remaining);
    }
  }

  lemma NoLfHeld(held: seq<Byte>, limit: nat)
    ensures forall remaining :: PassedOver(held, remaining, limit) ==>
      forall buffered :: buffered <= held ==> NoLfIn(buffered, held, limit)
    ensures PassedOver([], limit, limit) && NoLfIn([], [], limit)
  {
  }

  /** No more than `limit` bytes, if that is not zero. */
  function UpTo(f: seq<Byte>, limit: nat): seq<Byte> {
    if 0 < limit < |f| then f[..limit] else f
  }

  lemma FoundInFlat(scanned: seq<Byte>, seg: seq<Byte>, next: seq<Byte>, rest: seq<Byte>, b: Byte)
    requires b !in scanned && b in seg
    ensures var f, len := (scanned + (seg + next)) + rest, IndexOf(seg, b);
      && IndexOf(f, b) == |scanned| + len < |scanned + (seg + next)| <= |f|
      && f[..|scanned| + len] == scanned + seg[..len]
  {
    hide IndexOf;
    Associate(scanned, seg + next, rest);
    Associate(seg, next, rest);
    FoundHere((scanned + (seg + next)) + rest, scanned, seg, next + rest, b);
  }

  lemma NothingSkipped(f: seq<Byte>)
    ensures FlatStream.Skip(f, 0) == f
  {
  }

  lemma PrefixAndRest(a: seq<Byte>, b: seq<Byte>, n: nat)
    requires n <= |a|
    ensures n <= |a + b| && (a + b)[..n] == a[..n] && (a + b)[n..] == a[n..] + b
  {
  }

  lemma SkipSplit(f: seq<Byte>, n: nat, left: nat)
    requires n <= left && n <= |f|
    ensures FlatStream.Skip(f, left) == FlatStream.Skip(f[n..], left - n)
  {
    if left <= |f| { assert f[n..][left - n..] == f[left..]; }
  }

  predicate EndsWithCr(text: seq<Byte>) {
    text != [] && text[|text| - 1] == CR
  }

  /** What a batch of segments adds to the buffered bytes it takes from those that are to arrive. */
  lemma BatchArrives(segs: seq<seq<Byte>>, pos: nat, arrivals: seq<seq<seq<Byte>>>)
    requires arrivals != [] && arrivals[0] != [] && (if segs == [] then pos == 0 else pos <= |segs[0]|)
    ensures From(segs + arrivals[0], 0, pos) == From(segs, 0, pos) + Join(arrivals[0])
    ensures JoinAll(arrivals) == Join(arrivals[0]) + JoinAll(arrivals[1..])
  {
    hide Join;
    var batch := arrivals[0];
    if segs != [] {
      FromMore(segs, batch, 0, pos);
    } else {
      FromNext(batch, 0);
      assert segs + batch == batch && batch[0..] == batch;
    }
  }

  /** It does not change what comes after the current segment. */
  lemma LaterArrives(segs: seq<seq<Byte>>, arrivals: seq<seq<seq<Byte>>>, current: nat)
    requires arrivals != [] && current < |segs|
    ensures (segs + arrivals[0])[current + 1..] + Concat(arrivals[1..]) == segs[current + 1..] + Concat(arrivals)
  {
    hide Concat;
    ConcatFirst(arrivals);
    var after, rest := segs[current + 1..], Concat(arrivals[1..]);
    assert (segs + arrivals[0])[current + 1..] == after + arrivals[0];
    assert after + arrivals[0] + rest == after + (arrivals[0] + rest);
  }

  lemma ConcatFirst(batches: seq<seq<seq<Byte>>>)
    requires batches != []
    ensures Concat(batches) == batches[0] + Concat(batches[1..])
  {
  }

  lemma LastByte(scanned: seq<Byte>, seg: seq<Byte>, p: nat)
    requires p < |seg|
    ensures var all := scanned + seg[p..]; all != [] && all[|all| - 1] == seg[|seg| - 1]
  {
  }

  lemma NoBatches()
    ensures Concat([]) == []
  {
  }

  lemma LineFrom(segs: seq<seq<Byte>>, limit: nat)
    ensures match Search(segs, limit, limit)
      case None => LimitedLine(segs, limit) == (None, Join(segs))
      case Some(n) =>
        && n < |Join(segs)|
        && LimitedLine(segs, limit) == (Some(Chomp(Join(segs)[..n])), Join(segs)[n + 1..])
  {
    hide Search;
    SearchFindsLf(segs, limit, limit);
  }

  /** One round of the search, `n` bytes into what was unread. */
  lemma SearchRound(seg: seq<Byte>, later: seq<seq<Byte>>, n: nat, remaining: nat, limit: nat)
    ensures var window := if limit > 0 then Window(seg, remaining) else seg;
      Further(n, Search([seg] + later, remaining, limit)) ==
      if LF in window then Some(n + IndexOf(window, LF))
      else if limit > 0 && |seg| >= limit then None
      else Further(n + |seg|, Search(later, Wrapped(remaining - |seg|), limit))
    ensures Wrapped(remaining - |seg|) < WRAP
  {
    hide Search, IndexOf;
    var rest := [seg] + later;
    assert rest[0] == seg && rest[1..] == later;
    SearchStep(rest, remaining, limit);
  }

  /** `memchr` on what the limit leaves of a segment. */
  method FindInWindow(seg: seq<Byte>, remaining: nat, limit: nat) returns (found: bool, len: nat)
    ensures var window := if limit > 0 then Window(seg, remaining) else seg;
      found == (LF in window) && (found ==> len == IndexOf(window, LF) < |seg|)
  {
    var window := if limit > 0 then Window(seg, remaining) else seg;
    len := IndexOf(window, LF);
    found := len < |window|;
  }

  lemma NothingUnread(limit: nat)
    ensures Search([], limit, limit) == None
  {
  }

  lemma NothingFurther()
    ensures forall x :: Further(0, x) == x
  {
  }

  lemma NoneFurther(remaining: nat, limit: nat)
    ensures forall n :: Further(n, Search([], remaining, limit)) == None
  {
  }

  /** A line is taken by taking its text without a final CR, and then the terminator. */
  lemma LineTaken(f: seq<Byte>, text: seq<Byte>)
    requires |text| < |f| && f[..|text|] == text
    ensures EndsWithCr(text) ==>
      (Chomp(text), f[|text| + 1..]) == (f[..|text| - 1], FlatStream.Skip(f[|text| - 1..], 2))
    ensures !EndsWithCr(text) ==> (Chomp(text), f[|text| + 1..]) == (f[..|text|], FlatStream.Skip(f[|text|..], 1))
  {
    if EndsWithCr(text) {
      assert f[|text| - 1..][2..] == f[|text| + 1..];
      assert text[..|text| - 1] == f[..|text| - 1];
    } else {
      assert f[|text|..][1..] == f[|text| + 1..];
    }
  }

  /** The value after some more big-endian bytes. */
  function Accumulated(value: nat, bytes: seq<Byte>): nat
    decreases |bytes|
  {
    if bytes == [] then value else Accumulated(value * 0x100 + bytes[0], bytes[1..])
  }

  /** What a read of `left` more bytes still gives, from `value` on. */
  function UintFrom(value: nat, f: seq<Byte>, left: nat): (Option<nat>, seq<Byte>) {
    if |f| < left then (None, []) else (Some(Accumulated(value, f[..left])), f[left..])
  }

  lemma {:induction false} AccumulatedSplit(value: nat, a: seq<Byte>, b: seq<Byte>)
    ensures Accumulated(value, a + b) == Accumulated(Accumulated(value, a), b)
    decreases |a|
  {
    if a == [] {
      assert a + b == b;
    } else {
      assert (a + b)[1..] == a[1..] + b;
      AccumulatedSplit(value * 0x100 + a[0], a[1..], b);
    }
  }

  lemma {:induction false} AccumulatedIsBigEndian(f: seq<Byte>)
    ensures Accumulated(0, f) == BigEndian(f)
  {
    if f != [] {
      var front := f[..|f| - 1];
      assert f == front + [f[|f| - 1]];
      AccumulatedSplit(0, front, [f[|f| - 1]]);
      AccumulatedIsBigEndian(front);
    }
  }

  lemma UintOfNothing(n: nat)
    ensures FlatStream.Uint([], n) == (None, [])
  {
  }

  lemma UintFromStart(f: seq<Byte>, n: nat)
    requires f != []
    ensures FlatStream.Uint(f, n) == UintFrom(0, f, n)
  {
    if n <= |f| { AccumulatedIsBigEndian(f[..n]); }
  }

  lemma UintFromSplit(value: nat, f: seq<Byte>, left: nat, count: nat)
    requires count <= left && count <= |f|
    ensures UintFrom(value, f, left) == UintFrom(Accumulated(value, f[..count]), f[count..], left - count)
  {
    if left <= |f| {
      assert f[..left] == f[..count] + f[count..][..left - count];
      AccumulatedSplit(value, f[..count], f[count..][..left - count]);
      assert f[left..] == f[count..][left - count..];
    }
  }

  lemma UintFromEnd(value: nat, f: seq<Byte>, left: nat)
    ensures left == 0 ==> UintFrom(value, f, left) == (Some(value), f)
    ensures f == [] && left > 0 ==> UintFrom(value, f, left) == (None, [])
  {
  }

  lemma DelimHere(f: seq<Byte>, scanned: seq<Byte>, seg: seq<Byte>, len: nat, delim: Byte, limit: nat)
    requires scanned + seg <= f && delim !in scanned && len < |seg| && seg[len] == delim && delim !in seg[..len]
    requires limit > 0 ==> |scanned| + len < limit
    ensures ToDelim(f, delim, limit) == (Some(f[..|scanned| + len]), f[|scanned| + len + 1..])
  {
    hide ToDelim;
    var n := |scanned| + len;
    assert f[n] == (scanned + seg)[n] == seg[len];
    assert f[..n] == scanned + seg[..len];
    DelimAt(f, n, delim, limit);
  }

  lemma DelimAt(f: seq<Byte>, n: nat, delim: Byte, limit: nat)
    requires n < |f| && f[n] == delim && delim !in f[..n] && (limit > 0 ==> n < limit)
    ensures ToDelim(f, delim, limit) == (Some(f[..n]), f[n + 1..])
  {
    hide IndexOf;
    var window := if limit == 0 || |f| < limit then f else f[..limit];
    assert window[..n] == f[..n];
    IndexIs(window, delim, n);
  }

  lemma DelimBeyond(f: seq<Byte>, scanned: seq<Byte>, seg: seq<Byte>, searchLen: nat, delim: Byte, limit: nat)
    requires scanned + seg <= f && delim !in scanned && searchLen <= |seg| && delim !in seg[..searchLen]
    requires 0 < limit == |scanned| + searchLen
    ensures ToDelim(f, delim, limit) == (None, f)
  {
    assert f[..limit] == scanned + seg[..searchLen];
    assert delim !in f[..limit];
    if |f| == limit { assert f == f[..limit]; }
  }

  lemma DelimAbsent(f: seq<Byte>, delim: Byte, limit: nat)
    requires delim !in f
    ensures ToDelim(f, delim, limit) == (None, f)
  {
  }

  method TotalLen(segs: seq<seq<Byte>>) returns (len: nat)
    ensures len == |Join(segs)|
  {
    len := 0;
    for i := 0 to |segs|
      invariant len == |Join(segs[..i])|
    {
      len := len + |segs[i]|;
      assert segs[..i + 1] == segs[..i] + [segs[i]];
      JoinSplit(segs[..i], [segs[i]]);
    }
    assert segs[..|segs|] == segs;
  }

  // ----- Runs of reads

  datatype Call = ReadLine | ReadExact(n: nat) | ReadToDelim(delim: Byte, limit: nat) | Skip(n: nat) | ReadUint(n: nat)

  datatype Result = Bytes(data: Option<seq<Byte>>) | Number(number: Option<nat>) | Skipped

  predicate ValidCall(call: Call) {
    match call
    case ReadExact(n) => n > 0
    case ReadUint(n) => n <= 8
    case _ => true
  }

  function FlatCall(f: seq<Byte>, call: Call): (Result, seq<Byte>) {
    match call
    case ReadLine => var (data, rest) := FlatStream.Line(f); (Bytes(data), rest)
    case ReadExact(n) => var (data, rest) := FlatStream.Exact(f, n); (Bytes(data), rest)
    case ReadToDelim(delim, limit) => var (data, rest) := FlatStream.ToDelim(f, delim, limit); (Bytes(data), rest)
    case Skip(n) => (Skipped, FlatStream.Skip(f, n))
    case ReadUint(n) => var (number, rest) := FlatStream.Uint(f, n); (Number(number), rest)
  }

  function FlatCalls(f: seq<Byte>, calls: seq<Call>): (seq<Result>, seq<Byte>)
    decreases |calls|
  {
    if calls == [] then ([], f)
    else
      var n := |calls| - 1;
      var (results, rest) := FlatCalls(f, calls[..n]);
      var (result, rest') := FlatCall(rest, calls[n]);
      (results + [result], rest')
  }

  method DoCall(s: Stream, call: Call) returns (result: Result)
    requires s.Valid() && ValidCall(call)
    modifies s
    ensures s.Valid() && (result, s.Flat()) == FlatCall(old(s.Flat()), call)
  {
    hide Stream.Valid, Stream.Flat, FlatStream.Line, FlatStream.ToDelim, FlatStream.Skip, FlatStream.Uint;
    match call {
      case ReadLine => var data := s.ReadLine(0); result := Bytes(data);
      case ReadExact(n) => var data := s.ReadExact(n, 0); result := Bytes(data);
      case ReadToDelim(delim, limit) => var data, _ := s.ReadToDelim(delim, limit); result := Bytes(data);
      case Skip(n) => s.SkipBytes(n, true); result := Skipped;
      case ReadUint(n) => var number := s.ReadUint(n); result := Number(number);
    }
  }

  /** A run of reads gives what it gives on the flat bytes. */
  method DoCalls(s: Stream, calls: seq<Call>) returns (results: seq<Result>)
    requires s.Valid() && forall k :: 0 <= k < |calls| ==> ValidCall(calls[k])
    modifies s
    ensures s.Valid() && (results, s.Flat()) == FlatCalls(old(s.Flat()), calls)
  {
    hide Stream.Valid, Stream.Flat, FlatCall;
    results := [];
    for i := 0 to |calls|
      invariant s.Valid() && (results, s.Flat()) == FlatCalls(old(s.Flat()), calls[..i])
    {
      assert calls[..i + 1][..i] == calls[..i];
      var result := DoCall(s, calls[i]);
      results := results + [result];
    }
    assert calls[..|calls|] == calls;
  }

  /** Two streams that carry the same bytes give the same results to the same reads and end at the same
      position, however differently the bytes are cut into segments and whenever these arrive. */
  method SegmentationIndependence(a: Stream, b: Stream, calls: seq<Call>) returns (ra: seq<Result>, rb: seq<Result>)
    requires a != b && a.Valid() && b.Valid() && a.Flat() == b.Flat() && a.totalBytes == b.totalBytes
    requires forall k :: 0 <= k < |calls| ==> ValidCall(calls[k])
    modifies a, b
    ensures a.Valid() && b.Valid()
    ensures ra == rb && a.Flat() == b.Flat() && a.consumedBytes == b.consumedBytes
  {
    hide Stream.Valid, Stream.Flat, FlatCalls;
    ra := DoCalls(a, calls);
    rb := DoCalls(b, calls);
    a.BufferedFacts();
    b.BufferedFacts();
  }
}
