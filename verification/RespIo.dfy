/**
 `resp_read` of um_io.c on a stream, and `resp_encode` into a write buffer. The reader is proved to be Resp's
 decoder of the bytes that are buffered, the writer to append Resp's encoding.
 */
module RespIo {
  import opened FlatStream
  import opened Segments
  import opened StreamIo
  import Resp

  // ----- Reading

  /** `resp_read_line`. The scan does not go back to the start of a segment when it enters it, so it needs to
      have started at the start of one, or to end in the first. */
  method ReadLine(s: Stream) returns (line: Option<seq<Byte>>)
    requires s.Valid()
    requires s.Whole() || s.segs == [] || s.pos == 0 || CR in s.segs[0][s.pos..]
    modifies s
    ensures s.Valid() && (old(s.Whole()) ==> s.Whole())
    ensures (line, s.Flat()) == Resp.RespLine(old(s.Flat()))
    ensures s.Quiet()
    ensures s.waits != old(s.waits) ==>
      (line.Some? && s.held == []) || (old(s.Buffered()) <= s.held && CR !in s.held)
  {
    hide Stream.Valid, Stream.Buffered, Stream.Flat, From, Join, JoinAll, IndexOf, FlatStream.Skip, Stream.Available;
    var found, len := FindCr(s);
    if !found { return None; }
    var str := s.ConsumeString(len, 2, true);
    return Some(str);
  }

  /** Its scan, which does not take anything. */
  method FindCr(s: Stream) returns (found: bool, len: nat)
    requires s.Valid()
    requires s.Whole() || s.segs == [] || s.pos == 0 || CR in s.segs[0][s.pos..]
    modifies s
    ensures s.Valid() && (old(s.Whole()) ==> s.Whole()) && s.Flat() == old(s.Flat())
    ensures found <==> IndexOf(s.Flat(), CR) < |s.Flat()|
    ensures found ==> len == IndexOf(s.Flat(), CR) <= |s.Buffered()|
    ensures s.Searches() && (s.waits != old(s.waits) ==> old(s.Buffered()) <= s.held && CR !in s.held)
  {
    hide Stream.Valid, Stream.Buffered, Stream.Flat, From, Join, JoinAll, IndexOf, Stream.Available, Stream.Later,
      Stream.Unread;
    s.BufferedFacts();
    len := 0;
    found := s.BeginScan();
    if !found { return; }
    var current: nat, pos: nat := 0, s.pos;
    ghost var scanned: seq<Byte> := [];
    while true
      invariant s.Valid() && s.Flat() == old(s.Flat()) && s.At(current, pos, scanned)
      invariant old(s.Whole()) ==> s.Whole()
      invariant pos == 0 || (current == 0 && (s.Whole() || CR in s.segs[0][pos..]))
      invariant len == |scanned| && CR !in scanned
      invariant s.Searches() && (s.waits != old(s.waits) ==> old(s.Buffered()) <= s.held && CR !in s.held)
      decreases |s.arrivals|, |s.segs| - current
    {
      var seg := s.segs[current][pos..];
      var n := IndexOf(seg, CR);
      if n < |seg| {
        s.FoundAt(current, pos, scanned, CR);
        len := len + n;
        return true, len;
      }
      assert CR !in scanned + seg;
      found := s.NextSegment(current, pos, scanned);
      scanned := scanned + seg;
      len := len + |seg|;
      if !found { return; }
      current := current + 1;
    }
  }

  datatype Scan = Found(len: nat) | NotFound | OutOfBounds

  /** The scan of `resp_read_line` over segments that are all there, with its one `pos`. */
  function ScanSegments(segs: seq<seq<Byte>>, pos: nat): Scan {
    if segs == [] then NotFound
    else if pos > |segs[0]| then OutOfBounds
    else if CR in segs[0][pos..] then Found(IndexOf(segs[0][pos..], CR))
    else
      match ScanSegments(segs[1..], pos)
      case Found(len) => Found(|segs[0]| - pos + len)
      case other => other
  }

  function ScanFlat(f: seq<Byte>): Scan {
    var i := IndexOf(f, CR);
    if i == |f| then NotFound else Found(i)
  }

  /** The scan finds the first CR of the stream, whatever segments follow the first, if and only if it starts
      at the start of that segment or ends in it. */
  lemma ScanRightIff(head: seq<Byte>, pos: nat)
    requires pos < |head|
    ensures pos == 0 || CR in head[pos..] <==>
      forall later: seq<seq<Byte>> :: NonEmpty(later) ==> ScanRight(head, pos, later)
  {
    if pos == 0 || CR in head[pos..] {
      forall later: seq<seq<Byte>> | NonEmpty(later) ensures ScanRight(head, pos, later) {
        ScanIsRight(head, pos, later);
      }
    } else {
      ScanIsWrong(head, pos);
    }
  }

  /** With the segments `later` after it, the scan from byte `pos` of `head` finds what is there. */
  predicate ScanRight(head: seq<Byte>, pos: nat, later: seq<seq<Byte>>)
    requires pos < |head|
  {
    ScanSegments([head] + later, pos) == ScanFlat(head[pos..] + Join(later))
  }

  lemma ScanIsRight(head: seq<Byte>, pos: nat, later: seq<seq<Byte>>)
    requires pos < |head| && (pos == 0 || CR in head[pos..])
    ensures ScanRight(head, pos, later)
  {
    hide IndexOf, Join;
    assert ([head] + later)[0] == head && ([head] + later)[1..] == later;
    if CR in head[pos..] {
      FoundHere(head[pos..] + Join(later), [], head[pos..], Join(later), CR);
    } else {
      ScanFromStart(later);
      assert head[0..] == head;
      IndexOfJoin(head, Join(later), CR);
    }
  }

  lemma ScanIsWrong(head: seq<Byte>, pos: nat)
    requires 0 < pos < |head| && CR !in head[pos..]
    ensures NonEmpty([[CR]]) && !ScanRight(head, pos, [[CR]])
  {
    var later := [[CR]];
    assert ([head] + later)[0] == head && ([head] + later)[1..] == later && later[1..] == [];
    assert Join(later) == [CR] + [];
    IndexOfJoin(head[pos..], Join(later), CR);
    assert ScanFlat(head[pos..] + Join(later)) == Found(|head| - pos);
    if pos == 1 { assert [CR][1..] == []; }
    assert ScanSegments(later, pos) == if pos == 1 then NotFound else OutOfBounds;
  }

  lemma {:induction false} ScanFromStart(segs: seq<seq<Byte>>)
    ensures ScanSegments(segs, 0) == ScanFlat(Join(segs))
  {
    if segs != [] {
      assert segs[0][0..] == segs[0];
      ScanFromStart(segs[1..]);
      if CR in segs[0] {
        FoundHere(Join(segs), [], segs[0], Join(segs[1..]), CR);
      } else {
        IndexOfJoin(segs[0], Join(segs[1..]), CR);
      }
    }
  }

  /** `resp_read_string`. A positive length is read on any segmentation; otherwise it is what is available. */
  method ReadString(s: Stream, len: nat) returns (v: Resp.Value)
    requires s.Valid() && len < Resp.ULONG
    modifies s
    ensures s.Valid() && (old(s.Whole()) ==> s.Whole())
    ensures old(s.Whole()) || 0 < len <= Resp.LONG_MAX ==> (v, s.Flat()) == Resp.RespString(old(s.Flat()), len)
    ensures !(0 < len <= Resp.LONG_MAX) ==>
      v == if old(s.Available()) == [] then Resp.Nil
           else Resp.Str(UpTo(old(s.Available()), if len == 0 then 0 else Resp.ULONG - len))
    ensures v.Nil? || (v.Str? && v.s <= old(s.Flat()) && s.Flat() == FlatStream.Skip(old(s.Flat())[|v.s|..], 2))
    ensures v.Nil? ==> s.Flat() == old(s.Flat())
  {
    hide Stream.Valid, Stream.Buffered, From, Join, JoinAll;
    s.BufferedFacts();
    ghost var was := s.Flat();
    assert s.Whole() ==> was == s.Buffered();
    var data: Option<seq<Byte>>;
    if 0 < len <= Resp.LONG_MAX {
      data := s.ReadExact(len, 2);
    } else {
      data := s.ReadAvailable(if len == 0 then 0 else Resp.ULONG - len, 2);
    }
    if data.None? { return Resp.Nil; }
    assert data.value == was[..|data.value|];
    return Resp.Str(data.value);
  }

  /** `resp_parse_length_field`. */
  method ParseLengthField(msg: seq<Byte>) returns (acc: nat)
    requires msg != []
    ensures acc == Resp.ParseLength(0, msg[1..]) && acc < Resp.ULONG
  {
    acc := 0;
    for i := 1 to |msg|
      invariant acc < Resp.ULONG && Resp.ParseLength(acc, msg[i..]) == Resp.ParseLength(0, msg[1..])
    {
      var next: int := acc * 10 + Resp.Char(msg[i]) - Resp.ZERO;
      acc := next % Resp.ULONG;
    }
  }

  /** `resp_read`, with everything in one segment. */
  method Read(s: Stream) returns (v: Resp.Decoded)
    requires s.Valid() && s.Whole()
    modifies s
    ensures s.Valid() && s.Whole() && (v, s.Flat()) == Resp.Decode(old(s.Flat()))
    decreases |s.Flat()|, 0
  {
    hide Stream.Valid, Stream.Flat, Resp.ParseLength, Resp.RespString, Resp.DecodeItems, Resp.DecodePairs, Resp.Strtol;
    var line := ReadLine(s);
    if line.None? || line.value == [] { return Resp.Ok(Resp.Nil); }
    var msg := line.value;
    var kind := msg[0];
    var len := ParseLengthField(msg);
    if kind == Resp.MAP || kind == Resp.ATTRIBUTES {
      v := ReadHash(s, len);
    } else if kind == Resp.ARRAY || kind == Resp.SET || kind == Resp.PUSH {
      v := ReadArray(s, len);
    } else {
      v := ReadScalar(s, msg, len);
    }
  }

  method ReadScalar(s: Stream, msg: seq<Byte>, len: nat) returns (v: Resp.Decoded)
    requires s.Valid() && s.Whole() && msg != [] && len == Resp.ParseLength(0, msg[1..]) < Resp.ULONG
    modifies s
    ensures s.Valid() && s.Whole() && (v, s.Flat()) == Resp.DecodeScalar(msg, old(s.Flat()))
  {
    hide Stream.Valid, Stream.Flat, Resp.ParseLength, Resp.RespString, Resp.Strtol;
    var kind := msg[0];
    if kind == Resp.BULK || kind == Resp.VERBATIM || kind == Resp.BULK_ERROR {
      var str := ReadString(s, len);
      return
        if kind == Resp.BULK then Resp.Ok(str)
        else if kind == Resp.VERBATIM then Resp.DropEncoding(str)
        else Resp.Ok(Resp.Error(str));
    }
    if kind == Resp.SIMPLE { return Resp.Ok(Resp.Str(msg[1..])); }
    if kind == Resp.NULL { return Resp.Ok(Resp.Nil); }
    if kind == Resp.BOOLEAN { return Resp.Ok(Resp.Bool(|msg| > 1 && msg[1] == 116)); }
    if kind == Resp.INTEGER { return Resp.Ok(Resp.Int(Resp.Strtol(msg[1..]))); }
    if kind == Resp.FLOAT { return Resp.Ok(Resp.Float(msg[1..])); }
    if kind == Resp.SIMPLE_ERROR { return Resp.Ok(Resp.Error(Resp.Str(msg[1..]))); }
    return Resp.Raise;
  }

  /** `resp_decode_array`. */
  method ReadArray(s: Stream, len: nat) returns (v: Resp.Decoded)
    requires s.Valid() && s.Whole()
    modifies s
    ensures s.Valid() && s.Whole() && (v, s.Flat()) == Resp.DecodeItems(old(s.Flat()), len, [])
    decreases |s.Flat()|, 1
  {
    hide Stream.Valid, Stream.Flat, Resp.Decode;
    var items: seq<Resp.Value> := [];
    for i := 0 to len
      invariant s.Valid() && s.Whole() && |s.Flat()| <= |old(s.Flat())|
      invariant Resp.DecodeItems(s.Flat(), len - i, items) == Resp.DecodeItems(old(s.Flat()), len, [])
    {
      var value := Read(s);
      if value.Raise? { return value; }
      items := items + [value.value];
    }
    return Resp.Ok(Resp.Arr(items));
  }

  /** `resp_decode_hash`. */
  method ReadHash(s: Stream, len: nat) returns (v: Resp.Decoded)
    requires s.Valid() && s.Whole()
    modifies s
    ensures s.Valid() && s.Whole() && (v, s.Flat()) == Resp.DecodePairs(old(s.Flat()), len, [])
    decreases |s.Flat()|, 1
  {
    hide Stream.Valid, Stream.Flat, Resp.Decode, Resp.Store;
    var hash: seq<Resp.Pair> := [];
    for i := 0 to len
      invariant s.Valid() && s.Whole() && |s.Flat()| <= |old(s.Flat())|
      invariant Resp.DecodePairs(s.Flat(), len - i, hash) == Resp.DecodePairs(old(s.Flat()), len, [])
    {
      var key := Read(s);
      if key.Raise? { return key; }
      var value := Read(s);
      if value.Raise? { return value; }
      hash := Resp.Store(hash, key.value, value.value);
    }
    return Resp.Ok(Resp.Hash(hash));
  }

  // ----- Writing

  /** `struct um_write_buffer`: a string's storage, filled up to `len`. */
  class WriteBuffer {
    var data: array<Byte>
    var len: nat

    ghost predicate Valid()
      reads this
    {
      len <= data.Length
    }

    ghost function Contents(): seq<Byte>
      reads this, data
      requires Valid()
    {
      data[..len]
    }

    /** `write_buffer_init`. */
    constructor (str: seq<Byte>)
      ensures Valid() && fresh(data) && Contents() == str
      ensures data.Length % 0x1000 == 0 && (data.Length == 0x1000 || 0x1000 < data.Length < |str| + 0x1000)
    {
      var capa := 0x1000;
      while capa < |str|
        invariant capa % 0x1000 == 0 && (capa == 0x1000 || 0x1000 < capa < |str| + 0x1000)
        decreases |str| - capa
      {
        capa := capa + 0x1000;
      }
      data := new Byte[capa](i => if 0 <= i < |str| then str[i] else 0);
      len := |str|;
      new;
      assert data[..len] == str;
    }

    /** `write_buffer_expand`. */
    method Expand(newsize: nat)
      requires Valid()
      modifies `data
      ensures Valid() && newsize <= data.Length && data[..len] == old(data[..len])
      ensures if newsize <= old(data.Length) then data == old(data) else fresh(data) && data.Length < newsize + 0x1000
      ensures (data.Length - old(data.Length)) % 0x1000 == 0
    {
      if data.Length < newsize {
        var capa := data.Length;
        while capa < newsize
          invariant capa >= data.Length && (capa - data.Length) % 0x1000 == 0
          invariant capa == data.Length || capa < newsize + 0x1000
          decreases newsize - capa
        {
          capa := capa + 0x1000;
        }
        var was, n := data, len;
        var grown := new Byte[capa](i requires 0 <= i < capa reads was => if i < n <= was.Length then was[i] else 0);
        assert grown[..n] == was[..n];
        data := grown;
      }
    }

    /** `memcpy` into the storage. */
    method CopyTo(offset: nat, bytes: seq<Byte>)
      requires offset + |bytes| <= data.Length
      modifies data
      ensures data[..offset + |bytes|] == old(data[..offset]) + bytes
    {
      for i := 0 to |bytes|
        invariant data[..offset + i] == old(data[..offset]) + bytes[..i]
      {
        data[offset + i] := bytes[i];
        assert data[..offset + i + 1] == data[..offset + i] + [bytes[i]];
        assert bytes[..i + 1] == bytes[..i] + [bytes[i]];
      }
      assert bytes[..|bytes|] == bytes;
    }

    /** `sprintf`, with its terminating NUL. */
    method Sprintf(offset: nat, text: seq<Byte>)
      requires offset + |text| + 1 <= data.Length
      modifies data
      ensures data[..offset + |text|] == old(data[..offset]) + text
    {
      CopyTo(offset, text + [0]);
      assert data[..offset + |text|] == data[..offset + |text| + 1][..offset + |text|];
    }

    /** `write_buffer_append`. */
    method Append(bytes: seq<Byte>)
      requires Valid()
      modifies this, data
      ensures Valid() && (data == old(data) || fresh(data))
      ensures Contents() == old(Contents()) + bytes
    {
      var totalLen := len + |bytes|;
      Expand(totalLen);
      CopyTo(len, bytes);
      len := totalLen;
    }

    /** `write_buffer_append_resp_bulk_string`: one expansion, with 16 bytes to spare for all but the string. */
    method AppendBulkString(str: seq<Byte>)
      requires Valid() && |str| < MAX_BULK
      modifies this, data
      ensures Valid() && (data == old(data) || fresh(data))
      ensures Contents() == old(Contents()) + Resp.Encode(Resp.Str(str))
    {
      hide Resp.Digits, Resp.Header;
      SpareBytesSufficeIff(|str|);
      ghost var was := Contents();
      var prefix := Resp.Header(Resp.BULK, |str|);
      Expand(len + |str| + 16);
      Sprintf(len, prefix);
      PutLine(len + |prefix|, str);
      len := len + |prefix| + |str| + 2;
      assert was + prefix + (str + Resp.CRLF) == was + (prefix + str + Resp.CRLF);
    }

    method PutLine(offset: nat, str: seq<Byte>)
      requires offset + |str| + 2 <= data.Length
      modifies data
      ensures data[..offset + |str| + 2] == old(data[..offset]) + (str + Resp.CRLF)
    {
      CopyTo(offset, str);
      CopyTo(offset + |str|, Resp.CRLF);
      assert old(data[..offset]) + str + Resp.CRLF == old(data[..offset]) + (str + Resp.CRLF);
    }
  }

  const MAX_BULK: nat := 100_000_000_000

  /** The prefix with its terminating NUL, the string and the postfix fit in the string's length plus 16 if
      and only if the length has at most 11 digits. */
  lemma SpareBytesSufficeIff(len: nat)
    ensures
      && |Resp.Header(Resp.BULK, len)| + 1 <= len + 16
      && |Resp.Header(Resp.BULK, len)| + len + 2 <= len + 16
      <==> len < MAX_BULK
  {
    DigitsCount(len, 11);
    assert Pow10(11) == MAX_BULK by {
      assert Pow10(5) == 100_000;
    }
  }

  function Pow10(n: nat): nat {
    if n == 0 then 1 else 10 * Pow10(n - 1)
  }

  lemma {:induction false} DigitsCount(n: nat, d: nat)
    requires d > 0
    ensures |Resp.Digits(n)| <= d <==> n < Pow10(d)
  {
    if n >= 10 && d > 1 {
      DigitsCount(n / 10, d - 1);
    } else if n < 10 {
      TenFits(d);
    }
  }

  lemma {:induction false} TenFits(d: nat)
    requires d > 0
    ensures 10 <= Pow10(d)
  {
    if d > 1 { TenFits(d - 1); }
  }

  /** Every string in `v` is one that AppendBulkString has room for, and there is no float. */
  predicate StringsFit(v: Resp.Value) {
    match v
    case Str(s) => |s| < MAX_BULK
    case Arr(items) => forall k :: 0 <= k < |items| ==> StringsFit(items[k])
    case Hash(pairs) => forall k :: 0 <= k < |pairs| ==> StringsFit(pairs[k].key) && StringsFit(pairs[k].value)
    case Float(_) => false
    case _ => true
  }

  /** `resp_encode`. What it cannot encode makes it raise, after what comes before. */
  method Encode(buf: WriteBuffer, v: Resp.Value) returns (ok: bool)
    requires buf.Valid() && StringsFit(v)
    modifies buf, buf.data
    ensures buf.Valid() && (buf.data == old(buf.data) || fresh(buf.data))
    ensures ok == Resp.NoErrors(v)
    ensures ok ==> buf.Contents() == old(buf.Contents()) + Resp.Encode(v)
    ensures old(buf.Contents()) <= buf.Contents()
    decreases v
  {
    hide Resp.Header, Resp.EncodeItems, Resp.EncodePairs, WriteBuffer.Contents;
    ok := true;
    match v {
      case Nil => buf.Append([Resp.NULL] + Resp.CRLF);
      case Bool(b) => buf.Append([Resp.BOOLEAN, if b then 116 else 102] + Resp.CRLF);
      case Int(i) => buf.Append(Resp.Header(Resp.INTEGER, i));
      case Str(s) => buf.AppendBulkString(s);
      case Arr(items) =>
        buf.Append(Resp.Header(Resp.ARRAY, |items|));
        ok := EncodeItems(buf, items);
      case Hash(pairs) =>
        buf.Append(Resp.Header(Resp.MAP, |pairs|));
        ok := EncodePairs(buf, pairs);
      case Error(_) => ok := false;
    }
  }

  method EncodeItems(buf: WriteBuffer, items: seq<Resp.Value>) returns (ok: bool)
    requires buf.Valid() && forall k :: 0 <= k < |items| ==> StringsFit(items[k])
    modifies buf, buf.data
    ensures buf.Valid() && (buf.data == old(buf.data) || fresh(buf.data))
    ensures ok == forall k :: 0 <= k < |items| ==> Resp.NoErrors(items[k])
    ensures ok ==> buf.Contents() == old(buf.Contents()) + Resp.EncodeItems(items)
    ensures old(buf.Contents()) <= buf.Contents()
    decreases items
  {
    hide StringsFit, Resp.Encode, Resp.NoErrors;
    for i := 0 to |items|
      invariant buf.Valid() && (buf.data == old(buf.data) || fresh(buf.data))
      invariant forall k :: 0 <= k < i ==> Resp.NoErrors(items[k])
      invariant buf.Contents() + Resp.EncodeItems(items[i..]) == old(buf.Contents()) + Resp.EncodeItems(items)
      invariant old(buf.Contents()) <= buf.Contents()
    {
      var one := Encode(buf, items[i]);
      if !one { return false; }
      assert items[i..][1..] == items[i + 1..];
    }
    return true;
  }

  method EncodePairs(buf: WriteBuffer, pairs: seq<Resp.Pair>) returns (ok: bool)
    requires buf.Valid() && forall k :: 0 <= k < |pairs| ==> StringsFit(pairs[k].key) && StringsFit(pairs[k].value)
    modifies buf, buf.data
    ensures buf.Valid() && (buf.data == old(buf.data) || fresh(buf.data))
    ensures ok == forall k :: 0 <= k < |pairs| ==> Resp.NoErrors(pairs[k].key) && Resp.NoErrors(pairs[k].value)
    ensures ok ==> buf.Contents() == old(buf.Contents()) + Resp.EncodePairs(pairs)
    ensures old(buf.Contents()) <= buf.Contents()
    decreases pairs
  {
    hide StringsFit, Resp.Encode, Resp.NoErrors;
    for i := 0 to |pairs|
      invariant buf.Valid() && (buf.data == old(buf.data) || fresh(buf.data))
      invariant forall k :: 0 <= k < i ==> Resp.NoErrors(pairs[k].key) && Resp.NoErrors(pairs[k].value)
      invariant buf.Contents() + Resp.EncodePairs(pairs[i..]) == old(buf.Contents()) + Resp.EncodePairs(pairs)
      invariant old(buf.Contents()) <= buf.Contents()
    {
      var one := EncodePair(buf, pairs[i]);
      if !one { return false; }
      assert pairs[i..][1..] == pairs[i + 1..];
    }
    return true;
  }

  /** `resp_encode_hash_entry`. */
  method EncodePair(buf: WriteBuffer, pair: Resp.Pair) returns (ok: bool)
    requires buf.Valid() && StringsFit(pair.key) && StringsFit(pair.value)
    modifies buf, buf.data
    ensures buf.Valid() && (buf.data == old(buf.data) || fresh(buf.data))
    ensures ok == (Resp.NoErrors(pair.key) && Resp.NoErrors(pair.value))
    ensures ok ==> buf.Contents() == old(buf.Contents()) + Resp.EncodePair(pair)
    ensures old(buf.Contents()) <= buf.Contents()
    decreases pair
  {
    hide StringsFit, Resp.Encode, Resp.NoErrors;
    ok := Encode(buf, pair.key);
    if ok { ok := Encode(buf, pair.value); }
  }

  lemma EncodingNotEmpty(v: Resp.Value)
    requires Resp.Encodable(v)
    ensures Resp.Encode(v) != []
  {
  }

  lemma OneSegment(f: seq<Byte>)
    ensures JoinAll([[f]]) == f
  {
    var batch := [f];
    var batches := [batch];
    assert batch[1..] == [] && batches[1..] == [];
    assert Join(batch) == f + Join(batch[1..]) == f;
    assert JoinAll(batches) == Join(batch) + JoinAll(batches[1..]) == f;
  }

  /** What one side writes the other reads: an encoded value that arrives in one segment, with anything after
      it, is returned, and what is left is what came after it. */
  method SendAndReceive(v: Resp.Value, rest: seq<Byte>) returns (received: Resp.Decoded, s: Stream)
    requires Resp.Encodable(v) && Resp.NoErrors(v) && StringsFit(v)
    ensures s.Valid()
    ensures received == Resp.Ok(v) && s.Flat() == rest <==> Resp.NoEmptyString(v)
  {
    hide Stream.Valid, Stream.Flat, Resp.Decode, Resp.NoErrors, Resp.NoEmptyString, Resp.Encodable, StringsFit;
    var buf := new WriteBuffer([]);
    var ok := Encode(buf, v);
    EncodingNotEmpty(v);
    var sent := buf.data[..buf.len] + rest;
    assert sent == Resp.Encode(v) + rest;
    s := new Stream([[sent]], false, false);
    OneSegment(sent);
    var _ := s.GetMoreSegments();
    assert s.Flat() == sent;
    received := Read(s);
    ghost var d := Resp.Decode(sent);
    assert d.0 == received && d.1 == s.Flat();
    assert d == (Resp.Ok(v), rest) <==> received == Resp.Ok(v) && s.Flat() == rest;
    Resp.RoundTripIff(v, rest);
  }
}
