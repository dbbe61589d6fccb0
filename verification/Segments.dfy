/**
 Lists of segments and the flat bytes they stand for.
 */
module Segments {
  import opened FlatStream

  /** The bytes of a list of segments. */
  function Join(segs: seq<seq<Byte>>): seq<Byte> {
    if segs == [] then [] else segs[0] + Join(segs[1..])
  }

  function JoinAll(batches: seq<seq<seq<Byte>>>): seq<Byte> {
    if batches == [] then [] else Join(batches[0]) + JoinAll(batches[1..])
  }

  predicate NonEmpty(segs: seq<seq<Byte>>) {
    forall k :: 0 <= k < |segs| ==> segs[k] != []
  }

  lemma {:induction false} JoinSplit(a: seq<seq<Byte>>, b: seq<seq<Byte>>)
    ensures Join(a + b) == Join(a) + Join(b)
  {
    if a == [] {
      assert a + b == b;
    } else {
      assert (a + b)[1..] == a[1..] + b;
      JoinSplit(a[1..], b);
    }
  }

  /** What lies at and after byte `pos` of segment `current`. */
  function From(segs: seq<seq<Byte>>, current: nat, pos: nat): seq<Byte> {
    if current >= |segs| || pos > |segs[current]| then [] else segs[current][pos..] + Join(segs[current + 1..])
  }

  lemma FromNext(segs: seq<seq<Byte>>, current: nat)
    requires current < |segs|
    ensures From(segs, current, |segs[current]|) == From(segs, current + 1, 0)
    ensures From(segs, current, 0) == Join(segs[current..])
  {
    assert segs[current..][1..] == segs[current + 1..];
    if current + 1 < |segs| {
      assert segs[current + 1..][1..] == segs[current + 2..];
      assert segs[current + 1][0..] == segs[current + 1];
    }
    assert segs[current][0..] == segs[current];
  }

  lemma FromMore(segs: seq<seq<Byte>>, more: seq<seq<Byte>>, current: nat, pos: nat)
    requires current < |segs| && pos <= |segs[current]|
    ensures From(segs + more, current, pos) == From(segs, current, pos) + Join(more)
  {
    assert (segs + more)[current + 1..] == segs[current + 1..] + more;
    JoinSplit(segs[current + 1..], more);
  }

  lemma FromPart(segs: seq<seq<Byte>>, pos: nat, n: nat)
    requires segs != [] && pos + n <= |segs[0]|
    ensures n <= |From(segs, 0, pos)| && From(segs, 0, pos)[..n] == segs[0][pos..pos + n]
    ensures From(segs, 0, pos + n) == From(segs, 0, pos)[n..]
  {
    hide Join;
  }

  lemma CopyStep(dest: seq<Byte>, b: seq<Byte>, n: nat, left: nat)
    requires n <= left <= |b|
    ensures dest + b[..left] == dest + b[..n] + b[n..][..left - n] && b[left..] == b[n..][left - n..]
  {
    assert b[..left] == b[..n] + b[n..][..left - n];
  }

  lemma DropJoin(a: seq<Byte>, b: seq<Byte>, n: nat)
    requires n <= |a|
    ensures a[n..] + b == (a + b)[n..]
  {
  }

  /** The segments of a list of batches. */
  function Concat(batches: seq<seq<seq<Byte>>>): seq<seq<Byte>> {
    if batches == [] then [] else batches[0] + Concat(batches[1..])
  }

  lemma {:induction false} JoinConcat(batches: seq<seq<seq<Byte>>>)
    ensures Join(Concat(batches)) == JoinAll(batches)
  {
    if batches != [] {
      JoinSplit(batches[0], Concat(batches[1..]));
      JoinConcat(batches[1..]);
    }
  }

  lemma FromStep(segs: seq<seq<Byte>>, current: nat, p: nat)
    requires current < |segs| && p <= |segs[current]|
    ensures From(segs, current, p) == segs[current][p..] + From(segs, current + 1, 0)
    ensures current + 1 == |segs| ==> From(segs, current + 1, 0) == []
  {
    FromNext(segs, current);
    if current + 1 < |segs| { FromNext(segs, current + 1); }
  }

  /** A delimiter found in the current segment is the first one of the whole stream. */
  lemma FoundHere(f: seq<Byte>, scanned: seq<Byte>, seg: seq<Byte>, rest: seq<Byte>, b: Byte)
    requires f == scanned + (seg + rest) && b !in scanned && b in seg
    ensures IndexOf(f, b) == |scanned| + IndexOf(seg, b)
    ensures f[..IndexOf(f, b)] == scanned + seg[..IndexOf(seg, b)]
  {
    var i := IndexOf(seg, b);
    hide IndexOf;
    assert f[..|scanned| + i] == scanned + seg[..i];
    assert f[|scanned| + i] == (seg + rest)[i] == seg[i];
    IndexIs(f, b, |scanned| + i);
  }

  lemma IndexIs(f: seq<Byte>, b: Byte, i: nat)
    requires i < |f| && b !in f[..i] && f[i] == b
    ensures IndexOf(f, b) == i
  {
    assert f == f[..i] + f[i..];
    IndexOfJoin(f[..i], f[i..], b);
  }

  lemma Associate(a: seq<Byte>, b: seq<Byte>, c: seq<Byte>)
    ensures a + (b + c) == (a + b) + c && a + b <= (a + b) + c
  {
  }
}
