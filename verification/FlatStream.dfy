/**
 What the stream reads of um_io.c mean on one flat sequence of bytes: everything the stream still has or
 will receive before EOF. Each function gives the result of a read and the bytes left after it.
 */
module FlatStream {

  type Byte = b: int | 0 <= b < 256 witness 0

  const LF: Byte := 10
  const CR: Byte := 13

  datatype Option<T> = None | Some(value: T)

  /** The first position of `b`, or the length if there is none (`memchr`). */
  function IndexOf(f: seq<Byte>, b: Byte): (i: nat)
    ensures i <= |f| && b !in f[..i] && (i < |f| ==> f[i] == b)
    ensures b in f <==> i < |f|
  {
    if f == [] || f[0] == b then 0 else 1 + IndexOf(f[1..], b)
  }

  /** A line without its LF, and without one CR before the LF. */
  function Chomp(line: seq<Byte>): seq<Byte> {
    if line != [] && line[|line| - 1] == CR then line[..|line| - 1] else line
  }

  function Line(f: seq<Byte>): (Option<seq<Byte>>, seq<Byte>) {
    var i := IndexOf(f, LF);
    if i == |f| then (None, f) else (Some(Chomp(f[..i])), f[i + 1..])
  }

  function Exact(f: seq<Byte>, n: nat): (Option<seq<Byte>>, seq<Byte>) {
    if |f| < n then (None, f) else (Some(f[..n]), f[n..])
  }

  /** Up to a delimiter among the first `limit` bytes; no limit if it is 0. */
  function ToDelim(f: seq<Byte>, delim: Byte, limit: nat): (Option<seq<Byte>>, seq<Byte>) {
    var window := if limit == 0 || |f| < limit then f else f[..limit];
    var i := IndexOf(window, delim);
    if i == |window| then (None, f) else (Some(f[..i]), f[i + 1..])
  }

  /** What is documented for a negative limit: if there is no delimiter within the limit, then what there is, up to
      the limit. */
  function ToDelimOrLimit(f: seq<Byte>, delim: Byte, limit: nat): (Option<seq<Byte>>, seq<Byte>) {
    var (field, rest) := ToDelim(f, delim, limit);
    if field.Some? || f == [] then (field, rest)
    else if |f| < limit then (Some(f), [])
    else (Some(f[..limit]), f[limit..])
  }

  function Skip(f: seq<Byte>, n: nat): (rest: seq<Byte>)
    ensures n == 0 ==> rest == f
    ensures |f| <= n ==> rest == []
  {
    if |f| < n then [] else f[n..]
  }

  /** The big-endian value of some bytes. */
  function BigEndian(f: seq<Byte>): nat {
    if f == [] then 0 else BigEndian(f[..|f| - 1]) * 256 + f[|f| - 1]
  }

  /** Unlike the other reads, a short read here loses what was there. */
  function Uint(f: seq<Byte>, n: nat): (Option<nat>, seq<Byte>) {
    if f == [] then (None, [])
    else if |f| < n then (None, [])
    else (Some(BigEndian(f[..n])), f[n..])
  }

  function Pow256(n: nat): nat {
    if n == 0 then 1 else 256 * Pow256(n - 1)
  }

  // ----- Properties of the specification

  /** A line read takes exactly the line and its terminator, which is LF or CR LF, and the line has no LF;
      it fails, taking nothing, exactly when no LF is left. */
  lemma LineTakesTerminator(f: seq<Byte>)
    ensures var (line, rest) := Line(f);
      if 10 in f then
        && line.Some? && 10 !in line.value
        && (f == line.value + [10] + rest || f == line.value + [13, 10] + rest)
        && (f == line.value + [10] + rest ==> line.value == [] || line.value[|line.value| - 1] != 13)
      else line.None? && rest == f
  {
    var i := IndexOf(f, LF);
    if i < |f| {
      assert f == f[..i] + [LF] + f[i + 1..];
      if i > 0 && f[i - 1] == CR {
        assert f == f[..i - 1] + [CR, LF] + f[i + 1..];
      }
    }
  }

  /** What a line-oriented writer sends is what a reader gets: lines terminated by CR LF are read back one by
      one, whatever else follows, provided they contain no LF. */
  lemma LineRoundTrip(line: seq<Byte>, rest: seq<Byte>)
    requires 10 !in line
    ensures Line(line + [13, 10] + rest) == (Some(line), rest)
  {
    var f := line + [CR, LF] + rest;
    assert f == (line + [CR]) + ([LF] + rest);
    IndexOfJoin(line + [CR], [LF] + rest, LF);
    assert f[..|line| + 1] == line + [CR];
  }

  /** A delimited read takes the bytes before the delimiter and the delimiter itself, and fails, taking
      nothing, exactly when there is none within the limit. */
  lemma DelimTakesDelimiter(f: seq<Byte>, delim: Byte, limit: nat)
    ensures var (field, rest) := ToDelim(f, delim, limit);
      match field
      case Some(s) => f == s + [delim] + rest && delim !in s && (limit > 0 ==> |s| < limit)
      case None => rest == f && forall k :: 0 <= k < |f| && (limit == 0 || k < limit) ==> f[k] != delim
  {
    hide IndexOf;
    var window := if limit == 0 || |f| < limit then f else f[..limit];
    var i := IndexOf(window, delim);
    assert forall k :: 0 <= k < |window| ==> window[k] == f[k];
    if i < |window| {
      assert window[..i] == f[..i];
      assert f == f[..i] + [delim] + f[i + 1..];
    } else {
      assert forall k :: 0 <= k < |window| ==> window[k] in window;
    }
  }

  /** What an exact read, an integer read or a skip takes, and what it leaves, is all there was; a short integer read
      loses what there was. */
  lemma FixedReads(f: seq<Byte>, n: nat)
    ensures var (data, rest) := Exact(f, n);
      if n <= |f| then data.Some? && |data.value| == n && f == data.value + rest else data.None? && rest == f
    ensures var (number, rest) := Uint(f, n);
      if n <= |f| && f != [] then number.Some? && number.value == BigEndian(f[..n]) && f == f[..n] + rest
      else number.None? && rest == []
    ensures var rest := Skip(f, n); if n <= |f| then f == f[..n] + rest else rest == []
  {
  }

  lemma {:induction false} BigEndianBound(f: seq<Byte>)
    ensures BigEndian(f) < Pow256(|f|)
  {
    if f != [] {
      BigEndianBound(f[..|f| - 1]);
    }
  }

  lemma {:induction false} BigEndianFirst(f: seq<Byte>)
    requires f != []
    ensures BigEndian(f) == f[0] * Pow256(|f| - 1) + BigEndian(f[1..])
  {
    hide BigEndian, Pow256;
    var n := |f| - 1;
    BigEndianLast(f);
    PowerStep(n);
    if n > 0 {
      BigEndianFirst(f[..n]);
      BigEndianLast(f[1..]);
      assert f[..n][1..] == f[1..][..n - 1] && f[1..][n - 1] == f[n];
      Distribute(f[0], Pow256(n - 1), BigEndian(f[..n][1..]));
    } else {
      assert f[..n] == [] && f[1..] == [];
    }
  }

  lemma BigEndianLast(f: seq<Byte>)
    ensures BigEndian([]) == 0
    ensures f != [] ==> BigEndian(f) == BigEndian(f[..|f| - 1]) * 256 + f[|f| - 1]
  {
  }

  lemma PowerStep(n: nat)
    ensures Pow256(0) == 1 && (n > 0 ==> Pow256(n) == 256 * Pow256(n - 1))
  {
  }

  lemma Distribute(a: nat, p: nat, b: nat)
    ensures (a * p + b) * 256 == a * (256 * p) + b * 256
  {
  }

  /** The value of up to 8 bytes fits the 64-bit word the source accumulates it in. */
  lemma UintFits(f: seq<Byte>)
    requires |f| <= 8
    ensures BigEndian(f) < 0x1_0000_0000_0000_0000
  {
    BigEndianBound(f);
    Pow256Monotonic(|f|, 8);
    assert Pow256(8) == 0x1_0000_0000_0000_0000 by {
      assert Pow256(4) == 0x1_0000_0000;
    }
  }

  lemma {:induction false} Pow256Monotonic(m: nat, n: nat)
    requires m <= n
    ensures 0 < Pow256(m) <= Pow256(n)
  {
    if m > 0 {
      Pow256Monotonic(m - 1, n - 1);
    } else if n > 0 {
      Pow256Monotonic(0, n - 1);
    }
  }

  lemma {:induction false} IndexOfJoin(a: seq<Byte>, b: seq<Byte>, c: Byte)
    requires c !in a
    ensures IndexOf(a + b, c) == |a| + IndexOf(b, c)
  {
    if a == [] {
      assert a + b == b;
    } else {
      assert (a + b)[1..] == a[1..] + b;
      IndexOfJoin(a[1..], b, c);
    }
  }
}
