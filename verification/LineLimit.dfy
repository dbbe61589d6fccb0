/**
 How far the search loop of `io_read_line` looks. What remains of the limit is a 64-bit number from which the
 lengths of the segments passed are taken, without regard to the limit having been reached.
 */
module LineLimit {
  import opened FlatStream
  import opened Segments

  const WRAP: nat := 0x1_0000_0000_0000_0000

  /** The search of `io_read_line` for the LF, over what is unread of the segments: its position, or None. A limit
      of 0 is none. */
  function Search(segs: seq<seq<Byte>>, remaining: nat, limit: nat): Option<nat> {
    if segs == [] then None
    else
      var seg := segs[0];
      var window := if limit > 0 then Window(seg, remaining) else seg;
      var len := IndexOf(window, LF);
      if len < |window| then Some(len)
      else if limit > 0 && |seg| >= limit then None
      else Further(|seg|, Search(segs[1..], Wrapped(remaining - |seg|), limit))
  }

  /** A position that is `n` further. */
  function Further(n: nat, position: Option<nat>): Option<nat> {
    match position
    case None => None
    case Some(k) => Some(n + k)
  }

  /** What `io_read_line` returns and leaves: the line, or nothing and everything. */
  function LimitedLine(segs: seq<seq<Byte>>, limit: nat): (r: (Option<seq<Byte>>, seq<Byte>)) {
    match Search(segs, limit, limit)
    case None => (None, Join(segs))
    case Some(n) =>
      SearchFindsLf(segs, limit, limit);
      (Some(Chomp(Join(segs)[..n])), Join(segs)[n + 1..])
  }

  function Wrapped(n: int): nat {
    n % WRAP
  }

  /** The LF of a line of less than `limit` bytes. */
  function WithinLimit(f: seq<Byte>, limit: nat): Option<nat> {
    var i := IndexOf(f, LF);
    if i < |f| && i < limit then Some(i) else None
  }

  function Window(seg: seq<Byte>, remaining: nat): seq<Byte> {
    if |seg| > remaining then seg[..remaining] else seg
  }

  lemma SearchStep(segs: seq<seq<Byte>>, remaining: nat, limit: nat)
    requires segs != []
    ensures var window := if limit > 0 then Window(segs[0], remaining) else segs[0];
      Search(segs, remaining, limit) ==
      if LF in window then Some(IndexOf(window, LF))
      else if limit > 0 && |segs[0]| >= limit then None
      else Further(|segs[0]|, Search(segs[1..], Wrapped(remaining - |segs[0]|), limit))
  {
  }

  /** What is found is a line feed. */
  lemma {:induction false} SearchFindsLf(segs: seq<seq<Byte>>, remaining: nat, limit: nat)
    ensures Search(segs, remaining, limit).Some? ==>
      var n := Search(segs, remaining, limit).value; n < |Join(segs)| && Join(segs)[n] == LF
    decreases |segs|
  {
    hide Search, IndexOf, Join, Wrapped;
    if segs == [] {
      NothingFound(remaining, limit);
    } else {
      var seg, rest := segs[0], Join(segs[1..]);
      JoinFirst(segs);
      SearchStep(segs, remaining, limit);
      SearchFindsLf(segs[1..], Wrapped(remaining - |seg|), limit);
      assert forall k :: 0 <= k < |rest| ==> (seg + rest)[|seg| + k] == rest[k];
    }
  }

  lemma NothingFound(remaining: nat, limit: nat)
    ensures Search([], remaining, limit) == None
  {
  }

  /** Without a limit it is the first one. */
  lemma {:induction false} SearchUnlimited(segs: seq<seq<Byte>>, remaining: nat)
    ensures var i := IndexOf(Join(segs), LF);
      Search(segs, remaining, 0) == if i < |Join(segs)| then Some(i) else None
    decreases |segs|
  {
    hide IndexOf, Search;
    if segs == [] {
      NoSegments(remaining);
    } else {
      var seg, rest := segs[0], Join(segs[1..]);
      SearchStep(segs, remaining, 0);
      if LF in seg {
        FoundHere(seg + rest, [], seg, rest, LF);
      } else {
        IndexOfJoin(seg, rest, LF);
        SearchUnlimited(segs[1..], Wrapped(remaining - |seg|));
      }
    }
  }

  lemma NoSegments(remaining: nat)
    ensures Search([], remaining, 0) == None && IndexOf([], LF) == 0
  {
  }

  /** Without a limit, a line read is the flat line read. */
  lemma UnlimitedIsLine(segs: seq<seq<Byte>>)
    ensures LimitedLine(segs, 0) == Line(Join(segs))
  {
    hide IndexOf, Search;
    SearchUnlimited(segs, 0);
  }

  /** A line that ends within the limit is found. */
  lemma {:induction false} SearchOutcome(segs: seq<seq<Byte>>, remaining: nat, limit: nat)
    requires 0 < remaining < WRAP && remaining <= limit
    ensures WithinLimit(Join(segs), remaining).Some? ==>
      Search(segs, remaining, limit) == WithinLimit(Join(segs), remaining)
    decreases |segs|
  {
    hide Search, WithinLimit, IndexOf;
    if segs == [] {
      NothingWithin(remaining);
    } else {
      var seg, rest := segs[0], Join(segs[1..]);
      SearchStep(segs, remaining, limit);
      if LF in Window(seg, remaining) {
        FirstInWindow(seg, rest, remaining);
      } else {
        NotInWindow(seg, rest, remaining);
        if |seg| < remaining { SearchOutcome(segs[1..], remaining - |seg|, limit); }
      }
    }
  }

  lemma NothingWithin(limit: nat)
    ensures WithinLimit([], limit) == None
  {
  }

  lemma FirstInWindow(seg: seq<Byte>, rest: seq<Byte>, remaining: nat)
    requires LF in Window(seg, remaining)
    ensures var window := Window(seg, remaining);
      WithinLimit(seg + rest, remaining) == Some(IndexOf(window, LF))
  {
    var window := Window(seg, remaining);
    var i := IndexOf(window, LF);
    hide IndexOf;
    assert (seg + rest)[..i] == window[..i];
    IndexIs(seg + rest, LF, i);
  }

  lemma NotInWindow(seg: seq<Byte>, rest: seq<Byte>, remaining: nat)
    requires LF !in Window(seg, remaining)
    ensures WithinLimit(seg + rest, remaining) ==
      if |seg| >= remaining then None
      else Further(|seg|, WithinLimit(rest, remaining - |seg|))
  {
    if |seg| >= remaining {
      assert forall k :: 0 <= k < remaining ==>
        (seg + rest)[k] == seg[..remaining][k] && seg[..remaining][k] in seg[..remaining];
      assert |seg| == remaining ==> seg[..remaining] == seg;
    } else {
      IndexOfJoin(seg, rest, LF);
    }
  }

  predicate LimitKept(head: seq<Byte>, later: seq<seq<Byte>>, limit: nat) {
    Search([head] + later, limit, limit) == WithinLimit(head + Join(later), limit)
  }

  /** The limit is kept, whatever segments follow the first, if and only if the first one has the LF or at least
      as many bytes as the limit. */
  lemma LimitKeptIff(head: seq<Byte>, limit: nat)
    requires head != [] && 0 < limit < WRAP
    ensures LF in head || |head| >= limit <==>
      forall later: seq<seq<Byte>> :: NonEmpty(later) ==> LimitKept(head, later, limit)
  {
    if LF in head || |head| >= limit {
      forall later: seq<seq<Byte>> | NonEmpty(later) ensures LimitKept(head, later, limit) {
        DecidedInFirst(head, later, limit);
      }
    } else {
      LimitMissed(head, limit);
    }
  }

  lemma DecidedInFirst(head: seq<Byte>, later: seq<seq<Byte>>, limit: nat)
    requires limit > 0 && (LF in head || |head| >= limit)
    ensures LimitKept(head, later, limit)
  {
    hide IndexOf, Join;
    assert ([head] + later)[0] == head && ([head] + later)[1..] == later;
    var window := if |head| > limit then head[..limit] else head;
    if LF in window { FirstInWindow(head, Join(later), limit); } else { NotInWindow(head, Join(later), limit); }
  }

  /** Segments that use up the limit exactly, one byte more, and then a line feed. */
  function Beyond(head: seq<Byte>, limit: nat): seq<seq<Byte>>
    requires |head| < limit
  {
    [seq(limit - |head|, _ => 0), [0], [LF]]
  }

  lemma LimitMissed(head: seq<Byte>, limit: nat)
    requires head != [] && LF !in head && |head| < limit < WRAP
    ensures NonEmpty(Beyond(head, limit)) && !LimitKept(head, Beyond(head, limit), limit)
  {
    hide IndexOf, Search, WithinLimit, Join;
    var fill: seq<Byte> := seq(limit - |head|, _ => 0);
    var last: seq<seq<Byte>> := [[LF]];
    var later := Beyond(head, limit);
    assert later == [fill] + ([[0]] + last);
    FoundAtOnce(limit);
    Passed(last, [0], 0, limit);
    Passed([[0]] + last, fill, |fill|, limit);
    Passed(later, head, limit, limit);
    NotInWindow(head, Join(later), limit);
    assert Join(later) == fill + Join(later[1..]) by { JoinFirst(later); }
    FillerHasNone(fill, Join(later[1..]));
  }

  lemma JoinFirst(segs: seq<seq<Byte>>)
    requires segs != []
    ensures Join(segs) == segs[0] + Join(segs[1..])
  {
  }

  /** A segment without LF, shorter than the limit, is passed. */
  lemma Passed(rest: seq<seq<Byte>>, seg: seq<Byte>, remaining: nat, limit: nat)
    requires LF !in seg && |seg| < limit
    ensures Search([seg] + rest, remaining, limit) == Further(|seg|, Search(rest, Wrapped(remaining - |seg|), limit))
  {
    assert ([seg] + rest)[1..] == rest;
    assert |seg| > remaining ==> LF !in seg[..remaining];
  }

  lemma FoundAtOnce(limit: nat)
    ensures Search([[LF]], WRAP - 1, limit) == Some(0)
  {
    assert Window([LF], WRAP - 1) == [LF];
  }

  lemma FillerHasNone(fill: seq<Byte>, rest: seq<Byte>)
    requires LF !in fill
    ensures WithinLimit(fill + rest, |fill|) == None
  {
    IndexOfJoin(fill, rest, LF);
  }
}
