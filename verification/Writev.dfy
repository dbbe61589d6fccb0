/**
 Vectored writes: the partial-write loop of `um_writev` (um.c) and the iovec arithmetic of um_utils.c.

 The kernel is a list of answers, one per submission: an error, or how many bytes it is willing to take; it
 takes at least one byte and never more than it was given. The file is the list of pieces it has taken,
 each with the offset it was submitted at.
 */
module Writev {
  import opened FlatStream

  /** A buffer, and how much of it has been passed by `iov_base`. */
  datatype Iovec = Iovec(buffer: seq<Byte>, base: nat)

  predicate ValidIovec(v: Iovec) {
    v.base <= |v.buffer|
  }

  /** `iov_len`. */
  function IovLen(v: Iovec): nat
    requires ValidIovec(v)
  {
    |v.buffer| - v.base
  }

  predicate ValidIovecs(vs: seq<Iovec>) {
    forall k :: 0 <= k < |vs| ==> ValidIovec(vs[k])
  }

  /** The bytes a list of iovecs stands for. */
  function Bytes(vs: seq<Iovec>): seq<Byte>
    requires ValidIovecs(vs)
  {
    if vs == [] then [] else vs[0].buffer[vs[0].base..] + Bytes(vs[1..])
  }

  /** An argument: a string or an IO buffer, or something that cannot be written. */
  datatype Arg = Buffer(bytes: seq<Byte>) | Other

  predicate AllBuffers(buffers: seq<Arg>) {
    forall k :: 0 <= k < |buffers| ==> buffers[k].Buffer?
  }

  /** `um_alloc_iovecs_for_writing`, which raises unless every argument is a buffer. */
  method AllocIovecs(buffers: seq<Arg>) returns (ok: bool, iovecs: array<Iovec>, totalLen: nat)
    ensures ok == AllBuffers(buffers)
    ensures fresh(iovecs)
    ensures ok ==> iovecs.Length == |buffers| && ValidIovecs(iovecs[..])
    ensures ok ==> Bytes(iovecs[..]) == Flatten(buffers) && totalLen == |Flatten(buffers)|
  {
    iovecs := new Iovec[|buffers|](_ => Iovec([], 0));
    ok, totalLen := true, 0;
    for i := 0 to |buffers|
      invariant AllBuffers(buffers[..i]) && ValidIovecs(iovecs[..i])
      invariant Bytes(iovecs[..i]) == Flatten(buffers[..i])
      invariant totalLen == |Flatten(buffers[..i])|
    {
      if !buffers[i].Buffer? { return false, iovecs, totalLen; }
      iovecs[i] := Iovec(buffers[i].bytes, 0);
      totalLen := totalLen + |buffers[i].bytes|;
      assert iovecs[..i + 1] == iovecs[..i] + [iovecs[i]];
      BytesJoin(iovecs[..i], [iovecs[i]]);
      assert buffers[..i + 1] == buffers[..i] + [buffers[i]];
      FlattenJoin(buffers[..i], [buffers[i]]);
    }
    assert iovecs[..] == iovecs[..|buffers|];
    assert buffers == buffers[..|buffers|];
  }

  function Flatten(buffers: seq<Arg>): seq<Byte> {
    if buffers == [] then []
    else (if buffers[0].Buffer? then buffers[0].bytes else []) + Flatten(buffers[1..])
  }

  lemma {:induction false} FlattenJoin(a: seq<Arg>, b: seq<Arg>)
    ensures Flatten(a + b) == Flatten(a) + Flatten(b)
  {
    if a == [] {
      assert a + b == b;
    } else {
      assert (a + b)[1..] == a[1..] + b;
      FlattenJoin(a[1..], b);
    }
  }

  lemma {:induction false} BytesJoin(a: seq<Iovec>, b: seq<Iovec>)
    requires ValidIovecs(a) && ValidIovecs(b)
    ensures ValidIovecs(a + b) && Bytes(a + b) == Bytes(a) + Bytes(b)
  {
    if a == [] {
      assert a + b == b;
    } else {
      assert (a + b)[1..] == a[1..] + b;
      BytesJoin(a[1..], b);
    }
  }

  /** `um_advance_iovecs_for_writing`: drops exactly the next `adv` bytes, in place. `ptr` is the index the
      caller's pointer stands at and `len` the number of iovecs left. */
  method AdvanceIovecs(iovecs: array<Iovec>, ptr: nat, len: nat, adv: nat) returns (ptr': nat, len': nat)
    requires ptr + len == iovecs.Length && ValidIovecs(iovecs[ptr..])
    requires adv <= |Bytes(iovecs[ptr..])|
    modifies iovecs
    ensures ptr' + len' == iovecs.Length && ValidIovecs(iovecs[ptr'..])
    ensures Bytes(iovecs[ptr'..]) == old(Bytes(iovecs[ptr..]))[adv..]
  {
    ptr', len' := ptr, len;
    var left: nat := adv;
    ghost var all := Bytes(iovecs[ptr..]);
    while left > 0
      invariant ptr' + len' == iovecs.Length && left <= adv && ValidIovecs(iovecs[ptr'..])
      invariant left <= |Bytes(iovecs[ptr'..])|
      invariant Bytes(iovecs[ptr'..])[left..] == all[adv..]
      decreases len'
    {
      var first := iovecs[ptr'];
      assert iovecs[ptr'..][1..] == iovecs[ptr' + 1..];
      if left < IovLen(first) {
        iovecs[ptr'] := Iovec(first.buffer, first.base + left);
        assert iovecs[ptr'..][1..] == old(iovecs[..])[ptr' + 1..];
        return;
      } else {
        left := left - IovLen(first);
        ptr' := ptr' + 1;
        len' := len' - 1;
      }
    }
  }

  // ----- The partial-write loop

  /** How one submission ends: with an error; with some bytes taken (one more than `extra`, or all there
      is), `late` when an exception resumes the fiber after that; or with the fiber resumed by
      something else before, the operation cancelled and `taken` bytes of it already written. */
  datatype Answer = Fails | Takes(extra: nat, late: bool) | Interrupted(raises: bool, taken: nat)

  datatype Outcome = Returned | Raised | StillWaiting

  /** A piece of the file: the offset it was submitted at, `NO_OFFSET` meaning the file's own position. */
  datatype Piece = Piece(offset: int, bytes: seq<Byte>)

  const NO_OFFSET: int := -1

  function Next(offset: int, n: nat): int {
    if offset == NO_OFFSET then NO_OFFSET else offset + n
  }

  function Min(a: nat, b: nat): nat {
    if a < b then a else b
  }

  /** The loop over flat data: which pieces the kernel takes, and how the call ends. */
  function FlatWrite(data: seq<Byte>, offset: int, answers: seq<Answer>): (Outcome, seq<Piece>) {
    if answers == [] then (StillWaiting, [])
    else
      match answers[0]
      case Fails => (Raised, [])
      case Interrupted(raises, taken) =>
        (if raises then Raised else Returned, [Piece(offset, data[..Min(taken, |data|)])])
      case Takes(extra, late) =>
        var n := Min(extra + 1, |data|);
        var piece := Piece(offset, data[..n]);
        if n == |data| then (if late then Raised else Returned, [piece])
        else
          var (outcome, pieces) := FlatWrite(data[n..], Next(offset, n), answers[1..]);
          (outcome, [piece] + pieces)
  }

  /** `um_writev`: on any division of the data into buffers it does what the flat loop does. */
  method Writev(buffers: seq<Arg>, start: int, answers: seq<Answer>)
    returns (outcome: Outcome, len: nat, file: seq<Piece>)
    requires start == NO_OFFSET || 0 <= start
    ensures !AllBuffers(buffers) ==> outcome == Raised && file == []
    ensures AllBuffers(buffers) ==>
      && len == |Flatten(buffers)|
      && (outcome, file) == if len == 0 then (Returned, []) else FlatWrite(Flatten(buffers), start, answers)
  {
    hide Bytes, Flatten;
    var ok, iovecs, totalLen := AllocIovecs(buffers);
    if !ok { return Raised, 0, []; }
    var ptr: nat, iovecsLen: nat, fileOffset := 0, |buffers|, start;
    len, file := totalLen, [];
    if totalLen == 0 { return Returned, len, file; }
    var left := totalLen;
    ghost var all := Flatten(buffers);
    assert iovecs[ptr..] == iovecs[..] && answers[0..] == answers;
    assert file + FlatWrite(all, start, answers).1 == FlatWrite(all, start, answers).1;
    for i := 0 to |answers|
      invariant ptr + iovecsLen == iovecs.Length && ValidIovecs(iovecs[ptr..])
      invariant left == |Bytes(iovecs[ptr..])| > 0
      invariant fileOffset == NO_OFFSET || 0 <= fileOffset
      invariant var (o, pieces) := FlatWrite(Bytes(iovecs[ptr..]), fileOffset, answers[i..]);
        FlatWrite(all, start, answers) == (o, file + pieces)
    {
      assert answers[i..][1..] == answers[i + 1..];
      var data := Bytes(iovecs[ptr..]);
      ghost var before := file;
      assert file + [] == file;
      match answers[i] {
        case Fails =>
          return Raised, len, file;
        case Interrupted(raises, taken) =>
          file := file + [Piece(fileOffset, data[..Min(taken, left)])];
          return if raises then Raised else Returned, len, file;
        case Takes(extra, late) =>
          var res := Min(extra + 1, left);
          file := file + [Piece(fileOffset, data[..res])];
          left := left - res;
          if left == 0 { return if late then Raised else Returned, len, file; }
          ghost var pieces := FlatWrite(data[res..], Next(fileOffset, res), answers[i + 1..]).1;
          assert before + ([Piece(fileOffset, data[..res])] + pieces) == file + pieces;
          ptr, iovecsLen := AdvanceIovecs(iovecs, ptr, iovecsLen, res);
          if fileOffset != NO_OFFSET { fileOffset := fileOffset + res; }
      }
    }
    assert file + [] == file;
    outcome := StillWaiting;
  }

  // ----- What the flat loop promises

  function Written(file: seq<Piece>): seq<Byte> {
    if file == [] then [] else file[0].bytes + Written(file[1..])
  }

  /** Every piece was submitted as far behind the first as there are bytes before it, or at the file's own position. */
  predicate AtOffsets(file: seq<Piece>, offset: int) {
    forall k :: 0 <= k < |file| ==>
      file[k].offset == if offset == NO_OFFSET then NO_OFFSET else offset + |Written(file[..k])|
  }

  /** However the call ends, the kernel has taken a prefix of the data, once and in order, at consecutive
      offsets; if it is still waiting then every answer so far has taken at least one byte. */
  lemma {:induction false} TakesPrefix(data: seq<Byte>, offset: int, answers: seq<Answer>)
    requires data != [] && (offset == NO_OFFSET || 0 <= offset)
    ensures var (outcome, file) := FlatWrite(data, offset, answers);
      && Written(file) <= data && AtOffsets(file, offset)
      && (outcome == StillWaiting ==> |answers| <= |Written(file)| < |data|)
  {
    hide Written, AtOffsets;
    FirstPiece(Piece(offset, data), []);
    if answers != [] && !answers[0].Fails? {
      var n := Min(if answers[0].Takes? then answers[0].extra + 1 else answers[0].taken, |data|);
      var pieces: seq<Piece> := [];
      if answers[0].Takes? && n < |data| {
        TakesPrefix(data[n..], Next(offset, n), answers[1..]);
        pieces := FlatWrite(data[n..], Next(offset, n), answers[1..]).1;
        assert data == data[..n] + data[n..];
      }
      FirstPiece(Piece(offset, data[..n]), pieces);
      OffsetsGoOn(Piece(offset, data[..n]), pieces);
    }
  }

  lemma FirstPiece(piece: Piece, pieces: seq<Piece>)
    ensures Written([]) == [] && forall offset :: AtOffsets([], offset)
    ensures Written([piece] + pieces) == piece.bytes + Written(pieces)
    ensures [piece] + [] == [piece]
  {
    assert ([piece] + pieces)[1..] == pieces;
  }

  lemma OffsetsGoOn(piece: Piece, pieces: seq<Piece>)
    requires piece.offset == NO_OFFSET || 0 <= piece.offset
    requires AtOffsets(pieces, if piece.offset == NO_OFFSET then NO_OFFSET else piece.offset + |piece.bytes|)
    ensures AtOffsets([piece] + pieces, piece.offset)
  {
    hide Written;
    var file := [piece] + pieces;
    forall k | 0 <= k < |file|
      ensures file[k].offset == if piece.offset == NO_OFFSET then NO_OFFSET else piece.offset + |Written(file[..k])|
    {
      FirstPiece(piece, []);
      if k > 0 {
        assert file[..k] == [piece] + pieces[..k - 1];
        FirstPiece(piece, pieces[..k - 1]);
      } else {
        assert file[..0] == [];
      }
    }
  }

  /** The bytes that are not taken yet when the loop meets a resumption without an exception, or None if it
      meets none. Only lengths matter. */
  function LeftAtResume(len: nat, answers: seq<Answer>): Option<nat>
    decreases |answers|
  {
    if answers == [] then None
    else
      match answers[0]
      case Fails => None
      case Interrupted(raises, taken) => if raises then None else Some(len - Min(taken, len))
      case Takes(extra, _) =>
        var n := Min(extra + 1, len);
        if n == len then None else LeftAtResume(len - n, answers[1..])
  }

  /** A normal return means that all of the data was taken if and only if the fiber was not resumed by
      something else, before the kernel was done, while bytes were left. */
  lemma {:induction false} ReturnedMeansAllIff(data: seq<Byte>, offset: int, answers: seq<Answer>)
    requires data != [] && (offset == NO_OFFSET || 0 <= offset)
    requires FlatWrite(data, offset, answers).0 == Returned
    ensures Written(FlatWrite(data, offset, answers).1) == data <==>
      LeftAtResume(|data|, answers).None? || LeftAtResume(|data|, answers).value == 0
    decreases |answers|
  {
    hide Written;
    var n := Min(if answers[0].Takes? then answers[0].extra + 1 else answers[0].taken, |data|);
    var pieces: seq<Piece> := [];
    if answers[0].Takes? && n < |data| {
      ReturnedMeansAllIff(data[n..], Next(offset, n), answers[1..]);
      pieces := FlatWrite(data[n..], Next(offset, n), answers[1..]).1;
    }
    FirstPiece(Piece(offset, data[..n]), pieces);
    assert data == data[..n] + data[n..];
    assert (data[..n] + Written(pieces))[n..] == Written(pieces);
  }

  /** The same course of events, up to how much of a cancelled write the kernel had done. */
  predicate SameCourse(a: seq<Answer>, b: seq<Answer>) {
    && |a| == |b|
    && forall k :: 0 <= k < |a| ==>
         b[k] == a[k] || (a[k].Interrupted? && b[k].Interrupted? && b[k].raises == a[k].raises)
  }

  function NothingDone(answers: seq<Answer>): (none: seq<Answer>)
    ensures SameCourse(answers, none)
  {
    seq(|answers|, k requires 0 <= k < |answers| =>
      if answers[k].Interrupted? then Interrupted(answers[k].raises, 0) else answers[k])
  }

  /** A caller can rely on a normal return, however much of a cancelled write the kernel had done, if and only
      if the loop meets no resumption without an exception. */
  lemma ReturnReliableIff(data: seq<Byte>, offset: int, answers: seq<Answer>)
    requires data != [] && (offset == NO_OFFSET || 0 <= offset)
    requires FlatWrite(data, offset, answers).0 == Returned
    ensures LeftAtResume(|data|, answers).None? <==>
      forall others :: SameCourse(answers, others) ==> Written(FlatWrite(data, offset, others).1) == data
  {
    hide Written, SameCourse, FlatWrite;
    if LeftAtResume(|data|, answers).None? {
      forall others | SameCourse(answers, others) ensures Written(FlatWrite(data, offset, others).1) == data {
        CourseDecides(data, offset, answers, others);
        ReturnedMeansAllIff(data, offset, others);
      }
    } else {
      var others := NothingDone(answers);
      CourseDecides(data, offset, answers, others);
      ReturnedMeansAllIff(data, offset, others);
      NothingDoneLeaves(|data|, answers);
    }
  }

  lemma {:induction false} CourseDecides(data: seq<Byte>, offset: int, a: seq<Answer>, b: seq<Answer>)
    requires data != [] && SameCourse(a, b)
    ensures FlatWrite(data, offset, b).0 == FlatWrite(data, offset, a).0
    ensures LeftAtResume(|data|, b).None? == LeftAtResume(|data|, a).None?
    decreases |a|
  {
    if a != [] && a[0].Takes? && Min(a[0].extra + 1, |data|) < |data| {
      var n := Min(a[0].extra + 1, |data|);
      CourseDecides(data[n..], Next(offset, n), a[1..], b[1..]);
    }
  }

  lemma {:induction false} NothingDoneLeaves(len: nat, answers: seq<Answer>)
    requires len > 0 && LeftAtResume(len, answers).Some?
    ensures LeftAtResume(len, NothingDone(answers)).Some? && LeftAtResume(len, NothingDone(answers)).value > 0
    decreases |answers|
  {
    if answers[0].Takes? {
      assert NothingDone(answers)[1..] == NothingDone(answers[1..]);
      NothingDoneLeaves(len - Min(answers[0].extra + 1, len), answers[1..]);
    }
  }

  /** The answer that ends the loop, or `|answers|` if it waits for more. */
  function EndsAt(len: nat, answers: seq<Answer>): nat
    decreases |answers|
  {
    if answers == [] then 0
    else if answers[0].Takes? && Min(answers[0].extra + 1, len) < len then
      1 + EndsAt(len - Min(answers[0].extra + 1, len), answers[1..])
    else 0
  }

  /** An exception that resumes the fiber when the write is done already makes a difference if and only if the write
      is the one that ends the loop: the call then raises, with everything written. After a partial write it is
      swallowed. */
  lemma {:induction false} ExceptionHeardIff(data: seq<Byte>, offset: int, answers: seq<Answer>, k: nat)
    requires data != [] && k < |answers| && answers[k].Takes?
    ensures var others := answers[k := answers[k].(late := !answers[k].late)];
      var (outcome, file), (outcome', file') := FlatWrite(data, offset, answers), FlatWrite(data, offset, others);
      && file' == file && (outcome' != outcome <==> k == EndsAt(|data|, answers))
      && (outcome' != outcome ==> {outcome, outcome'} == {Returned, Raised} && Written(file) == data)
    decreases |answers|
  {
    hide Written;
    var others := answers[k := answers[k].(late := !answers[k].late)];
    FirstPiece(Piece(offset, data), []);
    assert data[..|data|] == data;
    if answers[0].Takes? && Min(answers[0].extra + 1, |data|) < |data| {
      var n := Min(answers[0].extra + 1, |data|);
      var pieces := FlatWrite(data[n..], Next(offset, n), answers[1..]).1;
      FirstPiece(Piece(offset, data[..n]), pieces);
      assert data == data[..n] + data[n..];
      if k > 0 {
        assert others[1..] == answers[1..][k - 1 := others[k]];
        ExceptionHeardIff(data[n..], Next(offset, n), answers[1..], k - 1);
      } else {
        assert others[1..] == answers[1..];
      }
    }
  }

  /** The bytes that some answers of a kernel that takes them are good for. */
  function Offered(answers: seq<Answer>): nat
    decreases |answers|
  {
    if answers == [] then 0 else (if answers[0].Takes? then answers[0].extra + 1 else 0) + Offered(answers[1..])
  }

  lemma OfferedFirst(answers: seq<Answer>, k: nat)
    requires k < |answers|
    ensures Offered(answers[..0]) == 0
    ensures Offered(answers[..k + 1]) ==
      (if answers[0].Takes? then answers[0].extra + 1 else 0) + Offered(answers[1..][..k])
  {
    assert answers[..k + 1][1..] == answers[1..][..k];
  }

  /** The first answers up to the `k`th together take less than `len` bytes. */
  predicate LeavesSome(answers: seq<Answer>, k: nat, len: nat) {
    k < |answers| && answers[k].Takes? && Offered(answers[..k + 1]) < len
  }

  /** The loop ends with the first answer that is no taking of bytes, or with which all of them are taken. */
  lemma {:induction false} EndsAtFirst(len: nat, answers: seq<Answer>)
    requires len > 0
    ensures var e := EndsAt(len, answers);
      && e <= |answers|
      && (forall k :: 0 <= k < e ==> LeavesSome(answers, k, len))
      && (e < |answers| ==> !answers[e].Takes? || Offered(answers[..e + 1]) >= len)
    decreases |answers|
  {
    hide Offered;
    if answers != [] {
      OfferedFirst(answers, 0);
      NothingOffered(answers[1..]);
      if answers[0].Takes? && answers[0].extra + 1 < len {
        var n := answers[0].extra + 1;
        EndsAtFirst(len - n, answers[1..]);
        var e := EndsAt(len - n, answers[1..]);
        assert EndsAt(len, answers) == e + 1;
        forall k | 0 <= k < e + 1 ensures LeavesSome(answers, k, len) {
          OfferedFirst(answers, k);
          if k > 0 { assert LeavesSome(answers[1..], k - 1, len - n); }
        }
        if e < |answers[1..]| {
          OfferedFirst(answers, e + 1);
          assert answers[e + 1] == answers[1..][e];
        }
      }
    }
  }

  /** What the call does and how much is written follows from that answer, and from what the others before it took. */
  lemma {:induction false} OutcomeIs(data: seq<Byte>, offset: int, answers: seq<Answer>)
    requires data != []
    ensures var e := EndsAt(|data|, answers);
      var (outcome, file) := FlatWrite(data, offset, answers);
      && e <= |answers|
      && (e == |answers| ==> outcome == StillWaiting && |Written(file)| == Offered(answers))
      && (e < |answers| ==> EndedBy(answers[e], outcome, |Written(file)|, Offered(answers[..e]), |data|))
    decreases |answers|
  {
    hide Written, Offered;
    EndsAtFirst(|data|, answers);
    FirstPiece(Piece(offset, data), []);
    NothingOffered(answers);
    if answers != [] && answers[0].Takes? && answers[0].extra + 1 < |data| {
      var n, rest := answers[0].extra + 1, answers[1..];
      OutcomeIs(data[n..], Next(offset, n), rest);
      FirstPiece(Piece(offset, data[..n]), FlatWrite(data[n..], Next(offset, n), rest).1);
      var e := EndsAt(|data| - n, rest);
      assert EndsAt(|data|, answers) == e + 1;
      assert rest[..|rest|] == rest && answers[..|rest| + 1] == answers;
      OfferedFirst(answers, e);
      assert |Written(FlatWrite(data, offset, answers).1)| ==
        n + |Written(FlatWrite(data[n..], Next(offset, n), rest).1)|;
      assert e < |rest| ==> answers[e + 1] == rest[e];
    } else if answers != [] && !answers[0].Fails? {
      var n := Min(if answers[0].Takes? then answers[0].extra + 1 else answers[0].taken, |data|);
      FirstPiece(Piece(offset, data[..n]), []);
    }
  }

  lemma NothingOffered(answers: seq<Answer>)
    ensures Offered([]) == 0 && Offered(answers[..0]) == 0
  {
  }

  /** How a call ends by an answer, after `before` of `len` bytes have been taken. */
  predicate EndedBy(a: Answer, outcome: Outcome, written: nat, before: nat, len: nat) {
    match a
    case Fails => outcome == Raised && written == before
    case Interrupted(raises, taken) =>
      && outcome == (if raises then Raised else Returned)
      && written == (if before + taken < len then before + taken else len)
    case Takes(_, late) => outcome == (if late then Raised else Returned) && written == len
  }

  /** What a file holds once the pieces have been put into it, each where it was submitted. */
  function PutAt(content: seq<Byte>, at: nat, bytes: seq<Byte>): seq<Byte>
    requires at <= |content|
  {
    content[..at] + bytes + if at + |bytes| <= |content| then content[at + |bytes|..] else []
  }

  function PutAll(content: seq<Byte>, file: seq<Piece>): seq<Byte>
    decreases |file|
  {
    if file == [] then content
    else
      var piece := file[0];
      PutAll(if 0 <= piece.offset <= |content| then PutAt(content, piece.offset, piece.bytes) else content, file[1..])
  }

  /** Written at an offset, the data ends up there in one piece, as far as it was taken, however it was divided. */
  lemma {:induction false} WrittenInPlace(content: seq<Byte>, file: seq<Piece>, offset: nat)
    requires AtOffsets(file, offset) && offset <= |content|
    ensures PutAll(content, file) == PutAt(content, offset, Written(file))
    decreases |file|
  {
    hide AtOffsets;
    if file == [] {
      assert PutAt(content, offset, []) == content;
    } else {
      FirstAtOffset(file, offset);
      var piece, rest := file[0], file[1..];
      var content' := PutAt(content, offset, piece.bytes);
      WrittenInPlace(content', rest, offset + |piece.bytes|);
      PutTwice(content, offset, piece.bytes, Written(rest));
    }
  }

  lemma FirstAtOffset(file: seq<Piece>, offset: nat)
    requires AtOffsets(file, offset) && file != []
    ensures file[0].offset == offset && AtOffsets(file[1..], offset + |file[0].bytes|)
    ensures Written(file) == file[0].bytes + Written(file[1..])
  {
    assert file[..0] == [];
    forall k | 0 <= k < |file[1..]|
      ensures file[1..][k].offset == offset + |file[0].bytes| + |Written(file[1..][..k])|
    {
      assert file[..k + 1][0] == file[0] && file[..k + 1][1..] == file[1..][..k];
    }
  }

  lemma PutTwice(content: seq<Byte>, at: nat, a: seq<Byte>, b: seq<Byte>)
    requires at <= |content|
    ensures at + |a| <= |PutAt(content, at, a)|
    ensures PutAt(PutAt(content, at, a), at + |a|, b) == PutAt(content, at, a + b)
  {
    var once := PutAt(content, at, a);
    assert once[..at + |a|] == content[..at] + a;
    if at + |a| + |b| <= |content| {
      assert once[at + |a| + |b|..] == content[at + |a| + |b|..];
    }
  }
}
