/**
 RESP (the Redis serialization protocol) as um_io.c writes and reads it: `resp_encode` as a function from
 values to bytes, `resp_read` as a function on the flat bytes that are buffered, and the law that the second
 undoes the first. Sections "Integers", "Bulk strings", "Arrays", "Nulls", "Booleans" and "Maps" of the Redis
 serialization protocol specification.
 */
module Resp {
  import opened FlatStream

  datatype Value =
    | Nil
    | Bool(b: bool)
    | Int(i: int)
    | Str(s: seq<Byte>)
    | Arr(items: seq<Value>)
    | Hash(pairs: seq<Pair>)
    | Float(text: seq<Byte>)  // the number that strtod reads from the text
    | Error(message: Value)

  datatype Pair = Pair(key: Value, value: Value)

  datatype Decoded = Ok(value: Value) | Raise

  const CRLF: seq<Byte> := [CR, LF]

  // Type bytes.
  const NULL: Byte := 95        // _
  const BOOLEAN: Byte := 35     // #
  const INTEGER: Byte := 58     // :
  const FLOAT: Byte := 44       // ,
  const BULK: Byte := 36        // $
  const ARRAY: Byte := 42       // *
  const MAP: Byte := 37         // %
  const ATTRIBUTES: Byte := 124 // |
  const SET: Byte := 126        // ~
  const PUSH: Byte := 62        // >
  const SIMPLE: Byte := 43      // +
  const VERBATIM: Byte := 61    // =
  const SIMPLE_ERROR: Byte := 45 // -
  const BULK_ERROR: Byte := 33  // !

  const ZERO: Byte := 48
  const MINUS: Byte := 45
  const PLUS: Byte := 43
  const COLON: Byte := 58

  // ----- Decimal numbers

  /** `%ld` of a number that is not negative. */
  function Digits(n: nat): (s: seq<Byte>)
    ensures s != [] && forall k :: 0 <= k < |s| ==> ZERO <= s[k] < ZERO + 10
  {
    if n < 10 then [ZERO + n] else Digits(n / 10) + [ZERO + n % 10]
  }

  function Decimal(i: int): seq<Byte> {
    if i < 0 then [MINUS] + Digits(-i) else Digits(i)
  }

  const ULONG: nat := 0x1_0000_0000_0000_0000
  const LONG_MAX: int := 0x7FFF_FFFF_FFFF_FFFF
  const FIXNUM_MAX: int := 0x3FFF_FFFF_FFFF_FFFF

  /** A byte as a `char`, which is signed. */
  function Char(b: Byte): int {
    if b >= 128 then b - 256 else b
  }

  /** The loop of `resp_parse_length_field`: any byte counts as a digit, in wrapping 64-bit arithmetic. */
  function ParseLength(acc: nat, s: seq<Byte>): (n: nat)
    ensures acc < ULONG ==> n < ULONG
    decreases |s|
  {
    if s == [] then acc
    else
      var next: int := acc * 10 + Char(s[0]) - ZERO;
      ParseLength(next % ULONG, s[1..])
  }

  predicate Digit(b: Byte) {
    ZERO <= b < ZERO + 10
  }

  /** The value of the leading digits. */
  function LeadingDigits(acc: nat, s: seq<Byte>): nat
    decreases |s|
  {
    if s == [] || !Digit(s[0]) then acc else LeadingDigits(acc * 10 + (s[0] - ZERO), s[1..])
  }

  function SkipSpace(s: seq<Byte>): seq<Byte> {
    if s != [] && (s[0] == 32 || 9 <= s[0] <= 13) then SkipSpace(s[1..]) else s
  }

  /** `strtol` in base 10. */
  function Strtol(s: seq<Byte>): int {
    var t := SkipSpace(s);
    if t != [] && t[0] == MINUS then
      var n: int := LeadingDigits(0, t[1..]);
      if n > LONG_MAX + 1 then -LONG_MAX - 1 else -n
    else
      var n := LeadingDigits(0, if t != [] && t[0] == PLUS then t[1..] else t);
      if n > LONG_MAX then LONG_MAX else n
  }

  // ----- Encoding

  function Header(kind: Byte, n: int): seq<Byte> {
    [kind] + Decimal(n) + CRLF
  }

  /** `resp_encode`. It raises on an Error; how it prints a float is left out. */
  function Encode(v: Value): seq<Byte>
  {
    match v
    case Nil => [NULL] + CRLF
    case Bool(b) => [BOOLEAN, if b then 116 else 102] + CRLF
    case Int(i) => Header(INTEGER, i)
    case Str(s) => Header(BULK, |s|) + s + CRLF
    case Arr(items) => Header(ARRAY, |items|) + EncodeItems(items)
    case Hash(pairs) => Header(MAP, |pairs|) + EncodePairs(pairs)
    case _ => []
  }

  function EncodeItems(items: seq<Value>): seq<Byte>
  {
    if items == [] then [] else Encode(items[0]) + EncodeItems(items[1..])
  }

  function EncodePairs(pairs: seq<Pair>): seq<Byte>
  {
    if pairs == [] then [] else EncodePair(pairs[0]) + EncodePairs(pairs[1..])
  }

  function EncodePair(pair: Pair): seq<Byte>
  {
    Encode(pair.key) + Encode(pair.value)
  }

  /** Built from what `resp_encode` accepts, floats aside. */
  predicate NoErrors(v: Value) {
    match v
    case Arr(items) => forall k :: 0 <= k < |items| ==> NoErrors(items[k])
    case Hash(pairs) => forall k :: 0 <= k < |pairs| ==> NoErrors(pairs[k].key) && NoErrors(pairs[k].value)
    case Error(_) => false
    case _ => true
  }

  // ----- Decoding

  /** `resp_read_line`: up to a CR, which is skipped with the byte after it. */
  function RespLine(f: seq<Byte>): (r: (Option<seq<Byte>>, seq<Byte>))
    ensures |r.1| <= |f| && (r.0.Some? ==> |r.1| < |f|)
  {
    var i := IndexOf(f, CR);
    if i == |f| then (None, f) else (Some(f[..i]), Skip(f[i..], 2))
  }

  /** `resp_read_string`: `io_read` with a signed length. A length of zero or less means what is available. */
  function RespString(f: seq<Byte>, len: nat): (r: (Value, seq<Byte>))
    ensures |r.1| <= |f|
  {
    if f == [] then (Nil, f)
    else if 0 < len <= LONG_MAX then
      if |f| < len then (Nil, f) else (Str(f[..len]), Skip(f[len..], 2))
    else
      var limit := if len == 0 || len >= ULONG || ULONG - len > |f| then |f| else ULONG - len;
      (Str(f[..limit]), Skip(f[limit..], 2))
  }

  /** `rb_hash_aset`. */
  function Store(pairs: seq<Pair>, key: Value, value: Value): seq<Pair> {
    if pairs == [] then [Pair(key, value)]
    else if pairs[0].key == key then [Pair(key, value)] + pairs[1..]
    else [pairs[0]] + Store(pairs[1..], key, value)
  }

  /** `resp_read` on the buffered bytes `f`, after which EOF is reached. */
  function Decode(f: seq<Byte>): (r: (Decoded, seq<Byte>))
    ensures |r.1| <= |f|
    decreases |f|, 0
  {
    var (line, rest) := RespLine(f);
    if line.None? || line.value == [] then (Ok(Nil), rest)
    else
      var msg := line.value;
      var len := ParseLength(0, msg[1..]);
      var kind := msg[0];
      if kind == MAP || kind == ATTRIBUTES then DecodePairs(rest, len, [])
      else if kind == ARRAY || kind == SET || kind == PUSH then DecodeItems(rest, len, [])
      else DecodeScalar(msg, rest)
  }

  /** What has no values inside. */
  function DecodeScalar(msg: seq<Byte>, f: seq<Byte>): (r: (Decoded, seq<Byte>))
    requires msg != []
    ensures |r.1| <= |f|
  {
    var kind := msg[0];
    if kind == BULK || kind == VERBATIM || kind == BULK_ERROR then
      var (str, rest) := RespString(f, ParseLength(0, msg[1..]));
      (if kind == BULK then Ok(str) else if kind == VERBATIM then DropEncoding(str) else Ok(Error(str)), rest)
    else if kind == SIMPLE then (Ok(Str(msg[1..])), f)
    else if kind == NULL then (Ok(Nil), f)
    else if kind == BOOLEAN then (Ok(Bool(|msg| > 1 && msg[1] == 116)), f)
    else if kind == INTEGER then (Ok(Int(Strtol(msg[1..]))), f)
    else if kind == FLOAT then (Ok(Float(msg[1..])), f)
    else if kind == SIMPLE_ERROR then (Ok(Error(Str(msg[1..]))), f)
    else (Raise, f)
  }

  /** The end of `resp_decode_string_with_encoding`; a missing string is dereferenced as one. */
  function DropEncoding(v: Value): Decoded {
    if !v.Str? then Raise
    else if |v.s| < 4 || v.s[3] != COLON then Ok(Nil)
    else Ok(Str(v.s[4..]))
  }

  function DecodeItems(f: seq<Byte>, n: nat, items: seq<Value>): (r: (Decoded, seq<Byte>))
    ensures |r.1| <= |f|
    decreases |f|, 1, n
  {
    if n == 0 then (Ok(Arr(items)), f)
    else
      var (item, rest) := Decode(f);
      if item.Raise? then (Raise, rest) else DecodeItems(rest, n - 1, items + [item.value])
  }

  function DecodePairs(f: seq<Byte>, n: nat, pairs: seq<Pair>): (r: (Decoded, seq<Byte>))
    ensures |r.1| <= |f|
    decreases |f|, 1, n
  {
    if n == 0 then (Ok(Hash(pairs)), f)
    else
      var (key, rest) := Decode(f);
      if key.Raise? then (Raise, rest)
      else
        var (value, rest') := Decode(rest);
        if value.Raise? then (Raise, rest') else DecodePairs(rest', n - 1, Store(pairs, key.value, value.value))
  }

  // ----- Decoding undoes encoding

  /** What a fixnum, a Ruby string, array or hash can be. */
  predicate Encodable(v: Value) {
    match v
    case Int(i) => -FIXNUM_MAX - 1 <= i <= FIXNUM_MAX
    case Str(s) => |s| <= LONG_MAX
    case Arr(items) => |items| <= LONG_MAX && forall k :: 0 <= k < |items| ==> Encodable(items[k])
    case Hash(pairs) =>
      && |pairs| <= LONG_MAX && DistinctKeys(pairs)
      && forall k :: 0 <= k < |pairs| ==> Encodable(pairs[k].key) && Encodable(pairs[k].value)
    case Float(_) => false
    case Error(_) => false
    case _ => true
  }

  predicate DistinctKeys(pairs: seq<Pair>) {
    forall i, j :: 0 <= i < j < |pairs| ==> pairs[i].key != pairs[j].key
  }

  predicate NoEmptyString(v: Value) {
    match v
    case Str(s) => s != []
    case Arr(items) => forall k :: 0 <= k < |items| ==> NoEmptyString(items[k])
    case Hash(pairs) => forall k :: 0 <= k < |pairs| ==> NoEmptyString(pairs[k].key) && NoEmptyString(pairs[k].value)
    case Error(message) => NoEmptyString(message)
    case _ => true
  }

  lemma {:induction false} LeadingDigitsSplit(acc: nat, a: seq<Byte>, b: seq<Byte>)
    requires forall k :: 0 <= k < |a| ==> Digit(a[k])
    ensures LeadingDigits(acc, a + b) == LeadingDigits(LeadingDigits(acc, a), b)
    decreases |a|
  {
    if a == [] {
      assert a + b == b;
    } else {
      assert (a + b)[1..] == a[1..] + b;
      LeadingDigitsSplit(acc * 10 + (a[0] - ZERO), a[1..], b);
    }
  }

  lemma {:induction false} DigitsValue(n: nat)
    ensures LeadingDigits(0, Digits(n)) == n
  {
    if n < 10 {
      assert Digits(n)[1..] == [];
    } else {
      var d := [ZERO + n % 10];
      LeadingDigitsSplit(0, Digits(n / 10), d);
      DigitsValue(n / 10);
      assert LeadingDigits(n / 10, d) == LeadingDigits(n / 10 * 10 + n % 10, d[1..]);
    }
  }

  /** The length parser agrees with the decimal value on digits, as long as it fits 64 bits. */
  lemma {:induction false} ParseLengthIsValue(acc: nat, s: seq<Byte>)
    requires forall k :: 0 <= k < |s| ==> Digit(s[k])
    requires LeadingDigits(acc, s) < ULONG
    ensures ParseLength(acc, s) == LeadingDigits(acc, s)
    decreases |s|
  {
    if s != [] {
      var next: nat := acc * 10 + (s[0] - ZERO);
      NoWrap(acc, s);
      LeadingDigitsGrows(next, s[1..]);
      hide ParseLength, LeadingDigits;
      ParseLengthIsValue(next, s[1..]);
    }
  }

  /** One round of both on a digit, without wrapping. */
  lemma NoWrap(acc: nat, s: seq<Byte>)
    requires s != [] && Digit(s[0])
    ensures var next: nat := acc * 10 + (s[0] - ZERO);
      && LeadingDigits(acc, s) == LeadingDigits(next, s[1..])
      && (next < ULONG ==> ParseLength(acc, s) == ParseLength(next, s[1..]))
  {
  }

  lemma {:induction false} LeadingDigitsGrows(acc: nat, s: seq<Byte>)
    ensures acc <= LeadingDigits(acc, s)
    decreases |s|
  {
    if s != [] && Digit(s[0]) { LeadingDigitsGrows(acc * 10 + (s[0] - ZERO), s[1..]); }
  }

  lemma LengthRoundTrip(n: nat)
    requires n < ULONG
    ensures ParseLength(0, Digits(n)) == n
  {
    DigitsValue(n);
    ParseLengthIsValue(0, Digits(n));
  }

  lemma IntegerRoundTrip(i: int)
    requires -LONG_MAX - 1 <= i <= LONG_MAX
    ensures Strtol(Decimal(i)) == i
  {
    if i < 0 {
      DigitsValue(-i);
      assert Decimal(i)[1..] == Digits(-i);
    } else {
      DigitsValue(i);
    }
  }

  /** A header line is read back without its CR LF. */
  lemma HeaderLine(head: seq<Byte>, rest: seq<Byte>)
    requires CR !in head
    ensures RespLine(head + CRLF + rest) == (Some(head), rest)
  {
    var f := head + (CRLF + rest);
    assert head + CRLF + rest == f;
    IndexOfJoin(head, CRLF + rest, CR);
    assert IndexOf(CRLF + rest, CR) == 0;
    assert f[..|head|] == head && f[|head|..] == CRLF + rest && (CRLF + rest)[2..] == rest;
  }

  /** What `resp_read` does after a header with a length. */
  lemma DecodeHeader(kind: Byte, n: nat, rest: seq<Byte>)
    requires n < ULONG
    ensures kind == MAP ==> Decode(Header(kind, n) + rest) == DecodePairs(rest, n, [])
    ensures kind == ARRAY ==> Decode(Header(kind, n) + rest) == DecodeItems(rest, n, [])
    ensures kind == BULK ==> Decode(Header(kind, n) + rest) == (Ok(RespString(rest, n).0), RespString(rest, n).1)
  {
    hide RespString, RespLine, Digits;
    if kind == MAP || kind == ARRAY || kind == BULK {
      HeaderLine([kind] + Digits(n), rest);
      assert ([kind] + Digits(n))[1..] == Digits(n);
      LengthRoundTrip(n);
    }
  }

  lemma DecodeInteger(i: int, rest: seq<Byte>)
    requires -LONG_MAX - 1 <= i <= LONG_MAX
    ensures Decode(Header(INTEGER, i) + rest) == (Ok(Int(i)), rest)
  {
    hide RespLine, Digits, Strtol;
    HeaderLine([INTEGER] + Decimal(i), rest);
    assert ([INTEGER] + Decimal(i))[1..] == Decimal(i);
    IntegerRoundTrip(i);
  }

  lemma DecodeConstant(kind: Byte, b: Byte, rest: seq<Byte>)
    requires b != CR
    ensures Decode([NULL] + CRLF + rest) == (Ok(Nil), rest)
    ensures Decode([BOOLEAN, b] + CRLF + rest) == (Ok(Bool(b == 116)), rest)
  {
    hide RespLine, ParseLength;
    HeaderLine([NULL], rest);
    HeaderLine([BOOLEAN, b], rest);
  }

  lemma StringRoundTrip(s: seq<Byte>, rest: seq<Byte>)
    requires 0 < |s| <= LONG_MAX
    ensures RespString(s + CRLF + rest, |s|) == (Str(s), rest)
  {
    var f := s + CRLF + rest;
    assert f[..|s|] == s && f[|s|..] == CRLF + rest && (CRLF + rest)[2..] == rest;
  }

  lemma {:induction false} StoreNew(pairs: seq<Pair>, key: Value, value: Value)
    requires forall k :: 0 <= k < |pairs| ==> pairs[k].key != key
    ensures Store(pairs, key, value) == pairs + [Pair(key, value)]
  {
    if pairs != [] { StoreNew(pairs[1..], key, value); }
  }

  /** `resp_read` undoes `resp_encode` on every value without an empty string, whatever follows, and takes
      exactly the bytes that were encoded. */
  lemma {:induction false} RoundTrip(v: Value, rest: seq<Byte>)
    requires Encodable(v) && NoEmptyString(v)
    ensures Decode(Encode(v) + rest) == (Ok(v), rest)
    decreases v
  {
    hide Decode, DecodeItems, DecodePairs, EncodeItems, EncodePairs, Header, RespString;
    match v
    case Nil => DecodeConstant(NULL, 0, rest);
    case Bool(b) => DecodeConstant(BOOLEAN, if b then 116 else 102, rest);
    case Int(i) => DecodeInteger(i, rest);
    case Str(s) =>
      assert Encode(v) + rest == Header(BULK, |s|) + (s + CRLF + rest);
      DecodeHeader(BULK, |s|, s + CRLF + rest);
      StringRoundTrip(s, rest);
    case Arr(items) =>
      assert Encode(v) + rest == Header(ARRAY, |items|) + (EncodeItems(items) + rest);
      DecodeHeader(ARRAY, |items|, EncodeItems(items) + rest);
      RoundTripItems(items, [], rest);
      assert [] + items == items;
    case Hash(pairs) =>
      assert Encode(v) + rest == Header(MAP, |pairs|) + (EncodePairs(pairs) + rest);
      DecodeHeader(MAP, |pairs|, EncodePairs(pairs) + rest);
      RoundTripPairs(pairs, [], rest);
      assert [] + pairs == pairs;
  }

  lemma {:induction false} RoundTripItems(items: seq<Value>, done: seq<Value>, rest: seq<Byte>)
    requires forall k :: 0 <= k < |items| ==> Encodable(items[k]) && NoEmptyString(items[k])
    ensures DecodeItems(EncodeItems(items) + rest, |items|, done) == (Ok(Arr(done + items)), rest)
    decreases items
  {
    hide Decode, Encode, Encodable, NoEmptyString;
    if items == [] {
      assert EncodeItems(items) + rest == rest && done + items == done;
    } else {
      var tail := EncodeItems(items[1..]) + rest;
      assert EncodeItems(items) + rest == Encode(items[0]) + tail;
      RoundTrip(items[0], tail);
      RoundTripItems(items[1..], done + [items[0]], rest);
      assert done + [items[0]] + items[1..] == done + items;
    }
  }

  lemma {:induction false} RoundTripPair(pair: Pair, rest: seq<Byte>)
    requires Encodable(pair.key) && NoEmptyString(pair.key) && Encodable(pair.value) && NoEmptyString(pair.value)
    ensures Decode(EncodePair(pair) + rest) == (Ok(pair.key), Encode(pair.value) + rest)
    ensures Decode(Encode(pair.value) + rest) == (Ok(pair.value), rest)
    decreases pair
  {
    hide Decode, Encode;
    assert EncodePair(pair) + rest == Encode(pair.key) + (Encode(pair.value) + rest);
    RoundTrip(pair.key, Encode(pair.value) + rest);
    RoundTrip(pair.value, rest);
  }

  predicate PlainPair(pair: Pair) {
    Encodable(pair.key) && NoEmptyString(pair.key) && Encodable(pair.value) && NoEmptyString(pair.value)
  }

  lemma {:induction false} RoundTripPairs(pairs: seq<Pair>, done: seq<Pair>, rest: seq<Byte>)
    requires forall k :: 0 <= k < |pairs| ==> PlainPair(pairs[k])
    requires DistinctKeys(done + pairs)
    ensures DecodePairs(EncodePairs(pairs) + rest, |pairs|, done) == (Ok(Hash(done + pairs)), rest)
    decreases pairs
  {
    hide Decode, Encode, EncodePair, Encodable, NoEmptyString, DistinctKeys;
    if pairs == [] {
      assert EncodePairs(pairs) + rest == rest && done + pairs == done;
    } else {
      var pair := pairs[0];
      var tail := EncodePairs(pairs[1..]) + rest;
      assert EncodePairs(pairs) + rest == EncodePair(pair) + tail;
      RoundTripPair(pair, tail);
      NextKeyIsNew(done, pairs);
      StoreNew(done, pair.key, pair.value);
      assert done + [pair] + pairs[1..] == done + pairs;
      RoundTripPairs(pairs[1..], done + [pair], rest);
    }
  }

  lemma NextKeyIsNew(done: seq<Pair>, pairs: seq<Pair>)
    requires DistinctKeys(done + pairs) && pairs != []
    ensures forall k :: 0 <= k < |done| ==> done[k].key != pairs[0].key
  {
    assert forall k :: 0 <= k < |done| ==> (done + pairs)[k] == done[k] && (done + pairs)[|done|] == pairs[0];
  }

  // ----- Empty strings

  /** An empty string is written with length 0, which a read takes as "all there is": from there on everything
      is lost, and what is returned has no empty string. */
  lemma {:induction false} EmptyStringTakesAll(v: Value, rest: seq<Byte>)
    requires Encodable(v) && !NoEmptyString(v)
    ensures TookAll(Decode(Encode(v) + rest))
    decreases v
  {
    hide Decode, DecodeItems, DecodePairs, EncodeItems, EncodePairs, Header, Digits;
    match v
    case Str(s) =>
      assert Encode(v) + rest == Header(BULK, 0) + (CRLF + rest);
      DecodeHeader(BULK, 0, CRLF + rest);
    case Arr(items) =>
      assert Encode(v) + rest == Header(ARRAY, |items|) + (EncodeItems(items) + rest);
      DecodeHeader(ARRAY, |items|, EncodeItems(items) + rest);
      EmptyStringInItems(items, [], rest);
    case Hash(pairs) =>
      assert Encode(v) + rest == Header(MAP, |pairs|) + (EncodePairs(pairs) + rest);
      DecodeHeader(MAP, |pairs|, EncodePairs(pairs) + rest);
      EmptyStringInPairs(pairs, [], rest);
    case _ =>
  }

  predicate TookAll(r: (Decoded, seq<Byte>)) {
    r.1 == [] && r.0.Ok? && NoEmptyString(r.0.value)
  }

  lemma {:induction false} EmptyStringInItems(items: seq<Value>, done: seq<Value>, rest: seq<Byte>)
    requires forall k :: 0 <= k < |items| ==> Encodable(items[k])
    requires exists k :: 0 <= k < |items| && !NoEmptyString(items[k])
    requires forall k :: 0 <= k < |done| ==> NoEmptyString(done[k])
    ensures TookAll(DecodeItems(EncodeItems(items) + rest, |items|, done))
    decreases items
  {
    hide Decode, Encode, Encodable, NoEmptyString;
    var tail := EncodeItems(items[1..]) + rest;
    assert EncodeItems(items) + rest == Encode(items[0]) + tail;
    if NoEmptyString(items[0]) {
      RoundTrip(items[0], tail);
      EmptyStringInItems(items[1..], done + [items[0]], rest);
    } else {
      EmptyStringTakesAll(items[0], tail);
      ItemsOfNothing(|items| - 1, done + [Decode(Encode(items[0]) + tail).0.value]);
    }
  }

  lemma {:induction false} ItemsOfNothing(n: nat, done: seq<Value>)
    requires forall k :: 0 <= k < |done| ==> NoEmptyString(done[k])
    ensures TookAll(DecodeItems([], n, done))
  {
    if n > 0 {
      assert Decode([]) == (Ok(Nil), []);
      ItemsOfNothing(n - 1, done + [Nil]);
    }
  }

  predicate NoEmptyPair(pair: Pair) {
    NoEmptyString(pair.key) && NoEmptyString(pair.value)
  }

  predicate EncodablePair(pair: Pair) {
    Encodable(pair.key) && Encodable(pair.value)
  }

  lemma {:induction false} EmptyStringInPairs(pairs: seq<Pair>, done: seq<Pair>, rest: seq<Byte>)
    requires forall k :: 0 <= k < |pairs| ==> EncodablePair(pairs[k])
    requires exists k :: 0 <= k < |pairs| && !NoEmptyPair(pairs[k])
    requires forall k :: 0 <= k < |done| ==> NoEmptyPair(done[k])
    ensures TookAll(DecodePairs(EncodePairs(pairs) + rest, |pairs|, done))
    decreases pairs
  {
    hide Decode, Encode, Encodable, NoEmptyString, EncodePair;
    var pair := pairs[0];
    var tail := EncodePairs(pairs[1..]) + rest;
    assert EncodePairs(pairs) + rest == EncodePair(pair) + tail;
    var (key, left) := Decode(EncodePair(pair) + tail);
    var (value, left') := Decode(left);
    PairInRun(pair, tail);
    StoreNoEmpty(done, key.value, value.value);
    var stored := Store(done, key.value, value.value);
    if NoEmptyPair(pair) {
      EmptyStringInPairs(pairs[1..], stored, rest);
    } else {
      PairsOfNothing(|pairs| - 1, stored);
    }
  }

  lemma {:induction false} PairInRun(pair: Pair, tail: seq<Byte>)
    requires EncodablePair(pair)
    ensures var (key, left) := Decode(EncodePair(pair) + tail);
      var (value, left') := Decode(left);
      && key.Ok? && value.Ok? && NoEmptyPair(Pair(key.value, value.value))
      && left' == if NoEmptyPair(pair) then tail else []
    decreases pair
  {
    hide Decode, Encode, Encodable, NoEmptyString;
    assert EncodePair(pair) + tail == Encode(pair.key) + (Encode(pair.value) + tail);
    if NoEmptyString(pair.key) {
      RoundTrip(pair.key, Encode(pair.value) + tail);
      if NoEmptyString(pair.value) { RoundTrip(pair.value, tail); } else { EmptyStringTakesAll(pair.value, tail); }
    } else {
      EmptyStringTakesAll(pair.key, Encode(pair.value) + tail);
      NothingIsNil();
    }
  }

  lemma NothingIsNil()
    ensures Decode([]) == (Ok(Nil), []) && NoEmptyString(Nil)
  {
  }

  lemma {:induction false} StoreNoEmpty(pairs: seq<Pair>, key: Value, value: Value)
    requires NoEmptyPair(Pair(key, value)) && forall k :: 0 <= k < |pairs| ==> NoEmptyPair(pairs[k])
    ensures forall k :: 0 <= k < |Store(pairs, key, value)| ==> NoEmptyPair(Store(pairs, key, value)[k])
  {
    hide NoEmptyPair;
    if pairs != [] { StoreNoEmpty(pairs[1..], key, value); }
  }

  lemma {:induction false} PairsOfNothing(n: nat, done: seq<Pair>)
    requires forall k :: 0 <= k < |done| ==> NoEmptyPair(done[k])
    ensures TookAll(DecodePairs([], n, done))
  {
    if n > 0 {
      NothingIsNil();
      hide Decode;
      StoreNoEmpty(done, Nil, Nil);
      PairsOfNothing(n - 1, Store(done, Nil, Nil));
    }
  }

  /** A value survives encoding and decoding, whatever follows it, if and only if it has no empty string. */
  lemma RoundTripIff(v: Value, rest: seq<Byte>)
    requires Encodable(v)
    ensures Decode(Encode(v) + rest) == (Ok(v), rest) <==> NoEmptyString(v)
  {
    if NoEmptyString(v) { RoundTrip(v, rest); } else { EmptyStringTakesAll(v, rest); }
  }

  /** What an empty string becomes: the rest of what is buffered. */
  lemma EmptyStringReadsEverything(rest: seq<Byte>)
    ensures Decode(Encode(Str([])) + rest) == (Ok(Str(CRLF + rest)), [])
  {
    hide Decode, Header, DecodeItems, DecodePairs;
    assert Encode(Str([])) + rest == Header(BULK, 0) + (CRLF + rest);
    DecodeHeader(BULK, 0, CRLF + rest);
    assert (CRLF + rest)[..|CRLF + rest|] == CRLF + rest;
  }
}
