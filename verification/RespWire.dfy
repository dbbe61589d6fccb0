/**
 RESP as it is on the wire, byte by byte, written down apart from how um_io.c produces and reads it: a grammar that
 relates values to bytes, and what each type byte means to the reader, those that the writer never uses included.
 Resp's encoder writes exactly what the grammar says.
 */
module RespWire {
  import opened FlatStream
  import opened Segments
  import opened Resp

  // ----- The grammar

  predicate AllAscii(text: string) {
    forall k :: 0 <= k < |text| ==> text[k] < '\U{80}'
  }

  /** The bytes of an ASCII text. */
  function Ascii(text: string): (f: seq<Byte>)
    requires AllAscii(text)
    ensures |f| == |text|
  {
    seq(|text|, k requires 0 <= k < |text| => text[k] as int)
  }

  /** Decimal digits without leading zeros. */
  predicate DecimalDigits(s: seq<Byte>) {
    && s != [] && (forall k :: 0 <= k < |s| ==> '0' as int <= s[k] <= '9' as int)
    && (|s| > 1 ==> s[0] != '0' as int)
  }

  function Worth(s: seq<Byte>): int {
    if s == [] then 0 else 10 * Worth(s[..|s| - 1]) + s[|s| - 1] - '0' as int
  }

  /** `i` in decimal. */
  predicate Number(s: seq<Byte>, i: int) {
    if i < 0 then s != [] && s[0] == '-' as int && DecimalDigits(s[1..]) && Worth(s[1..]) == -i
    else DecimalDigits(s) && Worth(s) == i
  }

  /** A type byte, a number and CR LF. */
  predicate HeaderLine(f: seq<Byte>, kind: char, i: int) {
    && |f| >= 3 && f[0] == kind as int && Number(f[1..|f| - 2], i)
    && f[|f| - 2] == '\r' as int && f[|f| - 1] == '\n' as int
  }

  /** `f` is `head`, then the bytes of `parts` one after the other. */
  predicate Composed(f: seq<Byte>, head: seq<Byte>, parts: seq<seq<Byte>>) {
    f == head + Join(parts)
  }

  /** Each key with its value behind it. */
  function SideBySide(keys: seq<seq<Byte>>, values: seq<seq<Byte>>): seq<seq<Byte>> {
    if keys == [] || values == [] then [] else [keys[0] + values[0]] + SideBySide(keys[1..], values[1..])
  }

  /** `f` is what the value `v` is on the wire. */
  ghost predicate Wire(v: Value, f: seq<Byte>)
    decreases v, 1
  {
    match v
    case Nil => f == Ascii("_\r\n")
    case Bool(b) => f == if b then Ascii("#t\r\n") else Ascii("#f\r\n")
    case Int(i) => HeaderLine(f, ':', i)
    case Str(s) => exists head :: HeaderLine(head, '$', |s|) && f == head + s + Ascii("\r\n")
    case Arr(items) =>
      exists head, parts :: HeaderLine(head, '*', |items|) && Composed(f, head, parts) && ItemsOnWire(items, parts)
    case Hash(pairs) =>
      exists head, keys, values ::
        && HeaderLine(head, '%', |pairs|) && Composed(f, head, SideBySide(keys, values))
        && PairsOnWire(pairs, keys, values)
    case _ => false
  }

  ghost predicate ItemsOnWire(items: seq<Value>, parts: seq<seq<Byte>>)
    decreases Arr(items), 0
  {
    |parts| == |items| && forall k :: 0 <= k < |items| ==> Wire(items[k], parts[k])
  }

  ghost predicate PairsOnWire(pairs: seq<Pair>, keys: seq<seq<Byte>>, values: seq<seq<Byte>>)
    decreases Hash(pairs), 0
  {
    && |keys| == |values| == |pairs|
    && forall k :: 0 <= k < |pairs| ==> Wire(pairs[k].key, keys[k]) && Wire(pairs[k].value, values[k])
  }

  /** Built from what `resp_encode` writes, floats aside. */
  predicate Writable(v: Value) {
    match v
    case Arr(items) => forall k :: 0 <= k < |items| ==> Writable(items[k])
    case Hash(pairs) => forall k :: 0 <= k < |pairs| ==> Writable(pairs[k].key) && Writable(pairs[k].value)
    case Float(_) => false
    case Error(_) => false
    case _ => true
  }

  // ----- Numbers

  lemma {:induction false} DigitsAreDecimal(n: nat)
    ensures DecimalDigits(Digits(n)) && Worth(Digits(n)) == n && (n > 0 ==> Digits(n)[0] != '0' as int)
  {
    if n >= 10 {
      DigitsAreDecimal(n / 10);
      assert Digits(n)[..|Digits(n)| - 1] == Digits(n / 10);
    } else {
      assert Digits(n) == [48 + n] && Digits(n)[..0] == [];
    }
  }

  /** There is one way to write a number. */
  lemma {:induction false} DecimalIsDigits(s: seq<Byte>)
    requires DecimalDigits(s)
    ensures Worth(s) >= 0 && s == Digits(Worth(s)) && (s[0] != '0' as int ==> Worth(s) > 0)
  {
    var front, last := s[..|s| - 1], s[|s| - 1];
    if front != [] {
      DecimalIsDigits(front);
      assert s == front + [last];
      assert Worth(s) / 10 == Worth(front) && Worth(s) % 10 == last - 48;
    } else {
      assert s == [last];
    }
  }

  lemma DecimalIsNumber(i: int)
    ensures Number(Decimal(i), i)
  {
    if i < 0 {
      DigitsAreDecimal(-i);
      assert Decimal(i)[1..] == Digits(-i);
    } else {
      DigitsAreDecimal(i);
    }
  }

  lemma NumberIsDecimal(s: seq<Byte>, i: int)
    requires Number(s, i)
    ensures s == Decimal(i)
  {
    if i < 0 {
      DecimalIsDigits(s[1..]);
      assert s == [s[0]] + s[1..];
    } else {
      DecimalIsDigits(s);
    }
  }

  /** The encoder's headers are those of the grammar. */
  lemma HeaderIff(f: seq<Byte>, kind: char, i: int)
    requires kind < '\U{80}'
    ensures HeaderLine(f, kind, i) <==> f == Header(kind as int, i)
  {
    hide Decimal, Number;
    DecimalIsNumber(i);
    var h := Header(kind as int, i);
    assert h[1..|h| - 2] == Decimal(i) && h == [kind as int] + Decimal(i) + [13, 10];
    if HeaderLine(f, kind, i) {
      NumberIsDecimal(f[1..|f| - 2], i);
      assert f == [f[0]] + f[1..|f| - 2] + [f[|f| - 2], f[|f| - 1]];
    }
  }

  lemma Literals()
    ensures Ascii("_\r\n") == [95, 13, 10] && Ascii("\r\n") == [13, 10]
    ensures Ascii("#t\r\n") == [35, 116, 13, 10] && Ascii("#f\r\n") == [35, 102, 13, 10]
  {
  }

  // ----- The encoder writes what the grammar says

  function Encoded(items: seq<Value>): seq<seq<Byte>> {
    if items == [] then [] else [Encode(items[0])] + Encoded(items[1..])
  }

  function Keys(pairs: seq<Pair>): seq<Value> {
    if pairs == [] then [] else [pairs[0].key] + Keys(pairs[1..])
  }

  function Values(pairs: seq<Pair>): seq<Value> {
    if pairs == [] then [] else [pairs[0].value] + Values(pairs[1..])
  }

  lemma {:induction false} EncodedParts(items: seq<Value>)
    ensures |Encoded(items)| == |items| && Join(Encoded(items)) == EncodeItems(items)
    ensures forall k :: 0 <= k < |items| ==> Encoded(items)[k] == Encode(items[k])
  {
    hide Encode;
    if items != [] {
      EncodedParts(items[1..]);
      assert Encoded(items)[1..] == Encoded(items[1..]);
    }
  }

  lemma {:induction false} PairsInParts(pairs: seq<Pair>)
    ensures |Keys(pairs)| == |Values(pairs)| == |pairs|
    ensures forall k :: 0 <= k < |pairs| ==> Keys(pairs)[k] == pairs[k].key && Values(pairs)[k] == pairs[k].value
    ensures Join(SideBySide(Encoded(Keys(pairs)), Encoded(Values(pairs)))) == EncodePairs(pairs)
  {
    hide Encode;
    if pairs != [] {
      var rest := pairs[1..];
      PairsInParts(rest);
      EncodedFirst(pairs[0].key, Keys(rest));
      EncodedFirst(pairs[0].value, Values(rest));
      var parts := SideBySide(Encoded(Keys(rest)), Encoded(Values(rest)));
      var all := [EncodePair(pairs[0])] + parts;
      assert SideBySide(Encoded(Keys(pairs)), Encoded(Values(pairs))) == all;
      assert all[1..] == parts;
    }
  }

  lemma EncodedFirst(v: Value, rest: seq<Value>)
    ensures Encoded([v] + rest) == [Encode(v)] + Encoded(rest) && Encoded([v] + rest)[1..] == Encoded(rest)
  {
    assert ([v] + rest)[1..] == rest;
  }

  /** The encoder's output is the one thing that the grammar allows for a value. */
  lemma {:induction false} WireIffEncoded(v: Value, f: seq<Byte>)
    requires Writable(v)
    ensures Wire(v, f) <==> f == Encode(v)
    decreases v
  {
    hide HeaderLine, Header, EncodeItems, EncodePairs;
    Literals();
    match v
    case Nil =>
    case Bool(_) =>
    case Int(i) => HeaderIff(f, ':', i);
    case Str(s) =>
      HeaderIff(Header(36, |s|), '$', |s|);
      forall head | HeaderLine(head, '$', |s|) ensures head == Header(36, |s|) { HeaderIff(head, '$', |s|); }
    case Arr(items) => ArrayIff(items, f);
    case Hash(pairs) => HashIff(pairs, f);
  }

  lemma {:induction false} ArrayIff(items: seq<Value>, f: seq<Byte>)
    requires Writable(Arr(items))
    ensures Wire(Arr(items), f) <==> f == Encode(Arr(items))
    decreases Arr(items), 1
  {
    hide HeaderLine, Header, EncodeItems, ItemsOnWire, Writable, Join;
    EncodedParts(items);
    ItemParts(items, Encoded(items));
    HeaderIff(Header(42, |items|), '*', |items|);
    assert Composed(Encode(Arr(items)), Header(42, |items|), Encoded(items));
    forall head, parts | HeaderLine(head, '*', |items|) && Composed(f, head, parts) && ItemsOnWire(items, parts)
      ensures f == Encode(Arr(items))
    {
      HeaderIff(head, '*', |items|);
      ItemParts(items, parts);
    }
  }

  lemma {:induction false} ItemParts(items: seq<Value>, parts: seq<seq<Byte>>)
    requires Writable(Arr(items))
    ensures ItemsOnWire(items, parts) <==> parts == Encoded(items)
    decreases Arr(items), 0
  {
    hide Encode, Wire;
    EncodedParts(items);
    if |parts| == |items| {
      forall k | 0 <= k < |items| ensures Wire(items[k], parts[k]) <==> parts[k] == Encoded(items)[k] {
        WireIffEncoded(items[k], parts[k]);
      }
    }
  }

  lemma {:induction false} HashIff(pairs: seq<Pair>, f: seq<Byte>)
    requires Writable(Hash(pairs))
    ensures Wire(Hash(pairs), f) <==> f == Encode(Hash(pairs))
    decreases Hash(pairs), 1
  {
    hide HeaderLine, Header, Encode, SideBySide, Join, Writable, PairsOnWire;
    EncodedHash(pairs);
    HashParts(pairs, Encoded(Keys(pairs)), Encoded(Values(pairs)));
    HeaderIff(Header(37, |pairs|), '%', |pairs|);
    forall head, keys, values | HeaderLine(head, '%', |pairs|) && Composed(f, head, SideBySide(keys, values))
        && PairsOnWire(pairs, keys, values)
      ensures f == Encode(Hash(pairs))
    {
      HashParts(pairs, keys, values);
      HeaderIff(head, '%', |pairs|);
    }
  }

  lemma EncodedHash(pairs: seq<Pair>)
    ensures |Encoded(Keys(pairs))| == |Encoded(Values(pairs))| == |pairs|
    ensures Composed(Encode(Hash(pairs)), Header(37, |pairs|),
                     SideBySide(Encoded(Keys(pairs)), Encoded(Values(pairs))))
  {
    hide Header, EncodePairs, SideBySide, Join;
    PairsInParts(pairs);
    EncodedParts(Keys(pairs));
    EncodedParts(Values(pairs));
  }

  lemma {:induction false} HashParts(pairs: seq<Pair>, keys: seq<seq<Byte>>, values: seq<seq<Byte>>)
    requires Writable(Hash(pairs))
    ensures PairsOnWire(pairs, keys, values) <==> keys == Encoded(Keys(pairs)) && values == Encoded(Values(pairs))
    decreases Hash(pairs), 0
  {
    hide Encode, Wire;
    PairsInParts(pairs);
    EncodedParts(Keys(pairs));
    EncodedParts(Values(pairs));
    if |keys| == |values| == |pairs| {
      forall k | 0 <= k < |pairs|
        ensures Wire(pairs[k].key, keys[k]) <==> keys[k] == Encoded(Keys(pairs))[k]
        ensures Wire(pairs[k].value, values[k]) <==> values[k] == Encoded(Values(pairs))[k]
      {
        WireIffEncoded(pairs[k].key, keys[k]);
        WireIffEncoded(pairs[k].value, values[k]);
      }
    }
  }

  // ----- What each type byte means to the reader

  const END: seq<Byte> := Ascii("\r\n")

  function Start(kind: char): seq<Byte>
    requires kind < '\U{80}'
  {
    [kind as int]
  }

  /** Lines that hold all of a value. */
  lemma DecodeText(text: seq<Byte>, rest: seq<Byte>)
    requires '\r' as int !in text
    ensures Decode(Start('+') + text + END + rest) == (Ok(Str(text)), rest)
    ensures Decode(Start('-') + text + END + rest) == (Ok(Error(Str(text))), rest)
    ensures Decode(Start(',') + text + END + rest) == (Ok(Float(text)), rest)
    ensures Decode(Start('_') + text + END + rest) == (Ok(Nil), rest)
    ensures Decode(Start('#') + text + END + rest) == (Ok(Bool(text != [] && text[0] == 't' as int)), rest)
  {
    hide RespLine, ParseLength, RespString;
    forall kind: Byte | kind != 13
      ensures RespLine([kind] + text + END + rest) == (Some([kind] + text), rest)
      ensures ([kind] + text)[0] == kind && ([kind] + text)[1..] == text
    {
      LineOf(kind, text, rest);
    }
  }

  /** An empty line is nil, and a line that starts with no type byte is an error. */
  lemma DecodeNothing(kind: Byte, text: seq<Byte>, rest: seq<Byte>)
    requires '\r' as int !in text && kind != '\r' as int
    ensures Decode(END + rest) == (Ok(Nil), rest)
    ensures kind !in Ascii("_#:,$*%|~>+=-!") ==> Decode([kind] + text + END + rest) == (Raise, rest)
  {
    hide RespLine, ParseLength, RespString;
    Literals();
    assert [] + CRLF + rest == END + rest;
    Resp.HeaderLine([], rest);
    LineOf(kind, text, rest);
    assert Ascii("_#:,$*%|~>+=-!") == [95, 35, 58, 44, 36, 42, 37, 124, 126, 62, 43, 61, 45, 33];
  }

  lemma LineOf(kind: Byte, text: seq<Byte>, rest: seq<Byte>)
    requires 13 !in text && kind != 13
    ensures RespLine([kind] + text + END + rest) == (Some([kind] + text), rest)
    ensures ([kind] + text)[0] == kind && ([kind] + text)[1..] == text
  {
    Literals();
    Resp.HeaderLine([kind] + text, rest);
  }

  /** A number that is not negative is read as a length, and any number as an integer. */
  lemma NumberIsRead(f: seq<Byte>, kind: char, i: int, rest: seq<Byte>)
    requires HeaderLine(f, kind, i) && kind < '\U{80}' && kind != '\r'
    ensures var line := [kind as int] + Decimal(i);
      && RespLine(f + rest) == (Some(line), rest) && line[1..] == Decimal(i)
      && (0 <= i < 0x1_0000_0000_0000_0000 ==> ParseLength(0, line[1..]) == i)
  {
    hide RespLine, Digits, ParseLength, HeaderLine;
    HeaderIff(f, kind, i);
    Literals();
    LineOf(kind as int, Decimal(i), rest);
    assert f + rest == [kind as int] + Decimal(i) + END + rest;
    if 0 <= i < ULONG { LengthRoundTrip(i); }
  }

  /** `i`, or the nearest number that a signed 64-bit word can hold. */
  function Clamped(i: int): int {
    if i < -0x8000_0000_0000_0000 then -0x8000_0000_0000_0000
    else if i > 0x7FFF_FFFF_FFFF_FFFF then 0x7FFF_FFFF_FFFF_FFFF
    else i
  }

  predicate Spaces(s: seq<Byte>) {
    forall k :: 0 <= k < |s| ==> s[k] == ' ' as int || '\t' as int <= s[k] <= '\r' as int
  }

  predicate AllDigits(s: seq<Byte>) {
    forall k :: 0 <= k < |s| ==> '0' as int <= s[k] <= '9' as int
  }

  /** `strtol` passes over spaces, takes a sign and digits, leading zeros included, and leaves the rest. */
  lemma StrtolIs(spaces: seq<Byte>, sign: seq<Byte>, digits: seq<Byte>, rest: seq<Byte>)
    requires Spaces(spaces) && sign in [[], ['-' as int], ['+' as int]] && AllDigits(digits)
    requires rest != [] ==> !AllDigits(rest[..1])
    requires digits + rest != [] && sign == [] ==>
      var b := (digits + rest)[0]; !Spaces([b]) && b != '-' as int && b != '+' as int
    ensures Strtol(spaces + (sign + (digits + rest))) ==
      Clamped(if sign == ['-' as int] then -Worth(digits) else Worth(digits))
  {
    hide LeadingDigits, Worth;
    var t := sign + (digits + rest);
    assert t != [] ==> !Spaces([t[0]]) by {
      if sign != [] { assert t[0] == sign[0] && [t[0]] == sign; } else { assert t == digits + rest; }
    }
    SpacesSkipped(spaces, t);
    DigitsAreWorth(digits, rest);
    if sign != [] { assert t[1..] == digits + rest; } else { assert t == digits + rest; }
  }

  lemma {:induction false} SpacesSkipped(spaces: seq<Byte>, t: seq<Byte>)
    requires Spaces(spaces) && (t != [] ==> !Spaces([t[0]]))
    ensures SkipSpace(spaces + t) == t
  {
    if spaces == [] {
      assert spaces + t == t;
      if t != [] { assert [t[0]][0] == t[0]; }
    } else {
      assert (spaces + t)[1..] == spaces[1..] + t;
      SpacesSkipped(spaces[1..], t);
    }
  }

  lemma DigitsAreWorth(digits: seq<Byte>, rest: seq<Byte>)
    requires AllDigits(digits) && (rest != [] ==> !AllDigits(rest[..1]))
    ensures Worth(digits) >= 0 && LeadingDigits(0, digits + rest) == Worth(digits)
  {
    LeadingDigitsSplit(0, digits, rest);
    WorthIsLeading(digits);
    if rest != [] { assert rest[..1][0] == rest[0]; }
  }

  lemma {:induction false} WorthIsLeading(digits: seq<Byte>)
    requires AllDigits(digits)
    ensures Worth(digits) >= 0 && LeadingDigits(0, digits) == Worth(digits)
  {
    if digits != [] {
      var front, last := digits[..|digits| - 1], [digits[|digits| - 1]];
      assert digits == front + last && last[1..] == [];
      WorthIsLeading(front);
      LeadingDigitsSplit(0, front, last);
    }
  }

  /** A byte as a signed character. */
  function Signed(b: int): int {
    if b < 128 then b else b - 256
  }

  /** What the length parser makes of any bytes: each counts as a digit, as a signed character. */
  function SignedWorth(s: seq<Byte>): int {
    if s == [] then 0
    else
      10 * SignedWorth(s[..|s| - 1]) + Signed(s[|s| - 1]) - '0' as int
  }

  lemma {:induction false} LengthIs(s: seq<Byte>)
    ensures ParseLength(0, s) == SignedWorth(s) % 0x1_0000_0000_0000_0000
  {
    if s != [] {
      var front, last := s[..|s| - 1], s[|s| - 1];
      LengthIs(front);
      assert s == front + [last];
      LengthOfNext(0, front, last);
      WrapInside(SignedWorth(front), Signed(last) - 48);
    }
  }

  lemma {:induction false} LengthOfNext(acc: nat, s: seq<Byte>, b: Byte)
    requires acc < 0x1_0000_0000_0000_0000
    ensures ParseLength(acc, s + [b]) ==
      (ParseLength(acc, s) * 10 + Signed(b) - 48) % 0x1_0000_0000_0000_0000
    decreases |s|
  {
    if s == [] {
      assert s + [b] == [b] && [b][1..] == [];
    } else {
      assert (s + [b])[1..] == s[1..] + [b];
      LengthOfNext((acc * 10 + Char(s[0]) - 48) % 0x1_0000_0000_0000_0000, s[1..], b);
    }
  }

  lemma WrapInside(x: int, d: int)
    ensures var u := 0x1_0000_0000_0000_0000; (x % u * 10 + d) % u == (10 * x + d) % u
  {
    var u := 0x1_0000_0000_0000_0000;
    var q := x / u;
    assert 10 * x + d == x % u * 10 + d + u * (10 * q);
    WrapMultiple(x % u * 10 + d, 10 * q);
  }

  lemma WrapMultiple(a: int, k: int)
    ensures var u := 0x1_0000_0000_0000_0000; (a + u * k) % u == a % u
  {
  }

  /** An integer is read as far as it fits. */
  lemma DecodeInteger(f: seq<Byte>, i: int, rest: seq<Byte>)
    requires HeaderLine(f, ':', i)
    ensures Decode(f + rest) == (Ok(Int(Clamped(i))), rest)
  {
    hide RespLine, Digits, ParseLength, HeaderLine, Strtol, Worth;
    NumberIsRead(f, ':', i, rest);
    DecimalIsNumber(i);
    NumberIsTaken(Decimal(i), i);
  }

  lemma NumberIsTaken(s: seq<Byte>, i: int)
    requires Number(s, i)
    ensures Strtol(s) == Clamped(i)
  {
    hide Strtol, Worth;
    if i < 0 {
      assert s == [] + (['-' as int] + (s[1..] + []));
      StrtolIs([], ['-' as int], s[1..], []);
    } else {
      assert s == [] + ([] + (s + []));
      assert [s[0]][0] == s[0];
      StrtolIs([], [], s, []);
    }
  }

  /** What has a length and that many bytes: a string; an error; a string after three bytes that name its encoding and
      a colon. */
  lemma DecodeSized(f: seq<Byte>, s: seq<Byte>, rest: seq<Byte>)
    requires 0 < |s| < 0x8000_0000_0000_0000
    ensures HeaderLine(f, '$', |s|) ==> Decode(f + (s + END + rest)) == (Ok(Str(s)), rest)
    ensures HeaderLine(f, '!', |s|) ==> Decode(f + (s + END + rest)) == (Ok(Error(Str(s))), rest)
    ensures HeaderLine(f, '=', |s|) ==>
      Decode(f + (s + END + rest)) == (Ok(if |s| >= 4 && s[3] == ':' as int then Str(s[4..]) else Nil), rest)
  {
    hide RespLine, Digits, ParseLength, HeaderLine, RespString, Strtol;
    var body := s + END + rest;
    Literals();
    StringRoundTrip(s, rest);
    if HeaderLine(f, '$', |s|) { NumberIsRead(f, '$', |s|, body); }
    if HeaderLine(f, '!', |s|) { NumberIsRead(f, '!', |s|, body); }
    if HeaderLine(f, '=', |s|) { NumberIsRead(f, '=', |s|, body); }
  }

  /** A string that ends with the stream needs no CR LF, and one that is cut short is none, and is left. */
  lemma DecodeCutString(f: seq<Byte>, n: nat, s: seq<Byte>)
    requires HeaderLine(f, '$', n) && |s| <= n && 0 < n < 0x8000_0000_0000_0000
    ensures Decode(f + s) == if |s| == n then (Ok(Str(s)), []) else (Ok(Nil), s)
  {
    hide RespLine, Digits, ParseLength, HeaderLine, Strtol;
    NumberIsRead(f, '$', n, s);
    if |s| == n { assert s[..n] == s && s[n..] == []; }
  }

  /** The null bulk string of earlier protocol versions: its length is read as -29, that is as what there is, up to 29
      bytes, with the two bytes behind. */
  lemma DecodeNullBulkString(rest: seq<Byte>)
    ensures rest == [] ==> Decode(Ascii("$-1\r\n") + rest) == (Ok(Nil), rest)
    ensures 0 < |rest| < 29 ==> Decode(Ascii("$-1\r\n") + rest) == (Ok(Str(rest)), [])
    ensures |rest| >= 31 ==> Decode(Ascii("$-1\r\n") + rest) == (Ok(Str(rest[..29])), rest[31..])
  {
    hide RespLine, RespString, ParseLength;
    var text: seq<Byte> := [45, 49];
    NullLiteral(rest);
    LineOf(36, text, rest);
    MinusOne();
    StringOfMinus29(rest);
  }

  lemma NullLiteral(rest: seq<Byte>)
    ensures Ascii("$-1\r\n") + rest == [36] + [45, 49] + END + rest
  {
    Literals();
    assert Ascii("$-1\r\n") == [36, 45, 49, 13, 10];
  }

  lemma MinusOne()
    ensures ParseLength(0, [45, 49]) == ULONG - 29
  {
    assert [45, 49][1..] == [49] && [49][1..] == [];
    assert ParseLength(ULONG - 3, [49]) == ((ULONG - 3) * 10 + 1) % ULONG;
  }

  lemma StringOfMinus29(f: seq<Byte>)
    ensures f == [] ==> RespString(f, ULONG - 29) == (Nil, f)
    ensures 0 < |f| < 29 ==> RespString(f, ULONG - 29) == (Str(f), [])
    ensures |f| >= 31 ==> RespString(f, ULONG - 29) == (Str(f[..29]), f[31..])
  {
    assert f[..|f|] == f && f[|f|..] == [];
    if |f| >= 31 { assert f[29..][2..] == f[31..]; }
  }

  /** The reader takes exactly `values` off `f`, one after the other, and leaves `rest`. */
  ghost predicate Reads(f: seq<Byte>, values: seq<Value>, rest: seq<Byte>)
    decreases |values|
  {
    if values == [] then f == rest
    else Decode(f).0 == Ok(values[0]) && Reads(Decode(f).1, values[1..], rest)
  }

  /** Arrays, sets and pushes are arrays of the values that follow. */
  lemma DecodeArrays(f: seq<Byte>, kind: char, body: seq<Byte>, items: seq<Value>, rest: seq<Byte>)
    requires kind in "*~>" && HeaderLine(f, kind, |items|) && |items| < 0x1_0000_0000_0000_0000
    requires Reads(body, items, rest)
    ensures Decode(f + body) == (Ok(Arr(items)), rest)
  {
    hide RespLine, ParseLength, HeaderLine, Reads, DecodeItems;
    NumberIsRead(f, kind, |items|, body);
    ItemsAreRead(body, [], items, rest);
    assert [] + items == items;
  }

  lemma {:induction false} ItemsAreRead(f: seq<Byte>, done: seq<Value>, items: seq<Value>, rest: seq<Byte>)
    requires Reads(f, items, rest)
    ensures DecodeItems(f, |items|, done) == (Ok(Arr(done + items)), rest)
    decreases |items|
  {
    hide Decode;
    if items == [] {
      assert done + items == done;
    } else {
      ItemsAreRead(Decode(f).1, done + [items[0]], items[1..], rest);
      assert done + [items[0]] + items[1..] == done + items;
    }
  }

  function Interleaved(pairs: seq<Pair>): seq<Value> {
    if pairs == [] then [] else [pairs[0].key, pairs[0].value] + Interleaved(pairs[1..])
  }

  function StoreAll(done: seq<Pair>, pairs: seq<Pair>): seq<Pair>
    decreases |pairs|
  {
    if pairs == [] then done else StoreAll(Store(done, pairs[0].key, pairs[0].value), pairs[1..])
  }

  /** What `pairs` say last of a key. */
  predicate SaidLast(pairs: seq<Pair>, p: Pair) {
    exists k :: 0 <= k < |pairs| && pairs[k] == p && forall j :: k < j < |pairs| ==> pairs[j].key != p.key
  }

  /** Maps and attributes are hashes, with one pair for each key, the last one read. */
  lemma DecodeHashes(f: seq<Byte>, kind: char, body: seq<Byte>, pairs: seq<Pair>, rest: seq<Byte>)
    requires kind in "%|" && HeaderLine(f, kind, |pairs|) && |pairs| < 0x1_0000_0000_0000_0000
    requires Reads(body, Interleaved(pairs), rest)
    ensures var (v, left) := Decode(f + body);
      && left == rest && v.Ok? && v.value.Hash? && DistinctKeys(v.value.pairs)
      && (forall p :: p in v.value.pairs <==> SaidLast(pairs, p))
      && (DistinctKeys(pairs) ==> v.value.pairs == pairs)
  {
    hide RespLine, ParseLength, HeaderLine, Reads, DecodePairs, SaidLast, DistinctKeys;
    NumberIsRead(f, kind, |pairs|, body);
    PairsAreRead(body, [], pairs, rest);
    NoPairs();
    StoredLast([], [], pairs);
    assert [] + pairs == pairs;
    if DistinctKeys(pairs) { StoredInOrder([], pairs); }
  }

  lemma NoPairs()
    ensures DistinctKeys([]) && forall p :: !SaidLast([], p)
  {
  }

  lemma {:induction false} PairsAreRead(f: seq<Byte>, done: seq<Pair>, pairs: seq<Pair>, rest: seq<Byte>)
    requires Reads(f, Interleaved(pairs), rest)
    ensures DecodePairs(f, |pairs|, done) == (Ok(Hash(StoreAll(done, pairs))), rest)
    decreases |pairs|
  {
    hide Decode;
    if pairs != [] {
      var values, more := Interleaved(pairs), Interleaved(pairs[1..]);
      assert values[1..] == [pairs[0].value] + more && values[1..][1..] == more;
      PairsAreRead(Decode(Decode(f).1).1, Store(done, pairs[0].key, pairs[0].value), pairs[1..], rest);
    }
  }

  /** Storing keeps one pair for each key. */
  lemma {:induction false} StoreReplaces(pairs: seq<Pair>, key: Value, value: Value)
    requires DistinctKeys(pairs)
    ensures DistinctKeys(Store(pairs, key, value))
    ensures forall p :: p in Store(pairs, key, value) <==> p == Pair(key, value) || (p in pairs && p.key != key)
  {
    if pairs != [] {
      var rest := Store(pairs[1..], key, value);
      StoreReplaces(pairs[1..], key, value);
      assert pairs == [pairs[0]] + pairs[1..];
      assert forall p :: p in pairs <==> p == pairs[0] || p in pairs[1..];
      if pairs[0].key != key {
        assert forall k :: 0 <= k < |rest| ==> rest[k] in rest;
        assert forall p :: p in [pairs[0]] + rest <==> p == pairs[0] || p in rest;
      }
    }
  }

  lemma {:induction false} StoredLast(said: seq<Pair>, done: seq<Pair>, pairs: seq<Pair>)
    requires DistinctKeys(done) && forall p :: p in done <==> SaidLast(said, p)
    ensures DistinctKeys(StoreAll(done, pairs))
    ensures forall p :: p in StoreAll(done, pairs) <==> SaidLast(said + pairs, p)
    decreases |pairs|
  {
    hide DistinctKeys, SaidLast;
    if pairs == [] {
      assert said + pairs == said;
    } else {
      var next := pairs[0];
      StoreReplaces(done, next.key, next.value);
      forall p ensures SaidLast(said + [next], p) <==> p == next || (SaidLast(said, p) && p.key != next.key) {
        SaidNext(said, next, p);
      }
      StoredLast(said + [next], Store(done, next.key, next.value), pairs[1..]);
      assert said + [next] + pairs[1..] == said + pairs;
    }
  }

  lemma SaidNext(said: seq<Pair>, next: Pair, p: Pair)
    ensures SaidLast(said + [next], p) <==> p == next || (SaidLast(said, p) && p.key != next.key)
  {
    var all := said + [next];
    assert all[|said|] == next && forall k :: 0 <= k < |said| ==> all[k] == said[k];
  }

  lemma {:induction false} StoredInOrder(done: seq<Pair>, pairs: seq<Pair>)
    requires DistinctKeys(done + pairs)
    ensures StoreAll(done, pairs) == done + pairs
    decreases |pairs|
  {
    hide DistinctKeys, Store;
    if pairs == [] {
      assert done + pairs == done;
    } else {
      NextKeyIsNew(done, pairs);
      StoreNew(done, pairs[0].key, pairs[0].value);
      assert done + [pairs[0]] + pairs[1..] == done + pairs;
      StoredInOrder(done + [pairs[0]], pairs[1..]);
    }
  }
}
