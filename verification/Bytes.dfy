/**
 Byte sequences, the big-endian integers and length-prefixed strings of the
 wire format, and the consumed buffer they are read from.

 A Rust `str`, `Vec<u8>` or file is a `Str`; a `String` is a `Str` that is
 valid UTF-8.  A read past the end of a buffer is the outcome `Panic`.
 */
module Bytes {
  import opened Wrappers

  /** How many values a 32-bit word has. */
  const WORD := 0x1_0000_0000

  type byte = x: int | 0 <= x < 0x100
  type u16 = x: int | 0 <= x < 0x1_0000
  type u32 = x: int | 0 <= x < WORD
  type Str = seq<byte>

  /** A parsed value and the bytes left after it. */
  datatype Read<+T> = Read(value: T, rest: Str)

  type Parse<+T> = Outcome<Read<T>, string>

  lemma {:induction false} NoWrap(n: nat)
    requires n < WORD
    ensures n % WORD == n
  {
  }

  lemma {:induction false} Regroup(a: Str, b: Str, c: Str)
    ensures a + b + c == a + (b + c)
  {
  }

  // ---- Integers ----

  function U16Bytes(n: u16): Str {
    [n / 0x100, n % 0x100]
  }

  function U32Bytes(n: u32): Str {
    U16Bytes(n / 0x1_0000) + U16Bytes(n % 0x1_0000)
  }

  /** Two bytes, the high one first. */
  function Big(high: int, low: int): int {
    high * 0x100 + low
  }

  function ParseU8(s: Str): (r: Parse<byte>)
    ensures r.Ok? ==> |r.value.rest| < |s|
  {
    if |s| < 1 then Panic else Ok(Read(s[0], s[1..]))
  }

  function ParseU16(s: Str): (r: Parse<u16>)
    ensures r.Ok? ==> |r.value.rest| < |s|
  {
    if |s| < 2 then Panic else Ok(Read(Big(s[0], s[1]), s[2..]))
  }

  function ParseU32(s: Str): (r: Parse<u32>)
    ensures r.Ok? ==> |r.value.rest| < |s|
  {
    if |s| < 4 then Panic
    else Ok(Read(Big(s[0], s[1]) * 0x1_0000 + Big(s[2], s[3]), s[4..]))
  }

  /** The high byte comes first, and every byte is worth 256 of the next. */
  lemma {:induction false} BigEndian(n: u16, m: u32)
    ensures |U16Bytes(n)| == 2 && |U32Bytes(m)| == 4
    ensures n == 0x100 * (U16Bytes(n)[0] as int) + U16Bytes(n)[1]
    ensures var h, i, j, k: int := U32Bytes(m)[0], U32Bytes(m)[1], U32Bytes(m)[2], U32Bytes(m)[3];
      m == 0x100_0000 * h + 0x1_0000 * i + 0x100 * j + k
  {
  }

  // ---- UTF-8 ----

  predicate Within(b: byte, lo: byte, hi: byte) {
    lo <= b <= hi
  }

  /** Number of bytes of the character that starts `s`, 0 when there is none. */
  function CharLen(s: Str): nat
    requires s != []
    ensures CharLen(s) <= |s|
  {
    var a := s[0];
    var b := if |s| > 1 then s[1] else 0;
    var c := |s| > 2 && Within(s[2], 0x80, 0xBF);
    var d := |s| > 3 && Within(s[3], 0x80, 0xBF);
    if a < 0x80 then 1
    else if Within(a, 0xC2, 0xDF) && Within(b, 0x80, 0xBF) then 2
    else if a == 0xE0 && Within(b, 0xA0, 0xBF) && c then 3
    else if a == 0xED && Within(b, 0x80, 0x9F) && c then 3
    else if Within(a, 0xE1, 0xEF) && a != 0xED && Within(b, 0x80, 0xBF) && c then 3
    else if a == 0xF0 && Within(b, 0x90, 0xBF) && c && d then 4
    else if Within(a, 0xF1, 0xF3) && Within(b, 0x80, 0xBF) && c && d then 4
    else if a == 0xF4 && Within(b, 0x80, 0x8F) && c && d then 4
    else 0
  }

  predicate ValidUtf8(s: Str) {
    s == [] || (CharLen(s) > 0 && ValidUtf8(s[CharLen(s)..]))
  }

  // ---- Length-prefixed strings and binary data ----

  const MAX_STR := 0xFFFF

  function StrBytes(v: Str): Str
    requires |v| <= MAX_STR
  {
    U16Bytes(|v|) + v
  }

  function ParseBinary(s: Str): (r: Parse<Str>)
    ensures r.Ok? ==> |r.value.rest| < |s|
  {
    match ParseU16(s)
    case Panic => Panic
    case Err(e) => Err(e)
    case Ok(Read(n, rest)) =>
      if n > |rest| then Err("buffer out of capacity") else Ok(Read(rest[..n], rest[n..]))
  }

  function ParseString(s: Str): (r: Parse<Str>)
    ensures r.Ok? ==> |r.value.rest| < |s|
  {
    match ParseBinary(s)
    case Panic => Panic
    case Err(e) => Err(e)
    case Ok(Read(v, rest)) => if ValidUtf8(v) then Ok(Read(v, rest)) else Err("Invalid UTF-8 string")
  }

  function ParsePair(s: Str): (r: Parse<(Str, Str)>)
    ensures r.Ok? ==> |r.value.rest| < |s|
  {
    match ParseString(s)
    case Panic => Panic
    case Err(e) => Err(e)
    case Ok(Read(k, rest)) =>
      match ParseString(rest)
      case Panic => Panic
      case Err(e) => Err(e)
      case Ok(Read(v, rest')) => Ok(Read((k, v), rest'))
  }

  lemma {:induction false} Assoc(d: Str, a: Str, b: Str, c: Str, e: Str)
    ensures d + a + b + c + e == d + (a + b + c + e)
  {
  }

  // ---- Tagged optional fields ----

  function Tagged8(tag: byte, o: Option<byte>): Str {
    match o case None => [] case Some(v) => [tag, v]
  }

  function Tagged16(tag: byte, o: Option<u16>): Str {
    match o case None => [] case Some(v) => [tag] + U16Bytes(v)
  }

  function Tagged32(tag: byte, o: Option<u32>): Str {
    match o case None => [] case Some(v) => [tag] + U32Bytes(v)
  }

  predicate Short(o: Option<Str>) {
    o.Some? ==> |o.value| <= MAX_STR
  }

  function TaggedStr(tag: byte, o: Option<Str>): Str
    requires Short(o)
  {
    match o case None => [] case Some(v) => [tag] + StrBytes(v)
  }

  type Pairs = seq<(Str, Str)>

  predicate ShortPairs(us: Pairs) {
    forall u :: u in us ==> |u.0| <= MAX_STR && |u.1| <= MAX_STR
  }

  const USER_TAG: byte := 0x26

  function PairBytes(u: (Str, Str)): Str
    requires |u.0| <= MAX_STR && |u.1| <= MAX_STR
  {
    [USER_TAG] + StrBytes(u.0) + StrBytes(u.1)
  }

  function PairsBytes(us: Pairs): Str
    requires ShortPairs(us)
  {
    if us == [] then [] else PairBytes(us[0]) + PairsBytes(us[1..])
  }

  lemma {:induction false} PairsBytesSnoc(us: Pairs, u: (Str, Str))
    requires ShortPairs(us) && |u.0| <= MAX_STR && |u.1| <= MAX_STR
    ensures ShortPairs(us + [u]) && PairsBytes(us + [u]) == PairsBytes(us) + PairBytes(u)
  {
    if us == [] {
      assert us + [u] == [u] && [u][1..] == [];
    } else {
      assert us[0] in us && (us + [u])[1..] == us[1..] + [u];
      PairsBytesSnoc(us[1..], u);
      Regroup(PairBytes(us[0]), PairsBytes(us[1..]), PairBytes(u));
    }
  }

  lemma {:induction false} OneMorePair(us: Pairs, i: nat)
    requires i < |us| && ShortPairs(us[..i]) && |us[i].0| <= MAX_STR && |us[i].1| <= MAX_STR
    ensures ShortPairs(us[..i + 1]) && PairsBytes(us[..i + 1]) == PairsBytes(us[..i]) + PairBytes(us[i])
  {
    assert us[..i + 1] == us[..i] + [us[i]];
    PairsBytesSnoc(us[..i], us[i]);
  }

  /** Some bytes, when there are any, are a string. */
  predicate TextOf(o: Option<Str>) {
    o.Some? ==> ValidUtf8(o.value)
  }

  function ListOf(o: Option<Pairs>): Pairs {
    match o case None => [] case Some(us) => us
  }

  /** A user property read after those in `o`. */
  function Push(o: Option<Pairs>, u: (Str, Str)): Option<Pairs> {
    Some(ListOf(o) + [u])
  }

  /** What a decoder makes of a list of user properties: an empty one is lost. */
  function PushAll(o: Option<Pairs>, us: Pairs): Option<Pairs> {
    if us == [] then o else Some(ListOf(o) + us)
  }

  /** The same for a value already taken off a buffer. */
  function Fill<T, U>(r: Outcome<T, string>, f: T -> U): Outcome<U, string> {
    match r
    case Ok(v) => Ok(f(v))
    case Err(e) => Err(e)
    case Panic => Panic
  }

  lemma {:induction false} PushAllStep(o: Option<Pairs>, us: Pairs)
    requires us != []
    ensures PushAll(Push(o, us[0]), us[1..]) == PushAll(o, us)
  {
    if us[1..] == [] { assert us == [us[0]]; }
    assert ListOf(o) + us == ListOf(o) + [us[0]] + us[1..];
  }

  /** A parsed value turned into another one. */
  function Lift<T, U>(p: Parse<T>, f: T -> U): (r: Parse<U>)
    ensures r.Ok? <==> p.Ok?
    ensures r.Ok? ==> r.value.rest == p.value.rest
  {
    match p
    case Ok(Read(v, rest)) => Ok(Read(f(v), rest))
    case Err(e) => Err(e)
    case Panic => Panic
  }

  // ---- Reading undoes writing, whatever follows ----

  lemma {:induction false} U16RoundTrip(n: u16, t: Str)
    ensures ParseU16(U16Bytes(n) + t) == Ok(Read(n, t))
  {
    assert (U16Bytes(n) + t)[2..] == t;
  }

  lemma {:induction false} U32RoundTrip(n: u32, t: Str)
    ensures ParseU32(U32Bytes(n) + t) == Ok(Read(n, t))
  {
    assert (U32Bytes(n) + t)[4..] == t;
  }

  lemma {:induction false} BinaryRoundTrip(v: Str, t: Str)
    requires |v| <= MAX_STR
    ensures ParseBinary(StrBytes(v) + t) == Ok(Read(v, t))
  {
    assert StrBytes(v) + t == U16Bytes(|v|) + (v + t);
    U16RoundTrip(|v|, v + t);
    assert (v + t)[..|v|] == v && (v + t)[|v|..] == t;
  }

  lemma {:induction false} StringRoundTrip(v: Str, t: Str)
    requires |v| <= MAX_STR && ValidUtf8(v)
    ensures ParseString(StrBytes(v) + t) == Ok(Read(v, t))
  {
    BinaryRoundTrip(v, t);
  }

  lemma {:induction false} PairRead(s: Str, k: Str, rest: Str, v: Str, t: Str)
    requires ParseString(s) == Ok(Read(k, rest)) && ParseString(rest) == Ok(Read(v, t))
    ensures ParsePair(s) == Ok(Read((k, v), t))
  {
  }

  lemma {:induction false} PairRoundTrip(k: Str, v: Str, t: Str)
    requires |k| <= MAX_STR && ValidUtf8(k) && |v| <= MAX_STR && ValidUtf8(v)
    ensures ParsePair(StrBytes(k) + StrBytes(v) + t) == Ok(Read((k, v), t))
  {
    Regroup(StrBytes(k), StrBytes(v), t);
    StringRoundTrip(k, StrBytes(v) + t);
    StringRoundTrip(v, t);
    PairRead(StrBytes(k) + StrBytes(v) + t, k, StrBytes(v) + t, v, t);
  }

  /** What a string is read as, on any bytes: they may end in its length, which is a
      panic, or before what that announces, or not be UTF-8. */
  lemma {:induction false} StringExactly(s: Str)
    ensures |s| < 2 ==> ParseString(s) == Panic
    ensures |s| >= 2 ==>
      var n := 0x100 * (s[0] as int) + s[1];
      ParseString(s) ==
        if n > |s| - 2 then Err("buffer out of capacity")
        else if ValidUtf8(s[2..n + 2]) then Ok(Read(s[2..n + 2], s[n + 2..]))
        else Err("Invalid UTF-8 string")
  {
    if |s| >= 2 {
      var n := 0x100 * (s[0] as int) + s[1];
      if n <= |s| - 2 { assert s[2..][..n] == s[2..n + 2] && s[2..][n..] == s[n + 2..]; }
    }
  }

  // ---- The consumed and appended-to buffer ----

  /** A read `r` leaving `rest` is what the parser gives. */
  predicate Agrees<T(==)>(r: Outcome<T, string>, rest: Str, p: Parse<T>) {
    match p
    case Ok(Read(v, left)) => r == Ok(v) && rest == left
    case Err(e) => r == Err(e)
    case Panic => r.Panic?
  }

  class BytesMut {
    var data: Str

    constructor (s: Str)
      ensures data == s
    {
      data := s;
    }

    method GetU8() returns (r: Outcome<byte, string>)
      modifies this
      ensures Agrees(r, data, ParseU8(old(data)))
    {
      if |data| < 1 { return Panic; }
      r := Ok(data[0]);
      data := data[1..];
    }

    method GetU16() returns (r: Outcome<u16, string>)
      modifies this
      ensures Agrees(r, data, ParseU16(old(data)))
    {
      if |data| < 2 { return Panic; }
      r := Ok(Big(data[0], data[1]));
      data := data[2..];
    }

    method GetU32() returns (r: Outcome<u32, string>)
      modifies this
      ensures Agrees(r, data, ParseU32(old(data)))
    {
      if |data| < 4 { return Panic; }
      r := Ok(Big(data[0], data[1]) * 0x1_0000 + Big(data[2], data[3]));
      data := data[4..];
    }

    method SplitTo(n: nat) returns (front: Str)
      requires n <= |data|
      modifies this
      ensures front == old(data)[..n] && data == old(data)[n..]
    {
      front := data[..n];
      data := data[n..];
    }

    method Put(s: Str)
      modifies this
      ensures data == old(data) + s
    {
      data := data + s;
    }

    method DecodeBinary() returns (r: Outcome<Str, string>)
      modifies this
      ensures Agrees(r, data, ParseBinary(old(data)))
    {
      var len := GetU16();
      if len.Panic? { return Panic; }
      if len.value > |data| { return Err("buffer out of capacity"); }
      var v := SplitTo(len.value);
      r := Ok(v);
    }

    method DecodeString() returns (r: Outcome<Str, string>)
      modifies this
      ensures Agrees(r, data, ParseString(old(data)))
    {
      var len := GetU16();
      if len.Panic? { return Panic; }
      if len.value > |data| { return Err("buffer out of capacity"); }
      var v := SplitTo(len.value);
      if !ValidUtf8(v) { return Err("Invalid UTF-8 string"); }
      r := Ok(v);
    }

    /** Optional fields, written with their tag when present. */
    method PutTagged8(tag: byte, o: Option<byte>)
      modifies this
      ensures data == old(data) + Tagged8(tag, o)
    {
      if o.Some? { Put([tag]); Put([o.value]); }
    }

    method PutTagged16(tag: byte, o: Option<u16>)
      modifies this
      ensures data == old(data) + Tagged16(tag, o)
    {
      if o.Some? { Put([tag]); Put(U16Bytes(o.value)); }
    }

    method PutTagged32(tag: byte, o: Option<u32>)
      modifies this
      ensures data == old(data) + Tagged32(tag, o)
    {
      if o.Some? { Put([tag]); Put(U32Bytes(o.value)); }
    }

    method PutTaggedStr(tag: byte, o: Option<Str>) returns (ok: bool)
      modifies this
      ensures ok == Short(o)
      ensures ok ==> data == old(data) + TaggedStr(tag, o)
    {
      ok := true;
      if o.Some? {
        Put([tag]);
        ok := EncodeString(o.value);
      }
    }

    method PutPair(u: (Str, Str)) returns (ok: bool)
      modifies this
      ensures ok == (|u.0| <= MAX_STR && |u.1| <= MAX_STR)
      ensures ok ==> data == old(data) + PairBytes(u)
    {
      Put([USER_TAG]);
      ok := EncodeString(u.0);
      if !ok { return; }
      ok := EncodeString(u.1);
      assert ok ==> data == old(data) + PairBytes(u);
    }

    method PutPairs(us: Pairs) returns (ok: bool)
      modifies this
      ensures ok == ShortPairs(us)
      ensures ok ==> data == old(data) + PairsBytes(us)
    {
      var i := 0;
      while i < |us|
        invariant 0 <= i <= |us| && ShortPairs(us[..i])
        invariant data == old(data) + PairsBytes(us[..i])
      {
        assert us[i] in us;
        ok := PutPair(us[i]);
        if !ok { return; }
        OneMorePair(us, i);
        Regroup(old(data), PairsBytes(us[..i]), PairBytes(us[i]));
        i := i + 1;
      }
      assert us[..i] == us;
      ok := true;
    }

    method DecodePair() returns (r: Outcome<(Str, Str), string>)
      modifies this
      ensures Agrees(r, data, ParsePair(old(data)))
    {
      var k := DecodeString();
      if k.Panic? { return Panic; }
      if k.Err? { return Err(k.error); }
      var v := DecodeString();
      if v.Panic? { return Panic; }
      if v.Err? { return Err(v.error); }
      r := Ok((k.value, v.value));
    }

    /** Appends a length-prefixed string or binary value; one that is too long
        is refused and nothing is written. */
    method EncodeString(v: Str) returns (ok: bool)
      modifies this
      ensures ok == (|v| <= MAX_STR)
      ensures data == if ok then old(data) + StrBytes(v) else old(data)
    {
      if |v| > MAX_STR { return false; }
      Put(U16Bytes(|v|));
      Put(v);
      assert data == old(data) + StrBytes(v);
      ok := true;
    }
  }
}
