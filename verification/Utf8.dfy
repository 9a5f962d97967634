/**
 UTF-8, section 3 of RFC 3629: the byte sequences accepted are exactly those that
 encode scalar values one after the other.
 */
module Utf8 {
  import opened Bytes

  predicate Scalar(c: nat) {
    c < 0xD800 || 0xE000 <= c < 0x11_0000
  }

  /** The bytes of one scalar value. */
  function Encoded(c: nat): (r: Str)
    requires Scalar(c)
    ensures r != []
  {
    if c < 0x80 then [c]
    else if c < 0x800 then [0xC0 + c / 0x40, 0x80 + c % 0x40]
    else if c < 0x1_0000 then [0xE0 + c / 0x1000, 0x80 + c / 0x40 % 0x40, 0x80 + c % 0x40]
    else [0xF0 + c / 0x4_0000, 0x80 + c / 0x1000 % 0x40, 0x80 + c / 0x40 % 0x40, 0x80 + c % 0x40]
  }

  predicate Scalars(cs: seq<nat>) {
    forall c :: c in cs ==> Scalar(c)
  }

  function AllEncoded(cs: seq<nat>): Str
    requires Scalars(cs)
  {
    if cs == [] then [] else assert cs[0] in cs; Encoded(cs[0]) + AllEncoded(cs[1..])
  }

  lemma {:induction false} ShortIsChar(c: nat, t: Str)
    requires Scalar(c) && c < 0x800
    ensures CharLen(Encoded(c) + t) == |Encoded(c)|
  {
    var s := Encoded(c) + t;
    assert s[0] == Encoded(c)[0] && (c >= 0x80 ==> s[1] == Encoded(c)[1]);
  }

  lemma {:induction false} ThreeIsChar(c: nat, t: Str)
    requires Scalar(c) && 0x800 <= c < 0x1_0000
    ensures CharLen(Encoded(c) + t) == 3
  {
    var s := Encoded(c) + t;
    assert s[0] == Encoded(c)[0] && s[1] == Encoded(c)[1] && s[2] == Encoded(c)[2];
    assert (c < 0x1000 <==> s[0] == 0xE0) && (0xD000 <= c < 0xE000 <==> s[0] == 0xED);
  }

  lemma {:induction false} FourIsChar(c: nat, t: Str)
    requires Scalar(c) && 0x1_0000 <= c
    ensures CharLen(Encoded(c) + t) == 4
  {
    var s := Encoded(c) + t;
    assert s[0] == Encoded(c)[0] && s[1] == Encoded(c)[1] && s[2] == Encoded(c)[2] && s[3] == Encoded(c)[3];
    assert (c < 0x4_0000 <==> s[0] == 0xF0) && (0x10_0000 <= c <==> s[0] == 0xF4);
  }

  lemma {:induction false} EncodedIsChar(c: nat, t: Str)
    requires Scalar(c)
    ensures CharLen(Encoded(c) + t) == |Encoded(c)|
  {
    if c < 0x800 { ShortIsChar(c, t); } else if c < 0x1_0000 { ThreeIsChar(c, t); } else { FourIsChar(c, t); }
  }

  lemma {:induction false} EncodedIsValid(cs: seq<nat>)
    requires Scalars(cs)
    ensures ValidUtf8(AllEncoded(cs))
  {
    if cs != [] {
      assert cs[0] in cs;
      EncodedIsValid(cs[1..]);
      EncodedIsChar(cs[0], AllEncoded(cs[1..]));
      assert (Encoded(cs[0]) + AllEncoded(cs[1..]))[|Encoded(cs[0])|..] == AllEncoded(cs[1..]);
    }
  }

  /** The scalar value of the bytes of one character. */
  function Two(a: int, b: int): int {
    (a - 0xC0) * 0x40 + (b - 0x80)
  }

  function Three(a: int, b: int, c: int): int {
    ((a - 0xE0) * 0x40 + (b - 0x80)) * 0x40 + (c - 0x80)
  }

  function Four(a: int, b: int, c: int, d: int): int {
    (((a - 0xF0) * 0x40 + (b - 0x80)) * 0x40 + (c - 0x80)) * 0x40 + (d - 0x80)
  }

  lemma {:induction false} TwoIsEncoded(a: byte, b: byte)
    requires Within(a, 0xC2, 0xDF) && Within(b, 0x80, 0xBF)
    ensures var c := Two(a, b); c >= 0 && Scalar(c) && Encoded(c) == [a, b]
  {
  }

  lemma {:induction false} ThreeIsEncoded(a: byte, b: byte, c: byte)
    requires Within(a, 0xE0, 0xEF) && Within(b, 0x80, 0xBF) && Within(c, 0x80, 0xBF)
    requires (a == 0xE0 ==> b >= 0xA0) && (a == 0xED ==> b <= 0x9F)
    ensures var d := Three(a, b, c); d >= 0 && Scalar(d) && Encoded(d) == [a, b, c]
  {
    var d := Three(a, b, c);
    assert d / 0x40 == (a - 0xE0) as int * 0x40 + (b - 0x80) && d % 0x40 == c - 0x80;
  }

  /** The four digits to the base 64 of a number. */
  lemma {:induction false} FourDigits(x: nat, y: nat, z: nat, w: nat)
    requires y < 0x40 && z < 0x40 && w < 0x40
    ensures var e := ((x * 0x40 + y) * 0x40 + z) * 0x40 + w;
      e % 0x40 == w && e / 0x40 % 0x40 == z && e / 0x1000 % 0x40 == y && e / 0x4_0000 == x
  {
    var e := ((x * 0x40 + y) * 0x40 + z) * 0x40 + w;
    Quotients(e, x, y * 0x1000 + z * 0x40 + w, x * 0x40 + y, z * 0x40 + w);
    LastDigit((x * 0x40 + y) * 0x40 + z, w);
    LastDigit(x * 0x40 + y, z);
    LastDigit(x, y);
  }

  lemma {:induction false} LastDigit(q: nat, r: nat)
    requires r < 0x40
    ensures (q * 0x40 + r) / 0x40 == q && (q * 0x40 + r) % 0x40 == r
  {
  }

  lemma {:induction false} Quotients(e: nat, x: nat, r: nat, y: nat, s: nat)
    requires e == x * 0x4_0000 + r == y * 0x1000 + s && r < 0x4_0000 && s < 0x1000
    ensures e / 0x4_0000 == x && e / 0x1000 == y
  {
  }

  lemma {:induction false} FourIsEncoded(a: byte, b: byte, c: byte, d: byte)
    requires Within(a, 0xF0, 0xF4) && Within(b, 0x80, 0xBF) && Within(c, 0x80, 0xBF) && Within(d, 0x80, 0xBF)
    requires (a == 0xF0 ==> b >= 0x90) && (a == 0xF4 ==> b <= 0x8F)
    ensures var e := Four(a, b, c, d); e >= 0 && Scalar(e) && Encoded(e) == [a, b, c, d]
  {
    FourDigits(a - 0xF0, b - 0x80, c - 0x80, d - 0x80);
    FourInRange(a, b, c, d);
  }

  lemma {:induction false} FourInRange(a: byte, b: byte, c: byte, d: byte)
    requires Within(a, 0xF0, 0xF4) && Within(b, 0x80, 0xBF) && Within(c, 0x80, 0xBF) && Within(d, 0x80, 0xBF)
    requires (a == 0xF0 ==> b >= 0x90) && (a == 0xF4 ==> b <= 0x8F)
    ensures 0x1_0000 <= Four(a, b, c, d) < 0x11_0000
  {
  }

  lemma {:induction false} FirstIsEncoded(s: Str) returns (c: nat)
    requires s != [] && CharLen(s) > 0
    ensures Scalar(c) && Encoded(c) == s[..CharLen(s)]
  {
    match CharLen(s)
    case 1 =>
      c := s[0];
      assert s[..1] == [s[0]];
    case 2 =>
      TwoIsEncoded(s[0], s[1]);
      c := Two(s[0], s[1]);
      assert s[..2] == [s[0], s[1]];
    case 3 =>
      ThreeIsEncoded(s[0], s[1], s[2]);
      c := Three(s[0], s[1], s[2]);
      assert s[..3] == [s[0], s[1], s[2]];
    case _ =>
      FourIsEncoded(s[0], s[1], s[2], s[3]);
      c := Four(s[0], s[1], s[2], s[3]);
      assert s[..4] == [s[0], s[1], s[2], s[3]];
  }

  lemma {:induction false} ValidIsEncoded(s: Str) returns (cs: seq<nat>)
    requires ValidUtf8(s)
    ensures Scalars(cs) && AllEncoded(cs) == s
    decreases |s|
  {
    if s == [] {
      cs := [];
    } else {
      var c := FirstIsEncoded(s);
      var rest := ValidIsEncoded(s[CharLen(s)..]);
      cs := [c] + rest;
      assert cs[1..] == rest && s == s[..CharLen(s)] + s[CharLen(s)..];
    }
  }

  /** A string is valid exactly when it encodes some scalar values. */
  lemma {:induction false} ValidExactly(s: Str)
    ensures ValidUtf8(s) <==> exists cs :: Scalars(cs) && AllEncoded(cs) == s
  {
    if ValidUtf8(s) {
      var cs := ValidIsEncoded(s);
    } else if cs :| Scalars(cs) && AllEncoded(cs) == s {
      EncodedIsValid(cs);
    }
  }
}
