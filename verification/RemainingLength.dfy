/**
 Variable Byte Integers, section 1.5.5 of MQTT Version 5.0.
 */
module RemainingLength {
  import opened Wrappers
  import opened Bytes

  const MAX_ENCODABLE := 268435455

  const MALFORMED := "Malformed Remaining Length"

  /** The bytes written for `n`; zero writes none. */
  function LenBytes(n: nat): Str {
    if n == 0 then []
    else if n < 128 then [n]
    else [n % 128 + 128] + LenBytes(n / 128)
  }

  /** Reads on with `value` gathered so far and the next byte worth `multiplier`. */
  function ParseFrom(s: Str, multiplier: nat, value: nat): (r: Parse<nat>)
    ensures r.Ok? ==> |r.value.rest| < |s|
    decreases |s|
  {
    if s == [] then Panic
    else
      var v := value + s[0] % 128 * multiplier;
      if s[0] < 128 then Ok(Read(v, s[1..]))
      else if multiplier * 128 > 128 * 128 * 128 then Err(MALFORMED)
      else ParseFrom(s[1..], multiplier * 128, v)
  }

  function ParseLen(s: Str): (r: Parse<nat>)
    ensures r.Ok? ==> |r.value.rest| < |s|
  {
    ParseFrom(s, 1, 0)
  }

  /** Reading undoes writing for every value but zero, whatever follows. */
  lemma {:induction false} LenRoundTrip(n: nat, t: Str)
    requires 0 < n <= MAX_ENCODABLE
    ensures ParseLen(LenBytes(n) + t) == Ok(Read(n, t))
  {
    LenRoundTripFrom(n, 1, 0, t);
  }

  /** A length as section 1.5.5 of MQTT Version 5.0 writes it, zero included. */
  function VarLen(n: nat): Str {
    if n == 0 then [0] else LenBytes(n)
  }

  lemma {:induction false} VarLenBack(n: nat, t: Str)
    requires n <= MAX_ENCODABLE
    ensures ParseLen(VarLen(n) + t) == Ok(Read(n, t))
  {
    if n > 0 { LenRoundTrip(n, t); } else { assert ([0] + t)[1..] == t; }
  }

  lemma {:induction false} LenRoundTripFrom(n: nat, m: nat, v: nat, t: Str)
    requires 0 < n
    requires
      || (m == 1 && n < 0x1000_0000)
      || (m == 0x80 && n < 0x20_0000)
      || (m == 0x4000 && n < 0x4000)
      || (m == 0x20_0000 && n < 0x80)
    ensures ParseFrom(LenBytes(n) + t, m, v) == Ok(Read(v + n * m, t))
    decreases n
  {
    var s := LenBytes(n) + t;
    if n < 128 {
      assert s[1..] == t;
    } else {
      assert s[1..] == LenBytes(n / 128) + t;
      LenRoundTripFrom(n / 128, m * 128, v + n % 128 * m, t);
      DigitSum(n, m);
    }
  }

  lemma {:induction false} DigitSum(n: nat, m: nat)
    ensures n % 128 * m + n / 128 * (m * 128) == n * m
  {
    var q, d := n / 128, n % 128;
    assert n == q * 128 + d;
    assert (q * 128 + d) * m == q * 128 * m + d * m;
    assert q * (m * 128) == q * 128 * m;
  }

  /** `k` bytes exactly for the values from 128^(k-1) to 128^k - 1. */
  lemma {:induction false} LenSize(n: nat)
    requires n <= MAX_ENCODABLE
    ensures |LenBytes(n)| <= 4
    ensures |LenBytes(n)| == 0 <==> n == 0
    ensures |LenBytes(n)| == 1 <==> 1 <= n < 0x80
    ensures |LenBytes(n)| == 2 <==> 0x80 <= n < 0x4000
    ensures |LenBytes(n)| == 3 <==> 0x4000 <= n < 0x20_0000
    ensures |LenBytes(n)| == 4 <==> 0x20_0000 <= n < 0x1000_0000
  {
    assert n >= 128 ==> |LenBytes(n)| == 1 + |LenBytes(n / 128)|;
    assert n >= 0x4000 ==> |LenBytes(n / 128)| == 1 + |LenBytes(n / 128 / 128)|;
    assert n >= 0x20_0000 ==> |LenBytes(n / 128 / 128)| == 1 + |LenBytes(n / 128 / 128 / 128)|;
  }

  ghost predicate Weight(m: nat, left: nat) {
    (m == 1 && left == 4) || (m == 0x80 && left == 3) || (m == 0x4000 && left == 2) || (m == 0x20_0000 && left == 1)
  }

  predicate Continues(s: Str, n: nat) {
    n <= |s| && forall i :: 0 <= i < n ==> s[i] >= 128
  }

  lemma {:induction false} ContinuesOn(s: Str, n: nat)
    requires s != [] && s[0] >= 128 && n > 0
    ensures Continues(s, n) <==> Continues(s[1..], n - 1)
  {
    if Continues(s[1..], n - 1) {
      forall i | 0 <= i < n ensures s[i] >= 128 { if i > 0 { assert s[i] == s[1..][i - 1]; } }
    }
  }

  lemma {:induction false} ParseFits(s: Str, m: nat, v: nat, left: nat)
    requires Weight(m, left) && v < m
    ensures ParseFrom(s, m, v).Ok? ==> ParseFrom(s, m, v).value.value <= MAX_ENCODABLE
    decreases left
  {
    if s != [] && s[0] >= 128 && left > 1 { ParseFits(s[1..], m * 128, v + s[0] % 128 * m, left - 1); }
  }

  /** Where reading ends. */
  ghost predicate Stops(r: Parse<nat>, s: Str, left: nat) {
    match r
    case Err(_) => Continues(s, left)
    case Panic => |s| < left && Continues(s, |s|)
    case Ok(Read(_, rest)) =>
      |rest| < |s| <= |rest| + left && Continues(s, |s| - |rest| - 1)
      && s[|s| - |rest| - 1] < 128 && rest == s[|s| - |rest|..]
  }

  lemma {:induction false} StopsOn(r: Parse<nat>, s: Str, left: nat)
    requires s != [] && s[0] >= 128 && left > 0 && Stops(r, s[1..], left - 1)
    ensures Stops(r, s, left)
  {
    match r
    case Err(_) => ContinuesOn(s, left);
    case Panic => ContinuesOn(s, |s|);
    case Ok(Read(_, rest)) => ContinuesOn(s, |s| - |rest| - 1);
  }

  lemma {:induction false} ParseStops(s: Str, m: nat, v: nat, left: nat)
    requires Weight(m, left)
    ensures Stops(ParseFrom(s, m, v), s, left)
    decreases left
  {
    if s != [] && s[0] >= 128 && left > 1 {
      var more := v + s[0] % 128 * m;
      assert ParseFrom(s, m, v) == ParseFrom(s[1..], m * 128, more);
      ParseStops(s[1..], m * 128, more, left - 1);
      StopsOn(ParseFrom(s[1..], m * 128, more), s, left);
    }
  }

  /** On any input reading fails on four continuation bytes, runs out of bytes on
      fewer, and else ends at the first other byte, within four, with a value
      that fits: the program's u32 sum never overflows. */
  lemma {:induction false} DecodeStops(s: Str)
    ensures ParseLen(s).Err? <==> Continues(s, 4)
    ensures ParseLen(s).Panic? <==> |s| < 4 && Continues(s, |s|)
    ensures ParseLen(s).Ok? ==> var n := |s| - |ParseLen(s).value.rest|;
      1 <= n <= 4 && s[n - 1] < 128 && Continues(s, n - 1) && ParseLen(s).value.rest == s[n..]
    ensures ParseLen(s).Ok? ==> ParseLen(s).value.value <= MAX_ENCODABLE
  {
    ParseStops(s, 1, 0, 4);
    ParseFits(s, 1, 0, 4);
  }

  /** The value of bytes of seven bits, the low ones first. */
  function Weighed(s: Str): nat {
    if s == [] then 0 else s[0] % 128 + 128 * Weighed(s[1..])
  }

  lemma {:induction false} ValueFrom(s: Str, m: nat, v: nat)
    ensures ParseFrom(s, m, v).Ok? ==>
      var n := |s| - |ParseFrom(s, m, v).value.rest|; ParseFrom(s, m, v).value.value == v + m * Weighed(s[..n])
    decreases |s|
  {
    if s != [] && ParseFrom(s, m, v).Ok? {
      var n := |s| - |ParseFrom(s, m, v).value.rest|;
      var d := s[0] % 128;
      assert s[..n][0] == s[0] && s[..n][1..] == s[1..n];
      if s[0] < 128 {
        assert s[1..1] == [] && Weighed(s[..n]) == d;
        assert m * d == d * m;
      } else {
        ValueFrom(s[1..], m * 128, v + d * m);
        assert s[1..][..n - 1] == s[1..n];
        Distributes(m, d, Weighed(s[1..n]));
      }
    }
  }

  lemma {:induction false} Distributes(m: nat, d: nat, w: nat)
    ensures m * (d + 128 * w) == d * m + m * 128 * w
  {
  }

  /** An integer is read as the value of the bytes it takes. */
  lemma {:induction false} ReadsWeighed(s: Str)
    ensures ParseLen(s).Ok? ==> ParseLen(s).value.value == Weighed(s[..|s| - |ParseLen(s).value.rest|])
  {
    ValueFrom(s, 1, 0);
  }

  lemma {:induction false} NextByte(n: nat)
    requires n > 0
    ensures LenBytes(n) == [if n / 128 > 0 then n % 128 + 128 else n % 128] + LenBytes(n / 128)
  {
  }

  method Encode(target: u32) returns (ok: bool, res: array<byte>, size: nat)
    ensures ok == (target <= MAX_ENCODABLE)
    ensures fresh(res) && res.Length == 4 && size <= 4
    ensures ok ==> res[..size] == LenBytes(target)
  {
    res := new byte[4](_ => 0);
    size := 0;
    if target > MAX_ENCODABLE { return false, res, 0; }
    LenSize(target);
    var rest := target;
    while rest != 0
      invariant 0 <= rest <= target && size + |LenBytes(rest)| <= 4
      invariant res[..size] + LenBytes(rest) == LenBytes(target)
      decreases rest
    {
      ghost var before, was := res[..size], rest;
      NextByte(was);
      var b := rest % 128;
      rest := rest / 128;
      if rest > 0 { b := b + 128; }
      res[size] := b;
      size := size + 1;
      assert res[..size] == before + [b];
      Regroup(before, [b], LenBytes(rest));
    }
    assert res[..size] == res[..size] + LenBytes(rest);
    ok := true;
  }

  method Decode(buffer: BytesMut) returns (r: Outcome<u32, string>)
    modifies buffer
    ensures Agrees(r, buffer.data, ParseLen(old(buffer.data)))
  {
    var multiplier: u32, value: u32 := 1, 0;
    ghost var left: nat := 4;
    while true
      invariant Weight(multiplier, left) && value < multiplier
      invariant ParseFrom(buffer.data, multiplier, value) == ParseLen(old(buffer.data))
      decreases left
    {
      var b := buffer.GetU8();
      if b.Panic? { return Panic; }
      value := value + b.value % 128 * multiplier;
      if b.value < 128 { break; }
      multiplier := multiplier * 128;
      if multiplier > 128 * 128 * 128 { return Err(MALFORMED); }
      left := left - 1;
    }
    r := Ok(value);
  }
}
