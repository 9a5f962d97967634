/**
 The hash stored beside a client id: MurmurHash3 over 32-bit words, whose tail
 step takes only the last byte.  Bitwise operations are defined on numbers.
 */
module ClientHash {
  import opened Bytes

  // ---- Words ----

  /** Exclusive or, bit by bit. */
  function Xor(a: nat, b: nat): nat
    decreases a + b
  {
    if a == 0 && b == 0 then 0 else (a + b) % 2 + 2 * Xor(a / 2, b / 2)
  }

  function Pow2(n: nat): (r: nat)
    ensures r > 0
  {
    if n == 0 then 1 else 2 * Pow2(n - 1)
  }

  function Shr(x: nat, n: nat): nat {
    if n == 0 then x else Shr(x / 2, n - 1)
  }

  lemma {:induction false} XorBound(a: nat, b: nat, n: nat)
    requires a < Pow2(n) && b < Pow2(n)
    ensures Xor(a, b) < Pow2(n)
    decreases n
  {
    if n > 0 && (a > 0 || b > 0) { XorBound(a / 2, b / 2, n - 1); }
  }

  lemma {:induction false} Pow2Values()
    ensures Pow2(13) == 0x2000 && Pow2(16) == 0x1_0000 && Pow2(32) == WORD
  {
    assert Pow2(8) == 0x100;
    assert Pow2(13) == 0x2000;
    assert Pow2(16) == 0x1_0000;
    assert Pow2(20) == 0x10_0000;
    assert Pow2(24) == 0x100_0000;
    assert Pow2(28) == 0x1000_0000;
  }

  function Xor32(a: u32, b: u32): u32 {
    Pow2Values();
    XorBound(a, b, 32);
    Xor(a, b)
  }

  /** What is left of a number in one word. */
  function Wrap(n: nat): u32 {
    if n < WORD then n else Wrap(n - WORD)
  }

  function Mul(x: u32, c: u32): u32 {
    Wrap(x * c)
  }

  /** One bit out at the top and in at the bottom, `n` times. */
  function RotateLeft(x: u32, n: nat): u32
    decreases n
  {
    if n == 0 then x else RotateLeft(Rotated(x), n - 1)
  }

  function Rotated(x: u32): u32 {
    if x < 0x8000_0000 then 2 * x else 2 * x - WORD + 1
  }

  function Fold(x: u32, n: nat): u32 {
    ShrBound(x, n);
    Xor32(x, Shr(x, n))
  }

  lemma {:induction false} ShrBound(x: nat, n: nat)
    ensures Shr(x, n) <= x
    decreases n
  {
    if n > 0 { ShrBound(x / 2, n - 1); }
  }

  // ---- The hash ----

  const C1: u32 := 0xcc9e2d51
  const C2: u32 := 0x1b873593

  function Scramble(k: u32): u32 {
    Mul(RotateLeft(Mul(k, C1), 15), C2)
  }

  /** A word taken into the hash: exclusive or, rotation, multiplication, addition. */
  function Mix(h: u32, k: u32, n: nat, c: u32, a: u32): u32 {
    Wrap(Mul(RotateLeft(Xor32(h, k), n), c) + a)
  }

  function MixBlock(h: u32, k: u32): u32 {
    Mix(h, Scramble(k), 13, 5, 0xe6546b64)
  }

  /** Four bytes, the low one first. */
  function Little(s: Str, i: nat): u32
    requires i + 4 <= |s|
  {
    Word4(s[i], s[i + 1], s[i + 2], s[i + 3])
  }

  function Word4(a: byte, b: byte, c: byte, d: byte): u32 {
    Bytes.Big(Bytes.Big(Bytes.Big(d, c), b), a)
  }

  /** The first `n` blocks taken in by `mix`, one after the other. */
  function Over(mix: (u32, u32) -> u32, s: Str, n: nat): u32
    requires 4 * n <= |s|
  {
    if n == 0 then 0 else mix(Over(mix, s, n - 1), Little(s, 4 * (n - 1)))
  }

  function Blocks(s: Str): u32 {
    Over(MixBlock, s, |s| / 4)
  }

  /** What is taken of the bytes after the last block: only the last of them. */
  function Tail(s: Str): u32 {
    match |s| % 4
    case 0 => 0
    case 1 => s[|s| - 1]
    case 2 => Shifted(s[|s| - 1], 0x100)
    case _ => Shifted(s[|s| - 1], 0x1_0000)
  }

  function Shifted(b: byte, m: int): u32
    requires 0 < m <= 0x1_0000
  {
    assert 0 <= b * m <= 0xFF * 0x1_0000;
    b * m
  }

  /** Every bit spread over the word: folding and multiplication. */
  function Spread(h: u32, n: nat, c: u32): u32 {
    Mul(Fold(h, n), c)
  }

  function Finish(h: u32): u32 {
    Fold(Spread(Spread(h, 16, 0x85ebca6b), 13, 0xc2b2ae35), 16)
  }

  function Hash(s: Str): u32 {
    Finish(Xor32(Xor32(Blocks(s), Scramble(Tail(s))), Wrap(|s|)))
  }

  // ---- Every step can be undone ----

  lemma {:induction false} XorHalf(a: nat, b: nat)
    ensures Xor(a, b) / 2 == Xor(a / 2, b / 2) && Xor(a, b) % 2 == (a + b) % 2
  {
  }

  lemma {:induction false} XorBack(a: nat, b: nat)
    ensures Xor(Xor(a, b), b) == a
    decreases a + b
  {
    if a > 0 || b > 0 {
      var c := Xor(a, b);
      XorHalf(a, b);
      XorHalf(c, b);
      XorBack(a / 2, b / 2);
      ParityBack(a, b, c);
      SameNumber(Xor(c, b), a);
    }
  }

  lemma {:induction false} ParityBack(a: nat, b: nat, c: nat)
    requires c % 2 == (a + b) % 2
    ensures (c + b) % 2 == a % 2
  {
  }

  lemma {:induction false} SameNumber(x: nat, y: nat)
    requires x / 2 == y / 2 && x % 2 == y % 2
    ensures x == y
  {
  }

  lemma {:induction false} XorSwap(a: nat, b: nat)
    ensures Xor(a, b) == Xor(b, a)
    decreases a + b
  {
    if a > 0 || b > 0 { XorSwap(a / 2, b / 2); }
  }

  lemma {:induction false} XorApart(a: nat, b: nat, c: nat)
    ensures Xor(a, c) == Xor(b, c) <==> a == b
    ensures Xor(c, a) == Xor(c, b) <==> a == b
  {
    XorBack(a, c);
    XorBack(b, c);
    XorSwap(a, c);
    XorSwap(b, c);
  }

  lemma {:induction false} XorShr(a: nat, b: nat, k: nat)
    ensures Shr(Xor(a, b), k) == Xor(Shr(a, k), Shr(b, k))
    decreases k
  {
    if k > 0 {
      XorHalf(a, b);
      XorShr(a / 2, b / 2, k - 1);
    }
  }

  lemma {:induction false} ShrShr(x: nat, j: nat, k: nat)
    ensures Shr(Shr(x, j), k) == Shr(x, j + k)
    decreases j
  {
    if j > 0 { ShrShr(x / 2, j - 1, k); }
  }

  lemma {:induction false} ShrAll(x: nat, n: nat)
    requires x < Pow2(n)
    ensures Shr(x, n) == 0
    decreases n
  {
    if n > 0 { ShrAll(x / 2, n - 1); }
  }

  /** Two words that fold to the same are the same, from the top bit down. */
  lemma {:induction false} FoldApartAt(x: nat, y: nat, s: nat, k: nat)
    requires s > 0 && k <= 32 && x < Pow2(32) && y < Pow2(32)
    requires Xor(x, Shr(x, s)) == Xor(y, Shr(y, s))
    ensures Shr(x, k) == Shr(y, k)
    decreases 32 - k
  {
    if k == 32 {
      ShrAll(x, 32);
      ShrAll(y, 32);
    } else {
      FoldApartAt(x, y, s, k + 1);
      ShrShr(x, k + 1, s - 1);
      ShrShr(y, k + 1, s - 1);
      ShrShr(x, s, k);
      ShrShr(y, s, k);
      XorShr(x, Shr(x, s), k);
      XorShr(y, Shr(y, s), k);
      XorApart(Shr(x, k), Shr(y, k), Shr(x, s + k));
    }
  }

  lemma {:induction false} FoldApart(x: u32, y: u32, n: nat)
    requires n > 0
    ensures Fold(x, n) == Fold(y, n) <==> x == y
  {
    Pow2Values();
    if Fold(x, n) == Fold(y, n) { FoldApartAt(x, y, n, 0); }
  }

  lemma {:induction false} WrapIs(n: nat)
    ensures Wrap(n) == n % WORD
  {
    if n >= WORD { WrapIs(n - WORD); }
  }

  lemma {:induction false} DivIs(x: int, m: int, q: int, r: int)
    requires 0 <= r < m && x == q * m + r
    ensures x / m == q && x % m == r
  {
    var d := x / m - q;
    assert d * m == r - x % m by { assert d * m == x / m * m - q * m; }
    assert -m < d * m < m;
    assert d >= 1 ==> d * m >= m;
    assert d <= -1 ==> d * m <= -m;
  }

  lemma {:induction false} Products(x: int, c: int, d: int, q: int, p: int, r: int, m: int)
    requires x * c == q * m + r && c * d == p * m + 1
    ensures r * d == (x * p - q * d) * m + x
  {
    assert x * c * d == x * (c * d);
    assert x * (p * m + 1) == x * p * m + x;
    assert (q * m + r) * d == q * d * m + r * d;
    assert (x * p - q * d) * m == x * p * m - q * d * m;
  }

  /** Multiplying by an odd constant is undone by its inverse. */
  lemma {:induction false} MulBack(x: u32, c: u32, d: u32)
    requires c * d % WORD == 1
    ensures Mul(Mul(x, c), d) == x
  {
    var q, p, r := x * c / WORD, c * d / WORD, Mul(x, c);
    WrapIs(x * c);
    WrapIs(r * d);
    Products(x, c, d, q, p, r, WORD);
    DivIs(r * d, WORD, x * p - q * d, x);
  }

  lemma {:induction false} MulApart(x: u32, y: u32, c: u32, d: u32)
    requires c * d % WORD == 1
    ensures Mul(x, c) == Mul(y, c) <==> x == y
  {
    MulBack(x, c, d);
    MulBack(y, c, d);
  }

  lemma {:induction false} RotateApart(x: u32, y: u32, n: nat)
    ensures RotateLeft(x, n) == RotateLeft(y, n) <==> x == y
    decreases n
  {
    if n > 0 { RotateApart(Rotated(x), Rotated(y), n - 1); }
  }

  lemma {:induction false} ScramblesApart(x: u32, y: u32, a: u32, a': u32, n: nat, b: u32, b': u32)
    requires a * a' % WORD == 1 && b * b' % WORD == 1
    ensures Mul(RotateLeft(Mul(x, a), n), b) == Mul(RotateLeft(Mul(y, a), n), b) <==> x == y
  {
    MulApart(x, y, a, a');
    RotateApart(Mul(x, a), Mul(y, a), n);
    MulApart(RotateLeft(Mul(x, a), n), RotateLeft(Mul(y, a), n), b, b');
  }

  lemma {:induction false} ScrambleApart(x: u32, y: u32)
    ensures Scramble(x) == Scramble(y) <==> x == y
  {
    ScramblesApart(x, y, C1, 0xdee13bb1, 15, C2, 0x56ed309b);
  }

  lemma {:induction false} AddApart(x: u32, y: u32, c: u32)
    ensures Wrap(x + c) == Wrap(y + c) <==> x == y
  {
  }

  lemma {:induction false} XorsApart(g: u32, h: u32, j: u32, k: u32)
    requires g == h || j == k
    ensures Xor32(g, j) == Xor32(h, k) <==> g == h && j == k
  {
    XorApart(g, h, j);
    XorApart(j, k, h);
  }

  lemma {:induction false} TurnedApart(x: u32, y: u32, n: nat, c: u32, d: u32, a: u32)
    requires c * d % WORD == 1
    ensures Wrap(Mul(RotateLeft(x, n), c) + a) == Wrap(Mul(RotateLeft(y, n), c) + a) <==> x == y
  {
    RotateApart(x, y, n);
    MulApart(RotateLeft(x, n), RotateLeft(y, n), c, d);
    AddApart(Mul(RotateLeft(x, n), c), Mul(RotateLeft(y, n), c), a);
  }

  lemma {:induction false} MixesApart(g: u32, h: u32, j: u32, k: u32, n: nat, c: u32, d: u32, a: u32)
    requires c * d % WORD == 1
    requires g == h || j == k
    ensures Mix(g, j, n, c, a) == Mix(h, k, n, c, a) <==> g == h && j == k
  {
    XorsApart(g, h, j, k);
    TurnedApart(Xor32(g, j), Xor32(h, k), n, c, d, a);
  }

  /** A block changes the hash exactly when the block or the hash before it does. */
  lemma {:induction false} MixApart(g: u32, h: u32, j: u32, k: u32)
    requires g == h || j == k
    ensures MixBlock(g, j) == MixBlock(h, k) <==> g == h && j == k
  {
    ScrambleApart(j, k);
    ScrambledApart(g, h, Scramble(j), Scramble(k));
  }

  lemma {:induction false} ScrambledApart(g: u32, h: u32, x: u32, y: u32)
    requires g == h || x == y
    ensures Mix(g, x, 13, 5, 0xe6546b64) == Mix(h, y, 13, 5, 0xe6546b64) <==> g == h && x == y
  {
    MixesApart(g, h, x, y, 13, 5, 0xcccccccd, 0xe6546b64);
  }

  lemma {:induction false} SpreadApart(x: u32, y: u32, n: nat, c: u32, d: u32)
    requires n > 0 && c * d % WORD == 1
    ensures Spread(x, n, c) == Spread(y, n, c) <==> x == y
  {
    FoldApart(x, y, n);
    MulApart(Fold(x, n), Fold(y, n), c, d);
  }

  lemma {:induction false} SpreadsApart(x: u32, y: u32, m: nat, a: u32, a': u32, n: nat, b: u32, b': u32)
    requires m > 0 && n > 0 && a * a' % WORD == 1 && b * b' % WORD == 1
    ensures Fold(Spread(Spread(x, m, a), n, b), m) == Fold(Spread(Spread(y, m, a), n, b), m) <==> x == y
  {
    SpreadApart(x, y, m, a, a');
    SpreadApart(Spread(x, m, a), Spread(y, m, a), n, b, b');
    FoldApart(Spread(Spread(x, m, a), n, b), Spread(Spread(y, m, a), n, b), m);
  }

  lemma {:induction false} FinishApart(x: u32, y: u32)
    ensures Finish(x) == Finish(y) <==> x == y
  {
    SpreadsApart(x, y, 16, 0x85ebca6b, 0xa5cb9243, 13, 0xc2b2ae35, 0x7ed1b41d);
  }

  // ---- When two ids of one length share a hash ----

  lemma {:induction false} HashApart(s: Str, t: Str)
    requires |s| == |t|
    requires Blocks(s) == Blocks(t) || Tail(s) == Tail(t)
    ensures Hash(s) == Hash(t) <==> Blocks(s) == Blocks(t) && Tail(s) == Tail(t)
  {
    var g, h := Blocks(s), Blocks(t);
    ScrambleApart(Tail(s), Tail(t));
    XorApart(g, h, Scramble(Tail(s)));
    XorApart(Scramble(Tail(s)), Scramble(Tail(t)), h);
    var x, y := Xor32(g, Scramble(Tail(s))), Xor32(h, Scramble(Tail(t)));
    XorApart(x, y, Wrap(|s|));
    FinishApart(Xor32(x, Wrap(|s|)), Xor32(y, Wrap(|s|)));
  }

  /** The bytes covered by whole blocks. */
  function BlockPart(s: Str): Str {
    s[..|s| / 4 * 4]
  }

  /** A step that keeps different hashes, and different words, apart. */
  ghost predicate Apart(mix: (u32, u32) -> u32) {
    && (forall g, h, k :: mix(g, k) == mix(h, k) ==> g == h)
    && (forall h, j, k :: mix(h, j) == mix(h, k) ==> j == k)
  }

  lemma {:induction false} MixBlockApart()
    ensures Apart(MixBlock)
  {
    forall g, h, k | MixBlock(g, k) == MixBlock(h, k) ensures g == h { MixApart(g, h, k, k); }
    forall h, j, k | MixBlock(h, j) == MixBlock(h, k) ensures j == k { MixApart(h, h, j, k); }
  }

  lemma {:induction false} SameBlocks(mix: (u32, u32) -> u32, s: Str, t: Str, n: nat)
    requires 4 * n <= |s| && 4 * n <= |t| && s[..4 * n] == t[..4 * n]
    ensures Over(mix, s, n) == Over(mix, t, n)
  {
    if n > 0 {
      var i := 4 * (n - 1);
      PartOfFront(s, i, 4 * n);
      PartOfFront(t, i, 4 * n);
      SameBlocks(mix, s, t, n - 1);
      LittleApart(s, t, i);
    }
  }

  lemma {:induction false} PartOfFront(s: Str, i: nat, n: nat)
    requires i <= n <= |s|
    ensures s[..n][..i] == s[..i] && s[..n][i..] == s[i..n]
  {
  }

  /** After the whole blocks only the very last byte counts: two ids of one length
      with the same blocks share their hash exactly when there is no byte after
      the blocks or the last bytes are the same.  The others may differ. */
  lemma {:induction false} OnlyLastCounts(s: Str, t: Str)
    requires |s| == |t| && BlockPart(s) == BlockPart(t)
    ensures Hash(s) == Hash(t) <==> |s| % 4 == 0 || s[|s| - 1] == t[|t| - 1]
  {
    SameBlocks(MixBlock, s, t, |s| / 4);
    HashApart(s, t);
  }

  lemma {:induction false} LittleApart(s: Str, t: Str, i: nat)
    requires i + 4 <= |s| && i + 4 <= |t|
    ensures Little(s, i) == Little(t, i) <==> s[i..i + 4] == t[i..i + 4]
  {
    Word4Apart(s[i], s[i + 1], s[i + 2], s[i + 3], t[i], t[i + 1], t[i + 2], t[i + 3]);
    FourBytes(s, i);
    FourBytes(t, i);
  }

  lemma {:induction false} FourBytes(s: Str, i: nat)
    requires i + 4 <= |s|
    ensures s[i..i + 4] == [s[i], s[i + 1], s[i + 2], s[i + 3]]
  {
  }

  lemma {:induction false} BigApart(h: nat, l: byte, h': nat, l': byte)
    ensures Bytes.Big(h, l) == Bytes.Big(h', l') <==> h == h' && l == l'
  {
  }

  lemma {:induction false} Word4Apart(a: byte, b: byte, c: byte, d: byte, a': byte, b': byte, c': byte, d': byte)
    ensures Word4(a, b, c, d) == Word4(a', b', c', d') <==> a == a' && b == b' && c == c' && d == d'
  {
    BigApart(d, c, d', c');
    BigApart(Bytes.Big(d, c), b, Bytes.Big(d', c'), b');
    BigApart(Bytes.Big(Bytes.Big(d, c), b), a, Bytes.Big(Bytes.Big(d', c'), b'), a');
  }

  lemma {:induction false} PartOfRest(s: Str, k: nat, i: nat, n: nat)
    requires k <= i <= n <= |s|
    ensures s[k..][i - k..n - k] == s[i..n]
  {
  }

  lemma {:induction false} SameTail(s: Str, t: Str, k: nat)
    requires |s| == |t| && k <= |s| / 4 * 4 && s[k..] == t[k..]
    ensures Tail(s) == Tail(t)
  {
    if |s| % 4 != 0 {
      var n := |s| - 1;
      assert s[n] == s[k..][n - k] && t[n] == t[k..][n - k];
    }
  }

  lemma {:induction false} AfterBlock(mix: (u32, u32) -> u32, s: Str, t: Str, j: nat, n: nat)
    requires Apart(mix)
    requires |s| == |t| && j < n && 4 * n <= |s| && s[4 * j + 4..] == t[4 * j + 4..]
    ensures Over(mix, s, n) == Over(mix, t, n) <==> Over(mix, s, j + 1) == Over(mix, t, j + 1)
    decreases n
  {
    if n > j + 1 {
      var i, k := 4 * (n - 1), 4 * j + 4;
      AfterBlock(mix, s, t, j, n - 1);
      PartOfRest(s, k, i, i + 4);
      PartOfRest(t, k, i, i + 4);
      LittleApart(s, t, i);
    }
  }

  lemma {:induction false} AtBlock(mix: (u32, u32) -> u32, s: Str, t: Str, j: nat)
    requires Apart(mix) && 4 * j + 4 <= |s| && |s| == |t| && s[..4 * j] == t[..4 * j]
    ensures Over(mix, s, j + 1) == Over(mix, t, j + 1) <==> s[4 * j..4 * j + 4] == t[4 * j..4 * j + 4]
  {
    SameBlocks(mix, s, t, j);
    LittleApart(s, t, 4 * j);
  }

  lemma {:induction false} ThreeParts(s: Str, i: nat, j: nat)
    requires i <= j <= |s|
    ensures s == s[..i] + s[i..j] + s[j..]
  {
  }

  lemma {:induction false} OneBlockDecides(s: Str, t: Str, j: nat)
    requires |s| == |t| && 4 * j + 4 <= |s|
    requires s[..4 * j] == t[..4 * j] && s[4 * j + 4..] == t[4 * j + 4..]
    ensures Blocks(s) == Blocks(t) <==> s == t
  {
    MixBlockApart();
    AfterBlock(MixBlock, s, t, j, |s| / 4);
    AtBlock(MixBlock, s, t, j);
    ThreeParts(s, 4 * j, 4 * j + 4);
    ThreeParts(t, 4 * j, 4 * j + 4);
  }

  /** Two ids that differ in one block only never share a hash. */
  lemma {:induction false} OneBlockApart(s: Str, t: Str, j: nat)
    requires |s| == |t| && 4 * j + 4 <= |s|
    requires s[..4 * j] == t[..4 * j] && s[4 * j + 4..] == t[4 * j + 4..]
    ensures Hash(s) == Hash(t) <==> s == t
  {
    SameTail(s, t, 4 * j + 4);
    HashApart(s, t);
    OneBlockDecides(s, t, j);
  }

  /** The loop over the blocks. */
  method TakeBlocks(mix: (u32, u32) -> u32, s: Str) returns (h: u32)
    ensures h == Over(mix, s, |s| / 4)
  {
    h := 0;
    for i := 0 to |s| / 4
      invariant h == Over(mix, s, i)
    {
      var k := Little(s, 4 * i);
      h := mix(h, k);
    }
  }

  method Compute(s: Str) returns (h: u32)
    ensures h == Hash(s)
  {
    h := TakeBlocks(MixBlock, s);
    h := Xor32(h, Scramble(Tail(s)));
    h := Xor32(h, Wrap(|s|));
    h := Finish(h);
  }
}
