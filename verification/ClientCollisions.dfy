/**
 Of which lengths there are client ids that the program cannot tell apart: those
 whose hash loses a byte, and those with more ids than there are hashes.
 */
module ClientCollisions {
  import opened Bytes
  import opened ClientHash
  import opened ClientIds

  // ---- More things than places ----

  /** More numbers than values: two of them share one. */
  lemma {:induction false} Pigeonhole(f: nat -> nat, n: nat) returns (i: nat, j: nat)
    requires n > 0 && forall k: nat :: k <= n ==> f(k) < n
    ensures i < j <= n && f(i) == f(j)
    decreases n
  {
    if h: nat :| h < n && f(h) == f(n) {
      i, j := h, n;
    } else if n == 1 {
      i, j := 0, 1;
    } else {
      i, j := Pigeonhole(k => if f(k) == n - 1 then f(n) else f(k), n - 1);
    }
  }

  // ---- Ids of one length, numbered ----

  function Pow128(n: nat): (r: nat)
    ensures r > 0
  {
    if n == 0 then 1 else 128 * Pow128(n - 1)
  }

  /** The ASCII id of `n` characters whose digits to the base 128 are those of `k`. */
  function Numbered(n: nat, k: nat): (s: Str)
    ensures |s| == n && forall b :: b in s ==> b < 0x80
  {
    if n == 0 then [] else Numbered(n - 1, k / 128) + [k % 128]
  }

  lemma {:induction false} NumberedApart(n: nat, j: nat, k: nat)
    requires j < Pow128(n) && k < Pow128(n) && Numbered(n, j) == Numbered(n, k)
    ensures j == k
  {
    if n > 0 {
      var s, t := Numbered(n - 1, j / 128), Numbered(n - 1, k / 128);
      assert s == (s + [j % 128])[..n - 1] && t == (t + [k % 128])[..n - 1];
      assert (s + [j % 128])[n - 1] == (t + [k % 128])[n - 1];
      NumberedApart(n - 1, j / 128, k / 128);
    }
  }

  lemma {:induction false} MoreIdsThanHashes(n: nat)
    requires n >= 5
    ensures Pow128(n) > WORD
  {
    if n == 5 {
      assert Pow128(3) == 0x20_0000;
      assert Pow128(5) == 0x8_0000_0000;
    } else {
      MoreIdsThanHashes(n - 1);
    }
  }

  lemma {:induction false} AsciiIsUtf8(s: Str)
    requires forall b :: b in s ==> b < 0x80
    ensures ValidUtf8(s)
  {
    if s != [] {
      assert s[0] in s && forall b :: b in s[1..] ==> b in s;
      AsciiIsUtf8(s[1..]);
    }
  }

  // ---- The lengths ----

  /** Two different ids of `n` bytes that the program takes as equal. */
  ghost predicate Collide(n: nat, a: ClientID, c: ClientID) {
    && |a.id| == n == |c.id| && ValidUtf8(a.id) && ValidUtf8(c.id)
    && a != c && Eq(a, c)
  }

  lemma {:induction false} LongCollide(n: nat) returns (a: ClientID, c: ClientID)
    requires n >= 5
    ensures Collide(n, a, c)
  {
    var f := (k: nat) => Hash(Numbered(n, k)) as nat;
    var i, j := Pigeonhole(f, WORD);
    a, c := ClientID(Numbered(n, i)), ClientID(Numbered(n, j));
    MoreIdsThanHashes(n);
    if a == c { NumberedApart(n, i, j); }
    AsciiIsUtf8(a.id);
    AsciiIsUtf8(c.id);
  }

  lemma {:induction false} ShortCollide(n: nat) returns (a: ClientID, c: ClientID)
    requires n == 2 || n == 3
    ensures Collide(n, a, c)
  {
    a := ClientID(Numbered(n, 0));
    assert a.id[0] in a.id;
    AsciiIsUtf8(a.id);
    c := IgnoredCollide(a, 0, if a.id[0] == 0 then 1 else 0);
    OrderTotal(a, c);
  }

  /** Equality tells apart all ids of `n` bytes exactly when `n` is 0, 1 or 4. */
  lemma {:induction false} CollidingLengths(n: nat)
    ensures (exists a, c :: Collide(n, a, c)) <==> n != 0 && n != 1 && n != 4
  {
    if n >= 5 {
      var a, c := LongCollide(n);
    } else if n == 2 || n == 3 {
      var a, c := ShortCollide(n);
    } else {
      forall a: ClientID, c: ClientID | |a.id| == n && Eq(a, c) ensures a == c {
        ShortIdsApart(a, c);
        OrderTotal(a, c);
      }
    }
  }
}
