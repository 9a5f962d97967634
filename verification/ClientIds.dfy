/**
 Client identifiers: the equality the program uses, which looks only at the
 length and the hash, and the order its registry sorts by, which compares the
 identifier first and the hash next.
 */
module ClientIds {
  import opened Bytes
  import opened ClientHash

  /** The hash the program stores beside the identifier is always the hash of it. */
  datatype ClientID = ClientID(id: Str)

  predicate Eq(a: ClientID, b: ClientID) {
    |a.id| == |b.id| && Hash(a.id) == Hash(b.id)
  }

  datatype Order = Less | Equal | Greater

  function CmpInt(a: int, b: int): Order {
    if a < b then Less else if a == b then Equal else Greater
  }

  function CmpStr(a: Str, b: Str): Order {
    if a == [] && b == [] then Equal
    else if a == [] then Less
    else if b == [] then Greater
    else if a[0] != b[0] then CmpInt(a[0], b[0])
    else CmpStr(a[1..], b[1..])
  }

  function Cmp(a: ClientID, b: ClientID): Order {
    if CmpStr(a.id, b.id) != Equal then CmpStr(a.id, b.id) else CmpInt(Hash(a.id), Hash(b.id))
  }

  /** The strict order of the registry; two ids that are the same string are the
      same id, so the hash never decides. */
  predicate Before(a: ClientID, b: ClientID) {
    CmpStr(a.id, b.id) == Less
  }

  lemma {:induction false} StrOrder(a: Str, b: Str)
    ensures CmpStr(a, b) == Equal <==> a == b
    ensures CmpStr(a, b) == Less <==> CmpStr(b, a) == Greater
  {
    if a != [] && b != [] {
      StrOrder(a[1..], b[1..]);
      if CmpStr(a, b) == Equal { assert a == [a[0]] + a[1..] && b == [b[0]] + b[1..]; }
    }
  }

  lemma {:induction false} StrTransitive(a: Str, b: Str, c: Str)
    requires CmpStr(a, b) == Less && CmpStr(b, c) == Less
    ensures CmpStr(a, c) == Less
  {
    if a != [] && b != [] && c != [] && a[0] == b[0] == c[0] { StrTransitive(a[1..], b[1..], c[1..]); }
  }

  /** The derived order is a strict total order in which only an identifier
      itself compares equal. */
  lemma {:induction false} OrderTotal(a: ClientID, b: ClientID)
    ensures Cmp(a, b) == Less <==> Before(a, b)
    ensures Cmp(a, b) == Greater <==> Before(b, a)
    ensures Cmp(a, b) == Equal <==> a == b
    ensures Before(a, b) ==> a != b && !Before(b, a)
  {
    StrOrder(a.id, b.id);
    StrOrder(b.id, a.id);
  }

  lemma {:induction false} OrderTransitive(a: ClientID, b: ClientID, c: ClientID)
    requires Before(a, b) && Before(b, c)
    ensures Before(a, c)
  {
    StrTransitive(a.id, b.id, c.id);
  }

  /** One string comes before another exactly when, after some front they share, it
      ends or has the smaller byte. */
  lemma {:induction false} BeforeIsLexicographic(a: ClientID, b: ClientID)
    ensures Before(a, b) <==> exists n: nat :: FirstDiffers(a.id, b.id, n)
  {
    LessIsLexicographic(a.id, b.id);
  }

  predicate FirstDiffers(a: Str, b: Str, n: nat) {
    && n <= |a| && n < |b| && a[..n] == b[..n]
    && (n == |a| || a[n] < b[n])
  }

  lemma {:induction false} LessIsLexicographic(a: Str, b: Str)
    ensures CmpStr(a, b) == Less <==> exists n: nat :: FirstDiffers(a, b, n)
  {
    if a != [] && b != [] && a[0] == b[0] {
      LessIsLexicographic(a[1..], b[1..]);
      assert a == [a[0]] + a[1..] && b == [b[0]] + b[1..];
      if n: nat :| FirstDiffers(a[1..], b[1..], n) {
        assert a[..n + 1] == [a[0]] + a[1..][..n] && b[..n + 1] == [b[0]] + b[1..][..n];
        assert FirstDiffers(a, b, n + 1);
      }
      if n: nat :| FirstDiffers(a, b, n) {
        assert n > 0;
        assert a[1..][..n - 1] == a[..n][1..] && b[1..][..n - 1] == b[..n][1..];
        assert FirstDiffers(a[1..], b[1..], n - 1);
      }
    } else if b != [] && (a == [] || a[0] < b[0]) {
      assert FirstDiffers(a, b, 0);
    } else {
      forall n: nat ensures !FirstDiffers(a, b, n) {
        if 0 < n <= |a| && n < |b| { assert a[..n][0] == a[0] && b[..n][0] == b[0]; }
      }
    }
  }

  lemma {:induction false} NotBefore(a: ClientID)
    ensures !Before(a, a)
  {
    StrOrder(a.id, a.id);
  }

  method Compare(a: ClientID, b: ClientID) returns (o: Order)
    ensures o == Less <==> Before(a, b)
    ensures o == Greater <==> Before(b, a)
    ensures o == Equal <==> a == b
  {
    OrderTotal(a, b);
    o := Cmp(a, b);
  }

  // ---- The program's equality and its order's ----

  /** The only bytes the hash may lose: those after the last block but the last. */
  predicate Ignored(s: Str, i: nat) {
    |s| / 4 * 4 <= i && i + 1 < |s|
  }

  /** Another character of one byte in place of one keeps a string a string. */
  lemma {:induction false} AnotherAscii(s: Str, i: nat, b: byte)
    requires ValidUtf8(s) && i < |s| && s[i] < 0x80 && b < 0x80
    ensures ValidUtf8(s[i := b])
    decreases |s|
  {
    var n := CharLen(s);
    if i < n {
      AsciiIsAlone(s, i);
      assert s[i := b][1..] == s[1..];
    } else {
      AnotherAscii(s[n..], i - n, b);
      SameChar(s, s[i := b], n);
      assert s[i := b][n..] == s[n..][i - n := b];
    }
  }

  lemma {:induction false} AsciiIsAlone(s: Str, i: nat)
    requires s != [] && i < CharLen(s) && s[i] < 0x80
    ensures i == 0 && CharLen(s) == 1
  {
  }

  lemma {:induction false} SameChar(s: Str, t: Str, n: nat)
    requires s != [] && CharLen(s) == n > 0 && |t| == |s| && t[..n] == s[..n]
    ensures CharLen(t) == n
  {
    assert forall k :: 0 <= k < n ==> s[..n][k] == s[k] && t[..n][k] == t[k];
  }

  lemma {:induction false} SameBlockPart(s: Str, i: nat, b: byte)
    requires i < |s| && |s| / 4 * 4 <= i
    ensures BlockPart(s[i := b]) == BlockPart(s)
  {
  }

  lemma {:induction false} IgnoredHash(s: Str, i: nat, b: byte)
    requires Ignored(s, i)
    ensures Hash(s[i := b]) == Hash(s)
  {
    hide Hash, BlockPart;
    SameBlockPart(s, i, b);
    OnlyLastCounts(s[i := b], s);
  }

  /** Whatever id holds an ignored byte that is a character shares its length and
      hash with another id: the program takes the two as equal, and sorts them
      apart. */
  lemma {:induction false} IgnoredCollide(a: ClientID, i: nat, b: byte) returns (c: ClientID)
    requires ValidUtf8(a.id) && Ignored(a.id, i) && a.id[i] < 0x80 && b < 0x80 && b != a.id[i]
    ensures ValidUtf8(c.id) && c.id == a.id[i := b]
    ensures Eq(a, c) && Cmp(a, c) != Equal
  {
    c := ClientID(a.id[i := b]);
    AnotherAscii(a.id, i, b);
    IgnoredHash(a.id, i, b);
    assert a.id[i] != c.id[i];
    OrderTotal(a, c);
  }

  /** Two ids of one length whose blocks are the same, all of those of up to three
      bytes among them, are equal exactly when the last bytes are. */
  lemma {:induction false} EqLooksAtLast(a: ClientID, b: ClientID)
    requires |a.id| == |b.id| && BlockPart(a.id) == BlockPart(b.id)
    ensures Eq(a, b) <==> |a.id| % 4 == 0 || a.id[|a.id| - 1] == b.id[|b.id| - 1]
  {
    OnlyLastCounts(a.id, b.id);
  }

  /** On ids of at most one byte, and of four, equality is the order's: no two of
      them collide. */
  lemma {:induction false} ShortIdsApart(a: ClientID, b: ClientID)
    requires |a.id| <= 1 || |a.id| == 4
    ensures Eq(a, b) <==> Cmp(a, b) == Equal
  {
    OrderTotal(a, b);
    if |a.id| == |b.id| {
      if |a.id| == 4 {
        OneBlockApart(a.id, b.id, 0);
      } else {
        EqLooksAtLast(a, b);
      }
    }
  }

  /** Nor do two ids that differ in one block only. */
  lemma {:induction false} OneBlockIdsApart(a: ClientID, b: ClientID, j: nat)
    requires |a.id| == |b.id| && 4 * j + 4 <= |a.id|
    requires a.id[..4 * j] == b.id[..4 * j] && a.id[4 * j + 4..] == b.id[4 * j + 4..]
    ensures Eq(a, b) <==> Cmp(a, b) == Equal
  {
    OrderTotal(a, b);
    OneBlockApart(a.id, b.id, j);
  }
}
