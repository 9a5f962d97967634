/**
 How far the log of a session reaches.  With times of ten digits, as all are from
 2001 to 2286, a log is read back exactly while it fits one read; that is so up to
 the seventh restoration and never after the disconnection that follows it.
 */
module LogLimits {
  import opened Bytes
  import opened Wal
  import opened SessionLog

  // ---- The size of a log ----

  function Pow10(n: nat): nat {
    if n == 0 then 1 else 10 * Pow10(n - 1)
  }

  lemma {:induction false} DigitCount(n: nat, k: nat)
    requires k > 0 && n < Pow10(k) && (k > 1 ==> Pow10(k - 1) <= n)
    ensures |Decimal(n)| == k
    decreases k
  {
    if k > 1 { DigitCount(n / 10, k - 1); }
  }

  predicate TenDigits(n: nat) {
    1_000_000_000 <= n < 10_000_000_000
  }

  lemma {:induction false} TenDigitCount(n: nat)
    requires TenDigits(n)
    ensures |Decimal(n)| == 10 && n <= U64_MAX
  {
    assert Pow10(4) == 10_000;
    assert Pow10(7) == 10_000_000;
    assert Pow10(9) == 1_000_000_000;
    DigitCount(n, 10);
  }

  /** The times of a record have ten digits. */
  predicate Dated(w: Wall) {
    TenDigits(w.time) && (IsDisconnect(w) ==> TenDigits(w.value.at))
  }

  predicate AllDated(es: seq<Wall>) {
    forall i :: 0 <= i < |es| ==> Dated(es[i])
  }

  lemma {:induction false} DatedFit(es: seq<Wall>)
    requires AllDated(es)
    ensures AllFit(es)
  {
    if es != [] {
      assert Dated(es[0]);
      TenDigitCount(es[0].time);
      if IsDisconnect(es[0]) { TenDigitCount(es[0].value.at); }
      DatedFit(es[1..]);
    }
  }

  lemma {:induction false} LineSize(w: Wall)
    requires Dated(w)
    ensures |Line(w)| == if IsDisconnect(w) then 41 else if w.value.ClientCreated? then 25 else 26
  {
    TenDigitCount(w.time);
    if IsDisconnect(w) { TenDigitCount(w.value.at); }
  }

  function Disconnections(es: seq<Wall>): nat {
    if es == [] then 0
    else Disconnections(es[..|es| - 1]) + if IsDisconnect(es[|es| - 1]) then 1 else 0
  }

  function Restorations(es: seq<Wall>): nat {
    if es == [] then 0
    else Restorations(es[..|es| - 1]) + if es[|es| - 1].value.ClientRestored? then 1 else 0
  }

  lemma {:induction false} LogSize(es: seq<Wall>)
    requires AllDated(es) && es != [] && es[0].value.ClientCreated?
    requires forall i :: 0 < i < |es| ==> !es[i].value.ClientCreated?
    ensures |LogBytes(es)| == 25 + 41 * Disconnections(es) + 26 * Restorations(es)
  {
    var n := |es| - 1;
    OneMoreLine(es, n);
    LineSize(es[n]);
    assert es[..n + 1] == es;
    if n > 0 { LogSize(es[..n]); }
  }

  /** Every restoration follows a disconnection of its own. */
  lemma {:induction false} RestoresFollow(log: Log, n: nat)
    requires Sound(log) && log.Log? && 0 < n <= |log.es|
    ensures Restorations(log.es[..n]) + (if IsDisconnect(log.es[n - 1]) then 1 else 0)
      <= Disconnections(log.es[..n])
  {
    assert log.es[..n][..n - 1] == log.es[..n - 1] && log.es[..n][n - 1] == log.es[n - 1];
    if n > 1 {
      RestoresFollow(log, n - 1);
      assert RestoredRightly(log, n - 1);
    }
  }

  // ---- When a log is read back ----

  /** No record can end at the last byte of the first read. */
  lemma {:induction false} NoneEndsAtRead(d: nat, r: nat)
    requires r <= d
    ensures 25 + 41 * d + 26 * r != READ
  {
  }

  lemma {:induction false} PrefixSize(log: Log, n: nat)
    requires Sound(log) && log.Log? && AllDated(log.es) && n <= |log.es|
    ensures |LogBytes(log.es[..n])| != READ
  {
    if n > 0 {
      LogSize(log.es[..n]);
      RestoresFollow(log, n);
      NoneEndsAtRead(Disconnections(log.es[..n]), Restorations(log.es[..n]));
    }
  }

  lemma {:induction false} SameFront(all: Str, a: Str, c: Str, rest: Str)
    requires a + rest == all && c + rest == all
    ensures |a| == |c|
  {
    assert |a + rest| == |a| + |rest| && |c + rest| == |c| + |rest|;
  }

  /** A front of a written log that ends a line is some of its records. */
  lemma {:induction false} FrontIsRecords(es: seq<Wall>, c: Str, rest: Str) returns (n: nat)
    requires AllFit(es) && c + rest == LogBytes(es) && EndsLine(c)
    ensures n <= |es| && |LogBytes(es[..n])| == |c|
  {
    n := ReadPrefix(es, c, rest);
    HalvesBytes(es, n);
    SameFront(LogBytes(es), LogBytes(es[..n]), c, rest);
  }

  lemma {:induction false} LongIsCut(log: Log)
    requires Sound(log) && log.Log? && AllDated(log.es) && |LogBytes(log.es)| > READ
    ensures !CutAtLine(LogBytes(log.es), 1)
  {
    var file := LogBytes(log.es);
    if file[READ - 1] == LF {
      DatedFit(log.es);
      assert file[..READ] + file[READ..] == file;
      var n := FrontIsRecords(log.es, file[..READ], file[READ..]);
      PrefixSize(log, n);
    }
  }

  /** With times of ten digits a log is read back exactly while it fits one read,
      that is, by how often its session has been disconnected and restored. */
  lemma {:induction false} ReadableWhileShort(log: Log)
    requires Sound(log) && log.Log? && AllDated(log.es)
    ensures Readable(LogBytes(log.es)) <==> |LogBytes(log.es)| <= READ
    ensures |LogBytes(log.es)| <= READ <==> 41 * Disconnections(log.es) + 26 * Restorations(log.es) <= 487
  {
    LogSize(log.es);
    DatedFit(log.es);
    WrittenLogReadsBack(log.es);
    if |LogBytes(log.es)| > READ { LongIsCut(log); }
  }

  /** A session is restored seven times at most: from then on it may never be. */
  lemma {:induction false} SevenAtMost(log: Log, check: nat)
    requires Sound(log) && log.Log? && AllDated(log.es) && Restorations(log.es) >= 7
    ensures !Allowed(log, check)
  {
    ReadableWhileShort(log);
    RestoresFollow(log, |log.es|);
    assert log.es[..|log.es|] == log.es;
  }

  // ---- Every client can get there ----

  function Leave(t: nat, u: nat): Op {
    Disconnect(Wall(t, DisconnectByServer(u)))
  }

  /** A session made, then disconnected and restored `n` times. */
  function Rounds(n: nat, t: nat, u: nat): seq<Op> {
    if n == 0 then [Create(t)] else Rounds(n - 1, t, u) + [Leave(t, u)] + [Restore(t, t)]
  }

  /** A log after `d` disconnections and `r` restorations. */
  ghost predicate Reached(log: Log, d: nat, r: nat) {
    Sound(log) && log.Log? && AllDated(log.es) && Disconnections(log.es) == d && Restorations(log.es) == r
  }

  lemma {:induction false} Left(log: Log, d: nat, r: nat, t: nat, u: nat)
    requires Reached(log, d, r) && TenDigits(t) && TenDigits(u) && t < u
    ensures Reached(Apply(log, Leave(t, u)), d + 1, r) && Refusal(Apply(log, Leave(t, u)).es, t).None?
  {
    var w := Wall(t, DisconnectByServer(u));
    AppendKeepsSound(log, w, t);
    assert (log.es + [w])[..|log.es|] == log.es;
  }

  lemma {:induction false} Returned(log: Log, d: nat, r: nat, t: nat)
    requires Reached(log, d, r) && TenDigits(t) && Refusal(log.es, t).None? && 41 * d + 26 * r <= 487
    ensures Reached(Apply(log, Restore(t, t)), d, r + 1)
  {
    var w := Wall(t, ClientRestored);
    ReadableWhileShort(log);
    AppendKeepsSound(log, w, t);
    assert (log.es + [w])[..|log.es|] == log.es;
  }

  lemma {:induction false} OneMore(ops: seq<Op>, op: Op)
    ensures ApplyAll(Absent, ops + [op]) == Apply(ApplyAll(Absent, ops), op)
  {
    assert (ops + [op])[..|ops|] == ops;
  }

  lemma {:induction false} OneRound(ops: seq<Op>, d: nat, r: nat, t: nat, u: nat)
    requires Reached(ApplyAll(Absent, ops), d, r) && TenDigits(t) && TenDigits(u) && t < u
    requires 41 * (d + 1) + 26 * r <= 487
    ensures Reached(ApplyAll(Absent, ops + [Leave(t, u)] + [Restore(t, t)]), d + 1, r + 1)
  {
    var log := ApplyAll(Absent, ops);
    OneMore(ops, Leave(t, u));
    Left(log, d, r, t, u);
    OneMore(ops + [Leave(t, u)], Restore(t, t));
    Returned(Apply(log, Leave(t, u)), d + 1, r, t);
  }

  lemma {:induction false} AfterRounds(n: nat, t: nat, u: nat)
    requires n <= 7 && TenDigits(t) && TenDigits(u) && t < u
    ensures Reached(ApplyAll(Absent, Rounds(n, t, u)), n, n)
  {
    if n == 0 {
      OneMore([], Create(t));
      assert [] + [Create(t)] == [Create(t)];
      assert [Wall(t, ClientCreated)][..0] == [];
    } else {
      AfterRounds(n - 1, t, u);
      OneRound(Rounds(n - 1, t, u), n - 1, n - 1, t, u);
    }
  }

  /** A session that disconnects and is restored seven times and disconnects again
      has not expired, and yet its log cannot be read back. */
  lemma {:induction false} EighthIsLost(t: nat, u: nat)
    requires TenDigits(t) && TenDigits(u) && t < u
    ensures var log := ApplyAll(Absent, Rounds(7, t, u) + [Leave(t, u)]);
      && Reached(log, 8, 7) && Refusal(log.es, t).None? && !Readable(LogBytes(log.es))
  {
    AfterRounds(7, t, u);
    OneMore(Rounds(7, t, u), Leave(t, u));
    Left(ApplyAll(Absent, Rounds(7, t, u)), 7, 7, t, u);
    ReadableWhileShort(ApplyAll(Absent, Rounds(7, t, u) + [Leave(t, u)]));
  }
}
