/**
 The session of a client: its time to live, refreshed by every packet, and its
 expiry after that.  Times are seconds; arithmetic on 16 bits that overflows is
 a panic.
 */
module Sessions {
  import opened Wrappers
  import opened Bytes

  /** The time a packet buys: half as long again as the keep-alive. */
  function Window(k: u16): nat {
    k + k / 2
  }

  /** The largest keep-alive whose window fits sixteen bits. */
  const MAX_KEEP_ALIVE: u16 := 43690

  const MIN_KEEP_ALIVE: u16 := 60

  /** One and a half times the keep-alive, rounded down. */
  lemma {:induction false} WindowIsHalfAgain(k: u16)
    ensures 2 * Window(k) <= 3 * k < 2 * Window(k) + 2
  {
  }

  lemma {:induction false} WindowFits(k: u16)
    ensures Window(k) < 0x1_0000 <==> k <= MAX_KEEP_ALIVE
  {
  }

  class Session {
    var ttl: nat
    const exprInterval: u32
    const keepAlive: u16

    constructor (ttl: nat, exprInterval: u32, keepAlive: u16)
      ensures this.ttl == ttl && this.exprInterval == exprInterval && this.keepAlive == keepAlive
    {
      this.ttl, this.exprInterval, this.keepAlive := ttl, exprInterval, keepAlive;
    }

    predicate IsAlive(t: nat)
      reads this
    {
      ttl >= t
    }

    function ExpirationTime(): nat
      reads this
    {
      exprInterval + ttl
    }

    predicate IsExpired(t: nat)
      reads this
    {
      ExpirationTime() <= t
    }

    /** Refuses once the time to live is reached; else counts it from `t` anew. */
    method KeepAlive(t: nat) returns (r: Outcome<nat, string>)
      modifies this`ttl
      ensures r.Err? <==> old(ttl) <= t
      ensures r.Panic? <==> old(ttl) > t && Window(keepAlive) >= 0x1_0000
      ensures ttl == if r.Ok? then t + Window(keepAlive) else old(ttl)
      ensures r.Ok? ==> r.value == ttl
    {
      if ttl <= t { return Err("already expired"); }
      if Window(keepAlive) >= 0x1_0000 { return Panic; }
      ttl := t + Window(keepAlive);
      return Ok(ttl);
    }

    /** No longer alive at `now`. */
    method Kill(now: nat)
      requires now > 0
      modifies this`ttl
      ensures ttl == now - 1 && !IsAlive(now)
    {
      ttl := now - 1;
    }
  }

  /** A session made at `now`: its first window is that of the keep-alive asked
      for, all later ones that of at least a minute. */
  method Open(keepAlive: u16, exprInterval: u32, now: nat) returns (r: Outcome<Session, string>)
    ensures r.Panic? <==> keepAlive > MAX_KEEP_ALIVE
    ensures !r.Err?
    ensures r.Ok? ==> fresh(r.value) && r.value.ttl == now + Window(keepAlive)
    ensures r.Ok? ==> r.value.exprInterval == exprInterval
    ensures r.Ok? ==> r.value.keepAlive == if keepAlive < MIN_KEEP_ALIVE then MIN_KEEP_ALIVE else keepAlive
  {
    if Window(keepAlive) >= 0x1_0000 { return Panic; }
    var ttl := now + Window(keepAlive);
    var s := new Session(ttl, exprInterval, if keepAlive > MIN_KEEP_ALIVE then keepAlive else MIN_KEEP_ALIVE);
    return Ok(s);
  }
}
