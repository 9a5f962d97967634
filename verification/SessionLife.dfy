/**
 From the task of a client to its log: whether and how long a session that ended
 may be restored.
 */
module SessionLife {
  import opened Bytes
  import opened Sessions
  import opened Wal
  import opened ClientTask
  import opened SessionLog

  /** The log after a task has logged its end. */
  ghost function Ended(log: Log, s: State): Log {
    if s.logged == [] then log else Apply(log, Disconnect(s.logged[0]))
  }

  /** A session whose task is over may be restored exactly until it is expired, at
      its last time to live plus its expiry interval, if its log can be read back. */
  lemma {:induction false} RestorableUntilExpired(log: Log, session: Session, ttl: nat, script: seq<Turn>, check: nat)
    requires Sound(log) && log.Log?
    requires session.ttl == Run(Start(ttl), session.keepAlive, session.exprInterval, script).ttl
    ensures var s := Run(Start(ttl), session.keepAlive, session.exprInterval, script);
      s.end == Dead || s.end == Lost ==>
        && Ended(log, s).Log?
        && (Allowed(Ended(log, s), check) <==> Readable(LogBytes(Ended(log, s).es)) && !session.IsExpired(check))
  {
    OneDisconnect(Start(ttl), session.keepAlive, session.exprInterval, script);
  }

  /** A task that ended because no byte could be read leaves a session that may be
      restored for the expiry interval from the moment of that read, if its log can
      be read back. */
  lemma {:induction false} ClosedIsRestorable(log: Log, s: State, k: u16, e: u32, turn: Turn, rest: seq<Turn>,
      check: nat)
    requires Sound(log) && log.Log?
    requires s.end == Running && s.logged == [] && s.ttl >= turn.t && turn.read.Data? && Min(turn.read.n, s.room) == 0
    requires 0 < turn.t && rest != [] && Clocked([turn] + rest, turn.t)
    ensures var r := Run(s, k, e, [turn] + rest);
      && Ended(log, r).Log?
      && (Allowed(Ended(log, r), check) <==> Readable(LogBytes(Ended(log, r).es)) && check + 1 < turn.now + e)
  {
    ZeroReadEnds(s, k, e, turn, rest);
    OneDisconnect(s, k, e, [turn] + rest);
  }

  /** The session was made or restored and has not been logged as over since. */
  predicate Online(log: Log) {
    log.Log? && log.es != [] && !IsDisconnect(log.es[|log.es| - 1])
  }

  /** A session whose task has panicked, or still runs, may not be restored at any
      time: its log says that it is online. */
  lemma {:induction false} PanickedStaysOnline(log: Log, ttl: nat, k: u16, e: u32, script: seq<Turn>, check: nat)
    requires Online(log)
    ensures var s := Run(Start(ttl), k, e, script);
      s.end == Panicked || s.end == Running ==> Ended(log, s) == log && !Allowed(log, check)
  {
    OneDisconnect(Start(ttl), k, e, script);
  }
}
