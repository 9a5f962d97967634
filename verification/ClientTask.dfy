/**
 The task of a client: a loop of liveness check, read with a deadline, and
 dispatch, on a clock that never goes back.  What the reads give and when is a
 script; the effects are the packets dispatched and the records logged.
 */
module ClientTask {
  import opened Wrappers
  import opened Bytes
  import opened Sessions
  import opened Wal

  const BUFFER: nat := 1024

  /** A packet, or bytes that decode to none, which is a panic. */
  datatype Incoming = PingReq | Publish | Subscribe | Undecodable

  /** How a read ends: data, of which the buffer takes what it has room for; the
      deadline passed; another error.  `now` is the clock then. */
  datatype Read = Data(n: nat, packet: Incoming) | TimedOut | Failed

  /** One turn of the loop: the clock at its top, how its read ends, and the
      clock when it does. */
  datatype Turn = Turn(t: nat, read: Read, now: nat)

  datatype End = Running | Dead | Lost | Panicked

  datatype State = State(
    ttl: nat,
    room: nat,
    dispatched: seq<Incoming>,
    logged: seq<Wall>,
    end: End)

  function Start(ttl: nat): State {
    State(ttl, BUFFER, [], [], Running)
  }

  function Min(a: nat, b: nat): nat {
    if a < b then a else b
  }

  /** The turn of a packet of `n` bytes; only when it is dispatched are they
      given back to the buffer. */
  function Received(s: State, k: u16, t: nat, n: nat, packet: Incoming): State
    requires n <= s.room
  {
    var less := s.(room := s.room - n);
    if packet == Undecodable then less.(end := Panicked)
    else if s.ttl <= t + 1 then less
    else if Window(k) >= 0x1_0000 then less.(end := Panicked)
    else s.(ttl := t + 1 + Window(k), dispatched := s.dispatched + [packet])
  }

  /** One turn, for keep-alive `k` and expiry interval `e`. */
  function Step(s: State, k: u16, e: u32, turn: Turn): State {
    if s.end != Running then s
    else if s.ttl < turn.t then
      s.(logged := s.logged + [Wall(turn.t + 1, DisconnectByServer(e + s.ttl))], end := Dead)
    else match turn.read
      case TimedOut => s
      case Failed =>
        s.(logged := s.logged + [Wall(turn.t + 1, ClientDisconnected(e + s.ttl))], end := Lost)
      case Data(n, packet) =>
        if Min(n, s.room) == 0 then if turn.now == 0 then s.(end := Panicked) else s.(ttl := turn.now - 1)
        else Received(s, k, turn.t, Min(n, s.room), packet)
  }

  function Run(s: State, k: u16, e: u32, script: seq<Turn>): State
    decreases |script|
  {
    if script == [] then s else Run(Step(s, k, e, script[0]), k, e, script[1..])
  }

  /** The clock never goes back. */
  predicate Clocked(script: seq<Turn>, from: nat) {
    script == [] || (from <= script[0].t <= script[0].now && Clocked(script[1..], script[0].now))
  }

  // ---- What every run keeps ----

  /** The turn begins in the last second of the time to live or at its end. */
  predicate AtDeadline(s: State, turn: Turn) {
    s.ttl - 1 <= turn.t <= s.ttl
  }

  /** Bytes read are a packet and the session is alive when the turn begins. */
  predicate ReadsPacket(s: State, turn: Turn) {
    s.end == Running && turn.t <= s.ttl && turn.read.Data? && Min(turn.read.n, s.room) > 0
    && turn.read.packet != Undecodable
  }

  /** A packet read is dropped, and its bytes are lost to the buffer, exactly when
      its turn began at the deadline; any other is dispatched. */
  lemma {:induction false} DroppedAtDeadline(s: State, k: u16, e: u32, turn: Turn)
    requires k <= MAX_KEEP_ALIVE && ReadsPacket(s, turn)
    ensures var r, n := Step(s, k, e, turn), Min(turn.read.n, s.room);
      && (AtDeadline(s, turn) ==> r == s.(room := s.room - n))
      && (!AtDeadline(s, turn) ==>
            r == s.(ttl := turn.t + 1 + Window(k), dispatched := s.dispatched + [turn.read.packet]))
  {
    WindowFits(k);
  }

  /** Bytes of the packets dropped in a run, and of those that are none. */
  function LostBytes(s: State, k: u16, e: u32, script: seq<Turn>): nat
    decreases |script|
  {
    if script == [] then 0
    else
      var turn := script[0];
      var n :=
        if s.end != Running || turn.t > s.ttl || !turn.read.Data? then 0
        else if turn.read.packet == Undecodable || AtDeadline(s, turn) then Min(turn.read.n, s.room)
        else 0;
      n + LostBytes(Step(s, k, e, turn), k, e, script[1..])
  }

  /** The room left in the buffer after any run is what it had less the bytes of
      the packets dropped at the deadline and of those that are no packet. */
  lemma {:induction false} RoomLeft(s: State, k: u16, e: u32, script: seq<Turn>)
    requires k <= MAX_KEEP_ALIVE
    ensures Run(s, k, e, script).room == s.room - LostBytes(s, k, e, script)
    decreases |script|
  {
    if script != [] {
      WindowFits(k);
      RoomLeft(Step(s, k, e, script[0]), k, e, script[1..]);
    }
  }

  /** The record a run has logged when it is over. */
  predicate LoggedOnce(s: State, e: u32) {
    match s.end
    case Running => s.logged == []
    case Panicked => s.logged == []
    case Dead => |s.logged| == 1 && s.logged[0].value == DisconnectByServer(e + s.ttl)
    case Lost => |s.logged| == 1 && s.logged[0].value == ClientDisconnected(e + s.ttl)
  }

  /** Leaving the loop logs exactly one disconnection, which expires at the time
      to live then plus the expiry interval; a task that runs, or panics on bytes
      that are no packet, has logged nothing. */
  lemma {:induction false} OneDisconnect(s: State, k: u16, e: u32, script: seq<Turn>)
    requires LoggedOnce(s, e)
    ensures LoggedOnce(Run(s, k, e, script), e)
    decreases |script|
  {
    if script != [] { OneDisconnect(Step(s, k, e, script[0]), k, e, script[1..]); }
  }

  /** A task that is over does nothing more. */
  lemma {:induction false} OverIsOver(s: State, k: u16, e: u32, script: seq<Turn>)
    requires s.end != Running
    ensures Run(s, k, e, script) == s
  {
    if script != [] { OverIsOver(s, k, e, script[1..]); }
  }

  // ---- How every run ends ----

  lemma {:induction false} RunLast(s: State, k: u16, e: u32, script: seq<Turn>)
    requires script != []
    ensures var n := |script| - 1; Run(s, k, e, script) == Step(Run(s, k, e, script[..n]), k, e, script[n])
    decreases |script|
  {
    var n := |script| - 1;
    if n == 0 {
      assert script[..0] == [] && script[1..] == [];
    } else {
      RunLast(Step(s, k, e, script[0]), k, e, script[1..]);
      assert script[..n][0] == script[0] && script[..n][1..] == script[1..][..n - 1];
    }
  }

  /** The state in which turn `i` begins. */
  function Before(s: State, k: u16, e: u32, script: seq<Turn>, i: nat): State
    requires i <= |script|
  {
    Run(s, k, e, script[..i])
  }

  /** Turn `i` begins with the task still running and the session dead. */
  predicate DiesAt(s: State, k: u16, e: u32, script: seq<Turn>, i: nat) {
    i < |script| && var b := Before(s, k, e, script, i); b.end == Running && b.ttl < script[i].t
  }

  predicate AliveAt(s: State, k: u16, e: u32, script: seq<Turn>, i: nat) {
    i < |script| && var b := Before(s, k, e, script, i); b.end == Running && script[i].t <= b.ttl
  }

  /** The session is alive and the read fails. */
  predicate LosesAt(s: State, k: u16, e: u32, script: seq<Turn>, i: nat) {
    AliveAt(s, k, e, script, i) && script[i].read.Failed?
  }

  /** The session is alive and the bytes read are no packet, or a sum of the program
      does not fit its type: the window, or a second before the first. */
  predicate PanicsAt(s: State, k: u16, e: u32, script: seq<Turn>, i: nat) {
    AliveAt(s, k, e, script, i) && script[i].read.Data? &&
    var b := Before(s, k, e, script, i);
    if script[i].read.n == 0 || b.room == 0 then script[i].now == 0
    else script[i].read.packet == Undecodable || (script[i].t + 1 < b.ttl && k > MAX_KEEP_ALIVE)
  }

  /** Turn `i` ends the run as `end`, with the records `more` logged. */
  predicate EndsAt(s: State, k: u16, e: u32, script: seq<Turn>, i: nat, end: End, more: seq<Wall>) {
    i < |script| &&
    var b, r := Before(s, k, e, script, i), Run(s, k, e, script);
    r.end == end && r.logged == s.logged + more && r.ttl == b.ttl && r.dispatched == b.dispatched
  }

  lemma {:induction false} LastTurn(s: State, k: u16, e: u32, script: seq<Turn>)
    requires script != [] && Run(s, k, e, script[..|script| - 1]).end == Running
    requires Run(s, k, e, script[..|script| - 1]).logged == s.logged
    ensures var n, r := |script| - 1, Run(s, k, e, script);
      var b := Before(s, k, e, script, n);
      && (DiesAt(s, k, e, script, n) <==> r.end == Dead)
      && (LosesAt(s, k, e, script, n) <==> r.end == Lost)
      && (PanicsAt(s, k, e, script, n) <==> r.end == Panicked)
      && (r.end == Dead ==> EndsAt(s, k, e, script, n, Dead, [Wall(script[n].t + 1, DisconnectByServer(e + b.ttl))]))
      && (r.end == Lost ==> EndsAt(s, k, e, script, n, Lost, [Wall(script[n].t + 1, ClientDisconnected(e + b.ttl))]))
      && (r.end == Panicked ==> EndsAt(s, k, e, script, n, Panicked, []))
      && (r.end == Running ==> r.logged == s.logged)
  {
    WindowFits(k);
    RunLast(s, k, e, script);
    assert s.logged + [] == s.logged;
  }

  /** What the runs so far have shown goes on to hold. */
  lemma {:induction false} OverBefore(s: State, k: u16, e: u32, script: seq<Turn>, i: nat)
    requires script != [] && Run(s, k, e, script[..|script| - 1]).end != Running && i < |script|
    ensures var front := script[..|script| - 1];
      && (DiesAt(s, k, e, script, i) <==> DiesAt(s, k, e, front, i))
      && (LosesAt(s, k, e, script, i) <==> LosesAt(s, k, e, front, i))
      && (PanicsAt(s, k, e, script, i) <==> PanicsAt(s, k, e, front, i))
      && Run(s, k, e, script) == Run(s, k, e, front)
      && (i < |front| ==> Before(s, k, e, script, i) == Before(s, k, e, front, i) && script[i] == front[i])
  {
    var front := script[..|script| - 1];
    RunLast(s, k, e, script);
    if i < |front| { assert front[..i] == script[..i]; } else { assert script[..i] == front; }
  }

  lemma {:induction false} RunningBefore(s: State, k: u16, e: u32, script: seq<Turn>, i: nat)
    requires i <= |script| && Run(s, k, e, script).end == Running
    ensures Before(s, k, e, script, i).end == Running
    decreases |script|
  {
    if i < |script| {
      RunLast(s, k, e, script);
      RunningBefore(s, k, e, script[..|script| - 1], i);
      assert script[..|script| - 1][..i] == script[..i];
    } else {
      assert script[..i] == script;
    }
  }

  /** The turn that ends a run, and what it logs. */
  lemma {:induction false} EndingTurn(s: State, k: u16, e: u32, script: seq<Turn>) returns (i: nat)
    requires s.end == Running && Run(s, k, e, script).end != Running
    ensures i < |script| && Before(s, k, e, script, i).end == Running
    ensures var r, b := Run(s, k, e, script), Before(s, k, e, script, i);
      match r.end
      case Dead =>
        DiesAt(s, k, e, script, i)
        && EndsAt(s, k, e, script, i, Dead, [Wall(script[i].t + 1, DisconnectByServer(e + b.ttl))])
      case Lost =>
        LosesAt(s, k, e, script, i)
        && EndsAt(s, k, e, script, i, Lost, [Wall(script[i].t + 1, ClientDisconnected(e + b.ttl))])
      case _ => PanicsAt(s, k, e, script, i) && EndsAt(s, k, e, script, i, Panicked, [])
    decreases |script|
  {
    var n := |script| - 1;
    if Run(s, k, e, script[..n]).end == Running {
      i := n;
      RunningLogsNothing(s, k, e, script[..n]);
      LastTurn(s, k, e, script);
    } else {
      i := EndingTurn(s, k, e, script[..n]);
      OverBefore(s, k, e, script, i);
    }
  }

  lemma {:induction false} RunningLogsNothing(s: State, k: u16, e: u32, script: seq<Turn>)
    requires Run(s, k, e, script).end == Running
    ensures Run(s, k, e, script).logged == s.logged
    decreases |script|
  {
    if script != [] {
      RunLast(s, k, e, script);
      RunningLogsNothing(s, k, e, script[..|script| - 1]);
    }
  }

  /** No turn after the one that ended the run is begun by a running task. */
  lemma {:induction false} OneEnding(s: State, k: u16, e: u32, script: seq<Turn>, i: nat, j: nat)
    requires i < |script| && j <= |script| && Before(s, k, e, script, j).end == Running
    requires DiesAt(s, k, e, script, i) || LosesAt(s, k, e, script, i) || PanicsAt(s, k, e, script, i)
    ensures j <= i
  {
    if i < j {
      RunningBefore(s, k, e, script[..j], i + 1);
      assert script[..j][..i + 1] == script[..i + 1];
      RunLast(s, k, e, script[..i + 1]);
      assert script[..i + 1][..i] == script[..i];
      WindowFits(k);
    }
  }

  /** Every run ends exactly as some turn ends it: dead when a turn is begun after
      the time to live, lost when a read fails before, and in a panic on bytes that
      are no packet. */
  lemma {:induction false} EndsExactly(s: State, k: u16, e: u32, script: seq<Turn>)
    requires s.end == Running
    ensures var r := Run(s, k, e, script);
      && (r.end == Dead <==> exists i: nat :: DiesAt(s, k, e, script, i))
      && (r.end == Lost <==> exists i: nat :: LosesAt(s, k, e, script, i))
      && (r.end == Panicked <==> exists i: nat :: PanicsAt(s, k, e, script, i))
  {
    var r := Run(s, k, e, script);
    assert script[..|script|] == script;
    if r.end != Running {
      var i := EndingTurn(s, k, e, script);
      forall j: nat | DiesAt(s, k, e, script, j) || LosesAt(s, k, e, script, j) || PanicsAt(s, k, e, script, j)
        ensures j == i
      {
        OneEnding(s, k, e, script, i, j);
        OneEnding(s, k, e, script, j, i);
      }
    } else {
      forall j: nat | j < |script|
        ensures !DiesAt(s, k, e, script, j) && !LosesAt(s, k, e, script, j) && !PanicsAt(s, k, e, script, j)
      {
        if DiesAt(s, k, e, script, j) || LosesAt(s, k, e, script, j) || PanicsAt(s, k, e, script, j) {
          OneEnding(s, k, e, script, j, |script|);
        }
      }
    }
  }

  /** After a read of no bytes the next turn finds the session dead, and nothing
      is dispatched any more. */
  lemma {:induction false} ZeroReadEnds(s: State, k: u16, e: u32, turn: Turn, rest: seq<Turn>)
    requires s.end == Running && s.ttl >= turn.t && turn.read.Data? && Min(turn.read.n, s.room) == 0
    requires 0 < turn.t && Clocked([turn] + rest, turn.t)
    ensures var r := Run(s, k, e, [turn] + rest);
      && r.dispatched == s.dispatched
      && r.end == (if rest == [] then Running else Dead)
      && r.ttl == turn.now - 1
  {
    var s1 := Step(s, k, e, turn);
    assert ([turn] + rest)[0] == turn && ([turn] + rest)[1..] == rest;
    assert Run(s, k, e, [turn] + rest) == Run(s1, k, e, rest);
    if rest != [] {
      OverIsOver(Step(s1, k, e, rest[0]), k, e, rest[1..]);
    }
  }

  // ---- Liveness ----

  /** The read gives a packet of at least one byte. */
  predicate SentWhole(turn: Turn) {
    turn.read.Data? && turn.read.n > 0 && turn.read.packet != Undecodable
  }

  /** The client sends within `g` seconds of the top of a turn, and the turn after
      begins within `g` seconds of it; `prev` is the top before, or the time of
      the session's creation, and `due` the time a packet still awaited is sent
      by.  A read times out only once the time to live is reached, and gives data
      only until then. */
  predicate Punctual(s: State, k: u16, e: u32, script: seq<Turn>, prev: nat, due: Option<nat>, g: nat)
    decreases |script|
  {
    script == [] ||
    var turn := script[0];
    var latest := if due.Some? then due.value else turn.t + g;
    && prev <= turn.t && (due.None? ==> turn.t <= prev + g) && turn.t <= turn.now <= latest
    && (turn.read.TimedOut? ==> turn.now >= s.ttl)
    && (!turn.read.TimedOut? ==> SentWhole(turn) && (turn.now <= s.ttl || s.ttl < turn.t))
    && (script[1..] != [] ==> turn.now <= script[1].t)
    && Punctual(Step(s, k, e, turn), k, e, script[1..], turn.t, if turn.read.TimedOut? then Some(latest) else None, g)
  }

  /** How many turns a packet was sent in. */
  function Sent(script: seq<Turn>): nat {
    if script == [] then 0 else (if script[0].read.Data? then 1 else 0) + Sent(script[1..])
  }

  /** Every packet sent was dispatched and its bytes given back, the session did not
      die and its time to live did not go back. */
  predicate Honoured(s: State, k: u16, e: u32, script: seq<Turn>) {
    var r := Run(s, k, e, script);
    r.end == Running && |r.dispatched| == |s.dispatched| + Sent(script) && r.room == s.room && r.ttl >= s.ttl
  }

  /** The time to live lies a window after the last turn but one, as the deadline
      is counted from the time before the read. */
  predicate Fresh(s: State, k: u16, prev: nat) {
    s.end == Running && s.room == BUFFER && prev + Window(k) <= s.ttl <= prev + 1 + Window(k)
  }

  lemma {:induction false} PunctualIsHonoured(s: State, k: u16, e: u32, script: seq<Turn>, prev: nat, g: nat)
    requires MIN_KEEP_ALIVE <= k <= MAX_KEEP_ALIVE && 2 * g < Window(k)
    requires Fresh(s, k, prev) && Punctual(s, k, e, script, prev, None, g)
    ensures Honoured(s, k, e, script)
    decreases |script|
  {
    if script != [] {
      WindowFits(k);
      var turn := script[0];
      var s1 := Step(s, k, e, turn);
      assert turn.read.Data? && s1.ttl == turn.t + 1 + Window(k) && Fresh(s1, k, turn.t);
      PunctualIsHonoured(s1, k, e, script[1..], turn.t, g);
    }
  }

  /** The task of a session made at `c`. */
  function Opened(c: nat, k: u16): State {
    Start(c + Window(k))
  }

  /** A packet of `n` bytes sent when the first read has just timed out. */
  function LateRun(c: nat, k: u16, g: nat, n: nat): seq<Turn> {
    var ttl := c + Window(k);
    [Turn(c + Min(g, Window(k)), TimedOut, ttl), Turn(ttl, Data(n, PingReq), ttl)]
  }

  /** With gaps of half a window or more a client may send in time and lose its
      packet: it is read, refused and never dispatched. */
  lemma {:induction false} LateRunLoses(c: nat, k: u16, e: u32, g: nat, n: nat)
    requires MIN_KEEP_ALIVE <= k <= MAX_KEEP_ALIVE && 2 * g >= Window(k) && 0 < n <= BUFFER
    ensures Punctual(Opened(c, k), k, e, LateRun(c, k, g, n), c, None, g)
    ensures Run(Opened(c, k), k, e, LateRun(c, k, g, n)) == Opened(c, k).(room := BUFFER - n)
  {
    var s, script := Opened(c, k), LateRun(c, k, g, n);
    var one, latest := script[1..], script[0].t + g;
    assert one[0] == script[1] && one[1..] == [];
    assert Step(s, k, e, script[0]) == s;
    var late := Step(s, k, e, script[1]);
    assert late == s.(room := BUFFER - n);
    assert Run(late, k, e, []) == late;
    assert Run(s, k, e, one) == late && Run(s, k, e, script) == late;
    assert Punctual(late, k, e, [], script[1].t, None, g);
    assert Punctual(s, k, e, one, script[0].t, Some(latest), g);
  }

  /** A session made at `c` honours every run in which the client sends within `g`
      seconds of the tops of the loop, exactly when its window is longer than
      two of them. */
  lemma {:induction false} TwoGapsFit(c: nat, k: u16, e: u32, g: nat)
    requires MIN_KEEP_ALIVE <= k <= MAX_KEEP_ALIVE
    ensures 2 * g < Window(k) <==>
      forall script :: Punctual(Opened(c, k), k, e, script, c, None, g) ==> Honoured(Opened(c, k), k, e, script)
  {
    var s := Opened(c, k);
    if 2 * g < Window(k) {
      forall script | Punctual(s, k, e, script, c, None, g) ensures Honoured(s, k, e, script) {
        PunctualIsHonoured(s, k, e, script, c, g);
      }
    } else {
      LateRunLoses(c, k, e, g, 1);
      assert !Honoured(s, k, e, LateRun(c, k, g, 1));
    }
  }

  // ---- The loop ----

  lemma {:induction false} RunStep(s: State, k: u16, e: u32, script: seq<Turn>, i: nat)
    requires i < |script|
    ensures Run(s, k, e, script[i..]) == Run(Step(s, k, e, script[i]), k, e, script[i + 1..])
    ensures Step(s, k, e, script[i]).end != Running ==> Run(s, k, e, script[i..]) == Step(s, k, e, script[i])
  {
    assert script[i..][1..] == script[i + 1..];
    var next := Step(s, k, e, script[i]);
    if next.end != Running { OverIsOver(next, k, e, script[i + 1..]); }
  }

  /** The rest of a turn whose read gave data. */
  method Receive(session: Session, room: nat, dispatched: seq<Incoming>, turn: Turn, ghost s: State, ghost e: u32)
    returns (left: nat, done: seq<Incoming>, end: End)
    requires s == State(session.ttl, room, dispatched, [], Running) && turn.read.Data? && turn.t <= session.ttl
    modifies session
    ensures Step(s, session.keepAlive, e, turn) == State(session.ttl, left, done, [], end)
  {
    left, done, end := room, dispatched, Running;
    var readed := Min(turn.read.n, room);
    if readed == 0 {
      if turn.now == 0 { return left, done, Panicked; }
      session.Kill(turn.now);
      return;
    }
    left := room - readed;
    if turn.read.packet == Undecodable { return left, done, Panicked; }
    var kept := session.KeepAlive(turn.t + 1);
    if kept.Err? { return; }
    if kept.Panic? { return left, done, Panicked; }
    done := dispatched + [turn.read.packet];
    left := room;
  }

  /** The task, until it ends or the script does. */
  method SpawnClient(session: Session, log: BytesMut, script: seq<Turn>)
    returns (room: nat, dispatched: seq<Incoming>, end: End)
    modifies session, log
    ensures var r := Run(Start(old(session.ttl)), session.keepAlive, session.exprInterval, script);
      && session.ttl == r.ttl && room == r.room && dispatched == r.dispatched && end == r.end
      && log.data == old(log.data) + LogBytes(r.logged)
  {
    ghost var k, e := session.keepAlive, session.exprInterval;
    ghost var all := Run(Start(session.ttl), k, e, script);
    room, dispatched, end := BUFFER, [], Running;
    assert script[0..] == script;
    for i := 0 to |script|
      invariant end == Running && log.data == old(log.data)
      invariant Run(State(session.ttl, room, dispatched, [], Running), k, e, script[i..]) == all
    {
      ghost var s := State(session.ttl, room, dispatched, [], Running);
      RunStep(s, k, e, script, i);
      var t := script[i].t;
      if !session.IsAlive(t) {
        WriteWall(log, [Wall(t + 1, DisconnectByServer(session.ExpirationTime()))]);
        end := Dead;
        break;
      }
      var dur: nat := session.ttl - t;
      match script[i].read {
        case TimedOut =>
          continue;
        case Failed =>
          WriteWall(log, [Wall(t + 1, ClientDisconnected(session.ExpirationTime()))]);
          end := Lost;
          break;
        case Data(_, _) =>
          room, dispatched, end := Receive(session, room, dispatched, script[i], s, e);
          if end != Running { break; }
      }
    }
  }
}
