/**
 The life of a session on disk: created, disconnected and restored, each a
 record of the text log, which decides whether it may be restored again.
 */
module SessionLog {
  import opened Wrappers
  import opened Bytes
  import opened Wal

  /** What is done to a log.  `check` is the clock a restoration compares the
      expiry with, `time` the clock it is logged at. */
  datatype Op =
    | Create(time: nat)
    | Disconnect(w: Wall)
    | Restore(check: nat, time: nat)

  /** A log and, beside every record, the clock checked before it was written. */
  datatype Log = Absent | Log(es: seq<Wall>, checks: seq<nat>)

  datatype Failure = NotFound | AddrInUse | Online | TimedOut

  predicate IsDisconnect(w: Wall) {
    w.value.ClientDisconnected? || w.value.DisconnectByServer?
  }

  /** The operations as they are used. */
  predicate Proper(op: Op) {
    match op
    case Create(_) => true
    case Disconnect(w) => IsDisconnect(w)
    case Restore(check, time) => check <= time
  }

  /** Why a session with this log may not be restored at `check`. */
  function Refusal(es: seq<Wall>, check: nat): Option<Failure>
    requires es != []
  {
    match es[|es| - 1].value
    case ClientRestored => Some(AddrInUse)
    case ClientCreated => Some(Online)
    case ClientDisconnected(u) => if check >= u then Some(TimedOut) else None
    case DisconnectByServer(u) => if check >= u then Some(TimedOut) else None
  }

  // ---- Reading the log back ----

  /** The size of the buffer a log is read through. */
  const READ: nat := 512

  /** The reads of a file: as much as the buffer holds each time. */
  function Reads(file: Str): seq<Str>
    decreases |file|
  {
    if file == [] then [] else if |file| <= READ then [file] else [file[..READ]] + Reads(file[READ..])
  }

  /** Where read `i` ends inside the file, a record ends. */
  predicate CutAtLine(file: Str, i: nat) {
    0 < i && READ * i < |file| ==> file[READ * i - 1] == LF
  }

  ghost predicate Readable(file: Str) {
    forall i: nat :: CutAtLine(file, i)
  }

  lemma {:induction false} ReadsAreWhole(file: Str)
    ensures Concat(Reads(file)) == file && NoneEmpty(Reads(file))
    decreases |file|
  {
    if |file| > READ {
      ReadsAreWhole(file[READ..]);
      assert file == file[..READ] + file[READ..];
    } else if file != [] {
      assert Reads(file)[1..] == [] && file + [] == file;
    }
  }

  lemma {:induction false} ReadableRest(file: Str)
    requires |file| > READ
    ensures Readable(file) <==> file[READ - 1] == LF && Readable(file[READ..])
  {
    var rest := file[READ..];
    if Readable(file) {
      assert CutAtLine(file, 1);
      forall i: nat ensures CutAtLine(rest, i) { assert CutAtLine(file, i + 1); }
    }
    if file[READ - 1] == LF && Readable(rest) {
      forall i: nat ensures CutAtLine(file, i) { if i > 1 { assert CutAtLine(rest, i - 1); } }
    }
  }

  lemma {:induction false} ReadsEndLines(file: Str)
    requires file == [] || EndsLine(file)
    ensures AllEndLines(Reads(file)) <==> Readable(file)
    decreases |file|
  {
    if |file| > READ {
      ReadableRest(file);
      ReadsEndLines(file[READ..]);
      assert Reads(file)[0] == file[..READ] && Reads(file)[1..] == Reads(file[READ..]);
    } else if file != [] {
      assert Reads(file)[1..] == [];
    }
  }

  lemma {:induction false} LogEndsLine(es: seq<Wall>)
    ensures es == [] || EndsLine(LogBytes(es))
  {
    if es != [] {
      LogEndsLine(es[1..]);
      assert EndsLine(Line(es[0]));
    }
  }

  /** A written log is read back exactly when a record ends at every multiple of
      the buffer's size inside it, as is so of every log that fits the buffer. */
  lemma {:induction false} WrittenLogReadsBack(es: seq<Wall>)
    requires AllFit(es)
    ensures ReadLog(Reads(LogBytes(es))) == if Readable(LogBytes(es)) then Ok(es) else Panic
    ensures |LogBytes(es)| <= READ ==> Readable(LogBytes(es))
  {
    var file := LogBytes(es);
    ReadsAreWhole(file);
    LogEndsLine(es);
    ReadsEndLines(file);
    LogRoundTrip(es, Reads(file));
    if |file| <= READ {
      forall i: nat ensures CutAtLine(file, i) { }
    }
  }

  // ---- Runs ----

  /** The log can be read back, and says that the session may be restored. */
  ghost predicate Allowed(log: Log, check: nat) {
    log.Log? && log.es != [] && Readable(LogBytes(log.es)) && Refusal(log.es, check).None?
  }

  ghost function Apply(log: Log, op: Op): Log {
    match op
    case Create(t) => Log([Wall(t, ClientCreated)], [t])
    case Disconnect(w) => if log.Absent? then log else Log(log.es + [w], log.checks + [w.time])
    case Restore(check, time) =>
      if Allowed(log, check) then Log(log.es + [Wall(time, ClientRestored)], log.checks + [check]) else log
  }

  ghost function ApplyAll(log: Log, ops: seq<Op>): Log {
    if ops == [] then log else Apply(ApplyAll(log, ops[..|ops| - 1]), ops[|ops| - 1])
  }

  /** Record `i` restores a session: the record before it is a disconnection that
      had not expired when it was checked. */
  predicate RestoredRightly(log: Log, i: nat)
    requires log.Log? && |log.es| == |log.checks| && i < |log.es|
  {
    log.es[i].value.ClientRestored? ==>
      i > 0 && IsDisconnect(log.es[i - 1]) && log.checks[i] < log.es[i - 1].value.at && log.checks[i] <= log.es[i].time
  }

  predicate Sound(log: Log) {
    log.Log? ==>
      && |log.es| == |log.checks| > 0
      && log.es[0].value.ClientCreated?
      && (forall i :: 0 < i < |log.es| ==> !log.es[i].value.ClientCreated?)
      && (forall i :: 0 <= i < |log.es| ==> RestoredRightly(log, i))
  }

  lemma {:induction false} AppendKeepsSound(log: Log, w: Wall, check: nat)
    requires log.Log? && Sound(log) && !w.value.ClientCreated?
    requires w.value.ClientRestored? ==> Refusal(log.es, check).None? && check <= w.time
    ensures Sound(Log(log.es + [w], log.checks + [check]))
  {
    var more := Log(log.es + [w], log.checks + [check]);
    forall i | 0 <= i < |more.es| ensures RestoredRightly(more, i) {
      if i < |log.es| { assert RestoredRightly(log, i); }
    }
  }

  /** After any operations the log is not empty, starts with the creation, and
      every restoration directly follows a disconnection that expires later than
      the clock it was checked against. */
  lemma {:induction false} EveryRunIsSound(ops: seq<Op>)
    requires forall op :: op in ops ==> Proper(op)
    ensures Sound(ApplyAll(Absent, ops))
  {
    if ops != [] {
      assert ops[|ops| - 1] in ops;
      EveryRunIsSound(ops[..|ops| - 1]);
      var log := ApplyAll(Absent, ops[..|ops| - 1]);
      match ops[|ops| - 1]
      case Create(_) =>
      case Disconnect(w) => if log.Log? { AppendKeepsSound(log, w, w.time); }
      case Restore(check, time) =>
        if Allowed(log, check) { AppendKeepsSound(log, Wall(time, ClientRestored), check); }
    }
  }

  /** No disconnection is restored twice: once restored, a session is refused
      until it disconnects again, whatever the clocks. */
  lemma {:induction false} RestoredOnce(log: Log, check: nat, time: nat, more: seq<Op>)
    requires Sound(log) && Allowed(log, check)
    requires forall op :: op in more ==> op.Restore?
    ensures ApplyAll(Apply(log, Restore(check, time)), more) == Apply(log, Restore(check, time))
  {
    if more != [] {
      assert more[|more| - 1] in more;
      RestoredOnce(log, check, time, more[..|more| - 1]);
    }
  }

  /** Why a restoration is refused after each operation: a session just made is
      online, one restored is in use, and one disconnected expires in its time. */
  lemma {:induction false} RefusedAfter(log: Log, t: nat, w: Wall, check: nat, now: nat)
    requires IsDisconnect(w)
    ensures Refusal(Apply(log, Create(t)).es, now) == Some(Online)
    ensures Allowed(log, check) ==> Refusal(Apply(log, Restore(check, t)).es, now) == Some(AddrInUse)
    ensures log.Log? ==>
      Refusal(Apply(log, Disconnect(w)).es, now) == if w.value.at <= now then Some(TimedOut) else None
  {
  }

  // ---- The operations on the file ----

  class ClientStore {
    const file: BytesMut
    var present: bool
    ghost var log: Log

    ghost predicate Valid()
      reads this, file
    {
      && (present <==> log.Log?)
      && Sound(log)
      && (present ==> AllFit(log.es) && file.data == LogBytes(log.es))
    }

    /** A client never seen before. */
    constructor ()
      ensures Valid() && log == Absent && fresh(file)
    {
      file := new BytesMut([]);
      present, log := false, Absent;
    }

    /** Truncates the log, or makes one. */
    method New(now: nat)
      requires Valid() && now <= U64_MAX
      modifies this, file
      ensures Valid() && log == Apply(old(log), Create(now))
    {
      file.data := [];
      present := true;
      WriteWall(file, [Wall(now, ClientCreated)]);
      log := Apply(log, Create(now));
      assert AllFit(log.es);
    }

    /** Appends a record that keeps the log sound. */
    method Append(w: Wall, ghost check: nat)
      requires Valid() && present && Fits(w) && !w.value.ClientCreated?
      requires w.value.ClientRestored? ==> Refusal(log.es, check).None? && check <= w.time
      modifies this`log, file
      ensures Valid() && log == Log(old(log).es + [w], old(log).checks + [check])
    {
      AppendKeepsSound(log, w, check);
      AllFitAppend(log.es, w);
      LogBytesAppend(log.es, [w]);
      WriteWall(file, [w]);
      log := Log(log.es + [w], log.checks + [check]);
    }

    /** Appends a disconnection; there must be a log. */
    method LogSession(w: Wall) returns (ok: bool)
      requires Valid() && Fits(w) && IsDisconnect(w)
      modifies this, file
      ensures Valid() && log == Apply(old(log), Disconnect(w))
      ensures ok <==> old(present)
    {
      if !present { return false; }
      Append(w, w.time);
      ok := true;
    }

    method ReadBack() returns (r: Outcome<seq<Wall>, string>)
      requires Valid() && present
      ensures r == if Readable(file.data) then Ok(log.es) else Panic
    {
      WrittenLogReadsBack(log.es);
      r := ReadWall(Reads(file.data));
    }

    /** What the log says against restoring the session. */
    method Check(check: nat) returns (r: Outcome<(), Failure>)
      requires Valid()
      ensures r.Panic? <==> present && !Readable(file.data)
      ensures r.Ok? <==> Allowed(log, check)
      ensures r.Err? ==> Some(r.error) == if present then Refusal(log.es, check) else Some(NotFound)
    {
      if !present { return Err(NotFound); }
      var read := ReadBack();
      if read.Panic? { return Panic; }
      var wall := read.value;
      var u;
      match wall[|wall| - 1].value {
        case ClientRestored => return Err(AddrInUse);
        case ClientDisconnected(at) => u := at;
        case DisconnectByServer(at) => u := at;
        case ClientCreated => return Err(Online);
      }
      r := if check >= u then Err(TimedOut) else Ok(());
    }

    /** Restores a session whose log can be read and says it may be. */
    method Restore(check: nat, time: nat) returns (r: Outcome<(), Failure>)
      requires Valid() && check <= time <= U64_MAX
      modifies this, file
      ensures Valid()
      ensures r.Panic? <==> old(present && !Readable(file.data))
      ensures r.Ok? <==> Allowed(old(log), check)
      ensures r.Err? ==> Some(r.error) == if old(present) then Refusal(old(log).es, check) else Some(NotFound)
      ensures log == Apply(old(log), Op.Restore(check, time))
    {
      r := Check(check);
      if r.Ok? { Append(Wall(time, ClientRestored), check); }
    }
  }

  lemma {:induction false} AllFitAppend(es: seq<Wall>, w: Wall)
    requires AllFit(es) && Fits(w)
    ensures AllFit(es + [w])
  {
    if es != [] {
      assert (es + [w])[1..] == es[1..] + [w];
      AllFitAppend(es[1..], w);
    }
  }
}
