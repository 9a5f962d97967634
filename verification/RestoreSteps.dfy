/**
 Restoring a session in its two steps, as tasks interleave them: the log is read
 and allows it, and later a record is written where the reading ended.  Nothing
 keeps other writes out between the two.
 */
module RestoreSteps {
  import opened Wrappers
  import opened Bytes
  import opened Wal
  import opened SessionLog

  /** A restoration allowed at `check`, that read up to byte `at` when the file had
      been written `seen` times. */
  datatype Pending = Pending(at: nat, check: nat, seen: nat)

  /** The log file, how often it has been written, and the restorations between
      their steps. */
  datatype Disk = Disk(file: Str, writes: nat, pending: map<nat, Pending>)

  datatype Step =
    | Made(time: nat)
    | Logged(w: Wall)
    | Looked(id: nat, check: nat)
    | Written(id: nat, time: nat)

  const EMPTY := Disk([], 0, map[])

  function Zeros(n: nat): Str {
    if n == 0 then [] else Zeros(n - 1) + [0]
  }

  /** Writing `b` at byte `at` of a file, over what is there. */
  function PutAt(file: Str, at: nat, b: Str): Str {
    if at > |file| then file + Zeros(at - |file|) + b
    else if at + |b| >= |file| then file[..at] + b
    else file[..at] + b + file[at + |b|..]
  }

  lemma {:induction false} ZerosAt(n: nat, k: nat)
    requires k < n
    ensures |Zeros(n)| == n && Zeros(n)[k] == 0
  {
    if n > 1 { ZerosAt(n - 1, if k < n - 1 then k else 0); }
  }

  /** The bytes written are where they were put, those before and after them are
      kept, and a gap is filled with zeros. */
  lemma {:induction false} PutAtBytes(file: Str, at: nat, b: Str, k: nat)
    requires b != []
    ensures |PutAt(file, at, b)| == if at + |b| > |file| then at + |b| else |file|
    ensures k < |PutAt(file, at, b)| ==>
      PutAt(file, at, b)[k] == if at <= k < at + |b| then b[k - at] else if k < |file| then file[k] else 0
  {
    if at > |file| { ZerosAt(at - |file|, if |file| <= k < at then k - |file| else 0); }
  }

  /** What reading the bytes of a file says. */
  predicate Allows(file: Str, check: nat) {
    var r := ReadLog(Reads(file));
    r.Ok? && r.value != [] && Refusal(r.value, check).None?
  }

  function Next(d: Disk, step: Step): Disk {
    match step
    case Made(t) => Disk(Line(Wall(t, ClientCreated)), d.writes + 1, d.pending)
    case Logged(w) => if d.writes == 0 then d else Disk(d.file + Line(w), d.writes + 1, d.pending)
    case Looked(id, check) =>
      if d.writes > 0 && Allows(d.file, check) then d.(pending := d.pending[id := Pending(|d.file|, check, d.writes)])
      else d.(pending := d.pending - {id})
    case Written(id, t) =>
      if id !in d.pending then d
      else Disk(PutAt(d.file, d.pending[id].at, Line(Wall(t, ClientRestored))), d.writes + 1, d.pending - {id})
  }

  function After(run: seq<Step>): Disk {
    if run == [] then EMPTY else Next(After(run[..|run| - 1]), run[|run| - 1])
  }

  /** The step as a task takes it: disconnections only are logged, and the clock
      does not go back within a restoration. */
  predicate Proper(d: Disk, step: Step) {
    match step
    case Made(t) => t <= U64_MAX
    case Logged(w) => Fits(w) && IsDisconnect(w)
    case Looked(_, _) => true
    case Written(id, t) => t <= U64_MAX && (id in d.pending ==> d.pending[id].check <= t)
  }

  /** Nothing has been written since the restoration that now writes has looked. */
  predicate Undisturbed(d: Disk, step: Step) {
    step.Written? && step.id in d.pending ==> d.pending[step.id].seen == d.writes
  }

  predicate AllProper(run: seq<Step>) {
    run == [] || (AllProper(run[..|run| - 1]) && Proper(After(run[..|run| - 1]), run[|run| - 1]))
  }

  predicate AllUndisturbed(run: seq<Step>) {
    run == [] || (AllUndisturbed(run[..|run| - 1]) && Undisturbed(After(run[..|run| - 1]), run[|run| - 1]))
  }

  /** The operations the steps amount to: a restoration happens when it writes. */
  function Ops(d: Disk, step: Step): seq<Op> {
    match step
    case Made(t) => [Create(t)]
    case Logged(w) => [Disconnect(w)]
    case Looked(_, _) => []
    case Written(id, t) => if id in d.pending then [Restore(d.pending[id].check, t)] else []
  }

  function AllOps(run: seq<Step>): seq<Op> {
    if run == [] then [] else AllOps(run[..|run| - 1]) + Ops(After(run[..|run| - 1]), run[|run| - 1])
  }

  // ---- Undisturbed restorations are atomic ----

  /** The file is the log, and whoever has seen its last write may restore. */
  ghost predicate Matches(d: Disk, log: Log) {
    && (log.Log? <==> d.writes > 0) && Sound(log)
    && (log.Log? ==> AllFit(log.es) && d.file == LogBytes(log.es))
    && forall id :: id in d.pending ==>
        d.pending[id].seen <= d.writes
        && (d.pending[id].seen == d.writes ==> d.pending[id].at == |d.file| && Allowed(log, d.pending[id].check))
  }

  lemma {:induction false} AllowsIsAllowed(log: Log, check: nat)
    requires Sound(log) && log.Log? && AllFit(log.es)
    ensures Allows(LogBytes(log.es), check) <==> Allowed(log, check)
  {
    WrittenLogReadsBack(log.es);
  }

  lemma {:induction false} PutAtEnd(file: Str, b: Str)
    ensures PutAt(file, |file|, b) == file + b
  {
    assert file[..|file|] == file;
  }

  lemma {:induction false} OneMore(log: Log, w: Wall)
    requires log.Log? && AllFit(log.es) && Fits(w)
    ensures AllFit(log.es + [w]) && LogBytes(log.es + [w]) == LogBytes(log.es) + Line(w)
  {
    AllFitAppend(log.es, w);
    LogBytesAppend(log.es, [w]);
    OneLine(w);
  }

  lemma {:induction false} MadeMatches(d: Disk, log: Log, t: nat)
    requires Matches(d, log) && t <= U64_MAX
    ensures Matches(Next(d, Made(t)), SessionLog.Apply(log, Create(t)))
  {
    OneLine(Wall(t, ClientCreated));
  }

  lemma {:induction false} LoggedMatches(d: Disk, log: Log, w: Wall)
    requires Matches(d, log) && Fits(w) && IsDisconnect(w)
    ensures Matches(Next(d, Logged(w)), SessionLog.Apply(log, Disconnect(w)))
  {
    if log.Log? {
      AppendKeepsSound(log, w, w.time);
      OneMore(log, w);
    }
  }

  lemma {:induction false} LookedMatches(d: Disk, log: Log, id: nat, check: nat)
    requires Matches(d, log)
    ensures Matches(Next(d, Looked(id, check)), log)
    ensures id in Next(d, Looked(id, check)).pending <==> Allowed(log, check)
  {
    if log.Log? { AllowsIsAllowed(log, check); }
  }

  lemma {:induction false} WrittenMatches(d: Disk, log: Log, id: nat, t: nat)
    requires Matches(d, log) && id in d.pending && Undisturbed(d, Written(id, t)) && Proper(d, Written(id, t))
    ensures Matches(Next(d, Written(id, t)), SessionLog.Apply(log, Restore(d.pending[id].check, t)))
  {
    var w := Wall(t, ClientRestored);
    AppendKeepsSound(log, w, d.pending[id].check);
    OneMore(log, w);
    PutAtEnd(d.file, Line(w));
  }

  lemma {:induction false} ApplySnoc(ops: seq<Op>, more: seq<Op>)
    requires |more| <= 1
    ensures ApplyAll(Absent, ops + more)
      == if more == [] then ApplyAll(Absent, ops) else SessionLog.Apply(ApplyAll(Absent, ops), more[0])
  {
    if more == [] {
      assert ops + more == ops;
    } else {
      assert (ops + more)[..|ops + more| - 1] == ops;
    }
  }

  /** In every run in which nothing is written between the two steps of any
      restoration, the file is the log that the operations give one at a time. */
  lemma {:induction false} UndisturbedIsAtomic(run: seq<Step>)
    requires AllProper(run) && AllUndisturbed(run)
    ensures Matches(After(run), ApplyAll(Absent, AllOps(run)))
  {
    if run != [] {
      var n := |run| - 1;
      UndisturbedIsAtomic(run[..n]);
      var d, log := After(run[..n]), ApplyAll(Absent, AllOps(run[..n]));
      ApplySnoc(AllOps(run[..n]), Ops(d, run[n]));
      match run[n]
      case Made(t) => MadeMatches(d, log, t);
      case Logged(w) => LoggedMatches(d, log, w);
      case Looked(id, check) => LookedMatches(d, log, id, check);
      case Written(id, t) => if id in d.pending { WrittenMatches(d, log, id, t); }
    }
  }

  // ---- Exactly when a restoration adds its record ----

  /** Whoever has not seen the last write has read less than there is. */
  predicate Grows(d: Disk) {
    forall id :: id in d.pending ==>
      && d.pending[id].seen <= d.writes
      && (if d.pending[id].seen == d.writes then d.pending[id].at == |d.file| else d.pending[id].at < |d.file|)
  }

  lemma {:induction false} GrowsOn(d: Disk, step: Step)
    requires Grows(d) && Undisturbed(d, step) && (step.Made? ==> d.pending == map[])
    ensures Grows(Next(d, step))
  {
    if step.Written? && step.id in d.pending { PutAtEnd(d.file, Line(Wall(step.time, ClientRestored))); }
  }

  /** The session is not made anew while a restoration is between its steps. */
  predicate NotRemade(run: seq<Step>) {
    run == [] || (NotRemade(run[..|run| - 1]) && (run[|run| - 1].Made? ==> After(run[..|run| - 1]).pending == map[]))
  }

  lemma {:induction false} RunGrows(run: seq<Step>)
    requires AllUndisturbed(run) && NotRemade(run)
    ensures Grows(After(run))
  {
    if run != [] {
      RunGrows(run[..|run| - 1]);
      GrowsOn(After(run[..|run| - 1]), run[|run| - 1]);
    }
  }

  lemma {:induction false} PutAtAdds(file: Str, at: nat, b: Str)
    requires at <= |file| && b != []
    ensures PutAt(file, at, b) == file + b <==> at == |file|
  {
    PutAtEnd(file, b);
  }

  /** The first restoration disturbed loses bytes of the log: its step adds the
      record exactly when nothing has been written since it looked. */
  lemma {:induction false} AddsExactly(run: seq<Step>, id: nat, t: nat)
    requires AllUndisturbed(run) && NotRemade(run) && id in After(run).pending
    ensures After(run + [Written(id, t)]).file == After(run).file + Line(Wall(t, ClientRestored))
      <==> Undisturbed(After(run), Written(id, t))
  {
    RunGrows(run);
    PutAtAdds(After(run).file, After(run).pending[id].at, Line(Wall(t, ClientRestored)));
    assert (run + [Written(id, t)])[..|run|] == run;
  }

  // ---- Two restorations of one disconnection ----

  lemma {:induction false} PutTwice(file: Str, b: Str, c: Str)
    requires |b| == |c|
    ensures PutAt(file + b, |file|, c) == file + c
  {
    assert (file + b)[..|file|] == file;
  }

  /** Two tasks that look before either writes both restore the session; the log
      ends up with the record of the second only. */
  lemma {:induction false} BothRestore(d: Disk, log: Log, a: nat, b: nat, t: nat, u: nat, check: nat)
    requires Matches(d, log) && Allowed(log, check) && a != b && t <= U64_MAX && u <= U64_MAX
    requires |Decimal(t)| == |Decimal(u)|
    ensures var d1 := Next(Next(d, Looked(a, check)), Looked(b, check));
      && a in d1.pending && b in Next(d1, Written(a, t)).pending
      && Next(Next(d1, Written(a, t)), Written(b, u)).file == LogBytes(log.es + [Wall(u, ClientRestored)])
  {
    AllowsIsAllowed(log, check);
    PutAtEnd(d.file, Line(Wall(t, ClientRestored)));
    PutTwice(d.file, Line(Wall(t, ClientRestored)), Line(Wall(u, ClientRestored)));
    OneMore(log, Wall(u, ClientRestored));
  }
}
