/**
 What holds of the message list in every run, and in every run whose takes
 overlap no append when they empty the list.
 */
module LinkedListResults {
  import opened Wrappers
  import opened LinkedList
  import opened LinkedListProofs

  function ValuesAt(heap: map<Node, Cell>, nodes: seq<Node>): seq<Value>
    requires forall x :: x in nodes ==> x in heap
  {
    seq(|nodes|, i requires 0 <= i < |nodes| => assert nodes[i] in nodes; heap[nodes[i]].val)
  }

  // ---- Conservation, exactly ----

  lemma {:induction false} ChainUnique(heap: map<Node, Cell>, p: Ptr, c: seq<Node>, d: seq<Node>)
    requires IsChain(heap, p, c) && IsChain(heap, p, d)
    ensures c == d
    decreases |c|
  {
    if p.Some? {
      ChainUnique(heap, heap[p.value].next, c[1..], d[1..]);
      assert c == [c[0]] + c[1..] && d == [d[0]] + d[1..];
    }
  }

  lemma {:induction false} SplitChain(m: Mem, i: nat)
    requires Listed(m) && Split(m) && |m.taken| <= i <= |m.linked|
    ensures IsChain(m.heap, LinkedAt(m, i), m.linked[i..])
    decreases |m.linked| - i
  {
    if i < |m.linked| {
      SplitChain(m, i + 1);
      assert NextOf(m, m.linked[i]) == LinkedAt(m, i + 1);
      assert m.linked[i..][1..] == m.linked[i + 1..];
    }
  }

  lemma {:induction false} MatchedConserves(m: Mem)
    requires Listed(m) && Split(m)
    ensures IsChain(m.heap, m.head, m.linked[|m.taken|..]) && m.taken + m.linked[|m.taken|..] == m.linked
  {
    SplitChain(m, |m.taken|);
  }

  lemma {:induction false} ChainStep(heap: map<Node, Cell>, p: Ptr, c: seq<Node>, i: nat)
    requires IsChain(heap, p, c) && i < |c|
    ensures c[i] in heap
    ensures if i == 0 then p == Some(c[0]) else c[i - 1] in heap && heap[c[i - 1]].next == Some(c[i])
    decreases i
  {
    if i > 0 { ChainStep(heap, heap[p.value].next, c[1..], i - 1); }
  }

  /** The successor of a taken node whose take read null has never been head. */
  lemma {:induction false} MismatchSkips(m: Mem, i: nat) returns (x: Node)
    requires Logs(m) && Edges(m) && Entries(m) && i < |m.taken| && NextOf(m, m.taken[i]) != m.saw[i]
    ensures NextOf(m, m.taken[i]) == Some(x) && x in m.linked && !Entered(m, x)
  {
    var a := m.taken[i];
    assert a in m.taken;
    x := NextOf(m, a).value;
    assert !TookAs(m, a, x);
  }

  /** In a chain from head, the only way to a node that was never head is
      through its predecessor. */
  lemma {:induction false} ChainReaches(m: Mem, c: seq<Node>, a: Node, x: Node)
    requires Edges(m) && IsChain(m.heap, m.head, c) && x in c && m.head != Some(x) && NextOf(m, a) == Some(x)
    ensures a in c
  {
    var j :| 0 <= j < |c| && c[j] == x;
    ChainStep(m.heap, m.head, c, j);
    assert NextOf(m, c[j - 1]) == Some(x);
  }

  lemma {:induction false} DistinctParts(a: seq<Node>, c: seq<Node>, x: Node)
    requires Distinct(a + c) && x in a
    ensures x !in c
  {
    var i :| 0 <= i < |a| && a[i] == x;
    forall j | 0 <= j < |c| ensures c[j] != x {
      assert (a + c)[i] == x && (a + c)[|a| + j] == c[j];
    }
  }

  /** So it is neither taken nor in the chain. */
  lemma {:induction false} MismatchLoses(m: Mem, i: nat, c: seq<Node>, x: Node)
    requires Edges(m) && Distinct(m.linked) && i < |m.taken|
    requires NextOf(m, m.taken[i]) == Some(x) && x in m.linked && !Entered(m, x)
    requires IsChain(m.heap, m.head, c)
    ensures m.taken + c != m.linked
  {
    if m.taken + c == m.linked {
      DistinctParts(m.taken, c, m.taken[i]);
      assert x in m.taken + c;
      ChainReaches(m, c, m.taken[i], x);
    }
  }

  /** Every run, with no condition on overlap: the list conserves its nodes
      exactly when each taken node still has the successor its take read. */
  lemma {:induction false} ConservedExactly(run: seq<Action>)
    ensures Conserved(After(run).mem) <==> Matched(After(run).mem)
  {
    InvAlways(run);
    var m := After(run).mem;
    if Matched(m) {
      MatchedConserves(m);
      assert Conserved(m);
    } else if Conserved(m) {
      var c :| IsChain(m.heap, m.head, c) && m.taken + c == m.linked;
      var i :| 0 <= i < |m.taken| && NextOf(m, m.taken[i]) != m.saw[i];
      var x := MismatchSkips(m, i);
      MismatchLoses(m, i, c, x);
    }
  }

  // ---- Takes that overlap no append when they empty the list ----

  /** No node from `curr` on was taken while it was the last one. */
  ghost predicate Ahead(m: Mem, curr: Node) {
    forall i, j :: 0 <= i <= j < |m.taken| <= |m.linked| && m.linked[i] == curr ==> NextOf(m, m.linked[j]).Some?
  }

  ghost predicate CalmThread(m: Mem, th: Thread) {
    && !th.pc.Fault?
    && (th.pc.ReloadHead? ==> m.head.Some?)
    && (th.pc.TestNext? || th.pc.StepNext? || th.pc.LinkNext? ==>
          Ahead(m, th.pc.curr))
    && (th.pc.Unlink? && th.pc.next.None? && |m.heap| == th.pc.stamp ==> NextOf(m, th.pc.first).None?)
  }

  ghost predicate CalmInv(s: State) {
    Inv(s) && Matched(s.mem) && forall t: Tid :: CalmThread(s.mem, ThreadOf(s, t))
  }

  ghost function Elements(s: seq<Node>): set<Node> {
    set x | x in s
  }

  lemma {:induction false} DistinctSize(s: seq<Node>)
    requires Distinct(s)
    ensures |Elements(s)| == |s|
  {
    if s != [] {
      var front, x := s[..|s| - 1], s[|s| - 1];
      DistinctSize(front);
      assert s == front + [x];
      assert Elements(s) == Elements(front) + {x};
      assert x !in Elements(front);
    }
  }

  lemma {:induction false} SubsetSize<T>(a: set<T>, b: set<T>)
    requires a <= b
    ensures |a| <= |b|
    ensures |a| == |b| ==> a == b
  {
    assert |b| == |a| + |b - a| by { assert b == a + (b - a); }
  }

  lemma {:induction false} LinkAfterCalm(m: Mem, curr: Node, node: Node)
    requires Matched(m) && curr !in m.taken && curr in m.heap
    ensures Matched(LinkAfter(m, curr, node))
  {
    var m' := LinkAfter(m, curr, node);
    forall i | 0 <= i < |m.taken| ensures NextOf(m', m.taken[i]) == m.saw[i] {
      assert m.taken[i] in m.taken && NextOf(m, m.taken[i]) == m.saw[i];
    }
  }

  lemma {:induction false} UnlinkFirstCalm(m: Mem, first: Node, next: Ptr)
    requires Matched(m) && NextOf(m, first) == next
    ensures Matched(UnlinkFirst(m, first, next))
  {
    var m' := UnlinkFirst(m, first, next);
    forall i | 0 <= i < |m'.taken| ensures NextOf(m', m'.taken[i]) == m'.saw[i] {
      if i < |m.taken| { assert NextOf(m, m.taken[i]) == m.saw[i]; }
    }
  }

  lemma {:induction false} AllocCalm(m: Mem, t: Tid, v: Value, n: Node)
    requires Matched(m) && n !in m.heap
    ensures Matched(Alloc(m, t, v, n))
  {
    var m' := Alloc(m, t, v, n);
    forall i | 0 <= i < |m.taken| ensures NextOf(m', m.taken[i]) == m.saw[i] {
      assert NextOf(m, m.taken[i]) == m.saw[i];
    }
  }

  lemma {:induction false} HeapCoversLinks(m: Mem)
    requires Logs(m)
    ensures |m.linked| <= |m.heap|
    ensures forall t, node | Private(m, t, node) :: |m.linked| < |m.heap|
  {
    DistinctSize(m.linked);
    assert Elements(m.linked) <= m.heap.Keys;
    SubsetSize(Elements(m.linked), m.heap.Keys);
    forall t, node | Private(m, t, node) ensures |m.linked| < |m.heap| {
      assert node in m.heap.Keys && node !in Elements(m.linked);
    }
  }

  lemma {:induction false} CalmStepMatched(s: State, a: Action)
    requires CalmInv(s) && CalmStep(s, a)
    ensures Matched(Apply(s, a).mem)
  {
    var m, th := s.mem, ThreadOf(s, a.tid);
    assert ThreadInv(m, a.tid, th) && CalmThread(m, th);
    match a
    case StartAppend(t, v, n) => if th.pc.Idle? && n !in m.heap { AllocCalm(m, t, v, n); }
    case StartTake(t) =>
    case Step(t) =>
      if th.pc.LinkNext? && NextOf(m, th.pc.curr).None? {
        AheadNotTaken(m, th.pc.curr);
        LinkAfterCalm(m, th.pc.curr, th.pc.node);
      } else if th.pc.Unlink? && m.head == Some(th.pc.first) {
        UnlinkFirstCalm(m, th.pc.first, th.pc.next);
      }
  }

  lemma {:induction false} AheadNotTaken(m: Mem, curr: Node)
    requires Split(m) && Ahead(m, curr) && NextOf(m, curr).None?
    ensures curr !in m.taken
  {
    forall i | 0 <= i < |m.taken| ensures m.taken[i] != curr {
      assert m.taken[i] == m.linked[i];
    }
  }

  lemma {:induction false} CalmOtherUnlink(m: Mem, u: Tid, th: Thread, first: Node, next: Ptr)
    requires Logs(m) && Split(m) && PcInv(m, u, th) && CalmThread(m, th) && m.head == Some(first)
    requires NextOf(m, first) == next && (next.Some? || |m.heap| <= |m.linked|)
    ensures CalmThread(UnlinkFirst(m, first, next), th)
  {
    HeapCoversLinks(m);
  }

  lemma {:induction false} CalmOtherLink(m: Mem, t: Tid, u: Tid, th: Thread, curr: Node, node: Node)
    requires Logs(m) && Private(m, t, node) && PcInv(m, u, th) && CalmThread(m, th) && |m.taken| <= |m.linked|
    ensures CalmThread(LinkAfter(m, curr, node), th)
  {
    HeapCoversLinks(m);
    assert curr in m.heap ==> LinkAfter(m, curr, node).heap.Keys == m.heap.Keys;
  }

  lemma {:induction false} CalmOtherLinkFirst(m: Mem, t: Tid, th: Thread, node: Node)
    requires |m.taken| <= |m.linked| && CalmThread(m, th)
    ensures CalmThread(LinkFirst(m, node), th)
  {
  }

  lemma {:induction false} CalmOtherAlloc(m: Mem, t: Tid, u: Tid, th: Thread, v: Value, n: Node)
    requires Logs(m) && PcInv(m, u, th) && CalmThread(m, th) && n !in m.heap
    ensures CalmThread(Alloc(m, t, v, n), th)
  {
    HeapCoversLinks(m);
    assert Alloc(m, t, v, n).heap.Keys == m.heap.Keys + {n};
  }

  lemma {:induction false} CalmOther(s: State, a: Action, u: Tid)
    requires CalmInv(s) && CalmStep(s, a) && u != a.tid
    ensures CalmThread(Apply(s, a).mem, ThreadOf(s, u))
  {
    var m, th, own := s.mem, ThreadOf(s, u), ThreadOf(s, a.tid);
    assert PcInv(m, a.tid, own) && CalmThread(m, own);
    assert PcInv(m, u, th) && CalmThread(m, th);
    match a
    case StartAppend(t, v, n) => if own.pc.Idle? && n !in m.heap { CalmOtherAlloc(m, t, u, th, v, n); }
    case StartTake(t) =>
    case Step(t) =>
      match own.pc
      case SwapHead(node, seen) => if m.head.None? { CalmOtherLinkFirst(m, t, th, node); }
      case LinkNext(node, curr, seen) => if NextOf(m, curr).None? { CalmOtherLink(m, t, u, th, curr, node); }
      case Unlink(first, next, stamp) => if m.head == Some(first) { CalmOtherUnlink(m, u, th, first, next); }
      case _ =>
  }

  lemma {:induction false} AheadAdvances(m: Mem, curr: Node, tries: nat)
    requires Edges(m) && Ahead(m, curr) && Cursor(m, curr, tries, 3) && NextOf(m, curr).Some?
    ensures Ahead(m, NextOf(m, curr).value)
  {
    var k :| 0 <= k < |m.linked| && m.linked[k] == curr && tries <= 2 * k + 3;
    var next := NextOf(m, curr).value;
    forall i, j | 0 <= i <= j < |m.taken| <= |m.linked| && m.linked[i] == next ensures NextOf(m, m.linked[j]).Some? {
      assert NextOf(m, m.linked[k]) == Some(m.linked[i]);
      assert k < i;
    }
  }

  lemma {:induction false} HeadAhead(m: Mem)
    requires Logs(m) && Split(m) && m.head.Some?
    ensures Ahead(m, m.head.value)
  {
    forall i | 0 <= i < |m.taken| ensures m.linked[i] != m.head.value {
      assert m.taken[i] == m.linked[i] && m.taken[i] in m.taken;
    }
  }

  lemma {:induction false} CalmOwn(m: Mem, t: Tid, th: Thread)
    requires Logs(m) && Edges(m) && Split(m) && PcInv(m, t, th) && CalmThread(m, th)
    ensures CalmThread(StepThread(m, th).0, StepThread(m, th).1)
  {
    match th.pc
    case ReloadHead(node) => HeadAhead(m);
    case StepNext(node, curr) => AheadAdvances(m, curr, th.tries);
    case _ =>
  }

  lemma {:induction false} CalmSelf(s: State, a: Action)
    requires CalmInv(s)
    ensures CalmThread(Apply(s, a).mem, ThreadOf(Apply(s, a), a.tid))
  {
    var t := a.tid;
    assert CalmThread(s.mem, ThreadOf(s, t)) && PcInv(s.mem, t, ThreadOf(s, t));
    if a.Step? { CalmOwn(s.mem, t, ThreadOf(s, t)); }
  }

  lemma {:induction false} OthersStay(s: State, a: Action, u: Tid)
    requires u != a.tid
    ensures ThreadOf(Apply(s, a), u) == ThreadOf(s, u)
  {
  }

  lemma {:induction false} CalmKept(s: State, a: Action)
    requires CalmInv(s) && CalmStep(s, a)
    ensures CalmInv(Apply(s, a))
  {
    assert Inv(Apply(s, a)) by { ApplyKeepsInv(s, a); }
    assert Matched(Apply(s, a).mem) by { CalmStepMatched(s, a); }
    forall u: Tid ensures CalmThread(Apply(s, a).mem, ThreadOf(Apply(s, a), u)) {
      if u == a.tid {
        CalmSelf(s, a);
      } else {
        CalmOther(s, a, u);
        OthersStay(s, a, u);
      }
    }
  }

  lemma {:induction false} CalmAlways(run: seq<Action>)
    requires Calm(run)
    ensures CalmInv(After(run))
  {
    if run == [] {
      InvAlways(run);
    } else {
      CalmAlways(run[..|run| - 1]);
      CalmKept(After(run[..|run| - 1]), run[|run| - 1]);
    }
  }

  /** The values taken, then those in the list, are those appended. */
  ghost predicate ConservedBy(m: Mem, c: seq<Node>) {
    && Listed(m) && IsChain(m.heap, m.head, c) && m.taken + c == m.linked
    && (forall x :: x in m.taken ==> x in m.heap) && (forall x :: x in c ==> x in m.heap)
    && ValuesAt(m.heap, m.taken) + ValuesAt(m.heap, c) == ValuesAt(m.heap, m.linked)
  }

  lemma {:induction false} ValuesAtAppend(heap: map<Node, Cell>, a: seq<Node>, b: seq<Node>)
    requires (forall x :: x in a ==> x in heap) && (forall x :: x in b ==> x in heap)
    ensures (forall x :: x in a + b ==> x in heap) && ValuesAt(heap, a) + ValuesAt(heap, b) == ValuesAt(heap, a + b)
  {
  }

  lemma {:induction false} SplitIsConserved(m: Mem) returns (c: seq<Node>)
    requires Listed(m) && Split(m)
    ensures ConservedBy(m, c)
  {
    c := m.linked[|m.taken|..];
    assert IsChain(m.heap, m.head, c) && m.taken + c == m.linked by { MatchedConserves(m); }
    assert forall x :: x in c ==> x in m.linked;
    forall x | x in m.taken ensures x in m.heap { assert x in m.taken + c; }
    ValuesAtAppend(m.heap, m.taken, c);
  }

  /** In every interleaving whose emptying takes overlap no append, the values
      taken followed by the values in the list are the values appended, in
      link order. */
  lemma {:induction false} CalmRunsConserve(run: seq<Action>) returns (c: seq<Node>)
    requires Calm(run)
    ensures ConservedBy(After(run).mem, c)
  {
    var m := After(run).mem;
    assert Listed(m) && Split(m) by { CalmAlways(run); }
    c := SplitIsConserved(m);
  }

  /** Nor does a thread of such a run dereference a null head. */
  lemma {:induction false} CalmRunsNeverFault(run: seq<Action>, t: Tid)
    requires Calm(run)
    ensures !ThreadOf(After(run), t).pc.Fault?
  {
    CalmAlways(run);
    assert CalmThread(After(run).mem, ThreadOf(After(run), t));
  }

  // ---- Every run: order, blame and termination of appends ----

  function Appends(run: seq<Action>): nat {
    if run == [] then 0
    else Appends(run[..|run| - 1]) + if run[|run| - 1].StartAppend? then 1 else 0
  }

  predicate Appending(pc: Pc) {
    pc.LoadHead? || pc.SwapHead? || pc.ReloadHead? || pc.TestNext? || pc.StepNext? || pc.LinkNext?
  }

  /** The values a thread has linked are the values it passed to append, in
      program order, up to the append still in progress. */
  lemma {:induction false} ProgramOrder(run: seq<Action>, t: Tid)
    ensures var s := After(run); var th := ThreadOf(s, t);
      && Distinct(s.mem.linked)
      && (!Appending(th.pc) && !th.pc.Fault? ==> ValuesOf(s.mem.heap, s.mem.linked, t) == th.called)
      && (Appending(th.pc) ==> th.called != [] && ValuesOf(s.mem.heap, s.mem.linked, t) == th.called[..|th.called| - 1])
  {
    InvAlways(run);
    var s := After(run);
    var th := ThreadOf(s, t);
    assert ThreadInv(s.mem, t, th);
  }

  lemma {:induction false} HeapSize(run: seq<Action>)
    ensures |After(run).mem.heap| <= Appends(run)
  {
    if run != [] {
      var s, a := After(run[..|run| - 1]), run[|run| - 1];
      HeapSize(run[..|run| - 1]);
      InvAlways(run[..|run| - 1]);
      assert PcInv(s.mem, a.tid, ThreadOf(s, a.tid));
      if a.StartAppend? {
        assert Alloc(s.mem, a.tid, a.val, a.node).heap.Keys == s.mem.heap.Keys + {a.node};
      } else if a.Step? {
        StepKeysSame(s.mem, ThreadOf(s, a.tid));
      }
    }
  }

  lemma {:induction false} StepKeysSame(m: Mem, th: Thread)
    ensures |StepThread(m, th).0.heap| == |m.heap|
  {
    if th.pc.LinkNext? && th.pc.curr in m.heap {
      assert LinkAfter(m, th.pc.curr, th.pc.node).heap.Keys == m.heap.Keys;
    }
  }

  lemma {:induction false} IncreasingBound(c: seq<nat>, n: nat)
    requires forall i :: 0 <= i < |c| ==> c[i] < n
    requires forall i, j :: 0 <= i < j < |c| ==> c[i] < c[j]
    ensures |c| <= n
  {
    if c != [] { IncreasingBound(c[..|c| - 1], c[|c| - 1]); }
  }

  /** In every run each failed exchange of a thread is charged to a link made
      by another thread, no two to the same link, so with `Appends(run)`
      appends there are at most that many failures; and one attempt walks at
      most twice the list. */
  lemma {:induction false} FailuresCharged(run: seq<Action>, t: Tid)
    ensures var m := After(run).mem; var th := ThreadOf(After(run), t);
      && (forall i :: 0 <= i < |th.charges| ==> th.charges[i] < |m.linked| && !OwnedBy(m, m.linked[th.charges[i]], t))
      && (forall i, j :: 0 <= i < j < |th.charges| ==> th.charges[i] < th.charges[j])
      && |th.charges| <= |m.linked| <= Appends(run)
      && (Appending(th.pc) ==> th.tries <= 2 * Appends(run) + 1)
  {
    InvAlways(run);
    HeapSize(run);
    var s := After(run);
    var th := ThreadOf(s, t);
    assert ThreadInv(s.mem, t, th);
    IncreasingBound(th.charges, |s.mem.linked|);
    HeapCoversLinks(s.mem);
  }

  /** Atomic steps thread `t` makes inside appends. */
  function AppendSteps(run: seq<Action>, t: Tid): nat {
    if run == [] then 0
    else
      var front, a := run[..|run| - 1], run[|run| - 1];
      AppendSteps(front, t) + if a == Step(t) && Appending(ThreadOf(After(front), t).pc) then 1 else 0
  }

  /** Attempts thread `t` has finished: failed ones and linking ones. */
  function Finished(th: Thread): int {
    |th.charges| + |th.called| - if Appending(th.pc) then 1 else 0
  }

  lemma {:induction false} StepsBound(run: seq<Action>, t: Tid, n: nat)
    requires Appends(run) <= n
    ensures var th := ThreadOf(After(run), t);
      AppendSteps(run, t) <= Finished(th) * (2 * n + 4) + if Appending(th.pc) then th.tries else 0
    ensures Finished(ThreadOf(After(run), t)) >= 0
  {
    if run != [] {
      var front, a := run[..|run| - 1], run[|run| - 1];
      StepsBound(front, t, n);
      FailuresCharged(front, t);
      var th, th' := ThreadOf(After(front), t), ThreadOf(After(run), t);
      StepsBoundOnce(After(front), a, t, n);
      FinishedTimes(Finished(th), Finished(th'), 2 * n + 4);
    } else {
      assert ThreadOf(After(run), t) == NEW_THREAD;
    }
  }

  lemma {:induction false} FinishedTimes(a: int, b: int, k: nat)
    ensures a <= b ==> a * k <= b * k
    ensures b == a + 1 ==> b * k == a * k + k
  {
    if a <= b { assert (b - a) * k >= 0; }
  }

  /** One action either leaves the count of finished attempts and adds a step,
      or finishes the attempt. */
  lemma {:induction false} StepsBoundOnce(s: State, a: Action, t: Tid, n: nat)
    ensures var th, th' := ThreadOf(s, t), ThreadOf(Apply(s, a), t);
      var spent := if a == Step(t) && Appending(th.pc) then 1 else 0;
      || (Finished(th') == Finished(th) + 1 && Appending(th.pc))
      || (Finished(th') == Finished(th) && (Appending(th'.pc) ==>
            if Appending(th.pc) then th'.tries == th.tries + spent else spent == 0 && th'.tries == 0)
          && (Appending(th.pc) ==> Appending(th'.pc)))
  {
  }

  /** Every append ends: whatever the other threads do, a thread spends at most
      this many atomic steps in all its appends together. */
  lemma {:induction false} AppendsEnd(run: seq<Action>, t: Tid)
    ensures var th := ThreadOf(After(run), t);
      AppendSteps(run, t) <= (|th.charges| + |th.called|) * (2 * Appends(run) + 4)
  {
    StepsBound(run, t, Appends(run));
    FailuresCharged(run, t);
    var th := ThreadOf(After(run), t);
    FinishedTimes(Finished(th), |th.charges| + |th.called|, 2 * Appends(run) + 4);
  }

  // ---- Runs of appends only ----

  lemma {:induction false} NoTakesCalm(run: seq<Action>)
    requires forall i :: 0 <= i < |run| ==> !run[i].StartTake?
    ensures Calm(run) && After(run).mem.taken == []
    ensures forall t :: var pc := ThreadOf(After(run), t).pc; !pc.TakeHead? && !pc.ReadNext? && !pc.Unlink?
  {
    if run != [] {
      NoTakesCalm(run[..|run| - 1]);
      var s, a := After(run[..|run| - 1]), run[|run| - 1];
      assert !ThreadOf(s, a.tid).pc.Unlink?;
      forall t ensures var pc := ThreadOf(Apply(s, a), t).pc; !pc.TakeHead? && !pc.ReadNext? && !pc.Unlink? {
        assert var pc := ThreadOf(s, t).pc; !pc.TakeHead? && !pc.ReadNext? && !pc.Unlink?;
      }
    }
  }

  /** With appends only, the chain from head holds exactly the nodes linked,
      each once, and a thread at rest has all its values there in order. */
  lemma {:induction false} AppendOnlyRuns(run: seq<Action>, t: Tid)
    requires forall i :: 0 <= i < |run| ==> !run[i].StartTake?
    ensures var s := After(run);
      && IsChain(s.mem.heap, s.mem.head, s.mem.linked) && Distinct(s.mem.linked)
      && (ThreadOf(s, t).pc.Idle? ==> ValuesOf(s.mem.heap, s.mem.linked, t) == ThreadOf(s, t).called)
  {
    NoTakesCalm(run);
    var c := CalmRunsConserve(run);
    ProgramOrder(run, t);
    assert [] + c == c;
  }

  // ---- Conservation is not kept without the overlap condition ----

  lemma {:induction false} AfterOne(run: seq<Action>, a: Action)
    ensures After(run + [a]) == Apply(After(run), a)
  {
    assert (run + [a])[..|run + [a]| - 1] == run;
  }

  lemma {:induction false} AfterThree(run: seq<Action>, a: Action, b: Action, c: Action)
    ensures After(run + [a, b, c]) == Apply(Apply(Apply(After(run), a), b), c)
  {
    AfterOne(run, a);
    AfterOne(run + [a], b);
    AfterOne(run + [a] + [b], c);
    assert run + [a] + [b] + [c] == run + [a, b, c];
  }

  ghost predicate Filled(s: State) {
    && s.mem.head == Some(0) && s.mem.heap.Keys == {0} && s.mem.heap[0].next.None?
    && s.mem.taken == [] && s.mem.saw == [] && |s.mem.linked| == 1 && ThreadOf(s, 1).pc.Idle?
  }

  lemma {:induction false} LostFill()
    ensures var s := Apply(Apply(Apply(INIT, StartAppend(1, 10, 0)), Step(1)), Step(1));
      Filled(s) && ThreadOf(s, 2).pc.Idle? && ThreadOf(s, 3).pc.Idle?
  {
  }

  lemma {:induction false} LostPeek(s: State)
    requires Filled(s) && ThreadOf(s, 2).pc.Idle?
    ensures var s' := Apply(Apply(Apply(s, StartTake(2)), Step(2)), Step(2));
      Filled(s') && ThreadOf(s', 2).pc == Unlink(0, None, 1)
  {
  }

  lemma {:induction false} LostWalk(s: State)
    requires Filled(s)
    ensures var s' := Apply(Apply(Apply(s, StartAppend(1, 20, 1)), Step(1)), Step(1));
      s'.mem == Alloc(s.mem, 1, 20, 1) && ThreadOf(s', 1).pc == TestNext(1, 0) && ThreadOf(s', 2) == ThreadOf(s, 2)
  {
  }

  lemma {:induction false} LostLink(s: State)
    requires ThreadOf(s, 1).pc == TestNext(1, 0) && s.mem.head == Some(0) && s.mem.heap.Keys == {0, 1}
    requires s.mem.heap[0].next.None? && s.mem.heap[1].owner == 1 && s.mem.taken == [] && s.mem.saw == []
    requires ThreadOf(s, 2).pc == Unlink(0, None, 1)
    ensures var r := Apply(Apply(Apply(s, Step(1)), Step(1)), Step(2));
      !Matched(r.mem) && Lost(r, 1, 1)
  {
    var a := Apply(s, Step(1));
    var b := Apply(a, Step(1));
    var m := Apply(b, Step(2)).mem;
    assert NextOf(b.mem, 0) == Some(1);
    assert m.taken[0] == 0 && m.saw[0] == None;
    assert m.linked[|m.linked| - 1] == 1;
  }

  /** A node that thread `t` has linked, and whose append has returned, is neither
      taken nor in the list. */
  ghost predicate Lost(s: State, t: Tid, x: Node) {
    && x in s.mem.linked && x in s.mem.heap && s.mem.heap[x].owner == t && ThreadOf(s, t).pc.Idle?
    && x !in s.mem.taken && forall c :: IsChain(s.mem.heap, s.mem.head, c) ==> x !in c
  }

  lemma {:induction false} LostSetup() returns (run: seq<Action>)
    ensures Filled(After(run)) && ThreadOf(After(run), 2).pc == Unlink(0, None, 1)
  {
    AfterThree([], StartAppend(1, 10, 0), Step(1), Step(1));
    run := [] + [StartAppend(1, 10, 0), Step(1), Step(1)];
    LostFill();
    AfterThree(run, StartTake(2), Step(2), Step(2));
    LostPeek(After(run));
    run := run + [StartTake(2), Step(2), Step(2)];
  }

  /** A take reads the only node's null successor, an append links behind that
      node and returns, then the take's exchange empties the list: the
      appended value is lost. */
  lemma {:induction false} LostAppend() returns (run: seq<Action>, t: Tid, x: Node)
    ensures Lost(After(run), t, x) && !Conserved(After(run).mem)
  {
    t, x := 1, 1;
    run := LostSetup();
    var next := run + [StartAppend(1, 20, 1), Step(1), Step(1)];
    AfterThree(run, StartAppend(1, 20, 1), Step(1), Step(1));
    LostWalk(After(run));
    AfterThree(next, Step(1), Step(1), Step(2));
    LostLink(After(next));
    run := next + [Step(1), Step(1), Step(2)];
    ConservedExactly(run);
  }

  // ---- When an append dereferences null ----

  /** In every run a thread faults at exactly one step: the second load of head,
      when a take has emptied the list since the first. */
  lemma {:induction false} FaultsExactly(run: seq<Action>, a: Action)
    requires !ThreadOf(After(run), a.tid).pc.Fault?
    ensures ThreadOf(After(run + [a]), a.tid).pc.Fault? <==>
      a.Step? && ThreadOf(After(run), a.tid).pc.ReloadHead? && After(run).mem.head.None?
  {
    AfterOne(run, a);
    InvAlways(run);
    assert PcInv(After(run).mem, a.tid, ThreadOf(After(run), a.tid));
  }

  lemma {:induction false} FaultPeek(s: State)
    requires Filled(s) && ThreadOf(s, 2).pc.Idle? && ThreadOf(s, 3).pc.Idle?
    ensures var s' := Apply(Apply(Apply(s, StartAppend(2, 20, 1)), Step(2)), StartTake(3));
      && s'.mem.head == Some(0) && NextOf(s'.mem, 0).None?
      && ThreadOf(s', 2).pc == ReloadHead(1) && ThreadOf(s', 3).pc.TakeHead?
  {
  }

  lemma {:induction false} FaultTake(s: State)
    requires s.mem.head == Some(0) && NextOf(s.mem, 0).None?
    requires ThreadOf(s, 2).pc == ReloadHead(1) && ThreadOf(s, 3).pc.TakeHead?
    ensures var s' := Apply(Apply(Apply(s, Step(3)), Step(3)), Step(3));
      s'.mem.head.None? && ThreadOf(s', 2).pc == ReloadHead(1)
  {
  }

  /** And there is such a run: an append finds a node, a take takes it, the append
      loads head again. */
  lemma {:induction false} AppendFaults() returns (run: seq<Action>)
    ensures ThreadOf(After(run), 2).pc.Fault?
  {
    AfterThree([], StartAppend(1, 10, 0), Step(1), Step(1));
    run := [] + [StartAppend(1, 10, 0), Step(1), Step(1)];
    LostFill();
    AfterThree(run, StartAppend(2, 20, 1), Step(2), StartTake(3));
    FaultPeek(After(run));
    run := run + [StartAppend(2, 20, 1), Step(2), StartTake(3)];
    AfterThree(run, Step(3), Step(3), Step(3));
    FaultTake(After(run));
    run := run + [Step(3), Step(3), Step(3)];
    AfterOne(run, Step(2));
    run := run + [Step(2)];
  }
}
