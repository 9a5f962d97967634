/**
 Invariants of the message list over every run, and the two results about
 conservation: the exact one, and the one for takes that overlap no append.
 */
module LinkedListProofs {
  import opened Wrappers
  import opened LinkedList

  // ---- Invariant of shared memory ----

  ghost predicate Distinct(s: seq<Node>) {
    forall i, j :: 0 <= i < j < |s| ==> s[i] != s[j]
  }

  /** `a` was unlinked by a take that had read `x` as its successor. */
  ghost predicate TookAs(m: Mem, a: Node, x: Node) {
    exists i :: 0 <= i < |m.taken| && i < |m.saw| && m.taken[i] == a && m.saw[i] == Some(x)
  }

  ghost predicate Entered(m: Mem, x: Node) {
    x in m.taken || m.head == Some(x)
  }

  ghost predicate Listed(m: Mem) {
    forall x :: x in m.linked ==> x in m.heap
  }

  ghost predicate Logs(m: Mem) {
    && Listed(m)
    && Distinct(m.linked)
    && (forall x :: x in m.taken ==> x in m.linked)
    && Distinct(m.taken)
    && (m.head.Some? ==> m.head.value in m.linked && m.head.value !in m.taken)
    && |m.saw| == |m.taken|
    && (forall i :: 0 <= i < |m.taken| && m.saw[i].Some? ==> NextOf(m, m.taken[i]) == m.saw[i])
  }

  ghost predicate Edges(m: Mem) {
    && (forall a :: a in m.heap && m.heap[a].next.Some? ==> a in m.linked && m.heap[a].next.value in m.linked)
    && (forall i, j ::
          0 <= i < |m.linked| && 0 <= j < |m.linked| && NextOf(m, m.linked[i]) == Some(m.linked[j]) ==> i < j)
    && (forall a, b ::
          a in m.heap && b in m.heap && m.heap[a].next.Some? && m.heap[a].next == m.heap[b].next ==> a == b)
  }

  ghost predicate Entries(m: Mem) {
    forall a, x :: a in m.heap && m.heap[a].next == Some(x) && Entered(m, x) ==> TookAs(m, a, x)
  }

  function LinkedAt(m: Mem, i: nat): Ptr {
    if i < |m.linked| then Some(m.linked[i]) else None
  }

  /** The linked nodes are the taken ones followed by the chain from head. */
  ghost predicate Split(m: Mem) {
    var k, n := |m.taken|, |m.linked|;
    && k <= n
    && m.taken == m.linked[..k]
    && m.head == LinkedAt(m, k)
    && forall i :: k <= i < n ==> NextOf(m, m.linked[i]) == LinkedAt(m, i + 1)
  }

  ghost predicate MemInv(m: Mem) {
    Logs(m) && Edges(m) && Entries(m) && (Matched(m) ==> Split(m))
  }

  // ---- Invariant of one thread ----

  ghost predicate Private(m: Mem, t: Tid, node: Node) {
    node in m.heap && node !in m.linked && m.heap[node].next == None && m.heap[node].owner == t
  }

  /** No link since number `seen` was made by `t`. */
  ghost predicate OthersSince(m: Mem, t: Tid, seen: nat) {
    seen <= |m.linked| && forall i :: seen <= i < |m.linked| ==> !OwnedBy(m, m.linked[i], t)
  }

  predicate OwnedBy(m: Mem, x: Node, t: Tid) {
    x in m.heap && m.heap[x].owner == t
  }

  /** The cursor stands on a linked node, after at most `steps` steps. */
  ghost predicate Cursor(m: Mem, curr: Node, tries: nat, extra: nat) {
    exists j :: 0 <= j < |m.linked| && m.linked[j] == curr && tries <= 2 * j + extra
  }

  ghost predicate PcInv(m: Mem, t: Tid, th: Thread) {
    match th.pc
    case Idle => true
    case Fault => true
    case LoadHead(node) => Private(m, t, node) && th.tries == 0
    case SwapHead(node, seen) =>
      Private(m, t, node) && th.tries == 1 && OthersSince(m, t, seen) && (m.head.Some? ==> seen < |m.linked|)
    case ReloadHead(node) => Private(m, t, node) && th.tries == 1
    case TestNext(node, curr) => Private(m, t, node) && Cursor(m, curr, th.tries, 2)
    case StepNext(node, curr) =>
      Private(m, t, node) && Cursor(m, curr, th.tries, 3) && NextOf(m, curr).Some?
    case LinkNext(node, curr, seen) =>
      && Private(m, t, node) && Cursor(m, curr, th.tries, 3)
      && OthersSince(m, t, seen) && (NextOf(m, curr).Some? ==> seen < |m.linked|)
    case TakeHead(stamp) => stamp <= |m.linked|
    case ReadNext(first, stamp) => stamp <= |m.linked| && first in m.linked
    case Unlink(first, next, stamp) =>
      stamp <= |m.linked| && first in m.linked && (next.Some? ==> NextOf(m, first) == next)
  }

  /** The links a thread's failed exchanges are charged to are all different
      and all made by other threads. */
  ghost predicate Charged(m: Mem, t: Tid, charges: seq<nat>) {
    && (forall i :: 0 <= i < |charges| ==> charges[i] < |m.linked| && !OwnedBy(m, m.linked[charges[i]], t))
    && (forall i, j :: 0 <= i < j < |charges| ==> charges[i] < charges[j])
  }

  ghost predicate ChargedBefore(charges: seq<nat>, seen: nat) {
    forall i :: 0 <= i < |charges| ==> charges[i] < seen
  }

  /** Values of the nodes thread `t` has linked, in link order. */
  function ValuesOf(heap: map<Node, Cell>, linked: seq<Node>, t: Tid): seq<Value> {
    if linked == [] then []
    else
      var x, front := linked[|linked| - 1], linked[..|linked| - 1];
      ValuesOf(heap, front, t) + if x in heap && heap[x].owner == t then [heap[x].val] else []
  }

  function Pending(m: Mem, th: Thread): seq<Value> {
    if th.pc.LoadHead? || th.pc.SwapHead? || th.pc.ReloadHead? || th.pc.TestNext? || th.pc.StepNext? || th.pc.LinkNext?
    then if th.pc.node in m.heap then [m.heap[th.pc.node].val] else []
    else []
  }

  ghost predicate ThreadInv(m: Mem, t: Tid, th: Thread) {
    && PcInv(m, t, th)
    && Charged(m, t, th.charges)
    && (th.pc.SwapHead? || th.pc.LinkNext? ==> ChargedBefore(th.charges, th.pc.seen))
    && (!th.pc.Fault? ==> ValuesOf(m.heap, m.linked, t) + Pending(m, th) == th.called)
  }

  ghost predicate Inv(s: State) {
    MemInv(s.mem) && forall t: Tid :: ThreadInv(s.mem, t, ThreadOf(s, t))
  }

  // ---- Each memory change keeps the invariant of memory ----

  lemma {:induction false} AllocKeepsMem(m: Mem, t: Tid, v: Value, n: Node)
    requires MemInv(m) && n !in m.heap
    ensures MemInv(Alloc(m, t, v, n))
  {
    var m' := Alloc(m, t, v, n);
    assert forall x :: x in m.linked ==> NextOf(m', x) == NextOf(m, x);
    assert Logs(m');
    assert Edges(m');
    AllocKeepsEntries(m, t, v, n);
    if Matched(m') {
      forall i | 0 <= i < |m.taken| ensures NextOf(m, m.taken[i]) == m.saw[i] {
        assert m.taken[i] in m.taken;
      }
    }
  }

  lemma {:induction false} AllocKeepsEntries(m: Mem, t: Tid, v: Value, n: Node)
    requires Entries(m) && n !in m.heap
    ensures Entries(Alloc(m, t, v, n))
  {
    var m' := Alloc(m, t, v, n);
    forall a, x | a in m'.heap && m'.heap[a].next == Some(x) && Entered(m', x) ensures TookAs(m', a, x) {
      assert TookAs(m, a, x);
    }
  }

  lemma {:induction false} LinkFirstKeepsMem(m: Mem, t: Tid, node: Node)
    requires MemInv(m) && m.head.None? && Private(m, t, node)
    ensures MemInv(LinkFirst(m, node))
  {
    var m' := LinkFirst(m, node);
    LinkFirstKeepsLogs(m, t, node);
    LinkFirstKeepsEdges(m, t, node);
    LinkFirstKeepsEntries(m, t, node);
    if Matched(m') {
      assert Matched(m) && Split(m);
    }
  }

  lemma {:induction false} LinkFirstKeepsLogs(m: Mem, t: Tid, node: Node)
    requires Logs(m) && Private(m, t, node)
    ensures Logs(LinkFirst(m, node))
  {
  }

  lemma {:induction false} LinkFirstKeepsEdges(m: Mem, t: Tid, node: Node)
    requires Logs(m) && Edges(m) && Private(m, t, node)
    ensures Edges(LinkFirst(m, node))
  {
    var m', n := LinkFirst(m, node), |m.linked|;
    forall i, j | 0 <= i <= n && 0 <= j <= n && NextOf(m', m'.linked[i]) == Some(m'.linked[j]) ensures i < j {
      assert m'.linked[j] in m.linked;
    }
  }

  lemma {:induction false} LinkFirstKeepsEntries(m: Mem, t: Tid, node: Node)
    requires Logs(m) && Edges(m) && Entries(m) && m.head.None? && Private(m, t, node)
    ensures Entries(LinkFirst(m, node))
  {
    var m' := LinkFirst(m, node);
    forall a, x | a in m'.heap && m'.heap[a].next == Some(x) && Entered(m', x) ensures TookAs(m', a, x) {
      assert x != node;
      assert TookAs(m, a, x);
    }
  }

  lemma {:induction false} LinkAfterKeepsLogs(m: Mem, t: Tid, curr: Node, node: Node)
    requires Logs(m) && Private(m, t, node) && curr in m.linked && NextOf(m, curr).None?
    ensures Logs(LinkAfter(m, curr, node))
  {
  }

  lemma {:induction false} LinkAfterKeepsEdges(m: Mem, t: Tid, curr: Node, node: Node)
    requires Logs(m) && Edges(m) && Private(m, t, node) && curr in m.linked && NextOf(m, curr).None?
    ensures Edges(LinkAfter(m, curr, node))
  {
    var m', n := LinkAfter(m, curr, node), |m.linked|;
    forall i, j | 0 <= i <= n && 0 <= j <= n && NextOf(m', m'.linked[i]) == Some(m'.linked[j]) ensures i < j {
      if j == n {
        assert m'.linked[i] == curr;
      } else {
        assert m'.linked[j] in m.linked;
        assert m'.linked[i] != curr;
      }
    }
  }

  lemma {:induction false} LinkAfterKeepsEntries(m: Mem, t: Tid, curr: Node, node: Node)
    requires Logs(m) && Edges(m) && Entries(m) && Private(m, t, node) && curr in m.linked && NextOf(m, curr).None?
    ensures Entries(LinkAfter(m, curr, node))
  {
    var m' := LinkAfter(m, curr, node);
    forall a, x | a in m'.heap && m'.heap[a].next == Some(x) && Entered(m', x) ensures TookAs(m', a, x) {
      assert x != node;
      assert TookAs(m, a, x);
    }
  }

  /** A link behind a taken node breaks the match, since its take read null. */
  lemma {:induction false} LinkAfterKeepsMatch(m: Mem, curr: Node, node: Node)
    requires Matched(LinkAfter(m, curr, node)) && curr in m.heap && NextOf(m, curr).None?
    requires forall i :: 0 <= i < |m.taken| && m.saw[i].Some? ==> NextOf(m, m.taken[i]) == m.saw[i]
    ensures Matched(m) && curr !in m.taken
  {
    var m' := LinkAfter(m, curr, node);
    forall i | 0 <= i < |m.taken| ensures m.taken[i] != curr && NextOf(m, m.taken[i]) == m.saw[i] {
      assert NextOf(m', m.taken[i]) == m.saw[i];
    }
  }

  lemma {:induction false} LinkAfterKeepsSplit(m: Mem, curr: Node, node: Node)
    requires Split(m) && Distinct(m.linked) && curr !in m.taken && node !in m.linked && NextOf(m, node).None?
    requires curr in m.linked && curr in m.heap && NextOf(m, curr).None?
    ensures Split(LinkAfter(m, curr, node))
  {
    var m' := LinkAfter(m, curr, node);
    var j :| 0 <= j < |m.linked| && m.linked[j] == curr;
    assert j >= |m.taken|;
    assert j == |m.linked| - 1;
    forall i | |m.taken| <= i < |m'.linked| ensures NextOf(m', m'.linked[i]) == LinkedAt(m', i + 1) {
      if i < j { assert NextOf(m, m.linked[i]) == LinkedAt(m, i + 1) && m.linked[i] != curr; }
    }
  }

  lemma {:induction false} UnlinkFirstKeepsLogs(m: Mem, next: Ptr)
    requires Logs(m) && Edges(m) && Entries(m) && m.head.Some? && (next.Some? ==> NextOf(m, m.head.value) == next)
    ensures Logs(UnlinkFirst(m, m.head.value, next))
  {
    var first := m.head.value;
    var m' := UnlinkFirst(m, first, next);
    if next.Some? {
      assert !TookAs(m, first, next.value);
      assert next.value != first by {
        var i :| 0 <= i < |m.linked| && m.linked[i] == first;
        assert NextOf(m, m.linked[i]) == Some(m.linked[i]) ==> i < i;
      }
    }
  }

  lemma {:induction false} UnlinkFirstKeepsEntries(m: Mem, next: Ptr)
    requires Logs(m) && Edges(m) && Entries(m) && m.head.Some? && (next.Some? ==> NextOf(m, m.head.value) == next)
    ensures Entries(UnlinkFirst(m, m.head.value, next))
  {
    var first, k := m.head.value, |m.taken|;
    var m' := UnlinkFirst(m, first, next);
    forall a, x | a in m'.heap && m'.heap[a].next == Some(x) && Entered(m', x) ensures TookAs(m', a, x) {
      if Entered(m, x) {
        assert TookAs(m, a, x);
        var i :| 0 <= i < k && m.taken[i] == a && m.saw[i] == Some(x);
        assert m'.taken[i] == a && m'.saw[i] == Some(x);
      } else {
        assert next == Some(x);
        assert a == first;
        assert m'.taken[k] == a && m'.saw[k] == Some(x);
      }
    }
  }

  lemma {:induction false} UnlinkFirstKeepsSplit(m: Mem, next: Ptr)
    requires Logs(m) && m.head.Some?
    requires Matched(m) ==> Split(m)
    requires Matched(UnlinkFirst(m, m.head.value, next))
    ensures Split(UnlinkFirst(m, m.head.value, next))
  {
    var m', k := UnlinkFirst(m, m.head.value, next), |m.taken|;
    forall i | 0 <= i < k ensures NextOf(m, m.taken[i]) == m.saw[i] {
      assert m'.taken[i] == m.taken[i] && m'.saw[i] == m.saw[i];
    }
    assert m'.taken[k] == m.head.value && m'.saw[k] == next;
    assert NextOf(m', m'.taken[k]) == next;
    assert m.linked[..k + 1] == m.linked[..k] + [m.linked[k]];
  }

  lemma {:induction false} LinkAfterKeepsMem(m: Mem, t: Tid, curr: Node, node: Node)
    requires MemInv(m) && Private(m, t, node) && curr in m.linked && NextOf(m, curr).None?
    ensures MemInv(LinkAfter(m, curr, node))
  {
    LinkAfterKeepsLogs(m, t, curr, node);
    LinkAfterKeepsEdges(m, t, curr, node);
    LinkAfterKeepsEntries(m, t, curr, node);
    if Matched(LinkAfter(m, curr, node)) {
      LinkAfterKeepsMatch(m, curr, node);
      LinkAfterKeepsSplit(m, curr, node);
    }
  }

  lemma {:induction false} UnlinkFirstKeepsMem(m: Mem, next: Ptr)
    requires MemInv(m) && m.head.Some? && (next.Some? ==> NextOf(m, m.head.value) == next)
    ensures MemInv(UnlinkFirst(m, m.head.value, next))
  {
    UnlinkFirstKeepsLogs(m, next);
    UnlinkFirstKeepsEntries(m, next);
    if Matched(UnlinkFirst(m, m.head.value, next)) { UnlinkFirstKeepsSplit(m, next); }
  }

  // ---- Memory changes made by other threads keep a thread's invariant ----

  /** What any number of steps of threads other than `t` may do to memory. */
  ghost predicate Grows(m: Mem, m': Mem, t: Tid) {
    && m.linked <= m'.linked
    && (forall i :: |m.linked| <= i < |m'.linked| ==> !OwnedBy(m', m'.linked[i], t))
    && (forall x :: x in m.heap ==> CellGrows(m, m', x))
    && (m.head.None? && m'.head.Some? ==> |m.linked| < |m'.linked|)
  }

  ghost predicate CellGrows(m: Mem, m': Mem, x: Node)
    requires x in m.heap
  {
    && x in m'.heap && m'.heap[x].owner == m.heap[x].owner && m'.heap[x].val == m.heap[x].val
    && (m'.heap[x].next == m.heap[x].next ||
        (m.heap[x].next.None? && x in m.linked && |m.linked| < |m'.linked|))
  }

  lemma {:induction false} ValuesGrow(h: map<Node, Cell>, h': map<Node, Cell>, linked: seq<Node>,
      more: seq<Node>, t: Tid)
    requires forall x :: x in linked ==> x in h && x in h' && h[x].owner == h'[x].owner && h[x].val == h'[x].val
    requires forall x :: x in more ==> x !in h' || h'[x].owner != t
    ensures ValuesOf(h', linked + more, t) == ValuesOf(h, linked, t)
    decreases |linked| + |more|
  {
    if more != [] {
      assert (linked + more)[..|linked + more| - 1] == linked + more[..|more| - 1];
      ValuesGrow(h, h', linked, more[..|more| - 1], t);
    } else if linked != [] {
      assert linked + more == linked;
      ValuesGrow(h, h', linked[..|linked| - 1], [], t);
      assert linked[..|linked| - 1] + [] == linked[..|linked| - 1];
    }
  }

  lemma {:induction false} PrivateStable(m: Mem, m': Mem, t: Tid, node: Node)
    requires Grows(m, m', t) && Private(m, t, node)
    ensures Private(m', t, node)
  {
    assert CellGrows(m, m', node);
    assert forall i :: 0 <= i < |m.linked| ==> m'.linked[i] == m.linked[i];
  }

  lemma {:induction false} CursorStable(m: Mem, m': Mem, t: Tid, curr: Node, tries: nat, extra: nat)
    requires Grows(m, m', t) && Cursor(m, curr, tries, extra)
    ensures Cursor(m', curr, tries, extra)
  {
    var j :| 0 <= j < |m.linked| && m.linked[j] == curr && tries <= 2 * j + extra;
    assert m'.linked[j] == curr;
  }

  lemma {:induction false} PcStable(m: Mem, m': Mem, t: Tid, th: Thread)
    requires Grows(m, m', t) && PcInv(m, t, th)
    requires Listed(m)
    ensures PcInv(m', t, th)
  {
    match th.pc
    case Idle =>
    case Fault =>
    case LoadHead(node) => PrivateStable(m, m', t, node);
    case SwapHead(node, seen) => PrivateStable(m, m', t, node); OthersSinceStable(m, m', t, seen);
    case ReloadHead(node) => PrivateStable(m, m', t, node);
    case TestNext(node, curr) => PrivateStable(m, m', t, node); CursorStable(m, m', t, curr, th.tries, 2);
    case StepNext(node, curr) =>
      PrivateStable(m, m', t, node); CursorStable(m, m', t, curr, th.tries, 3);
      assert CellGrows(m, m', curr);
    case LinkNext(node, curr, seen) =>
      PrivateStable(m, m', t, node); CursorStable(m, m', t, curr, th.tries, 3); OthersSinceStable(m, m', t, seen);
      assert CellGrows(m, m', curr);
    case TakeHead(stamp) =>
    case ReadNext(first, stamp) => assert first in m'.linked;
    case Unlink(first, next, stamp) => assert first in m'.linked && CellGrows(m, m', first);
  }

  lemma {:induction false} OthersSinceStable(m: Mem, m': Mem, t: Tid, seen: nat)
    requires Grows(m, m', t) && OthersSince(m, t, seen)
    requires Listed(m)
    ensures OthersSince(m', t, seen)
  {
    forall i | seen <= i < |m'.linked| ensures !OwnedBy(m', m'.linked[i], t) {
      if i < |m.linked| {
        assert m.linked[i] in m.linked && m'.linked[i] == m.linked[i];
        assert CellGrows(m, m', m.linked[i]);
      }
    }
  }

  lemma {:induction false} ThreadStable(m: Mem, m': Mem, t: Tid, th: Thread)
    requires Listed(m) && Grows(m, m', t) && ThreadInv(m, t, th)
    ensures ThreadInv(m', t, th)
  {
    PcStable(m, m', t, th);
    ChargedStable(m, m', t, th.charges);
    var more := m'.linked[|m.linked|..];
    assert m'.linked == m.linked + more;
    forall x | x in more ensures x !in m'.heap || m'.heap[x].owner != t {
      var i :| 0 <= i < |more| && more[i] == x;
      assert m'.linked[|m.linked| + i] == x;
    }
    forall x | x in m.linked
      ensures x in m.heap && x in m'.heap && m.heap[x].owner == m'.heap[x].owner && m.heap[x].val == m'.heap[x].val
    {
      assert CellGrows(m, m', x);
    }
    ValuesGrow(m.heap, m'.heap, m.linked, more, t);
    if Pending(m, th) != [] {
      assert CellGrows(m, m', th.pc.node);
    }
  }

  lemma {:induction false} ChargedStable(m: Mem, m': Mem, t: Tid, charges: seq<nat>)
    requires Listed(m) && Grows(m, m', t) && Charged(m, t, charges)
    ensures Charged(m', t, charges)
  {
    forall i | 0 <= i < |charges| ensures charges[i] < |m'.linked| && !OwnedBy(m', m'.linked[charges[i]], t) {
      var x := m.linked[charges[i]];
      assert x in m.linked;
      assert CellGrows(m, m', x);
    }
  }

  // ---- A step keeps the invariant ----

  lemma {:induction false} StepKeepsMem(m: Mem, t: Tid, th: Thread)
    requires MemInv(m) && PcInv(m, t, th)
    ensures MemInv(StepThread(m, th).0)
  {
    match th.pc
    case SwapHead(node, seen) => if m.head.None? { LinkFirstKeepsMem(m, t, node); }
    case LinkNext(node, curr, seen) => if NextOf(m, curr).None? { LinkAfterKeepsMem(m, t, curr, node); }
    case Unlink(first, next, stamp) => if m.head == Some(first) { UnlinkFirstKeepsMem(m, next); }
    case _ =>
  }

  lemma {:induction false} StepGrows(m: Mem, t: Tid, th: Thread, u: Tid)
    requires Listed(m) && PcInv(m, t, th) && u != t
    ensures Grows(m, StepThread(m, th).0, u)
  {
    if th.pc.LinkNext? && NextOf(m, th.pc.curr).None? {
      LinkAfterGrows(m, t, th.pc.curr, th.pc.node, u);
    }
  }

  lemma {:induction false} LinkAfterGrows(m: Mem, t: Tid, curr: Node, node: Node, u: Tid)
    requires curr in m.linked && curr in m.heap && m.heap[curr].next.None? && Private(m, t, node) && u != t
    ensures Grows(m, LinkAfter(m, curr, node), u)
  {
  }

  /** A thread's own link moves its pending value to the end of its values. */
  lemma {:induction false} OwnLinkMovesValue(m: Mem, m': Mem, t: Tid, th: Thread)
    requires Listed(m) && (th.pc.SwapHead? || th.pc.LinkNext?) && Private(m, t, th.pc.node)
    requires SameCells(m, m') && m'.linked == m.linked + [th.pc.node]
    ensures ValuesOf(m'.heap, m'.linked, t) == ValuesOf(m.heap, m.linked, t) + Pending(m, th)
  {
    ValuesGrow(m.heap, m'.heap, m.linked, [], t);
    assert m.linked + [] == m.linked;
    assert m'.linked[..|m'.linked| - 1] == m.linked;
  }

  lemma {:induction false} OwnLinkKeepsCharges(m: Mem, m': Mem, t: Tid, charges: seq<nat>)
    requires Listed(m) && SameCells(m, m') && m.linked <= m'.linked && Charged(m, t, charges)
    ensures Charged(m', t, charges)
  {
    forall i | 0 <= i < |charges| ensures !OwnedBy(m', m'.linked[charges[i]], t) {
      assert m.linked[charges[i]] in m.linked && m'.linked[charges[i]] == m.linked[charges[i]];
    }
  }

  ghost predicate SameCells(m: Mem, m': Mem) {
    forall x :: x in m.heap ==> x in m'.heap && m'.heap[x].owner == m.heap[x].owner && m'.heap[x].val == m.heap[x].val
  }

  lemma {:induction false} OwnLinkKeepsThread(m: Mem, m': Mem, t: Tid, th: Thread)
    requires Listed(m) && ThreadInv(m, t, th) && (th.pc.SwapHead? || th.pc.LinkNext?)
    requires SameCells(m, m') && m'.linked == m.linked + [th.pc.node]
    ensures ThreadInv(m', t, Go(th, Idle))
  {
    OwnLinkMovesValue(m, m', t, th);
    OwnLinkKeepsCharges(m, m', t, th.charges);
  }

  /** A failed exchange is charged to the first link made since the thread saw
      null: that link exists, and another thread made it. */
  lemma {:induction false} RetryKeepsThread(m: Mem, t: Tid, th: Thread)
    requires ThreadInv(m, t, th) && (th.pc.SwapHead? || th.pc.LinkNext?)
    requires th.pc.seen < |m.linked|
    ensures ThreadInv(m, t, Retry(th, th.pc.node, th.pc.seen))
  {
  }

  lemma {:induction false} LoadKeepsPc(m: Mem, t: Tid, th: Thread)
    requires Edges(m) && (m.head.Some? ==> m.head.value in m.linked) && PcInv(m, t, th)
    requires th.pc.LoadHead? || th.pc.ReloadHead? || th.pc.TestNext? || th.pc.StepNext?
    ensures PcInv(m, t, StepThread(m, th).1)
  {
    match th.pc
    case LoadHead(node) =>
    case ReloadHead(node) => if m.head.Some? { StartCursor(m, m.head.value); }
    case TestNext(node, curr) => MoveCursor(m, curr, th.tries);
    case StepNext(node, curr) => AdvanceCursor(m, curr, th.tries);
  }

  lemma {:induction false} StartCursor(m: Mem, curr: Node)
    requires curr in m.linked
    ensures Cursor(m, curr, 2, 2)
  {
  }

  lemma {:induction false} MoveCursor(m: Mem, curr: Node, tries: nat)
    requires Cursor(m, curr, tries, 2)
    ensures Cursor(m, curr, tries + 1, 3)
  {
    var j :| 0 <= j < |m.linked| && m.linked[j] == curr && tries <= 2 * j + 2;
    assert tries + 1 <= 2 * j + 3;
  }

  lemma {:induction false} AdvanceCursor(m: Mem, curr: Node, tries: nat)
    requires Edges(m) && Cursor(m, curr, tries, 3) && NextOf(m, curr).Some?
    ensures Cursor(m, NextOf(m, curr).value, tries + 1, 2)
  {
    var j :| 0 <= j < |m.linked| && m.linked[j] == curr && tries <= 2 * j + 3;
    var next := NextOf(m, curr).value;
    assert next in m.linked;
    var i :| 0 <= i < |m.linked| && m.linked[i] == next;
    assert NextOf(m, m.linked[j]) == Some(m.linked[i]);
    assert j < i && tries + 1 <= 2 * i + 2;
  }

  lemma {:induction false} LoadKeepsThread(m: Mem, t: Tid, th: Thread)
    requires Edges(m) && (m.head.Some? ==> m.head.value in m.linked) && ThreadInv(m, t, th)
    requires th.pc.LoadHead? || th.pc.ReloadHead? || th.pc.TestNext? || th.pc.StepNext?
    ensures ThreadInv(m, t, StepThread(m, th).1)
  {
    LoadKeepsPc(m, t, th);
  }

  lemma {:induction false} ExchangeKeepsThread(m: Mem, t: Tid, th: Thread)
    requires Listed(m) && ThreadInv(m, t, th) && (th.pc.SwapHead? || th.pc.LinkNext?)
    ensures ThreadInv(StepThread(m, th).0, t, StepThread(m, th).1)
  {
    var m' := StepThread(m, th).0;
    if m'.linked == m.linked {
      RetryKeepsThread(m, t, th);
    } else {
      OwnLinkKeepsThread(m, m', t, th);
    }
  }

  lemma {:induction false} TakeKeepsThread(m: Mem, t: Tid, th: Thread)
    requires ThreadInv(m, t, th) && (m.head.Some? ==> m.head.value in m.linked)
    requires th.pc.TakeHead? || th.pc.ReadNext? || th.pc.Unlink?
    ensures ThreadInv(StepThread(m, th).0, t, StepThread(m, th).1)
  {
  }

  lemma {:induction false} StepKeepsThread(m: Mem, t: Tid, th: Thread)
    requires Edges(m) && Listed(m) && (m.head.Some? ==> m.head.value in m.linked) && ThreadInv(m, t, th)
    ensures ThreadInv(StepThread(m, th).0, t, StepThread(m, th).1)
  {
    if th.pc.SwapHead? || th.pc.LinkNext? {
      ExchangeKeepsThread(m, t, th);
    } else if th.pc.TakeHead? || th.pc.ReadNext? || th.pc.Unlink? {
      TakeKeepsThread(m, t, th);
    } else if !th.pc.Idle? && !th.pc.Fault? {
      LoadKeepsThread(m, t, th);
    }
  }

  lemma {:induction false} StartAppendKeepsThread(m: Mem, t: Tid, th: Thread, v: Value, n: Node)
    requires Listed(m) && ThreadInv(m, t, th) && th.pc.Idle? && n !in m.heap
    ensures ThreadInv(Alloc(m, t, v, n), t, th.(pc := LoadHead(n), called := th.called + [v], tries := 0))
  {
    var m' := Alloc(m, t, v, n);
    ValuesGrow(m.heap, m'.heap, m.linked, [], t);
    assert m.linked + [] == m.linked;
    OwnLinkKeepsCharges(m, m', t, th.charges);
  }

  lemma {:induction false} AllocGrows(m: Mem, t: Tid, v: Value, n: Node, u: Tid)
    requires n !in m.heap
    ensures Grows(m, Alloc(m, t, v, n), u)
  {
  }

  lemma {:induction false} ApplyKeepsMem(s: State, a: Action)
    requires MemInv(s.mem) && PcInv(s.mem, a.tid, ThreadOf(s, a.tid))
    ensures MemInv(Apply(s, a).mem)
  {
    var m, th := s.mem, ThreadOf(s, a.tid);
    if a.StartAppend? {
      if th.pc.Idle? && a.node !in m.heap { AllocKeepsMem(m, a.tid, a.val, a.node); }
    } else if a.Step? {
      StepKeepsMem(m, a.tid, th);
    }
  }

  /** The acting thread's invariant is kept. */
  lemma {:induction false} ApplyKeepsThread(s: State, a: Action)
    requires Edges(s.mem) && Listed(s.mem) && (s.mem.head.Some? ==> s.mem.head.value in s.mem.linked)
    requires ThreadInv(s.mem, a.tid, ThreadOf(s, a.tid))
    ensures ThreadInv(Apply(s, a).mem, a.tid, ThreadOf(Apply(s, a), a.tid))
  {
    var m, th := s.mem, ThreadOf(s, a.tid);
    if a.StartAppend? {
      if th.pc.Idle? && a.node !in m.heap { StartAppendKeepsThread(m, a.tid, th, a.val, a.node); }
    } else if a.Step? {
      StepKeepsThread(m, a.tid, th);
    }
  }

  /** To every other thread the step is one it may see. */
  lemma {:induction false} ApplyGrows(s: State, a: Action, u: Tid)
    requires Listed(s.mem) && PcInv(s.mem, a.tid, ThreadOf(s, a.tid)) && u != a.tid
    ensures Grows(s.mem, Apply(s, a).mem, u)
  {
    var m, th := s.mem, ThreadOf(s, a.tid);
    if a.StartAppend? {
      if th.pc.Idle? && a.node !in m.heap { AllocGrows(m, a.tid, a.val, a.node, u); }
    } else if a.Step? {
      StepGrows(m, a.tid, th, u);
    }
  }

  lemma {:induction false} ApplyKeepsInv(s: State, a: Action)
    requires Inv(s)
    ensures Inv(Apply(s, a))
  {
    var s' := Apply(s, a);
    assert ThreadInv(s.mem, a.tid, ThreadOf(s, a.tid));
    assert MemInv(s'.mem) by { ApplyKeepsMem(s, a); }
    forall u: Tid ensures ThreadInv(s'.mem, u, ThreadOf(s', u)) {
      if u == a.tid {
        ApplyKeepsThread(s, a);
      } else {
        assert ThreadInv(s.mem, u, ThreadOf(s, u));
        ApplyGrows(s, a, u);
        ThreadStable(s.mem, s'.mem, u, ThreadOf(s, u));
      }
    }
  }

  lemma {:induction false} InvAlways(run: seq<Action>)
    ensures Inv(After(run))
  {
    if run != [] {
      InvAlways(run[..|run| - 1]);
      ApplyKeepsInv(After(run[..|run| - 1]), run[|run| - 1]);
    }
  }
}
