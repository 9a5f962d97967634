/**
 The lock-free message list, as a transition system with one step per atomic
 load or compare-exchange.  Any number of threads run any number of appends
 and takes; nodes are never reused and reads of an unlinked node see its last
 contents.

 `Mem` holds the shared memory (`head`, `heap`) and three logs: the nodes in
 the order they were linked, the nodes in the order they were unlinked, and
 the `next` value each unlinking take had read.
 */
module LinkedList {
  import opened Wrappers

  type Node = nat
  type Tid = nat
  type Value = int
  type Ptr = Option<Node>

  datatype Cell = Cell(val: Value, owner: Tid, next: Ptr)

  datatype Mem = Mem(head: Ptr, heap: map<Node, Cell>, linked: seq<Node>, taken: seq<Node>, saw: seq<Ptr>)

  /** Where a thread stands: the atomic access it performs next.  `seen` is the
      number of links made when the thread saw the null it now tries to replace;
      `stamp` is the number of links made when the take was called. */
  datatype Pc =
    | Idle
    | LoadHead(node: Node)
    | SwapHead(node: Node, seen: nat)
    | ReloadHead(node: Node)
    | TestNext(node: Node, curr: Node)
    | StepNext(node: Node, curr: Node)
    | LinkNext(node: Node, curr: Node, seen: nat)
    | Fault
    | TakeHead(stamp: nat)
    | ReadNext(first: Node, stamp: nat)
    | Unlink(first: Node, next: Ptr, stamp: nat)

  /** `called`: values passed to append so far; `charges`: for each failed
      exchange, the number of the link it is charged to; `tries`: atomic steps
      since the current append was called or last retried. */
  datatype Thread = Thread(pc: Pc, called: seq<Value>, charges: seq<nat>, tries: nat)

  datatype State = State(mem: Mem, threads: map<Tid, Thread>)

  datatype Action =
    | StartAppend(tid: Tid, val: Value, node: Node)
    | StartTake(tid: Tid)
    | Step(tid: Tid)

  const NEW_THREAD := Thread(Idle, [], [], 0)
  const INIT := State(Mem(None, map[], [], [], []), map[])

  function ThreadOf(s: State, t: Tid): Thread {
    if t in s.threads then s.threads[t] else NEW_THREAD
  }

  function NextOf(m: Mem, p: Node): Ptr {
    if p in m.heap then m.heap[p].next else None
  }

  // ---- The four ways shared memory changes ----

  function Alloc(m: Mem, t: Tid, v: Value, n: Node): Mem {
    m.(heap := m.heap[n := Cell(v, t, None)])
  }

  function LinkFirst(m: Mem, node: Node): Mem {
    m.(head := Some(node), linked := m.linked + [node])
  }

  function LinkAfter(m: Mem, curr: Node, node: Node): Mem {
    if curr !in m.heap then m
    else m.(heap := m.heap[curr := m.heap[curr].(next := Some(node))], linked := m.linked + [node])
  }

  function UnlinkFirst(m: Mem, first: Node, next: Ptr): Mem {
    m.(head := next, taken := m.taken + [first], saw := m.saw + [next])
  }

  // ---- One atomic step of a thread ----

  function Go(th: Thread, pc: Pc): Thread {
    th.(pc := pc, tries := th.tries + 1)
  }

  function Retry(th: Thread, node: Node, seen: nat): Thread {
    th.(pc := LoadHead(node), charges := th.charges + [seen], tries := 0)
  }

  function StepThread(m: Mem, th: Thread): (Mem, Thread) {
    match th.pc
    case Idle => (m, th)
    case Fault => (m, th)
    case LoadHead(node) =>
      (m, Go(th, if m.head.None? then SwapHead(node, |m.linked|) else ReloadHead(node)))
    case SwapHead(node, seen) =>
      if m.head.None? then (LinkFirst(m, node), Go(th, Idle)) else (m, Retry(th, node, seen))
    case ReloadHead(node) =>
      (m, Go(th, if m.head.None? then Fault else TestNext(node, m.head.value)))
    case TestNext(node, curr) =>
      (m, Go(th, if NextOf(m, curr).None? then LinkNext(node, curr, |m.linked|) else StepNext(node, curr)))
    case StepNext(node, curr) =>
      (m, Go(th, if NextOf(m, curr).None? then Fault else TestNext(node, NextOf(m, curr).value)))
    case LinkNext(node, curr, seen) =>
      if NextOf(m, curr).None? then (LinkAfter(m, curr, node), Go(th, Idle)) else (m, Retry(th, node, seen))
    case TakeHead(stamp) =>
      (m, Go(th, if m.head.None? then Idle else ReadNext(m.head.value, stamp)))
    case ReadNext(first, stamp) =>
      (m, Go(th, Unlink(first, NextOf(m, first), stamp)))
    case Unlink(first, next, stamp) =>
      (if m.head == Some(first) then UnlinkFirst(m, first, next) else m, Go(th, Idle))
  }

  /** An action that is not possible in `s` leaves it unchanged, so every
      sequence of actions is a run. */
  function Apply(s: State, a: Action): State {
    var th := ThreadOf(s, a.tid);
    match a
    case StartAppend(t, v, n) =>
      if th.pc != Idle || n in s.mem.heap then s
      else State(Alloc(s.mem, t, v, n),
                 s.threads[t := th.(pc := LoadHead(n), called := th.called + [v], tries := 0)])
    case StartTake(t) =>
      if th.pc != Idle then s else State(s.mem, s.threads[t := th.(pc := TakeHead(|s.mem.linked|), tries := 0)])
    case Step(t) =>
      var (m', th') := StepThread(s.mem, th);
      State(m', s.threads[t := th'])
  }

  function After(run: seq<Action>): State {
    if run == [] then INIT else Apply(After(run[..|run| - 1]), run[|run| - 1])
  }

  // ---- What a run should keep ----

  /** `c` is the list of nodes met by following `next` from `p` to null. */
  ghost predicate IsChain(heap: map<Node, Cell>, p: Ptr, c: seq<Node>)
    decreases |c|
  {
    match p
    case None => c == []
    case Some(n) => c != [] && c[0] == n && n in heap && IsChain(heap, heap[n].next, c[1..])
  }

  /** Nothing lost, duplicated or reordered: the nodes unlinked, in order,
      followed by the chain from head are the nodes linked, in order. */
  ghost predicate Conserved(m: Mem) {
    exists c :: IsChain(m.heap, m.head, c) && m.taken + c == m.linked
  }

  /** Every unlinked node still has the `next` its take had read. */
  ghost predicate Matched(m: Mem) {
    |m.saw| == |m.taken| && forall i :: 0 <= i < |m.taken| ==> NextOf(m, m.taken[i]) == m.saw[i]
  }

  /** A successful head exchange of a take either swings to a non-null `next`
      or happens while no append has been in progress since the take began:
      every node ever allocated was linked before the take was called. */
  predicate CalmStep(s: State, a: Action) {
    a.Step? ==>
      var pc := ThreadOf(s, a.tid).pc;
      pc.Unlink? && s.mem.head == Some(pc.first) ==> pc.next.Some? || |s.mem.heap| == pc.stamp
  }

  predicate Calm(run: seq<Action>) {
    run == [] ||
    var front := run[..|run| - 1];
    Calm(front) && CalmStep(After(front), run[|run| - 1])
  }
}
