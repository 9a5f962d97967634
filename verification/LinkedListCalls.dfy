/**
 What one call to the message list does: every take of every run, and takes and
 appends that run alone on a list of any length.
 */
module LinkedListCalls {
  import opened Wrappers
  import opened LinkedList
  import opened LinkedListProofs
  import opened LinkedListResults

  // ---- Runs continued ----

  function Onwards(s: State, acts: seq<Action>): State
    decreases |acts|
  {
    if acts == [] then s else Onwards(Apply(s, acts[0]), acts[1..])
  }

  lemma {:induction false} AfterMore(run: seq<Action>, acts: seq<Action>)
    ensures After(run + acts) == Onwards(After(run), acts)
    decreases |acts|
  {
    if acts == [] {
      assert run + acts == run;
    } else {
      AfterOne(run, acts[0]);
      AfterMore(run + [acts[0]], acts[1..]);
      assert run + [acts[0]] + acts[1..] == run + acts;
    }
  }

  /** `n` atomic steps of thread `t`. */
  function Steps(t: Tid, n: nat): seq<Action> {
    if n == 0 then [] else [Step(t)] + Steps(t, n - 1)
  }

  lemma {:induction false} StepOn(s: State, t: Tid, n: nat)
    requires n > 0
    ensures Onwards(s, Steps(t, n)) == Onwards(Apply(s, Step(t)), Steps(t, n - 1))
  {
    assert Steps(t, n)[1..] == Steps(t, n - 1);
  }

  // ---- Takes that run alone ----

  function TakeAlone(t: Tid): seq<Action> {
    [StartTake(t)] + Steps(t, 3)
  }

  /** Thread `t` is idle, and the nodes `front` have been taken out since `m`. */
  ghost predicate TookFront(s: State, m: Mem, t: Tid, front: seq<Node>) {
    && s.mem.taken == m.taken + front && s.mem.heap == m.heap && s.mem.linked == m.linked
    && ThreadOf(s, t).pc.Idle?
  }

  lemma {:induction false} ThreeSteps(s: State, t: Tid)
    ensures Onwards(s, Steps(t, 3)) == Apply(Apply(Apply(s, Step(t)), Step(t)), Step(t))
  {
    StepOn(s, t, 3);
    StepOn(Apply(s, Step(t)), t, 2);
    StepOn(Apply(Apply(s, Step(t)), Step(t)), t, 1);
  }

  lemma {:induction false} TakeSteps(s: State, t: Tid)
    requires ThreadOf(s, t).pc.Idle? && s.mem.head.Some?
    ensures var s' := Apply(Apply(Apply(Apply(s, StartTake(t)), Step(t)), Step(t)), Step(t));
      TookFront(s', s.mem, t, [s.mem.head.value]) && s'.mem.head == NextOf(s.mem, s.mem.head.value)
  {
  }

  /** A take that runs alone unlinks the first node, whatever follows it. */
  lemma {:induction false} LoneTake(run: seq<Action>, t: Tid)
    requires ThreadOf(After(run), t).pc.Idle? && After(run).mem.head.Some?
    ensures var m, s := After(run).mem, After(run + TakeAlone(t));
      TookFront(s, m, t, [m.head.value]) && s.mem.head == NextOf(m, m.head.value)
  {
    AfterMore(run, TakeAlone(t));
    assert TakeAlone(t)[1..] == Steps(t, 3);
    ThreeSteps(Apply(After(run), StartTake(t)), t);
    TakeSteps(After(run), t);
  }

  /** One that finds the list empty returns after its first step. */
  lemma {:induction false} LoneTakeEmpty(run: seq<Action>, t: Tid)
    requires ThreadOf(After(run), t).pc.Idle? && After(run).mem.head.None?
    ensures var s := After(run + [StartTake(t)] + [Step(t)]); s.mem == After(run).mem && ThreadOf(s, t).pc.Idle?
  {
    AfterOne(run, StartTake(t));
    AfterOne(run + [StartTake(t)], Step(t));
  }

  function TakesAlone(t: Tid, k: nat): seq<Action> {
    if k == 0 then [] else TakesAlone(t, k - 1) + TakeAlone(t)
  }

  lemma {:induction false} OneMoreTaken(s: State, s': State, m: Mem, t: Tid, c: seq<Node>, k: nat)
    requires k < |c| && TookFront(s, m, t, c[..k]) && TookFront(s', s.mem, t, [c[k]])
    ensures TookFront(s', m, t, c[..k + 1])
  {
    assert c[..k + 1] == c[..k] + [c[k]];
  }

  lemma {:induction false} FirstOfRest(heap: map<Node, Cell>, p: Ptr, c: seq<Node>, k: nat)
    requires k < |c| && IsChain(heap, p, c[k..])
    ensures p == Some(c[k]) && c[k] in heap && IsChain(heap, heap[c[k]].next, c[k + 1..])
  {
    assert c[k..][1..] == c[k + 1..];
  }

  /** The first `k` nodes of the list `c` have been taken out, and the others are left. */
  ghost predicate Drained(s: State, m: Mem, t: Tid, c: seq<Node>, k: nat) {
    k <= |c| && TookFront(s, m, t, c[..k]) && IsChain(m.heap, s.mem.head, c[k..])
  }

  /** `s'` is `s` after one more take. */
  ghost predicate TookOne(s: State, s': State, t: Tid) {
    s.mem.head.Some? && TookFront(s', s.mem, t, [s.mem.head.value]) && s'.mem.head == NextOf(s.mem, s.mem.head.value)
  }

  lemma {:induction false} DrainsOn(s: State, s': State, m: Mem, t: Tid, c: seq<Node>, k: nat)
    requires k < |c| && Drained(s, m, t, c, k)
    ensures s.mem.head.Some? && ThreadOf(s, t).pc.Idle?
    ensures TookOne(s, s', t) ==> Drained(s', m, t, c, k + 1)
  {
    FirstOfRest(m.heap, s.mem.head, c, k);
    if TookOne(s, s', t) { OneMoreTaken(s, s', m, t, c, k); }
  }

  lemma {:induction false} TakeOnce(run: seq<Action>, t: Tid, k: nat)
    requires k > 0
    ensures run + TakesAlone(t, k) == run + TakesAlone(t, k - 1) + TakeAlone(t)
  {
  }

  lemma {:induction false} NothingDrained(run: seq<Action>, t: Tid, c: seq<Node>)
    requires ThreadOf(After(run), t).pc.Idle? && IsChain(After(run).mem.heap, After(run).mem.head, c)
    ensures Drained(After(run + TakesAlone(t, 0)), After(run).mem, t, c, 0)
  {
    assert run + TakesAlone(t, 0) == run && c[0..] == c && c[..0] == [];
  }

  /** `k` takes that run alone unlink the first `k` nodes of the list, in order. */
  lemma {:induction false} LoneTakesDrain(run: seq<Action>, t: Tid, c: seq<Node>, k: nat)
    requires ThreadOf(After(run), t).pc.Idle? && k <= |c| && IsChain(After(run).mem.heap, After(run).mem.head, c)
    ensures Drained(After(run + TakesAlone(t, k)), After(run).mem, t, c, k)
  {
    if k == 0 {
      NothingDrained(run, t, c);
    } else {
      hide Drained, TakeAlone, TakesAlone, After, IsChain;
      LoneTakesDrain(run, t, c, k - 1);
      var before := run + TakesAlone(t, k - 1);
      DrainsOn(After(before), After(before + TakeAlone(t)), After(run).mem, t, c, k - 1);
      LoneTake(before, t);
      TakeOnce(run, t, k);
    }
  }

  // ---- Appends that run alone ----

  lemma {:induction false} ChainTail(heap: map<Node, Cell>, p: Ptr, c: seq<Node>, i: nat)
    requires IsChain(heap, p, c) && i < |c|
    ensures c[i] in heap && IsChain(heap, Some(c[i]), c[i..])
    ensures IsChain(heap, heap[c[i]].next, c[i + 1..])
    decreases i
  {
    if i == 0 {
      assert c[0..] == c;
    } else {
      ChainTail(heap, heap[c[0]].next, c[1..], i - 1);
      assert c[1..][i - 1..] == c[i..] && c[1..][i..] == c[i + 1..];
    }
  }

  /** No node occurs twice in a list. */
  lemma {:induction false} ChainDistinct(heap: map<Node, Cell>, p: Ptr, c: seq<Node>)
    requires IsChain(heap, p, c)
    ensures Distinct(c)
  {
    forall i, j | 0 <= i < j < |c| ensures c[i] != c[j] {
      ChainTail(heap, p, c, i);
      ChainTail(heap, p, c, j);
      if c[i] == c[j] { ChainUnique(heap, Some(c[i]), c[i..], c[j..]); }
    }
  }

  /** A list does not see a node that is not in it change. */
  lemma {:induction false} ChainFrame(heap: map<Node, Cell>, p: Ptr, c: seq<Node>, n: Node, cell: Cell)
    requires IsChain(heap, p, c) && n !in c
    ensures IsChain(heap[n := cell], p, c)
    decreases |c|
  {
    if c != [] {
      assert c[0] in c && forall x :: x in c[1..] ==> x in c;
      ChainFrame(heap, heap[c[0]].next, c[1..], n, cell);
    }
  }

  lemma {:induction false} ChainGrows(heap: map<Node, Cell>, p: Ptr, c: seq<Node>, n: Node)
    requires IsChain(heap, p, c) && c != [] && Distinct(c)
    requires n in heap && heap[n].next.None? && n !in c && c[|c| - 1] in heap
    ensures IsChain(heap[c[|c| - 1] := heap[c[|c| - 1]].(next := Some(n))], p, c + [n])
    decreases |c|
  {
    var last := c[|c| - 1];
    var more := heap[last := heap[last].(next := Some(n))];
    if |c| == 1 {
      assert (c + [n])[1..] == [n] && [n][1..] == [];
      assert IsChain(more, Some(n), [n]);
    } else {
      ChainGrows(heap, heap[c[0]].next, c[1..], n);
      assert (c + [n])[1..] == c[1..] + [n] && c[1..][|c| - 2] == last;
      assert c[0] != c[|c| - 1];
    }
  }

  /** Thread `t` appends node `n`, and tests the end of the list at its node `i`. */
  ghost predicate Walking(s: State, t: Tid, n: Node, c: seq<Node>, i: nat) {
    && i < |c| && ThreadOf(s, t).pc == TestNext(n, c[i])
    && IsChain(s.mem.heap, s.mem.head, c) && n in s.mem.heap && n !in c && s.mem.heap[n].next.None?
  }

  /** Thread `t` has put node `n` at the end of the list. */
  ghost predicate Appended(s: State, m: Mem, t: Tid, n: Node, c: seq<Node>) {
    && ThreadOf(s, t).pc.Idle? && IsChain(s.mem.heap, s.mem.head, c + [n])
    && s.mem.linked == m.linked + [n] && s.mem.taken == m.taken
    && n in m.heap && n in s.mem.heap && s.mem.heap[n].val == m.heap[n].val
  }

  lemma {:induction false} NextInChain(heap: map<Node, Cell>, p: Ptr, c: seq<Node>, i: nat)
    requires IsChain(heap, p, c) && i < |c|
    ensures c[i] in heap && heap[c[i]].next == if i + 1 < |c| then Some(c[i + 1]) else None
  {
    ChainTail(heap, p, c, i);
  }

  lemma {:induction false} WalkOn(s: State, t: Tid, n: Node, c: seq<Node>, i: nat)
    requires Walking(s, t, n, c, i) && i + 1 < |c|
    ensures var s' := Apply(Apply(s, Step(t)), Step(t)); Walking(s', t, n, c, i + 1) && s'.mem == s.mem
  {
    NextInChain(s.mem.heap, s.mem.head, c, i);
  }

  lemma {:induction false} WalkEnds(s: State, t: Tid, n: Node, c: seq<Node>, i: nat)
    requires Walking(s, t, n, c, i) && i + 1 == |c|
    ensures Appended(Apply(Apply(s, Step(t)), Step(t)), s.mem, t, n, c)
  {
    NextInChain(s.mem.heap, s.mem.head, c, i);
    ChainDistinct(s.mem.heap, s.mem.head, c);
    ChainGrows(s.mem.heap, s.mem.head, c, n);
    assert c[i] in c;
  }

  lemma {:induction false} WalkAppends(s: State, t: Tid, n: Node, c: seq<Node>, i: nat)
    requires Walking(s, t, n, c, i)
    ensures Appended(Onwards(s, Steps(t, 2 * (|c| - i))), s.mem, t, n, c)
    decreases |c| - i
  {
    var left := 2 * (|c| - i);
    StepOn(s, t, left);
    StepOn(Apply(s, Step(t)), t, left - 1);
    if i + 1 < |c| {
      WalkOn(s, t, n, c, i);
      WalkAppends(Apply(Apply(s, Step(t)), Step(t)), t, n, c, i + 1);
    } else {
      WalkEnds(s, t, n, c, i);
    }
  }

  /** The call of an append of node `n`, before its first step. */
  ghost predicate Called(s: State, t: Tid, n: Node, c: seq<Node>) {
    && ThreadOf(s, t).pc == LoadHead(n) && IsChain(s.mem.heap, s.mem.head, c)
    && n in s.mem.heap && n !in c && s.mem.heap[n].next.None?
  }

  lemma {:induction false} FirstAppended(s: State, t: Tid, n: Node)
    requires Called(s, t, n, [])
    ensures Appended(Apply(Apply(s, Step(t)), Step(t)), s.mem, t, n, [])
  {
    assert [] + [n] == [n] && [n][1..] == [];
    assert IsChain(s.mem.heap, Some(n), [n]);
  }

  lemma {:induction false} CalledWalks(s: State, t: Tid, n: Node, c: seq<Node>)
    requires Called(s, t, n, c) && c != []
    ensures var s' := Apply(Apply(s, Step(t)), Step(t)); Walking(s', t, n, c, 0) && s'.mem == s.mem
  {
  }

  lemma {:induction false} CallAppend(s: State, t: Tid, v: Value, n: Node, c: seq<Node>)
    requires ThreadOf(s, t).pc.Idle? && n !in s.mem.heap && IsChain(s.mem.heap, s.mem.head, c)
    ensures var s' := Apply(s, StartAppend(t, v, n));
      Called(s', t, n, c) && s'.mem == Alloc(s.mem, t, v, n)
  {
    if n in c {
      var i :| 0 <= i < |c| && c[i] == n;
      ChainTail(s.mem.heap, s.mem.head, c, i);
    }
    ChainFrame(s.mem.heap, s.mem.head, c, n, Cell(v, t, None));
  }

  lemma {:induction false} CalledAppends(s: State, t: Tid, n: Node, c: seq<Node>)
    requires Called(s, t, n, c)
    ensures Appended(Onwards(s, Steps(t, 2 * |c| + 2)), s.mem, t, n, c)
  {
    StepOn(s, t, 2 * |c| + 2);
    StepOn(Apply(s, Step(t)), t, 2 * |c| + 1);
    if c == [] {
      FirstAppended(s, t, n);
    } else {
      CalledWalks(s, t, n, c);
      WalkAppends(Apply(Apply(s, Step(t)), Step(t)), t, n, c, 0);
    }
  }

  /** An append that runs alone ends after `2 * |c| + 2` steps with its value at the
      end of the list `c`, whatever its length. */
  lemma {:induction false} LoneAppend(run: seq<Action>, t: Tid, v: Value, n: Node, c: seq<Node>)
    requires ThreadOf(After(run), t).pc.Idle? && n !in After(run).mem.heap
    requires IsChain(After(run).mem.heap, After(run).mem.head, c)
    ensures var m, s := After(run).mem, After(run + [StartAppend(t, v, n)] + Steps(t, 2 * |c| + 2));
      && IsChain(s.mem.heap, s.mem.head, c + [n]) && n in s.mem.heap && s.mem.heap[n].val == v
      && s.mem.linked == m.linked + [n] && s.mem.taken == m.taken && ThreadOf(s, t).pc.Idle?
  {
    AfterOne(run, StartAppend(t, v, n));
    AfterMore(run + [StartAppend(t, v, n)], Steps(t, 2 * |c| + 2));
    CallAppend(After(run), t, v, n, c);
    CalledAppends(After(run + [StartAppend(t, v, n)]), t, n, c);
  }

  // ---- Every take of every run ----

  function MemAt(run: seq<Action>, k: nat): Mem
    requires k <= |run|
  {
    After(run[..k]).mem
  }

  function PcAt(run: seq<Action>, t: Tid, k: nat): Pc
    requires k <= |run|
  {
    ThreadOf(After(run[..k]), t).pc
  }

  /** Thread `t` makes no step from action `i` up to action `k`. */
  ghost predicate Still(run: seq<Action>, t: Tid, i: nat, k: nat) {
    i <= k <= |run| && forall j :: i <= j < k ==> run[j] != Step(t)
  }

  /** The first step of the take called by action `i` is action `a` and found `n`. */
  ghost predicate FoundAt(run: seq<Action>, t: Tid, i: nat, a: nat, n: Node) {
    i < a < |run| && Still(run, t, i, a) && run[a] == Step(t) && MemAt(run, a).head == Some(n)
  }

  /** Its second step is action `b` and read `next` as the successor of `n`. */
  ghost predicate SawAt(run: seq<Action>, t: Tid, a: nat, b: nat, n: Node, next: Ptr) {
    a < b < |run| && Still(run, t, a + 1, b) && run[b] == Step(t) && NextOf(MemAt(run, b), n) == next
  }

  /** Before action `k` the take has found `n` and read `next`, and made no other step. */
  ghost predicate Seen(run: seq<Action>, t: Tid, i: nat, k: nat, n: Node, next: Ptr) {
    exists a: nat, b: nat :: FoundAt(run, t, i, a, n) && SawAt(run, t, a, b, n, next) && Still(run, t, b + 1, k)
  }

  /** How far the take called by action `i` is before action `k`. */
  ghost predicate Stage(run: seq<Action>, t: Tid, i: nat, k: nat)
    requires k <= |run|
  {
    match PcAt(run, t, k)
    case TakeHead(_) => Still(run, t, i, k)
    case ReadNext(n, _) => exists a: nat :: FoundAt(run, t, i, a, n) && Still(run, t, a + 1, k)
    case Unlink(n, next, _) => Seen(run, t, i, k, n, next)
    case _ => false
  }

  lemma {:induction false} AtNext(run: seq<Action>, k: nat)
    requires k < |run|
    ensures After(run[..k + 1]) == Apply(After(run[..k]), run[k])
  {
    assert run[..k + 1][..k] == run[..k];
  }

  lemma {:induction false} StillOn(run: seq<Action>, t: Tid, i: nat, k: nat)
    requires Still(run, t, i, k) && k < |run| && run[k] != Step(t)
    ensures Still(run, t, i, k + 1)
  {
  }

  /** Thread `t` is in a call before every action from `i + 1` up to `k`. */
  ghost predicate Busy(run: seq<Action>, t: Tid, i: nat, k: nat)
    requires k <= |run|
  {
    forall j :: i < j <= k ==> !PcAt(run, t, j).Idle?
  }

  lemma {:induction false} FoundStays(run: seq<Action>, t: Tid, i: nat, k: nat, n: Node)
    requires k < |run| && run[k] != Step(t) && exists a: nat :: FoundAt(run, t, i, a, n) && Still(run, t, a + 1, k)
    ensures exists a: nat :: FoundAt(run, t, i, a, n) && Still(run, t, a + 1, k + 1)
  {
    var a: nat :| FoundAt(run, t, i, a, n) && Still(run, t, a + 1, k);
    StillOn(run, t, a + 1, k);
  }

  lemma {:induction false} SawStays(run: seq<Action>, t: Tid, i: nat, k: nat, n: Node, next: Ptr)
    requires k < |run| && run[k] != Step(t) && Seen(run, t, i, k, n, next)
    ensures Seen(run, t, i, k + 1, n, next)
  {
    var a: nat, b: nat :| FoundAt(run, t, i, a, n) && SawAt(run, t, a, b, n, next) && Still(run, t, b + 1, k);
    StillOn(run, t, b + 1, k);
  }

  lemma {:induction false} SameThread(s: State, a: Action, t: Tid)
    requires a != Step(t) && !ThreadOf(s, t).pc.Idle?
    ensures ThreadOf(Apply(s, a), t) == ThreadOf(s, t)
  {
  }

  lemma {:induction false} StageStays(run: seq<Action>, t: Tid, i: nat, k: nat)
    requires i < k < |run| && Stage(run, t, i, k) && run[k] != Step(t)
    ensures Stage(run, t, i, k + 1)
  {
    AtNext(run, k);
    SameThread(After(run[..k]), run[k], t);
    match PcAt(run, t, k)
    case TakeHead(_) => StillOn(run, t, i, k);
    case ReadNext(n, _) => FoundStays(run, t, i, k, n);
    case Unlink(n, next, _) => SawStays(run, t, i, k, n, next);
  }

  lemma {:induction false} StageSteps(run: seq<Action>, t: Tid, i: nat, k: nat)
    requires i < k < |run| && Stage(run, t, i, k) && run[k] == Step(t) && !PcAt(run, t, k + 1).Idle?
    ensures Stage(run, t, i, k + 1)
  {
    AtNext(run, k);
    match PcAt(run, t, k)
    case TakeHead(_) =>
      var n := MemAt(run, k).head.value;
      assert FoundAt(run, t, i, k, n) && Still(run, t, k + 1, k + 1);
    case ReadNext(n, _) =>
      var a: nat :| FoundAt(run, t, i, a, n) && Still(run, t, a + 1, k);
      assert SawAt(run, t, a, k, n, NextOf(MemAt(run, k), n)) && Still(run, t, k + 1, k + 1);
    case Unlink(_, _, _) =>
  }

  lemma {:induction false} Starts(run: seq<Action>, t: Tid, i: nat)
    requires i < |run| && run[i] == StartTake(t) && PcAt(run, t, i).Idle?
    ensures Stage(run, t, i, i + 1)
  {
    AtNext(run, i);
  }

  lemma {:induction false} TakeStages(run: seq<Action>, t: Tid, i: nat, k: nat)
    requires i < k <= |run| && run[i] == StartTake(t) && PcAt(run, t, i).Idle? && Busy(run, t, i, k)
    ensures Stage(run, t, i, k)
  {
    hide Stage, Apply, After;
    if k == i + 1 {
      Starts(run, t, i);
    } else {
      TakeStages(run, t, i, k - 1);
      assert !PcAt(run, t, k - 1 + 1).Idle?;
      if run[k - 1] == Step(t) { StageSteps(run, t, i, k - 1); } else { StageStays(run, t, i, k - 1); }
    }
  }

  /** Action `j` ends the take called by action `i`: the list was empty. */
  ghost predicate FoundEmpty(run: seq<Action>, t: Tid, i: nat, j: nat) {
    i < j < |run| && Still(run, t, i, j) && MemAt(run, j).head.None? && MemAt(run, j + 1) == MemAt(run, j)
  }

  /** It took node `n` out, and put in its place the successor it had read. */
  ghost predicate TookAt(run: seq<Action>, j: nat, n: Node, next: Ptr) {
    && j < |run| && MemAt(run, j).head == Some(n) && MemAt(run, j + 1).head == next
    && MemAt(run, j + 1).taken == MemAt(run, j).taken + [n]
    && MemAt(run, j + 1).heap == MemAt(run, j).heap && MemAt(run, j + 1).linked == MemAt(run, j).linked
  }

  /** It changed nothing, as another take had taken `n` before. */
  ghost predicate MissedAt(run: seq<Action>, j: nat, n: Node) {
    j < |run| && MemAt(run, j).head != Some(n) && MemAt(run, j + 1) == MemAt(run, j)
  }

  /** Every take of every run that ends either finds the list empty at its one step,
      or makes three: it finds a first node, reads its successor, and then takes the
      node out exactly if it still is the first. */
  lemma {:induction false} EveryTake(run: seq<Action>, t: Tid, i: nat, j: nat)
    requires i < j < |run| && run[i] == StartTake(t) && run[j] == Step(t)
    requires PcAt(run, t, i).Idle? && Busy(run, t, i, j) && PcAt(run, t, j + 1).Idle?
    ensures FoundEmpty(run, t, i, j)
      || exists n, next :: Seen(run, t, i, j, n, next) && (TookAt(run, j, n, next) || MissedAt(run, j, n))
  {
    TakeStages(run, t, i, j);
    AtNext(run, j);
    if PcAt(run, t, j).Unlink? { UnlinkEnds(run, t, j); }
  }

  lemma {:induction false} UnlinkEnds(run: seq<Action>, t: Tid, j: nat)
    requires j < |run| && run[j] == Step(t) && PcAt(run, t, j).Unlink?
    ensures var pc := PcAt(run, t, j); TookAt(run, j, pc.first, pc.next) || MissedAt(run, j, pc.first)
  {
    AtNext(run, j);
  }
}
