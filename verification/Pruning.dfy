/**
 Pruning a tree of paths: what is kept is what lies on the way to a subscriber.
 Nothing here reads the heap.
 */
module Pruning {
  import opened Bytes
  import opened Topics
  import opened PathMaps

  /** A subscriber hangs at `q` or below. */
  ghost predicate Holds<T>(subs: View<T>, q: Path) {
    exists r :: r in subs && q in Prefixes(r)
  }

  ghost predicate Below(p: Path, q: Path) {
    p in Prefixes(q) && q != p
  }

  ghost predicate Kept<C>(ns: map<Path, C>, nodes: map<Path, C>) {
    forall q :: q in ns ==> q in nodes && ns[q] == nodes[q]
  }

  /** `ns` is `nodes` without the paths below `p` that hold nothing. */
  ghost predicate Pruned<C, T>(ns: map<Path, C>, nodes: map<Path, C>, subs: View<T>, p: Path) {
    && Kept(ns, nodes)
    && (forall q :: q in nodes && q !in ns ==> !Holds(subs, q) && Below(p, q))
    && (forall q :: q in ns && Below(p, q) ==> Holds(subs, q))
  }

  /** The same with only the children in `done` pruned, and none removed. */
  ghost predicate KidsPruned<C, T>(ns: map<Path, C>, nodes: map<Path, C>, subs: View<T>, p: Path, done: set<Str>) {
    && Kept(ns, nodes)
    && (forall q :: q in nodes && q !in ns ==> !Holds(subs, q) && Below(p, q) && q.up != p)
    && (forall q, k :: q in ns && k in done && Below(Down(p, k), q) ==> Holds(subs, q))
  }

  // ---- Paths above and below ----

  lemma {:induction false} OnOwnWay(p: Path)
    ensures p in Prefixes(p)
  {
  }

  lemma {:induction false} WayOfWay(a: Path, b: Path, c: Path)
    requires a in Prefixes(b) && b in Prefixes(c)
    ensures a in Prefixes(c)
  {
    if b != c { WayOfWay(a, b, c.up); }
  }

  ghost function Depth(p: Path): nat {
    match p case Root => 0 case Down(up, _) => Depth(up) + 1
  }

  lemma {:induction false} WayIsShorter(a: Path, b: Path)
    requires a in Prefixes(b)
    ensures Depth(a) <= Depth(b) && (Depth(a) == Depth(b) ==> a == b)
  {
    if a != b { WayIsShorter(a, b.up); }
  }

  lemma {:induction false} RootOnWay(q: Path)
    ensures Root in Prefixes(q)
  {
    if q.Down? { RootOnWay(q.up); }
  }

  /** The child of `p` on the way to a path below it. */
  lemma {:induction false} NextDown(p: Path, q: Path) returns (k: Str)
    requires Below(p, q)
    ensures Down(p, k) in Prefixes(q)
  {
    if q.up == p {
      k := q.part;
    } else {
      k := NextDown(p, q.up);
    }
  }

  lemma {:induction false} HoldsAbove<T>(subs: View<T>, p: Path, q: Path)
    requires Holds(subs, q) && p in Prefixes(q)
    ensures Holds(subs, p)
  {
    var r :| r in subs && q in Prefixes(r);
    WayOfWay(p, q, r);
  }

  /** The nodes at or below `p`. */
  ghost function Under(nodes: set<Path>, p: Path): set<Path> {
    set q | q in nodes && p in Prefixes(q)
  }

  lemma {:induction false} FewerUnderChild(ns: set<Path>, nodes: set<Path>, p: Path, k: Str)
    requires p in nodes && ns <= nodes
    ensures Under(ns, Down(p, k)) < Under(nodes, p)
  {
    OnOwnWay(p);
    OnOwnWay(Down(p, k));
    assert p in Prefixes(Down(p, k));
    forall q | q in Under(ns, Down(p, k)) ensures q in Under(nodes, p) && q != p {
      WayOfWay(p, Down(p, k), q);
      WayIsShorter(Down(p, k), q);
    }
    assert p in Under(nodes, p);
  }

  // ---- The steps of pruning ----

  lemma {:induction false} NotDirect(p: Path, k: Str, q: Path)
    requires Below(Down(p, k), q)
    ensures Below(p, q) && q.up != p
  {
    OnOwnWay(p);
    WayOfWay(p, Down(p, k), q);
    WayIsShorter(Down(p, k), q);
    WayIsShorter(p, q);
  }

  /** One more child pruned; the node and its children stay. */
  lemma {:induction false} KidPruned<C, T>(n2: map<Path, C>, n1: map<Path, C>, nodes: map<Path, C>, subs: View<T>,
      p: Path, k: Str, done: set<Str>)
    requires KidsPruned(n1, nodes, subs, p, done) && Pruned(n2, n1, subs, Down(p, k))
    ensures KidsPruned(n2, nodes, subs, p, done + {k})
  {
    forall q | q in nodes && q !in n2 ensures !Holds(subs, q) && Below(p, q) && q.up != p {
      if q in n1 { NotDirect(p, k, q); }
    }
  }

  lemma {:induction false} KidsStay<C, T>(ns: map<Path, C>, nodes: map<Path, C>, subs: View<T>, p: Path, done: set<Str>)
    requires KidsPruned(ns, nodes, subs, p, done) && p in nodes
    ensures p in ns && ns[p] == nodes[p]
    ensures forall k :: Down(p, k) in nodes ==> Down(p, k) in ns
  {
  }

  /** A child that holds nothing is a leaf once it is pruned. */
  lemma {:induction false} EmptyKidIsLeaf<C, T>(ns: map<Path, C>, nodes: map<Path, C>, subs: View<T>, p: Path,
      done: set<Str>, k: Str)
    requires KidsPruned(ns, nodes, subs, p, done) && k in done && !Holds(subs, Down(p, k))
    ensures Down(p, k) !in subs
    ensures forall j :: Down(Down(p, k), j) !in ns
  {
    OnOwnWay(Down(p, k));
    forall j ensures Down(Down(p, k), j) !in ns {
      DownIsBelow(Down(p, k), j);
      if Down(Down(p, k), j) in ns { HoldsAbove(subs, Down(p, k), Down(Down(p, k), j)); }
    }
  }

  /** `n` is `n1` without the children `gone` of `p`. */
  ghost predicate WithoutKids<C>(n: map<Path, C>, n1: map<Path, C>, p: Path, gone: set<Str>) {
    && Kept(n, n1)
    && (forall q :: q in n1 ==> (q in n <==> !(q.Down? && q.up == p && q.part in gone)))
  }

  lemma {:induction false} OneKidLess<C>(n: map<Path, C>, n1: map<Path, C>, p: Path, gone: set<Str>, k: Str)
    requires p in n && WithoutKids(n, n1, p, gone)
    ensures p in n - {Down(p, k)} && WithoutKids(n - {Down(p, k)}, n1, p, gone + {k})
  {
    DownIsBelow(p, k);
  }

  /** All children pruned and those that hold nothing removed. */
  lemma {:induction false} AllPruned<C, T>(n2: map<Path, C>, n1: map<Path, C>, nodes: map<Path, C>, subs: View<T>,
      p: Path, done: set<Str>, gone: set<Str>)
    requires Tree(nodes, subs) && p in nodes && KidsPruned(n1, nodes, subs, p, done)
    requires forall k :: Down(p, k) in nodes ==> k in done
    requires forall k :: k in gone <==> k in done && !Holds(subs, Down(p, k))
    requires WithoutKids(n2, n1, p, gone)
    ensures Pruned(n2, nodes, subs, p)
  {
    forall q | q in n2 && Below(p, q) ensures Holds(subs, q) {
      var k := NextDown(p, q);
      PrefixesIn(nodes, subs, q);
      if q != Down(p, k) { assert Below(Down(p, k), q); }
    }
    forall q | q in nodes && q !in n2 ensures !Holds(subs, q) && Below(p, q) {
      if q in n1 { OnOwnWay(p); WayIsShorter(q, q); assert q == Down(p, q.part); DownIsBelow(p, q.part); }
    }
  }

  lemma {:induction false} DownIsBelow(p: Path, k: Str)
    ensures Below(p, Down(p, k))
  {
    OnOwnWay(p);
    if Down(p, k) == p { WayIsShorter(Down(p, k), p); }
  }

  lemma {:induction false} PrunedIsTree<C, T>(n2: map<Path, C>, nodes: map<Path, C>, subs: View<T>, p: Path)
    requires Tree(nodes, subs) && Pruned(n2, nodes, subs, p)
    ensures Tree(n2, subs)
  {
    assert !Below(p, Root);
    forall q | q in subs ensures q in n2 { OnOwnWay(q); }
    forall q, k | Down(q, k) in n2 ensures q in n2 {
      if q !in n2 {
        DownIsBelow(q, k);
        WayOfWay(p, q, Down(q, k));
        if Down(q, k) == p { WayIsShorter(p, q); }
        HoldsAbove(subs, q, Down(q, k));
      }
    }
  }

  /** A node below which nothing hangs after pruning is a leaf exactly when no
      subscriber hangs below. */
  lemma {:induction false} LeafHoldsNothing<C, T>(ns: map<Path, C>, nodes: map<Path, C>, subs: View<T>, p: Path)
    requires Tree(nodes, subs) && Pruned(ns, nodes, subs, p) && p in nodes
    ensures Holds(subs, p) <==> p in subs || exists k :: Down(p, k) in ns
  {
    if p in subs {
      OnOwnWay(p);
    } else if k :| Down(p, k) in ns {
      DownIsBelow(p, k);
      HoldsAbove(subs, p, Down(p, k));
    } else if Holds(subs, p) {
      var r :| r in subs && p in Prefixes(r);
      var k := NextDown(p, r);
      PrefixesIn(nodes, subs, r);
      assert Holds(subs, Down(p, k));
    }
  }

  // ---- The whole tree pruned ----

  /** What is left is the root and the way to every subscriber. */
  lemma {:induction false} PrunedExactly<C, T>(ns: map<Path, C>, nodes: map<Path, C>, subs: View<T>)
    requires Tree(nodes, subs) && Pruned(ns, nodes, subs, Root)
    ensures forall q :: q in ns <==> q == Root || Holds(subs, q)
  {
    forall q ensures q in ns <==> q == Root || Holds(subs, q) {
      RootOnWay(q);
      if Holds(subs, q) {
        var r :| r in subs && q in Prefixes(r);
        PrefixesIn(nodes, subs, r);
      }
    }
  }

  /** Pruning again removes nothing. */
  lemma {:induction false} PrunedTwice<C, T>(n2: map<Path, C>, n1: map<Path, C>, nodes: map<Path, C>, subs: View<T>)
    requires Tree(nodes, subs) && Pruned(n1, nodes, subs, Root) && Pruned(n2, n1, subs, Root)
    ensures n2 == n1
  {
  }

  /** `q` lies on the way to a bound topic. */
  ghost predicate OnWay<T>(bound: map<Str, T>, q: Path) {
    exists t :: t in bound && q in Prefixes(PathTo(t))
  }

  lemma {:induction false} HoldsIsOnWay<T>(subs: View<T>, bound: map<Str, T>, q: Path)
    requires Refines(subs, bound)
    ensures Holds(subs, q) <==> OnWay(bound, q)
  {
    if r :| r in subs && q in Prefixes(r) {
      var t := TopicOf(r);
      TopicPaths(r);
      assert t in bound && PathTo(t) == r;
    }
  }
}
