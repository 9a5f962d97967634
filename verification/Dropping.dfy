/**
 Dropping a tree of paths: everything below a node goes, with every subscriber
 at or below it.  Nothing here reads the heap.
 */
module Dropping {
  import opened Bytes
  import opened Topics
  import opened PathMaps
  import opened Pruning

  /** `ns` and `ss` are `nodes` and `subs` after the node at `p` is dropped. */
  ghost predicate Dropped<C, T>(ns: map<Path, C>, nodes: map<Path, C>, ss: View<T>, subs: View<T>, p: Path) {
    && Kept(ns, nodes) && Kept(ss, subs)
    && (forall q :: q in nodes ==> (q in ns <==> !Below(p, q)))
    && (forall q :: q in subs ==> (q in ss <==> p !in Prefixes(q)))
  }

  /** The same with only the children in `done` dropped, and none removed. */
  ghost predicate KidsDropped<C, T>(ns: map<Path, C>, nodes: map<Path, C>, ss: View<T>, subs: View<T>, p: Path,
      done: set<Str>) {
    && Kept(ns, nodes) && Kept(ss, subs)
    && (forall q :: q in nodes && q !in ns ==> Below(p, q) && q.up != p)
    && (forall q, k :: q in ns && k in done ==> !Below(Down(p, k), q))
    && (forall q :: q in subs && q !in ss ==> Below(p, q))
    && (forall q, k :: q in ss && k in done ==> Down(p, k) !in Prefixes(q))
  }

  lemma {:induction false} ChildOnWay(p: Path, k: Str, q: Path)
    requires Down(p, k) in Prefixes(q)
    ensures Below(p, q)
  {
    DownIsBelow(p, k);
    WayOfWay(p, Down(p, k), q);
    WayIsShorter(Down(p, k), q);
  }

  /** One more child dropped. */
  lemma {:induction false} KidDropped<C, T>(n2: map<Path, C>, n1: map<Path, C>, nodes: map<Path, C>,
      s2: View<T>, s1: View<T>, subs: View<T>, p: Path, k: Str, done: set<Str>)
    requires KidsDropped(n1, nodes, s1, subs, p, done) && Dropped(n2, n1, s2, s1, Down(p, k))
    ensures KidsDropped(n2, nodes, s2, subs, p, done + {k})
  {
    forall q | q in nodes && q !in n2 ensures Below(p, q) && q.up != p {
      if q in n1 { NotDirect(p, k, q); }
    }
    forall q | q in subs && q !in s2 ensures Below(p, q) {
      if q in s1 { ChildOnWay(p, k, q); }
    }
  }

  /** A child that is dropped is a leaf without a subscriber. */
  lemma {:induction false} DroppedKidIsLeaf<C, T>(ns: map<Path, C>, nodes: map<Path, C>, ss: View<T>, subs: View<T>,
      p: Path, done: set<Str>, k: Str)
    requires KidsDropped(ns, nodes, ss, subs, p, done) && k in done
    ensures Down(p, k) !in ss
    ensures forall j :: Down(Down(p, k), j) !in ns
  {
    OnOwnWay(Down(p, k));
    forall j ensures Below(Down(p, k), Down(Down(p, k), j)) { DownIsBelow(Down(p, k), j); }
  }

  lemma {:induction false} DroppedKidsStay<C, T>(ns: map<Path, C>, nodes: map<Path, C>, ss: View<T>, subs: View<T>,
      p: Path, done: set<Str>)
    requires KidsDropped(ns, nodes, ss, subs, p, done) && p in nodes
    ensures p in ns && ns[p] == nodes[p]
    ensures forall k :: Down(p, k) in nodes ==> Down(p, k) in ns
    ensures p in ss <==> p in subs
    ensures p in ss ==> ss[p] == subs[p]
  {
  }

  /** All children dropped and removed, and the node's own subscriber gone. */
  lemma {:induction false} AllDropped<C, T>(n2: map<Path, C>, n1: map<Path, C>, nodes: map<Path, C>,
      s1: View<T>, subs: View<T>, p: Path, done: set<Str>)
    requires Tree(nodes, subs) && p in nodes && KidsDropped(n1, nodes, s1, subs, p, done)
    requires forall k :: Down(p, k) in nodes ==> k in done
    requires WithoutKids(n2, n1, p, done)
    ensures Dropped(n2, nodes, s1 - {p}, subs, p)
  {
    forall q | q in nodes ensures q in n2 <==> !Below(p, q) {
      if Below(p, q) {
        var k := NextDown(p, q);
        PrefixesIn(nodes, subs, q);
        if q != Down(p, k) { assert Below(Down(p, k), q); }
      } else if q.Down? && q.up == p {
        DownIsBelow(p, q.part);
      }
    }
    forall q | q in subs ensures q in s1 - {p} <==> p !in Prefixes(q) {
      OnOwnWay(p);
      if p in Prefixes(q) && q != p {
        var k := NextDown(p, q);
        PrefixesIn(nodes, subs, q);
      }
    }
  }

  lemma {:induction false} DroppedIsTree<C, T>(ns: map<Path, C>, nodes: map<Path, C>, ss: View<T>,
      subs: View<T>, p: Path)
    requires Tree(nodes, subs) && Dropped(ns, nodes, ss, subs, p)
    ensures Tree(ns, ss)
  {
    assert !Below(p, Root);
    forall q, k | Down(q, k) in ns ensures q in ns {
      DownIsBelow(q, k);
      if Below(p, q) {
        WayOfWay(p, q, Down(q, k));
        WayIsShorter(p, q);
        WayIsShorter(q, Down(q, k));
      }
    }
  }

  /** Dropping the root leaves the root alone, and no subscriber. */
  lemma {:induction false} DroppedAtRoot<C, T>(ns: map<Path, C>, nodes: map<Path, C>, ss: View<T>, subs: View<T>)
    requires Tree(nodes, subs) && Dropped(ns, nodes, ss, subs, Root)
    ensures ns.Keys == {Root} && ss == map[]
  {
    forall q ensures Root in Prefixes(q) { RootOnWay(q); }
    assert forall q :: q in ns ==> q == Root;
    assert forall q :: q !in ss;
  }
}
