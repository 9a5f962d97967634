/**
 Trees as sets of paths: the nodes of a tree with what hangs at each, and what
 adding or removing a leaf changes.  Nothing here reads the heap.
 */
module PathMaps {
  import opened Bytes
  import opened Topics

  /** The root and, with a node, the one above it; subscribers hang below the root. */
  ghost predicate Tree<C, T>(nodes: map<Path, C>, subs: View<T>) {
    && Root in nodes && Root !in subs
    && (forall p :: p in subs ==> p in nodes)
    && (forall p, k :: Down(p, k) in nodes ==> p in nodes)
  }

  /** The paths on the way from the root to `p`, both included. */
  ghost function Prefixes(p: Path): set<Path> {
    match p case Root => {Root} case Down(up, _) => Prefixes(up) + {p}
  }

  lemma {:induction false} PrefixesIn<C, T>(nodes: map<Path, C>, subs: View<T>, p: Path)
    requires Tree(nodes, subs) && p in nodes
    ensures Prefixes(p) <= nodes.Keys
  {
    if p.Down? { PrefixesIn(nodes, subs, p.up); }
  }

  lemma {:induction false} FirstPartsOnWay(parts: seq<Str>, i: nat, j: nat)
    requires i <= j <= |parts|
    ensures PathOf(parts, i) in Prefixes(PathOf(parts, j))
    decreases j
  {
    if i < j { FirstPartsOnWay(parts, i, j - 1); }
  }

  /** `nodes` has the paths of `start` and others on `way` only. */
  ghost predicate GrownOn<C>(nodes: map<Path, C>, start: map<Path, C>, way: set<Path>) {
    && (forall q :: q in start ==> q in nodes)
    && (forall q :: q in nodes ==> q in start || q in way)
  }

  lemma {:induction false} GrownAll<C, T>(nodes: map<Path, C>, subs: View<T>, start: map<Path, C>, p: Path)
    requires Tree(nodes, subs) && p in nodes && GrownOn(nodes, start, Prefixes(p))
    ensures nodes.Keys == start.Keys + Prefixes(p)
  {
    PrefixesIn(nodes, subs, p);
  }
}
