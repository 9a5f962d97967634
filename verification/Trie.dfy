/**
 The topic trie: a mutable tree of nodes, each with a map of children and a
 subscriber slot, refining the map from topics of module `Topics`.

 The model is sequential.  Slots hold references that are never null, as they
 are in the program once the trie is made.
 */
module Trie {
  import opened Wrappers
  import opened Bytes
  import opened Topics
  import opened PathMaps
  import opened Pruning
  import opened Dropping

  function SlotAt<T>(subs: View<T>, p: Path): Option<T> {
    if p in subs then Some(subs[p]) else None
  }

  class Child<T> {
    var child: map<Str, Child<T>>
    var subscriber: Option<T>
    /** Where the node hangs in its tree. */
    ghost const path: Path

    constructor (ghost p: Path)
      ensures child == map[] && subscriber == None && path == p
    {
      child, subscriber, path := map[], None, p;
    }

    method CreateBranch(part: Str) returns (n: Child<T>)
      modifies this`child
      ensures fresh(n) && n.child == map[] && n.subscriber == None && n.path == Down(path, part)
      ensures child == old(child)[part := n]
    {
      n := new Child(Down(path, part));
      child := child[part := n];
    }

    /** `spurious` is the weak exchange failing on an empty slot. */
    method SetSubscriber(s: T, spurious: bool) returns (ok: bool)
      modifies this`subscriber
      ensures ok == (old(subscriber).None? && !spurious)
      ensures subscriber == if ok then Some(s) else old(subscriber)
    {
      ok := subscriber.None? && !spurious;
      if ok { subscriber := Some(s); }
    }

    method DeleteSubscriber(s: T, ne: (T, T) -> bool) returns (ok: bool)
      modifies this`subscriber
      ensures ok == (old(subscriber).Some? && !ne(old(subscriber).value, s))
      ensures subscriber == if ok then None else old(subscriber)
    {
      if subscriber.None? { return false; }
      if ne(subscriber.value, s) { return false; }
      subscriber := None;
      ok := true;
    }
  }

  type Nodes<T> = map<Path, Child<T>>

  /** The fields of every node are what the maps say. */
  ghost predicate Mirror<T>(repr: set<Child<T>>, nodes: Nodes<T>, subs: View<T>)
    reads repr
  {
    && (forall p {:trigger nodes[p]} :: p in nodes ==> nodes[p] in repr && nodes[p].path == p)
    && (forall p, k ::
          p in nodes && k in nodes[p].child ==> Down(p, k) in nodes && nodes[p].child[k] == nodes[Down(p, k)])
    && (forall p, k :: p in nodes && Down(p, k) in nodes ==> k in nodes[p].child)
    && (forall p {:trigger nodes[p]} :: p in nodes ==> nodes[p].subscriber == SlotAt(subs, p))
  }

  /** A tree from `root` with the given nodes, children and subscribers. */
  ghost predicate Whole<T>(root: Child<T>, repr: set<Child<T>>, nodes: Nodes<T>, subs: View<T>)
    reads repr
  {
    Tree(nodes, subs) && nodes[Root] == root && Mirror(repr, nodes, subs)
  }

  /** `cur` is the node of the first `i` parts. */
  ghost predicate At<T>(cur: Child<T>, parts: seq<Str>, i: nat, nodes: Nodes<T>) {
    i <= |parts| && PathOf(parts, i) in nodes && nodes[PathOf(parts, i)] == cur
  }

  // ---- The three writes ----

  /** A new node below `cur`. */
  method Grow<T>(cur: Child<T>, part: Str, ghost p: Path,
      ghost repr: set<Child<T>>, ghost nodes: Nodes<T>, ghost subs: View<T>)
    returns (n: Child<T>)
    requires Mirror(repr, nodes, subs) && p in nodes && nodes[p] == cur
    requires Down(p, part) !in nodes && Down(p, part) !in subs
    requires forall k :: Down(Down(p, part), k) !in nodes
    modifies cur`child
    ensures fresh(n) && Mirror(repr + {n}, nodes[Down(p, part) := n], subs)
    ensures cur.child == old(cur.child)[part := n]
  {
    n := cur.CreateBranch(part);
  }

  method Bind<T>(cur: Child<T>, s: T, spurious: bool, ghost p: Path, ghost root: Child<T>,
      ghost repr: set<Child<T>>, ghost nodes: Nodes<T>, ghost subs: View<T>)
    returns (ok: bool, ghost ss: View<T>)
    requires Whole(root, repr, nodes, subs) && p in nodes && p != Root && nodes[p] == cur
    modifies cur`subscriber
    ensures ok == (p !in subs && !spurious) && ss == if ok then subs[p := s] else subs
    ensures Whole(root, repr, nodes, ss)
  {
    ok := cur.SetSubscriber(s, spurious);
    ss := if ok then subs[p := s] else subs;
  }

  method Unbind<T>(cur: Child<T>, s: T, ne: (T, T) -> bool, ghost p: Path, ghost root: Child<T>,
      ghost repr: set<Child<T>>, ghost nodes: Nodes<T>, ghost subs: View<T>)
    returns (ok: bool, ghost ss: View<T>)
    requires Whole(root, repr, nodes, subs) && p in nodes && nodes[p] == cur
    modifies cur`subscriber
    ensures ok == (p in subs && !ne(subs[p], s)) && ss == if ok then subs - {p} else subs
    ensures Whole(root, repr, nodes, ss)
  {
    ok := cur.DeleteSubscriber(s, ne);
    ss := if ok then subs - {p} else subs;
    assert forall q :: q in nodes && q != p ==> nodes[q] != cur;
    assert Mirror(repr, nodes, ss);
  }

  // ---- The walk of an insertion ----

  /** The walk stays where it is. */
  lemma {:induction false} Extended<T>(cur: Child<T>, parts: seq<Str>, i: nat, start: Nodes<T>,
      nodes: Nodes<T>, n: Child<T>, way: set<Path>)
    requires i < |parts| && At(cur, parts, i, nodes) && Down(PathOf(parts, i), parts[i]) !in nodes
    requires PathOf(parts, i + 1) in way && GrownOn(nodes, start, way)
    ensures At(cur, parts, i, nodes[Down(PathOf(parts, i), parts[i]) := n])
    ensures GrownOn(nodes[Down(PathOf(parts, i), parts[i]) := n], start, way)
  {
  }

  /** A turn that makes the missing node. */
  method Extend<T>(cur: Child<T>, parts: seq<Str>, i: nat, ghost root: Child<T>, ghost way: set<Path>,
      ghost start: Nodes<T>,
      ghost repr: set<Child<T>>, ghost made: set<Child<T>>, ghost nodes: Nodes<T>, ghost subs: View<T>)
    returns (n: Child<T>)
    requires Whole(root, repr + made, nodes, subs)
    requires i < |parts| && At(cur, parts, i, nodes) && parts[i] !in cur.child
    requires PathOf(parts, i + 1) in way && GrownOn(nodes, start, way)
    modifies cur`child
    ensures fresh(n) && parts[i] in cur.child
    ensures var ns := nodes[Down(PathOf(parts, i), parts[i]) := n];
      Whole(root, repr + (made + {n}), ns, subs) && At(cur, parts, i, ns) && GrownOn(ns, start, way)
  {
    ghost var p := PathOf(parts, i);
    n := Grow(cur, parts[i], p, repr + made, nodes, subs);
    assert repr + made + {n} == repr + (made + {n});
    Extended(cur, parts, i, start, nodes, n, way);
  }

  lemma {:induction false} IsOwned<T>(cur: Child<T>, parts: seq<Str>, i: nat, root: Child<T>,
      repr: set<Child<T>>, nodes: Nodes<T>, subs: View<T>)
    requires Whole(root, repr, nodes, subs) && At(cur, parts, i, nodes)
    ensures cur in repr
  {
  }

  /** A turn that goes down to a node that is there. */
  lemma {:induction false} Descend<T>(cur: Child<T>, parts: seq<Str>, i: nat, root: Child<T>,
      repr: set<Child<T>>, nodes: Nodes<T>, subs: View<T>)
    requires Whole(root, repr, nodes, subs)
    requires i < |parts| && At(cur, parts, i, nodes) && parts[i] in cur.child
    ensures At(cur.child[parts[i]], parts, i + 1, nodes)
  {
  }

  /** Walks down the parts, making the nodes that are missing.  A turn that
      makes a node does not advance `i`. */
  method Reach<T>(root: Child<T>, parts: seq<Str>, ghost way: set<Path>,
      ghost repr: set<Child<T>>, ghost nodes: Nodes<T>, ghost subs: View<T>)
    returns (cur: Child<T>, ghost ns: Nodes<T>, ghost made: set<Child<T>>)
    requires Whole(root, repr, nodes, subs)
    requires forall i :: 0 <= i <= |parts| ==> PathOf(parts, i) in way
    modifies repr`child
    ensures Whole(root, repr + made, ns, subs) && At(cur, parts, |parts|, ns) && GrownOn(ns, nodes, way)
    ensures fresh(made)
  {
    ns, made := nodes, {};
    assert repr + made == repr && GrownOn(ns, nodes, way) && At(root, parts, 0, ns);
    cur := root;
    var i := 0;
    while i < |parts|
      invariant Whole(root, repr + made, ns, subs) && At(cur, parts, i, ns) && GrownOn(ns, nodes, way)
      invariant fresh(made)
      decreases |parts| - i, if i < |parts| && parts[i] in cur.child then 0 else 1
    {
      var part := parts[i];
      if part !in cur.child {
        IsOwned(cur, parts, i, root, repr + made, ns, subs);
        var n := Extend(cur, parts, i, root, way, nodes, repr, made, ns, subs);
        ns, made := ns[Down(PathOf(parts, i), part) := n], made + {n};
        continue;
      }
      Descend(cur, parts, i, root, repr + made, ns, subs);
      cur := cur.child[part];
      i := i + 1;
    }
  }

  /** Walks to a path, making what is missing, and sets its subscriber. */
  method Plant<T>(root: Child<T>, parts: seq<Str>, value: T, spurious: bool, ghost p: Path,
      ghost repr: set<Child<T>>, ghost nodes: Nodes<T>, ghost subs: View<T>)
    returns (ok: bool, ghost ns: Nodes<T>, ghost ss: View<T>, ghost rs: set<Child<T>>)
    requires Whole(root, repr, nodes, subs) && parts != [] && p == PathOf(parts, |parts|)
    modifies repr
    ensures Whole(root, rs, ns, ss) && fresh(rs - repr)
    ensures ok == (p !in subs && !spurious) && ss == if ok then subs[p := value] else subs
    ensures ns.Keys == nodes.Keys + Prefixes(p)
  {
    forall i | 0 <= i <= |parts| ensures PathOf(parts, i) in Prefixes(p) { FirstPartsOnWay(parts, i, |parts|); }
    var cur;
    ghost var made;
    cur, ns, made := Reach(root, parts, Prefixes(p), repr, nodes, subs);
    GrownAll(ns, subs, nodes, p);
    rs := repr + made;
    ok, ss := Bind(cur, value, spurious, p, root, rs, ns, subs);
  }

  /** Goes down the parts as far as there are nodes. */
  method Find<T>(root: Child<T>, parts: seq<Str>, ghost repr: set<Child<T>>, ghost nodes: Nodes<T>, ghost subs: View<T>)
    returns (r: Option<Child<T>>)
    requires Whole(root, repr, nodes, subs)
    ensures r.Some? <==> PathOf(parts, |parts|) in nodes
    ensures r.Some? ==> At(r.value, parts, |parts|, nodes)
  {
    var cur := root;
    for i := 0 to |parts|
      invariant At(cur, parts, i, nodes)
    {
      if parts[i] !in cur.child {
        NoWayOn(parts, i, nodes, subs);
        return None;
      }
      Descend(cur, parts, i, root, repr, nodes, subs);
      cur := cur.child[parts[i]];
    }
    return Some(cur);
  }

  lemma {:induction false} NoWayOn<C, T>(parts: seq<Str>, i: nat, nodes: map<Path, C>, subs: View<T>)
    requires i < |parts| && Tree(nodes, subs) && PathOf(parts, i + 1) !in nodes
    ensures PathOf(parts, |parts|) !in nodes
  {
    if PathOf(parts, |parts|) in nodes {
      PrefixesIn(nodes, subs, PathOf(parts, |parts|));
      FirstPartsOnWay(parts, i + 1, |parts|);
    }
  }

  // ---- Pruning ----

  method RemoveKid<T>(node: Child<T>, k: Str, ghost p: Path, ghost repr: set<Child<T>>, ghost nodes: Nodes<T>,
      ghost subs: View<T>)
    requires Mirror(repr, nodes, subs) && p in nodes && nodes[p] == node
    requires Down(p, k) !in subs && forall j :: Down(Down(p, k), j) !in nodes
    modifies node`child
    ensures Mirror(repr, nodes - {Down(p, k)}, subs)
  {
    node.child := node.child - {k};
  }

  /** Removes the children in `keys`, all leaves. */
  method RemoveKids<T>(node: Child<T>, keys: seq<Str>, ghost p: Path, ghost repr: set<Child<T>>,
      ghost nodes: Nodes<T>, ghost subs: View<T>)
    returns (ghost ns: Nodes<T>, ghost gone: set<Str>)
    requires Mirror(repr, nodes, subs) && p in nodes && nodes[p] == node
    requires forall k :: k in keys ==> Down(p, k) !in subs && forall j :: Down(Down(p, k), j) !in nodes
    modifies node`child
    ensures Mirror(repr, ns, subs) && p in ns && WithoutKids(ns, nodes, p, gone)
    ensures forall k :: k in gone <==> k in keys
  {
    ns, gone := nodes, {};
    for i := 0 to |keys|
      invariant Mirror(repr, ns, subs) && p in ns && WithoutKids(ns, nodes, p, gone)
      invariant forall k :: k in gone ==> k in keys
      invariant forall j :: 0 <= j < i ==> keys[j] in gone
    {
      RemoveKid(node, keys[i], p, repr, ns, subs);
      OneKidLess(ns, nodes, p, gone, keys[i]);
      ns, gone := ns - {Down(p, keys[i])}, gone + {keys[i]};
    }
  }

  /** Prunes below every child, and lists the children that hold nothing. */
  method PruneKids<T>(node: Child<T>, ghost p: Path, ghost root: Child<T>, ghost repr: set<Child<T>>,
      ghost nodes: Nodes<T>, ghost subs: View<T>)
    returns (emptyKeys: seq<Str>, ghost ns: Nodes<T>, ghost done: set<Str>)
    requires Whole(root, repr, nodes, subs) && p in nodes && nodes[p] == node
    modifies repr`child
    ensures Whole(root, repr, ns, subs) && KidsPruned(ns, nodes, subs, p, done)
    ensures forall k :: Down(p, k) in nodes ==> k in done
    ensures forall k :: k in emptyKeys <==> k in done && !Holds(subs, Down(p, k))
    decreases Under(nodes.Keys, p), 0
  {
    var todo := node.child.Keys;
    emptyKeys, ns, done := [], nodes, {};
    while todo != {}
      invariant Whole(root, repr, ns, subs) && KidsPruned(ns, nodes, subs, p, done)
      invariant forall k :: k in todo ==> Down(p, k) in nodes
      invariant forall k :: Down(p, k) in nodes ==> k in todo || k in done
      invariant forall k :: k in emptyKeys <==> k in done && !Holds(subs, Down(p, k))
    {
      var k :| k in todo;
      KidsStay(ns, nodes, subs, p, done);
      FewerUnderChild(ns.Keys, nodes.Keys, p, k);
      var empty, n2 := DfsEmptyAndRemove(node.child[k], Down(p, k), root, repr, ns, subs);
      KidPruned(n2, ns, nodes, subs, p, k, done);
      if empty { emptyKeys := emptyKeys + [k]; }
      todo, done, ns := todo - {k}, done + {k}, n2;
    }
  }

  /** Removes every branch below `node` that holds no subscriber, and tells
      whether the node itself is now bare. */
  method DfsEmptyAndRemove<T>(node: Child<T>, ghost p: Path, ghost root: Child<T>, ghost repr: set<Child<T>>,
      ghost nodes: Nodes<T>, ghost subs: View<T>)
    returns (empty: bool, ghost ns: Nodes<T>)
    requires Whole(root, repr, nodes, subs) && p in nodes && nodes[p] == node
    modifies repr`child
    ensures Whole(root, repr, ns, subs) && Pruned(ns, nodes, subs, p)
    ensures empty <==> !Holds(subs, p)
    decreases Under(nodes.Keys, p), 1
  {
    var emptyKeys;
    ghost var n1, done, gone;
    emptyKeys, n1, done := PruneKids(node, p, root, repr, nodes, subs);
    KidsStay(n1, nodes, subs, p, done);
    forall k | k in emptyKeys ensures Down(p, k) !in subs && forall j :: Down(Down(p, k), j) !in n1 {
      EmptyKidIsLeaf(n1, nodes, subs, p, done, k);
    }
    ns, gone := RemoveKids(node, emptyKeys, p, repr, n1, subs);
    AllPruned(ns, n1, nodes, subs, p, done, gone);
    PrunedIsTree(ns, nodes, subs, p);
    LeafHoldsNothing(ns, nodes, subs, p);
    empty := node.child == map[] && node.subscriber == None;
  }

  // ---- Dropping ----

  /** No subscriber held is unequal to itself. */
  ghost predicate NotOwnUnequal<T>(subs: View<T>, ne: (T, T) -> bool) {
    forall q :: q in subs ==> !ne(subs[q], subs[q])
  }

  /** Drops every child and lists them all. */
  method DropKids<T>(node: Child<T>, ne: (T, T) -> bool, ghost p: Path, ghost root: Child<T>,
      ghost repr: set<Child<T>>, ghost nodes: Nodes<T>, ghost subs: View<T>)
    returns (emptyKeys: seq<Str>, ghost ns: Nodes<T>, ghost ss: View<T>, ghost done: set<Str>)
    requires Whole(root, repr, nodes, subs) && p in nodes && nodes[p] == node && NotOwnUnequal(subs, ne)
    modifies repr
    ensures Whole(root, repr, ns, ss) && KidsDropped(ns, nodes, ss, subs, p, done)
    ensures forall k :: Down(p, k) in nodes ==> k in done
    ensures forall k :: k in emptyKeys <==> k in done
    decreases Under(nodes.Keys, p), 0
  {
    var todo := node.child.Keys;
    emptyKeys, ns, ss, done := [], nodes, subs, {};
    while todo != {}
      invariant Whole(root, repr, ns, ss) && KidsDropped(ns, nodes, ss, subs, p, done)
      invariant forall k :: k in todo ==> Down(p, k) in nodes
      invariant forall k :: Down(p, k) in nodes ==> k in todo || k in done
      invariant forall k :: k in emptyKeys <==> k in done
    {
      var k :| k in todo;
      DroppedKidsStay(ns, nodes, ss, subs, p, done);
      FewerUnderChild(ns.Keys, nodes.Keys, p, k);
      ghost var n2, s2;
      n2, s2 := DfsDrop(node.child[k], ne, Down(p, k), root, repr, ns, ss);
      KidDropped(n2, ns, nodes, s2, ss, subs, p, k, done);
      emptyKeys := emptyKeys + [k];
      todo, done, ns, ss := todo - {k}, done + {k}, n2, s2;
    }
  }

  /** Takes out the subscriber of a node, if it has one. */
  method DropOwn<T>(node: Child<T>, ne: (T, T) -> bool, ghost p: Path, ghost root: Child<T>,
      ghost repr: set<Child<T>>, ghost nodes: Nodes<T>, ghost subs: View<T>)
    returns (ghost ss: View<T>)
    requires Whole(root, repr, nodes, subs) && p in nodes && nodes[p] == node
    requires p in subs ==> !ne(subs[p], subs[p])
    modifies node`subscriber
    ensures Whole(root, repr, nodes, ss) && ss == subs - {p}
  {
    ss := subs - {p};
    if node.subscriber.Some? {
      var _, _ := Unbind(node, node.subscriber.value, ne, p, root, repr, nodes, subs);
    } else {
      assert ss == subs;
    }
  }

  /** Takes out everything below `node` and the subscribers at it and below. */
  method DfsDrop<T>(node: Child<T>, ne: (T, T) -> bool, ghost p: Path, ghost root: Child<T>,
      ghost repr: set<Child<T>>, ghost nodes: Nodes<T>, ghost subs: View<T>)
    returns (ghost ns: Nodes<T>, ghost ss: View<T>)
    requires Whole(root, repr, nodes, subs) && p in nodes && nodes[p] == node && NotOwnUnequal(subs, ne)
    modifies repr
    ensures Whole(root, repr, ns, ss) && Dropped(ns, nodes, ss, subs, p)
    decreases Under(nodes.Keys, p), 1
  {
    var emptyKeys;
    ghost var n1, s1, done, gone;
    emptyKeys, n1, s1, done := DropKids(node, ne, p, root, repr, nodes, subs);
    DroppedKidsStay(n1, nodes, s1, subs, p, done);
    ss := DropOwn(node, ne, p, root, repr, n1, s1);
    forall k | k in emptyKeys ensures Down(p, k) !in ss && forall j :: Down(Down(p, k), j) !in n1 {
      DroppedKidIsLeaf(n1, nodes, s1, subs, p, done, k);
    }
    ns, gone := RemoveKids(node, emptyKeys, p, repr, n1, ss);
    assert gone == done;
    AllDropped(ns, n1, nodes, s1, subs, p, done);
    DroppedIsTree(ns, nodes, ss, subs, p);
  }

  class Trie<T> {
    const root: Child<T>
    /** The `ne` of the subscribers. */
    const ne: (T, T) -> bool
    /** The topics bound, each to its subscriber. */
    ghost var bound: map<Str, T>
    /** The same by path, and every node of the tree by path. */
    ghost var subs: View<T>
    ghost var nodes: Nodes<T>
    ghost var repr: set<Child<T>>

    ghost predicate Valid()
      reads this, repr
    {
      Whole(root, repr, nodes, subs) && Refines(subs, bound)
    }

    constructor (ne: (T, T) -> bool)
      ensures Valid() && fresh(repr) && this.ne == ne
      ensures nodes.Keys == {Root} && bound == map[]
    {
      root := new Child(Root);
      this.ne := ne;
      bound, subs := map[], map[];
      nodes := map[Path.Root := root];
      repr := {root};
    }

    method SetAt(parts: seq<Str>, value: T, spurious: bool, ghost p: Path) returns (ok: bool)
      requires Whole(root, repr, nodes, subs) && parts != [] && p == PathOf(parts, |parts|)
      modifies this`nodes, this`subs, this`repr, repr
      ensures Whole(root, repr, nodes, subs) && fresh(repr - old(repr))
      ensures ok == (p !in old(subs) && !spurious)
      ensures subs == if ok then old(subs)[p := value] else old(subs)
      ensures nodes.Keys == old(nodes).Keys + Prefixes(p)
    {
      hide Mirror;
      ghost var ns, ss, rs;
      ok, ns, ss, rs := Plant(root, parts, value, spurious, p, repr, nodes, subs);
      nodes, subs, repr := ns, ss, rs;
    }

    method Insert(topic: Str, value: T, spurious: bool) returns (ok: bool)
      requires Valid()
      modifies this, repr
      ensures Valid() && fresh(repr - old(repr))
      ensures ok == (topic !in old(bound) && !spurious)
      ensures bound == if ok then old(bound)[topic := value] else old(bound)
      ensures nodes.Keys == old(nodes).Keys + Prefixes(PathTo(topic))
    {
      ghost var added := bound[topic := value];
      assert Refines(subs[PathTo(topic) := value], added) by { RefinesAdd(subs, bound, topic, value); }
      ok := SetAt(Split(topic), value, spurious, PathTo(topic));
      if ok { bound := added; }
    }

    method GetVal(topic: Str) returns (r: Option<T>)
      requires Valid()
      ensures r == if topic in bound then Some(bound[topic]) else None
    {
      var child := Find(root, Split(topic), repr, nodes, subs);
      if child.None? { return None; }
      r := child.value.subscriber;
    }

    method UnsetAt(topic: Str, value: T, ghost p: Path) returns (r: Option<bool>)
      requires Whole(root, repr, nodes, subs) && p == PathTo(topic)
      requires topic in bound <==> p in subs
      requires topic in bound ==> bound[topic] == subs[p]
      modifies this`bound, this`subs, repr`subscriber
      ensures Whole(root, repr, nodes, subs)
      ensures r.None? <==> p !in nodes
      ensures r == Some(true) <==> topic in old(bound) && !ne(old(bound)[topic], value)
      ensures r == Some(true) ==> bound == old(bound) - {topic} && subs == old(subs) - {p}
      ensures r != Some(true) ==> bound == old(bound) && subs == old(subs)
    {
      hide Mirror;
      var child := Find(root, Split(topic), repr, nodes, subs);
      if child.None? { return None; }
      IsOwned(child.value, Split(topic), |Split(topic)|, root, repr, nodes, subs);
      var ok;
      ghost var ss;
      ok, ss := Unbind(child.value, value, ne, p, root, repr, nodes, subs);
      if ok { subs, bound := ss, bound - {topic}; }
      r := Some(ok);
    }

    /** None for a topic without a node, else whether its subscriber was the one
        given and is now gone. */
    method Remove(topic: Str, value: T) returns (r: Option<bool>)
      requires Valid()
      modifies this`bound, this`subs, repr`subscriber
      ensures Valid()
      ensures r.None? <==> PathTo(topic) !in nodes
      ensures r == Some(true) <==> topic in old(bound) && !ne(old(bound)[topic], value)
      ensures bound == if r == Some(true) then old(bound) - {topic} else old(bound)
    {
      RefinesRemove(subs, bound, topic);
      r := UnsetAt(topic, value, PathTo(topic));
    }

    method PruneAll()
      requires Whole(root, repr, nodes, subs)
      modifies this`nodes, repr`child
      ensures Whole(root, repr, nodes, subs) && Kept(nodes, old(nodes))
      ensures forall q :: q in nodes <==> q == Root || Holds(subs, q)
    {
      hide Mirror, Pruned, Holds;
      ghost var was, ss := nodes, subs;
      var _, ns := DfsEmptyAndRemove(root, Path.Root, root, repr, was, ss);
      PrunedExactly(ns, was, ss);
      nodes := ns;
    }

    /** Prunes the tree: the nodes left are the root and those on the way to a
        bound topic, and a tree that has no others is left as it is. */
    method CleanBranch()
      requires Valid()
      modifies this`nodes, repr`child
      ensures Valid() && Kept(nodes, old(nodes))
      ensures forall q :: q in nodes <==> q == Root || OnWay(bound, q)
      ensures (forall q :: q in old(nodes) ==> q == Root || OnWay(bound, q)) ==> nodes == old(nodes)
    {
      forall q ensures Holds(subs, q) <==> OnWay(bound, q) { HoldsIsOnWay(subs, bound, q); }
      PruneAll();
    }

    /** Nothing stays bound and nothing but the root is left. */
    method Drop()
      requires Valid() && NotOwnUnequal(subs, ne)
      modifies this`nodes, this`subs, this`bound, repr
      ensures Valid() && bound == map[] && nodes.Keys == {Root}
    {
      hide Mirror;
      ghost var ns, ss;
      ns, ss := DfsDrop(root, ne, Path.Root, root, repr, nodes, subs);
      DroppedAtRoot(ns, nodes, ss, subs);
      assert Refines(ss, map[]);
      nodes, subs, bound := ns, ss, map[];
    }
  }
}
