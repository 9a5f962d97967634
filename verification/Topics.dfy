/**
 Topics and their paths: `split('/')`, its inverse, and the finite map from
 topics that a map from paths stands for.
 */
module Topics {
  import opened Bytes

  /** The way from the root of the tree to a node. */
  datatype Path = Root | Down(up: Path, part: Str)

  /** What a tree holds: a value for some paths. */
  type View<T> = map<Path, T>

  const SLASH: byte := 0x2F

  /** The parts of a topic between slashes; never an empty list. */
  function Split(s: Str): (r: seq<Str>)
    ensures r != []
  {
    if s == [] then [[]]
    else if s[0] == SLASH then [[]] + Split(s[1..])
    else
      var rest := Split(s[1..]);
      [[s[0]] + rest[0]] + rest[1..]
  }

  function Join(p: seq<Str>): Str {
    if p == [] then []
    else if |p| == 1 then p[0]
    else p[0] + [SLASH] + Join(p[1..])
  }

  predicate SlashFree(p: seq<Str>) {
    forall i :: 0 <= i < |p| ==> SLASH !in p[i]
  }

  lemma {:induction false} SplitIsSlashFree(s: Str)
    ensures SlashFree(Split(s))
  {
    if s != [] { SplitIsSlashFree(s[1..]); }
  }

  lemma {:induction false} JoinSplit(s: Str)
    ensures Join(Split(s)) == s
  {
    if s == [] {
    } else {
      var rest := Split(s[1..]);
      JoinSplit(s[1..]);
      assert s == [s[0]] + s[1..];
      if s[0] == SLASH {
        assert Split(s)[1..] == rest;
      } else if |rest| > 1 {
        assert Split(s)[1..] == rest[1..];
        assert ([s[0]] + rest[0]) + [SLASH] + Join(rest[1..]) == [s[0]] + (rest[0] + [SLASH] + Join(rest[1..]));
      }
    }
  }

  /** Different topics have different paths. */
  lemma {:induction false} SplitInjective(s: Str, t: Str)
    requires Split(s) == Split(t)
    ensures s == t
  {
    JoinSplit(s);
    JoinSplit(t);
  }

  lemma {:induction false} SplitPart(a: Str)
    requires SLASH !in a
    ensures Split(a) == [a]
  {
    if a != [] {
      assert a[0] in a && forall x :: x in a[1..] ==> x in a;
      SplitPart(a[1..]);
      assert [a[0]] + a[1..] == a;
    }
  }

  lemma {:induction false} SplitFirst(a: Str, t: Str)
    requires SLASH !in a
    ensures Split(a + [SLASH] + t) == [a] + Split(t)
  {
    var s := a + [SLASH] + t;
    if a == [] {
      assert s[1..] == t;
    } else {
      assert a[0] in a && forall x :: x in a[1..] ==> x in a;
      assert s[1..] == a[1..] + [SLASH] + t;
      SplitFirst(a[1..], t);
      assert [a[0]] + a[1..] == a;
      assert ([a[1..]] + Split(t))[1..] == Split(t);
    }
  }

  lemma {:induction false} SplitJoin(p: seq<Str>)
    requires p != [] && SlashFree(p)
    ensures Split(Join(p)) == p
  {
    if |p| == 1 {
      SplitPart(p[0]);
    } else {
      SplitJoin(p[1..]);
      SplitFirst(p[0], Join(p[1..]));
      assert p == [p[0]] + p[1..];
    }
  }

  /** Splitting at slashes is a bijection from topics to the non-empty lists of
      parts without a slash, and joining is its inverse. */
  lemma {:induction false} SplitIsBijection(s: Str, p: seq<Str>)
    ensures Split(s) == p <==> p != [] && SlashFree(p) && s == Join(p)
  {
    SplitIsSlashFree(s);
    JoinSplit(s);
    if p != [] && SlashFree(p) { SplitJoin(p); }
  }

  // ---- Paths ----

  /** The path of the first `i` parts. */
  function PathOf(parts: seq<Str>, i: nat): Path
    requires i <= |parts|
  {
    if i == 0 then Root else Down(PathOf(parts, i - 1), parts[i - 1])
  }

  function PathTo(topic: Str): Path {
    PathOf(Split(topic), |Split(topic)|)
  }

  function Parts(p: Path): seq<Str> {
    match p case Root => [] case Down(up, part) => Parts(up) + [part]
  }

  lemma {:induction false} PartsOfPath(parts: seq<Str>, i: nat)
    requires i <= |parts|
    ensures Parts(PathOf(parts, i)) == parts[..i]
  {
    if i > 0 { PartsOfPath(parts, i - 1); }
  }

  lemma {:induction false} PathOfParts(p: Path)
    ensures PathOf(Parts(p), |Parts(p)|) == p
  {
    if p.Down? {
      PathOfParts(p.up);
      PathOfPrefix(Parts(p.up), [p.part], |Parts(p.up)|);
    }
  }

  lemma {:induction false} PathOfPrefix(a: seq<Str>, b: seq<Str>, i: nat)
    requires i <= |a|
    ensures PathOf(a + b, i) == PathOf(a, i)
  {
    if i > 0 { PathOfPrefix(a, b, i - 1); }
  }

  /** Different topics lead to different nodes. */
  lemma {:induction false} PathInjective(s: Str, t: Str)
    requires PathTo(s) == PathTo(t)
    ensures s == t
  {
    PartsOfPath(Split(s), |Split(s)|);
    PartsOfPath(Split(t), |Split(t)|);
    assert Split(s)[..|Split(s)|] == Split(s) && Split(t)[..|Split(t)|] == Split(t);
    SplitInjective(s, t);
  }

  /** The topic a path stands for, when it has slash-free parts. */
  function TopicOf(p: Path): Str {
    Join(Parts(p))
  }

  lemma {:induction false} TopicOfPath(t: Str)
    ensures TopicOf(PathTo(t)) == t
  {
    PartsOfPath(Split(t), |Split(t)|);
    assert Split(t)[..|Split(t)|] == Split(t);
    JoinSplit(t);
  }

  /** The paths of topics: below the root, with no slash in a part. */
  predicate IsTopicPath(p: Path) {
    p.Down? && SlashFree(Parts(p))
  }

  /** They are the paths that their topic leads back to. */
  lemma {:induction false} TopicPaths(p: Path)
    ensures IsTopicPath(p) <==> PathTo(TopicOf(p)) == p
  {
    var parts, t := Parts(p), TopicOf(p);
    PathOfParts(p);
    SplitIsBijection(t, parts);
    PartsOfPath(Split(t), |Split(t)|);
    assert Split(t)[..|Split(t)|] == Split(t);
    SplitIsSlashFree(t);
  }

  // ---- The map from topics ----

  /** `bound` is the map from topics that `v` holds by path. */
  ghost predicate Refines<T>(v: View<T>, bound: map<Str, T>) {
    && (forall p :: p in v ==> IsTopicPath(p))
    && (forall t :: t in bound <==> PathTo(t) in v)
    && (forall t :: t in bound ==> bound[t] == v[PathTo(t)])
  }

  /** The map is determined by what is held: looking up is its lookup. */
  lemma {:induction false} RefinesOne<T>(v: View<T>, a: map<Str, T>, b: map<Str, T>)
    requires Refines(v, a) && Refines(v, b)
    ensures a == b
  {
  }

  lemma {:induction false} RefinesAdd<T>(v: View<T>, bound: map<Str, T>, t: Str, x: T)
    requires Refines(v, bound)
    ensures Refines(v[PathTo(t) := x], bound[t := x])
  {
    TopicOfPath(t);
    TopicPaths(PathTo(t));
    forall u | PathTo(u) == PathTo(t) ensures u == t { PathInjective(u, t); }
  }

  lemma {:induction false} RefinesRemove<T>(v: View<T>, bound: map<Str, T>, t: Str)
    requires Refines(v, bound)
    ensures Refines(v - {PathTo(t)}, bound - {t})
    ensures t in bound <==> PathTo(t) in v
    ensures t in bound ==> bound[t] == v[PathTo(t)]
  {
    forall u | PathTo(u) == PathTo(t) ensures u == t { PathInjective(u, t); }
  }
}
