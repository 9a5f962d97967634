/**
 The topic router: subscriptions put into the trie, and the subscriber a topic
 is routed to.  Nothing the router does removes one, so the first instance kept
 for a topic stays.
 */
module Router {
  import opened Wrappers
  import opened Bytes
  import opened ServiceLevels
  import opened ClientHash
  import opened ClientIds
  import opened Subscribe
  import opened Topics
  import Trie

  datatype SubscriberInstance = SubscriberInstance(clid: ClientID, maxQos: ServiceLevel)

  /** Instances are compared by client alone, and `ne` is exactly not equal. */
  function InstanceNe(a: SubscriberInstance, b: SubscriberInstance): bool {
    !Eq(a.clid, b.clid)
  }

  /** No instance is unequal to itself. */
  lemma {:induction false} NeverOwnUnequal(subs: View<SubscriberInstance>)
    ensures Trie.NotOwnUnequal(subs, InstanceNe)
  {
  }

  /** The level does not count, nor does the difference of two clients that the
      program takes as equal: removing the one removes the other. */
  lemma {:induction false} EqualClientsMatch(a: SubscriberInstance, b: SubscriberInstance)
    requires |a.clid.id| == |b.clid.id| && BlockPart(a.clid.id) == BlockPart(b.clid.id)
    ensures InstanceNe(a, b) <==>
      |a.clid.id| % 4 != 0 && a.clid.id[|a.clid.id| - 1] != b.clid.id[|b.clid.id| - 1]
  {
    EqLooksAtLast(a.clid, b.clid);
  }

  type Routes = map<Str, SubscriberInstance>

  /** One insertion asked for; `lost` when the weak exchange fails for no reason. */
  datatype Request = Request(topic: Str, instance: SubscriberInstance, lost: bool)

  function Put(bound: Routes, r: Request): Routes {
    if r.topic in bound || r.lost then bound else bound[r.topic := r.instance]
  }

  function After(bound: Routes, rs: seq<Request>): Routes {
    if rs == [] then bound else Put(After(bound, rs[..|rs| - 1]), rs[|rs| - 1])
  }

  /** A batch of filters of one client. */
  datatype Batch = Batch(clid: ClientID, subs: seq<Filter>, lost: seq<bool>)

  predicate WellFormed(b: Batch) {
    |b.lost| == |b.subs|
  }

  function RequestAt(b: Batch, i: nat): Request
    requires WellFormed(b) && i < |b.subs|
  {
    Request(b.subs[i].topic, SubscriberInstance(b.clid, b.subs[i].maxQos), b.lost[i])
  }

  function Asked(b: Batch, n: nat): (rs: seq<Request>)
    requires WellFormed(b) && n <= |b.subs|
    ensures |rs| == n
  {
    if n == 0 then [] else Asked(b, n - 1) + [RequestAt(b, n - 1)]
  }

  /** The requests of all batches, in order. */
  function Flat(bs: seq<Batch>): seq<Request>
    requires forall b :: b in bs ==> WellFormed(b)
  {
    if bs == [] then [] else Flat(bs[..|bs| - 1]) + Asked(bs[|bs| - 1], |bs[|bs| - 1].subs|)
  }

  /** The routes after every batch in turn. */
  function AfterBatches(bound: Routes, bs: seq<Batch>): Routes
    requires forall b :: b in bs ==> WellFormed(b)
  {
    if bs == [] then bound
    else After(AfterBatches(bound, bs[..|bs| - 1]), Asked(bs[|bs| - 1], |bs[|bs| - 1].subs|))
  }

  // ---- Which instance a topic is routed to ----

  /** The first request for a topic that is not lost, looked for from the front. */
  function FirstKept(rs: seq<Request>, topic: Str): (r: Option<SubscriberInstance>) {
    if rs == [] then None
    else if rs[0].topic == topic && !rs[0].lost then Some(rs[0].instance)
    else FirstKept(rs[1..], topic)
  }

  lemma {:induction false} FirstKeptSnoc(rs: seq<Request>, r: Request, topic: Str)
    ensures FirstKept(rs + [r], topic)
      == if FirstKept(rs, topic).Some? then FirstKept(rs, topic)
         else if r.topic == topic && !r.lost then Some(r.instance) else None
  {
    if rs == [] {
      assert (rs + [r])[1..] == [];
    } else {
      assert (rs + [r])[1..] == rs[1..] + [r];
      FirstKeptSnoc(rs[1..], r, topic);
    }
  }

  function Lookup(bound: Routes, topic: Str): Option<SubscriberInstance> {
    if topic in bound then Some(bound[topic]) else None
  }

  /** Starting from no routes, what is routed is the first request kept. */
  lemma {:induction false} FirstKeptWins(rs: seq<Request>, topic: Str)
    ensures Lookup(After(map[], rs), topic) == FirstKept(rs, topic)
  {
    if rs != [] {
      FirstKeptWins(rs[..|rs| - 1], topic);
      FirstKeptSnoc(rs[..|rs| - 1], rs[|rs| - 1], topic);
      assert rs == rs[..|rs| - 1] + [rs[|rs| - 1]];
    }
  }

  lemma {:induction false} AfterBoth(bound: Routes, a: seq<Request>, b: seq<Request>)
    ensures After(bound, a + b) == After(After(bound, a), b)
  {
    if b == [] {
      assert a + b == a;
    } else {
      assert (a + b)[..|a + b| - 1] == a + b[..|b| - 1];
      AfterBoth(bound, a, b[..|b| - 1]);
    }
  }

  lemma {:induction false} BatchesAreFlat(bound: Routes, bs: seq<Batch>)
    requires forall b :: b in bs ==> WellFormed(b)
    ensures AfterBatches(bound, bs) == After(bound, Flat(bs))
  {
    if bs != [] {
      BatchesAreFlat(bound, bs[..|bs| - 1]);
      AfterBoth(bound, Flat(bs[..|bs| - 1]), Asked(bs[|bs| - 1], |bs[|bs| - 1].subs|));
    }
  }

  /** After any sequence of batches a topic is routed to the first instance kept. */
  lemma {:induction false} RouteIsFirst(bs: seq<Batch>, topic: Str)
    requires forall b :: b in bs ==> WellFormed(b)
    ensures Lookup(AfterBatches(map[], bs), topic) == FirstKept(Flat(bs), topic)
  {
    BatchesAreFlat(map[], bs);
    FirstKeptWins(Flat(bs), topic);
  }

  /** With no failure of the exchange it is the first instance ever asked for. */
  lemma {:induction false} FirstEver(rs: seq<Request>, topic: Str, i: nat)
    requires forall r :: r in rs ==> !r.lost
    requires i < |rs| && rs[i].topic == topic && forall j :: 0 <= j < i ==> rs[j].topic != topic
    ensures FirstKept(rs, topic) == Some(rs[i].instance)
  {
    if i > 0 {
      assert rs[0].topic != topic;
      FirstEver(rs[1..], topic, i - 1);
    }
  }

  /** The routes after the first `n` requests of a batch. */
  function AfterFirst(bound: Routes, b: Batch, n: nat): Routes
    requires WellFormed(b) && n <= |b.subs|
  {
    if n == 0 then bound else Put(AfterFirst(bound, b, n - 1), RequestAt(b, n - 1))
  }

  lemma {:induction false} FirstAreAsked(bound: Routes, b: Batch, n: nat)
    requires WellFormed(b) && n <= |b.subs|
    ensures AfterFirst(bound, b, n) == After(bound, Asked(b, n))
  {
    if n > 0 {
      FirstAreAsked(bound, b, n - 1);
      assert Asked(b, n)[..n - 1] == Asked(b, n - 1);
    }
  }

  // ---- By the filters of the batches ----

  /** Filter `i` of the batch asks for the topic, and is not lost. */
  predicate Wants(b: Batch, i: nat, topic: Str) {
    i < |b.subs| && i < |b.lost| && b.subs[i].topic == topic && !b.lost[i]
  }

  predicate AsksFor(bs: seq<Batch>, k: nat, i: nat, topic: Str) {
    k < |bs| && Wants(bs[k], i, topic)
  }

  /** It is the first to do so: no filter of an earlier batch does, and none before
      it in its own. */
  ghost predicate FirstFor(bs: seq<Batch>, k: nat, i: nat, topic: Str) {
    && AsksFor(bs, k, i, topic)
    && forall h: nat, j: nat :: AsksFor(bs, h, j, topic) ==> k < h || (k == h && i <= j)
  }

  lemma {:induction false} BatchSkips(bound: Routes, b: Batch, n: nat, topic: Str)
    requires WellFormed(b) && n <= |b.subs|
    requires topic in bound || forall i: nat :: i < n ==> !Wants(b, i, topic)
    ensures Lookup(AfterFirst(bound, b, n), topic) == Lookup(bound, topic)
  {
    if n > 0 {
      BatchSkips(bound, b, n - 1, topic);
      assert !Wants(b, n - 1, topic) || topic in bound;
    }
  }

  lemma {:induction false} BatchBinds(bound: Routes, b: Batch, n: nat, i: nat, topic: Str)
    requires WellFormed(b) && i < n <= |b.subs| && topic !in bound
    requires Wants(b, i, topic) && forall j: nat :: j < i ==> !Wants(b, j, topic)
    ensures Lookup(AfterFirst(bound, b, n), topic) == Some(SubscriberInstance(b.clid, b.subs[i].maxQos))
  {
    if i == n - 1 { BatchSkips(bound, b, n - 1, topic); } else { BatchBinds(bound, b, n - 1, i, topic); }
  }

  lemma {:induction false} FirstExists(bs: seq<Batch>, topic: Str, k: nat, i: nat) returns (k': nat, i': nat)
    requires AsksFor(bs, k, i, topic)
    ensures FirstFor(bs, k', i', topic)
    decreases k, i
  {
    if h: nat, j: nat :| AsksFor(bs, h, j, topic) && !(k < h || (k == h && i <= j)) {
      k', i' := FirstExists(bs, topic, h, j);
    } else {
      k', i' := k, i;
    }
  }

  lemma {:induction false} LastBatch(bs: seq<Batch>)
    requires bs != [] && forall b :: b in bs ==> WellFormed(b)
    ensures var n := |bs| - 1;
      AfterBatches(map[], bs) == AfterFirst(AfterBatches(map[], bs[..n]), bs[n], |bs[n].subs|)
  {
    var n := |bs| - 1;
    FirstAreAsked(AfterBatches(map[], bs[..n]), bs[n], |bs[n].subs|);
  }

  lemma {:induction false} NotRouted(bs: seq<Batch>, topic: Str)
    requires forall b :: b in bs ==> WellFormed(b)
    requires forall k: nat, i: nat :: !AsksFor(bs, k, i, topic)
    ensures topic !in AfterBatches(map[], bs)
  {
    if bs != [] {
      var n := |bs| - 1;
      forall k: nat, i: nat ensures !AsksFor(bs[..n], k, i, topic) { assert !AsksFor(bs, k, i, topic); }
      NotRouted(bs[..n], topic);
      LastBatch(bs);
      forall i: nat ensures !Wants(bs[n], i, topic) { assert !AsksFor(bs, n, i, topic); }
      BatchSkips(AfterBatches(map[], bs[..n]), bs[n], |bs[n].subs|, topic);
    }
  }

  lemma {:induction false} RoutedAt(bs: seq<Batch>, topic: Str, k: nat, i: nat)
    requires forall b :: b in bs ==> WellFormed(b)
    requires FirstFor(bs, k, i, topic)
    ensures Lookup(AfterBatches(map[], bs), topic) == Some(SubscriberInstance(bs[k].clid, bs[k].subs[i].maxQos))
  {
    var n := |bs| - 1;
    var was := AfterBatches(map[], bs[..n]);
    LastBatch(bs);
    if k < n {
      forall h: nat, j: nat | AsksFor(bs[..n], h, j, topic) ensures k < h || (k == h && i <= j) {
        assert AsksFor(bs, h, j, topic);
      }
      assert FirstFor(bs[..n], k, i, topic);
      RoutedAt(bs[..n], topic, k, i);
      BatchSkips(was, bs[n], |bs[n].subs|, topic);
    } else {
      forall h: nat, j: nat ensures !AsksFor(bs[..n], h, j, topic) {
        if h < n { assert !AsksFor(bs, h, j, topic); }
      }
      NotRouted(bs[..n], topic);
      forall j: nat | j < i ensures !Wants(bs[n], j, topic) { assert !AsksFor(bs, n, j, topic); }
      BatchBinds(was, bs[n], |bs[n].subs|, i, topic);
    }
  }

  /** After any batches of any clients a topic is routed to the client and the level
      of the first filter for it that was not lost, and to none if there is none. */
  lemma {:induction false} RoutedByFilter(bs: seq<Batch>, topic: Str)
    requires forall b :: b in bs ==> WellFormed(b)
    ensures topic in AfterBatches(map[], bs) <==> exists k: nat, i: nat :: AsksFor(bs, k, i, topic)
    ensures forall k: nat, i: nat :: FirstFor(bs, k, i, topic) ==>
      Lookup(AfterBatches(map[], bs), topic) == Some(SubscriberInstance(bs[k].clid, bs[k].subs[i].maxQos))
  {
    forall k: nat, i: nat | FirstFor(bs, k, i, topic)
      ensures Lookup(AfterBatches(map[], bs), topic) == Some(SubscriberInstance(bs[k].clid, bs[k].subs[i].maxQos))
    {
      RoutedAt(bs, topic, k, i);
    }
    if k: nat, i: nat :| AsksFor(bs, k, i, topic) {
      var h, j := FirstExists(bs, topic, k, i);
    } else {
      NotRouted(bs, topic);
    }
  }

  /** Without spurious failures it is the first filter for the topic of all. */
  lemma {:induction false} FirstFilterWins(bs: seq<Batch>, topic: Str, k: nat, i: nat)
    requires forall b :: b in bs ==> WellFormed(b) && forall l :: l in b.lost ==> !l
    requires k < |bs| && i < |bs[k].subs| && bs[k].subs[i].topic == topic
    requires forall j :: 0 <= j < i ==> bs[k].subs[j].topic != topic
    requires forall h :: 0 <= h < k ==> forall f :: f in bs[h].subs ==> f.topic != topic
    ensures Lookup(AfterBatches(map[], bs), topic) == Some(SubscriberInstance(bs[k].clid, bs[k].subs[i].maxQos))
  {
    assert bs[k] in bs && bs[k].lost[i] in bs[k].lost;
    forall h: nat, j: nat | AsksFor(bs, h, j, topic) ensures k < h || (k == h && i <= j) {
      assert bs[h].subs[j] in bs[h].subs;
    }
    assert FirstFor(bs, k, i, topic);
    RoutedByFilter(bs, topic);
  }

  // ---- The operations ----

  /** The levels asked for by the first `n` filters, in order. */
  function Levels(subs: seq<Filter>, n: nat): (r: seq<ServiceLevel>)
    requires n <= |subs|
    ensures |r| == n && forall i :: 0 <= i < n ==> r[i] == subs[i].maxQos
  {
    if n == 0 then [] else Levels(subs, n - 1) + [subs[n - 1].maxQos]
  }

  method Add(trie: Trie.Trie<SubscriberInstance>, r: Request) returns (ok: bool)
    requires trie.Valid()
    modifies trie, trie.repr
    ensures trie.Valid() && fresh(trie.repr - old(trie.repr))
    ensures trie.bound == Put(old(trie.bound), r)
  {
    ok := trie.Insert(r.topic, r.instance, r.lost);
  }

  /** Puts every filter in and answers each with the level it asked for; the
      outcome of the insertion is not looked at. */
  method SubscribeAll(trie: Trie.Trie<SubscriberInstance>, clid: ClientID, subs: seq<Filter>, lost: seq<bool>)
    returns (codes: seq<ServiceLevel>)
    requires trie.Valid() && |lost| == |subs|
    modifies trie, trie.repr
    ensures trie.Valid() && fresh(trie.repr - old(trie.repr))
    ensures trie.bound == After(old(trie.bound), Asked(Batch(clid, subs, lost), |subs|))
    ensures codes == Levels(subs, |subs|)
  {
    ghost var b, was := Batch(clid, subs, lost), trie.bound;
    codes := [];
    for i := 0 to |subs|
      invariant trie.Valid() && fresh(trie.repr - old(trie.repr))
      invariant trie.bound == AfterFirst(was, b, i)
      invariant codes == Levels(subs, i)
    {
      var instance := SubscriberInstance(clid, subs[i].maxQos);
      var _ := Add(trie, Request(subs[i].topic, instance, lost[i]));
      codes := codes + [subs[i].maxQos];
    }
    FirstAreAsked(was, b, |subs|);
  }

  method Route(trie: Trie.Trie<SubscriberInstance>, topic: Str) returns (r: Option<SubscriberInstance>)
    requires trie.Valid()
    ensures r == Lookup(trie.bound, topic)
  {
    r := trie.GetVal(topic);
  }
}
