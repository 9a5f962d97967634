/**
 The client registry: a vector of shared cells kept sorted by client id, each
 pointing at a client that an insertion may swap for another of the same id.
 */
module Clients {
  import opened Wrappers
  import opened ClientIds
  import opened Sessions
  import opened Wal
  import opened SessionLog

  class Client {
    const clid: ClientID
    const session: Session
    const storage: ClientStore

    constructor (clid: ClientID, session: Session, storage: ClientStore)
      ensures this.clid == clid && this.session == session && this.storage == storage
    {
      this.clid, this.session, this.storage := clid, session, storage;
    }
  }

  /** Every client logs to files of its own, as their paths are its id. */
  ghost predicate StoresApart(cls: seq<Client>) {
    forall i, j :: 0 <= i < j < |cls| ==>
      cls[i].storage != cls[j].storage && cls[i].storage.file != cls[j].storage.file
  }

  /** The shared pointer a running task holds. */
  class Cell {
    var client: Client

    constructor (client: Client)
      ensures this.client == client
    {
      this.client := client;
    }
  }

  /** The files of the clients are among `files`. */
  ghost predicate StoredIn(cls: seq<Client>, files: set<object>) {
    forall k :: 0 <= k < |cls| ==> cls[k].storage in files && cls[k].storage.file in files
  }

  ghost function LogsOf(cls: seq<Client>, files: set<object>): (r: seq<Log>)
    requires StoredIn(cls, files)
    reads files
    ensures |r| == |cls| && forall k :: 0 <= k < |cls| ==> r[k] == cls[k].storage.log
  {
    if cls == [] then [] else LogsOf(cls[..|cls| - 1], files) + [cls[|cls| - 1].storage.log]
  }

  ghost function EndsOf(cls: seq<Client>): (r: seq<nat>)
    reads set cl | cl in cls :: cl.session
    ensures |r| == |cls| && forall k :: 0 <= k < |cls| ==> r[k] == cls[k].session.ExpirationTime()
  {
    if cls == [] then [] else EndsOf(cls[..|cls| - 1]) + [cls[|cls| - 1].session.ExpirationTime()]
  }

  /** A log that was `was` has one more record, of a disconnection by the server. */
  ghost predicate Logged(store: ClientStore, was: Log, time: nat, at: nat)
    reads store, store.file
  {
    store.Valid() && store.log == Apply(was, Disconnect(Wall(time, DisconnectByServer(at))))
  }

  /** The clients from `m` on have been logged, the last first. */
  ghost predicate LogsAre(all: seq<Client>, files: set<object>, was: seq<Log>, ends: seq<nat>, times: seq<nat>, m: nat)
    requires StoredIn(all, files)
    reads files
  {
    && m <= |all| == |was| == |ends| == |times|
    && (forall k :: 0 <= k < m ==> all[k].storage.Valid() && all[k].storage.log == was[k])
    && (forall k :: m <= k < |all| ==> Logged(all[k].storage, was[k], times[|all| - 1 - k], ends[k]))
  }

  method LogLast(ghost all: seq<Client>, ghost files: set<object>, ghost was: seq<Log>, ghost ends: seq<nat>,
      ghost times: seq<nat>, ghost m: nat, cl: Client, time: nat)
    requires StoredIn(all, files) && StoresApart(all) && LogsAre(all, files, was, ends, times, m + 1)
    requires cl == all[m] && time == times[|all| - 1 - m] <= U64_MAX
    requires ends[m] == cl.session.ExpirationTime() <= U64_MAX
    modifies cl.storage, cl.storage.file
    ensures LogsAre(all, files, was, ends, times, m)
  {
    forall k | 0 <= k < |all| && k != m ensures all[k].storage != cl.storage && all[k].storage.file != cl.storage.file {
      if k < m { assert all[k].storage != all[m].storage; } else { assert all[m].storage != all[k].storage; }
    }
    var _ := cl.storage.LogSession(Wall(time, DisconnectByServer(cl.session.ExpirationTime())));
    assert Logged(all[m].storage, was[m], times[|all| - 1 - m], ends[m]);
  }

  ghost predicate Ascending(ids: seq<ClientID>) {
    forall i, j :: 0 <= i < j < |ids| ==> Before(ids[i], ids[j])
  }

  /** Everything at or before a smaller id is smaller. */
  lemma {:induction false} SmallerBefore(ids: seq<ClientID>, m: nat, id: ClientID)
    requires Ascending(ids) && m < |ids| && Before(ids[m], id)
    ensures forall i :: 0 <= i <= m ==> Before(ids[i], id)
  {
    forall i | 0 <= i < m ensures Before(ids[i], id) { OrderTransitive(ids[i], ids[m], id); }
  }

  lemma {:induction false} LargerAfter(ids: seq<ClientID>, m: nat, id: ClientID)
    requires Ascending(ids) && m < |ids| && Before(id, ids[m])
    ensures forall i :: m <= i < |ids| ==> Before(id, ids[i])
  {
    forall i | m < i < |ids| ensures Before(id, ids[i]) { OrderTransitive(id, ids[m], ids[i]); }
  }

  /** `id` belongs between positions `m - 1` and `m`. */
  ghost predicate Between(ids: seq<ClientID>, m: nat, id: ClientID) {
    && m <= |ids|
    && (forall i :: 0 <= i < m ==> Before(ids[i], id))
    && (forall i :: m <= i < |ids| ==> Before(id, ids[i]))
  }

  lemma {:induction false} BetweenIsAbsent(ids: seq<ClientID>, m: nat, id: ClientID)
    requires Between(ids, m, id)
    ensures id !in ids
  {
    NotBefore(id);
  }

  /** Putting an id where it belongs keeps the order. */
  lemma {:induction false} InsertedAscending(ids: seq<ClientID>, m: nat, id: ClientID)
    requires Ascending(ids) && Between(ids, m, id)
    ensures Ascending(ids[..m] + [id] + ids[m..])
  {
  }

  /** The keys with a cell and a value are those listed, and `cs` is their cells. */
  ghost predicate Indexed<K(!new), C, V>(keys: seq<K>, cs: seq<C>, cells: map<K, C>, bound: map<K, V>) {
    && |keys| == |cs|
    && (forall i :: 0 <= i < |keys| ==> keys[i] in cells && cells[keys[i]] == cs[i])
    && (forall k :: k in cells ==> k in keys)
    && (forall k :: k in cells <==> k in bound)
  }

  lemma {:induction false} IndexedMore<K(!new), C, V>(keys: seq<K>, cs: seq<C>, cells: map<K, C>, bound: map<K, V>,
      m: nat, k: K, c: C, v: V)
    requires Indexed(keys, cs, cells, bound) && m <= |keys| && k !in keys
    ensures Indexed(keys[..m] + [k] + keys[m..], cs[..m] + [c] + cs[m..], cells[k := c], bound[k := v])
  {
    var more, cs', cells' := keys[..m] + [k] + keys[m..], cs[..m] + [c] + cs[m..], cells[k := c];
    forall i | 0 <= i < |more| ensures more[i] in cells' && cells'[more[i]] == cs'[i] {
      if i < m {
        assert keys[i] in keys && more[i] == keys[i] && cs'[i] == cs[i];
      } else if i > m {
        assert keys[i - 1] in keys && more[i] == keys[i - 1] && cs'[i] == cs[i - 1];
      }
    }
    assert keys == keys[..m] + keys[m..];
    forall x | x in cells' ensures x in more { if x != k { assert x in keys[..m] || x in keys[m..]; } }
  }

  class Clients {
    var list: seq<Cell>
    /** The id at every position, and which cell and client each id has. */
    ghost var ids: seq<ClientID>
    ghost var cells: map<ClientID, Cell>
    ghost var bound: map<ClientID, Client>

    ghost predicate Valid()
      reads this, list
    {
      && Ascending(ids) && Indexed(ids, list, cells, bound)
      && (forall i :: 0 <= i < |list| ==> list[i].client.clid == ids[i])
      && (forall i :: 0 <= i < |list| ==> bound[ids[i]] == list[i].client)
    }

    constructor ()
      ensures Valid() && list == [] && cells == map[] && bound == map[]
    {
      list, ids, cells, bound := [], [], map[], map[];
    }

    /** Finds a client's position; there is one exactly when the id is bound. */
    method BinarySearch(clid: ClientID) returns (r: Option<nat>)
      requires Valid()
      ensures r.Some? <==> clid in bound
      ensures r.Some? ==> r.value < |list| && ids[r.value] == clid
    {
      var low, high := 0, |list|;
      while low < high
        invariant 0 <= low <= high <= |list|
        invariant forall i :: 0 <= i < low ==> Before(ids[i], clid)
        invariant forall i :: high <= i < |list| ==> Before(clid, ids[i])
      {
        var mid := low + (high - low) / 2;
        var o := Compare(list[mid].client.clid, clid);
        match o
        case Less =>
          SmallerBefore(ids, mid, clid);
          low := mid + 1;
        case Greater =>
          LargerAfter(ids, mid, clid);
          high := mid;
        case Equal =>
          return Some(mid);
      }
      BetweenIsAbsent(ids, low, clid);
      r := None;
    }

    /** The cell a task is handed for an id. */
    method GetClient(clid: ClientID) returns (r: Option<Cell>)
      requires Valid()
      ensures r == if clid in cells then Some(cells[clid]) else None
    {
      var idx := BinarySearch(clid);
      if idx.None? { return None; }
      r := Some(list[idx.value]);
    }

    /** The client itself, handed to a callback in the program. */
    method SearchMutClient(clid: ClientID) returns (r: Option<Client>)
      requires Valid()
      ensures r == if clid in bound then Some(bound[clid]) else None
    {
      var idx := BinarySearch(clid);
      if idx.None? { return None; }
      r := Some(list[idx.value].client);
    }

    /** A cell points at a client of its id. */
    lemma {:induction false} CellIsOf(id: ClientID)
      requires Valid() && id in cells
      ensures cells[id] in list && cells[id].client.clid == id && cells[id].client == bound[id]
    {
    }

    /** Swaps the client inside a cell. */
    method SwapAt(i: nat, newCl: Client)
      requires Valid() && i < |list| && ids[i] == newCl.clid
      modifies this`bound, list[i]
      ensures Valid() && bound == old(bound)[newCl.clid := newCl]
    {
      forall j | 0 <= j < |ids| && ids[j] == newCl.clid ensures j == i { NotBefore(ids[i]); }
      list[i].client := newCl;
      bound := bound[newCl.clid := newCl];
    }

    /** Puts a new cell between the others. */
    method InsertAt(i: nat, newCl: Client)
      requires Valid() && Between(ids, i, newCl.clid)
      modifies this
      ensures Valid() && bound == old(bound)[newCl.clid := newCl]
      ensures newCl.clid in cells && fresh(cells[newCl.clid])
      ensures cells == old(cells)[newCl.clid := cells[newCl.clid]]
      ensures list == old(list)[..i] + [cells[newCl.clid]] + old(list)[i..]
    {
      var cell := new Cell(newCl);
      BetweenIsAbsent(ids, i, newCl.clid);
      InsertedAscending(ids, i, newCl.clid);
      IndexedMore(ids, list, cells, bound, i, newCl.clid, cell, newCl);
      list, ids := list[..i] + [cell] + list[i..], ids[..i] + [newCl.clid] + ids[i..];
      cells, bound := cells[newCl.clid := cell], bound[newCl.clid := newCl];
    }

    /** The scan of an insertion: where the new client goes, in place of another
        or between two, unless the one found is alive at `now`. */
    method FindPlace(clid: ClientID, now: nat) returns (refused: bool, swap: bool, found: nat)
      requires Valid()
      ensures refused || swap <==> clid in bound
      ensures refused <==> clid in bound && bound[clid].session.IsAlive(now)
      ensures !refused && swap ==> found < |list| && ids[found] == clid
      ensures !refused && !swap ==> Between(ids, found, clid)
    {
      refused, swap, found := false, false, |list|;
      var i := 0;
      while i < |list|
        invariant 0 <= i <= |list|
        invariant forall j :: 0 <= j < i ==> Before(ids[j], clid)
      {
        var o := Compare(clid, list[i].client.clid);
        match o {
          case Equal =>
            if list[i].client.session.IsAlive(now) {
              return true, false, i;
            }
            swap := true;
          case Greater =>
            i := i + 1;
            continue;
          case Less =>
            LargerAfter(ids, i, clid);
            BetweenIsAbsent(ids, i, clid);
        }
        return false, swap, i;
      }
      BetweenIsAbsent(ids, |list|, clid);
    }

    /** Refused exactly when the id is bound to a client alive at `now`, and then
        nothing changes.  Otherwise the id is bound to the new client: in its cell
        when it has one, in a new cell otherwise.  No other id is touched. */
    method Insert(newCl: Client, now: nat) returns (r: Outcome<(), string>)
      requires Valid()
      modifies this, list
      ensures Valid() && !r.Panic?
      ensures r.Err? <==> newCl.clid in old(bound) && old(bound[newCl.clid].session.IsAlive(now))
      ensures bound == if r.Ok? then old(bound)[newCl.clid := newCl] else old(bound)
      ensures r.Err? || newCl.clid in old(cells) ==> list == old(list) && cells == old(cells)
      ensures newCl.clid !in old(cells) ==>
        newCl.clid in cells && fresh(cells[newCl.clid]) && cells == old(cells)[newCl.clid := cells[newCl.clid]]
      ensures forall c :: c in list ==> c in old(list) || fresh(c)
    {
      hide Ascending, Between;
      var refused, swap, found := FindPlace(newCl.clid, now);
      if refused { return Err("duplicate client id"); }
      if swap {
        SwapAt(found, newCl);
      } else {
        InsertAt(found, newCl);
      }
      r := Ok(());
    }

    /** The clients left in the vector are the first `n` of `all`, untouched by logging. */
    ghost predicate Left(all: seq<Client>, files: set<object>, ends: seq<nat>, n: nat)
      reads this, list, set cl | cl in all :: cl.session
    {
      && this !in files && |list| == n <= |all| == |ends|
      && (forall k :: 0 <= k < n ==> list[k] !in files && list[k].client == all[k])
      && (forall k :: 0 <= k < n ==> all[k].session !in files && ends[k] == all[k].session.ExpirationTime() <= U64_MAX)
    }

    method PopLogged(ghost all: seq<Client>, ghost files: set<object>, ghost was: seq<Log>, ghost ends: seq<nat>,
        ghost times: seq<nat>, time: nat)
      requires StoredIn(all, files) && StoresApart(all)
      requires Left(all, files, ends, |list|) && |list| > 0 && LogsAre(all, files, was, ends, times, |list|)
      requires time == times[|all| - |list|] <= U64_MAX
      modifies this`list, files
      ensures Left(all, files, ends, |old(list)| - 1)
      ensures LogsAre(all, files, was, ends, times, |old(list)| - 1)
    {
      var last := |list| - 1;
      var cl := list[last].client;
      list := list[..last];
      LogLast(all, files, was, ends, times, last, cl, time);
    }

    /** `all` are the clients in the order of their ids, each with a log of its own
        among `files`. */
    ghost predicate Held(all: seq<Client>, files: set<object>)
      reads this, list
    {
      && |all| == |list| && (forall k :: 0 <= k < |list| ==> list[k] !in files && list[k].client == all[k])
      && (forall k :: 0 <= k < |all| ==> all[k].session !in files)
      && StoredIn(all, files) && StoresApart(all) && this !in files
    }

    /** The loop: pops and logs until the vector is empty. */
    method PopAll(ghost all: seq<Client>, ghost files: set<object>, ghost was: seq<Log>, ghost ends: seq<nat>,
        times: seq<nat>)
      requires Held(all, files) && LogsAre(all, files, was, ends, times, |all|)
      requires forall k :: 0 <= k < |all| ==>
        ends[k] == all[k].session.ExpirationTime() <= U64_MAX && times[k] <= U64_MAX
      modifies this`list, files
      ensures list == [] && LogsAre(all, files, was, ends, times, 0)
    {
      ghost var n := |list|;
      for i := 0 to |times|
        invariant Left(all, files, ends, n - i) && LogsAre(all, files, was, ends, times, n - i)
      {
        PopLogged(all, files, was, ends, times, times[i]);
      }
    }

    /** Takes every client out, the last first, and logs each in its own session
        log as disconnected by the server, with when it expires. */
    method Clear(times: seq<nat>, ghost all: seq<Client>, ghost files: set<object>)
      requires Held(all, files) && |times| == |list|
      requires forall i :: 0 <= i < |times| ==> times[i] <= U64_MAX
      requires forall k :: 0 <= k < |all| ==> all[k].storage.Valid() && all[k].session.ExpirationTime() <= U64_MAX
      modifies this, files
      ensures Valid() && list == [] && bound == map[]
      ensures LogsAre(all, files, old(LogsOf(all, files)), old(EndsOf(all)), times, 0)
    {
      ghost var was, ends := LogsOf(all, files), EndsOf(all);
      PopAll(all, files, was, ends, times);
      ids, cells, bound := [], map[], map[];
    }
  }

  // ---- Runs of insertions ----

  /** An insertion tried at `now`. */
  datatype Attempt<C> = Attempt(clid: ClientID, client: C, now: nat)

  /** `ttl` gives the time to live the session of a client has at an attempt, which
      may change from any attempt to the next. */
  predicate AliveAt<C>(ttl: (C, nat) -> nat, client: C, i: nat, now: nat) {
    ttl(client, i) >= now
  }

  function Tried<C>(bound: map<ClientID, C>, a: Attempt<C>, alive: bool): map<ClientID, C> {
    if a.clid in bound && alive then bound else bound[a.clid := a.client]
  }

  function AllTried<C>(tries: seq<Attempt<C>>, ttl: (C, nat) -> nat): map<ClientID, C> {
    if tries == [] then map[]
    else
      var n := |tries| - 1;
      var bound, a := AllTried(tries[..n], ttl), tries[n];
      Tried(bound, a, a.clid in bound && AliveAt(ttl, bound[a.clid], n, a.now))
  }

  /** From attempt `n` on, every one for the id finds the client of `i` alive. */
  ghost predicate FoundAlive<C>(tries: seq<Attempt<C>>, ttl: (C, nat) -> nat, id: ClientID, i: int, n: int)
    requires 0 <= i < |tries|
  {
    forall j :: 0 <= n <= j < |tries| && tries[j].clid == id ==> AliveAt(ttl, tries[i].client, j, tries[j].now)
  }

  /** After the attempts `front` this one takes its id: it is the first for it, or
      finds the attempt that holds it dead. */
  ghost predicate Took<C>(front: seq<Attempt<C>>, ttl: (C, nat) -> nat, a: Attempt<C>)
    decreases |front|, 1
  {
    || (forall j :: 0 <= j < |front| ==> front[j].clid != a.clid)
    || exists h :: Holder(front, ttl, a.clid, h) && !AliveAt(ttl, front[h].client, |front|, a.now)
  }

  /** Attempt `i` holds its id at the end: it was the first, or found the attempt
      that held it then dead, and every later one found it alive. */
  ghost predicate Holder<C>(tries: seq<Attempt<C>>, ttl: (C, nat) -> nat, id: ClientID, i: int)
    decreases |tries|, 0
  {
    && 0 <= i < |tries| && tries[i].clid == id
    && FoundAlive(tries, ttl, id, i, i + 1)
    && Took(tries[..i], ttl, tries[i])
  }

  lemma {:induction false} HolderOfMore<C>(tries: seq<Attempt<C>>, ttl: (C, nat) -> nat, id: ClientID, i: int, n: nat)
    requires 0 <= i < n <= |tries|
    ensures Holder(tries, ttl, id, i) ==> Holder(tries[..n], ttl, id, i)
    ensures Holder(tries[..n], ttl, id, i) && FoundAlive(tries, ttl, id, i, n) ==> Holder(tries, ttl, id, i)
  {
    assert tries[..n][..i] == tries[..i];
    assert forall j :: 0 <= j < n ==> tries[..n][j] == tries[j];
  }

  /** The last attempt takes the id if it finds its holder dead, and else leaves it. */
  lemma {:induction false} HoldsOn<C>(tries: seq<Attempt<C>>, ttl: (C, nat) -> nat, id: ClientID, h: int)
    requires tries != [] && Holder(tries[..|tries| - 1], ttl, id, h)
    ensures var n := |tries| - 1;
      Holder(tries, ttl, id,
        if tries[n].clid == id && !AliveAt(ttl, tries[h].client, n, tries[n].now) then n else h)
  {
    var n := |tries| - 1;
    if tries[n].clid != id || AliveAt(ttl, tries[h].client, n, tries[n].now) { HolderOfMore(tries, ttl, id, h, n); }
  }

  /** An empty registry ends up binding exactly the ids tried, each to the client
      of its holder. */
  lemma {:induction false} RunBinds<C>(tries: seq<Attempt<C>>, ttl: (C, nat) -> nat, id: ClientID)
    ensures id in AllTried(tries, ttl) <==> exists i :: 0 <= i < |tries| && tries[i].clid == id
    ensures id in AllTried(tries, ttl) ==>
      exists i :: Holder(tries, ttl, id, i) && AllTried(tries, ttl)[id] == tries[i].client
  {
    if tries != [] {
      var n := |tries| - 1;
      var front, was := tries[..n], AllTried(tries[..n], ttl);
      RunBinds(front, ttl, id);
      assert tries == front + [tries[n]];
      if id in was {
        var h :| Holder(front, ttl, id, h) && was[id] == front[h].client;
        HoldsOn(tries, ttl, id, h);
      } else if tries[n].clid == id {
        assert Holder(tries, ttl, id, n);
      }
    }
  }

  /** No two attempts hold an id at once. */
  lemma {:induction false} OneHolder<C>(tries: seq<Attempt<C>>, ttl: (C, nat) -> nat, id: ClientID, i: int, j: int)
    requires i <= j && Holder(tries, ttl, id, i) && Holder(tries, ttl, id, j)
    ensures i == j
    decreases |tries|
  {
    if i < j {
      assert tries[..j][i] == tries[i];
      var h :| Holder(tries[..j], ttl, id, h) && !AliveAt(ttl, tries[..j][h].client, j, tries[j].now);
      HolderOfMore(tries, ttl, id, i, j);
      if h <= i { OneHolder(tries[..j], ttl, id, h, i); } else { OneHolder(tries[..j], ttl, id, i, h); }
    }
  }

  // ---- The registry over a run ----

  /** A client comes to be inserted, or a client task sets a time to live. */
  datatype Event = Joins(client: Client, now: nat) | Sets(session: Session, ttl: nat)

  /** The insertions tried. */
  function Attempts(events: seq<Event>): seq<Attempt<Client>> {
    if events == [] then []
    else
      var n := |events| - 1;
      Attempts(events[..n]) +
        match events[n] case Joins(c, now) => [Attempt(c.clid, c, now)] case Sets(_, _) => []
  }

  type Ttls = map<Session, nat>

  function TtlOf(ttls: Ttls, s: Session): nat {
    if s in ttls then ttls[s] else 0
  }

  /** The times to live after the events. */
  function SetBy(events: seq<Event>, ttls: Ttls): Ttls {
    if events == [] then ttls
    else
      var n := |events| - 1;
      match events[n]
      case Joins(_, _) => SetBy(events[..n], ttls)
      case Sets(s, t) => SetBy(events[..n], ttls)[s := t]
  }

  /** The times to live that each attempt finds. */
  function Found(events: seq<Event>, ttls: Ttls): (r: seq<Ttls>)
    ensures |r| == |Attempts(events)|
  {
    if events == [] then []
    else
      var n := |events| - 1;
      Found(events[..n], ttls) + if events[n].Joins? then [SetBy(events[..n], ttls)] else []
  }

  /** The time to live of a client at an attempt of the run. */
  function TtlAt(found: seq<Ttls>): (Client, nat) -> nat {
    (c: Client, i: nat) => if i < |found| then TtlOf(found[i], c.session) else 0
  }

  /** The sessions of the events have a time to live in `ttls`. */
  ghost predicate Known(events: seq<Event>, ttls: Ttls) {
    forall i :: 0 <= i < |events| ==>
      match events[i] case Joins(c, _) => c.session in ttls case Sets(s, _) => s in ttls
  }

  /** Every id is bound to the client of some attempt for it. */
  lemma {:induction false} BoundWasTried<C>(tries: seq<Attempt<C>>, ttl: (C, nat) -> nat, id: ClientID)
    requires id in AllTried(tries, ttl)
    ensures exists i :: 0 <= i < |tries| && tries[i].client == AllTried(tries, ttl)[id]
  {
    RunBinds(tries, ttl, id);
  }

  lemma {:induction false} SameTtls<C>(tries: seq<Attempt<C>>, f: (C, nat) -> nat, g: (C, nat) -> nat)
    requires forall j, i: nat :: 0 <= j < |tries| && i < |tries| ==> f(tries[j].client, i) == g(tries[j].client, i)
    ensures AllTried(tries, f) == AllTried(tries, g)
  {
    if tries != [] {
      var n := |tries| - 1;
      assert forall j :: 0 <= j < n ==> tries[..n][j] == tries[j];
      SameTtls(tries[..n], f, g);
      if tries[n].clid in AllTried(tries[..n], f) { BoundWasTried(tries[..n], f, tries[n].clid); }
    }
  }

  lemma {:induction false} TriedIsKnown(events: seq<Event>, ttls: Ttls, i: nat)
    requires Known(events, ttls) && i < |Attempts(events)|
    ensures Attempts(events)[i].client.session in ttls
  {
    var n := |events| - 1;
    if i < |Attempts(events[..n])| { TriedIsKnown(events[..n], ttls, i); }
  }

  /** What the registry binds after the events. */
  function BoundBy(events: seq<Event>, ttls: Ttls): map<ClientID, Client> {
    AllTried(Attempts(events), TtlAt(Found(events, ttls)))
  }

  lemma {:induction false} BoundIsKnown(events: seq<Event>, ttls: Ttls, id: ClientID)
    requires Known(events, ttls) && id in BoundBy(events, ttls)
    ensures BoundBy(events, ttls)[id].session in ttls
  {
    BoundWasTried(Attempts(events), TtlAt(Found(events, ttls)), id);
    var i :| 0 <= i < |Attempts(events)| && Attempts(events)[i].client == BoundBy(events, ttls)[id];
    TriedIsKnown(events, ttls, i);
  }

  lemma {:induction false} SetOneMore(events: seq<Event>, e: Event, ttls: Ttls)
    ensures SetBy(events + [e], ttls)
      == if e.Sets? then SetBy(events, ttls)[e.session := e.ttl] else SetBy(events, ttls)
  {
    assert (events + [e])[..|events|] == events;
  }

  lemma {:induction false} BoundOneMore(events: seq<Event>, e: Event, ttls: Ttls)
    ensures e.Sets? ==> BoundBy(events + [e], ttls) == BoundBy(events, ttls)
    ensures e.Joins? ==>
      var bound, id := BoundBy(events, ttls), e.client.clid;
      BoundBy(events + [e], ttls) == Tried(bound, Attempt(id, e.client, e.now),
        id in bound && TtlOf(SetBy(events, ttls), bound[id].session) >= e.now)
  {
    assert (events + [e])[..|events|] == events;
    var tries, found, more := Attempts(events), Found(events, ttls), Found(events + [e], ttls);
    assert Attempts(events + [e])[..|tries|] == tries;
    assert forall i :: 0 <= i < |found| ==> more[i] == found[i];
    SameTtls(tries, TtlAt(found), TtlAt(more));
    if e.Sets? { assert Attempts(events + [e]) == tries; }
  }

  /** The registry and the sessions are those after the events. */
  ghost predicate Serves(clients: Clients, events: seq<Event>, ttls: Ttls)
    reads clients, clients.list, ttls.Keys
  {
    && clients.Valid() && Known(events, ttls) && clients.bound == BoundBy(events, ttls)
    && (forall s :: s in ttls.Keys ==> s.ttl == TtlOf(SetBy(events, ttls), s))
  }

  /** The cells of the ids bound stay, and others are new. */
  twostate predicate CellsKept(clients: Clients)
    reads clients
  {
    && (forall id :: id in old(clients.cells) ==> id in clients.cells && clients.cells[id] == old(clients.cells)[id])
    && (forall c :: c in clients.list ==> c in old(clients.list) || fresh(c))
  }

  method ServeSets(clients: Clients, s: Session, t: nat, ghost before: seq<Event>, ghost ttls: Ttls)
    requires Serves(clients, before, ttls) && s in ttls
    modifies s
    ensures Serves(clients, before + [Sets(s, t)], ttls)
  {
    SetOneMore(before, Sets(s, t), ttls);
    BoundOneMore(before, Sets(s, t), ttls);
    s.ttl := t;
  }

  lemma {:induction false} JoinBinds(clients: Clients, c: Client, now: nat, before: seq<Event>, ttls: Ttls)
    requires Serves(clients, before, ttls) && c.session in ttls
    ensures Known(before + [Joins(c, now)], ttls)
    ensures SetBy(before + [Joins(c, now)], ttls) == SetBy(before, ttls)
    ensures BoundBy(before + [Joins(c, now)], ttls) == Tried(clients.bound, Attempt(c.clid, c, now),
      c.clid in clients.bound && clients.bound[c.clid].session.IsAlive(now))
  {
    SetOneMore(before, Joins(c, now), ttls);
    BoundOneMore(before, Joins(c, now), ttls);
    if c.clid in clients.bound { BoundIsKnown(before, ttls, c.clid); }
  }

  method ServeJoins(clients: Clients, c: Client, now: nat, ghost before: seq<Event>, ghost ttls: Ttls)
    requires Serves(clients, before, ttls) && c.session in ttls
    modifies clients, clients.list
    ensures Serves(clients, before + [Joins(c, now)], ttls) && CellsKept(clients)
  {
    JoinBinds(clients, c, now, before, ttls);
    var _ := clients.Insert(c, now);
  }

  method ServeOne(clients: Clients, e: Event, ghost before: seq<Event>, ghost ttls: Ttls)
    requires Serves(clients, before, ttls) && Known([e], ttls)
    modifies clients, clients.list, ttls.Keys
    ensures Serves(clients, before + [e], ttls) && CellsKept(clients)
  {
    assert e == [e][0];
    match e
    case Sets(s, t) => ServeSets(clients, s, t, before, ttls);
    case Joins(c, now) => ServeJoins(clients, c, now, before, ttls);
  }

  /** Serves events in order: the registry binds what the attempts bind, whatever
      client tasks do to their sessions meanwhile, and no task's cell is replaced. */
  method Serve(clients: Clients, events: seq<Event>, ghost before: seq<Event>, ghost ttls: Ttls)
    requires Serves(clients, before, ttls) && Known(events, ttls)
    modifies clients, clients.list, ttls.Keys
    ensures Serves(clients, before + events, ttls) && CellsKept(clients)
  {
    if events == [] {
      assert before + events == before;
    } else {
      var e, rest := events[0], events[1..];
      assert Known([e], ttls) && Known(rest, ttls);
      assert before + events == before + [e] + rest;
      ServeOne(clients, e, before, ttls);
      assert forall k :: 0 <= k < |clients.list| ==>
        clients.list[k] in old(clients.list) || fresh(clients.list[k]);
      Serve(clients, rest, before + [e], ttls);
    }
  }
}
