# An MQTT 5.0 broker, modelled and proved in Dafny

The broker keeps its messages in a lock-free list, its subscriptions in a topic
trie, its clients in a sorted registry of swappable cells, its sessions in text
logs on disk, and speaks MQTT Version 5.0. This project models those five parts
and proves what they promise.

| part | files |
|---|---|
| lock-free message list | `LinkedList.dfy` (the steps), `LinkedListProofs.dfy` (the invariant), `LinkedListResults.dfy`, `LinkedListCalls.dfy` (single calls) |
| topic trie and router | `Topics.dfy`, `PathMaps.dfy`, `Pruning.dfy`, `Dropping.dfy`, `Trie.dfy`, `Router.dfy` |
| client registry | `ClientHash.dfy`, `ClientIds.dfy`, `ClientCollisions.dfy`, `Clients.dfy` |
| sessions and their files | `Sessions.dfy`, `ClientTask.dfy`, `Wal.dfy`, `SessionLog.dfy`, `LogLimits.dfy`, `RestoreSteps.dfy`, `SessionLife.dfy`, `Subscribed.dfy` |
| wire format | `Bytes.dfy`, `Utf8.dfy`, `ServiceLevels.dfy`, `RemainingLength.dfy`, `Picks.dfy`, `Publish.dfy`, `PublishRoundTrip.dfy`, `PublishLayout.dfy`, `Connack.dfy`, `ConnackCodec.dfy`, `ConnackRoundTrip.dfy`, `ConnackLayout.dfy`, `Subscribe.dfy` |

`dafny verify dfyconfig.toml` checks the whole project.

How the program's world is represented:

- The list is a transition system: one atomic load or compare-exchange a step,
  any number of threads and values, every interleaving a sequence of actions.
  Ghost fields log the links, the unlinks, what each take read, and the link each
  failed exchange is charged to.
- The trie, its nodes, the registry, its cells, sessions, byte buffers and files
  are heap objects whose methods update them in place. Each method is proved
  against a function or a map, and the lemmas are about those.
- A `str`, `Vec<u8>` or file is a sequence of bytes; a `String` is one that is
  valid UTF-8. An out-of-range buffer read, a failed `unwrap` and a 16-bit
  overflow are the outcome `Panic`. Sums of 64-bit times are not bounded.
- The clock, socket reads, the order of a hash map and the spurious failure of a
  weak compare-exchange are parameters or free choices, so every theorem holds
  for all of them. A file is read in pieces of the buffer's size.

Results that qualify what one may expect of the program:

- A take may empty the list while an append links behind the node it takes; the
  appended value is then lost: its node is neither taken nor in the list
  (`LostAppend`). `ConservedExactly` says when values are conserved, in every run,
  and `CalmRunsConserve` that runs whose emptying takes overlap no append always
  do.
- A take may also empty the list between the two loads of head in an append, and
  the append then dereferences null (`AppendFaults`). `FaultsExactly` says that
  this is the only step of a run that does.
- `RemainingLength::encode(0)` writes no byte, so PUBLISH and CONNACK packets
  whose properties encode to nothing do not come back; nor do a PUBLISH with the
  dup flag, the PUBLISH properties the encoder skips, a CONNACK without
  properties, and empty user property lists. The two round trips are stated as
  equivalences with exactly these exceptions.
- A PUBLISH or CONNACK is decoded from the whole buffer, never cut at its
  remaining length, so whatever bytes follow the frame become payload
  (`PublishComesBack`) or more properties (`ConnackComesBack`).
- The SUBSCRIBE decoder reads properties as filters: a packet is read back exactly
  when it has none (`SubscribeRoundTrip`).
- A log of at most 512 bytes is always read back; a longer one is exactly when a
  record ends at every multiple of 512 bytes inside it, and is a panic otherwise
  (`WrittenLogReadsBack`). With times of ten digits none ends there, so a log is
  read back exactly while it fits one read (`ReadableWhileShort`): a session is
  restored seven times at most (`SevenAtMost`), and the disconnection after the
  seventh leaves a log that panics (`EighthIsLost`).
- A restoration reads the log and writes its record in two steps with nothing
  between them locked. Undisturbed, it is atomic (`UndisturbedIsAtomic`); the
  first one disturbed overwrites what was written meanwhile (`AddsExactly`), and
  two of them may both restore one disconnection (`BothRestore`).
- A client task that panics on bytes that are no packet logs nothing, so its
  session stays online in its log and is never restored (`PanickedStaysOnline`).
- A subscription file is read back exactly when it is at most 1024 bytes and no
  topic holds a line feed (`WrittenReadsBack`).
- The keep-alive deadline is counted from the top of the turn before the blocking
  read, not from the packet. A client that sends within `g` seconds of every top
  of its task's loop is safe exactly when the window is longer than `2g`
  (`TwoGapsFit`); otherwise it may send in time and have its packet read, refused
  and dropped, with its bytes never given back to the buffer (`LateRunLoses`).
- The CONNACK test of the repository expects four bytes for Maximum Packet Size;
  encoder and decoder both use two, and so does the model.
- The equality of client ids compares lengths and hashes. Every step of the hash
  can be undone, but the step after the whole blocks of four bytes takes only the
  very last byte: two ids that differ in the bytes before it are taken as equal,
  yet sorted apart (`IgnoredCollide`). Two that differ in one block only never
  collide (`OneBlockIdsApart`). There are ids of `n` bytes that collide exactly
  when `n` is not 0, 1 or 4 (`CollidingLengths`).

## Model

| member | source | states |
|---|---|---|
| LinkedListProofs.InvAlways | src/ds/linked_list.rs:30-109 | in every interleaving the invariant of memory, of every thread's private node and of every traverser's cursor holds |
| LinkedListResults.ConservedExactly | src/ds/linked_list.rs:30-109 | in every run, values taken followed by the list are the values appended in link order exactly when every take's node still had the successor the take read |
| LinkedListResults.CalmRunsConserve | src/ds/linked_list.rs:30-109 | with every emptying take overlapping no append, nothing is lost, duplicated or reordered |
| LinkedListResults.CalmRunsNeverFault | src/ds/linked_list.rs:47-47 | in such a run the second load of head is never null, so no thread dereferences null |
| LinkedListResults.ChainUnique | src/ds/linked_list.rs:54-64 | following next from head gives one list only |
| LinkedListResults.ProgramOrder | src/ds/linked_list.rs:30-51 | in every run each thread's values are linked once each, in its program order, up to the append in progress |
| LinkedListResults.FailuresCharged | src/ds/linked_list.rs:41-50 | every failed exchange of a thread is charged to a different link made by another thread, and a traversal is bounded by the appends |
| LinkedListResults.AppendsEnd | src/ds/linked_list.rs:33-50 | the atomic steps a thread spends in appends are bounded by its appends, its charges and the appends of the run |
| LinkedListResults.AppendOnlyRuns | src/ds/linked_list.rs:30-51 | with appends only, the chain holds exactly the linked nodes, each once, and each idle thread's values in order |
| LinkedListResults.LostAppend | src/ds/linked_list.rs:30-86 | an interleaving after which a node linked by an append that has returned is neither taken nor in the list |
| LinkedListResults.FaultsExactly | src/ds/linked_list.rs:34-47 | in every run a thread dereferences null exactly when it loads head a second time and a take has emptied the list |
| LinkedListResults.AppendFaults | src/ds/linked_list.rs:34-47 | an interleaving in which an append does so |
| LinkedListCalls.EveryTake | src/ds/linked_list.rs:67-86 | in every run, every take that ends found the list empty at its one step, or found a first node, read its successor, and at its third step took the node out exactly if it was still the first |
| LinkedListCalls.LoneTakesDrain | src/ds/linked_list.rs:67-86 | takes that run alone take out the nodes of a list of any length, in order |
| LinkedListCalls.LoneTakeEmpty | src/ds/linked_list.rs:67-86 | one that finds the list empty returns and changes nothing |
| LinkedListCalls.LoneAppend | src/ds/linked_list.rs:30-65 | an append that runs alone ends after 2n + 2 steps on a list of n nodes with its value at the end and the rest as it was |
| Topics.SplitInjective | src/ds/trie.rs:86-86 | different topics split differently |
| Topics.JoinSplit | src/ds/trie.rs:86-86 | joining the parts with slashes gives the topic back |
| Topics.SplitJoin | src/ds/trie.rs:86-86 | every non-empty list of slash-free parts is the split of its join |
| Topics.SplitIsBijection | src/ds/trie.rs:86-86 | splitting is a bijection from topics to the non-empty lists of slash-free parts, joining its inverse |
| Topics.TopicPaths | src/ds/trie.rs:86-112 | the paths that their topic leads back to are exactly those below the root without a slash in a part |
| Topics.PathInjective | src/ds/trie.rs:86-112 | different topics lead to different nodes |
| Topics.RefinesOne | src/ds/trie.rs:137-141 | what a trie holds determines the map from topics it stands for |
| Trie.Child.CreateBranch | src/ds/trie.rs:22-28 | a fresh empty child under the part, the others kept |
| Trie.Child.SetSubscriber | src/ds/trie.rs:30-39 | fills an empty slot unless the weak exchange fails, and never replaces a subscriber |
| Trie.Child.DeleteSubscriber | src/ds/trie.rs:41-57 | empties the slot exactly when it holds a subscriber not unequal to the given one |
| Trie.Reach | src/ds/trie.rs:85-112 | the loop whose node-making turns do not advance ends at the topic's node, having added only nodes on the way to it |
| Trie.Find | src/ds/trie.rs:115-135 | finds a node exactly when the path has one |
| Trie.Trie.constructor | src/ds/trie.rs:80-83 | an empty trie binds nothing |
| Trie.Trie.Insert | src/ds/trie.rs:85-113 | true exactly for a topic not bound (and no spurious failure), binding it and no other; false changes no binding; the nodes grow by the topic's prefixes |
| Trie.Trie.GetVal | src/ds/trie.rs:137-141 | lookup in the map from topics |
| Trie.Trie.Remove | src/ds/trie.rs:144-148 | none for a topic without a node; true exactly when the bound subscriber matches, and then only that binding goes |
| Trie.DfsEmptyAndRemove | src/ds/trie.rs:162-181 | prunes below a node all that holds no subscriber and nothing else, and returns true exactly when its subtree holds none |
| Trie.Trie.CleanBranch | src/ds/trie.rs:151-155 | no binding changes, the nodes left are the root and the prefixes of bound topics, and a tree with no others is left as it is |
| Pruning.PrunedExactly | src/ds/trie.rs:162-181 | a tree pruned from the root keeps exactly the root and the paths above subscribers |
| Pruning.PrunedTwice | src/ds/trie.rs:151-181 | pruning a second time removes nothing |
| Pruning.AllPruned | src/ds/trie.rs:167-178 | pruning every child and removing the bare ones prunes the node |
| Pruning.LeafHoldsNothing | src/ds/trie.rs:180-180 | a pruned node without children and subscriber is one below which no subscriber hangs |
| Trie.DfsDrop | src/ds/trie.rs:183-205 | takes out exactly what is below a node and every subscriber at or below it |
| Trie.Trie.Drop | src/ds/trie.rs:208-221 | no topic stays bound and only the root is left |
| Dropping.AllDropped | src/ds/trie.rs:191-204 | dropping every child, then the node's own subscriber and its children's entries, drops the node |
| Router.NeverOwnUnequal | src/message_broker/router.rs:11-19 | no instance is unequal to itself, as dropping the trie needs |
| Router.SubscribeAll | src/message_broker/router.rs:27-40 | inserts every filter in order, first instance per topic kept, and answers one level per filter in order |
| Router.Route | src/message_broker/router.rs:42-44 | the instance bound to the topic |
| Router.FirstKeptWins | src/message_broker/router.rs:27-44 | what a topic is routed to after any requests is the first request for it that was not lost |
| Router.RouteIsFirst | src/message_broker/router.rs:26-45 | the same over any sequence of batches of any clients |
| Router.FirstEver | src/message_broker/router.rs:26-45 | without spurious failures that is the first instance ever asked for |
| Router.RoutedByFilter | src/message_broker/router.rs:26-45 | after any batches a topic is routed to the client and the level of the first filter for it, by batch and place, that was not lost, and to none if there is none |
| Router.FirstFilterWins | src/message_broker/router.rs:26-45 | without spurious failures that is the first filter for the topic of all |
| Router.EqualClientsMatch | src/message_broker/router.rs:11-19 | whether two instances are unequal does not depend on the levels, nor on the bytes a client id's hash loses |
| ClientIds.OrderTotal | src/message_broker/client/clobj.rs:9-13 | the derived order is total and only an id itself compares equal |
| ClientIds.OrderTransitive | src/message_broker/client/clobj.rs:9-13 | the derived order is transitive |
| ClientIds.BeforeIsLexicographic | src/message_broker/client/clobj.rs:9-13 | an id comes before another exactly when, after a front they share, it ends or has the smaller byte |
| ClientHash.OnlyLastCounts | src/message_broker/client/clobj.rs:24-66 | ids of one length with the same blocks share a hash exactly when no byte follows the blocks or the last bytes are the same |
| ClientHash.OneBlockApart | src/message_broker/client/clobj.rs:34-66 | ids that differ in one block only never share a hash |
| ClientHash.FoldApart | src/message_broker/client/clobj.rs:59-63 | folding a word onto itself is a bijection |
| ClientHash.MulBack | src/message_broker/client/clobj.rs:36-42 | multiplying by an odd constant, modulo a word, is undone by its inverse |
| ClientHash.Compute | src/message_broker/client/clobj.rs:24-66 | the loop over the blocks, the tail and the finish give the hash the lemmas are about |
| ClientIds.IgnoredCollide | src/message_broker/client/clobj.rs:43-82 | every id with an ASCII byte after its blocks that is not the last has another equal to it and sorted apart |
| ClientIds.EqLooksAtLast | src/message_broker/client/clobj.rs:45-82 | ids of one length with the same blocks are equal exactly when no byte follows the blocks or the last bytes are the same |
| ClientIds.ShortIdsApart | src/message_broker/client/clobj.rs:24-82 | on ids of at most one byte, or of four, equality is the order's |
| ClientIds.OneBlockIdsApart | src/message_broker/client/clobj.rs:34-82 | and so it is on ids that differ in one block only |
| ClientCollisions.CollidingLengths | src/message_broker/client/clobj.rs:24-82 | there are two different ids of n bytes that are equal exactly when n is not 0, 1 or 4 |
| Clients.Clients.BinarySearch | src/message_broker/client/clients.rs:71-73 | finds the position of an id exactly when it is bound |
| Clients.Clients.GetClient | src/message_broker/client/clients.rs:79-86 | hands out the one cell of an id, or none |
| Clients.Clients.SearchMutClient | src/message_broker/client/clients.rs:68-77 | lookup in the map from ids |
| Clients.Clients.CellIsOf | src/message_broker/client/clients.rs:51-86 | the cell of an id is in the vector and points at the client bound to it, which has that id |
| Clients.Clients.FindPlace | src/message_broker/client/clients.rs:30-50 | refused exactly for an id bound to a live client; else the position of the id, or the one place between its neighbours |
| Clients.Clients.Insert | src/message_broker/client/clients.rs:22-63 | fails exactly for a live duplicate and then changes nothing; else rebinds that id only, in its cell when it has one; every cell stays the cell of its id and the vector stays strictly sorted |
| Clients.RunBinds | src/message_broker/client/clients.rs:22-63 | after any insertions, whatever the times to live of the clients at each of them, the ids tried are the ids bound, each to the one attempt that was the first or found its holder past its time to live, and that every later attempt found alive |
| Clients.OneHolder | src/message_broker/client/clients.rs:22-63 | that attempt is unique |
| Clients.Serve | src/message_broker/client/clients.rs:22-63 | the registry in memory binds just what such a run binds, while client tasks set times to live in between, and no cell handed out is replaced |
| Clients.Clients.Clear | src/message_broker/client/clients.rs:173-195 | empties the registry; every client's own log gets one record, of a disconnection by the server that expires when its session does, the last client first |
| Sessions.Session.KeepAlive | src/message_broker/client/clobj.rs:147-153 | refused exactly once the time to live is reached, and else counted anew from the time given |
| Sessions.Session.Kill | src/message_broker/client/clobj.rs:163-165 | not alive at the time of the call |
| Sessions.Open | src/message_broker/client/client.rs:51-67 | the first window is that of the raw keep-alive, later ones that of at least sixty seconds |
| Sessions.WindowFits | src/message_broker/client/clobj.rs:151-151 | the 16-bit window overflows exactly above 43690 |
| Sessions.WindowIsHalfAgain | src/message_broker/client/clobj.rs:151-151 | the window is one and a half times the keep-alive, rounded down |
| ClientTask.SpawnClient | src/message_broker/mediator.rs:151-228 | what a client task dispatches and logs, its buffer and how it ends are those of its run; the read duration is never negative |
| ClientTask.OneDisconnect | src/message_broker/mediator.rs:165-202 | leaving the loop logs exactly one disconnection, which expires at the time to live then plus the expiry interval; a task that panics has logged none |
| ClientTask.EndsExactly | src/message_broker/mediator.rs:165-211 | every run ends dead exactly if some turn begins after the time to live, lost exactly if a read fails before, and in a panic exactly if the bytes read are no packet or a sum overflows |
| ClientTask.EndingTurn | src/message_broker/mediator.rs:165-202 | the one record logged is that of the ending turn, at the second after it began, and a panic logs none |
| ClientTask.ZeroReadEnds | src/message_broker/mediator.rs:204-207 | after a read of no bytes nothing is dispatched and the next turn finds the session dead |
| ClientTask.DroppedAtDeadline | src/message_broker/mediator.rs:209-224 | a packet read is dropped, its bytes lost to the buffer, exactly when its turn began one second before the time to live or at it; any other is dispatched, and the time to live is a window from the second after its turn began |
| ClientTask.RoomLeft | src/message_broker/mediator.rs:209-224 | after any run the room in the buffer is what it was less the bytes of the packets so dropped and of those that do not decode |
| ClientTask.PunctualIsHonoured | src/message_broker/mediator.rs:161-225 | when the client sends within g seconds of every top of the loop and 2g is below the window, over any length of run every packet is dispatched and the time to live never goes back |
| ClientTask.LateRunLoses | src/message_broker/mediator.rs:161-225 | with 2g not below the window some such client sends its packet in time and it is refused, its bytes lost |
| ClientTask.TwoGapsFit | src/message_broker/mediator.rs:161-225 | all such runs are honoured if and only if 2g is below the window |
| Wal.DecimalRoundTrip | src/message_broker/client/storage.rs:436-438 | parsing undoes printing for every 64-bit number |
| Wal.DecimalIsNumeral | src/message_broker/client/storage.rs:466-477 | a number is printed to the base ten without zeros in front |
| Wal.NumbersExactly | src/message_broker/client/storage.rs:436-438 | a number is read from digits, or a plus and digits, that fit 64 bits, and from nothing else |
| Wal.AnyGap | src/message_broker/client/storage.rs:431-440 | any ASCII white space parts the words of a line |
| Wal.AnyBlanks | src/message_broker/client/storage.rs:431-433 | any ASCII blanks at its ends are trimmed |
| Wal.TwoWordLine | src/message_broker/client/storage.rs:431-464 | what a line of two words is read as: a record without expiry, a panic on a bad time, an unknown event or a missing expiry |
| Wal.BadNumberLine | src/message_broker/client/storage.rs:431-464 | a disconnection whose expiry is no number is an error of its own |
| Wal.LogThenBad | src/message_broker/client/storage.rs:487-501 | after written records the first bad line gives the error of the read |
| Wal.LineRoundTrip | src/message_broker/client/storage.rs:431-478 | trimming, splitting and parsing undo the printing of every record |
| Wal.ReadPrefix | src/message_broker/client/storage.rs:487-501 | a chunk of a written log is either whole records, which it gives, or ends inside one and panics |
| Wal.LogRoundTrip | src/message_broker/client/storage.rs:480-515 | whatever the reads, reading back a written log gives the same events exactly when every read ends where a record does, and panics otherwise |
| Wal.ReadWall | src/message_broker/client/storage.rs:480-503 | the reads in turn, up to an empty one, first error or panic first |
| Wal.ReadLines | src/message_broker/client/storage.rs:487-501 | the index loop splits a read at its line feeds |
| Wal.WriteWall | src/message_broker/client/storage.rs:505-515 | appends one line per record, in order |
| Wal.Serialize | src/message_broker/client/storage.rs:466-477 | appends the line of a record |
| SessionLog.WrittenLogReadsBack | src/message_broker/client/storage.rs:82-94 | with the buffer of 512 bytes a written log is read back exactly when a record ends at every multiple of 512 inside it, as is so of all up to 512 bytes |
| SessionLog.EveryRunIsSound | src/message_broker/client/storage.rs:38-112 | after any creates, disconnections and restorations, one at a time, the log is not empty, starts with the creation, and each restoration directly follows a disconnection that expires after the clock it was checked against |
| SessionLog.RestoredOnce | src/message_broker/client/storage.rs:96-104 | once restored, a session is refused until it disconnects again, by restorations one at a time |
| SessionLog.RefusedAfter | src/message_broker/client/storage.rs:96-105 | the refusal of a session just made is that it is online, of one restored that it is in use, of one disconnected that it has expired |
| RestoreSteps.UndisturbedIsAtomic | src/message_broker/client/storage.rs:84-112 | in every interleaving in which nothing is written between the two steps of a restoration, the file is the log that the operations give one at a time |
| RestoreSteps.AddsExactly | src/message_broker/client/storage.rs:91-111 | up to the first disturbed one, a restoration adds its record exactly when nothing has been written since it read the log |
| RestoreSteps.BothRestore | src/message_broker/client/storage.rs:91-111 | two restorations that read before either writes both restore the session, and the log holds the second only |
| RestoreSteps.PutAtBytes | src/message_broker/client/storage.rs:107-111 | writing at an offset puts each byte in its place, keeps those before and after, and fills a gap with zeros |
| LogLimits.ReadableWhileShort | src/message_broker/client/storage.rs:82-94 | with times of ten digits a log is read back exactly while it is at most 512 bytes, that is 41 for each disconnection and 26 for each restoration up to 487 |
| LogLimits.SevenAtMost | src/message_broker/client/storage.rs:82-112 | a session restored seven times is never restored again |
| LogLimits.EighthIsLost | src/message_broker/client/storage.rs:82-112 | the disconnection after the seventh restoration leaves an unexpired session whose log cannot be read back |
| SessionLog.ClientStore.New | src/message_broker/client/storage.rs:38-49 | truncates the log to the one creation record |
| SessionLog.ClientStore.LogSession | src/message_broker/client/storage.rs:188-197 | appends a disconnection, failing without a log |
| SessionLog.ClientStore.Check | src/message_broker/client/storage.rs:84-105 | panics exactly on a log that cannot be read back; else allows exactly one ending in a disconnection that has not expired; each refusal has its own error |
| SessionLog.ClientStore.Restore | src/message_broker/client/storage.rs:84-112 | the same, and on success one restoration is appended to the bytes of the file, else they are unchanged |
| SessionLife.RestorableUntilExpired | src/message_broker/mediator.rs:165-202 | the session of a task that is over may be restored exactly if its log can be read back and it is not expired |
| SessionLife.ClosedIsRestorable | src/message_broker/mediator.rs:204-207 | after a read of no bytes it may be restored exactly if its log can be read back, until one second short of the expiry interval from that read |
| SessionLife.PanickedStaysOnline | src/message_broker/mediator.rs:209-211 | the session of a task that panicked may not be restored at any time |
| Subscribed.GetSubscribed | src/message_broker/client/storage.rs:230-265 | what the lines of the first 1024 bytes say, later ones winning, or the first error; never a second read |
| Subscribed.ParseChunk | src/message_broker/client/storage.rs:241-256 | the index loop splits a read into its records |
| Subscribed.BadLine | src/message_broker/client/storage.rs:241-256 | after lines that can be read the first with a bad topic or level gives its error |
| Subscribed.BareLine | src/message_broker/client/storage.rs:241-256 | an empty line is a panic |
| Subscribed.WriteSubscribed | src/message_broker/client/storage.rs:267-284 | appends one line per topic in some order, of the length estimated |
| Subscribed.WrittenReadsBack | src/message_broker/client/storage.rs:230-284 | a written map reads back, in whatever order, exactly when it fits one read and no topic holds a line feed |
| Subscribed.SubscribeOnDisk | src/message_broker/client/storage.rs:149-186 | rewrites the file with the subscriptions over what it said; an unreadable file is left alone |
| Subscribed.OverrideAt | src/message_broker/client/storage.rs:168-178 | the last subscription to a topic counts and other topics keep their level |
| Subscribed.SubscribeOverrides | src/message_broker/client/storage.rs:149-186 | subscribing is a left-to-right override on disk exactly when the new file fits one read and no topic holds a line feed |
| Subscribed.UnsubscribeOnDisk | src/message_broker/client/storage.rs:199-227 | rewrites the file without the topics; an unreadable file is left alone |
| Subscribed.UnsubscribeRemoves | src/message_broker/client/storage.rs:199-227 | unsubscribing always is key removal on disk |
| RemainingLength.LenRoundTrip | src/protocol/v5/mod.rs:52-93 | decoding undoes encoding for every value from 1 to 268435455, whatever follows |
| RemainingLength.LenSize | src/protocol/v5/mod.rs:71-93 | k bytes exactly for the values from 128^(k-1) to 128^k - 1 |
| RemainingLength.DecodeStops | src/protocol/v5/mod.rs:52-69 | on any input decoding ends within four bytes at the first without continuation bit, fails on four with it, and the value fits |
| RemainingLength.ReadsWeighed | src/protocol/v5/mod.rs:52-69 | the value read is that of the bytes taken, seven bits each, the low ones first |
| RemainingLength.Encode | src/protocol/v5/mod.rs:71-93 | the array holds the bytes of section 1.5.5 of MQTT Version 5.0, and too large a value is refused |
| RemainingLength.Decode | src/protocol/v5/mod.rs:52-69 | consumes exactly the integer; no 32-bit sum or product overflows |
| Bytes.StringRoundTrip | src/protocol/v5/mod.rs:96-126 | decoding undoes encoding for every string of at most 65535 bytes, whatever follows |
| Bytes.BinaryRoundTrip | src/protocol/v5/mod.rs:108-137 | the same for binary data |
| Bytes.PairRoundTrip | src/protocol/v5/mod.rs:139-143 | the same for string pairs |
| Bytes.StringExactly | src/protocol/v5/mod.rs:96-115 | what any bytes are read as: a string, a panic or one of two errors |
| Bytes.BigEndian | src/protocol/v5/mod.rs:117-137 | integers are written with the high byte first |
| Utf8.ValidExactly | src/protocol/v5/mod.rs:96-106 | the strings accepted are exactly the encodings of scalar values of section 3 of RFC 3629 |
| Bytes.BytesMut.DecodeString | src/protocol/v5/mod.rs:96-106 | consumes a string, or fails on a short buffer or bytes that are not UTF-8 |
| Bytes.BytesMut.EncodeString | src/protocol/v5/mod.rs:117-126 | refuses exactly what is too long for its length field |
| ServiceLevels.CodesAreNames | src/protocol/v5/mod.rs:17-47 | the codes are exactly the bytes that name a level |
| Publish.EstLenIsSize | src/protocol/v5/publish.rs:79-134 | the property length computed beforehand is the number of bytes written |
| Publish.BodyLenIsSize | src/protocol/v5/publish.rs:197-229 | the remaining length computed beforehand is the number of bytes that follow it |
| Publish.EstimateLen | src/protocol/v5/publish.rs:79-100 | the accumulated length |
| Publish.EncodeProps | src/protocol/v5/publish.rs:102-134 | the property section, or the error for a string too long |
| Publish.Encode | src/protocol/v5/publish.rs:187-230 | the frame of section 3.3 of MQTT Version 5.0, or the first error |
| Publish.DecodeProps | src/protocol/v5/publish.rs:32-77 | the tag loop: fields in any order, the rest of the buffer kept |
| Publish.Decode | src/protocol/v5/publish.rs:138-185 | the packet, error or panic that the bytes stand for |
| PublishRoundTrip.PublishComesBack | src/protocol/v5/publish.rs:138-230 | decoding an encoded packet followed by any bytes gives everything back but the dup flag and the fields the encoder skips, with those bytes as more payload |
| PublishRoundTrip.PublishRoundTrip | src/protocol/v5/publish.rs:32-230 | among packets that fit a frame, those that come back unchanged are exactly those without dup, with an id exactly when needed, and with properties absent or written in full |
| PublishLayout.LaidOutDecodes | src/protocol/v5/publish.rs:32-185 | bytes laid out by section 3.3 of MQTT Version 5.0, with any flags, any of the eight properties in any order and any bytes after the frame, are decoded to every flag and field, each the last value laid out, user properties in order |
| PublishLayout.EncodedIsLaidOut | src/protocol/v5/publish.rs:102-230 | an encoded packet is laid out so, byte for byte, without dup and the skipped fields |
| PublishLayout.EncodedEmpty | src/protocol/v5/publish.rs:102-230 | one with nothing to write for its properties lacks the property length |
| PublishLayout.UnknownRefused | src/protocol/v5/publish.rs:52-74 | a byte that should be a tag and is none is an error, wherever it comes |
| PublishLayout.HeaderRefused | src/protocol/v5/publish.rs:138-160 | on any bytes, the errors and the panic of the fixed header, in order |
| PublishLayout.SectionRefused | src/protocol/v5/publish.rs:32-43 | and those of the property length |
| PublishLayout.CutIsRefused | src/protocol/v5/publish.rs:138-160 | a frame cut short anywhere is refused |
| PublishLayout.TooLongRefused | src/protocol/v5/publish.rs:102-230 | a string too long for its length field is refused |
| PublishLayout.TooLargeRefused | src/protocol/v5/publish.rs:187-210 | so is a packet or a property section too large for its length |
| ConnackCodec.Encode | src/protocol/v5/connack.rs:80-190 | the frame of section 3.2 of MQTT Version 5.0, both lengths those of the bytes that follow, or the first error, strings and binary data each with its own |
| ConnackCodec.DecodeProperties | src/protocol/v5/connack.rs:194-266 | the tag loop over seventeen fields in any order |
| ConnackCodec.Decode | src/protocol/v5/connack.rs:41-78 | the packet, error or panic that the bytes stand for |
| ConnackRoundTrip.FieldsBack | src/protocol/v5/connack.rs:214-263 | any list of tagged fields is read back one by one, whatever follows |
| ConnackRoundTrip.FieldsSet | src/protocol/v5/connack.rs:92-162 | setting the fields written gives the properties, user properties in order |
| ConnackRoundTrip.ConnackComesBack | src/protocol/v5/connack.rs:41-266 | decoding an encoded packet followed by any bytes: no properties are an error, empty ones are read from those bytes, others come back with those bytes read as more of them |
| ConnackRoundTrip.ConnackRoundTrip | src/protocol/v5/connack.rs:41-266 | among packets that fit a frame, those that come back unchanged are exactly those with at least one property set and no empty user list |
| ConnackLayout.LaidOutDecodes | src/protocol/v5/connack.rs:41-266 | bytes laid out by section 3.2 of MQTT Version 5.0, with any of the seventeen properties in any order, are decoded to the flag, the code and every field, each the last value laid out, user properties in order |
| ConnackLayout.EncodedIsLaidOut | src/protocol/v5/connack.rs:80-190 | an encoded packet with properties is laid out so, byte for byte |
| ConnackLayout.EncodedHeader | src/protocol/v5/connack.rs:165-190 | every encoded packet begins with 0x20 and an integer that reads as the number of bytes after it, these with the session flag and the code, and unless properties are empty another such integer and its bytes follow |
| ConnackLayout.EncodedEmpty | src/protocol/v5/connack.rs:80-190 | the bytes of a packet without properties and of one with empty ones |
| ConnackLayout.UnknownRefused | src/protocol/v5/connack.rs:214-263 | a byte that should be a tag and is none is an error, wherever it comes |
| ConnackLayout.HeaderRefused | src/protocol/v5/connack.rs:41-62 | on any bytes, the errors and the panic of the fixed header, in order |
| ConnackLayout.CutIsRefused | src/protocol/v5/connack.rs:41-62 | a frame cut short after its length is refused |
| ConnackLayout.TooLongRefused | src/protocol/v5/connack.rs:80-162 | a string too long is refused, else too long authentication data with an error of their own |
| Subscribe.SubscribeRoundTrip | src/protocol/v5/subscribe.rs:19-54 | a packet laid out by section 3.8 of MQTT Version 5.0, with any properties and any bytes after the frame, is read back exactly when it has no properties |
| Subscribe.FiltersAccepted | src/protocol/v5/subscribe.rs:37-48 | the filter loop accepts exactly the bytes that are filters laid out to the last one |
| Subscribe.OptionBits | src/protocol/v5/subscribe.rs:46-46 | the level is that of the low two bits of the options, whatever the upper six |
| Subscribe.FilterExactly | src/protocol/v5/subscribe.rs:37-48 | what any bytes are read as: a filter, a panic or one of two errors |
| Subscribe.FiltersThen | src/protocol/v5/subscribe.rs:37-48 | filters that can be read leave the outcome to the bytes after them |
| Subscribe.HeaderRefused | src/protocol/v5/subscribe.rs:19-30 | on any bytes, the errors and the panics of the fixed header |
| Subscribe.CutIsRefused | src/protocol/v5/subscribe.rs:27-30 | a frame cut short after its length is a panic |
| Subscribe.SkipHeader | src/protocol/v5/subscribe.rs:27-54 | cuts the frame out of the buffer and reads it |
| Subscribe.GetFilters | src/protocol/v5/subscribe.rs:37-48 | the filter loop, consuming all of the frame or stopping at the first error |
| Subscribe.Decode | src/protocol/v5/subscribe.rs:19-25 | the packet, error or panic that the bytes stand for |

## Left out

- Memory orderings weaker than sequential consistency, freed memory and address reuse in the list and the trie; node identities are never reused.
- Trie.Trie.Insert: the trie is sequential, so concurrent changes of its hash maps are not modelled.
- Null slots of the trie: `new` fills the root and every branch is made with its node, so slots are non-null references here and the null branches of the program have no counterpart.
- The value `set_subscriber` boxes and does not free when the exchange fails.
- Trie.Trie.Drop: what memory is freed is not modelled, and the subscribers' `ne` must not hold of a value and itself, as the router's never does.
- The waker of the message queue: storing it after an empty take leaves no wake-up guarantee to state.
- Sockets, TLS, tokio tasks, signals, the observer's select loop, printing and the server: reads are arbitrary events and files are byte sequences.
- ClientTask.SpawnClient: the cell is not swapped while the task runs, what a packet decodes to and what dispatching it does are parameters, and a failing log write is not modelled.
- Sessions.Session.KeepAlive: sums of 64-bit times are unbounded; only the 16-bit window is checked for overflow.
- Clients.Clients.Insert: the write lock makes insertions atomic, so no other registry call runs between their steps.
- The metadata file and the rest of `restore` after the log: no law beyond straight-line reads, and user properties are not read back by the program.
- SessionLog.ClientStore.Restore: errors of opening files other than a missing log are not modelled.
- Wal.LineRoundTrip: trimming is modelled on ASCII bytes; white space outside ASCII never occurs in a written log.
- Subscribed.GetSubscribed: the first read of a file gives all its bytes up to the size of the buffer.
- The message text of a UTF-8 error.
- ClientHash.OneBlockApart: which ids that differ in several blocks share a hash is not stated.
- SessionLog.EveryRunIsSound: each operation is one step; `RestoreSteps` splits restorations in two. Reading a file and writing a record stay single steps.
- SessionLog.RestoredOnce: the same.
- RestoreSteps.AddsExactly: what becomes of a log after its first disturbed restoration is not followed further.
- LogLimits.ReadableWhileShort: times of more or fewer than ten digits, which the general `WrittenLogReadsBack` covers.
- ClientIds.OrderTotal: `<`, `<=`, `>` and `>=` on ids compare hashes alone and the registry never uses them; they are not modelled, nor is the overridden `!=`.
- Clients.Clients.Clear: that every client has a log of its own is required, as the directories of two ids differ; the result of a log write is ignored.
- The PUBLISH property fields the encoder skips, and the dup flag it shifts onto a set bit: `PublishComesBack` states what is lost.
- `puback.rs`, `subsack.rs` and `connect.rs`: they repeat the codec laws covered, or have no inverse in the program.
- `authentication.rs`: the password hash is foreign code.
- `msg_state.rs`: unused by the broker.
- The QoS 1 and QoS 2 send flows: straight-line sends whose waiting step is not written yet.
