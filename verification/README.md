# Verified models of the boxo relay, DAG, cache and codec core

This project models the stateful core of boxo with its random-walk relay protocol, in Dafny, and
proves properties of it that hold for every input, every interleaving and every run. Each source
component has its own modules; code that updates objects in place is modelled by classes whose
methods are specified by functions on values, and concurrent code by step relations over whole
states, with the promises stated over all runs.

| modules | source | what is shown |
|---|---|---|
| `RelayLedger`, `RelayNetwork`, `RelayProgress`, `RelayWalks` | `bitswap/relaymanager` | walks of want-forwards are simple and disjoint in directed links, go on unless a draw or an error stops them, come to an end, and end at proxies; answers retrace them to the requestor |
| `DagGraph`, `DagParallelWalk`, `DagWalkEnds`, `DagSequentialWalk` | `ipld/merkledag/merkledag.go` | the worker-pool walk and the recursive walk find exactly the reachable nodes and, under a limit, their shortest depths; no interleaving is stuck or endless, and both succeed exactly if every node they need is stored |
| `ConnectEvents` | `bitswap/network` | the coalescing queue holds each pending peer once, and changes are taken in order, and listeners see alternating events that end in the true state |
| `BuzhashRolling`, `Buzhash` | `chunker/buzhash.go` | the rolling state is always the fresh hash of the window, so chunks are a function of the bytes alone |
| `Multipart` | `files` | what the multipart writer writes, the streaming reader reads back, whether the consumer reads on to the end or skips |
| `LockTable`, `ArcCache`, `BloomFilter`, `CacheStack` | `blockstore` | reader/writer exclusion and no deadlock, caches that agree with the store, a filter without false negatives, and a stack that answers like the plain store, with every exception that failing writes make |
| `ProtoWire`, `VarintMeaning`, `ProtoFields`, `DataObjCodec`, `IpnsEntryCodec`, `IpnsDecoding` | `filestore/pb`, `ipns/pb` | exact sizes, round trips, and an exact account of what the decoders accept |
| `ByteOrder`, `IpnsSelect` | `ipns`, `routing/offline` | record comparison is a total order, and the router ends with its maximum in every delivery order |
| `Republisher` | `mfs/repub.go` | no value is published twice in a row, the current value gets out, and waiters see it |
| `StableSort`, `ProtoNode` | `ipld/merkledag/node.go` | lazy sorting and caching cannot be observed, except for a CID cached before the builder is set to nil |
| `BitswapMessage`, `MessageHistory` | `bitswap/message` | a message holds what the calls made add up to, and the protobuf conversion restores a message exactly if the message is canonical |
| `Options`, `Sums`, `Cardinality` | | an optional value, sums over sequences, sizes of sets |

## Conventions

- Peers, CIDs, keys and block identities are values of which only equality (for keys also order)
  matters. Hash functions, time parsing, record validity, the dag-pb encoder and the choice a
  forwarder makes are parameters, quantified over.
- A class method states its whole new state as a function of the old one; the properties are
  lemmas about those functions and about runs.
- Where a property fails for the code as it is, the code is kept, a concrete case is given, and an
  if-and-only-if says when the property does hold:

  | condition | case in which the property fails |
  |---|---|
  | `RelayLedger.RecordKeepsInverse` | `RelayLedger.SecondSearchBreaksInverse` |
  | `ArcCache.CacheTellsTheTruth` with `ArcCache.LostByFailedBatch` | `ArcCache.PartialBatchFailureExample` |
  | `BloomFilter.FailedPutIff` | `BloomFilter.FailedPutExample` |
  | `Republisher.MidUpdateIff` with `Republisher.HeldMidUpdate` | `Republisher.MidUpdateExample` |
  | `ProtoNode.ProtoNode.CidAfterNilBuilder` | `ProtoNode.NilBuilderExample` |
  | `BitswapMessage.RoundTripIff` | `BitswapMessage.ForwardWantExample` |

- A link of the relay network counts as proxied (`RelayNetwork.IsProxied`) from the moment its
  receiver starts a proxy session for it, also after that session has closed, as the ledger keeps
  the entry with the mark false. `RelayProgress.WalksAreServed` speaks of sessions still running.
- The comment in `mfs/repub.go:44-45` says that WaitPub waits for the current value to be
  published. The code does so unless an Update is halfway between emptying and refilling the
  channel; the model follows the code (`Republisher.MidUpdateExample`).

## Model

| member | source | states |
|---|---|---|
| `RelayLedger.ProcessOneKeepsInverse` | bitswap/relaymanager/relaymanager.go:106-146 | one loop iteration for a CID keeps `toMap` the exact inverse of `fromMap`, if the forwarder respects the exclude list |
| `RelayLedger.RecordKeepsInverse` | bitswap/relaymanager/relaymanager.go:239-240 | recording a hop to a fresh peer keeps the maps inverse if and only if the sender had no entry yet, which a second search for the same CID violates |
| `RelayLedger.SecondSearchBreaksInverse` | bitswap/relaymanager/relaymanager.go:229-240 | a concrete second search after which an answer is no longer matched by `fromMap` |
| `RelayLedger.ForwardsKeepInverse` | bitswap/relaymanager/relaymanager.go:94-147 | a whole message of want-forwards keeps the maps of every CID inverse to each other |
| `RelayLedger.RelayManager.ProcessForwards` | bitswap/relaymanager/relaymanager.go:87-148 | every CID's ledger goes through exactly the iterations for that CID, and each iteration has the effect its ledger state prescribes: CIDs do not interact |
| `RelayLedger.RelayManager.HandleOne` | bitswap/relaymanager/relaymanager.go:94-146 | one iteration changes one CID's ledger, by ignoring, resending, proxying or forwarding to the peer that the forwarder draws given the excluded set |
| `RelayLedger.RelayManager.ForwardSearch` | bitswap/relaymanager/relaymanager.go:214-242 | the own search goes to a peer that has not had this CID and is recorded under self; an error changes nothing |
| `RelayLedger.RelayManager.CloseSession` | bitswap/relaymanager/relaymanager.go:154-163 | closing a proxy session clears the proxy mark of that source only |
| `RelayLedger.RelayManager.ProcessForwardHaves` | bitswap/relaymanager/relaymanager.go:183-203 | each forward-have is dropped, left to the own session, or relayed to the peer on whose behalf the CID was forwarded to the sender |
| `RelayNetwork.FreshLink` | bitswap/relaymanager/relaymanager.go:131-137 | a link a node is allowed to choose has never carried the want before |
| `RelayNetwork.RelayFollowsWalk` | bitswap/relaymanager/relaymanager.go:190-201 | what a node does with a forward-have is one hop back along the walk, or delivery at its start; it is never dropped |
| `RelayNetwork.StepKeeps` | bitswap/relaymanager/relaymanager.go:87-242 | every step of the network keeps the ledgers consistent with the walks, and uses up a new directed link exactly when it sends the want on |
| `RelayNetwork.RunKeeps` | bitswap/relaymanager/relaymanager.go:87-242 | so does every run, and it counts its sends by links |
| `RelayNetwork.WalksAreSimpleAndDisjoint` | bitswap/relaymanager/relaymanager.go:87-148 | in every reachable network no walk uses a directed link twice, walks of different requestors share none, and no hop goes straight back |
| `RelayNetwork.SendsAreBounded` | bitswap/relaymanager/relaymanager.go:124-146 | in every run, however the draws fall, the want is sent on at most once per directed link |
| `RelayNetwork.WalksEndAtProxy` | bitswap/relaymanager/relaymanager.go:124-146 | every walk is at most as long as the number of directed links, and when no want is in flight its last link is proxied, by a session that may have closed since |
| `RelayNetwork.LedgersAreInverse` | bitswap/relaymanager/relaymanager.go:144-145 | at every node of every reachable network `toMap` is the exact inverse of `fromMap` |
| `RelayNetwork.AnswersRetrace` | bitswap/relaymanager/relaymanager.go:150-203 | every forward-have in flight goes to a peer that asked for the CID and has retraced the end of its walk so far |
| `RelayNetwork.DeliveriesRetraceWholeWalk` | bitswap/relaymanager/relaymanager.go:150-203 | what a requestor is told came from a proxy of its own walk, back over that walk node by node, even when the walk revisits nodes |
| `RelayNetwork.AnswersReachRequestor` | bitswap/relaymanager/relaymanager.go:183-211 | from any state of a run, a forward-have at position i is relayed to the requestor by exactly i + 1 steps |
| `RelayProgress.ResentIsNext` | bitswap/relaymanager/relaymanager.go:113-119 | a want that is sent again goes to the next place of its walk |
| `RelayProgress.WantLowers` | bitswap/relaymanager/relaymanager.go:94-147 | handling a want lowers the total of the distances that the wants in flight may still go, whatever the draw and the forwarder do, also when it is sent again |
| `RelayProgress.StepTotal` | bitswap/relaymanager/relaymanager.go:87-242 | only a search or a repeated message raises that total, by at most the number of directed links |
| `RelayProgress.WantsAreBounded` | bitswap/relaymanager/relaymanager.go:87-242 | in every run, wants handled and wants in flight together, resent ones included, are at most the number of directed links for each search and repeated message |
| `RelayProgress.WantIsHandled` | bitswap/relaymanager/relaymanager.go:94-147 | while a want is in flight its handler can run |
| `RelayProgress.WalksReachProxies` | bitswap/relaymanager/relaymanager.go:87-148 | from every reachable state, handling wants stops within the number of directed links for each want in flight, exactly when none is left, and then the last link of every walk is proxied |
| `RelayProgress.WantsRunOut` | bitswap/relaymanager/relaymanager.go:87-148 | from every state of a run the wants in flight can be handled until none is left |
| `RelayProgress.WalksAreServed` | bitswap/relaymanager/relaymanager.go:106-163 | in a run in which no session closes, once no want is in flight the last node of every walk has a running proxy session for it |
| `RelayWalks.WantChoices` | bitswap/relaymanager/relaymanager.go:124-145 | in every reachable network the forwarder may name exactly the connected peers that are not the sender and have not had the want from this node |
| `RelayWalks.SearchChoices` | bitswap/relaymanager/relaymanager.go:214-240 | a node may start a search exactly if it has no walk yet, over any link that has not carried the want |
| `RelayWalks.WantGoesOn` | bitswap/relaymanager/relaymanager.go:124-145 | a want at the end of its walk, with no proxy session running for it, a draw against proxying and a peer from the forwarder, lengthens exactly that walk by that peer, puts the want on the new link, and starts no session |
| `RelayWalks.WantIsSentAgain` | bitswap/relaymanager/relaymanager.go:112-122 | a repeated want in the middle of its walk goes on along the walk, and changes nothing else |
| `RelayWalks.WantStops` | bitswap/relaymanager/relaymanager.go:106-143 | a want stops exactly where a session is running, or by the draw or an error, which starts one |
| `RelayWalks.ServingIsByDrawOrError` | bitswap/relaymanager/relaymanager.go:106-163 | in every run a proxy session for a link runs exactly if a draw or an error has started it and it has not closed since |
| `RelayWalks.WalksGoOnToDeadEnds` | bitswap/relaymanager/relaymanager.go:87-148 | in every run in which no draw and no avoidable error stops a want, once no want is in flight every walk has reached a node all of whose links, but the one back, have carried the want |
| `DagGraph.VisitMeaning` | ipld/merkledag/merkledag.go:185-197 | the visit closure says yes exactly if the visit is not yet settled, and then settles it; nothing settled is unsettled |
| `DagGraph.PathsAreSettled` | ipld/merkledag/merkledag.go:173-213 | when nothing is left to do, every path from the root within the limit is met by a recorded depth no larger |
| `DagGraph.SettledIsExact` | ipld/merkledag/merkledag.go:173-213 | a sound map with nothing left to do has exactly the reachable nodes and, under a limit, their shortest depths |
| `DagGraph.ExactIsUnique` | ipld/merkledag/merkledag.go:173-213 | two exact answers agree on the nodes, and under a limit on the depths |
| `DagGraph.ExactIsStored` | ipld/merkledag/merkledag.go:173-213 | if an exact answer has been fetched, and the root, then every node the walk needs is stored |
| `DagGraph.VisitShrinksOpen` | ipld/merkledag/merkledag.go:185-197 | every visit that says yes leaves strictly fewer useful visits, also when it revisits at a smaller depth |
| `DagParallelWalk.EnqueueAppends` | ipld/merkledag/merkledag.go:554-567 | links received are queued behind what is there, whether the next slot is free or not |
| `DagParallelWalk.StepKeeps` | ipld/merkledag/merkledag.go:477-574 | every step of the main loop and of any worker loses no node, counts its work in progress, and keeps what is recorded sound |
| `DagParallelWalk.RunKeeps` | ipld/merkledag/merkledag.go:477-574 | so does every run of any number of workers |
| `DagParallelWalk.ReturnedWalkIsExact` | ipld/merkledag/merkledag.go:455-575 | whatever the interleaving, a walk that returns without error has found exactly the reachable nodes, at their shortest depths under a limit, fetched all of them, and without a limit visited each once |
| `DagParallelWalk.NeverStuck` | ipld/merkledag/merkledag.go:538-574 | while the walk runs some worker or the main loop can move, without the help of a failure or cancellation |
| `DagParallelWalk.StepDecreases` | ipld/merkledag/merkledag.go:477-574 | every step decreases a well-founded measure |
| `DagParallelWalk.EveryWalkStops` | ipld/merkledag/merkledag.go:455-575 | there is no endless run |
| `DagWalkEnds.FailureHasACause` | ipld/merkledag/merkledag.go:477-574 | in every run the walk returns an error only if it was cancelled or a fetch failed |
| `DagWalkEnds.SuccessMeansStored` | ipld/merkledag/merkledag.go:455-575 | a walk that returns nil had every node it needs, a skipped root included |
| `DagWalkEnds.HonestWalkSucceedsIff` | ipld/merkledag/merkledag.go:455-575 | without cancellation and without failures of nodes that are stored, a walk that is over has returned nil if and only if every node it needs is stored |
| `DagWalkEnds.WalkCanEnd` | ipld/merkledag/merkledag.go:477-574 | from every state of a run the walk can go on so until it is over |
| `DagWalkEnds.StoredWalkSucceeds` | ipld/merkledag/merkledag.go:455-575 | if everything needed is stored, a walk with a worker returns nil with the exact answer |
| `DagSequentialWalk.Visitor.VisitNode` | ipld/merkledag/merkledag.go:185-197 | the closure in the form of the source updates the map as the visit function says |
| `DagSequentialWalk.Visitor.WalkFrom` | ipld/merkledag/merkledag.go:406-427 | the recursive walk terminates, and settles its node and everything below it that was not settled before |
| `DagSequentialWalk.Visitor.WalkLinks` | ipld/merkledag/merkledag.go:413-426 | fetching a node and walking its links settles the children; an error means that a node the walk needs is not stored |
| `DagSequentialWalk.Visitor.WalkAll` | ipld/merkledag/merkledag.go:393-427 | the recursive walk succeeds if and only if every node it needs is stored, and then has found exactly the reachable nodes, at their shortest depths under a limit |
| `DagSequentialWalk.WalksAgree` | ipld/merkledag/merkledag.go:406-575 | the parallel walk, in every interleaving, ends with the same nodes as the sequential one, and under a limit the same depths |
| `ConnectEvents.ConnectEventManager.Get` | bitswap/network/connecteventmanager.go:61-67 | the state a peer was last set to, disconnected if it is not tracked |
| `ConnectEvents.ConnectEventManager.Set` | bitswap/network/connecteventmanager.go:69-81 | a change is queued unless the peer is queued already or the change is undone |
| `ConnectEvents.ConnectEventManager.Call` | bitswap/network/connecteventmanager.go:149-218 | the four calls change the state only on their own transitions |
| `ConnectEvents.ConnectEventManager.Take` | bitswap/network/connecteventmanager.go:97-144 | one turn of the worker up to the point where it releases the lock |
| `ConnectEvents.SetStateOk` | bitswap/network/connecteventmanager.go:69-81 | setting a state keeps the queue exact, answers with the new state, and changes no other peer and nothing that listeners were told |
| `ConnectEvents.TakeChangeOk` | bitswap/network/connecteventmanager.go:97-144 | the worker always finds the queued peer tracked, keeps the queue exact, takes over the state set last, issues an event exactly when responsiveness changes, and forgets a peer exactly when it goes to disconnected |
| `ConnectEvents.HandleOk` | bitswap/network/connecteventmanager.go:149-218 | the calls change what the manager answers as a plain account of the peer's status says, and a call that changes nothing there changes nothing at all |
| `ConnectEvents.IssueOk` | bitswap/network/connecteventmanager.go:131-143 | an event that is issued extends every listener's log in alternation |
| `ConnectEvents.StepKeeps` | bitswap/network/connecteventmanager.go:92-218 | every step keeps this, also calls made while the worker has released the lock to tell the listeners |
| `ConnectEvents.QueuedIffPending` | bitswap/network/connecteventmanager.go:69-118 | in every run a peer is in the queue exactly once if it is tracked and pending and else not at all, so the "not tracking" branch is never taken |
| `ConnectEvents.ListenersSeeAlternation` | bitswap/network/connecteventmanager.go:120-144 | in every run each listener sees, per peer, connects and disconnects in strict alternation |
| `ConnectEvents.DrainedListenersAgree` | bitswap/network/connecteventmanager.go:92-218 | when the queue has drained, the last event each listener saw says whether the calls made leave the peer responsive |
| `ConnectEvents.WorkerDrains` | bitswap/network/connecteventmanager.go:92-146 | left alone, a worker that was not stopped drains the queue from any state of a run |
| `ConnectEvents.FirstComeFirstServed` | bitswap/network/connecteventmanager.go:69-144 | in every run the worker takes up peers in the order in which they became pending, and each turn settles exactly the peer whose turn it is |
| `ConnectEvents.StoppedByStop` | bitswap/network/connecteventmanager.go:52-59 | in every run the manager is stopped exactly if Stop has been called |
| `ConnectEvents.NoEventAfterStop` | bitswap/network/connecteventmanager.go:85-97 | once it is stopped no further event is issued, whatever calls are made |
| `ConnectEvents.WorkerExits` | bitswap/network/connecteventmanager.go:85-146 | and the worker finishes the event under way, to every listener, and exits |
| `BuzhashRolling.RotN32` | chunker/buzhash.go:93-95 | rotating a 32-bit word 32 times is the identity |
| `BuzhashRolling.HashPrepend` | chunker/buzhash.go:75-78 | the first byte of a stretch contributes its table entry, rotated once per later byte |
| `BuzhashRolling.RollIsFresh` | chunker/buzhash.go:89-96 | rolling the state over one byte gives the fresh hash of the next 32-byte window |
| `BuzhashRolling.HashBits` | chunker/buzhash.go:75-96 | a bit of the hash is set exactly if an odd number of the bytes have it, through their table entries moved up by as many places as bytes follow |
| `Buzhash.BoundaryMeaning` | chunker/buzhash.go:71-92 | a boundary is where each of the low 17 bits is had by an even number of the 32 bytes before it |
| `Buzhash.CutFromIsFirst` | chunker/buzhash.go:89-98 | the search finds the first position at or after the minimum whose window hash is zero under the mask, or else the end |
| `Buzhash.FindCut` | chunker/buzhash.go:67-98 | the rolling loop over the buffer finds that position |
| `Buzhash.Roll` | chunker/buzhash.go:93-95 | the state after one turn is the fresh hash of the moved window |
| `Buzhash.FirstWindow` | chunker/buzhash.go:75-78 | the warm-up loop hashes the window that ends at the minimum |
| `Buzhash.Source.ReadFull` | chunker/buzhash.go:40 | the reader fills the buffer or says why it could not, and no byte is lost |
| `Buzhash.Chunker.NextBytes` | chunker/buzhash.go:35-106 | the next chunk is the pending stream up to its next cut, the rest stays pending, and errors and the end of input are sticky |
| `Buzhash.Chunker.Fill` | chunker/buzhash.go:40-65 | what was carried over and what is read are the front of the pending stream |
| `Buzhash.Chunker.CutChunk` | chunker/buzhash.go:67-105 | the chunk is cut off and the remainder kept |
| `Buzhash.Chunker.CarryOver` | chunker/buzhash.go:103 | the overlapping copy moves the remainder to the front unchanged |
| `Buzhash.NextCut` | chunker/buzhash.go:42-98 | a non-empty stream is cut at a positive position within it |
| `Buzhash.AllChunks` | chunker/splitting.go:41-60 | calling NextBytes to the end gives the chunk list that the specification assigns to the bytes |
| `Buzhash.ChunksConcatenate` | chunker/buzhash.go:35-106 | the chunks put together are exactly the input |
| `Buzhash.ChunkSizes` | chunker/buzhash.go:10-14 | no chunk is empty or longer than buzMax, and only the last may be shorter than buzMin |
| `Buzhash.ChunksAreFirstCuts` | chunker/buzhash.go:67-98 | every chunk ends at the first boundary of what was buffered then |
| `Buzhash.ChunksRestart` | chunker/buzhash.go:100-105 | the chunks after any cut are the chunks of what follows it |
| `Buzhash.StreamsResynchronize` | chunker/buzhash.go:35-106 | two streams that agree from a cut of each onwards have identical later chunks |
| `Multipart.MultiFileReader.NextPart` | files/multifilereader.go:51-146 | each part taken off the stacks is the next of the preorder listing, and the end comes when nothing is left |
| `Multipart.WriteAll` | files/multifilereader.go:51-146 | reading the writer to its end gives the preorder listing of the tree |
| `Multipart.MultipartWalker.GetPart` | files/multipartfile.go:40-55 | peeking does not consume, and the end drops the reader |
| `Multipart.MultipartWalker.ConsumePart` | files/multipartfile.go:36-38 | consuming removes exactly the peeked part |
| `Multipart.MultipartIterator.Next` | files/multipartfile.go:162-206 | the loop finds the next entry as the specification on the part list does, and keeps the current name at the end |
| `Multipart.SkipInner` | files/multipartfile.go:180-184 | whatever is left unread below the current entry is passed over |
| `Multipart.NextOfTree` | files/multipartfile.go:162-206 | on the parts of a valid directory the next entry is the next sibling, with its own parts next in line |
| `Multipart.ReadsBack` | files/multipartfile.go:72-206 | from the middle of a directory, with any rest unread, the consumer sees the pruned remainder |
| `Multipart.PlannedReadIsPruned` | files/multipartfile.go:72-206 | for any choice of directories skipped or half read, the consumer sees exactly the tree pruned by that choice |
| `Multipart.FullPruneIsWhole` | files/multipartfile.go:72-206 | the plan that reads everything prunes nothing |
| `Multipart.ReadAll` | files/multipartfile.go:162-206 | on any part list at all, calling Next until it says false, in every directory found too, comes to an end and consumes what lies in the directory |
| `Multipart.ReadWhole` | files/multipartfile.go:162-206 | that consumer over the iterators and the shared walker sees what the function on the part list says |
| `Multipart.ReadsAll` | files/multipartfile.go:162-206 | it sees a whole valid directory and leaves the parts behind it |
| `Multipart.RoundTrip` | files/multifilereader.go:51-146 | writing a tree with valid, sibling-unique names, and calling Next until it says false in every directory it finds, gives the same tree |
| `Multipart.StringPrefixIsChild` | files/multipartfile.go:127-138 | the string-prefix test of the source is the child relation on path segments |
| `Multipart.TrimmedIsRelative` | files/multipartfile.go:125-144 | trimming the parent's prefix off a child's path leaves the segments after the parent's, joined |
| `Multipart.FirstSlash` | files/multipartfile.go:186-199 | the relative path has a slash exactly if it has more than one segment, and its first segment ends at the first slash |
| `LockTable.StepKeeps` | blockstore/arc_cache.go:57-86 | every step of any thread keeps reference counts equal to the users of a lock, also while entries are deleted before their mutex is released |
| `LockTable.SectionsExclude` | blockstore/arc_cache.go:57-86 | two threads are in their sections for one key only if both read |
| `LockTable.ExclusionInEveryRun` | blockstore/arc_cache.go:57-86 | so in every state of every run |
| `LockTable.UnlockFindsItsLock` | blockstore/arc_cache.go:73-86 | unlocking never meets a missing entry and releases the mutex that was taken |
| `LockTable.NeverDeadlocked` | blockstore/arc_cache.go:328-338 | because batches take strictly increasing keys, some thread can always go on |
| `LockTable.NoReachableDeadlock` | blockstore/arc_cache.go:57-86 | no reachable state with a busy thread is stuck |
| `LockTable.WaitsOnlyForConflict` | blockstore/arc_cache.go:57-72 | a thread is kept waiting only by one that has taken a mutex for the same key, and only if one of the two writes |
| `LockTable.TableHoldsUsedKeys` | blockstore/arc_cache.go:57-86 | in every run a key is in the table exactly while a thread counts on its entry, so the idle table is empty |
| `ArcCache.Isolated` | blockstore/arc_cache.go:92-349 | threads inside their sections share no key if one of them writes |
| `ArcCache.StoreKeeps` | blockstore/arc_cache.go:92-349 | the store access of any operation, with success or a failure that has stored any part of a batch, leaves every cache entry true, its key in a write section, or its key lost |
| `ArcCache.UpdateKeeps` | blockstore/arc_cache.go:106-348 | the cache update of any operation writes the truth |
| `ArcCache.StepKeeps` | blockstore/arc_cache.go:92-392 | every step of every thread, evictions included, keeps this |
| `ArcCache.CacheTellsTheTruth` | blockstore/arc_cache.go:92-392 | in every run, whenever no thread is in the write section for a key, what is cached about it agrees with the store if and only if the key is not lost |
| `ArcCache.LostByFailedBatch` | blockstore/arc_cache.go:340-343 | a key gets lost exactly when a failed batch newly stores it while something is cached about it |
| `ArcCache.PartialBatchFailureExample` | blockstore/arc_cache.go:340-343 | a run: Has(7) caches "missing", PutMany of 7 and 8 stores 7 and fails, and afterwards the cache calls the stored block missing |
| `ArcCache.CachedAnswersAreTimely` | blockstore/arc_cache.go:115-236 | an unlocked look at the cache, whatever writes are under way, answers for the view of the store at that moment, except about lost keys |
| `ArcCache.StoredAnswersAreTimely` | blockstore/arc_cache.go:127-235 | so does a call that reads the store in its section |
| `ArcCache.ViewChangesInWrites` | blockstore/arc_cache.go:92-349 | the view of a key changes only in a step of a call that writes the key, inside its section, and becomes what the store holds |
| `ArcCache.AloneIsStoreAndCacheAfter` | blockstore/arc_cache.go:92-349 | the steps of one operation on its own leave store and cache as the functions say that the sequential stack is specified by |
| `ArcCache.CacheLearns` | blockstore/arc_cache.go:106-348 | after an operation the cache answers for its keys what the operation found out; after a failed write of one key it has forgotten the key; for other keys nothing changes |
| `ArcCache.NotKnownAre` | blockstore/arc_cache.go:313-324 | of a batch exactly the keys not known to be present go to the store |
| `ArcCache.NoCallIsStuck` | blockstore/arc_cache.go:92-349 | in every run, while some call is under way, some call can make its next step |
| `ArcCache.FirstsAreFirst` | blockstore/arc_cache.go:284-304 | of a sorted batch the kept keys strictly increase, and each is kept where it first occurs |
| `ArcCache.FirstsLoseNoKey` | blockstore/arc_cache.go:284-304 | no key of the batch is lost |
| `ArcCache.Dedup` | blockstore/arc_cache.go:284-304 | the in-place loop keeps of every run of equal keys the first pair, in both arrays alike |
| `BloomFilter.StepKeeps` | blockstore/bloom_cache.go:97-214 | every step of build, puts and deletes leaves each stored key in the filter, still to be delivered, owed by a put, or written by a put that failed, and each returned key in the filter |
| `BloomFilter.RunKeeps` | blockstore/bloom_cache.go:97-214 | so does every run, and filter bits are never cleared |
| `BloomFilter.ReturnedTestsPositive` | blockstore/bloom_cache.go:192-214 | once a put has returned with success, each of its keys tests positive in every later state of every run, whatever puts, failures and deletes come before or after |
| `BloomFilter.AbsentIsAbsent` | blockstore/bloom_cache.go:135-151 | in every run, no put of a key that the active filter calls absent has returned with success; if the key is stored all the same, its writers are under way or failed |
| `BloomFilter.StoredTestsPositive` | blockstore/bloom_cache.go:97-214 | in every run, the active filter tests positive on each stored key of which a put has returned, and on each that no put under way or failed has written |
| `BloomFilter.FailedPutIff` | blockstore/bloom_cache.go:192-214 | after a put that reports failure, every stored key tests positive if and only if what the put wrote does so anyway |
| `BloomFilter.FailedPutExample` | blockstore/bloom_cache.go:192-199 | a run in which a stored block is called absent because its put failed after writing |
| `BloomFilter.BuildFinishes` | blockstore/bloom_cache.go:97-122 | a build that is not cancelled makes the filter active by its own steps, whatever puts are under way |
| `BloomFilter.StrangersAreAbsent` | blockstore/bloom_cache.go:135-151 | in every run the active filter calls a key absent as soon as one of its bits belongs to no key delivered or put |
| `CacheStack.ArcStore.Has` | blockstore/arc_cache.go:115-138 | the call goes through the cache as the functions of the ARC cache say, and unless the key is lost the answer is the plain store's or its failure |
| `CacheStack.ArcStore.GetSize` | blockstore/arc_cache.go:140-169 | the same for sizes, also when existence is cached without the size |
| `CacheStack.ArcStore.Get` | blockstore/arc_cache.go:215-236 | the same for blocks |
| `CacheStack.ArcStore.Put` | blockstore/arc_cache.go:238-255 | the answer and the new store are the plain store's, also when the put is skipped because the key is cached, or fails after writing |
| `CacheStack.ArcStore.DeleteBlock` | blockstore/arc_cache.go:92-113 | the same for a delete, skipped, done or failed after deleting; of a lost key it may be skipped |
| `CacheStack.ArcStore.PutMany` | blockstore/arc_cache.go:313-349 | the same for a batch of which some keys are settled by the cache; only keys that a failed batch has stored get lost, and a successful batch finds its keys again |
| `CacheStack.BloomStore.SaysAbsent` | blockstore/bloom_cache.go:135-151 | what the filter calls absent is not stored, or was written by a put that failed |
| `CacheStack.BloomStore.Read` | blockstore/bloom_cache.go:153-190 | Has, GetSize and Get through both caches answer as the plain store, except about keys in doubt |
| `CacheStack.BloomStore.Put` | blockstore/bloom_cache.go:192-199 | a put through both caches, also one that fails after writing: answer and store are the plain store's, and only what a failed put wrote comes into doubt |
| `CacheStack.BloomStore.PutMany` | blockstore/bloom_cache.go:201-214 | the same for a batch |
| `CacheStack.BloomStore.DeleteBlock` | blockstore/bloom_cache.go:125-131 | a delete through both caches is the plain store's, unless its key is in doubt |
| `CacheStack.BloomStore.Background` | blockstore/bloom_cache.go:97-122 | a step of the filter build, or an eviction, changes nothing in the store and keeps both caches right |
| `CacheStack.BloomStore.RunAll` | blockstore/caching.go:46-52 | for every history of calls, with build steps and evictions in between and any calls failing with or without effect, all answers and the final store are those of the plain store given the same calls, except about keys that a failed put wrote and none has since |
| `CacheStack.StoreIsHistory` | blockstore/caching.go:46-52 | that plain store holds what was put and not deleted since, and what was there and never deleted |
| `CacheStack.UnsureIff` | blockstore/caching.go:46-52 | a key is in doubt exactly after a put that wrote it and failed, until a put of it succeeds |
| `CacheStack.NothingUnsure` | blockstore/caching.go:46-52 | without writes that fail after taking effect no key is in doubt, so the stack answers exactly as the plain store |
| `ProtoWire.SovIsLength` | filestore/pb/dataobj.pb.go:164-166 | the closed size formula is the length of the base-128 encoding |
| `ProtoWire.EncodeVarint` | filestore/pb/dataobj.pb.go:140-150 | the varint ends just before the given offset and nothing else in the buffer changes |
| `ProtoWire.ShiftKeepsGroup` | filestore/pb/dataobj.pb.go:176-189 | shifting a group into a uint64 keeps what belongs in its place, of the tenth byte one bit |
| `ProtoWire.GroupsDoNotOverlap` | filestore/pb/dataobj.pb.go:176-189 | the groups read so far fit below the next one, so the bitwise or of the loop is their sum, and the sum fits below the place after |
| `ProtoWire.DecodeVarint` | filestore/pb/dataobj.pb.go:176-189 | the bounded loop, which ors the groups together, reads at most ten bytes, never past the end, and gets the value of the bytes modulo two to the 64, or leaves the part it has read |
| `ProtoWire.PartialIsValue` | filestore/pb/dataobj.pb.go:176-189 | what the loop has assembled is the value, if the varint is complete |
| `ProtoWire.VarintReadsBack` | filestore/pb/dataobj.pb.go:140-189 | reading an encoded number gives it back, for every uint64 and wherever it stands |
| `VarintMeaning.VarintIsExact` | filestore/pb/dataobj.pb.go:176-189 | a varint is read exactly where one of at most ten bytes stands, overlong forms included, as the number of its seven-bit digits modulo two to the 64 |
| `VarintMeaning.VarintFailsIff` | filestore/pb/dataobj.pb.go:176-189 | the overflow error comes exactly if ten bytes have their top bit set, the end-of-input error exactly if fewer do and the data is over |
| `ProtoFields.Skip` | filestore/pb/dataobj.pb.go:293-370 | the skipping loop terminates on every byte string, with every index in range in spite of 64-bit wrap-around |
| `ProtoFields.SkipOne` | filestore/pb/dataobj.pb.go:313-364 | the switch over wire types, with the length checks in wrapped arithmetic |
| `ProtoFields.SkipsField` | filestore/pb/dataobj.pb.go:293-370 | skipping a field of the grammar, groups nested to any depth, stops right behind it |
| `ProtoFields.SkipIsExact` | filestore/pb/dataobj.pb.go:293-370 | skipping succeeds within the data if and only if a field of the grammar stands there |
| `ProtoFields.FieldAlike` | filestore/pb/dataobj.pb.go:293-370 | whether a field stands somewhere depends on its own bytes only |
| `ProtoFields.DecodeUnknown` | filestore/pb/dataobj.pb.go:269-284 | an unknown field is skipped on the rest of the data with its bounds checks |
| `ProtoFields.SkipAtIsExact` | filestore/pb/dataobj.pb.go:269-284 | that succeeds if and only if a field stands there |
| `ProtoFields.DecodeBytes` | filestore/pb/dataobj.pb.go:203-230 | a length-delimited value with its sign, overflow and bounds checks |
| `ProtoFields.ReadBytesIsExact` | filestore/pb/dataobj.pb.go:203-230 | it is read if and only if a length and that many bytes stand there |
| `DataObjCodec.SizeIsExact` | filestore/pb/dataobj.pb.go:151-163 | Size is the length of the encoding, for all field values |
| `DataObjCodec.MarshalToSizedBuffer` | filestore/pb/dataobj.pb.go:121-139 | the record fills exactly the last Size bytes of the buffer and leaves the rest alone |
| `DataObjCodec.Marshal` | filestore/pb/dataobj.pb.go:106-114 | a buffer of Size bytes is filled completely |
| `DataObjCodec.DataObj.Unmarshal` | filestore/pb/dataobj.pb.go:170-292 | terminates on every byte string with every access in range, gives the fields or the error of the decoding function, and after an error leaves the fields as far as they were read |
| `DataObjCodec.DataObj.UnmarshalField` | filestore/pb/dataobj.pb.go:173-285 | one field, with all tag, type and length errors; a number that breaks off leaves its low bits in the struct |
| `DataObjCodec.DecodeIsExact` | filestore/pb/dataobj.pb.go:170-292 | unmarshalling succeeds with a record if and only if the bytes are a string of fields with positive numbers and matching types whose last values make that record |
| `DataObjCodec.HoldsWhatWasRead` | filestore/pb/dataobj.pb.go:170-292 | whatever the bytes, the struct then holds what the fields before the first rejected one make of it, with a number that breaks off partly read |
| `DataObjCodec.RoundTrip` | filestore/pb/dataobj.pb.go:121-292 | unmarshalling a marshalled record restores it, for all field values and whatever the struct held before |
| `IpnsEntryCodec.SizeIsExact` | ipns/pb/ipns.pb.go:398-441 | Size is the length of the encoding, for every combination of present fields |
| `IpnsEntryCodec.MarshalToSizedBuffer` | ipns/pb/ipns.pb.go:277-344 | the entry fills exactly the end of the buffer |
| `IpnsEntryCodec.Marshal` | ipns/pb/ipns.pb.go:262-270 | a buffer of Size bytes is filled completely |
| `IpnsEntryCodec.IpnsEntry.Unmarshal` | ipns/pb/ipns.pb.go:469-786 | terminates on every byte string with every access in range, gives the entry or the error of the decoding function, and after an error leaves the fields read before |
| `IpnsEntryCodec.IpnsEntry.UnmarshalField` | ipns/pb/ipns.pb.go:472-779 | one field, unknown ones kept as raw bytes; an error leaves the struct alone |
| `IpnsEntryCodec.EnumReadsBack` | ipns/pb/ipns.pb.go:324-328 | a negative enum value survives sign extension to 64 bits and the cut back to 32 |
| `IpnsEntryCodec.RoundTrip` | ipns/pb/ipns.pb.go:277-786 | unmarshalling a marshalled entry gives it back, absent fields absent and unrecognized bytes in place |
| `IpnsEntryCodec.DecodeKeepsOk` | ipns/pb/ipns.pb.go:469-786 | every entry read has fields in range and an unrecognized rest that is a string of unknown fields |
| `IpnsEntryCodec.ReadWriteRead` | ipns/pb/ipns.pb.go:277-786 | an entry read from any bytes at all can be written and read again without change |
| `IpnsDecoding.DecodeIsExact` | ipns/pb/ipns.pb.go:469-786 | unmarshalling succeeds with an entry if and only if the bytes are fields, in any order and repeated or not, whose last values and unknown bytes make that entry; it fails exactly if they are not |
| `IpnsDecoding.HoldsWhatWasRead` | ipns/pb/ipns.pb.go:469-786 | whatever the bytes, the struct then holds what the fields before the first rejected one make of it |
| `ByteOrder.BytesSame` | ipns/record.go:118 | byte comparison is zero only on equal strings |
| `ByteOrder.BytesFlip` | ipns/record.go:118 | byte comparison is antisymmetric |
| `ByteOrder.BytesTransitive` | ipns/record.go:118 | byte comparison is transitive |
| `ByteOrder.CompareIsFirstDifference` | ipns/record.go:118 | byte comparison goes by the first byte that differs, and a proper prefix comes first |
| `IpnsSelect.TotalOrder` | ipns/ipns.go:331-368 | on parseable records, Compare followed by byte order is a total order of the record bytes |
| `IpnsSelect.SelectRecord` | ipns/record.go:103-126 | the scan returns a record that beats all others; it reports no records exactly for an empty set, and a bad time exactly if two records agree in V2 signature and sequence number, none before the second outranks them, and the time of one does not parse |
| `IpnsSelect.Select` | ipns/record.go:90-101 | fails exactly on no records, on one that cannot be unmarshalled, and on such a pair; the record chosen is the best if all times parse |
| `IpnsSelect.UnbeatenIsBest` | ipns/record.go:103-126 | where all times parse nothing clashes, and what no other record beats is the maximum of the total order |
| `IpnsSelect.BestByFields` | ipns/ipns.go:331-368 | the best record is the one such that no other has a V2 signature unless it has; among those alike none has a larger sequence number; among those none a later time; among those none larger bytes |
| `IpnsSelect.BeatsByFields` | ipns/record.go:103-126 | the record that the scan returns stands so to every other one, also where times do not parse |
| `IpnsSelect.FieldsOfRecord` | ipns/ipns.go:332-351 | the signature, the sequence number and the time are fields 8, 5 and 4, with 0 and the empty string if missing |
| `IpnsSelect.BestIsUnique` | ipns/record.go:103-126 | the bytes chosen do not depend on order or repetition of the records |
| `IpnsSelect.OfflineRouter.PutValue` | routing/offline/offline.go:43-89 | after a put GetValue gives the better of the new record and what it gave before; what is refused, unchanged or older changes nothing |
| `IpnsSelect.OfflineRouter.PutAll` | routing/offline/offline.go:43-89 | after any sequence of puts GetValue gives the best of the valid records, stored or put, and none if there is none |
| `IpnsSelect.DeliveryOrderIsIrrelevant` | routing/offline/offline.go:43-69 | the final record is the same in every delivery order, however often records are repeated |
| `Republisher.Loop.OnUpdate` | mfs/repub.go:117-137 | receiving a value already published clears the pending one; another value becomes pending with both timers set |
| `Republisher.Loop.OnWaiter` | mfs/repub.go:138-148 | a waiter takes the latest value off the channel and avoids a duplicate |
| `Republisher.Loop.OnPublished` | mfs/repub.go:188-189 | a success moves the pending value to the last published one |
| `Republisher.StepKeeps` | mfs/repub.go:70-197 | every step of the loop, of Update halfway or done, and of waiters keeps the invariant |
| `Republisher.NeverTwiceInARow` | mfs/repub.go:117-190 | in every run two consecutive successful publishes carry different values |
| `Republisher.PendingIffTimers` | mfs/repub.go:117-168 | in every run, while the loop waits, a value is pending exactly when each of the two timers is set |
| `Republisher.WaitersSeeCurrentValue` | mfs/repub.go:44-59 | in every run, a waiter that shook hands between updates is let through only when the value current at its handshake is the one published last |
| `Republisher.MidUpdateIff` | mfs/repub.go:70-82 | in every run a waiter is let through with the value current at its handshake published last, if and only if that is the value the loop held at the handshake; only in the middle of an update do the two differ |
| `Republisher.HeldMidUpdate` | mfs/repub.go:70-148 | at a handshake in the middle of an update the loop holds the current value if and only if it is pending already or, with nothing pending, was published last |
| `Republisher.MidUpdateExample` | mfs/repub.go:70-82 | a run in which a waiter is let through although the finished update was never published |
| `Republisher.CurrentValueGetsOut` | mfs/repub.go:94-190 | from every state of a run that is not stopped and has no update halfway, the loop makes at most five steps of its own, in any order, and when it has none left the current value is the one published last |
| `Republisher.LoopComesToRest` | mfs/repub.go:94-190 | from every such state the loop can go on until it has no step left |
| `Republisher.WaitersAreLetThrough` | mfs/repub.go:44-195 | in every run, a waiter that is not through is let through by the next publish that succeeds, with what the loop held at its handshake published |
| `Republisher.UpdateGoesThrough` | mfs/repub.go:67-82 | in every run, whatever the loop is doing, an Update goes through by its own steps, and its value is then current and on the channel |
| `StableSort.StableSorts` | ipld/merkledag/node.go:148-153 | sorting orders the links by name and keeps the links of each name as they were |
| `StableSort.SortedIsUnique` | ipld/merkledag/node.go:148-153 | there is only one such list |
| `StableSort.StableIff` | ipld/merkledag/node.go:148-153 | two lists sort alike if and only if they agree name by name |
| `StableSort.DistinctInAnyOrder` | ipld/merkledag/node.go:191-205 | with distinct names the order of insertion does not matter |
| `ProtoNode.ProtoNode.NodeWithData` | ipld/merkledag/node.go:156-158 | a new node has its data, no links and the CIDv0 builder |
| `ProtoNode.ProtoNode.Sort` | ipld/merkledag/node.go:487-495 | sorting late changes the order but no name's links, and drops a stale encoding |
| `ProtoNode.ProtoNode.AddLink` | ipld/merkledag/node.go:191-205 | a link with a defined CID and a size in range is appended; another one is refused and changes nothing |
| `ProtoNode.ProtoNode.RemoveLinks` | ipld/merkledag/node.go:209-233 | exactly the links of the name are removed, or the name is not found and nothing changes |
| `ProtoNode.ProtoNode.ReplaceLinks` | ipld/merkledag/node.go:499-509 | the links are replaced if all of them pass the check |
| `ProtoNode.ProtoNode.FirstNamed` | ipld/merkledag/node.go:236-247 | the first link of the name, whether or not the links have been sorted |
| `ProtoNode.ProtoNode.SetNodeData` | ipld/merkledag/node.go:320-324 | new data invalidates encoding and CID |
| `ProtoNode.ProtoNode.SetBuilder` | ipld/merkledag/node.go:111-136 | a usable builder takes effect for the dag-pb codec and invalidates the CID |
| `ProtoNode.ProtoNode.CidAfterNilBuilder` | ipld/merkledag/node.go:111-115 | after SetCidBuilder(nil), Cid() gives the CIDv0 of the current bytes if and only if they were not encoded, no CID was cached, or the builder before gives them the same CID |
| `ProtoNode.NilBuilderExample` | ipld/merkledag/node.go:111-115 | SetCidBuilder(b), Cid(), SetCidBuilder(nil), Cid(): the last answer is still the CID of b |
| `ProtoNode.ProtoNode.Encode` | ipld/merkledag/coding.go:159-185 | cached or not, the bytes encode the current data and sorted links, and the cached CID is the current builder's hash of them |
| `ProtoNode.ProtoNode.RunAll` | ipld/merkledag/node.go:111-509 | for every sequence of mutations and reads, with builders other than nil, every answer is that of a node without caches that never sorts in place |
| `ProtoNode.PlainIsHistory` | ipld/merkledag/node.go:111-509 | that plain node holds the data and builder set last, and of every name the links added since it was last removed or all were replaced |
| `ProtoNode.InsertionOrderIsIrrelevant` | ipld/merkledag/node.go:191-205 | distinctly named links inserted in any order give identical bytes |
| `BitswapMessage.Message.AddEntry` | bitswap/message/message.go:396-431 | a repeated want upgrades have to block, and never takes back a cancel or a send-dont-have |
| `BitswapMessage.Message.AddForwardEntry` | bitswap/message/message.go:441-461 | a repeated forward toggles its cancel flag or replaces the entry |
| `BitswapMessage.Message.AddBlock` | bitswap/message/message.go:463-466 | a block displaces a presence |
| `BitswapMessage.Message.AddBlockPresence` | bitswap/message/message.go:468-473 | a presence does not displace a block |
| `BitswapMessage.Message.AddForwardHave` | bitswap/message/message.go:483-488 | peers accumulate per CID |
| `BitswapMessage.AlwaysConsistent` | bitswap/message/message.go:380-488 | whatever the mutators are called with, blocks and presences share no CID and every entry is filed under its own |
| `BitswapMessage.SoundCallsStayCanonical` | bitswap/message/message.go:380-488 | calls with defined CIDs, authentic blocks and valid peers build canonical messages |
| `BitswapMessage.ToProtoV1` | bitswap/message/message.go:577-626 | the protobuf lists the five maps, each in some order |
| `BitswapMessage.NewMessageFromProto` | bitswap/message/message.go:233-301 | the loops build the message, or report the first failure, as the reading function says |
| `BitswapMessage.RoundTrip` | bitswap/message/message.go:233-626 | converting a canonical message and back restores it, in whatever order the maps are visited |
| `BitswapMessage.ReadIsCanonical` | bitswap/message/message.go:233-301 | every message read from any protobuf is canonical |
| `BitswapMessage.RoundTripIff` | bitswap/message/message.go:233-626 | the conversion restores a message if and only if it is canonical |
| `BitswapMessage.ForwardWantExample` | bitswap/message/message.go:396-431 | AddEntry with a want of the forward type builds a message that the conversion does not restore |
| `BitswapMessage.SoundMessagesSurvive` | bitswap/message/message.go:233-626 | every message built by sound calls survives the conversion |
| `MessageHistory.MessageIsItsHistory` | bitswap/message/message.go:380-488 | after any calls, every entry, block, presence and peer list is what the calls about its CID say: a have followed by a block is a block, a cancel is not taken back, the priority is that of the last call that asked for what the entry held, a presence yields to a block, peers add up |
| `MessageHistory.ReadSucceedsIff` | bitswap/message/message.go:233-301 | a protobuf is read if and only if all its CIDs are defined and all payload blocks have a hash, and the error tells which failed first |
| `MessageHistory.RepeatedEntriesMerge` | bitswap/message/message.go:233-247 | entries of a protobuf that repeat a CID merge as the same calls would |
| `MessageHistory.RepeatedPartsMerge` | bitswap/message/message.go:249-298 | so do blocks, presences and peers |

## Left out

- Relay: each handler is one atomic step, as its lock makes it, except that ProcessForwardHaves reads without the lock; messages may be reordered and duplicated but not lost; connection protection tags and ProxyDistances are not modelled.
- Relay: a second search by the same node for the same CID is outside the network runs; `RelayLedger.RecordKeepsInverse` says what it breaks.
- DAG walks: error handlers and progress tracking; link CIDs are defined.
- Connection events: Start and Stop beyond the stop flag; the condition variable is an enabled step.
- Chunker: the values of the byte table, which every statement quantifies over; the buffer pool.
- Chunker: the other splitters (size, Rabin) are easy or in another library.
- Multipart: MIME framing, URL escaping, `path.Clean`, content types of symlinks and raw files; a part is a path, a kind and its content.
- Blockstore caches: View, HashOnRead, statistics, undefined CIDs, and the sort before Dedup, which is the library's.
- Blockstore caches: the key enumeration of the filter build is complete.
- Codecs: the message IpnsSignatureV2Checker, which is the IPNS entry with two of its fields.
- IPNS: creating, signing and validating records; validity is a given predicate that does not change during a sequence of puts.
- Offline router: failures of the datastore, and the record wrapper around the stored bytes.
- Republisher: concurrent Update calls, the lengths of the timeouts, and updates to the undefined CID.
- ProtoNode: decoding, Copy, JSON and Tree; errors of the encoder; UpdateNodeLink.
- Bitswap message: sizes on the wire, ToProtoV0, Clone; peer IDs and addresses are opaque values that parse or not.
- The peer manager, sessions, the decision engine, UnixFS, MFS directories, the gateway, and network plumbing.
