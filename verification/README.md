# Ursa in Dafny

A model of the logic of the Ursa content delivery node, with proofs. It covers the
block store's two walks over content-addressed DAGs, the index provider's chains of
advertisements and entry chunks, the event loop of the network service with its
behaviour, the tracking of connected peers, and the RPC calls that use all of these.

`dafny verify dfyconfig.toml` checks the whole project.

## How it is built

| file | contents |
|---|---|
| `Wrappers.dfy`, `Collections.dfy`, `Ledger.dfy` | option and result, facts about collections, accounting for items dealt with in order |
| `Content.dfy`, `Addresses.dfy` | bytes, content identifiers with their multihashes, blocks; network addresses and the parts that are advertised |
| `LinkGraph.dfy` | link paths, reachability, cycles and the rank that acyclicity gives |
| `MissingWalk.dfy`, `Store.dfy`, `FetchRounds.dfy` | the walk without and the walk with a visited set, their agreement, repeated syncing |
| `Advertisements.dfy`, `Provider.dfy`, `Catalogue.dfy` | advertisements and signed payloads, the provider, the catalogue it stands for |
| `Cbor.dfy`, `Announcement.dfy` | the announcement printer against a CBOR decoder |
| `Chunking.dfy`, `Publishing.dfy` | chunking, and draining the queue of roots |
| `Discovery.dfy`, `Behaviour.dfy`, `Service.dfy` | the peer tracker, the behaviour, the loop: states, steps, runs, and the methods that take the steps |
| `Failures.dfy` | concrete inputs and runs for the results below |
| `Waiters.dfy`, `QueryLife.dfy`, `RootWatch.dfy`, `History.dfy`, `Indexing.dfy`, `Pipeline.dfy`, `Replies.dfy`, `Settling.dfy` | what every run of the loop keeps, and how its states follow from its actions |
| `Api.dfy` | `get`, `get_data`, `stream`, `get_file` |

Objects that the source updates in place are classes. Each method is proved against a
function on the values of its fields, and the theorems are about those functions: over
every graph, every interleaving of provider calls, and every run of the service
(`Service.IsRun`). In a run the environment opens and closes connections, inserts
blocks, changes the autonat status, and ends queries it has started, in any order.

Conventions: a path in a block graph is a list of positions in successive link lists, so
repeated links are different paths; a store is a map from identifiers to bytes and links;
the hash-set iterator may hand out any member; content identifiers of provider objects
are collision free, and identifiers of blocks are of version 0 or consist of a version, a
codec and a multihash; query ids and reply channels are fresh when they are handed out.

## Results that differ from a first reading of the source

- `missing_blocks` ends exactly on graphs without a stored cycle below the root
  (`MissingWalk.WalkEndsIffAcyclic`; `Failures.SelfLinkNeverEnds` is a graph on which it
  does not); `dag_traversal` ends on every graph.
- `publish` takes the head before it looks the draft up, so a failing publish cuts the
  chain: what the head leads to is what was published since the last failure
  (`Catalogue.ProviderRun`, `Catalogue.FailureCutsChain`). The head leads to everything
  ever published if and only if no publish failed after one had succeeded
  (`Catalogue.HeadLeadsToAllIff`).
- The comment at `crates/ursa-index-provider/src/advertisement.rs:79` speaks of all fields,
  but the context id is not in the signed payload
  (`Advertisements.PayloadIgnoresSignatureAndContext`), and the fields that are in it are
  joined without separators: the boundaries between addresses, and between the provider
  and the first address, are not signed (`Advertisements.AddressBoundariesUnsigned`,
  `Advertisements.ProviderBoundaryUnsigned`). `Advertisements.SignedBytesDetermine` says
  what is signed; for advertisements with one address, such as the service publishes,
  that is all of the address (`Advertisements.SingleAddressDetermined`).
- A missing block below any queued root ends the whole service loop, and the popped root is
  lost: neither published nor queued. No other step loses a root
  (`Indexing.RootsConserved`; `Failures.MissingRootEndsLoop` is such a run). Indexing only
  what is stored completely avoids it (`Indexing.StoredRootsAreSafe`). The loop is ended as
  well by an Index command without identifiers
  (`Failures.IndexOfNothingEndsLoop`), a SendResponse command, and a relay that cannot be
  listened on. Among the modelled steps nothing else ends it
  (`RootWatch.StopsExactlyWhen`).
- Closing one of two connections removes the peer: the tracked peers are those whose
  latest connection step was an opening (`Pipeline.TrackedPeers`,
  `Discovery.OneOfTwoClosed`).
- A command that finds no peers is refused even if the block has come into the store in
  the meantime (`Failures.RefusedThoughStored`); all other answers tell exactly whether
  the block is stored (`Replies.AnswersAreHonest`).

## Model

| member | source | states |
|---|---|---|
| LinkGraph.LinkDescends | crates/ursa-store/src/store.rs:53-67 | every link of a stored block leads to an acyclic part with strictly fewer reachable blocks: the measure behind termination |
| MissingWalk.MissingConcat | crates/ursa-store/src/store.rs:57-60 | pushing links on the stack owes exactly their missing blocks and pops on top of the rest |
| MissingWalk.MissingCountsPaths | crates/ursa-store/src/store.rs:53-67 | an absent identifier is reported once for each link path to it from the stack |
| MissingWalk.MissingFromRoot | crates/ursa-store/src/store.rs:53-67 | from a root: only absent identifiers, each as often as there are link paths to it through stored blocks |
| MissingWalk.MissingInWalkOrder | crates/ursa-store/src/store.rs:53-67 | the report lists the ends of all link paths to absent identifiers in one order: where two paths part, the one through the later link comes first |
| MissingWalk.WalkEndsIffAcyclic | crates/ursa-store/src/store.rs:57-64 | the stack becomes empty if and only if no stored cycle is reachable from the root |
| Store.Store.Contains | crates/ursa-store/src/store.rs:36-38 | true exactly for stored identifiers |
| Store.Store.Get | crates/ursa-store/src/store.rs:40-42 | the stored bytes, or none |
| Store.Store.Insert | crates/ursa-store/src/store.rs:44-51 | the store with this block written and nothing else changed |
| Store.Store.MissingBlocks | crates/ursa-store/src/store.rs:53-67 | terminates on acyclic graphs; path-exact multiplicity of every absent identifier, in the order of the paths |
| Store.Store.DagTraversal | crates/ursa-store/src/store.rs:79-108 | for every pick order and any graph: terminates; succeeds exactly when all reachable blocks are stored, and then lists each once with its bytes, root first, every later one linked from an earlier one |
| Store.Store.DagTraversalAmidInserts | crates/ursa-store/src/store.rs:79-108 | with any blocks inserted between any two turns: terminates; an Ok result lists the complete DAG of the store as it is at the end; a DAG complete from the start gives Ok |
| Store.TraversalsAgree | crates/ursa-store/src/store.rs:86-107 | all pick orders succeed together and give the same set of entries |
| Store.WalksAgree | crates/ursa-store/src/store.rs:53-108 | nothing missing exactly when the traversal succeeds; otherwise the missing ones are exactly the absent reachable ones |
| Store.TraversalExists | crates/ursa-store/src/store.rs:79-108 | some result is owed for every store and root |
| Store.CompleteStays | crates/ursa-store/src/store.rs:44-108 | a complete DAG stays complete, with the same members, while the store grows |
| FetchRounds.RoundIsReportInserted | crates/ursa-store/src/store.rs:44-67 | inserting everything `missing_blocks` reports stores exactly what is reachable through stored blocks |
| FetchRounds.RoundShrinks | crates/ursa-store/src/store.rs:44-67 | a round with anything missing strictly shrinks the set of reachable absent blocks |
| FetchRounds.RoundsFetchAll | crates/ursa-store/src/store.rs:44-108 | depth plus one rounds complete the DAG, and any traversal then lists the whole universe below the root |
| FetchRounds.FetchRound | crates/ursa-store/src/store.rs:44-67 | the walk may be called on every partial store; it reports nothing exactly if the DAG is complete, and inserting its report makes one round |
| FetchRounds.FetchAll | crates/ursa-store/src/store.rs:44-67 | asking and inserting until nothing is missing ends with the DAG complete, within d + 1 rounds for every bound d on its depth |
| FetchRounds.DepthIsFinite | crates/ursa-store/src/store.rs:53-67 | an acyclic universe has a finite depth below every root |
| Content.HashIsMultihash | crates/ursa-network/src/service.rs:441 | the multihash that is taken of an identifier is all of a version 0 one, and what follows the version and codec varints of any other |
| Advertisements.ComputeSigPayload | crates/ursa-index-provider/src/advertisement.rs:81-120 | the digest of the signed bytes, or the first of the three errors, each exactly when its field is of the wrong kind and those before it are not; the buffer ends with exactly the reserved length |
| Advertisements.SignedFields | crates/ursa-index-provider/src/advertisement.rs:110-117 | cut at the fields' lengths, the signed bytes are the previous link, the entries link, the provider, the addresses and the metadata in this order, and a last byte that is 1 exactly for a removal |
| Advertisements.AddressesInOrder | crates/ursa-index-provider/src/advertisement.rs:113-115 | each address stands behind those before it in the list |
| Advertisements.NewNamesBitswap | crates/ursa-index-provider/src/advertisement.rs:50-77 | the metadata of a new advertisement read as the little-endian number 0x0900 in sixteen bytes and a zero length in eight |
| Advertisements.PayloadIgnoresSignatureAndContext | crates/ursa-index-provider/src/advertisement.rs:79-120 | neither the signature nor the context id influences payload or error |
| Advertisements.SignedBytesDetermine | crates/ursa-index-provider/src/advertisement.rs:110-117 | with links, provider and metadata of the same lengths and any addresses: the signed bytes are the same if and only if these fields, the flag and the joined addresses are |
| Advertisements.SingleAddressDetermined | crates/ursa-index-provider/src/advertisement.rs:110-117 | with one address each, the address itself is determined |
| Advertisements.AddressesDetermined | crates/ursa-index-provider/src/advertisement.rs:113-115 | under the same signed bytes the address lists are the same if and only if there are as many addresses and each is as long |
| Advertisements.AddressBoundariesUnsigned | crates/ursa-index-provider/src/advertisement.rs:113-115 | cutting any address in two leaves the signed bytes as they were |
| Advertisements.ProviderBoundaryUnsigned | crates/ursa-index-provider/src/advertisement.rs:112-115 | moving bytes between the provider and the first address leaves them as they were |
| Provider.Provider.Create | crates/ursa-index-provider/src/provider.rs:163-171 | the draft is stored under its id with its entries cleared |
| Provider.Provider.AddChunk | crates/ursa-index-provider/src/provider.rs:173-191 | a chunk linked to the former entry head is stored and becomes the entry head; an unknown id is an error that changes nothing |
| Provider.Provider.Publish | crates/ursa-index-provider/src/provider.rs:193-210 | links, signs, stores and becomes head; on an unknown id or a signing error the head is gone, and the draft too |
| Catalogue.EntryChainUnique | crates/ursa-index-provider/src/advertisement.rs:147-153 | an entry chain decodes to one list of chunks only |
| Catalogue.AdChainUnique | crates/ursa-index-provider/src/advertisement.rs:29-48 | an advertisement chain decodes to one list only |
| Catalogue.CallExtends | crates/ursa-index-provider/src/provider.rs:173-210 | no call removes or changes a stored object |
| Catalogue.FinishedStandsFor | crates/ursa-index-provider/src/provider.rs:200-204 | the stored advertisement says what the draft said, and its signature is the seal, under the domain and codec of the protocol, of the digest recomputed from its own final fields; signing fails exactly if the metadata is not bytes |
| Catalogue.RunKeepsSigned | crates/ursa-index-provider/src/provider.rs:163-210 | over any run every stored advertisement, on the chain or cut off from it, carries a signature that verifies against its own fields |
| Catalogue.AddChunkRefines | crates/ursa-index-provider/src/provider.rs:173-191 | the draft's chain grows by this chunk and every other chain reads as before |
| Catalogue.PublishRefines | crates/ursa-index-provider/src/provider.rs:193-210 | a publish that succeeds puts the draft on the chain; any other empties the chain; it succeeds exactly for a draft with metadata bytes |
| Catalogue.RunRepresents | crates/ursa-index-provider/src/provider.rs:163-210 | over every interleaving of calls the block store represents the catalogue |
| Catalogue.ChainsSurvive | crates/ursa-index-provider/src/provider.rs:163-210 | calls for whatever ids leave every existing entry chain and advertisement chain as it was |
| Catalogue.ProviderRun | crates/ursa-index-provider/src/provider.rs:163-210 | each open draft decodes to exactly its own chunks, newest first; the head's chain is what was published since the last failing publish, newest first |
| Catalogue.ChainIsAllIff | crates/ursa-index-provider/src/provider.rs:193-210 | the chain is everything ever published, newest first, if and only if no publish failed after the first that succeeded |
| Catalogue.HeadLeadsToAllIff | crates/ursa-index-provider/src/provider.rs:193-210 | the same, for what following `PreviousID` from the head through the store visits |
| Catalogue.NoFailureKeepsAll | crates/ursa-index-provider/src/provider.rs:193-210 | without any failing publish it is everything ever published, one advertisement per publish |
| Catalogue.FailureCutsChain | crates/ursa-index-provider/src/provider.rs:194-209 | a publish, then one of an unknown id: a head, then none |
| Catalogue.PublishSucceedsIff | crates/ursa-index-provider/src/provider.rs:193-210 | over any run a publish succeeds exactly for an open draft whose metadata are bytes, reports an unknown id exactly without an open draft, and otherwise invalid metadata |
| Catalogue.NewDraftsAlwaysPublish | crates/ursa-index-provider/src/advertisement.rs:50-77 | drafts made by `Advertisement::new` never fail to be signed |
| Cbor.EncodeRoundTrip | crates/ursa-index-provider/src/provider.rs:247-266 | decoding an encoded item gives the item and leaves what follows |
| Cbor.EncodeIsShortest | crates/ursa-index-provider/src/provider.rs:253-262 | every byte string that decodes to an item is at least as long as its encoding, and no other one is as long |
| Announcement.MarshalCbor | crates/ursa-index-provider/src/provider.rs:247-266 | the bytes decode as exactly one item, the three-element array of the message, with nothing left over, and every other byte string that does is longer |
| Announcement.MessageReadsBack | crates/ursa-index-provider/src/provider.rs:240-266 | a reader of the item (a link is tag 42 over a zero byte and the identifier) finds this message if and only if the item is the one that is printed for it |
| Announcement.AnnouncementsAreUnique | crates/ursa-index-provider/src/provider.rs:240-266 | equal bytes come from equal identifiers and address lists |
| Chunking.ChunksAreChunking | crates/ursa-network/src/service.rs:442 | for any list and positive bound: nothing lost or reordered, length over bound rounded up many chunks, none empty, all full but the last |
| Addresses.AdvertisedIsHostParts | crates/ursa-network/src/service.rs:419-427 | what is advertised of an address is the list of exactly its IP and TCP parts, by increasing position, and nothing else is such a list |
| Publishing.HashesAreMultihashes | crates/ursa-network/src/service.rs:441 | the entries are the multihashes of the traversed identifiers, in order |
| Publishing.PublishedRoundTrip | crates/ursa-network/src/service.rs:438-449 | following the published advertisement's entry chain through the store and reading it back gives the entries in order |
| Publishing.DrainStopsIffIncomplete | crates/ursa-network/src/service.rs:430-449 | draining fails exactly if some queued root has a block missing, and empties the queue otherwise |
| Publishing.DrainPublishes | crates/ursa-network/src/service.rs:428-466 | without an error: queue empty, one advertisement per root on the chain in queue order, drafts as before |
| Publishing.DrainFails | crates/ursa-network/src/service.rs:428-449 | with an error: the roots before the failing one are published in order, it is popped with its draft open, those behind it stay queued |
| Discovery.DiscoveryBehaviour.InjectConnectionEstablished | crates/ursa-network/src/discovery.rs:190-209 | a new peer is added and its event queued; a known one changes nothing |
| Discovery.DiscoveryBehaviour.InjectConnectionClosed | crates/ursa-network/src/discovery.rs:211-231 | a known peer is removed and its event queued, however many connections remain |
| Discovery.DiscoveryBehaviour.Poll | crates/ursa-network/src/discovery.rs:253-260 | the oldest event leaves the queue |
| Discovery.NetIsPeerCount | crates/ursa-network/src/discovery.rs:190-231 | in a log that alternates per peer, Connected minus Disconnected is the number of peers left |
| Discovery.LastUpIsConnected | crates/ursa-network/src/discovery.rs:190-231 | a peer whose latest step was an opening is connected, and conversely if no peer ever had two connections |
| Discovery.OneOfTwoClosed | crates/ursa-network/src/discovery.rs:190-231 | two connections opened and one closed: the peer is connected and not tracked |
| Behaviour.Behaviour.GetBlock | crates/ursa-network/src/behaviour.rs:327-339 | a running query for this one block is entered under its id |
| Behaviour.Behaviour.SyncBlock | crates/ursa-network/src/behaviour.rs:341-356 | a running query for the DAG, with the root as the only block known to be missing, is entered under its id |
| Behaviour.Behaviour.Cancel | crates/ursa-network/src/behaviour.rs:358-361 | the query leaves the table and the block exchange |
| Behaviour.Behaviour.Poll | crates/ursa-network/src/behaviour.rs:363-378 | the oldest event leaves the queue |
| Behaviour.Behaviour.PublishAd | crates/ursa-network/src/behaviour.rs:309-313 | a publishing event is queued |
| Behaviour.Behaviour.HandleAutonat | crates/ursa-network/src/behaviour.rs:460-469 | the status report is queued |
| Behaviour.Behaviour.HandleBitswap | crates/ursa-network/src/behaviour.rs:510-540 | a known query leaves the table and its event is queued; an unknown one changes nothing |
| Behaviour.Behaviour.HandleDiscovery | crates/ursa-network/src/behaviour.rs:571-582 | the peer event is queued |
| Service.UrsaService.HandleBitswap | crates/ursa-network/src/service.rs:266-297 | the query is cancelled and all waiters of the cid are answered, in order, by what the store says |
| Service.UrsaService.HandleNatStatus | crates/ursa-network/src/service.rs:372-401 | a public status queues a publishing event; turning private with relays in use ends the loop if listening fails; any other change does nothing |
| Service.UrsaService.HandlePeer | crates/ursa-network/src/service.rs:344-371 | the gauge goes up or down by one and the event is passed on |
| Service.UrsaService.PublishRoot | crates/ursa-network/src/service.rs:442-449 | chunks and publish of one root; neither can fail, and a head exists for the announcement |
| Service.UrsaService.HandleStartPublish | crates/ursa-network/src/service.rs:418-467 | the queue is drained with one traversal per root; a failing one ends the loop |
| Service.UrsaService.FilterAddress | crates/ursa-network/src/service.rs:419-427 | exactly the IP and TCP parts of the address, by increasing position |
| Service.UrsaService.TurnOnEvent | crates/ursa-network/src/service.rs:262-468 | a turn of the event arm is an enabled step of the state machine |
| Service.UrsaService.CommandGetBitswap | crates/ursa-network/src/service.rs:487-505 | the command is a step: refusal without peers, and otherwise one more waiter and one more query |
| Service.UrsaService.CommandIndex | crates/ursa-network/src/service.rs:511-526 | the command is a step: the first identifier is queued, with a publishing event if an address is known |
| Service.UrsaService.CommandSendResponse | crates/ursa-network/src/service.rs:530 | the command is the step that ends the loop |
| Service.UrsaService.PollNatStatus | crates/ursa-network/src/behaviour.rs:460-469 | autonat's oldest report reaches the event queue: a step |
| Service.UrsaService.PollQueryEnd | crates/ursa-network/src/behaviour.rs:510-540 | the end of a running query reaches the event queue: a step |
| Service.UrsaService.PollPeerEvent | crates/ursa-network/src/behaviour.rs:571-582 | the tracker's oldest event reaches the event queue: a step |
| Waiters.StepExactlyOnce | crates/ursa-network/src/service.rs:266-297 | every step keeps each sender either waiting or answered, and answered once |
| Waiters.StepNoneStranded | crates/ursa-network/src/behaviour.rs:327-361 | every step keeps a live query or a queued event for every cid with waiters |
| Waiters.EveryWaiterServed | crates/ursa-network/src/service.rs:487-505 | in every state of every run: waiting or answered exactly once, and no waiter stranded, also under overlapping queries for one cid |
| QueryLife.EveryQueryTraced | crates/ursa-network/src/behaviour.rs:327-540 | in every state of every run: a query that a command started runs for what that command asked for (one block, or the DAG below the root) until a step ends it; its event says that a block was found if and only if the step that ended it found one, for the cid of the command |
| QueryLife.WaitersInOrder | crates/ursa-network/src/service.rs:494-498 | in every state of every run the waiters of a cid are queued in the order of their commands |
| QueryLife.NotFoundMeansEndedWithout | crates/ursa-network/src/service.rs:266-297 | the turn of a query's event tells all waiters of its cid in order, and tells them NotFound if and only if a step ended the query without a block and the block is not in the store |
| RootWatch.NoRootStranded | crates/ursa-network/src/service.rs:392-526 | in every state of every run: queued roots and a public address imply that a publishing event or a public status report is on its way |
| RootWatch.StopsExactlyWhen | crates/ursa-network/src/service.rs:376-530 | the modelled steps that end the loop, exactly |
| History.RecordsAreHistory | crates/ursa-network/src/service.rs:487-526 | in every state of every run: the indexed roots are the first identifiers of the Index commands, the askers are the senders of the GetBitswap commands with their cids, and status and public addresses are those that autonat was set to |
| History.AtMostOneEvent | crates/ursa-network/src/behaviour.rs:309-313 | no step queues more than one event for the loop |
| History.PublishOrigin | crates/ursa-network/src/service.rs:392-521 | every queued publishing event was queued by an Index command while its address was the public one, or by the turn of a report that its address had become public |
| History.ReportOrigin | crates/ursa-network/src/behaviour.rs:460-469 | every queued status report tells of a step that set the status, and of the latest status before it |
| History.AddressesWereReported | crates/ursa-network/src/service.rs:392-521 | every queued publishing event carries an address that autonat was set to before |
| Indexing.PublishingAccounts | crates/ursa-network/src/service.rs:428-466 | a publishing turn that meets no missing block moves the whole queue to the chain, each advertisement over its root's complete DAG |
| Indexing.PublishingTurn | crates/ursa-network/src/service.rs:418-467 | a publishing turn, whether it fails or not: the new advertisements are of the first queued roots in order, each with the IP and TCP parts of the event's address, this node's peer id, the Bitswap metadata, and a chain in pieces of 6250000 that reads back as the multihashes of the complete DAG |
| Indexing.StepConservesIff | crates/ursa-network/src/service.rs:428-516 | a step keeps every indexed root published or queued if and only if it is not a publishing turn with a block missing below a queued root; that turn ends the loop and loses one root |
| Indexing.LostIsLost | crates/ursa-network/src/service.rs:431-440 | after that turn no reading of the provider's state accounts for all indexed roots |
| Indexing.RootsConserved | crates/ursa-network/src/service.rs:428-516 | in every state of every run, ended or not: indexed roots are the context ids of the published advertisements in order, then the queue, no draft is open, and every advertisement shows a reported address and reads back as the multihashes of a complete DAG in the store, if and only if the last step was not such a turn; if it was, exactly one root is missing, between the published and the queued ones |
| Indexing.StoredRootsAreSafe | crates/ursa-network/src/service.rs:511-526 | if every Index command names a root stored with its whole DAG, no root is ever lost, and only SendResponse or a failing relay listen ends the loop |
| Pipeline.GaugeConserved | crates/ursa-network/src/service.rs:344-371 | gauge plus both queues' sums is the number of tracked peers, and the gauge is not negative, in every state of every run |
| Pipeline.TrackedPeers | crates/ursa-network/src/discovery.rs:190-231 | emitted events alternate per peer and replay to the tracked peers; each has an open connection; equality if no peer ever had two at once |
| Replies.AnswersAreHonest | crates/ursa-network/src/service.rs:282-293 | a waiter is told Ok exactly when its block is in the store at that time; a refusal comes only without peers |
| Replies.RefusedIffNoPeers | crates/ursa-network/src/service.rs:487-498 | a command is refused at once if and only if there is no peer, and otherwise its sender waits |
| Replies.AnswerOrigin | crates/ursa-network/src/service.rs:279-293 | every answer of a run was given by some step of it: Found exactly if its block was in the store then, a refusal exactly by a command that found no peers |
| Replies.FoundStaysStored | crates/ursa-network/src/service.rs:279-287 | after an Ok the block is in the store in every later state of the run |
| Settling.InternalRunIsShort | crates/ursa-network/src/service.rs:260-483 | without new input only boundedly many steps can follow |
| Settling.SettledHasWaitersIff | crates/ursa-network/src/service.rs:276-280 | when they have been taken, waiters are left if and only if the loop waits for a block that was reported as found to be inserted |
| Settling.SettledOwesNothing | crates/ursa-network/src/service.rs:260-483 | and if it does not: every sender is answered, a public node has no root queued and the gauge shows the tracked peers |
| Api.ServiceRepliesJustified | crates/ursa-network/src/service.rs:279-293 | the service's answers meet what the client calls rely on |
| Api.NodeNetworkInterface.Get | crates/ursa-rpc-server/src/api.rs:91-111 | if the block is not stored, a command for one block is sent; the stored bytes, or an error if the block was neither stored nor found; never Ok without bytes |
| Api.NodeNetworkInterface.GetData | crates/ursa-rpc-server/src/api.rs:113-137 | if the root is not stored, a command for its DAG is sent; whatever is inserted meanwhile: an Ok lists the complete DAG of the store at the end, never a part; a DAG complete when the traversal starts gives Ok; the other error exactly if the root was neither stored nor found |
| Api.NodeNetworkInterface.Stream | crates/ursa-rpc-server/src/api.rs:139-167 | exactly the traversal's blocks in order, from a store that only grew: the requested root first, every later one linked from an earlier one |
| Api.NodeNetworkInterface.GetFile | crates/ursa-rpc-server/src/api.rs:170-202 | the same for the file |
| Failures.SelfLinkNeverEnds | crates/ursa-store/src/store.rs:53-108 | a block that links to itself: one walk goes on for ever, the other ends |
| Failures.MissingRootEndsLoop | crates/ursa-network/src/service.rs:428-440 | a run in which an indexed root with a missing block ends the loop, its root popped and its draft open |
| Failures.IndexOfNothingEndsLoop | crates/ursa-network/src/service.rs:511-513 | a run that ends with an Index command without identifiers |
| Failures.RefusedThoughStored | crates/ursa-network/src/service.rs:487-492 | a run in which a command for a stored block is refused |

## Left out

- Store.Store.MissingBlocks: database errors and undecodable blocks; decoding is assumed to succeed, as is the hash check of `Block::new`.
- Store.Store.DagTraversal: the same two error sources.
- Provider.Provider.Create: the random draft id is a parameter; a repeated one replaces the draft, as in the source.
- Provider.Provider.AddChunk: starts from decoded entries; the panic on malformed bytes and database errors are not modelled.
- Provider.Provider.Publish: database errors; the keypair is an ideal sealing function.
- Announcement.MarshalCbor: the library encoders for links, byte strings and address lists are written out as shortest-form CBOR, with addresses in binary form; logging is left out, and lengths fit 64 bits.
- Behaviour.Behaviour.GetBlock: the block exchange itself; it only issues fresh ids and may end any query it has started, with or without success.
- Service.UrsaService.HandleBitswap: the busy-wait for a block reported as found is a precondition: the turn is taken once the block is in the store.
- Service.UrsaService.HandleNatStatus: of listening on a relay only the panic when it fails is modelled, not the choice of the relay.
- Service.UrsaService.HandleStartPublish: all traversals of one turn see the same store; blocks that other tasks insert come in between turns (Store.Store.DagTraversalAmidInserts covers one traversal with inserts). Also gossip and HTTP announcements of a new head, which change no modelled state.
- Api.NodeNetworkInterface.Request: waiting for the service is one step in which the store grows; the reply's properties are those proved of every run of the service.
- Threads and locks: each turn of the loop, each provider call and each client call between two awaits is one step.
- Service commands for peers, gossip and requests, which change no modelled state, and the maps of pending requests: one entry in, one entry out.
- FetchRounds.FetchAll: the loop that asks and inserts belongs to the block exchange's sync query; it is written out here over a fixed network that has every block.
- Panics inside library calls other than listening on a relay.
- Kademlia, mDNS, relay, ping, identify and the transports: library protocols.
- The HTTP and JSON-RPC servers, the gateway, the client, the CLI, configuration, and the metrics registry beyond the gauge of active peers.
- Signed heads and key files: fixed slices around library encodings.
- The rendering of addresses as text: a function of the node that the proofs do not look into.
