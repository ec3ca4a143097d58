/** Publishing the queued roots: one advertisement per root, over the chunked
    hash list of its DAG. */
module Publishing {
  import opened Wrappers
  import opened Content
  import opened Addresses
  import opened LinkGraph
  import opened Store
  import opened Advertisements
  import opened Provider
  import opened Catalogue
  import opened Chunking

  /** This node: its peer id in base 58, its keys and hashes, how it prints
      addresses, and whether it uses relays: the relay client is enabled and some
      bootstrap node is configured. */
  datatype Node = Node(peerId: seq<byte>, scheme: Scheme, show: Multiaddr -> seq<byte>, usesRelays: bool)

  function AdFor(node: Node, address: Multiaddr, root: Cid): Advertisement {
    NewAdvertisement(root.ToBytes(), node.peerId, [node.show(address)], false)
  }

  /** The multihashes of a traversal, in its order. */
  function Hashes(walk: Walk): (hashes: seq<Ipld>)
    ensures |hashes| == |walk|
  {
    seq(|walk|, i requires 0 <= i < |walk| => Bytes(walk[i].0.Hash()))
  }

  /** The entries are the multihashes of the identifiers of a traversal, in its order. */
  ghost predicate ListsMultihashes(walk: Walk, entries: seq<Ipld>) {
    && |entries| == |walk|
    && forall i :: 0 <= i < |walk| ==>
         entries[i].Bytes? && (WellFormed(walk[i].0) ==> IsMultihashOf(walk[i].0, entries[i].bytes))
  }

  /** For well-formed identifiers there is no other list of them. */
  lemma HashesAreMultihashes(walk: Walk, entries: seq<Ipld>)
    ensures ListsMultihashes(walk, Hashes(walk))
    ensures ListsMultihashes(walk, entries) && (forall i :: 0 <= i < |walk| ==> WellFormed(walk[i].0)) ==>
              entries == Hashes(walk)
  {
    forall i, hash | 0 <= i < |walk| && WellFormed(walk[i].0)
      ensures IsMultihashOf(walk[i].0, hash) <==> hash == walk[i].0.Hash()
    {
      HashIsMultihash(walk[i].0, hash);
    }
  }

  function AddCalls(chunks: seq<seq<Ipld>>, id: nat): seq<Call> {
    seq(|chunks|, i requires 0 <= i < |chunks| => AddChunk(chunks[i], id))
  }

  /** The provider calls that publish an advertisement over these chunks. */
  function DraftCalls(ad: Advertisement, chunks: seq<seq<Ipld>>, id: nat): seq<Call> {
    [Create(ad, id)] + AddCalls(chunks, id) + [Publish(id)]
  }

  /** The provider calls that publish one root. */
  function RootCalls(node: Node, address: Multiaddr, root: Cid, walk: Walk, id: nat): seq<Call> {
    DraftCalls(AdFor(node, address, root), Chunks(Hashes(walk), MAX_ENTRIES), id)
  }

  /** What the advertisement of a root stands for. */
  function RootAd(node: Node, address: Multiaddr, root: Cid, walk: Walk): LogicalAd {
    LogicalAd(FactsOf(AdFor(node, address, root)), Reverse(Chunks(Hashes(walk), MAX_ENTRIES)))
  }

  lemma {:induction false} AddCallsPrepend(cat: Catalogue, chunks: seq<seq<Ipld>>, id: nat)
    requires id in cat.drafts
    ensures RunCatalogue(cat, AddCalls(chunks, id))
            == cat.(drafts := cat.drafts[id := cat.drafts[id].(chunks := Reverse(chunks) + cat.drafts[id].chunks)])
    decreases chunks
  {
    var calls := AddCalls(chunks, id);
    if chunks == [] {
      assert cat.drafts[id := cat.drafts[id]] == cat.drafts;
      assert [] + cat.drafts[id].chunks == cat.drafts[id].chunks;
    } else {
      var before := chunks[..|chunks| - 1];
      AddCallsPrepend(cat, before, id);
      assert calls[..|calls| - 1] == AddCalls(before, id);
      assert Reverse(chunks) + cat.drafts[id].chunks
          == [chunks[|chunks| - 1]] + (Reverse(before) + cat.drafts[id].chunks);
    }
  }

  /** The calls put the advertisement at the head of the chain and leave no draft
      under the id they used. */
  lemma DraftCallsPublish(cat: Catalogue, ad: Advertisement, chunks: seq<seq<Ipld>>, id: nat)
    requires ad.metadata.Bytes?
    ensures RunCatalogue(cat, DraftCalls(ad, chunks, id))
            == Catalogue(cat.drafts - {id}, [LogicalAd(FactsOf(ad), Reverse(chunks))] + cat.published)
  {
    var create := [Create(ad, id)];
    var adds := AddCalls(chunks, id);
    var withDraft := OnCatalogue(cat, create[0]);
    assert create[..0] == [];
    assert RunCatalogue(cat, create) == withDraft;
    RunCatalogueConcat(cat, create, adds);
    AddCallsPrepend(withDraft, chunks, id);
    var filled := RunCatalogue(cat, create + adds);
    assert Reverse(chunks) + [] == Reverse(chunks);
    assert filled.drafts[id] == LogicalAd(FactsOf(ad), Reverse(chunks));
    var all := create + adds + [Publish(id)];
    assert all[..|all| - 1] == create + adds;
    assert filled.drafts - {id} == cat.drafts - {id};
  }

  /** Publishing round trip, for any list of entries and any positive chunk size:
      the head is the advertisement, and following its entry chain through the
      block store and reading it back from the far end gives the list in order,
      in full chunks except possibly the chain's first. */
  lemma PublishedRoundTrip(
    scheme: Scheme, s: ProviderState, cat: Catalogue, ad: Advertisement, id: nat, entries: seq<Ipld>, max: nat)
    returns (chain: seq<seq<Ipld>>)
    requires scheme.CollisionFree() && Represents(scheme, s, cat)
    requires ad.metadata.Bytes? && max > 0
    ensures var next := RunProvider(scheme, s, DraftCalls(ad, Chunks(entries, max), id));
            && next.head.Some? && next.head.value in next.blocks && next.blocks[next.head.value].AdObject?
            && Says(next.blocks[next.head.value].ad,
                    Facts(ad.provider, ad.addresses, ad.contextId, ad.metadata, ad.isRm))
            && EntryChain(next.blocks, next.blocks[next.head.value].ad.entries, chain)
    ensures ReadBack(chain) == entries && IsChunking(entries, max, Reverse(chain))
  {
    var chunks := Chunks(entries, max);
    DraftCallsPublish(cat, ad, chunks, id);
    RunRepresents(scheme, s, cat, DraftCalls(ad, chunks, id));
    chain := Reverse(chunks);
    ChunksAreChunking(entries, max);
    ReadBackReverse(chunks);
    ReverseTwice(chunks);
  }

  lemma RootCallsRepresent(
    node: Node, address: Multiaddr, s: ProviderState, cat: Catalogue, root: Cid, walk: Walk, id: nat)
    requires node.scheme.CollisionFree() && Represents(node.scheme, s, cat) && id !in cat.drafts
    ensures Represents(node.scheme, RunProvider(node.scheme, s, RootCalls(node, address, root, walk, id)),
                       cat.(published := [RootAd(node, address, root, walk)] + cat.published))
  {
    DraftCallsPublish(cat, AdFor(node, address, root), Chunks(Hashes(walk), MAX_ENTRIES), id);
    assert cat.drafts - {id} == cat.drafts;
    RunRepresents(node.scheme, s, cat, RootCalls(node, address, root, walk, id));
  }

  // ---- the whole queue ----

  /** The traversals made while the queue is drained: one for each root popped,
      of which only the last may fail, and then the rest of the queue is left. */
  ghost predicate Traversed(db: Graph, roots: seq<Cid>, walks: seq<Result<Walk, WalkError>>) {
    && |walks| <= |roots|
    && (forall i :: 0 <= i < |walks| ==> IsTraversal(db, roots[i], walks[i]))
    && (forall i :: 0 <= i < |walks| - 1 ==> walks[i].Ok?)
    && (|walks| == |roots| || (walks != [] && walks[|walks| - 1].Err?))
  }

  datatype Drained = Drained(provider: ProviderState, roots: seq<Cid>, ok: bool)

  /** The provider and the queue when the loop over the queue ends. A failing
      traversal ends it with its root popped and its draft open. */
  ghost function Drain(
    node: Node, address: Multiaddr, s: ProviderState, roots: seq<Cid>, walks: seq<Result<Walk, WalkError>>,
    ids: seq<nat>)
    : Drained
    requires |walks| == |ids|
    decreases roots
  {
    if roots == [] || walks == [] then Drained(s, roots, true)
    else if walks[0].Err? then
      Drained(OnProvider(node.scheme, s, Create(AdFor(node, address, roots[0]), ids[0])), roots[1..], false)
    else
      Drain(node, address, RunProvider(node.scheme, s, RootCalls(node, address, roots[0], walks[0].value, ids[0])),
            roots[1..], walks[1..], ids[1..])
  }

  /** One more turn of the loop. */
  lemma {:induction false} DrainOneMore(
    node: Node, address: Multiaddr, s: ProviderState, roots: seq<Cid>, walks: seq<Result<Walk, WalkError>>,
    ids: seq<nat>, walk: Result<Walk, WalkError>, id: nat)
    requires |walks| == |ids| && |walks| < |roots| && forall i :: 0 <= i < |walks| ==> walks[i].Ok?
    ensures var d := Drain(node, address, s, roots, walks, ids);
            var root := roots[|walks|];
            && d.ok && d.roots == roots[|walks|..]
            && Drain(node, address, s, roots, walks + [walk], ids + [id])
               == Drained(if walk.Ok?
                          then RunProvider(node.scheme, d.provider, RootCalls(node, address, root, walk.value, id))
                          else OnProvider(node.scheme, d.provider, Create(AdFor(node, address, root), id)),
                          roots[|walks| + 1..], walk.Ok?)
    decreases roots
  {
    if walks == [] {
      assert roots[0..] == roots;
      assert walks + [walk] == [walk] && ids + [id] == [id] && [walk][1..] == [] && [id][1..] == [];
      if walk.Ok? {
        var next := RunProvider(node.scheme, s, RootCalls(node, address, roots[0], walk.value, id));
        assert Drain(node, address, next, roots[1..], [], []) == Drained(next, roots[1..], true);
      }
    } else {
      var next := RunProvider(node.scheme, s, RootCalls(node, address, roots[0], walks[0].value, ids[0]));
      assert (walks + [walk])[1..] == walks[1..] + [walk] && (ids + [id])[1..] == ids[1..] + [id];
      assert roots[1..][|walks| - 1..] == roots[|walks|..] && roots[1..][|walks|..] == roots[|walks| + 1..];
      DrainOneMore(node, address, next, roots[1..], walks[1..], ids[1..], walk, id);
    }
  }

  /** Some roots have been published, and none has failed. */
  ghost predicate Draining(
    node: Node, address: Multiaddr, db: Graph, s: ProviderState, roots: seq<Cid>, walks: seq<Result<Walk, WalkError>>,
    ids: seq<nat>, now: ProviderState)
  {
    && |walks| == |ids| && |walks| <= |roots|
    && (forall i :: 0 <= i < |walks| ==> walks[i].Ok? && IsTraversal(db, roots[i], walks[i]))
    && Drain(node, address, s, roots, walks, ids) == Drained(now, roots[|walks|..], true)
  }

  lemma DrainingPublishes(
    node: Node, address: Multiaddr, db: Graph, s: ProviderState, roots: seq<Cid>, walks: seq<Result<Walk, WalkError>>,
    ids: seq<nat>, now: ProviderState, walk: Walk, id: nat)
    requires Draining(node, address, db, s, roots, walks, ids, now) && |walks| < |roots|
    requires IsTraversal(db, roots[|walks|], Ok(walk))
    ensures Draining(node, address, db, s, roots, walks + [Ok(walk)], ids + [id],
                     RunProvider(node.scheme, now, RootCalls(node, address, roots[|walks|], walk, id)))
  {
    DrainOneMore(node, address, s, roots, walks, ids, Ok(walk), id);
  }

  lemma DrainingDone(
    node: Node, address: Multiaddr, db: Graph, s: ProviderState, roots: seq<Cid>, walks: seq<Result<Walk, WalkError>>,
    ids: seq<nat>, now: ProviderState)
    requires Draining(node, address, db, s, roots, walks, ids, now) && roots[|walks|..] == []
    ensures Traversed(db, roots, walks)
    ensures Drain(node, address, s, roots, walks, ids) == Drained(now, [], true)
  {
  }

  lemma DrainingFails(
    node: Node, address: Multiaddr, db: Graph, s: ProviderState, roots: seq<Cid>, walks: seq<Result<Walk, WalkError>>,
    ids: seq<nat>, now: ProviderState, e: WalkError, id: nat)
    requires Draining(node, address, db, s, roots, walks, ids, now) && |walks| < |roots|
    requires IsTraversal(db, roots[|walks|], Err(e))
    ensures Traversed(db, roots, walks + [Err(e)])
    ensures Drain(node, address, s, roots, walks + [Err(e)], ids + [id])
            == Drained(Created(now, AdFor(node, address, roots[|walks|]), id), roots[|walks| + 1..], false)
  {
    DrainOneMore(node, address, s, roots, walks, ids, Err(e), id);
  }

  /** Draining fails if and only if some queued root has a block missing, and
      empties the queue otherwise. */
  lemma {:induction false} DrainStopsIffIncomplete(
    node: Node, address: Multiaddr, s: ProviderState, db: Graph, roots: seq<Cid>,
    walks: seq<Result<Walk, WalkError>>, ids: seq<nat>)
    requires |walks| == |ids| && Traversed(db, roots, walks)
    ensures var d := Drain(node, address, s, roots, walks, ids);
            && (d.ok ==> d.roots == [])
            && (d.ok <==> forall r :: r in roots ==> Complete(db, r))
    decreases roots
  {
    if roots != [] {
      assert IsTraversal(db, roots[0], walks[0]) && roots[0] in roots;
      if walks[0].Ok? {
        var next := RunProvider(node.scheme, s, RootCalls(node, address, roots[0], walks[0].value, ids[0]));
        DrainStopsIffIncomplete(node, address, next, db, roots[1..], walks[1..], ids[1..]);
        assert roots == [roots[0]] + roots[1..];
      }
    }
  }

  /** The advertisements of the roots that were traversed, oldest first. */
  ghost function RootAds(node: Node, address: Multiaddr, roots: seq<Cid>, walks: seq<Result<Walk, WalkError>>)
    : seq<LogicalAd>
    decreases roots
  {
    if roots == [] || walks == [] || walks[0].Err? then []
    else [RootAd(node, address, roots[0], walks[0].value)] + RootAds(node, address, roots[1..], walks[1..])
  }

  /** There is one advertisement per traversal until one fails, in queue order. */
  lemma {:induction false} RootAdsInOrder(
    node: Node, address: Multiaddr, roots: seq<Cid>, walks: seq<Result<Walk, WalkError>>)
    requires |walks| <= |roots|
    ensures var ads := RootAds(node, address, roots, walks);
            && |ads| <= |walks|
            && (forall i :: 0 <= i < |ads| ==>
                  walks[i].Ok? && ads[i] == RootAd(node, address, roots[i], walks[i].value))
            && (|ads| < |walks| ==> walks[|ads|].Err?)
    decreases roots
  {
    if walks != [] && walks[0].Ok? {
      RootAdsInOrder(node, address, roots[1..], walks[1..]);
    }
  }

  lemma {:induction false} RootAdsBeforeFailure(
    node: Node, address: Multiaddr, roots: seq<Cid>, walks: seq<Result<Walk, WalkError>>, e: WalkError)
    requires |walks| < |roots| && forall i :: 0 <= i < |walks| ==> walks[i].Ok?
    ensures RootAds(node, address, roots, walks + [Err(e)]) == RootAds(node, address, roots, walks)
    decreases roots
  {
    if walks != [] {
      assert (walks + [Err(e)])[1..] == walks[1..] + [Err(e)];
      RootAdsBeforeFailure(node, address, roots[1..], walks[1..], e);
    }
  }

  /** Roots whose traversals succeed are published; the drafts stay as they were. */
  lemma {:induction false} DrainRepresents(
    node: Node, address: Multiaddr, s: ProviderState, cat: Catalogue, roots: seq<Cid>,
    walks: seq<Result<Walk, WalkError>>, ids: seq<nat>)
    requires node.scheme.CollisionFree() && Represents(node.scheme, s, cat)
    requires |walks| == |ids| && |walks| <= |roots| && forall i :: 0 <= i < |walks| ==> walks[i].Ok?
    requires forall id :: id in ids ==> id !in cat.drafts
    ensures Represents(node.scheme, Drain(node, address, s, roots, walks, ids).provider,
                       cat.(published := Reverse(RootAds(node, address, roots, walks)) + cat.published))
    decreases roots
  {
    if walks == [] {
      assert cat.(published := [] + cat.published) == cat;
    } else {
      var first := RootAd(node, address, roots[0], walks[0].value);
      var next := RunProvider(node.scheme, s, RootCalls(node, address, roots[0], walks[0].value, ids[0]));
      var mid := cat.(published := [first] + cat.published);
      assert ids[0] in ids;
      RootCallsRepresent(node, address, s, cat, roots[0], walks[0].value, ids[0]);
      DrainRepresents(node, address, next, mid, roots[1..], walks[1..], ids[1..]);
      PrependReversed(first, RootAds(node, address, roots[1..], walks[1..]), cat.published);
    }
  }

  /** Draining succeeds if and only if the traversals do, and all roots are traversed then. */
  lemma DrainOkIff(
    node: Node, address: Multiaddr, s: ProviderState, db: Graph, roots: seq<Cid>,
    walks: seq<Result<Walk, WalkError>>, ids: seq<nat>)
    requires |walks| == |ids| && Traversed(db, roots, walks)
    ensures var d := Drain(node, address, s, roots, walks, ids);
            && (d.ok ==> |walks| == |roots| && forall i :: 0 <= i < |walks| ==> walks[i].Ok?)
            && (!d.ok ==> walks != [] && walks[|walks| - 1].Err? && !Complete(db, roots[|walks| - 1]))
  {
    DrainStopsIffIncomplete(node, address, s, db, roots, walks, ids);
    forall i | 0 <= i < |walks|
      ensures walks[i].Ok? <==> Complete(db, roots[i])
    {
      assert IsTraversal(db, roots[i], walks[i]);
    }
    if forall i :: 0 <= i < |walks| ==> walks[i].Ok? {
      forall r | r in roots
        ensures Complete(db, r)
      {
        var i :| 0 <= i < |roots| && roots[i] == r;
        assert walks[i].Ok?;
      }
    } else {
      var i :| 0 <= i < |walks| && walks[i].Err?;
      assert roots[i] in roots;
    }
  }

  /** Draining a queue without an error empties it, puts one advertisement per
      root on the chain in queue order, and leaves the drafts as they were. */
  lemma DrainPublishes(
    node: Node, address: Multiaddr, s: ProviderState, cat: Catalogue, db: Graph, roots: seq<Cid>,
    walks: seq<Result<Walk, WalkError>>, ids: seq<nat>)
    requires node.scheme.CollisionFree() && Represents(node.scheme, s, cat)
    requires Traversed(db, roots, walks) && |walks| == |ids|
    requires forall id :: id in ids ==> id !in cat.drafts
    ensures var d := Drain(node, address, s, roots, walks, ids);
            d.ok ==> && d.roots == []
                     && |walks| == |roots|
                     && |RootAds(node, address, roots, walks)| == |roots|
                     && Represents(node.scheme, d.provider,
                                   cat.(published := Reverse(RootAds(node, address, roots, walks)) + cat.published))
  {
    DrainOkIff(node, address, s, db, roots, walks, ids);
    DrainStopsIffIncomplete(node, address, s, db, roots, walks, ids);
    RootAdsInOrder(node, address, roots, walks);
    if Drain(node, address, s, roots, walks, ids).ok {
      DrainRepresents(node, address, s, cat, roots, walks, ids);
    }
  }

  lemma DrainFailsAt(
    node: Node, address: Multiaddr, s: ProviderState, cat: Catalogue, roots: seq<Cid>,
    done: seq<Result<Walk, WalkError>>, ids: seq<nat>, e: WalkError, id: nat)
    requires node.scheme.CollisionFree() && Represents(node.scheme, s, cat)
    requires |done| == |ids| && |done| < |roots| && forall i :: 0 <= i < |done| ==> done[i].Ok?
    requires forall i :: i in ids ==> i !in cat.drafts
    ensures var d := Drain(node, address, s, roots, done + [Err(e)], ids + [id]);
            var ads := RootAds(node, address, roots, done + [Err(e)]);
            && d.roots == roots[|done| + 1..] && |ads| == |done|
            && Represents(node.scheme, d.provider,
                          Catalogue(cat.drafts[id := OpenedFor(node, address, roots[|done|])],
                                    Reverse(ads) + cat.published))
  {
    var ads := RootAds(node, address, roots, done);
    DrainOneMore(node, address, s, roots, done, ids, Err(e), id);
    DrainRepresents(node, address, s, cat, roots, done, ids);
    RootAdsBeforeFailure(node, address, roots, done, e);
    RootAdsInOrder(node, address, roots, done);
    var filled := cat.(published := Reverse(ads) + cat.published);
    OpeningRepresents(node, address, Drain(node, address, s, roots, done, ids).provider, filled, roots[|done|], id);
  }

  lemma LastFails(db: Graph, roots: seq<Cid>, walks: seq<Result<Walk, WalkError>>, ids: seq<nat>)
    requires Traversed(db, roots, walks) && |walks| == |ids| && walks != [] && walks[|walks| - 1].Err?
    ensures var k := |walks| - 1;
            && walks == walks[..k] + [Err(walks[k].error)] && ids == ids[..k] + [ids[k]]
            && (forall i :: 0 <= i < k ==> walks[..k][i].Ok?)
            && (forall i :: i in ids[..k] ==> i in ids)
  {
  }

  /** Draining a queue that fails: the roots before the failing one are published
      in queue order, the failing one is popped with its draft open, and the roots
      behind it stay queued. */
  lemma DrainFails(
    node: Node, address: Multiaddr, s: ProviderState, cat: Catalogue, db: Graph, roots: seq<Cid>,
    walks: seq<Result<Walk, WalkError>>, ids: seq<nat>)
    requires node.scheme.CollisionFree() && Represents(node.scheme, s, cat)
    requires Traversed(db, roots, walks) && |walks| == |ids|
    requires forall id :: id in ids ==> id !in cat.drafts
    ensures var d := Drain(node, address, s, roots, walks, ids);
            var ads := RootAds(node, address, roots, walks);
            var k := |walks| - 1;
            !d.ok ==> && walks != [] && d.roots == roots[k + 1..]
                      && |ads| == k && !Complete(db, roots[k])
                      && Represents(node.scheme, d.provider,
                                    Catalogue(cat.drafts[ids[k] := OpenedFor(node, address, roots[k])],
                                              Reverse(ads) + cat.published))
  {
    DrainOkIff(node, address, s, db, roots, walks, ids);
    if !Drain(node, address, s, roots, walks, ids).ok {
      var k := |walks| - 1;
      LastFails(db, roots, walks, ids);
      DrainFailsAt(node, address, s, cat, roots, walks[..k], ids[..k], walks[k].error, ids[k]);
    }
  }

  lemma OpeningRepresents(
    node: Node, address: Multiaddr, s: ProviderState, cat: Catalogue, root: Cid, id: nat)
    requires node.scheme.CollisionFree() && Represents(node.scheme, s, cat)
    ensures Represents(node.scheme, Created(s, AdFor(node, address, root), id),
                       cat.(drafts := cat.drafts[id := OpenedFor(node, address, root)]))
  {
    CallRefines(node.scheme, s, cat, Create(AdFor(node, address, root), id));
  }

  /** The draft of a root, before anything was added to it. */
  function OpenedFor(node: Node, address: Multiaddr, root: Cid): LogicalAd {
    LogicalAd(FactsOf(AdFor(node, address, root)), [])
  }

  lemma PrependReversed<T>(first: T, others: seq<T>, tail: seq<T>)
    ensures Reverse([first] + others) + tail == Reverse(others) + ([first] + tail)
  {
    ReverseConcat([first], others);
    assert Reverse([first]) == [first] + Reverse([]);
  }
}
