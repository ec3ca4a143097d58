/** Every indexed root is published, in order, or still queued. */
module Indexing {
  import opened Collections
  import opened Wrappers
  import opened Content
  import opened LinkGraph
  import opened Addresses
  import St = Store
  import opened Advertisements
  import P = Provider
  import opened Catalogue
  import opened Chunking
  import opened Publishing
  import opened Service
  import opened RootWatch
  import opened Ledger
  import opened History

  /** The chunks of the chain, read back from its far end, are the multihashes of
      the complete DAG below the root. */
  ghost predicate ChainListsDag(db: Graph, root: Cid, chunks: seq<seq<Ipld>>) {
    && Complete(db, root)
    && exists walk :: St.ListsDag(db, root, walk) && ListsMultihashes(walk, ReadBack(chunks))
                      && IsChunking(ReadBack(chunks), 6_250_000, Reverse(chunks))
  }

  /** One address is published: the IP and TCP parts of an address that autonat
      found to be public. */
  ghost predicate ShowsReported(node: Node, reported: set<Multiaddr>, addresses: seq<seq<byte>>) {
    exists address, parts :: address in reported && HostParts(address, parts) && addresses == [node.show(parts)]
  }

  /** The advertisement of a root of this node, over the complete DAG below it. */
  ghost predicate AdvertisesDag(node: Node, db: Graph, reported: set<Multiaddr>, root: Cid, ad: LogicalAd) {
    && ad.facts.contextId == Bytes(root.ToBytes())
    && ad.facts.provider == node.peerId && !ad.facts.isRm
    && ad.facts.metadata.Bytes? && ReadsAsMetadata(ad.facts.metadata.bytes, 0x0900, [])
    && ShowsReported(node, reported, ad.facts.addresses)
    && ChainListsDag(db, root, ad.chunks)
  }

  ghost function Advertising(node: Node, db: Graph, reported: set<Multiaddr>): (Cid, LogicalAd) -> bool {
    (root, ad) => AdvertisesDag(node, db, reported, root, ad)
  }

  /** The provider stands for a catalogue without drafts that adds up. */
  ghost predicate IndexedAs(node: Node, s: State, cat: Catalogue) {
    && Represents(node.scheme, s.provider, cat) && cat.drafts == map[]
    && AddsUp(Advertising(node, s.store, s.reported), s.indexed, cat.published, s.rootCids)
  }

  /** No indexed root is lost: each is published or queued. */
  ghost predicate Conserved(node: Node, s: State) {
    exists cat :: IndexedAs(node, s, cat)
  }

  /** The draft of this root, without a chunk, is the only one open. */
  ghost predicate OnlyDraft(node: Node, provider: P.ProviderState, cat: Catalogue, root: Cid, id: nat) {
    && Represents(node.scheme, provider, cat)
    && cat.drafts.Keys == {id}
    && cat.drafts[id].facts.contextId == Bytes(root.ToBytes()) && cat.drafts[id].chunks == []
  }

  /** This root, with a block missing, is lost, and its draft is left open. */
  ghost predicate LostRoot(node: Node, s: State, cat: Catalogue, root: Cid, id: nat) {
    && OnlyDraft(node, s.provider, cat, root, id)
    && !Complete(s.store, root)
    && AddsUpWithout(Advertising(node, s.store, s.reported), s.indexed, cat.published, s.rootCids, root)
  }

  /** However the provider's state is read, a lost root keeps it from adding up. */
  lemma LostIsLost(node: Node, s: State, cat: Catalogue, root: Cid, id: nat)
    requires LostRoot(node, s, cat, root, id)
    ensures forall other: Catalogue :: Represents(node.scheme, s.provider, other) ==>
              !AddsUp(Advertising(node, s.store, s.reported), s.indexed, other.published, s.rootCids)
    ensures !Conserved(node, s)
  {
    forall other: Catalogue | Represents(node.scheme, s.provider, other)
      ensures other.published == cat.published
    {
      AdChainUnique(node.scheme, s.provider.blocks, AsLink(s.provider.head), other.published, cat.published);
    }
  }

  lemma ChainStillListsDag(small: Graph, big: Graph, root: Cid, chunks: seq<seq<Ipld>>)
    requires Extends(small, big) && ChainListsDag(small, root, chunks)
    ensures ChainListsDag(big, root, chunks)
  {
    var walk :| St.ListsDag(small, root, walk) && ListsMultihashes(walk, ReadBack(chunks));
    St.CompleteStays(small, big, root);
    St.ListingTransfers(small, big, root, walk);
  }

  lemma RootAdAdvertises(
    node: Node, public: Multiaddr, db: Graph, reported: set<Multiaddr>, root: Cid, walk: St.Walk)
    requires St.IsTraversal(db, root, Ok(walk)) && public in reported
    ensures AdvertisesDag(node, db, reported, root, RootAd(node, Advertised(public), root, walk))
  {
    var chunks := Chunks(Hashes(walk), MAX_ENTRIES);
    ChunksAreChunking(Hashes(walk), MAX_ENTRIES);
    ReadBackReverse(chunks);
    ReverseTwice(chunks);
    HashesAreMultihashes(walk, Hashes(walk));
    AdvertisedIsHostParts(public, Advertised(public));
    NewNamesBitswap(root.ToBytes(), node.peerId, [node.show(Advertised(public))], false);
  }

  lemma RootAdsAdvertise(
    node: Node, public: Multiaddr, db: Graph, reported: set<Multiaddr>, roots: seq<Cid>,
    walks: seq<Result<St.Walk, St.WalkError>>)
    requires Traversed(db, roots, walks) && public in reported
    ensures Follows(Advertising(node, db, reported), roots, RootAds(node, Advertised(public), roots, walks))
  {
    var ads := RootAds(node, Advertised(public), roots, walks);
    RootAdsInOrder(node, Advertised(public), roots, walks);
    forall i | 0 <= i < |ads|
      ensures Advertising(node, db, reported)(roots[i], ads[i])
    {
      assert St.IsTraversal(db, roots[i], walks[i]);
      RootAdAdvertises(node, public, db, reported, roots[i], walks[i].value);
    }
  }

  /** A turn of publishing that meets no missing block moves the whole queue to the chain. */
  lemma PublishingAccounts(node: Node, s: State, cat: Catalogue, address: Multiaddr,
                           walks: seq<Result<St.Walk, St.WalkError>>, ids: seq<nat>, next: State)
    returns (after: Catalogue)
    requires node.scheme.CollisionFree() && IndexedAs(node, s, cat)
    requires |walks| == |ids| && Traversed(s.store, s.rootCids, walks) && address in s.reported
    requires next == OnStartPublish(node, s, address, walks, ids) && next.running
    ensures IndexedAs(node, next, after)
  {
    var shown := Advertised(address);
    var ads := RootAds(node, shown, s.rootCids, walks);
    DrainPublishes(node, shown, s.provider, cat, s.store, s.rootCids, walks, ids);
    RootAdsAdvertise(node, address, s.store, s.reported, s.rootCids, walks);
    EntriesAddUp(Advertising(node, s.store, s.reported), s.indexed, cat.published, s.rootCids, ads);
    after := cat.(published := Reverse(ads) + cat.published);
  }

  /** Draining the queue puts advertisements over the complete DAGs of the first
      roots on the chain, each with what is shown of this address. */
  lemma DrainAdvertises(
    node: Node, public: Multiaddr, s: P.ProviderState, cat: Catalogue, db: Graph, roots: seq<Cid>,
    walks: seq<Result<St.Walk, St.WalkError>>, ids: seq<nat>)
    returns (ads: seq<LogicalAd>, after: Catalogue)
    requires node.scheme.CollisionFree() && Represents(node.scheme, s, cat) && cat.drafts == map[]
    requires |walks| == |ids| && Traversed(db, roots, walks)
    ensures var d := Drain(node, Advertised(public), s, roots, walks, ids);
            && Represents(node.scheme, d.provider, after) && after.published == Reverse(ads) + cat.published
            && Follows(Advertising(node, db, {public}), roots, ads)
            && if d.ok then |ads| == |roots| && d.roots == []
               else |ads| < |roots| && d.roots == roots[|ads| + 1..] && !Complete(db, roots[|ads|])
  {
    var shown := Advertised(public);
    ads := RootAds(node, shown, roots, walks);
    RootAdsAdvertise(node, public, db, {public}, roots, walks);
    if Drain(node, shown, s, roots, walks, ids).ok {
      DrainPublishes(node, shown, s, cat, db, roots, walks, ids);
      after := cat.(published := Reverse(ads) + cat.published);
    } else {
      var id;
      after, id := FailureLeavesDraft(node, shown, s, cat, db, roots, walks, ids);
    }
  }

  /** A turn of publishing: the new advertisements are over the complete DAGs of the
      first queued roots, in order, and show the IP and TCP parts of the address in
      the event; the roots behind them stay queued, except for the failing one. */
  lemma PublishingTurn(node: Node, s: State, cat: Catalogue, a: Action, next: State)
    returns (ads: seq<LogicalAd>, after: Catalogue)
    requires node.scheme.CollisionFree() && Represents(node.scheme, s.provider, cat) && cat.drafts == map[]
    requires Enabled(s, a) && StartsPublishing(s, a) && next == Step(node, s, a)
    ensures Represents(node.scheme, next.provider, after) && after.published == Reverse(ads) + cat.published
    ensures Follows(Advertising(node, s.store, {s.behaviour.events[0].publicAddress}), s.rootCids, ads)
    ensures if next.running then |ads| == |s.rootCids| && next.rootCids == []
            else |ads| < |s.rootCids| && next.rootCids == s.rootCids[|ads| + 1..]
                 && !Complete(s.store, s.rootCids[|ads|])
  {
    ads, after := DrainAdvertises(node, s.behaviour.events[0].publicAddress, s.provider, cat, s.store, s.rootCids,
                                  a.walks, a.ids);
  }

  lemma FailureLeavesDraft(
    node: Node, address: Multiaddr, s: P.ProviderState, cat: Catalogue, db: Graph, roots: seq<Cid>,
    walks: seq<Result<St.Walk, St.WalkError>>, ids: seq<nat>)
    returns (after: Catalogue, id: nat)
    requires node.scheme.CollisionFree() && Represents(node.scheme, s, cat) && cat.drafts == map[]
    requires |walks| == |ids| && Traversed(db, roots, walks)
    requires !Drain(node, address, s, roots, walks, ids).ok
    ensures var d := Drain(node, address, s, roots, walks, ids);
            var ads := RootAds(node, address, roots, walks);
            && |ads| < |roots| && d.roots == roots[|ads| + 1..] && !Complete(db, roots[|ads|])
            && OnlyDraft(node, d.provider, after, roots[|ads|], id)
            && after.published == Reverse(ads) + cat.published
  {
    DrainFails(node, address, s, cat, db, roots, walks, ids);
    var ads := RootAds(node, address, roots, walks);
    id := ids[|ads|];
    after := Catalogue(cat.drafts[id := OpenedFor(node, address, roots[|ads|])], Reverse(ads) + cat.published);
  }

  /** One that does meets it at some root, and loses that root. */
  lemma PublishingLoses(node: Node, s: State, cat: Catalogue, address: Multiaddr,
                        walks: seq<Result<St.Walk, St.WalkError>>, ids: seq<nat>, next: State)
    returns (after: Catalogue, root: Cid, id: nat)
    requires node.scheme.CollisionFree() && IndexedAs(node, s, cat)
    requires |walks| == |ids| && Traversed(s.store, s.rootCids, walks) && address in s.reported
    requires next == OnStartPublish(node, s, address, walks, ids)
    requires !Drain(node, Advertised(address), s.provider, s.rootCids, walks, ids).ok
    ensures LostRoot(node, next, after, root, id)
  {
    var shown := Advertised(address);
    var ads := RootAds(node, shown, s.rootCids, walks);
    after, id := FailureLeavesDraft(node, shown, s.provider, cat, s.store, s.rootCids, walks, ids);
    root := s.rootCids[|ads|];
    RootAdsAdvertise(node, address, s.store, s.reported, s.rootCids, walks);
    DroppedIsLost(Advertising(node, s.store, s.reported), s.indexed, cat.published, s.rootCids, ads);
  }

  /** What is advertised stays so while the store grows and addresses are found. */
  lemma AdvertisingGrows(
    node: Node, small: Graph, big: Graph, fewer: set<Multiaddr>, more: set<Multiaddr>)
    requires Extends(small, big) && fewer <= more
    ensures forall root, ad :: Advertising(node, small, fewer)(root, ad) ==> Advertising(node, big, more)(root, ad)
  {
    forall root, ad | Advertising(node, small, fewer)(root, ad)
      ensures Advertising(node, big, more)(root, ad)
    {
      ChainStillListsDag(small, big, root, ad.chunks);
    }
  }

  ghost predicate StartsPublishing(s: State, a: Action)
    requires Enabled(s, a)
  {
    a.HandleEvent? && s.behaviour.events[0].StartPublish?
  }

  lemma OtherTurnsIndex(node: Node, s: State, a: Action, next: State)
    requires a.HandleEvent? && Enabled(s, a) && !StartsPublishing(s, a) && next == Step(node, s, a)
    ensures SameRecords(s, next) && next.provider == s.provider && next.rootCids == s.rootCids
  {
    TurnsRecordNothing(node, s, a, next);
  }

  lemma OtherStepsIndex(node: Node, s: State, a: Action, next: State)
    requires Enabled(s, a) && !StartsPublishing(s, a) && next == Step(node, s, a)
    ensures Extends(s.store, next.store) && next.provider == s.provider && s.reported <= next.reported
    ensures next.indexed == s.indexed + NewRoots(a) && next.rootCids == s.rootCids + NewRoots(a)
  {
    Regroup(s.indexed, [], []);
    Regroup(s.rootCids, [], []);
    if a.HandleEvent? {
      OtherTurnsIndex(node, s, a, next);
    }
  }

  /** A turn of publishing with a queued root below which a block is missing. */
  ghost predicate LosesRoot(s: State, a: Action)
    requires Enabled(s, a)
  {
    StartsPublishing(s, a) && exists r :: r in s.rootCids && !Complete(s.store, r)
  }

  lemma PublishingStep(node: Node, s: State, a: Action, next: State)
    requires node.scheme.CollisionFree() && Conserved(node, s) && Enabled(s, a) && StartsPublishing(s, a)
    requires s.behaviour.events[0].publicAddress in s.reported && next == Step(node, s, a)
    ensures LosesRoot(s, a) ==> !next.running && exists cat, root, id :: LostRoot(node, next, cat, root, id)
    ensures !LosesRoot(s, a) ==> Conserved(node, next)
  {
    var cat :| IndexedAs(node, s, cat);
    var address := s.behaviour.events[0].publicAddress;
    DrainStopsIffIncomplete(node, Advertised(address), s.provider, s.store, s.rootCids, a.walks, a.ids);
    assert IndexedAs(node, Popped(s), cat);
    if LosesRoot(s, a) {
      var after, root, id := PublishingLoses(node, Popped(s), cat, address, a.walks, a.ids, next);
    } else {
      var after := PublishingAccounts(node, Popped(s), cat, address, a.walks, a.ids, next);
    }
  }

  lemma OtherStepConserves(node: Node, s: State, a: Action, next: State)
    requires Conserved(node, s) && Enabled(s, a) && !StartsPublishing(s, a) && next == Step(node, s, a)
    ensures Conserved(node, next)
  {
    var cat :| IndexedAs(node, s, cat);
    OtherStepsIndex(node, s, a, next);
    AdvertisingGrows(node, s.store, next.store, s.reported, next.reported);
    StillAddsUp(Advertising(node, s.store, s.reported), Advertising(node, next.store, next.reported), s.indexed,
                cat.published, s.rootCids, NewRoots(a));
    assert IndexedAs(node, next, cat);
  }

  /** A step keeps every root accounted for if and only if it is not a turn of
      publishing with a block missing below a queued root; that one ends the loop
      and loses a root. */
  lemma StepConservesIff(node: Node, s: State, a: Action, next: State)
    requires node.scheme.CollisionFree() && Conserved(node, s) && Enabled(s, a) && next == Step(node, s, a)
    requires PublishesReported(s)
    ensures Conserved(node, next) <==> !LosesRoot(s, a)
    ensures LosesRoot(s, a) ==> !next.running && exists cat, root, id :: LostRoot(node, next, cat, root, id)
  {
    if StartsPublishing(s, a) {
      assert s.behaviour.events[0] in s.behaviour.events;
      PublishingStep(node, s, a, next);
      if LosesRoot(s, a) {
        var cat, root, id :| LostRoot(node, next, cat, root, id);
        LostIsLost(node, next, cat, root, id);
      }
    } else {
      OtherStepConserves(node, s, a, next);
    }
  }

  /** The step that led to this state lost a root. */
  ghost predicate LostAt(node: Node, states: seq<State>, actions: seq<Action>, i: nat)
    requires IsRun(node, states, actions) && i < |states|
  {
    i > 0 && LosesRoot(states[i - 1], actions[i - 1])
  }

  /** In every state of every run, ended or not: unless the last step lost a root,
      the chain from the head consists of one advertisement per published root, in
      indexing order, each over the complete DAG of its root, the other indexed
      roots are queued, and no draft is open. If it did lose a root, exactly that
      root is missing from the account, between the published and the queued ones. */
  lemma {:induction false} RootsConserved(node: Node, states: seq<State>, actions: seq<Action>, i: nat)
    requires node.scheme.CollisionFree() && IsRun(node, states, actions) && i < |states|
    ensures Conserved(node, states[i]) <==> !LostAt(node, states, actions, i)
    ensures LostAt(node, states, actions, i) ==>
              !states[i].running && exists cat, root, id :: LostRoot(node, states[i], cat, root, id)
    decreases i
  {
    if i > 0 {
      RootsConserved(node, states, actions, i - 1);
      assert Enabled(states[i - 1], actions[i - 1]);
      AddressesWereReported(node, states, actions, i - 1);
      StepConservesIff(node, states[i - 1], actions[i - 1], states[i]);
    } else {
      assert IndexedAs(node, states[0], FRESH_CATALOGUE);
    }
  }

  // ---- indexing what is stored ----

  /** An Index command names a root, and the DAG below the first one is stored. */
  ghost predicate IndexesStored(s: State, a: Action) {
    a.Index? ==> a.cids != [] && Complete(s.store, a.cids[0])
  }

  ghost predicate QueueStored(s: State) {
    forall r :: r in s.rootCids ==> Complete(s.store, r)
  }

  lemma StepQueueStored(node: Node, s: State, a: Action, next: State)
    requires QueueStored(s) && Enabled(s, a) && IndexesStored(s, a) && next == Step(node, s, a)
    ensures QueueStored(next) && !LosesRoot(s, a)
  {
    if StartsPublishing(s, a) {
      var address := Advertised(s.behaviour.events[0].publicAddress);
      DrainStopsIffIncomplete(node, address, s.provider, s.store, s.rootCids, a.walks, a.ids);
    } else {
      OtherStepsIndex(node, s, a, next);
      forall r | r in next.rootCids
        ensures Complete(next.store, r)
      {
        assert r in s.rootCids || (a.Index? && r == a.cids[0]);
        St.CompleteStays(s.store, next.store, r);
      }
    }
  }

  /** The two other ways for a step to end the loop. */
  predicate StopsOtherwise(node: Node, a: Action) {
    a.SendResponse? || (a.HandleEvent? && node.usesRelays && !a.listening)
  }

  lemma StoredStopsOtherwise(node: Node, s: State, a: Action, next: State)
    requires QueueStored(s) && Enabled(s, a) && IndexesStored(s, a) && next == Step(node, s, a) && !next.running
    ensures StopsOtherwise(node, a)
  {
    StopsExactlyWhen(node, s, a);
  }

  lemma {:induction false} QueueStaysStored(node: Node, states: seq<State>, actions: seq<Action>, i: nat)
    requires IsRun(node, states, actions) && i < |states|
    requires forall k :: 0 <= k < |actions| ==> IndexesStored(states[k], actions[k])
    ensures QueueStored(states[i])
    decreases i
  {
    if i > 0 {
      QueueStaysStored(node, states, actions, i - 1);
      assert IndexesStored(states[i - 1], actions[i - 1]);
      StepQueueStored(node, states[i - 1], actions[i - 1], states[i]);
    }
  }

  lemma NoStoredRootLost(node: Node, states: seq<State>, actions: seq<Action>, i: nat)
    requires IsRun(node, states, actions) && i < |states|
    requires forall k :: 0 <= k < |actions| ==> IndexesStored(states[k], actions[k])
    ensures !LostAt(node, states, actions, i)
  {
    if i > 0 {
      QueueStaysStored(node, states, actions, i - 1);
      assert IndexesStored(states[i - 1], actions[i - 1]);
      StepQueueStored(node, states[i - 1], actions[i - 1], states[i]);
    }
  }

  lemma StoredRunStops(node: Node, states: seq<State>, actions: seq<Action>, i: nat)
    requires IsRun(node, states, actions) && i < |states| && !states[i].running
    requires forall k :: 0 <= k < |actions| ==> IndexesStored(states[k], actions[k])
    ensures i > 0 && StopsOtherwise(node, actions[i - 1])
  {
    assert i > 0;
    QueueStaysStored(node, states, actions, i - 1);
    assert IndexesStored(states[i - 1], actions[i - 1]);
    StoredStopsOtherwise(node, states[i - 1], actions[i - 1], states[i]);
  }

  /** When every Index command names a root that is stored with its whole DAG, no
      root is ever lost, and only a SendResponse command or a relay that cannot be
      listened on ends the loop. */
  lemma StoredRootsAreSafe(node: Node, states: seq<State>, actions: seq<Action>, i: nat)
    requires node.scheme.CollisionFree() && IsRun(node, states, actions) && i < |states|
    requires forall k :: 0 <= k < |actions| ==> IndexesStored(states[k], actions[k])
    ensures Conserved(node, states[i])
    ensures !states[i].running ==> i > 0 && StopsOtherwise(node, actions[i - 1])
  {
    NoStoredRootLost(node, states, actions, i);
    RootsConserved(node, states, actions, i);
    if !states[i].running {
      StoredRunStops(node, states, actions, i);
    }
  }
}
