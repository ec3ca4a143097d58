/** The catalogue that a provider stands for, and the proof that every run of
    calls keeps the block store a representation of it. */
module Catalogue {
  import opened Collections
  import opened Wrappers
  import opened Content
  import opened Advertisements
  import opened Provider

  /** What an advertisement says, apart from its links and its signature. */
  datatype Facts = Facts(provider: seq<byte>, addresses: seq<seq<byte>>, contextId: Ipld, metadata: Ipld, isRm: bool)

  function FactsOf(ad: Advertisement): Facts {
    Facts(ad.provider, ad.addresses, ad.contextId, ad.metadata, ad.isRm)
  }

  /** An advertisement with the contents of its entry chunks, newest first. */
  datatype LogicalAd = LogicalAd(facts: Facts, chunks: seq<seq<Ipld>>)

  /** The drafts by id, and the chain of published advertisements, newest first. */
  datatype Catalogue = Catalogue(drafts: map<nat, LogicalAd>, published: seq<LogicalAd>)

  // ---- calls on the catalogue ----

  datatype Call =
    | Create(ad: Advertisement, id: nat)
    | AddChunk(entries: seq<Ipld>, id: nat)
    | Publish(id: nat)

  function OnCatalogue(cat: Catalogue, call: Call): Catalogue {
    match call
    case Create(ad, id) => cat.(drafts := cat.drafts[id := LogicalAd(FactsOf(ad), [])])
    case AddChunk(entries, id) =>
      if id !in cat.drafts then cat
      else cat.(drafts := cat.drafts[id := cat.drafts[id].(chunks := [entries] + cat.drafts[id].chunks)])
    case Publish(id) =>
      Catalogue(
        cat.drafts - {id},
        if id in cat.drafts && cat.drafts[id].facts.metadata.Bytes? then [cat.drafts[id]] + cat.published else [])
  }

  function OnProvider(scheme: Scheme, s: ProviderState, call: Call): ProviderState {
    match call
    case Create(ad, id) => Created(s, ad, id)
    case AddChunk(entries, id) => ChunkAdded(scheme, s, entries, id)
    case Publish(id) => AfterPublish(scheme, s, id)
  }

  // ---- the representation ----

  ghost predicate ContentAddressed(scheme: Scheme, blocks: Blocks) {
    forall c :: c in blocks ==> c == scheme.cidOf(blocks[c])
  }

  /** Following `Next` from the link visits these chunks, in this order, and ends. */
  ghost predicate EntryChain(blocks: Blocks, link: Option<Ipld>, chunks: seq<seq<Ipld>>)
    decreases chunks
  {
    if chunks == [] then link == None
    else
      && link.Some? && link.value.Link? && link.value.cid in blocks
      && blocks[link.value.cid].ChunkObject?
      && blocks[link.value.cid].chunk.entries == chunks[0]
      && EntryChain(blocks, blocks[link.value.cid].chunk.next, chunks[1..])
  }

  ghost predicate Says(ad: Advertisement, facts: Facts) {
    && ad.provider == facts.provider && ad.addresses == facts.addresses
    && ad.contextId == facts.contextId && ad.metadata == facts.metadata && ad.isRm == facts.isRm
  }

  /** The stored advertisement says this, heads these chunks, and carries a
      signature that verifies against its own fields. */
  ghost predicate StandsFor(scheme: Scheme, blocks: Blocks, ad: Advertisement, logical: LogicalAd) {
    && Says(ad, logical.facts)
    && EntryChain(blocks, ad.entries, logical.chunks)
    && Verifies(scheme, ad)
  }

  ghost function AsLink(head: Option<Cid>): Option<Ipld> {
    if head.Some? then Some(Link(head.value)) else None
  }

  /** Following `PreviousID` from the link visits these advertisements and ends. */
  ghost predicate AdChain(scheme: Scheme, blocks: Blocks, link: Option<Ipld>, ads: seq<LogicalAd>)
    decreases ads
  {
    if ads == [] then link == None
    else
      && link.Some? && link.value.Link? && link.value.cid in blocks
      && blocks[link.value.cid].AdObject?
      && StandsFor(scheme, blocks, blocks[link.value.cid].ad, ads[0])
      && AdChain(scheme, blocks, blocks[link.value.cid].ad.previousId, ads[1..])
  }

  ghost predicate DraftsMatch(s: ProviderState, cat: Catalogue) {
    && s.tempAds.Keys == cat.drafts.Keys
    && forall id :: id in s.tempAds ==>
         && Says(s.tempAds[id], cat.drafts[id].facts)
         && LinkOrNone(s.tempAds[id].entries)
         && EntryChain(s.blocks, s.tempAds[id].entries, cat.drafts[id].chunks)
  }

  ghost predicate Represents(scheme: Scheme, s: ProviderState, cat: Catalogue) {
    && ContentAddressed(scheme, s.blocks)
    && DraftsMatch(s, cat)
    && AdChain(scheme, s.blocks, AsLink(s.head), cat.published)
  }

  // ---- chains are read in one way only, and survive later writes ----

  lemma {:induction false} EntryChainUnique(blocks: Blocks, link: Option<Ipld>, a: seq<seq<Ipld>>, b: seq<seq<Ipld>>)
    requires EntryChain(blocks, link, a) && EntryChain(blocks, link, b)
    ensures a == b
    decreases a
  {
    if a != [] && b != [] {
      EntryChainUnique(blocks, blocks[link.value.cid].chunk.next, a[1..], b[1..]);
      assert a == [a[0]] + a[1..] && b == [b[0]] + b[1..];
    }
  }

  lemma {:induction false} AdChainUnique(
    scheme: Scheme, blocks: Blocks, link: Option<Ipld>, a: seq<LogicalAd>, b: seq<LogicalAd>)
    requires AdChain(scheme, blocks, link, a) && AdChain(scheme, blocks, link, b)
    ensures a == b
    decreases a
  {
    if a != [] && b != [] {
      var ad := blocks[link.value.cid].ad;
      EntryChainUnique(blocks, ad.entries, a[0].chunks, b[0].chunks);
      AdChainUnique(scheme, blocks, ad.previousId, a[1..], b[1..]);
      assert a == [a[0]] + a[1..] && b == [b[0]] + b[1..];
    }
  }

  lemma {:induction false} EntryChainKept(small: Blocks, big: Blocks, link: Option<Ipld>, chunks: seq<seq<Ipld>>)
    requires Extends(small, big) && EntryChain(small, link, chunks)
    ensures EntryChain(big, link, chunks)
    decreases chunks
  {
    if chunks != [] {
      EntryChainKept(small, big, small[link.value.cid].chunk.next, chunks[1..]);
    }
  }

  lemma {:induction false} AdChainKept(
    scheme: Scheme, small: Blocks, big: Blocks, link: Option<Ipld>, ads: seq<LogicalAd>)
    requires Extends(small, big) && AdChain(scheme, small, link, ads)
    ensures AdChain(scheme, big, link, ads)
    decreases ads
  {
    if ads != [] {
      EntryChainKept(small, big, small[link.value.cid].ad.entries, ads[0].chunks);
      AdChainKept(scheme, small, big, small[link.value.cid].ad.previousId, ads[1..]);
    }
  }

  /** Storing an object under its own identifier disturbs nothing. */
  lemma PutExtends(scheme: Scheme, blocks: Blocks, o: Object)
    requires scheme.CollisionFree() && ContentAddressed(scheme, blocks)
    ensures Extends(blocks, blocks[scheme.cidOf(o) := o])
    ensures ContentAddressed(scheme, blocks[scheme.cidOf(o) := o])
  {
  }

  /** No call takes anything out of the block store or changes a stored object. */
  lemma CallExtends(scheme: Scheme, s: ProviderState, call: Call)
    requires scheme.CollisionFree() && ContentAddressed(scheme, s.blocks)
    ensures Extends(s.blocks, OnProvider(scheme, s, call).blocks)
    ensures ContentAddressed(scheme, OnProvider(scheme, s, call).blocks)
  {
    match call
    case Create(_, _) =>
    case AddChunk(entries, id) =>
      if id in s.tempAds {
        PutExtends(scheme, s.blocks, ChunkObject(EntryChunk(entries, s.tempAds[id].entries)));
      }
    case Publish(id) =>
      if id in s.tempAds && Finished(scheme, s.tempAds[id], s.head).Ok? {
        PutExtends(scheme, s.blocks, AdObject(Finished(scheme, s.tempAds[id], s.head).value));
      }
  }

  // ---- each call refines its effect on the catalogue ----

  lemma DraftsKept(scheme: Scheme, s: ProviderState, big: Blocks, cat: Catalogue)
    requires Represents(scheme, s, cat) && Extends(s.blocks, big)
    ensures DraftsMatch(s.(blocks := big), cat)
    ensures AdChain(scheme, big, AsLink(s.head), cat.published)
  {
    forall id | id in s.tempAds
      ensures EntryChain(big, s.tempAds[id].entries, cat.drafts[id].chunks)
    {
      EntryChainKept(s.blocks, big, s.tempAds[id].entries, cat.drafts[id].chunks);
    }
    AdChainKept(scheme, s.blocks, big, AsLink(s.head), cat.published);
  }

  lemma AddChunkGrowsDraft(scheme: Scheme, s: ProviderState, cat: Catalogue, entries: seq<Ipld>, id: nat)
    requires scheme.CollisionFree() && Represents(scheme, s, cat) && id in s.tempAds
    ensures var next := ChunkAdded(scheme, s, entries, id);
            EntryChain(next.blocks, next.tempAds[id].entries, [entries] + cat.drafts[id].chunks)
  {
    var next := ChunkAdded(scheme, s, entries, id);
    CallExtends(scheme, s, AddChunk(entries, id));
    EntryChainKept(s.blocks, next.blocks, s.tempAds[id].entries, cat.drafts[id].chunks);
    assert ([entries] + cat.drafts[id].chunks)[1..] == cat.drafts[id].chunks;
  }

  lemma AddChunkRefines(scheme: Scheme, s: ProviderState, cat: Catalogue, entries: seq<Ipld>, id: nat)
    requires scheme.CollisionFree() && Represents(scheme, s, cat)
    ensures Represents(scheme, ChunkAdded(scheme, s, entries, id), OnCatalogue(cat, AddChunk(entries, id)))
  {
    if id in s.tempAds {
      CallExtends(scheme, s, AddChunk(entries, id));
      DraftsKept(scheme, s, ChunkAdded(scheme, s, entries, id).blocks, cat);
      AddChunkGrowsDraft(scheme, s, cat, entries, id);
    }
  }

  lemma FinishedStandsFor(scheme: Scheme, s: ProviderState, cat: Catalogue, id: nat)
    requires Represents(scheme, s, cat) && id in s.tempAds
    ensures Finished(scheme, s.tempAds[id], s.head).Ok? <==> cat.drafts[id].facts.metadata.Bytes?
    ensures Finished(scheme, s.tempAds[id], s.head).Ok? ==>
              && Finished(scheme, s.tempAds[id], s.head).value.previousId == AsLink(s.head)
              && Finished(scheme, s.tempAds[id], s.head).value.entries == s.tempAds[id].entries
              && StandsFor(scheme, s.blocks, Finished(scheme, s.tempAds[id], s.head).value, cat.drafts[id])
  {
    var draft := s.tempAds[id];
    var linked := draft.(previousId := AsLink(s.head));
    if Finished(scheme, draft, s.head).Ok? {
      var ad := Finished(scheme, draft, s.head).value;
      PayloadIgnoresSignatureAndContext(scheme, linked, ad.signature, linked.contextId);
    }
  }

  lemma PublishStores(scheme: Scheme, s: ProviderState, cat: Catalogue, id: nat)
    requires scheme.CollisionFree() && Represents(scheme, s, cat)
    requires id in s.tempAds && Finished(scheme, s.tempAds[id], s.head).Ok?
    ensures var next := AfterPublish(scheme, s, id);
            AdChain(scheme, next.blocks, AsLink(next.head), [cat.drafts[id]] + cat.published)
  {
    var ad := Finished(scheme, s.tempAds[id], s.head).value;
    var next := AfterPublish(scheme, s, id);
    FinishedStandsFor(scheme, s, cat, id);
    CallExtends(scheme, s, Publish(id));
    AdChainKept(scheme, s.blocks, next.blocks, AsLink(s.head), cat.published);
    EntryChainKept(s.blocks, next.blocks, ad.entries, cat.drafts[id].chunks);
    assert ([cat.drafts[id]] + cat.published)[1..] == cat.published;
  }

  lemma PublishRefines(scheme: Scheme, s: ProviderState, cat: Catalogue, id: nat)
    requires scheme.CollisionFree() && Represents(scheme, s, cat)
    ensures Represents(scheme, AfterPublish(scheme, s, id), OnCatalogue(cat, Publish(id)))
    ensures PublishResult(scheme, s, id).Ok? <==> id in cat.drafts && cat.drafts[id].facts.metadata.Bytes?
    ensures PublishResult(scheme, s, id).Err? ==>
              PublishResult(scheme, s, id).error
              == if id in cat.drafts then Signing(InvalidMetadata) else AdNotFound
  {
    if id in s.tempAds {
      FinishedStandsFor(scheme, s, cat, id);
      var next := AfterPublish(scheme, s, id);
      CallExtends(scheme, s, Publish(id));
      DraftsKept(scheme, s, next.blocks, cat);
      if Finished(scheme, s.tempAds[id], s.head).Ok? {
        PublishStores(scheme, s, cat, id);
      }
    }
  }

  /** Every call keeps the provider a representation of the catalogue. */
  lemma CallRefines(scheme: Scheme, s: ProviderState, cat: Catalogue, call: Call)
    requires scheme.CollisionFree() && Represents(scheme, s, cat)
    ensures Represents(scheme, OnProvider(scheme, s, call), OnCatalogue(cat, call))
  {
    match call
    case Create(_, _) =>
    case AddChunk(entries, id) => AddChunkRefines(scheme, s, cat, entries, id);
    case Publish(id) => PublishRefines(scheme, s, cat, id);
  }

  // ---- whole runs ----

  function RunProvider(scheme: Scheme, s: ProviderState, calls: seq<Call>): ProviderState {
    if calls == [] then s
    else OnProvider(scheme, RunProvider(scheme, s, calls[..|calls| - 1]), calls[|calls| - 1])
  }

  function RunCatalogue(cat: Catalogue, calls: seq<Call>): Catalogue {
    if calls == [] then cat
    else OnCatalogue(RunCatalogue(cat, calls[..|calls| - 1]), calls[|calls| - 1])
  }

  const FRESH_PROVIDER := ProviderState(None, map[], map[])
  const FRESH_CATALOGUE := Catalogue(map[], [])

  /** Over every interleaving of calls, the store represents the catalogue. */
  lemma {:induction false} RunRepresents(scheme: Scheme, s: ProviderState, cat: Catalogue, calls: seq<Call>)
    requires scheme.CollisionFree() && Represents(scheme, s, cat)
    ensures Represents(scheme, RunProvider(scheme, s, calls), RunCatalogue(cat, calls))
    decreases |calls|
  {
    if calls != [] {
      var before := calls[..|calls| - 1];
      RunRepresents(scheme, s, cat, before);
      CallRefines(scheme, RunProvider(scheme, s, before), RunCatalogue(cat, before), calls[|calls| - 1]);
    }
  }

  lemma {:induction false} RunProviderConcat(scheme: Scheme, s: ProviderState, a: seq<Call>, b: seq<Call>)
    ensures RunProvider(scheme, s, a + b) == RunProvider(scheme, RunProvider(scheme, s, a), b)
    decreases |b|
  {
    if b == [] {
      assert a + b == a;
    } else {
      assert (a + b)[..|a + b| - 1] == a + b[..|b| - 1];
      RunProviderConcat(scheme, s, a, b[..|b| - 1]);
    }
  }

  lemma {:induction false} RunCatalogueConcat(cat: Catalogue, a: seq<Call>, b: seq<Call>)
    ensures RunCatalogue(cat, a + b) == RunCatalogue(RunCatalogue(cat, a), b)
    decreases |b|
  {
    if b == [] {
      assert a + b == a;
    } else {
      assert (a + b)[..|a + b| - 1] == a + b[..|b| - 1];
      RunCatalogueConcat(cat, a, b[..|b| - 1]);
    }
  }

  /** Later calls, for whatever ids, leave every chain readable exactly as it was. */
  lemma {:induction false} ChainsSurvive(
    scheme: Scheme, s: ProviderState, calls: seq<Call>, link: Option<Ipld>, chunks: seq<seq<Ipld>>, ads: seq<LogicalAd>)
    requires scheme.CollisionFree() && ContentAddressed(scheme, s.blocks)
    ensures ContentAddressed(scheme, RunProvider(scheme, s, calls).blocks)
    ensures EntryChain(s.blocks, link, chunks) ==> EntryChain(RunProvider(scheme, s, calls).blocks, link, chunks)
    ensures AdChain(scheme, s.blocks, link, ads) ==> AdChain(scheme, RunProvider(scheme, s, calls).blocks, link, ads)
    decreases |calls|
  {
    if calls != [] {
      var before := calls[..|calls| - 1];
      var mid := RunProvider(scheme, s, before);
      ChainsSurvive(scheme, s, before, link, chunks, ads);
      CallExtends(scheme, mid, calls[|calls| - 1]);
      var big := OnProvider(scheme, mid, calls[|calls| - 1]).blocks;
      if EntryChain(s.blocks, link, chunks) {
        EntryChainKept(mid.blocks, big, link, chunks);
      }
      if AdChain(scheme, s.blocks, link, ads) {
        AdChainKept(scheme, mid.blocks, big, link, ads);
      }
    }
  }

  // ---- signatures ----

  /** Every stored advertisement, on a chain or cut off, carries a signature that
      verifies against its own fields. */
  ghost predicate AllSigned(scheme: Scheme, blocks: Blocks) {
    forall c :: c in blocks && blocks[c].AdObject? ==> Verifies(scheme, blocks[c].ad)
  }

  lemma CallKeepsSigned(scheme: Scheme, s: ProviderState, call: Call)
    requires AllSigned(scheme, s.blocks)
    ensures AllSigned(scheme, OnProvider(scheme, s, call).blocks)
  {
    if call.Publish? && call.id in s.tempAds && Finished(scheme, s.tempAds[call.id], s.head).Ok? {
      var ad := Finished(scheme, s.tempAds[call.id], s.head).value;
      var linked := s.tempAds[call.id].(previousId := AsLink(s.head));
      PayloadIgnoresSignatureAndContext(scheme, linked, ad.signature, linked.contextId);
    }
  }

  lemma {:induction false} RunKeepsSigned(scheme: Scheme, s: ProviderState, calls: seq<Call>)
    requires AllSigned(scheme, s.blocks)
    ensures AllSigned(scheme, RunProvider(scheme, s, calls).blocks)
    decreases |calls|
  {
    if calls != [] {
      var before := calls[..|calls| - 1];
      RunKeepsSigned(scheme, s, before);
      CallKeepsSigned(scheme, RunProvider(scheme, s, before), calls[|calls| - 1]);
    }
  }

  // ---- the catalogue read off the history of calls ----

  /** The advertisement of the latest `create` for id that no `publish` of id followed. */
  function OpenDraft(calls: seq<Call>, id: nat): Option<Advertisement> {
    if calls == [] then None
    else
      match calls[|calls| - 1]
      case Create(ad, i) => if i == id then Some(ad) else OpenDraft(calls[..|calls| - 1], id)
      case Publish(i) => if i == id then None else OpenDraft(calls[..|calls| - 1], id)
      case AddChunk(_, _) => OpenDraft(calls[..|calls| - 1], id)
  }

  /** The chunks added under id since its latest `create`, newest first. */
  function ChunksUnder(calls: seq<Call>, id: nat): seq<seq<Ipld>> {
    if calls == [] then []
    else
      var before := calls[..|calls| - 1];
      match calls[|calls| - 1]
      case Create(_, i) => if i == id then [] else ChunksUnder(before, id)
      case AddChunk(entries, i) => if i == id then [entries] + ChunksUnder(before, id) else ChunksUnder(before, id)
      case Publish(_) => ChunksUnder(before, id)
  }

  /** The publish at the end of calls stores an advertisement. */
  predicate Publishes(before: seq<Call>, id: nat) {
    OpenDraft(before, id).Some? && OpenDraft(before, id).value.metadata.Bytes?
  }

  /** The advertisements published since the last failing publish, newest first. */
  function PublishedSinceFailure(calls: seq<Call>): seq<LogicalAd> {
    if calls == [] then []
    else
      var before := calls[..|calls| - 1];
      match calls[|calls| - 1]
      case Publish(id) =>
        if Publishes(before, id) then
          [LogicalAd(FactsOf(OpenDraft(before, id).value), ChunksUnder(before, id))] + PublishedSinceFailure(before)
        else []
      case _ => PublishedSinceFailure(before)
  }

  /** The drafts are the open ones, each with its own chunks, whatever was
      called for other ids in between. */
  lemma {:induction false} DraftsAreOpenDrafts(calls: seq<Call>, id: nat)
    ensures id in RunCatalogue(FRESH_CATALOGUE, calls).drafts <==> OpenDraft(calls, id).Some?
    ensures id in RunCatalogue(FRESH_CATALOGUE, calls).drafts ==>
              RunCatalogue(FRESH_CATALOGUE, calls).drafts[id]
              == LogicalAd(FactsOf(OpenDraft(calls, id).value), ChunksUnder(calls, id))
    decreases |calls|
  {
    if calls != [] {
      DraftsAreOpenDrafts(calls[..|calls| - 1], id);
    }
  }

  lemma {:induction false} ChainIsPublishedSinceFailure(calls: seq<Call>)
    ensures RunCatalogue(FRESH_CATALOGUE, calls).published == PublishedSinceFailure(calls)
    decreases |calls|
  {
    if calls != [] {
      var before := calls[..|calls| - 1];
      ChainIsPublishedSinceFailure(before);
      if calls[|calls| - 1].Publish? {
        DraftsAreOpenDrafts(before, calls[|calls| - 1].id);
      }
    }
  }

  /** Every advertisement ever published, newest first, whatever failed since. */
  function AllPublished(calls: seq<Call>): seq<LogicalAd> {
    if calls == [] then []
    else
      var before := calls[..|calls| - 1];
      match calls[|calls| - 1]
      case Publish(id) =>
        if Publishes(before, id) then
          [LogicalAd(FactsOf(OpenDraft(before, id).value), ChunksUnder(before, id))] + AllPublished(before)
        else AllPublished(before)
      case _ => AllPublished(before)
  }

  ghost predicate FailsAt(calls: seq<Call>, i: nat)
    requires i < |calls|
  {
    calls[i].Publish? && !Publishes(calls[..i], calls[i].id)
  }

  /** No publish fails once an advertisement has been published. */
  ghost predicate FailuresComeFirst(calls: seq<Call>) {
    forall i :: 0 <= i < |calls| && FailsAt(calls, i) ==> AllPublished(calls[..i]) == []
  }

  lemma {:induction false} ChainIsPartOfAll(calls: seq<Call>)
    ensures PublishedSinceFailure(calls) <= AllPublished(calls)
    decreases |calls|
  {
    if calls != [] {
      ChainIsPartOfAll(calls[..|calls| - 1]);
    }
  }

  lemma FailuresComeFirstInit(calls: seq<Call>)
    requires calls != []
    ensures var n := |calls| - 1;
            FailuresComeFirst(calls)
            <==> FailuresComeFirst(calls[..n]) && (FailsAt(calls, n) ==> AllPublished(calls[..n]) == [])
  {
    var n := |calls| - 1;
    var before := calls[..n];
    forall i | 0 <= i < n
      ensures before[..i] == calls[..i] && (FailsAt(before, i) <==> FailsAt(calls, i))
    {
      assert before[..i] == calls[..i] && before[i] == calls[i];
    }
    if FailuresComeFirst(before) && (FailsAt(calls, n) ==> AllPublished(before) == []) {
      forall i | 0 <= i < |calls| && FailsAt(calls, i)
        ensures AllPublished(calls[..i]) == []
      {
        assert i < n ==> FailsAt(before, i);
      }
    }
    if FailuresComeFirst(calls) {
      forall i | 0 <= i < n && FailsAt(before, i)
        ensures AllPublished(before[..i]) == []
      {
        assert FailsAt(calls, i);
      }
    }
  }

  /** The chain is everything ever published if and only if no publish failed
      after the first that succeeded. */
  lemma {:induction false} ChainIsAllIff(calls: seq<Call>)
    ensures PublishedSinceFailure(calls) == AllPublished(calls) <==> FailuresComeFirst(calls)
    decreases |calls|
  {
    if calls != [] {
      var before := calls[..|calls| - 1];
      ChainIsAllIff(before);
      ChainIsPartOfAll(before);
      FailuresComeFirstInit(calls);
      var since, all := PublishedSinceFailure(before), AllPublished(before);
      if calls[|calls| - 1].Publish? && Publishes(before, calls[|calls| - 1].id) {
        assert PublishedSinceFailure(calls)[1..] == since && AllPublished(calls)[1..] == all;
      }
    }
  }

  function PublishCount(calls: seq<Call>): nat {
    if calls == [] then 0
    else PublishCount(calls[..|calls| - 1]) + if calls[|calls| - 1].Publish? then 1 else 0
  }

  /** Without any failing publish the chain has one advertisement per publish. */
  lemma {:induction false} NoFailureKeepsAll(calls: seq<Call>)
    requires forall i :: 0 <= i < |calls| ==> !FailsAt(calls, i)
    ensures PublishedSinceFailure(calls) == AllPublished(calls)
    ensures |AllPublished(calls)| == PublishCount(calls)
    decreases |calls|
  {
    if calls != [] {
      var before := calls[..|calls| - 1];
      forall i | 0 <= i < |before|
        ensures !FailsAt(before, i)
      {
        assert !FailsAt(calls, i) && calls[i] == before[i] && calls[..i] == before[..i];
      }
      NoFailureKeepsAll(before);
      assert !FailsAt(calls, |before|);
    }
  }

  /** Following `PreviousID` from the head visits every advertisement ever
      published if and only if no publish failed after one had succeeded. */
  lemma HeadLeadsToAllIff(scheme: Scheme, calls: seq<Call>)
    requires scheme.CollisionFree()
    ensures var s := RunProvider(scheme, FRESH_PROVIDER, calls);
            AdChain(scheme, s.blocks, AsLink(s.head), AllPublished(calls)) <==> FailuresComeFirst(calls)
  {
    var s := RunProvider(scheme, FRESH_PROVIDER, calls);
    RunRepresents(scheme, FRESH_PROVIDER, FRESH_CATALOGUE, calls);
    ChainIsPublishedSinceFailure(calls);
    ChainIsAllIff(calls);
    if AdChain(scheme, s.blocks, AsLink(s.head), AllPublished(calls)) {
      AdChainUnique(scheme, s.blocks, AsLink(s.head), AllPublished(calls), PublishedSinceFailure(calls));
    }
  }

  /** A failing publish after a successful one: the chain that was there is gone. */
  lemma FailureCutsChain(scheme: Scheme, ad: Advertisement, id: nat, unknown: nat)
    requires scheme.CollisionFree() && ad.metadata.Bytes? && id != unknown
    ensures var calls := [Create(ad, id), Publish(id), Publish(unknown)];
            && RunProvider(scheme, FRESH_PROVIDER, calls[..2]).head.Some?
            && RunProvider(scheme, FRESH_PROVIDER, calls).head == None
            && AllPublished(calls) == [LogicalAd(FactsOf(ad), [])]
            && !FailuresComeFirst(calls)
  {
    var calls := [Create(ad, id), Publish(id), Publish(unknown)];
    var two := calls[..2];
    assert two[..1] == [Create(ad, id)] && two[..1][..0] == [];
    assert OpenDraft([Create(ad, id)], id) == Some(ad) && ChunksUnder([Create(ad, id)], id) == [];
    assert AllPublished([Create(ad, id)]) == [] && Publishes(two[..1], id);
    assert AllPublished(two) == [LogicalAd(FactsOf(ad), [])] + [];
    assert OpenDraft(two, unknown) == OpenDraft(two[..1], unknown) == OpenDraft([], unknown);
    assert FailsAt(calls, 2);
    ProviderRun(scheme, two, id);
    ProviderRun(scheme, calls, id);
    assert PublishedSinceFailure(two) != [];
    assert PublishedSinceFailure(calls) == [];
  }

  /** Over any run, a publish succeeds exactly for an open draft whose metadata are
      bytes. Without an open draft it is not found, and signing has no other way to
      fail than other metadata. */
  lemma PublishSucceedsIff(scheme: Scheme, calls: seq<Call>, id: nat)
    requires scheme.CollisionFree()
    ensures var r := PublishResult(scheme, RunProvider(scheme, FRESH_PROVIDER, calls), id);
            && (r.Ok? <==> Publishes(calls, id))
            && (r == Err(AdNotFound) <==> OpenDraft(calls, id).None?)
            && (r == Err(Signing(InvalidMetadata)) <==> OpenDraft(calls, id).Some? && !Publishes(calls, id))
  {
    RunRepresents(scheme, FRESH_PROVIDER, FRESH_CATALOGUE, calls);
    PublishRefines(scheme, RunProvider(scheme, FRESH_PROVIDER, calls), RunCatalogue(FRESH_CATALOGUE, calls), id);
    DraftsAreOpenDrafts(calls, id);
  }

  ghost predicate MadeByNew(ad: Advertisement) {
    exists contextId, provider, addresses, isRm :: ad == NewAdvertisement(contextId, provider, addresses, isRm)
  }

  lemma {:induction false} OpenDraftWasCreated(calls: seq<Call>, id: nat)
    requires OpenDraft(calls, id).Some?
    ensures Create(OpenDraft(calls, id).value, id) in calls
    decreases |calls|
  {
    var n := |calls| - 1;
    if calls[n] != Create(OpenDraft(calls, id).value, id) {
      OpenDraftWasCreated(calls[..n], id);
    }
  }

  /** Advertisements made by `Advertisement::new` never fail to be signed. */
  lemma NewDraftsAlwaysPublish(scheme: Scheme, calls: seq<Call>, id: nat)
    requires scheme.CollisionFree()
    requires forall ad, i :: Create(ad, i) in calls ==> MadeByNew(ad)
    ensures PublishResult(scheme, RunProvider(scheme, FRESH_PROVIDER, calls), id).Ok? <==> OpenDraft(calls, id).Some?
  {
    PublishSucceedsIff(scheme, calls, id);
    if OpenDraft(calls, id).Some? {
      OpenDraftWasCreated(calls, id);
      assert MadeByNew(OpenDraft(calls, id).value);
    }
  }

  /** The provider over any run: a draft's chain decodes to its own chunks, and
      the head's chain to what was published since the last failing publish. */
  lemma ProviderRun(scheme: Scheme, calls: seq<Call>, id: nat)
    requires scheme.CollisionFree()
    ensures var s := RunProvider(scheme, FRESH_PROVIDER, calls);
            && (id in s.tempAds <==> OpenDraft(calls, id).Some?)
            && (id in s.tempAds ==> EntryChain(s.blocks, s.tempAds[id].entries, ChunksUnder(calls, id)))
            && AdChain(scheme, s.blocks, AsLink(s.head), PublishedSinceFailure(calls))
  {
    RunRepresents(scheme, FRESH_PROVIDER, FRESH_CATALOGUE, calls);
    DraftsAreOpenDrafts(calls, id);
    ChainIsPublishedSinceFailure(calls);
  }
}
