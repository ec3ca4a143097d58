/** The index provider: drafts, the advertisement chain and the entry chains, all
    in one append-only block store. */
module Provider {
  import opened Wrappers
  import opened Content
  import opened Advertisements

  datatype ProviderError = AdNotFound | Signing(error: AdSigError)

  type Blocks = map<Cid, Object>

  datatype ProviderState = ProviderState(head: Option<Cid>, tempAds: map<nat, Advertisement>, blocks: Blocks)

  // ---- the effect of each call ----

  function Created(s: ProviderState, ad: Advertisement, id: nat): ProviderState {
    s.(tempAds := s.tempAds[id := ad.(entries := None)])
  }

  function ChunkAdded(scheme: Scheme, s: ProviderState, entries: seq<Ipld>, id: nat): ProviderState {
    if id !in s.tempAds then s
    else
      var chunk := ChunkObject(EntryChunk(entries, s.tempAds[id].entries));
      var cid := scheme.cidOf(chunk);
      s.(blocks := s.blocks[cid := chunk],
         tempAds := s.tempAds[id := s.tempAds[id].(entries := Some(Link(cid)))])
  }

  /** The advertisement that publishing a draft stores, if it can be signed. */
  function Finished(scheme: Scheme, draft: Advertisement, head: Option<Cid>): Result<Advertisement, AdSigError> {
    var linked := draft.(previousId := if head.Some? then Some(Link(head.value)) else None);
    match Sign(scheme, linked)
    case Ok(sig) => Ok(linked.(signature := Bytes(sig)))
    case Err(e) => Err(e)
  }

  /** The head is taken before the draft is looked up, and the draft is removed
      before it is signed. */
  function AfterPublish(scheme: Scheme, s: ProviderState, id: nat): ProviderState {
    if id !in s.tempAds then s.(head := None)
    else
      match Finished(scheme, s.tempAds[id], s.head)
      case Err(_) => s.(head := None, tempAds := s.tempAds - {id})
      case Ok(ad) =>
        var cid := scheme.cidOf(AdObject(ad));
        ProviderState(Some(cid), s.tempAds - {id}, s.blocks[cid := AdObject(ad)])
  }

  function PublishResult(scheme: Scheme, s: ProviderState, id: nat): Result<(), ProviderError> {
    if id !in s.tempAds then Err(AdNotFound)
    else
      match Finished(scheme, s.tempAds[id], s.head)
      case Err(e) => Err(Signing(e))
      case Ok(_) => Ok(())
  }

  class Provider {
    const scheme: Scheme
    var head: Option<Cid>
    var rootCids: seq<Cid>
    var tempAds: map<nat, Advertisement>
    var blockstore: Blocks

    constructor (scheme: Scheme)
      ensures this.scheme == scheme && rootCids == []
      ensures View() == ProviderState(None, map[], map[])
    {
      this.scheme := scheme;
      head, rootCids, tempAds, blockstore := None, [], map[], map[];
    }

    ghost function View(): ProviderState
      reads this
    {
      ProviderState(head, tempAds, blockstore)
    }

    /** id is the random number drawn; a repeated one replaces the draft. */
    method Create(ad: Advertisement, id: nat)
      modifies this`tempAds
      ensures View() == Created(old(View()), ad, id)
    {
      var cleared := ad.(entries := None);
      tempAds := tempAds[id := cleared];
    }

    method AddChunk(entries: seq<Ipld>, id: nat) returns (r: Result<(), ProviderError>)
      modifies this`tempAds, this`blockstore
      ensures View() == ChunkAdded(scheme, old(View()), entries, id)
      ensures r == if id in old(tempAds) then Ok(()) else Err(AdNotFound)
    {
      if id in tempAds {
        var ad := tempAds[id];
        var entryHeadClone := ad.entries;
        var chunk := ChunkObject(EntryChunk(entries, entryHeadClone));
        var cid := scheme.cidOf(chunk);
        blockstore := blockstore[cid := chunk];
        ad := ad.(entries := Some(Link(cid)));
        tempAds := tempAds[id := ad];
        return Ok(());
      }
      r := Err(AdNotFound);
    }

    method Publish(id: nat) returns (r: Result<(), ProviderError>)
      modifies this`head, this`tempAds, this`blockstore
      ensures View() == AfterPublish(scheme, old(View()), id)
      ensures r == PublishResult(scheme, old(View()), id)
    {
      var currentHead := head;
      head := None;
      if id in tempAds {
        var ad := tempAds[id];
        tempAds := tempAds - {id};
        ad := ad.(previousId := if currentHead.Some? then Some(Link(currentHead.value)) else None);
        var payload, _, _ := ComputeSigPayload(scheme, ad);
        if payload.Err? {
          return Err(Signing(payload.error));
        }
        var sig := scheme.seal(AD_SIGNATURE_DOMAIN, AD_SIGNATURE_CODEC, payload.value);
        ad := ad.(signature := Bytes(sig));
        var cid := scheme.cidOf(AdObject(ad));
        blockstore := blockstore[cid := AdObject(ad)];
        head := Some(cid);
        return Ok(());
      }
      r := Err(AdNotFound);
    }
  }
}
