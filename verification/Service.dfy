/** The service loop as a state machine, and the loop's arms as methods. */
module Service {
  import opened Wrappers
  import opened Content
  import opened Addresses
  import opened LinkGraph
  import St = Store
  import opened Advertisements
  import P = Provider
  import opened Chunking
  import opened Publishing
  import C = Catalogue
  import opened Discovery
  import opened Behaviour

  type Sender = nat

  datatype Outcome = Found | NotFound | NoPeers

  /** What was sent down the channel of one GetBitswap command. */
  datatype Answer = Answer(sender: Sender, cid: Cid, outcome: Outcome)

  datatype BitswapType = Get | Sync

  /** The state of the loop; the last five fields only record what happened:
      the senders of GetBitswap commands with their cid, the indexed roots, the
      connection steps, the peer events that reached the loop, and the public
      addresses that autonat found. */
  datatype State = State(
    running: bool,
    channels: map<Cid, seq<Sender>>,
    behaviour: BehaviourState,
    store: Graph,
    provider: P.ProviderState,
    rootCids: seq<Cid>,
    gauge: int,
    answers: seq<Answer>,
    asked: map<Sender, Cid>,
    indexed: seq<Cid>,
    wire: seq<WireStep>,
    seen: seq<PeerEvent>,
    reported: set<Multiaddr>)

  function Initial(store: Graph): State {
    State(true, map[], BehaviourState([], map[], {}, map[], Unknown, [], Tracker({}, [])), store,
          C.FRESH_PROVIDER, [], 0, [], map[], [], [], [], {})
  }

  /** The environment's steps, the commands, and one turn of the event arm. The
      arguments are what the environment picks: the fresh query id, whether a
      query succeeded, the order of each traversal, the random draft ids, and
      whether listening on a relay works. */
  datatype Action =
    | ConnectionOpened(peer: Peer)
    | ConnectionClosed(peer: Peer)
    | PeerEventPolled
    | NatStatusSet(status: NatStatus)
    | NatStatusReported
    | BlockArrived(cid: Cid, block: Block)
    | QueryEnded(id: QueryId, found: bool)
    | GetBitswap(cid: Cid, query: BitswapType, sender: Sender, id: QueryId)
    | Index(cids: seq<Cid>)
    | SendResponse
    | UnrelatedQueued
    | HandleEvent(walks: seq<Result<St.Walk, St.WalkError>>, ids: seq<nat>, listening: bool)

  // ---- the arms ----

  /** Nothing is inserted into the store or recorded. */
  ghost predicate SameRecords(s: State, next: State) {
    && next.store == s.store && next.asked == s.asked && next.indexed == s.indexed
    && next.wire == s.wire && next.reported == s.reported
  }

  function Replies(store: Graph, cid: Cid, chans: seq<Sender>): (answers: seq<Answer>)
    ensures |answers| == |chans|
  {
    seq(|chans|, i requires 0 <= i < |chans| => Answer(chans[i], cid, if cid in store then Found else NotFound))
  }

  function OnBitswap(s: State, info: BitswapInfo): (next: State)
    ensures SameRecords(s, next)
  {
    var s1 := s.(behaviour := QueryCancelled(s.behaviour, info.queryId));
    if info.cid in s.channels then
      s1.(channels := s.channels - {info.cid}, answers := s.answers + Replies(s.store, info.cid, s.channels[info.cid]))
    else s1
  }

  /** A node that turns out to be private listens on a relay, and panics if that fails. */
  function OnNatStatus(node: Node, s: State, report: NatReport, listening: bool): (next: State)
    ensures SameRecords(s, next)
  {
    if report == NatReport(Unknown, Private) then s.(running := s.running && (node.usesRelays ==> listening))
    else if report.after.Public? then s.(behaviour := Queued(s.behaviour, StartPublish(report.after.address))) else s
  }

  function OnPeer(s: State, e: PeerEvent): (next: State)
    ensures SameRecords(s, next)
  {
    s.(gauge := s.gauge + if e.Connected? then 1 else -1, seen := s.seen + [e])
  }

  ghost function OnStartPublish(
    node: Node, s: State, address: Multiaddr, walks: seq<Result<St.Walk, St.WalkError>>, ids: seq<nat>)
    : (next: State)
    requires |walks| == |ids|
    ensures SameRecords(s, next)
  {
    var d := Drain(node, Advertised(address), s.provider, s.rootCids, walks, ids);
    s.(provider := d.provider, rootCids := d.roots, running := d.ok)
  }

  ghost function OnEvent(
    node: Node, s: State, event: BehaviourEvent, walks: seq<Result<St.Walk, St.WalkError>>, ids: seq<nat>,
    listening: bool)
    : (next: State)
    requires |walks| == |ids|
    ensures SameRecords(s, next)
  {
    match event
    case NatStatusChanged(report) => OnNatStatus(node, s, report, listening)
    case PeerConnected(p) => OnPeer(s, Connected(p))
    case PeerDisconnected(p) => OnPeer(s, Disconnected(p))
    case Bitswap(info) => OnBitswap(s, info)
    case StartPublish(address) => OnStartPublish(node, s, address, walks, ids)
    case Unrelated => s
  }

  function Popped(s: State): (next: State)
    requires s.behaviour.events != []
    ensures SameRecords(s, next)
  {
    s.(behaviour := s.behaviour.(events := s.behaviour.events[1..]))
  }

  function WantFor(query: BitswapType, cid: Cid): Want {
    match query
    case Get => BlockWanted(cid)
    case Sync => DagWanted(cid, [cid])
  }

  function OnGetBitswap(s: State, cid: Cid, query: BitswapType, sender: Sender, id: QueryId): State {
    var s1 := s.(asked := s.asked[sender := cid]);
    if s.behaviour.tracker.peers == {} then s1.(answers := s.answers + [Answer(sender, cid, NoPeers)])
    else
      s1.(channels := s.channels[cid := (if cid in s.channels then s.channels[cid] else []) + [sender]],
          behaviour := QueryStarted(s.behaviour, WantFor(query, cid), id))
  }

  /** An empty list makes the loop panic on its first element. */
  function OnIndex(s: State, cids: seq<Cid>): State {
    if cids == [] then s.(running := false)
    else
      var s1 := s.(rootCids := s.rootCids + [cids[0]], indexed := s.indexed + [cids[0]]);
      if s.behaviour.natStatus.Public? then
        s1.(behaviour := Queued(s.behaviour, StartPublish(s.behaviour.natStatus.address)))
      else s1
  }

  function OnNatStatusSet(s: State, status: NatStatus): State {
    s.(behaviour := NatChanged(s.behaviour, status),
       reported := s.reported + if status.Public? then {status.address} else {})
  }

  // ---- steps ----

  /** A found block's event is handled once the block is in the store, for which
      the loop waits if anybody asked for it. */
  ghost predicate Handleable(s: State, walks: seq<Result<St.Walk, St.WalkError>>, ids: seq<nat>) {
    && s.behaviour.events != [] && |walks| == |ids|
    && match s.behaviour.events[0]
       case Bitswap(info) => info.blockFound && info.cid in s.channels ==> info.cid in s.store
       case StartPublish(_) => Traversed(s.store, s.rootCids, walks)
       case _ => true
  }

  ghost predicate Enabled(s: State, a: Action) {
    && s.running
    && match a
       case ConnectionOpened(_) => true
       case ConnectionClosed(p) => OpenTo(s.wire, p) > 0
       case PeerEventPolled => s.behaviour.tracker.events != []
       case NatStatusSet(_) => true
       case NatStatusReported => s.behaviour.natReports != []
       case BlockArrived(cid, block) => cid in s.store ==> s.store[cid] == block
       case QueryEnded(id, _) => id in s.behaviour.active
       case GetBitswap(_, _, sender, id) => sender !in s.asked && id !in s.behaviour.issued
       case Index(_) => true
       case SendResponse => true
       case UnrelatedQueued => true
       case HandleEvent(walks, ids, _) => Handleable(s, walks, ids)
  }

  ghost function Step(node: Node, s: State, a: Action): State
    requires Enabled(s, a)
  {
    match a
    case ConnectionOpened(p) =>
      s.(behaviour := s.behaviour.(tracker := Established(s.behaviour.tracker, p)), wire := s.wire + [Up(p)])
    case ConnectionClosed(p) =>
      s.(behaviour := s.behaviour.(tracker := Closed(s.behaviour.tracker, p)), wire := s.wire + [Down(p)])
    case PeerEventPolled => s.(behaviour := PeerEventMoved(s.behaviour))
    case NatStatusSet(status) => OnNatStatusSet(s, status)
    case NatStatusReported => s.(behaviour := NatReported(s.behaviour))
    case BlockArrived(cid, block) => s.(store := s.store[cid := block])
    case QueryEnded(id, found) => s.(behaviour := QueryCompleted(s.behaviour, id, found))
    case GetBitswap(cid, query, sender, id) => OnGetBitswap(s, cid, query, sender, id)
    case Index(cids) => OnIndex(s, cids)
    case SendResponse => s.(running := false)
    case UnrelatedQueued => s.(behaviour := Queued(s.behaviour, Unrelated))
    case HandleEvent(walks, ids, listening) =>
      OnEvent(node, Popped(s), s.behaviour.events[0], walks, ids, listening)
  }

  /** The states of a run, one more than the actions. */
  ghost predicate IsRun(node: Node, states: seq<State>, actions: seq<Action>) {
    && |states| == |actions| + 1
    && (exists store :: states[0] == Initial(store))
    && forall i :: 0 <= i < |actions| ==>
         Enabled(states[i], actions[i]) && states[i + 1] == Step(node, states[i], actions[i])
  }

  /** What a turn does to the behaviour. */
  lemma TurnBehaviour(node: Node, s: State, a: Action, next: State)
    requires a.HandleEvent? && Enabled(s, a) && next == Step(node, s, a)
    ensures var rest, e := Popped(s).behaviour, s.behaviour.events[0];
            next.behaviour ==
            if e.Bitswap? then QueryCancelled(rest, e.info.queryId)
            else if e.NatStatusChanged? && e.report.after.Public?
            then Queued(rest, StartPublish(e.report.after.address))
            else rest
  {
  }

  /** Turns of the event arm insert no block and change no record. */
  lemma TurnsRecordNothing(node: Node, s: State, a: Action, next: State)
    requires a.HandleEvent? && Enabled(s, a) && next == Step(node, s, a)
    ensures SameRecords(s, next)
  {
    assert SameRecords(s, Popped(s)) && SameRecords(Popped(s), next);
  }

  // ---- the loop ----

  class UrsaService {
    const node: Node
    const store: St.Store
    const behaviour: Behaviour
    const provider: P.Provider
    var responseChannels: map<Cid, seq<Sender>>
    var running: bool
    var gauge: int
    var answers: seq<Answer>
    var seen: seq<PeerEvent>
    ghost var asked: map<Sender, Cid>
    ghost var indexed: seq<Cid>
    ghost var wire: seq<WireStep>
    ghost var reported: set<Multiaddr>

    constructor (node: Node, store: St.Store, behaviour: Behaviour, provider: P.Provider)
      requires provider.scheme == node.scheme && provider.rootCids == [] && provider.View() == C.FRESH_PROVIDER
      requires behaviour.View() == Initial(map[]).behaviour
      ensures this.node == node && this.store == store && this.behaviour == behaviour && this.provider == provider
      ensures Wired() && View() == Initial(store.db)
    {
      this.node, this.store, this.behaviour, this.provider := node, store, behaviour, provider;
      responseChannels, running, gauge, answers, seen := map[], true, 0, [], [];
      asked, indexed, wire, reported := map[], [], [], {};
    }

    ghost predicate Wired() {
      provider.scheme == node.scheme
    }

    ghost function View(): State
      reads this, store, behaviour, behaviour.discovery, provider
    {
      State(running, responseChannels, behaviour.View(), store.db, provider.View(), provider.rootCids, gauge,
            answers, asked, indexed, wire, seen, reported)
    }

    /** The answer to each waiter is decided by a look into the store of its own. */
    method HandleBitswap(info: BitswapInfo)
      requires info.blockFound && info.cid in responseChannels ==> info.cid in store.db
      modifies this`responseChannels, this`answers, behaviour
      ensures View() == OnBitswap(old(View()), info)
    {
      behaviour.Cancel(info.queryId);
      if info.cid in responseChannels {
        var chans := responseChannels[info.cid];
        responseChannels := responseChannels - {info.cid};
        for i := 0 to |chans|
          invariant answers == old(answers) + Replies(store.db, info.cid, chans)[..i]
          invariant responseChannels == old(responseChannels) - {info.cid}
          invariant behaviour.View() == QueryCancelled(old(behaviour.View()), info.queryId)
        {
          var stored := store.Contains(info.cid);
          if stored {
            answers := answers + [Answer(chans[i], info.cid, Found)];
          } else {
            answers := answers + [Answer(chans[i], info.cid, NotFound)];
          }
        }
        assert Replies(store.db, info.cid, chans)[..|chans|] == Replies(store.db, info.cid, chans);
      }
    }

    /** listening is whether the transport could listen on the relay. */
    method HandleNatStatus(report: NatReport) returns (listening: bool)
      modifies this`running, behaviour`events
      ensures View() == OnNatStatus(node, old(View()), report, listening)
    {
      listening := *;
      match report
      case NatReport(Unknown, Private) =>
        if node.usesRelays && !listening {
          running := false;
        }
      case NatReport(_, Public(address)) => behaviour.PublishAd(address);
      case _ =>
    }

    method HandlePeer(e: PeerEvent)
      modifies this`gauge, this`seen
      ensures View() == OnPeer(old(View()), e)
    {
      match e {
        case Connected(_) => gauge := gauge + 1;
        case Disconnected(_) => gauge := gauge - 1;
      }
      seen := seen + [e];
    }

    /** The entries of one root: the hash list in chunks, added to the draft in turn. */
    method AddChunks(walk: St.Walk, id: nat)
      requires Wired() && id in provider.tempAds && CanSign(provider.tempAds[id])
      modifies provider`tempAds, provider`blockstore
      ensures provider.View()
              == C.RunProvider(node.scheme, old(provider.View()), AddCalls(Chunks(Hashes(walk), MAX_ENTRIES), id))
      ensures id in provider.tempAds && CanSign(provider.tempAds[id])
    {
      var chunks := Chunks(Hashes(walk), MAX_ENTRIES);
      ghost var calls := AddCalls(chunks, id);
      for i := 0 to |chunks|
        invariant provider.View() == C.RunProvider(node.scheme, old(provider.View()), calls[..i])
        invariant id in provider.tempAds && CanSign(provider.tempAds[id])
      {
        var added := provider.AddChunk(chunks[i], id);
        assert added.Ok?;
        assert calls[..i + 1][..i] == calls[..i];
      }
      assert calls[..|chunks|] == calls;
    }

    /** One root, with its traversal at hand. Neither adding a chunk nor
        publishing can fail here. */
    method PublishRoot(root: Cid, address: Multiaddr, walk: St.Walk, id: nat, ghost before: P.ProviderState)
      requires Wired()
      requires provider.View() == C.OnProvider(node.scheme, before, C.Create(AdFor(node, address, root), id))
      modifies provider`head, provider`tempAds, provider`blockstore
      ensures provider.View() == C.RunProvider(node.scheme, before, RootCalls(node, address, root, walk, id))
      ensures provider.head.Some?
    {
      ghost var create := [C.Create(AdFor(node, address, root), id)];
      ghost var adds := AddCalls(Chunks(Hashes(walk), MAX_ENTRIES), id);
      assert create[..0] == [];
      assert C.RunProvider(node.scheme, before, create) == provider.View();
      AddChunks(walk, id);
      C.RunProviderConcat(node.scheme, before, create, adds);
      ghost var all := create + adds + [C.Publish(id)];
      assert all[..|all| - 1] == create + adds;
      var published := provider.Publish(id);
      assert published.Ok?;
    }

    /** One turn of the draining loop. */
    method PublishNext(address: Multiaddr) returns (dag: Result<St.Walk, St.WalkError>, id: nat)
      requires Wired() && provider.rootCids != []
      modifies provider
      ensures St.IsTraversal(store.db, old(provider.rootCids)[0], dag)
      ensures provider.rootCids == old(provider.rootCids)[1..]
      ensures var root, before := old(provider.rootCids)[0], old(provider.View());
              provider.View() ==
              if dag.Ok? then C.RunProvider(node.scheme, before, RootCalls(node, address, root, dag.value, id))
              else P.Created(before, AdFor(node, address, root), id)
    {
      var rootCid := provider.rootCids[0];
      provider.rootCids := provider.rootCids[1..];
      ghost var before := provider.View();
      id := *;
      provider.Create(NewAdvertisement(rootCid.ToBytes(), node.peerId, [node.show(address)], false), id);
      dag := store.DagTraversal(rootCid);
      if dag.Ok? {
        PublishRoot(rootCid, address, dag.value, id, before);
      }
    }

    /** Drains the queue of roots; a traversal that fails ends the service loop.
        walks and ids are the traversals made and the draft ids drawn. */
    method HandleStartPublish(publicAddress: Multiaddr)
      returns (ghost walks: seq<Result<St.Walk, St.WalkError>>, ghost ids: seq<nat>)
      requires Wired() && running
      modifies this`running, provider
      ensures |walks| == |ids| && Traversed(store.db, old(provider.rootCids), walks)
      ensures View() == OnStartPublish(node, old(View()), publicAddress, walks, ids)
    {
      var address := FilterAddress(publicAddress);
      walks, ids := [], [];
      ghost var roots := provider.rootCids;
      ghost var start := provider.View();
      while provider.rootCids != []
        invariant Draining(node, address, store.db, start, roots, walks, ids, provider.View())
        invariant provider.rootCids == roots[|walks|..]
        invariant running
        decreases |provider.rootCids|
      {
        ghost var before := provider.View();
        var dag, id := PublishNext(address);
        if dag.Err? {
          DrainingFails(node, address, store.db, start, roots, walks, ids, before, dag.error, id);
          walks, ids := walks + [dag], ids + [id];
          running := false;
          return;
        }
        DrainingPublishes(node, address, store.db, start, roots, walks, ids, before, dag.value, id);
        walks, ids := walks + [dag], ids + [id];
      }
      DrainingDone(node, address, store.db, start, roots, walks, ids, provider.View());
    }

    method FilterAddress(publicAddress: Multiaddr) returns (address: Multiaddr)
      ensures address == Advertised(publicAddress)
      ensures HostParts(publicAddress, address)
    {
      address := [];
      for i := 0 to |publicAddress|
        invariant address == Advertised(publicAddress[..i])
      {
        match publicAddress[i] {
          case Ip6(ip) => address := address + [Ip6(ip)];
          case Ip4(ip) => address := address + [Ip4(ip)];
          case Tcp(port) => address := address + [Tcp(port)];
          case OtherProtocol(_) =>
        }
        assert publicAddress[..i + 1][..i] == publicAddress[..i];
      }
      assert publicAddress[..|publicAddress|] == publicAddress;
      AdvertisedIsHostParts(publicAddress, address);
    }

    /** One turn of the event arm: poll the behaviour, handle what it yields. */
    method TurnOnEvent() returns (ghost walks: seq<Result<St.Walk, St.WalkError>>, ghost ids: seq<nat>, listening: bool)
      requires Wired() && running && behaviour.events != []
      requires behaviour.events[0].Bitswap? ==>
                 var info := behaviour.events[0].info;
                 info.blockFound && info.cid in responseChannels ==> info.cid in store.db
      modifies this, behaviour, provider
      ensures Enabled(old(View()), HandleEvent(walks, ids, listening))
      ensures View() == Step(node, old(View()), HandleEvent(walks, ids, listening))
    {
      walks, ids, listening := [], [], true;
      var event := behaviour.Poll();
      match event.value
      case Bitswap(info) => HandleBitswap(info);
      case PeerConnected(p) => HandlePeer(Connected(p));
      case PeerDisconnected(p) => HandlePeer(Disconnected(p));
      case NatStatusChanged(report) => listening := HandleNatStatus(report);
      case StartPublish(publicAddress) => walks, ids := HandleStartPublish(publicAddress);
      case Unrelated =>
    }

    method CommandGetBitswap(cid: Cid, query: BitswapType, sender: Sender, id: QueryId)
      requires Enabled(View(), GetBitswap(cid, query, sender, id))
      modifies this, behaviour
      ensures View() == Step(node, old(View()), GetBitswap(cid, query, sender, id))
    {
      asked := asked[sender := cid];
      var peers := behaviour.Peers();
      if peers == {} {
        answers := answers + [Answer(sender, cid, NoPeers)];
      } else {
        if cid in responseChannels {
          responseChannels := responseChannels[cid := responseChannels[cid] + [sender]];
        } else {
          responseChannels := responseChannels[cid := [sender]];
          assert [] + [sender] == [sender];
        }
        match query
        case Get => behaviour.GetBlock(cid, id);
        case Sync => behaviour.SyncBlock(cid, id);
      }
    }

    method CommandIndex(cids: seq<Cid>)
      requires Enabled(View(), Index(cids))
      modifies this, behaviour, provider
      ensures View() == Step(node, old(View()), Index(cids))
    {
      if cids == [] {
        running := false;
        return;
      }
      provider.rootCids := provider.rootCids + [cids[0]];
      indexed := indexed + [cids[0]];
      var publicAddress := behaviour.PublicAddress();
      if publicAddress.Some? {
        behaviour.PublishAd(publicAddress.value);
      }
    }

    /** The arm that is still a `todo!()`. */
    method CommandSendResponse()
      requires Enabled(View(), SendResponse)
      modifies this`running
      ensures View() == Step(node, old(View()), SendResponse)
    {
      running := false;
    }

    // ---- what else happens between two turns of the loop ----

    method OpenConnection(p: Peer)
      requires Enabled(View(), ConnectionOpened(p))
      modifies this`wire, behaviour.discovery
      ensures View() == Step(node, old(View()), ConnectionOpened(p))
    {
      wire := wire + [Up(p)];
      behaviour.discovery.InjectConnectionEstablished(p);
    }

    method CloseConnection(p: Peer)
      requires Enabled(View(), ConnectionClosed(p))
      modifies this`wire, behaviour.discovery
      ensures View() == Step(node, old(View()), ConnectionClosed(p))
    {
      wire := wire + [Down(p)];
      behaviour.discovery.InjectConnectionClosed(p);
    }

    method PollPeerEvent()
      requires Enabled(View(), PeerEventPolled)
      modifies behaviour, behaviour.discovery
      ensures View() == Step(node, old(View()), PeerEventPolled)
    {
      behaviour.MovePeerEvent();
    }

    method ChangeNatStatus(status: NatStatus)
      requires Enabled(View(), NatStatusSet(status))
      modifies this`reported, behaviour
      ensures View() == Step(node, old(View()), NatStatusSet(status))
    {
      reported := reported + if status.Public? then {status.address} else {};
      behaviour.SetNatStatus(status);
    }

    method PollNatStatus()
      requires Enabled(View(), NatStatusReported)
      modifies behaviour
      ensures View() == Step(node, old(View()), NatStatusReported)
    {
      behaviour.ReportNat();
    }

    method PollQueryEnd(id: QueryId, found: bool)
      requires Enabled(View(), QueryEnded(id, found))
      modifies behaviour
      ensures View() == Step(node, old(View()), QueryEnded(id, found))
    {
      behaviour.CompleteQuery(id, found);
    }

    method PollUnrelated()
      requires Enabled(View(), UnrelatedQueued)
      modifies behaviour
      ensures View() == Step(node, old(View()), UnrelatedQueued)
    {
      behaviour.QueueUnrelated();
    }

    method ReceiveBlock(cid: Cid, block: Block)
      requires Enabled(View(), BlockArrived(cid, block))
      modifies store
      ensures View() == Step(node, old(View()), BlockArrived(cid, block))
    {
      store.Insert(cid, block);
    }
  }

  predicate CanSign(draft: Advertisement) {
    LinkOrNone(draft.entries) && draft.metadata.Bytes?
  }
}
