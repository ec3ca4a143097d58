/** The network behaviour: the FIFO of events for the service loop, the table of
    running block queries, and the library state behind them. */
module Behaviour {
  import opened Wrappers
  import opened Content
  import opened Discovery
  import opened Addresses

  type QueryId = nat

  /** What a query of the block exchange is after: one block, or a DAG of which
      these blocks are known to be missing. */
  datatype Want = BlockWanted(cid: Cid) | DagWanted(cid: Cid, missing: seq<Cid>)

  datatype BitswapInfo = BitswapInfo(cid: Cid, queryId: QueryId, blockFound: bool)

  datatype NatStatus = Unknown | Private | Public(address: Multiaddr)

  datatype NatReport = NatReport(before: NatStatus, after: NatStatus)

  /** The kinds of event that no modelled state depends on are all `Unrelated`. */
  datatype BehaviourEvent =
    | NatStatusChanged(report: NatReport)
    | PeerConnected(peer: Peer)
    | PeerDisconnected(peer: Peer)
    | Bitswap(info: BitswapInfo)
    | StartPublish(publicAddress: Multiaddr)
    | Unrelated

  /** events and queries are the behaviour's own; issued are the query ids that the
      block exchange has handed out, and active its unfinished queries; natStatus
      and natReports are autonat's status and its undelivered reports. */
  datatype BehaviourState = BehaviourState(
    events: seq<BehaviourEvent>,
    queries: map<QueryId, BitswapInfo>,
    issued: set<QueryId>,
    active: map<QueryId, Want>,
    natStatus: NatStatus,
    natReports: seq<NatReport>,
    tracker: Tracker)

  // ---- the effect of each step ----

  function Queued(b: BehaviourState, event: BehaviourEvent): BehaviourState {
    b.(events := b.events + [event])
  }

  function QueryStarted(b: BehaviourState, want: Want, id: QueryId): BehaviourState {
    b.(queries := b.queries[id := BitswapInfo(want.cid, id, false)], issued := b.issued + {id},
       active := b.active[id := want])
  }

  function QueryCancelled(b: BehaviourState, id: QueryId): BehaviourState {
    b.(queries := b.queries - {id}, active := b.active - {id})
  }

  /** An id that is not in the table is reported and otherwise ignored. */
  function QueryCompleted(b: BehaviourState, id: QueryId, found: bool): BehaviourState {
    var finished := b.(active := b.active - {id}, queries := b.queries - {id});
    if id !in b.queries then finished
    else Queued(finished, Bitswap(b.queries[id].(blockFound := found || b.queries[id].blockFound)))
  }

  function NatChanged(b: BehaviourState, after: NatStatus): BehaviourState {
    b.(natStatus := after, natReports := b.natReports + [NatReport(b.natStatus, after)])
  }

  function NatReported(b: BehaviourState): BehaviourState
    requires b.natReports != []
  {
    Queued(b.(natReports := b.natReports[1..]), NatStatusChanged(b.natReports[0]))
  }

  function AsBehaviourEvent(e: PeerEvent): BehaviourEvent {
    match e
    case Connected(p) => PeerConnected(p)
    case Disconnected(p) => PeerDisconnected(p)
  }

  function PeerEventMoved(b: BehaviourState): BehaviourState
    requires b.tracker.events != []
  {
    Queued(b.(tracker := b.tracker.(events := b.tracker.events[1..])), AsBehaviourEvent(b.tracker.events[0]))
  }

  class Behaviour {
    const discovery: DiscoveryBehaviour
    var events: seq<BehaviourEvent>
    var queries: map<QueryId, BitswapInfo>
    var issued: set<QueryId>
    var active: map<QueryId, Want>
    var natStatus: NatStatus
    var natReports: seq<NatReport>

    constructor (discovery: DiscoveryBehaviour)
      ensures this.discovery == discovery
      ensures View() == BehaviourState([], map[], {}, map[], Unknown, [], discovery.View())
    {
      this.discovery := discovery;
      events, queries, issued, active, natStatus, natReports := [], map[], {}, map[], Unknown, [];
    }

    ghost function View(): BehaviourState
      reads this, discovery
    {
      BehaviourState(events, queries, issued, active, natStatus, natReports, discovery.View())
    }

    method Peers() returns (peers: set<Peer>)
      ensures peers == View().tracker.peers
    {
      peers := discovery.peers;
    }

    method PublicAddress() returns (address: Option<Multiaddr>)
      ensures address == if natStatus.Public? then Some(natStatus.address) else None
    {
      address := if natStatus.Public? then Some(natStatus.address) else None;
    }

    method PublishAd(publicAddress: Multiaddr)
      modifies this`events
      ensures View() == Queued(old(View()), StartPublish(publicAddress))
    {
      events := events + [StartPublish(publicAddress)];
    }

    /** id is the fresh query id that the block exchange hands out. */
    method GetBlock(cid: Cid, id: QueryId)
      requires id !in issued
      modifies this
      ensures View() == QueryStarted(old(View()), BlockWanted(cid), id)
    {
      issued, active := issued + {id}, active[id := BlockWanted(cid)];
      queries := queries[id := BitswapInfo(cid, id, false)];
    }

    /** A sync query starts from the root itself as the only block known to be missing. */
    method SyncBlock(cid: Cid, id: QueryId)
      requires id !in issued
      modifies this
      ensures View() == QueryStarted(old(View()), DagWanted(cid, [cid]), id)
    {
      issued, active := issued + {id}, active[id := DagWanted(cid, [cid])];
      queries := queries[id := BitswapInfo(cid, id, false)];
    }

    method Cancel(id: QueryId)
      modifies this
      ensures View() == QueryCancelled(old(View()), id)
    {
      queries := queries - {id};
      active := active - {id};
    }

    method Poll() returns (event: Option<BehaviourEvent>)
      modifies this
      ensures event == if old(events) == [] then None else Some(old(events)[0])
      ensures View() == old(View()).(events := if old(events) == [] then [] else old(events)[1..])
    {
      event := None;
      if events != [] {
        event := Some(events[0]);
        events := events[1..];
      }
    }

    method HandleAutonat(report: NatReport)
      modifies this`events
      ensures View() == Queued(old(View()), NatStatusChanged(report))
    {
      events := events + [NatStatusChanged(report)];
    }

    method HandleBitswap(id: QueryId, found: bool)
      modifies this`events, this`queries
      ensures View() == QueryCompleted(old(View()), id, found).(active := old(active))
    {
      if id in queries {
        var info := queries[id];
        queries := queries - {id};
        if found {
          info := info.(blockFound := true);
        }
        events := events + [Bitswap(info)];
      } else {
        assert queries - {id} == queries;
      }
    }

    method HandleDiscovery(event: PeerEvent)
      modifies this`events
      ensures View() == Queued(old(View()), AsBehaviourEvent(event))
    {
      match event
      case Connected(p) => events := events + [PeerConnected(p)];
      case Disconnected(p) => events := events + [PeerDisconnected(p)];
    }

    // ---- what the swarm makes of the components' own progress ----

    method SetNatStatus(status: NatStatus)
      modifies this
      ensures View() == NatChanged(old(View()), status)
    {
      natReports := natReports + [NatReport(natStatus, status)];
      natStatus := status;
    }

    /** Gossip, requests, relay reservations and circuits. */
    method QueueUnrelated()
      modifies this`events
      ensures View() == Queued(old(View()), Unrelated)
    {
      events := events + [Unrelated];
    }

    method ReportNat()
      requires natReports != []
      modifies this
      ensures View() == NatReported(old(View()))
    {
      var report := natReports[0];
      natReports := natReports[1..];
      HandleAutonat(report);
    }

    method CompleteQuery(id: QueryId, found: bool)
      modifies this
      ensures View() == QueryCompleted(old(View()), id, found)
    {
      active := active - {id};
      HandleBitswap(id, found);
    }

    method MovePeerEvent()
      requires discovery.events != []
      modifies this, discovery
      ensures View() == PeerEventMoved(old(View()))
    {
      var event := discovery.Poll();
      HandleDiscovery(event.value);
    }
  }
}
