/** The set of connected peers, and the log of events kept beside it. */
module Discovery {
  import opened Wrappers

  type Peer = nat

  datatype PeerEvent = Connected(peer: Peer) | Disconnected(peer: Peer)

  datatype Tracker = Tracker(peers: set<Peer>, events: seq<PeerEvent>)

  // ---- the effect of each callback ----

  function Established(t: Tracker, p: Peer): Tracker {
    if p in t.peers then t else Tracker(t.peers + {p}, t.events + [Connected(p)])
  }

  /** The number of connections that remain is not looked at. */
  function Closed(t: Tracker, p: Peer): Tracker {
    if p in t.peers then Tracker(t.peers - {p}, t.events + [Disconnected(p)]) else t
  }

  class DiscoveryBehaviour {
    var peers: set<Peer>
    var events: seq<PeerEvent>

    constructor ()
      ensures View() == Tracker({}, [])
    {
      peers, events := {}, [];
    }

    ghost function View(): Tracker
      reads this
    {
      Tracker(peers, events)
    }

    method InjectConnectionEstablished(p: Peer)
      modifies this
      ensures View() == Established(old(View()), p)
    {
      var inserted := p !in peers;
      peers := peers + {p};
      if inserted {
        events := events + [Connected(p)];
      }
    }

    method InjectConnectionClosed(p: Peer)
      modifies this
      ensures View() == Closed(old(View()), p)
    {
      var removed := p in peers;
      peers := peers - {p};
      if removed {
        events := events + [Disconnected(p)];
      }
    }

    /** The part of `poll` that comes before Kademlia and mDNS. */
    method Poll() returns (event: Option<PeerEvent>)
      modifies this
      ensures event == if old(events) == [] then None else Some(old(events)[0])
      ensures View() == Tracker(old(peers), if old(events) == [] then [] else old(events)[1..])
    {
      event := None;
      if events != [] {
        event := Some(events[0]);
        events := events[1..];
      }
    }
  }

  // ---- event logs ----

  /** The events of one peer, in order. */
  function ForPeer(log: seq<PeerEvent>, p: Peer): seq<PeerEvent> {
    if log == [] then []
    else
      var e := log[|log| - 1];
      ForPeer(log[..|log| - 1], p) + if e.peer == p then [e] else []
  }

  /** Connected, Disconnected, Connected, and so on. */
  ghost predicate AlternatesFor(log: seq<PeerEvent>, p: Peer) {
    forall k :: 0 <= k < |ForPeer(log, p)| ==> (ForPeer(log, p)[k].Connected? <==> k % 2 == 0)
  }

  /** Every peer's events alternate, starting with Connected. */
  ghost predicate Alternates(log: seq<PeerEvent>) {
    forall p :: AlternatesFor(log, p)
  }

  /** The peers left when the log is replayed. */
  function Replay(log: seq<PeerEvent>): set<Peer> {
    if log == [] then {}
    else
      var before := Replay(log[..|log| - 1]);
      match log[|log| - 1]
      case Connected(p) => before + {p}
      case Disconnected(p) => before - {p}
  }

  /** Connected minus Disconnected events. */
  function Net(log: seq<PeerEvent>): int {
    if log == [] then 0
    else Net(log[..|log| - 1]) + if log[|log| - 1].Connected? then 1 else -1
  }

  lemma {:induction false} NetConcat(a: seq<PeerEvent>, b: seq<PeerEvent>)
    ensures Net(a + b) == Net(a) + Net(b)
    decreases b
  {
    if b == [] {
      assert a + b == a;
    } else {
      assert (a + b)[..|a + b| - 1] == a + b[..|b| - 1];
      NetConcat(a, b[..|b| - 1]);
    }
  }

  lemma AlternatesInit(log: seq<PeerEvent>)
    requires log != [] && Alternates(log)
    ensures Alternates(log[..|log| - 1])
  {
    var before := log[..|log| - 1];
    forall p
      ensures AlternatesFor(before, p)
    {
      assert AlternatesFor(log, p);
      assert forall k :: 0 <= k < |ForPeer(before, p)| ==> ForPeer(log, p)[k] == ForPeer(before, p)[k];
    }
  }

  lemma {:induction false} AlternatesPrefix(a: seq<PeerEvent>, b: seq<PeerEvent>)
    requires Alternates(a + b)
    ensures Alternates(a)
    decreases b
  {
    if b == [] {
      assert a + b == a;
    } else {
      AlternatesInit(a + b);
      assert (a + b)[..|a + b| - 1] == a + b[..|b| - 1];
      AlternatesPrefix(a, b[..|b| - 1]);
    }
  }

  /** In an alternating log the peers left are those with an odd number of events. */
  lemma {:induction false} ReplayIsOdd(log: seq<PeerEvent>, p: Peer)
    requires Alternates(log)
    ensures p in Replay(log) <==> |ForPeer(log, p)| % 2 == 1
    decreases log
  {
    if log != [] {
      AlternatesInit(log);
      var before := log[..|log| - 1];
      ReplayIsOdd(before, p);
      assert AlternatesFor(log, p);
      if log[|log| - 1].peer == p {
        assert ForPeer(log, p)[|ForPeer(before, p)|] == log[|log| - 1];
      }
    }
  }

  /** In an alternating log the events sum to the number of peers left. */
  lemma {:induction false} NetIsPeerCount(log: seq<PeerEvent>)
    requires Alternates(log)
    ensures Net(log) == |Replay(log)|
    decreases log
  {
    if log != [] {
      var before := log[..|log| - 1];
      var p := log[|log| - 1].peer;
      AlternatesInit(log);
      NetIsPeerCount(before);
      ReplayIsOdd(before, p);
      assert AlternatesFor(log, p);
      assert ForPeer(log, p)[|ForPeer(before, p)|] == log[|log| - 1];
    }
  }

  /** An event that is due for its peer extends an alternating log. */
  lemma AlternatesAppend(log: seq<PeerEvent>, e: PeerEvent)
    requires Alternates(log) && (e.Connected? <==> e.peer !in Replay(log))
    ensures Alternates(log + [e])
    ensures Replay(log + [e]) == if e.Connected? then Replay(log) + {e.peer} else Replay(log) - {e.peer}
  {
    var longer := log + [e];
    assert longer[..|longer| - 1] == log;
    forall p
      ensures AlternatesFor(longer, p)
    {
      assert AlternatesFor(log, p);
      ReplayIsOdd(log, p);
      assert ForPeer(longer, p) == ForPeer(log, p) + if e.peer == p then [e] else [];
    }
  }

  // ---- connections on the wire ----

  datatype WireStep = Up(peer: Peer) | Down(peer: Peer)

  /** The number of connections to p that are open. */
  function OpenTo(wire: seq<WireStep>, p: Peer): int {
    if wire == [] then 0
    else
      OpenTo(wire[..|wire| - 1], p)
        + match wire[|wire| - 1] { case Up(q) => if q == p then 1 else 0 case Down(q) => if q == p then -1 else 0 }
  }

  /** The latest step that concerns p opened a connection. */
  function LastWasUp(wire: seq<WireStep>, p: Peer): bool {
    if wire == [] then false
    else if wire[|wire| - 1].peer == p then wire[|wire| - 1].Up?
    else LastWasUp(wire[..|wire| - 1], p)
  }

  /** Only open connections are ever closed. */
  ghost predicate WireOk(wire: seq<WireStep>) {
    forall i :: 0 <= i < |wire| && wire[i].Down? ==> OpenTo(wire[..i], wire[i].peer) > 0
  }

  ghost predicate NeverTwoAtOnce(wire: seq<WireStep>) {
    forall i, p :: 0 <= i <= |wire| ==> OpenTo(wire[..i], p) <= 1
  }

  lemma WireInit(wire: seq<WireStep>)
    requires wire != []
    ensures WireOk(wire) ==> WireOk(wire[..|wire| - 1])
    ensures NeverTwoAtOnce(wire) ==> NeverTwoAtOnce(wire[..|wire| - 1])
  {
    var before := wire[..|wire| - 1];
    assert forall i :: 0 <= i <= |before| ==> before[..i] == wire[..i];
    assert forall i :: 0 <= i < |before| ==> before[i] == wire[i];
  }

  /** A peer whose latest step opened a connection has one. The converse holds
      when no peer ever had two: closing either of two connections already
      counts as the peer's leaving. */
  lemma {:induction false} LastUpIsConnected(wire: seq<WireStep>, p: Peer)
    requires WireOk(wire)
    ensures OpenTo(wire, p) >= 0
    ensures LastWasUp(wire, p) ==> OpenTo(wire, p) >= 1
    ensures NeverTwoAtOnce(wire) ==> (LastWasUp(wire, p) <==> OpenTo(wire, p) == 1)
    decreases wire
  {
    if wire != [] {
      var before := wire[..|wire| - 1];
      WireInit(wire);
      LastUpIsConnected(before, p);
      assert wire[..|wire|] == wire;
      if wire[|wire| - 1].Down? {
        assert OpenTo(before, wire[|wire| - 1].peer) > 0;
      }
    }
  }

  /** Two connections, one of them closed: the peer is connected, its latest step
      was a closing, and it is not tracked. */
  lemma OneOfTwoClosed(p: Peer)
    ensures var wire := [Up(p), Up(p), Down(p)];
            && WireOk(wire) && OpenTo(wire, p) == 1 && !LastWasUp(wire, p)
            && p !in Closed(Established(Established(Tracker({}, []), p), p), p).peers
  {
    var wire := [Up(p), Up(p), Down(p)];
    assert wire[..2] == [Up(p), Up(p)] && wire[..2][..1] == [Up(p)];
    assert OpenTo([Up(p)], p) == 1;
    assert OpenTo(wire[..2], p) == 2;
  }
}
