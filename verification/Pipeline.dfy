/** Peer events on their way from the tracker through two queues to the gauge. */
module Pipeline {
  import opened Collections
  import opened Publishing
  import opened Discovery
  import opened Behaviour
  import opened Service

  /** The peer events among the behaviour's queued events. */
  function Relayed(events: seq<BehaviourEvent>): seq<PeerEvent> {
    if events == [] then []
    else
      Relayed(events[..|events| - 1])
        + match events[|events| - 1] {
            case PeerConnected(p) => [Connected(p)]
            case PeerDisconnected(p) => [Disconnected(p)]
            case _ => []
          }
  }

  /** Every peer event the tracker ever emitted: those that reached the loop,
      those queued at the behaviour, and those still at the tracker. */
  function Emitted(s: State): seq<PeerEvent> {
    s.seen + Relayed(s.behaviour.events) + s.behaviour.tracker.events
  }

  lemma {:induction false} RelayedConcat(a: seq<BehaviourEvent>, b: seq<BehaviourEvent>)
    ensures Relayed(a + b) == Relayed(a) + Relayed(b)
    decreases b
  {
    if b == [] {
      assert a + b == a;
    } else {
      assert (a + b)[..|a + b| - 1] == a + b[..|b| - 1];
      RelayedConcat(a, b[..|b| - 1]);
    }
  }

  lemma RelayedOne(e: BehaviourEvent)
    ensures Relayed([e]) == match e { case PeerConnected(p) => [Connected(p)]
                                      case PeerDisconnected(p) => [Disconnected(p)]
                                      case _ => [] }
  {
    assert [e][..0] == [];
  }

  /** The log alternates per peer and replays to the tracked peers, which are the
      peers whose latest connection step was an opening; the gauge has counted
      what reached the loop. */
  ghost predicate PipelineOk(s: State) {
    && Alternates(Emitted(s))
    && Replay(Emitted(s)) == s.behaviour.tracker.peers
    && s.gauge == Net(s.seen)
    && WireOk(s.wire)
    && forall p :: p in s.behaviour.tracker.peers <==> LastWasUp(s.wire, p)
  }

  /** A step that moves events along, without a connection step. */
  lemma MovedOn(s: State, next: State)
    requires PipelineOk(s) && Emitted(next) == Emitted(s)
    requires next.behaviour.tracker.peers == s.behaviour.tracker.peers && next.wire == s.wire
    requires next.gauge == Net(next.seen)
    ensures PipelineOk(next)
  {
  }

  lemma WireOkAppend(wire: seq<WireStep>, w: WireStep)
    requires WireOk(wire) && (w.Down? ==> OpenTo(wire, w.peer) > 0)
    ensures WireOk(wire + [w])
  {
    var longer := wire + [w];
    assert longer[..|wire|] == wire;
    assert forall i :: 0 <= i < |wire| ==> longer[..i] == wire[..i] && longer[i] == wire[i];
  }

  lemma LastAppend(wire: seq<WireStep>, w: WireStep, p: Peer)
    ensures LastWasUp(wire + [w], p) <==> if w.peer == p then w.Up? else LastWasUp(wire, p)
  {
    assert (wire + [w])[..|wire|] == wire;
  }

  lemma TrackedAfter(wire: seq<WireStep>, tracker: Tracker, e: PeerEvent, w: WireStep)
    requires forall p :: p in tracker.peers <==> LastWasUp(wire, p)
    requires w == if e.Connected? then Up(e.peer) else Down(e.peer)
    ensures var next := if e.Connected? then Established(tracker, e.peer) else Closed(tracker, e.peer);
            forall p :: p in next.peers <==> LastWasUp(wire + [w], p)
  {
    forall p
      ensures LastWasUp(wire + [w], p) <==> if w.peer == p then w.Up? else p in tracker.peers
    {
      LastAppend(wire, w, p);
    }
  }

  lemma ConnectionStep(s: State, e: PeerEvent, w: WireStep, tracker: Tracker, next: State)
    requires PipelineOk(s)
    requires w == if e.Connected? then Up(e.peer) else Down(e.peer)
    requires w.Down? ==> OpenTo(s.wire, w.peer) > 0
    requires tracker == if e.Connected? then Established(s.behaviour.tracker, e.peer)
                        else Closed(s.behaviour.tracker, e.peer)
    requires next == s.(behaviour := s.behaviour.(tracker := tracker), wire := s.wire + [w])
    ensures PipelineOk(next)
  {
    WireOkAppend(s.wire, w);
    TrackedAfter(s.wire, s.behaviour.tracker, e, w);
    if e.Connected? <==> e.peer !in s.behaviour.tracker.peers {
      AlternatesAppend(Emitted(s), e);
      Regroup(s.seen + Relayed(s.behaviour.events), s.behaviour.tracker.events, [e]);
      assert Emitted(next) == Emitted(s) + [e];
    }
  }

  /** Everything that is queued at the end keeps the log, unless it is a peer event. */
  lemma QueuedOther(s: State, e: BehaviourEvent)
    requires !e.PeerConnected? && !e.PeerDisconnected?
    ensures Relayed(s.behaviour.events + [e]) == Relayed(s.behaviour.events)
  {
    RelayedConcat(s.behaviour.events, [e]);
    RelayedOne(e);
  }

  lemma PeerEventPolledMoves(s: State)
    requires s.behaviour.tracker.events != []
    ensures Emitted(s.(behaviour := PeerEventMoved(s.behaviour))) == Emitted(s)
  {
    var waiting := s.behaviour.tracker.events;
    var e := AsBehaviourEvent(waiting[0]);
    RelayedConcat(s.behaviour.events, [e]);
    RelayedOne(e);
    FirstMoves(s.seen, Relayed(s.behaviour.events), waiting);
  }

  lemma PoppedRelayed(s: State)
    requires s.behaviour.events != []
    ensures Relayed(s.behaviour.events) == Relayed([s.behaviour.events[0]]) + Relayed(Popped(s).behaviour.events)
  {
    assert s.behaviour.events == [s.behaviour.events[0]] + s.behaviour.events[1..];
    RelayedConcat([s.behaviour.events[0]], s.behaviour.events[1..]);
  }

  lemma PeerEventCounted(s: State, e: PeerEvent)
    requires s.behaviour.events != [] && s.behaviour.events[0] == AsBehaviourEvent(e) && s.gauge == Net(s.seen)
    ensures var next := OnPeer(Popped(s), e);
            Emitted(next) == Emitted(s) && next.gauge == Net(next.seen)
  {
    var rest := s.behaviour.events[1..];
    PoppedRelayed(s);
    RelayedOne(s.behaviour.events[0]);
    RegroupFour(s.seen, [e], Relayed(rest), s.behaviour.tracker.events);
    assert (s.seen + [e])[..|s.seen|] == s.seen;
  }

  lemma OtherEventPopped(s: State)
    requires s.behaviour.events != []
    requires !s.behaviour.events[0].PeerConnected? && !s.behaviour.events[0].PeerDisconnected?
    ensures Emitted(Popped(s)) == Emitted(s)
  {
    PoppedRelayed(s);
    RelayedOne(s.behaviour.events[0]);
    RegroupFour(s.seen, [], Relayed(s.behaviour.events[1..]), s.behaviour.tracker.events);
  }

  lemma NatTurnMoves(node: Node, s: State, report: NatReport, listening: bool)
    requires s.behaviour.events != [] && s.behaviour.events[0] == NatStatusChanged(report)
    ensures var next := OnNatStatus(node, Popped(s), report, listening);
            Emitted(next) == Emitted(s) && next.gauge == s.gauge && next.seen == s.seen
  {
    OtherEventPopped(s);
    if report.after.Public? {
      QueuedOther(Popped(s), StartPublish(report.after.address));
    }
  }

  /** A turn keeps the log: a peer event moves to the loop and is counted, and
      every other event leaves it alone. */
  lemma TurnMoves(node: Node, s: State, a: Action, next: State)
    requires s.gauge == Net(s.seen) && a.HandleEvent? && Enabled(s, a) && next == Step(node, s, a)
    ensures Emitted(next) == Emitted(s) && next.gauge == Net(next.seen)
  {
    match s.behaviour.events[0]
    case PeerConnected(p) => PeerEventCounted(s, Connected(p));
    case PeerDisconnected(p) => PeerEventCounted(s, Disconnected(p));
    case NatStatusChanged(report) => NatTurnMoves(node, s, report, a.listening);
    case _ => OtherEventPopped(s);
  }

  /** The steps of the other components add no peer event. */
  lemma OtherStepMoves(node: Node, s: State, a: Action, next: State)
    requires Enabled(s, a) && next == Step(node, s, a)
    requires !a.ConnectionOpened? && !a.ConnectionClosed? && !a.PeerEventPolled? && !a.HandleEvent?
    ensures Emitted(next) == Emitted(s) && next.gauge == s.gauge && next.seen == s.seen
  {
    match a
    case NatStatusReported => QueuedOther(s, NatStatusChanged(s.behaviour.natReports[0]));
    case QueryEnded(id, found) =>
      if id in s.behaviour.queries {
        QueuedOther(s, next.behaviour.events[|s.behaviour.events|]);
      }
    case Index(cids) =>
      if s.behaviour.natStatus.Public? {
        QueuedOther(s, StartPublish(s.behaviour.natStatus.address));
      }
    case _ =>
  }

  /** Whatever is no connection step moves events along. */
  lemma EventsMove(node: Node, s: State, a: Action, next: State)
    requires s.gauge == Net(s.seen) && Enabled(s, a) && next == Step(node, s, a)
    requires !a.ConnectionOpened? && !a.ConnectionClosed?
    ensures Emitted(next) == Emitted(s) && next.gauge == Net(next.seen)
  {
    if a.PeerEventPolled? {
      PeerEventPolledMoves(s);
    } else if a.HandleEvent? {
      TurnMoves(node, s, a, next);
    } else {
      OtherStepMoves(node, s, a, next);
    }
  }

  lemma OnlyConnectionsTrack(node: Node, s: State, a: Action, next: State)
    requires Enabled(s, a) && next == Step(node, s, a)
    requires !a.ConnectionOpened? && !a.ConnectionClosed?
    ensures next.behaviour.tracker.peers == s.behaviour.tracker.peers && next.wire == s.wire
  {
    match a
    case HandleEvent(_, _, _) =>
      match s.behaviour.events[0] {
        case Bitswap(_) =>
        case _ =>
      }
    case _ =>
  }

  lemma StepPipeline(node: Node, s: State, a: Action, next: State)
    requires PipelineOk(s) && Enabled(s, a) && next == Step(node, s, a)
    ensures PipelineOk(next)
  {
    if a.ConnectionOpened? {
      ConnectionStep(s, Connected(a.peer), Up(a.peer), Established(s.behaviour.tracker, a.peer), next);
    } else if a.ConnectionClosed? {
      ConnectionStep(s, Disconnected(a.peer), Down(a.peer), Closed(s.behaviour.tracker, a.peer), next);
    } else {
      EventsMove(node, s, a, next);
      OnlyConnectionsTrack(node, s, a, next);
      MovedOn(s, next);
    }
  }

  lemma {:induction false} PipelineRun(node: Node, states: seq<State>, actions: seq<Action>, i: nat)
    requires IsRun(node, states, actions) && i < |states|
    ensures PipelineOk(states[i])
    decreases i
  {
    if i > 0 {
      PipelineRun(node, states, actions, i - 1);
      StepPipeline(node, states[i - 1], actions[i - 1], states[i]);
    } else {
      var store :| states[0] == Initial(store);
      assert Emitted(states[0]) == [];
    }
  }

  /** Conservation: in every state of every run the gauge, plus what is queued at
      the behaviour and at the tracker, is the number of tracked peers, and the
      gauge is not negative. */
  lemma GaugeConserved(node: Node, states: seq<State>, actions: seq<Action>, i: nat)
    requires IsRun(node, states, actions) && i < |states|
    ensures var s := states[i];
            && s.gauge + Net(Relayed(s.behaviour.events)) + Net(s.behaviour.tracker.events)
               == |s.behaviour.tracker.peers|
            && s.gauge >= 0
  {
    var s := states[i];
    PipelineRun(node, states, actions, i);
    NetOfThree(s.seen, Relayed(s.behaviour.events), s.behaviour.tracker.events);
  }

  lemma NetOfThree(a: seq<PeerEvent>, b: seq<PeerEvent>, c: seq<PeerEvent>)
    requires Alternates(a + b + c)
    ensures Net(a) + Net(b) + Net(c) == |Replay(a + b + c)|
    ensures Net(a) >= 0
  {
    NetConcat(a + b, c);
    NetConcat(a, b);
    NetIsPeerCount(a + b + c);
    AlternatesPrefix(a + b, c);
    AlternatesPrefix(a, b);
    NetIsPeerCount(a);
  }

  /** In every state of every run the emitted events alternate per peer and replay
      to the tracked peers; each tracked peer has an open connection; and as long
      as no peer ever had two at once, the tracked peers are the connected ones. */
  lemma TrackedPeers(node: Node, states: seq<State>, actions: seq<Action>, i: nat, p: Peer)
    requires IsRun(node, states, actions) && i < |states|
    ensures var s := states[i];
            && Alternates(Emitted(s)) && Replay(Emitted(s)) == s.behaviour.tracker.peers
            && (p in s.behaviour.tracker.peers <==> LastWasUp(s.wire, p))
            && (p in s.behaviour.tracker.peers ==> OpenTo(s.wire, p) >= 1)
            && (NeverTwoAtOnce(s.wire) ==> (p in s.behaviour.tracker.peers <==> OpenTo(s.wire, p) == 1))
  {
    PipelineRun(node, states, actions, i);
    LastUpIsConnected(states[i].wire, p);
  }
}
