/** Indexed roots are not stranded while the node has a public address. */
module RootWatch {
  import opened Collections
  import opened LinkGraph
  import opened Addresses
  import opened Publishing
  import opened Behaviour
  import opened Service

  predicate WillPublish(e: BehaviourEvent) {
    e.StartPublish? || (e.NatStatusChanged? && e.report.after.Public?)
  }

  /** A publishing event, or the report of a public address, is on its way. */
  ghost predicate PublishComing(b: BehaviourState) {
    || (exists e :: e in b.events && WillPublish(e))
    || (exists r :: r in b.natReports && r.after.Public?)
  }

  ghost predicate RootsWatched(s: State) {
    s.running && s.rootCids != [] && s.behaviour.natStatus.Public? ==> PublishComing(s.behaviour)
  }

  lemma EventsStayed(b: BehaviourState, next: BehaviourState)
    requires PublishComing(b)
    requires forall e :: e in b.events && WillPublish(e) ==> e in next.events
    requires forall r :: r in b.natReports && r.after.Public? ==>
               r in next.natReports || NatStatusChanged(r) in next.events
    ensures PublishComing(next)
  {
    if e :| e in b.events && WillPublish(e) {
      assert e in next.events;
    } else {
      var r :| r in b.natReports && r.after.Public?;
      assert r in next.natReports || WillPublish(NatStatusChanged(r));
    }
  }

  /** The turn of a public status report hands over to a publishing event. */
  lemma NatTurnHandsOver(node: Node, s: State, report: NatReport, listening: bool)
    requires RootsWatched(s) && s.behaviour.events != [] && s.behaviour.events[0] == NatStatusChanged(report)
    ensures RootsWatched(OnNatStatus(node, Popped(s), report, listening))
  {
    var b, next := s.behaviour, OnNatStatus(node, Popped(s), report, listening).behaviour;
    if report.after.Public? {
      assert next.events[|next.events| - 1] == StartPublish(report.after.address);
      assert StartPublish(report.after.address) in next.events;
    } else if s.running && PublishComing(b) {
      forall e | e in b.events && WillPublish(e)
        ensures e in next.events
      {
        HeadOrTail(b.events, e);
      }
      EventsStayed(b, next);
    }
  }

  /** A turn that neither publishes nor reports a status loses no publishing event. */
  lemma OtherTurnKeepsComing(node: Node, s: State, a: Action, next: State)
    requires PublishComing(s.behaviour) && a.HandleEvent? && Enabled(s, a) && next == Step(node, s, a)
    requires !WillPublish(s.behaviour.events[0]) && !s.behaviour.events[0].NatStatusChanged?
    ensures PublishComing(next.behaviour)
  {
    forall e | e in s.behaviour.events && WillPublish(e)
      ensures e in next.behaviour.events
    {
      HeadOrTail(s.behaviour.events, e);
    }
    EventsStayed(s.behaviour, next.behaviour);
  }

  lemma TurnRootsWatched(node: Node, s: State, a: Action, next: State)
    requires RootsWatched(s) && a.HandleEvent? && Enabled(s, a) && next == Step(node, s, a)
    ensures RootsWatched(next)
  {
    match s.behaviour.events[0]
    case NatStatusChanged(report) => NatTurnHandsOver(node, s, report, a.listening);
    case StartPublish(address) =>
      DrainStopsIffIncomplete(node, Advertised(address), s.provider, s.store, s.rootCids, a.walks, a.ids);
    case _ =>
      if PublishComing(s.behaviour) {
        OtherTurnKeepsComing(node, s, a, next);
      }
  }

  lemma ReportKeepsComing(b: BehaviourState)
    requires b.natReports != [] && PublishComing(b)
    ensures PublishComing(NatReported(b))
  {
    forall r | r in b.natReports
      ensures r in NatReported(b).natReports || NatStatusChanged(r) in NatReported(b).events
    {
      HeadOrTail(b.natReports, r);
    }
    EventsStayed(b, NatReported(b));
  }

  /** Indexing with a public address queues a publishing event; becoming public
      leaves a report. */
  lemma InputIsWatched(node: Node, s: State, a: Action, next: State)
    requires a.Index? || a.NatStatusSet?
    requires Enabled(s, a) && next == Step(node, s, a)
    ensures RootsWatched(next)
  {
    if next.running && next.behaviour.natStatus.Public? {
      if a.Index? {
        assert StartPublish(s.behaviour.natStatus.address) in next.behaviour.events;
      } else {
        assert NatReport(s.behaviour.natStatus, a.status) in next.behaviour.natReports;
      }
    }
  }

  lemma StepRootsWatched(node: Node, s: State, a: Action, next: State)
    requires RootsWatched(s) && Enabled(s, a) && next == Step(node, s, a)
    ensures RootsWatched(next)
  {
    if a.Index? || a.NatStatusSet? {
      InputIsWatched(node, s, a, next);
    } else if a.HandleEvent? {
      TurnRootsWatched(node, s, a, next);
    } else if PublishComing(s.behaviour) {
      if a.NatStatusReported? {
        ReportKeepsComing(s.behaviour);
      } else {
        EventsStayed(s.behaviour, next.behaviour);
      }
    }
  }

  /** In every state of every run: with roots in the queue and a public address,
      a publishing event or a report that leads to one is still to come. */
  lemma {:induction false} NoRootStranded(node: Node, states: seq<State>, actions: seq<Action>, i: nat)
    requires IsRun(node, states, actions) && i < |states|
    ensures RootsWatched(states[i])
    decreases i
  {
    if i > 0 {
      NoRootStranded(node, states, actions, i - 1);
      StepRootsWatched(node, states[i - 1], actions[i - 1], states[i]);
    }
  }

  /** The loop ends at a publishing event if and only if some queued root has a
      block missing, at a status report if and only if a relay that was needed
      cannot be listened on, at an Index command if and only if it names no root,
      and at every SendResponse command; no other modelled step ends it. */
  lemma StopsExactlyWhen(node: Node, s: State, a: Action)
    requires Enabled(s, a)
    ensures !Step(node, s, a).running <==>
              || a.SendResponse?
              || (a.Index? && a.cids == [])
              || (a.HandleEvent? && s.behaviour.events[0] == NatStatusChanged(NatReport(Unknown, Private))
                  && node.usesRelays && !a.listening)
              || (a.HandleEvent? && s.behaviour.events[0].StartPublish?
                  && exists r :: r in s.rootCids && !Complete(s.store, r))
  {
    if a.HandleEvent? && s.behaviour.events[0].StartPublish? {
      var address := Advertised(s.behaviour.events[0].publicAddress);
      DrainStopsIffIncomplete(node, address, s.provider, s.store, s.rootCids, a.walks, a.ids);
    }
  }
}
