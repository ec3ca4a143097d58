/** Progress: without new input the service settles, and then nothing is owed. */
module Settling {
  import opened Collections
  import opened Wrappers
  import opened Content
  import opened LinkGraph
  import St = Store
  import opened Publishing
  import opened Behaviour
  import opened Service
  import opened Waiters
  import opened RootWatch
  import opened Pipeline

  /** The steps by which work that is already under way goes on. */
  predicate Internal(a: Action) {
    a.PeerEventPolled? || a.NatStatusReported? || a.QueryEnded? || a.HandleEvent?
  }

  function Weight(e: BehaviourEvent): nat {
    if e.NatStatusChanged? then 2 else 1
  }

  function QueueWeight(events: seq<BehaviourEvent>): nat {
    if events == [] then 0 else QueueWeight(events[..|events| - 1]) + Weight(events[|events| - 1])
  }

  lemma {:induction false} QueueWeightConcat(a: seq<BehaviourEvent>, b: seq<BehaviourEvent>)
    ensures QueueWeight(a + b) == QueueWeight(a) + QueueWeight(b)
    decreases b
  {
    if b == [] {
      assert a + b == a;
    } else {
      assert (a + b)[..|a + b| - 1] == a + b[..|b| - 1];
      QueueWeightConcat(a, b[..|b| - 1]);
    }
  }

  /** How many internal steps are left at most. */
  function Work(b: BehaviourState): nat {
    2 * |b.active.Keys| + 3 * |b.natReports| + 2 * |b.tracker.events| + QueueWeight(b.events)
  }

  lemma QueuedWork(b: BehaviourState, e: BehaviourEvent)
    ensures Work(Queued(b, e)) == Work(b) + Weight(e)
  {
    assert (b.events + [e])[..|b.events|] == b.events;
  }

  lemma PoppedWork(b: BehaviourState)
    requires b.events != []
    ensures Work(b) == Weight(b.events[0]) + Work(b.(events := b.events[1..]))
  {
    var first := [b.events[0]];
    assert b.events == first + b.events[1..];
    QueueWeightConcat(first, b.events[1..]);
    assert first[..0] == [];
    assert QueueWeight(first) == QueueWeight([]) + Weight(b.events[0]);
  }

  lemma CancelledWork(b: BehaviourState, id: QueryId)
    ensures Work(QueryCancelled(b, id)) <= Work(b)
    ensures id in b.active ==> Work(QueryCancelled(b, id)) == Work(b) - 2
  {
    var rest := (b.active - {id}).Keys;
    assert rest == b.active.Keys - {id};
    SubsetSize(rest, b.active.Keys);
    if id in b.active {
      assert |b.active.Keys - {id}| == |b.active.Keys| - 1;
    }
  }

  lemma TurnWorks(node: Node, s: State, a: Action, next: State)
    requires a.HandleEvent? && Enabled(s, a) && next == Step(node, s, a)
    ensures Work(next.behaviour) < Work(s.behaviour)
  {
    var rest, e := Popped(s).behaviour, s.behaviour.events[0];
    TurnBehaviour(node, s, a, next);
    PoppedWork(s.behaviour);
    if e.Bitswap? {
      CancelledWork(rest, e.info.queryId);
    } else if e.NatStatusChanged? && e.report.after.Public? {
      QueuedWork(rest, StartPublish(e.report.after.address));
    }
  }

  lemma QueryEndWorks(b: BehaviourState, id: QueryId, found: bool)
    requires id in b.active
    ensures Work(QueryCompleted(b, id, found)) < Work(b)
  {
    CancelledWork(b, id);
    if id in b.queries {
      QueuedWork(QueryCancelled(b, id), Bitswap(b.queries[id].(blockFound := found || b.queries[id].blockFound)));
    }
  }

  /** Every internal step uses up some of the work. */
  lemma InternalStepsEnd(node: Node, s: State, a: Action, next: State)
    requires Internal(a) && Enabled(s, a) && next == Step(node, s, a)
    ensures Work(next.behaviour) < Work(s.behaviour)
  {
    var b := s.behaviour;
    if a.PeerEventPolled? {
      QueuedWork(b.(tracker := b.tracker.(events := b.tracker.events[1..])), AsBehaviourEvent(b.tracker.events[0]));
    } else if a.NatStatusReported? {
      QueuedWork(b.(natReports := b.natReports[1..]), NatStatusChanged(b.natReports[0]));
    } else if a.QueryEnded? {
      QueryEndWorks(b, a.id, a.found);
    } else {
      TurnWorks(node, s, a, next);
    }
  }

  /** From state i on, a run of internal steps is no longer than the work at i. */
  lemma {:induction false} InternalRunIsShort(node: Node, states: seq<State>, actions: seq<Action>, i: nat, j: nat)
    requires IsRun(node, states, actions) && i <= j < |states|
    requires forall k :: i <= k < j ==> Internal(actions[k])
    ensures j - i + Work(states[j].behaviour) <= Work(states[i].behaviour)
    decreases j
  {
    if i < j {
      InternalRunIsShort(node, states, actions, i, j - 1);
      InternalStepsEnd(node, states[j - 1], actions[j - 1], states[j]);
    }
  }

  /** No internal step can be taken. */
  ghost predicate Settled(s: State) {
    forall a :: Internal(a) ==> !Enabled(s, a)
  }

  /** The loop waits for a block that a query reported as found. */
  predicate WaitsForBlock(s: State) {
    && s.behaviour.events != [] && s.behaviour.events[0].Bitswap?
    && s.behaviour.events[0].info.blockFound
    && s.behaviour.events[0].info.cid in s.channels && s.behaviour.events[0].info.cid !in s.store
  }

  /** Whatever the store and the queue are, the loop can make its traversals. */
  lemma {:induction false} TraversalsExist(db: Graph, roots: seq<Cid>)
    returns (walks: seq<Result<St.Walk, St.WalkError>>)
    ensures Traversed(db, roots, walks)
    decreases roots
  {
    walks := [];
    if roots != [] {
      var first := St.TraversalExists(db, roots[0]);
      walks := [first];
      if first.Ok? {
        var others := TraversalsExist(db, roots[1..]);
        walks := [first] + others;
        assert |walks| == |roots| || walks[|walks| - 1] == others[|others| - 1];
      }
    }
  }

  lemma SettledIsIdle(s: State)
    requires s.running && Settled(s) && !WaitsForBlock(s)
    ensures s.behaviour.events == [] && s.behaviour.natReports == []
    ensures s.behaviour.tracker.events == [] && s.behaviour.active == map[]
  {
    assert !Enabled(s, PeerEventPolled);
    assert !Enabled(s, NatStatusReported);
    if id :| id in s.behaviour.active {
      assert Enabled(s, QueryEnded(id, true));
    }
    if s.behaviour.events != [] {
      if s.behaviour.events[0].StartPublish? {
        var walks := TraversalsExist(s.store, s.rootCids);
        assert Enabled(s, HandleEvent(walks, seq(|walks|, _ => 0), true));
      } else {
        assert Enabled(s, HandleEvent([], [], true));
      }
    }
  }

  lemma SettledHasNoWaiters(s: State)
    requires s.running && Settled(s) && NoneStranded(s)
    ensures s.channels == map[] <==> !WaitsForBlock(s)
  {
    if !WaitsForBlock(s) {
      SettledIsIdle(s);
      forall cid
        ensures cid !in s.channels
      {
        assert !EventFor(s.behaviour, cid) && !QueryFor(s.behaviour, cid);
      }
    }
  }

  /** A running service that has settled has waiters left if and only if it waits
      for a block that was reported as found to be inserted. */
  lemma SettledHasWaitersIff(node: Node, states: seq<State>, actions: seq<Action>, i: nat)
    requires IsRun(node, states, actions) && i < |states|
    requires states[i].running && Settled(states[i])
    ensures states[i].channels == map[] <==> !WaitsForBlock(states[i])
  {
    EveryWaiterServed(node, states, actions, i);
    SettledHasNoWaiters(states[i]);
  }

  /** If it does not wait for a block, it owes nothing: every sender has its answer,
      a public node has no root queued, and the gauge shows the tracked peers. */
  lemma SettledOwesNothing(node: Node, states: seq<State>, actions: seq<Action>, i: nat)
    requires IsRun(node, states, actions) && i < |states|
    requires states[i].running && Settled(states[i]) && !WaitsForBlock(states[i])
    ensures states[i].channels == map[]
    ensures forall x :: x in states[i].asked ==> Answered(states[i], x)
    ensures states[i].behaviour.natStatus.Public? ==> states[i].rootCids == []
    ensures states[i].gauge == |states[i].behaviour.tracker.peers|
  {
    var s := states[i];
    SettledIsIdle(s);
    EveryWaiterServed(node, states, actions, i);
    SettledHasNoWaiters(s);
    NoRootStranded(node, states, actions, i);
    GaugeConserved(node, states, actions, i);
  }
}
