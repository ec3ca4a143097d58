/** Inputs at which the service falls short of what one might expect of it. */
module Failures {
  import opened Wrappers
  import opened Content
  import opened LinkGraph
  import opened Addresses
  import opened MissingWalk
  import St = Store
  import C = Catalogue
  import opened Publishing
  import opened Behaviour
  import opened Service

  /** A stored block that links to itself keeps the walk without a visited set
      going for ever, and the one with it ends. */
  lemma SelfLinkNeverEnds(c: Cid, data: seq<byte>, n: nat)
    ensures var db := map[c := Block(data, [c])];
            StackAfter(db, [c], n) != [] && St.IsTraversal(db, c, Ok([(c, data)]))
  {
    var db := map[c := Block(data, [c])];
    ReachableLinkPath(db, c);
    assert !AcyclicBelow(db, c);
    CyclicWalkGoesOn(db, [c], 0, n);
    forall x
      ensures Reachable(db, c, x) <==> x == c
    {
      ReachableRefl(db, c);
      if Reachable(db, c, x) {
        var p :| Follow(db, c, p) == Some(x);
        ClosedCovers(db, {c}, c, p);
      }
    }
    var walk := [(c, data)];
    assert walk[0].0 == c;
    assert forall x :: Reachable(db, c, x) ==> exists i :: 0 <= i < |walk| && walk[i].0 == x;
  }

  lemma ReachableLinkPath(db: Graph, c: Cid)
    requires c in db && db[c].links == [c]
    ensures Reachable(db, c, c) && OnCycle(db, c)
  {
    ReachableRefl(db, c);
    var p := [0];
    assert p[1..] == [];
    assert p != [] && Follow(db, c, p) == Some(c);
  }

  lemma UnstoredRootStops(node: Node, s: State, address: Multiaddr, c: Cid, id: nat, a: Action)
    requires s.running && s.behaviour.events == [StartPublish(address)] && s.rootCids == [c]
    requires s.store == map[] && s.provider == C.FRESH_PROVIDER
    requires a == HandleEvent([Err(St.SomeCidsMissing(c))], [id], true)
    ensures Enabled(s, a)
    ensures var next := Step(node, s, a);
            !next.running && next.rootCids == [] && next.provider.head == None && id in next.provider.tempAds
  {
    ReachableRefl(s.store, c);
    assert Traversed(s.store, s.rootCids, a.walks);
  }

  /** Indexing a root that is not stored, with a public address, ends the loop:
      the root is popped, nothing is published, and its draft stays open. */
  lemma MissingRootEndsLoop(node: Node, address: Multiaddr, c: Cid, id: nat)
    returns (states: seq<State>, actions: seq<Action>)
    ensures IsRun(node, states, actions) && |states| == 4
    ensures states[2].running && states[2].rootCids == [c]
    ensures !states[3].running && states[3].rootCids == [] && states[3].provider.head == None
    ensures id in states[3].provider.tempAds
  {
    var walks := [Err(St.SomeCidsMissing(c))];
    actions := [NatStatusSet(Public(address)), Index([c]), HandleEvent(walks, [id], true)];
    var s0 := Initial(map[]);
    var s1 := Step(node, s0, actions[0]);
    var s2 := Step(node, s1, actions[1]);
    UnstoredRootStops(node, s2, address, c, id, actions[2]);
    states := [s0, s1, s2, Step(node, s2, actions[2])];
  }

  /** An Index command that names no root ends the loop at once. */
  lemma IndexOfNothingEndsLoop(node: Node, store: Graph)
    returns (states: seq<State>, actions: seq<Action>)
    ensures IsRun(node, states, actions) && actions == [Index([])] && !states[1].running
  {
    actions := [Index([])];
    states := [Initial(store), Step(node, Initial(store), actions[0])];
  }

  /** A command is refused for want of peers although its block is in the store. */
  lemma RefusedThoughStored(node: Node, c: Cid, block: Block, query: BitswapType, sender: Sender, id: QueryId)
    returns (states: seq<State>, actions: seq<Action>)
    ensures IsRun(node, states, actions) && actions == [GetBitswap(c, query, sender, id)]
    ensures c in states[1].store && states[1].answers == [Answer(sender, c, NoPeers)]
  {
    actions := [GetBitswap(c, query, sender, id)];
    var s0 := Initial(map[c := block]);
    states := [s0, Step(node, s0, actions[0])];
  }
}
