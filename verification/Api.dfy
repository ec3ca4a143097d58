/** The calls of the RPC interface as clients of the store and the service. */
module Api {
  import opened Collections
  import opened Wrappers
  import opened Content
  import opened LinkGraph
  import St = Store
  import opened Publishing
  import opened Service
  import opened Replies

  datatype ApiError = BitswapFailed | DagIncomplete(error: St.WalkError)

  /** What a client sees when the service has answered its command: the outcome,
      and the store as it is by then. */
  datatype Reply = Reply(outcome: Outcome, grown: Graph)

  ghost predicate Justified(before: Graph, cid: Cid, reply: Reply) {
    Extends(before, reply.grown) && (reply.outcome.Found? ==> cid in reply.grown)
  }

  /** Every answer of a run of the service is justified, seen from any state
      before it at any state after it. */
  lemma ServiceRepliesJustified(node: Node, states: seq<State>, actions: seq<Action>, i: nat, j: nat, k: nat)
    requires IsRun(node, states, actions) && i <= j < |states| && k < |states[j].answers|
    ensures Justified(states[i].store, states[j].answers[k].cid, Reply(states[j].answers[k].outcome, states[j].store))
  {
    RunGrows(node, states, actions, i, j);
    if states[j].answers[k].outcome.Found? {
      FoundStaysStored(node, states, actions, j, k);
    }
  }

  /** The block is there at once, or the service answers that it was found. */
  predicate Served(before: Graph, cid: Cid, reply: Reply) {
    cid in before || reply.outcome.Found?
  }

  /** The store on which a traversal starts. */
  function AtStart(before: Graph, cid: Cid, reply: Reply): Graph {
    if cid in before then before else reply.grown
  }

  /** Whatever is stored now or inserted later comes from a finite universe of blocks. */
  ghost predicate AllWithin(before: Graph, reply: Reply, arrivals: nat -> Graph, universe: Graph) {
    && Extends(before, universe) && Extends(reply.grown, universe)
    && forall n :: Extends(arrivals(n), universe)
  }

  /** A GetBitswap command for the service. */
  datatype Command = Command(cid: Cid, query: BitswapType)

  /** A CAR stream: the roots of its header and its blocks in order. */
  datatype Car = Car(roots: seq<Cid>, blocks: St.Walk)

  class NodeNetworkInterface {
    const store: St.Store
    var sent: seq<Command>

    constructor (store: St.Store)
      ensures this.store == store && sent == []
    {
      this.store := store;
      sent := [];
    }

    /** Sends a GetBitswap command and waits; meanwhile the store grows. */
    method Request(cid: Cid, query: BitswapType, reply: Reply) returns (ok: bool)
      requires Justified(store.db, cid, reply)
      modifies this, store
      ensures store.db == reply.grown && ok == reply.outcome.Found?
      ensures sent == old(sent) + [Command(cid, query)]
    {
      sent := sent + [Command(cid, query)];
      store.db := reply.grown;
      ok := reply.outcome.Found?;
    }

    /** Never Ok without the bytes, whoever else used the service meanwhile. */
    method Get(cid: Cid, reply: Reply) returns (r: Result<Option<seq<byte>>, ApiError>)
      requires Justified(store.db, cid, reply)
      modifies this, store
      ensures Extends(old(store.db), store.db)
      ensures sent == old(sent) + if cid in old(store.db) then [] else [Command(cid, BitswapType.Get)]
      ensures r == if cid in old(store.db) then Ok(Some(old(store.db)[cid].data))
                   else if reply.outcome.Found? then Ok(Some(reply.grown[cid].data))
                   else Err(BitswapFailed)
    {
      var has := store.Contains(cid);
      if !has {
        var ok := Request(cid, BitswapType.Get, reply);
        if !ok {
          return Err(BitswapFailed);
        }
      }
      var data := store.Get(cid);
      r := Ok(data);
    }

    /** The complete DAG or an error, never a part of the DAG, whatever other tasks
        insert during the traversal. An Ok lists the DAG of the store at the end;
        a DAG that is complete when the traversal starts gives Ok. */
    method GetData(rootCid: Cid, reply: Reply, arrivals: nat -> Graph, ghost universe: Graph)
      returns (r: Result<St.Walk, ApiError>)
      requires Justified(store.db, rootCid, reply) && AllWithin(store.db, reply, arrivals, universe)
      modifies this, store
      ensures Extends(old(store.db), store.db)
      ensures sent == old(sent) + if rootCid in old(store.db) then [] else [Command(rootCid, Sync)]
      ensures r.Ok? ==> Served(old(store.db), rootCid, reply) && Complete(store.db, rootCid)
      ensures r.Ok? ==> St.ListsDag(store.db, rootCid, r.value)
      ensures Served(old(store.db), rootCid, reply) && Complete(AtStart(old(store.db), rootCid, reply), rootCid)
              ==> r.Ok?
      ensures r.Err? ==> (r.error.BitswapFailed? <==> !Served(old(store.db), rootCid, reply))
    {
      var has := store.Contains(rootCid);
      if !has {
        var ok := Request(rootCid, Sync, reply);
        if !ok {
          return Err(BitswapFailed);
        }
      }
      var dag := store.DagTraversalAmidInserts(rootCid, arrivals, universe);
      match dag
      case Err(e) => r := Err(DagIncomplete(e));
      case Ok(walk) => r := Ok(walk);
    }

    /** Sends the blocks into the channel that the CAR writer drains. */
    method SendAll(dag: St.Walk) returns (sent: St.Walk)
      ensures sent == dag
    {
      sent := [];
      for i := 0 to |dag|
        invariant sent == dag[..i]
      {
        sent := sent + [dag[i]];
      }
    }

    /** None when the data cannot be had: the call then panics. */
    method Stream(rootCid: Cid, reply: Reply, arrivals: nat -> Graph, ghost universe: Graph)
      returns (car: Option<Car>)
      requires Justified(store.db, rootCid, reply) && AllWithin(store.db, reply, arrivals, universe)
      modifies this, store
      ensures Extends(old(store.db), store.db)
      ensures sent == old(sent) + if rootCid in old(store.db) then [] else [Command(rootCid, Sync)]
      ensures car.Some? ==> Served(old(store.db), rootCid, reply) && Complete(store.db, rootCid)
      ensures car.Some? ==> car.value.roots == [rootCid] && St.ListsDag(store.db, rootCid, car.value.blocks)
      ensures Served(old(store.db), rootCid, reply) && Complete(AtStart(old(store.db), rootCid, reply), rootCid)
              ==> car.Some?
    {
      var header := [rootCid];
      var dag := GetData(rootCid, reply, arrivals, universe);
      if dag.Err? {
        return None;
      }
      var sent := SendAll(dag.value);
      car := Some(Car(header, sent));
    }

    /** The file is written after the buffer is complete, and not at all on an error. */
    method GetFile(rootCid: Cid, reply: Reply, arrivals: nat -> Graph, ghost universe: Graph)
      returns (file: Option<Car>)
      requires Justified(store.db, rootCid, reply) && AllWithin(store.db, reply, arrivals, universe)
      modifies this, store
      ensures Extends(old(store.db), store.db)
      ensures sent == old(sent) + if rootCid in old(store.db) then [] else [Command(rootCid, Sync)]
      ensures file.Some? ==> Served(old(store.db), rootCid, reply) && Complete(store.db, rootCid)
      ensures file.Some? ==> file.value.roots == [rootCid] && St.ListsDag(store.db, rootCid, file.value.blocks)
      ensures Served(old(store.db), rootCid, reply) && Complete(AtStart(old(store.db), rootCid, reply), rootCid)
              ==> file.Some?
    {
      var header := [rootCid];
      var dag := GetData(rootCid, reply, arrivals, universe);
      if dag.Err? {
        return None;
      }
      var buffer := SendAll(dag.value);
      file := Some(Car(header, buffer));
    }
  }
}
