/** The block store and its two walks over the link graph. */
module Store {
  import opened Collections
  import opened Wrappers
  import opened Content
  import opened LinkGraph
  import opened MissingWalk

  type Walk = seq<(Cid, seq<byte>)>

  datatype WalkError = SomeCidsMissing(root: Cid)

  ghost predicate LinkedFromEarlier(db: Graph, walk: Walk, i: nat)
    requires i < |walk|
  {
    exists j :: 0 <= j < i && walk[j].0 in db && walk[i].0 in db[walk[j].0].links
  }

  /** Every entry after the first is linked from an earlier one. */
  ghost predicate LinkedInOrder(db: Graph, walk: Walk) {
    forall i :: 0 < i < |walk| ==> LinkedFromEarlier(db, walk, i)
  }

  /** walk starts at the root and lists what the root reaches, each identifier
      once, with its stored bytes, parents before children. */
  ghost predicate ListsDag(db: Graph, root: Cid, walk: Walk) {
    && walk != [] && walk[0].0 == root
    && (forall i :: 0 <= i < |walk| ==> walk[i].0 in db && walk[i].1 == db[walk[i].0].data)
    && (forall i, j :: 0 <= i < j < |walk| ==> walk[i].0 != walk[j].0)
    && (forall x :: Reachable(db, root, x) <==> exists i :: 0 <= i < |walk| && walk[i].0 == x)
    && LinkedInOrder(db, walk)
  }

  /** What `dag_traversal` owes its caller: the whole DAG if all of it is stored,
      and an error otherwise. */
  ghost predicate IsTraversal(db: Graph, root: Cid, r: Result<Walk, WalkError>) {
    match r
    case Ok(walk) => Complete(db, root) && ListsDag(db, root, walk)
    case Err(e) => !Complete(db, root) && e == SomeCidsMissing(root)
  }

  class Store {
    var db: Graph

    constructor (initial: Graph)
      ensures db == initial
    {
      db := initial;
    }

    method Contains(cid: Cid) returns (found: bool)
      ensures found <==> cid in db
    {
      found := cid in db;
    }

    method Get(cid: Cid) returns (data: Option<seq<byte>>)
      ensures data == if cid in db then Some(db[cid].data) else None
    {
      data := if cid in db then Some(db[cid].data) else None;
    }

    method Insert(cid: Cid, block: Block)
      modifies this
      ensures db == old(db)[cid := block]
    {
      db := db[cid := block];
    }

    /** The stack walk without a visited set. It needs the hash links below the
        root to be acyclic, and no more than that (WalkEndsIffAcyclic). */
    method MissingBlocks(cid: Cid) returns (missing: seq<Cid>)
      requires AcyclicBelow(db, cid)
      ensures CountsPaths(db, cid, missing)
      ensures missing == Missing(db, [cid])
      ensures exists paths :: ListsMissingPaths(db, cid, missing, paths)
    {
      var stack := [cid];
      missing := [];
      ghost var all := Missing(db, stack);
      while stack != []
        invariant Owed(db, all, missing, stack)
        decreases Pops(db, stack)
      {
        ghost var next := Turn(db, stack);
        OwedAfterTurn(db, all, missing, stack, next);
        var c := stack[|stack| - 1];
        stack := stack[..|stack| - 1];
        var data := Get(c);
        if data.Some? {
          stack := stack + db[c].links;
        } else {
          missing := missing + [c];
          assert stack + [] == stack;
        }
        assert stack == next;
      }
      MissingFromRoot(db, cid);
      ghost var paths := MissingInWalkOrder(db, cid);
    }

    /** The worklist walk with a visited set; the set iterator may hand out any
        member of the worklist. */
    method DagTraversal(root: Cid) returns (r: Result<Walk, WalkError>)
      ensures IsTraversal(db, root, r)
    {
      var res: Walk := [];
      var current := {root};
      var refs: set<Cid> := {};
      ReachableRefl(db, root);
      while current != {}
        invariant Progress(db, root, res, current, refs)
        decreases db.Keys - refs, current
      {
        var cid :| cid in current;
        ProgressOne(db, root, res, current, refs, cid);
        current := current - {cid};
        if cid !in refs {
          var data := Get(cid);
          if data == None {
            return Err(SomeCidsMissing(root));
          }
          res := res + [(cid, data.value)];
          current := current + LinkSet(db[cid].links);
          refs := refs + {cid};
        }
      }
      ProgressDone(db, root, res, refs);
      r := Ok(res);
    }

    /** What other tasks insert between two turns; a stored block stays as it is. */
    method Receive(arrived: Graph, ghost universe: Graph)
      requires Extends(db, universe) && Extends(arrived, universe)
      modifies this
      ensures db == arrived + old(db)
      ensures Extends(old(db), db) && Extends(db, universe)
    {
      db := arrived + db;
    }

    /** The same walk while other tasks insert blocks: arrivals(n) is what comes in
        before the n-th turn, and the universe holds every block that there is. An
        Ok result lists the complete DAG of the store as it is at the end; a store
        that held the DAG from the start gives Ok. */
    method DagTraversalAmidInserts(root: Cid, arrivals: nat -> Graph, ghost universe: Graph)
      returns (r: Result<Walk, WalkError>)
      requires Extends(db, universe) && forall n :: Extends(arrivals(n), universe)
      modifies this
      ensures Extends(old(db), db) && Extends(db, universe)
      ensures r.Ok? ==> Complete(db, root) && ListsDag(db, root, r.value)
      ensures r.Err? ==> !Complete(old(db), root) && r.error == SomeCidsMissing(root)
    {
      var res: Walk := [];
      var current := {root};
      var refs: set<Cid> := {};
      var turn: nat := 0;
      ReachableRefl(db, root);
      while current != {}
        invariant Extends(old(db), db) && Extends(db, universe)
        invariant Progress(db, root, res, current, refs)
        decreases universe.Keys - refs, current
      {
        ghost var before := db;
        Receive(arrivals(turn), universe);
        turn := turn + 1;
        ProgressGrows(before, db, root, res, current, refs);
        var cid :| cid in current;
        ProgressOne(db, root, res, current, refs, cid);
        current := current - {cid};
        if cid !in refs {
          var data := Get(cid);
          if data == None {
            AbsentFromTheStart(old(db), db, root, cid);
            return Err(SomeCidsMissing(root));
          }
          res := res + [(cid, data.value)];
          current := current + LinkSet(db[cid].links);
          refs := refs + {cid};
        }
      }
      ProgressDone(db, root, res, refs);
      r := Ok(res);
    }
  }

  function LinkSet(links: seq<Cid>): set<Cid> {
    set l | l in links
  }

  // ---- the invariant of the stack walk ----

  /** What was found so far, and what the stack still owes, make up the result. */
  ghost predicate Owed(db: Graph, all: seq<Cid>, missing: seq<Cid>, stack: seq<Cid>) {
    AllAcyclic(db, stack) && missing + Missing(db, stack) == all
  }

  lemma OwedAfterTurn(db: Graph, all: seq<Cid>, missing: seq<Cid>, stack: seq<Cid>, next: seq<Cid>)
    requires Owed(db, all, missing, stack) && stack != []
    requires next == Turn(db, stack)
    ensures AllAcyclic(db, next) && Pops(db, next) < Pops(db, stack)
    ensures Owed(db, all, if stack[|stack| - 1] in db then missing else missing + [stack[|stack| - 1]], next)
  {
    TurnSpendsOnePop(db, stack);
    var found := if stack[|stack| - 1] in db then [] else [stack[|stack| - 1]];
    Regroup(missing, found, Missing(db, next));
  }

  // ---- the invariant of the worklist walk ----

  ghost predicate Entries(db: Graph, res: Walk, refs: set<Cid>) {
    && (forall i :: 0 <= i < |res| ==> res[i].0 in refs && res[i].0 in db && res[i].1 == db[res[i].0].data)
    && (forall i, j :: 0 <= i < j < |res| ==> res[i].0 != res[j].0)
    && (forall c :: c in refs ==> exists i :: 0 <= i < |res| && res[i].0 == c)
  }

  ghost predicate Frontier(db: Graph, root: Cid, current: set<Cid>, refs: set<Cid>) {
    && refs <= db.Keys && root in refs + current
    && (forall c, i :: c in refs && 0 <= i < |db[c].links| ==> db[c].links[i] in refs + current)
    && (forall c :: c in refs + current ==> Reachable(db, root, c))
  }

  ghost predicate Ordered(db: Graph, root: Cid, res: Walk, current: set<Cid>) {
    && (if res == [] then current == {root} else res[0].0 == root)
    && (res != [] ==> forall c :: c in current ==>
          exists j :: 0 <= j < |res| && res[j].0 in db && c in db[res[j].0].links)
    && LinkedInOrder(db, res)
  }

  ghost predicate Progress(db: Graph, root: Cid, res: Walk, current: set<Cid>, refs: set<Cid>) {
    Entries(db, res, refs) && Frontier(db, root, current, refs) && Ordered(db, root, res, current)
  }

  lemma OrderedOne(db: Graph, root: Cid, res: Walk, current: set<Cid>, cid: Cid)
    requires Ordered(db, root, res, current) && cid in current && cid in db
    ensures Ordered(db, root, res + [(cid, db[cid].data)], current - {cid} + LinkSet(db[cid].links))
  {
    var next := res + [(cid, db[cid].data)];
    var n := |res|;
    assert next[n].0 == cid;
    assert forall i :: 0 <= i < n ==> next[i] == res[i];
    forall c | c in current - {cid} + LinkSet(db[cid].links)
      ensures exists j :: 0 <= j < |next| && next[j].0 in db && c in db[next[j].0].links
    {
      if c in LinkSet(db[cid].links) {
        assert next[n].0 in db && c in db[next[n].0].links;
      } else {
        var j :| 0 <= j < n && res[j].0 in db && c in db[res[j].0].links;
        assert next[j] == res[j];
      }
    }
    LinkedOne(db, res, cid);
  }

  lemma LinkedOne(db: Graph, res: Walk, cid: Cid)
    requires LinkedInOrder(db, res) && cid in db
    requires res != [] ==> exists j :: 0 <= j < |res| && res[j].0 in db && cid in db[res[j].0].links
    ensures LinkedInOrder(db, res + [(cid, db[cid].data)])
  {
    var next := res + [(cid, db[cid].data)];
    forall i | 0 < i < |next|
      ensures LinkedFromEarlier(db, next, i)
    {
      var j: int;
      if i < |res| {
        assert next[i] == res[i] && LinkedFromEarlier(db, res, i);
        j :| 0 <= j < i && res[j].0 in db && res[i].0 in db[res[j].0].links;
      } else {
        assert next[i].0 == cid;
        j :| 0 <= j < |res| && res[j].0 in db && cid in db[res[j].0].links;
      }
      assert next[j] == res[j];
    }
  }

  lemma FrontierOne(db: Graph, root: Cid, current: set<Cid>, refs: set<Cid>, cid: Cid)
    requires Frontier(db, root, current, refs) && cid in current && cid in db
    ensures Frontier(db, root, current - {cid} + LinkSet(db[cid].links), refs + {cid})
  {
    forall i | 0 <= i < |db[cid].links|
      ensures Reachable(db, root, db[cid].links[i])
    {
      ReachableLink(db, cid, i);
      ReachableTrans(db, root, cid, db[cid].links[i]);
    }
  }

  lemma EntriesOne(db: Graph, res: Walk, refs: set<Cid>, cid: Cid)
    requires Entries(db, res, refs) && cid in db && cid !in refs
    ensures Entries(db, res + [(cid, db[cid].data)], refs + {cid})
  {
    var next := res + [(cid, db[cid].data)];
    assert next[|res|].0 == cid;
    assert forall i :: 0 <= i < |res| ==> next[i] == res[i];
  }

  /** Taking one identifier off the worklist, whichever it is, keeps Progress. */
  lemma ProgressOne(db: Graph, root: Cid, res: Walk, current: set<Cid>, refs: set<Cid>, cid: Cid)
    requires Progress(db, root, res, current, refs) && cid in current
    ensures Reachable(db, root, cid)
    ensures cid in refs ==> Progress(db, root, res, current - {cid}, refs)
    ensures cid !in refs && cid in db ==>
              Progress(db, root, res + [(cid, db[cid].data)], current - {cid} + LinkSet(db[cid].links), refs + {cid})
  {
    if cid !in refs && cid in db {
      OrderedOne(db, root, res, current, cid);
      FrontierOne(db, root, current, refs, cid);
      EntriesOne(db, res, refs, cid);
    }
  }

  lemma AbsentFromTheStart(small: Graph, big: Graph, root: Cid, x: Cid)
    requires Extends(small, big) && Reachable(big, root, x) && x !in big
    ensures !Complete(small, root)
  {
    if Complete(small, root) {
      CompleteStays(small, big, root);
    }
  }

  /** Blocks that come in between two turns spoil nothing. */
  lemma ProgressGrows(small: Graph, big: Graph, root: Cid, res: Walk, current: set<Cid>, refs: set<Cid>)
    requires Extends(small, big) && Progress(small, root, res, current, refs)
    ensures Progress(big, root, res, current, refs)
  {
    forall c | c in refs + current
      ensures Reachable(big, root, c)
    {
      ReachableMonotone(small, big, root, c);
    }
    assert Frontier(big, root, current, refs);
    forall c | res != [] && c in current
      ensures exists j :: 0 <= j < |res| && res[j].0 in big && c in big[res[j].0].links
    {
      var j :| 0 <= j < |res| && res[j].0 in small && c in small[res[j].0].links;
    }
    forall i | 0 < i < |res|
      ensures LinkedFromEarlier(big, res, i)
    {
      assert LinkedFromEarlier(small, res, i);
    }
  }

  lemma ProgressDone(db: Graph, root: Cid, res: Walk, refs: set<Cid>)
    requires Progress(db, root, res, {}, refs)
    ensures IsTraversal(db, root, Ok(res))
  {
    forall x | Reachable(db, root, x)
      ensures x in refs
    {
      var p :| Follow(db, root, p) == Some(x);
      ClosedCovers(db, refs, root, p);
    }
  }

  /** Some result is owed for every store and root: the worklist walk on values. */
  lemma TraversalFrom(db: Graph, root: Cid, res: Walk, current: set<Cid>, refs: set<Cid>)
    returns (r: Result<Walk, WalkError>)
    requires Progress(db, root, res, current, refs)
    ensures IsTraversal(db, root, r)
    decreases db.Keys - refs, current
  {
    if current == {} {
      ProgressDone(db, root, res, refs);
      r := Ok(res);
    } else {
      var cid :| cid in current;
      ProgressOne(db, root, res, current, refs, cid);
      if cid in refs {
        r := TraversalFrom(db, root, res, current - {cid}, refs);
      } else if cid in db {
        var rest := current - {cid} + LinkSet(db[cid].links);
        r := TraversalFrom(db, root, res + [(cid, db[cid].data)], rest, refs + {cid});
      } else {
        r := Err(SomeCidsMissing(root));
      }
    }
  }

  lemma TraversalExists(db: Graph, root: Cid) returns (r: Result<Walk, WalkError>)
    ensures IsTraversal(db, root, r)
  {
    ReachableRefl(db, root);
    r := TraversalFrom(db, root, [], {root}, {});
  }

  // ---- the two walks against each other ----

  /** All pick orders succeed together, with the same set of entries. */
  lemma TraversalsAgree(db: Graph, root: Cid, a: Result<Walk, WalkError>, b: Result<Walk, WalkError>)
    requires IsTraversal(db, root, a) && IsTraversal(db, root, b)
    ensures a.Ok? <==> b.Ok?
    ensures a.Ok? ==> |a.value| == |b.value|
    ensures a.Ok? ==> forall e :: e in a.value <==> e in b.value
  {
    if a.Ok? && b.Ok? {
      EntriesCovered(db, root, a.value, b.value);
      EntriesCovered(db, root, b.value, a.value);
      DistinctSize(a.value);
      DistinctSize(b.value);
      assert (set e | e in a.value) == (set e | e in b.value);
    }
  }

  lemma EntriesCovered(db: Graph, root: Cid, a: Walk, b: Walk)
    requires ListsDag(db, root, a) && ListsDag(db, root, b)
    ensures forall e :: e in a ==> e in b
  {
    forall e | e in a
      ensures e in b
    {
      var i :| 0 <= i < |a| && a[i] == e;
      assert Reachable(db, root, e.0);
      var j :| 0 <= j < |b| && b[j].0 == e.0;
      assert b[j] == e;
    }
  }

  lemma {:induction false} DistinctSize(walk: Walk)
    requires forall i, j :: 0 <= i < j < |walk| ==> walk[i].0 != walk[j].0
    ensures |set e | e in walk| == |walk|
  {
    if walk != [] {
      var n := |walk| - 1;
      DistinctSize(walk[..n]);
      assert (set e | e in walk) == (set e | e in walk[..n]) + {walk[n]};
    }
  }

  /** The walk without a visited set finds nothing exactly when the one with it
      succeeds, and otherwise names exactly what stopped the other one. */
  lemma WalksAgree(db: Graph, root: Cid, missing: seq<Cid>, r: Result<Walk, WalkError>)
    requires CountsPaths(db, root, missing) && IsTraversal(db, root, r)
    ensures missing == [] <==> r.Ok?
    ensures forall x :: x in missing <==> x !in db && Reachable(db, root, x)
  {
    forall x
      ensures x in missing <==> x !in db && Reachable(db, root, x)
    {
      CountsPathsCoversAbsent(db, root, missing, x);
    }
    if missing != [] {
      assert missing[0] in missing;
    }
  }

  // ---- a store that grows ----

  /** A listing of a DAG stays one in a larger store that reaches the same. */
  lemma ListingTransfers(small: Graph, big: Graph, root: Cid, walk: Walk)
    requires Extends(small, big) && ListsDag(small, root, walk)
    requires forall x :: Reachable(small, root, x) <==> Reachable(big, root, x)
    ensures ListsDag(big, root, walk)
  {
    assert LinkedInOrder(big, walk) by {
      forall i | 0 < i < |walk|
        ensures LinkedFromEarlier(big, walk, i)
      {
        assert LinkedFromEarlier(small, walk, i);
      }
    }
  }

  /** What is complete below a root does not change when the store grows. */
  lemma CompleteStays(small: Graph, big: Graph, root: Cid)
    requires Extends(small, big) && Complete(small, root)
    ensures Complete(big, root)
    ensures forall x :: Reachable(small, root, x) <==> Reachable(big, root, x)
  {
    forall x
      ensures Reachable(small, root, x) <==> Reachable(big, root, x)
    {
      if Reachable(big, root, x) {
        var p :| Follow(big, root, p) == Some(x);
        PathsStay(small, big, root, p);
      } else if Reachable(small, root, x) {
        ReachableMonotone(small, big, root, x);
      }
    }
  }

  lemma {:induction false} PathsStay(small: Graph, big: Graph, c: Cid, path: seq<nat>)
    requires Extends(small, big) && Complete(small, c)
    ensures Follow(small, c, path) == Follow(big, c, path)
    decreases path
  {
    ReachableRefl(small, c);
    if path != [] && path[0] < |small[c].links| {
      var l := small[c].links[path[0]];
      ReachableLink(small, c, path[0]);
      forall x | Reachable(small, l, x)
        ensures x in small
      {
        ReachableTrans(small, c, l, x);
      }
      PathsStay(small, big, l, path[1..]);
    }
  }
}
