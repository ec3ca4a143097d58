/** Link paths, reachability and acyclicity of a block graph. */
module LinkGraph {
  import opened Collections
  import opened Wrappers
  import opened Content

  type Graph = map<Cid, Block>

  /** Follows a path given as positions in successive link lists, so that two
      equal links out of one block are two different paths. */
  ghost function Follow(db: Graph, c: Cid, path: seq<nat>): Option<Cid>
    decreases path
  {
    if path == [] then Some(c)
    else if c in db && path[0] < |db[c].links| then Follow(db, db[c].links[path[0]], path[1..])
    else None
  }

  /** x can be reached from c through stored blocks only (x itself may be absent). */
  ghost predicate Reachable(db: Graph, c: Cid, x: Cid) {
    exists path :: Follow(db, c, path) == Some(x)
  }

  /** Everything reachable from c is stored. */
  ghost predicate Complete(db: Graph, c: Cid) {
    forall x :: Reachable(db, c, x) ==> x in db
  }

  ghost predicate OnCycle(db: Graph, c: Cid) {
    exists path :: path != [] && Follow(db, c, path) == Some(c)
  }

  /** No stored cycle can be reached from c. */
  ghost predicate AcyclicBelow(db: Graph, c: Cid) {
    forall x :: Reachable(db, c, x) ==> !OnCycle(db, x)
  }

  lemma {:induction false} FollowConcat(db: Graph, c: Cid, p: seq<nat>, q: seq<nat>)
    requires Follow(db, c, p).Some?
    ensures Follow(db, c, p + q) == Follow(db, Follow(db, c, p).value, q)
    decreases p
  {
    if p == [] {
      assert p + q == q;
    } else {
      assert (p + q)[1..] == p[1..] + q;
      FollowConcat(db, db[c].links[p[0]], p[1..], q);
    }
  }

  lemma ReachableRefl(db: Graph, c: Cid)
    ensures Reachable(db, c, c)
  {
    assert Follow(db, c, []) == Some(c);
  }

  lemma ReachableTrans(db: Graph, a: Cid, b: Cid, c: Cid)
    requires Reachable(db, a, b) && Reachable(db, b, c)
    ensures Reachable(db, a, c)
  {
    var p :| Follow(db, a, p) == Some(b);
    var q :| Follow(db, b, q) == Some(c);
    FollowConcat(db, a, p, q);
  }

  lemma ReachableLink(db: Graph, c: Cid, i: nat)
    requires c in db && i < |db[c].links|
    ensures Reachable(db, c, db[c].links[i])
  {
    var p := [i];
    assert p[1..] == [];
    assert Follow(db, c, p) == Some(db[c].links[i]);
  }

  /** The first step of a non-trivial way from c to x. */
  lemma ReachableFirstLink(db: Graph, c: Cid, x: Cid) returns (i: nat)
    requires Reachable(db, c, x) && c != x
    ensures c in db && i < |db[c].links| && Reachable(db, db[c].links[i], x)
  {
    var p :| Follow(db, c, p) == Some(x);
    i := p[0];
    assert Follow(db, db[c].links[i], p[1..]) == Some(x);
  }

  /** A set that holds c and is closed under the links of its stored members
      holds everything reachable from c. */
  lemma {:induction false} ClosedCovers(db: Graph, closed: set<Cid>, c: Cid, path: seq<nat>)
    requires c in closed
    requires forall d, i :: d in closed && d in db && 0 <= i < |db[d].links| ==> db[d].links[i] in closed
    ensures Follow(db, c, path).Some? ==> Follow(db, c, path).value in closed
    decreases path
  {
    if path != [] && c in db && path[0] < |db[c].links| {
      ClosedCovers(db, closed, db[c].links[path[0]], path[1..]);
    }
  }

  lemma {:induction false} FollowMonotone(small: Graph, big: Graph, c: Cid, path: seq<nat>)
    requires Extends(small, big) && Follow(small, c, path).Some?
    ensures Follow(big, c, path) == Follow(small, c, path)
    decreases path
  {
    if path != [] {
      FollowMonotone(small, big, small[c].links[path[0]], path[1..]);
    }
  }

  lemma ReachableMonotone(small: Graph, big: Graph, c: Cid, x: Cid)
    requires Extends(small, big) && Reachable(small, c, x)
    ensures Reachable(big, c, x)
  {
    var p :| Follow(small, c, p) == Some(x);
    FollowMonotone(small, big, c, p);
  }

  lemma AcyclicAntitone(small: Graph, big: Graph, c: Cid)
    requires Extends(small, big) && AcyclicBelow(big, c)
    ensures AcyclicBelow(small, c)
  {
    forall x | Reachable(small, c, x)
      ensures !OnCycle(small, x)
    {
      ReachableMonotone(small, big, c, x);
      if OnCycle(small, x) {
        var p :| p != [] && Follow(small, x, p) == Some(x);
        FollowMonotone(small, big, x, p);
        assert OnCycle(big, x);
      }
    }
  }

  /** The number of stored blocks reachable from c: the rank that acyclicity
      makes decrease along every link. */
  ghost function Rank(db: Graph, c: Cid): nat {
    |set x | x in db && Reachable(db, c, x)|
  }

  lemma LinkBackMakesCycle(db: Graph, c: Cid, i: nat)
    requires c in db && i < |db[c].links| && Reachable(db, db[c].links[i], c)
    ensures OnCycle(db, c)
  {
    var p :| Follow(db, db[c].links[i], p) == Some(c);
    var q := [i] + p;
    assert q[1..] == p;
    assert Follow(db, c, q) == Some(c);
  }

  /** Each link of a block leads to an acyclic part of smaller rank. */
  lemma LinkDescends(db: Graph, c: Cid, i: nat)
    requires c in db && i < |db[c].links| && AcyclicBelow(db, c)
    ensures AcyclicBelow(db, db[c].links[i])
    ensures Rank(db, db[c].links[i]) < Rank(db, c)
  {
    var l := db[c].links[i];
    ReachableLink(db, c, i);
    forall x | Reachable(db, l, x)
      ensures Reachable(db, c, x)
    {
      ReachableTrans(db, c, l, x);
    }
    var below := set x | x in db && Reachable(db, l, x);
    var here := set x | x in db && Reachable(db, c, x);
    ReachableRefl(db, c);
    if Reachable(db, l, c) {
      LinkBackMakesCycle(db, c, i);
    }
    assert c in here && c !in below;
    assert below < here;
    SubsetSize(below, here);
  }

  /** A block below which a cycle lies is stored and has a link of that kind. */
  lemma CyclicHasCyclicLink(db: Graph, c: Cid) returns (i: nat)
    requires !AcyclicBelow(db, c)
    ensures c in db && i < |db[c].links| && !AcyclicBelow(db, db[c].links[i])
  {
    var x :| Reachable(db, c, x) && OnCycle(db, x);
    if x == c {
      var p :| p != [] && Follow(db, c, p) == Some(c);
      i := p[0];
      assert Follow(db, db[c].links[i], p[1..]) == Some(c);
    } else {
      i := ReachableFirstLink(db, c, x);
    }
  }
}
