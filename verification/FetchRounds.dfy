/** Repeated syncing: ask for the missing blocks, insert them, ask again. */
module FetchRounds {
  import opened Collections
  import opened Wrappers
  import opened Content
  import opened LinkGraph
  import opened MissingWalk
  import St = Store

  /** The universe holds all that the root reaches, without a cycle, and the
      store holds a part of the universe. */
  ghost predicate Fetching(universe: Graph, db: Graph, root: Cid) {
    && Complete(universe, root)
    && AcyclicBelow(universe, root)
    && Extends(db, universe)
  }

  /** The store once every reported block has been inserted. */
  ghost function Inserted(universe: Graph, db: Graph, missing: seq<Cid>): Graph {
    map c | c in db.Keys + (set x | x in missing && x in universe) :: if c in db then db[c] else universe[c]
  }

  /** One round: everything the root reaches through stored blocks becomes stored. */
  ghost function Round(universe: Graph, db: Graph, root: Cid): Graph {
    map c | c in universe && (c in db || Reachable(db, root, c)) :: universe[c]
  }

  /** A round is what inserting any report of `missing_blocks` does. */
  lemma RoundIsReportInserted(universe: Graph, db: Graph, root: Cid, missing: seq<Cid>)
    requires Fetching(universe, db, root) && CountsPaths(db, root, missing)
    ensures Inserted(universe, db, missing) == Round(universe, db, root)
  {
    forall c
      ensures c in Inserted(universe, db, missing) <==> c in Round(universe, db, root)
    {
      CountsPathsCoversAbsent(db, root, missing, c);
    }
  }

  lemma RoundKeepsFetching(universe: Graph, db: Graph, root: Cid)
    requires Fetching(universe, db, root)
    ensures Fetching(universe, Round(universe, db, root), root)
    ensures Extends(db, Round(universe, db, root))
  {
  }

  ghost function Rounds(universe: Graph, db: Graph, root: Cid, n: nat): (final: Graph)
    requires Fetching(universe, db, root)
    ensures Fetching(universe, final, root)
  {
    if n == 0 then db else Round(universe, Rounds(universe, db, root, n - 1), root)
  }

  ghost function AbsentReachable(universe: Graph, db: Graph, root: Cid): set<Cid> {
    set x | x in universe && x !in db && Reachable(universe, root, x)
  }

  lemma RoundInserts(universe: Graph, db: Graph, root: Cid, x: Cid)
    requires Fetching(universe, db, root)
    requires Reachable(db, root, x)
    ensures x in Round(universe, db, root)
  {
    ReachableMonotone(db, universe, root, x);
  }

  /** A round that has anything to fetch strictly shrinks what is still absent. */
  lemma RoundShrinks(universe: Graph, db: Graph, root: Cid)
    requires Fetching(universe, db, root) && !Complete(db, root)
    ensures AbsentReachable(universe, Round(universe, db, root), root) < AbsentReachable(universe, db, root)
  {
    var x :| Reachable(db, root, x) && x !in db;
    RoundInserts(universe, db, root, x);
    ReachableMonotone(db, universe, root, x);
    assert x in AbsentReachable(universe, db, root);
    assert x !in AbsentReachable(universe, Round(universe, db, root), root);
  }

  /** Everything that fewer than k links lead to is stored. */
  ghost predicate StoredWithin(universe: Graph, db: Graph, root: Cid, k: nat) {
    forall p :: |p| < k && Follow(universe, root, p).Some? ==> Follow(universe, root, p).value in db
  }

  /** A path of the universe that leaves only stored blocks is a path of the store. */
  lemma {:induction false} PathThroughStored(universe: Graph, db: Graph, c: Cid, p: seq<nat>)
    requires Extends(db, universe)
    requires Follow(universe, c, p).Some? && StoredWithin(universe, db, c, |p|)
    ensures Follow(db, c, p) == Follow(universe, c, p)
    decreases p
  {
    if p != [] {
      assert Follow(universe, c, []) == Some(c);
      var l := universe[c].links[p[0]];
      forall q | |q| < |p| - 1 && Follow(universe, l, q).Some?
        ensures Follow(universe, l, q).value in db
      {
        var longer := [p[0]] + q;
        assert longer[1..] == q;
        assert Follow(universe, c, longer) == Follow(universe, l, q);
      }
      PathThroughStored(universe, db, l, p[1..]);
    }
  }

  lemma RoundReachesFurther(universe: Graph, db: Graph, root: Cid, k: nat)
    requires Fetching(universe, db, root) && StoredWithin(universe, db, root, k)
    ensures StoredWithin(universe, Round(universe, db, root), root, k + 1)
  {
    forall p | |p| < k + 1 && Follow(universe, root, p).Some?
      ensures Follow(universe, root, p).value in Round(universe, db, root)
    {
      PathThroughStored(universe, db, root, p);
      RoundInserts(universe, db, root, Follow(universe, root, p).value);
    }
  }

  lemma {:induction false} RoundsReach(universe: Graph, db: Graph, root: Cid, n: nat)
    requires Fetching(universe, db, root)
    ensures StoredWithin(universe, Rounds(universe, db, root, n), root, n)
  {
    if n > 0 {
      RoundsReach(universe, db, root, n - 1);
      RoundReachesFurther(universe, Rounds(universe, db, root, n - 1), root, n - 1);
    }
  }

  /** Every identifier below the root is at most d links away. */
  ghost predicate DepthAtMost(universe: Graph, root: Cid, d: nat) {
    forall x :: Reachable(universe, root, x) ==> exists p :: |p| <= d && Follow(universe, root, p) == Some(x)
  }

  /** A part of the universe that holds everything near enough reaches the same. */
  lemma NearIsAll(universe: Graph, db: Graph, root: Cid, d: nat)
    requires Extends(db, universe) && DepthAtMost(universe, root, d) && StoredWithin(universe, db, root, d + 1)
    ensures forall x :: Reachable(db, root, x) <==> Reachable(universe, root, x)
    ensures Complete(db, root)
  {
    forall x
      ensures Reachable(db, root, x) <==> Reachable(universe, root, x)
      ensures Reachable(universe, root, x) ==> x in db
    {
      if Reachable(universe, root, x) {
        var p :| |p| <= d && Follow(universe, root, p) == Some(x);
        PathThroughStored(universe, db, root, p);
      } else if Reachable(db, root, x) {
        ReachableMonotone(db, universe, root, x);
      }
    }
  }

  lemma NearTraversal(universe: Graph, db: Graph, root: Cid, d: nat, r: Result<St.Walk, St.WalkError>)
    requires Extends(db, universe) && DepthAtMost(universe, root, d) && StoredWithin(universe, db, root, d + 1)
    requires St.IsTraversal(db, root, r)
    ensures Complete(db, root)
    ensures r.Ok? && St.ListsDag(universe, root, r.value)
  {
    NearIsAll(universe, db, root, d);
    St.ListingTransfers(db, universe, root, r.value);
  }

  /** d + 1 rounds fetch a DAG of depth d, and then the traversal succeeds with
      exactly the universe below the root, whichever order it picks. */
  lemma RoundsFetchAll(universe: Graph, db: Graph, root: Cid, d: nat, final: Graph, r: Result<St.Walk, St.WalkError>)
    requires Fetching(universe, db, root) && DepthAtMost(universe, root, d)
    requires final == Rounds(universe, db, root, d + 1) && St.IsTraversal(final, root, r)
    ensures Complete(final, root)
    ensures r.Ok? && St.ListsDag(universe, root, r.value)
  {
    RoundsReach(universe, db, root, d + 1);
    NearTraversal(universe, final, root, d, r);
  }

  /** An acyclic universe has a depth: no path is longer than the rank of its start. */
  lemma {:induction false} PathsAreShort(universe: Graph, c: Cid, p: seq<nat>)
    requires AcyclicBelow(universe, c) && Follow(universe, c, p).Some?
    ensures |p| <= Rank(universe, c)
    decreases p
  {
    if p != [] {
      LinkDescends(universe, c, p[0]);
      PathsAreShort(universe, universe[c].links[p[0]], p[1..]);
    }
  }

  lemma DepthIsFinite(universe: Graph, root: Cid)
    requires AcyclicBelow(universe, root)
    ensures DepthAtMost(universe, root, Rank(universe, root))
  {
    forall x | Reachable(universe, root, x)
      ensures exists p :: |p| <= Rank(universe, root) && Follow(universe, root, p) == Some(x)
    {
      var p :| Follow(universe, root, p) == Some(x);
      PathsAreShort(universe, root, p);
    }
  }

  // ---- the rounds on the store itself ----

  /** Inserts every reported block, as it comes from the network. */
  method InsertAll(store: St.Store, network: Graph, missing: seq<Cid>)
    requires Extends(store.db, network)
    requires forall x :: x in missing ==> x in network
    modifies store
    ensures store.db == Inserted(network, old(store.db), missing)
  {
    ghost var before := store.db;
    for i := 0 to |missing|
      invariant store.db == Inserted(network, before, missing[..i])
    {
      store.Insert(missing[i], network[missing[i]]);
      assert missing[..i + 1] == missing[..i] + [missing[i]];
    }
    assert missing[..|missing|] == missing;
  }

  /** No more than depth + 1 rounds leave anything to fetch. */
  lemma UnfinishedIsEarly(network: Graph, db: Graph, root: Cid, rounds: nat, d: nat)
    requires Fetching(network, db, root) && DepthAtMost(network, root, d)
    requires !Complete(Rounds(network, db, root, rounds), root)
    ensures rounds < d + 1
  {
    if rounds >= d + 1 {
      var final := Rounds(network, db, root, rounds);
      RoundsReach(network, db, root, rounds);
      assert StoredWithin(network, final, root, d + 1);
      NearIsAll(network, final, root, d);
      assert false;
    }
  }

  /** One round on the store: the walk may be called on what is stored so far, and
      inserting its report makes the round. */
  method FetchRound(store: St.Store, network: Graph, root: Cid) returns (done: bool)
    requires Fetching(network, store.db, root)
    modifies store
    ensures Fetching(network, store.db, root)
    ensures done <==> Complete(old(store.db), root)
    ensures store.db == if done then old(store.db) else Round(network, old(store.db), root)
  {
    AcyclicAntitone(store.db, network, root);
    RoundKeepsFetching(network, store.db, root);
    var missing := store.MissingBlocks(root);
    ReportIsComplete(network, store.db, root, missing);
    done := missing == [];
    if !done {
      RoundIsReportInserted(network, store.db, root, missing);
      InsertAll(store, network, missing);
    }
  }

  lemma ReportIsComplete(network: Graph, db: Graph, root: Cid, missing: seq<Cid>)
    requires Fetching(network, db, root) && CountsPaths(db, root, missing)
    ensures missing == [] <==> Complete(db, root)
    ensures forall x :: x in missing ==> x in network
  {
    forall x
      ensures x in missing <==> x !in db && Reachable(db, root, x)
      ensures x in missing ==> x in network
    {
      CountsPathsCoversAbsent(db, root, missing, x);
      if x in missing {
        ReachableMonotone(db, network, root, x);
      }
    }
    if missing != [] {
      assert missing[0] in missing;
    }
  }

  /** So many rounds are no more than the depth, whatever bounds it, and one. */
  ghost predicate WithinDepth(network: Graph, root: Cid, rounds: nat) {
    forall d: nat :: DepthAtMost(network, root, d) ==> rounds <= d + 1
  }

  /** The store after some rounds, not more than the depth allows. */
  ghost predicate Fetched(network: Graph, before: Graph, root: Cid, rounds: nat, db: Graph) {
    && Fetching(network, before, root) && Fetching(network, db, root)
    && db == Rounds(network, before, root, rounds)
    && WithinDepth(network, root, rounds)
  }

  lemma FetchedOneMore(network: Graph, before: Graph, root: Cid, rounds: nat, db: Graph)
    requires Fetched(network, before, root, rounds, db) && !Complete(db, root)
    ensures Fetched(network, before, root, rounds + 1, Round(network, db, root))
    ensures rounds <= Rank(network, root)
  {
    forall d: nat | DepthAtMost(network, root, d)
      ensures rounds + 1 <= d + 1
    {
      UnfinishedIsEarly(network, before, root, rounds, d);
    }
    DepthIsFinite(network, root);
    RoundKeepsFetching(network, db, root);
  }

  /** Asking and inserting until nothing is missing: it ends, for every depth d of
      the DAG within d + 1 rounds, with the DAG complete in the store. */
  method FetchAll(store: St.Store, network: Graph, root: Cid) returns (rounds: nat)
    requires Fetching(network, store.db, root)
    modifies store
    ensures Fetched(network, old(store.db), root, rounds, store.db) && Complete(store.db, root)
  {
    rounds := 0;
    ghost var before, budget := store.db, Rank(network, root) + 1;
    var done := false;
    while !done
      invariant Fetched(network, before, root, rounds, store.db)
      invariant done ==> Complete(store.db, root)
      decreases budget - rounds, !done
    {
      ghost var current := store.db;
      done := FetchRound(store, network, root);
      if !done {
        FetchedOneMore(network, before, root, rounds, current);
        rounds := rounds + 1;
      }
    }
  }
}
