/** What the stack walk of `missing_blocks` computes, and when it ends. */
module MissingWalk {
  import opened Collections
  import opened Wrappers
  import opened Content
  import opened LinkGraph

  ghost predicate AllAcyclic(db: Graph, stack: seq<Cid>) {
    forall i :: 0 <= i < |stack| ==> AcyclicBelow(db, stack[i])
  }

  /** One more than the largest rank on the stack, 0 for the empty stack. */
  ghost function StackRank(db: Graph, stack: seq<Cid>): (r: nat)
    ensures forall i :: 0 <= i < |stack| ==> Rank(db, stack[i]) < r
    ensures stack != [] ==> exists i :: 0 <= i < |stack| && r == Rank(db, stack[i]) + 1
  {
    if stack == [] then 0
    else
      var n := |stack| - 1;
      var rest := StackRank(db, stack[..n]);
      assert forall i :: 0 <= i < n ==> stack[i] == stack[..n][i];
      if n > 0 && Rank(db, stack[n]) < rest then rest else Rank(db, stack[n]) + 1
  }

  lemma LinksDescend(db: Graph, stack: seq<Cid>)
    requires stack != [] && AllAcyclic(db, stack) && stack[|stack| - 1] in db
    ensures AllAcyclic(db, db[stack[|stack| - 1]].links)
    ensures StackRank(db, db[stack[|stack| - 1]].links) < StackRank(db, stack)
  {
    var c := stack[|stack| - 1];
    var links := db[c].links;
    forall i | 0 <= i < |links|
      ensures AcyclicBelow(db, links[i]) && Rank(db, links[i]) < Rank(db, c)
    {
      LinkDescends(db, c, i);
    }
  }

  /** The absent identifiers in the order in which a walk pops them off the stack. */
  ghost function Missing(db: Graph, stack: seq<Cid>): seq<Cid>
    requires AllAcyclic(db, stack)
    decreases StackRank(db, stack), |stack|
  {
    if stack == [] then []
    else
      var c := stack[|stack| - 1];
      var rest := stack[..|stack| - 1];
      if c in db then LinksDescend(db, stack); Missing(db, db[c].links) + Missing(db, rest)
      else [c] + Missing(db, rest)
  }

  /** The number of pops it takes to empty the stack: the size of the unfolded trees. */
  ghost function Pops(db: Graph, stack: seq<Cid>): nat
    requires AllAcyclic(db, stack)
    decreases StackRank(db, stack), |stack|
  {
    if stack == [] then 0
    else
      var c := stack[|stack| - 1];
      var rest := stack[..|stack| - 1];
      1 + Pops(db, rest) + if c in db then LinksDescend(db, stack); Pops(db, db[c].links) else 0
  }

  /** What popping the top of the stack contributes. */
  ghost function TopMissing(db: Graph, stack: seq<Cid>): seq<Cid>
    requires stack != [] && AllAcyclic(db, stack)
  {
    var c := stack[|stack| - 1];
    if c in db then LinksDescend(db, stack); Missing(db, db[c].links) else [c]
  }

  ghost function TopPops(db: Graph, stack: seq<Cid>): nat
    requires stack != [] && AllAcyclic(db, stack)
  {
    var c := stack[|stack| - 1];
    1 + if c in db then LinksDescend(db, stack); Pops(db, db[c].links) else 0
  }

  lemma TopFirst(db: Graph, stack: seq<Cid>, rest: seq<Cid>)
    requires stack != [] && AllAcyclic(db, stack) && rest == stack[..|stack| - 1]
    ensures AllAcyclic(db, rest)
    ensures Missing(db, stack) == TopMissing(db, stack) + Missing(db, rest)
    ensures Pops(db, stack) == TopPops(db, stack) + Pops(db, rest)
  {
  }

  lemma {:induction false} MissingConcat(db: Graph, low: seq<Cid>, high: seq<Cid>)
    requires AllAcyclic(db, low) && AllAcyclic(db, high)
    ensures AllAcyclic(db, low + high)
    ensures Missing(db, low + high) == Missing(db, high) + Missing(db, low)
    ensures Pops(db, low + high) == Pops(db, high) + Pops(db, low)
    decreases |high|
  {
    if high == [] {
      assert low + high == low;
    } else {
      var rest := high[..|high| - 1];
      var all := low + high;
      assert all[|all| - 1] == high[|high| - 1] && all[..|all| - 1] == low + rest;
      MissingConcat(db, low, rest);
      TopFirst(db, all, low + rest);
      TopFirst(db, high, rest);
      Regroup(TopMissing(db, high), Missing(db, rest), Missing(db, low));
    }
  }

  // ---- the result counts link paths ----

  /** f is the set of all link paths from c to x through stored blocks. */
  ghost predicate IsPathSet(db: Graph, c: Cid, x: Cid, f: set<seq<nat>>) {
    forall p :: p in f <==> Follow(db, c, p) == Some(x)
  }

  ghost function PrependAll(n: nat, paths: set<seq<nat>>): set<seq<nat>> {
    set p | p in paths :: [n] + p
  }

  lemma {:induction false} PrependAllSize(n: nat, paths: set<seq<nat>>)
    ensures |PrependAll(n, paths)| == |paths|
    decreases |paths|
  {
    if paths == {} {
      assert PrependAll(n, paths) == {};
    } else {
      var p :| p in paths;
      PrependAllSize(n, paths - {p});
      forall q | q in paths - {p}
        ensures [n] + q != [n] + p
      {
        assert ([n] + q)[1..] == q && ([n] + p)[1..] == p;
      }
      assert PrependAll(n, paths) == PrependAll(n, paths - {p}) + {[n] + p};
    }
  }

  /** The paths to an absent x from any stack element, each headed by the
      position of that element. */
  ghost function StackPaths(db: Graph, stack: seq<Cid>, x: Cid): set<seq<nat>>
    requires AllAcyclic(db, stack)
    decreases StackRank(db, stack), |stack|
  {
    if stack == [] then {}
    else
      var n := |stack| - 1;
      var c := stack[n];
      var own := if c in db then LinksDescend(db, stack); StackPaths(db, db[c].links, x)
                 else if c == x then {[]} else {};
      StackPaths(db, stack[..n], x) + PrependAll(n, own)
  }

  lemma InPrependAll(n: nat, paths: set<seq<nat>>, p: seq<nat>)
    ensures p in PrependAll(n, paths) <==> p != [] && p[0] == n && p[1..] in paths
  {
    if p != [] && p[0] == n {
      assert p == [n] + p[1..];
    }
    forall q | [n] + q == p
      ensures p[1..] == q
    {
      assert ([n] + q)[1..] == q;
    }
  }

  lemma {:induction false} StackPathsExact(db: Graph, stack: seq<Cid>, x: Cid, p: seq<nat>)
    requires AllAcyclic(db, stack) && x !in db
    ensures p in StackPaths(db, stack, x) <==>
              p != [] && p[0] < |stack| && Follow(db, stack[p[0]], p[1..]) == Some(x)
    decreases StackRank(db, stack), |stack|
  {
    if stack != [] {
      var n := |stack| - 1;
      var c := stack[n];
      StackPathsExact(db, stack[..n], x, p);
      if c in db {
        LinksDescend(db, stack);
        InPrependAll(n, StackPaths(db, db[c].links, x), p);
        if p != [] {
          StackPathsExact(db, db[c].links, x, p[1..]);
        }
      } else {
        InPrependAll(n, if c == x then {[]} else {}, p);
      }
    }
  }

  lemma {:induction false} MissingCountsPaths(db: Graph, stack: seq<Cid>, x: Cid)
    requires AllAcyclic(db, stack) && x !in db
    ensures multiset(Missing(db, stack))[x] == |StackPaths(db, stack, x)|
    decreases StackRank(db, stack), |stack|
  {
    if stack != [] {
      var n := |stack| - 1;
      var c := stack[n];
      var low := StackPaths(db, stack[..n], x);
      MissingCountsPaths(db, stack[..n], x);
      if c in db {
        LinksDescend(db, stack);
        MissingCountsPaths(db, db[c].links, x);
      }
      var own := if c in db then StackPaths(db, db[c].links, x) else if c == x then {[]} else {};
      PrependAllSize(n, own);
      forall p | p in low
        ensures p !in PrependAll(n, own)
      {
        StackPathsExact(db, stack[..n], x, p);
      }
      assert |low + PrependAll(n, own)| == |low| + |PrependAll(n, own)|;
    }
  }

  lemma {:induction false} MissingAreAbsent(db: Graph, stack: seq<Cid>)
    requires AllAcyclic(db, stack)
    ensures forall x :: x in Missing(db, stack) ==> x !in db
    decreases StackRank(db, stack), |stack|
  {
    if stack != [] {
      MissingAreAbsent(db, stack[..|stack| - 1]);
      if stack[|stack| - 1] in db {
        LinksDescend(db, stack);
        MissingAreAbsent(db, db[stack[|stack| - 1]].links);
      }
    }
  }

  /** m is what `missing_blocks` owes its caller: only absent identifiers, each
      as often as there are link paths to it from the root. */
  ghost predicate CountsPaths(db: Graph, root: Cid, m: seq<Cid>) {
    && (forall x :: x in m ==> x !in db)
    && (forall x :: x !in db ==> exists f :: IsPathSet(db, root, x, f) && multiset(m)[x] == |f|)
  }

  /** The paths from the only stack element, without their heading position. */
  lemma RootPaths(db: Graph, root: Cid, x: Cid) returns (f: set<seq<nat>>)
    requires AcyclicBelow(db, root) && x !in db
    ensures IsPathSet(db, root, x, f)
    ensures StackPaths(db, [root], x) == PrependAll(0, f)
  {
    var headed := StackPaths(db, [root], x);
    f := set p | p in headed && p != [] :: p[1..];
    forall q
      ensures q in headed <==> q != [] && q[0] == 0 && Follow(db, root, q[1..]) == Some(x)
    {
      StackPathsExact(db, [root], x, q);
    }
    forall p
      ensures p in f <==> Follow(db, root, p) == Some(x)
    {
      assert ([0] + p)[1..] == p;
      assert Follow(db, root, p) == Some(x) ==> [0] + p in headed;
    }
    forall q
      ensures q in headed <==> q in PrependAll(0, f)
    {
      if q in headed {
        assert q == [0] + q[1..];
      }
      forall p | p in f && q == [0] + p
        ensures q in headed
      {
        assert q[1..] == p;
      }
    }
  }

  lemma MissingFromRoot(db: Graph, root: Cid)
    requires AcyclicBelow(db, root)
    ensures CountsPaths(db, root, Missing(db, [root]))
  {
    MissingAreAbsent(db, [root]);
    forall x | x !in db
      ensures exists f :: IsPathSet(db, root, x, f) && multiset(Missing(db, [root]))[x] == |f|
    {
      MissingCountsPaths(db, [root], x);
      var f := RootPaths(db, root, x);
      PrependAllSize(0, f);
    }
  }

  /** As a set, the result is the absent part of what the root reaches. */
  lemma CountsPathsCoversAbsent(db: Graph, root: Cid, m: seq<Cid>, x: Cid)
    requires CountsPaths(db, root, m)
    ensures x in m <==> x !in db && Reachable(db, root, x)
  {
    if x !in db {
      var f :| IsPathSet(db, root, x, f) && multiset(m)[x] == |f|;
      if x in m {
        assert f != {};
        var p :| p in f;
        assert Follow(db, root, p) == Some(x);
      }
      if Reachable(db, root, x) {
        var p :| Follow(db, root, p) == Some(x);
        assert p in f;
        assert |f| > 0;
      }
    }
  }

  // ---- the order of the result ----

  /** At the first position where the two paths differ, p takes the later link. */
  ghost predicate Precedes(p: seq<nat>, q: seq<nat>)
    decreases p
  {
    p != [] && q != [] && (p[0] > q[0] || (p[0] == q[0] && Precedes(p[1..], q[1..])))
  }

  ghost function PrependEach(n: nat, paths: seq<seq<nat>>): (r: seq<seq<nat>>)
    ensures |r| == |paths| && forall i :: 0 <= i < |paths| ==> r[i] != [] && r[i][0] == n && r[i][1..] == paths[i]
  {
    seq(|paths|, i requires 0 <= i < |paths| => [n] + paths[i])
  }

  /** The paths that the walk takes to the absent identifiers, one after another,
      each headed by the position of the stack element that it starts from. */
  ghost function MissingPaths(db: Graph, stack: seq<Cid>): seq<seq<nat>>
    requires AllAcyclic(db, stack)
    decreases StackRank(db, stack), |stack|
  {
    if stack == [] then []
    else
      var n := |stack| - 1;
      var c := stack[n];
      var own := if c in db then LinksDescend(db, stack); MissingPaths(db, db[c].links) else [[]];
      PrependEach(n, own) + MissingPaths(db, stack[..n])
  }

  /** The path leads from the stack to x. */
  ghost predicate LeadsTo(db: Graph, stack: seq<Cid>, p: seq<nat>, x: Cid) {
    p != [] && p[0] < |stack| && Follow(db, stack[p[0]], p[1..]) == Some(x)
  }

  ghost predicate EachLeadsTo(db: Graph, stack: seq<Cid>, paths: seq<seq<nat>>, ends: seq<Cid>) {
    |paths| == |ends| && forall i :: 0 <= i < |paths| ==> LeadsTo(db, stack, paths[i], ends[i])
  }

  ghost predicate InWalkOrder(paths: seq<seq<nat>>) {
    forall i, j :: 0 <= i < j < |paths| ==> Precedes(paths[i], paths[j])
  }

  lemma OwnLead(db: Graph, stack: seq<Cid>, own: seq<seq<nat>>, ends: seq<Cid>)
    requires stack != [] && |own| == |ends|
    requires forall i :: 0 <= i < |own| ==> Follow(db, stack[|stack| - 1], own[i]) == Some(ends[i])
    ensures EachLeadsTo(db, stack, PrependEach(|stack| - 1, own), ends)
  {
  }

  /** The paths out of the block on top of the stack, and those from further down. */
  lemma LinksLead(db: Graph, stack: seq<Cid>, own: seq<seq<nat>>, ends: seq<Cid>)
    requires stack != [] && stack[|stack| - 1] in db && EachLeadsTo(db, db[stack[|stack| - 1]].links, own, ends)
    ensures EachLeadsTo(db, stack, PrependEach(|stack| - 1, own), ends)
  {
    forall i | 0 <= i < |own|
      ensures Follow(db, stack[|stack| - 1], own[i]) == Some(ends[i])
    {
      assert LeadsTo(db, db[stack[|stack| - 1]].links, own[i], ends[i]);
    }
    OwnLead(db, stack, own, ends);
  }

  lemma AllLead(
    db: Graph, stack: seq<Cid>, high: seq<seq<nat>>, highEnds: seq<Cid>, low: seq<seq<nat>>, lowEnds: seq<Cid>)
    requires stack != [] && EachLeadsTo(db, stack, high, highEnds)
    requires EachLeadsTo(db, stack[..|stack| - 1], low, lowEnds)
    ensures EachLeadsTo(db, stack, high + low, highEnds + lowEnds)
  {
    forall i | 0 <= i < |low|
      ensures LeadsTo(db, stack, low[i], lowEnds[i])
    {
      assert LeadsTo(db, stack[..|stack| - 1], low[i], lowEnds[i]);
    }
  }

  lemma {:induction false} MissingPathsLead(db: Graph, stack: seq<Cid>)
    requires AllAcyclic(db, stack)
    ensures EachLeadsTo(db, stack, MissingPaths(db, stack), Missing(db, stack))
    decreases StackRank(db, stack), |stack|
  {
    if stack != [] {
      var n := |stack| - 1;
      var c := stack[n];
      var own, ends := [[]], [c];
      MissingPathsLead(db, stack[..n]);
      if c in db {
        LinksDescend(db, stack);
        MissingPathsLead(db, db[c].links);
        own, ends := MissingPaths(db, db[c].links), Missing(db, db[c].links);
        LinksLead(db, stack, own, ends);
      } else {
        OwnLead(db, stack, own, ends);
      }
      AllLead(db, stack, PrependEach(n, own), ends, MissingPaths(db, stack[..n]), Missing(db, stack[..n]));
    }
  }

  /** Paths from a later stack element come before those from an earlier one. */
  lemma OrderedOnTop(n: nat, own: seq<seq<nat>>, low: seq<seq<nat>>)
    requires InWalkOrder(own) && InWalkOrder(low)
    requires forall i :: 0 <= i < |low| ==> low[i] != [] && low[i][0] < n
    ensures InWalkOrder(PrependEach(n, own) + low)
  {
    var high := PrependEach(n, own);
    var all := high + low;
    forall i, j | 0 <= i < j < |all|
      ensures Precedes(all[i], all[j])
    {
      if j < |high| {
        assert Precedes(own[i], own[j]);
      } else if i >= |high| {
        assert Precedes(low[i - |high|], low[j - |high|]);
      } else {
        assert all[j] == low[j - |high|];
      }
    }
  }

  lemma {:induction false} MissingPathsOrdered(db: Graph, stack: seq<Cid>)
    requires AllAcyclic(db, stack)
    ensures InWalkOrder(MissingPaths(db, stack))
    decreases StackRank(db, stack), |stack|
  {
    if stack != [] {
      var n := |stack| - 1;
      var c := stack[n];
      var low := MissingPaths(db, stack[..n]);
      MissingPathsOrdered(db, stack[..n]);
      MissingPathsLead(db, stack[..n]);
      assert forall i :: 0 <= i < |low| ==> LeadsTo(db, stack[..n], low[i], Missing(db, stack[..n])[i]);
      if c in db {
        LinksDescend(db, stack);
        MissingPathsOrdered(db, db[c].links);
        OrderedOnTop(n, MissingPaths(db, db[c].links), low);
      } else {
        OrderedOnTop(n, [[]], low);
      }
    }
  }

  lemma InPrependEach(n: nat, paths: seq<seq<nat>>, p: seq<nat>)
    requires p != [] && p[0] == n && p[1..] in paths
    ensures p in PrependEach(n, paths)
  {
    var i :| 0 <= i < |paths| && paths[i] == p[1..];
    assert p == [n] + p[1..] && PrependEach(n, paths)[i] == [n] + paths[i];
  }

  lemma {:induction false} MissingPathsAll(db: Graph, stack: seq<Cid>, p: seq<nat>, x: Cid)
    requires AllAcyclic(db, stack) && x !in db && LeadsTo(db, stack, p, x)
    ensures p in MissingPaths(db, stack)
    decreases StackRank(db, stack), |stack|
  {
    var n := |stack| - 1;
    var c := stack[n];
    if p[0] < n {
      MissingPathsAll(db, stack[..n], p, x);
    } else if c in db {
      LinksDescend(db, stack);
      MissingPathsAll(db, db[c].links, p[1..], x);
      InPrependEach(n, MissingPaths(db, db[c].links), p);
    } else {
      InPrependEach(n, [[]], p);
    }
  }

  /** These are all link paths from the root to absent identifiers, later links
      first, and the identifiers they lead to. */
  ghost predicate ListsMissingPaths(db: Graph, root: Cid, missing: seq<Cid>, paths: seq<seq<nat>>) {
    && |paths| == |missing| && InWalkOrder(paths)
    && (forall i :: 0 <= i < |paths| ==> missing[i] !in db && Follow(db, root, paths[i]) == Some(missing[i]))
    && (forall p, x :: x !in db && Follow(db, root, p) == Some(x) ==> p in paths)
  }

  /** Paths from the only stack element, without their heading position. */
  lemma Unheaded(db: Graph, root: Cid, headed: seq<seq<nat>>, ends: seq<Cid>) returns (paths: seq<seq<nat>>)
    requires EachLeadsTo(db, [root], headed, ends) && InWalkOrder(headed)
    ensures |paths| == |headed| && InWalkOrder(paths)
    ensures forall i :: 0 <= i < |paths| ==> headed[i] == [0] + paths[i] && Follow(db, root, paths[i]) == Some(ends[i])
  {
    paths := seq(|headed|, i requires 0 <= i < |headed| => if headed[i] == [] then [] else headed[i][1..]);
    forall i | 0 <= i < |paths|
      ensures headed[i] == [0] + paths[i] && Follow(db, root, paths[i]) == Some(ends[i])
    {
      assert LeadsTo(db, [root], headed[i], ends[i]);
    }
    forall i, j | 0 <= i < j < |paths|
      ensures Precedes(paths[i], paths[j])
    {
      assert Precedes(headed[i], headed[j]);
    }
  }

  /** The result of the walk lists the ends of all link paths to absent identifiers:
      depth first, and from the last link of a block to its first. */
  lemma MissingInWalkOrder(db: Graph, root: Cid) returns (paths: seq<seq<nat>>)
    requires AcyclicBelow(db, root)
    ensures ListsMissingPaths(db, root, Missing(db, [root]), paths)
  {
    var headed, missing := MissingPaths(db, [root]), Missing(db, [root]);
    MissingPathsLead(db, [root]);
    MissingPathsOrdered(db, [root]);
    MissingAreAbsent(db, [root]);
    paths := Unheaded(db, root, headed, missing);
    assert forall i :: 0 <= i < |missing| ==> missing[i] in missing;
    forall p, x | x !in db && Follow(db, root, p) == Some(x)
      ensures p in paths
    {
      HeadedAmong(db, root, headed, paths, p, x);
    }
  }

  lemma HeadedAmong(db: Graph, root: Cid, headed: seq<seq<nat>>, paths: seq<seq<nat>>, p: seq<nat>, x: Cid)
    requires AcyclicBelow(db, root) && headed == MissingPaths(db, [root]) && |paths| == |headed|
    requires forall i :: 0 <= i < |paths| ==> headed[i] == [0] + paths[i]
    requires x !in db && Follow(db, root, p) == Some(x)
    ensures p in paths
  {
    assert ([0] + p)[1..] == p;
    MissingPathsAll(db, [root], [0] + p, x);
    var i :| 0 <= i < |headed| && headed[i] == [0] + p;
    assert headed[i][1..] == p && ([0] + paths[i])[1..] == paths[i];
  }

  // ---- the walk ends exactly on acyclic graphs ----

  /** One turn of the loop: pop, then push the links of a stored block. */
  ghost function Turn(db: Graph, stack: seq<Cid>): seq<Cid>
    requires stack != []
  {
    var c := stack[|stack| - 1];
    stack[..|stack| - 1] + if c in db then db[c].links else []
  }

  /** The stack after n turns, or as soon as it is empty. */
  ghost function StackAfter(db: Graph, stack: seq<Cid>, n: nat): seq<Cid>
    decreases n
  {
    if n == 0 || stack == [] then stack else StackAfter(db, Turn(db, stack), n - 1)
  }

  lemma TurnSpendsOnePop(db: Graph, stack: seq<Cid>)
    requires stack != [] && AllAcyclic(db, stack)
    ensures AllAcyclic(db, Turn(db, stack))
    ensures Pops(db, Turn(db, stack)) == Pops(db, stack) - 1
    ensures Missing(db, stack) ==
              (if stack[|stack| - 1] in db then [] else [stack[|stack| - 1]]) + Missing(db, Turn(db, stack))
  {
    var c := stack[|stack| - 1];
    var rest := stack[..|stack| - 1];
    if c in db {
      LinksDescend(db, stack);
      MissingConcat(db, rest, db[c].links);
    } else {
      assert rest + [] == rest;
    }
  }

  lemma {:induction false} AcyclicWalkEnds(db: Graph, stack: seq<Cid>)
    requires AllAcyclic(db, stack)
    ensures StackAfter(db, stack, Pops(db, stack)) == []
    decreases Pops(db, stack)
  {
    if stack != [] {
      TurnSpendsOnePop(db, stack);
      AcyclicWalkEnds(db, Turn(db, stack));
    }
  }

  lemma {:induction false} CyclicWalkGoesOn(db: Graph, stack: seq<Cid>, i: nat, n: nat)
    requires i < |stack| && !AcyclicBelow(db, stack[i])
    ensures StackAfter(db, stack, n) != []
    decreases n
  {
    if n > 0 {
      var next := Turn(db, stack);
      if i < |stack| - 1 {
        assert next[i] == stack[i];
        CyclicWalkGoesOn(db, next, i, n - 1);
      } else {
        var k := CyclicHasCyclicLink(db, stack[i]);
        assert next[i + k] == db[stack[i]].links[k];
        CyclicWalkGoesOn(db, next, i + k, n - 1);
      }
    }
  }

  /** The walk from a root ends if and only if no stored cycle lies below it. */
  lemma WalkEndsIffAcyclic(db: Graph, root: Cid)
    ensures (exists n :: StackAfter(db, [root], n) == []) <==> AcyclicBelow(db, root)
  {
    if AcyclicBelow(db, root) {
      AcyclicWalkEnds(db, [root]);
    } else {
      forall n: nat
        ensures StackAfter(db, [root], n) != []
      {
        CyclicWalkGoesOn(db, [root], 0, n);
      }
    }
  }
}
