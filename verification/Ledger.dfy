/** Accounting for a list of items that are dealt with in order: each is matched
    by an entry, the newest entry first, or still queued. */
module Ledger {
  import opened Chunking
  import opened Collections

  /** The first items, in order, are those of the entries, oldest first. */
  ghost predicate Matched<A, B>(rel: (A, B) -> bool, items: seq<A>, entries: seq<B>) {
    |entries| <= |items| && forall i :: 0 <= i < |entries| ==> rel(items[i], entries[|entries| - 1 - i])
  }

  /** Those behind them are the queue. */
  ghost predicate AddsUp<A, B>(rel: (A, B) -> bool, items: seq<A>, entries: seq<B>, queue: seq<A>) {
    Matched(rel, items, entries) && queue == items[|entries|..]
  }

  /** Those behind them are this one, which is in neither list, and the queue. */
  ghost predicate AddsUpWithout<A, B>(
    rel: (A, B) -> bool, items: seq<A>, entries: seq<B>, queue: seq<A>, lost: A)
  {
    && Matched(rel, items, entries) && |entries| < |items|
    && items[|entries|] == lost && queue == items[|entries| + 1..]
  }

  lemma MatchedOne<A, B>(
    rel: (A, B) -> bool, items: seq<A>, entries: seq<B>, x: B)
    requires Matched(rel, items, entries) && |entries| < |items| && rel(items[|entries|], x)
    ensures Matched(rel, items, [x] + entries)
  {
    var longer := [x] + entries;
    var m := |entries|;
    forall i | 0 <= i < m + 1
      ensures rel(items[i], longer[m - i])
    {
      if i < m {
        assert longer[m - i] == entries[m - 1 - i];
      }
    }
  }

  /** Entries for the next items, oldest first, are put in front one after another. */
  lemma {:induction false} MoreMatched<A, B>(
    rel: (A, B) -> bool, items: seq<A>, entries: seq<B>, more: seq<B>)
    requires Matched(rel, items, entries) && |entries| + |more| <= |items|
    requires forall i :: 0 <= i < |more| ==> rel(items[|entries| + i], more[i])
    ensures Matched(rel, items, Reverse(more) + entries)
    decreases more
  {
    if more == [] {
      assert [] + entries == entries;
    } else {
      var k := |more| - 1;
      MoreMatched(rel, items, entries, more[..k]);
      MatchedOne(rel, items, Reverse(more[..k]) + entries, more[k]);
      Regroup([more[k]], Reverse(more[..k]), entries);
    }
  }

  /** The next items have entries, oldest first. */
  ghost predicate Follows<A, B>(rel: (A, B) -> bool, queue: seq<A>, more: seq<B>) {
    |more| <= |queue| && forall i :: 0 <= i < |more| ==> rel(queue[i], more[i])
  }

  lemma QueueMatched<A, B>(
    rel: (A, B) -> bool, items: seq<A>, entries: seq<B>, queue: seq<A>, more: seq<B>)
    requires AddsUp(rel, items, entries, queue) && Follows(rel, queue, more)
    ensures Matched(rel, items, Reverse(more) + entries)
  {
    forall i | 0 <= i < |more|
      ensures rel(items[|entries| + i], more[i])
    {
      assert queue[i] == items[|entries| + i];
    }
    MoreMatched(rel, items, entries, more);
  }

  lemma DropTwice<A>(items: seq<A>, m: nat, k: nat, queue: seq<A>)
    requires m <= |items| && queue == items[m..] && k <= |queue|
    ensures queue[k..] == items[m + k..]
    ensures k < |queue| ==> queue[k] == items[m + k]
  {
  }

  lemma RestAddsUp<A, B>(rel: (A, B) -> bool, items: seq<A>, entries: seq<B>, m: nat)
    requires Matched(rel, items, entries) && m == |entries|
    ensures AddsUp(rel, items, entries, items[m..])
    ensures m < |items| ==> AddsUpWithout(rel, items, entries, items[m + 1..], items[m])
  {
  }

  /** Entries for the first of the queue account for them. */
  lemma EntriesAddUp<A, B>(
    rel: (A, B) -> bool, items: seq<A>, entries: seq<B>, queue: seq<A>, more: seq<B>)
    requires AddsUp(rel, items, entries, queue) && Follows(rel, queue, more)
    ensures AddsUp(rel, items, Reverse(more) + entries, queue[|more|..])
  {
    QueueMatched(rel, items, entries, queue, more);
    RestAddsUp(rel, items, Reverse(more) + entries, |entries| + |more|);
    DropTwice(items, |entries|, |more|, queue);
  }

  /** If the item behind them is dropped from the queue, it alone is missing. */
  lemma DroppedIsLost<A, B>(
    rel: (A, B) -> bool, items: seq<A>, entries: seq<B>, queue: seq<A>, more: seq<B>)
    requires AddsUp(rel, items, entries, queue) && Follows(rel, queue, more) && |more| < |queue|
    ensures AddsUpWithout(rel, items, Reverse(more) + entries, queue[|more| + 1..], queue[|more|])
  {
    QueueMatched(rel, items, entries, queue, more);
    RestAddsUp(rel, items, Reverse(more) + entries, |entries| + |more|);
    DropTwice(items, |entries|, |more|, queue);
    DropTwice(items, |entries|, |more| + 1, queue);
  }

  /** Items may join the end of the queue, and the relation may come to hold of more. */
  lemma StillAddsUp<A, B>(
    rel: (A, B) -> bool, wider: (A, B) -> bool, items: seq<A>, entries: seq<B>, queue: seq<A>, more: seq<A>)
    requires AddsUp(rel, items, entries, queue)
    requires forall i, j :: 0 <= i < |items| && 0 <= j < |entries| && rel(items[i], entries[j]) ==>
               wider(items[i], entries[j])
    ensures AddsUp(wider, items + more, entries, queue + more)
  {
    var m := |entries|;
    assert (items + more)[m..] == items[m..] + more;
    forall i | 0 <= i < m
      ensures wider((items + more)[i], entries[m - 1 - i])
    {
      assert rel(items[i], entries[m - 1 - i]);
    }
  }
}
