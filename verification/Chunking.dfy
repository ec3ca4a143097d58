/** Splitting a list into chunks, and reading a chain of chunks back. */
module Chunking {
  import opened Collections
  /** The slice iterator `chunks`: pieces of max elements, and a last one with the rest. */
  function Chunks<T>(s: seq<T>, max: nat): seq<seq<T>>
    requires max > 0
  {
    if s == [] then []
    else if |s| <= max then [s]
    else [s[..max]] + Chunks(s[max..], max)
  }

  function Reverse<T>(s: seq<T>): (r: seq<T>)
    ensures |r| == |s|
  {
    if s == [] then [] else [s[|s| - 1]] + Reverse(s[..|s| - 1])
  }

  /** The chunks of a chain, concatenated from its far end. */
  function ReadBack<T>(chain: seq<seq<T>>): seq<T> {
    if chain == [] then [] else ReadBack(chain[1..]) + chain[0]
  }

  /** The elements of s and of the pieces of s come to the same, the number of
      pieces is |s| / max rounded up, no piece is empty, and only the last one
      may be short. */
  ghost predicate IsChunking<T>(s: seq<T>, max: nat, parts: seq<seq<T>>) {
    && Flatten(parts) == s
    && (s == [] <==> parts == [])
    && (s != [] ==> (|parts| - 1) * max < |s| <= |parts| * max)
    && (forall i :: 0 <= i < |parts| ==> 0 < |parts[i]| <= max)
    && (forall i :: 0 <= i < |parts| - 1 ==> |parts[i]| == max)
  }

  /** One chunk more covers max elements more. */
  lemma OneChunkMore(n: nat, max: nat, k: nat)
    requires (k - 1) * max < n <= k * max
    ensures k * max < n + max <= (k + 1) * max
  {
    assert k * max == (k - 1) * max + max && (k + 1) * max == k * max + max;
  }

  lemma FullChunkFirst<T>(s: seq<T>, max: nat, others: seq<seq<T>>)
    requires 0 < max < |s| && IsChunking(s[max..], max, others)
    ensures IsChunking(s, max, [s[..max]] + others)
  {
    var parts := [s[..max]] + others;
    FlattenConcat([s[..max]], others);
    FlattenSingle(s[..max]);
    assert s == s[..max] + s[max..];
    OneChunkMore(|s[max..]|, max, |others|);
  }

  lemma {:induction false} ChunksAreChunking<T>(s: seq<T>, max: nat)
    requires max > 0
    ensures IsChunking(s, max, Chunks(s, max))
    decreases |s|
  {
    if 0 < |s| <= max {
      FlattenSingle(s);
    } else if s != [] {
      ChunksAreChunking(s[max..], max);
      FullChunkFirst(s, max, Chunks(s[max..], max));
    }
  }

  lemma {:induction false} ReadBackReverse<T>(parts: seq<seq<T>>)
    ensures ReadBack(Reverse(parts)) == Flatten(parts)
    decreases parts
  {
    if parts != [] {
      ReadBackReverse(parts[..|parts| - 1]);
      assert Reverse(parts)[1..] == Reverse(parts[..|parts| - 1]);
    }
  }

  lemma {:induction false} ReverseConcat<T>(a: seq<T>, b: seq<T>)
    ensures Reverse(a + b) == Reverse(b) + Reverse(a)
    decreases b
  {
    if b == [] {
      assert a + b == a;
    } else {
      assert (a + b)[..|a + b| - 1] == a + b[..|b| - 1];
      ReverseConcat(a, b[..|b| - 1]);
    }
  }

  lemma {:induction false} ReverseTwice<T>(s: seq<T>)
    ensures Reverse(Reverse(s)) == s
    decreases s
  {
    if s != [] {
      ReverseTwice(s[..|s| - 1]);
      ReverseConcat([s[|s| - 1]], Reverse(s[..|s| - 1]));
      assert Reverse([s[|s| - 1]]) == [s[|s| - 1]] + Reverse([]);
    }
  }
}
