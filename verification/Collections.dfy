/** Notions and facts about built-in collections that several modules share. */
module Collections {
  /** big has every entry of small. */
  ghost predicate Extends<K, V>(small: map<K, V>, big: map<K, V>) {
    forall k :: k in small ==> k in big && big[k] == small[k]
  }

  function Flatten<T>(parts: seq<seq<T>>): seq<T> {
    if parts == [] then [] else Flatten(parts[..|parts| - 1]) + parts[|parts| - 1]
  }

  lemma FlattenSingle<T>(part: seq<T>)
    ensures Flatten([part]) == part
  {
    assert [part][..0] == [];
    assert Flatten([part]) == [] + part;
  }

  lemma {:induction false} FlattenConcat<T>(a: seq<seq<T>>, b: seq<seq<T>>)
    ensures Flatten(a + b) == Flatten(a) + Flatten(b)
    decreases b
  {
    if b == [] {
      assert a + b == a;
    } else {
      assert (a + b)[..|a + b| - 1] == a + b[..|b| - 1];
      FlattenConcat(a, b[..|b| - 1]);
      Regroup(Flatten(a), Flatten(b[..|b| - 1]), b[|b| - 1]);
    }
  }

  lemma Regroup<T>(a: seq<T>, b: seq<T>, c: seq<T>)
    ensures (a + b) + c == a + (b + c)
    ensures [] + b == b && a + [] == a
  {
  }

  lemma RegroupFour<T>(a: seq<T>, b: seq<T>, c: seq<T>, d: seq<T>)
    ensures (a + (b + c)) + d == ((a + b) + c) + d
    ensures [] + c == c
  {
  }

  lemma FirstMoves<T>(a: seq<T>, b: seq<T>, c: seq<T>)
    requires c != []
    ensures (a + (b + [c[0]])) + c[1..] == (a + b) + c
  {
  }

  lemma HeadOrTail<T>(xs: seq<T>, x: T)
    requires xs != []
    ensures x in xs <==> x == xs[0] || x in xs[1..]
  {
    assert xs == [xs[0]] + xs[1..];
  }

  lemma HasMember<T>(xs: seq<T>)
    ensures xs != [] ==> exists x :: x in xs
  {
    if xs != [] {
      assert xs[0] in xs;
    }
  }

  lemma SubsetSize<T>(a: set<T>, b: set<T>)
    requires a <= b
    ensures |a| <= |b| && (a != b ==> |a| < |b|)
  {
    assert b == a + (b - a);
  }
}
