/** The part of CBOR (RFC 8949) that announcements use: encoding in the
    shortest form of section 4.2.1, and a decoder that follows the initial-byte
    rules of section 3 for definite-length items. */
module Cbor {
  import opened Collections
  import opened Wrappers
  import opened Content

  datatype Item =
    | Unsigned(n: nat)
    | Negative(n: nat)
    | Bytes(bytes: seq<byte>)
    | Text(utf8: seq<byte>)
    | Array(items: seq<Item>)
    | Tag(tag: nat, item: Item)

  const U64: nat := 0x1_0000_0000_0000_0000

  /** Every count and number in the item has a 64-bit argument. */
  ghost predicate Fits(item: Item) {
    match item
    case Unsigned(n) => n < U64
    case Negative(n) => n < U64
    case Bytes(b) => |b| < U64
    case Text(b) => |b| < U64
    case Array(items) => |items| < U64 && forall i :: 0 <= i < |items| ==> Fits(items[i])
    case Tag(t, i) => t < U64 && Fits(i)
  }

  // ---- numbers in network byte order ----

  function Pow256(k: nat): (p: nat)
    ensures p > 0
  {
    if k == 0 then 1 else 256 * Pow256(k - 1)
  }

  function BigEndian(n: nat, k: nat): (s: seq<byte>)
    ensures |s| == k
  {
    if k == 0 then [] else BigEndian(n / 256, k - 1) + [n % 256]
  }

  function FromBigEndian(s: seq<byte>): nat {
    if s == [] then 0 else FromBigEndian(s[..|s| - 1]) * 256 + s[|s| - 1]
  }

  lemma {:induction false} BigEndianRoundTrip(n: nat, k: nat)
    requires n < Pow256(k)
    ensures FromBigEndian(BigEndian(n, k)) == n
  {
    if k > 0 {
      BigEndianRoundTrip(n / 256, k - 1);
      assert BigEndian(n, k)[..k - 1] == BigEndian(n / 256, k - 1);
    }
  }

  // ---- heads ----

  function Head(major: nat, n: nat): (s: seq<byte>)
    requires major < 8 && n < U64
    ensures s != []
  {
    if n < 24 then [32 * major + n]
    else if n < 0x100 then [32 * major + 24] + BigEndian(n, 1)
    else if n < 0x1_0000 then [32 * major + 25] + BigEndian(n, 2)
    else if n < 0x1_0000_0000 then [32 * major + 26] + BigEndian(n, 4)
    else [32 * major + 27] + BigEndian(n, 8)
  }

  datatype HeadResult = HeadResult(major: nat, n: nat, rest: seq<byte>)

  /** The argument that follows an initial byte, k bytes long. */
  function Argument(major: nat, k: nat, s: seq<byte>): Option<HeadResult> {
    if |s| < k then None else Some(HeadResult(major, FromBigEndian(s[..k]), s[k..]))
  }

  function DecodeHead(s: seq<byte>): (r: Option<HeadResult>)
    ensures r.Some? ==> |r.value.rest| < |s|
  {
    if s == [] then None
    else
      var major, info := s[0] / 32, s[0] % 32;
      if info < 24 then Some(HeadResult(major, info, s[1..]))
      else if info == 24 then Argument(major, 1, s[1..])
      else if info == 25 then Argument(major, 2, s[1..])
      else if info == 26 then Argument(major, 4, s[1..])
      else if info == 27 then Argument(major, 8, s[1..])
      else None
  }

  lemma PowersOf256()
    ensures Pow256(1) == 0x100 && Pow256(2) == 0x1_0000 && Pow256(4) == 0x1_0000_0000 && Pow256(8) == U64
  {
    assert Pow256(2) == 256 * Pow256(1);
    assert Pow256(4) == 256 * (256 * Pow256(2));
    assert Pow256(6) == 256 * (256 * Pow256(4));
    assert Pow256(8) == 256 * (256 * Pow256(6));
  }

  lemma ArgumentRoundTrip(major: nat, n: nat, k: nat, rest: seq<byte>)
    requires n < Pow256(k)
    ensures Argument(major, k, BigEndian(n, k) + rest) == Some(HeadResult(major, n, rest))
  {
    var s := BigEndian(n, k) + rest;
    assert s[..k] == BigEndian(n, k) && s[k..] == rest;
    BigEndianRoundTrip(n, k);
  }

  /** A head whose argument takes k more bytes, announced by info. */
  lemma LongHeadRoundTrip(major: nat, info: nat, k: nat, n: nat, rest: seq<byte>)
    requires major < 8 && n < Pow256(k)
    requires (info == 24 && k == 1) || (info == 25 && k == 2) || (info == 26 && k == 4) || (info == 27 && k == 8)
    ensures DecodeHead(([32 * major + info] + BigEndian(n, k)) + rest) == Some(HeadResult(major, n, rest))
  {
    var s := ([32 * major + info] + BigEndian(n, k)) + rest;
    var after := BigEndian(n, k) + rest;
    assert s[1..] == after;
    assert s[0] / 32 == major && s[0] % 32 == info;
    ArgumentRoundTrip(major, n, k, rest);
    assert DecodeHead(s) == Argument(major, k, after);
  }

  lemma HeadRoundTrip(major: nat, n: nat, rest: seq<byte>)
    requires major < 8 && n < U64
    ensures DecodeHead(Head(major, n) + rest) == Some(HeadResult(major, n, rest))
  {
    PowersOf256();
    if n < 24 {
      assert (Head(major, n) + rest)[1..] == rest;
    } else if n < 0x100 {
      LongHeadRoundTrip(major, 24, 1, n, rest);
    } else if n < 0x1_0000 {
      LongHeadRoundTrip(major, 25, 2, n, rest);
    } else if n < 0x1_0000_0000 {
      LongHeadRoundTrip(major, 26, 4, n, rest);
    } else {
      LongHeadRoundTrip(major, 27, 8, n, rest);
    }
  }

  // ---- items ----

  function Encode(item: Item): (s: seq<byte>)
    requires Fits(item)
  {
    match item
    case Unsigned(n) => Head(0, n)
    case Negative(n) => Head(1, n)
    case Bytes(b) => Head(2, |b|) + b
    case Text(b) => Head(3, |b|) + b
    case Array(items) => Head(4, |items|) + EncodeAll(items)
    case Tag(t, i) => Head(6, t) + Encode(i)
  }

  function EncodeAll(items: seq<Item>): seq<byte>
    requires forall i :: 0 <= i < |items| ==> Fits(items[i])
  {
    if items == [] then [] else Encode(items[0]) + EncodeAll(items[1..])
  }

  /** The first item of s and what follows it. */
  function Decode(s: seq<byte>): (r: Option<(Item, seq<byte>)>)
    ensures r.Some? ==> |r.value.1| < |s|
    decreases |s|, 0, 0
  {
    match DecodeHead(s)
    case None => None
    case Some(HeadResult(major, n, rest)) =>
      if major == 0 then Some((Unsigned(n), rest))
      else if major == 1 then Some((Negative(n), rest))
      else if major == 2 || major == 3 then
        if |rest| < n then None
        else Some((if major == 2 then Bytes(rest[..n]) else Text(rest[..n]), rest[n..]))
      else if major == 4 then
        match DecodeAll(n, rest)
        case None => None
        case Some((items, after)) => Some((Array(items), after))
      else if major == 6 then
        match Decode(rest)
        case None => None
        case Some((item, after)) => Some((Tag(n, item), after))
      else None
  }

  function DecodeAll(n: nat, s: seq<byte>): (r: Option<(seq<Item>, seq<byte>)>)
    ensures r.Some? ==> |r.value.1| <= |s|
    decreases |s|, 1, n
  {
    if n == 0 then Some(([], s))
    else
      match Decode(s)
      case None => None
      case Some((first, rest)) =>
        match DecodeAll(n - 1, rest)
        case None => None
        case Some((others, after)) => Some(([first] + others, after))
  }

  lemma EncodeAllCons(first: Item, others: seq<Item>)
    requires Fits(first) && forall i :: 0 <= i < |others| ==> Fits(others[i])
    ensures EncodeAll([first] + others) == Encode(first) + EncodeAll(others)
  {
    assert ([first] + others)[1..] == others;
  }

  /** The encoding of a three-element array, piece after piece. */
  lemma EncodeThree(a: Item, b: Item, c: Item)
    requires Fits(a) && Fits(b) && Fits(c)
    ensures Fits(Array([a, b, c]))
    ensures Encode(Array([a, b, c])) == ((Head(4, 3) + Encode(a)) + Encode(b)) + Encode(c)
  {
    EncodeAllCons(c, []);
    EncodeAllCons(b, [c]);
    EncodeAllCons(a, [b, c]);
    assert [a] + [b, c] == [a, b, c] && [b] + [c] == [b, c] && [c] + [] == [c];
    Regroup(Encode(c), [], []);
    Regroup(Head(4, 3) + Encode(a), Encode(b), Encode(c));
    Regroup(Head(4, 3), Encode(a), Encode(b) + Encode(c));
  }

  lemma StringRoundTrip(major: nat, b: seq<byte>, s: seq<byte>, rest: seq<byte>)
    requires (major == 2 || major == 3) && DecodeHead(s) == Some(HeadResult(major, |b|, b + rest))
    ensures Decode(s) == Some((if major == 2 then Bytes(b) else Text(b), rest))
  {
    assert (b + rest)[..|b|] == b && (b + rest)[|b|..] == rest;
  }

  lemma {:induction false} EncodeRoundTrip(item: Item, rest: seq<byte>)
    requires Fits(item)
    ensures Decode(Encode(item) + rest) == Some((item, rest))
    decreases item
  {
    match item
    case Unsigned(n) => HeadRoundTrip(0, n, rest);
    case Negative(n) => HeadRoundTrip(1, n, rest);
    case Bytes(b) =>
      HeadRoundTrip(2, |b|, b + rest);
      Regroup(Head(2, |b|), b, rest);
      StringRoundTrip(2, b, Encode(item) + rest, rest);
    case Text(b) =>
      HeadRoundTrip(3, |b|, b + rest);
      Regroup(Head(3, |b|), b, rest);
      StringRoundTrip(3, b, Encode(item) + rest, rest);
    case Array(items) =>
      HeadRoundTrip(4, |items|, EncodeAll(items) + rest);
      Regroup(Head(4, |items|), EncodeAll(items), rest);
      EncodeAllRoundTrip(items, rest);
    case Tag(t, i) =>
      HeadRoundTrip(6, t, Encode(i) + rest);
      Regroup(Head(6, t), Encode(i), rest);
      EncodeRoundTrip(i, rest);
  }

  lemma {:induction false} EncodeAllRoundTrip(items: seq<Item>, rest: seq<byte>)
    requires forall i :: 0 <= i < |items| ==> Fits(items[i])
    ensures DecodeAll(|items|, EncodeAll(items) + rest) == Some((items, rest))
    decreases items
  {
    if items == [] {
      assert EncodeAll(items) + rest == rest;
    } else {
      var after := EncodeAll(items[1..]) + rest;
      Regroup(Encode(items[0]), EncodeAll(items[1..]), rest);
      EncodeRoundTrip(items[0], after);
      EncodeAllRoundTrip(items[1..], rest);
      assert [items[0]] + items[1..] == items;
    }
  }

  // ---- no shorter form ----

  lemma {:induction false} FromBigEndianRoundTrip(s: seq<byte>)
    ensures FromBigEndian(s) < Pow256(|s|)
    ensures BigEndian(FromBigEndian(s), |s|) == s
    decreases s
  {
    if s != [] {
      FromBigEndianRoundTrip(s[..|s| - 1]);
      assert s == s[..|s| - 1] + [s[|s| - 1]];
    }
  }

  /** s is no shorter than this form and what follows, and nothing else of that
      length: what a shortest form is. */
  ghost predicate NoShorterThan(s: seq<byte>, form: seq<byte>, rest: seq<byte>) {
    |form| + |rest| <= |s| && (|form| + |rest| == |s| ==> s == form + rest)
  }

  /** An argument of k bytes, whose value decides how long the shortest head is. */
  lemma ArgumentIsNoShorter(major: nat, info: nat, k: nat, s: seq<byte>, n: nat, rest: seq<byte>)
    requires s != [] && s[0] == 32 * major + info && major < 8
    requires (info == 24 && k == 1) || (info == 25 && k == 2) || (info == 26 && k == 4) || (info == 27 && k == 8)
    requires Argument(major, k, s[1..]) == Some(HeadResult(major, n, rest))
    ensures n < U64 && NoShorterThan(s, Head(major, n), rest)
  {
    PowersOf256();
    var argument := s[1..][..k];
    FromBigEndianRoundTrip(argument);
    assert s == ([s[0]] + argument) + rest;
    assert BigEndian(n, k) == argument;
  }

  /** Any head that is read as this one is at least as long. */
  lemma HeadIsShortest(major: nat, n: nat, s: seq<byte>, rest: seq<byte>)
    requires DecodeHead(s) == Some(HeadResult(major, n, rest))
    ensures major < 8 && n < U64 && NoShorterThan(s, Head(major, n), rest)
  {
    var info := s[0] % 32;
    assert s[0] == 32 * major + info;
    if info < 24 {
      assert s == [s[0]] + s[1..];
    } else {
      ArgumentIsNoShorter(major, info, if info == 24 then 1 else if info == 25 then 2 else if info == 26 then 4 else 8,
                          s, n, rest);
    }
  }

  lemma ShorterParts(s: seq<byte>, head: seq<byte>, middle: seq<byte>, body: seq<byte>, rest: seq<byte>)
    requires NoShorterThan(s, head, middle) && NoShorterThan(middle, body, rest)
    ensures NoShorterThan(s, head + body, rest)
  {
    Regroup(head, body, rest);
  }

  /** Every byte string that is read as this item is at least as long as its
      encoding, and no other one is as long. */
  lemma {:induction false} EncodeIsShortest(item: Item, s: seq<byte>, rest: seq<byte>)
    requires Decode(s) == Some((item, rest))
    ensures Fits(item) && NoShorterThan(s, Encode(item), rest)
    decreases |s|, 0, 0
  {
    var head := DecodeHead(s).value;
    HeadIsShortest(head.major, head.n, s, head.rest);
    match item
    case Unsigned(_) =>
    case Negative(_) =>
    case Bytes(b) =>
      assert head.rest == b + rest;
      ShorterParts(s, Head(2, |b|), head.rest, b, rest);
    case Text(b) =>
      assert head.rest == b + rest;
      ShorterParts(s, Head(3, |b|), head.rest, b, rest);
    case Array(items) =>
      EncodeAllIsShortest(head.n, items, head.rest, rest);
      ShorterParts(s, Head(4, |items|), head.rest, EncodeAll(items), rest);
    case Tag(t, i) =>
      EncodeIsShortest(i, head.rest, rest);
      ShorterParts(s, Head(6, t), head.rest, Encode(i), rest);
  }

  lemma {:induction false} EncodeAllIsShortest(n: nat, items: seq<Item>, s: seq<byte>, rest: seq<byte>)
    requires DecodeAll(n, s) == Some((items, rest))
    ensures |items| == n && (forall i :: 0 <= i < |items| ==> Fits(items[i]))
    ensures NoShorterThan(s, EncodeAll(items), rest)
    decreases |s|, 1, n
  {
    if n > 0 {
      var middle := Decode(s).value.1;
      assert items == [items[0]] + items[1..];
      EncodeIsShortest(items[0], s, middle);
      EncodeAllIsShortest(n - 1, items[1..], middle, rest);
      ShorterParts(s, Encode(items[0]), middle, EncodeAll(items[1..]), rest);
    }
  }
}
