/** Advertisements, entry chunks and the payload that is signed. */
module Advertisements {
  import opened Collections
  import opened Wrappers
  import opened Content

  /** The size of the chunks into which a list of entries is split. */
  const MAX_ENTRIES: nat := 6250000

  const AD_SIGNATURE_CODEC := "/indexer/ingest/adSignature"
  const AD_SIGNATURE_DOMAIN := "indexer"

  datatype Ipld = Null | Integer(n: int) | Text(utf8: seq<byte>) | Bytes(bytes: seq<byte>) | Link(cid: Cid)

  datatype EntryChunk = EntryChunk(entries: seq<Ipld>, next: Option<Ipld>)

  datatype Advertisement = Advertisement(
    previousId: Option<Ipld>,
    provider: seq<byte>,
    addresses: seq<seq<byte>>,
    signature: Ipld,
    entries: Option<Ipld>,
    contextId: Ipld,
    metadata: Ipld,
    isRm: bool)

  datatype AdSigError = InvalidPreviousID | InvalidEntryChunkLink | InvalidMetadata

  /** The objects of the provider's block store. */
  datatype Object = ChunkObject(chunk: EntryChunk) | AdObject(ad: Advertisement)

  /** The library calls: the content identifier of an object, the SHA2-256
      multihash, and this node's sealed envelope over (domain, codec, payload). */
  datatype Scheme = Scheme(
    cidOf: Object -> Cid,
    digest: seq<byte> -> seq<byte>,
    seal: (string, string, seq<byte>) -> seq<byte>)
  {
    /** Different objects have different content identifiers. */
    ghost predicate CollisionFree() {
      forall a, b :: cidOf(a) == cidOf(b) ==> a == b
    }
  }

  /** The bincode form of the protocol identifier 0x0900 (sixteen bytes, least
      significant first) and of an empty vector (its eight-byte length). */
  function BitswapMetadata(): seq<byte> {
    [0x00, 0x09] + seq(22, _ => 0)
  }

  function NewAdvertisement(contextId: seq<byte>, provider: seq<byte>, addresses: seq<seq<byte>>, isRm: bool)
    : Advertisement
  {
    Advertisement(None, provider, addresses, Bytes([]), None, Bytes(contextId), Bytes(BitswapMetadata()), isRm)
  }

  function FromLittleEndian(s: seq<byte>): nat {
    if s == [] then 0 else s[0] + 256 * FromLittleEndian(s[1..])
  }

  /** What a reader of the bincode form finds: the protocol as a number of sixteen
      bytes, and the data behind their eight-byte length. */
  ghost predicate ReadsAsMetadata(m: seq<byte>, protocol: nat, data: seq<byte>) {
    && |m| >= 24 && FromLittleEndian(m[..16]) == protocol
    && FromLittleEndian(m[16..24]) == |data| && m[24..] == data
  }

  lemma {:induction false} ZerosAreZero(n: nat)
    ensures FromLittleEndian(seq(n, _ => 0)) == 0
  {
    if n > 0 {
      assert seq(n, _ => 0)[1..] == seq(n - 1, _ => 0);
      ZerosAreZero(n - 1);
    }
  }

  /** A new advertisement names Bitswap, 0x0900, and no data for it. */
  lemma NewNamesBitswap(contextId: seq<byte>, provider: seq<byte>, addresses: seq<seq<byte>>, isRm: bool)
    ensures var m := NewAdvertisement(contextId, provider, addresses, isRm).metadata;
            m.Bytes? && ReadsAsMetadata(m.bytes, 0x0900, [])
  {
    var m := BitswapMetadata();
    var protocol := m[..16];
    assert protocol[1..][1..] == seq(14, _ => 0) && m[16..24] == seq(8, _ => 0);
    ZerosAreZero(14);
    ZerosAreZero(8);
    assert FromLittleEndian(protocol) == 0x00 + 256 * (0x09 + 256 * 0);
  }

  // ---- the signed payload ----

  predicate LinkOrNone(l: Option<Ipld>) {
    l.None? || l.value.Link?
  }

  function LinkBytes(l: Option<Ipld>): seq<byte>
    requires LinkOrNone(l)
  {
    if l.None? then [] else l.value.cid.ToBytes()
  }

  function SumOfLengths(parts: seq<seq<byte>>): nat {
    if parts == [] then 0 else SumOfLengths(parts[..|parts| - 1]) + |parts[|parts| - 1]|
  }

  /** An advertisement that can be signed. */
  predicate Signable(ad: Advertisement) {
    LinkOrNone(ad.previousId) && LinkOrNone(ad.entries) && ad.metadata.Bytes?
  }

  /** The bytes under the digest: the fields in this order, without separators. */
  function SignedBytes(ad: Advertisement): seq<byte>
    requires Signable(ad)
  {
    LinkBytes(ad.previousId) + LinkBytes(ad.entries) + ad.provider + Flatten(ad.addresses)
      + ad.metadata.bytes + (if ad.isRm then [1] else [0])
  }

  function SigPayload(scheme: Scheme, ad: Advertisement): Result<seq<byte>, AdSigError> {
    if !LinkOrNone(ad.previousId) then Err(InvalidPreviousID)
    else if !LinkOrNone(ad.entries) then Err(InvalidEntryChunkLink)
    else if !ad.metadata.Bytes? then Err(InvalidMetadata)
    else Ok(scheme.digest(SignedBytes(ad)))
  }

  function Sign(scheme: Scheme, ad: Advertisement): Result<seq<byte>, AdSigError> {
    match SigPayload(scheme, ad)
    case Ok(payload) => Ok(scheme.seal(AD_SIGNATURE_DOMAIN, AD_SIGNATURE_CODEC, payload))
    case Err(e) => Err(e)
  }

  /** What a reader of an advertisement checks: the signature is the seal, under the
      protocol's domain and codec, of the digest of the signed bytes as the reader
      computes them from the advertisement. */
  ghost predicate Verifies(scheme: Scheme, ad: Advertisement) {
    && Signable(ad)
    && ad.signature
       == Bytes(scheme.seal("indexer", "/indexer/ingest/adSignature", scheme.digest(SignedBytes(ad))))
  }

  method TotalLength(parts: seq<seq<byte>>) returns (sum: nat)
    ensures sum == SumOfLengths(parts)
  {
    sum := 0;
    for i := 0 to |parts|
      invariant sum == SumOfLengths(parts[..i])
    {
      assert parts[..i + 1][..i] == parts[..i];
      sum := sum + |parts[i]|;
    }
    assert parts[..|parts|] == parts;
  }

  method ExtendWithAll(buffer: seq<byte>, parts: seq<seq<byte>>) returns (longer: seq<byte>)
    ensures longer == buffer + Flatten(parts)
  {
    longer := buffer;
    Regroup(buffer, [], []);
    for i := 0 to |parts|
      invariant longer == buffer + Flatten(parts[..i])
    {
      assert parts[..i + 1][..i] == parts[..i];
      Regroup(buffer, Flatten(parts[..i]), parts[i]);
      longer := longer + parts[i];
    }
    assert parts[..|parts|] == parts;
  }

  /** The growing buffer of `sig_payload`; reserved is the capacity it asks for. */
  method ComputeSigPayload(scheme: Scheme, ad: Advertisement)
    returns (r: Result<seq<byte>, AdSigError>, reserved: nat, written: nat)
    ensures r == SigPayload(scheme, ad)
    ensures r.Ok? <==> Signable(ad)
    ensures r == Err(InvalidPreviousID) <==> !LinkOrNone(ad.previousId)
    ensures r == Err(InvalidEntryChunkLink) <==> LinkOrNone(ad.previousId) && !LinkOrNone(ad.entries)
    ensures r.Ok? ==> written == reserved == |SignedBytes(ad)|
  {
    reserved, written := 0, 0;
    if ad.previousId.Some? && !ad.previousId.value.Link? {
      return Err(InvalidPreviousID), reserved, written;
    }
    var previousIdBytes := if ad.previousId.Some? then ad.previousId.value.cid.ToBytes() else [];
    if ad.entries.Some? && !ad.entries.value.Link? {
      return Err(InvalidEntryChunkLink), reserved, written;
    }
    var entryChunkLinkBytes := if ad.entries.Some? then ad.entries.value.cid.ToBytes() else [];
    if !ad.metadata.Bytes? {
      return Err(InvalidMetadata), reserved, written;
    }
    var metadata := ad.metadata.bytes;
    var isRmPayload: seq<byte> := if ad.isRm then [1] else [0];

    var addressLength := TotalLength(ad.addresses);
    reserved := |previousIdBytes| + |entryChunkLinkBytes| + |ad.provider| + addressLength + |metadata| + |isRmPayload|;

    var payload := [];
    payload := payload + previousIdBytes;
    Regroup([], previousIdBytes, []);
    payload := payload + entryChunkLinkBytes;
    payload := payload + ad.provider;
    payload := ExtendWithAll(payload, ad.addresses);
    payload := payload + metadata;
    payload := payload + isRmPayload;
    FlattenLength(ad.addresses);
    written := |payload|;
    r := Ok(scheme.digest(payload));
  }

  lemma {:induction false} FlattenLength(parts: seq<seq<byte>>)
    ensures |Flatten(parts)| == SumOfLengths(parts)
  {
    if parts != [] {
      FlattenLength(parts[..|parts| - 1]);
    }
  }

  /** Neither the signature nor the context identifier is under the signature:
      replacing both leaves the payload, or the error, as it was. */
  lemma PayloadIgnoresSignatureAndContext(scheme: Scheme, ad: Advertisement, signature: Ipld, contextId: Ipld)
    ensures SigPayload(scheme, ad.(signature := signature, contextId := contextId)) == SigPayload(scheme, ad)
  {
  }

  // ---- reading the signed bytes ----

  /** The bytes of s from position i on, n of them. */
  ghost function Cut(s: seq<byte>, i: nat, n: nat): seq<byte>
    requires i + n <= |s|
  {
    s[i..i + n]
  }

  lemma CutOfMiddle(a: seq<byte>, x: seq<byte>, b: seq<byte>, s: seq<byte>)
    requires s == a + x + b
    ensures Cut(s, |a|, |x|) == x
  {
  }

  /** The parts of a string joined from six, at the sums of the lengths before them. */
  lemma SixParts(a: seq<byte>, b: seq<byte>, c: seq<byte>, d: seq<byte>, e: seq<byte>, f: seq<byte>, s: seq<byte>)
    requires s == a + b + c + d + e + f
    ensures |s| == |a| + |b| + |c| + |d| + |e| + |f|
    ensures Cut(s, 0, |a|) == a && Cut(s, |a|, |b|) == b && Cut(s, |a| + |b|, |c|) == c
    ensures Cut(s, |a| + |b| + |c|, |d|) == d && Cut(s, |a| + |b| + |c| + |d|, |e|) == e
    ensures f != [] ==> s[|s| - |f|] == f[0]
  {
    Regroup(a + b + c + d, e, f);
    Regroup(a + b + c, d, e + f);
    Regroup(a + b, c, d + (e + f));
    Regroup(a, b, c + (d + (e + f)));
    Regroup([], a, b + (c + (d + (e + f))));
    CutOfMiddle([], a, b + (c + (d + (e + f))), s);
    CutOfMiddle(a, b, c + (d + (e + f)), s);
    CutOfMiddle(a + b, c, d + (e + f), s);
    CutOfMiddle(a + b + c, d, e + f, s);
    CutOfMiddle(a + b + c + d, e, f, s);
  }

  /** Whoever knows the lengths reads the fields off the signed bytes: the link to
      the previous advertisement, the link to the entries, the provider, the
      addresses, the metadata, and a last byte that is 1 for a removal and 0
      otherwise; nothing else is there. */
  lemma SignedFields(ad: Advertisement)
    requires Signable(ad)
    ensures var s := SignedBytes(ad);
            var p := if ad.previousId.None? then 0 else |ad.previousId.value.cid.bytes|;
            var e := if ad.entries.None? then 0 else |ad.entries.value.cid.bytes|;
            var a := p + e + |ad.provider|;
            var m := a + SumOfLengths(ad.addresses);
            && |s| == m + |ad.metadata.bytes| + 1
            && (ad.previousId.Some? ==> Cut(s, 0, p) == ad.previousId.value.cid.bytes)
            && (ad.entries.Some? ==> Cut(s, p, e) == ad.entries.value.cid.bytes)
            && Cut(s, p + e, |ad.provider|) == ad.provider
            && Cut(s, a, SumOfLengths(ad.addresses)) == Flatten(ad.addresses)
            && Cut(s, m, |ad.metadata.bytes|) == ad.metadata.bytes
            && s[|s| - 1] == if ad.isRm then 1 else 0
  {
    var rm: seq<byte> := if ad.isRm then [1] else [0];
    FlattenLength(ad.addresses);
    SixParts(LinkBytes(ad.previousId), LinkBytes(ad.entries), ad.provider, Flatten(ad.addresses), ad.metadata.bytes, rm,
             SignedBytes(ad));
  }

  /** Each address stands behind the ones before it in the list. */
  lemma {:induction false} AddressesInOrder(addresses: seq<seq<byte>>, i: nat)
    requires i < |addresses|
    ensures SumOfLengths(addresses[..i]) + |addresses[i]| <= |Flatten(addresses)|
    ensures Cut(Flatten(addresses), SumOfLengths(addresses[..i]), |addresses[i]|) == addresses[i]
    decreases addresses
  {
    var n := |addresses| - 1;
    FlattenLength(addresses[..i]);
    if i < n {
      AddressesInOrder(addresses[..n], i);
      assert addresses[..n][..i] == addresses[..i];
    }
  }

  lemma AppendDetermines(a: seq<byte>, x: seq<byte>, b: seq<byte>, y: seq<byte>)
    requires |x| == |y|
    ensures a + x == b + y <==> a == b && x == y
  {
    if a + x == b + y {
      var n := |a|;
      assert |b| == n;
      assert (a + x)[..n] == a && (b + y)[..n] == b;
      assert (a + x)[n..] == x && (b + y)[n..] == y;
    }
  }

  /** The fields in front of and behind the addresses have the same lengths. */
  ghost predicate SameLengths(a: Advertisement, b: Advertisement)
    requires Signable(a) && Signable(b)
  {
    && |LinkBytes(a.previousId)| == |LinkBytes(b.previousId)|
    && |LinkBytes(a.entries)| == |LinkBytes(b.entries)|
    && |a.provider| == |b.provider|
    && |a.metadata.bytes| == |b.metadata.bytes|
  }

  /** What the signature covers: whatever the addresses are, the signed bytes are
      the same if and only if both links, the provider, the metadata, the removal
      flag, and the addresses as one string are. */
  lemma SignedBytesDetermine(a: Advertisement, b: Advertisement)
    requires Signable(a) && Signable(b) && SameLengths(a, b)
    ensures SignedBytes(a) == SignedBytes(b) <==>
              && LinkBytes(a.previousId) == LinkBytes(b.previousId) && LinkBytes(a.entries) == LinkBytes(b.entries)
              && a.provider == b.provider && Flatten(a.addresses) == Flatten(b.addresses)
              && a.metadata == b.metadata && a.isRm == b.isRm
  {
    var rmA: seq<byte>, rmB: seq<byte> := if a.isRm then [1] else [0], if b.isRm then [1] else [0];
    assert rmA[0] == rmB[0] <==> a.isRm == b.isRm;
    var a1, b1 := LinkBytes(a.previousId) + LinkBytes(a.entries), LinkBytes(b.previousId) + LinkBytes(b.entries);
    var a2, b2 := a1 + a.provider, b1 + b.provider;
    AppendDetermines(a2 + Flatten(a.addresses) + a.metadata.bytes, rmA,
                     b2 + Flatten(b.addresses) + b.metadata.bytes, rmB);
    AppendDetermines(a2 + Flatten(a.addresses), a.metadata.bytes, b2 + Flatten(b.addresses), b.metadata.bytes);
    PrependDetermines(a2, Flatten(a.addresses), b2, Flatten(b.addresses));
    PrependDetermines(a1, a.provider, b1, b.provider);
    PrependDetermines(LinkBytes(a.previousId), LinkBytes(a.entries), LinkBytes(b.previousId), LinkBytes(b.entries));
  }

  lemma PrependDetermines(a: seq<byte>, x: seq<byte>, b: seq<byte>, y: seq<byte>)
    requires |a| == |b|
    ensures a + x == b + y <==> a == b && x == y
  {
    if a + x == b + y {
      assert |x| == |y|;
      AppendDetermines(a, x, b, y);
    }
  }

  /** When the addresses themselves are signed: under the same signed bytes they
      are the same if and only if there are as many of them and each is as long. */
  lemma AddressesDetermined(a: Advertisement, b: Advertisement)
    requires Signable(a) && Signable(b) && SameLengths(a, b) && SignedBytes(a) == SignedBytes(b)
    ensures a.addresses == b.addresses <==>
              && |a.addresses| == |b.addresses|
              && forall i :: 0 <= i < |a.addresses| ==> |a.addresses[i]| == |b.addresses[i]|
  {
    SignedBytesDetermine(a, b);
    if |a.addresses| == |b.addresses| && forall i :: 0 <= i < |a.addresses| ==> |a.addresses[i]| == |b.addresses[i]| {
      FlattenDetermines(a.addresses, b.addresses);
    }
  }

  /** Lists of as many parts of the same lengths are flattened alike only if they
      are the same. */
  lemma {:induction false} FlattenDetermines(a: seq<seq<byte>>, b: seq<seq<byte>>)
    requires |a| == |b| && Flatten(a) == Flatten(b)
    requires forall i :: 0 <= i < |a| ==> |a[i]| == |b[i]|
    ensures a == b
    decreases a
  {
    if a != [] {
      var n := |a| - 1;
      AppendDetermines(Flatten(a[..n]), a[n], Flatten(b[..n]), b[n]);
      FlattenDetermines(a[..n], b[..n]);
      assert a == a[..n] + [a[n]] && b == b[..n] + [b[n]];
    }
  }

  /** With one address each, as the service publishes them, all of it is covered. */
  lemma SingleAddressDetermined(a: Advertisement, b: Advertisement)
    requires Signable(a) && Signable(b) && SameLengths(a, b) && |a.addresses| == |b.addresses| == 1
    ensures SignedBytes(a) == SignedBytes(b) <==>
              && LinkBytes(a.previousId) == LinkBytes(b.previousId) && LinkBytes(a.entries) == LinkBytes(b.entries)
              && a.provider == b.provider && a.addresses == b.addresses
              && a.metadata == b.metadata && a.isRm == b.isRm
  {
    SignedBytesDetermine(a, b);
    FlattenSingle(a.addresses[0]);
    FlattenSingle(b.addresses[0]);
    assert a.addresses == [a.addresses[0]] && b.addresses == [b.addresses[0]];
  }

  /** The boundaries between addresses are not signed: cutting any address in two
      leaves the signed bytes as they were. */
  lemma AddressBoundariesUnsigned(
    ad: Advertisement, front: seq<seq<byte>>, x: seq<byte>, y: seq<byte>, back: seq<seq<byte>>)
    requires Signable(ad)
    ensures SignedBytes(ad.(addresses := front + [x + y] + back))
            == SignedBytes(ad.(addresses := front + [x, y] + back))
  {
    FlattenSingle(x + y);
    FlattenSingle(x);
    FlattenSingle(y);
    assert [x, y] == [x] + [y];
    FlattenConcat([x], [y]);
    FlattenConcat(front, [x + y]);
    FlattenConcat(front, [x, y]);
    FlattenConcat(front + [x + y], back);
    FlattenConcat(front + [x, y], back);
  }

  /** Nor is the boundary between the provider and the first address. */
  lemma ProviderBoundaryUnsigned(ad: Advertisement, p: seq<byte>, x: seq<byte>, y: seq<byte>, back: seq<seq<byte>>)
    requires Signable(ad)
    ensures SignedBytes(ad.(provider := p + x, addresses := [y] + back))
            == SignedBytes(ad.(provider := p, addresses := [x + y] + back))
  {
    FlattenSingle(x + y);
    FlattenSingle(y);
    FlattenConcat([y], back);
    FlattenConcat([x + y], back);
    var links := LinkBytes(ad.previousId) + LinkBytes(ad.entries);
    assert links + (p + x) + (y + Flatten(back)) == links + p + (x + y + Flatten(back));
  }
}
