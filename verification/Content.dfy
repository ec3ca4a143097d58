/** Bytes, content identifiers and blocks. */
module Content {
  type byte = x: int | 0 <= x < 256

  /** A content identifier in its binary form, so that conversion between the
      two Cid crates (to_bytes followed by try_from) is the identity. */
  datatype Cid = Cid(bytes: seq<byte>) {
    function ToBytes(): seq<byte> { bytes }

    /** The multihash: all of a version 0 identifier, and what follows the
        version and codec varints of any other one. */
    function Hash(): seq<byte> {
      if IsVersion0(bytes) then bytes else DropVarint(DropVarint(bytes))
    }
  }

  /** A bare SHA2-256 multihash of 32 bytes is an identifier of version 0. */
  predicate IsVersion0(bytes: seq<byte>) {
    |bytes| == 34 && bytes[0] == 0x12 && bytes[1] == 0x20
  }

  function DropVarint(s: seq<byte>): seq<byte> {
    if s == [] then []
    else if s[0] < 128 then s[1..]
    else DropVarint(s[1..])
  }

  // ---- what identifiers consist of ----

  /** An unsigned varint: only its last byte has the high bit clear. */
  predicate IsVarint(v: seq<byte>) {
    v != [] && v[|v| - 1] < 128 && forall i :: 0 <= i < |v| - 1 ==> v[i] >= 128
  }

  /** The identifier is this version, this codec and this multihash, joined. */
  ghost predicate Joins(c: Cid, version: seq<byte>, codec: seq<byte>, hash: seq<byte>) {
    IsVarint(version) && IsVarint(codec) && c.bytes == version + codec + hash
  }

  ghost predicate IsMultihashOf(c: Cid, hash: seq<byte>) {
    if IsVersion0(c.bytes) then hash == c.bytes
    else exists version, codec :: Joins(c, version, codec, hash)
  }

  /** Other byte strings do not arise: parsing an identifier rejects them. */
  ghost predicate WellFormed(c: Cid) {
    exists hash :: IsMultihashOf(c, hash)
  }

  lemma {:induction false} DropVarintSkips(v: seq<byte>, rest: seq<byte>)
    requires IsVarint(v)
    ensures DropVarint(v + rest) == rest
    decreases v
  {
    assert (v + rest)[1..] == v[1..] + rest;
    if |v| > 1 {
      DropVarintSkips(v[1..], rest);
    } else {
      assert v[1..] + rest == rest;
    }
  }

  /** A well-formed identifier has one multihash, and it is the one that is taken. */
  lemma HashIsMultihash(c: Cid, hash: seq<byte>)
    requires WellFormed(c)
    ensures IsMultihashOf(c, hash) <==> hash == c.Hash()
  {
    forall h | IsMultihashOf(c, h)
      ensures h == c.Hash()
    {
      if !IsVersion0(c.bytes) {
        var version, codec :| Joins(c, version, codec, h);
        assert c.bytes == version + (codec + h);
        DropVarintSkips(version, codec + h);
        DropVarintSkips(codec, h);
      }
    }
  }

  /** A stored block: its bytes, and the links that decoding those bytes yields. */
  datatype Block = Block(data: seq<byte>, links: seq<Cid>)
}
