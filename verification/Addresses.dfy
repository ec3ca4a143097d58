/** Network addresses, and the parts of them that are advertised. */
module Addresses {
  import opened Collections
  import opened Content

  datatype Protocol = Ip4(address: seq<byte>) | Ip6(address: seq<byte>) | Tcp(port: nat) | OtherProtocol(code: nat)

  type Multiaddr = seq<Protocol>

  /** The parts of an address that are advertised. */
  function Advertised(address: Multiaddr): Multiaddr {
    if address == [] then []
    else Advertised(address[..|address| - 1])
           + if address[|address| - 1].OtherProtocol? then [] else [address[|address| - 1]]
  }

  predicate IsHostPart(p: Protocol) {
    p.Ip4? || p.Ip6? || p.Tcp?
  }

  ghost predicate Ascending(positions: seq<nat>) {
    forall j, k :: 0 <= j < k < |positions| ==> positions[j] < positions[k]
  }

  /** These parts stand at these positions. */
  ghost predicate StandAt(address: Multiaddr, positions: seq<nat>, parts: Multiaddr) {
    && |positions| == |parts|
    && forall j :: 0 <= j < |positions| ==> positions[j] < |address| && parts[j] == address[positions[j]]
  }

  ghost predicate AllHostPartsAt(address: Multiaddr, positions: seq<nat>) {
    forall i :: 0 <= i < |address| ==> (i in positions <==> IsHostPart(address[i]))
  }

  /** These are all positions of an IP or TCP part in the address, in increasing
      order, and the parts that stand there. */
  ghost predicate SelectedAt(address: Multiaddr, positions: seq<nat>, parts: Multiaddr) {
    Ascending(positions) && StandAt(address, positions, parts) && AllHostPartsAt(address, positions)
  }

  /** The IP and TCP parts of the address, in order, and nothing else. */
  ghost predicate HostParts(address: Multiaddr, parts: Multiaddr) {
    exists positions :: SelectedAt(address, positions, parts)
  }

  lemma SelectedOneMore(address: Multiaddr, positions: seq<nat>, parts: Multiaddr)
    requires address != [] && SelectedAt(address[..|address| - 1], positions, parts)
    ensures var n := |address| - 1;
            if IsHostPart(address[n]) then SelectedAt(address, positions + [n], parts + [address[n]])
            else SelectedAt(address, positions, parts)
  {
    var n := |address| - 1;
    var before := address[..n];
    assert n !in positions;
    forall i | 0 <= i < n
      ensures i in positions <==> IsHostPart(address[i])
    {
      assert address[i] == before[i];
    }
  }

  lemma {:induction false} AdvertisedSelects(address: Multiaddr) returns (positions: seq<nat>)
    ensures SelectedAt(address, positions, Advertised(address))
    decreases address
  {
    positions := [];
    if address != [] {
      var n := |address| - 1;
      positions := AdvertisedSelects(address[..n]);
      SelectedOneMore(address, positions, Advertised(address[..n]));
      if IsHostPart(address[n]) {
        positions := positions + [n];
      } else {
        assert Advertised(address[..n]) + [] == Advertised(address[..n]);
      }
    }
  }

  /** The last position is the largest one. */
  lemma LastIsLargest(address: Multiaddr, positions: seq<nat>, parts: Multiaddr)
    requires address != [] && SelectedAt(address, positions, parts) && IsHostPart(address[|address| - 1])
    ensures positions != [] && positions[|positions| - 1] == |address| - 1
  {
    var n := |address| - 1;
    assert n in positions;
    var j :| 0 <= j < |positions| && positions[j] == n;
    if j < |positions| - 1 {
      assert positions[j] < positions[|positions| - 1];
    }
  }

  /** Without the last part of the address, and its position if it is selected. */
  lemma SelectedInit(address: Multiaddr, positions: seq<nat>, parts: Multiaddr, shorter: seq<nat>)
    requires address != [] && SelectedAt(address, positions, parts)
    requires positions == if IsHostPart(address[|address| - 1]) then shorter + [|address| - 1] else shorter
    ensures SelectedAt(address[..|address| - 1], shorter, parts[..|shorter|])
  {
    var n := |address| - 1;
    var before := address[..n];
    assert forall j :: 0 <= j < |shorter| ==> shorter[j] == positions[j];
    forall j | 0 <= j < |shorter|
      ensures shorter[j] < n
    {
      assert positions[j] in positions && positions[j] < |address|;
      assert IsHostPart(address[n]) ==> positions[j] < positions[|shorter|];
    }
    forall i | 0 <= i < n
      ensures i in shorter <==> IsHostPart(before[i])
    {
      assert before[i] == address[i];
    }
  }

  /** A selection is one from the address without its last part, and that part if
      it is selected. */
  lemma SelectionSplits(address: Multiaddr, positions: seq<nat>, parts: Multiaddr)
    returns (before: seq<nat>, others: Multiaddr)
    requires address != [] && SelectedAt(address, positions, parts)
    ensures SelectedAt(address[..|address| - 1], before, others)
    ensures parts == others + if IsHostPart(address[|address| - 1]) then [address[|address| - 1]] else []
  {
    var k := |parts|;
    if IsHostPart(address[|address| - 1]) {
      LastIsLargest(address, positions, parts);
      k := |parts| - 1;
      assert positions == positions[..k] + [positions[k]] && parts == parts[..k] + [parts[k]];
    }
    before, others := positions[..k], parts[..k];
    SelectedInit(address, positions, parts, before);
  }

  lemma {:induction false} SelectionIsAdvertised(address: Multiaddr, positions: seq<nat>, parts: Multiaddr)
    requires SelectedAt(address, positions, parts)
    ensures parts == Advertised(address)
    decreases address
  {
    if address == [] {
      HasMember(positions);
    } else {
      var before, others := SelectionSplits(address, positions, parts);
      SelectionIsAdvertised(address[..|address| - 1], before, others);
    }
  }

  /** What is advertised of an address is exactly its IP and TCP parts in order. */
  lemma AdvertisedIsHostParts(address: Multiaddr, parts: Multiaddr)
    ensures HostParts(address, parts) <==> parts == Advertised(address)
  {
    var positions := AdvertisedSelects(address);
    forall ps | SelectedAt(address, ps, parts)
      ensures parts == Advertised(address)
    {
      SelectionIsAdvertised(address, ps, parts);
    }
  }
}
