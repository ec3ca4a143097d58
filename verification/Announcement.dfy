/** The announcement message and its CBOR printer. */
module Announcement {
  import opened Collections
  import opened Wrappers
  import opened Content
  import opened Cbor

  /** The addresses are kept in their binary form, in which the encoder writes them. */
  datatype Message = Message(cid: Cid, addrs: seq<seq<byte>>)

  function AddrItems(addrs: seq<seq<byte>>): seq<Item> {
    seq(|addrs|, i requires 0 <= i < |addrs| => Bytes(addrs[i]))
  }

  /** The data model value of a message: an array of the link (tag 42 over the
      binary identifier behind a zero byte), the addresses and the empty extra data. */
  function MessageItem(m: Message): Item {
    Array([Tag(42, Bytes([0] + m.cid.ToBytes())), Array(AddrItems(m.addrs)), Bytes([])])
  }

  /** The lengths involved are machine words. */
  ghost predicate Addressable(m: Message) {
    && |m.cid.ToBytes()| + 1 < U64
    && |m.addrs| < U64
    && forall i :: 0 <= i < |m.addrs| ==> |m.addrs[i]| < U64
  }

  method MarshalCbor(m: Message) returns (bytes: seq<byte>)
    requires Addressable(m)
    ensures Decode(bytes) == Some((MessageItem(m), []))
    ensures forall s :: Decode(s) == Some((MessageItem(m), [])) ==> |bytes| < |s| || bytes == s
  {
    bytes := [];
    bytes := bytes + [131];
    assert bytes == Head(4, 3);

    var link := Tag(42, Bytes([0] + m.cid.ToBytes()));
    bytes := bytes + Encode(link);

    var addrs := Array(AddrItems(m.addrs));
    var encodedAddrs := Encode(addrs);
    bytes := bytes + encodedAddrs;

    var extra := Bytes([]);
    bytes := bytes + Encode(extra);

    EncodeThree(link, addrs, extra);
    Regroup(Encode(MessageItem(m)), [], []);
    EncodeRoundTrip(MessageItem(m), []);
    forall s | Decode(s) == Some((MessageItem(m), []))
      ensures |bytes| < |s| || bytes == s
    {
      EncodeIsShortest(MessageItem(m), s, []);
      Regroup(bytes, [], []);
    }
  }

  ghost predicate IsMessage(item: Item) {
    && item.Array? && |item.items| == 3
    && item.items[0].Tag? && item.items[0].tag == 42
    && item.items[0].item.Bytes? && [0] <= item.items[0].item.bytes
    && item.items[1].Array? && (forall i :: 0 <= i < |item.items[1].items| ==> item.items[1].items[i].Bytes?)
    && item.items[2] == Bytes([])
  }

  /** Reads a message back: the identifier behind the zero byte of a link, the
      addresses, and no extra data. */
  ghost function ReadMessage(item: Item): Option<Message> {
    if !IsMessage(item) then None
    else
      var addrs := item.items[1].items;
      Some(Message(Cid(item.items[0].item.bytes[1..]), seq(|addrs|, i requires 0 <= i < |addrs| => addrs[i].bytes)))
  }

  /** An item is read as this message if and only if it is the one that is printed. */
  lemma MessageReadsBack(m: Message, item: Item)
    ensures ReadMessage(item) == Some(m) <==> item == MessageItem(m)
  {
    if item == MessageItem(m) {
      assert item.items[0].item.bytes[1..] == m.cid.bytes;
      var addrs := item.items[1].items;
      assert seq(|addrs|, i requires 0 <= i < |addrs| => addrs[i].bytes) == m.addrs;
    }
    if ReadMessage(item) == Some(m) {
      var link := item.items[0].item.bytes;
      assert link == [0] + link[1..];
      assert item.items[1].items == AddrItems(m.addrs);
      assert item.items == MessageItem(m).items;
    }
  }

  /** Two messages printed as the same bytes are the same message. */
  lemma AnnouncementsAreUnique(a: Message, b: Message, bytes: seq<byte>)
    requires Decode(bytes) == Some((MessageItem(a), [])) && Decode(bytes) == Some((MessageItem(b), []))
    ensures a == b
  {
    MessageReadsBack(a, MessageItem(a));
    MessageReadsBack(b, MessageItem(a));
  }
}
