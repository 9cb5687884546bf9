/** SDESSource: one SDES chunk under construction. */
module RtcpSdesSource {
  import opened Bytes
  import opened RtcpFormat
  import opened RtcpBuild
  import opened RtcpBuildRuns

  /** The buffers of the items, one for each. */
  function ItemBuffers(its: seq<Item>): (bs: seq<bytes>)
    requires forall i :: 0 <= i < |its| ==> ItemOk(its[i])
    ensures |bs| == |its|
  {
    if its == [] then [] else [EncodeItem(its[0])] + ItemBuffers(its[1..])
  }

  lemma {:induction false} ItemBuffersAppend(its: seq<Item>, it: Item)
    requires ItemOk(it) && forall i :: 0 <= i < |its| ==> ItemOk(its[i])
    ensures ItemBuffers(its + [it]) == ItemBuffers(its) + [EncodeItem(it)]
    decreases |its|
  {
    if its == [] {
      assert [] + [it] == [it] && ItemBuffers([it]) == [EncodeItem(it)] + ItemBuffers([]);
    } else {
      assert (its + [it])[1..] == its[1..] + [it];
      ItemBuffersAppend(its[1..], it);
    }
  }

  lemma {:induction false} ItemBuffersFlatten(its: seq<Item>)
    requires forall i :: 0 <= i < |its| ==> ItemOk(its[i])
    ensures Flatten(ItemBuffers(its)) == EncodeItems(its)
    decreases |its|
  {
    if its != [] {
      ItemBuffersFlatten(its[1..]);
      assert ItemBuffers(its)[1..] == ItemBuffers(its[1..]);
    }
  }

  /** One SDES chunk under construction. */
  class SdesSource {
    var ssrc: u32
    var items: seq<bytes>
    var totalItemSize: nat
    ghost var chunk: Chunk

    ghost predicate Valid()
      reads this
    {
      && ChunkOk(chunk) && ssrc == chunk.ssrc
      && items == ItemBuffers(chunk.items) && totalItemSize == ItemBytes(chunk)
    }

    constructor (s: u32)
      ensures Valid() && chunk == Chunk(s, [])
    {
      ssrc, items, totalItemSize := s, [], 0;
      chunk := Chunk(s, []);
    }

    function NeededBytes(): (x: nat)
      reads this
      requires Valid()
      ensures x == SourceNeeds(ItemBytes(chunk))
    {
      var x := totalItemSize + 1;
      var r := x % 4;
      (if r != 0 then x + (4 - r) else x) + 4
    }

    function NeededBytesWithExtraItem(itemDataLength: nat): (x: nat)
      reads this
      requires Valid()
      ensures x == SourceNeeds(ItemBytes(chunk) + 2 + itemDataLength)
    {
      var x := totalItemSize + 2 + itemDataLength + 1;
      var r := x % 4;
      (if r != 0 then x + (4 - r) else x) + 4
    }

    method AddItem(buf: bytes, ghost it: Item)
      requires Valid() && ItemOk(it) && buf == EncodeItem(it)
      modifies this
      ensures Valid() && chunk == old(chunk).(items := old(chunk).items + [it])
    {
      ItemsAppend(chunk.items, it);
      ItemBuffersAppend(chunk.items, it);
      totalItemSize := totalItemSize + |buf|;
      items := items + [buf];
      chunk := chunk.(items := chunk.items + [it]);
    }
  }
}
