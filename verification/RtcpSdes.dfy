/** The SDES packet class: the format check of its constructor and the chunk/item cursor. */
module RtcpSdes {
  import opened Bytes
  import opened RtcpFormat

  /** Where an item list ends, in the reading that DecodeItems gives. */
  function ListEnd(u: bytes, p: nat): Option<nat>
    requires p <= |u|
  {
    match DecodeItems(u, p)
    case None => None
    case Some((_, q)) => Some(q)
  }

  /** What the constructor of the class should find out about the packet d. */
  function ReadChunks(d: bytes): Option<seq<Chunk>>
    requires |d| >= 4
  {
    match Unpadded(d)
    case None => None
    case Some(u) => if |u| < 4 then None else DecodeChunks(u, 4, HeaderCount(d) as int)
  }

  /**
   The checks of the constructor. They accept exactly the packets whose unpadded bytes are read as
   the announced number of chunks, and they come to an end on every packet that holds a header.
   */
  method Validate(d: bytes) returns (knownFormat: bool)
    requires |d| >= 4
    ensures knownFormat <==> ReadChunks(d).Some?
  {
    var len := |d|;
    if HasPadding(d) {
      var padcount := d[|d| - 1];
      if padcount % 4 != 0 {
        return false;
      }
      if padcount as int >= len {
        return false;
      }
      len := len - padcount as int;
    }
    assert d[..|d|] == d;
    assert Unpadded(d) == Some(d[..len]);
    if HeaderCount(d) == 0 {
      return len == 4;
    }
    if len < 4 {
      return false;
    }
    knownFormat := ValidateChunks(d, len, HeaderCount(d) as int);
  }

  /** The constructor's outer loop, over the chunks of the first end bytes. */
  method ValidateChunks(d: bytes, end: nat, count: nat) returns (ok: bool)
    requires 4 <= end <= |d|
    ensures ok <==> DecodeChunks(d[..end], 4, count).Some?
  {
    var ssrccount := count;
    var len := end - 4;
    var chunk := 4;
    while ssrccount > 0 && len > 0
      invariant len >= 0 && chunk >= 4 && chunk + len == end
      invariant DecodeChunks(d[..end], 4, count).Some? <==> DecodeChunks(d[..end], chunk, ssrccount).Some?
      decreases ssrccount
    {
      var chunkOk, offset := ValidateChunk(d, end, chunk);
      if !chunkOk {
        return false;
      }
      len := len - offset;
      ssrccount := ssrccount - 1;
      chunk := chunk + offset;
    }
    return len == 0 && ssrccount == 0;
  }

  /** One round of the constructor's outer loop: the chunk at byte chunk, with len bytes left for it. */
  method ValidateChunk(d: bytes, end: nat, chunk: nat) returns (ok: bool, chunkoffset: nat)
    requires chunk <= end <= |d|
    ensures ok <==> DecodeChunk(d[..end], chunk).Some?
    ensures ok ==> chunk + chunkoffset == DecodeChunk(d[..end], chunk).value.1
  {
    ghost var u := d[..end];
    var len := end - chunk;
    if len < 8 {
      return false, 0;
    }
    len := len - 4;
    chunkoffset := 4;
    var done := false;
    while !done
      invariant len >= 0 && chunkoffset >= 4 && chunk + chunkoffset + len == end
      invariant !done ==> ListEnd(u, chunk + 4) == ListEnd(u, chunk + chunkoffset)
      invariant done ==> DecodeChunk(u, chunk).Some? && DecodeChunk(u, chunk).value.1 == chunk + chunkoffset
      decreases !done, len
    {
      if len < 1 {
        return false, 0;
      }
      var sdesid := d[chunk + chunkoffset];
      if sdesid == 0 {
        len := len - 1;
        chunkoffset := chunkoffset + 1;
        var r := chunkoffset % 4;
        if r != 0 {
          var addoffset := 4 - r;
          if addoffset > len {
            return false, 0;
          }
          len := len - addoffset;
          chunkoffset := chunkoffset + addoffset;
        }
        done := true;
      } else {
        if len < 2 {
          return false, 0;
        }
        var itemlen := d[chunk + chunkoffset + 1] as int;
        len := len - 2;
        chunkoffset := chunkoffset + 2;
        if itemlen > len {
          return false, 0;
        }
        len := len - itemlen;
        chunkoffset := chunkoffset + itemlen;
      }
    }
    ok := true;
  }

  datatype ItemType = NoItem | CNAME | NAME | EMAIL | PHONE | LOC | TOOL | NOTE | PRIV | Unknown

  /** GetItemType's reading of the item identifier. */
  function TypeOfId(id: byte): ItemType {
    if id == 0 then NoItem
    else if id == 1 then CNAME
    else if id == 2 then NAME
    else if id == 3 then EMAIL
    else if id == 4 then PHONE
    else if id == 5 then LOC
    else if id == 6 then TOOL
    else if id == 7 then NOTE
    else if id == 8 then PRIV
    else Unknown
  }

  /**
   The prefix and the value of a private item. A missing prefix length, or one that points past the
   item, makes the accessors report two empty strings.
   */
  function PrivateParts(data: bytes): (r: (bytes, bytes)) {
    if |data| == 0 || data[0] as int > |data| - 1 then ([], [])
    else (data[1..1 + data[0] as int], data[1 + data[0] as int..])
  }

  /** GotoNextChunk's loop: the offset, within the chunk, of the zero byte that ends its item list. */
  method SkipItems(d: bytes, ghost u: bytes, chunk: nat) returns (offset: nat)
    requires u <= d && chunk + 4 <= |u| && ListEnd(u, chunk + 4).Some?
    ensures chunk + offset + 1 == ListEnd(u, chunk + 4).value
  {
    offset := 4;
    while d[chunk + offset] != 0
      invariant chunk + offset < |u|
      invariant ListEnd(u, chunk + offset) == ListEnd(u, chunk + 4)
      decreases |u| - offset
    {
      offset := offset + 2 + d[chunk + offset + 1] as int;
    }
  }

  /** The distance from a chunk to the one after it: its item list, the zero byte and the alignment. */
  method ChunkSize(d: bytes, ghost u: bytes, chunk: nat) returns (offset: nat)
    requires u <= d && chunk <= |u| && DecodeChunk(u, chunk).Some?
    ensures chunk + offset == DecodeChunk(u, chunk).value.1
  {
    offset := SkipItems(d, u, chunk);
    offset := offset + 1;
    if offset % 4 != 0 {
      offset := offset + (4 - offset % 4);
    }
  }

  /** The item list at byte p of u consists of the items numbered from i on. */
  ghost predicate AtItem(u: bytes, p: nat, items: seq<Item>, i: nat) {
    p <= |u| && i <= |items| && DecodeItems(u, p).Some? && DecodeItems(u, p).value.0 == items[i..]
  }

  /** From byte p to its end, u consists of the chunks numbered from k on. */
  ghost predicate AtChunk(u: bytes, p: nat, chunks: seq<Chunk>, k: nat) {
    p <= |u| && k <= |chunks| && DecodeChunks(u, p, |chunks| - k) == Some(chunks[k..])
  }

  lemma {:induction false} ChunkStep(u: bytes, p: nat, chunks: seq<Chunk>, k: nat)
    requires AtChunk(u, p, chunks, k) && k < |chunks|
    ensures DecodeChunk(u, p).Some? && AtChunk(u, DecodeChunk(u, p).value.1, chunks, k + 1)
    ensures p + 8 <= |u| && U32At(u, p) == chunks[k].ssrc && AtItem(u, p + 4, chunks[k].items, 0)
  {
    var (c, q) := DecodeChunk(u, p).value;
    var rest := DecodeChunks(u, q, |chunks| - k - 1).value;
    assert chunks[k..] == [c] + rest;
    assert ([c] + rest)[0] == c && ([c] + rest)[1..] == rest;
    assert chunks[k..][0] == chunks[k] && chunks[k..][1..] == chunks[k + 1..];
    assert c.items[0..] == c.items;
  }

  lemma {:induction false} ItemStep(u: bytes, p: nat, items: seq<Item>, i: nat)
    requires AtItem(u, p, items, i)
    ensures p < |u| && (u[p] == 0 <==> i == |items|)
    ensures i < |items| ==> p + 2 <= |u| && AtItem(u, p + 2 + u[p + 1] as int, items, i + 1)
    ensures i < |items| ==> items[i] == Item(u[p], u[p + 2..p + 2 + u[p + 1] as int])
  {
    if u[p] != 0 {
      var next := p + 2 + u[p + 1] as int;
      var it, rest := Item(u[p], u[p + 2..next]), DecodeItems(u, next).value.0;
      assert items[i..] == [it] + rest;
      assert ([it] + rest)[0] == it && ([it] + rest)[1..] == rest;
      assert items[i..][0] == items[i] && items[i..][1..] == items[i + 1..];
    }
  }

  /** The step of GotoNextChunk: the chunk after a chunk that is not the last, and its item list. */
  lemma {:induction false} ChunkLookAhead(u: bytes, p: nat, chunks: seq<Chunk>, k: nat)
    requires AtChunk(u, p, chunks, k) && k + 1 < |chunks|
    ensures DecodeChunk(u, p).Some?
    ensures var next := DecodeChunk(u, p).value.1;
            AtChunk(u, next, chunks, k + 1) && AtItem(u, next + 4, chunks[k + 1].items, 0)
  {
    ChunkStep(u, p, chunks, k);
    ChunkStep(u, DecodeChunk(u, p).value.1, chunks, k + 1);
  }

  /** The two looks ahead of GotoNextItem: at the item the cursor is on, and at the one after it. */
  lemma {:induction false} ItemLookAhead(u: bytes, p: nat, items: seq<Item>, i: nat)
    requires AtItem(u, p, items, i)
    ensures i <= |items| && p < |u| && (u[p] == 0 <==> i == |items|)
    ensures u[p] != 0 ==>
              && p + 1 < |u|
              && var next := p + 2 + u[p + 1] as int;
                 next < |u| && AtItem(u, next, items, i + 1) && (u[next] == 0 <==> i + 1 == |items|)
  {
    ItemStep(u, p, items, i);
    if u[p] != 0 {
      ItemStep(u, p + 2 + u[p + 1] as int, items, i + 1);
    }
  }

  /** An SDES packet with the cursor that walks over its chunks and, within a chunk, over its items. */
  class SdesPacket {
    const data: bytes
    var knownFormat: bool
    var currentChunk: nat       // offset of the current chunk; 0 when there is none
    var curChunkNum: nat
    var itemOffset: nat
    ghost const u: bytes        // the packet without its padding
    ghost const chunks: seq<Chunk>
    ghost var chunkIndex: nat
    ghost var itemIndex: nat

    ghost predicate Valid()
      reads this
    {
      && 4 <= |data| && u <= data
      && (knownFormat ==> |chunks| == HeaderCount(data) as int && AtChunk(u, 4, chunks, 0))
      && (currentChunk != 0 ==>
            && knownFormat && curChunkNum == chunkIndex + 1
            && chunkIndex < |chunks| && AtChunk(u, currentChunk, chunks, chunkIndex)
            && AtItem(u, currentChunk + itemOffset, chunks[chunkIndex].items, itemIndex))
    }

    /** The item the cursor is on, if the current chunk has one. */
    ghost predicate HasItem()
      reads this
      requires Valid()
    {
      currentChunk != 0 && itemIndex < |chunks[chunkIndex].items|
    }

    constructor (d: bytes)
      requires |d| >= 4
      ensures Valid() && data == d && currentChunk == 0
      ensures knownFormat <==> ReadChunks(d).Some?
      ensures knownFormat ==> chunks == ReadChunks(d).value
    {
      var known := Validate(d);
      data := d;
      knownFormat := known;
      currentChunk, curChunkNum, itemOffset := 0, 0, 0;
      u := if known then Unpadded(d).value else [];
      chunks := if known then ReadChunks(d).value else [];
      chunkIndex, itemIndex := 0, 0;
      assert known ==> ReadChunks(d).value[0..] == ReadChunks(d).value;
    }

    function GetChunkCount(): (r: nat)
      requires Valid()
      reads this
      ensures r == if knownFormat then |chunks| else 0
    {
      if !knownFormat then 0 else HeaderCount(data) as int
    }

    method GotoFirstChunk() returns (r: bool)
      requires Valid()
      modifies this
      ensures Valid() && knownFormat == old(knownFormat)
      ensures r <==> knownFormat && chunks != []
      ensures r <==> currentChunk != 0
      ensures r ==> chunkIndex == 0 && itemIndex == 0
    {
      if GetChunkCount() == 0 {
        currentChunk := 0;
        return false;
      }
      ChunkStep(u, 4, chunks, 0);
      currentChunk := 4;
      curChunkNum := 1;
      itemOffset := 4;
      chunkIndex, itemIndex := 0, 0;
      return true;
    }

    method GotoNextChunk() returns (r: bool)
      requires Valid()
      modifies this
      ensures Valid() && knownFormat == old(knownFormat)
      ensures r <==> old(currentChunk) != 0 && old(chunkIndex) + 1 < |chunks|
      ensures r ==> currentChunk != 0 && chunkIndex == old(chunkIndex) + 1 && itemIndex == 0
      ensures !r ==> currentChunk == old(currentChunk) && chunkIndex == old(chunkIndex) && itemIndex == old(itemIndex)
    {
      if !knownFormat {
        return false;
      }
      if currentChunk == 0 {
        return false;
      }
      if curChunkNum == GetChunkCount() {
        return false;
      }
      ChunkLookAhead(u, currentChunk, chunks, chunkIndex);
      var offset := ChunkSize(data, u, currentChunk);
      currentChunk := currentChunk + offset;
      curChunkNum := curChunkNum + 1;
      itemOffset := 4;
      chunkIndex, itemIndex := chunkIndex + 1, 0;
      return true;
    }

    function GetChunkSSRC(): (r: u32)
      requires Valid()
      reads this
      ensures currentChunk != 0 ==> r == chunks[chunkIndex].ssrc
    {
      if !knownFormat || currentChunk == 0 then 0
      else
        ChunkStep(u, currentChunk, chunks, chunkIndex);
        U32At(data, currentChunk)
    }

    method GotoFirstItem() returns (r: bool)
      requires Valid()
      modifies this
      ensures Valid() && knownFormat == old(knownFormat)
      ensures currentChunk == old(currentChunk) && chunkIndex == old(chunkIndex)
      ensures r <==> currentChunk != 0 && chunks[chunkIndex].items != []
      ensures currentChunk != 0 ==> itemIndex == 0
    {
      if !knownFormat {
        return false;
      }
      if currentChunk == 0 {
        return false;
      }
      ChunkStep(u, currentChunk, chunks, chunkIndex);
      ItemStep(u, currentChunk + 4, chunks[chunkIndex].items, 0);
      itemOffset := 4;
      itemIndex := 0;
      if data[currentChunk + itemOffset] == 0 {
        return false;
      }
      return true;
    }

    method GotoNextItem() returns (r: bool)
      requires Valid()
      modifies this
      ensures Valid() && knownFormat == old(knownFormat)
      ensures currentChunk == old(currentChunk) && chunkIndex == old(chunkIndex)
      ensures r <==> currentChunk != 0 && old(itemIndex) + 1 < |chunks[chunkIndex].items|
      ensures itemIndex == if r then old(itemIndex) + 1 else old(itemIndex)
      // what is read: the item, its length, and the byte behind it, all of them within the unpadded packet
      ensures currentChunk != 0 ==>
                var p := currentChunk + old(itemOffset);
                && |u| <= |data| && p < |u|
                && (data[p] != 0 ==> p + 1 < |u| && p + 2 + data[p + 1] as int < |u|)
      ensures r ==> currentChunk + itemOffset < |u| && data[currentChunk + itemOffset] != 0
    {
      hide AtChunk, AtItem, ReadChunks;
      if !knownFormat {
        return false;
      }
      if currentChunk == 0 {
        return false;
      }
      ItemLookAhead(u, currentChunk + itemOffset, chunks[chunkIndex].items, itemIndex);
      if data[currentChunk + itemOffset] == 0 {
        return false;
      }
      var offset := itemOffset;
      offset := offset + 2;
      offset := offset + data[currentChunk + itemOffset + 1] as int;
      if data[currentChunk + offset] == 0 {
        return false;
      }
      itemOffset := offset;
      itemIndex := itemIndex + 1;
      return true;
    }

    /** The identifier byte that GetItemType looks at. */
    function GetItemId(): (r: byte)
      requires Valid()
      reads this
      ensures r == if HasItem() then chunks[chunkIndex].items[itemIndex].id else 0
    {
      if !knownFormat || currentChunk == 0 then 0
      else
        ItemStep(u, currentChunk + itemOffset, chunks[chunkIndex].items, itemIndex);
        data[currentChunk + itemOffset]
    }

    function GetItemType(): (r: ItemType)
      requires Valid()
      reads this
      ensures r == if HasItem() then TypeOfId(chunks[chunkIndex].items[itemIndex].id) else NoItem
    {
      TypeOfId(GetItemId())
    }

    /** GetItemLength bytes, starting at GetItemData. */
    function GetItemData(): (r: bytes)
      requires Valid()
      reads this
      ensures r == if HasItem() then chunks[chunkIndex].items[itemIndex].data else []
    {
      if !knownFormat || currentChunk == 0 then []
      else
        var p := currentChunk + itemOffset;
        ItemStep(u, p, chunks[chunkIndex].items, itemIndex);
        if data[p] == 0 then [] else data[p + 2..p + 2 + data[p + 1] as int]
    }
  }

  /**
   The receiver's walk: every chunk once, every item of it once, in packet order. What the cursor
   delivers is what the constructor's check walked over, and nothing for a packet of unknown format.
   */
  method Collect(p: SdesPacket) returns (seen: seq<Chunk>)
    requires p.Valid()
    modifies p
    ensures p.Valid() && p.knownFormat == old(p.knownFormat)
    ensures seen == if p.knownFormat then p.chunks else []
  {
    seen := [];
    var more := p.GotoFirstChunk();
    while more
      invariant p.Valid() && p.knownFormat == old(p.knownFormat)
      invariant more ==> p.currentChunk != 0 && seen == p.chunks[..p.chunkIndex]
      invariant !more ==> seen == if p.knownFormat then p.chunks else []
      decreases more, |p.chunks| - p.chunkIndex
    {
      ghost var k := p.chunkIndex;
      var ssrc := p.GetChunkSSRC();
      var items := CollectItems(p);
      assert p.chunks[..k + 1] == p.chunks[..k] + [p.chunks[k]];
      seen := seen + [Chunk(ssrc, items)];
      more := p.GotoNextChunk();
    }
  }

  /** The inner part of the walk: the items of the current chunk. */
  method CollectItems(p: SdesPacket) returns (seen: seq<Item>)
    requires p.Valid() && p.currentChunk != 0
    modifies p
    ensures p.Valid() && p.knownFormat == old(p.knownFormat)
    ensures p.currentChunk == old(p.currentChunk) && p.chunkIndex == old(p.chunkIndex)
    ensures seen == p.chunks[p.chunkIndex].items
  {
    seen := [];
    var more := p.GotoFirstItem();
    while more
      invariant p.Valid() && p.knownFormat == old(p.knownFormat)
      invariant p.currentChunk == old(p.currentChunk) && p.chunkIndex == old(p.chunkIndex)
      invariant more ==> p.HasItem() && seen == p.chunks[p.chunkIndex].items[..p.itemIndex]
      invariant !more ==> seen == p.chunks[p.chunkIndex].items
      decreases more, |p.chunks[p.chunkIndex].items| - p.itemIndex
    {
      ghost var items, k := p.chunks[p.chunkIndex].items, p.itemIndex;
      assert items[..k + 1] == items[..k] + [items[k]];
      seen := seen + [Item(p.GetItemId(), p.GetItemData())];
      more := p.GotoNextItem();
    }
  }
}
