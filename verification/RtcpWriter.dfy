/** The byte writer of EndBuild: one packet after the other goes into the buffer. */
module RtcpWriter {
  import opened Bytes
  import opened RtcpFormat
  import opened RtcpCompound
  import opened RtcpBuild
  import opened RtcpSdesSource

  lemma {:induction false} ImageAppend(ps: seq<Packet>, p: Packet)
    requires AllOk(ps) && PacketOk(p)
    ensures AllOk(ps + [p])
    ensures Image(ps + [p]) == (Image(ps).0 + EncodePacket(p),
                                Image(ps).1 + [PacketRef(TypeOf(p), |Image(ps).0|, |EncodePacket(p)|)])
  {
    hide EncodePacket, PacketOk, Layout, AllBlocks, Flatten;
    assert AllOk([p]);
    EncodedConcat(ps, [p]);
    assert Encoded([p]) == [EncodePacket(p)] + Encoded([]) == [EncodePacket(p)];
    FlattenAppend(Encoded(ps), EncodePacket(p));
    EncodedBlocks(ps);
    EncodedBlock(p);
    LayoutAppend(Encoded(ps), EncodePacket(p), 0);
  }

  /** The packets of done stand at the front of the buffer, and refs lists them. */
  ghost predicate Written(buf: array<byte>, cur: nat, refs: seq<PacketRef>, done: seq<Packet>)
    reads buf
  {
    cur <= buf.Length && AllOk(done) && (buf[..cur], refs) == Image(done)
  }

  lemma {:induction false} WrittenOneMore(buf: array<byte>, cur: nat, refs: seq<PacketRef>, done: seq<Packet>, p: Packet, before: bytes)
    requires AllOk(done) && PacketOk(p) && (before, refs) == Image(done) && |before| == cur
    requires cur + |EncodePacket(p)| <= buf.Length
    requires buf[..cur] == before && buf[cur..cur + |EncodePacket(p)|] == EncodePacket(p)
    ensures Written(buf, cur + |EncodePacket(p)|, refs + [PacketRef(TypeOf(p), cur, |EncodePacket(p)|)], done + [p])
  {
    hide EncodePacket, PacketOk, Image;
    ImageAppend(done, p);
    assert buf[..cur + |EncodePacket(p)|] == buf[..cur] + buf[cur..cur + |EncodePacket(p)|];
  }

  // ---------------------------------------------------------------- the common header

  /** The fields that are set when a packet is begun; the count bits keep what was in the buffer. */
  method BeginHeader(buf: array<byte>, cur: nat, packetType: byte)
    requires cur + 4 <= buf.Length
    modifies buf
    ensures buf[..cur] == old(buf[..cur])
    ensures buf[cur] / 32 == 4 && buf[cur + 1] == packetType
  {
    buf[cur] := RTP_VERSION * 64 + buf[cur] % 32;
    buf[cur + 1] := packetType;
  }

  /** The fields that are set when the packet's end, at offset, is known. */
  method FinishHeader(buf: array<byte>, cur: nat, offset: nat, count: byte)
    requires 4 <= offset && cur + offset <= buf.Length && count <= 31
    requires buf[cur] / 32 == 4
    modifies buf
    ensures buf[..cur] == old(buf[..cur])
    ensures buf[cur..cur + offset] == Header(count, old(buf[cur + 1]), offset) + old(buf[cur + 4..cur + offset])
  {
    var numWords := offset / 4;
    var length := (numWords - 1) % 0x1_0000;
    var hi, lo := (length / 0x100) as byte, (length % 0x100) as byte;
    buf[cur + 2] := hi;
    buf[cur + 3] := lo;
    buf[cur] := buf[cur] / 32 * 32 + count;
    assert Be16(length) == [hi, lo];
    assert buf[cur..cur + 4] == [RTP_VERSION * 64 + count, old(buf[cur + 1])] + [hi, lo];
    assert buf[cur + 4..cur + offset] == old(buf[cur + 4..cur + offset]);
    assert buf[cur..cur + offset] == buf[cur..cur + 4] + buf[cur + 4..cur + offset];
  }

  // ---------------------------------------------------------------- reports

  function BlockBuffers(bs: seq<ReportBlock>): (r: seq<bytes>)
    ensures |r| == |bs|
  {
    if bs == [] then [] else [EncodeBlock(bs[0])] + BlockBuffers(bs[1..])
  }

  lemma {:induction false} BlockBufferAt(bs: seq<ReportBlock>, i: nat)
    requires i < |bs|
    ensures BlockBuffers(bs)[i] == EncodeBlock(bs[i])
    decreases i
  {
    hide EncodeBlock;
    if i > 0 {
      BlockBufferAt(bs[1..], i - 1);
    }
  }

  lemma {:induction false} BlockBuffersAppend(bs: seq<ReportBlock>, b: ReportBlock)
    ensures BlockBuffers(bs + [b]) == BlockBuffers(bs) + [EncodeBlock(b)]
    decreases |bs|
  {
    hide EncodeBlock;
    if bs == [] {
      assert [] + [b] == [b] && BlockBuffers([b]) == [EncodeBlock(b)] + BlockBuffers([]);
    } else {
      assert (bs + [b])[1..] == bs[1..] + [b];
      BlockBuffersAppend(bs[1..], b);
    }
  }

  lemma {:induction false} EncodeBlocksAppend(bs: seq<ReportBlock>, b: ReportBlock)
    ensures EncodeBlocks(bs + [b]) == EncodeBlocks(bs) + EncodeBlock(b)
    decreases |bs|
  {
    hide EncodeBlock;
    if bs == [] {
      assert [] + [b] == [b] && EncodeBlocks([b]) == EncodeBlock(b) + EncodeBlocks([]);
    } else {
      assert (bs + [b])[1..] == bs[1..] + [b];
      EncodeBlocksAppend(bs[1..], b);
    }
  }

  /** memcpy of the report block buffers from it on, at most 31 of them. */
  method CopyBlocks(buf: array<byte>, ghost base: nat, p: nat, reportBlocks: seq<bytes>, it: nat, ghost blocks: seq<ReportBlock>)
    returns (end: nat, next: nat, count: byte)
    requires base <= p && reportBlocks == BlockBuffers(blocks) && it <= |blocks|
    requires p + 24 * Min31(|blocks| - it) <= buf.Length
    modifies buf
    ensures buf[..base] == old(buf[..base])
    ensures next == it + Min31(|blocks| - it) && count as int == next - it && end == p + 24 * (next - it)
    ensures buf[base..end] == old(buf[base..p]) + EncodeBlocks(blocks[it..next])
  {
    hide EncodeBlock, EncodeBlocks, BlockBuffers;
    end, next, count := p, it, 0;
    assert EncodeBlocks(blocks[it..it]) == [] by { NoBlocks(); }
    while next < |reportBlocks| && count < 31
      invariant it <= next <= |blocks| && count as int == next - it <= 31 && end == p + 24 * (next - it)
      invariant buf[..base] == old(buf[..base])
      invariant buf[base..end] == old(buf[base..p]) + EncodeBlocks(blocks[it..next])
    {
      BlockBufferAt(blocks, next);
      EncodeBlocksAppend(blocks[it..next], blocks[next]);
      assert blocks[it..next + 1] == blocks[it..next] + [blocks[next]];
      Append(buf, base, end, reportBlocks[next]);
      end := end + |reportBlocks[next]|;
      count := count + 1;
      next := next + 1;
    }
  }

  lemma {:induction false} NoBlocks()
    ensures EncodeBlocks([]) == []
  {
  }

  function HeaderData(h: ReportHeader): bytes {
    match h
    case NoReport => []
    case SrHeader(ssrc, info) => Be32(ssrc) + EncodeInfo(info)
    case RrHeader(ssrc) => Be32(ssrc)
  }

  lemma {:induction false} HeadReportBytes(h: ReportHeader, blocks: seq<ReportBlock>)
    requires !h.NoReport? && |blocks| <= 31
    ensures EncodePacket(HeadReport(h, blocks))
            == Header(|blocks| as byte, if h.SrHeader? then RTCP_SR else RTCP_RR, 4 + |HeaderData(h)| + 24 * |blocks|)
               + (HeaderData(h) + EncodeBlocks(blocks))
    ensures |EncodePacket(HeadReport(h, blocks))| == 4 + |HeaderData(h)| + 24 * |blocks|
    ensures TypeOf(HeadReport(h, blocks)) == if h.SrHeader? then RTCP_SR else RTCP_RR
  {
    hide EncodeBlocks, EncodeInfo, Be32, Header;
  }

  /** One SR or RR packet at cur, with the blocks from it on. */
  method WriteReport(buf: array<byte>, cur: nat, sr: bool, headerData: bytes, reportBlocks: seq<bytes>, it: nat,
                     ghost h: ReportHeader, ghost blocks: seq<ReportBlock>)
    returns (offset: nat, next: nat)
    requires !h.NoReport? && sr == h.SrHeader? && headerData == HeaderData(h)
    requires reportBlocks == BlockBuffers(blocks) && it <= |blocks|
    requires cur + 4 + |headerData| + 24 * Min31(|blocks| - it) <= buf.Length
    modifies buf
    ensures next == it + Min31(|blocks| - it)
    ensures offset == |EncodePacket(HeadReport(h, blocks[it..next]))| && cur + offset <= buf.Length
    ensures buf[..cur] == old(buf[..cur])
    ensures buf[cur..cur + offset] == EncodePacket(HeadReport(h, blocks[it..next]))
  {
    hide EncodeBlocks, EncodePacket, HeadReport, BlockBuffers, HeaderData, Header;
    BeginHeader(buf, cur, if sr then RTCP_SR else RTCP_RR);
    ghost var head := buf[..cur + 4];
    Append(buf, cur + 4, cur + 4, headerData);
    var end, count;
    end, next, count := CopyBlocks(buf, cur + 4, cur + 4 + |headerData|, reportBlocks, it, blocks);
    offset := end - cur;
    assert buf[..cur + 4] == head;
    assert buf[cur] == head[cur] && buf[cur + 1] == head[cur + 1];
    assert buf[..cur] == head[..cur];
    HeadReportBytes(h, blocks[it..next]);
    FinishHeader(buf, cur, offset, count);
  }

  // ---------------------------------------------------------------- SDES

  /** memcpy of all items of a source. */
  method CopyItems(buf: array<byte>, ghost base: nat, p: nat, items: seq<bytes>) returns (end: nat)
    requires base <= p && p + |Flatten(items)| <= buf.Length
    modifies buf
    ensures buf[..base] == old(buf[..base])
    ensures end == p + |Flatten(items)| && buf[base..end] == old(buf[base..p]) + Flatten(items)
  {
    hide Flatten;
    end := p;
    var i := 0;
    assert Flatten(items[..0]) == [] by { NoBuffers(); }
    while i < |items|
      invariant 0 <= i <= |items|
      invariant end == p + |Flatten(items[..i])| <= buf.Length
      invariant buf[..base] == old(buf[..base])
      invariant buf[base..end] == old(buf[base..p]) + Flatten(items[..i])
    {
      FlattenPrefix(items, i);
      Append(buf, base, end, items[i]);
      end := end + |items[i]|;
      i := i + 1;
    }
    assert items[..|items|] == items;
  }

  lemma {:induction false} NoBuffers()
    ensures Flatten([]) == []
  {
  }

  /** The chunk of a source at p: its SSRC, its items, the zero byte, and zeros up to a 32-bit boundary. */
  method WriteChunk(buf: array<byte>, cur: nat, p: nat, ssrc: u32, items: seq<bytes>, ghost chunk: Chunk)
    returns (end: nat)
    requires ChunkOk(chunk) && ssrc == chunk.ssrc && Flatten(items) == EncodeItems(chunk.items)
    requires cur + 4 <= p && (p - cur) % 4 == 0 && p + |EncodeChunk(chunk)| <= buf.Length
    modifies buf
    ensures buf[..cur + 4] == old(buf[..cur + 4])
    ensures end == p + |EncodeChunk(chunk)| && buf[cur + 4..end] == old(buf[cur + 4..p]) + EncodeChunk(chunk)
  {
    ghost var base := cur + 4;
    hide EncodeItems, Be32, Flatten, PadTo4;
    ghost var list := Be32(ssrc) + EncodeItems(chunk.items) + [0];
    assert EncodeChunk(chunk) == list + Zeros(PadTo4(|list|));
    Append(buf, base, p, Be32(ssrc));
    end := p + 4;
    end := CopyItems(buf, base, end, items);
    Append(buf, base, end, [0]);
    end := end + 1;
    assert buf[base..end] == old(buf[base..p]) + list;
    end := Align(buf, cur, end, |list|);
  }

  /** The alignment step: zeros from end up to the next 32-bit boundary of the packet at cur. */
  method Align(buf: array<byte>, cur: nat, end: nat, ghost length: nat) returns (next: nat)
    requires cur + 4 <= end && (end - length - cur) % 4 == 0 && end + PadTo4(length) <= buf.Length
    modifies buf
    ensures buf[..cur + 4] == old(buf[..cur + 4])
    ensures next == end + PadTo4(length) && buf[cur + 4..next] == old(buf[cur + 4..end]) + Zeros(PadTo4(length))
  {
    next := end;
    var r := (next - cur) % 4;
    if r != 0 {
      var num := 4 - r;
      Append(buf, cur + 4, next, Zeros(num));
      next := next + num;
    }
  }

  lemma {:induction false} FlattenPrefix(bs: seq<bytes>, i: nat)
    requires i < |bs|
    ensures Flatten(bs[..i + 1]) == Flatten(bs[..i]) + bs[i]
    ensures |Flatten(bs[..i + 1])| <= |Flatten(bs)|
  {
    hide Flatten;
    FlattenAppend(bs[..i], bs[i]);
    assert bs[..i + 1] == bs[..i] + [bs[i]];
    FlattenConcat(bs[..i + 1], bs[i + 1..]);
    assert bs == bs[..i + 1] + bs[i + 1..];
  }

  ghost predicate SourcesHold(sources: seq<SdesSource>, chunks: seq<Chunk>)
    reads sources
  {
    && |sources| == |chunks|
    && forall i :: 0 <= i < |sources| ==> sources[i].Valid() && sources[i].chunk == chunks[i]
  }

  lemma {:induction false} EncodeChunksAppend(cs: seq<Chunk>, c: Chunk)
    requires ChunksOk(cs) && ChunkOk(c)
    ensures ChunksOk(cs + [c]) && EncodeChunks(cs + [c]) == EncodeChunks(cs) + EncodeChunk(c)
    decreases |cs|
  {
    hide EncodeChunk, ChunkOk;
    if cs == [] {
      assert [] + [c] == [c] && EncodeChunks([c]) == EncodeChunk(c) + EncodeChunks([]);
    } else {
      assert (cs + [c])[1..] == cs[1..] + [c];
      EncodeChunksAppend(cs[1..], c);
    }
  }

  lemma {:induction false} EncodeChunksPrefix(cs: seq<Chunk>, it: nat, next: nat, end: nat)
    requires ChunksOk(cs) && it <= next < end <= |cs|
    ensures EncodeChunks(cs[it..next + 1]) == EncodeChunks(cs[it..next]) + EncodeChunk(cs[next])
    ensures |EncodeChunks(cs[it..next + 1])| <= |EncodeChunks(cs[it..end])|
    decreases end - next
  {
    hide EncodeChunk, ChunkOk;
    EncodeChunksAppend(cs[it..next], cs[next]);
    assert cs[it..next + 1] == cs[it..next] + [cs[next]];
    if next + 1 < end {
      EncodeChunksPrefix(cs, it, next + 1, end);
    }
  }

  lemma {:induction false} NoChunks()
    ensures EncodeChunks([]) == []
  {
  }

  /** The chunks of the sources from it on, at most 31 of them, into the packet at cur. */
  method CopyChunks(buf: array<byte>, cur: nat, sources: seq<SdesSource>, it: nat, ghost chunks: seq<Chunk>)
    returns (offset: nat, next: nat, count: byte)
    requires SourcesHold(sources, chunks) && ChunksOk(chunks) && it <= |chunks|
    requires cur + 4 + |EncodeChunks(chunks[it..it + Min31(|chunks| - it)])| <= buf.Length
    modifies buf
    ensures buf[..cur + 4] == old(buf[..cur + 4])
    ensures next == it + Min31(|chunks| - it) && count as int == next - it
    ensures offset == 4 + |EncodeChunks(chunks[it..next])| && cur + offset <= buf.Length
    ensures buf[cur + 4..cur + offset] == EncodeChunks(chunks[it..next])
  {
    hide EncodeChunk, EncodeChunks, ItemBuffers, EncodeItems, ItemBytes;
    offset, next, count := 4, it, 0;
    ghost var end := it + Min31(|chunks| - it);
    assert EncodeChunks(chunks[it..it]) == [] by { NoChunks(); }
    while next < |sources| && count < 31
      invariant it <= next <= end && count as int == next - it <= 31 && SourcesHold(sources, chunks)
      invariant offset == 4 + |EncodeChunks(chunks[it..next])| && cur + offset <= buf.Length
      invariant buf[..cur + 4] == old(buf[..cur + 4])
      invariant buf[cur + 4..cur + offset] == EncodeChunks(chunks[it..next])
      decreases |sources| - next
    {
      EncodeChunksPrefix(chunks, it, next, end);
      ChunksAligned(chunks[it..next]);
      ItemBuffersFlatten(chunks[next].items);
      assert sources[next].items == ItemBuffers(chunks[next].items);
      var stop := WriteChunk(buf, cur, cur + offset, sources[next].ssrc, sources[next].items, chunks[next]);
      offset := stop - cur;
      next := next + 1;
      count := count + 1;
    }
  }

  /** One SDES packet at cur, with the chunks of the sources from it on. */
  method WriteSdes(buf: array<byte>, cur: nat, sources: seq<SdesSource>, it: nat, ghost chunks: seq<Chunk>)
    returns (offset: nat, next: nat)
    requires SourcesHold(sources, chunks) && ChunksOk(chunks) && it < |chunks|
    requires cur + |EncodePacket(SDES(chunks[it..it + Min31(|chunks| - it)]))| <= buf.Length
    modifies buf
    ensures next == it + Min31(|chunks| - it) && PacketOk(SDES(chunks[it..next]))
    ensures offset == |EncodePacket(SDES(chunks[it..next]))| && cur + offset <= buf.Length
    ensures buf[..cur] == old(buf[..cur])
    ensures buf[cur..cur + offset] == EncodePacket(SDES(chunks[it..next]))
  {
    hide EncodeChunks, ChunkOk, SdesSource.Valid, Header;
    BeginHeader(buf, cur, RTCP_SDES);
    ghost var head := buf[..cur + 4];
    var count;
    offset, next, count := CopyChunks(buf, cur, sources, it, chunks);
    assert buf[..cur + 4] == head;
    assert buf[cur] == head[cur] && buf[cur + 1] == head[cur + 1];
    assert buf[..cur] == head[..cur];
    FinishHeader(buf, cur, offset, count);
  }

  // ---------------------------------------------------------------- the four parts

  lemma {:induction false} RoomForNext(done: seq<Packet>, p: Packet, rest: seq<Packet>)
    requires AllOk(done) && PacketOk(p) && AllOk(rest)
    ensures AllOk(done + ([p] + rest)) && AllOk(done + [p])
    ensures |BytesOf(done)| + |EncodePacket(p)| <= |BytesOf(done + ([p] + rest))|
    ensures done + ([p] + rest) == (done + [p]) + rest
  {
    hide EncodePacket, PacketOk, BytesOf;
    BytesOfCons(p, rest);
    BytesOfConcat(done, [p] + rest);
  }

  lemma {:induction false} RoomForLast(done: seq<Packet>, p: Packet)
    requires AllOk(done) && PacketOk(p)
    ensures AllOk(done + [p])
    ensures |BytesOf(done)| + |EncodePacket(p)| == |BytesOf(done + [p])|
  {
    hide EncodePacket, PacketOk, BytesOf;
    assert AllOk([p]);
    BytesOfOne(p);
    BytesOfConcat(done, [p]);
  }

  lemma {:induction false} NothingWritten(buf: array<byte>)
    ensures Written(buf, 0, [], []) && BytesOf([]) == []
  {
  }

  /** The reports that are left when the blocks from it on are not written yet. */
  ghost function ReportsFrom(h: ReportHeader, blocks: seq<ReportBlock>, first: bool, it: nat): (ps: seq<Packet>)
    requires !h.NoReport? && it <= |blocks|
    ensures AllOk(ps)
  {
    ReportPackets(if first then h else RrHeader(h.ssrc), blocks[it..])
  }

  lemma {:induction false} ReportsStep(h: ReportHeader, blocks: seq<ReportBlock>, first: bool, it: nat)
    requires !h.NoReport? && it <= |blocks|
    ensures var next := it + Min31(|blocks| - it);
            var p := HeadReport(if first then h else RrHeader(h.ssrc), blocks[it..next]);
            ReportsFrom(h, blocks, first, it)
            == [p] + if next < |blocks| then ReportsFrom(h, blocks, false, next) else []
  {
    hide PacketOk;
    var n := Min31(|blocks| - it);
    assert blocks[it..][..n] == blocks[it..it + n] && blocks[it..][n..] == blocks[it + n..];
  }

  /** One SR or RR packet goes behind those that are written. */
  method WriteNextReport(buf: array<byte>, cur: nat, refs: seq<PacketRef>, sr: bool, headerData: bytes, reportBlocks: seq<bytes>, it: nat,
                         ghost h: ReportHeader, ghost blocks: seq<ReportBlock>, ghost done: seq<Packet>)
    returns (end: nat, list: seq<PacketRef>, next: nat)
    requires !h.NoReport? && sr == h.SrHeader? && headerData == HeaderData(h)
    requires reportBlocks == BlockBuffers(blocks) && it <= |blocks|
    requires Written(buf, cur, refs, done) && cur == |BytesOf(done)|
    requires var p := HeadReport(h, blocks[it..it + Min31(|blocks| - it)]); PacketOk(p) && cur + |EncodePacket(p)| <= buf.Length
    modifies buf
    ensures next == it + Min31(|blocks| - it)
    ensures var all := done + [HeadReport(h, blocks[it..next])]; Written(buf, end, list, all) && end == |BytesOf(all)|
  {
    hide EncodePacket, PacketOk, Image, BytesOf, HeadReport, BlockBuffers;
    ghost var p, before := HeadReport(h, blocks[it..it + Min31(|blocks| - it)]), buf[..cur];
    HeadReportBytes(h, blocks[it..it + Min31(|blocks| - it)]);
    RoomForLast(done, p);
    var offset;
    offset, next := WriteReport(buf, cur, sr, headerData, reportBlocks, it, h, blocks);
    WrittenOneMore(buf, cur, refs, done, p, before);
    list := refs + [PacketRef(if sr then RTCP_SR else RTCP_RR, cur, offset)];
    end := cur + offset;
  }

  /** All SR and RR packets. The first may be a sender report; the others take only the SSRC from the header. */
  method WriteReports(buf: array<byte>, isSR: bool, headerData: bytes, reportBlocks: seq<bytes>,
                      ghost h: ReportHeader, ghost blocks: seq<ReportBlock>)
    returns (cur: nat, refs: seq<PacketRef>)
    requires !h.NoReport? && isSR == h.SrHeader? && headerData == HeaderData(h) && reportBlocks == BlockBuffers(blocks)
    requires |BytesOf(ReportPackets(h, blocks))| <= buf.Length
    modifies buf
    ensures Written(buf, cur, refs, ReportPackets(h, blocks)) && cur == |BytesOf(ReportPackets(h, blocks))|
  {
    hide ReportPackets, EncodePacket, PacketOk, Image, BytesOf, HeadReport, BlockBuffers, Written;
    ghost var all := ReportPackets(h, blocks);
    ghost var done: seq<Packet> := [];
    var first, finished, it := true, false, 0;
    cur, refs := 0, [];
    assert blocks[0..] == blocks;
    NothingWritten(buf);
    while !finished
      invariant it <= |blocks| && AllOk(done) && Written(buf, cur, refs, done) && cur == |BytesOf(done)|
      invariant all == done + if finished then [] else ReportsFrom(h, blocks, first, it)
      invariant !first && !finished ==> it < |blocks|
      decreases !finished, |blocks| - it
    {
      ghost var hh := if first then h else RrHeader(h.ssrc);
      ghost var stop := it + Min31(|blocks| - it);
      ghost var p := HeadReport(hh, blocks[it..stop]);
      ReportsStep(h, blocks, first, it);
      RoomForNext(done, p, if stop < |blocks| then ReportsFrom(h, blocks, false, stop) else []);
      cur, refs, it := WriteNextReport(buf, cur, refs, first && isSR, if first && isSR then headerData else headerData[..4],
                                       reportBlocks, it, hh, blocks, done);
      done := done + [p];
      first := false;
      if it == |reportBlocks| {
        finished := true;
      }
    }
    assert done + [] == done;
  }

  lemma {:induction false} SdesStep(chunks: seq<Chunk>, it: nat)
    requires ChunksOk(chunks) && it < |chunks|
    ensures var next := it + Min31(|chunks| - it);
            PacketOk(SDES(chunks[it..next])) && SdesPackets(chunks[it..]) == [SDES(chunks[it..next])] + SdesPackets(chunks[next..])
  {
    var n := Min31(|chunks| - it);
    assert chunks[it..][..n] == chunks[it..it + n] && chunks[it..][n..] == chunks[it + n..];
  }

  /** All SDES packets, behind the packets in start. */
  method WriteSdesPackets(buf: array<byte>, start: nat, startRefs: seq<PacketRef>, sources: seq<SdesSource>,
                          ghost chunks: seq<Chunk>, ghost before: seq<Packet>)
    returns (cur: nat, refs: seq<PacketRef>)
    requires SourcesHold(sources, chunks) && ChunksOk(chunks) && AllOk(before + SdesPackets(chunks))
    requires Written(buf, start, startRefs, before) && start == |BytesOf(before)|
    requires |BytesOf(before + SdesPackets(chunks))| <= buf.Length
    modifies buf
    ensures Written(buf, cur, refs, before + SdesPackets(chunks)) && cur == |BytesOf(before + SdesPackets(chunks))|
  {
    hide EncodePacket, PacketOk, Image, BytesOf, SdesPackets, ChunkOk, SdesSource.Valid;
    ghost var all := before + SdesPackets(chunks);
    ghost var done := before;
    var it := 0;
    cur, refs := start, startRefs;
    assert chunks[0..] == chunks;
    while it < |sources|
      invariant it <= |chunks| && Written(buf, cur, refs, done) && cur == |BytesOf(done)|
      invariant SourcesHold(sources, chunks) && all == done + SdesPackets(chunks[it..])
      decreases |sources| - it
    {
      ghost var stop := it + Min31(|chunks| - it);
      SdesStep(chunks, it);
      ghost var p := SDES(chunks[it..stop]);
      ghost var kept := buf[..cur];
      RoomForNext(done, p, SdesPackets(chunks[stop..]));
      RoomForLast(done, p);
      var offset, next := WriteSdes(buf, cur, sources, it, chunks);
      WrittenOneMore(buf, cur, refs, done, p, kept);
      refs := refs + [PacketRef(RTCP_SDES, cur, offset)];
      done := done + [p];
      cur := cur + offset;
      it := next;
    }
    assert SdesPackets(chunks[it..]) == [] by { NoSdes(chunks[it..]); }
    assert done + [] == done;
  }

  lemma {:induction false} NoSdes(chunks: seq<Chunk>)
    requires chunks == []
    ensures SdesPackets(chunks) == []
  {
  }

  /** Packets that were formed when they were added: the APP packets, and the BYE packets. */
  method WriteFormed(buf: array<byte>, start: nat, startRefs: seq<PacketRef>, list: seq<bytes>, packetType: byte,
                     ghost ps: seq<Packet>, ghost before: seq<Packet>)
    returns (cur: nat, refs: seq<PacketRef>)
    requires AllOk(ps) && AllOk(before + ps) && list == Encoded(ps)
    requires forall i :: 0 <= i < |ps| ==> TypeOf(ps[i]) == packetType
    requires Written(buf, start, startRefs, before) && start == |BytesOf(before)|
    requires |BytesOf(before + ps)| <= buf.Length
    modifies buf
    ensures Written(buf, cur, refs, before + ps) && cur == |BytesOf(before + ps)|
  {
    hide EncodePacket, PacketOk, Image, BytesOf, Encoded, TypeOf;
    ghost var done := before;
    var it := 0;
    cur, refs := start, startRefs;
    assert before == before + ps[..0];
    while it < |list|
      invariant 0 <= it <= |ps| && Written(buf, cur, refs, done) && cur == |BytesOf(done)|
      invariant done == before + ps[..it]
    {
      ghost var p := ps[it];
      ghost var kept := buf[..cur];
      EncodedAt(ps, it);
      assert before + ps == done + ([p] + ps[it + 1..]);
      assert AllOk(ps[it + 1..]);
      RoomForNext(done, p, ps[it + 1..]);
      RoomForLast(done, p);
      Append(buf, cur, cur, list[it]);
      assert buf[cur..cur + |list[it]|] == list[it];
      WrittenOneMore(buf, cur, refs, done, p, kept);
      refs := refs + [PacketRef(packetType, cur, |list[it]|)];
      done := done + [p];
      cur := cur + |list[it]|;
      it := it + 1;
    }
    assert ps[..|ps|] == ps;
  }
}
