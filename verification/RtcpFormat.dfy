/**
 The RTCP packets of sections 6.4 to 6.7 of RFC 3550: what the builder writes for each of them,
 and what the packet classes' constructors and accessors read back.
 */
module RtcpFormat {
  import opened Bytes

  const RTP_VERSION: byte := 2
  const RTCP_SR: byte := 200
  const RTCP_RR: byte := 201
  const RTCP_SDES: byte := 202
  const RTCP_BYE: byte := 203
  const RTCP_APP: byte := 204
  const SDES_PRIV: byte := 8
  const MAX_PER_PACKET := 31  // the five-bit count field of the common header

  datatype SenderInfo = SenderInfo(ntpMsw: u32, ntpLsw: u32, rtpTimestamp: u32, packetCount: u32, octetCount: u32)

  datatype ReportBlock = ReportBlock(ssrc: u32, fractionLost: byte, packetsLost: i32, extHighSeq: u32,
                                     jitter: u32, lsr: u32, dlsr: u32)

  datatype Item = Item(id: byte, data: bytes)

  datatype Chunk = Chunk(ssrc: u32, items: seq<Item>)

  datatype Packet =
    | SR(ssrc: u32, info: SenderInfo, blocks: seq<ReportBlock>)
    | RR(ssrc: u32, blocks: seq<ReportBlock>)
    | SDES(chunks: seq<Chunk>)
    | BYE(ssrcs: seq<u32>, reason: bytes)
    | APP(subtype: byte, ssrc: u32, name: bytes, data: bytes)

  predicate ItemOk(i: Item) {
    i.id != 0 && |i.data| <= 255
  }

  predicate ChunkOk(c: Chunk) {
    forall i :: 0 <= i < |c.items| ==> ItemOk(c.items[i])
  }

  /** What the arguments of the builder's calls guarantee about a packet. */
  predicate PacketOk(p: Packet) {
    match p
    case SR(_, _, blocks) => |blocks| <= MAX_PER_PACKET
    case RR(_, blocks) => |blocks| <= MAX_PER_PACKET
    case SDES(chunks) => |chunks| <= MAX_PER_PACKET && forall i :: 0 <= i < |chunks| ==> ChunkOk(chunks[i])
    case BYE(ssrcs, reason) => |ssrcs| <= MAX_PER_PACKET && |reason| <= 255
    case APP(subtype, _, name, data) => subtype <= 31 && |name| == 4 && |data| % 4 == 0 && |data| / 4 + 2 <= 65535
  }

  // ---------------------------------------------------------------- writing

  function EncodeInfo(i: SenderInfo): (b: bytes)
    ensures |b| == 20
  {
    Words([i.ntpMsw, i.ntpLsw, i.rtpTimestamp, i.packetCount, i.octetCount])
  }

  /** The low 24 bits of the two's complement pattern of v. */
  function Low24(v: i32): (b: bytes)
    ensures |b| == 3
  {
    var w: int := v % 0x1_0000_0000;
    [(w / 0x1_0000 % 0x100) as byte] + Be16(w % 0x1_0000)
  }

  function EncodeBlock(b: ReportBlock): (r: bytes)
    ensures |r| == 24
  {
    Be32(b.ssrc) + [b.fractionLost] + Low24(b.packetsLost) + Words([b.extHighSeq, b.jitter, b.lsr, b.dlsr])
  }

  function EncodeBlocks(bs: seq<ReportBlock>): (r: bytes)
    ensures |r| == 24 * |bs|
  {
    if bs == [] then [] else EncodeBlock(bs[0]) + EncodeBlocks(bs[1..])
  }

  function EncodeItem(i: Item): (b: bytes)
    requires ItemOk(i)
    ensures |b| == 2 + |i.data|
  {
    [i.id, |i.data| as byte] + i.data
  }

  function EncodeItems(its: seq<Item>): (b: bytes)
    requires forall i :: 0 <= i < |its| ==> ItemOk(its[i])
  {
    if its == [] then [] else EncodeItem(its[0]) + EncodeItems(its[1..])
  }

  function EncodeChunk(c: Chunk): (b: bytes)
    requires ChunkOk(c)
    ensures |b| >= 5
  {
    var list := Be32(c.ssrc) + EncodeItems(c.items) + [0];
    list + Zeros(PadTo4(|list|))
  }

  function EncodeChunks(cs: seq<Chunk>): (b: bytes)
    requires forall i :: 0 <= i < |cs| ==> ChunkOk(cs[i])
  {
    if cs == [] then [] else EncodeChunk(cs[0]) + EncodeChunks(cs[1..])
  }

  /** Section 6.6 of RFC 3550: the optional reason is length-prefixed and padded with zeros. */
  function EncodeReason(reason: bytes): (b: bytes)
    requires |reason| <= 255
  {
    if reason == [] then [] else [|reason| as byte] + reason + Zeros(PadTo4(1 + |reason|))
  }

  function Body(p: Packet): (b: bytes)
    requires PacketOk(p)
  {
    match p
    case SR(ssrc, info, blocks) => Be32(ssrc) + EncodeInfo(info) + EncodeBlocks(blocks)
    case RR(ssrc, blocks) => Be32(ssrc) + EncodeBlocks(blocks)
    case SDES(chunks) => EncodeChunks(chunks)
    case BYE(ssrcs, reason) => Words(ssrcs) + EncodeReason(reason)
    case APP(_, ssrc, name, data) => Be32(ssrc) + name + data
  }

  function CountOf(p: Packet): (c: byte)
    requires PacketOk(p)
    ensures c <= 31
  {
    match p
    case SR(_, _, blocks) => |blocks| as byte
    case RR(_, blocks) => |blocks| as byte
    case SDES(chunks) => |chunks| as byte
    case BYE(ssrcs, _) => |ssrcs| as byte
    case APP(subtype, _, _, _) => subtype
  }

  function TypeOf(p: Packet): byte {
    match p
    case SR(_, _, _) => RTCP_SR
    case RR(_, _) => RTCP_RR
    case SDES(_) => RTCP_SDES
    case BYE(_, _) => RTCP_BYE
    case APP(_, _, _, _) => RTCP_APP
  }

  /** The common header; the length field is 16 bits wide and counts words minus one. */
  function Header(count: byte, packetType: byte, total: nat): (b: bytes)
    requires count <= 31 && total >= 4
    ensures |b| == 4
  {
    [RTP_VERSION * 64 + count, packetType] + Be16((total / 4 - 1) % 0x1_0000)
  }

  function EncodePacket(p: Packet): (b: bytes)
    requires PacketOk(p)
    ensures |b| >= 4
  {
    Header(CountOf(p), TypeOf(p), 4 + |Body(p)|) + Body(p)
  }

  lemma {:induction false} ChunkAligned(c: Chunk)
    requires ChunkOk(c)
    ensures |EncodeChunk(c)| % 4 == 0 && |EncodeChunk(c)| >= 8
  {
  }

  lemma {:induction false} ChunksAligned(cs: seq<Chunk>)
    requires forall i :: 0 <= i < |cs| ==> ChunkOk(cs[i])
    ensures |EncodeChunks(cs)| % 4 == 0
    decreases |cs|
  {
    if cs != [] {
      ChunkAligned(cs[0]);
      ChunksAligned(cs[1..]);
    }
  }

  /** Every packet fills a whole number of 32-bit words. */
  lemma {:induction false} BodyAligned(p: Packet)
    requires PacketOk(p)
    ensures |Body(p)| % 4 == 0
  {
    match p {
      case SR(_, _, _) =>
      case RR(_, _) =>
      case SDES(chunks) => ChunksAligned(chunks);
      case BYE(ssrcs, reason) => assert |EncodeReason(reason)| % 4 == 0;
      case APP(_, _, _, _) =>
    }
  }

  // ---------------------------------------------------------------- reading

  predicate HasPadding(d: bytes)
    requires |d| >= 4
  {
    d[0] / 32 % 2 == 1
  }

  function HeaderCount(d: bytes): (c: byte)
    requires |d| >= 4
    ensures c <= 31
  {
    d[0] % 32
  }

  /** The packet without its trailing padding, or None when the padding count is not acceptable. */
  function Unpadded(d: bytes): (r: Option<bytes>)
    requires |d| >= 4
    ensures r.Some? ==> r.value <= d
  {
    if !HasPadding(d) then Some(d)
    else
      var pad := d[|d| - 1];
      if pad % 4 != 0 || pad as int >= |d| then None else Some(d[..|d| - pad as int])
  }

  function InfoAt(d: bytes, p: nat): SenderInfo
    requires p + 20 <= |d|
  {
    SenderInfo(U32At(d, p), U32At(d, p + 4), U32At(d, p + 8), U32At(d, p + 12), U32At(d, p + 16))
  }

  /** GetLostPacketCount: three bytes, with bit 23 extended over the top byte. */
  function LostAt(d: bytes, p: nat): i32
    requires p + 3 <= |d|
  {
    var count := U16At(d, p + 1) + d[p] as int * 0x1_0000;
    if count / 0x80_0000 % 2 != 0 then count + 0xFF00_0000 - 0x1_0000_0000 else count
  }

  function BlockAt(d: bytes, p: nat): ReportBlock
    requires p + 24 <= |d|
  {
    ReportBlock(U32At(d, p), d[p + 4], LostAt(d, p + 5), U32At(d, p + 8), U32At(d, p + 12), U32At(d, p + 16), U32At(d, p + 20))
  }

  /** The n report blocks that start at p. */
  function BlocksAt(d: bytes, p: nat, n: nat): (r: seq<ReportBlock>)
    requires p + 24 * n <= |d|
    ensures |r| == n
    decreases n
  {
    if n == 0 then [] else [BlockAt(d, p)] + BlocksAt(d, p + 24, n - 1)
  }

  function SsrcsAt(d: bytes, p: nat, n: nat): (r: seq<u32>)
    requires p + 4 * n <= |d|
    ensures |r| == n
    decreases n
  {
    if n == 0 then [] else [U32At(d, p)] + SsrcsAt(d, p + 4, n - 1)
  }

  /** The accessors take an index: report block i is read at byte 24 * i of the run. */
  lemma {:induction false} BlockByIndex(d: bytes, p: nat, n: nat, i: nat)
    requires p + 24 * n <= |d| && i < n
    ensures BlocksAt(d, p, n)[i] == BlockAt(d, p + 24 * i)
    decreases i
  {
    if i > 0 {
      BlockByIndex(d, p + 24, n - 1, i - 1);
      assert p + 24 + 24 * (i - 1) == p + 24 * i;
    }
  }

  /** The items from position p up to the zero byte, and the position after that byte. */
  function DecodeItems(b: bytes, p: nat): (r: Option<(seq<Item>, nat)>)
    requires p <= |b|
    ensures r.Some? ==> p < r.value.1 <= |b|
    decreases |b| - p
  {
    if p == |b| then None
    else if b[p] == 0 then Some(([], p + 1))
    else if p + 2 > |b| || p + 2 + b[p + 1] as int > |b| then None
    else
      var next := p + 2 + b[p + 1] as int;
      match DecodeItems(b, next)
      case None => None
      case Some((items, q)) => Some(([Item(b[p], b[p + 2..next])] + items, q))
  }

  /** One chunk at position p, and the 32-bit boundary after it. */
  function DecodeChunk(b: bytes, p: nat): (r: Option<(Chunk, nat)>)
    requires p <= |b|
    ensures r.Some? ==> p + 8 <= r.value.1 <= |b|
  {
    if |b| - p < 8 then None
    else
      match DecodeItems(b, p + 4)
      case None => None
      case Some((items, q)) =>
        var next := q + PadTo4(q - p);
        if next > |b| then None else Some((Chunk(U32At(b, p), items), next))
  }

  /** Exactly n chunks from position p to the end of b. */
  function DecodeChunks(b: bytes, p: nat, n: nat): (r: Option<seq<Chunk>>)
    requires p <= |b|
    ensures r.Some? ==> |r.value| == n
    decreases n
  {
    if n == 0 then (if p == |b| then Some([]) else None)
    else
      match DecodeChunk(b, p)
      case None => None
      case Some((c, q)) =>
        match DecodeChunks(b, q, n - 1)
        case None => None
        case Some(cs) => Some([c] + cs)
  }

  function DecodeSr(count: nat, u: bytes): Option<Packet> {
    if 28 + 24 * count != |u| then None
    else Some(SR(U32At(u, 4), InfoAt(u, 8), BlocksAt(u, 28, count)))
  }

  function DecodeRr(count: nat, u: bytes): Option<Packet> {
    if 8 + 24 * count != |u| then None
    else Some(RR(U32At(u, 4), BlocksAt(u, 8, count)))
  }

  function DecodeSdes(count: nat, u: bytes): Option<Packet> {
    if |u| < 4 then None
    else
      match DecodeChunks(u, 4, count)
      case None => None
      case Some(chunks) => Some(SDES(chunks))
  }

  /** The reason for leaving that follows the SSRCs of a BYE packet; it may be absent. */
  function ReasonAt(u: bytes, p: nat): Option<bytes>
    requires p <= |u|
  {
    if p == |u| then Some([])
    else if u[p] as int > |u| - p - 1 then None
    else Some(u[p + 1..p + 1 + u[p] as int])
  }

  function DecodeBye(count: nat, u: bytes): Option<Packet> {
    if 4 + 4 * count > |u| then None
    else
      match ReasonAt(u, 4 + 4 * count)
      case None => None
      case Some(reason) => Some(BYE(SsrcsAt(u, 4, count), reason))
  }

  function DecodeApp(count: byte, u: bytes): Option<Packet> {
    if |u| < 12 then None else Some(APP(count, U32At(u, 4), u[8..12], u[12..]))
  }

  function DecodeBody(packetType: byte, count: byte, u: bytes): Option<Packet> {
    if packetType == RTCP_SR then DecodeSr(count as int, u)
    else if packetType == RTCP_RR then DecodeRr(count as int, u)
    else if packetType == RTCP_SDES then DecodeSdes(count as int, u)
    else if packetType == RTCP_BYE then DecodeBye(count as int, u)
    else if packetType == RTCP_APP then DecodeApp(count, u)
    else None
  }

  /**
   The packet that the class chosen by the type byte reads from its bytes. None stands for a
   packet of unknown format, or of a type that no class describes.
   */
  function DecodePacket(d: bytes): Option<Packet>
    requires |d| >= 4
  {
    match Unpadded(d)
    case None => None
    case Some(u) => DecodeBody(d[1], HeaderCount(d), u)
  }

  // ------------------------------------------------------------ round trips

  /** The value of the 24-bit signed field that a 32-bit loss count is cut down to. */
  function Wrap24(v: i32): i32 {
    (v + 0x80_0000) % 0x100_0000 - 0x80_0000
  }

  function Canonical(b: ReportBlock): ReportBlock {
    b.(packetsLost := Wrap24(b.packetsLost))
  }

  function CanonicalBlocks(bs: seq<ReportBlock>): (r: seq<ReportBlock>)
    ensures |r| == |bs| && forall i :: 0 <= i < |bs| ==> r[i] == Canonical(bs[i])
  {
    if bs == [] then [] else [Canonical(bs[0])] + CanonicalBlocks(bs[1..])
  }

  /** The packet as a receiver sees it: equal to p except that loss counts went through 24 bits. */
  function CanonicalPacket(p: Packet): Packet {
    match p
    case SR(ssrc, info, blocks) => SR(ssrc, info, CanonicalBlocks(blocks))
    case RR(ssrc, blocks) => RR(ssrc, CanonicalBlocks(blocks))
    case _ => p
  }

  lemma {:induction false} CanonicalIsIdentityExactlyInRange(b: ReportBlock)
    ensures Canonical(b) == b <==> -0x80_0000 <= b.packetsLost < 0x80_0000
  {
  }

  lemma {:induction false} LostRoundTrip(d: bytes, p: nat, v: i32)
    requires At(d, p, Low24(v))
    ensures LostAt(d, p) == Wrap24(v)
  {
    var w: int := v % 0x1_0000_0000;
    AtConcat(d, p, [(w / 0x1_0000 % 0x100) as byte], Be16(w % 0x1_0000));
    assert d[p + 0] == [(w / 0x1_0000 % 0x100) as byte][0];
    Read16(d, p + 1, w % 0x1_0000);
    assert w / 0x1_0000 % 0x100 * 0x1_0000 + w % 0x1_0000 == w % 0x100_0000;
    SignExtension(v);
  }

  lemma {:induction false} SignExtension(v: i32)
    ensures var c := v % 0x1_0000_0000 % 0x100_0000;
            Wrap24(v) == if c / 0x80_0000 % 2 != 0 then c - 0x100_0000 else c
  {
    var c := v % 0x1_0000_0000 % 0x100_0000;
    assert (v - c) % 0x100_0000 == 0;
  }

  lemma {:induction false} BlockRoundTrip(d: bytes, p: nat, b: ReportBlock)
    requires At(d, p, EncodeBlock(b))
    ensures BlockAt(d, p) == Canonical(b)
  {
    var ws := [b.extHighSeq, b.jitter, b.lsr, b.dlsr];
    AtConcat(d, p, Be32(b.ssrc) + [b.fractionLost] + Low24(b.packetsLost), Words(ws));
    AtConcat(d, p, Be32(b.ssrc) + [b.fractionLost], Low24(b.packetsLost));
    AtConcat(d, p, Be32(b.ssrc), [b.fractionLost]);
    Read32(d, p, b.ssrc);
    assert d[p + 4 + 0] == [b.fractionLost][0];
    LostRoundTrip(d, p + 5, b.packetsLost);
    ReadWord(d, p + 8, ws, 0);
    ReadWord(d, p + 8, ws, 1);
    ReadWord(d, p + 8, ws, 2);
    ReadWord(d, p + 8, ws, 3);
  }

  lemma {:induction false} BlocksRoundTrip(d: bytes, p: nat, bs: seq<ReportBlock>)
    requires At(d, p, EncodeBlocks(bs))
    ensures BlocksAt(d, p, |bs|) == CanonicalBlocks(bs)
    decreases |bs|
  {
    if bs != [] {
      AtConcat(d, p, EncodeBlock(bs[0]), EncodeBlocks(bs[1..]));
      BlockRoundTrip(d, p, bs[0]);
      BlocksRoundTrip(d, p + 24, bs[1..]);
    }
  }

  lemma {:induction false} InfoRoundTrip(d: bytes, p: nat, info: SenderInfo)
    requires At(d, p, EncodeInfo(info))
    ensures InfoAt(d, p) == info
  {
    var ws := [info.ntpMsw, info.ntpLsw, info.rtpTimestamp, info.packetCount, info.octetCount];
    ReadWord(d, p, ws, 0);
    ReadWord(d, p, ws, 1);
    ReadWord(d, p, ws, 2);
    ReadWord(d, p, ws, 3);
    ReadWord(d, p, ws, 4);
  }

  lemma {:induction false} SsrcsRoundTrip(d: bytes, p: nat, vs: seq<u32>)
    requires At(d, p, Words(vs))
    ensures SsrcsAt(d, p, |vs|) == vs
    decreases |vs|
  {
    if vs != [] {
      AtConcat(d, p, Be32(vs[0]), Words(vs[1..]));
      Read32(d, p, vs[0]);
      SsrcsRoundTrip(d, p + 4, vs[1..]);
    }
  }

  lemma {:induction false} ItemsRoundTrip(b: bytes, p: nat, items: seq<Item>)
    requires forall i :: 0 <= i < |items| ==> ItemOk(items[i])
    requires At(b, p, EncodeItems(items)) && p + |EncodeItems(items)| < |b| && b[p + |EncodeItems(items)|] == 0
    ensures DecodeItems(b, p) == Some((items, p + |EncodeItems(items)| + 1))
    decreases |items|
  {
    if items != [] {
      var it := items[0];
      var next := p + 2 + |it.data|;
      AtConcat(b, p, EncodeItem(it), EncodeItems(items[1..]));
      AtConcat(b, p, [it.id, |it.data| as byte], it.data);
      assert b[p + 0] == [it.id, |it.data| as byte][0] && b[p + 1] == [it.id, |it.data| as byte][1];
      AtSlice(b, p + 2, it.data);
      ItemsRoundTrip(b, next, items[1..]);
      assert items == [Item(b[p], b[p + 2..next])] + items[1..];
    }
  }

  lemma {:induction false} ChunkRoundTrip(b: bytes, p: nat, c: Chunk)
    requires ChunkOk(c) && At(b, p, EncodeChunk(c))
    ensures DecodeChunk(b, p) == Some((c, p + |EncodeChunk(c)|))
  {
    var items := EncodeItems(c.items);
    var list := Be32(c.ssrc) + items + [0];
    AtConcat(b, p, list, Zeros(PadTo4(|list|)));
    AtConcat(b, p, Be32(c.ssrc) + items, [0]);
    AtConcat(b, p, Be32(c.ssrc), items);
    Read32(b, p, c.ssrc);
    assert b[p + |Be32(c.ssrc) + items| + 0] == [0][0];
    ItemsRoundTrip(b, p + 4, c.items);
  }

  lemma {:induction false} ChunksRoundTrip(b: bytes, p: nat, cs: seq<Chunk>)
    requires forall i :: 0 <= i < |cs| ==> ChunkOk(cs[i])
    requires At(b, p, EncodeChunks(cs)) && p + |EncodeChunks(cs)| == |b|
    ensures DecodeChunks(b, p, |cs|) == Some(cs)
    decreases |cs|
  {
    if cs != [] {
      AtConcat(b, p, EncodeChunk(cs[0]), EncodeChunks(cs[1..]));
      var c, rest := cs[0], cs[1..];
      var next := p + |EncodeChunk(c)|;
      assert cs == [c] + rest;
      ChunkRoundTrip(b, p, c);
      ChunksRoundTrip(b, next, rest);
      assert DecodeChunk(b, p) == Some((c, next)) && DecodeChunks(b, next, |cs| - 1) == Some(rest);
    }
  }

  lemma {:induction false} HeaderFields(d: bytes, p: nat, count: byte, packetType: byte, total: nat)
    requires count <= 31 && total >= 4 && At(d, p, Header(count, packetType, total))
    ensures d[p] / 64 == RTP_VERSION && d[p] / 32 % 2 == 0 && d[p] % 32 == count && d[p + 1] == packetType
  {
    assert d[p + 0] == Header(count, packetType, total)[0] && d[p + 1] == Header(count, packetType, total)[1];
  }

  lemma {:induction false} HeaderLength(d: bytes, p: nat, count: byte, packetType: byte, total: nat)
    requires count <= 31 && total >= 4 && At(d, p, Header(count, packetType, total))
    ensures U16At(d, p + 2) == (total / 4 - 1) % 0x1_0000
  {
    var len := (total / 4 - 1) % 0x1_0000;
    AtConcat(d, p, [RTP_VERSION * 64 + count, packetType], Be16(len));
    Read16(d, p + 2, len);
  }

  lemma {:induction false} SrRoundTrip(d: bytes, ssrc: u32, info: SenderInfo, blocks: seq<ReportBlock>)
    requires |d| == 28 + 24 * |blocks|
    requires At(d, 4, Be32(ssrc) + EncodeInfo(info) + EncodeBlocks(blocks))
    ensures DecodeSr(|blocks|, d) == Some(SR(ssrc, info, CanonicalBlocks(blocks)))
  {
    AtConcat(d, 4, Be32(ssrc) + EncodeInfo(info), EncodeBlocks(blocks));
    AtConcat(d, 4, Be32(ssrc), EncodeInfo(info));
    Read32(d, 4, ssrc);
    InfoRoundTrip(d, 8, info);
    BlocksRoundTrip(d, 28, blocks);
  }

  lemma {:induction false} RrRoundTrip(d: bytes, ssrc: u32, blocks: seq<ReportBlock>)
    requires |d| == 8 + 24 * |blocks|
    requires At(d, 4, Be32(ssrc) + EncodeBlocks(blocks))
    ensures DecodeRr(|blocks|, d) == Some(RR(ssrc, CanonicalBlocks(blocks)))
  {
    AtConcat(d, 4, Be32(ssrc), EncodeBlocks(blocks));
    Read32(d, 4, ssrc);
    BlocksRoundTrip(d, 8, blocks);
  }

  lemma {:induction false} SdesRoundTrip(d: bytes, chunks: seq<Chunk>)
    requires forall i :: 0 <= i < |chunks| ==> ChunkOk(chunks[i])
    requires At(d, 4, EncodeChunks(chunks)) && |d| == 4 + |EncodeChunks(chunks)|
    ensures DecodeSdes(|chunks|, d) == Some(SDES(chunks))
  {
    ChunksRoundTrip(d, 4, chunks);
  }

  lemma {:induction false} ReasonRoundTrip(d: bytes, p: nat, reason: bytes)
    requires |reason| <= 255 && At(d, p, EncodeReason(reason)) && p + |EncodeReason(reason)| == |d|
    ensures ReasonAt(d, p) == Some(reason)
  {
    if reason != [] {
      AtConcat(d, p, [|reason| as byte] + reason, Zeros(PadTo4(1 + |reason|)));
      AtConcat(d, p, [|reason| as byte], reason);
      assert d[p + 0] == [|reason| as byte][0];
      AtSlice(d, p + 1, reason);
    }
  }

  lemma {:induction false} ByeParts(d: bytes, ssrcs: seq<u32>, reason: bytes)
    requires At(d, 4, Words(ssrcs)) && ReasonAt(d, 4 + 4 * |ssrcs|) == Some(reason)
    ensures DecodeBye(|ssrcs|, d) == Some(BYE(ssrcs, reason))
  {
    SsrcsRoundTrip(d, 4, ssrcs);
  }

  lemma {:induction false} ByeRoundTrip(d: bytes, ssrcs: seq<u32>, reason: bytes)
    requires |reason| <= 255
    requires At(d, 4, Words(ssrcs) + EncodeReason(reason)) && |d| == 4 + 4 * |ssrcs| + |EncodeReason(reason)|
    ensures DecodeBye(|ssrcs|, d) == Some(BYE(ssrcs, reason))
  {
    AtConcat(d, 4, Words(ssrcs), EncodeReason(reason));
    ReasonRoundTrip(d, 4 + 4 * |ssrcs|, reason);
    ByeParts(d, ssrcs, reason);
  }

  lemma {:induction false} AppRoundTrip(d: bytes, subtype: byte, ssrc: u32, name: bytes, data: bytes)
    requires |name| == 4 && |d| == 12 + |data|
    requires At(d, 4, Be32(ssrc) + name + data)
    ensures DecodeApp(subtype, d) == Some(APP(subtype, ssrc, name, data))
  {
    AtConcat(d, 4, Be32(ssrc) + name, data);
    AtConcat(d, 4, Be32(ssrc), name);
    Read32(d, 4, ssrc);
    AtSlice(d, 8, name);
    AtSlice(d, 12, data);
    assert d[12..] == d[12..12 + |data|];
  }

  lemma {:induction false} BodyRoundTrip(d: bytes, p: Packet)
    requires PacketOk(p) && At(d, 4, Body(p)) && |d| == 4 + |Body(p)|
    ensures DecodeBody(TypeOf(p), CountOf(p), d) == Some(CanonicalPacket(p))
  {
    match p {
      case SR(ssrc, info, blocks) =>
        SrRoundTrip(d, ssrc, info, blocks);
      case RR(ssrc, blocks) =>
        RrRoundTrip(d, ssrc, blocks);
      case SDES(chunks) =>
        SdesRoundTrip(d, chunks);
      case BYE(ssrcs, reason) =>
        ByeRoundTrip(d, ssrcs, reason);
      case APP(subtype, ssrc, name, data) =>
        AppRoundTrip(d, subtype, ssrc, name, data);
    }
  }

  lemma {:induction false} HeadedBody(d: bytes, count: byte, packetType: byte, body: bytes)
    requires count <= 31 && d == Header(count, packetType, 4 + |body|) + body
    ensures At(d, 4, body) && |d| == 4 + |body|
    ensures DecodePacket(d) == DecodeBody(packetType, count, d)
  {
    AtConcat(d, 0, Header(count, packetType, 4 + |body|), body);
    HeaderFields(d, 0, count, packetType, 4 + |body|);
  }

  /** Printer and parser are inverse on every packet the builder can write. */
  lemma {:induction false} PacketRoundTrip(p: Packet)
    requires PacketOk(p)
    ensures DecodePacket(EncodePacket(p)) == Some(CanonicalPacket(p))
  {
    HeadedBody(EncodePacket(p), CountOf(p), TypeOf(p), Body(p));
    BodyRoundTrip(EncodePacket(p), p);
  }
}
