/**
 The compound packet builder as a state machine on the contents it collects: which packets it will
 write for them, how many bytes those take, and which calls it accepts.
 */
module RtcpBuild {
  import opened Bytes
  import opened RtcpFormat
  import opened RtcpCompound
  import opened RtcpSdes

  datatype ReportHeader = NoReport | SrHeader(ssrc: u32, info: SenderInfo) | RrHeader(ssrc: u32)

  /** Everything added so far. The APP and BYE packets are formed when they are added. */
  datatype Content = Content(header: ReportHeader, blocks: seq<ReportBlock>, chunks: seq<Chunk>,
                             apps: seq<Packet>, byes: seq<Packet>)

  /** No maximum may be smaller. */
  const MIN_PACKET_SIZE := 600

  const EMPTY := Content(NoReport, [], [], [], [])

  predicate ChunksOk(cs: seq<Chunk>) {
    forall i :: 0 <= i < |cs| ==> ChunkOk(cs[i])
  }

  predicate ContentOk(c: Content) {
    && (c.header.NoReport? ==> c.blocks == [])
    && ChunksOk(c.chunks)
    && AllOk(c.apps) && (forall i :: 0 <= i < |c.apps| ==> c.apps[i].APP?)
    && AllOk(c.byes) && (forall i :: 0 <= i < |c.byes| ==> c.byes[i].BYE?)
  }

  function Min31(n: nat): (r: nat)
    ensures r <= n && r <= 31
  {
    if n < 31 then n else 31
  }

  function HeadReport(h: ReportHeader, blocks: seq<ReportBlock>): (p: Packet)
    requires !h.NoReport? && |blocks| <= 31
    ensures PacketOk(p) && (p.SR? || p.RR?)
  {
    if h.SrHeader? then SR(h.ssrc, h.info, blocks) else RR(h.ssrc, blocks)
  }

  /** One SR or RR packet, and a further RR packet for every 31 report blocks that do not fit. */
  function ReportPackets(h: ReportHeader, blocks: seq<ReportBlock>): (ps: seq<Packet>)
    requires !h.NoReport?
    ensures AllOk(ps) && ps != [] && (ps[0].SR? || ps[0].RR?)
    decreases |blocks|
  {
    var n := Min31(|blocks|);
    [HeadReport(h, blocks[..n])] + if |blocks| > 31 then ReportPackets(RrHeader(h.ssrc), blocks[n..]) else []
  }

  /** SDES packets of up to 31 chunks each. */
  function SdesPackets(cs: seq<Chunk>): (ps: seq<Packet>)
    requires ChunksOk(cs)
    ensures AllOk(ps)
    decreases |cs|
  {
    if cs == [] then []
    else
      var n := Min31(|cs|);
      [SDES(cs[..n])] + SdesPackets(cs[n..])
  }

  /** The compound packet that EndBuild writes: reports, then SDES, then APP, then BYE packets. */
  function Packets(c: Content): (ps: seq<Packet>)
    requires ContentOk(c)
    ensures AllOk(ps)
    ensures !c.header.NoReport? ==> ps != [] && (ps[0].SR? || ps[0].RR?)
  {
    (if c.header.NoReport? then [] else ReportPackets(c.header, c.blocks)) + SdesPackets(c.chunks) + c.apps + c.byes
  }

  function BytesOf(ps: seq<Packet>): bytes
    requires AllOk(ps)
  {
    Flatten(Encoded(ps))
  }

  /** The bytes of a list of packets, and the packet list that points at them. */
  function Image(ps: seq<Packet>): (bytes, seq<PacketRef>)
    requires AllOk(ps)
  {
    EncodedBlocks(ps);
    (BytesOf(ps), Layout(Encoded(ps), 0))
  }

  /** The number of bytes EndBuild would write. */
  function Size(c: Content): nat
    requires ContentOk(c)
  {
    |BytesOf(Packets(c))|
  }

  // ---------------------------------------------------------------- the predictions of NeededBytes

  /** How many packets hold n entries, at most 31 in each. */
  function PacksOf(n: nat): nat {
    n / 31 + if n % 31 != 0 then 1 else 0
  }

  function HeaderLength(h: ReportHeader): nat {
    match h
    case NoReport => 0
    case SrHeader(_, _) => 24
    case RrHeader(_) => 4
  }

  /** Report::NeededBytes, as it is computed from the counters. */
  function ReportNeeds(h: ReportHeader, n: nat): nat {
    if n == 0 then (if HeaderLength(h) == 0 then 0 else 4 + HeaderLength(h))
    else n * 24 + PacksOf(n) * 8 + if h.SrHeader? then 20 else 0
  }

  /** SDESSource::NeededBytes for items of total bytes. */
  function SourceNeeds(total: nat): nat {
    var x := total + 1;
    (if x % 4 != 0 then x + (4 - x % 4) else x) + 4
  }

  function ItemBytes(c: Chunk): nat
    requires ChunkOk(c)
  {
    |EncodeItems(c.items)|
  }

  function SourcesNeed(cs: seq<Chunk>): nat
    requires ChunksOk(cs)
  {
    if cs == [] then 0 else SourceNeeds(ItemBytes(cs[0])) + SourcesNeed(cs[1..])
  }

  /** SDES::NeededBytes. */
  function SdesNeeds(cs: seq<Chunk>): nat
    requires ChunksOk(cs)
  {
    if cs == [] then 0 else SourcesNeed(cs) + PacksOf(|cs|) * 4
  }

  lemma {:induction false} BytesOfConcat(a: seq<Packet>, b: seq<Packet>)
    requires AllOk(a) && AllOk(b)
    ensures AllOk(a + b) && Encoded(a + b) == Encoded(a) + Encoded(b) && BytesOf(a + b) == BytesOf(a) + BytesOf(b)
  {
    EncodedConcat(a, b);
    FlattenConcat(Encoded(a), Encoded(b));
  }

  lemma {:induction false} EncodedConcat(a: seq<Packet>, b: seq<Packet>)
    requires AllOk(a) && AllOk(b)
    ensures AllOk(a + b) && Encoded(a + b) == Encoded(a) + Encoded(b)
    decreases |a|
  {
    hide EncodePacket, PacketOk;
    if a == [] {
      assert a + b == b;
    } else {
      assert (a + b)[1..] == a[1..] + b;
      EncodedConcat(a[1..], b);
    }
  }

  lemma {:induction false} BytesOfOne(p: Packet)
    requires PacketOk(p)
    ensures BytesOf([p]) == EncodePacket(p)
  {
    assert Encoded([p]) == [EncodePacket(p)] + Encoded([]);
    assert Flatten([EncodePacket(p)]) == EncodePacket(p) + Flatten([]);
  }

  lemma {:induction false} BytesOfCons(p: Packet, ps: seq<Packet>)
    requires PacketOk(p) && AllOk(ps)
    ensures AllOk([p] + ps) && BytesOf([p] + ps) == EncodePacket(p) + BytesOf(ps)
  {
    BytesOfOne(p);
    BytesOfConcat([p], ps);
  }

  lemma {:induction false} PacksStep(n: nat)
    requires n > 31
    ensures PacksOf(n) == PacksOf(n - 31) + 1
  {
  }

  lemma {:induction false} HeadReportSize(h: ReportHeader, blocks: seq<ReportBlock>)
    requires !h.NoReport? && |blocks| <= 31
    ensures |EncodePacket(HeadReport(h, blocks))| == 4 + HeaderLength(h) + 24 * |blocks|
  {
  }

  /** The report part is as long as predicted, however many packets the blocks are split over. */
  lemma {:induction false} ReportSizeExact(h: ReportHeader, blocks: seq<ReportBlock>)
    requires !h.NoReport?
    ensures |BytesOf(ReportPackets(h, blocks))| == ReportNeeds(h, |blocks|)
    decreases |blocks|
  {
    hide EncodePacket, PacketOk, BytesOf;
    var n := Min31(|blocks|);
    var p := HeadReport(h, blocks[..n]);
    HeadReportSize(h, blocks[..n]);
    if |blocks| > 31 {
      var rest := ReportPackets(RrHeader(h.ssrc), blocks[n..]);
      BytesOfCons(p, rest);
      ReportSizeExact(RrHeader(h.ssrc), blocks[n..]);
      PacksStep(|blocks|);
    } else {
      assert [p] + [] == [p];
      BytesOfOne(p);
    }
  }

  lemma {:induction false} ChunkSizeExact(c: Chunk)
    requires ChunkOk(c)
    ensures |EncodeChunk(c)| == SourceNeeds(ItemBytes(c))
  {
  }

  lemma {:induction false} ChunkRunSizeExact(cs: seq<Chunk>)
    requires ChunksOk(cs)
    ensures |EncodeChunks(cs)| == SourcesNeed(cs)
    decreases |cs|
  {
    if cs != [] {
      ChunkSizeExact(cs[0]);
      ChunkRunSizeExact(cs[1..]);
    }
  }

  lemma {:induction false} SourcesNeedConcat(a: seq<Chunk>, b: seq<Chunk>)
    requires ChunksOk(a) && ChunksOk(b)
    ensures ChunksOk(a + b) && SourcesNeed(a + b) == SourcesNeed(a) + SourcesNeed(b)
    decreases |a|
  {
    if a == [] {
      assert a + b == b;
    } else {
      assert (a + b)[1..] == a[1..] + b;
      SourcesNeedConcat(a[1..], b);
    }
  }

  lemma {:induction false} SourcesNeedPrefix(cs: seq<Chunk>, i: nat)
    requires ChunksOk(cs) && i < |cs|
    ensures ChunkOk(cs[i]) && SourcesNeed(cs[..i + 1]) == SourcesNeed(cs[..i]) + SourceNeeds(ItemBytes(cs[i]))
  {
    hide SourceNeeds, ItemBytes, ChunkOk;
    SourcesNeedConcat(cs[..i], [cs[i]]);
    assert cs[..i + 1] == cs[..i] + [cs[i]];
    assert SourcesNeed([cs[i]]) == SourceNeeds(ItemBytes(cs[i])) + SourcesNeed([]);
  }

  lemma {:induction false} SdesPacketSize(cs: seq<Chunk>)
    requires ChunksOk(cs) && |cs| <= 31
    ensures |EncodePacket(SDES(cs))| == 4 + SourcesNeed(cs)
  {
    ChunkRunSizeExact(cs);
  }

  /** So is the SDES part, including the padding of every chunk and the split into packets. */
  lemma {:induction false} SdesSizeExact(cs: seq<Chunk>)
    requires ChunksOk(cs)
    ensures |BytesOf(SdesPackets(cs))| == SdesNeeds(cs)
    decreases |cs|
  {
    hide EncodePacket, ChunkOk;
    if cs != [] {
      var n := Min31(|cs|);
      var head, tail := cs[..n], cs[n..];
      SdesPacketSize(head);
      BytesOfCons(SDES(head), SdesPackets(tail));
      SdesSizeExact(tail);
      SourcesNeedConcat(head, tail);
      assert cs == head + tail;
      if |cs| > 31 {
        PacksStep(|cs|);
      }
    }
  }

  /** Size accounting: EndBuild writes as many bytes as the four counters add up to. */
  lemma {:induction false} SizeExact(c: Content)
    requires ContentOk(c)
    ensures Size(c) == ReportNeeds(c.header, |c.blocks|) + SdesNeeds(c.chunks) + |BytesOf(c.apps)| + |BytesOf(c.byes)|
  {
    var r := if c.header.NoReport? then [] else ReportPackets(c.header, c.blocks);
    if !c.header.NoReport? {
      ReportSizeExact(c.header, c.blocks);
    }
    SdesSizeExact(c.chunks);
    BytesOfConcat(r, SdesPackets(c.chunks));
    BytesOfConcat(r + SdesPackets(c.chunks), c.apps);
    BytesOfConcat(r + SdesPackets(c.chunks) + c.apps, c.byes);
  }

  // ---------------------------------------------------------------- the calls

  datatype Call =
    | StartSenderReport(ssrc: u32, info: SenderInfo)
    | StartReceiverReport(ssrc: u32)
    | AddReportBlock(block: ReportBlock)
    | AddSDESSource(ssrc: u32)
    | AddSDESNormalItem(itemType: ItemType, data: bytes)
    | AddSDESPrivateItem(prefix: bytes, value: bytes)
    | AddBYEPacket(ssrcs: seq<u32>, reason: bytes)
    | AddAPPPacket(subtype: byte, ssrc: u32, name: bytes, data: bytes)

  datatype Status =
    | Ok
    | NotBuilding
    | AlreadyBuilding
    | AlreadyBuilt
    | MaxPacketSizeTooSmall
    | AlreadyGotReport
    | ReportNotStarted
    | NoCurrentSource
    | InvalidItemType
    | TotalItemLengthTooBig
    | TooManySsrcs
    | IllegalSubtype
    | IllegalAppDataLength
    | AppDataLengthTooBig
    | NotEnoughBytesLeft
    | NoReportPresent

  /** What the types of the arguments say: lengths that are passed as uint8_t, and a name of four bytes. */
  predicate CallOk(call: Call) {
    match call
    case AddSDESNormalItem(_, data) => |data| <= 255
    case AddSDESPrivateItem(prefix, value) => |prefix| <= 255 && |value| <= 255
    case AddBYEPacket(ssrcs, reason) => |ssrcs| <= 255 && |reason| <= 255
    case AddAPPPacket(_, _, name, _) => |name| == 4
    case _ => true
  }

  /** The checks that come before the size check, in the order in which the builder makes them. */
  function Refusal(c: Content, call: Call): Status {
    match call
    case StartSenderReport(_, _) => if c.header != NoReport then AlreadyGotReport else Ok
    case StartReceiverReport(_) => if c.header != NoReport then AlreadyGotReport else Ok
    case AddReportBlock(_) => if c.header == NoReport then ReportNotStarted else Ok
    case AddSDESSource(_) => Ok
    case AddSDESNormalItem(t, _) =>
      if c.chunks == [] then NoCurrentSource
      else if IdOfType(t) == 0 then InvalidItemType
      else Ok
    case AddSDESPrivateItem(prefix, value) =>
      if c.chunks == [] then NoCurrentSource
      else if |prefix| + 1 + |value| > 255 then TotalItemLengthTooBig
      else Ok
    case AddBYEPacket(ssrcs, _) => if |ssrcs| > 31 then TooManySsrcs else Ok
    case AddAPPPacket(subtype, _, _, data) =>
      if subtype > 31 then IllegalSubtype
      else if |data| % 4 != 0 then IllegalAppDataLength
      else if |data| / 4 + 2 > 65535 then AppDataLengthTooBig
      else Ok
  }

  /** The identifiers of the seven normal item types; 0 stands for a type the builder refuses. */
  function IdOfType(t: ItemType): byte {
    match t
    case CNAME => 1
    case NAME => 2
    case EMAIL => 3
    case PHONE => 4
    case LOC => 5
    case TOOL => 6
    case NOTE => 7
    case _ => 0
  }

  function AppendItem(cs: seq<Chunk>, it: Item): (r: seq<Chunk>)
    requires cs != []
    ensures |r| == |cs|
  {
    var k := |cs| - 1;
    cs[k := cs[k].(items := cs[k].items + [it])]
  }

  function PrivateItem(prefix: bytes, value: bytes): Item
    requires |prefix| <= 255
  {
    Item(SDES_PRIV, [|prefix| as byte] + prefix + value)
  }

  /** The contents after an accepted call. */
  function After(c: Content, call: Call): (r: Content)
    requires ContentOk(c) && CallOk(call) && Refusal(c, call) == Ok
    ensures ContentOk(r)
  {
    match call
    case StartSenderReport(ssrc, info) => c.(header := SrHeader(ssrc, info))
    case StartReceiverReport(ssrc) => c.(header := RrHeader(ssrc))
    case AddReportBlock(b) => c.(blocks := c.blocks + [b])
    case AddSDESSource(ssrc) => c.(chunks := c.chunks + [Chunk(ssrc, [])])
    case AddSDESNormalItem(t, data) =>
      AppendItemOk(c.chunks, Item(IdOfType(t), data));
      c.(chunks := AppendItem(c.chunks, Item(IdOfType(t), data)))
    case AddSDESPrivateItem(prefix, value) =>
      AppendItemOk(c.chunks, PrivateItem(prefix, value));
      c.(chunks := AppendItem(c.chunks, PrivateItem(prefix, value)))
    case AddBYEPacket(ssrcs, reason) => c.(byes := c.byes + [BYE(ssrcs, reason)])
    case AddAPPPacket(subtype, ssrc, name, data) => c.(apps := c.apps + [APP(subtype, ssrc, name, data)])
  }

  lemma {:induction false} AppendItemOk(cs: seq<Chunk>, it: Item)
    requires cs != [] && ChunksOk(cs) && ItemOk(it)
    ensures ChunksOk(AppendItem(cs, it))
  {
    assert ChunkOk(cs[|cs| - 1]);
  }

  /**
   The size check. Two calls look at something other than the size after the call: opening the first
   SDES chunk is predicted to cost nothing, and the bytes left over for a report header are a
   difference of unsigned numbers, which is huge when the contents exceed the maximum already.
   */
  predicate SizeAccepts(max: nat, c: Content, call: Call)
    requires ContentOk(c) && CallOk(call) && Refusal(c, call) == Ok
  {
    if call.AddSDESSource? && c.chunks == [] then Size(c) <= max
    else if call.StartSenderReport? || call.StartReceiverReport? then Size(c) > max || Size(After(c, call)) <= max
    else Size(After(c, call)) <= max
  }

  /** One call of the builder, while it is building. */
  function Step(max: nat, c: Content, call: Call): (r: (Content, Status))
    requires ContentOk(c) && CallOk(call)
    ensures ContentOk(r.0)
  {
    if Refusal(c, call) != Ok then (c, Refusal(c, call))
    else if SizeAccepts(max, c, call) then (After(c, call), Ok)
    else (c, NotEnoughBytesLeft)
  }

  function Run(max: nat, c: Content, calls: seq<Call>): (r: Content)
    requires ContentOk(c) && forall i :: 0 <= i < |calls| ==> CallOk(calls[i])
    ensures ContentOk(r)
    decreases |calls|
  {
    if calls == [] then c else Run(max, Step(max, c, calls[0]).0, calls[1..])
  }
}
