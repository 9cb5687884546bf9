/** What holds over every sequence of builder calls: the size bound, and the round trip. */
module RtcpBuildRuns {
  import opened Bytes
  import opened RtcpFormat
  import opened RtcpCompound
  import opened RtcpBuild
  import opened RtcpSdes

  // ---------------------------------------------------------------- what one call adds

  lemma {:induction false} ItemsAppend(its: seq<Item>, it: Item)
    requires ItemOk(it) && forall i :: 0 <= i < |its| ==> ItemOk(its[i])
    ensures EncodeItems(its + [it]) == EncodeItems(its) + EncodeItem(it)
    decreases |its|
  {
    if its == [] {
      assert [] + [it] == [it] && EncodeItems([it]) == EncodeItem(it) + EncodeItems([]);
    } else {
      assert (its + [it])[1..] == its[1..] + [it];
      ItemsAppend(its[1..], it);
    }
  }

  /** SDES::NeededBytesWithExtraItem is NeededBytes after the item was added. */
  lemma {:induction false} ExtraItemExact(cs: seq<Chunk>, it: Item)
    requires cs != [] && ChunksOk(cs) && ItemOk(it)
    ensures ChunksOk(AppendItem(cs, it))
    ensures var k := |cs| - 1;
            SdesNeeds(AppendItem(cs, it))
            == SourcesNeed(cs[..k]) + SourceNeeds(ItemBytes(cs[k]) + 2 + |it.data|) + PacksOf(|cs|) * 4
    ensures var k := |cs| - 1;
            SdesNeeds(cs) == SourcesNeed(cs[..k]) + SourceNeeds(ItemBytes(cs[k])) + PacksOf(|cs|) * 4
  {
    hide EncodeItem, SourceNeeds, PacksOf;
    AppendItemOk(cs, it);
    var k := |cs| - 1;
    var last := cs[k].(items := cs[k].items + [it]);
    assert ChunkOk(cs[k]);
    ItemsAppend(cs[k].items, it);
    assert cs == cs[..k] + [cs[k]] && AppendItem(cs, it) == cs[..k] + [last];
    SourcesNeedConcat(cs[..k], [cs[k]]);
    SourcesNeedConcat(cs[..k], [last]);
    assert SourcesNeed([cs[k]]) == SourceNeeds(ItemBytes(cs[k])) + SourcesNeed([]);
    assert SourcesNeed([last]) == SourceNeeds(ItemBytes(last)) + SourcesNeed([]);
  }

  /** SDES::NeededBytesWithExtraSource, which returns 0 while there is no source yet. */
  function ExtraSourceNeeds(cs: seq<Chunk>): nat
    requires ChunksOk(cs)
  {
    if cs == [] then 0 else SourcesNeed(cs) + 8 + PacksOf(|cs| + 1) * 4
  }

  /** It is NeededBytes after the source was added, except for the first source, which costs 12 bytes. */
  lemma {:induction false} ExtraSourceExact(cs: seq<Chunk>, ssrc: u32)
    requires ChunksOk(cs)
    ensures ChunksOk(cs + [Chunk(ssrc, [])])
    ensures SdesNeeds(cs + [Chunk(ssrc, [])]) == if cs == [] then 12 else ExtraSourceNeeds(cs)
  {
    hide PacksOf;
    assert PacksOf(1) == 1 by { PacksOfOne(); }
    var c := Chunk(ssrc, []);
    SourcesNeedConcat(cs, [c]);
    assert SourcesNeed([c]) == SourceNeeds(ItemBytes(c)) + SourcesNeed([]);
    assert ItemBytes(c) == 0;
  }

  lemma {:induction false} PacksOfOne()
    ensures PacksOf(1) == 1
  {
  }

  lemma {:induction false} PacksGrow(n: nat)
    ensures PacksOf(n) <= PacksOf(n + 1)
  {
  }

  lemma {:induction false} SourceNeedsGrow(total: nat, more: nat)
    ensures SourceNeeds(total) <= SourceNeeds(total + more)
  {
  }

  lemma {:induction false} ListAppend(ps: seq<Packet>, p: Packet)
    requires AllOk(ps) && PacketOk(p)
    ensures AllOk(ps + [p]) && |BytesOf(ps + [p])| == |BytesOf(ps)| + |EncodePacket(p)|
  {
    hide EncodePacket, PacketOk;
    assert AllOk([p]);
    BytesOfConcat(ps, [p]);
    BytesOfOne(p);
  }

  /** No accepted call makes the compound packet shorter; what the two special calls add is known. */
  lemma {:induction false} Growth(c: Content, call: Call)
    requires ContentOk(c) && CallOk(call) && Refusal(c, call) == Ok
    ensures Size(After(c, call)) >= Size(c)
    ensures call.StartSenderReport? ==> Size(After(c, call)) == Size(c) + 28
    ensures call.StartReceiverReport? ==> Size(After(c, call)) == Size(c) + 8
    ensures call.AddSDESSource? && c.chunks == [] ==> Size(After(c, call)) == Size(c) + 12
  {
    hide EncodePacket, BytesOf, Size, SourceNeeds, PacksOf, SdesNeeds;
    SizeExact(c);
    SizeExact(After(c, call));
    match call {
      case StartSenderReport(_, _) =>
      case StartReceiverReport(_) =>
      case AddReportBlock(_) =>
        PacksGrow(|c.blocks|);
        ReportNeedsGrow(c.header, |c.blocks|);
      case AddSDESSource(ssrc) =>
        ExtraSourceExact(c.chunks, ssrc);
        SourcesGrow(c.chunks);
      case AddSDESNormalItem(t, data) =>
        ItemsGrow(c.chunks, Item(IdOfType(t), data));
      case AddSDESPrivateItem(prefix, value) =>
        ItemsGrow(c.chunks, PrivateItem(prefix, value));
      case AddBYEPacket(ssrcs, reason) =>
        ListAppend(c.byes, BYE(ssrcs, reason));
      case AddAPPPacket(subtype, ssrc, name, data) =>
        ListAppend(c.apps, APP(subtype, ssrc, name, data));
    }
  }

  lemma {:induction false} ReportNeedsGrow(h: ReportHeader, n: nat)
    requires !h.NoReport?
    ensures ReportNeeds(h, n) <= ReportNeeds(h, n + 1)
  {
  }

  lemma {:induction false} SourcesGrow(cs: seq<Chunk>)
    requires ChunksOk(cs)
    ensures cs != [] ==> SdesNeeds(cs) <= ExtraSourceNeeds(cs)
    ensures cs == [] ==> SdesNeeds(cs) == 0
  {
    PacksGrow(|cs|);
  }

  lemma {:induction false} ItemsGrow(cs: seq<Chunk>, it: Item)
    requires cs != [] && ChunksOk(cs) && ItemOk(it)
    ensures ChunksOk(AppendItem(cs, it)) && SdesNeeds(cs) <= SdesNeeds(AppendItem(cs, it))
  {
    hide SourceNeeds, PacksOf, SdesNeeds;
    ExtraItemExact(cs, it);
    SourceNeedsGrow(ItemBytes(cs[|cs| - 1]), 2 + |it.data|);
  }

  // ---------------------------------------------------------------- the size bound

  /** Whenever the first SDES chunk is opened, the 12 bytes it takes are still free. */
  predicate RoomForFirstSource(max: nat, c: Content, calls: seq<Call>)
    requires ContentOk(c) && forall i :: 0 <= i < |calls| ==> CallOk(calls[i])
    decreases |calls|
  {
    calls != [] ==>
      && (calls[0].AddSDESSource? && c.chunks == [] && Size(c) <= max ==> Size(c) + 12 <= max)
      && RoomForFirstSource(max, Step(max, c, calls[0]).0, calls[1..])
  }

  lemma {:induction false} OversizeStays(max: nat, c: Content, calls: seq<Call>)
    requires ContentOk(c) && (forall i :: 0 <= i < |calls| ==> CallOk(calls[i]))
    ensures Size(Run(max, c, calls)) >= Size(c)
    decreases |calls|
  {
    hide Size, After;
    if calls != [] {
      if Refusal(c, calls[0]) == Ok {
        Growth(c, calls[0]);
      }
      OversizeStays(max, Step(max, c, calls[0]).0, calls[1..]);
    }
  }

  /**
   The size bound over runs: what was collected stays within the maximum exactly in the runs that
   have 12 bytes free when they open the first SDES chunk.
   */
  lemma {:induction false} SizeBoundExact(max: nat, c: Content, calls: seq<Call>)
    requires ContentOk(c) && (forall i :: 0 <= i < |calls| ==> CallOk(calls[i])) && Size(c) <= max
    ensures Size(Run(max, c, calls)) <= max <==> RoomForFirstSource(max, c, calls)
    decreases |calls|
  {
    hide Size, After;
    if calls != [] {
      var next := Step(max, c, calls[0]).0;
      if Refusal(c, calls[0]) == Ok {
        Growth(c, calls[0]);
      }
      if Size(next) <= max {
        SizeBoundExact(max, next, calls[1..]);
      } else {
        OversizeStays(max, next, calls[1..]);
      }
    }
  }

  /** How far beyond the maximum a content can be: 12 bytes, and 28 more for a late report header. */
  predicate Bounded(max: nat, c: Content)
    requires ContentOk(c)
  {
    && (c.chunks == [] ==> Size(c) <= max)
    && (c.header.NoReport? ==> Size(c) <= max + 12)
    && Size(c) <= max + 40
  }

  lemma {:induction false} BoundedStep(max: nat, c: Content, call: Call)
    requires ContentOk(c) && CallOk(call) && Bounded(max, c)
    ensures Bounded(max, Step(max, c, call).0)
  {
    hide Size;
    if Refusal(c, call) == Ok {
      Growth(c, call);
    }
  }

  /** Without any assumption on the run, the excess is at most 40 bytes. */
  lemma {:induction false} SizeBoundAlways(max: nat, c: Content, calls: seq<Call>)
    requires ContentOk(c) && (forall i :: 0 <= i < |calls| ==> CallOk(calls[i])) && Bounded(max, c)
    ensures Size(Run(max, c, calls)) <= max + 40
    decreases |calls|
  {
    hide Size, Step;
    if calls != [] {
      BoundedStep(max, c, calls[0]);
      SizeBoundAlways(max, Step(max, c, calls[0]).0, calls[1..]);
    }
  }

  lemma {:induction false} EmptySize()
    ensures ContentOk(EMPTY) && Size(EMPTY) == 0
  {
    SizeExact(EMPTY);
  }

  // ---------------------------------------------------------------- the round trip

  /** What EndBuild hands out: the bytes, and the packet list with the places the packets were put. */
  function Output(c: Content): (bytes, seq<PacketRef>)
    requires ContentOk(c)
  {
    Image(Packets(c))
  }

  lemma {:induction false} BlockWithin(bs: seq<bytes>, i: nat)
    requires i < |bs|
    ensures |bs[i]| <= |Flatten(bs)|
    decreases i
  {
    if i > 0 {
      BlockWithin(bs[1..], i - 1);
    }
  }

  /** A maximum of 262104 bytes keeps every packet of every run within reach of its length field. */
  lemma {:induction false} SmallRunsFit(max: nat, c: Content)
    requires ContentOk(c) && Size(c) <= max + 40 && max + 40 <= 0x4_0000
    ensures forall i :: 0 <= i < |Packets(c)| ==> LengthFits(Encoded(Packets(c))[i])
  {
    hide Packets, Encoded, Flatten;
    forall i | 0 <= i < |Packets(c)|
      ensures LengthFits(Encoded(Packets(c))[i])
    {
      BlockWithin(Encoded(Packets(c)), i);
    }
  }

  /**
   Round trip over runs: after any sequence of calls that started a report, the parser accepts the
   bytes of EndBuild and finds the packet list of EndBuild exactly when every packet's length fits
   its 16-bit field; and each packet is read back with the contents that the calls put in.
   */
  lemma {:induction false} RunRoundTrip(max: nat, calls: seq<Call>)
    requires forall i :: 0 <= i < |calls| ==> CallOk(calls[i])
    requires !Run(max, EMPTY, calls).header.NoReport?
    ensures var c := Run(max, EMPTY, calls);
            var (b, refs) := Output(c);
            && (ParseFrom(b, 0, true) == Some(refs)
                <==> forall i :: 0 <= i < |Packets(c)| ==> LengthFits(Encoded(Packets(c))[i]))
            && (max <= 262104 ==> ParseFrom(b, 0, true) == Some(refs))
            && |refs| == |Packets(c)|
            && forall i :: 0 <= i < |refs| ==> ReadsBack(b, refs[i], Packets(c)[i])
  {
    var c := Run(max, EMPTY, calls);
    hide Packets, Encoded, Flatten, Run, Size;
    CompoundRoundTrip(Packets(c));
    if max <= 262104 {
      EmptySize();
      SizeBoundAlways(max, EMPTY, calls);
      SmallRunsFit(max, c);
    }
  }

  // ---------------------------------------------------------------- nothing is lost in the split

  function BlocksOf(p: Packet): seq<ReportBlock> {
    if p.SR? || p.RR? then p.blocks else []
  }

  function ChunksOf(p: Packet): seq<Chunk> {
    if p.SDES? then p.chunks else []
  }

  function OthersOf(p: Packet): seq<Packet> {
    if p.APP? || p.BYE? then [p] else []
  }

  /** The report blocks in a list of packets, in the order in which a receiver meets them. */
  function BlocksIn(ps: seq<Packet>): seq<ReportBlock> {
    if ps == [] then [] else BlocksOf(ps[0]) + BlocksIn(ps[1..])
  }

  function ChunksIn(ps: seq<Packet>): seq<Chunk> {
    if ps == [] then [] else ChunksOf(ps[0]) + ChunksIn(ps[1..])
  }

  /** The packets that are neither reports nor SDES packets. */
  function OthersIn(ps: seq<Packet>): seq<Packet> {
    if ps == [] then [] else OthersOf(ps[0]) + OthersIn(ps[1..])
  }

  lemma {:induction false} InConcat(a: seq<Packet>, b: seq<Packet>)
    ensures BlocksIn(a + b) == BlocksIn(a) + BlocksIn(b)
    ensures ChunksIn(a + b) == ChunksIn(a) + ChunksIn(b)
    ensures OthersIn(a + b) == OthersIn(a) + OthersIn(b)
    decreases |a|
  {
    hide BlocksOf, ChunksOf, OthersOf;
    if a == [] {
      assert a + b == b;
    } else {
      assert (a + b)[1..] == a[1..] + b;
      InConcat(a[1..], b);
    }
  }

  lemma {:induction false} InReports(h: ReportHeader, blocks: seq<ReportBlock>)
    requires !h.NoReport?
    ensures BlocksIn(ReportPackets(h, blocks)) == blocks
    ensures ChunksIn(ReportPackets(h, blocks)) == [] && OthersIn(ReportPackets(h, blocks)) == []
    decreases |blocks|
  {
    hide PacketOk;
    var n := Min31(|blocks|);
    if |blocks| > 31 {
      InReports(RrHeader(h.ssrc), blocks[n..]);
      assert blocks == blocks[..n] + blocks[n..];
    } else {
      assert blocks[..n] + [] == blocks;
    }
  }

  lemma {:induction false} InSdes(cs: seq<Chunk>)
    requires ChunksOk(cs)
    ensures ChunksIn(SdesPackets(cs)) == cs
    ensures BlocksIn(SdesPackets(cs)) == [] && OthersIn(SdesPackets(cs)) == []
    decreases |cs|
  {
    hide PacketOk, ChunkOk;
    if cs != [] {
      var n := Min31(|cs|);
      InSdes(cs[n..]);
      assert cs == cs[..n] + cs[n..];
    }
  }

  lemma {:induction false} InOthers(ps: seq<Packet>)
    requires forall i :: 0 <= i < |ps| ==> ps[i].APP? || ps[i].BYE?
    ensures OthersIn(ps) == ps && BlocksIn(ps) == [] && ChunksIn(ps) == []
    decreases |ps|
  {
    if ps != [] {
      InOthers(ps[1..]);
    }
  }

  /** However the contents are split over packets, a receiver gets them back complete and in order. */
  lemma {:induction false} SplitKeepsEverything(c: Content)
    requires ContentOk(c) && !c.header.NoReport?
    ensures BlocksIn(Packets(c)) == c.blocks
    ensures ChunksIn(Packets(c)) == c.chunks
    ensures OthersIn(Packets(c)) == c.apps + c.byes
  {
    hide PacketOk, ReportPackets, SdesPackets, BlocksIn, ChunksIn, OthersIn, AllOk, ChunksOk;
    var r, s := ReportPackets(c.header, c.blocks), SdesPackets(c.chunks);
    InReports(c.header, c.blocks);
    InSdes(c.chunks);
    InOthers(c.apps);
    InOthers(c.byes);
    InConcat(r, s);
    InConcat(r + s, c.apps);
    InConcat(r + s + c.apps, c.byes);
  }

  /** A private item is taken apart again into the prefix and the value it was made of. */
  lemma {:induction false} PrivateRoundTrip(prefix: bytes, value: bytes)
    requires |prefix| <= 255
    ensures PrivateParts(PrivateItem(prefix, value).data) == (prefix, value)
  {
    var data := PrivateItem(prefix, value).data;
    assert data == [|prefix| as byte] + prefix + value;
    assert data[1..1 + |prefix|] == prefix && data[1 + |prefix|..] == value;
  }

  /** The item types a builder accepts are those that GetItemType names, each by its own identifier. */
  lemma {:induction false} ItemTypeRoundTrip(t: ItemType)
    ensures IdOfType(t) != 0 ==> TypeOfId(IdOfType(t)) == t
    ensures IdOfType(t) == 0 <==> t in {NoItem, PRIV, Unknown}
  {
  }

  // ---------------------------------------------------------------- the excess is real

  /** 600 bytes of APP packet, then the first SDES source, then a sender report: 40 bytes too many. */
  lemma {:induction false} BoundIsTight(info: SenderInfo)
    ensures var app := AddAPPPacket(0, 1, [65, 66, 67, 68], Zeros(588));
            var calls := [app, AddSDESSource(1), StartSenderReport(1, info)];
            (forall i :: 0 <= i < |calls| ==> CallOk(calls[i])) && Size(Run(600, EMPTY, calls)) == 640
  {
    hide Size, BytesOf, EncodePacket;
    var app := AddAPPPacket(0, 1, [65, 66, 67, 68], Zeros(588));
    var sdes, report := AddSDESSource(1), StartSenderReport(1, info);
    var calls := [app, sdes, report];
    EmptySize();
    var c1 := After(EMPTY, app);
    AppSize(0, 1, [65, 66, 67, 68], Zeros(588));
    ListAppend([], APP(0, 1, [65, 66, 67, 68], Zeros(588)));
    SizeExact(EMPTY);
    SizeExact(c1);
    assert Size(c1) == 600;
    var c2 := After(c1, sdes);
    Growth(c1, sdes);
    Growth(c2, report);
    assert calls[1..] == [sdes, report] && calls[1..][1..] == [report] && calls[1..][1..][1..] == [];
    assert Step(600, EMPTY, app).0 == c1 && Step(600, c1, sdes).0 == c2 && Step(600, c2, report).0 == After(c2, report);
    assert Run(600, c2, [report]) == Run(600, After(c2, report), []);
    assert Run(600, c1, [sdes, report]) == Run(600, c2, [report]);
  }

  lemma {:induction false} AppSize(subtype: byte, ssrc: u32, name: bytes, data: bytes)
    requires PacketOk(APP(subtype, ssrc, name, data))
    ensures |EncodePacket(APP(subtype, ssrc, name, data))| == 12 + |data|
  {
  }

  // ---------------------------------------------------------------- a packet that outgrows its length field

  function LongItems(n: nat): (its: seq<Item>)
    ensures |its| == n && forall i :: 0 <= i < n ==> its[i] == Item(1, Zeros(255))
  {
    seq(n, _ => Item(1, Zeros(255)))
  }

  function LongContent(n: nat): Content {
    Content(RrHeader(0), [], [Chunk(0, LongItems(n))], [], [])
  }

  function LongCalls(n: nat): (calls: seq<Call>)
    ensures |calls| == n && forall i :: 0 <= i < n ==> calls[i] == AddSDESNormalItem(CNAME, Zeros(255))
  {
    seq(n, _ => AddSDESNormalItem(CNAME, Zeros(255)))
  }

  lemma {:induction false} LongItemsSize(n: nat)
    ensures |EncodeItems(LongItems(n))| == 257 * n
  {
    if n > 0 {
      LongItemsSize(n - 1);
      assert LongItems(n) == LongItems(n - 1) + [Item(1, Zeros(255))];
      ItemsAppend(LongItems(n - 1), Item(1, Zeros(255)));
    }
  }

  lemma {:induction false} LongSize(n: nat)
    ensures ContentOk(LongContent(n)) && SdesNeeds(LongContent(n).chunks) == SourceNeeds(257 * n) + 4
    ensures Size(LongContent(n)) == 12 + SourceNeeds(257 * n)
  {
    hide Size, SourceNeeds, PacksOf;
    var c := LongContent(n);
    LongItemsSize(n);
    PacksOfOne();
    assert SourcesNeed(c.chunks) == SourceNeeds(ItemBytes(c.chunks[0])) + SourcesNeed([]);
    SizeExact(c);
    assert BytesOf([]) == [];
  }

  lemma {:induction false} LongStep(n: nat)
    requires n <= 1100
    ensures ContentOk(LongContent(n))
    ensures Step(0x8_0000, LongContent(n), AddSDESNormalItem(CNAME, Zeros(255))) == (LongContent(n + 1), Ok)
  {
    hide Size;
    LongSize(n);
    LongSize(n + 1);
    var c, call := LongContent(n), AddSDESNormalItem(CNAME, Zeros(255));
    assert LongItems(n + 1) == LongItems(n) + [Item(1, Zeros(255))];
    assert c.chunks[0] == Chunk(0, LongItems(n));
    assert AppendItem(c.chunks, Item(1, Zeros(255))) == LongContent(n + 1).chunks;
    assert After(c, call) == LongContent(n + 1);
  }

  lemma {:induction false} LongRun(n: nat, more: nat)
    requires n + more <= 1100
    ensures ContentOk(LongContent(n)) && Run(0x8_0000, LongContent(n), LongCalls(more)) == LongContent(n + more)
    decreases more
  {
    hide Step, LongContent;
    LongSize(n);
    if more > 0 {
      LongStep(n);
      assert LongCalls(more)[1..] == LongCalls(more - 1);
      LongRun(n + 1, more - 1);
    }
  }

  lemma {:induction false} LongStart(calls: seq<Call>)
    requires forall i :: 0 <= i < |calls| ==> CallOk(calls[i])
    ensures ContentOk(LongContent(0))
    ensures var all := [StartReceiverReport(0), AddSDESSource(0)] + calls;
            (forall i :: 0 <= i < |all| ==> CallOk(all[i])) && Run(0x8_0000, EMPTY, all) == Run(0x8_0000, LongContent(0), calls)
  {
    hide Size;
    EmptySize();
    LongSize(0);
    var all := [StartReceiverReport(0), AddSDESSource(0)] + calls;
    Growth(EMPTY, all[0]);
    assert all[1..][1..] == calls && all[1..][0] == AddSDESSource(0);
    var a := After(EMPTY, all[0]);
    assert After(a, AddSDESSource(0)) == LongContent(0);
    assert Step(0x8_0000, EMPTY, all[0]) == (a, Ok) && Step(0x8_0000, a, AddSDESSource(0)) == (LongContent(0), Ok);
    assert Run(0x8_0000, a, all[1..]) == Run(0x8_0000, LongContent(0), calls);
  }

  /** The builder accepts 1025 items of 255 bytes, and a receiver does not find the packets again. */
  lemma {:induction false} LongRunIsLost()
    ensures exists calls: seq<Call> ::
              && (forall i :: 0 <= i < |calls| ==> CallOk(calls[i])) && !Run(0x8_0000, EMPTY, calls).header.NoReport?
              && var (b, refs) := Output(Run(0x8_0000, EMPTY, calls)); ParseFrom(b, 0, true) != Some(refs)
  {
    hide Run, Packets, Size, Output, LongContent, ReadsBack, Encoded;
    var calls := [StartReceiverReport(0), AddSDESSource(0)] + LongCalls(1025);
    assert forall i :: 0 <= i < 1025 ==> CallOk(LongCalls(1025)[i]);
    LongStart(LongCalls(1025));
    LongRun(0, 1025);
    LongPacket();
    var c := Run(0x8_0000, EMPTY, calls);
    assert c == LongContent(1025);
    RunRoundTrip(0x8_0000, calls);
    assert !LengthFits(Encoded(Packets(c))[1]);
  }

  lemma {:induction false} LongPacket()
    ensures var c := LongContent(1025);
            ContentOk(c) && !c.header.NoReport? && |Packets(c)| == 2 && !LengthFits(Encoded(Packets(c))[1])
  {
    hide EncodePacket, PacketOk, SourceNeeds, BytesOf;
    LongSize(1025);
    var c := LongContent(1025);
    assert SdesPackets(c.chunks) == [SDES(c.chunks)] by { assert c.chunks[..1] == c.chunks; }
    SdesSizeExact(c.chunks);
    BytesOfOne(SDES(c.chunks));
    assert SourceNeeds(257 * 1025) > 0x4_0000 by { LongNeeds(); }
  }

  lemma {:induction false} LongNeeds()
    ensures SourceNeeds(257 * 1025) > 0x4_0000
  {
  }
}
