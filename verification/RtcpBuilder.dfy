/** RTCPCompoundPacketBuilder: the buffers and counters it keeps, and the writer of EndBuild. */
module RtcpBuilder {
  import opened Bytes
  import opened RtcpFormat
  import opened RtcpCompound
  import opened RtcpSdes
  import opened RtcpBuild
  import opened RtcpBuildRuns
  import opened RtcpSdesSource
  import opened RtcpWriter

  const SIZE_T: nat := 0x1_0000_0000_0000_0000

  /** Subtraction of size_t values. */
  function SizeSub(a: int, b: int): nat {
    (a - b) % SIZE_T
  }

  lemma {:induction false} EncodedAppend(ps: seq<Packet>, p: Packet)
    requires AllOk(ps) && PacketOk(p)
    ensures AllOk(ps + [p]) && Encoded(ps + [p]) == Encoded(ps) + [EncodePacket(p)]
  {
    hide EncodePacket, PacketOk;
    assert AllOk([p]);
    EncodedConcat(ps, [p]);
    assert Encoded([p]) == [EncodePacket(p)] + Encoded([]);
  }

  class CompoundPacketBuilder {
    var maximumPacketSize: nat
    var areBuilding: bool
    var compoundPacket: array?<byte>
    var rtcpPackList: seq<PacketRef>
    // the report
    var isSR: bool
    var headerData: bytes
    var reportBlocks: seq<bytes>
    // the SDES chunks; items go to the last one
    var sdesSources: seq<SdesSource>
    // finished packets, and how many bytes they are
    var byePackets: seq<bytes>
    var byeSize: nat
    var appPackets: seq<bytes>
    var appSize: nat
    ghost var content: Content

    ghost predicate Valid()
      reads this, sdesSources
    {
      && ContentOk(content) && Bounded(maximumPacketSize, content) && maximumPacketSize < SIZE_T
      && (!areBuilding ==> content == EMPTY)
      && ReportValid() && SdesValid() && ListsValid()
    }

    ghost predicate ReportValid()
      reads this
    {
      isSR == content.header.SrHeader? && headerData == HeaderData(content.header)
      && reportBlocks == BlockBuffers(content.blocks)
    }

    ghost predicate SdesValid()
      reads this, sdesSources
    {
      && SourcesHold(sdesSources, content.chunks)
      && (forall i, j :: 0 <= i < j < |sdesSources| ==> sdesSources[i] != sdesSources[j])
    }

    ghost predicate ListsValid()
      reads this
    {
      && AllOk(content.byes) && byePackets == Encoded(content.byes) && byeSize == |BytesOf(content.byes)|
      && AllOk(content.apps) && appPackets == Encoded(content.apps) && appSize == |BytesOf(content.apps)|
    }

    constructor ()
      ensures Valid() && !areBuilding && compoundPacket == null && sdesSources == []
    {
      maximumPacketSize, areBuilding, compoundPacket, rtcpPackList := 0, false, null, [];
      isSR, headerData, reportBlocks, sdesSources := false, [], [], [];
      byePackets, byeSize, appPackets, appSize := [], 0, [], 0;
      content := EMPTY;
      new;
      EmptySize();
    }

    method InitBuild(maxPacketSize: nat) returns (status: Status)
      requires Valid() && maxPacketSize < SIZE_T
      modifies `maximumPacketSize, `areBuilding, `byeSize, `appSize
      ensures Valid()
      ensures status == if old(areBuilding) then AlreadyBuilding
                        else if compoundPacket != null then AlreadyBuilt
                        else if maxPacketSize < MIN_PACKET_SIZE then MaxPacketSizeTooSmall
                        else Ok
      ensures status == Ok ==> areBuilding && maximumPacketSize == maxPacketSize && content == EMPTY
      ensures status != Ok ==> areBuilding == old(areBuilding) && maximumPacketSize == old(maximumPacketSize)
    {
      if areBuilding {
        return AlreadyBuilding;
      }
      if compoundPacket != null {
        return AlreadyBuilt;
      }
      if maxPacketSize < MIN_PACKET_SIZE {
        return MaxPacketSizeTooSmall;
      }
      EmptySize();
      maximumPacketSize := maxPacketSize;
      byeSize := 0;
      appSize := 0;
      areBuilding := true;
      return Ok;
    }

    /** What a call does and returns, by the state machine on the collected contents. */
    ghost function Outcome(call: Call): (Content, Status)
      reads this
      requires ContentOk(content) && CallOk(call)
    {
      if areBuilding then Step(maximumPacketSize, content, call) else (content, NotBuilding)
    }

    /** Report::NeededBytes. */
    function ReportNeededBytes(): (x: nat)
      reads this
      requires ReportValid()
      ensures x == ReportNeeds(content.header, |content.blocks|)
    {
      var n := |reportBlocks|;
      if n == 0 then (if |headerData| == 0 then 0 else 4 + |headerData|)
      else
        var d := n / 31;
        var r := n % 31;
        n * 24 + (if r != 0 then d + 1 else d) * 8 + if isSR then 20 else 0
    }

    /** Report::NeededBytesWithExtraReportBlock. */
    function NeededBytesWithExtraReportBlock(): (x: nat)
      reads this
      requires ReportValid()
      ensures x == ReportNeeds(content.header, |content.blocks| + 1)
    {
      var n := |reportBlocks| + 1;
      var d := n / 31;
      var r := n % 31;
      n * 24 + (if r != 0 then d + 1 else d) * 8 + if isSR then 20 else 0
    }

    /** The loop over the sources that the three SDES predictions share. */
    method SourcesNeededBytes(count: nat) returns (x: nat)
      requires Valid() && count <= |sdesSources|
      ensures x == SourcesNeed(content.chunks[..count])
    {
      hide Size, SourceNeeds, ItemBytes, ChunkOk, Bounded, Encoded, BytesOf, BlockBuffers, ItemBuffers;
      x := 0;
      var i := 0;
      while i < count
        invariant 0 <= i <= count
        invariant x == SourcesNeed(content.chunks[..i])
      {
        SourcesNeedPrefix(content.chunks, i);
        x := x + sdesSources[i].NeededBytes();
        i := i + 1;
      }
    }

    /** SDES::NeededBytes. */
    method SdesNeededBytes() returns (x: nat)
      requires Valid()
      ensures x == SdesNeeds(content.chunks)
    {
      if |sdesSources| == 0 {
        return 0;
      }
      x := SourcesNeededBytes(|sdesSources|);
      assert content.chunks[..|sdesSources|] == content.chunks;
      var d := |sdesSources| / 31;
      if |sdesSources| % 31 != 0 {
        d := d + 1;
      }
      x := x + d * 4;
    }

    /** SDES::NeededBytesWithExtraItem. */
    method SdesNeededBytesWithExtraItem(ghost it: Item, itemDataLength: nat) returns (x: nat)
      requires Valid() && ItemOk(it) && itemDataLength == |it.data|
      ensures content.chunks == [] ==> x == 0
      ensures content.chunks != [] ==> ChunksOk(AppendItem(content.chunks, it)) && x == SdesNeeds(AppendItem(content.chunks, it))
    {
      hide Size, SourceNeeds, ItemBytes, ChunkOk, ItemOk, Bounded, Encoded, BytesOf, BlockBuffers, ItemBuffers, SdesNeeds, AppendItem;
      if |sdesSources| == 0 {
        return 0;
      }
      ExtraItemExact(content.chunks, it);
      x := SourcesNeededBytes(|sdesSources| - 1);
      x := x + sdesSources[|sdesSources| - 1].NeededBytesWithExtraItem(itemDataLength);
      var d := |sdesSources| / 31;
      if |sdesSources| % 31 != 0 {
        d := d + 1;
      }
      x := x + d * 4;
    }

    /** SDES::NeededBytesWithExtraSource. */
    method SdesNeededBytesWithExtraSource() returns (x: nat)
      requires Valid()
      ensures x == ExtraSourceNeeds(content.chunks)
    {
      if |sdesSources| == 0 {
        return 0;
      }
      x := SourcesNeededBytes(|sdesSources|);
      assert content.chunks[..|sdesSources|] == content.chunks;
      x := x + 8;
      var n := |sdesSources| + 1;
      var d := n / 31;
      if n % 31 != 0 {
        d := d + 1;
      }
      x := x + d * 4;
    }

    method StartSenderReport(senderSsrc: u32, info: SenderInfo) returns (status: Status)
      requires Valid()
      modifies `headerData, `isSR, `content
      ensures Valid()
      ensures (content, status) == old(Outcome(Call.StartSenderReport(senderSsrc, info)))
    {
      hide Size, Packets, SourceNeeds, SdesNeeds, PacksOf, ChunkOk, Encoded, BytesOf, ItemBuffers, ItemBytes;
      if !areBuilding {
        return NotBuilding;
      }
      if |headerData| != 0 {
        return AlreadyGotReport;
      }
      ghost var call := Call.StartSenderReport(senderSsrc, info);
      BoundedStep(maximumPacketSize, content, call);
      SizeExact(content);
      Growth(content, call);
      var sdesBytes := SdesNeededBytes();
      var totalSize := byeSize + appSize + sdesBytes;
      var sizeLeft := SizeSub(maximumPacketSize, totalSize);
      if 4 + 4 + 20 > sizeLeft {
        return NotEnoughBytesLeft;
      }
      headerData := Be32(senderSsrc) + EncodeInfo(info);
      isSR := true;
      content := After(content, call);
      return Ok;
    }

    method StartReceiverReport(senderSsrc: u32) returns (status: Status)
      requires Valid()
      modifies `headerData, `isSR, `content
      ensures Valid()
      ensures (content, status) == old(Outcome(Call.StartReceiverReport(senderSsrc)))
    {
      hide Size, Packets, SourceNeeds, SdesNeeds, PacksOf, ChunkOk, Encoded, BytesOf, ItemBuffers, ItemBytes;
      if !areBuilding {
        return NotBuilding;
      }
      if |headerData| != 0 {
        return AlreadyGotReport;
      }
      ghost var call := Call.StartReceiverReport(senderSsrc);
      BoundedStep(maximumPacketSize, content, call);
      SizeExact(content);
      Growth(content, call);
      var sdesBytes := SdesNeededBytes();
      var totalSize := byeSize + appSize + sdesBytes;
      var sizeLeft := SizeSub(maximumPacketSize, totalSize);
      if 4 + 4 > sizeLeft {
        return NotEnoughBytesLeft;
      }
      headerData := Be32(senderSsrc);
      isSR := false;
      content := After(content, call);
      return Ok;
    }

    method AddReportBlock(block: ReportBlock) returns (status: Status)
      requires Valid()
      modifies `reportBlocks, `content
      ensures Valid()
      ensures (content, status) == old(Outcome(Call.AddReportBlock(block)))
    {
      hide Size, Packets, SourceNeeds, SdesNeeds, ReportNeeds, PacksOf, ContentOk, Bounded, ChunkOk, Encoded, BytesOf, ItemBuffers, ItemBytes, EncodeBlock;
      if !areBuilding {
        return NotBuilding;
      }
      if |headerData| == 0 {
        return ReportNotStarted;
      }
      ghost var call := Call.AddReportBlock(block);
      BoundedStep(maximumPacketSize, content, call);
      SizeExact(After(content, call));
      var sdesBytes := SdesNeededBytes();
      var totalOtherSize := byeSize + appSize + sdesBytes;
      if totalOtherSize + NeededBytesWithExtraReportBlock() > maximumPacketSize {
        return NotEnoughBytesLeft;
      }
      BlockBuffersAppend(content.blocks, block);
      reportBlocks := reportBlocks + [EncodeBlock(block)];
      content := After(content, call);
      return Ok;
    }

    method AddSDESSource(ssrc: u32) returns (status: Status)
      requires Valid()
      modifies `sdesSources, `content
      ensures Valid()
      ensures (content, status) == old(Outcome(Call.AddSDESSource(ssrc)))
      ensures forall i :: 0 <= i < |sdesSources| ==> sdesSources[i] in old(sdesSources) || fresh(sdesSources[i])
    {
      hide Size, Packets, SourceNeeds, SdesNeeds, ReportNeeds, PacksOf, ContentOk, Bounded, ChunkOk, Encoded, BytesOf, ItemBuffers, ItemBytes, BlockBuffers;
      if !areBuilding {
        return NotBuilding;
      }
      ghost var call := Call.AddSDESSource(ssrc);
      BoundedStep(maximumPacketSize, content, call);
      SizeExact(content);
      SizeExact(After(content, call));
      SourcesGrow(content.chunks);
      ExtraSourceExact(content.chunks, ssrc);
      var extra := SdesNeededBytesWithExtraSource();
      if byeSize + appSize + ReportNeededBytes() + extra > maximumPacketSize {
        return NotEnoughBytesLeft;
      }
      var s := new SdesSource(ssrc);
      sdesSources := sdesSources + [s];
      content := After(content, call);
      return Ok;
    }

    /** SDES::AddItem: the buffer goes to the source that was added last. */
    method AddItemToLast(buf: bytes, ghost it: Item, ghost next: Content)
      requires Valid() && sdesSources != [] && areBuilding && ItemOk(it) && buf == EncodeItem(it)
      requires next == content.(chunks := AppendItem(content.chunks, it))
      requires ContentOk(next) && Bounded(maximumPacketSize, next)
      modifies `content, sdesSources
      ensures Valid() && content == next
    {
      hide Size, Packets, EncodeItem, ItemBytes, ItemBuffers, ContentOk, Bounded, Encoded, BytesOf, BlockBuffers, ChunkOk, ItemOk;
      sdesSources[|sdesSources| - 1].AddItem(buf, it);
      content := next;
    }

    method AddSDESNormalItem(t: ItemType, itemData: bytes) returns (status: Status)
      requires Valid() && |itemData| <= 255
      modifies `content, sdesSources
      ensures Valid()
      ensures (content, status) == old(Outcome(Call.AddSDESNormalItem(t, itemData)))
    {
      hide Size, Packets, SourceNeeds, SdesNeeds, ReportNeeds, PacksOf, ContentOk, Bounded, ChunkOk, Encoded, BytesOf, ItemBuffers, ItemBytes, BlockBuffers;
      if !areBuilding {
        return NotBuilding;
      }
      if |sdesSources| == 0 {
        return NoCurrentSource;
      }
      var itemId: byte;
      match t {
        case CNAME => itemId := 1;
        case NAME => itemId := 2;
        case EMAIL => itemId := 3;
        case PHONE => itemId := 4;
        case LOC => itemId := 5;
        case TOOL => itemId := 6;
        case NOTE => itemId := 7;
        case _ => return InvalidItemType;
      }
      ghost var call := Call.AddSDESNormalItem(t, itemData);
      ghost var it := Item(itemId, itemData);
      BoundedStep(maximumPacketSize, content, call);
      SizeExact(After(content, call));
      var sdesSize := SdesNeededBytesWithExtraItem(it, |itemData|);
      if sdesSize + byeSize + appSize + ReportNeededBytes() > maximumPacketSize {
        return NotEnoughBytesLeft;
      }
      var buf := [itemId, |itemData| as byte] + itemData;
      AddItemToLast(buf, it, After(content, call));
      return Ok;
    }

    method AddSDESPrivateItem(prefix: bytes, value: bytes) returns (status: Status)
      requires Valid() && |prefix| <= 255 && |value| <= 255
      modifies `content, sdesSources
      ensures Valid()
      ensures (content, status) == old(Outcome(Call.AddSDESPrivateItem(prefix, value)))
    {
      hide Size, Packets, SourceNeeds, SdesNeeds, ReportNeeds, PacksOf, ContentOk, Bounded, ChunkOk, Encoded, BytesOf, ItemBuffers, ItemBytes, BlockBuffers;
      if !areBuilding {
        return NotBuilding;
      }
      if |sdesSources| == 0 {
        return NoCurrentSource;
      }
      var itemLength := |prefix| + 1 + |value|;
      if itemLength > 255 {
        return TotalItemLengthTooBig;
      }
      ghost var call := Call.AddSDESPrivateItem(prefix, value);
      ghost var it := PrivateItem(prefix, value);
      BoundedStep(maximumPacketSize, content, call);
      SizeExact(After(content, call));
      var sdesSize := SdesNeededBytesWithExtraItem(it, itemLength);
      if sdesSize + byeSize + appSize + ReportNeededBytes() > maximumPacketSize {
        return NotEnoughBytesLeft;
      }
      var buf := [SDES_PRIV, itemLength as byte] + ([|prefix| as byte] + prefix + value);
      AddItemToLast(buf, it, After(content, call));
      return Ok;
    }

    method AddBYEPacket(ssrcs: seq<u32>, reason: bytes) returns (status: Status)
      requires Valid() && |ssrcs| <= 255 && |reason| <= 255
      modifies `byePackets, `byeSize, `content
      ensures Valid()
      ensures (content, status) == old(Outcome(Call.AddBYEPacket(ssrcs, reason)))
    {
      hide Size, Packets, SourceNeeds, SdesNeeds, ReportNeeds, PacksOf, ContentOk, Bounded, ChunkOk, Encoded, BytesOf, ItemBuffers, ItemBytes, BlockBuffers, EncodePacket, PacketOk;
      if !areBuilding {
        return NotBuilding;
      }
      if |ssrcs| > 31 {
        return TooManySsrcs;
      }
      var packSize, zeroBytes := ByePackSize(ssrcs, reason);
      ghost var call := Call.AddBYEPacket(ssrcs, reason);
      ghost var p := BYE(ssrcs, reason);
      BoundedStep(maximumPacketSize, content, call);
      SizeExact(After(content, call));
      ListAppend(content.byes, p);
      EncodedAppend(content.byes, p);
      var sdesBytes := SdesNeededBytes();
      if appSize + byeSize + sdesBytes + ReportNeededBytes() + packSize > maximumPacketSize {
        return NotEnoughBytesLeft;
      }
      var buf := WriteBye(ssrcs, reason, packSize, zeroBytes);
      byePackets := byePackets + [buf];
      byeSize := byeSize + packSize;
      content := After(content, call);
      return Ok;
    }

    method AddAPPPacket(subtype: byte, ssrc: u32, name: bytes, appData: bytes) returns (status: Status)
      requires Valid() && |name| == 4
      modifies `appPackets, `appSize, `content
      ensures Valid()
      ensures (content, status) == old(Outcome(Call.AddAPPPacket(subtype, ssrc, name, appData)))
    {
      hide Size, Packets, SourceNeeds, SdesNeeds, ReportNeeds, PacksOf, ContentOk, Bounded, ChunkOk, Encoded, BytesOf, ItemBuffers, ItemBytes, BlockBuffers, EncodePacket, Be16, Be32;
      if !areBuilding {
        return NotBuilding;
      }
      if subtype > 31 {
        return IllegalSubtype;
      }
      if |appData| % 4 != 0 {
        return IllegalAppDataLength;
      }
      var appDataWords := |appData| / 4;
      if appDataWords + 2 > 65535 {
        return AppDataLengthTooBig;
      }
      var packSize := 4 + 4 * 2 + |appData|;
      ghost var call := Call.AddAPPPacket(subtype, ssrc, name, appData);
      ghost var p := APP(subtype, ssrc, name, appData);
      BoundedStep(maximumPacketSize, content, call);
      SizeExact(After(content, call));
      AppForm(subtype, ssrc, name, appData);
      ListAppend(content.apps, p);
      EncodedAppend(content.apps, p);
      var sdesBytes := SdesNeededBytes();
      if appSize + byeSize + sdesBytes + ReportNeededBytes() + packSize > maximumPacketSize {
        return NotEnoughBytesLeft;
      }
      var buf := [RTP_VERSION * 64 + subtype, RTCP_APP] + Be16(appDataWords + 2) + (Be32(ssrc) + name + appData);
      appPackets := appPackets + [buf];
      appSize := appSize + packSize;
      content := After(content, call);
      return Ok;
    }

    method EndBuild() returns (status: Status)
      requires Valid()
      modifies `compoundPacket, `rtcpPackList, `areBuilding, `isSR, `headerData, `reportBlocks, `sdesSources,
               `byePackets, `byeSize, `appPackets, `appSize, `content
      ensures Valid()
      ensures status == if !old(areBuilding) then NotBuilding
                        else if old(content.header) == NoReport then NoReportPresent
                        else Ok
      ensures status != Ok ==> content == old(content) && areBuilding == old(areBuilding) && compoundPacket == old(compoundPacket)
      ensures status == Ok ==>
                && !areBuilding && content == EMPTY && compoundPacket != null && fresh(compoundPacket)
                && compoundPacket.Length == Size(old(content))
                && (compoundPacket[..], rtcpPackList) == Output(old(content))
    {
      hide Size, SourceNeeds, SdesNeeds, ReportNeeds, PacksOf, ChunkOk, ItemBuffers, ItemBytes, Packets, Output, PacketOk, ContentOk, Bounded, BlockBuffers, Encoded, BytesOf, SourcesHold;
      if !areBuilding {
        return NotBuilding;
      }
      if |headerData| == 0 {
        return NoReportPresent;
      }
      SizeExact(content);
      var sdesBytes := SdesNeededBytes();
      var len := appSize + byeSize + ReportNeededBytes() + sdesBytes;
      var buf := new byte[len];
      var refs := WriteAll(buf);
      compoundPacket := buf;
      rtcpPackList := refs;
      areBuilding := false;
      ClearBuildBuffers();
      return Ok;
    }

    method ClearBuildBuffers()
      modifies `isSR, `headerData, `reportBlocks, `sdesSources, `byePackets, `byeSize, `appPackets, `appSize, `content
      ensures content == EMPTY && sdesSources == []
      ensures ContentOk(content) && Bounded(maximumPacketSize, content) && ReportValid() && SdesValid() && ListsValid()
    {
      EmptySize();
      isSR, headerData, reportBlocks, sdesSources := false, [], [], [];
      byePackets, byeSize, appPackets, appSize := [], 0, [], 0;
      content := EMPTY;
    }

    /** EndBuild's four parts: reports, SDES, APP and BYE packets, one after the other. */
    method WriteAll(buf: array<byte>) returns (refs: seq<PacketRef>)
      requires Valid() && !content.header.NoReport? && buf.Length == Size(content)
      modifies buf
      ensures (buf[..], refs) == Output(content)
    {
      hide EncodePacket, PacketOk, Image, BytesOf, ReportPackets, SdesPackets, Encoded, Bounded, ChunkOk, SdesSource.Valid, BlockBuffers;
      ghost var r := ReportPackets(content.header, content.blocks);
      ghost var rs := r + SdesPackets(content.chunks);
      ghost var rsa := rs + content.apps;
      BytesOfConcat(r, SdesPackets(content.chunks));
      BytesOfConcat(rs, content.apps);
      BytesOfConcat(rsa, content.byes);
      AppTypes(content);
      var cur;
      cur, refs := WriteReports(buf, isSR, headerData, reportBlocks, content.header, content.blocks);
      cur, refs := WriteSdesPackets(buf, cur, refs, sdesSources, content.chunks, r);
      cur, refs := WriteFormed(buf, cur, refs, appPackets, RTCP_APP, content.apps, rs);
      cur, refs := WriteFormed(buf, cur, refs, byePackets, RTCP_BYE, content.byes, rsa);
      assert buf[..cur] == buf[..];
    }

  }

  lemma {:induction false} AppTypes(c: Content)
    requires ContentOk(c)
    ensures forall i :: 0 <= i < |c.apps| ==> TypeOf(c.apps[i]) == RTCP_APP
    ensures forall i :: 0 <= i < |c.byes| ==> TypeOf(c.byes[i]) == RTCP_BYE
  {
  }

  lemma {:induction false} AppForm(subtype: byte, ssrc: u32, name: bytes, data: bytes)
    requires PacketOk(APP(subtype, ssrc, name, data))
    ensures EncodePacket(APP(subtype, ssrc, name, data)) == [RTP_VERSION * 64 + subtype, RTCP_APP] + Be16(|data| / 4 + 2) + (Be32(ssrc) + name + data)
    ensures |EncodePacket(APP(subtype, ssrc, name, data))| == 12 + |data|
  {
  }

  lemma {:induction false} ByeSize(ssrcs: seq<u32>, reason: bytes)
    requires |ssrcs| <= 31 && |reason| <= 255
    ensures PacketOk(BYE(ssrcs, reason))
    ensures |EncodePacket(BYE(ssrcs, reason))|
            == 4 + 4 * |ssrcs| + if reason == [] then 0 else 1 + |reason| + PadTo4(1 + |reason|)
  {
    hide PadTo4;
  }

  /** The size that AddBYEPacket computes, and the zero bytes that align the reason. */
  method ByePackSize(ssrcs: seq<u32>, reason: bytes) returns (packSize: nat, zeroBytes: nat)
    requires |ssrcs| <= 31 && |reason| <= 255
    ensures PacketOk(BYE(ssrcs, reason)) && packSize == |EncodePacket(BYE(ssrcs, reason))|
    ensures zeroBytes == if reason == [] then 0 else PadTo4(1 + |reason|)
  {
    hide EncodePacket;
    ByeSize(ssrcs, reason);
    packSize := 4 + 4 * |ssrcs|;
    zeroBytes := 0;
    if |reason| > 0 {
      packSize := packSize + 1;
      packSize := packSize + |reason|;
      var r := packSize % 4;
      if r != 0 {
        zeroBytes := 4 - r;
        packSize := packSize + zeroBytes;
      }
    }
  }

  method AppendSsrcs(head: bytes, ssrcs: seq<u32>) returns (buf: bytes)
    ensures buf == head + Words(ssrcs)
  {
    buf := head;
    var srcIndex := 0;
    while srcIndex < |ssrcs|
      invariant 0 <= srcIndex <= |ssrcs|
      invariant buf == head + Words(ssrcs[..srcIndex])
    {
      WordsAppend(ssrcs[..srcIndex], ssrcs[srcIndex]);
      assert ssrcs[..srcIndex + 1] == ssrcs[..srcIndex] + [ssrcs[srcIndex]];
      buf := buf + Be32(ssrcs[srcIndex]);
      srcIndex := srcIndex + 1;
    }
    assert ssrcs[..|ssrcs|] == ssrcs;
  }

  method AppendReason(head: bytes, reason: bytes, zeroBytes: nat) returns (buf: bytes)
    requires |reason| <= 255 && zeroBytes == if reason == [] then 0 else PadTo4(1 + |reason|)
    ensures buf == head + EncodeReason(reason)
  {
    hide PadTo4;
    buf := head;
    if |reason| != 0 {
      buf := buf + [|reason| as byte] + reason;
      ghost var text := buf;
      var i := 0;
      while i < zeroBytes
        invariant 0 <= i <= zeroBytes
        invariant buf == text + Zeros(i)
      {
        assert Zeros(i + 1) == Zeros(i) + [0];
        buf := buf + [0];
        i := i + 1;
      }
    }
  }

  method WriteBye(ssrcs: seq<u32>, reason: bytes, packSize: nat, zeroBytes: nat) returns (buf: bytes)
    requires |ssrcs| <= 31 && |reason| <= 255
    requires packSize == |EncodePacket(BYE(ssrcs, reason))|
    requires zeroBytes == if reason == [] then 0 else PadTo4(1 + |reason|)
    ensures buf == EncodePacket(BYE(ssrcs, reason))
  {
    hide Words, EncodeReason, PadTo4;
    var numWords := packSize / 4;
    var head := [RTP_VERSION * 64 + |ssrcs| as byte, RTCP_BYE] + Be16((numWords - 1) % 0x1_0000);
    buf := AppendSsrcs(head, ssrcs);
    buf := AppendReason(buf, reason, zeroBytes);
    assert buf == head + (Words(ssrcs) + EncodeReason(reason));
  }
}