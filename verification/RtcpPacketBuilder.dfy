/** The packet builder as an object: it drives a compound packet builder, and remembers its round of items. */
module RtcpPacketBuilder {
  import opened Bytes
  import opened RtcpFormat
  import opened RtcpSdes
  import opened RtcpSdesSource
  import opened RtcpBuild
  import opened RtcpBuildRuns
  import opened RtcpBuilder
  import opened PacketRound
  import opened PacketRoundRuns

  datatype BuildStatus = Built | NotInit | AlreadyInit | IllegalMaxPackSize | IllegalTimestampUnit | PacketFilledTooSoon

  class PacketBuilder {
    var init: bool
    var maxPacketSize: nat
    var cname: bytes
    var texts: Texts
    var intervals: map<ItemType, int>
    var doing: set<ItemType>
    var processed: set<ItemType>
    var sdesBuildCount: nat
    var processingSdes: bool
    var firstPacket: bool

    ghost function State(): Round
      reads this
    {
      Round(sdesBuildCount, intervals, doing, processed, processingSdes, firstPacket)
    }

    ghost predicate Valid()
      reads this
    {
      init ==>
        && MIN_PACKET_SIZE <= maxPacketSize < SIZE_T && |cname| <= 255 && (forall t :: t in texts ==> |texts[t]| <= 255)
        && RoundOk(State())
    }

    /** What a packet is built from: the sources' part, and the own texts. */
    ghost predicate Suits(s: Situation)
      reads this
    {
      s.cname == cname && s.texts == texts
    }

    constructor ()
      ensures Valid() && !init
    {
      init, maxPacketSize, cname, texts, intervals := false, 0, [], map[], map[];
      doing, processed, sdesBuildCount, processingSdes, firstPacket := {}, {}, 0, false, true;
    }

    method Init(maxPackSize: nat, tsUnit: real, name: bytes) returns (status: BuildStatus)
      requires Valid() && maxPackSize < SIZE_T
      modifies this
      ensures Valid()
      ensures status == if old(init) then AlreadyInit
                        else if maxPackSize < MIN_PACKET_SIZE then IllegalMaxPackSize
                        else if tsUnit < 0.0 then IllegalTimestampUnit
                        else Built
      ensures status == Built ==> init && maxPacketSize == maxPackSize && cname == name[..if |name| > 255 then 255 else |name|]
                                  && State() == Round(0, map[], {}, {}, false, true) && texts == map[]
      ensures status != Built ==> init == old(init) && State() == old(State())
    {
      if init {
        return AlreadyInit;
      }
      if maxPackSize < MIN_PACKET_SIZE {
        return IllegalMaxPackSize;
      }
      if tsUnit < 0.0 {
        return IllegalTimestampUnit;
      }
      maxPacketSize := maxPackSize;
      cname := name[..if |name| > 255 then 255 else |name|];
      texts, intervals, sdesBuildCount, doing, processed := map[], map[], 0, {}, {};
      firstPacket, processingSdes, init := true, false, true;
      return Built;
    }

    /** A new own text takes effect from the next packet on, also within a round. */
    method SetLocalText(t: ItemType, text: bytes) returns (ok: bool)
      requires Valid()
      modifies `texts
      ensures Valid() && ok == (init && |text| <= 255) && texts == if ok then old(texts)[t := text] else old(texts)
    {
      hide RoundOk;
      ok := init && |text| <= 255;
      if ok {
        texts := texts[t := text];
      }
    }

    /** A new interval takes effect from the next round on. */
    method SetItemInterval(t: ItemType, count: int)
      requires Valid()
      modifies `intervals
      ensures Valid() && State() == if init then old(State()).(intervals := old(intervals)[t := count]) else old(State())
    {
      if init {
        intervals := intervals[t := count];
      }
    }

    /** The own items in turn, as far as they are due, not yet sent, and fit. */
    method FillInSDES(b: CompoundPacketBuilder) returns (full: bool, processedAll: bool, added: nat)
      requires b.Valid() && b.areBuilding && |b.content.chunks| == 1 && forall t :: t in texts ==> |texts[t]| <= 255
      modifies `processed, b`content, b.sdesSources
      ensures b.Valid()
      ensures var p := Pending(doing, old(processed), ORDER);
              && (b.content, added) == AddItems(b.maximumPacketSize, old(b.content), p, texts)
              && processedAll == (added == |p|) && full == !processedAll
              && processed == Marked(old(processed), p[..added])
    {
      hide CompoundPacketBuilder.Valid, Step, Pending, AddItems, ContentOk, Rest, Marked;
      full, processedAll, added := false, false, 0;
      ghost var sent, c := processed, b.content;
      ghost var p := Pending(doing, sent, ORDER);
      ghost var max := b.maximumPacketSize;
      ContentOf(b);
      MarkedFacts(sent, CNAME, []);
      RestStarts(max, c, p, texts);
      assert p[..0] == [] && ORDER[0..] == ORDER;
      for i := 0 to |ORDER|
        invariant b.Valid() && b.areBuilding && ContentOk(b.content) && |b.content.chunks| == 1
        invariant added <= |p| && Pending(doing, sent, ORDER[i..]) == p[added..]
        invariant Rest(max, c, p, texts, added, b.content)
        invariant processed == Marked(sent, p[..added])
      {
        var t := ORDER[i];
        PendingStep(doing, sent, i, p, added);
        StillUnsent(doing, sent, i, p, added);
        if t in doing && t !in processed {
          var data := TextOf(texts, t);
          assert p[added] == t;
          RestStep(max, c, p, texts, added, b.content);
          OneChunkStep(max, b.content, t, data);
          var status := b.AddSDESNormalItem(t, data);
          ContentOf(b);
          if status == NotEnoughBytesLeft {
            full := true;
            return;
          }
          MarkedOne(sent, p, added);
          added := added + 1;
          processed := processed + {t};
        }
      }
      NonePending(doing, sent);
      assert ORDER[|ORDER|..] == [];
      RestEnd(max, c, p, texts, added, b.content);
      processedAll := true;
    }

    /** Up to limit report blocks for the sources that the packet is to report on. */
    method FillInReportBlocks(b: CompoundPacketBuilder, blocks: seq<ReportBlock>, limit: int) returns (full: bool, added: nat)
      requires b.Valid() && b.areBuilding && !b.content.header.NoReport?
      modifies b`reportBlocks, b`content
      ensures b.Valid() && b.areBuilding
      ensures (b.content, added, full) == AddBlocks(b.maximumPacketSize, old(b.content), blocks, limit, 0)
    {
      hide CompoundPacketBuilder.Valid, Size, ContentOk;
      full, added := false, 0;
      ContentOf(b);
      ghost var max, c := b.maximumPacketSize, b.content;
      var i := 0;
      var done := false;
      assert blocks[0..] == blocks;
      while !done && i < |blocks|
        invariant b.Valid() && b.areBuilding && ContentOk(b.content) && !b.content.header.NoReport?
        invariant 0 <= i <= |blocks|
        invariant !done ==> AddBlocks(max, c, blocks, limit, 0) == AddBlocks(max, b.content, blocks[i..], limit, added) && !full
        invariant done ==> AddBlocks(max, c, blocks, limit, 0) == (b.content, added, full)
        decreases !done, |blocks| - i
      {
        assert blocks[i..][0] == blocks[i] && blocks[i..][1..] == blocks[i + 1..];
        var status := b.AddReportBlock(blocks[i]);
        ContentOf(b);
        if status != Ok {
          done, full := true, true;
        } else {
          added := added + 1;
          if added >= limit {
            done := true;
          }
          i := i + 1;
        }
      }
      if !done {
        assert blocks[i..] == [];
      }
    }

    /** The report header and the own chunk, with which every packet begins. */
    method Begin(s: Situation) returns (status: BuildStatus, b: CompoundPacketBuilder)
      requires Valid() && init && Suits(s)
      ensures fresh(b) && fresh(b.sdesSources) && b.Valid()
      ensures status == Built && b.areBuilding && b.maximumPacketSize == maxPacketSize && b.compoundPacket == null
      ensures b.content == Opening(s)
    {
      hide CompoundPacketBuilder.Valid, Step, ContentOk, RoundOk;
      OpeningBuilt(maxPacketSize, s);
      b := new CompoundPacketBuilder();
      var st := b.InitBuild(maxPacketSize);
      ContentOf(b);
      status := PacketFilledTooSoon;
      match s.info {
        case Some(info) => st := b.StartSenderReport(s.ssrc, info);
        case None => st := b.StartReceiverReport(s.ssrc);
      }
      ContentOf(b);
      if st != Ok {
        return;
      }
      st := b.AddSDESSource(s.ssrc);
      ContentOf(b);
      if st != Ok {
        return;
      }
      st := b.AddSDESNormalItem(CNAME, cname);
      if st != Ok {
        return;
      }
      status := Built;
    }

    method BuildNextPacket(s: Situation) returns (status: BuildStatus, pack: CompoundPacketBuilder?)
      requires Valid() && Suits(s)
      modifies `doing, `processed, `sdesBuildCount, `processingSdes, `firstPacket
      ensures Valid()
      ensures !init ==> status == NotInit && pack == null && State() == old(State())
      ensures init ==>
                var o := BuildNext(maxPacketSize, old(State()), s);
                && SituationOk(s) && o.Filled? && Size(o.content) <= maxPacketSize && !o.content.header.NoReport?
                && status == Built && State() == o.round
                && pack != null && fresh(pack) && pack.compoundPacket != null
                && (pack.compoundPacket[..], pack.rtcpPackList) == Output(o.content)
    {
      hide CompoundPacketBuilder.Valid, Step, ContentOk, Open, GoOn, Size, Output, RoundOk, AddBlocks;
      if !init {
        return NotInit, null;
      }
      Filling(maxPacketSize, State(), s);
      if !processingSdes {
        NothingSent(State());
      }
      var b;
      status, b := Begin(s);
      ContentOf(b);
      if !processingSdes {
        status := BuildOpening(b, s);
      } else {
        status := BuildContinuation(b, s);
      }
      ghost var c := b.content;
      assert status == Built && Filled(State(), c) == BuildNext(maxPacketSize, old(State()), s);
      var st := b.EndBuild();
      pack := b;
    }

    method BuildOpening(b: CompoundPacketBuilder, s: Situation) returns (status: BuildStatus)
      requires b.Valid() && b.areBuilding && b.content == Opening(s) && SituationOk(s) && s.texts == texts
      requires !processingSdes && processed == {} && b.maximumPacketSize == maxPacketSize >= MIN_PACKET_SIZE
      modifies `doing, `processed, `sdesBuildCount, `processingSdes, `firstPacket, b`content, b`reportBlocks, b.sdesSources
      ensures b.Valid() && b.areBuilding
      ensures ContentOk(Opening(s))
      ensures var o := Open(maxPacketSize, old(State()), s, Opening(s));
              if o.FilledTooSoon? then status == PacketFilledTooSoon else status == Built && Filled(State(), b.content) == o
    {
      hide CompoundPacketBuilder.Valid, Step, ContentOk, AddBlocks, PacketRound.BeginRound, Size;
      ContentOf(b);
      OpeningSize(s);
      BlocksFit(maxPacketSize, b.content, s.blocks, s.limit, 0);
      var full, added := FillInReportBlocks(b, s.blocks, s.limit);
      if full && added == 0 {
        return PacketFilledTooSoon;
      }
      status := Built;
      firstPacket := false;
      if !full {
        BeginRound(b, s);
      }
    }

    method BeginRound(b: CompoundPacketBuilder, s: Situation)
      requires b.Valid() && b.areBuilding && SituationOk(s) && s.texts == texts && b.maximumPacketSize == maxPacketSize
      requires ContentOk(b.content) && Size(b.content) <= maxPacketSize && |b.content.chunks| == 1 && !b.content.header.NoReport?
      requires !processingSdes && processed == {}
      modifies `doing, `processed, `sdesBuildCount, `processingSdes, b`content, b`reportBlocks, b.sdesSources
      ensures b.Valid() && b.areBuilding
      ensures Filled(State(), b.content) == PacketRound.BeginRound(maxPacketSize, old(State()), s, old(b.content))
    {
      hide CompoundPacketBuilder.Valid, Step, ContentOk, AddBlocks, AddItems, Pending, Size;
      processingSdes := true;
      sdesBuildCount := sdesBuildCount + 1;
      doing := Due(sdesBuildCount);
      ghost var d, q := b.content, State();
      ghost var p := Pending(doing, {}, ORDER);
      OrderFacts(q);
      ItemsFit(maxPacketSize, d, p, texts);
      var full, processedAll, itemCount := FillInSDES(b);
      AllOrPart({}, p, itemCount);
      if processedAll {
        processingSdes := false;
        processed := {};
        if !full && s.skipped > 0 {
          var full3, added3 := FillInReportBlocks(b, s.again, s.skipped);
        }
      }
    }

    method BuildContinuation(b: CompoundPacketBuilder, s: Situation) returns (status: BuildStatus)
      requires b.Valid() && b.areBuilding && b.content == Opening(s) && SituationOk(s) && s.texts == texts
      requires processingSdes && b.maximumPacketSize == maxPacketSize >= MIN_PACKET_SIZE
      modifies `processed, `processingSdes, `firstPacket, b`content, b`reportBlocks, b.sdesSources
      ensures b.Valid() && b.areBuilding
      ensures ContentOk(Opening(s))
      ensures var o := GoOn(maxPacketSize, old(State()), s, Opening(s));
              if o.FilledTooSoon? then status == PacketFilledTooSoon else status == Built && Filled(State(), b.content) == o
    {
      hide CompoundPacketBuilder.Valid, Step, ContentOk, AddBlocks, AddItems, Pending;
      ContentOf(b);
      OpeningSize(s);
      ghost var p := Pending(doing, processed, ORDER);
      OrderFacts(State());
      ItemsFit(maxPacketSize, b.content, p, texts);
      var full, processedAll, itemCount := FillInSDES(b);
      if itemCount == 0 {
        return PacketFilledTooSoon;
      }
      AllOrPart(old(processed), p, itemCount);
      status := Built;
      if processedAll {
        processingSdes := false;
        processed := {};
        if !full {
          var full2, added := FillInReportBlocks(b, s.blocks, s.limit);
        }
      }
      firstPacket := false;
    }

    /** The items whose turn it is in round number count. */
    method Due(count: nat) returns (due: set<ItemType>)
      ensures due == DueIn(intervals, count)
    {
      due := set t | t in intervals && intervals[t] > 0 && count % intervals[t] == 0;
    }

    method BuildBYEPacket(s: Situation, reason: bytes) returns (status: BuildStatus, pack: CompoundPacketBuilder?)
      requires Valid() && Suits(s)
      ensures !init ==> status == NotInit && pack == null
      ensures init ==>
                var o := BuildBye(maxPacketSize, s, reason[..if |reason| > 255 then 255 else |reason|]);
                && SituationOk(s) && o.Some? && Size(o.value) <= 560 && !o.value.header.NoReport?
                && status == Built && pack != null && fresh(pack) && pack.compoundPacket != null
                && (pack.compoundPacket[..], pack.rtcpPackList) == Output(o.value)
    {
      hide CompoundPacketBuilder.Valid, Step, ContentOk, Size, Output, RoundOk;
      if !init {
        return NotInit, null;
      }
      var text := reason[..if |reason| > 255 then 255 else |reason|];
      ByeAlwaysFits(maxPacketSize, s, text);
      OpeningBuilt(maxPacketSize, s);
      var b;
      status, b := Begin(s);
      ContentOf(b);
      var st := b.AddBYEPacket([s.ssrc], text);
      ContentOf(b);
      ghost var c := b.content;
      assert BuildBye(maxPacketSize, s, text) == Some(c);
      if st != Ok {
        return PacketFilledTooSoon, null;
      }
      st := b.EndBuild();
      pack := b;
    }
  }

  lemma {:induction false} NothingSent(r: Round)
    requires RoundOk(r) && !r.ongoing
    ensures r.sent == {}
  {
  }

  lemma {:induction false} AllOrPart(sent: set<ItemType>, p: seq<ItemType>, n: nat)
    requires n <= |p|
    ensures p[..|p|] == p
  {
  }

  /** By the progress lemmas, there is always a packet, and what it was built from is known. */
  lemma {:induction false} Filling(max: nat, r: Round, s: Situation)
    requires max >= MIN_PACKET_SIZE && SituationOk(s) && RoundOk(r)
    ensures var o := BuildNext(max, r, s);
            && o.Filled? && Size(o.content) <= max && RoundOk(o.round) && o.content.header == HeaderOf(s)
            && ContentOk(Opening(s))
            && o == if r.ongoing then GoOn(max, r, s, Opening(s)) else Open(max, r, s, Opening(s))
  {
    hide GoOn, Open, Size, Step, Pending, ContentOk;
    OpeningBuilt(max, s);
    OpeningSize(s);
    if r.ongoing {
      GoesOn(max, r, s);
    } else {
      Opens(max, r, s);
    }
  }

  lemma {:induction false} ContentOf(b: CompoundPacketBuilder)
    requires b.Valid()
    ensures ContentOk(b.content)
  {
  }

  /** What is left to do after the first items of the list. */
  ghost predicate Rest(max: nat, c: Content, p: seq<ItemType>, texts: Texts, added: nat, d: Content) {
    && (forall t :: t in texts ==> |texts[t]| <= 255) && ContentOk(c) && ContentOk(d) && added <= |p|
    && AddItems(max, c, p, texts) == (AddItems(max, d, p[added..], texts).0, AddItems(max, d, p[added..], texts).1 + added)
  }

  lemma {:induction false} OneMore(max: nat, c: Content, items: seq<ItemType>, texts: Texts)
    requires ContentOk(c) && items != [] && forall t :: t in texts ==> |texts[t]| <= 255
    ensures var (d, status) := Step(max, c, Call.AddSDESNormalItem(items[0], TextOf(texts, items[0])));
            AddItems(max, c, items, texts)
            == if status == NotEnoughBytesLeft then (c, 0)
               else (AddItems(max, d, items[1..], texts).0, AddItems(max, d, items[1..], texts).1 + 1)
  {
    hide Step, ContentOk;
  }

  lemma {:induction false} RestStarts(max: nat, c: Content, p: seq<ItemType>, texts: Texts)
    requires ContentOk(c) && forall t :: t in texts ==> |texts[t]| <= 255
    ensures Rest(max, c, p, texts, 0, c)
  {
    hide AddItems, ContentOk;
    assert p[0..] == p;
  }

  lemma {:induction false} RestStep(max: nat, c: Content, p: seq<ItemType>, texts: Texts, added: nat, d: Content)
    requires Rest(max, c, p, texts, added, d) && added < |p|
    ensures var (e, status) := Step(max, d, Call.AddSDESNormalItem(p[added], TextOf(texts, p[added])));
            if status == NotEnoughBytesLeft then e == d && AddItems(max, c, p, texts) == (d, added) else Rest(max, c, p, texts, added + 1, e)
  {
    hide Step, ContentOk, Size, AddItems;
    Refused(max, d, Call.AddSDESNormalItem(p[added], TextOf(texts, p[added])));
    assert p[added..][0] == p[added] && p[added..][1..] == p[added + 1..];
    OneMore(max, d, p[added..], texts);
  }

  lemma {:induction false} Refused(max: nat, c: Content, call: Call)
    requires ContentOk(c) && CallOk(call)
    ensures Step(max, c, call).1 != Ok ==> Step(max, c, call).0 == c
  {
    hide Size, ContentOk;
  }

  lemma {:induction false} RestEnd(max: nat, c: Content, p: seq<ItemType>, texts: Texts, added: nat, d: Content)
    requires Rest(max, c, p, texts, added, d) && p[added..] == []
    ensures AddItems(max, c, p, texts) == (d, added)
  {
  }

  lemma {:induction false} OneChunkStep(max: nat, c: Content, t: ItemType, data: bytes)
    requires ContentOk(c) && |c.chunks| == 1 && |data| <= 255
    ensures |Step(max, c, Call.AddSDESNormalItem(t, data)).0.chunks| == 1
  {
    hide Size;
  }

  lemma {:induction false} MarkedOne(sent: set<ItemType>, p: seq<ItemType>, added: nat)
    requires added < |p|
    ensures Marked(sent, p[..added + 1]) == Marked(sent, p[..added]) + {p[added]}
  {
    assert p[..added + 1] == p[..added] + [p[added]];
  }

  lemma {:induction false} PendingStep(due: set<ItemType>, sent: set<ItemType>, i: nat, p: seq<ItemType>, added: nat)
    requires i < |ORDER| && added <= |p| && Pending(due, sent, ORDER[i..]) == p[added..]
    ensures if ORDER[i] in due && ORDER[i] !in sent
            then added < |p| && p[added] == ORDER[i] && Pending(due, sent, ORDER[i + 1..]) == p[added + 1..]
            else Pending(due, sent, ORDER[i + 1..]) == p[added..]
  {
    hide Pending;
    var order := ORDER;
    PendingHead(due, sent, order[i..]);
    assert order[i..][1..] == order[i + 1..] && order[i..][0] == order[i];
    if order[i] in due && order[i] !in sent {
      var rest := Pending(due, sent, order[i + 1..]);
      assert p[added..] == [order[i]] + rest;
      assert |p[added..]| == 1 + |rest| && p[added] == p[added..][0];
      assert p[added + 1..] == p[added..][1..] == rest;
    }
  }

  /** The item at position i is pending exactly if it was not marked, before or during the filling. */
  lemma {:induction false} StillUnsent(due: set<ItemType>, sent: set<ItemType>, i: nat, p: seq<ItemType>, added: nat)
    requires i < |ORDER| && p == Pending(due, sent, ORDER) && added <= |p| && Pending(due, sent, ORDER[i..]) == p[added..]
    ensures ORDER[i] in Marked(sent, p[..added]) <==> ORDER[i] in sent
  {
    hide Pending;
    var order := ORDER;
    assert Distinct(order);
    var done, rest := Pending(due, sent, order[..i]), Pending(due, sent, order[i..]);
    PendingSplit(due, sent, order, i);
    PendingFrom(due, sent, order[..i]);
    assert |done| + |rest| == |p| && |rest| == |p| - added;
    assert p[..added] == done;
    assert order[i] !in order[..i];
  }

  lemma {:induction false} PendingSplit(due: set<ItemType>, sent: set<ItemType>, order: seq<ItemType>, i: nat)
    requires i <= |order|
    ensures Pending(due, sent, order) == Pending(due, sent, order[..i]) + Pending(due, sent, order[i..])
    decreases i
  {
    if i == 0 {
      assert order[..0] == [] && order[0..] == order;
    } else {
      PendingSplit(due, sent, order[1..], i - 1);
      assert order[..i][1..] == order[1..][..i - 1] && order[1..][i - 1..] == order[i..] && order[..i][0] == order[0];
    }
  }
}
