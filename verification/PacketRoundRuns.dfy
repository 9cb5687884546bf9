/** The packet builder always makes progress: no packet is refused for want of room, and every round ends. */
module PacketRoundRuns {
  import opened Bytes
  import opened RtcpFormat
  import opened RtcpSdes
  import opened RtcpBuild
  import opened RtcpBuildRuns
  import opened PacketRound
  import opened RtcpBuilder

  // ---------------------------------------------------------------- sizes

  lemma {:induction false} OneChunkNeeds(c: Chunk)
    requires ChunkOk(c)
    ensures SdesNeeds([c]) == SourceNeeds(ItemBytes(c)) + 4
  {
    assert SourcesNeed([c]) == SourceNeeds(ItemBytes(c)) + SourcesNeed([]);
  }

  lemma {:induction false} SourceNeedsBound(total: nat)
    ensures SourceNeeds(total) <= total + 8
  {
  }

  /** The size of a packet with one report and one chunk. */
  lemma {:induction false} OneChunkSize(c: Content)
    requires ContentOk(c) && |c.chunks| == 1 && c.apps == [] && c.byes == []
    ensures ChunkOk(c.chunks[0])
    ensures Size(c) == ReportNeeds(c.header, |c.blocks|) + SourceNeeds(ItemBytes(c.chunks[0])) + 4
  {
    hide Size, ReportNeeds, SourceNeeds, ItemBytes;
    SizeExact(c);
    assert c.chunks == [c.chunks[0]];
    assert ChunkOk(c.chunks[0]);
    OneChunkNeeds(c.chunks[0]);
    NoBytes();
  }

  lemma {:induction false} NoBytes()
    ensures BytesOf([]) == []
  {
  }

  lemma {:induction false} OneItem(ssrc: u32, it: Item)
    requires ItemOk(it)
    ensures ItemBytes(Chunk(ssrc, [it])) == 2 + |it.data|
  {
    assert EncodeItems([it]) == EncodeItem(it) + EncodeItems([]);
  }

  lemma {:induction false} HeaderNeeds(h: ReportHeader)
    requires !h.NoReport?
    ensures ReportNeeds(h, 0) <= 28 && ReportNeeds(h, 1) <= 52
  {
    PacksOfOne();
  }

  lemma {:induction false} OpeningSize(s: Situation)
    requires SituationOk(s)
    ensures ContentOk(Opening(s)) && Size(Opening(s)) <= 296
  {
    hide Size, SourceNeeds, ItemBytes, ReportNeeds;
    var it := Item(1, s.cname);
    assert ItemOk(it) && ChunkOk(Chunk(s.ssrc, [it]));
    OneChunkSize(Opening(s));
    OneItem(s.ssrc, it);
    CnameChunk(|s.cname|);
    HeaderNeeds(HeaderOf(s));
  }

  lemma {:induction false} CnameChunk(n: nat)
    requires n <= 255
    ensures SourceNeeds(2 + n) <= 264
  {
  }

  /** With 600 bytes, report header and own CNAME always fit. */
  lemma {:induction false} OpeningBuilt(max: nat, s: Situation)
    requires SituationOk(s) && max >= MIN_PACKET_SIZE
    ensures var (a, st1) := Step(max, EMPTY, StartCall(s));
            var (b, st2) := Step(max, a, Call.AddSDESSource(s.ssrc));
            var (c, st3) := Step(max, b, Call.AddSDESNormalItem(CNAME, s.cname));
            st1 == st2 == st3 == Ok && c == Opening(s)
  {
    hide Size, ChunkOk;
    EmptySize();
    Growth(EMPTY, StartCall(s));
    var a := After(EMPTY, StartCall(s));
    assert a == EMPTY.(header := HeaderOf(s));
    Growth(a, Call.AddSDESSource(s.ssrc));
    var b := After(a, Call.AddSDESSource(s.ssrc));
    assert b.chunks == [Chunk(s.ssrc, [])];
    var c := After(b, Call.AddSDESNormalItem(CNAME, s.cname));
    assert [] + [Item(1, s.cname)] == [Item(1, s.cname)];
    assert c.chunks == [Chunk(s.ssrc, [Item(1, s.cname)])];
    assert c == Opening(s);
    OpeningSize(s);
  }

  // ---------------------------------------------------------------- report blocks

  /** Report blocks only add to the blocks, and never beyond the maximum. */
  lemma {:induction false} BlocksFit(max: nat, c: Content, blocks: seq<ReportBlock>, limit: int, added: nat)
    requires ContentOk(c) && Size(c) <= max && !c.header.NoReport?
    ensures var (d, n, full) := AddBlocks(max, c, blocks, limit, added);
            && Size(d) <= max && n >= added && n - added <= |blocks|
            && d == c.(blocks := c.blocks + blocks[..n - added])
            && (full ==> n - added < |blocks| && !(Size(d.(blocks := d.blocks + [blocks[n - added]])) <= max))
    decreases |blocks|
  {
    hide Size, ChunkOk;
    if blocks != [] {
      var (d, status) := Step(max, c, Call.AddReportBlock(blocks[0]));
      if status == Ok && added + 1 < limit {
        BlocksFit(max, d, blocks[1..], limit, added + 1);
        var n := AddBlocks(max, d, blocks[1..], limit, added + 1).1;
        assert [blocks[0]] + blocks[1..][..n - added - 1] == blocks[..n - added];
      } else {
        assert c.blocks + blocks[..0] == c.blocks && blocks[..1] == [blocks[0]];
      }
    }
  }

  lemma {:induction false} FirstBlockFits(max: nat, s: Situation, block: ReportBlock)
    requires SituationOk(s) && max >= MIN_PACKET_SIZE
    ensures ContentOk(Opening(s)) && Size(Opening(s).(blocks := [block])) <= max
  {
    hide Size, SourceNeeds, ItemBytes, ReportNeeds;
    OpeningSize(s);
    var c := Opening(s).(blocks := [block]);
    OneChunkSize(c);
    OneItem(s.ssrc, Item(1, s.cname));
    CnameChunk(|s.cname|);
    HeaderNeeds(HeaderOf(s));
  }

  // ---------------------------------------------------------------- items

  function ItemsFor(types: seq<ItemType>, texts: Texts): seq<Item> {
    if types == [] then [] else [Item(IdOfType(types[0]), TextOf(texts, types[0]))] + ItemsFor(types[1..], texts)
  }

  predicate Sendable(types: seq<ItemType>) {
    forall i :: 0 <= i < |types| ==> IdOfType(types[i]) != 0
  }

  /** The items go to the own chunk, one after the other, and the one that stops the filling did not fit. */
  lemma {:induction false} ItemsFit(max: nat, c: Content, types: seq<ItemType>, texts: Texts)
    requires ContentOk(c) && Size(c) <= max && |c.chunks| == 1 && Sendable(types)
    requires forall t :: t in texts ==> |texts[t]| <= 255
    ensures var (d, n) := AddItems(max, c, types, texts);
            && Size(d) <= max
            && d == c.(chunks := [c.chunks[0].(items := c.chunks[0].items + ItemsFor(types[..n], texts))])
            && (n == 0 && types != [] ==> Size(After(c, Call.AddSDESNormalItem(types[0], TextOf(texts, types[0])))) > max)
    decreases |types|
  {
    hide Size, ChunkOk;
    if types != [] {
      var call := Call.AddSDESNormalItem(types[0], TextOf(texts, types[0]));
      var (d, status) := Step(max, c, call);
      if status == Ok {
        OneItemMore(c, types, texts);
        ItemsFit(max, d, types[1..], texts);
        var n := AddItems(max, d, types[1..], texts).1;
        FirstAndRest(c.chunks[0], types, n, texts);
      } else {
        NothingAdded(c, texts);
        assert types[..0] == [];
      }
    } else {
      NothingAdded(c, texts);
      assert types[..0] == [];
    }
  }

  lemma {:induction false} OneItemMore(c: Content, types: seq<ItemType>, texts: Texts)
    requires ContentOk(c) && |c.chunks| == 1 && types != [] && IdOfType(types[0]) != 0 && |TextOf(texts, types[0])| <= 255
    ensures var call := Call.AddSDESNormalItem(types[0], TextOf(texts, types[0]));
            After(c, call).chunks == [c.chunks[0].(items := c.chunks[0].items + [Item(IdOfType(types[0]), TextOf(texts, types[0]))])]
  {
  }

  lemma {:induction false} FirstAndRest(chunk: Chunk, types: seq<ItemType>, n: nat, texts: Texts)
    requires types != [] && n < |types|
    ensures var it := Item(IdOfType(types[0]), TextOf(texts, types[0]));
            chunk.items + [it] + ItemsFor(types[1..][..n], texts) == chunk.items + ItemsFor(types[..n + 1], texts)
  {
    var it, rest := Item(IdOfType(types[0]), TextOf(texts, types[0])), ItemsFor(types[1..][..n], texts);
    assert types[..n + 1][1..] == types[1..][..n];
    assert ItemsFor(types[..n + 1], texts) == [it] + rest;
    assert chunk.items + [it] + rest == chunk.items + ([it] + rest);
  }

  lemma {:induction false} NothingAdded(c: Content, texts: Texts)
    requires |c.chunks| == 1
    ensures c == c.(chunks := [c.chunks[0].(items := c.chunks[0].items + ItemsFor([], texts))])
  {
    assert c.chunks == [c.chunks[0]] && c.chunks[0].items + [] == c.chunks[0].items;
  }

  /** After the opening there is room for any one item. */
  lemma {:induction false} FirstItemFits(max: nat, s: Situation, t: ItemType, text: bytes)
    requires SituationOk(s) && max >= MIN_PACKET_SIZE && IdOfType(t) != 0 && |text| <= 255
    ensures ContentOk(Opening(s)) && Size(After(Opening(s), Call.AddSDESNormalItem(t, text))) <= max
  {
    hide Size, SourceNeeds, ItemBytes, ReportNeeds, SdesNeeds;
    OpeningSize(s);
    var c := Opening(s);
    var it := Item(IdOfType(t), text);
    ExtraItemExact(c.chunks, it);
    var d := After(c, Call.AddSDESNormalItem(t, text));
    assert d == c.(chunks := AppendItem(c.chunks, it));
    SizeExact(d);
    NoBytes();
    HeaderNeeds(HeaderOf(s));
    OneItem(s.ssrc, Item(1, s.cname));
    SourceNeedsBound(ItemBytes(c.chunks[0]) + 2 + |text|);
    PacksOfOne();
    assert c.chunks[..0] == [];
    NoSources();
  }

  lemma {:induction false} NoSources()
    ensures SourcesNeed([]) == 0
  {
  }

  // ---------------------------------------------------------------- pending items

  predicate Distinct(order: seq<ItemType>) {
    forall i, j :: 0 <= i < j < |order| ==> order[i] != order[j]
  }

  lemma {:induction false} PendingIgnores(due: set<ItemType>, sent: set<ItemType>, order: seq<ItemType>, t: ItemType)
    requires t !in order
    ensures Pending(due, sent + {t}, order) == Pending(due, sent, order)
  {
    if order != [] {
      PendingIgnores(due, sent, order[1..], t);
    }
  }

  lemma {:induction false} PendingFrom(due: set<ItemType>, sent: set<ItemType>, order: seq<ItemType>)
    ensures forall i :: 0 <= i < |Pending(due, sent, order)| ==> Pending(due, sent, order)[i] in order
    ensures |Pending(due, sent, order)| <= |order|
  {
    if order != [] {
      PendingFrom(due, sent, order[1..]);
    }
  }

  lemma {:induction false} PendingHead(due: set<ItemType>, sent: set<ItemType>, order: seq<ItemType>)
    requires order != []
    ensures Pending(due, sent, order)
         == if order[0] in due && order[0] !in sent then [order[0]] + Pending(due, sent, order[1..]) else Pending(due, sent, order[1..])
  {
    assert [] + Pending(due, sent, order[1..]) == Pending(due, sent, order[1..]);
  }

  lemma {:induction false} MarkedFacts(sent: set<ItemType>, h: ItemType, items: seq<ItemType>)
    ensures Marked(sent, []) == sent && Marked(sent, [h] + items) == Marked(sent + {h}, items)
    ensures sent <= Marked(sent, items) && h in Marked(sent, [h] + items)
  {
    assert ([h] + items)[0] == h;
  }

  /** What was sent is pending no more, and the rest still is, in its order. */
  lemma {:induction false} PendingRest(due: set<ItemType>, sent: set<ItemType>, order: seq<ItemType>, n: nat)
    requires Distinct(order) && n <= |Pending(due, sent, order)|
    ensures Pending(due, Marked(sent, Pending(due, sent, order)[..n]), order) == Pending(due, sent, order)[n..]
    decreases order
  {
    hide Pending, Marked;
    var p := Pending(due, sent, order);
    if n == 0 {
      assert p[..0] == [] && p[0..] == p;
      MarkedFacts(sent, CNAME, []);
    } else if order == [] {
      NonePending(due, sent);
    } else {
      var h, rest := order[0], order[1..];
      assert forall i :: 0 <= i < |rest| ==> rest[i] == order[i + 1] && order[0] != order[i + 1];
      assert h !in rest && Distinct(rest);
      var q := Pending(due, sent, rest);
      PendingHead(due, sent, order);
      PendingHead(due, Marked(sent, p[..n]), order);
      if h in due && h !in sent {
        assert p[..n] == [h] + q[..n - 1] && p[n..] == q[n - 1..];
        PendingIgnores(due, sent, rest, h);
        PendingRest(due, sent + {h}, rest, n - 1);
        MarkedFacts(sent, h, q[..n - 1]);
      } else {
        PendingRest(due, sent, rest, n);
        MarkedFacts(sent, h, p[..n]);
      }
    }
  }

  lemma {:induction false} NonePending(due: set<ItemType>, sent: set<ItemType>)
    ensures Pending(due, sent, []) == []
  {
  }

  // ---------------------------------------------------------------- the next packet

  /** While a round goes on, something is still pending; otherwise nothing of it is kept. */
  predicate RoundOk(r: Round) {
    if r.ongoing then PendingOf(r) != [] else r.sent == {}
  }

  lemma {:induction false} OrderFacts(r: Round)
    ensures Distinct(ORDER) && Sendable(PendingOf(r)) && |PendingOf(r)| <= 6
  {
    PendingFrom(r.due, r.sent, ORDER);
    assert Sendable(ORDER);
    var p := PendingOf(r);
    forall i | 0 <= i < |p|
      ensures IdOfType(p[i]) != 0
    {
      assert p[i] in ORDER;
    }
  }

  lemma {:induction false} SettledOk(r: Round, n: nat)
    requires n <= |PendingOf(r)|
    ensures RoundOk(Settled(r, PendingOf(r), n))
    ensures n < |PendingOf(r)| ==> PendingOf(Settled(r, PendingOf(r), n)) == PendingOf(r)[n..]
  {
    OrderFacts(r);
    PendingRest(r.due, r.sent, ORDER, n);
  }

  /** The own chunk holds the CNAME and these items. */
  predicate OwnChunk(c: Content, s: Situation, items: seq<Item>) {
    c.header == HeaderOf(s) && c.chunks == [Chunk(s.ssrc, [Item(1, s.cname)] + items)] && c.apps == [] && c.byes == []
  }

  /** A packet that goes on with a round takes at least one of its items, in turn. */
  lemma {:induction false} GoesOn(max: nat, r: Round, s: Situation)
    requires max >= MIN_PACKET_SIZE && SituationOk(s) && RoundOk(r) && r.ongoing
    ensures var o := BuildNext(max, r, s);
            && o.Filled? && Size(o.content) <= max && RoundOk(o.round)
            && var n := if o.round.ongoing then |PendingOf(r)| - |PendingOf(o.round)| else |PendingOf(r)|;
               && 1 <= n <= |PendingOf(r)|
               && OwnChunk(o.content, s, ItemsFor(PendingOf(r)[..n], s.texts))
               && (o.round.ongoing ==> PendingOf(o.round) == PendingOf(r)[n..])
  {
    hide Size, Step, AddItems, AddBlocks, After, Pending, ContentOk;
    OpeningBuilt(max, s);
    OpeningSize(s);
    OrderFacts(r);
    var c, p := Opening(s), PendingOf(r);
    ItemsFit(max, c, p, s.texts);
    var (e, n) := AddItems(max, c, p, s.texts);
    if n == 0 {
      FirstItemFits(max, s, p[0], TextOf(s.texts, p[0]));
    }
    SettledOk(r.(firstPacket := false), n);
    assert PendingOf(r.(firstPacket := false)) == p;
    assert e.chunks == [Chunk(s.ssrc, [Item(1, s.cname)] + ItemsFor(p[..n], s.texts))];
    BlocksFit(max, e, s.blocks, s.limit, 0);
  }

  lemma {:induction false} AtLeastOne(max: nat, c: Content, blocks: seq<ReportBlock>, limit: int)
    requires ContentOk(c) && !c.header.NoReport? && blocks != [] && Size(c.(blocks := c.blocks + [blocks[0]])) <= max
    requires Size(c) <= max
    ensures AddBlocks(max, c, blocks, limit, 0).1 >= 1
  {
    hide Size, ChunkOk;
    var d := c.(blocks := c.blocks + [blocks[0]]);
    if 1 < limit {
      BlocksFit(max, d, blocks[1..], limit, 1);
    }
  }

  /** The reports of an opening packet: there is one, if there is any source to report on. */
  lemma {:induction false} Reports(max: nat, s: Situation)
    requires max >= MIN_PACKET_SIZE && SituationOk(s)
    ensures ContentOk(Opening(s))
    ensures var (d, added, full) := AddBlocks(max, Opening(s), s.blocks, s.limit, 0);
            && Size(d) <= max && OwnChunk(d, s, []) && (full ==> added > 0)
            && (s.blocks != [] ==> d.blocks != [] && d.blocks[0] == s.blocks[0])
  {
    hide Size, Step, AddBlocks, After, ContentOk;
    OpeningBuilt(max, s);
    OpeningSize(s);
    var c := Opening(s);
    BlocksFit(max, c, s.blocks, s.limit, 0);
    assert [Item(1, s.cname)] + [] == [Item(1, s.cname)];
    if s.blocks != [] {
      FirstBlockFits(max, s, s.blocks[0]);
      assert c.blocks + [s.blocks[0]] == [s.blocks[0]];
      AtLeastOne(max, c, s.blocks, s.limit);
    } else {
      NoBlocks(max, c, s.limit);
    }
  }

  lemma {:induction false} NoBlocks(max: nat, c: Content, limit: int)
    requires ContentOk(c)
    ensures AddBlocks(max, c, [], limit, 0) == (c, 0, false)
  {
  }

  /** The items that a round begins with, and what is left of it. */
  lemma {:induction false} RoundBegins(max: nat, r: Round, s: Situation, d: Content)
    requires SituationOk(s) && r.sent == {} && ContentOk(d) && Size(d) <= max && OwnChunk(d, s, []) && !d.header.NoReport?
    ensures var o := BeginRound(max, r, s, d);
            var q := r.(count := r.count + 1, due := DueIn(r.intervals, r.count + 1));
            var n := if o.round.ongoing then |PendingOf(q)| - |PendingOf(o.round)| else |PendingOf(q)|;
            && Size(o.content) <= max && RoundOk(o.round) && d.blocks <= o.content.blocks && o.round.count == q.count
            && 0 <= n <= |PendingOf(q)| && OwnChunk(o.content, s, ItemsFor(PendingOf(q)[..n], s.texts))
            && (o.round.ongoing ==> PendingOf(o.round) == PendingOf(q)[n..])
  {
    hide Size, Step, AddItems, AddBlocks, After, Pending, ContentOk, DueIn;
    var q := r.(count := r.count + 1, due := DueIn(r.intervals, r.count + 1));
    var p := PendingOf(q);
    OrderFacts(q);
    ItemsFit(max, d, p, s.texts);
    var (e, n) := AddItems(max, d, p, s.texts);
    SettledOk(q, n);
    assert [Item(1, s.cname)] + [] == [Item(1, s.cname)];
    assert OwnChunk(e, s, ItemsFor(p[..n], s.texts));
    BlocksFit(max, e, s.again, s.skipped, 0);
  }

  /**
   A packet outside a round reports on at least one source, if there is any to report on; unless the reports
   fill it, it opens the next round.
   */
  lemma {:induction false} Opens(max: nat, r: Round, s: Situation)
    requires max >= MIN_PACKET_SIZE && SituationOk(s) && RoundOk(r) && !r.ongoing
    ensures var o := BuildNext(max, r, s);
            && o.Filled? && Size(o.content) <= max && RoundOk(o.round)
            && (s.blocks != [] ==> o.content.blocks != [] && o.content.blocks[0] == s.blocks[0])
            && var q := r.(count := r.count + 1, due := DueIn(r.intervals, r.count + 1), firstPacket := false);
               if o.round.count == r.count then o.round == r.(firstPacket := false) && OwnChunk(o.content, s, [])
               else
                 var n := if o.round.ongoing then |PendingOf(q)| - |PendingOf(o.round)| else |PendingOf(q)|;
                 && 0 <= n <= |PendingOf(q)|
                 && OwnChunk(o.content, s, ItemsFor(PendingOf(q)[..n], s.texts))
                 && (o.round.ongoing ==> PendingOf(o.round) == PendingOf(q)[n..])
  {
    hide Size, Step, AddBlocks, BeginRound, Pending, ContentOk, DueIn, OwnChunk;
    OpeningBuilt(max, s);
    Reports(max, s);
    var (d, added, full) := AddBlocks(max, Opening(s), s.blocks, s.limit, 0);
    OwnHeader(d, s, []);
    if !full {
      RoundBegins(max, r.(firstPacket := false), s, d);
    }
  }

  lemma {:induction false} OwnHeader(c: Content, s: Situation, items: seq<Item>)
    requires OwnChunk(c, s, items)
    ensures !c.header.NoReport?
  {
  }

  /** A goodbye packet takes at most 560 bytes, so it can always be built. */
  lemma {:induction false} ByeAlwaysFits(max: nat, s: Situation, reason: bytes)
    requires max >= MIN_PACKET_SIZE && SituationOk(s) && |reason| <= 255
    ensures var o := BuildBye(max, s, reason);
            && o.Some? && Size(o.value) <= 560 && o.value == Opening(s).(byes := [BYE([s.ssrc], reason)])
  {
    hide Size, ChunkOk, EncodePacket, BytesOf;
    OpeningBuilt(max, s);
    OpeningSize(s);
    var c := Opening(s);
    var call := Call.AddBYEPacket([s.ssrc], reason);
    SizeExact(c);
    SizeExact(After(c, call));
    ByeSize([s.ssrc], reason);
    BytesOfOne(BYE([s.ssrc], reason));
    NoBytes();
    assert [] + [BYE([s.ssrc], reason)] == [BYE([s.ssrc], reason)];
  }

  // ---------------------------------------------------------------- whole rounds

  /** The packets of a run until the round is over: how many there are, and the identifiers of their items. */
  function UntilEnd(max: nat, r: Round, run: seq<Situation>): (nat, seq<byte>, bool)
    requires forall i :: 0 <= i < |run| ==> SituationOk(run[i])
    decreases |run|
  {
    if !r.ongoing then (0, [], true)
    else if run == [] then (0, [], false)
    else
      var o := BuildNext(max, r, run[0]);
      if o.FilledTooSoon? || |o.content.chunks| != 1 || |o.content.chunks[0].items| < 1 then (0, [], false)
      else
        var (n, ids, over) := UntilEnd(max, o.round, run[1..]);
        (n + 1, Ids(o.content.chunks[0].items[1..]) + ids, over)
  }

  function Ids(items: seq<Item>): seq<byte> {
    if items == [] then [] else [items[0].id] + Ids(items[1..])
  }

  function TypeIds(types: seq<ItemType>): seq<byte> {
    if types == [] then [] else [IdOfType(types[0])] + TypeIds(types[1..])
  }

  lemma {:induction false} IdsOfItems(types: seq<ItemType>, texts: Texts)
    ensures Ids(ItemsFor(types, texts)) == TypeIds(types)
  {
    if types != [] {
      IdsOfItems(types[1..], texts);
      assert ItemsFor(types, texts)[1..] == ItemsFor(types[1..], texts);
    }
  }

  lemma {:induction false} TypeIdsSplit(types: seq<ItemType>, n: nat)
    requires n <= |types|
    ensures TypeIds(types) == TypeIds(types[..n]) + TypeIds(types[n..])
  {
    if n > 0 {
      TypeIdsSplit(types[1..], n - 1);
      assert types[..n][1..] == types[1..][..n - 1] && types[1..][n - 1..] == types[n..];
    } else {
      assert types[..0] == [] && types[0..] == types;
    }
  }

  /**
   A round that goes on ends within as many packets as it has items pending, at most six, whatever the
   sources and texts are meanwhile; and those packets carry every pending item once, in order.
   */
  lemma {:induction false} RoundEnds(max: nat, r: Round, run: seq<Situation>)
    requires max >= MIN_PACKET_SIZE && RoundOk(r) && r.ongoing && |run| >= |PendingOf(r)|
    requires forall i :: 0 <= i < |run| ==> SituationOk(run[i])
    ensures var (n, ids, over) := UntilEnd(max, r, run);
            over && 1 <= n <= |PendingOf(r)| <= 6 && ids == TypeIds(PendingOf(r))
    decreases |run|
  {
    hide BuildNext, Pending, Size, RoundOk;
    OrderFacts(r);
    StillPending(r);
    GoesOn(max, r, run[0]);
    var o, p := BuildNext(max, r, run[0]), PendingOf(r);
    var n := if o.round.ongoing then |p| - |PendingOf(o.round)| else |p|;
    IdsOfItems(p[..n], run[0].texts);
    TypeIdsSplit(p, n);
    assert ([Item(1, run[0].cname)] + ItemsFor(p[..n], run[0].texts))[1..] == ItemsFor(p[..n], run[0].texts);
    if o.round.ongoing {
      RoundEnds(max, o.round, run[1..]);
    } else {
      assert p[n..] == [];
    }
  }

  lemma {:induction false} StillPending(r: Round)
    requires RoundOk(r) && r.ongoing
    ensures PendingOf(r) != []
  {
  }
}
