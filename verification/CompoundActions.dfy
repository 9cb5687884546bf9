/** What the packets of a compound packet tell the source table, one source at a time and in order. */
module CompoundActions {
  import opened Bytes
  import F = RtcpFormat
  import C = RtcpCompound
  import opened SourceStats
  import D = SourceData
  import opened SourceTable

  type Action = (u32, Report)

  /** An entry of a compound packet's list: a packet of known format, or only the type byte of one that is not. */
  datatype Part = Known(packet: F.Packet) | Other(packetType: byte)

  /** What the class chosen for an entry makes of its bytes. */
  function PartOf(d: bytes, e: C.PacketRef): Part {
    if e.length < 4 || e.offset + e.length > |d| then Other(e.packetType)
    else
      match F.DecodePacket(d[e.offset..e.offset + e.length])
      case Some(p) => Known(p)
      case None => Other(e.packetType)
  }

  function PartsOf(d: bytes, refs: seq<C.PacketRef>): (ps: seq<Part>)
    ensures |ps| == |refs| && forall i :: 0 <= i < |refs| ==> ps[i] == PartOf(d, refs[i])
  {
    seq(|refs|, i requires 0 <= i < |refs| => PartOf(d, refs[i]))
  }

  /** A raw control packet as the source table hears it, unless it is no compound packet at all. */
  function PartsIn(d: bytes): Option<seq<Part>> {
    match C.ParseFrom(d, 0, true)
    case None => None
    case Some(refs) => Some(PartsOf(d, refs))
  }

  /** How many report blocks are meant for us. */
  function BlocksFor(blocks: seq<F.ReportBlock>, own: Option<u32>): nat {
    if blocks == [] then 0
    else BlocksFor(blocks[..|blocks| - 1], own) + if own == Some(blocks[|blocks| - 1].ssrc) then 1 else 0
  }

  function Signs(ssrc: u32, n: nat): seq<Action> {
    seq(n, _ => (ssrc, Report.Alive))
  }

  /** A sign of life for every block that is meant for us, or one if there is none. */
  function AboutUs(ssrc: u32, blocks: seq<F.ReportBlock>, own: Option<u32>): seq<Action> {
    var n := BlocksFor(blocks, own);
    Signs(ssrc, if n == 0 then 1 else n)
  }

  function ItemAction(ssrc: u32, item: F.Item): Action {
    (ssrc, if item.id == F.SDES_PRIV then Report.Alive else Report.Item(item.id as nat, item.data))
  }

  function ItemActions(ssrc: u32, items: seq<F.Item>): seq<Action> {
    if items == [] then [] else ItemActions(ssrc, items[..|items| - 1]) + [ItemAction(ssrc, items[|items| - 1])]
  }

  /** The items of a chunk, or a sign of life if it has none. */
  function ChunkActions(c: F.Chunk): seq<Action> {
    if c.items == [] then [(c.ssrc, Report.Alive)] else ItemActions(c.ssrc, c.items)
  }

  function ChunksActions(chunks: seq<F.Chunk>): seq<Action> {
    if chunks == [] then [] else ChunksActions(chunks[..|chunks| - 1]) + ChunkActions(chunks[|chunks| - 1])
  }

  function ByeActions(ssrcs: seq<u32>, reason: bytes): seq<Action> {
    if ssrcs == [] then [] else ByeActions(ssrcs[..|ssrcs| - 1], reason) + [(ssrcs[|ssrcs| - 1], Report.Bye(reason))]
  }

  /** own is the SSRC that report blocks are meant for. */
  function Actions(p: F.Packet, own: Option<u32>): seq<Action> {
    match p
    case SR(ssrc, _, blocks) => [(ssrc, Report.Alive)] + AboutUs(ssrc, blocks, own)
    case RR(ssrc, blocks) => AboutUs(ssrc, blocks, own)
    case SDES(chunks) => ChunksActions(chunks)
    case BYE(ssrcs, reason) => ByeActions(ssrcs, reason)
    case APP(_, _, _, _) => []
  }

  /** A packet of unknown type or format says nothing about any source. */
  function PartActions(p: Part, own: Option<u32>): seq<Action> {
    match p case Known(packet) => Actions(packet, own) case Other(_) => []
  }

  function AllActions(ps: seq<Part>, own: Option<u32>): seq<Action> {
    if ps == [] then [] else AllActions(ps[..|ps| - 1], own) + PartActions(ps[|ps| - 1], own)
  }

  /** The timer looks for a BYE by the type alone, whether or not its format is known. */
  predicate IsBye(p: Part) {
    match p case Known(packet) => packet.BYE? case Other(packetType) => packetType == F.RTCP_BYE
  }

  predicate IsGoodbye(ps: seq<Part>) {
    exists i :: 0 <= i < |ps| && IsBye(ps[i])
  }

  /** The actions in turn, up to the first that is an error. */
  function Perform(t: Table, actions: seq<Action>, now: RtpTime, from: Option<D.Address>): (Table, Verdict) {
    if actions == [] then (t, Done)
    else
      var (u, status) := Perform(t, actions[..|actions| - 1], now, from);
      var last := actions[|actions| - 1];
      if status != Done then (u, status) else RtcpIn(u, last.0, last.1, now, from)
  }

  lemma {:induction false} PerformOne(t: Table, a: Action, now: RtpTime, from: Option<D.Address>)
    ensures Perform(t, [a], now, from) == RtcpIn(t, a.0, a.1, now, from)
  {
    hide RtcpIn;
    assert [a][..0] == [];
  }

  lemma {:induction false} PerformConcat(t: Table, a: seq<Action>, b: seq<Action>, now: RtpTime, from: Option<D.Address>)
    ensures var (u, status) := Perform(t, a, now, from);
            Perform(t, a + b, now, from) == if status != Done then (u, status) else Perform(u, b, now, from)
    decreases |b|
  {
    hide RtcpIn;
    if b == [] {
      assert a + b == a;
    } else {
      PerformConcat(t, a, b[..|b| - 1], now, from);
      assert (a + b)[..|a + b| - 1] == a + b[..|b| - 1];
    }
  }

  lemma {:induction false} OnlyItemsFail(t: Table, ssrc: u32, r: Report, now: RtpTime, from: Option<D.Address>)
    requires !r.Item?
    ensures RtcpIn(t, ssrc, r, now, from).1 == Done
  {
    hide Collides, Bound;
  }

  lemma {:induction false} OneSignMore(t: Table, ssrc: u32, n: nat, now: RtpTime, from: Option<D.Address>)
    ensures var (u, status) := Perform(t, Signs(ssrc, n), now, from);
            status == Done ==> Perform(t, Signs(ssrc, n + 1), now, from) == (RtcpIn(u, ssrc, Alive, now, from).0, Done)
    ensures Perform(t, Signs(ssrc, 0), now, from) == (t, Done)
  {
    hide RtcpIn;
    assert Signs(ssrc, n + 1)[..n] == Signs(ssrc, n);
    OnlyItemsFail(Perform(t, Signs(ssrc, n), now, from).0, ssrc, Alive, now, from);
  }

  lemma {:induction false} OneItemMore(t: Table, ssrc: u32, items: seq<F.Item>, i: nat, now: RtpTime, from: Option<D.Address>)
    requires i < |items|
    ensures var (u, status) := Perform(t, ItemActions(ssrc, items[..i]), now, from);
            status == Done ==> Perform(t, ItemActions(ssrc, items[..i + 1]), now, from) == RtcpIn(u, ssrc, ItemAction(ssrc, items[i]).1, now, from)
  {
    hide RtcpIn;
    assert items[..i + 1][..i] == items[..i];
    var actions := ItemActions(ssrc, items[..i]);
    assert ItemActions(ssrc, items[..i + 1]) == actions + [ItemAction(ssrc, items[i])];
    PerformConcat(t, actions, [ItemAction(ssrc, items[i])], now, from);
    PerformOne(Perform(t, actions, now, from).0, ItemAction(ssrc, items[i]), now, from);
  }

  /** What comes after the first error does not matter. */
  lemma {:induction false} ItemsCut(t: Table, ssrc: u32, items: seq<F.Item>, i: nat, now: RtpTime, from: Option<D.Address>)
    requires i <= |items| && Perform(t, ItemActions(ssrc, items[..i]), now, from).1 != Done
    ensures Perform(t, ItemActions(ssrc, items), now, from) == Perform(t, ItemActions(ssrc, items[..i]), now, from)
    decreases |items|
  {
    hide RtcpIn;
    if i < |items| {
      var front := items[..|items| - 1];
      assert front[..i] == items[..i];
      ItemsCut(t, ssrc, front, i, now, from);
      assert ItemActions(ssrc, items)[..|ItemActions(ssrc, items)| - 1] == ItemActions(ssrc, front);
    } else {
      assert items[..i] == items;
    }
  }

  lemma {:induction false} OneChunkMore(t: Table, chunks: seq<F.Chunk>, i: nat, now: RtpTime, from: Option<D.Address>)
    requires i < |chunks|
    ensures var (u, status) := Perform(t, ChunksActions(chunks[..i]), now, from);
            Perform(t, ChunksActions(chunks[..i + 1]), now, from)
            == if status == Done then Perform(u, ChunkActions(chunks[i]), now, from) else (u, status)
  {
    hide RtcpIn, Perform, ChunkActions;
    assert chunks[..i + 1][..i] == chunks[..i];
    PerformConcat(t, ChunksActions(chunks[..i]), ChunkActions(chunks[i]), now, from);
  }

  lemma {:induction false} ChunksCut(t: Table, chunks: seq<F.Chunk>, i: nat, now: RtpTime, from: Option<D.Address>)
    requires i <= |chunks| && Perform(t, ChunksActions(chunks[..i]), now, from).1 != Done
    ensures Perform(t, ChunksActions(chunks), now, from) == Perform(t, ChunksActions(chunks[..i]), now, from)
    decreases |chunks| - i
  {
    hide RtcpIn, Perform, ChunksActions;
    if i < |chunks| {
      OneChunkMore(t, chunks, i, now, from);
      ChunksCut(t, chunks, i + 1, now, from);
    } else {
      assert chunks[..i] == chunks;
    }
  }

  lemma {:induction false} OneByeMore(t: Table, ssrcs: seq<u32>, reason: bytes, i: nat, now: RtpTime, from: Option<D.Address>)
    requires i < |ssrcs|
    ensures var (u, status) := Perform(t, ByeActions(ssrcs[..i], reason), now, from);
            status == Done ==>
              Perform(t, ByeActions(ssrcs[..i + 1], reason), now, from) == (RtcpIn(u, ssrcs[i], Report.Bye(reason), now, from).0, Done)
  {
    hide RtcpIn;
    assert ssrcs[..i + 1][..i] == ssrcs[..i];
    var actions, last := ByeActions(ssrcs[..i], reason), (ssrcs[i], Report.Bye(reason));
    assert ByeActions(ssrcs[..i + 1], reason) == actions + [last];
    PerformConcat(t, actions, [last], now, from);
    PerformOne(Perform(t, actions, now, from).0, last, now, from);
    OnlyItemsFail(Perform(t, actions, now, from).0, ssrcs[i], Report.Bye(reason), now, from);
  }

  lemma {:induction false} OnePacketMore(t: Table, ps: seq<Part>, own: Option<u32>, i: nat, now: RtpTime, from: Option<D.Address>)
    requires i < |ps|
    ensures var (u, status) := Perform(t, AllActions(ps[..i], own), now, from);
            Perform(t, AllActions(ps[..i + 1], own), now, from)
            == if status == Done then Perform(u, PartActions(ps[i], own), now, from) else (u, status)
  {
    hide RtcpIn, Perform, PartActions;
    assert ps[..i + 1][..i] == ps[..i];
    PerformConcat(t, AllActions(ps[..i], own), PartActions(ps[i], own), now, from);
  }

  lemma {:induction false} PacketsCut(t: Table, ps: seq<Part>, own: Option<u32>, i: nat, now: RtpTime, from: Option<D.Address>)
    requires i <= |ps| && Perform(t, AllActions(ps[..i], own), now, from).1 != Done
    ensures Perform(t, AllActions(ps, own), now, from) == Perform(t, AllActions(ps[..i], own), now, from)
    decreases |ps| - i
  {
    hide RtcpIn, Perform, AllActions;
    if i < |ps| {
      OnePacketMore(t, ps, own, i, now, from);
      PacketsCut(t, ps, own, i + 1, now, from);
    } else {
      assert ps[..i] == ps;
    }
  }

  // ---------------------------------------------------------------- only what is named changes

  /** The sources that a packet speaks about. */
  function Named(p: F.Packet): set<u32> {
    match p
    case SR(ssrc, _, _) => {ssrc}
    case RR(ssrc, _) => {ssrc}
    case SDES(chunks) => set i | 0 <= i < |chunks| :: chunks[i].ssrc
    case BYE(ssrcs, _) => set i | 0 <= i < |ssrcs| :: ssrcs[i]
    case APP(_, _, _, _) => {}
  }

  predicate Speaks(actions: seq<Action>, ssrcs: set<u32>) {
    forall i :: 0 <= i < |actions| ==> actions[i].0 in ssrcs
  }

  lemma {:induction false} ItemsSpeak(ssrc: u32, items: seq<F.Item>)
    ensures Speaks(ItemActions(ssrc, items), {ssrc}) && |ItemActions(ssrc, items)| == |items|
  {
    if items != [] {
      ItemsSpeak(ssrc, items[..|items| - 1]);
    }
  }

  lemma {:induction false} ChunksSpeak(chunks: seq<F.Chunk>)
    ensures Speaks(ChunksActions(chunks), Named(F.SDES(chunks)))
  {
    if chunks != [] {
      var front, last := chunks[..|chunks| - 1], chunks[|chunks| - 1];
      ChunksSpeak(front);
      ItemsSpeak(last.ssrc, last.items);
      assert Named(F.SDES(front)) <= Named(F.SDES(chunks)) && last.ssrc in Named(F.SDES(chunks));
    }
  }

  lemma {:induction false} ByesSpeak(ssrcs: seq<u32>, reason: bytes)
    ensures Speaks(ByeActions(ssrcs, reason), Named(F.BYE(ssrcs, reason)))
  {
    if ssrcs != [] {
      ByesSpeak(ssrcs[..|ssrcs| - 1], reason);
      assert Named(F.BYE(ssrcs[..|ssrcs| - 1], reason)) <= Named(F.BYE(ssrcs, reason));
      assert ssrcs[|ssrcs| - 1] in Named(F.BYE(ssrcs, reason));
    }
  }

  lemma {:induction false} PacketSpeaks(p: F.Packet, own: Option<u32>)
    ensures Speaks(Actions(p, own), Named(p))
  {
    match p
    case SDES(chunks) => ChunksSpeak(chunks);
    case BYE(ssrcs, reason) => ByesSpeak(ssrcs, reason);
    case _ =>
  }

  /** The sources that a whole compound packet speaks about. */
  function AllNamed(ps: seq<Part>): set<u32> {
    if ps == [] then {}
    else
      var last := ps[|ps| - 1];
      AllNamed(ps[..|ps| - 1]) + match last case Known(p) => Named(p) case Other(_) => {}
  }

  lemma {:induction false} AllSpeak(ps: seq<Part>, own: Option<u32>)
    ensures Speaks(AllActions(ps, own), AllNamed(ps))
  {
    hide Actions, Named;
    if ps != [] {
      var last := ps[|ps| - 1];
      AllSpeak(ps[..|ps| - 1], own);
      if last.Known? {
        PacketSpeaks(last.packet, own);
      }
    }
  }

  /** The entries of other sources are exactly as they were, where they were. */
  predicate OthersKept(t: Table, u: Table, ssrcs: set<u32>) {
    && |t.sources| <= |u.sources|
    && (forall i :: 0 <= i < |t.sources| ==> u.sources[i].ssrc == t.sources[i].ssrc)
    && (forall i :: 0 <= i < |t.sources| && t.sources[i].ssrc !in ssrcs ==> u.sources[i] == t.sources[i])
    && (forall i :: |t.sources| <= i < |u.sources| ==> u.sources[i].ssrc in ssrcs)
  }

  lemma {:induction false} ActionKeepsOthers(t: Table, ssrc: u32, r: Report, now: RtpTime, from: Option<D.Address>)
    ensures OthersKept(t, RtcpIn(t, ssrc, r, now, from).0, {ssrc})
  {
    hide Collides, D.Described, Bound;
    var k := Obtain(t, ssrc).1;
    var s := Bound(Obtain(t, ssrc).0.sources[k], from, false);
    SameSource(Obtain(t, ssrc).0.sources[k], from, r, now);
    assert s.ssrc == ssrc;
  }

  lemma {:induction false} SameSource(s: D.Source, from: Option<D.Address>, r: Report, now: RtpTime)
    ensures Bound(s, from, false).ssrc == s.ssrc
    ensures r.Item? ==> D.Described(Bound(s, from, false), r.id, r.data, now).0.ssrc == s.ssrc
  {
  }

  lemma {:induction false} KeptTwice(t: Table, u: Table, v: Table, ssrcs: set<u32>, ssrc: u32)
    requires OthersKept(t, u, ssrcs) && OthersKept(u, v, {ssrc}) && ssrc in ssrcs
    ensures OthersKept(t, v, ssrcs)
  {
  }

  lemma {:induction false} PerformKeepsOthers(t: Table, actions: seq<Action>, now: RtpTime, from: Option<D.Address>, ssrcs: set<u32>)
    requires Speaks(actions, ssrcs)
    ensures OthersKept(t, Perform(t, actions, now, from).0, ssrcs)
  {
    hide RtcpIn, OthersKept;
    if actions == [] {
      KeptItself(t, ssrcs);
    } else {
      var front, last := actions[..|actions| - 1], actions[|actions| - 1];
      PerformKeepsOthers(t, front, now, from, ssrcs);
      var u := Perform(t, front, now, from).0;
      ActionKeepsOthers(u, last.0, last.1, now, from);
      KeptTwice(t, u, RtcpIn(u, last.0, last.1, now, from).0, ssrcs, last.0);
    }
  }

  lemma {:induction false} KeptItself(t: Table, ssrcs: set<u32>)
    ensures OthersKept(t, t, ssrcs)
  {
  }

  /**
   A compound packet changes no entry but those of the sources it speaks about: senders of reports, chunks of
   descriptions, and those who say goodbye. It makes entries for no others, and removes none.
   */
  lemma {:induction false} CompoundKeepsOthers(t: Table, ps: seq<Part>, own: Option<u32>, now: RtpTime, from: Option<D.Address>)
    ensures OthersKept(t, Perform(t, AllActions(ps, own), now, from).0, AllNamed(ps))
  {
    hide Perform, OthersKept, AllActions, AllNamed;
    AllSpeak(ps, own);
    PerformKeepsOthers(t, AllActions(ps, own), now, from, AllNamed(ps));
  }

  // ---------------------------------------------------------------- errors

  predicate KnownItem(a: Action) {
    a.1.Item? ==> D.CNAME <= a.1.id <= D.NOTE
  }

  predicate AllKnown(actions: seq<Action>) {
    forall i :: 0 <= i < |actions| ==> KnownItem(actions[i])
  }

  predicate ActionsShort(actions: seq<Action>) {
    forall i :: 0 <= i < |actions| && actions[i].1.Item? ==> |actions[i].1.data| <= D.MAX_ITEM_LENGTH
  }

  lemma {:induction false} ErrorsAreItems(t: Table, actions: seq<Action>, now: RtpTime, from: Option<D.Address>)
    requires ActionsShort(actions)
    ensures Perform(t, actions, now, from).1 == Done <==> AllKnown(actions)
  {
    hide RtcpIn, KnownItem;
    if actions != [] {
      var front, last := actions[..|actions| - 1], actions[|actions| - 1];
      ErrorsAreItems(t, front, now, from);
      var (u, status) := Perform(t, front, now, from);
      OneError(u, last, now, from);
      assert AllKnown(actions) <==> AllKnown(front) && KnownItem(last);
    }
  }

  lemma {:induction false} OneError(t: Table, a: Action, now: RtpTime, from: Option<D.Address>)
    requires a.1.Item? ==> |a.1.data| <= D.MAX_ITEM_LENGTH
    ensures RtcpIn(t, a.0, a.1, now, from).1 == Done <==> KnownItem(a)
  {
    hide Collides, D.Described, Bound;
  }

  /** Every description item of the packet is of one of the eight types: the seven normal ones, and PRIV. */
  predicate ItemsKnown(p: F.Packet) {
    p.SDES? ==> forall c, i :: 0 <= c < |p.chunks| && 0 <= i < |p.chunks[c].items| ==> TypeKnown(p.chunks[c].items[i])
  }

  predicate TypeKnown(item: F.Item) {
    1 <= item.id <= F.SDES_PRIV
  }

  predicate ItemsShort(items: seq<F.Item>) {
    forall i :: 0 <= i < |items| ==> |items[i].data| <= D.MAX_ITEM_LENGTH
  }

  /** The length of an item is a byte, so whatever is decoded has no item that is too long. */
  lemma {:induction false} DecodedItemsShort(b: bytes, p: nat)
    requires p <= |b| && F.DecodeItems(b, p).Some?
    ensures ItemsShort(F.DecodeItems(b, p).value.0)
    decreases |b| - p
  {
    if b[p] != 0 {
      DecodedItemsShort(b, p + 2 + b[p + 1] as int);
    }
  }

  lemma {:induction false} DecodedChunksShort(b: bytes, p: nat, n: nat)
    requires p <= |b| && F.DecodeChunks(b, p, n).Some?
    ensures forall c :: 0 <= c < n ==> ItemsShort(F.DecodeChunks(b, p, n).value[c].items)
    decreases n
  {
    if n > 0 {
      DecodedItemsShort(b, p + 4);
      DecodedChunksShort(b, F.DecodeChunk(b, p).value.1, n - 1);
    }
  }

  predicate PacketShort(p: F.Packet) {
    p.SDES? ==> forall c :: 0 <= c < |p.chunks| ==> ItemsShort(p.chunks[c].items)
  }

  lemma {:induction false} DecodedShort(d: bytes)
    requires |d| >= 4 && F.DecodePacket(d).Some?
    ensures PacketShort(F.DecodePacket(d).value)
  {
    var u := F.Unpadded(d).value;
    if F.DecodePacket(d).value.SDES? {
      DecodedChunksShort(u, 4, F.HeaderCount(d) as int);
    }
  }

  lemma {:induction false} KnownConcat(a: seq<Action>, b: seq<Action>)
    ensures AllKnown(a + b) <==> AllKnown(a) && AllKnown(b)
    ensures ActionsShort(a) && ActionsShort(b) ==> ActionsShort(a + b)
  {
    hide KnownItem;
    if AllKnown(a + b) {
      forall i | 0 <= i < |a|
        ensures KnownItem(a[i])
      {
        assert (a + b)[i] == a[i];
      }
      forall i | 0 <= i < |b|
        ensures KnownItem(b[i])
      {
        assert (a + b)[|a| + i] == b[i];
      }
    }
  }

  lemma {:induction false} ItemsAreKnown(ssrc: u32, items: seq<F.Item>)
    requires ItemsShort(items)
    ensures AllKnown(ItemActions(ssrc, items)) <==> forall i :: 0 <= i < |items| ==> TypeKnown(items[i])
    ensures ActionsShort(ItemActions(ssrc, items))
  {
    if items != [] {
      var front, last := items[..|items| - 1], items[|items| - 1];
      ItemsAreKnown(ssrc, front);
      KnownConcat(ItemActions(ssrc, front), [ItemAction(ssrc, last)]);
      assert AllKnown([ItemAction(ssrc, last)]) <==> TypeKnown(last) by {
        assert [ItemAction(ssrc, last)][0] == ItemAction(ssrc, last);
      }
      assert (forall i :: 0 <= i < |items| ==> TypeKnown(items[i])) <==>
             (forall i :: 0 <= i < |front| ==> TypeKnown(front[i])) && TypeKnown(last);
    }
  }

  lemma {:induction false} ChunksAreKnown(chunks: seq<F.Chunk>)
    requires PacketShort(F.SDES(chunks))
    ensures AllKnown(ChunksActions(chunks)) <==> ItemsKnown(F.SDES(chunks))
    ensures ActionsShort(ChunksActions(chunks))
  {
    hide AllKnown, ActionsShort, TypeKnown;
    if chunks == [] {
      NothingKnown();
    } else {
      var front, last := chunks[..|chunks| - 1], chunks[|chunks| - 1];
      ChunksAreKnown(front);
      ItemsAreKnown(last.ssrc, last.items);
      SignKnown(last.ssrc, 1);
      assert Signs(last.ssrc, 1) == [(last.ssrc, Report.Alive)];
      KnownConcat(ChunksActions(front), ChunkActions(last));
      assert ItemsKnown(F.SDES(chunks)) <==> ItemsKnown(F.SDES(front)) && forall i :: 0 <= i < |last.items| ==> TypeKnown(last.items[i]);
    }
  }

  lemma {:induction false} NothingKnown()
    ensures AllKnown([]) && ActionsShort([])
  {
  }

  lemma {:induction false} SignKnown(ssrc: u32, n: nat)
    ensures AllKnown(Signs(ssrc, n)) && ActionsShort(Signs(ssrc, n))
  {
  }

  lemma {:induction false} ByesKnown(ssrcs: seq<u32>, reason: bytes)
    ensures AllKnown(ByeActions(ssrcs, reason)) && ActionsShort(ByeActions(ssrcs, reason))
  {
    if ssrcs != [] {
      ByesKnown(ssrcs[..|ssrcs| - 1], reason);
    }
  }

  lemma {:induction false} PacketKnown(p: F.Packet, own: Option<u32>)
    requires PacketShort(p)
    ensures AllKnown(Actions(p, own)) <==> ItemsKnown(p)
    ensures ActionsShort(Actions(p, own))
  {
    hide AllKnown, ActionsShort;
    match p
    case SR(ssrc, _, blocks) =>
      SignKnown(ssrc, 1);
      assert Signs(ssrc, 1) == [(ssrc, Report.Alive)];
      SignKnown(ssrc, if BlocksFor(blocks, own) == 0 then 1 else BlocksFor(blocks, own));
      KnownConcat([(ssrc, Report.Alive)], AboutUs(ssrc, blocks, own));
    case RR(ssrc, blocks) => SignKnown(ssrc, if BlocksFor(blocks, own) == 0 then 1 else BlocksFor(blocks, own));
    case SDES(chunks) => ChunksAreKnown(chunks);
    case BYE(ssrcs, reason) => ByesKnown(ssrcs, reason);
    case APP(_, _, _, _) => NothingKnown();
  }

  predicate PartShort(p: Part) {
    p.Known? ==> PacketShort(p.packet)
  }

  predicate PartKnown(p: Part) {
    p.Known? ==> ItemsKnown(p.packet)
  }

  lemma {:induction false} PartsKnown(ps: seq<Part>, own: Option<u32>)
    requires forall i :: 0 <= i < |ps| ==> PartShort(ps[i])
    ensures AllKnown(AllActions(ps, own)) <==> forall i :: 0 <= i < |ps| ==> PartKnown(ps[i])
    ensures ActionsShort(AllActions(ps, own))
  {
    hide AllKnown, ActionsShort, Actions, ItemsKnown, PacketShort;
    NothingKnown();
    if ps != [] {
      var front, last := ps[..|ps| - 1], ps[|ps| - 1];
      PartsKnown(front, own);
      if last.Known? {
        PacketKnown(last.packet, own);
      }
      KnownConcat(AllActions(front, own), PartActions(last, own));
      assert (forall i :: 0 <= i < |ps| ==> PartKnown(ps[i])) <==>
             (forall i :: 0 <= i < |front| ==> PartKnown(front[i])) && PartKnown(last);
    }
  }

  /**
   For every compound packet that arrives, as the bytes that it is: all that it says is taken up if and only if
   none of its description items has a type above PRIV.
   */
  lemma {:induction false} CompoundErrors(t: Table, d: bytes, own: Option<u32>, now: RtpTime, from: Option<D.Address>)
    requires PartsIn(d).Some?
    ensures var ps := PartsIn(d).value;
            Perform(t, AllActions(ps, own), now, from).1 == Done <==> forall i :: 0 <= i < |ps| ==> PartKnown(ps[i])
  {
    hide Perform, AllActions, PacketShort, C.ParseFrom, F.DecodePacket;
    var ps := PartsIn(d).value;
    var refs := C.ParseFrom(d, 0, true).value;
    forall i | 0 <= i < |ps|
      ensures PartShort(ps[i])
    {
      var e := refs[i];
      if ps[i].Known? {
        DecodedShort(d[e.offset..e.offset + e.length]);
      }
    }
    PartsKnown(ps, own);
    ErrorsAreItems(t, AllActions(ps, own), now, from);
  }

  /** What a builder wrote arrives as the packets that it wrote. */
  lemma {:induction false} WrittenIsHeard(ps: seq<F.Packet>)
    requires C.AllOk(ps) && ps != [] && (ps[0].SR? || ps[0].RR?)
    requires forall i :: 0 <= i < |ps| ==> C.LengthFits(C.Encoded(ps)[i])
    ensures var heard := PartsIn(Flatten(C.Encoded(ps)));
            heard.Some? && |heard.value| == |ps| && forall i :: 0 <= i < |ps| ==> heard.value[i] == Known(F.CanonicalPacket(ps[i]))
  {
    hide C.ParseFrom, F.DecodePacket, C.Encoded, Flatten, C.Layout, F.CanonicalPacket;
    C.CompoundRoundTrip(ps);
    var d, refs := Flatten(C.Encoded(ps)), C.Layout(C.Encoded(ps), 0);
    forall i | 0 <= i < |ps|
      ensures PartOf(d, refs[i]) == Known(F.CanonicalPacket(ps[i]))
    {
      assert C.ReadsBack(d, refs[i], ps[i]);
    }
  }

  /** A compound packet that a builder could write, but for its item of type 9, stops its reception with an error. */
  lemma {:induction false} UnknownItemStops(t: Table, own: Option<u32>, now: RtpTime, from: Option<D.Address>)
    ensures var ps := [F.RR(1, []), F.SDES([F.Chunk(2, [F.Item(9, [])])])];
            && C.AllOk(ps)
            && var heard := PartsIn(Flatten(C.Encoded(ps)));
               heard.Some? && Perform(t, AllActions(heard.value, own), now, from).1 != Done
  {
    hide C.ParseFrom, F.DecodePacket, Flatten, Perform, AllActions;
    var item := F.Item(9, []);
    var chunk := F.Chunk(2, [item]);
    var ps := [F.RR(1, []), F.SDES([chunk])];
    ShortPackets();
    WrittenIsHeard(ps);
    var heard := PartsIn(Flatten(C.Encoded(ps)));
    CompoundErrors(t, Flatten(C.Encoded(ps)), own, now, from);
    assert heard.value[1] == Known(F.SDES([chunk]));
    assert !TypeKnown(item) && chunk.items[0] == item;
  }

  lemma {:induction false} ShortPackets()
    ensures var ps := [F.RR(1, []), F.SDES([F.Chunk(2, [F.Item(9, [])])])];
            C.AllOk(ps) && forall i :: 0 <= i < |ps| ==> C.LengthFits(C.Encoded(ps)[i])
  {
    var ps := [F.RR(1, []), F.SDES([F.Chunk(2, [F.Item(9, [])])])];
    assert F.ChunkOk(ps[1].chunks[0]);
    assert C.Encoded(ps) == [F.EncodePacket(ps[0]), F.EncodePacket(ps[1])] by {
      assert ps[1..] == [ps[1]] && ps[1..][1..] == [];
    }
    var c := ps[1].chunks[0];
    assert F.EncodeItems(c.items) == F.EncodeItem(c.items[0]) + F.EncodeItems(c.items[1..]);
    assert F.EncodeChunks(ps[1].chunks) == F.EncodeChunk(c) + F.EncodeChunks(ps[1].chunks[1..]);
  }
}
