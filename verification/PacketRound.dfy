/**
 RTCPPacketBuilder: which report, description items and BYE go into the next compound packet, and how a
 round of description items is spread over several packets.
 */
module PacketRound {
  import opened Bytes
  import opened RtcpFormat
  import opened RtcpSdes
  import opened RtcpBuild
  import opened RtcpBuildRuns

  /** The description items besides the CNAME, in the order in which a packet takes them. */
  const ORDER: seq<ItemType> := [NAME, EMAIL, LOC, PHONE, TOOL, NOTE]

  type Texts = map<ItemType, bytes>

  /**
   What is kept from packet to packet: the round's number, the items that belong to it, those of them that
   were sent, and whether the round goes on.
   */
  datatype Round = Round(count: nat, intervals: map<ItemType, int>, due: set<ItemType>, sent: set<ItemType>,
                         ongoing: bool, firstPacket: bool)

  /** What one call finds: the own SSRC, the sender info if we are a sender, the own texts, and the sources to report on. */
  datatype Situation = Situation(ssrc: u32, info: Option<SenderInfo>, cname: bytes, texts: Texts,
                                 blocks: seq<ReportBlock>, limit: int, skipped: nat, again: seq<ReportBlock>)

  predicate SituationOk(s: Situation) {
    |s.cname| <= 255 && forall t :: t in s.texts ==> |s.texts[t]| <= 255
  }

  function TextOf(texts: Texts, t: ItemType): bytes {
    if t in texts then texts[t] else []
  }

  function Pending(due: set<ItemType>, sent: set<ItemType>, order: seq<ItemType>): seq<ItemType> {
    if order == [] then []
    else (if order[0] in due && order[0] !in sent then [order[0]] else []) + Pending(due, sent, order[1..])
  }

  function PendingOf(r: Round): seq<ItemType> {
    Pending(r.due, r.sent, ORDER)
  }

  /** Every item whose interval divides the number of the round. */
  function DueIn(intervals: map<ItemType, int>, count: nat): set<ItemType> {
    set t | t in intervals && intervals[t] > 0 && count % intervals[t] == 0
  }

  // ---------------------------------------------------------------- filling a packet

  function StartCall(s: Situation): Call {
    match s.info
    case Some(info) => Call.StartSenderReport(s.ssrc, info)
    case None => Call.StartReceiverReport(s.ssrc)
  }

  function HeaderOf(s: Situation): ReportHeader {
    match s.info case Some(info) => SrHeader(s.ssrc, info) case None => RrHeader(s.ssrc)
  }

  /** What every packet begins with: a report header, and the own chunk with the CNAME. */
  function Opening(s: Situation): Content {
    Content(HeaderOf(s), [], [Chunk(s.ssrc, [Item(1, s.cname)])], [], [])
  }

  /** Up to limit report blocks; the last part of the result tells of a block that did not fit. */
  function AddBlocks(max: nat, c: Content, blocks: seq<ReportBlock>, limit: int, added: nat): (r: (Content, nat, bool))
    requires ContentOk(c)
    ensures ContentOk(r.0)
    decreases |blocks|
  {
    if blocks == [] then (c, added, false)
    else
      var (d, status) := Step(max, c, Call.AddReportBlock(blocks[0]));
      if status != Ok then (c, added, true)
      else if added + 1 >= limit then (d, added + 1, false)
      else AddBlocks(max, d, blocks[1..], limit, added + 1)
  }

  /** The items of the list in turn, until one does not fit; and how many did. */
  function AddItems(max: nat, c: Content, items: seq<ItemType>, texts: Texts): (r: (Content, nat))
    requires ContentOk(c) && forall t :: t in texts ==> |texts[t]| <= 255
    ensures ContentOk(r.0) && r.1 <= |items|
    decreases |items|
  {
    if items == [] then (c, 0)
    else
      var (d, status) := Step(max, c, Call.AddSDESNormalItem(items[0], TextOf(texts, items[0])));
      if status == NotEnoughBytesLeft then (c, 0)
      else
        var (e, n) := AddItems(max, d, items[1..], texts);
        (e, n + 1)
  }

  function Marked(sent: set<ItemType>, items: seq<ItemType>): set<ItemType> {
    sent + set t | t in items
  }

  datatype Outcome = Filled(round: Round, content: Content) | FilledTooSoon

  /** The round is over, or goes on in the next packet. */
  function Settled(r: Round, items: seq<ItemType>, n: nat): Round
    requires n <= |items|
  {
    if n == |items| then r.(sent := {}, ongoing := false) else r.(sent := Marked(r.sent, items[..n]), ongoing := true)
  }

  /** Outside a round, the reports come first; if there is room after them, the next round begins. */
  function Open(max: nat, r: Round, s: Situation, c: Content): (o: Outcome)
    requires SituationOk(s) && ContentOk(c)
    ensures o.Filled? ==> ContentOk(o.content)
  {
    var (d, added, full) := AddBlocks(max, c, s.blocks, s.limit, 0);
    if full && added == 0 then FilledTooSoon
    else if full then Filled(r.(firstPacket := false), d)
    else BeginRound(max, r.(firstPacket := false), s, d)
  }

  /** The next round begins behind the reports. */
  function BeginRound(max: nat, r: Round, s: Situation, d: Content): (o: Outcome)
    requires SituationOk(s) && ContentOk(d)
    ensures o.Filled? && ContentOk(o.content)
  {
    var q := r.(count := r.count + 1, due := DueIn(r.intervals, r.count + 1));
    var (e, n) := AddItems(max, d, PendingOf(q), s.texts);
    var t := Settled(q, PendingOf(q), n);
    Filled(t, if !t.ongoing && s.skipped > 0 then AddBlocks(max, e, s.again, s.skipped, 0).0 else e)
  }

  /** Within a round, the items come first; if they are all sent, reports fill up the packet. */
  function GoOn(max: nat, r: Round, s: Situation, c: Content): (o: Outcome)
    requires SituationOk(s) && ContentOk(c)
    ensures o.Filled? ==> ContentOk(o.content)
  {
    var (e, n) := AddItems(max, c, PendingOf(r), s.texts);
    var t := Settled(r.(firstPacket := false), PendingOf(r), n);
    if n == 0 then FilledTooSoon
    else Filled(t, if !t.ongoing then AddBlocks(max, e, s.blocks, s.limit, 0).0 else e)
  }

  function BuildNext(max: nat, r: Round, s: Situation): (o: Outcome)
    requires SituationOk(s)
    ensures o.Filled? ==> ContentOk(o.content)
  {
    var (a, st1) := Step(max, EMPTY, StartCall(s));
    var (b, st2) := Step(max, a, Call.AddSDESSource(s.ssrc));
    var (c, st3) := Step(max, b, Call.AddSDESNormalItem(CNAME, s.cname));
    if st1 != Ok || st2 != Ok || st3 != Ok then FilledTooSoon
    else if r.ongoing then GoOn(max, r, s, c)
    else Open(max, r, s, c)
  }

  /** A goodbye: a report header, the own chunk with the CNAME, and the BYE packet. */
  function BuildBye(max: nat, s: Situation, reason: bytes): (o: Option<Content>)
    requires SituationOk(s) && |reason| <= 255
    ensures o.Some? ==> ContentOk(o.value)
  {
    var (a, st1) := Step(max, EMPTY, StartCall(s));
    var (b, st2) := Step(max, a, Call.AddSDESSource(s.ssrc));
    var (c, st3) := Step(max, b, Call.AddSDESNormalItem(CNAME, s.cname));
    var (d, st4) := Step(max, c, Call.AddBYEPacket([s.ssrc], reason));
    if st1 != Ok || st2 != Ok || st3 != Ok || st4 != Ok then None else Some(d)
  }

  // ---------------------------------------------------------------- loss fields of a report block

  lemma {:induction false} BelowOne(a: nat, b: nat)
    requires a < 256 * b
    ensures 0 <= a / b < 256
  {
    assert a == a / b * b + a % b;
    Cancel(a / b, 256, b);
  }

  lemma {:induction false} Cancel(x: int, y: int, b: nat)
    requires x * b < y * b
    ensures x < y
  {
  }

  /** The eight-bit fraction; there is none where the code divides by zero, or 256 does not fit. */
  function FractionLost(expected: u32, received: u32): Option<byte> {
    if expected < received then Some(0)
    else if received == 0 then None
    else
      BelowOne((expected - received) * 256, expected);
      Some(((expected - received) * 256 / expected) as byte)
  }

  /** The cumulative number of packets lost, as a signed number of 32 bits. */
  function PacketsLost(high: u32, base: u32, received: u32): i32 {
    var diff := (high - base - received) % 0x1_0000_0000;
    if diff < 0x8000_0000 then diff else diff - 0x1_0000_0000
  }
}
