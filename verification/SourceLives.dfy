/**
 The life of a source as the packets tell it: when it was last heard, when it last sent data, when it said goodbye,
 what it is noted for and from where it came. The table's entry is the same at every moment of every run, so that
 what a timeout pass removes is told by what arrived.
 */
module SourceLives {
  import opened Bytes
  import opened RtpPacket
  import opened SourceStats
  import opened SourceData
  import opened SourceTable
  import opened SourceTableRuns
  import H = SourceTableHistory
  import R = SourceStatsRuns

  /** What is known of a source. */
  datatype Life = Life(heard: RtpTime, data: RtpTime, gone: bool, goneAt: RtpTime, note: bytes, notedAt: RtpTime,
                       cname: bytes, sends: bool, valid: bool, rtp: Slot, rtcp: Slot, stats: Stats)

  /** A source of which nothing is known. */
  const UNKNOWN := Life(0, 0, false, 0, [], 0, [], false, false, Unset, Unset, FRESH)

  /** The statistics of the data packets, without the moments that other packets set as well. */
  function Plain(s: Stats): Stats {
    s.(lastMsgTime := 0, lastRtpTime := 0, lastNoteTime := 0)
  }

  function LifeIn(s: Source): Life {
    Life(s.stats.lastMsgTime, s.stats.lastRtpTime, s.receivedBye, s.byeTime, s.Item(NOTE), s.stats.lastNoteTime,
         s.Item(CNAME), s.sender, s.validated, s.rtp, s.rtcp, Plain(s.stats))
  }

  // ---------------------------------------------------------------- what an event says about a source

  /** A packet from this address is no collision. */
  predicate Welcome(t: Table, ssrc: u32, from: Option<Address>, isRtp: bool) {
    Has(t, ssrc) ==> !Clash(H.EntryOf(t, ssrc), from, isRtp)
  }

  /** A data packet of the source. */
  predicate SendsData(t: Table, e: Event, ssrc: u32) {
    e.Rtp? && e.packet.ssrc == ssrc && Welcome(t, ssrc, e.from, true)
  }

  /** The packet as the statistics see it; an entry that is not valid yet may be on probation. */
  function ArrivalOf(t: Table, e: Event, ssrc: u32): Arrival
    requires e.Rtp?
  {
    ArrivalAt(e.packet, e.now, e.tsUnit, t.own == Some(ssrc), H.EntryOf(t, ssrc))
  }

  function ArrivalAt(p: Packet, now: RtpTime, tsUnit: real, own: bool, s: Source): Arrival {
    Arrival(p.seqNr % 0x1_0000, p.timestamp, now, tsUnit, own, !s.validated && s.probationType != NoProbation)
  }

  /** One that the statistics count: not one of those that the source is put on probation for. */
  predicate Counts(t: Table, e: Event, ssrc: u32) {
    SendsData(t, e, ssrc) && Processed(H.EntryOf(t, ssrc).stats, ArrivalOf(t, e, ssrc)).accept
  }

  /** A report, an item of a known type, or a goodbye; the own entry does not say goodbye to itself. */
  predicate Reports(t: Table, e: Event, ssrc: u32) {
    && e.Rtcp? && e.ssrc == ssrc && Welcome(t, ssrc, e.from, false)
    && (e.report.Item? ==> CNAME <= e.report.id <= NOTE)
    && (e.report.Bye? ==> t.own != Some(ssrc))
  }

  /** The local participant sends a data packet. */
  predicate WeSend(t: Table, e: Event, ssrc: u32) {
    e.SentRtp? && t.own == Some(ssrc)
  }

  predicate SignOfLife(t: Table, e: Event, ssrc: u32) {
    SendsData(t, e, ssrc) || Reports(t, e, ssrc) || WeSend(t, e, ssrc)
  }

  function TimeOf(e: Event): RtpTime {
    match e
    case SentRtp(now) => now
    case Rtp(_, now, _, _) => now
    case Rtcp(_, _, now, _) => now
    case _ => 0
  }

  function Times(csrcs: seq<u32>, ssrc: u32): nat {
    if csrcs == [] then 0 else Times(csrcs[..|csrcs| - 1], ssrc) + if csrcs[|csrcs| - 1] == ssrc then 1 else 0
  }

  /** The packet's list of contributing sources is gone through: its own source is valid, or becomes so with the packet. */
  predicate ListCounts(t: Table, e: Event) {
    && e.Rtp? && Welcome(t, e.packet.ssrc, e.from, true)
    && (H.EntryOf(t, e.packet.ssrc).validated || Counts(t, e, e.packet.ssrc))
  }

  /** How often a packet lists the source, if the list counts and the address is no collision. */
  function Listings(t: Table, e: Event, ssrc: u32): nat {
    if ListCounts(t, e) && Welcome(t, ssrc, e.from, true) then Times(e.packet.csrcs, ssrc) else 0
  }

  /** An item of this kind that the source sends. */
  predicate Describes(t: Table, e: Event, ssrc: u32, id: nat) {
    e.Rtcp? && Reports(t, e, ssrc) && e.report.Item? && e.report.id == id
  }

  predicate SaysBye(t: Table, e: Event, ssrc: u32) {
    e.Rtcp? && Reports(t, e, ssrc) && e.report.Bye?
  }

  /** The entry of the local participant is made. */
  predicate Joins(t: Table, e: Event, ssrc: u32) {
    e.Create? && e.ssrc == ssrc && t.own == None && !Has(t, ssrc)
  }

  /** The life after the event, for a source that is in the table then. */
  function Lived(l: Life, t: Table, e: Event, ssrc: u32): Life {
    var sent := (Counts(t, e, ssrc) && t.own != Some(ssrc)) || WeSend(t, e, ssrc);
    var listed := Listings(t, e, ssrc) > 0;
    var there := Has(t, ssrc) || SendsData(t, e, ssrc) || Listings(t, e, ssrc) > 1;
    var noted := Describes(t, e, ssrc, NOTE);
    var named := Describes(t, e, ssrc, CNAME);
    Life(
      if SignOfLife(t, e, ssrc) then TimeOf(e) else l.heard,
      if sent then TimeOf(e) else l.data,
      l.gone || SaysBye(t, e, ssrc),
      if SaysBye(t, e, ssrc) then TimeOf(e) else l.goneAt,
      if noted && |e.report.data| <= 255 then e.report.data else if Forgets(l, e) then [] else l.note,
      if noted then TimeOf(e) else l.notedAt,
      if named && |e.report.data| <= 255 && l.cname == [] then e.report.data else l.cname,
      sent || (l.sends && !Stops(l, e)),
      l.valid || Counts(t, e, ssrc) || named || listed || Joins(t, e, ssrc),
      if SendsData(t, e, ssrc) || (listed && there) then Known(e.from) else if Joins(t, e, ssrc) then Known(None) else l.rtp,
      if Reports(t, e, ssrc) then Known(e.from) else if Joins(t, e, ssrc) then Known(None) else l.rtcp,
      if SendsData(t, e, ssrc) then Plain(Processed(l.stats, ArrivalOf(t, e, ssrc)).stats) else l.stats)
  }

  /** An event that makes an entry, if there is none. */
  predicate Makes(t: Table, e: Event, ssrc: u32) {
    SendsData(t, e, ssrc) || Reports(t, e, ssrc) || Listings(t, e, ssrc) > 0 || Joins(t, e, ssrc)
  }

  /** A pass that takes the source for no sender any more. */
  predicate Stops(l: Life, e: Event) {
    match e
    case SenderCheck(now, delay) => l.data < TimeMinus(now, delay)
    case AllChecks(now, sender, _, _, _) => l.data < TimeMinus(now, sender)
    case _ => false
  }

  /** A pass that clears the note. */
  predicate Forgets(l: Life, e: Event) {
    match e
    case NoteCheck(now, delay) => l.notedAt < TimeMinus(now, delay)
    case AllChecks(now, _, _, _, note) => l.notedAt < TimeMinus(now, note)
    case _ => false
  }

  /** A pass or another event that removes the source. */
  predicate Leaves(l: Life, t: Table, e: Event, ssrc: u32) {
    match e
    case ByeCheck(now, delay) => t.own != Some(ssrc) && l.gone && l.goneAt < TimeMinus(now, delay)
    case GeneralCheck(now, delay) => t.own != Some(ssrc) && l.heard < TimeMinus(now, delay)
    case AllChecks(now, _, bye, general, _) =>
      t.own != Some(ssrc) && ((l.gone && l.goneAt < TimeMinus(now, bye)) || l.heard < TimeMinus(now, general))
    case Delete => t.own == Some(ssrc)
    case Clear => true
    case _ => false
  }

  // ---------------------------------------------------------------- how entries change

  lemma {:induction false} EntryReplaced(t: Table, k: nat, s: Source, ssrc: u32)
    requires Unique(t.sources) && k < |t.sources| && s.ssrc == t.sources[k].ssrc
    ensures var u := Replace(t, k, s);
            && (Has(u, ssrc) <==> Has(t, ssrc)) && H.EntryOf(u, ssrc) == (if ssrc == s.ssrc then s else H.EntryOf(t, ssrc))
            && Unique(u.sources)
  {
    var u := Replace(t, k, s);
    Present(t.sources, k, s.ssrc);
    assert u.sources[k] == s;
    assert Unique(u.sources);
    Present(u.sources, k, s.ssrc);
    if Has(t, ssrc) {
      var j := Find(t.sources, ssrc);
      assert u.sources[j].ssrc == ssrc;
      Present(u.sources, j, ssrc);
    } else if Has(u, ssrc) {
      Present(t.sources, Find(u.sources, ssrc), ssrc);
    }
  }

  lemma {:induction false} EntryAppended(t: Table, u: Table, s: Source, ssrc: u32)
    requires Unique(t.sources) && !Has(t, s.ssrc) && u.sources == t.sources + [s] && u.probationType == t.probationType
    ensures (Has(u, ssrc) <==> Has(t, ssrc) || ssrc == s.ssrc) && Unique(u.sources)
    ensures H.EntryOf(u, ssrc) == if ssrc == s.ssrc then s else H.EntryOf(t, ssrc)
  {
    assert u.sources[|t.sources|] == s;
    assert Unique(u.sources);
    Present(u.sources, |t.sources|, s.ssrc);
    if Has(t, ssrc) {
      Present(u.sources, Find(t.sources, ssrc), ssrc);
    } else if Has(u, ssrc) && ssrc != s.ssrc {
      Present(t.sources, Find(u.sources, ssrc), ssrc);
    }
  }

  lemma {:induction false} SameEntries(t: Table, u: Table, ssrc: u32)
    requires u.sources == t.sources && u.probationType == t.probationType
    ensures (Has(u, ssrc) <==> Has(t, ssrc)) && H.EntryOf(u, ssrc) == H.EntryOf(t, ssrc)
  {
  }

  lemma {:induction false} FitsHere(t: Table, ssrc: u32)
    requires Sound(t)
    ensures AddressesFit(H.EntryOf(t, ssrc)) && H.EntryOf(t, ssrc).ssrc == ssrc && Unique(t.sources)
    ensures Has(t, ssrc) ==> (H.EntryOf(t, ssrc).own <==> t.own == Some(ssrc))
    ensures !Has(t, ssrc) ==> H.EntryOf(t, ssrc) == NewSource(ssrc, t.probationType) && t.own != Some(ssrc)
  {
    if Has(t, ssrc) {
      EntryAt(t, Find(t.sources, ssrc));
    }
  }

  /** The entry for a packet: made or found, with the address set. */
  lemma {:induction false} OpenedEntry(t: Table, ssrc: u32, from: Option<Address>, isRtp: bool, x: u32)
    requires Sound(t)
    ensures var (u, k) := Obtain(t, ssrc);
            && k < |u.sources| && u.sources[k] == H.EntryOf(t, ssrc)
            && (Has(u, x) <==> Has(t, x) || x == ssrc) && H.EntryOf(u, x) == H.EntryOf(t, x) && Unique(u.sources)
            && (Has(t, ssrc) && Collides(u.sources[k], from, isRtp) <==> !Welcome(t, ssrc, from, isRtp))
            && (Welcome(t, ssrc, from, isRtp) ==> Bound(u.sources[k], from, isRtp) == WithAddress(H.EntryOf(t, ssrc), from, isRtp))
  {
    hide Collides, Bound, AddressesFit, Clash, WithAddress;
    FitsHere(t, ssrc);
    var (u, k) := Obtain(t, ssrc);
    CollisionExact(H.EntryOf(t, ssrc), from, isRtp);
    if !Has(t, ssrc) {
      EntryAppended(t, u, NewSource(ssrc, t.probationType), x);
      NoCollisionYet(ssrc, t.probationType, from, isRtp);
    }
  }

  // ---------------------------------------------------------------- data packets

  lemma {:induction false} ProcessedTimes(s: Stats, a: Arrival)
    ensures var o := Processed(s, a);
            && o.stats.lastMsgTime == a.now && o.stats.lastNoteTime == s.lastNoteTime
            && o.stats.lastRtpTime == (if o.accept && !a.own then a.now else s.lastRtpTime)
            && (!a.applyProbation ==> o.accept)
  {
    hide Wrap32, Smoothed, Deviation;
  }

  lemma {:induction false} PlainProcessed(s: Stats, a: Arrival)
    ensures var o, p := Processed(s, a), Processed(Plain(s), a);
            Plain(o.stats) == Plain(p.stats) && o.accept == p.accept && o.seqNr == p.seqNr
  {
    hide Wrap32, Smoothed;
  }

  lemma {:induction false} ReceivedLife(s: Source, p: Packet, now: RtpTime, tsUnit: real)
    ensures var o := Processed(s.stats, AsArrival(s, p, now, tsUnit));
            var l := LifeIn(s);
            var sent := o.accept && !s.own;
            LifeIn(Received(s, p, now, tsUnit).0)
              == l.(heard := now, data := if sent then now else l.data, sends := l.sends || sent, valid := l.valid || o.accept,
                    stats := Plain(Processed(l.stats, AsArrival(s, p, now, tsUnit)).stats))
    ensures Received(s, p, now, tsUnit).0.ssrc == s.ssrc
    ensures Received(s, p, now, tsUnit).0.validated == (s.validated || Processed(s.stats, AsArrival(s, p, now, tsUnit)).accept)
  {
    hide Insert, Evicted, Processed, HasNumber, Plain;
    ProcessedTimes(s.stats, AsArrival(s, p, now, tsUnit));
    PlainProcessed(s.stats, AsArrival(s, p, now, tsUnit));
  }

  lemma {:induction false} AddressLife(s: Source, from: Option<Address>, isRtp: bool)
    ensures var l := LifeIn(s);
            LifeIn(WithAddress(s, from, isRtp)) == if isRtp then l.(rtp := Known(from)) else l.(rtcp := Known(from))
    ensures WithAddress(s, from, isRtp).ssrc == s.ssrc && WithAddress(s, from, isRtp).stats == s.stats
    ensures WithAddress(s, from, isRtp).own == s.own && WithAddress(s, from, isRtp).validated == s.validated
    ensures WithAddress(s, from, isRtp).probationType == s.probationType
  {
  }

  /** What the packet alone does, before its contributing sources are looked at. */
  function PacketLived(l: Life, t: Table, e: Event, ssrc: u32): Life
    requires e.Rtp?
  {
    var sent := Counts(t, e, ssrc) && t.own != Some(ssrc);
    if SendsData(t, e, ssrc) then
      l.(heard := e.now, data := if sent then e.now else l.data, sends := l.sends || sent, valid := l.valid || Counts(t, e, ssrc),
         rtp := Known(e.from), stats := Plain(Processed(l.stats, ArrivalOf(t, e, ssrc)).stats))
    else l
  }

  lemma {:induction false} PacketLife(t: Table, e: Event, ssrc: u32)
    requires Sound(t) && e.Rtp?
    ensures var (u, stored, csrcs) := PacketOnly(t, e.packet, e.now, e.tsUnit, e.from);
            && Unique(u.sources) && u.own == t.own
            && (Has(u, ssrc) <==> Has(t, ssrc) || ssrc == e.packet.ssrc)
            && LifeIn(H.EntryOf(u, ssrc)) == PacketLived(LifeIn(H.EntryOf(t, ssrc)), t, e, ssrc)
            && (csrcs <==> ListCounts(t, e))
  {
    hide Collides, Bound, Clash, WithAddress, Received, Processed, Sound, AddressesFit, LifeIn, AsArrival, ArrivalOf;
    var p, from := e.packet, e.from;
    OpenedEntry(t, p.ssrc, from, true, ssrc);
    OpenedSound(t, p.ssrc, from, true);
    FitsHere(t, p.ssrc);
    var (u, k) := Obtain(t, p.ssrc);
    var (x, stored, csrcs) := PacketOnly(t, p, e.now, e.tsUnit, from);
    if Has(t, p.ssrc) && Collides(u.sources[k], from, true) {
      SameEntries(u, x, ssrc);
    } else {
      var s := WithAddress(u.sources[k], from, true);
      AddressLife(u.sources[k], from, true);
      ReceivedLife(s, p, e.now, e.tsUnit);
      SameArrival(u.sources[k], s, p, e.now, e.tsUnit);
      ArrivalIs(t, e);
      var v := Replace(u, k, s);
      EntryReplaced(u, k, s, ssrc);
      var r := Received(s, p, e.now, e.tsUnit).0;
      EntryReplaced(v, k, r, ssrc);
      SameEntries(Replace(v, k, r), x, ssrc);
      assert csrcs == r.validated;
    }
  }

  lemma {:induction false} ArrivalIs(t: Table, e: Event)
    requires e.Rtp? && H.EntryOf(t, e.packet.ssrc).own == (t.own == Some(e.packet.ssrc))
    ensures ArrivalOf(t, e, e.packet.ssrc) == AsArrival(H.EntryOf(t, e.packet.ssrc), e.packet, e.now, e.tsUnit)
  {
  }

  lemma {:induction false} SameArrival(s: Source, r: Source, p: Packet, now: RtpTime, tsUnit: real)
    requires r.own == s.own && r.validated == s.validated && r.probationType == s.probationType
    ensures AsArrival(r, p, now, tsUnit) == AsArrival(s, p, now, tsUnit)
  {
  }

  // ---------------------------------------------------------------- lists of contributing sources

  lemma {:induction false} ListedOnce(t: Table, csrc: u32, from: Option<Address>, ssrc: u32)
    requires Sound(t)
    ensures var u := MarkCsrc(t, csrc, from);
            var l := LifeIn(H.EntryOf(t, ssrc));
            && Sound(u) && u.own == t.own && u.probationType == t.probationType
            && (Has(u, ssrc) <==> Has(t, ssrc) || csrc == ssrc)
            && (Welcome(u, ssrc, from, true) <==> Welcome(t, ssrc, from, true))
            && LifeIn(H.EntryOf(u, ssrc)) == (if csrc == ssrc && Welcome(t, ssrc, from, true) then
                 l.(valid := true, rtp := if Has(t, ssrc) then Known(from) else l.rtp) else l)
  {
    hide Collides, Bound, Clash, WithAddress, Sound, AddressesFit, EntryOk;
    var u := MarkCsrc(t, csrc, from);
    CsrcSound(t, csrc, from);
    FitsHere(t, csrc);
    FitsHere(t, ssrc);
    OpenedEntry(t, csrc, from, true, ssrc);
    var k := Find(t.sources, csrc);
    if k == |t.sources| {
      var s := NewSource(csrc, t.probationType).(validated := true, csrc := true);
      EntryAppended(t, u, s, ssrc);
      NoClashYet(s, from);
    } else if Collides(t.sources[k], from, true) {
      SameEntries(t, u, ssrc);
    } else {
      var s := WithAddress(t.sources[k], from, true);
      AddressLife(t.sources[k], from, true);
      var r := s.(validated := true, csrc := true);
      EntryReplaced(t, k, r, ssrc);
      MarkedWelcome(t.sources[k], from);
    }
  }

  lemma {:induction false} NoClashYet(s: Source, from: Option<Address>)
    requires s.rtp == s.rtcp == Unset
    ensures !Clash(s, from, true)
  {
  }

  lemma {:induction false} MarkedWelcome(s: Source, from: Option<Address>)
    requires !Clash(s, from, true)
    ensures var r := WithAddress(s, from, true).(validated := true, csrc := true);
            !Clash(r, from, true) && LifeIn(r) == LifeIn(s).(valid := true, rtp := Known(from)) && r.ssrc == s.ssrc
  {
  }

  lemma {:induction false} ListedLife(t: Table, csrcs: seq<u32>, from: Option<Address>, ssrc: u32)
    requires Sound(t)
    ensures var u := MarkCsrcs(t, csrcs, from);
            var l := LifeIn(H.EntryOf(t, ssrc));
            var n := Times(csrcs, ssrc);
            && Sound(u) && u.own == t.own
            && (Has(u, ssrc) <==> Has(t, ssrc) || n > 0)
            && (Welcome(u, ssrc, from, true) <==> Welcome(t, ssrc, from, true))
            && LifeIn(H.EntryOf(u, ssrc)) == (if n > 0 && Welcome(t, ssrc, from, true) then
                 l.(valid := true, rtp := if Has(t, ssrc) || n > 1 then Known(from) else l.rtp) else l)
  {
    hide MarkCsrc, Sound, LifeIn, Welcome;
    if csrcs != [] {
      ListedLife(t, csrcs[..|csrcs| - 1], from, ssrc);
      ListedOnce(MarkCsrcs(t, csrcs[..|csrcs| - 1], from), csrcs[|csrcs| - 1], from, ssrc);
    }
  }

  /** The address settles whether there is a collision. */
  lemma {:induction false} ClashBySlots(s: Source, r: Source, from: Option<Address>)
    requires r.rtcp == s.rtcp
    ensures r.rtp == s.rtp ==> (Clash(r, from, true) <==> Clash(s, from, true))
    ensures r.rtp == Known(from) && !Clash(s, from, true) ==> !Clash(r, from, true)
  {
    hide AddressesFit;
    FitBySlots(WithAddress(s, from, true), WithAddress(r, from, true));
  }

  lemma {:induction false} FitBySlots(s: Source, r: Source)
    requires r.rtp == s.rtp && r.rtcp == s.rtcp
    ensures AddressesFit(r) <==> AddressesFit(s)
  {
  }

  lemma {:induction false} StillWelcome(t: Table, u: Table, e: Event, ssrc: u32)
    requires e.Rtp? && Welcome(t, e.packet.ssrc, e.from, true) && Unique(t.sources)
    requires Has(u, ssrc) <==> Has(t, ssrc) || ssrc == e.packet.ssrc
    requires LifeIn(H.EntryOf(u, ssrc)) == PacketLived(LifeIn(H.EntryOf(t, ssrc)), t, e, ssrc)
    ensures Welcome(u, ssrc, e.from, true) <==> Welcome(t, ssrc, e.from, true)
  {
    hide Clash, Counts;
    var s, r := H.EntryOf(t, ssrc), H.EntryOf(u, ssrc);
    assert r.rtp == LifeIn(r).rtp && r.rtcp == LifeIn(r).rtcp;
    ClashBySlots(s, r, e.from);
    if !Has(t, ssrc) {
      NoClashYet(s, e.from);
    }
  }

  lemma {:induction false} RtpLife(t: Table, e: Event, ssrc: u32)
    requires Sound(t) && e.Rtp?
    ensures var u := RtpPacketIn(t, e.packet, e.now, e.tsUnit, e.from).0;
            && (Has(u, ssrc) <==> Has(t, ssrc) || Makes(t, e, ssrc))
            && (Has(u, ssrc) ==> LifeIn(H.EntryOf(u, ssrc)) == Lived(LifeIn(H.EntryOf(t, ssrc)), t, e, ssrc))
  {
    hide PacketOnly, MarkCsrcs, Sound, Clash, LifeIn, Processed, ArrivalOf, Plain;
    var p := e.packet;
    PacketSound(t, p, e.now, e.tsUnit, e.from);
    PacketLife(t, e, ssrc);
    FitsHere(t, ssrc);
    var u := PacketOnly(t, p, e.now, e.tsUnit, e.from).0;
    if ListCounts(t, e) {
      StillWelcome(t, u, e, ssrc);
      ListedLife(u, p.csrcs, e.from, ssrc);
    }
  }

  // ---------------------------------------------------------------- control packets

  lemma {:induction false} DescribedLife(s: Source, id: nat, data: bytes, now: RtpTime)
    requires CNAME <= id <= NOTE && (s.Item(CNAME) != [] ==> s.validated)
    ensures var l := LifeIn(s);
            LifeIn(Described(s, id, data, now).0) ==
              l.(heard := now, notedAt := if id == NOTE then now else l.notedAt,
                 note := if id == NOTE && |data| <= 255 then data else l.note,
                 cname := if id == CNAME && |data| <= 255 && l.cname == [] then data else l.cname,
                 valid := l.valid || id == CNAME)
    ensures Described(s, id, data, now).0.ssrc == s.ssrc
  {
  }

  lemma {:induction false} ByeLife(s: Source, reason: bytes, now: RtpTime)
    ensures LifeIn(SaidBye(s, reason, now)) == LifeIn(s).(heard := now, gone := true, goneAt := now)
    ensures LifeIn(Heard(s, now)) == LifeIn(s).(heard := now)
    ensures SaidBye(s, reason, now).ssrc == Heard(s, now).ssrc == s.ssrc
  {
  }

  /** What a source's report does to it. */
  function ReportLived(l: Life, r: Report, now: RtpTime): Life {
    match r
    case Alive => l.(heard := now)
    case Item(id, data) =>
      l.(heard := now, notedAt := if id == NOTE then now else l.notedAt,
         note := if id == NOTE && |data| <= 255 then data else l.note,
         cname := if id == CNAME && |data| <= 255 && l.cname == [] then data else l.cname,
         valid := l.valid || id == CNAME)
    case Bye(_) => l.(heard := now, gone := true, goneAt := now)
  }

  lemma {:induction false} ApplyLife(t: Table, k: nat, created: bool, r: Report, now: RtpTime, from: Option<Address>, ssrc: u32)
    requires Unique(t.sources) && k < |t.sources| && (r.Item? ==> CNAME <= r.id <= NOTE)
    requires t.sources[k].Item(CNAME) != [] ==> t.sources[k].validated
    ensures var u := Apply(t, k, created, r, now, from).0;
            var s := t.sources[k];
            var l := LifeIn(H.EntryOf(t, ssrc));
            && u.own == t.own && (Has(u, ssrc) <==> Has(t, ssrc))
            && LifeIn(H.EntryOf(u, ssrc)) == if ssrc == s.ssrc && !(r.Bye? && t.own == Some(ssrc)) then ReportLived(l, r, now) else l
  {
    hide Described, SaidBye, Heard, LifeIn;
    var s := t.sources[k];
    var u := Apply(t, k, created, r, now, from).0;
    Present(t.sources, k, s.ssrc);
    match r
    case Alive =>
      ByeLife(s, [], now);
      EntryReplaced(t, k, Heard(s, now), ssrc);
      SameEntries(Replace(t, k, Heard(s, now)), u, ssrc);
    case Item(id, data) =>
      DescribedLife(s, id, data, now);
      EntryReplaced(t, k, Described(s, id, data, now).0, ssrc);
      SameEntries(Replace(t, k, Described(s, id, data, now).0), u, ssrc);
    case Bye(reason) =>
      if !IsOwn(t, s) {
        ByeLife(s, reason, now);
        EntryReplaced(t, k, SaidBye(s, reason, now), ssrc);
        SameEntries(Replace(t, k, SaidBye(s, reason, now)), u, ssrc);
      }
  }

  lemma {:induction false} LivedByReport(l: Life, t: Table, e: Event, ssrc: u32)
    requires e.Rtcp?
    ensures Lived(l, t, e, ssrc) == if Reports(t, e, ssrc) then ReportLived(l.(rtcp := Known(e.from)), e.report, e.now) else l
    ensures Makes(t, e, ssrc) <==> Reports(t, e, ssrc)
  {
    hide Welcome;
  }

  lemma {:induction false} RtcpLife(t: Table, e: Event, ssrc: u32)
    requires Sound(t) && e.Rtcp? && (LifeIn(H.EntryOf(t, e.ssrc)).cname != [] ==> LifeIn(H.EntryOf(t, e.ssrc)).valid)
    ensures var u := RtcpIn(t, e.ssrc, e.report, e.now, e.from).0;
            && (Has(u, ssrc) <==> Has(t, ssrc) || Makes(t, e, ssrc))
            && (Has(u, ssrc) ==> LifeIn(H.EntryOf(u, ssrc)) == Lived(LifeIn(H.EntryOf(t, ssrc)), t, e, ssrc))
  {
    hide Collides, Bound, Clash, WithAddress, Sound, AddressesFit, Apply, LifeIn, ReportLived, Lived, Makes;
    var from := e.from;
    LivedByReport(LifeIn(H.EntryOf(t, ssrc)), t, e, ssrc);
    OpenedEntry(t, e.ssrc, from, false, ssrc);
    OpenedSound(t, e.ssrc, from, false);
    FitsHere(t, e.ssrc);
    var (u, k) := Obtain(t, e.ssrc);
    var x := RtcpIn(t, e.ssrc, e.report, e.now, from).0;
    if e.report.Item? && !(CNAME <= e.report.id <= NOTE) {
    } else if Has(t, e.ssrc) && Collides(u.sources[k], from, false) {
      SameEntries(u, x, ssrc);
    } else {
      var s := WithAddress(u.sources[k], from, false);
      AddressLife(u.sources[k], from, false);
      NamedLife(s);
      var v := Replace(u, k, s);
      EntryReplaced(u, k, s, ssrc);
      ApplyLife(v, k, !Has(t, e.ssrc), e.report, e.now, from, ssrc);
      if t.own == Some(e.ssrc) {
        OwnStaysHome(t, e.ssrc, from);
        NamedLife(H.EntryOf(t, e.ssrc));
      }
    }
  }

  lemma {:induction false} NamedLife(s: Source)
    ensures LifeIn(s).cname == s.Item(CNAME) && LifeIn(s).valid == s.validated && LifeIn(s).rtcp == s.rtcp
  {
  }

  /** Only a packet without an address is welcome as one of the own entry. */
  lemma {:induction false} OwnStaysHome(t: Table, ssrc: u32, from: Option<Address>)
    requires Sound(t) && t.own == Some(ssrc) && Welcome(t, ssrc, from, false)
    ensures H.EntryOf(t, ssrc).rtcp == Known(from)
  {
    EntryAt(t, Find(t.sources, ssrc));
  }

  // ---------------------------------------------------------------- passes

  /** A pass leaves exactly the entries that it keeps, as it says. */
  lemma {:induction false} KeptEntry(ss: seq<Source>, pass: Source -> Fate, ssrc: u32)
    requires Unique(ss) && forall i :: 0 <= i < |ss| && pass(ss[i]).Keep? ==> pass(ss[i]).source.ssrc == ss[i].ssrc
    ensures var rr := Kept(ss, pass);
            var k := Find(ss, ssrc);
            && (Find(rr, ssrc) < |rr| <==> k < |ss| && pass(ss[k]).Keep?)
            && (k < |ss| && pass(ss[k]).Keep? ==> rr[Find(rr, ssrc)] == pass(ss[k]).source)
  {
    hide Find;
    if ss == [] {
      assert Find(ss, ssrc) == 0;
    } else {
      var front, last := ss[..|ss| - 1], ss[|ss| - 1];
      KeptEntry(front, pass, ssrc);
      FindAppend(front, last, ssrc);
      assert ss == front + [last];
      if pass(last).Keep? {
        FindAppend(Kept(front, pass), pass(last).source, ssrc);
      } else {
        assert Kept(ss, pass) == Kept(front, pass);
      }
    }
  }

  lemma {:induction false} FindAppend(ss: seq<Source>, s: Source, ssrc: u32)
    ensures Find(ss + [s], ssrc) == if Find(ss, ssrc) < |ss| then Find(ss, ssrc) else if s.ssrc == ssrc then |ss| else |ss| + 1
  {
    if Find(ss, ssrc) < |ss| {
      assert (ss + [s])[Find(ss, ssrc)] == ss[Find(ss, ssrc)];
    } else {
      assert (ss + [s])[|ss|] == s;
    }
  }

  /** What the pass of an event does to one entry. */
  function PassOf(own: Option<u32>, e: Event): Source -> Fate
    requires IsCheck(e)
  {
    match e
    case ByeCheck(now, delay) => ByePass(own, TimeMinus(now, delay))
    case GeneralCheck(now, delay) => GeneralPass(own, TimeMinus(now, delay))
    case SenderCheck(now, delay) => SenderPass(TimeMinus(now, delay))
    case NoteCheck(now, delay) => NotePass(TimeMinus(now, delay))
    case AllChecks(now, sender, bye, general, note) =>
      FusedPass(own, TimeMinus(now, sender), TimeMinus(now, bye), TimeMinus(now, general), TimeMinus(now, note))
  }

  lemma {:induction false} CheckIsSweep(t: Table, e: Event)
    requires IsCheck(e) && (t.own.Some? ==> Has(t, t.own.value))
    ensures Step(t, e) == Sweep(t, PassOf(t.own, e))
  {
    hide Sweep;
  }

  lemma {:induction false} LivedByCheck(l: Life, t: Table, e: Event, ssrc: u32)
    requires IsCheck(e)
    ensures Lived(l, t, e, ssrc) == l.(note := if Forgets(l, e) then [] else l.note, sends := l.sends && !Stops(l, e))
  {
    hide Forgets, Stops;
  }

  lemma {:induction false} ClearedLife(s: Source, b: bool)
    ensures LifeIn(s.(sender := b)) == LifeIn(s).(sends := b)
    ensures LifeIn(s.(sdes := s.sdes[NOTE := []])) == LifeIn(s).(note := [])
    ensures LifeIn(s.(sender := b, sdes := s.sdes[NOTE := []])) == LifeIn(s).(sends := b, note := [])
  {
  }

  lemma {:induction false} PassKeeps(t: Table, s: Source, e: Event)
    requires IsCheck(e)
    ensures PassOf(t.own, e)(s).Keep? <==> !Leaves(LifeIn(s), t, e, s.ssrc)
  {
    hide TimeMinus, Source.Item, NoteOld;
  }

  lemma {:induction false} PassLife(t: Table, s: Source, e: Event)
    requires IsCheck(e) && PassOf(t.own, e)(s).Keep?
    ensures var r := PassOf(t.own, e)(s).source;
            r.ssrc == s.ssrc && LifeIn(r) == Lived(LifeIn(s), t, e, s.ssrc)
  {
    hide Lived, TimeMinus;
    LivedByCheck(LifeIn(s), t, e, s.ssrc);
    ClearedLife(s, false);
  }

  lemma {:induction false} CheckLife(t: Table, e: Event, ssrc: u32)
    requires Sound(t) && IsCheck(e)
    ensures var u := Step(t, e);
            var l := LifeIn(H.EntryOf(t, ssrc));
            && (Has(u, ssrc) <==> Has(t, ssrc) && !Leaves(l, t, e, ssrc))
            && (Has(u, ssrc) ==> LifeIn(H.EntryOf(u, ssrc)) == Lived(l, t, e, ssrc))
  {
    hide Lived, Leaves, LifeIn, PassOf, Step, EntryOk;
    CheckIsSweep(t, e);
    var pass := PassOf(t.own, e);
    forall i | 0 <= i < |t.sources| && pass(t.sources[i]).Keep?
      ensures pass(t.sources[i]).source.ssrc == t.sources[i].ssrc
    {
      PassLife(t, t.sources[i], e);
    }
    KeptEntry(t.sources, pass, ssrc);
    if Has(t, ssrc) {
      var s := t.sources[Find(t.sources, ssrc)];
      PassKeeps(t, s, e);
      if pass(s).Keep? {
        PassLife(t, s, e);
      }
    }
  }

  // ---------------------------------------------------------------- the remaining events

  lemma {:induction false} JoinLife(t: Table, e: Event, ssrc: u32)
    requires Sound(t) && e.Create?
    ensures var u := Step(t, e);
            && (Has(u, ssrc) <==> Has(t, ssrc) || Joins(t, e, ssrc))
            && (Has(u, ssrc) ==> LifeIn(H.EntryOf(u, ssrc)) == Lived(LifeIn(H.EntryOf(t, ssrc)), t, e, ssrc))
  {
    var u := Step(t, e);
    if t.own == None && !Has(t, e.ssrc) {
      EntryAppended(t, u, OwnEntry(e.ssrc, t.probationType), ssrc);
    }
  }

  lemma {:induction false} LeaveLife(t: Table, e: Event, ssrc: u32)
    requires Sound(t) && e.Delete?
    ensures var u := Step(t, e);
            && (Has(u, ssrc) <==> Has(t, ssrc) && t.own != Some(ssrc))
            && (Has(u, ssrc) ==> H.EntryOf(u, ssrc) == H.EntryOf(t, ssrc))
  {
    hide EntryOk, LifeIn;
    var u := Step(t, e);
    if t.own.Some? {
      var k := Find(t.sources, t.own.value);
      RemovedEntry(t.sources, k, ssrc);
    }
  }

  lemma {:induction false} RemovedEntry(ss: seq<Source>, k: nat, ssrc: u32)
    requires Unique(ss) && k < |ss|
    ensures var rr := Removed(ss, k);
            && (Find(rr, ssrc) < |rr| <==> Find(ss, ssrc) < |ss| && ssrc != ss[k].ssrc)
            && (Find(rr, ssrc) < |rr| ==> rr[Find(rr, ssrc)] == ss[Find(ss, ssrc)])
  {
    hide Find;
    var rr := Removed(ss, k);
    assert forall i :: 0 <= i < |rr| ==> rr[i] == ss[if i < k then i else i + 1];
    var n, m := Find(ss, ssrc), Find(rr, ssrc);
    if n < |ss| && n != k {
      var j := if n < k then n else n - 1;
      assert rr[j] == ss[n];
      Present(rr, j, ssrc);
    }
    if m < |rr| {
      assert rr[m] == ss[if m < k then m else m + 1];
    }
  }

  lemma {:induction false} SentLife(t: Table, e: Event, ssrc: u32)
    requires Sound(t) && e.SentRtp?
    ensures var u := Step(t, e);
            && (Has(u, ssrc) <==> Has(t, ssrc))
            && LifeIn(H.EntryOf(u, ssrc)) == Lived(LifeIn(H.EntryOf(t, ssrc)), t, e, ssrc)
  {
    FitsHere(t, ssrc);
    if t.own.Some? {
      var k := Find(t.sources, t.own.value);
      FitsHere(t, t.own.value);
      EntryReplaced(t, k, Sent(t.sources[k], e.now), ssrc);
      SameEntries(Replace(t, k, Sent(t.sources[k], e.now)), Step(t, e), ssrc);
    }
  }

  lemma {:induction false} TakeLife(t: Table, e: Event, ssrc: u32)
    requires Sound(t) && e.TakePacket?
    ensures var u := Step(t, e);
            && (Has(u, ssrc) <==> Has(t, ssrc)) && LifeIn(H.EntryOf(u, ssrc)) == LifeIn(H.EntryOf(t, ssrc))
  {
    hide EntryOk;
    var k := Find(t.sources, e.ssrc);
    if k < |t.sources| && t.sources[k].validated && t.sources[k].queue != [] {
      EntryReplaced(t, k, t.sources[k].(queue := t.sources[k].queue[1..]), ssrc);
    }
  }

  lemma {:induction false} QuietLife(t: Table, e: Event, ssrc: u32)
    requires Sound(t) && !IsCheck(e) && !e.Rtp? && !e.Rtcp?
    ensures var u := Step(t, e);
            var l := LifeIn(H.EntryOf(t, ssrc));
            && (Has(u, ssrc) <==> Makes(t, e, ssrc) || (Has(t, ssrc) && !Leaves(l, t, e, ssrc)))
            && (Has(u, ssrc) ==> LifeIn(H.EntryOf(u, ssrc)) == Lived(l, t, e, ssrc))
  {
    hide Sound, LifeIn, Clash;
    match e
    case Create(_) => JoinLife(t, e, ssrc);
    case Delete => LeaveLife(t, e, ssrc);
    case SentRtp(_) => SentLife(t, e, ssrc);
    case TakePacket(_) => TakeLife(t, e, ssrc);
    case Clear =>
  }

  /** What was known of a source before the event: an entry with a CNAME is a valid one. */
  ghost predicate CnamesValid(t: Table) {
    forall x {:trigger H.EntryOf(t, x)} :: H.EntryOf(t, x).Item(CNAME) != [] ==> H.EntryOf(t, x).validated
  }

  /** Which entries there are after an event, and what their lives have become. */
  lemma {:induction false} StepLife(t: Table, e: Event, ssrc: u32)
    requires Sound(t) && CnamesValid(t)
    ensures var u := Step(t, e);
            var l := LifeIn(H.EntryOf(t, ssrc));
            && (Has(u, ssrc) <==> Makes(t, e, ssrc) || (Has(t, ssrc) && !Leaves(l, t, e, ssrc)))
            && (Has(u, ssrc) ==> LifeIn(H.EntryOf(u, ssrc)) == Lived(l, t, e, ssrc))
  {
    hide Sound, LifeIn, Clash, Lived, RtpPacketIn, RtcpIn;
    if IsCheck(e) {
      hide Step, Leaves;
      CheckLife(t, e, ssrc);
    } else if e.Rtp? {
      RtpLife(t, e, ssrc);
    } else if e.Rtcp? {
      NamedLife(H.EntryOf(t, e.ssrc));
      RtcpLife(t, e, ssrc);
    } else {
      QuietLife(t, e, ssrc);
    }
  }

  lemma {:induction false} StepNamed(t: Table, e: Event)
    requires Sound(t) && CnamesValid(t)
    ensures CnamesValid(Step(t, e))
  {
    hide Sound, LifeIn, Step, Lived, Makes, Leaves;
    OwnHas(t);
    forall x: u32 | H.EntryOf(Step(t, e), x).Item(CNAME) != []
      ensures H.EntryOf(Step(t, e), x).validated
    {
      StepLife(t, e, x);
      NamedLife(H.EntryOf(t, x));
      NamedLife(H.EntryOf(Step(t, e), x));
      LivedNamed(LifeIn(H.EntryOf(t, x)), t, e, x);
    }
  }

  lemma {:induction false} LivedNamed(l: Life, t: Table, e: Event, ssrc: u32)
    requires l.cname != [] ==> l.valid
    ensures var m := Lived(l, t, e, ssrc); m.cname != [] ==> m.valid
  {
    hide Describes, Counts, Listings, Joins;
  }

  // ---------------------------------------------------------------- whole runs

  /** The table after the first n events. */
  function TableAt(probationType: ProbationType, events: seq<Event>, n: nat): (t: Table)
    requires n <= |events|
    ensures Sound(t)
  {
    EmptySound(probationType, []);
    H.Run(EmptyTable(probationType), events[..n])
  }

  lemma {:induction false} AtStep(probationType: ProbationType, events: seq<Event>, n: nat)
    requires n < |events|
    ensures TableAt(probationType, events, n + 1) == Step(TableAt(probationType, events, n), events[n])
    ensures TableAt(probationType, events, 0) == EmptyTable(probationType)
  {
    assert events[..n + 1][..n] == events[..n];
    EmptySound(probationType, []);
  }

  lemma {:induction false} AlwaysNamed(probationType: ProbationType, events: seq<Event>, n: nat)
    requires n <= |events|
    ensures CnamesValid(TableAt(probationType, events, n))
  {
    hide Step, TableAt;
    if n > 0 {
      AlwaysNamed(probationType, events, n - 1);
      AtStep(probationType, events, n - 1);
      StepNamed(TableAt(probationType, events, n - 1), events[n - 1]);
    } else {
      NobodyNamed(probationType, events);
    }
  }

  lemma {:induction false} NobodyNamed(probationType: ProbationType, events: seq<Event>)
    ensures CnamesValid(TableAt(probationType, events, 0)) && forall x :: !Has(TableAt(probationType, events, 0), x)
  {
    assert TableAt(probationType, events, 0) == EmptyTable(probationType);
  }

  /** What is known of a source after the first n events; of one that has no entry, nothing. */
  function LifeAt(probationType: ProbationType, events: seq<Event>, n: nat, ssrc: u32): Life
    requires n <= |events|
  {
    LifeIn(H.EntryOf(TableAt(probationType, events, n), ssrc))
  }

  /** Every event of a run changes who is in the table and what is known of them as told by the event. */
  lemma {:induction false} LifeExact(probationType: ProbationType, events: seq<Event>, n: nat, ssrc: u32)
    requires n < |events|
    ensures var t, u := TableAt(probationType, events, n), TableAt(probationType, events, n + 1);
            var l := LifeAt(probationType, events, n, ssrc);
            && (Has(u, ssrc) <==> Makes(t, events[n], ssrc) || (Has(t, ssrc) && !Leaves(l, t, events[n], ssrc)))
            && LifeAt(probationType, events, n + 1, ssrc) == (if Has(u, ssrc) then Lived(l, t, events[n], ssrc) else UNKNOWN)
            && (!Has(t, ssrc) ==> l == UNKNOWN)
  {
    hide Step, TableAt, Lived, Makes, Leaves, Sound, CnamesValid;
    AtStep(probationType, events, n);
    AlwaysNamed(probationType, events, n);
    StepLife(TableAt(probationType, events, n), events[n], ssrc);
  }

  // ---------------------------------------------------------------- what a timeout goes by

  /** What a timeout pass looks at: any sign of life, data, the goodbye, or the note. */
  datatype Kind = Any | Data | Goodbye | Note

  predicate Tells(kind: Kind, t: Table, e: Event, ssrc: u32) {
    match kind
    case Any => SignOfLife(t, e, ssrc)
    case Data => (Counts(t, e, ssrc) && t.own != Some(ssrc)) || WeSend(t, e, ssrc)
    case Goodbye => SaysBye(t, e, ssrc)
    case Note => Describes(t, e, ssrc, NOTE)
  }

  function Moment(kind: Kind, l: Life): RtpTime {
    match kind
    case Any => l.heard
    case Data => l.data
    case Goodbye => l.goneAt
    case Note => l.notedAt
  }

  /** The entry was made by event b and has been there since, up to moment n. */
  ghost predicate Since(probationType: ProbationType, events: seq<Event>, b: nat, n: nat, ssrc: u32) {
    && b < n <= |events| && !Has(TableAt(probationType, events, b), ssrc)
    && forall m :: b < m <= n ==> Has(TableAt(probationType, events, m), ssrc)
  }

  predicate Told(kind: Kind, probationType: ProbationType, events: seq<Event>, n: nat, ssrc: u32) {
    n < |events| && Tells(kind, TableAt(probationType, events, n), events[n], ssrc)
  }

  /** The time of the last event from b on that told. */
  function LastTime(kind: Kind, probationType: ProbationType, events: seq<Event>, b: nat, n: nat, ssrc: u32): Option<RtpTime>
    requires n <= |events|
  {
    if n <= b then None
    else if Told(kind, probationType, events, n - 1, ssrc) then Some(TimeOf(events[n - 1]))
    else LastTime(kind, probationType, events, b, n - 1, ssrc)
  }

  /** More than the delay ago, or never. The difference of two times wraps around with the 32-bit seconds. */
  predicate Expired(last: Option<RtpTime>, now: RtpTime, delay: RtpTime) {
    (if last.Some? then last.value else 0) < (now - delay) % (0x1_0000_0000 * 1_000_000)
  }

  /** Every entry has been made by some event, and has been there since. */
  lemma {:induction false} SomeEventMade(probationType: ProbationType, events: seq<Event>, n: nat, ssrc: u32) returns (b: nat)
    requires n <= |events| && Has(TableAt(probationType, events, n), ssrc)
    ensures Since(probationType, events, b, n, ssrc)
  {
    hide TableAt;
    NobodyNamed(probationType, events);
    assert n > 0;
    if Has(TableAt(probationType, events, n - 1), ssrc) {
      b := SomeEventMade(probationType, events, n - 1, ssrc);
    } else {
      b := n - 1;
    }
  }

  lemma {:induction false} LivedMoment(kind: Kind, l: Life, t: Table, e: Event, ssrc: u32)
    ensures Moment(kind, Lived(l, t, e, ssrc)) == if Tells(kind, t, e, ssrc) then TimeOf(e) else Moment(kind, l)
  {
    hide Counts, WeSend, SendsData, Reports, Listings, Joins;
  }

  lemma {:induction false} NoMoment(kind: Kind)
    ensures Moment(kind, UNKNOWN) == 0
  {
  }

  /** The moment that a pass compares is that of the last event that told, since the entry was made. */
  lemma {:induction false} LastTold(kind: Kind, probationType: ProbationType, events: seq<Event>, b: nat, n: nat, ssrc: u32)
    requires Since(probationType, events, b, n, ssrc)
    ensures var last := LastTime(kind, probationType, events, b, n, ssrc);
            Moment(kind, LifeAt(probationType, events, n, ssrc)) == if last.Some? then last.value else 0
    decreases n
  {
    hide TableAt, LifeAt, Lived, Makes, Leaves, Tells, Moment;
    var t := TableAt(probationType, events, n - 1);
    LifeExact(probationType, events, n - 1, ssrc);
    LivedMoment(kind, LifeAt(probationType, events, n - 1, ssrc), t, events[n - 1], ssrc);
    if b < n - 1 {
      LastTold(kind, probationType, events, b, n - 1, ssrc);
    } else {
      NoMoment(kind);
    }
  }

  lemma {:induction false} LivedGone(l: Life, t: Table, e: Event, ssrc: u32)
    ensures Lived(l, t, e, ssrc).gone == (l.gone || Tells(Goodbye, t, e, ssrc))
  {
    hide Counts, WeSend, SendsData, Reports, Listings, Joins;
  }

  /** The source has said goodbye since its entry was made, and in no other case is it gone. */
  lemma {:induction false} GoneExact(probationType: ProbationType, events: seq<Event>, b: nat, n: nat, ssrc: u32)
    requires Since(probationType, events, b, n, ssrc)
    ensures LifeAt(probationType, events, n, ssrc).gone <==> LastTime(Goodbye, probationType, events, b, n, ssrc).Some?
    decreases n
  {
    hide TableAt, LifeAt, Makes, Leaves, Lived, Tells;
    LifeExact(probationType, events, n - 1, ssrc);
    LivedGone(LifeAt(probationType, events, n - 1, ssrc), TableAt(probationType, events, n - 1), events[n - 1], ssrc);
    if b < n - 1 {
      GoneExact(probationType, events, b, n - 1, ssrc);
    }
  }

  /** The last event of this kind, since b and before n, is more than the delay ago. */
  predicate Silent(kind: Kind, probationType: ProbationType, events: seq<Event>, b: nat, n: nat, ssrc: u32, now: RtpTime, delay: RtpTime)
    requires n <= |events|
  {
    Expired(LastTime(kind, probationType, events, b, n, ssrc), now, delay)
  }

  /** Whom a pass removes. */
  predicate TimesOut(probationType: ProbationType, events: seq<Event>, b: nat, n: nat, ssrc: u32)
    requires n < |events|
  {
    var bye := LastTime(Goodbye, probationType, events, b, n, ssrc);
    match events[n]
    case GeneralCheck(now, delay) => Silent(Any, probationType, events, b, n, ssrc, now, delay)
    case ByeCheck(now, delay) => bye.Some? && Expired(bye, now, delay)
    case AllChecks(now, _, byeDelay, general, _) =>
      Silent(Any, probationType, events, b, n, ssrc, now, general) || (bye.Some? && Expired(bye, now, byeDelay))
    case _ => false
  }

  /**
   A pass removes exactly the remote sources that it should: those whose last sign of life, or whose goodbye, is more
   than the delay ago.
   */
  lemma {:induction false} TimeoutExact(probationType: ProbationType, events: seq<Event>, b: nat, n: nat, ssrc: u32)
    requires Since(probationType, events, b, n, ssrc) && n < |events| && IsCheck(events[n])
    ensures Has(TableAt(probationType, events, n + 1), ssrc)
       <==> TableAt(probationType, events, n).own == Some(ssrc) || !TimesOut(probationType, events, b, n, ssrc)
  {
    hide TableAt, LifeAt, Lived, LastTime;
    LifeExact(probationType, events, n, ssrc);
    LastTold(Any, probationType, events, b, n, ssrc);
    LastTold(Goodbye, probationType, events, b, n, ssrc);
    GoneExact(probationType, events, b, n, ssrc);
    ChecksMake(TableAt(probationType, events, n), events[n], ssrc);
  }

  lemma {:induction false} ChecksMake(t: Table, e: Event, ssrc: u32)
    requires IsCheck(e)
    ensures !Makes(t, e, ssrc)
  {
  }

  /** Event i told, and it and those after it up to n that told were at this time or later. */
  ghost predicate ToldFrom(kind: Kind, probationType: ProbationType, events: seq<Event>, i: nat, n: nat, ssrc: u32, low: int) {
    && i < n <= |events| && Told(kind, probationType, events, i, ssrc)
    && forall j :: i <= j < n && Told(kind, probationType, events, j, ssrc) ==> low <= TimeOf(events[j])
  }

  lemma {:induction false} LastTimeBounds(kind: Kind, probationType: ProbationType, events: seq<Event>, b: nat, n: nat, ssrc: u32, low: int, high: int)
    requires n <= |events|
    requires forall j :: b <= j < n && Told(kind, probationType, events, j, ssrc) ==> TimeOf(events[j]) < high
    ensures var last := LastTime(kind, probationType, events, b, n, ssrc);
            && (last.Some? ==> last.value < high)
            && forall i :: b <= i < n && ToldFrom(kind, probationType, events, i, n, ssrc, low) ==> last.Some? && low <= last.value
  {
    hide Told;
    if b < n && !Told(kind, probationType, events, n - 1, ssrc) {
      LastTimeBounds(kind, probationType, events, b, n - 1, ssrc, low, high);
      forall i: nat | b <= i < n && ToldFrom(kind, probationType, events, i, n, ssrc, low)
        ensures ToldFrom(kind, probationType, events, i, n - 1, ssrc, low)
      {
        assert i != n - 1;
      }
    }
  }

  lemma {:induction false} GeneralExact(probationType: ProbationType, events: seq<Event>, b: nat, n: nat, ssrc: u32)
    requires Since(probationType, events, b, n, ssrc) && n < |events| && events[n].GeneralCheck? && events[n].delay < events[n].now
    requires TableAt(probationType, events, n).own != Some(ssrc)
    ensures var last := LastTime(Any, probationType, events, b, n, ssrc);
            var heard := if last.Some? then last.value else 0;
            Has(TableAt(probationType, events, n + 1), ssrc) <==> events[n].now - events[n].delay <= heard
  {
    hide TableAt, Told, LastTime;
    TimeoutExact(probationType, events, b, n, ssrc);
    var check := events[n].now - events[n].delay;
    assert check % (0x1_0000_0000 * 1_000_000) == check;
  }

  /** With a clock that does not wrap: whoever gave a sign of life within the delay, and none that is older after it, stays. */
  lemma {:induction false} SignsKeep(probationType: ProbationType, events: seq<Event>, b: nat, n: nat, ssrc: u32, i: nat)
    requires Since(probationType, events, b, n, ssrc) && n < |events| && events[n].GeneralCheck? && events[n].delay < events[n].now
    requires TableAt(probationType, events, n).own != Some(ssrc)
    requires b <= i < n && ToldFrom(Any, probationType, events, i, n, ssrc, events[n].now - events[n].delay)
    ensures Has(TableAt(probationType, events, n + 1), ssrc)
  {
    hide TableAt, Told, LastTime, Since, ToldFrom;
    LastTimeBounds(Any, probationType, events, b, n, ssrc, events[n].now - events[n].delay, ERA);
    GeneralExact(probationType, events, b, n, ssrc);
  }

  /** Whoever gave no sign within the delay goes. */
  lemma {:induction false} SilenceRemoves(probationType: ProbationType, events: seq<Event>, b: nat, n: nat, ssrc: u32)
    requires Since(probationType, events, b, n, ssrc) && n < |events| && events[n].GeneralCheck? && events[n].delay < events[n].now
    requires TableAt(probationType, events, n).own != Some(ssrc)
    requires forall j :: b <= j < n && Told(Any, probationType, events, j, ssrc) ==> TimeOf(events[j]) < events[n].now - events[n].delay
    ensures !Has(TableAt(probationType, events, n + 1), ssrc)
  {
    hide TableAt, Told, LastTime, Since, ToldFrom;
    var check := events[n].now - events[n].delay;
    LastTimeBounds(Any, probationType, events, b, n, ssrc, check, check);
    GeneralExact(probationType, events, b, n, ssrc);
  }

  // ---------------------------------------------------------------- senders

  /** A pass that takes the source for no sender any more: its last data packet is more than the delay ago. */
  predicate Quiets(probationType: ProbationType, events: seq<Event>, b: nat, n: nat, ssrc: u32)
    requires n < |events|
  {
    match events[n]
    case SenderCheck(now, delay) => Silent(Data, probationType, events, b, n, ssrc, now, delay)
    case AllChecks(now, sender, _, _, _) => Silent(Data, probationType, events, b, n, ssrc, now, sender)
    case _ => false
  }

  /** A data packet made the source a sender, and no pass has cleared that since. */
  ghost predicate StillSends(probationType: ProbationType, events: seq<Event>, b: nat, n: nat, ssrc: u32)
    requires n <= |events|
  {
    exists i :: b <= i < n && Told(Data, probationType, events, i, ssrc)
      && forall j :: i < j < n ==> !Quiets(probationType, events, b, j, ssrc)
  }

  /** The sender flag, from the data packets and the passes alone. */
  lemma {:induction false} SenderExact(probationType: ProbationType, events: seq<Event>, b: nat, n: nat, ssrc: u32)
    requires Since(probationType, events, b, n, ssrc)
    ensures LifeAt(probationType, events, n, ssrc).sends <==> StillSends(probationType, events, b, n, ssrc)
    decreases n
  {
    hide TableAt, LifeAt, Makes, Leaves, Told, Quiets, Lived;
    var l := LifeAt(probationType, events, n - 1, ssrc);
    LifeExact(probationType, events, n - 1, ssrc);
    LivedSends(probationType, events, b, n - 1, ssrc);
    if b < n - 1 {
      SenderExact(probationType, events, b, n - 1, ssrc);
    }
  }

  lemma {:induction false} LivedSends(probationType: ProbationType, events: seq<Event>, b: nat, n: nat, ssrc: u32)
    requires n < |events| && (Since(probationType, events, b, n, ssrc) || LifeAt(probationType, events, n, ssrc) == UNKNOWN)
    ensures var l := LifeAt(probationType, events, n, ssrc);
            Lived(l, TableAt(probationType, events, n), events[n], ssrc).sends
              == (Told(Data, probationType, events, n, ssrc) || (l.sends && !Quiets(probationType, events, b, n, ssrc)))
  {
    hide TableAt, LifeAt, Counts, WeSend, SendsData, Reports, Listings, Joins, LastTime;
    if Since(probationType, events, b, n, ssrc) {
      LastTold(Data, probationType, events, b, n, ssrc);
    }
  }

  /** The entries that are senders. */
  function SenderIds(ss: seq<Source>): set<u32> {
    set s | s in ss && s.sender :: s.ssrc
  }

  lemma {:induction false} SenderIdsCount(ss: seq<Source>)
    requires Unique(ss)
    ensures |SenderIds(ss)| == SenderCount(ss)
  {
    if ss != [] {
      SenderIdsCount(ss[1..]);
      SenderIdsSplit(ss);
    }
  }

  lemma {:induction false} SenderIdsSplit(ss: seq<Source>)
    requires Unique(ss) && ss != []
    ensures SenderIds(ss) == SenderIds(ss[1..]) + if ss[0].sender then {ss[0].ssrc} else {}
    ensures ss[0].ssrc !in SenderIds(ss[1..])
  {
    var rest := ss[1..];
    assert ss == [ss[0]] + rest;
    forall s | s in rest
      ensures s.ssrc != ss[0].ssrc
    {
      var k :| 0 <= k < |rest| && rest[k] == s;
      assert rest[k] == ss[k + 1];
    }
  }

  /** The sender count of every moment of a run is the number of sources that send, as their data packets tell. */
  lemma {:induction false} SendersExact(probationType: ProbationType, events: seq<Event>, n: nat, ssrc: u32)
    requires n <= |events|
    ensures var t := TableAt(probationType, events, n);
            && t.senders == |SenderIds(t.sources)|
            && (ssrc in SenderIds(t.sources) <==> Has(t, ssrc) && LifeAt(probationType, events, n, ssrc).sends)
            && (ssrc in SenderIds(t.sources) <==>
                  exists b :: Since(probationType, events, b, n, ssrc) && StillSends(probationType, events, b, n, ssrc))
  {
    hide TableAt, StillSends;
    var t := TableAt(probationType, events, n);
    SenderIdsCount(t.sources);
    SenderIsListed(t, ssrc);
    if Has(t, ssrc) {
      var b := SomeEventMade(probationType, events, n, ssrc);
      SenderExact(probationType, events, b, n, ssrc);
      forall c | Since(probationType, events, c, n, ssrc)
        ensures StillSends(probationType, events, c, n, ssrc) <==> LifeAt(probationType, events, n, ssrc).sends
      {
        SenderExact(probationType, events, c, n, ssrc);
      }
    }
  }

  lemma {:induction false} SenderIsListed(t: Table, ssrc: u32)
    requires Sound(t)
    ensures ssrc in SenderIds(t.sources) <==> Has(t, ssrc) && LifeIn(H.EntryOf(t, ssrc)).sends
  {
    if ssrc in SenderIds(t.sources) {
      var k :| 0 <= k < |t.sources| && t.sources[k].ssrc == ssrc && t.sources[k].sender;
      Present(t.sources, k, ssrc);
    }
  }

  // ---------------------------------------------------------------- validity

  /** An event that shows that a source is real. */
  predicate Proves(t: Table, e: Event, ssrc: u32) {
    Counts(t, e, ssrc) || Describes(t, e, ssrc, CNAME) || Listings(t, e, ssrc) > 0 || Joins(t, e, ssrc)
  }

  /** A source is valid from the first such event on. */
  lemma {:induction false} ValidExact(probationType: ProbationType, events: seq<Event>, b: nat, n: nat, ssrc: u32)
    requires Since(probationType, events, b, n, ssrc)
    ensures LifeAt(probationType, events, n, ssrc).valid
       <==> exists i :: b <= i < n && Proves(TableAt(probationType, events, i), events[i], ssrc)
    decreases n
  {
    hide TableAt, LifeAt, Makes, Leaves, Lived, Proves;
    LifeExact(probationType, events, n - 1, ssrc);
    LivedValid(LifeAt(probationType, events, n - 1, ssrc), TableAt(probationType, events, n - 1), events[n - 1], ssrc);
    if b < n - 1 {
      ValidExact(probationType, events, b, n - 1, ssrc);
    }
  }

  lemma {:induction false} LivedValid(l: Life, t: Table, e: Event, ssrc: u32)
    ensures Lived(l, t, e, ssrc).valid == (l.valid || Proves(t, e, ssrc))
  {
    hide Counts, Describes, Listings, Joins;
  }

  /** Only valid sources are senders. */
  lemma {:induction false} SendersAreValid(probationType: ProbationType, events: seq<Event>, n: nat, ssrc: u32)
    requires n <= |events|
    ensures LifeAt(probationType, events, n, ssrc).sends ==> LifeAt(probationType, events, n, ssrc).valid
  {
    hide TableAt, LifeAt, Makes, Leaves, Lived;
    if n > 0 {
      SendersAreValid(probationType, events, n - 1, ssrc);
      LifeExact(probationType, events, n - 1, ssrc);
      OwnIsValid(probationType, events, n - 1, ssrc);
      LivedSender(LifeAt(probationType, events, n - 1, ssrc), TableAt(probationType, events, n - 1), events[n - 1], ssrc);
    } else {
      StartsUnknown(probationType, events, ssrc);
    }
  }

  lemma {:induction false} StartsUnknown(probationType: ProbationType, events: seq<Event>, ssrc: u32)
    ensures LifeAt(probationType, events, 0, ssrc) == UNKNOWN
  {
    NobodyNamed(probationType, events);
  }

  lemma {:induction false} LivedSender(l: Life, t: Table, e: Event, ssrc: u32)
    requires (l.sends ==> l.valid) && (t.own == Some(ssrc) ==> l.valid)
    ensures Lived(l, t, e, ssrc).sends ==> Lived(l, t, e, ssrc).valid
  {
    hide Counts, Describes, Listings, Joins;
  }

  lemma {:induction false} OwnIsValid(probationType: ProbationType, events: seq<Event>, n: nat, ssrc: u32)
    requires n <= |events|
    ensures TableAt(probationType, events, n).own == Some(ssrc) ==> LifeAt(probationType, events, n, ssrc).valid
  {
    hide TableAt;
    var t := TableAt(probationType, events, n);
    if t.own == Some(ssrc) {
      EntryAt(t, Find(t.sources, ssrc));
    }
  }

  // ---------------------------------------------------------------- the note

  /** A pass at which the note is more than the delay old. */
  predicate DropsNote(probationType: ProbationType, events: seq<Event>, b: nat, n: nat, ssrc: u32)
    requires n < |events|
  {
    match events[n]
    case NoteCheck(now, delay) => Silent(Note, probationType, events, b, n, ssrc, now, delay)
    case AllChecks(now, _, _, _, note) => Silent(Note, probationType, events, b, n, ssrc, now, note)
    case _ => false
  }

  /** A pass clears the note exactly then. */
  lemma {:induction false} NoteExact(probationType: ProbationType, events: seq<Event>, b: nat, n: nat, ssrc: u32)
    requires n < |events| && Since(probationType, events, b, n + 1, ssrc) && b < n && IsCheck(events[n])
    ensures LifeAt(probationType, events, n + 1, ssrc).note
         == if DropsNote(probationType, events, b, n, ssrc) then [] else LifeAt(probationType, events, n, ssrc).note
  {
    hide TableAt, LifeAt, Makes, Leaves, LastTime, Lived;
    LifeExact(probationType, events, n, ssrc);
    LivedByCheck(LifeAt(probationType, events, n, ssrc), TableAt(probationType, events, n), events[n], ssrc);
    LastTold(Note, probationType, events, b, n, ssrc);
  }

  // ---------------------------------------------------------------- the statistics

  /** The data packets of the source between b and n, as the statistics see them. */
  function Arrivals(probationType: ProbationType, events: seq<Event>, b: nat, n: nat, ssrc: u32): seq<R.Event>
    requires n <= |events|
  {
    if n <= b then []
    else
      var t, e := TableAt(probationType, events, n - 1), events[n - 1];
      Arrivals(probationType, events, b, n - 1, ssrc) + if SendsData(t, e, ssrc) then [R.Packet(ArrivalOf(t, e, ssrc))] else []
  }

  lemma {:induction false} LivedStats(l: Life, t: Table, e: Event, ssrc: u32)
    ensures Lived(l, t, e, ssrc).stats == if SendsData(t, e, ssrc) then Plain(Processed(l.stats, ArrivalOf(t, e, ssrc)).stats) else l.stats
  {
    hide Counts, WeSend, SendsData, Reports, Listings, Joins, Processed, ArrivalOf, Plain;
  }

  lemma {:induction false} OneArrival(events: seq<R.Event>, a: Arrival)
    ensures R.Run(events + [R.Packet(a)]).stats == Processed(R.Run(events).stats, a).stats
  {
    hide Processed;
    assert (events + [R.Packet(a)])[..|events|] == events;
  }

  /**
   An entry's statistics are those of the run of its data packets since it was made: the sequence numbers, the loss,
   the jitter and the probation of that run are those of the source in the table.
   */
  lemma {:induction false} StatsExact(probationType: ProbationType, events: seq<Event>, b: nat, n: nat, ssrc: u32)
    requires Since(probationType, events, b, n, ssrc)
    ensures LifeAt(probationType, events, n, ssrc).stats == Plain(R.Run(Arrivals(probationType, events, b, n, ssrc)).stats)
    decreases n
  {
    hide TableAt, LifeAt, Lived, Makes, Leaves, Processed, ArrivalOf, Welcome, R.Run, Plain;
    var t, e := TableAt(probationType, events, n - 1), events[n - 1];
    LifeExact(probationType, events, n - 1, ssrc);
    LivedStats(LifeAt(probationType, events, n - 1, ssrc), t, e, ssrc);
    if b < n - 1 {
      StatsExact(probationType, events, b, n - 1, ssrc);
    } else {
      NoArrivals();
    }
    var before := Arrivals(probationType, events, b, n - 1, ssrc);
    assert before + [] == before;
    if SendsData(t, e, ssrc) {
      OneArrival(before, ArrivalOf(t, e, ssrc));
      PlainProcessed(R.Run(before).stats, ArrivalOf(t, e, ssrc));
    }
  }

  lemma {:induction false} NoArrivals()
    ensures UNKNOWN.stats == Plain(R.Run([]).stats)
  {
  }
}
