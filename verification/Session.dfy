/**
 The session object, over the objects that it holds: the source table with its timer, the two packet
 builders, the goodbyes that wait, and the addresses that collided.
 */
module RtpSession {
  import opened Bytes
  import B = RtcpBuild
  import opened RtcpBuildRuns
  import C = RtcpCompound
  import opened SourceStats
  import D = SourceData
  import opened SourceTable
  import opened CompoundActions
  import T = SourceTableRuns
  import RP = RtpPacket
  import S = Scheduler
  import P = PacketRound
  import Q = PacketRoundRuns
  import RtcpTimer
  import opened Sources
  import RtcpBuilder
  import RtcpPacketBuilder
  import PacketSender
  import opened TimerCalls
  import opened SessionStep
  import opened SessionRuns

  /** A compound packet that was built: its bytes and its packet list, which do not change any more. */
  type CompoundPacket = (bytes, seq<C.PacketRef>)

  ghost predicate Holds(packs: seq<CompoundPacket>, contents: seq<B.Content>) {
    |packs| == |contents| && forall i :: 0 <= i < |packs| ==> B.ContentOk(contents[i]) && packs[i] == Output(contents[i])
  }

  ghost predicate Sends(content: Option<B.Content>, sent: Option<CompoundPacket>) {
    match content
    case None => sent == None
    case Some(c) => B.ContentOk(c) && sent == Some(Output(c))
  }

  /** Random numbers are between 0 and 1, and the clock does not go back within a call. */
  predicate DrawsOk(raws: seq<Raw>) {
    forall i :: 0 <= i < |raws| ==> 0.0 <= raws[i].draw <= 1.0
  }

  predicate PollOk(poll: Poll) {
    && DrawsOk(poll.raws) && poll.clock <= poll.later
    && 0.0 <= poll.draw <= 1.0 && 0.0 <= poll.draw2 <= 1.0 && 0.0 <= poll.byeDraw <= 1.0
  }

  class RtpSession {
    const sources: RtpSources
    const packetBuilder: PacketSender.PacketBuilder
    const rtcpBuilder: RtcpPacketBuilder.PacketBuilder
    const acceptOwnPackets: bool
    const useSrByeIfPossible: bool
    const multipliers: Multipliers
    var sentPackets: bool
    var byePackets: seq<CompoundPacket>
    var collisionList: seq<(Address, RtpTime)>
    ghost var byes: seq<B.Content>
    ghost var built: seq<B.Content>
    ghost var gone: seq<Departure>

    ghost function Settings(): Config
      reads this, rtcpBuilder
    {
      Config(rtcpBuilder.maxPacketSize, rtcpBuilder.cname, acceptOwnPackets, useSrByeIfPossible)
    }

    ghost function Model(): Session
      reads this, sources, sources.entries, StatsOf(sources.entries), sources.timer, packetBuilder, rtcpBuilder
    {
      Session(Settings(), sources.Model(), sources.timer.Model(), packetBuilder.ssrc, sentPackets, byes,
              collisionList, rtcpBuilder.State(), rtcpBuilder.texts, built, gone)
    }

    ghost predicate Valid()
      reads this, sources, sources.entries, StatsOf(sources.entries), sources.timer, packetBuilder, packetBuilder.csrcs, rtcpBuilder
    {
      && sources.Valid() && packetBuilder.Valid() && rtcpBuilder.Valid() && rtcpBuilder.init
      && S.Usable(sources.timer.params) && Holds(byePackets, byes)
    }

    lemma ModelReady()
      requires Valid()
      ensures Ready(Model()) && T.Sound(Model().table)
      ensures Model().table.own.Some? ==> Has(Model().table, Model().table.own.value)
    {
      hide T.Sound, B.ContentOk, Output, S.Usable, States, Q.RoundOk;
      T.OwnHas(sources.Model());
    }

    /** The fields that decisions are made on. */
    lemma Fields()
      requires Valid()
      ensures |byePackets| == |Model().byes| && sentPackets == Model().sentPackets
      ensures acceptOwnPackets == Model().config.acceptOwn && |sources.log| == |Model().table.log|
    {
    }

    lemma FirstBye()
      requires Valid() && byePackets != []
      ensures byes != [] && Model().byes == byes && B.ContentOk(byes[0]) && |byePackets[0].0| == B.Size(byes[0])
    {
      hide B.ContentOk, B.Size, Output;
      OutputSize(byes[0]);
    }

    /** The parts are there, but nothing was set up. */
    ghost predicate Blank()
      reads this, sources, sources.entries, StatsOf(sources.entries), sources.timer, packetBuilder, packetBuilder.csrcs, rtcpBuilder
    {
      && sources.Valid() && sources.Model() == EmptyTable(sources.probationType) && packetBuilder.Valid() && !packetBuilder.init
      && rtcpBuilder.Valid() && !rtcpBuilder.init && sources.timer.Model() == S.Reset(sources.timer.Model()) && S.Usable(sources.timer.params)
      && !sentPackets && byePackets == [] && collisionList == [] && byes == [] && built == [] && gone == []
    }

    constructor (probation: D.ProbationType, params: S.Params, acceptOwn: bool, useSr: bool, m: Multipliers)
      requires S.Usable(params)
      ensures Blank() && sources.probationType == probation && sources.timer.params == params
      ensures acceptOwnPackets == acceptOwn && useSrByeIfPossible == useSr && multipliers == m
      ensures fresh(sources) && fresh(sources.timer) && fresh(packetBuilder) && fresh(packetBuilder.csrcs) && fresh(rtcpBuilder)
    {
      hide S.Usable, T.Sound;
      var timer := new RtcpTimer.RtcpScheduler(params);
      sources := new RtpSources(probation, timer);
      packetBuilder := new PacketSender.PacketBuilder();
      rtcpBuilder := new RtcpPacketBuilder.PacketBuilder();
      acceptOwnPackets, useSrByeIfPossible, multipliers := acceptOwn, useSr, m;
      sentPackets, byePackets, collisionList, byes, built, gone := false, [], [], [], [], [];
    }

    /** The builders are set up, and the own entry is made for the SSRC that the packet builder has drawn. */
    method Create(maxPacketSize: nat, tsUnit: real, cname: bytes, ssrc: u32, timestamp: u32, seqNr: u16) returns (created: bool)
      requires Blank() && maxPacketSize < RtcpBuilder.SIZE_T
      modifies sources, packetBuilder, rtcpBuilder
      ensures created <==> B.MIN_PACKET_SIZE <= maxPacketSize && tsUnit >= 0.0
      ensures created ==>
                && Valid() && Model() == NewSession(Settings(), sources.probationType, ssrc, sources.timer.Model())
                && Settings() == Config(maxPacketSize, cname[..if |cname| > 255 then 255 else |cname|], acceptOwnPackets, useSrByeIfPossible)
                && Coupled(Model()) && ByesAgree(Model())
      ensures fresh(sources.entries) && fresh(StatsOf(sources.entries))
    {
      hide States, Separate, T.Sound, RtcpTimer.RtcpScheduler.Model, RtcpPacketBuilder.PacketBuilder.State, RtcpPacketBuilder.PacketBuilder.Valid, PacketSender.PacketBuilder.Valid, S.Usable, Holds, CreateOwn, Coupled, NewSession;
      ghost var t, sched := sources.Model(), sources.timer.Model();
      if maxPacketSize < B.MIN_PACKET_SIZE {
        return false;
      }
      SetUpSender(maxPacketSize, ssrc, timestamp, seqNr);
      var own := sources.CreateOwnSSRC(ssrc);
      assert sources.Model() == CreateOwn(t, ssrc).0 && sources.timer.Model() == sched;
      created := SetUpReports(maxPacketSize, tsUnit, cname);
      if created {
        sources.timer.ParamsOf();
        NothingHeld();
        NewIs(Model(), sources.probationType, sched);
        NewSessionKeeps(Settings(), sources.probationType, ssrc, sched);
      }
    }

    method SetUpSender(maxPacketSize: nat, newSsrc: u32, timestamp: u32, seqNr: u16)
      requires sources.Valid() && packetBuilder.Valid() && !packetBuilder.init && maxPacketSize > 0
      modifies packetBuilder
      ensures packetBuilder.Valid() && packetBuilder.ssrc == newSsrc
      ensures sources.Valid() && sources.Model() == old(sources.Model()) && sources.timer.Model() == old(sources.timer.Model())
    {
      hide States, Separate, T.Sound, RtcpTimer.RtcpScheduler.Model, RtcpPacketBuilder.PacketBuilder.State, RtcpPacketBuilder.PacketBuilder.Valid, PacketSender.PacketBuilder.Valid, S.Usable, Holds;
      ghost var t, sched := sources.Model(), sources.timer.Model();
      var first := packetBuilder.Init(maxPacketSize, newSsrc, timestamp, seqNr);
      assert packetBuilder.Numbers().ssrc == newSsrc;
      assert sources.Model() == t && sources.timer.Model() == sched;
    }

    method SetUpReports(maxPacketSize: nat, tsUnit: real, cname: bytes) returns (ok: bool)
      requires sources.Valid() && rtcpBuilder.Valid() && !rtcpBuilder.init && B.MIN_PACKET_SIZE <= maxPacketSize < RtcpBuilder.SIZE_T
      modifies rtcpBuilder
      ensures rtcpBuilder.Valid() && (ok <==> tsUnit >= 0.0)
      ensures ok ==>
                && rtcpBuilder.init && rtcpBuilder.State() == P.Round(0, map[], {}, {}, false, true) && rtcpBuilder.texts == map[]
                && rtcpBuilder.maxPacketSize == maxPacketSize && rtcpBuilder.cname == cname[..if |cname| > 255 then 255 else |cname|]
      ensures sources.Valid() && sources.Model() == old(sources.Model()) && sources.timer.Model() == old(sources.timer.Model())
    {
      hide States, Separate, T.Sound, RtcpTimer.RtcpScheduler.Model, RtcpPacketBuilder.PacketBuilder.State, RtcpPacketBuilder.PacketBuilder.Valid, PacketSender.PacketBuilder.Valid, S.Usable, Holds;
      ghost var t, sched := sources.Model(), sources.timer.Model();
      var second := rtcpBuilder.Init(maxPacketSize, tsUnit, cname);
      ok := second == RtcpPacketBuilder.Built;
      assert sources.Model() == t && sources.timer.Model() == sched;
    }

    // ------------------------------------------------------------ one call of a part

    method SourceGroup() returns (g: S.Group)
      requires Valid()
      ensures g == GroupOf(Model().table)
    {
      hide T.Sound, WeSend, Holds, Q.RoundOk;
      var weSend := sources.OwnIsSender();
      g := S.Group(sources.senderCount, sources.activeCount, weSend);
    }

    method TellData(packet: RP.Packet, raw: Raw, from: Option<Address>)
      requires Valid()
      modifies sources, sources.entries, StatsOf(sources.entries)
      ensures Valid() && Model() == old(Model()).(table := RtpPacketIn(old(Model()).table, packet, raw.receivedAt, raw.tsUnit, from).0)
      ensures forall i :: 0 <= i < |sources.entries| ==>
                sources.entries[i] in old(sources.entries) || (fresh(sources.entries[i]) && fresh(sources.entries[i].stats))
    {
      hide States, Separate, T.Sound, RtcpTimer.RtcpScheduler.Model, RtcpPacketBuilder.PacketBuilder.State, RtcpPacketBuilder.PacketBuilder.Valid, PacketSender.PacketBuilder.Valid, S.Usable, Holds, RtpPacketIn;
      ghost var sched := sources.timer.Model();
      var stored := sources.ProcessRTPPacket(packet, raw.receivedAt, raw.tsUnit, from);
      assert sources.timer.Model() == sched;
    }

    method TellControl(parts: seq<Part>, raw: Raw, from: Option<Address>) returns (ok: bool)
      requires Valid()
      modifies sources, sources.entries, StatsOf(sources.entries), sources.timer
      ensures Valid()
      ensures var s := old(Model());
              var (t, status) := Perform(s.table, AllActions(parts, s.table.own), raw.receivedAt, from);
              && Model() == s.(table := t, sched := TimerHears(s.table, s.sched, parts, |raw.data|, raw.receivedAt, raw.clock, from))
              && ok == (status == Done)
      ensures forall i :: 0 <= i < |sources.entries| ==>
                sources.entries[i] in old(sources.entries) || (fresh(sources.entries[i]) && fresh(sources.entries[i].stats))
    {
      hide States, Separate, T.Sound, RtcpPacketBuilder.PacketBuilder.State, RtcpPacketBuilder.PacketBuilder.Valid, PacketSender.PacketBuilder.Valid, S.Usable, Holds, Perform, AllActions, TimerHears;
      HearsParams(Model(), parts, raw, from);
      var status := sources.ProcessRTCPCompoundPacket(parts, |raw.data|, raw.receivedAt, raw.clock, from);
      ok := status == Done;
    }

    method DeleteOwnEntry() returns (status: SourceTable.Verdict)
      requires Valid()
      modifies sources
      ensures Valid() && Model().table.own == None
      ensures old(Model()).table.own.Some? ==> Has(old(Model()).table, old(Model()).table.own.value)
      ensures Model() == old(Model()).(table := DeleteOwn(old(Model()).table).0) && status == DeleteOwn(old(Model()).table).1
      ensures forall i :: 0 <= i < |sources.entries| ==> sources.entries[i] in old(sources.entries)
    {
      hide States, Separate, T.Sound, RtcpTimer.RtcpScheduler.Model, RtcpPacketBuilder.PacketBuilder.State, RtcpPacketBuilder.PacketBuilder.Valid, PacketSender.PacketBuilder.Valid, S.Usable, Holds, Has;
      ModelReady();
      ghost var sched := sources.timer.Model();
      status := sources.DeleteOwnSSRC();
      assert sources.timer.Model() == sched;
    }

    method CreateOwnEntry(ssrc: u32) returns (status: SourceTable.Verdict)
      requires Valid()
      modifies sources
      ensures Valid() && Model() == old(Model()).(table := CreateOwn(old(Model()).table, ssrc).0)
      ensures status == CreateOwn(old(Model()).table, ssrc).1
      ensures forall i :: 0 <= i < |sources.entries| ==>
                sources.entries[i] in old(sources.entries) || (fresh(sources.entries[i]) && fresh(sources.entries[i].stats))
    {
      hide States, Separate, T.Sound, RtcpTimer.RtcpScheduler.Model, RtcpPacketBuilder.PacketBuilder.State, RtcpPacketBuilder.PacketBuilder.Valid, PacketSender.PacketBuilder.Valid, S.Usable, Holds, CreateOwn;
      ghost var sched := sources.timer.Model();
      status := sources.CreateOwnSSRC(ssrc);
      assert sources.timer.Model() == sched;
    }

    /** The packet builder goes over to a new SSRC, with numbers of its own. */
    method Renumber(ssrc: u32)
      requires Valid()
      modifies packetBuilder
      ensures Valid() && Model() == old(Model()).(ssrc := ssrc)
    {
      hide States, Separate, T.Sound, RtcpTimer.RtcpScheduler.Model, RtcpPacketBuilder.PacketBuilder.State, RtcpPacketBuilder.PacketBuilder.Valid, PacketSender.PacketBuilder.Valid, S.Usable, Holds;
      DrawNumbers(ssrc);
    }

    method DrawNumbers(ssrc: u32)
      requires sources.Valid() && packetBuilder.Valid()
      modifies packetBuilder`ssrc, packetBuilder`timestamp, packetBuilder`seqNr, packetBuilder`numPackets, packetBuilder`numPayloadBytes
      ensures packetBuilder.Valid() && packetBuilder.ssrc == ssrc
      ensures sources.Valid() && sources.Model() == old(sources.Model()) && sources.timer.Model() == old(sources.timer.Model())
    {
      hide States, Separate, T.Sound, RtcpTimer.RtcpScheduler.Model, RtcpPacketBuilder.PacketBuilder.State, RtcpPacketBuilder.PacketBuilder.Valid, PacketSender.PacketBuilder.Valid, S.Usable, RtpSources.Model, RtpSources.Valid;
      var timestamp: u32, seqNr: u16 := *, *;
      label before:
      packetBuilder.NewNumbers(ssrc, timestamp, seqNr);
      assert packetBuilder.Numbers().ssrc == ssrc;
      Untouched@before(sources);
    }

    method SetSent(sent: bool)
      requires Valid()
      modifies `sentPackets
      ensures Valid() && Model() == old(Model()).(sentPackets := sent)
    {
      hide States, Separate, T.Sound, RtcpTimer.RtcpScheduler.Model, RtcpPacketBuilder.PacketBuilder.State, RtcpPacketBuilder.PacketBuilder.Valid, PacketSender.PacketBuilder.Valid, S.Usable, Holds;
      ghost var t, sched := sources.Model(), sources.timer.Model();
      sentPackets := sent;
      assert sources.Model() == t && sources.timer.Model() == sched;
    }

    method ScheduleBye(size: nat, clock: int, draw: real)
      requires Valid() && 0.0 <= draw <= 1.0
      modifies sources.timer
      ensures Valid() && S.Usable(old(Model()).sched.params)
      ensures Model() == old(Model()).(sched := S.ScheduleBye(old(Model()).sched, GroupOf(old(Model()).table), size, clock, draw))
    {
      hide States, Separate, T.Sound, RtcpTimer.RtcpScheduler.Model, RtcpPacketBuilder.PacketBuilder.State, RtcpPacketBuilder.PacketBuilder.Valid, PacketSender.PacketBuilder.Valid, S.Usable, Holds, GroupOf, S.ScheduleBye;
      ghost var t, sched := sources.Model(), sources.timer.Model();
      sources.timer.ParamsOf();
      ByeParams(sched, GroupOf(t), size, clock, draw);
      var group := SourceGroup();
      assert sources.timer.Model() == sched && sources.Model() == t;
      sources.timer.ScheduleBYEPacket(group, size, clock, draw);
      sources.timer.ParamsOf();
      assert sources.Model() == t;
    }

    /** The own entry is a sender once a data packet was sent. */
    method NoteSent(now: RtpTime)
      requires Valid()
      modifies sources, sources.entries, StatsOf(sources.entries)
      ensures Valid() && sources.entries == old(sources.entries)
      ensures old(Model()).table.own.Some? ==> Has(old(Model()).table, old(Model()).table.own.value)
      ensures Model() == old(Model()).(table := SentPacket(old(Model()).table, now))
    {
      hide States, Separate, T.Sound, RtcpTimer.RtcpScheduler.Model, RtcpPacketBuilder.PacketBuilder.State, RtcpPacketBuilder.PacketBuilder.Valid, PacketSender.PacketBuilder.Valid, S.Usable, Holds, SentPacket, Has;
      ModelReady();
      ghost var sched := sources.timer.Model();
      sources.SentRTPPacket(now);
      assert sources.timer.Model() == sched;
    }

    method RemoveOld(poll: Poll)
      requires Valid()
      modifies sources, sources.entries, StatsOf(sources.entries), sources.timer
      ensures Valid()
      ensures var s, d := old(Model()), poll.delays;
              Model() == s.(table := MultipleTimeouts(s.table, poll.tick, d.sender, d.bye, d.general, d.note),
                            sched := TimerSwept(s.table, s.sched, PassOf(s.table.own, poll), poll.clock))
      ensures forall i :: 0 <= i < |sources.entries| ==> sources.entries[i] in old(sources.entries)
    {
      hide States, Separate, T.Sound, RtcpTimer.RtcpScheduler.Model, RtcpPacketBuilder.PacketBuilder.State, RtcpPacketBuilder.PacketBuilder.Valid, PacketSender.PacketBuilder.Valid, S.Usable, Holds, MultipleTimeouts, TimerSwept, FusedPass, RtpSources.Model, RtpSources.Valid;
      sources.timer.ParamsOf();
      SweptParams(sources.Model(), sources.timer.Model(), PassOf(sources.Model().own, poll), poll.clock);
      var d := poll.delays;
      sources.MultipleTimeouts(poll.tick, d.sender, d.bye, d.general, d.note, poll.clock);
      sources.timer.ParamsOf();
    }

    method IsTime(poll: Poll) returns (r: bool)
      requires Valid() && PollOk(poll)
      modifies sources.timer
      ensures Valid() && S.Usable(old(Model()).sched.params)
      ensures var (sched, due) := S.Expire(old(Model()).sched, GroupOf(old(Model()).table), poll.clock, poll.later, poll.draw, poll.draw2);
              Model() == old(Model()).(sched := sched) && r == due
    {
      hide States, Separate, T.Sound, RtcpTimer.RtcpScheduler.Model, RtcpPacketBuilder.PacketBuilder.State, RtcpPacketBuilder.PacketBuilder.Valid, PacketSender.PacketBuilder.Valid, S.Usable, Holds, GroupOf, S.Expire;
      ghost var t, sched := sources.Model(), sources.timer.Model();
      sources.timer.ParamsOf();
      ExpireFlags(sched, GroupOf(t), poll.clock, poll.later, poll.draw, poll.draw2);
      var group := SourceGroup();
      assert sources.timer.Model() == sched && sources.Model() == t;
      r := sources.timer.IsTime(group, poll.clock, poll.later, poll.draw, poll.draw2);
      sources.timer.ParamsOf();
      assert sources.Model() == t;
    }

    method AnalyseOutgoing(isBye: bool, size: nat)
      requires Valid()
      modifies sources.timer
      ensures Valid() && Model() == old(Model()).(sched := S.Outgoing(old(Model()).sched, isBye, size))
    {
      hide States, Separate, T.Sound, RtcpTimer.RtcpScheduler.Model, RtcpPacketBuilder.PacketBuilder.State, RtcpPacketBuilder.PacketBuilder.Valid, PacketSender.PacketBuilder.Valid, S.Usable, Holds;
      ghost var t, sched := sources.Model(), sources.timer.Model();
      sources.timer.ParamsOf();
      sources.timer.AnalyseOutgoing(isBye, size);
      sources.timer.ParamsOf();
      assert sources.Model() == t;
    }

    method OwnIsSender() returns (sends: bool)
      requires Valid()
      ensures Valid() && Model() == old(Model()) && sends == WeSend(Model().table)
    {
      hide States, Separate, T.Sound, RtcpTimer.RtcpScheduler.Model, RtcpPacketBuilder.PacketBuilder.State, RtcpPacketBuilder.PacketBuilder.Valid, PacketSender.PacketBuilder.Valid, S.Usable, Holds, WeSend;
      ghost var t, sched := sources.Model(), sources.timer.Model();
      sends := sources.OwnIsSender();
      assert sources.Model() == t && sources.timer.Model() == sched;
    }

    method OwnCollisionSince(known: nat) returns (r: bool)
      requires Valid()
      ensures Valid() && Model() == old(Model()) && r == OwnCollided(Model().table, known)
    {
      hide States, T.Sound;
      r := exists i :: known <= i < |sources.log| && sources.log[i].Collision? && sources.ownData != null && sources.log[i].ssrc == sources.ownData.ssrc;
    }

    // ------------------------------------------------------------ the queue of goodbyes

    method BuildBye(raw: Raw, sends: bool) returns (size: nat)
      requires Valid() && sends == WeSend(Model().table)
      modifies `byePackets, `byes, `built
      ensures Valid() && Ready(old(Model()))
      ensures var o := P.BuildBye(old(Model()).config.maxPacketSize, ByeSituation(old(Model()), raw), []);
              && o.Some? && size == B.Size(o.value)
              && Model() == old(Model()).(byes := old(Model()).byes + [o.value], built := old(Model()).built + [o.value])
    {
      hide States, Separate, T.Sound, RtcpTimer.RtcpScheduler.Model, RtcpPacketBuilder.PacketBuilder.State, RtcpPacketBuilder.PacketBuilder.Valid, PacketSender.PacketBuilder.Valid, S.Usable, Holds, WeSend, P.BuildBye, B.Size, B.ContentOk, Output;
      ModelReady();
      var situation := P.Situation(packetBuilder.ssrc, if useSrByeIfPossible && sends then Some(raw.info) else None,
                                   rtcpBuilder.cname, rtcpBuilder.texts, [], 0, 0, []);
      var pack := MakeBye(situation);
      ghost var t, sched := sources.Model(), sources.timer.Model();
      ghost var content := P.BuildBye(rtcpBuilder.maxPacketSize, situation, []).value;
      OneHeldMore(byePackets, byes, content);
      byePackets, size := byePackets + [pack], |pack.0|;
      byes, built := byes + [content], built + [content];
      assert sources.Model() == t && sources.timer.Model() == sched;
    }

    method MakeBye(situation: P.Situation) returns (pack: CompoundPacket)
      requires Valid() && rtcpBuilder.Suits(situation)
      ensures Valid() && Model() == old(Model()) && P.SituationOk(situation)
      ensures var o := P.BuildBye(rtcpBuilder.maxPacketSize, situation, []); o.Some? && pack == Output(o.value)
    {
      hide States, Separate, T.Sound, RtcpTimer.RtcpScheduler.Model, RtcpPacketBuilder.PacketBuilder.State, RtcpPacketBuilder.PacketBuilder.Valid, PacketSender.PacketBuilder.Valid, S.Usable, Holds, P.BuildBye, B.Size, B.ContentOk, Output;
      ghost var t, sched := sources.Model(), sources.timer.Model();
      var status, packet := rtcpBuilder.BuildBYEPacket(situation, []);
      pack := (packet.compoundPacket[..], packet.rtcpPackList);
      assert sources.Model() == t && sources.timer.Model() == sched;
    }

    /** The first goodbye leaves the queue. */
    method PopBye(ok: bool) returns (pack: CompoundPacket, size: nat)
      requires Valid() && Model().byes != []
      modifies `byePackets, `byes, `gone
      ensures Valid()
      ensures var s := old(Model());
              && B.ContentOk(s.byes[0]) && pack == Output(s.byes[0]) && size == B.Size(s.byes[0])
              && Model() == s.(byes := s.byes[1..], gone := s.gone + [Departure(s.byes[0], ok)])
    {
      hide States, Separate, T.Sound, RtcpTimer.RtcpScheduler.Model, RtcpPacketBuilder.PacketBuilder.State, RtcpPacketBuilder.PacketBuilder.Valid, PacketSender.PacketBuilder.Valid, S.Usable, B.ContentOk, Output, B.Size;
      ghost var t, sched := sources.Model(), sources.timer.Model();
      pack := byePackets[0];
      OutputSize(byes[0]);
      size := |pack.0|;
      gone := gone + [Departure(byes[0], ok)];
      byePackets, byes := byePackets[1..], byes[1..];
      assert sources.Model() == t && sources.timer.Model() == sched;
    }

    method BuildReport(poll: Poll, sends: bool) returns (pack: CompoundPacket, size: nat, ghost content: B.Content)
      requires Valid() && sends == WeSend(Model().table)
      modifies rtcpBuilder
      ensures Valid() && Ready(old(Model()))
      ensures var s := old(Model());
              var o := P.BuildNext(s.config.maxPacketSize, s.round, NextSituation(s, poll));
              && o.Filled? && content == o.content && pack == Output(content) && size == B.Size(content) && Model() == s.(round := o.round)
    {
      hide States, Separate, T.Sound, RtcpTimer.RtcpScheduler.Model, RtcpPacketBuilder.PacketBuilder.State, RtcpPacketBuilder.PacketBuilder.Valid, PacketSender.PacketBuilder.Valid, S.Usable, Holds, WeSend, P.BuildNext, B.Size, B.ContentOk, Output;
      ModelReady();
      var situation := P.Situation(packetBuilder.ssrc, if sends then Some(poll.info) else None, rtcpBuilder.cname, rtcpBuilder.texts,
                                   poll.blocks, sources.totalCount, poll.skipped, poll.again);
      pack, size, content := MakeReport(situation);
    }

    lemma SuitsOk(situation: P.Situation)
      requires rtcpBuilder.Valid() && rtcpBuilder.init && rtcpBuilder.Suits(situation)
      ensures P.SituationOk(situation)
    {
    }

    method MakeReport(situation: P.Situation) returns (pack: CompoundPacket, size: nat, ghost content: B.Content)
      requires sources.Valid() && rtcpBuilder.Valid() && rtcpBuilder.init && rtcpBuilder.Suits(situation)
      modifies rtcpBuilder`doing, rtcpBuilder`processed, rtcpBuilder`sdesBuildCount, rtcpBuilder`processingSdes, rtcpBuilder`firstPacket
      ensures rtcpBuilder.Valid() && P.SituationOk(situation)
      ensures var o := P.BuildNext(rtcpBuilder.maxPacketSize, old(rtcpBuilder.State()), situation);
              && o.Filled? && content == o.content && pack == Output(content) && size == B.Size(content) && rtcpBuilder.State() == o.round
      ensures sources.Valid() && sources.Model() == old(sources.Model()) && sources.timer.Model() == old(sources.timer.Model())
    {
      hide States, Separate, T.Sound, RtcpTimer.RtcpScheduler.Model, RtcpPacketBuilder.PacketBuilder.State, RtcpPacketBuilder.PacketBuilder.Valid, PacketSender.PacketBuilder.Valid, S.Usable, RtpSources.Model, RtpSources.Valid, P.BuildNext, B.Size, B.ContentOk, Output;
      SuitsOk(situation);
      ghost var o := P.BuildNext(rtcpBuilder.maxPacketSize, rtcpBuilder.State(), situation);
      label before:
      var status, packet := rtcpBuilder.BuildNextPacket(situation);
      content := o.content;
      pack := (packet.compoundPacket[..], packet.rtcpPackList);
      OutputSize(content);
      size := |pack.0|;
      Untouched@before(sources);
    }

    // ------------------------------------------------------------ collisions

    /** The address is found and its time set, or it joins the list. */
    method UpdateAddress(a: Address, at: RtpTime) returns (created: bool)
      requires Valid()
      modifies `collisionList
      ensures Valid() && created == NoteCollision(old(Model()).collisions, a, at).1
      ensures Model() == old(Model()).(collisions := NoteCollision(old(Model()).collisions, a, at).0)
    {
      hide States, Separate, T.Sound, RtcpTimer.RtcpScheduler.Model, RtcpPacketBuilder.PacketBuilder.State, RtcpPacketBuilder.PacketBuilder.Valid, PacketSender.PacketBuilder.Valid, S.Usable, Holds;
      ghost var t, sched := sources.Model(), sources.timer.Model();
      var k := 0;
      while k < |collisionList| && collisionList[k].0 != a
        invariant 0 <= k <= |collisionList|
        invariant forall i :: 0 <= i < k ==> collisionList[i].0 != a
      {
        k := k + 1;
      }
      AddressAt(collisionList, a, k);
      created := k == |collisionList|;
      collisionList := if created then collisionList + [(a, at)] else collisionList[k := (a, at)];
      assert sources.Model() == t && sources.timer.Model() == sched;
    }

    /** What is too old is erased from the list. */
    method TimeoutCollisions(check: RtpTime)
      requires Valid()
      modifies `collisionList
      ensures Valid() && Model() == old(Model()).(collisions := ForgetCollisions(old(Model()).collisions, check))
    {
      hide States, Separate, T.Sound, RtcpTimer.RtcpScheduler.Model, RtcpPacketBuilder.PacketBuilder.State, RtcpPacketBuilder.PacketBuilder.Valid, PacketSender.PacketBuilder.Valid, S.Usable, Holds;
      ghost var t, sched := sources.Model(), sources.timer.Model();
      var left := EraseOld(collisionList, check);
      collisionList := left;
      assert sources.Model() == t && sources.timer.Model() == sched;
    }

    /** Random numbers are drawn until one comes that no entry has. */
    method FindFreeSsrc(draws: seq<u32>) returns (free: Option<u32>)
      requires Valid()
      ensures Valid() && Model() == old(Model()) && free == FreshSsrc(Model().table, draws)
    {
      hide States, Separate, T.Sound, RtcpTimer.RtcpScheduler.Model, RtcpPacketBuilder.PacketBuilder.State, RtcpPacketBuilder.PacketBuilder.Valid, PacketSender.PacketBuilder.Valid, S.Usable, Holds, Has;
      ghost var t, sched := sources.Model(), sources.timer.Model();
      var i := 0;
      assert draws[0..] == draws;
      free := None;
      while i < |draws| && free == None
        invariant 0 <= i <= |draws| && sources.Model() == t && sources.timer.Model() == sched
        invariant FreshSsrc(t, draws) == if free.Some? then free else FreshSsrc(t, draws[i..])
      {
        assert draws[i..][0] == draws[i] && draws[i..][1..] == draws[i + 1..];
        var found := sources.GotEntry(draws[i]);
        assert sources.Model() == t && sources.timer.Model() == sched;
        if !found {
          free := Some(draws[i]);
        }
        i := i + 1;
      }
    }

    /** The builders and the source table change over to a new SSRC. */
    method ChangeOwnSSRC(raw: Raw) returns (failure: Failure)
      requires Valid()
      modifies `sentPackets, sources, packetBuilder
      ensures Valid() && (old(Model()).table.own.Some? ==> Has(old(Model()).table, old(Model()).table.own.value))
      ensures (Model(), failure) == ChangeSsrc(old(Model()), raw)
      ensures forall i :: 0 <= i < |sources.entries| ==>
                sources.entries[i] in old(sources.entries) || (fresh(sources.entries[i]) && fresh(sources.entries[i].stats))
    {
      hide RtpSession.Model, RtpSession.Valid, FreshSsrc, DeleteOwn, CreateOwn, Has;
      ModelReady();
      var free := FindFreeSsrc(raw.draws);
      if free == None {
        return NoFreeSsrc;
      }
      Renumber(free.value);
      SetSent(false);
      var status := DeleteOwnEntry();
      if status != Done {
        return NoOwnEntry;
      }
      status := CreateOwnEntry(free.value);
      failure := if status != Done then SsrcTaken else NoFailure;
    }

    /** The goodbye for the old SSRC joins the queue, and the first one is scheduled. */
    method QueueByePacket(raw: Raw)
      requires Valid() && 0.0 <= raw.draw <= 1.0
      modifies `byePackets, `byes, `built, sources.timer
      ensures Valid() && Ready(old(Model())) && (Model(), NoFailure) == QueueBye(old(Model()), raw)
    {
      hide RtpSession.Model, RtpSession.Valid, Ready, P.BuildBye, B.Size, WeSend, GroupOf, ByeSituation, S.ScheduleBye;
      ModelReady();
      var sends := OwnIsSender();
      var size := BuildBye(raw, sends);
      Fields();
      if |byePackets| == 1 {
        ScheduleBye(size, raw.clock, raw.draw);
      }
    }

    method HandleCollision(raw: Raw) returns (failure: Failure)
      requires Valid() && 0.0 <= raw.draw <= 1.0
      modifies this, sources, sources.timer, packetBuilder
      ensures Valid() && Ready(old(Model())) && (old(Model()).table.own.Some? ==> Has(old(Model()).table, old(Model()).table.own.value))
      ensures (Model(), failure) == ResolveCollision(old(Model()), raw)
      ensures forall i :: 0 <= i < |sources.entries| ==>
                sources.entries[i] in old(sources.entries) || (fresh(sources.entries[i]) && fresh(sources.entries[i].stats))
    {
      hide RtpSession.Model, RtpSession.Valid, QueueBye, ChangeSsrc, Ready, NoteCollision, Has;
      ModelReady();
      if raw.sender == None {
        return NoAddress;
      }
      ghost var s := Model();
      SameParts(s, s.(collisions := NoteCollision(s.collisions, raw.sender.value, raw.receivedAt).0));
      var created := UpdateAddress(raw.sender.value, raw.receivedAt);
      failure := NoFailure;
      if created {
        Fields();
        if sentPackets {
          QueueByePacket(raw);
        }
        failure := ChangeOwnSSRC(raw);
      }
    }

    // ------------------------------------------------------------ waiting packets

    /** One raw packet goes into the source table, which tells the timer. */
    method ProcessRawPacket(raw: Raw) returns (ok: bool)
      requires Valid()
      modifies sources, sources.entries, StatsOf(sources.entries), sources.timer
      ensures Valid() && (Model(), ok) == HandleRaw(old(Model()), raw)
      ensures forall i :: 0 <= i < |sources.entries| ==>
                sources.entries[i] in old(sources.entries) || (fresh(sources.entries[i]) && fresh(sources.entries[i].stats))
    {
      hide RtpSession.Model, RtpSession.Valid, AllActions, Perform, TimerHears, RtpPacketIn, RP.Parse, C.ParseFrom, PartsOf;
      ok := true;
      Fields();
      if raw.local && !acceptOwnPackets {
        return;
      }
      var from := if raw.local then None else raw.sender;
      if raw.isRtp {
        var packet := RP.Parse(raw.data, raw.beyond);
        if packet.Some? {
          TellData(packet.value, raw, from);
        }
      } else {
        var known, refs := C.ParseData(raw.data);
        if known {
          ok := TellControl(PartsOf(raw.data, refs), raw, from);
        }
      }
    }

    method TakeOne(raw: Raw) returns (failure: Failure)
      requires Valid() && 0.0 <= raw.draw <= 1.0
      modifies this, sources, sources.entries, StatsOf(sources.entries), sources.timer, packetBuilder
      ensures Valid() && Ready(old(Model())) && T.Sound(old(Model()).table)
      ensures (Model(), failure) == TakeRaw(old(Model()), raw)
      ensures forall i :: 0 <= i < |sources.entries| ==>
                sources.entries[i] in old(sources.entries) || (fresh(sources.entries[i]) && fresh(sources.entries[i].stats))
    {
      hide RtpSession.Model, RtpSession.Valid, HandleRaw, ResolveCollision, Ready, T.Sound, OwnCollided;
      ModelReady();
      HandledSound(Model(), raw);
      Fields();
      var known := |sources.log|;
      var ok := ProcessRawPacket(raw);
      if !ok {
        return BadItem;
      }
      failure := NoFailure;
      var ownCollision := OwnCollisionSince(known);
      if ownCollision {
        failure := HandleCollision(raw);
      }
    }

    /** Every waiting packet in turn, until one is an error. */
    method TakePackets(raws: seq<Raw>) returns (failure: Failure)
      requires Valid() && DrawsOk(raws)
      modifies this, sources, sources.entries, StatsOf(sources.entries), sources.timer, packetBuilder
      ensures Valid() && Ready(old(Model())) && T.Sound(old(Model()).table)
      ensures (Model(), failure) == TakeAll(old(Model()), raws)
      ensures forall i :: 0 <= i < |sources.entries| ==>
                sources.entries[i] in old(sources.entries) || (fresh(sources.entries[i]) && fresh(sources.entries[i].stats))
    {
      hide RtpSession.Model, RtpSession.Valid, TakeRaw, Ready, T.Sound;
      failure := NoFailure;
      ghost var s := Model();
      ModelReady();
      assert raws[0..] == raws;
      var i := 0;
      while i < |raws|
        invariant 0 <= i <= |raws| && failure == NoFailure && Valid() && Ready(Model()) && T.Sound(Model().table)
        invariant TakeAll(s, raws) == TakeAll(Model(), raws[i..])
        invariant forall i :: 0 <= i < |sources.entries| ==>
                    sources.entries[i] in old(sources.entries) || (fresh(sources.entries[i]) && fresh(sources.entries[i].stats))
      {
        assert raws[i..][0] == raws[i] && raws[i..][1..] == raws[i + 1..];
        failure := TakeOne(raws[i]);
        if failure != NoFailure {
          return;
        }
        ModelReady();
        i := i + 1;
      }
      assert raws[i..] == [];
    }

    // ------------------------------------------------------------ the calls

    /** The first goodbye goes out, or a report. */
    method SendWhatIsDue(poll: Poll) returns (failure: Failure, sent: Option<CompoundPacket>)
      requires Valid() && PollOk(poll)
      modifies this, sources.timer, rtcpBuilder
      ensures Valid() && Ready(old(Model()))
      ensures var (t, f, content) := Transmit(old(Model()), poll); Model() == t && failure == f && Sends(content, sent)
    {
      hide RtpSession.Model, RtpSession.Valid, Ready, P.BuildNext, B.Size, WeSend, GroupOf, NextSituation, S.ScheduleBye, S.Outgoing, B.ContentOk, Output;
      ModelReady();
      failure, sent := NoFailure, None;
      Fields();
      if byePackets == [] {
        var sends := OwnIsSender();
        var pack, size;
        ghost var content;
        pack, size, content := BuildReport(poll, sends);
        if !poll.sendOk {
          return SendFailed, None;
        }
        SetSent(true);
        AnalyseOutgoing(false, size);
        sent := Some(pack);
      } else {
        var pack, size := PopBye(poll.sendOk);
        if !poll.sendOk {
          return SendFailed, None;
        }
        SetSent(true);
        Fields();
        if byePackets != [] {
          FirstBye();
          ScheduleBye(|byePackets[0].0|, poll.clock, poll.byeDraw);
        }
        AnalyseOutgoing(true, size);
        sent := Some(pack);
      }
    }

    /** The time limits, as the timer's interval gives them now. */
    method TimeLimits() returns (d: Delays)
      requires Valid()
      ensures Valid() && Model() == old(Model()) && S.Usable(Model().sched.params)
      ensures d == TimeLimitsFor(S.DeterministicInterval(Model().sched, GroupOf(Model().table), false), multipliers)
    {
      hide States, Separate, T.Sound, RtcpTimer.RtcpScheduler.Model, RtcpPacketBuilder.PacketBuilder.State, RtcpPacketBuilder.PacketBuilder.Valid, PacketSender.PacketBuilder.Valid, S.Usable, Holds, GroupOf, S.DeterministicInterval;
      ghost var t, sched := sources.Model(), sources.timer.Model();
      sources.timer.ParamsOf();
      var group := SourceGroup();
      assert sources.Model() == t && sources.timer.Model() == sched;
      var interval := sources.timer.CalculateDeterministicInterval(group, false);
      assert sources.Model() == t && sources.timer.Model() == sched;
      d := TimeLimitsFor(interval, multipliers);
    }

    /**
     One call: the waiting packets, the timeouts, and what is due. The objects end up as the function on
     values says, with the time limits that the timer's interval gives; and what is sent are the bytes of the
     contents that it sends.
     */
    method ProcessPolledData(poll: Poll) returns (failure: Failure, sent: Option<CompoundPacket>)
      requires Valid() && PollOk(poll)
      modifies this, sources, sources.entries, StatsOf(sources.entries), sources.timer, packetBuilder, rtcpBuilder
      ensures Valid() && Ready(old(Model())) && T.Sound(old(Model()).table)
      ensures var (t, f, content) := SessionStep.ProcessPolledData(old(Model()), Limited(old(Model()), poll, multipliers));
              Model() == t && failure == f && Sends(content, sent)
      ensures old(Coupled(Model())) ==> Coupled(Model())
      ensures forall i :: 0 <= i < |sources.entries| ==>
                sources.entries[i] in old(sources.entries) || (fresh(sources.entries[i]) && fresh(sources.entries[i].stats))
    {
      hide RtpSession.Model, RtpSession.Valid, Ready, T.Sound, TakeAll, Transmit, Coupled, S.Expire, MultipleTimeouts, TimerSwept, PassOf, GroupOf, ForgetCollisions, TimeMinus, S.Usable, S.DeterministicInterval, TimeLimitsFor;
      ModelReady();
      ghost var s := Model();
      if Coupled(s) {
        SessionInvariant(s, Limited(s, poll, multipliers));
      }
      sent := None;
      failure := TakePackets(poll.raws);
      if failure != NoFailure {
        return;
      }
      ModelReady();
      var limits := TimeLimits();
      var limited := poll.(delays := limits);
      TimeOutReady(Model(), limited);
      RemoveOld(limited);
      TimeoutCollisions(TimeMinus(poll.tick, limits.collision));
      var isTime := IsTime(limited);
      if isTime {
        failure, sent := SendWhatIsDue(limited);
      }
    }

    /** A data packet is built and sent; if that succeeds, the own entry is a sender and the SSRC is known to others. */
    method SendPacket(r: PacketSender.Request, now: RtpTime, sendOk: bool) returns (ok: bool)
      requires Valid() && PacketSender.RequestOk(r)
      modifies this, sources, sources.entries, StatsOf(sources.entries), packetBuilder
      ensures Valid() && T.Sound(old(Model()).table) && Model() == Sent(old(Model()), now, ok, true)
      ensures ok ==> sendOk && packetBuilder.packet != null && packetBuilder.packet.packet != null
      ensures old(Coupled(Model())) ==> Coupled(Model())
    {
      hide RtpSession.Model, RtpSession.Valid, T.Sound, SentPacket, Coupled, Has;
      ModelReady();
      if Coupled(Model()) {
        SentKeeps(Model(), now, true, true);
      }
      ok := BuildData(r);
      ok := ok && sendOk;
      if ok {
        NoteSent(now);
        SetSent(true);
      }
    }

    method BuildData(r: PacketSender.Request) returns (ok: bool)
      requires Valid() && PacketSender.RequestOk(r)
      modifies packetBuilder
      ensures Valid() && Model() == old(Model())
      ensures ok ==> packetBuilder.packet != null && packetBuilder.packet.packet != null
    {
      hide States, Separate, T.Sound, RtcpTimer.RtcpScheduler.Model, RtcpPacketBuilder.PacketBuilder.State, RtcpPacketBuilder.PacketBuilder.Valid, PacketSender.PacketBuilder.Valid, S.Usable, Holds;
      ok := MakeData(r);
    }

    method MakeData(r: PacketSender.Request) returns (ok: bool)
      requires sources.Valid() && packetBuilder.Valid() && PacketSender.RequestOk(r)
      modifies packetBuilder
      ensures packetBuilder.Valid() && packetBuilder.ssrc == old(packetBuilder.ssrc)
      ensures ok ==> packetBuilder.packet != null && packetBuilder.packet.packet != null
      ensures sources.Valid() && sources.Model() == old(sources.Model()) && sources.timer.Model() == old(sources.timer.Model())
    {
      hide States, Separate, T.Sound, RtcpTimer.RtcpScheduler.Model, RtcpPacketBuilder.PacketBuilder.State, RtcpPacketBuilder.PacketBuilder.Valid, PacketSender.PacketBuilder.Valid, S.Usable, RtpSources.Model, RtpSources.Valid, RP.Encode, RP.BuildStatus, RP.ArgumentsOk;
      label before:
      var v := packetBuilder.BuildPacket(r);
      ok := v == PacketSender.Fine;
      Untouched@before(sources);
    }
  }

  lemma {:induction false} ByeParams(s: S.State, g: S.Group, size: nat, clock: int, draw: real)
    requires S.Usable(s.params)
    ensures S.ScheduleBye(s, g, size, clock, draw).params == s.params
  {
    hide S.ByeInterval;
  }

  lemma {:induction false} NothingHeld()
    ensures Holds([], [])
  {
  }

  lemma {:induction false} NewIs(s: Session, probation: D.ProbationType, sched: S.State)
    requires s == Session(s.config, CreateOwn(EmptyTable(probation), s.ssrc).0, sched, s.ssrc, false, [], [],
                          P.Round(0, map[], {}, {}, false, true), map[], [], [])
    requires sched == S.Reset(sched)
    ensures s == NewSession(s.config, probation, s.ssrc, sched)
  {
  }

  lemma {:induction false} SweptParams(t: Table, sched: S.State, pass: D.Source -> Fate, clock: int)
    ensures TimerSwept(t, sched, pass, clock).params == sched.params
  {
    hide LeaveAll, Leavings;
    LeaveAllKeeps(sched, Leavings(t.sources, pass, t.active).0, clock);
  }

  /** What touches no entry and not the timer leaves both as they are. */
  twostate lemma {:induction false} Untouched(src: RtpSources)
    requires old(src.Valid())
    requires unchanged(src) && unchanged(src.timer) && unchanged(old(src.entries)) && unchanged(StatsOf(old(src.entries)))
    ensures src.Valid() && src.Model() == old(src.Model()) && src.timer.Model() == old(src.timer.Model())
  {
    hide States, T.Sound, Separate;
    assert States(src.entries) == old(States(src.entries));
  }

  lemma {:induction false} HearsParams(s: Session, parts: seq<Part>, raw: Raw, from: Option<Address>)
    requires T.Sound(s.table)
    ensures TimerHears(s.table, s.sched, parts, |raw.data|, raw.receivedAt, raw.clock, from).params == s.sched.params
  {
    hide T.Sound, Perform, TimerAfter, AllActions;
    var sched := if from.Some? then S.Incoming(s.sched, IsGoodbye(parts), |raw.data|) else s.sched;
    PerformSound(s.table, sched, AllActions(parts, s.table.own), raw.receivedAt, raw.clock, from);
  }

  /** The walk over the list that erases what is too old. */
  method EraseOld(list: seq<(Address, RtpTime)>, check: RtpTime) returns (left: seq<(Address, RtpTime)>)
    ensures left == ForgetCollisions(list, check)
  {
    var it := 0;
    left := list;
    assert left[..0] == [] && left[0..] == left;
    while it < |left|
      invariant 0 <= it <= |left|
      invariant ForgetCollisions(list, check) == left[..it] + ForgetCollisions(left[it..], check)
      decreases |left| - it
    {
      assert left[it..][0] == left[it] && left[it..][1..] == left[it + 1..];
      if left[it].1 < check {
        ghost var was := left;
        left := left[..it] + left[it + 1..];
        assert left[..it] == was[..it] && left[it..] == was[it + 1..];
      } else {
        assert left[..it + 1] == left[..it] + [left[it]];
        it := it + 1;
      }
    }
    assert left[it..] == [] && left[..it] == left;
  }

  lemma {:induction false} AddressAt(list: seq<(Address, RtpTime)>, a: Address, k: nat)
    requires k <= |list| && (k < |list| ==> list[k].0 == a) && forall i :: 0 <= i < k ==> list[i].0 != a
    ensures FindAddress(list, a) == k
  {
  }

  lemma {:induction false} OneHeldMore(packs: seq<CompoundPacket>, contents: seq<B.Content>, c: B.Content)
    requires Holds(packs, contents) && B.ContentOk(c)
    ensures Holds(packs + [Output(c)], contents + [c])
    ensures |Output(c).0| == B.Size(c)
  {
    hide Output, B.Size;
    OutputSize(c);
  }

  lemma {:induction false} OutputSize(c: B.Content)
    requires B.ContentOk(c)
    ensures |Output(c).0| == B.Size(c)
  {
    hide B.Packets, B.BytesOf;
  }
}
