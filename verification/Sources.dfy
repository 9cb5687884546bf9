/**
 The source table as an object: entries are objects that are changed in place, and are found, walked over
 and deleted in the order in which they came in.
 */
module Sources {
  import opened Bytes
  import opened RtpPacket
  import opened SourceStats
  import opened SourceData
  import opened SourceTable
  import opened SourceTableRuns
  import F = RtcpFormat
  import opened CompoundActions
  import S = Scheduler
  import opened RtcpTimer
  import opened TimerCalls

  type Entries = seq<RtpSourceData>

  /** The table has grown: the entries of before are where they were. */
  ghost predicate Extends(entries: Entries, before: Entries) {
    |before| <= |entries| && entries[..|before|] == before
  }

  /** No two entries share an object. */
  ghost predicate Separate(entries: Entries) {
    forall i, j :: 0 <= i < j < |entries| ==> entries[i] != entries[j] && entries[i].stats != entries[j].stats
  }

  ghost function StatsOf(entries: Entries): (r: seq<RtpSourceStats>)
    ensures |r| == |entries| && forall i :: 0 <= i < |r| ==> r[i] == entries[i].stats
  {
    seq(|entries|, i requires 0 <= i < |entries| => entries[i].stats)
  }

  ghost function States(entries: Entries): (r: seq<Source>)
    reads entries, StatsOf(entries)
    ensures |r| == |entries| && forall i :: 0 <= i < |r| ==> r[i] == entries[i].State()
  {
    if entries == [] then [] else
      assert StatsOf(entries[1..]) == StatsOf(entries)[1..];
      [entries[0].State()] + States(entries[1..])
  }

  /** One entry has changed, and the others are as before. */
  lemma {:induction false} OneChanged(entries: Entries, before: seq<Source>, k: nat)
    requires k < |entries| == |before| && forall i :: 0 <= i < |entries| && i != k ==> entries[i].State() == before[i]
    ensures States(entries) == before[k := entries[k].State()]
  {
  }

  lemma {:induction false} FlagsOf(d: RtpSourceData)
    ensures var s := d.State();
            && s.ssrc == d.ssrc && s.own == d.ownSsrc && s.sender == d.isSender && s.validated == d.validated
            && s.receivedBye == d.receivedBye && s.Active() == d.IsActive() && s.byeTime == d.byeTime
            && s.rtp == d.rtpAddr && s.rtcp == d.rtcpAddr && s.sdes == d.sdes && s.stats == d.stats.State()
            && s.stats.lastMsgTime == d.stats.lastMsgTime && s.stats.lastRtpTime == d.stats.lastRtpTime && s.stats.lastNoteTime == d.stats.lastNoteTime
  {
  }

  lemma {:induction false} OneMoreEntry(entries: Entries, d: RtpSourceData)
    requires Separate(entries) && d !in entries && d.stats !in StatsOf(entries)
    ensures Separate(entries + [d]) && States(entries + [d]) == States(entries) + [d.State()]
  {
    hide RtpSourceData.State;
    var stats := StatsOf(entries);
    assert forall i :: 0 <= i < |entries| ==> stats[i] == entries[i].stats && stats[i] in stats;
  }

  lemma {:induction false} RemovedStates(entries: Entries, k: nat)
    requires k < |entries|
    ensures States(Removed(entries, k)) == Removed(States(entries), k)
    ensures Separate(entries) ==> Separate(Removed(entries, k))
  {
    hide States, RtpSourceData.State;
    var a, b := States(Removed(entries, k)), Removed(States(entries), k);
    assert |a| == |b| by {
      assert |States(entries)| == |entries|;
    }
    forall i | 0 <= i < |a|
      ensures a[i] == b[i]
    {
    }
    assert a == b;
  }

  class RtpSources {
    const probationType: ProbationType
    const timer: RtcpScheduler
    var entries: Entries
    var ownData: RtpSourceData?
    var totalCount: int
    var senderCount: int
    var activeCount: int
    var log: seq<Notice>

    ghost function Model(): Table
      reads this, entries, StatsOf(entries)
    {
      Table(States(entries), if ownData == null then None else Some(ownData.ssrc), totalCount, senderCount, activeCount, probationType, log)
    }

    /** The objects are separate, and the own entry is one of them. */
    ghost predicate Shaped()
      reads `entries, `ownData
    {
      Separate(entries) && (ownData != null ==> ownData in entries)
    }

    ghost predicate Valid()
      reads this, entries, StatsOf(entries)
    {
      Shaped() && Sound(Model())
    }

    constructor (probation: ProbationType, scheduler: RtcpScheduler)
      ensures Valid() && Model() == EmptyTable(probation) && timer == scheduler
    {
      timer := scheduler;
      probationType, entries, ownData, totalCount, senderCount, activeCount, log := probation, [], null, 0, 0, 0, [];
    }

    method FindEntry(ssrc: u32) returns (k: nat)
      ensures k == Find(States(entries), ssrc) && k <= |entries| && (k < |entries| ==> entries[k].ssrc == ssrc)
    {
      k := 0;
      while k < |entries| && entries[k].ssrc != ssrc
        invariant k <= |entries| && forall i :: 0 <= i < k ==> entries[i].ssrc != ssrc
      {
        k := k + 1;
      }
      FindIs(States(entries), ssrc, k);
    }

    method GotEntry(ssrc: u32) returns (found: bool)
      ensures found == Has(Model(), ssrc)
    {
      hide Find;
      var k := FindEntry(ssrc);
      assert |States(entries)| == |entries|;
      found := k < |entries|;
    }

    method OwnIsSender() returns (sends: bool)
      requires Valid()
      ensures sends == WeSend(Model())
    {
      hide Find, Sound, RtpSourceData.State, Source.Active;
      if ownData == null {
        return false;
      }
      ghost var k: nat :| k < |entries| && entries[k] == ownData;
      OwnAt(k);
      FlagsOf(ownData);
      SsrcOf(k);
      sends := ownData.isSender;
    }

    /** d is the entry at position k. */
    ghost predicate EntryIs(d: RtpSourceData, k: nat)
      reads `entries, `ownData
    {
      Shaped() && k < |entries| && entries[k] == d
    }

    lemma OwnAt(k: nat)
      requires Valid() && k < |entries| && entries[k] == ownData
      ensures Find(Model().sources, ownData.ssrc) == k
    {
      Present(Model().sources, k, ownData.ssrc);
    }

    lemma OwnPlace()
      requires Valid() && ownData != null
      ensures var k := Find(States(entries), ownData.ssrc); k < |entries| && entries[k] == ownData
    {
      var n :| 0 <= n < |entries| && entries[n] == ownData;
      OwnAt(n);
    }

    lemma OwnIs(k: nat)
      requires Shaped() && Sound(Model()) && k < |entries|
      ensures entries[k] == ownData <==> IsOwn(Model(), States(entries)[k])
    {
      if ownData != null {
        var n :| 0 <= n < |entries| && entries[n] == ownData;
        OwnAt(n);
        Present(States(entries), n, ownData.ssrc);
        if entries[k].ssrc == ownData.ssrc {
          Present(States(entries), k, ownData.ssrc);
        }
      }
    }

    method SentRTPPacket(now: RtpTime)
      requires Valid()
      modifies this, entries, StatsOf(entries)
      ensures Valid() && entries == old(entries)
      ensures Model() == SentPacket(old(Model()), now)
    {
      hide Sound, RtpSourceData.State, States, Find, Sent, Source.Active;
      SentSound(Model(), now);
      if ownData == null {
        return;
      }
      ghost var k: nat :| k < |entries| && entries[k] == ownData;
      OwnAt(k);
      ghost var before := States(entries);
      var prevSender := ownData.isSender;
      FlagsOf(ownData);
      ownData.SentRTPPacket(now);
      FlagsOf(ownData);
      OneChanged(entries, before, k);
      if !prevSender && ownData.isSender {
        senderCount := senderCount + 1;
      }
    }

    /** The entry of a source, which is made if there is none. */
    method ObtainSourceDataInstance(ssrc: u32) returns (d: RtpSourceData, created: bool, ghost k: nat)
      requires Shaped()
      modifies `entries, `totalCount
      ensures EntryIs(d, k)
      ensures Model() == Obtain(old(Model()), ssrc).0 && k == Obtain(old(Model()), ssrc).1
      ensures created == !Has(old(Model()), ssrc) && d.ssrc == ssrc
      ensures if created then entries == old(entries) + [d] && fresh(d) && fresh(d.stats) else entries == old(entries)
    {
      hide RtpSourceData.State, States, Find;
      var n := FindEntry(ssrc);
      k := n;
      ghost var before := States(entries);
      assert |before| == |entries| && Model().sources == before;
      if n < |entries| {
        d, created := entries[n], false;
      } else {
        d := new RtpSourceData(ssrc, probationType);
        FlagsOf(d);
        created := true;
        assert States(entries) == before;
        AddEntry(d);
        assert States(entries) == before + [NewSource(ssrc, probationType)];
        totalCount := totalCount + 1;
      }
    }

    method AddEntry(d: RtpSourceData)
      requires Shaped() && d !in entries && d.stats !in StatsOf(entries)
      modifies `entries
      ensures Shaped() && entries == old(entries) + [d] && States(entries) == old(States(entries)) + [d.State()]
    {
      hide RtpSourceData.State, States, Separate;
      OneMoreEntry(entries, d);
      ghost var after := States(entries + [d]);
      entries := entries + [d];
      assert States(entries) == after;
    }

    method CheckCollision(d: RtpSourceData, ghost k: nat, from: Option<Address>, isRtp: bool) returns (collides: bool)
      requires EntryIs(d, k)
      modifies `log, d
      ensures entries == old(entries) && collides == Collides(old(d.State()), from, isRtp)
      ensures AddressesFit(old(d.State())) ==>
                && collides == Clash(old(d.State()), from, isRtp)
                && d.State() == if collides then old(d.State()) else WithAddress(old(d.State()), from, isRtp)
      ensures Model() == if collides then old(Model()).(log := old(log) + [Collision(d.ssrc, from, isRtp)])
                         else Replace(old(Model()), k, Bound(old(d.State()), from, isRtp))
    {
      hide RtpSourceData.State, States, AddressesFit, Clash, WithAddress, Collides, Bound;
      FlagsOf(d);
      ghost var before := States(entries);
      if AddressesFit(d.State()) {
        CollisionExact(d.State(), from, isRtp);
      }
      collides := Clashes(d, from, isRtp);
      if collides {
        log := log + [Collision(d.ssrc, from, isRtp)];
        OneChanged(entries, before, k);
      } else {
        BindAddress(d, from, isRtp);
        OneChanged(entries, before, k);
      }
    }

    method BindAddress(d: RtpSourceData, from: Option<Address>, isRtp: bool)
      modifies d
      ensures d.State() == Bound(old(d.State()), from, isRtp)
    {
      if isRtp {
        if d.rtpAddr == Unset {
          d.SetRTPDataAddress(from);
        }
      } else {
        if d.rtcpAddr == Unset {
          d.SetRTCPDataAddress(from);
        }
      }
    }

    method Clashes(d: RtpSourceData, from: Option<Address>, isRtp: bool) returns (r: bool)
      ensures r == Collides(d.State(), from, isRtp)
    {
      var slot, other := d.rtcpAddr, d.rtpAddr;
      if isRtp {
        slot, other := d.rtpAddr, d.rtcpAddr;
      }
      if slot == Unset {
        if other == Unset {
          return false;
        } else if other.from == None {
          return from != None;
        } else {
          return from == None || other.from.value.host != from.value.host;
        }
      } else if slot.from == None {
        return from != None;
      } else {
        return from != slot.from;
      }
    }

    // ------------------------------------------------------------ RTP packets

    method DeliverPacket(d: RtpSourceData, ghost k: nat, p: Packet, now: RtpTime, tsUnit: real) returns (stored: bool)
      requires EntryIs(d, k) && QueueOk(d.State())
      modifies `senderCount, `activeCount, d, d.stats
      ensures entries == old(entries) && stored == Deliver(old(Model()), k, p, now, tsUnit).1
      ensures Model() == Deliver(old(Model()), k, p, now, tsUnit).0
    {
      hide RtpSourceData.State, States, Received, Source.Active, QueueOk, RtpSourceData.IsActive;
      FlagsOf(d);
      ghost var before := States(entries);
      var prevSender, prevActive := d.isSender, d.IsActive();
      stored := d.ProcessRTPPacket(p, now, tsUnit);
      FlagsOf(d);
      OneChanged(entries, before, k);
      if !prevSender && d.isSender {
        senderCount := senderCount + 1;
      }
      if !prevActive && d.IsActive() {
        activeCount := activeCount + 1;
      }
    }

    /** A new entry that is a contributing source. */
    method MarkNew(d: RtpSourceData, ghost k: nat, ghost t: Table)
      requires EntryIs(d, k) && Model().sources == t.sources + [NewSource(d.ssrc, t.probationType)] && k == |t.sources|
      requires Model() == t.(sources := Model().sources, total := t.total + 1)
      modifies `activeCount, `log, d
      ensures entries == old(entries)
      ensures Model() == t.(sources := t.sources + [NewSource(d.ssrc, t.probationType).(validated := true, csrc := true)],
                            total := t.total + 1, active := t.active + 1, log := t.log + [IsNew(d.ssrc)])
    {
      hide RtpSourceData.State, States, Source.Active, RtpSourceData.IsActive, NewSource;
      ghost var before := States(entries);
      assert before[k] == NewSource(d.ssrc, t.probationType);
      d.SetCSRC();
      FlagsOf(d);
      OneChanged(entries, before, k);
      FreshCsrc(d.ssrc, probationType);
      if d.IsActive() {
        activeCount := activeCount + 1;
      }
      log := log + [IsNew(d.ssrc)];
    }

    /** An entry that was there already becomes a contributing source too, if it comes from the same place. */
    method MarkKnown(d: RtpSourceData, ghost k: nat, from: Option<Address>)
      requires EntryIs(d, k)
      modifies `log, d
      ensures entries == old(entries)
      ensures var s := old(d.State());
              Model() == if Collides(s, from, true) then old(Model()).(log := old(log) + [Collision(s.ssrc, from, true)])
                         else Replace(old(Model()), k, Bound(s, from, true).(validated := true, csrc := true))
    {
      hide RtpSourceData.State, States, Bound, Collides;
      ghost var before := States(entries);
      ghost var s := d.State();
      FlagsOf(d);
      var collides := CheckCollision(d, k, from, true);
      if !collides {
        assert States(entries) == before[k := Bound(s, from, true)];
        assert d.State() == Bound(s, from, true) by {
          assert States(entries)[k] == entries[k].State();
        }
        ghost var middle := States(entries);
        d.SetCSRC();
        OneChanged(entries, middle, k);
        assert States(entries) == before[k := Bound(s, from, true).(validated := true, csrc := true)];
      }
    }

    method ProcessCSRC(csrc: u32, from: Option<Address>)
      requires Shaped()
      modifies this, entries
      ensures Shaped() && |old(entries)| <= |entries| && entries[..|old(entries)|] == old(entries)
      ensures forall i :: |old(entries)| <= i < |entries| ==> fresh(entries[i]) && fresh(entries[i].stats)
      ensures Model() == MarkCsrc(old(Model()), csrc, from)
    {
      hide RtpSourceData.State, States, Find, NewSource, Bound, Collides, Separate;
      ghost var t := Model();
      assert |t.sources| == |entries|;
      var d, created;
      ghost var k;
      d, created, k := ObtainSourceDataInstance(csrc);
      SsrcOf(k);
      if created {
        MarkNew(d, k, t);
      } else {
        MarkKnown(d, k, from);
      }
    }

    lemma SsrcOf(k: nat)
      requires k < |entries|
      ensures k < |Model().sources| && Model().sources[k] == entries[k].State() && Model().sources[k].ssrc == entries[k].ssrc
    {
    }

    /** The entry for a packet, with its address bound or found to collide. */
    method OpenEntry(ssrc: u32, from: Option<Address>, isRtp: bool)
      returns (d: RtpSourceData, created: bool, collides: bool, ghost k: nat)
      requires Shaped()
      modifies this, entries
      ensures EntryIs(d, k) && k == Obtain(old(Model()), ssrc).1 && created == !Has(old(Model()), ssrc) && d.ssrc == ssrc
      ensures if created then entries == old(entries) + [d] && fresh(d) && fresh(d.stats) else entries == old(entries)
      ensures var u := Obtain(old(Model()), ssrc).0;
              && collides == (!created && Collides(u.sources[k], from, isRtp))
              && Model() == if collides then u.(log := u.log + [Collision(ssrc, from, isRtp)])
                            else Opened(old(Model()), ssrc, from, isRtp)
    {
      hide RtpSourceData.State, States, Find, Bound, Collides, NewSource, Separate;
      d, created, k := ObtainSourceDataInstance(ssrc);
      SsrcOf(k);
      if created {
        ghost var before := States(entries);
        SetAddress(d, k, from, isRtp);
        collides := false;
      } else {
        collides := CheckCollision(d, k, from, isRtp);
      }
    }

    method SetAddress(d: RtpSourceData, ghost k: nat, from: Option<Address>, isRtp: bool)
      requires EntryIs(d, k)
      modifies d
      ensures Model() == Replace(old(Model()), k, Bound(old(d.State()), from, isRtp))
    {
      hide RtpSourceData.State, States, Bound;
      ghost var before := States(entries);
      BindAddress(d, from, isRtp);
      OneChanged(entries, before, k);
    }

    method ProcessRTPPacket(p: Packet, now: RtpTime, tsUnit: real, from: Option<Address>) returns (stored: bool)
      requires Valid()
      modifies this, entries, StatsOf(entries)
      ensures Valid() && stored == RtpPacketIn(old(Model()), p, now, tsUnit, from).1
      ensures Model() == RtpPacketIn(old(Model()), p, now, tsUnit, from).0
      ensures forall i :: 0 <= i < |entries| ==> entries[i] in old(entries) || (fresh(entries[i]) && fresh(entries[i].stats))
    {
      hide Sound, RtpSourceData.State, States, Deliver, MarkCsrcs, Collides, Bound, EntryOk, PacketOnly, RtpSources.Model, RtpSources.Shaped;
      ghost var t := Model();
      RtpSound(t, p, now, tsUnit, from);
      var csrcs;
      stored, csrcs := ProcessPacketOnly(p, now, tsUnit, from);
      if csrcs {
        ProcessCSRCs(p.csrcs, from);
      }
    }

    method ProcessPacketOnly(p: Packet, now: RtpTime, tsUnit: real, from: Option<Address>) returns (stored: bool, csrcs: bool)
      requires Valid()
      modifies this, entries, StatsOf(entries)
      ensures Shaped() && |old(entries)| <= |entries| && entries[..|old(entries)|] == old(entries)
      ensures forall i :: |old(entries)| <= i < |entries| ==> fresh(entries[i]) && fresh(entries[i].stats)
      ensures stored == PacketOnly(old(Model()), p, now, tsUnit, from).1 && csrcs == PacketOnly(old(Model()), p, now, tsUnit, from).2
      ensures Model() == PacketOnly(old(Model()), p, now, tsUnit, from).0
    {
      hide Sound, RtpSourceData.State, States, Deliver, Collides, Bound, EntryOk, Obtain, Separate;
      ghost var t := Model();
      OpenedSound(t, p.ssrc, from, true);
      stored, csrcs := false, false;
      var d, created, collides;
      ghost var k;
      d, created, collides, k := OpenEntry(p.ssrc, from, true);
      if collides {
        return;
      }
      if created {
        NewNeverCollides(t, p.ssrc, from, true);
      }
      assert Model() == Opened(t, p.ssrc, from, true);
      EntryAt(Model(), k);
      stored, csrcs := HandlePacket(d, k, created, p, now, tsUnit);
    }

    method HandlePacket(d: RtpSourceData, ghost k: nat, created: bool, p: Packet, now: RtpTime, tsUnit: real)
      returns (stored: bool, csrcs: bool)
      requires EntryIs(d, k) && EntryOk(Model().own, Model().sources[k])
      modifies `senderCount, `activeCount, `log, d, d.stats
      ensures entries == old(entries)
      ensures var (v, s) := Deliver(old(Model()), k, p, now, tsUnit);
              && stored == s && csrcs == v.sources[k].validated
              && Model() == v.(log := v.log + if created then [IsNew(d.ssrc)] else [])
    {
      hide RtpSourceData.State, States, Deliver, EntryOk, Separate;
      SsrcOf(k);
      QueueOf(Model(), k);
      stored := DeliverPacket(d, k, p, now, tsUnit);
      SsrcOf(k);
      if created {
        log := log + [IsNew(d.ssrc)];
      }
      FlagsOf(d);
      csrcs := d.validated;
    }

    method ProcessCSRCs(csrcs: seq<u32>, from: Option<Address>)
      requires Shaped()
      modifies this, entries
      ensures Shaped() && Model() == MarkCsrcs(old(Model()), csrcs, from)
      ensures Extends(entries, old(entries))
      ensures forall i :: |old(entries)| <= i < |entries| ==> fresh(entries[i]) && fresh(entries[i].stats)
    {
      hide RtpSourceData.State, States, MarkCsrc, Separate, RtpSources.Model, RtpSources.Shaped;
      ghost var t, before := Model(), entries;
      assert csrcs[..0] == [];
      for i := 0 to |csrcs|
        invariant Shaped() && |before| <= |entries| && entries[..|before|] == before
        invariant forall i :: |before| <= i < |entries| ==> fresh(entries[i]) && fresh(entries[i].stats)
        invariant Model() == MarkCsrcs(t, csrcs[..i], from)
      {
        ProcessCSRC(csrcs[i], from);
        assert csrcs[..i + 1][..i] == csrcs[..i];
      }
      assert csrcs[..|csrcs|] == csrcs;
    }

    // ------------------------------------------------------------ RTCP packets

    /** Sender info, report blocks, private items and the mere sign of life all note the time of the message. */
    method UpdateReceiveTime(ssrc: u32, now: RtpTime, from: Option<Address>)
      requires Valid()
      modifies this, entries, StatsOf(entries)
      ensures Valid() && Model() == RtcpIn(old(Model()), ssrc, Alive, now, from).0
      ensures HeardNow(old(Model()), Model(), ssrc, now, from)
      ensures Extends(entries, old(entries))
      ensures forall i :: |old(entries)| <= i < |entries| ==> fresh(entries[i]) && fresh(entries[i].stats)
    {
      hide Sound, RtpSourceData.State, States, Apply, Collides, Bound, Obtain, Separate, HeardNow;
      ghost var t := Model();
      RtcpSound(t, ssrc, Alive, now, from);
      AliveIsHeard(t, ssrc, now, from);
      var d, created, collides;
      ghost var k;
      d, created, collides, k := OpenEntry(ssrc, from, false);
      if collides {
        return;
      }
      OpenedIs(t, ssrc, from, created);
      NoteTime(d, k, created, now, from);
    }

    method NoteTime(d: RtpSourceData, ghost k: nat, created: bool, now: RtpTime, ghost from: Option<Address>)
      requires EntryIs(d, k)
      modifies `log, d, d.stats
      ensures entries == old(entries) && |States(entries)| == |entries| && Model() == Apply(old(Model()), k, created, Alive, now, from).0
    {
      hide RtpSourceData.State, States, Heard;
      ghost var before := States(entries);
      assert |before| == |entries|;
      FlagsOf(d);
      d.UpdateMessageTime(now);
      OneChanged(entries, before, k);
      if created {
        log := log + [IsNew(d.ssrc)];
      }
    }

    method ProcessSDESNormalItem(ssrc: u32, id: nat, data: bytes, now: RtpTime, from: Option<Address>) returns (status: Verdict)
      requires Valid()
      modifies this, entries, StatsOf(entries)
      ensures Valid() && Model() == RtcpIn(old(Model()), ssrc, Item(id, data), now, from).0
      ensures status == RtcpIn(old(Model()), ssrc, Item(id, data), now, from).1
      ensures Extends(entries, old(entries))
      ensures forall i :: |old(entries)| <= i < |entries| ==> fresh(entries[i]) && fresh(entries[i].stats)
    {
      hide Sound, RtpSourceData.State, States, Apply, Collides, Bound, Obtain, Separate;
      ghost var t := Model();
      RtcpSound(t, ssrc, Item(id, data), now, from);
      status := IllegalSdesType;
      if !(CNAME <= id <= NOTE) {
        return;
      }
      status := Done;
      var d, created, collides;
      ghost var k;
      d, created, collides, k := OpenEntry(ssrc, from, false);
      if collides {
        return;
      }
      OpenedIs(t, ssrc, from, created);
      status := TakeItem(d, k, created, id, data, now, from);
    }

    method TakeItem(d: RtpSourceData, ghost k: nat, created: bool, id: nat, data: bytes, now: RtpTime, from: Option<Address>)
      returns (status: Verdict)
      requires EntryIs(d, k)
      modifies `log, `activeCount, d, d.stats
      ensures entries == old(entries) && |States(entries)| == |entries|
      ensures Model() == Apply(old(Model()), k, created, Item(id, data), now, from).0
      ensures status == Apply(old(Model()), k, created, Item(id, data), now, from).1
    {
      hide RtpSourceData.State, States, Described, ItemRefused, Source.Active, RtpSourceData.IsActive, Separate;
      SsrcOf(k);
      FlagsOf(d);
      var prevActive := d.IsActive();
      ItemKeepsActive(d.State(), id, data, now);
      var cnameCollision;
      status, cnameCollision := ChangeItem(d, k, id, data, now);
      SsrcOf(k);
      FlagsOf(d);
      Settle(d, prevActive, created);
      ReportCname(d, cnameCollision, from, data);
    }

    method ReportCname(d: RtpSourceData, cnameCollision: bool, from: Option<Address>, data: bytes)
      modifies `log
      ensures log == old(log) + if cnameCollision then [CnameCollision(d.ssrc, from, data)] else []
    {
      if cnameCollision {
        log := log + [CnameCollision(d.ssrc, from, data)];
      }
    }

    /** The active counter follows a change of the entry, and a new entry is announced. */
    method Settle(d: RtpSourceData, prevActive: bool, created: bool)
      modifies `activeCount, `log
      ensures activeCount == old(activeCount) + One(!prevActive && d.IsActive()) - One(prevActive && !d.IsActive())
      ensures log == old(log) + if created then [IsNew(d.ssrc)] else []
    {
      if !prevActive && d.IsActive() {
        activeCount := activeCount + 1;
      }
      if prevActive && !d.IsActive() {
        activeCount := activeCount - 1;
      }
      if created {
        log := log + [IsNew(d.ssrc)];
      }
    }

    method ChangeItem(d: RtpSourceData, ghost k: nat, id: nat, data: bytes, now: RtpTime) returns (status: Verdict, cnameCollision: bool)
      requires EntryIs(d, k)
      modifies d, d.stats
      ensures States(entries) == old(States(entries))[k := Described(old(d.State()), id, data, now).0]
      ensures cnameCollision == Described(old(d.State()), id, data, now).1 
      ensures status == if ItemRefused(old(d.State()), id, data) then ItemTooLong else Done
    {
      hide RtpSourceData.State, States, Described, ItemRefused;
      ghost var before := States(entries);
      var error;
      error, cnameCollision := d.ProcessSDESItem(id, data, now);
      status := if error then ItemTooLong else Done;
      OneChanged(entries, before, k);
    }

    /** A goodbye that is taken up is told to the timer. */
    method ProcessBYE(ssrc: u32, reason: bytes, now: RtpTime, clock: int, from: Option<Address>)
      requires Valid()
      modifies this, entries, StatsOf(entries), timer
      ensures timer.Model() == AfterAction(old(timer.Model()), old(Model()), (ssrc, Report.Bye(reason)), Model(), clock)
      ensures Valid() && Model() == RtcpIn(old(Model()), ssrc, Bye(reason), now, from).0
      ensures Extends(entries, old(entries))
      ensures forall i :: |old(entries)| <= i < |entries| ==> fresh(entries[i]) && fresh(entries[i].stats)
    {
      hide Sound, RtpSourceData.State, States, Apply, Collides, Opened, Obtain, Separate, RtcpScheduler.Model, AfterAction, S.MembersLeft, RtcpIn;
      ghost var t := Model();
      RtcpSound(t, ssrc, Bye(reason), now, from);
      ByeTold(t, timer.Model(), ssrc, reason, now, clock, from);
      var d, created, collides;
      ghost var k;
      d, created, collides, k := OpenEntry(ssrc, from, false);
      if collides {
        return;
      }
      OpenedIs(t, ssrc, from, created);
      OpenedSound(t, ssrc, from, false);
      TakeBye(d, k, created, reason, now, clock, from);
    }

    method TakeBye(d: RtpSourceData, ghost k: nat, created: bool, reason: bytes, now: RtpTime, clock: int, ghost from: Option<Address>)
      requires EntryIs(d, k) && Sound(Model()) && k < |Model().sources|
      modifies `log, `activeCount, d, d.stats, timer
      ensures timer.Model() == if IsOwn(old(Model()), old(Model()).sources[k]) then old(timer.Model())
                               else S.MembersLeft(old(timer.Model()), activeCount, clock)
      ensures entries == old(entries) && |States(entries)| == |entries|
      ensures Model() == Apply(old(Model()), k, created, Bye(reason), now, from).0
    {
      hide RtpSourceData.State, States, Apply, Sound, Separate, RtcpScheduler.Model, S.MembersLeft;
      SsrcOf(k);
      OwnIs(k);
      ByeForOwn(Model(), k, created, reason, now, from);
      if d == ownData {
        return;
      }
      RecordBye(d, k, created, reason, now, from);
      timer.ActiveMemberDecrease(activeCount, clock);
    }

    method RecordBye(d: RtpSourceData, ghost k: nat, created: bool, reason: bytes, now: RtpTime, ghost from: Option<Address>)
      requires EntryIs(d, k) && k < |Model().sources| && !IsOwn(Model(), Model().sources[k])
      modifies `log, `activeCount, d, d.stats
      ensures entries == old(entries) && |States(entries)| == |entries|
      ensures Model() == Apply(old(Model()), k, created, Bye(reason), now, from).0
    {
      hide RtpSourceData.State, States, SaidBye, Source.Active, RtpSourceData.IsActive, Sound, Separate;
      SsrcOf(k);
      FlagsOf(d);
      var prevActive := d.IsActive();
      ItemKeepsActive(d.State(), 0, reason, now);
      ghost var before := States(entries);
      ChangeBye(d, k, reason, now);
      SsrcOf(k);
      FlagsOf(d);
      ghost var after := States(entries);
      Settle(d, prevActive, created);
      log := log + [ByeHeard(d.ssrc)];
      assert States(entries) == after == before[k := SaidBye(before[k], reason, now)];
    }

    method ChangeBye(d: RtpSourceData, ghost k: nat, reason: bytes, now: RtpTime)
      requires EntryIs(d, k)
      modifies d, d.stats
      ensures States(entries) == old(States(entries))[k := SaidBye(old(d.State()), reason, now)]
    {
      hide RtpSourceData.State, States, SaidBye;
      ghost var before := States(entries);
      d.ProcessBYEPacket(reason, now);
      OneChanged(entries, before, k);
    }

    lemma OpenedIs(t: Table, ssrc: u32, from: Option<Address>, created: bool)
      requires created == !Has(t, ssrc)
      ensures created ==> !Collides(Obtain(t, ssrc).0.sources[Obtain(t, ssrc).1], from, false)
    {
      if created {
        NewNeverCollides(t, ssrc, from, false);
      }
    }

    /** The report blocks of a sender or receiver report; each that is about us counts as a sign of life. */
    method ProcessBlocks(ssrc: u32, blocks: seq<F.ReportBlock>, own: Option<u32>, now: RtpTime, from: Option<Address>)
      requires Valid()
      modifies this, entries, StatsOf(entries)
      ensures Valid()
      ensures Perform(old(Model()), AboutUs(ssrc, blocks, own), now, from) == (Model(), Done)
      ensures Extends(entries, old(entries))
      ensures forall i :: |old(entries)| <= i < |entries| ==> fresh(entries[i]) && fresh(entries[i].stats)
    {
      hide Sound, RtpSourceData.State, States, Separate, RtcpIn, Perform, RtpSources.Valid, RtpSources.Model;
      ghost var t, was := Model(), entries;
      var gotInfo := false;
      ghost var hits := 0;
      assert blocks[..0] == [];
      OneSignMore(t, ssrc, 0, now, from);
      for i := 0 to |blocks|
        invariant Valid() && Extends(entries, was)
        invariant forall i :: |was| <= i < |entries| ==> fresh(entries[i]) && fresh(entries[i].stats)
        invariant hits == BlocksFor(blocks[..i], own) && (gotInfo <==> hits > 0)
        invariant Perform(t, Signs(ssrc, hits), now, from) == (Model(), Done)
      {
        assert blocks[..i + 1][..i] == blocks[..i];
        if own == Some(blocks[i].ssrc) {
          gotInfo := true;
          OneSignMore(t, ssrc, hits, now, from);
          hits := hits + 1;
          UpdateReceiveTime(ssrc, now, from);
        }
      }
      assert blocks[..|blocks|] == blocks;
      if !gotInfo {
        UpdateReceiveTime(ssrc, now, from);
      }
    }

    method ProcessItem(ssrc: u32, item: F.Item, now: RtpTime, from: Option<Address>) returns (status: Verdict)
      requires Valid()
      modifies this, entries, StatsOf(entries)
      ensures Valid()
      ensures (Model(), status) == RtcpIn(old(Model()), ssrc, ItemAction(ssrc, item).1, now, from)
      ensures Extends(entries, old(entries))
      ensures forall i :: |old(entries)| <= i < |entries| ==> fresh(entries[i]) && fresh(entries[i].stats)
    {
      hide Sound, RtpSourceData.State, States, Separate, RtcpIn;
      if item.id == F.SDES_PRIV {
        OnlyItemsFail(Model(), ssrc, Alive, now, from);
        UpdateReceiveTime(ssrc, now, from);
        status := Done;
      } else {
        status := ProcessSDESNormalItem(ssrc, item.id as nat, item.data, now, from);
      }
    }

    /** The items of a chunk in turn; a chunk without any is a sign of life. */
    method ProcessChunk(c: F.Chunk, now: RtpTime, from: Option<Address>) returns (status: Verdict)
      requires Valid()
      modifies this, entries, StatsOf(entries)
      ensures Valid()
      ensures (Model(), status) == Perform(old(Model()), ChunkActions(c), now, from)
      ensures Extends(entries, old(entries))
      ensures forall i :: |old(entries)| <= i < |entries| ==> fresh(entries[i]) && fresh(entries[i].stats)
    {
      hide Sound, RtpSourceData.State, States, Separate, RtcpIn, Perform, RtpSources.Valid, RtpSources.Model, ItemActions;
      ghost var t, was := Model(), entries;
      var updated := false;
      status := Done;
      NothingDone(t, now, from);
      assert c.items[..0] == [];
      var i := 0;
      while i < |c.items|
        invariant Valid() && Extends(entries, was)
        invariant forall i :: |was| <= i < |entries| ==> fresh(entries[i]) && fresh(entries[i].stats)
        invariant 0 <= i <= |c.items| && status == Done && (updated <==> i > 0)
        invariant Perform(t, ItemActions(c.ssrc, c.items[..i]), now, from) == (Model(), Done)
      {
        updated := true;
        OneItemMore(t, c.ssrc, c.items, i, now, from);
        status := ProcessItem(c.ssrc, c.items[i], now, from);
        if status != Done {
          ItemsCut(t, c.ssrc, c.items, i + 1, now, from);
          return;
        }
        i := i + 1;
      }
      assert c.items[..|c.items|] == c.items;
      if !updated {
        PerformOne(t, (c.ssrc, Report.Alive), now, from);
        OnlyItemsFail(t, c.ssrc, Alive, now, from);
        UpdateReceiveTime(c.ssrc, now, from);
      }
    }

    method ProcessChunks(chunks: seq<F.Chunk>, now: RtpTime, from: Option<Address>) returns (status: Verdict)
      requires Valid()
      modifies this, entries, StatsOf(entries)
      ensures Valid()
      ensures (Model(), status) == Perform(old(Model()), ChunksActions(chunks), now, from)
      ensures Extends(entries, old(entries))
      ensures forall i :: |old(entries)| <= i < |entries| ==> fresh(entries[i]) && fresh(entries[i].stats)
    {
      hide Sound, RtpSourceData.State, States, Separate, RtcpIn, Perform, RtpSources.Valid, RtpSources.Model, ChunksActions, ChunkActions;
      ghost var t, was := Model(), entries;
      status := Done;
      NothingDone(t, now, from);
      assert chunks[..0] == [];
      var i := 0;
      while i < |chunks|
        invariant Valid() && Extends(entries, was)
        invariant forall i :: |was| <= i < |entries| ==> fresh(entries[i]) && fresh(entries[i].stats)
        invariant 0 <= i <= |chunks| && status == Done
        invariant Perform(t, ChunksActions(chunks[..i]), now, from) == (Model(), Done)
      {
        OneChunkMore(t, chunks, i, now, from);
        status := ProcessChunk(chunks[i], now, from);
        if status != Done {
          ChunksCut(t, chunks, i + 1, now, from);
          return;
        }
        i := i + 1;
      }
      assert chunks[..|chunks|] == chunks;
    }

    method ProcessByes(ssrcs: seq<u32>, reason: bytes, now: RtpTime, clock: int, from: Option<Address>)
      requires Valid()
      modifies this, entries, StatsOf(entries), timer
      ensures Valid()
      ensures Perform(old(Model()), ByeActions(ssrcs, reason), now, from) == (Model(), Done)
      ensures timer.Model() == TimerAfter(old(Model()), old(timer.Model()), ByeActions(ssrcs, reason), now, clock, from)
      ensures Extends(entries, old(entries))
      ensures forall i :: |old(entries)| <= i < |entries| ==> fresh(entries[i]) && fresh(entries[i].stats)
    {
      hide Sound, RtpSourceData.State, States, Separate, RtcpIn, Perform, RtpSources.Valid, RtpSources.Model, AfterAction, TimerAfter, ByeActions, RtcpScheduler.Model;
      ghost var t, s, was := Model(), timer.Model(), entries;
      NothingDone(t, now, from);
      NothingTold(t, s, now, clock, from);
      assert ssrcs[..0] == [];
      for i := 0 to |ssrcs|
        invariant Valid() && Extends(entries, was)
        invariant forall i :: |was| <= i < |entries| ==> fresh(entries[i]) && fresh(entries[i].stats)
        invariant Perform(t, ByeActions(ssrcs[..i], reason), now, from) == (Model(), Done)
        invariant timer.Model() == TimerAfter(t, s, ByeActions(ssrcs[..i], reason), now, clock, from)
      {
        OneByeMore(t, ssrcs, reason, i, now, from);
        OneByeTold(t, s, ssrcs, reason, i, now, clock, from);
        ProcessBYE(ssrcs[i], reason, now, clock, from);
      }
      assert ssrcs[..|ssrcs|] == ssrcs;
    }

    method ProcessPacket(p: F.Packet, own: Option<u32>, now: RtpTime, clock: int, from: Option<Address>) returns (status: Verdict)
      requires Valid()
      modifies this, entries, StatsOf(entries), timer
      ensures Valid()
      ensures (Model(), status) == Perform(old(Model()), Actions(p, own), now, from)
      ensures timer.Model() == TimerAfter(old(Model()), old(timer.Model()), Actions(p, own), now, clock, from)
      ensures Extends(entries, old(entries))
      ensures forall i :: |old(entries)| <= i < |entries| ==> fresh(entries[i]) && fresh(entries[i].stats)
    {
      hide Sound, RtpSourceData.State, States, Separate, RtcpIn, Perform, RtpSources.Valid, RtpSources.Model, AfterAction, TimerAfter, RtcpScheduler.Model;
      ghost var t := Model();
      NothingDone(t, now, from);
      status := Done;
      if !p.BYE? {
        PacketHasNoByes(p, own);
        NoByesNoCalls(t, timer.Model(), Actions(p, own), now, clock, from);
      }
      match p {
        case SR(ssrc, _, blocks) =>
          PerformOne(t, (ssrc, Report.Alive), now, from);
          OnlyItemsFail(t, ssrc, Alive, now, from);
          PerformConcat(t, [(ssrc, Report.Alive)], AboutUs(ssrc, blocks, own), now, from);
          UpdateReceiveTime(ssrc, now, from);
          ProcessBlocks(ssrc, blocks, own, now, from);
        case RR(ssrc, blocks) =>
          ProcessBlocks(ssrc, blocks, own, now, from);
        case SDES(chunks) =>
          status := ProcessChunks(chunks, now, from);
        case BYE(ssrcs, reason) =>
          ProcessByes(ssrcs, reason, now, clock, from);
        case APP(_, _, _, _) =>
      }
    }

    method OwnSsrc() returns (own: Option<u32>)
      ensures own == Model().own
    {
      own := if ownData == null then None else Some(ownData.ssrc);
    }

    /** The parts of a compound packet in turn, up to the first error; those of unknown format are passed over. */
    method ProcessParts(parts: seq<Part>, own: Option<u32>, now: RtpTime, clock: int, from: Option<Address>) returns (status: Verdict)
      requires Valid()
      modifies this, entries, StatsOf(entries), timer
      ensures Valid()
      ensures (Model(), status) == Perform(old(Model()), AllActions(parts, own), now, from)
      ensures timer.Model() == TimerAfter(old(Model()), old(timer.Model()), AllActions(parts, own), now, clock, from)
      ensures Extends(entries, old(entries))
      ensures forall i :: |old(entries)| <= i < |entries| ==> fresh(entries[i]) && fresh(entries[i].stats)
    {
      hide Sound, RtpSourceData.State, States, Separate, RtcpIn, Perform, RtpSources.Valid, RtpSources.Model, AfterAction, TimerAfter, AllActions, Actions, RtcpScheduler.Model;
      ghost var t, s, was := Model(), timer.Model(), entries;
      status := Done;
      NothingDone(t, now, from);
      NothingTold(t, s, now, clock, from);
      assert parts[..0] == [];
      var i := 0;
      while i < |parts|
        invariant Valid() && Extends(entries, was)
        invariant forall i :: |was| <= i < |entries| ==> fresh(entries[i]) && fresh(entries[i].stats)
        invariant 0 <= i <= |parts| && status == Done
        invariant Perform(t, AllActions(parts[..i], own), now, from) == (Model(), Done)
        invariant timer.Model() == TimerAfter(t, s, AllActions(parts[..i], own), now, clock, from)
      {
        OnePacketMore(t, parts, own, i, now, from);
        OnePacketTold(t, s, parts, own, i, now, clock, from);
        NothingDone(Model(), now, from);
        NothingTold(Model(), timer.Model(), now, clock, from);
        match parts[i] {
          case Known(p) => status := ProcessPacket(p, own, now, clock, from);
          case Other(_) =>
        }
        if status != Done {
          PacketsCut(t, parts, own, i + 1, now, from);
          PacketsCutShort(t, s, parts, own, i + 1, now, clock, from);
          return;
        }
        i := i + 1;
      }
      assert parts[..|parts|] == parts;
    }

    /** The timer first counts a packet from elsewhere; then its parts are taken up. */
    method ProcessRTCPCompoundPacket(parts: seq<Part>, size: nat, now: RtpTime, clock: int, from: Option<Address>) returns (status: Verdict)
      requires Valid()
      modifies this, entries, StatsOf(entries), timer
      ensures Valid()
      ensures (Model(), status) == Perform(old(Model()), AllActions(parts, old(Model()).own), now, from)
      ensures timer.Model() == TimerHears(old(Model()), old(timer.Model()), parts, size, now, clock, from)
      ensures forall i :: 0 <= i < |entries| ==> entries[i] in old(entries) || (fresh(entries[i]) && fresh(entries[i].stats))
    {
      hide Sound, RtpSourceData.State, States, Separate, RtcpIn, Perform, RtpSources.Valid, RtpSources.Model, AfterAction, TimerAfter, AllActions, Actions, RtcpScheduler.Model, S.Incoming;
      var own := OwnSsrc();
      if from.Some? {
        var isBye := HasBye(parts);
        timer.AnalyseIncoming(isBye, size);
      }
      status := ProcessParts(parts, own, now, clock, from);
    }

    /** The timer looks for a BYE by the type alone. */
    method HasBye(parts: seq<Part>) returns (isBye: bool)
      ensures isBye == IsGoodbye(parts)
    {
      isBye := false;
      var i := 0;
      while !isBye && i < |parts|
        invariant 0 <= i <= |parts| && (isBye ==> IsGoodbye(parts))
        invariant !isBye ==> forall k :: 0 <= k < i ==> !IsBye(parts[k])
        decreases !isBye, |parts| - i
      {
        if IsBye(parts[i]) {
          isBye := true;
        }
        i := i + 1;
      }
    }

    // ------------------------------------------------------------ the own entry

    method CreateOwnSSRC(ssrc: u32) returns (status: Verdict)
      requires Valid()
      modifies this
      ensures Valid() && status == CreateOwn(old(Model()), ssrc).1
      ensures Model() == CreateOwn(old(Model()), ssrc).0
      ensures forall i :: 0 <= i < |entries| ==> entries[i] in old(entries) || (fresh(entries[i]) && fresh(entries[i].stats))
    {
      hide Sound, RtpSourceData.State, States, Find, NewSource, Separate, RtpSources.Shaped;
      ghost var t := Model();
      CreateSound(t, ssrc);
      if ownData != null {
        return AlreadyHaveOwnSsrc;
      }
      var found := GotEntry(ssrc);
      assert Model() == t;
      if found {
        return SsrcExists;
      }
      AddOwn(ssrc);
      return Done;
    }

    method AddOwn(ssrc: u32)
      requires Shaped() && ownData == null && !Has(Model(), ssrc)
      modifies this
      ensures Shaped() && Model() == CreateOwn(old(Model()), ssrc).0
      ensures Extends(entries, old(entries)) && forall i :: |old(entries)| <= i < |entries| ==> fresh(entries[i]) && fresh(entries[i].stats)
    {
      hide RtpSourceData.State, States, Find, NewSource, Separate, CreateOwn, OwnEntry;
      ghost var t := Model();
      assert |t.sources| == |entries|;
      var d, created;
      ghost var k;
      d, created, k := ObtainSourceDataInstance(ssrc);
      OwnAppended(t.sources, ssrc, probationType);
      SsrcOf(k);
      ownData := d;
      MakeOwn(d, k);
      ghost var after := States(entries);
      assert after == t.sources + [OwnEntry(ssrc, probationType)];
      activeCount := activeCount + 1;
      log := log + [IsNew(ssrc)];
      OwnAdded(t, Model(), ssrc);
    }

    method MakeOwn(d: RtpSourceData, ghost k: nat)
      requires EntryIs(d, k)
      modifies d
      ensures States(entries) == old(States(entries))[k := old(d.State()).(own := true, validated := true, rtp := Slot.Known(None), rtcp := Slot.Known(None))]
    {
      hide RtpSourceData.State, States;
      ghost var before := States(entries);
      d.SetOwnSSRC();
      d.SetRTPDataAddress(None);
      d.SetRTCPDataAddress(None);
      OneChanged(entries, before, k);
    }

    /** The entry at position k leaves the table. */
    method RemoveEntry(k: nat)
      requires Separate(entries) && k < |entries|
      modifies `entries
      ensures Separate(entries) && entries == Removed(old(entries), k) && States(entries) == Removed(old(States(entries)), k)
    {
      RemovedStates(entries, k);
      hide States, Separate;
      entries := entries[..k] + entries[k + 1..];
    }

    method DeleteOwnSSRC() returns (status: Verdict)
      requires Valid()
      modifies this
      ensures Valid() && status == DeleteOwn(old(Model())).1
      ensures Model() == DeleteOwn(old(Model())).0
      ensures forall i :: 0 <= i < |entries| ==> entries[i] in old(entries)
    {
      hide Sound, RtpSourceData.State, States, Separate, RtpSources.Shaped;
      DeleteSound(Model());
      if ownData == null {
        return DontHaveOwnSsrc;
      }
      RemoveOwn();
      return Done;
    }

    method RemoveOwn()
      requires Valid() && ownData != null
      modifies this
      ensures Shaped() && Has(old(Model()), old(ownData.ssrc)) && Model() == DeleteOwn(old(Model())).0
      ensures forall i :: 0 <= i < |entries| ==> entries[i] in old(entries)
    {
      hide Sound, RtpSourceData.State, States, Find, Source.Active, RtpSourceData.IsActive, Separate, DeleteOwn;
      var own := ownData;
      ghost var t := Model();
      OwnPlace();
      var k := FindEntry(own.ssrc);
      PartOfBefore(entries, k);
      Forget(own, k);
      log := log + [IsRemoved(own.ssrc)];
      ownData := null;
      OwnDeleted(t, Model(), k);
    }

    /** An entry leaves the table, and the counters follow. */
    method Forget(d: RtpSourceData, k: nat)
      requires EntryIs(d, k)
      modifies `entries, `totalCount, `senderCount, `activeCount
      ensures Separate(entries) && entries == Removed(old(entries), k)
      ensures var s := d.State();
              && s.ssrc == d.ssrc && States(entries) == Removed(old(States(entries)), k) && old(States(entries))[k] == s
              && totalCount == old(totalCount) - 1 && senderCount == old(senderCount) - One(s.sender)
              && activeCount == old(activeCount) - One(s.Active())
    {
      hide RtpSourceData.State, States, Source.Active, RtpSourceData.IsActive, Separate;
      FlagsOf(d);
      SsrcOf(k);
      RemoveEntry(k);
      totalCount := totalCount - 1;
      if d.isSender {
        senderCount := senderCount - 1;
      }
      if d.IsActive() {
        activeCount := activeCount - 1;
      }
    }

    method Clear()
      requires Valid()
      modifies this
      ensures Valid() && Model() == EmptyTable(probationType).(log := old(log))
    {
      EmptySound(probationType, log);
      entries, ownData, totalCount, senderCount, activeCount := [], null, 0, 0, 0;
    }

    // ------------------------------------------------------------ timeouts

    /** During a pass: the entries that are left were there at its start, and the own one is among them. */
    ghost predicate Sweeping(was: Entries, own: Option<u32>)
      reads `entries, `ownData
    {
      && Separate(entries) && (forall i :: 0 <= i < |entries| ==> entries[i] in was)
      && (ownData != null ==> ownData in entries) && own == (if ownData == null then None else Some(ownData.ssrc))
      && (forall i :: 0 <= i < |entries| ==> (entries[i] == ownData <==> own == Some(entries[i].ssrc)))
    }

    lemma SweepingStarts()
      requires Valid()
      ensures Sweeping(entries, Model().own)
    {
      forall i | 0 <= i < |entries|
        ensures entries[i] == ownData <==> Model().own == Some(entries[i].ssrc)
      {
        OwnIs(i);
        SsrcOf(i);
      }
    }

    lemma SweepingHere(was: Entries, own: Option<u32>, cur: nat)
      requires Sweeping(was, own) && cur < |entries|
      ensures Separate(entries) && (entries[cur] == ownData <==> own == Some(entries[cur].ssrc))
    {
    }

    /** The current entry is dropped, and the callbacks are made. */
    method DropEntry(d: RtpSourceData, cur: nat, said: seq<Notice>, ghost was: Entries, ghost own: Option<u32>)
      requires Sweeping(was, own) && cur < |entries| && entries[cur] == d && d != ownData
      modifies `entries, `totalCount, `senderCount, `activeCount, `log
      ensures Sweeping(was, own) && States(entries) == Removed(old(States(entries)), cur) && log == old(log) + said
      ensures activeCount == old(activeCount) - One(old(d.State()).Active())
    {
      hide RtpSourceData.State, States, Separate;
      ghost var all := entries;
      Forget(d, cur);
      log := log + said;
      forall i | 0 <= i < |entries|
        ensures entries[i] == all[if i < cur then i else i + 1]
      {
      }
      if ownData != null {
        ghost var n :| 0 <= n < |all| && all[n] == ownData;
        assert entries[if n < cur then n else n - 1] == ownData;
      }
    }

    /** A timeout is told to the timer, with the active members that are left. */
    method DropAndTell(d: RtpSourceData, cur: nat, said: seq<Notice>, ghost was: Entries, ghost own: Option<u32>, clock: int)
      requires Sweeping(was, own) && cur < |entries| && entries[cur] == d && d != ownData && said != []
      modifies `entries, `totalCount, `senderCount, `activeCount, `log, timer
      ensures Sweeping(was, own) && States(entries) == Removed(old(States(entries)), cur) && log == old(log) + said
      ensures |States(entries)| == |entries|
      ensures FateTold(Drop(said), old(d.State()), old(activeCount), activeCount, old(timer.Model()), timer.Model(), clock)
    {
      hide RtpSourceData.State, States, Separate, RtcpScheduler.Model, S.MembersLeft, Source.Active;
      DropEntry(d, cur, said, was, own);
      ghost var rest := States(entries);
      assert |rest| == |entries|;
      if said[0].TimedOut? {
        timer.ActiveMemberDecrease(activeCount, clock);
      }
      assert States(entries) == rest;
    }

    method CountEntry(d: RtpSourceData, c: Counts) returns (r: Counts)
      ensures r == c.Plus(d.State())
    {
      r := c.(total := c.total + 1);
      if d.isSender {
        r := r.(senders := r.senders + 1);
      }
      if d.IsActive() {
        r := r.(active := r.active + 1);
      }
    }

    /** The outcome of a pass, before its counts replace the running ones. */
    ghost predicate Swept(t: Table, pass: Source -> Fate, c: Counts)
      reads this, entries, StatsOf(entries)
    {
      && States(entries) == Kept(t.sources, pass) && log == t.log + Said(t.sources, pass)
      && c == Counts(|entries|, SenderCount(States(entries)), ActiveCount(States(entries)))
      && t.own == (if ownData == null then None else Some(ownData.ssrc)) && probationType == t.probationType
    }

    method BYETimeout(now: RtpTime, delay: RtpTime)
      requires Valid()
      modifies this, entries, StatsOf(entries)
      ensures Valid() && Model() == ByeTimeout(old(Model()), now, delay)
    {
      hide Sound, RtpSourceData.State, States, Passing, Separate, ByePass, GeneralPass, SenderPass, NotePass, Sweep, Swept, Shaped, Sweeping, TimerSwept, RtcpScheduler.Model;
      ghost var t := Model();
      CheckSound(t, ByeCheck(now, delay));
      var c := ByeLoop(t, TimeMinus(now, delay));
      SetCounts(t, ByePass(t.own, TimeMinus(now, delay)), c);
    }

    method ByeLoop(ghost t: Table, check: RtpTime) returns (c: Counts)
      requires Valid() && t == Model()
      modifies this, entries, StatsOf(entries)
      ensures Shaped() && Swept(t, ByePass(t.own, check), c)
    {
      hide Sound, RtpSourceData.State, States, Passing, Separate, ByePass, Kept, Said;
      ghost var was, pass := entries, ByePass(t.own, check);
      var cur: nat := 0;
      c := Counts(0, 0, 0);
      ghost var n := 0;
      SweepingStarts();
      PassingStarts(t, pass);
      while cur < |entries|
        invariant Sweeping(was, t.own) && |States(entries)| == |entries| && n <= |t.sources|
        invariant Passing(t, pass, n, cur, States(entries), log, c)
        decreases |t.sources| - n
      {
        cur, c := ByeStep(t, was, n, cur, c, check);
        n := n + 1;
      }
      PassingEnds(t, pass, n, cur, States(entries), log, c);
    }

    method ByeStep(ghost t: Table, ghost was: Entries, ghost n: nat, cur: nat, c: Counts, check: RtpTime) returns (next: nat, r: Counts)
      requires Sweeping(was, t.own) && cur < |entries|
      requires Passing(t, ByePass(t.own, check), n, cur, States(entries), log, c)
      modifies `entries, `totalCount, `senderCount, `activeCount, `log
      ensures Sweeping(was, t.own) && n < |t.sources| && |States(entries)| == |entries|
      ensures Passing(t, ByePass(t.own, check), n + 1, next, States(entries), log, r)
    {
      hide RtpSourceData.State, States, Passing, Separate, Source.Active, ByePass, Counts.Plus;
      next, r := cur, c;
      var d := entries[cur];
      SsrcOf(cur);
      FlagsOf(d);
      ghost var ss := States(entries);
      PassingStep(t, ByePass(t.own, check), n, cur, ss, log, c);
      ByeFate(t.own, check, ss[cur]);
      if d.receivedBye && d != ownData && check > d.byeTime {
        DropEntry(d, cur, [ByeTimedOut(d.ssrc), IsRemoved(d.ssrc)], was, t.own);
      } else {
        assert ss[cur := ss[cur]] == ss && log + [] == log;
        r := CountEntry(d, c);
        next := cur + 1;
        assert States(entries) == ss;
      }
    }

    /** A timeout is told to the timer. */
    method Timeout(now: RtpTime, delay: RtpTime, clock: int)
      requires Valid()
      modifies this, entries, StatsOf(entries), timer
      ensures timer.Model() == TimerSwept(old(Model()), old(timer.Model()), GeneralPass(old(Model()).own, TimeMinus(now, delay)), clock)
      ensures Valid() && Model() == SourceTable.Timeout(old(Model()), now, delay)
    {
      hide Sound, RtpSourceData.State, States, Passing, Separate, ByePass, GeneralPass, SenderPass, NotePass, Sweep, Swept, Shaped, Sweeping, TimerSwept, RtcpScheduler.Model;
      ghost var t := Model();
      CheckSound(t, GeneralCheck(now, delay));
      var c := GeneralLoop(t, TimeMinus(now, delay), clock);
      SetCounts(t, GeneralPass(t.own, TimeMinus(now, delay)), c);
    }

    method GeneralLoop(ghost t: Table, check: RtpTime, clock: int) returns (c: Counts)
      requires Valid() && t == Model()
      modifies this, entries, StatsOf(entries), timer
      ensures Shaped() && Swept(t, GeneralPass(t.own, check), c)
      ensures timer.Model() == TimerSwept(t, old(timer.Model()), GeneralPass(t.own, check), clock)
    {
      hide Sound, RtpSourceData.State, States, Passing, Separate, GeneralPass, Kept, Said, LeftSoFar, FateTold, RtcpScheduler.Model, TimerSwept;
      ghost var was, pass, sched := entries, GeneralPass(t.own, check), timer.Model();
      var cur: nat := 0;
      c := Counts(0, 0, 0);
      ghost var n := 0;
      SweepingStarts();
      PassingStarts(t, pass);
      NoneLeft(t, pass, sched, clock);
      while cur < |entries|
        invariant Sweeping(was, t.own) && |States(entries)| == |entries| && n <= |t.sources|
        invariant Passing(t, pass, n, cur, States(entries), log, c)
        invariant LeftSoFar(t, pass, n, activeCount, sched, timer.Model(), clock)
        decreases |t.sources| - n
      {
        ghost var active, before := activeCount, timer.Model();
        cur, c := GeneralStep(t, was, n, cur, c, check, clock);
        LeftOneMore(t, pass, n, active, activeCount, sched, before, timer.Model(), clock);
        n := n + 1;
      }
      PassingEnds(t, pass, n, cur, States(entries), log, c);
      AllLeft(t, pass, n, activeCount, sched, timer.Model(), clock);
    }

    method GeneralStep(ghost t: Table, ghost was: Entries, ghost n: nat, cur: nat, c: Counts, check: RtpTime, clock: int) returns (next: nat, r: Counts)
      requires Sweeping(was, t.own) && cur < |entries|
      requires Passing(t, GeneralPass(t.own, check), n, cur, States(entries), log, c)
      modifies `entries, `totalCount, `senderCount, `activeCount, `log, timer
      ensures Sweeping(was, t.own) && n < |t.sources| && |States(entries)| == |entries|
      ensures Passing(t, GeneralPass(t.own, check), n + 1, next, States(entries), log, r)
      ensures FateTold(GeneralPass(t.own, check)(t.sources[n]), t.sources[n], old(activeCount), activeCount, old(timer.Model()), timer.Model(), clock)
    {
      hide RtpSourceData.State, States, Passing, Separate, Source.Active, GeneralPass, Counts.Plus, RtcpScheduler.Model, S.MembersLeft;
      next, r := cur, c;
      var d := entries[cur];
      SsrcOf(cur);
      FlagsOf(d);
      ghost var ss := States(entries);
      PassingStep(t, GeneralPass(t.own, check), n, cur, ss, log, c);
      GeneralFate(t.own, check, ss[cur]);
      if d != ownData && d.stats.lastMsgTime < check {
        DropAndTell(d, cur, [TimedOut(d.ssrc), IsRemoved(d.ssrc)], was, t.own, clock);
      } else {
        assert ss[cur := ss[cur]] == ss && log + [] == log;
        r := CountEntry(d, c);
        next := cur + 1;
        assert States(entries) == ss;
      }
    }

    method SenderTimeout(now: RtpTime, delay: RtpTime)
      requires Valid()
      modifies this, entries, StatsOf(entries)
      ensures Valid() && Model() == SourceTable.SenderTimeout(old(Model()), now, delay)
    {
      hide Sound, RtpSourceData.State, States, Passing, Separate, ByePass, GeneralPass, SenderPass, NotePass, Sweep, Swept, Shaped, Sweeping, TimerSwept, RtcpScheduler.Model;
      ghost var t := Model();
      CheckSound(t, SenderCheck(now, delay));
      var c := SenderLoop(t, TimeMinus(now, delay));
      SetCounts(t, SenderPass(TimeMinus(now, delay)), c);
    }

    method SenderLoop(ghost t: Table, check: RtpTime) returns (c: Counts)
      requires Valid() && t == Model()
      modifies this, entries, StatsOf(entries)
      ensures Shaped() && Swept(t, SenderPass(check), c)
    {
      hide Sound, RtpSourceData.State, States, Passing, Separate, SenderPass, Kept, Said;
      ghost var was, pass := entries, SenderPass(check);
      var cur: nat := 0;
      c := Counts(0, 0, 0);
      ghost var n := 0;
      SweepingStarts();
      PassingStarts(t, pass);
      while cur < |entries|
        invariant Sweeping(was, t.own) && |States(entries)| == |entries| && n <= |t.sources|
        invariant Passing(t, pass, n, cur, States(entries), log, c)
        decreases |t.sources| - n
      {
        cur, c := SenderStep(t, was, n, cur, c, check);
        n := n + 1;
      }
      PassingEnds(t, pass, n, cur, States(entries), log, c);
    }

    method SenderStep(ghost t: Table, ghost was: Entries, ghost n: nat, cur: nat, c: Counts, check: RtpTime) returns (next: nat, r: Counts)
      requires Sweeping(was, t.own) && cur < |entries|
      requires Passing(t, SenderPass(check), n, cur, States(entries), log, c)
      modifies `senderCount, entries
      ensures Sweeping(was, t.own) && n < |t.sources| && |States(entries)| == |entries|
      ensures Passing(t, SenderPass(check), n + 1, next, States(entries), log, r)
    {
      hide RtpSourceData.State, States, Passing, Separate, Source.Active, SenderPass, Counts.Plus;
      next, r := cur, c;
      var d := entries[cur];
      SsrcOf(cur);
      FlagsOf(d);
      ghost var ss := States(entries);
      PassingStep(t, SenderPass(check), n, cur, ss, log, c);
      SenderFate(check, ss[cur]);
      if d.isSender && d.stats.lastRtpTime < check {
        ClearSender(d, cur);
        senderCount := senderCount - 1;
        FlagsOf(d);
      }
      assert ss[cur := ss[cur]] == ss && log + [] == log;
      ghost var s2 := SenderPass(check)(ss[cur]).source;
      assert d.State() == s2 && States(entries) == ss[cur := s2];
      r := CountEntry(d, c);
      next := cur + 1;
      assert r == c.Plus(s2) && States(entries) == ss[cur := s2];
    }

    method NoteTimeout(now: RtpTime, delay: RtpTime)
      requires Valid()
      modifies this, entries, StatsOf(entries)
      ensures Valid() && Model() == SourceTable.NoteTimeout(old(Model()), now, delay)
    {
      hide Sound, RtpSourceData.State, States, Passing, Separate, ByePass, GeneralPass, SenderPass, NotePass, Sweep, Swept, Shaped, Sweeping, TimerSwept, RtcpScheduler.Model;
      ghost var t := Model();
      CheckSound(t, NoteCheck(now, delay));
      var c := NoteLoop(t, TimeMinus(now, delay));
      SetCounts(t, NotePass(TimeMinus(now, delay)), c);
    }

    method NoteLoop(ghost t: Table, check: RtpTime) returns (c: Counts)
      requires Valid() && t == Model()
      modifies this, entries, StatsOf(entries)
      ensures Shaped() && Swept(t, NotePass(check), c)
    {
      hide Sound, RtpSourceData.State, States, Passing, Separate, NotePass, Kept, Said;
      ghost var was, pass := entries, NotePass(check);
      var cur: nat := 0;
      c := Counts(0, 0, 0);
      ghost var n := 0;
      SweepingStarts();
      PassingStarts(t, pass);
      while cur < |entries|
        invariant Sweeping(was, t.own) && |States(entries)| == |entries| && n <= |t.sources|
        invariant Passing(t, pass, n, cur, States(entries), log, c)
        decreases |t.sources| - n
      {
        cur, c := NoteStep(t, was, n, cur, c, check);
        n := n + 1;
      }
      PassingEnds(t, pass, n, cur, States(entries), log, c);
    }

    method NoteStep(ghost t: Table, ghost was: Entries, ghost n: nat, cur: nat, c: Counts, check: RtpTime) returns (next: nat, r: Counts)
      requires Sweeping(was, t.own) && cur < |entries|
      requires Passing(t, NotePass(check), n, cur, States(entries), log, c)
      modifies `log, entries
      ensures Sweeping(was, t.own) && n < |t.sources| && |States(entries)| == |entries|
      ensures Passing(t, NotePass(check), n + 1, next, States(entries), log, r)
    {
      hide RtpSourceData.State, States, Passing, Separate, Source.Active, NotePass, Counts.Plus;
      next, r := cur, c;
      var d := entries[cur];
      SsrcOf(cur);
      FlagsOf(d);
      ghost var ss := States(entries);
      PassingStep(t, NotePass(check), n, cur, ss, log, c);
      NoteFate(check, ss[cur]);
      assert ss[cur := ss[cur]] == ss && log + [] == log;
      if NOTE in d.sdes && d.sdes[NOTE] != [] && check > d.stats.lastNoteTime {
        ClearNoteOf(d, cur);
        log := log + [NoteTimedOut(d.ssrc)];
        FlagsOf(d);
      }
      ghost var s2 := NotePass(check)(ss[cur]).source;
      assert d.State() == s2 && States(entries) == ss[cur := s2];
      r := CountEntry(d, c);
      next := cur + 1;
      assert r == c.Plus(s2) && States(entries) == ss[cur := s2];
    }

    method MultipleTimeouts(now: RtpTime, sender: RtpTime, bye: RtpTime, general: RtpTime, note: RtpTime, clock: int)
      requires Valid()
      modifies this, entries, StatsOf(entries), timer
      ensures timer.Model() == TimerSwept(old(Model()), old(timer.Model()),
                                          FusedPass(old(Model()).own, TimeMinus(now, sender), TimeMinus(now, bye),
                                                    TimeMinus(now, general), TimeMinus(now, note)), clock)
      ensures Valid() && Model() == SourceTable.MultipleTimeouts(old(Model()), now, sender, bye, general, note)
      ensures forall i :: 0 <= i < |entries| ==> entries[i] in old(entries)
    {
      hide Sound, RtpSourceData.State, States, Passing, Separate, FusedPass, Sweep, Swept, Shaped, Sweeping, TimerSwept, RtcpScheduler.Model;
      ghost var t := Model();
      CheckSound(t, AllChecks(now, sender, bye, general, note));
      var check := Limits(TimeMinus(now, sender), TimeMinus(now, bye), TimeMinus(now, general), TimeMinus(now, note));
      var c := FusedLoop(t, check, clock);
      SetCounts(t, check.Pass(t.own), c);
    }

    method SetCounts(ghost t: Table, ghost pass: Source -> Fate, c: Counts)
      requires Shaped() && Swept(t, pass, c)
      modifies `totalCount, `senderCount, `activeCount
      ensures Shaped() && Model() == Sweep(t, pass)
    {
      hide RtpSourceData.State, States, Separate, Kept, Said;
      assert |States(entries)| == |entries|;
      totalCount, senderCount, activeCount := c.total, c.senders, c.active;
    }

    method FusedLoop(ghost t: Table, check: Limits, clock: int) returns (c: Counts)
      requires Valid() && t == Model()
      modifies this, entries, StatsOf(entries), timer
      ensures Shaped() && Swept(t, check.Pass(t.own), c)
      ensures timer.Model() == TimerSwept(t, old(timer.Model()), check.Pass(t.own), clock)
      ensures forall i :: 0 <= i < |entries| ==> entries[i] in old(entries)
    {
      hide Sound, RtpSourceData.State, States, Passing, Separate, Limits.Pass, Kept, Said, LeftSoFar, FateTold, RtcpScheduler.Model, TimerSwept;
      ghost var was, pass, sched := entries, check.Pass(t.own), timer.Model();
      var cur: nat := 0;
      c := Counts(0, 0, 0);
      ghost var n := 0;
      SweepingStarts();
      PassingStarts(t, pass);
      NoneLeft(t, pass, sched, clock);
      while cur < |entries|
        invariant Sweeping(was, t.own) && |States(entries)| == |entries| && n <= |t.sources|
        invariant Passing(t, pass, n, cur, States(entries), log, c)
        invariant LeftSoFar(t, pass, n, activeCount, sched, timer.Model(), clock)
        decreases |t.sources| - n
      {
        ghost var active, before := activeCount, timer.Model();
        cur, c := FusedStep(t, was, n, cur, c, check, clock);
        LeftOneMore(t, pass, n, active, activeCount, sched, before, timer.Model(), clock);
        n := n + 1;
      }
      PassingEnds(t, pass, n, cur, States(entries), log, c);
      AllLeft(t, pass, n, activeCount, sched, timer.Model(), clock);
    }

    method FusedStep(ghost t: Table, ghost was: Entries, ghost n: nat, cur: nat, c: Counts, check: Limits, clock: int) returns (next: nat, r: Counts)
      requires Sweeping(was, t.own) && cur < |entries|
      requires Passing(t, check.Pass(t.own), n, cur, States(entries), log, c)
      modifies `entries, `totalCount, `senderCount, `activeCount, `log, entries, timer
      ensures Sweeping(was, t.own) && n < |t.sources| && |States(entries)| == |entries|
      ensures Passing(t, check.Pass(t.own), n + 1, next, States(entries), log, r)
      ensures FateTold(check.Pass(t.own)(t.sources[n]), t.sources[n], old(activeCount), activeCount, old(timer.Model()), timer.Model(), clock)
    {
      hide RtpSourceData.State, States, Passing, Separate, Source.Active, RtpSourceData.IsActive, Limits.Pass, Counts.Plus, NoteOld, RtcpScheduler.Model, S.MembersLeft, RtpSources.Sweeping;
      next, r := cur, c;
      var d := entries[cur];
      SsrcOf(cur);
      SweepingHere(was, t.own, cur);
      ghost var ss := States(entries);
      PassingStep(t, check.Pass(t.own), n, cur, ss, log, c);
      FusedFate(t.own, check, ss[cur]);
      NoteKeepsActive(ss[cur]);
      FlagsOf(d);
      var noteTimeout := TimeOutNote(d, cur, check.note);
      FlagsOf(d);
      ghost var cleared := States(entries);
      var said := Verdict(d, check);
      assert States(entries) == cleared == ss[cur := d.State()];
      if said != [] {
        assert Removed(ss[cur := d.State()], cur) == Removed(ss, cur);
        DropAndTell(d, cur, said, was, t.own, clock);
      } else {
        r := Retain(d, cur, c, check.sender, noteTimeout);
        next := cur + 1;
        ghost var s2 := check.Pass(t.own)(ss[cur]).source;
        assert States(entries) == ss[cur := s2] && r == c.Plus(s2);
      }
    }

    /** The fused pass clears an old note before it knows whether the entry stays. */
    method TimeOutNote(d: RtpSourceData, ghost cur: nat, check: RtpTime) returns (noteTimeout: bool)
      requires Separate(entries) && cur < |entries| && entries[cur] == d
      modifies d
      ensures noteTimeout == NoteOld(old(d.State()), check)
      ensures d.State() == if noteTimeout then WithoutNote(old(d.State())) else old(d.State())
      ensures States(entries) == old(States(entries))[cur := d.State()]
    {
      hide RtpSourceData.State, States;
      FlagsOf(d);
      SsrcOf(cur);
      noteTimeout := NOTE in d.sdes && d.sdes[NOTE] != [] && check > d.stats.lastNoteTime;
      if noteTimeout {
        ClearNoteOf(d, cur);
      }
    }

    /** The callbacks for an entry that is to go; none, if it stays. */
    method Verdict(d: RtpSourceData, check: Limits) returns (said: seq<Notice>)
      ensures said == if d.receivedBye && d != ownData && check.bye > d.byeTime then [ByeTimedOut(d.ssrc), IsRemoved(d.ssrc)]
                      else if d != ownData && d.stats.lastMsgTime < check.general then [TimedOut(d.ssrc), IsRemoved(d.ssrc)]
                      else []
    {
      said := [];
      if d.receivedBye && d != ownData && check.bye > d.byeTime {
        said := [ByeTimedOut(d.ssrc), IsRemoved(d.ssrc)];
      }
      if said == [] && d != ownData && d.stats.lastMsgTime < check.general {
        said := [TimedOut(d.ssrc), IsRemoved(d.ssrc)];
      }
    }

    method Retain(d: RtpSourceData, ghost cur: nat, c: Counts, check: RtpTime, noteTimeout: bool) returns (r: Counts)
      requires Separate(entries) && cur < |entries| && entries[cur] == d
      modifies `senderCount, `log, d
      ensures var s := old(d.State());
              var s2 := if s.sender && s.stats.lastRtpTime < check then s.(sender := false) else s;
              r == c.Plus(s2) && States(entries) == old(States(entries))[cur := s2]
      ensures log == old(log) + if noteTimeout then [NoteTimedOut(d.ssrc)] else []
    {
      hide RtpSourceData.State, States, Source.Active, RtpSourceData.IsActive, Counts.Plus;
      FlagsOf(d);
      SsrcOf(cur);
      ghost var ss := States(entries);
      if d.isSender && d.stats.lastRtpTime < check {
        ClearSender(d, cur);
        senderCount := senderCount - 1;
      }
      ghost var s2 := d.State();
      assert States(entries) == ss[cur := s2];
      r := CountEntry(d, c);
      assert States(entries) == ss[cur := s2];
      if noteTimeout {
        log := log + [NoteTimedOut(d.ssrc)];
      }
    }

    method ClearSender(d: RtpSourceData, ghost k: nat)
      requires Separate(entries) && k < |entries| && entries[k] == d
      modifies d
      ensures d.State() == old(d.State()).(sender := false) && States(entries) == old(States(entries))[k := d.State()]
    {
      hide RtpSourceData.State, States;
      ghost var before := States(entries);
      d.ClearSenderFlag();
      OneChanged(entries, before, k);
    }

    method ClearNoteOf(d: RtpSourceData, ghost k: nat)
      requires Separate(entries) && k < |entries| && entries[k] == d
      modifies d
      ensures d.State() == WithoutNote(old(d.State())) && States(entries) == old(States(entries))[k := d.State()]
    {
      hide RtpSourceData.State, States;
      ghost var before := States(entries);
      FlagsOf(d);
      d.ClearNote();
      OneChanged(entries, before, k);
    }
  }

  datatype Counts = Counts(total: int, senders: int, active: int) {
    function Plus(s: Source): Counts {
      Counts(total + 1, senders + One(s.sender), active + One(s.Active()))
    }
  }

  /** A pass over table t has dealt with n entries: what is left of them are the cur first ones of ss. */
  ghost predicate Passing(t: Table, pass: Source -> Fate, n: nat, cur: nat, ss: seq<Source>, log: seq<Notice>, c: Counts) {
    && n <= |t.sources|
    && ss == Kept(t.sources[..n], pass) + t.sources[n..] && cur == |Kept(t.sources[..n], pass)|
    && log == t.log + Said(t.sources[..n], pass)
    && c == Counts(cur, SenderCount(Kept(t.sources[..n], pass)), ActiveCount(Kept(t.sources[..n], pass)))
  }

  lemma {:induction false} PassingStarts(t: Table, pass: Source -> Fate)
    ensures Passing(t, pass, 0, 0, t.sources, t.log, Counts(0, 0, 0))
  {
    assert t.sources[..0] == [] && [] + t.sources[0..] == t.sources && t.log + [] == t.log;
  }

  lemma {:induction false} PassingEnds(t: Table, pass: Source -> Fate, n: nat, cur: nat, ss: seq<Source>, log: seq<Notice>, c: Counts)
    requires Passing(t, pass, n, cur, ss, log, c) && cur >= |ss|
    ensures n == |t.sources| && ss == Kept(t.sources, pass) && log == t.log + Said(t.sources, pass)
    ensures c == Counts(|ss|, SenderCount(ss), ActiveCount(ss))
  {
    assert t.sources[..n] == t.sources;
    assert ss == Kept(t.sources, pass);
  }

  lemma {:induction false} PassingStep(t: Table, pass: Source -> Fate, n: nat, cur: nat, ss: seq<Source>, log: seq<Notice>, c: Counts)
    requires Passing(t, pass, n, cur, ss, log, c) && cur < |ss|
    ensures n < |t.sources| && ss[cur] == t.sources[n]
    ensures match pass(ss[cur])
            case Keep(s, said) => Passing(t, pass, n + 1, cur + 1, ss[cur := s], log + said, c.Plus(s))
            case Drop(said) => Passing(t, pass, n + 1, cur, Removed(ss, cur), log + said, c)
  {
    var kept, s, rest := Kept(t.sources[..n], pass), t.sources[n], t.sources[n + 1..];
    assert t.sources[..n + 1] == t.sources[..n] + [s];
    KeptAppend(t.sources[..n], s, pass);
    hide Kept, Said, SenderCount, ActiveCount;
    SplitAt(kept, t.sources, n);
    match pass(s)
    case Keep(r, said) =>
      CountsAppend(kept, r);
      assert ss[cur := r] == kept + [r] + rest;
      assert log + said == t.log + (Said(t.sources[..n], pass) + said);
    case Drop(said) =>
      assert Removed(ss, cur) == kept + rest && kept + [] == kept;
      assert log + said == t.log + (Said(t.sources[..n], pass) + said);
  }

  /** What one entry's fate does to the active counter and to the timer. */
  ghost predicate FateTold(f: Fate, s: Source, active: int, after: int, sched: S.State, later: S.State, clock: int) {
    match f
    case Keep(_, _) => after == active && later == sched
    case Drop(said) =>
      after == active - One(s.Active())
      && later == if said != [] && said[0].TimedOut? then S.MembersLeft(sched, after, clock) else sched
  }

  ghost predicate LeftSoFar(t: Table, pass: Source -> Fate, n: nat, active: int, sched: S.State, now: S.State, clock: int) {
    n <= |t.sources| && active == Leavings(t.sources[..n], pass, t.active).1
    && now == LeaveAll(sched, Leavings(t.sources[..n], pass, t.active).0, clock)
  }

  lemma {:induction false} NoneLeft(t: Table, pass: Source -> Fate, sched: S.State, clock: int)
    ensures LeftSoFar(t, pass, 0, t.active, sched, sched, clock)
  {
    assert t.sources[..0] == [];
  }

  lemma {:induction false} LeftOneMore(t: Table, pass: Source -> Fate, n: nat, active: int, after: int,
                                       sched: S.State, before: S.State, now: S.State, clock: int)
    requires n < |t.sources| && LeftSoFar(t, pass, n, active, sched, before, clock)
    requires FateTold(pass(t.sources[n]), t.sources[n], active, after, before, now, clock)
    ensures LeftSoFar(t, pass, n + 1, after, sched, now, clock)
  {
    hide S.MembersLeft, Leavings, LeaveAll;
    LeavingsStep(t.sources, n, pass, t.active, sched, clock);
  }

  lemma {:induction false} AllLeft(t: Table, pass: Source -> Fate, n: nat, active: int, sched: S.State, now: S.State, clock: int)
    requires LeftSoFar(t, pass, n, active, sched, now, clock) && n == |t.sources|
    ensures now == TimerSwept(t, sched, pass, clock)
  {
    assert t.sources[..n] == t.sources;
  }

  lemma {:induction false} SplitAt<T>(kept: seq<T>, s: seq<T>, n: nat)
    requires n < |s|
    ensures kept + s[n..] == kept + [s[n]] + s[n + 1..]
  {
  }

  lemma {:induction false} ByeFate(own: Option<u32>, check: RtpTime, s: Source)
    ensures ByePass(own, check)(s) == if s.receivedBye && own != Some(s.ssrc) && check > s.byeTime
                                      then Drop([ByeTimedOut(s.ssrc), IsRemoved(s.ssrc)]) else Keep(s, [])
  {
  }

  lemma {:induction false} GeneralFate(own: Option<u32>, check: RtpTime, s: Source)
    ensures GeneralPass(own, check)(s) == if own != Some(s.ssrc) && s.stats.lastMsgTime < check
                                          then Drop([TimedOut(s.ssrc), IsRemoved(s.ssrc)]) else Keep(s, [])
  {
  }

  lemma {:induction false} SenderFate(check: RtpTime, s: Source)
    ensures SenderPass(check)(s) == Keep(if s.sender && s.stats.lastRtpTime < check then s.(sender := false) else s, [])
  {
  }

  lemma {:induction false} NoteFate(check: RtpTime, s: Source)
    ensures NotePass(check)(s) == if NOTE in s.sdes && s.sdes[NOTE] != [] && check > s.stats.lastNoteTime
                                  then Keep(WithoutNote(s), [NoteTimedOut(s.ssrc)]) else Keep(s, [])
  {
  }

  /** The times before which something counts as too old. */
  datatype Limits = Limits(sender: RtpTime, bye: RtpTime, general: RtpTime, note: RtpTime) {
    ghost function Pass(own: Option<u32>): Source -> Fate {
      FusedPass(own, sender, bye, general, note)
    }
  }

  lemma {:induction false} FusedFate(own: Option<u32>, check: Limits, s: Source)
    ensures var n := if NoteOld(s, check.note) then WithoutNote(s) else s;
            check.Pass(own)(s) ==
              if s.receivedBye && own != Some(s.ssrc) && check.bye > s.byeTime then Drop([ByeTimedOut(s.ssrc), IsRemoved(s.ssrc)])
              else if own != Some(s.ssrc) && s.stats.lastMsgTime < check.general then Drop([TimedOut(s.ssrc), IsRemoved(s.ssrc)])
              else Keep(if n.sender && n.stats.lastRtpTime < check.sender then n.(sender := false) else n,
                        if NoteOld(s, check.note) then [NoteTimedOut(s.ssrc)] else [])
  {
  }

  lemma {:induction false} NoteKeepsActive(s: Source)
    ensures WithoutNote(s).Active() == s.Active()
  {
  }

  function WithoutNote(s: Source): Source {
    s.(sdes := s.sdes[NOTE := []])
  }

  lemma {:induction false} CheckSound(t: Table, e: Event)
    requires Sound(t) && IsCheck(e)
    ensures Sound(Step(t, e))
  {
    StepSound(t, e);
  }

  lemma {:induction false} NothingDone(t: Table, now: RtpTime, from: Option<Address>)
    ensures Perform(t, [], now, from) == (t, Done)
    ensures forall ssrc :: ItemActions(ssrc, []) == []
    ensures forall reason: bytes :: ByeActions([], reason) == []
    ensures ChunksActions([]) == [] && forall own :: AllActions([], own) == []
  {
  }

  lemma {:induction false} NothingTold(t: Table, sched: S.State, now: RtpTime, clock: int, from: Option<Address>)
    ensures TimerAfter(t, sched, [], now, clock, from) == sched
  {
  }

  lemma {:induction false} ByeForOwn(t: Table, k: nat, created: bool, reason: bytes, now: RtpTime, from: Option<Address>)
    requires k < |t.sources|
    ensures IsOwn(t, t.sources[k]) ==> Apply(t, k, created, Bye(reason), now, from).0 == t
  {
  }

  /** Which goodbyes are told: not a colliding one, and not one for the own entry. */
  lemma {:induction false} ByeTold(t: Table, sched: S.State, ssrc: u32, reason: bytes, now: RtpTime, clock: int, from: Option<Address>)
    ensures var (u, k) := Obtain(t, ssrc);
            var o, v := Opened(t, ssrc, from, false), RtcpIn(t, ssrc, Bye(reason), now, from).0;
            && k < |u.sources| == |o.sources|
            && v == (if Has(t, ssrc) && Collides(u.sources[k], from, false) then u.(log := u.log + [Collision(ssrc, from, false)])
                     else Apply(o, k, !Has(t, ssrc), Bye(reason), now, from).0)
            && AfterAction(sched, t, (ssrc, Report.Bye(reason)), v, clock)
               == if (Has(t, ssrc) && Collides(u.sources[k], from, false)) || IsOwn(o, o.sources[k]) then sched
                  else S.MembersLeft(sched, v.active, clock)
  {
    hide Collides, S.MembersLeft;
  }

  lemma {:induction false} ItemKeepsActive(s: Source, id: nat, data: bytes, now: RtpTime)
    ensures s.Active() ==> Described(s, id, data, now).0.Active()
    ensures !SaidBye(s, data, now).Active()
  {
  }

  lemma {:induction false} OwnAppended(ss: seq<Source>, ssrc: u32, probationType: ProbationType)
    ensures var s := NewSource(ssrc, probationType);
            (ss + [s])[|ss|] == s && (ss + [s])[|ss| := s.(own := true, validated := true, rtp := Slot.Known(None), rtcp := Slot.Known(None))]
                                     == ss + [OwnEntry(ssrc, probationType)]
  {
  }

  lemma {:induction false} FreshCsrc(ssrc: u32, probationType: ProbationType)
    ensures var s := NewSource(ssrc, probationType).(csrc := true, validated := true); s.Active() && s.ssrc == ssrc
  {
  }

  lemma {:induction false} NewNeverCollides(t: Table, ssrc: u32, from: Option<Address>, isRtp: bool)
    requires !Has(t, ssrc)
    ensures var (u, k) := Obtain(t, ssrc); !Collides(u.sources[k], from, isRtp)
  {
  }

  lemma {:induction false} QueueOf(t: Table, k: nat)
    requires k < |t.sources| && EntryOk(t.own, t.sources[k])
    ensures QueueOk(t.sources[k])
  {
  }

  lemma {:induction false} FindIs(ss: seq<Source>, ssrc: u32, k: nat)
    requires k <= |ss| && (k < |ss| ==> ss[k].ssrc == ssrc) && forall i :: 0 <= i < k ==> ss[i].ssrc != ssrc
    ensures Find(ss, ssrc) == k
  {
  }

  lemma {:induction false} PartOfBefore(entries: Entries, k: nat)
    requires k < |entries|
    ensures forall i :: 0 <= i < |Removed(entries, k)| ==> Removed(entries, k)[i] in entries
  {
  }

  /** The own entry has left, and the counters have followed. */
  lemma {:induction false} OwnDeleted(t: Table, u: Table, k: nat)
    requires t.own.Some? && k == Find(t.sources, t.own.value) < |t.sources| && u.sources == Removed(t.sources, k) && u.own == None
    requires u.total == t.total - 1 && u.senders == t.senders - One(t.sources[k].sender) && u.active == t.active - One(t.sources[k].Active())
    requires u.probationType == t.probationType && u.log == t.log + [IsRemoved(t.own.value)]
    ensures Has(t, t.own.value) && u == DeleteOwn(t).0
  {
  }

  /** The own entry has come, and the counters have followed. */
  lemma {:induction false} OwnAdded(t: Table, u: Table, ssrc: u32)
    requires t.own == None && !Has(t, ssrc) && u.own == Some(ssrc)
    requires u.sources == t.sources + [OwnEntry(ssrc, t.probationType)] && u.log == t.log + [IsNew(ssrc)]
    requires u.total == t.total + 1 && u.active == t.active + 1 && u.senders == t.senders && u.probationType == t.probationType
    ensures u == CreateOwn(t, ssrc).0
  {
  }
}
