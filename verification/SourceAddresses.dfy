/**
 The addresses of a source over whole runs: one whose data packets come from one address, and whose control packets
 come from one address on the same host, is never taken for a collision.
 */
module SourceAddresses {
  import opened Bytes
  import opened RtpPacket
  import opened SourceStats
  import opened SourceData
  import opened SourceTable
  import opened SourceTableRuns
  import opened SourceLives
  import H = SourceTableHistory

  /** An event that is not about the source, or one that comes from where the source is. */
  predicate FromHome(e: Event, ssrc: u32, data: Address, control: Address) {
    match e
    case Create(own) => own != ssrc
    case Rtp(p, _, _, from) => p.ssrc == ssrc || ssrc in p.csrcs ==> from == Some(data)
    case Rtcp(who, _, _, from) => who == ssrc ==> from == Some(control)
    case _ => true
  }

  /** The source has no other address than these. */
  predicate AtHome(l: Life, data: Address, control: Address) {
    (l.rtp == Unset || l.rtp == Known(Some(data))) && (l.rtcp == Unset || l.rtcp == Known(Some(control)))
  }

  lemma {:induction false} TimesIn(csrcs: seq<u32>, ssrc: u32)
    ensures Times(csrcs, ssrc) > 0 <==> ssrc in csrcs
  {
    if csrcs != [] {
      TimesIn(csrcs[..|csrcs| - 1], ssrc);
      assert csrcs == csrcs[..|csrcs| - 1] + [csrcs[|csrcs| - 1]];
    }
  }

  lemma {:induction false} HomeIsWelcome(s: Source, data: Address, control: Address)
    requires AtHome(LifeIn(s), data, control) && data.host == control.host
    ensures !Clash(s, Some(data), true) && !Clash(s, Some(control), false)
  {
  }

  lemma {:induction false} LivedAtHome(l: Life, t: Table, e: Event, ssrc: u32, data: Address, control: Address)
    requires AtHome(l, data, control) && FromHome(e, ssrc, data, control)
    ensures AtHome(Lived(l, t, e, ssrc), data, control)
    ensures l.rtp.Known? ==> Lived(l, t, e, ssrc).rtp.Known?
    ensures l.rtcp.Known? ==> Lived(l, t, e, ssrc).rtcp.Known?
    ensures SendsData(t, e, ssrc) ==> Lived(l, t, e, ssrc).rtp.Known?
    ensures e.Rtcp? && Reports(t, e, ssrc) ==> Lived(l, t, e, ssrc).rtcp.Known?
  {
    hide Counts, Welcome, Describes;
    if e.Rtp? {
      TimesIn(e.packet.csrcs, ssrc);
    }
  }

  /** Over every run the entry has no other address, so that none of its packets is a collision. */
  lemma {:induction false} StaysAtHome(probationType: ProbationType, events: seq<Event>, n: nat, ssrc: u32, data: Address, control: Address)
    requires n <= |events| && forall i :: 0 <= i < |events| ==> FromHome(events[i], ssrc, data, control)
    ensures AtHome(LifeAt(probationType, events, n, ssrc), data, control)
  {
    hide TableAt, LifeAt, FromHome, AtHome, Makes, Leaves, Lived;
    NowhereIsHome(data, control);
    if n > 0 {
      StaysAtHome(probationType, events, n - 1, ssrc, data, control);
      LifeExact(probationType, events, n - 1, ssrc);
      LivedAtHome(LifeAt(probationType, events, n - 1, ssrc), TableAt(probationType, events, n - 1), events[n - 1], ssrc, data, control);
    } else {
      StartsUnknown(probationType, events, ssrc);
    }
  }

  lemma {:induction false} NowhereIsHome(data: Address, control: Address)
    ensures AtHome(UNKNOWN, data, control)
  {
  }

  // ---------------------------------------------------------------- what is reported

  /** The event is about the source. */
  predicate Names(e: Event, ssrc: u32) {
    (e.Rtp? && (e.packet.ssrc == ssrc || ssrc in e.packet.csrcs)) || (e.Rtcp? && e.ssrc == ssrc)
  }

  /** These are notices of other things than a collision of the source. */
  predicate Quiet(log: seq<Notice>, ssrc: u32) {
    forall i :: 0 <= i < |log| && log[i].Collision? ==> log[i].ssrc != ssrc
  }

  /** Nothing but such notices is added. */
  predicate Spared(t: Table, u: Table, ssrc: u32) {
    |t.log| <= |u.log| && u.log[..|t.log|] == t.log && Quiet(u.log[|t.log|..], ssrc)
  }

  lemma {:induction false} SparedTwice(t: Table, u: Table, v: Table, ssrc: u32)
    requires Spared(t, u, ssrc) && Spared(u, v, ssrc)
    ensures Spared(t, v, ssrc)
  {
    var a, b := u.log[|t.log|..], v.log[|u.log|..];
    assert v.log[|t.log|..] == a + b;
    assert v.log[..|t.log|] == u.log[..|t.log|];
  }

  lemma {:induction false} SparedAdds(t: Table, u: Table, more: seq<Notice>, ssrc: u32)
    requires u.log == t.log + more && Quiet(more, ssrc)
    ensures Spared(t, u, ssrc)
  {
    assert u.log[..|t.log|] == t.log && u.log[|t.log|..] == more;
  }

  lemma {:induction false} ListedSpared(t: Table, csrcs: seq<u32>, from: Option<Address>, ssrc: u32)
    requires Sound(t) && (ssrc in csrcs ==> Welcome(t, ssrc, from, true))
    ensures Spared(t, MarkCsrcs(t, csrcs, from), ssrc)
  {
    hide Sound, Spared, Welcome, MarkCsrc;
    if csrcs == [] {
      SparedAdds(t, t, [], ssrc);
    } else {
      var front, csrc := csrcs[..|csrcs| - 1], csrcs[|csrcs| - 1];
      var u := MarkCsrcs(t, front, from);
      ListedSpared(t, front, from, ssrc);
      ListedLife(t, front, from, ssrc);
      OneSpared(u, csrc, from, ssrc);
      SparedTwice(t, u, MarkCsrc(u, csrc, from), ssrc);
    }
  }

  lemma {:induction false} OneSpared(t: Table, csrc: u32, from: Option<Address>, ssrc: u32)
    requires Sound(t) && (ssrc == csrc ==> Welcome(t, ssrc, from, true))
    ensures Spared(t, MarkCsrc(t, csrc, from), ssrc)
  {
    hide Sound, Spared, Collides, Bound, Clash, WithAddress, AddressesFit;
    FitsHere(t, csrc);
    CollisionExact(H.EntryOf(t, csrc), from, true);
    var k := Find(t.sources, csrc);
    SparedAdds(t, MarkCsrc(t, csrc, from),
               if k == |t.sources| then [IsNew(csrc)] else if Collides(t.sources[k], from, true) then [Collision(csrc, from, true)] else [], ssrc);
  }

  lemma {:induction false} PacketSpared(t: Table, e: Event, ssrc: u32)
    requires Sound(t) && e.Rtp? && (e.packet.ssrc == ssrc ==> Welcome(t, ssrc, e.from, true))
    ensures Spared(t, PacketOnly(t, e.packet, e.now, e.tsUnit, e.from).0, ssrc)
  {
    hide Sound, Spared, Collides, Bound, Clash, WithAddress, AddressesFit, Received;
    var p, from := e.packet, e.from;
    OpenedEntry(t, p.ssrc, from, true, ssrc);
    FitsHere(t, p.ssrc);
    var (u, k) := Obtain(t, p.ssrc);
    var x := PacketOnly(t, p, e.now, e.tsUnit, from).0;
    SparedAdds(t, x, if Has(t, p.ssrc) && Collides(u.sources[k], from, true) then [Collision(p.ssrc, from, true)]
                     else if Has(t, p.ssrc) then [] else [IsNew(p.ssrc)], ssrc);
  }

  lemma {:induction false} RtpSpared(t: Table, e: Event, ssrc: u32)
    requires Sound(t) && e.Rtp? && (Names(e, ssrc) ==> Welcome(t, ssrc, e.from, true))
    ensures Spared(t, RtpPacketIn(t, e.packet, e.now, e.tsUnit, e.from).0, ssrc)
  {
    hide Sound, Spared, PacketOnly, MarkCsrcs, Welcome, Counts, LifeIn;
    var u := PacketOnly(t, e.packet, e.now, e.tsUnit, e.from).0;
    PacketSound(t, e.packet, e.now, e.tsUnit, e.from);
    PacketSpared(t, e, ssrc);
    if ListCounts(t, e) {
      PacketLife(t, e, ssrc);
      FitsHere(t, ssrc);
      StillWelcome(t, u, e, ssrc);
      ListedSpared(u, e.packet.csrcs, e.from, ssrc);
      SparedTwice(t, u, MarkCsrcs(u, e.packet.csrcs, e.from), ssrc);
    } else {
      PacketLife(t, e, ssrc);
    }
  }

  lemma {:induction false} RtcpSpared(t: Table, e: Event, ssrc: u32)
    requires Sound(t) && e.Rtcp? && (e.ssrc == ssrc ==> Welcome(t, ssrc, e.from, false))
    ensures Spared(t, RtcpIn(t, e.ssrc, e.report, e.now, e.from).0, ssrc)
  {
    hide Sound, Spared, Collides, Bound, Clash, WithAddress, AddressesFit, Described, SaidBye, Heard;
    var from := e.from;
    OpenedEntry(t, e.ssrc, from, false, ssrc);
    FitsHere(t, e.ssrc);
    var (u, k) := Obtain(t, e.ssrc);
    var x := RtcpIn(t, e.ssrc, e.report, e.now, from).0;
    if e.report.Item? && !(CNAME <= e.report.id <= NOTE) {
      SparedAdds(t, x, [], ssrc);
    } else if Has(t, e.ssrc) && Collides(u.sources[k], from, false) {
      SparedAdds(t, x, [Collision(e.ssrc, from, false)], ssrc);
    } else {
      AppliedSpared(Replace(u, k, Bound(u.sources[k], from, false)), k, !Has(t, e.ssrc), e, ssrc);
      SparedAdds(t, x, x.log[|t.log|..], ssrc);
    }
  }

  lemma {:induction false} AppliedSpared(t: Table, k: nat, created: bool, e: Event, ssrc: u32)
    requires e.Rtcp? && k < |t.sources|
    ensures var u := Apply(t, k, created, e.report, e.now, e.from).0;
            |t.log| <= |u.log| && u.log == t.log + u.log[|t.log|..] && Quiet(u.log[|t.log|..], ssrc)
  {
    hide Described, SaidBye, Heard;
  }

  /** A pass makes no notice of a collision. */
  lemma {:induction false} SaidQuiet(ss: seq<Source>, own: Option<u32>, e: Event, ssrc: u32)
    requires IsCheck(e)
    ensures Quiet(Said(ss, PassOf(own, e)), ssrc)
  {
    hide NoteOld, TimeMinus;
    if ss != [] {
      SaidQuiet(ss[..|ss| - 1], own, e, ssrc);
    }
  }

  lemma {:induction false} StepSpared(t: Table, e: Event, ssrc: u32)
    requires Sound(t) && (e.Rtp? && Names(e, ssrc) ==> Welcome(t, ssrc, e.from, true))
    requires e.Rtcp? && e.ssrc == ssrc ==> Welcome(t, ssrc, e.from, false)
    ensures Spared(t, Step(t, e), ssrc)
  {
    hide Sound, Spared, Welcome, RtpPacketIn, RtcpIn, Sweep;
    OwnHas(t);
    if IsCheck(e) {
      hide Step;
      CheckIsSweep(t, e);
      SaidQuiet(t.sources, t.own, e, ssrc);
      SweepSpared(t, PassOf(t.own, e), ssrc);
    } else if e.Rtp? {
      RtpSpared(t, e, ssrc);
    } else if e.Rtcp? {
      RtcpSpared(t, e, ssrc);
    } else {
      SparedAdds(t, Step(t, e), Step(t, e).log[|t.log|..], ssrc);
    }
  }

  lemma {:induction false} SweepSpared(t: Table, pass: Source -> Fate, ssrc: u32)
    requires Quiet(Said(t.sources, pass), ssrc)
    ensures Spared(t, Sweep(t, pass), ssrc)
  {
    SparedAdds(t, Sweep(t, pass), Said(t.sources, pass), ssrc);
  }

  /**
   A source whose data packets all come from one address and whose control packets all come from one address on the
   same host, whoever else sends: no run reports a collision for it, it has no other addresses, and it keeps both from
   its first data packet and its first report on.
   */
  lemma {:induction false} HomeExact(probationType: ProbationType, events: seq<Event>, n: nat, ssrc: u32, data: Address, control: Address)
    requires n <= |events| && data.host == control.host
    requires forall i :: 0 <= i < |events| ==> FromHome(events[i], ssrc, data, control)
    ensures Quiet(TableAt(probationType, events, n).log, ssrc)
    ensures AtHome(LifeAt(probationType, events, n, ssrc), data, control)
  {
    hide TableAt, LifeAt, AtHome, Makes, Leaves, Lived, Step, Clash;
    StaysAtHome(probationType, events, n, ssrc, data, control);
    if n > 0 {
      var t, e := TableAt(probationType, events, n - 1), events[n - 1];
      HomeExact(probationType, events, n - 1, ssrc, data, control);
      HomeWelcomes(probationType, events, n - 1, ssrc, data, control);
      AtStep(probationType, events, n - 1);
      StepSpared(t, e, ssrc);
      SparedQuiet(t, Step(t, e), ssrc);
    } else {
      AtStart(probationType, events);
    }
  }

  lemma {:induction false} AtStart(probationType: ProbationType, events: seq<Event>)
    ensures TableAt(probationType, events, 0).log == []
  {
    EmptySound(probationType, []);
  }

  lemma {:induction false} SparedQuiet(t: Table, u: Table, ssrc: u32)
    requires Spared(t, u, ssrc) && Quiet(t.log, ssrc)
    ensures Quiet(u.log, ssrc)
  {
    assert u.log == t.log + u.log[|t.log|..];
  }

  lemma {:induction false} HomeWelcomes(probationType: ProbationType, events: seq<Event>, n: nat, ssrc: u32, data: Address, control: Address)
    requires n <= |events| && data.host == control.host
    requires AtHome(LifeAt(probationType, events, n, ssrc), data, control)
    ensures Welcome(TableAt(probationType, events, n), ssrc, Some(data), true) && Welcome(TableAt(probationType, events, n), ssrc, Some(control), false)
  {
    HomeIsWelcome(H.EntryOf(TableAt(probationType, events, n), ssrc), data, control);
  }

  /** Both addresses are known once the source has sent data and a report while its entry is there. */
  lemma {:induction false} BothBound(probationType: ProbationType, events: seq<Event>, b: nat, n: nat, ssrc: u32, data: Address, control: Address)
    requires Since(probationType, events, b, n, ssrc) && data.host == control.host
    requires forall i :: 0 <= i < |events| ==> FromHome(events[i], ssrc, data, control)
    ensures (exists i :: b <= i < n && events[i].Rtp? && events[i].packet.ssrc == ssrc)
              ==> LifeAt(probationType, events, n, ssrc).rtp == Known(Some(data))
    ensures (exists i :: b <= i < n && events[i].Rtcp? && events[i].ssrc == ssrc && events[i].report.Alive?)
              ==> LifeAt(probationType, events, n, ssrc).rtcp == Known(Some(control))
    decreases n
  {
    hide TableAt, LifeAt, AtHome, Makes, Leaves, Lived;
    StaysAtHome(probationType, events, n - 1, ssrc, data, control);
    StaysAtHome(probationType, events, n, ssrc, data, control);
    HomeWelcomes(probationType, events, n - 1, ssrc, data, control);
    LifeExact(probationType, events, n - 1, ssrc);
    LivedAtHome(LifeAt(probationType, events, n - 1, ssrc), TableAt(probationType, events, n - 1), events[n - 1], ssrc, data, control);
    KnownAtHome(LifeAt(probationType, events, n, ssrc), data, control);
    if b < n - 1 {
      BothBound(probationType, events, b, n - 1, ssrc, data, control);
    }
  }

  lemma {:induction false} KnownAtHome(l: Life, data: Address, control: Address)
    requires AtHome(l, data, control)
    ensures l.rtp.Known? ==> l.rtp == Known(Some(data))
    ensures l.rtcp.Known? ==> l.rtcp == Known(Some(control))
  {
  }
}
