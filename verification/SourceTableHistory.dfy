/** The source table over whole runs: what its active counter misses, and to which addresses an entry is bound. */
module SourceTableHistory {
  import opened Bytes
  import opened RtpPacket
  import opened SourceStats
  import opened SourceData
  import opened SourceTable
  import opened SourceTableRuns

  function Run(t: Table, events: seq<Event>): (r: Table)
    requires Sound(t)
    ensures Sound(r)
  {
    if events == [] then t
    else
      StepSound(Run(t, events[..|events| - 1]), events[|events| - 1]);
      Step(Run(t, events[..|events| - 1]), events[|events| - 1])
  }

  // ---------------------------------------------------------------- the active counter

  function Gap(t: Table): int {
    ActiveCount(t.sources) - t.active
  }

  /** A contributing source that was known but not yet active becomes so without being counted. */
  predicate Uncounted(t: Table, csrc: u32, from: Option<Address>) {
    var k := Find(t.sources, csrc);
    k < |t.sources| && !Collides(t.sources[k], from, true) && !t.sources[k].validated && !t.sources[k].receivedBye
  }

  function UncountedAmong(t: Table, csrcs: seq<u32>, from: Option<Address>): nat {
    if csrcs == [] then 0
    else UncountedAmong(t, csrcs[..|csrcs| - 1], from)
         + One(Uncounted(MarkCsrcs(t, csrcs[..|csrcs| - 1], from), csrcs[|csrcs| - 1], from))
  }

  function UncountedBy(t: Table, e: Event): nat {
    if e.Rtp? then
      var (u, stored, csrcs) := PacketOnly(t, e.packet, e.now, e.tsUnit, e.from);
      if csrcs then UncountedAmong(u, e.packet.csrcs, e.from) else 0
    else 0
  }

  /** How many active entries the counter has missed since it was last made exact. */
  function Missed(t: Table, events: seq<Event>): int
    requires Sound(t)
  {
    if events == [] then Gap(t)
    else
      var front, last := events[..|events| - 1], events[|events| - 1];
      if IsCheck(last) || last.Clear? then 0 else Missed(t, front) + UncountedBy(Run(t, front), last)
  }

  lemma {:induction false} GapOfReplace(t: Table, k: nat, s: Source, active: int)
    requires k < |t.sources|
    ensures Gap(Replace(t, k, s).(active := active)) == Gap(t) - One(t.sources[k].Active()) + One(s.Active()) - (active - t.active)
  {
    CountsReplace(t.sources, k, s);
  }

  lemma {:induction false} GapOfCsrc(t: Table, csrc: u32, from: Option<Address>)
    ensures Gap(MarkCsrc(t, csrc, from)) == Gap(t) + One(Uncounted(t, csrc, from))
  {
    hide Collides;
    var k := Find(t.sources, csrc);
    if k == |t.sources| {
      CountsAppend(t.sources, NewSource(csrc, t.probationType).(validated := true, csrc := true));
    } else if !Collides(t.sources[k], from, true) {
      GapOfReplace(t, k, MarkCsrc(t, csrc, from).sources[k], t.active);
    }
  }

  lemma {:induction false} GapOfCsrcs(t: Table, csrcs: seq<u32>, from: Option<Address>)
    ensures Gap(MarkCsrcs(t, csrcs, from)) == Gap(t) + UncountedAmong(t, csrcs, from)
  {
    hide MarkCsrc, Gap, Uncounted;
    if csrcs != [] {
      GapOfCsrcs(t, csrcs[..|csrcs| - 1], from);
      GapOfCsrc(MarkCsrcs(t, csrcs[..|csrcs| - 1], from), csrcs[|csrcs| - 1], from);
    }
  }

  lemma {:induction false} GapOfOpened(t: Table, ssrc: u32, from: Option<Address>, isRtp: bool)
    ensures var (u, k) := Obtain(t, ssrc);
            Gap(u) == Gap(t) == Gap(Opened(t, ssrc, from, isRtp))
  {
    var (u, k) := Obtain(t, ssrc);
    if k == |t.sources| {
      CountsAppend(t.sources, NewSource(ssrc, t.probationType));
    }
    BoundFlags(u.sources[k], from, isRtp);
    GapOfReplace(u, k, Bound(u.sources[k], from, isRtp), u.active);
  }

  lemma {:induction false} BoundFlags(s: Source, from: Option<Address>, isRtp: bool)
    ensures Bound(s, from, isRtp).Active() == s.Active() && Bound(s, from, isRtp).ssrc == s.ssrc
  {
  }

  lemma {:induction false} GapOfDeliver(t: Table, k: nat, p: Packet, now: RtpTime, tsUnit: real)
    requires Sound(t) && k < |t.sources|
    ensures Gap(Deliver(t, k, p, now, tsUnit).0) == Gap(t)
  {
    hide Received, Sound, EntryOk;
    EntryAt(t, k);
    ReceivedOk(t.own, t.sources[k], p, now, tsUnit);
    var u := Deliver(t, k, p, now, tsUnit).0;
    GapOfReplace(t, k, u.sources[k], u.active);
  }

  lemma {:induction false} GapOfPacket(t: Table, p: Packet, now: RtpTime, tsUnit: real, from: Option<Address>)
    requires Sound(t)
    ensures Gap(PacketOnly(t, p, now, tsUnit, from).0) == Gap(t)
  {
    hide Deliver, Sound, Bound, Collides;
    OpenedSound(t, p.ssrc, from, true);
    GapOfOpened(t, p.ssrc, from, true);
    var (u, k) := Obtain(t, p.ssrc);
    if !(Has(t, p.ssrc) && Collides(u.sources[k], from, true)) {
      GapOfDeliver(Opened(t, p.ssrc, from, true), k, p, now, tsUnit);
    }
  }

  lemma {:induction false} GapOfApply(t: Table, k: nat, created: bool, r: Report, now: RtpTime, from: Option<Address>)
    requires Sound(t) && k < |t.sources|
    ensures Gap(Apply(t, k, created, r, now, from).0) == Gap(t)
  {
    hide Sound, EntryOk, Described, Heard, SaidBye;
    EntryAt(t, k);
    var s := t.sources[k];
    var u := Apply(t, k, created, r, now, from).0;
    match r
    case Alive =>
      AliveFlags(s, now);
      GapOfReplace(t, k, Heard(s, now), t.active);
    case Item(id, data) =>
      DescribedOk(t.own, s, id, data, now);
      GapOfReplace(t, k, Described(s, id, data, now).0, u.active);
    case Bye(reason) =>
      if !IsOwn(t, s) {
        ByeFlags(s, reason, now);
        GapOfReplace(t, k, SaidBye(s, reason, now), u.active);
      }
  }

  lemma {:induction false} GapOfRtcp(t: Table, ssrc: u32, r: Report, now: RtpTime, from: Option<Address>)
    requires Sound(t)
    ensures Gap(RtcpIn(t, ssrc, r, now, from).0) == Gap(t)
  {
    hide Sound, Apply, Bound, Collides;
    OpenedSound(t, ssrc, from, false);
    GapOfOpened(t, ssrc, from, false);
    var (u, k) := Obtain(t, ssrc);
    if !(r.Item? && !(CNAME <= r.id <= NOTE)) && !(Has(t, ssrc) && Collides(u.sources[k], from, false)) {
      GapOfApply(Opened(t, ssrc, from, false), k, !Has(t, ssrc), r, now, from);
    }
  }

  lemma {:induction false} OwnPresent(t: Table)
    requires Sound(t)
    ensures t.own.Some? ==> Has(t, t.own.value)
  {
  }

  /** The counter falls behind by exactly the contributing sources that were known but not active. */
  lemma {:induction false} StepGap(t: Table, e: Event)
    requires Sound(t)
    ensures Gap(Step(t, e)) == if IsCheck(e) || e.Clear? then 0 else Gap(t) + UncountedBy(t, e)
  {
    hide Sound, MarkCsrcs, PacketOnly, RtcpIn, Sweep, Sent;
    if IsCheck(e) {
      StepSound(t, e);
    }
    OwnPresent(t);
    match e
    case Create(ssrc) =>
      CountsAppend(t.sources, OwnEntry(ssrc, t.probationType));
      OwnEntryOk(ssrc, t.probationType);
    case Delete =>
      if t.own.Some? {
        CountsRemove(t.sources, Find(t.sources, t.own.value));
      }
    case SentRtp(now) =>
      if t.own.Some? {
        var k := Find(t.sources, t.own.value);
        SentFlags(t.sources[k], now);
        GapOfReplace(t, k, Sent(t.sources[k], now), t.active);
      }
    case Rtp(p, now, tsUnit, from) =>
      GapOfPacket(t, p, now, tsUnit, from);
      GapOfCsrcs(PacketOnly(t, p, now, tsUnit, from).0, p.csrcs, from);
    case Rtcp(ssrc, r, now, from) => GapOfRtcp(t, ssrc, r, now, from);
    case TakePacket(ssrc) =>
      var k := Find(t.sources, ssrc);
      if k < |t.sources| && t.sources[k].validated && t.sources[k].queue != [] {
        GapOfReplace(t, k, t.sources[k].(queue := t.sources[k].queue[1..]), t.active);
      }
    case _ =>
  }

  lemma {:induction false} RunGap(t: Table, events: seq<Event>)
    requires Sound(t)
    ensures Gap(Run(t, events)) == Missed(t, events)
    ensures 0 <= Missed(t, events)
  {
    hide Step, UncountedBy, IsCheck, Sound, Gap;
    if events == [] {
      GapAtLeastZero(t);
    } else {
      RunGap(t, events[..|events| - 1]);
      StepGap(Run(t, events[..|events| - 1]), events[|events| - 1]);
    }
  }

  lemma {:induction false} GapAtLeastZero(t: Table)
    requires Sound(t)
    ensures 0 <= Gap(t)
  {
  }

  lemma {:induction false} EmptyIsSound(probationType: ProbationType)
    ensures Sound(EmptyTable(probationType))
  {
  }

  /**
   In every reachable state the totals are exact, and the active counter is short by exactly what it missed
   since the last timeout pass.
   */
  lemma {:induction false} Counters(probationType: ProbationType, events: seq<Event>)
    ensures Sound(EmptyTable(probationType))
    ensures var t := Run(EmptyTable(probationType), events);
            && t.total == |t.sources| && t.senders == SenderCount(t.sources)
            && t.active == ActiveCount(t.sources) - Missed(EmptyTable(probationType), events) <= ActiveCount(t.sources)
  {
    hide Run, Missed;
    EmptyIsSound(probationType);
    RunGap(EmptyTable(probationType), events);
  }

  // ---------------------------------------------------------------- addresses

  predicate Stays(a: Slot, b: Slot) {
    a.Known? ==> b == a
  }

  predicate NameStays(s: Source, r: Source, id: nat) {
    s.Item(id) != [] ==> r.Item(id) == s.Item(id)
  }

  /** The items that are set once: CNAME, name, e-mail and tool. */
  predicate NamesStayed(s: Source, r: Source) {
    NameStays(s, r, CNAME) && NameStays(s, r, NAME) && NameStays(s, r, EMAIL) && NameStays(s, r, TOOL)
  }

  lemma {:induction false} SameItems(s: Source, r: Source)
    requires r.sdes == s.sdes || r.sdes == s.sdes[NOTE := []]
    ensures NamesStayed(s, r)
  {
  }

  lemma {:induction false} DescribedNames(s: Source, id: nat, data: bytes, now: RtpTime)
    ensures NamesStayed(s, Described(s, id, data, now).0)
  {
    hide Described, Source.Item;
    var r := Described(s, id, data, now).0;
    if s.Item(CNAME) != [] { NamesStay(s, id, data, now, CNAME); }
    if s.Item(NAME) != [] { NamesStay(s, id, data, now, NAME); }
    if s.Item(EMAIL) != [] { NamesStay(s, id, data, now, EMAIL); }
    if s.Item(TOOL) != [] { NamesStay(s, id, data, now, TOOL); }
  }

  lemma {:induction false} NamesStayedTwice(a: Source, b: Source, c: Source)
    requires NamesStayed(a, b) && NamesStayed(b, c)
    ensures NamesStayed(a, c)
  {
    hide Source.Item;
  }

  predicate SameBinding(s: Source, r: Source) {
    s.ssrc == r.ssrc && Stays(s.rtp, r.rtp) && Stays(s.rtcp, r.rtcp) && NamesStayed(s, r)
  }

  /** The table has only grown: each entry is where it was, with the addresses it had. */
  predicate Grown(ss: seq<Source>, rr: seq<Source>) {
    |ss| <= |rr| && forall i :: 0 <= i < |ss| ==> SameBinding(ss[i], rr[i])
  }

  /** The table has only shrunk: each entry was there before, with the addresses it has. */
  predicate Shrunk(ss: seq<Source>, rr: seq<Source>) {
    forall i :: 0 <= i < |rr| ==> Descends(ss, rr[i])
  }

  predicate Descends(ss: seq<Source>, r: Source) {
    exists j :: 0 <= j < |ss| && SameBinding(ss[j], r)
  }

  lemma {:induction false} GrownTwice(a: seq<Source>, b: seq<Source>, c: seq<Source>)
    requires Grown(a, b) && Grown(b, c)
    ensures Grown(a, c)
  {
    hide NamesStayed;
    forall i | 0 <= i < |a|
      ensures SameBinding(a[i], c[i])
    {
      NamesStayedTwice(a[i], b[i], c[i]);
    }
  }

  /** At most one entry has changed, and others may have been added. */
  lemma {:induction false} OneGrown(ss: seq<Source>, rr: seq<Source>, k: nat)
    requires |ss| <= |rr| && forall i :: 0 <= i < |ss| && i != k ==> rr[i] == ss[i]
    requires k < |ss| ==> SameBinding(ss[k], rr[k])
    ensures Grown(ss, rr)
  {
    hide SameBinding;
    forall i | 0 <= i < |ss|
      ensures SameBinding(ss[i], rr[i])
    {
      BindsItself(ss[i]);
    }
  }

  lemma {:induction false} ReplaceGrown(t: Table, k: nat, s: Source)
    requires k < |t.sources| && SameBinding(t.sources[k], s)
    ensures Grown(t.sources, Replace(t, k, s).sources)
  {
    hide SameBinding, Grown;
    OneGrown(t.sources, Replace(t, k, s).sources, k);
  }

  lemma {:induction false} OpenedGrown(t: Table, ssrc: u32, from: Option<Address>, isRtp: bool)
    ensures Grown(t.sources, Obtain(t, ssrc).0.sources) && Grown(t.sources, Opened(t, ssrc, from, isRtp).sources)
  {
    hide SameBinding, Grown, Bound, NewSource;
    var (u, k) := Obtain(t, ssrc);
    BoundSame(u.sources[k], from, isRtp);
    OneGrown(t.sources, u.sources, |t.sources|);
    OneGrown(t.sources, Opened(t, ssrc, from, isRtp).sources, k);
  }

  lemma {:induction false} BoundSame(s: Source, from: Option<Address>, isRtp: bool)
    ensures SameBinding(s, Bound(s, from, isRtp))
    ensures SameBinding(s, Bound(s, from, isRtp).(validated := true, csrc := true))
  {
    hide NamesStayed;
    SameItems(s, Bound(s, from, isRtp));
    SameItems(s, Bound(s, from, isRtp).(validated := true, csrc := true));
  }

  lemma {:induction false} CsrcGrown(t: Table, csrc: u32, from: Option<Address>)
    ensures Grown(t.sources, MarkCsrc(t, csrc, from).sources)
  {
    hide Collides, NewSource, Bound, SameBinding, Grown;
    var k := Find(t.sources, csrc);
    if k < |t.sources| {
      BoundSame(t.sources[k], from, true);
      BindsItself(t.sources[k]);
    }
    OneGrown(t.sources, MarkCsrc(t, csrc, from).sources, k);
  }

  lemma {:induction false} NoneGrown(ss: seq<Source>)
    ensures Grown(ss, ss)
  {
    OneGrown(ss, ss, |ss|);
  }

  lemma {:induction false} CsrcsGrown(t: Table, csrcs: seq<u32>, from: Option<Address>)
    ensures Grown(t.sources, MarkCsrcs(t, csrcs, from).sources)
  {
    hide MarkCsrc, Grown;
    if csrcs != [] {
      var u := MarkCsrcs(t, csrcs[..|csrcs| - 1], from);
      CsrcsGrown(t, csrcs[..|csrcs| - 1], from);
      CsrcGrown(u, csrcs[|csrcs| - 1], from);
      GrownTwice(t.sources, u.sources, MarkCsrcs(t, csrcs, from).sources);
    } else {
      NoneGrown(t.sources);
    }
  }

  lemma {:induction false} ReceivedSame(s: Source, p: Packet, now: RtpTime, tsUnit: real)
    ensures SameBinding(s, Received(s, p, now, tsUnit).0)
  {
    hide NamesStayed, Processed, Evicted, Insert, HasNumber;
    SameItems(s, Received(s, p, now, tsUnit).0);
  }

  lemma {:induction false} ReportSame(s: Source, r: Report, now: RtpTime)
    ensures SameBinding(s, s) && SameBinding(s, Heard(s, now))
    ensures r.Item? ==> SameBinding(s, Described(s, r.id, r.data, now).0)
    ensures r.Bye? ==> SameBinding(s, SaidBye(s, r.reason, now))
  {
    hide NamesStayed;
    BindsItself(s);
    SameItems(s, Heard(s, now));
    if r.Item? {
      DescribedNames(s, r.id, r.data, now);
    }
    if r.Bye? {
      SameItems(s, SaidBye(s, r.reason, now));
    }
  }

  lemma {:induction false} PacketGrown(t: Table, p: Packet, now: RtpTime, tsUnit: real, from: Option<Address>)
    requires Sound(t)
    ensures Grown(t.sources, PacketOnly(t, p, now, tsUnit, from).0.sources)
  {
    hide Sound, Received, EntryOk, Bound, Collides, SameBinding, Grown;
    OpenedSound(t, p.ssrc, from, true);
    OpenedGrown(t, p.ssrc, from, true);
    var (u, k) := Obtain(t, p.ssrc);
    if !(Has(t, p.ssrc) && Collides(u.sources[k], from, true)) {
      var v := Opened(t, p.ssrc, from, true);
      ReceivedSame(v.sources[k], p, now, tsUnit);
      ReplaceGrown(v, k, Received(v.sources[k], p, now, tsUnit).0);
      GrownTwice(t.sources, v.sources, Deliver(v, k, p, now, tsUnit).0.sources);
    }
  }

  lemma {:induction false} RtcpGrown(t: Table, ssrc: u32, r: Report, now: RtpTime, from: Option<Address>)
    requires Sound(t)
    ensures Grown(t.sources, RtcpIn(t, ssrc, r, now, from).0.sources)
  {
    hide Sound, EntryOk, Bound, Collides, SameBinding, Grown, Described, SaidBye, Heard;
    OpenedSound(t, ssrc, from, false);
    OpenedGrown(t, ssrc, from, false);
    var (u, k) := Obtain(t, ssrc);
    var x := RtcpIn(t, ssrc, r, now, from).0;
    if !(r.Item? && !(CNAME <= r.id <= NOTE)) && !(Has(t, ssrc) && Collides(u.sources[k], from, false)) {
      var v := Opened(t, ssrc, from, false);
      ReportSame(v.sources[k], r, now);
      assert x.sources == v.sources[k := x.sources[k]];
      ReplaceGrown(v, k, x.sources[k]);
      GrownTwice(t.sources, v.sources, x.sources);
    } else {
      OpenedGrown(t, ssrc, from, false);
      NoneGrown(t.sources);
    }
  }

  ghost predicate PassBinds(pass: Source -> Fate) {
    forall s {:trigger pass(s)} :: pass(s).Keep? ==> SameBinding(s, pass(s).source)
  }

  lemma {:induction false} KeptShrunk(ss: seq<Source>, pass: Source -> Fate)
    requires PassBinds(pass)
    ensures Shrunk(ss, Kept(ss, pass))
  {
    hide SameBinding;
    if ss != [] {
      var front := ss[..|ss| - 1];
      KeptShrunk(front, pass);
      var r := Kept(ss, pass);
      forall i | 0 <= i < |r|
        ensures Descends(ss, r[i])
      {
        if i < |Kept(front, pass)| {
          var j :| 0 <= j < |front| && SameBinding(front[j], Kept(front, pass)[i]);
          assert SameBinding(ss[j], r[i]);
        } else {
          assert SameBinding(ss[|ss| - 1], r[i]);
        }
      }
    }
  }

  lemma {:induction false} PassesBind(own: Option<u32>, sender: RtpTime, bye: RtpTime, general: RtpTime, note: RtpTime)
    ensures PassBinds(ByePass(own, bye)) && PassBinds(GeneralPass(own, general)) && PassBinds(SenderPass(sender))
    ensures PassBinds(NotePass(note)) && PassBinds(FusedPass(own, sender, bye, general, note))
  {
    hide NoteOld, NamesStayed;
    forall s: Source, t: Source | t.sdes == s.sdes || t.sdes == s.sdes[NOTE := []]
      ensures NamesStayed(s, t)
    {
      SameItems(s, t);
    }
  }

  lemma {:induction false} SentGrown(t: Table, now: RtpTime)
    requires t.own.Some? ==> Has(t, t.own.value)
    ensures Grown(t.sources, SentPacket(t, now).sources)
  {
    hide NamesStayed, Grown;
    NoneGrown(t.sources);
    if t.own.Some? {
      var k := Find(t.sources, t.own.value);
      SameItems(t.sources[k], Sent(t.sources[k], now));
      ReplaceGrown(t, k, Sent(t.sources[k], now));
    }
  }

  lemma {:induction false} TakeGrown(t: Table, ssrc: u32)
    ensures Grown(t.sources, Take(t, ssrc).sources)
  {
    hide NamesStayed, Grown;
    NoneGrown(t.sources);
    var k := Find(t.sources, ssrc);
    if k < |t.sources| && t.sources[k].queue != [] {
      var r := t.sources[k].(queue := t.sources[k].queue[1..]);
      SameItems(t.sources[k], r);
      ReplaceGrown(t, k, r);
    }
  }

  /** No step changes an address that was set, as long as the entry stays. */
  lemma {:induction false} StepBinds(t: Table, e: Event)
    requires Sound(t)
    ensures Grown(t.sources, Step(t, e).sources) || Shrunk(t.sources, Step(t, e).sources)
  {
    hide Sound, PassBinds, RtpPacketIn, RtcpIn, MarkCsrcs, PacketOnly, Shrunk, Grown, SameBinding, Sent, OwnEntry;
    OwnPresent(t);
    match e
    case Create(ssrc) => OneGrown(t.sources, CreateOwn(t, ssrc).0.sources, |t.sources|);
    case Delete => RemovedShrunk(t);
    case SentRtp(now) => SentGrown(t, now);
    case Rtp(p, now, tsUnit, from) =>
      RtpGrown(t, p, now, tsUnit, from);
    case Rtcp(ssrc, r, now, from) => RtcpGrown(t, ssrc, r, now, from);
    case ByeCheck(now, delay) =>
      PassesBind(t.own, 0, TimeMinus(now, delay), 0, 0);
      KeptShrunk(t.sources, ByePass(t.own, TimeMinus(now, delay)));
    case GeneralCheck(now, delay) =>
      PassesBind(t.own, 0, 0, TimeMinus(now, delay), 0);
      KeptShrunk(t.sources, GeneralPass(t.own, TimeMinus(now, delay)));
    case SenderCheck(now, delay) =>
      PassesBind(t.own, TimeMinus(now, delay), 0, 0, 0);
      KeptShrunk(t.sources, SenderPass(TimeMinus(now, delay)));
    case NoteCheck(now, delay) =>
      PassesBind(t.own, 0, 0, 0, TimeMinus(now, delay));
      KeptShrunk(t.sources, NotePass(TimeMinus(now, delay)));
    case AllChecks(now, sender, bye, general, note) =>
      var s, b, g, n := TimeMinus(now, sender), TimeMinus(now, bye), TimeMinus(now, general), TimeMinus(now, note);
      PassesBind(t.own, s, b, g, n);
      KeptShrunk(t.sources, FusedPass(t.own, s, b, g, n));
    case TakePacket(ssrc) => TakeGrown(t, ssrc);
    case Clear => NothingShrunk(t.sources);
  }

  lemma {:induction false} RtpGrown(t: Table, p: Packet, now: RtpTime, tsUnit: real, from: Option<Address>)
    requires Sound(t)
    ensures Grown(t.sources, RtpPacketIn(t, p, now, tsUnit, from).0.sources)
  {
    hide Sound, PacketOnly, MarkCsrcs, Grown;
    var u := PacketOnly(t, p, now, tsUnit, from).0;
    PacketGrown(t, p, now, tsUnit, from);
    CsrcsGrown(u, p.csrcs, from);
    GrownTwice(t.sources, u.sources, MarkCsrcs(u, p.csrcs, from).sources);
  }

  lemma {:induction false} NothingShrunk(ss: seq<Source>)
    ensures Shrunk(ss, [])
  {
  }

  lemma {:induction false} BindsItself(s: Source)
    ensures SameBinding(s, s)
  {
  }

  lemma {:induction false} PartShrunk(ss: seq<Source>, rr: seq<Source>)
    requires forall i :: 0 <= i < |rr| ==> rr[i] in ss
    ensures Shrunk(ss, rr)
  {
    forall i | 0 <= i < |rr|
      ensures Descends(ss, rr[i])
    {
      var j :| 0 <= j < |ss| && ss[j] == rr[i];
      BindsItself(ss[j]);
    }
  }

  lemma {:induction false} RemovedShrunk(t: Table)
    requires t.own.Some? ==> Has(t, t.own.value)
    ensures Shrunk(t.sources, DeleteOwn(t).0.sources)
  {
    hide Shrunk;
    PartShrunk(t.sources, DeleteOwn(t).0.sources);
  }

  /** The entry of a source; a new one where there is none. */
  function EntryOf(t: Table, ssrc: u32): Source {
    if Has(t, ssrc) then t.sources[Find(t.sources, ssrc)] else NewSource(ssrc, t.probationType)
  }

  lemma {:induction false} StepKeepsEntry(t: Table, e: Event, ssrc: u32)
    requires Sound(t) && Has(t, ssrc) && Has(Step(t, e), ssrc)
    ensures SameBinding(EntryOf(t, ssrc), EntryOf(Step(t, e), ssrc))
  {
    hide Step;
    StepBinds(t, e);
    StepSound(t, e);
    var u := Step(t, e);
    var k, n := Find(t.sources, ssrc), Find(u.sources, ssrc);
    if Grown(t.sources, u.sources) {
      Present(u.sources, k, ssrc);
    } else {
      var j :| 0 <= j < |t.sources| && SameBinding(t.sources[j], u.sources[n]);
      Present(t.sources, j, ssrc);
    }
  }

  /**
   Over every run during which an entry stays in the table, the addresses, CNAME, name, e-mail and tool that it has
   at some time are the ones it has at every later time; and two known addresses are both local or on the same host.
   */
  lemma {:induction false} AddressesBound(t: Table, events: seq<Event>, ssrc: u32)
    requires Sound(t) && forall n :: 0 <= n <= |events| ==> Has(Run(t, events[..n]), ssrc)
    ensures Has(t, ssrc) && Has(Run(t, events), ssrc)
    ensures SameBinding(EntryOf(t, ssrc), EntryOf(Run(t, events), ssrc))
    ensures AddressesFit(EntryOf(Run(t, events), ssrc))
  {
    hide Step, Sound, AddressesFit, EntryOk;
    assert events[..|events|] == events && Has(Run(t, events[..0]), ssrc);
    EntryFits(Run(t, events), ssrc);
    if events != [] {
      var front := events[..|events| - 1];
      forall n | 0 <= n <= |front|
        ensures Has(Run(t, front[..n]), ssrc)
      {
        assert front[..n] == events[..n];
      }
      AddressesBound(t, front, ssrc);
      StepKeepsEntry(Run(t, front), events[|events| - 1], ssrc);
    }
  }

  lemma {:induction false} EntryFits(t: Table, ssrc: u32)
    requires Sound(t) && Has(t, ssrc)
    ensures AddressesFit(EntryOf(t, ssrc))
  {
    EntryAt(t, Find(t.sources, ssrc));
  }

  // ---------------------------------------------------------------- collisions

  /** What a packet from an address may do to a table: the entries it collides with stay as they are. */
  ghost predicate Respects(t: Table, u: Table, from: Option<Address>, isRtp: bool) {
    && |t.sources| <= |u.sources|
    && (forall i :: 0 <= i < |t.sources| && Collides(t.sources[i], from, isRtp) ==> u.sources[i] == t.sources[i])
    && (forall i :: 0 <= i < |t.sources| && !Collides(t.sources[i], from, isRtp) ==> !Collides(u.sources[i], from, isRtp))
    && (forall i :: |t.sources| <= i < |u.sources| ==> !Collides(u.sources[i], from, isRtp))
    && |t.log| <= |u.log| && u.log[..|t.log|] == t.log
    && (forall i :: |t.log| <= i < |u.log| && u.log[i].Collision? ==> Flagged(t, u.log[i], from, isRtp))
  }

  /** The notice is about an entry of the table that the address collides with. */
  ghost predicate Flagged(t: Table, n: Notice, from: Option<Address>, isRtp: bool) {
    n.Collision? && n.from == from && n.isRtp == isRtp
    && exists k :: 0 <= k < |t.sources| && t.sources[k].ssrc == n.ssrc && Collides(t.sources[k], from, isRtp)
  }

  lemma {:induction false} RespectsReplace(t: Table, u: Table, k: nat, s: Source, log: seq<Notice>, v: Table, from: Option<Address>, isRtp: bool)
    requires Respects(t, u, from, isRtp) && k < |u.sources|
    requires !Collides(u.sources[k], from, isRtp) && !Collides(s, from, isRtp)
    requires forall i :: 0 <= i < |log| ==> !log[i].Collision?
    requires v.sources == u.sources[k := s] && v.log == u.log + log
    ensures Respects(t, v, from, isRtp)
  {
    hide Collides, Flagged;
  }

  lemma {:induction false} RespectsAppend(t: Table, u: Table, s: Source, log: seq<Notice>, v: Table, from: Option<Address>, isRtp: bool)
    requires Respects(t, u, from, isRtp) && !Collides(s, from, isRtp)
    requires forall i :: 0 <= i < |log| ==> !log[i].Collision?
    requires v.sources == u.sources + [s] && v.log == u.log + log
    ensures Respects(t, v, from, isRtp)
  {
    hide Collides, Flagged;
  }

  lemma {:induction false} RespectsFlag(t: Table, u: Table, k: nat, v: Table, from: Option<Address>, isRtp: bool)
    requires Respects(t, u, from, isRtp) && k < |u.sources| && Collides(u.sources[k], from, isRtp)
    requires v.sources == u.sources && v.log == u.log + [Collision(u.sources[k].ssrc, from, isRtp)]
    ensures Respects(t, v, from, isRtp)
  {
    hide Collides;
    assert k < |t.sources| && u.sources[k] == t.sources[k];
  }

  lemma {:induction false} RespectsItself(t: Table, from: Option<Address>, isRtp: bool)
    ensures Respects(t, t, from, isRtp)
  {
  }

  lemma {:induction false} NoLongerCollides(s: Source, from: Option<Address>, isRtp: bool)
    requires !Collides(s, from, isRtp)
    ensures !Collides(Bound(s, from, isRtp), from, isRtp)
  {
  }

  lemma {:induction false} SameSlotsCollide(s: Source, r: Source, from: Option<Address>, isRtp: bool)
    requires s.rtp == r.rtp && s.rtcp == r.rtcp
    ensures Collides(s, from, isRtp) == Collides(r, from, isRtp)
  {
  }

  lemma {:induction false} OpenedRespects(t: Table, ssrc: u32, from: Option<Address>, isRtp: bool)
    ensures Respects(t, Obtain(t, ssrc).0, from, isRtp)
    ensures var (u, k) := Obtain(t, ssrc);
            !Collides(u.sources[k], from, isRtp) ==>
              Respects(t, Opened(t, ssrc, from, isRtp), from, isRtp) && !Collides(Opened(t, ssrc, from, isRtp).sources[k], from, isRtp)
  {
    hide Collides, Respects, Bound;
    var (u, k) := Obtain(t, ssrc);
    RespectsItself(t, from, isRtp);
    if k == |t.sources| {
      NoCollisionYet(ssrc, t.probationType, from, isRtp);
      RespectsAppend(t, t, NewSource(ssrc, t.probationType), [], u, from, isRtp);
    }
    if !Collides(u.sources[k], from, isRtp) {
      NoLongerCollides(u.sources[k], from, isRtp);
      RespectsReplace(t, u, k, Bound(u.sources[k], from, isRtp), [], Opened(t, ssrc, from, isRtp), from, isRtp);
    }
  }

  lemma {:induction false} CsrcRespects(t: Table, u: Table, csrc: u32, from: Option<Address>)
    requires Respects(t, u, from, true)
    ensures Respects(t, MarkCsrc(u, csrc, from), from, true)
  {
    hide Collides, Respects, Bound, NewSource;
    var v := MarkCsrc(u, csrc, from);
    var k := Find(u.sources, csrc);
    if k == |u.sources| {
      NoCollisionYet(csrc, u.probationType, from, true);
      var s := NewSource(csrc, u.probationType);
      SameSlotsCollide(s, s.(validated := true, csrc := true), from, true);
      RespectsAppend(t, u, s.(validated := true, csrc := true), [IsNew(csrc)], v, from, true);
    } else if Collides(u.sources[k], from, true) {
      RespectsFlag(t, u, k, v, from, true);
    } else {
      NoLongerCollides(u.sources[k], from, true);
      SameSlotsCollide(Bound(u.sources[k], from, true), v.sources[k], from, true);
      RespectsReplace(t, u, k, v.sources[k], [], v, from, true);
    }
  }

  lemma {:induction false} CsrcsRespect(t: Table, u: Table, csrcs: seq<u32>, from: Option<Address>)
    requires Respects(t, u, from, true)
    ensures Respects(t, MarkCsrcs(u, csrcs, from), from, true)
  {
    hide Respects, MarkCsrc;
    if csrcs != [] {
      CsrcsRespect(t, u, csrcs[..|csrcs| - 1], from);
      CsrcRespects(t, MarkCsrcs(u, csrcs[..|csrcs| - 1], from), csrcs[|csrcs| - 1], from);
    }
  }

  lemma {:induction false} PacketRespects(t: Table, p: Packet, now: RtpTime, tsUnit: real, from: Option<Address>)
    requires Sound(t)
    ensures Respects(t, PacketOnly(t, p, now, tsUnit, from).0, from, true)
  {
    hide Sound, Respects, Collides, Bound, Received, EntryOk;
    OpenedSound(t, p.ssrc, from, true);
    OpenedRespects(t, p.ssrc, from, true);
    var (u, k) := Obtain(t, p.ssrc);
    var x := PacketOnly(t, p, now, tsUnit, from).0;
    if Has(t, p.ssrc) && Collides(u.sources[k], from, true) {
      RespectsFlag(t, u, k, x, from, true);
    } else {
      if !Has(t, p.ssrc) {
        NoCollisionYet(p.ssrc, t.probationType, from, true);
      }
      var v := Opened(t, p.ssrc, from, true);
      EntryAt(v, k);
      ReceivedOk(v.own, v.sources[k], p, now, tsUnit);
      var r := Received(v.sources[k], p, now, tsUnit).0;
      SameSlotsCollide(v.sources[k], r, from, true);
      RespectsReplace(t, v, k, r, if Has(t, p.ssrc) then [] else [IsNew(u.sources[k].ssrc)], x, from, true);
    }
  }

  /**
   A data packet leaves every entry that its address collides with exactly as it was - statistics, queue
   and all - and reports collisions only for such entries.
   */
  lemma {:induction false} RtpCollisionsHarmless(t: Table, p: Packet, now: RtpTime, tsUnit: real, from: Option<Address>)
    requires Sound(t)
    ensures Respects(t, RtpPacketIn(t, p, now, tsUnit, from).0, from, true)
    ensures Has(t, p.ssrc) && Collides(EntryOf(t, p.ssrc), from, true) ==>
              RtpPacketIn(t, p, now, tsUnit, from) == (t.(log := t.log + [Collision(p.ssrc, from, true)]), false)
  {
    hide Sound, Respects, Collides;
    PacketRespects(t, p, now, tsUnit, from);
    CsrcsRespect(t, PacketOnly(t, p, now, tsUnit, from).0, p.csrcs, from);
  }

  /** The same for control packets, whatever they say about a source. */
  lemma {:induction false} RtcpCollisionsHarmless(t: Table, ssrc: u32, r: Report, now: RtpTime, from: Option<Address>)
    requires Sound(t)
    ensures Respects(t, RtcpIn(t, ssrc, r, now, from).0, from, false)
  {
    hide Sound, Respects, Collides, Bound, Described, EntryOk;
    RespectsItself(t, from, false);
    OpenedSound(t, ssrc, from, false);
    OpenedRespects(t, ssrc, from, false);
    var (u, k) := Obtain(t, ssrc);
    var x := RtcpIn(t, ssrc, r, now, from).0;
    if !(r.Item? && !(CNAME <= r.id <= NOTE)) {
      if Has(t, ssrc) && Collides(u.sources[k], from, false) {
        RespectsFlag(t, u, k, x, from, false);
      } else {
        if !Has(t, ssrc) {
          NoCollisionYet(ssrc, t.probationType, from, false);
        }
        var v := Opened(t, ssrc, from, false);
        EntryAt(v, k);
        if r.Item? {
          DescribedOk(v.own, v.sources[k], r.id, r.data, now);
        }
        SameSlotsCollide(v.sources[k], x.sources[k], from, false);
        RespectsReplace(t, v, k, x.sources[k], x.log[|v.log|..], x, from, false);
      }
    }
  }

  // ---------------------------------------------------------------- a run in which the active counter goes wrong

  /**
   A source that is known from a control packet, is then named as a contributing source, and says goodbye:
   after both sources have left, the counter of active entries is negative.
   */
  lemma {:induction false} ActiveCountNegative(a: Address)
    ensures var t := EmptyTable(NoProbation);
            var p := Packet(false, 0, 1, 0, 9, [7], None, []);
            var u := RtpPacketIn(RtcpIn(t, 7, Alive, 0, Some(a)).0, p, 0, 0.0, Some(a)).0;
            var v := RtcpIn(RtcpIn(u, 7, Bye([]), 0, Some(a)).0, 9, Bye([]), 0, Some(a)).0;
            v.active == -1 && v.total == 2
  {
    var t := EmptyTable(NoProbation);
    var p := Packet(false, 0, 1, 0, 9, [7], None, []);
    var t1 := RtcpIn(t, 7, Alive, 0, Some(a)).0;
    var s7 := NewSource(7, NoProbation).(rtcp := Known(Some(a)));
    HeardFirst(t, a);
    assert t1.sources[0].ssrc == 7;
    PacketSecond(t1, p, a);
    var (u, stored, csrcs) := PacketOnly(t1, p, 0, 0.0, Some(a));
    assert MarkCsrcs(u, [7][..0], Some(a)) == u;
    var w := MarkCsrc(u, 7, Some(a));
    assert MarkCsrcs(u, [7], Some(a)) == w;
    ByeFirst(w, a);
  }

  lemma {:induction false} HeardFirst(t: Table, a: Address)
    requires t == EmptyTable(NoProbation)
    ensures RtcpIn(t, 7, Alive, 0, Some(a)).0
         == Table([NewSource(7, NoProbation).(rtcp := Known(Some(a)))], None, 1, 0, 0, NoProbation, [IsNew(7)])
  {
  }

  lemma {:induction false} PacketSecond(t: Table, p: Packet, a: Address)
    requires t == Table([NewSource(7, NoProbation).(rtcp := Known(Some(a)))], None, 1, 0, 0, NoProbation, [IsNew(7)])
    requires p == Packet(false, 0, 1, 0, 9, [7], None, [])
    ensures var (u, stored, csrcs) := PacketOnly(t, p, 0, 0.0, Some(a));
            && csrcs && |u.sources| == 2 && u.sources[0] == t.sources[0] && u.sources[1].ssrc == 9 && u.sources[1].Active()
            && u.sources[1].rtp == Known(Some(a)) && u.sources[1].rtcp == Unset
            && u.active == 1 && u.total == 2 && u.own == None
  {
    var (u, k) := Obtain(t, 9);
    assert k == 1;
    var s := NewSource(9, NoProbation).(rtp := Known(Some(a)));
    assert Replace(u, k, Bound(u.sources[k], Some(a), true)).sources == [t.sources[0], s];
    var (r, stored) := Received(s, p, 0, 0.0);
    assert r.Active() && r.ssrc == 9 && r.rtp == s.rtp && r.rtcp == s.rtcp;
  }

  lemma {:induction false} ByeFirst(w: Table, a: Address)
    requires |w.sources| == 2 && w.sources[0].ssrc == 7 && w.sources[1].ssrc == 9 && w.own == None && w.active == 1 && w.total == 2
    requires w.sources[0].Active() && w.sources[0].rtcp == Known(Some(a))
    requires w.sources[1].Active() && w.sources[1].rtp == Known(Some(a)) && w.sources[1].rtcp == Unset
    ensures var v := RtcpIn(RtcpIn(w, 7, Bye([]), 0, Some(a)).0, 9, Bye([]), 0, Some(a)).0; v.active == -1 && v.total == 2
  {
    var x := RtcpIn(w, 7, Bye([]), 0, Some(a)).0;
    assert x.sources == [SaidBye(w.sources[0], [], 0), w.sources[1]] && x.active == 0;
    assert Find(x.sources, 9) == 1;
  }
}
