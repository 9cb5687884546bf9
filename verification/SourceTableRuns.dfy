/** What holds of the source table: the fused timeout pass, the counters, and the binding of addresses. */
module SourceTableRuns {
  import opened Bytes
  import opened RtpPacket
  import opened SourceStats
  import opened SourceData
  import opened SourceTable

  // ---------------------------------------------------------------- the fused pass

  /** One pass after the other, seen from one entry. */
  function Then(f: Source -> Fate, g: Source -> Fate): Source -> Fate {
    (s: Source) =>
      match f(s)
      case Drop(said) => Drop(said)
      case Keep(t, said) =>
        match g(t)
        case Drop(more) => Drop(said + more)
        case Keep(u, more) => Keep(u, said + more)
  }

  lemma {:induction false} KeptAppend(ss: seq<Source>, s: Source, f: Source -> Fate)
    ensures Kept(ss + [s], f) == Kept(ss, f) + if f(s).Keep? then [f(s).source] else []
    ensures Said(ss + [s], f) == Said(ss, f) + f(s).said
  {
    assert (ss + [s])[..|ss|] == ss;
  }

  /** Two passes over the table are one pass that does both to each entry, up to the order of the callbacks. */
  lemma {:induction false} PassesCompose(ss: seq<Source>, f: Source -> Fate, g: Source -> Fate)
    ensures Kept(Kept(ss, f), g) == Kept(ss, Then(f, g))
    ensures multiset(Said(ss, Then(f, g))) == multiset(Said(ss, f)) + multiset(Said(Kept(ss, f), g))
  {
    if ss != [] {
      var front, s := ss[..|ss| - 1], ss[|ss| - 1];
      PassesCompose(front, f, g);
      if f(s).Keep? {
        KeptAppend(Kept(front, f), f(s).source, g);
      } else {
        assert Kept(front, f) + [] == Kept(front, f);
      }
    }
  }

  /** Passes that treat every entry alike, up to the order of an entry's callbacks. */
  lemma {:induction false} PassesAgree(ss: seq<Source>, f: Source -> Fate, g: Source -> Fate)
    requires forall s :: f(s).Keep? == g(s).Keep? && (f(s).Keep? ==> f(s).source == g(s).source) && multiset(f(s).said) == multiset(g(s).said)
    ensures Kept(ss, f) == Kept(ss, g) && multiset(Said(ss, f)) == multiset(Said(ss, g))
  {
    if ss != [] {
      PassesAgree(ss[..|ss| - 1], f, g);
    }
  }

  lemma {:induction false} FusedAgrees(own: Option<u32>, sender: RtpTime, bye: RtpTime, general: RtpTime, note: RtpTime, s: Source)
    ensures var f := FusedPass(own, sender, bye, general, note)(s);
            var g := Then(Then(Then(ByePass(own, bye), GeneralPass(own, general)), SenderPass(sender)), NotePass(note))(s);
            f.Keep? == g.Keep? && (f.Keep? ==> f.source == g.source) && f.said == g.said
  {
    hide NoteOld;
    var cleared := s.(sender := false);
    assert NoteOld(cleared, note) == NoteOld(s, note) by { SameNote(cleared, s, note); }
  }

  lemma {:induction false} SameNote(r: Source, s: Source, check: RtpTime)
    requires r.sdes == s.sdes && r.stats == s.stats
    ensures NoteOld(r, check) == NoteOld(s, check)
  {
  }

  /**
   The fused pass leaves the same table, with the same flags, notes and counters, as the four separate
   ones, and makes the same callbacks.
   */
  lemma {:induction false} FusedIsSeparate(t: Table, now: RtpTime, sender: RtpTime, bye: RtpTime, general: RtpTime, note: RtpTime)
    ensures var fused := MultipleTimeouts(t, now, sender, bye, general, note);
            var separate := NoteTimeout(SenderTimeout(Timeout(ByeTimeout(t, now, bye), now, general), now, sender), now, note);
            && fused == separate.(log := fused.log)
            && multiset(fused.log) == multiset(separate.log)
  {
    var s, b, g, n := TimeMinus(now, sender), TimeMinus(now, bye), TimeMinus(now, general), TimeMinus(now, note);
    SeparateIsOne(t, s, b, g, n);
    forall x
      ensures var f, h := FusedPass(t.own, s, b, g, n)(x), AllFour(t.own, s, b, g, n)(x);
              f.Keep? == h.Keep? && (f.Keep? ==> f.source == h.source) && multiset(f.said) == multiset(h.said)
    {
      FusedAgrees(t.own, s, b, g, n, x);
    }
    PassesAgree(t.sources, FusedPass(t.own, s, b, g, n), AllFour(t.own, s, b, g, n));
  }

  function AllFour(own: Option<u32>, sender: RtpTime, bye: RtpTime, general: RtpTime, note: RtpTime): Source -> Fate {
    Then(Then(Then(ByePass(own, bye), GeneralPass(own, general)), SenderPass(sender)), NotePass(note))
  }

  lemma {:induction false} SweepTwice(t: Table, f: Source -> Fate, g: Source -> Fate)
    ensures var two, one := Sweep(Sweep(t, f), g), Sweep(t, Then(f, g));
            two == one.(log := two.log) && multiset(two.log) == multiset(one.log)
  {
    PassesCompose(t.sources, f, g);
  }

  lemma {:induction false} SweepIgnoresLog(t: Table, u: Table, f: Source -> Fate)
    requires t == u.(log := t.log) && multiset(t.log) == multiset(u.log)
    ensures var a, b := Sweep(t, f), Sweep(u, f); a == b.(log := a.log) && multiset(a.log) == multiset(b.log)
  {
  }

  lemma {:induction false} SeparateIsOne(t: Table, sender: RtpTime, bye: RtpTime, general: RtpTime, note: RtpTime)
    ensures var separate := Sweep(Sweep(Sweep(Sweep(t, ByePass(t.own, bye)), GeneralPass(t.own, general)), SenderPass(sender)), NotePass(note));
            var one := Sweep(t, AllFour(t.own, sender, bye, general, note));
            separate == one.(log := separate.log) && multiset(separate.log) == multiset(one.log)
  {
    hide Sweep, ByePass, GeneralPass, SenderPass, NotePass, Then;
    var f, g, h, k := ByePass(t.own, bye), GeneralPass(t.own, general), SenderPass(sender), NotePass(note);
    SweepTwice(t, f, g);
    SweepIgnoresLog(Sweep(Sweep(t, f), g), Sweep(t, Then(f, g)), h);
    SweepTwice(t, Then(f, g), h);
    SweepIgnoresLog(Sweep(Sweep(Sweep(t, f), g), h), Sweep(Sweep(t, Then(f, g)), h), k);
    SweepIgnoresLog(Sweep(Sweep(t, Then(f, g)), h), Sweep(t, Then(Then(f, g), h)), k);
    SweepTwice(t, Then(Then(f, g), h), k);
  }

  // ---------------------------------------------------------------- counters

  lemma {:induction false} CountsReplace(ss: seq<Source>, k: nat, s: Source)
    requires k < |ss|
    ensures SenderCount(ss[k := s]) == SenderCount(ss) - One(ss[k].sender) + One(s.sender)
    ensures ActiveCount(ss[k := s]) == ActiveCount(ss) - One(ss[k].Active()) + One(s.Active())
  {
    if k > 0 {
      CountsReplace(ss[1..], k - 1, s);
      assert ss[k := s][1..] == ss[1..][k - 1 := s];
    } else {
      assert ss[k := s][1..] == ss[1..];
    }
  }

  lemma {:induction false} CountsAppend(ss: seq<Source>, s: Source)
    ensures SenderCount(ss + [s]) == SenderCount(ss) + One(s.sender)
    ensures ActiveCount(ss + [s]) == ActiveCount(ss) + One(s.Active())
  {
    if ss != [] {
      CountsAppend(ss[1..], s);
      assert (ss + [s])[1..] == ss[1..] + [s];
    } else {
      assert ss + [s] == [s] && [s][1..] == [];
    }
  }

  lemma {:induction false} CountsRemove(ss: seq<Source>, k: nat)
    requires k < |ss|
    ensures SenderCount(Removed(ss, k)) == SenderCount(ss) - One(ss[k].sender)
    ensures ActiveCount(Removed(ss, k)) == ActiveCount(ss) - One(ss[k].Active())
  {
    if k > 0 {
      CountsRemove(ss[1..], k - 1);
      assert Removed(ss, k) == [ss[0]] + Removed(ss[1..], k - 1);
    } else {
      assert Removed(ss, k) == ss[1..];
    }
  }

  predicate Unique(ss: seq<Source>) {
    forall i, j :: 0 <= i < j < |ss| ==> ss[i].ssrc != ss[j].ssrc
  }

  /** If both addresses are known, both are the local one or they are on the same host. */
  predicate AddressesFit(s: Source) {
    s.rtp.Known? && s.rtcp.Known? ==>
      match (s.rtp.from, s.rtcp.from)
      case (None, None) => true
      case (Some(a), Some(b)) => a.host == b.host
      case _ => false
  }

  /** The entry with one of its addresses set. */
  function WithAddress(s: Source, from: Option<Address>, isRtp: bool): Source {
    if isRtp then s.(rtp := Known(from)) else s.(rtcp := Known(from))
  }

  /** A packet from this address would change an address that is known, or give two addresses that do not fit. */
  predicate Clash(s: Source, from: Option<Address>, isRtp: bool) {
    var slot := if isRtp then s.rtp else s.rtcp;
    (slot.Known? && slot.from != from) || !AddressesFit(WithAddress(s, from, isRtp))
  }

  /** A collision is reported exactly in these two cases, and otherwise the address is set. */
  lemma {:induction false} CollisionExact(s: Source, from: Option<Address>, isRtp: bool)
    requires AddressesFit(s)
    ensures Collides(s, from, isRtp) <==> Clash(s, from, isRtp)
    ensures !Clash(s, from, isRtp) ==> Bound(s, from, isRtp) == WithAddress(s, from, isRtp)
  {
  }

  predicate EntryOk(own: Option<u32>, s: Source) {
    && QueueOk(s) && AddressesFit(s)
    && (s.own <==> own == Some(s.ssrc))
    && (s.own ==> s.validated && !s.receivedBye && s.rtp == s.rtcp == Known(None))
  }

  /** What holds in every reachable state of the table. */
  predicate Sound(t: Table) {
    && Unique(t.sources)
    && (t.own.Some? ==> Has(t, t.own.value))
    && (forall i :: 0 <= i < |t.sources| ==> EntryOk(t.own, t.sources[i]))
    && t.total == |t.sources| && t.senders == SenderCount(t.sources) && t.active <= ActiveCount(t.sources)
  }

  lemma {:induction false} Present(ss: seq<Source>, k: nat, ssrc: u32)
    requires k < |ss| && ss[k].ssrc == ssrc
    ensures Find(ss, ssrc) < |ss| && (Unique(ss) ==> Find(ss, ssrc) == k)
  {
  }

  /** An entry changes, and the counters with it. */
  lemma {:induction false} ReplaceSound(t: Table, k: nat, s: Source, senders: int, active: int)
    requires Sound(t) && k < |t.sources| && s.ssrc == t.sources[k].ssrc && EntryOk(t.own, s)
    requires senders == t.senders - One(t.sources[k].sender) + One(s.sender)
    requires active <= t.active - One(t.sources[k].Active()) + One(s.Active())
    ensures Sound(Replace(t, k, s).(senders := senders, active := active))
  {
    hide EntryOk, Find;
    CountsReplace(t.sources, k, s);
    var ss := t.sources[k := s];
    if t.own.Some? {
      var i := Find(t.sources, t.own.value);
      assert ss[i].ssrc == t.own.value;
      Present(ss, i, t.own.value);
    }
  }

  lemma {:induction false} AppendSound(t: Table, s: Source)
    requires Sound(t) && !Has(t, s.ssrc) && EntryOk(t.own, s) && !s.sender
    ensures Sound(t.(sources := t.sources + [s], total := t.total + 1, active := t.active + One(s.Active())))
  {
    hide EntryOk;
    CountsAppend(t.sources, s);
    var ss := t.sources + [s];
    if t.own.Some? {
      Present(ss, Find(t.sources, t.own.value), t.own.value);
    }
  }

  lemma {:induction false} SoundIgnoresLog(t: Table, log: seq<Notice>)
    requires Sound(t)
    ensures Sound(t.(log := log))
  {
  }

  // ---------------------------------------------------------------- single entries

  /** What every change of an entry leaves alone, and in which direction its flags go. */
  predicate Grows(s: Source, r: Source) {
    && r.ssrc == s.ssrc && r.own == s.own && r.rtp == s.rtp && r.rtcp == s.rtcp && r.receivedBye == s.receivedBye
    && (s.validated ==> r.validated) && (s.sender ==> r.sender)
  }

  lemma {:induction false} ReceivedOk(own: Option<u32>, s: Source, p: Packet, now: RtpTime, tsUnit: real)
    requires EntryOk(own, s)
    ensures Grows(s, Received(s, p, now, tsUnit).0) && EntryOk(own, Received(s, p, now, tsUnit).0)
  {
    hide Processed, Insert, Evicted;
    ReceivedKeepsQueue(s, p, now, tsUnit);
  }

  lemma {:induction false} BoundOk(own: Option<u32>, s: Source, from: Option<Address>, isRtp: bool)
    requires EntryOk(own, s) && !Collides(s, from, isRtp)
    ensures EntryOk(own, Bound(s, from, isRtp)) && Bound(s, from, isRtp).ssrc == s.ssrc
    ensures Bound(s, from, isRtp).sender == s.sender && Bound(s, from, isRtp).Active() == s.Active()
  {
  }

  lemma {:induction false} FreshOk(own: Option<u32>, ssrc: u32, probationType: ProbationType)
    requires own != Some(ssrc)
    ensures EntryOk(own, NewSource(ssrc, probationType))
  {
  }

  lemma {:induction false} DescribedOk(own: Option<u32>, s: Source, id: nat, data: bytes, now: RtpTime)
    requires EntryOk(own, s)
    ensures EntryOk(own, Described(s, id, data, now).0) && Grows(s, Described(s, id, data, now).0)
    ensures Described(s, id, data, now).0.sender == s.sender
  {
  }

  lemma {:induction false} ChangesOk(own: Option<u32>, s: Source, reason: bytes, now: RtpTime)
    requires EntryOk(own, s)
    ensures EntryOk(own, Heard(s, now)) && Grows(s, Heard(s, now))
    ensures EntryOk(own, Sent(s, now)) && Grows(s, Sent(s, now))
    ensures own != Some(s.ssrc) ==> EntryOk(own, SaidBye(s, reason, now)) && SaidBye(s, reason, now).sender == s.sender
  {
  }

  // ---------------------------------------------------------------- single steps

  /** Making sure that there is an entry; a new one has the address of the packet. */
  function Opened(t: Table, ssrc: u32, from: Option<Address>, isRtp: bool): Table {
    var (u, k) := Obtain(t, ssrc);
    Replace(u, k, Bound(u.sources[k], from, isRtp))
  }

  lemma {:induction false} OpenedSound(t: Table, ssrc: u32, from: Option<Address>, isRtp: bool)
    requires Sound(t)
    ensures var (u, k) := Obtain(t, ssrc);
            && Sound(u) && k < |u.sources| && u.sources[k].ssrc == ssrc && u.own == t.own
            && (Has(t, ssrc) ==> u == t)
            && (!(Has(t, ssrc) && Collides(u.sources[k], from, isRtp)) ==> Sound(Opened(t, ssrc, from, isRtp)))
  {
    hide EntryOk, Sound, Collides, Bound;
    var (u, k) := Obtain(t, ssrc);
    if Has(t, ssrc) {
      EntryAt(t, k);
    } else {
      NotOwn(t, ssrc);
      FreshOk(t.own, ssrc, t.probationType);
      AppendSound(t, NewSource(ssrc, t.probationType));
      EntryAt(u, k);
      NoCollisionYet(ssrc, t.probationType, from, isRtp);
    }
    if !Collides(u.sources[k], from, isRtp) {
      BoundOk(t.own, u.sources[k], from, isRtp);
      ReplaceSound(u, k, Bound(u.sources[k], from, isRtp), u.senders, u.active);
    }
  }

  lemma {:induction false} NoCollisionYet(ssrc: u32, probationType: ProbationType, from: Option<Address>, isRtp: bool)
    ensures !Collides(NewSource(ssrc, probationType), from, isRtp)
  {
  }

  lemma {:induction false} EntryAt(t: Table, k: nat)
    requires Sound(t) && k < |t.sources|
    ensures EntryOk(t.own, t.sources[k])
  {
  }

  lemma {:induction false} NotOwn(t: Table, ssrc: u32)
    requires Sound(t) && !Has(t, ssrc)
    ensures t.own != Some(ssrc)
  {
  }

  lemma {:induction false} DeliverSound(t: Table, k: nat, p: Packet, now: RtpTime, tsUnit: real)
    requires Sound(t) && k < |t.sources|
    ensures Sound(Deliver(t, k, p, now, tsUnit).0)
  {
    hide EntryOk, Sound, Received;
    EntryAt(t, k);
    ReceivedOk(t.own, t.sources[k], p, now, tsUnit);
    var r := Received(t.sources[k], p, now, tsUnit).0;
    var u := Deliver(t, k, p, now, tsUnit).0;
    ReplaceSound(t, k, r, u.senders, u.active);
  }

  lemma {:induction false} CsrcSound(t: Table, csrc: u32, from: Option<Address>)
    requires Sound(t)
    ensures Sound(MarkCsrc(t, csrc, from)) && MarkCsrc(t, csrc, from).own == t.own
  {
    hide Collides, Bound, Sound, EntryOk, NewSource;
    var k := Find(t.sources, csrc);
    var u := MarkCsrc(t, csrc, from);
    if k == |t.sources| {
      NotOwn(t, csrc);
      FreshOk(t.own, csrc, t.probationType);
      CsrcEntryOk(t.own, NewSource(csrc, t.probationType));
      FreshFlags(csrc, t.probationType);
      var s := NewSource(csrc, t.probationType).(validated := true, csrc := true);
      AppendSound(t, s);
      SoundIgnoresLog(u.(log := t.log), u.log);
    } else if Collides(t.sources[k], from, true) {
      SoundIgnoresLog(t, u.log);
    } else {
      EntryAt(t, k);
      BoundOk(t.own, t.sources[k], from, true);
      CsrcEntryOk(t.own, Bound(t.sources[k], from, true));
      ReplaceSound(t, k, u.sources[k], t.senders, t.active);
    }
  }

  lemma {:induction false} FreshFlags(ssrc: u32, probationType: ProbationType)
    ensures var s := NewSource(ssrc, probationType); s.ssrc == ssrc && !s.sender && !s.receivedBye && !s.validated
  {
  }

  lemma {:induction false} CsrcEntryOk(own: Option<u32>, s: Source)
    requires EntryOk(own, s)
    ensures EntryOk(own, s.(validated := true, csrc := true))
    ensures s.Active() ==> s.(validated := true, csrc := true).Active()
  {
  }

  lemma {:induction false} CsrcsSound(t: Table, csrcs: seq<u32>, from: Option<Address>)
    requires Sound(t)
    ensures Sound(MarkCsrcs(t, csrcs, from)) && MarkCsrcs(t, csrcs, from).own == t.own
  {
    hide Sound, MarkCsrc;
    if csrcs != [] {
      CsrcsSound(t, csrcs[..|csrcs| - 1], from);
      CsrcSound(MarkCsrcs(t, csrcs[..|csrcs| - 1], from), csrcs[|csrcs| - 1], from);
    }
  }

  lemma {:induction false} PacketSound(t: Table, p: Packet, now: RtpTime, tsUnit: real, from: Option<Address>)
    requires Sound(t)
    ensures Sound(PacketOnly(t, p, now, tsUnit, from).0)
  {
    hide Sound, Deliver, Collides, Bound;
    OpenedSound(t, p.ssrc, from, true);
    var (u, k) := Obtain(t, p.ssrc);
    var created := !Has(t, p.ssrc);
    if !created && Collides(u.sources[k], from, true) {
      SoundIgnoresLog(u, u.log + [Collision(u.sources[k].ssrc, from, true)]);
    } else {
      var v := Opened(t, p.ssrc, from, true);
      DeliverSound(v, k, p, now, tsUnit);
      var w := Deliver(v, k, p, now, tsUnit).0;
      SoundIgnoresLog(w, w.log + if created then [IsNew(u.sources[k].ssrc)] else []);
    }
  }

  lemma {:induction false} RtpSound(t: Table, p: Packet, now: RtpTime, tsUnit: real, from: Option<Address>)
    requires Sound(t)
    ensures Sound(RtpPacketIn(t, p, now, tsUnit, from).0)
  {
    hide Sound, PacketOnly, MarkCsrcs;
    PacketSound(t, p, now, tsUnit, from);
    CsrcsSound(PacketOnly(t, p, now, tsUnit, from).0, p.csrcs, from);
  }

  lemma {:induction false} ApplySound(t: Table, k: nat, created: bool, r: Report, now: RtpTime, from: Option<Address>)
    requires Sound(t) && k < |t.sources|
    ensures Sound(Apply(t, k, created, r, now, from).0)
  {
    hide Sound, EntryOk, Described, Heard, SaidBye;
    EntryAt(t, k);
    var s := t.sources[k];
    var u := Apply(t, k, created, r, now, from).0;
    match r
    case Alive =>
      ChangesOk(t.own, s, [], now);
      AliveFlags(s, now);
      ReplaceSound(t, k, Heard(s, now), t.senders, t.active);
      SoundIgnoresLog(u.(log := t.log), u.log);
    case Item(id, data) =>
      DescribedOk(t.own, s, id, data, now);
      ReplaceSound(t, k, Described(s, id, data, now).0, t.senders, u.active);
      SoundIgnoresLog(u.(log := t.log), u.log);
    case Bye(reason) =>
      if !IsOwn(t, s) {
        ChangesOk(t.own, s, reason, now);
        ByeFlags(s, reason, now);
        ReplaceSound(t, k, SaidBye(s, reason, now), t.senders, u.active);
        SoundIgnoresLog(u.(log := t.log), u.log);
      }
  }

  lemma {:induction false} AliveFlags(s: Source, now: RtpTime)
    ensures Heard(s, now).ssrc == s.ssrc && Heard(s, now).sender == s.sender && Heard(s, now).Active() == s.Active()
  {
  }

  lemma {:induction false} ByeFlags(s: Source, reason: bytes, now: RtpTime)
    ensures SaidBye(s, reason, now).ssrc == s.ssrc && !SaidBye(s, reason, now).Active()
  {
  }

  lemma {:induction false} RtcpSound(t: Table, ssrc: u32, r: Report, now: RtpTime, from: Option<Address>)
    requires Sound(t)
    ensures Sound(RtcpIn(t, ssrc, r, now, from).0)
  {
    hide Sound, Apply, Collides, Bound;
    OpenedSound(t, ssrc, from, false);
    var (u, k) := Obtain(t, ssrc);
    if !(r.Item? && !(CNAME <= r.id <= NOTE)) {
      if Has(t, ssrc) && Collides(u.sources[k], from, false) {
        SoundIgnoresLog(u, u.log + [Collision(ssrc, from, false)]);
      } else {
        ApplySound(Opened(t, ssrc, from, false), k, !Has(t, ssrc), r, now, from);
      }
    }
  }

  lemma {:induction false} SentSound(t: Table, now: RtpTime)
    requires Sound(t)
    ensures Sound(SentPacket(t, now))
  {
    hide EntryOk, Sent;
    if t.own.Some? {
      var k := Find(t.sources, t.own.value);
      var u := SentPacket(t, now);
      ChangesOk(t.own, t.sources[k], [], now);
      SentFlags(t.sources[k], now);
      ReplaceSound(t, k, Sent(t.sources[k], now), u.senders, t.active);
    }
  }

  lemma {:induction false} SentFlags(s: Source, now: RtpTime)
    ensures Sent(s, now).ssrc == s.ssrc && Sent(s, now).Active() == s.Active() && (s.sender ==> Sent(s, now).sender)
  {
  }

  lemma {:induction false} TakeSound(t: Table, ssrc: u32)
    requires Sound(t)
    ensures Sound(Take(t, ssrc))
  {
    hide Sound, EntryOk;
    var k := Find(t.sources, ssrc);
    if k < |t.sources| && t.sources[k].validated && t.sources[k].queue != [] {
      EntryAt(t, k);
      var s := t.sources[k].(queue := t.sources[k].queue[1..]);
      TakeEntryOk(t.own, t.sources[k]);
      ReplaceSound(t, k, s, t.senders, t.active);
    }
  }

  lemma {:induction false} TakeEntryOk(own: Option<u32>, s: Source)
    requires EntryOk(own, s) && s.queue != [] && s.validated
    ensures EntryOk(own, s.(queue := s.queue[1..]))
  {
    assert forall i :: 0 <= i < |s.queue| - 1 ==> s.queue[1..][i] == s.queue[i + 1];
  }

  lemma {:induction false} CreateSound(t: Table, ssrc: u32)
    requires Sound(t)
    ensures Sound(CreateOwn(t, ssrc).0)
  {
    hide QueueOk;
    if t.own == None && !Has(t, ssrc) {
      var e := OwnEntry(ssrc, t.probationType);
      OwnEntryOk(ssrc, t.probationType);
      CountsAppend(t.sources, e);
      Present(t.sources + [e], |t.sources|, ssrc);
      forall i | 0 <= i < |t.sources|
        ensures EntryOk(Some(ssrc), t.sources[i])
      {
        EntryAt(t, i);
      }
    }
  }

  lemma {:induction false} OwnEntryOk(ssrc: u32, probationType: ProbationType)
    ensures EntryOk(Some(ssrc), OwnEntry(ssrc, probationType))
    ensures OwnEntry(ssrc, probationType).ssrc == ssrc && !OwnEntry(ssrc, probationType).sender && OwnEntry(ssrc, probationType).Active()
  {
  }

  lemma {:induction false} DeleteSound(t: Table)
    requires Sound(t)
    ensures Sound(DeleteOwn(t).0)
  {
    hide QueueOk;
    if t.own.Some? {
      var k := Find(t.sources, t.own.value);
      CountsRemove(t.sources, k);
      var ss := Removed(t.sources, k);
      forall i | 0 <= i < |ss|
        ensures EntryOk(None, ss[i])
      {
        var j := if i < k then i else i + 1;
        assert ss[i] == t.sources[j];
        EntryAt(t, j);
        assert t.sources[j].ssrc != t.sources[k].ssrc;
      }
    }
  }

  /** A pass that keeps entries sound, and the own entry in the table. */
  ghost predicate PassOk(own: Option<u32>, pass: Source -> Fate) {
    forall s {:trigger pass(s)} :: EntryOk(own, s) ==>
      && (s.own ==> pass(s).Keep?)
      && (pass(s).Keep? ==> EntryOk(own, pass(s).source) && pass(s).source.ssrc == s.ssrc)
  }

  lemma {:induction false} KeptSound(ss: seq<Source>, own: Option<u32>, pass: Source -> Fate)
    requires PassOk(own, pass) && Unique(ss) && forall i :: 0 <= i < |ss| ==> EntryOk(own, ss[i])
    ensures var r := Kept(ss, pass);
            && Unique(r) && (forall i :: 0 <= i < |r| ==> EntryOk(own, r[i]))
            && (forall i :: 0 <= i < |r| ==> exists j :: 0 <= j < |ss| && ss[j].ssrc == r[i].ssrc)
            && (forall j :: 0 <= j < |ss| && ss[j].own ==> exists i :: 0 <= i < |r| && r[i].ssrc == ss[j].ssrc)
  {
    hide EntryOk;
    if ss != [] {
      var front, last := ss[..|ss| - 1], ss[|ss| - 1];
      KeptSound(front, own, pass);
      var a, r := Kept(front, pass), Kept(ss, pass);
      assert pass(last).Keep? ==> r[|a|].ssrc == last.ssrc;
      forall j | 0 <= j < |ss| && ss[j].own
        ensures exists i :: 0 <= i < |r| && r[i].ssrc == ss[j].ssrc
      {
        if j < |front| {
          assert front[j] == ss[j];
          var i :| 0 <= i < |a| && a[i].ssrc == front[j].ssrc;
          assert r[i] == a[i];
        } else {
          assert pass(last).Keep? && r[|a|].ssrc == last.ssrc;
        }
      }
    }
  }

  lemma {:induction false} SweepSound(t: Table, pass: Source -> Fate)
    requires Sound(t) && PassOk(t.own, pass)
    ensures Sound(Sweep(t, pass)) && Sweep(t, pass).active == ActiveCount(Sweep(t, pass).sources)
  {
    hide EntryOk;
    KeptSound(t.sources, t.own, pass);
    if t.own.Some? {
      OwnIsMarked(t, Find(t.sources, t.own.value));
    }
  }

  lemma {:induction false} OwnIsMarked(t: Table, k: nat)
    requires Sound(t) && k < |t.sources|
    ensures t.sources[k].own <==> t.own == Some(t.sources[k].ssrc)
  {
    EntryAt(t, k);
  }

  lemma {:induction false} PassesOk(own: Option<u32>, sender: RtpTime, bye: RtpTime, general: RtpTime, note: RtpTime)
    ensures PassOk(own, ByePass(own, bye)) && PassOk(own, GeneralPass(own, general))
    ensures PassOk(own, SenderPass(sender)) && PassOk(own, NotePass(note))
    ensures PassOk(own, FusedPass(own, sender, bye, general, note))
  {
    hide QueueOk, NoteOld, AddressesFit;
    forall s: Source, b: bool | EntryOk(own, s)
      ensures EntryOk(own, s.(sender := b)) && EntryOk(own, s.(sdes := s.sdes[NOTE := []])) && EntryOk(own, s.(sender := b, sdes := s.sdes[NOTE := []]))
    {
      FlagsOk(own, s, b, s.sdes[NOTE := []]);
      FlagsOk(own, s, b, s.sdes);
      FlagsOk(own, s, s.sender, s.sdes[NOTE := []]);
    }
  }

  lemma {:induction false} FlagsOk(own: Option<u32>, s: Source, sender: bool, sdes: map<nat, bytes>)
    requires EntryOk(own, s)
    ensures EntryOk(own, s.(sender := sender, sdes := sdes))
  {
  }

  // ---------------------------------------------------------------- whole runs

  datatype Event =
    | Create(ssrc: u32)
    | Delete
    | SentRtp(now: RtpTime)
    | Rtp(packet: Packet, now: RtpTime, tsUnit: real, from: Option<Address>)
    | Rtcp(ssrc: u32, report: Report, now: RtpTime, from: Option<Address>)
    | ByeCheck(now: RtpTime, delay: RtpTime)
    | GeneralCheck(now: RtpTime, delay: RtpTime)
    | SenderCheck(now: RtpTime, delay: RtpTime)
    | NoteCheck(now: RtpTime, delay: RtpTime)
    | AllChecks(now: RtpTime, sender: RtpTime, bye: RtpTime, general: RtpTime, note: RtpTime)
    | TakePacket(ssrc: u32)
    | Clear

  function Step(t: Table, e: Event): Table
    requires t.own.Some? ==> Has(t, t.own.value)
  {
    match e
    case Create(ssrc) => CreateOwn(t, ssrc).0
    case Delete => DeleteOwn(t).0
    case SentRtp(now) => SentPacket(t, now)
    case Rtp(p, now, tsUnit, from) => RtpPacketIn(t, p, now, tsUnit, from).0
    case Rtcp(ssrc, r, now, from) => RtcpIn(t, ssrc, r, now, from).0
    case ByeCheck(now, delay) => ByeTimeout(t, now, delay)
    case GeneralCheck(now, delay) => Timeout(t, now, delay)
    case SenderCheck(now, delay) => SenderTimeout(t, now, delay)
    case NoteCheck(now, delay) => NoteTimeout(t, now, delay)
    case AllChecks(now, sender, bye, general, note) => MultipleTimeouts(t, now, sender, bye, general, note)
    case TakePacket(ssrc) => Take(t, ssrc)
    case Clear => EmptyTable(t.probationType).(log := t.log)
  }

  predicate IsCheck(e: Event) {
    e.ByeCheck? || e.GeneralCheck? || e.SenderCheck? || e.NoteCheck? || e.AllChecks?
  }

  /** Every step keeps the table sound, and every timeout pass makes the active counter exact. */
  lemma {:induction false} StepSound(t: Table, e: Event)
    requires Sound(t)
    ensures Sound(Step(t, e))
    ensures IsCheck(e) ==> Step(t, e).active == ActiveCount(Step(t, e).sources)
  {
    hide Sound, Sweep, PassOk, CreateOwn, DeleteOwn, SentPacket, RtpPacketIn, RtcpIn, Take;
    match e
    case Create(ssrc) => CreateSound(t, ssrc);
    case Delete => DeleteSound(t);
    case SentRtp(now) => SentSound(t, now);
    case Rtp(p, now, tsUnit, from) => RtpSound(t, p, now, tsUnit, from);
    case Rtcp(ssrc, r, now, from) => RtcpSound(t, ssrc, r, now, from);
    case ByeCheck(now, delay) =>
      PassesOk(t.own, 0, TimeMinus(now, delay), 0, 0);
      SweepSound(t, ByePass(t.own, TimeMinus(now, delay)));
    case GeneralCheck(now, delay) =>
      PassesOk(t.own, 0, 0, TimeMinus(now, delay), 0);
      SweepSound(t, GeneralPass(t.own, TimeMinus(now, delay)));
    case SenderCheck(now, delay) =>
      PassesOk(t.own, TimeMinus(now, delay), 0, 0, 0);
      SweepSound(t, SenderPass(TimeMinus(now, delay)));
    case NoteCheck(now, delay) =>
      PassesOk(t.own, 0, 0, 0, TimeMinus(now, delay));
      SweepSound(t, NotePass(TimeMinus(now, delay)));
    case AllChecks(now, sender, bye, general, note) =>
      var s, b, g, n := TimeMinus(now, sender), TimeMinus(now, bye), TimeMinus(now, general), TimeMinus(now, note);
      PassesOk(t.own, s, b, g, n);
      SweepSound(t, FusedPass(t.own, s, b, g, n));
    case TakePacket(ssrc) => TakeSound(t, ssrc);
    case Clear => EmptySound(t.probationType, t.log);
  }

  lemma {:induction false} EmptySound(probationType: ProbationType, log: seq<Notice>)
    ensures Sound(EmptyTable(probationType).(log := log))
  {
  }

  // ---------------------------------------------------------------- the own entry stays

  lemma {:induction false} OwnHas(t: Table)
    requires Sound(t)
    ensures t.own.Some? ==> Has(t, t.own.value)
  {
  }

  lemma {:induction false} RtpKeepsOwn(t: Table, p: Packet, now: RtpTime, tsUnit: real, from: Option<Address>)
    requires Sound(t)
    ensures RtpPacketIn(t, p, now, tsUnit, from).0.own == t.own
  {
    hide Sound, MarkCsrcs, PacketOnly;
    var u := PacketOnly(t, p, now, tsUnit, from).0;
    OnlyKeepsOwn(t, p, now, tsUnit, from);
    CsrcsKeepOwn(u, p.csrcs, from);
  }

  lemma {:induction false} OnlyKeepsOwn(t: Table, p: Packet, now: RtpTime, tsUnit: real, from: Option<Address>)
    ensures PacketOnly(t, p, now, tsUnit, from).0.own == t.own
  {
    hide Received, Collides, Bound;
  }

  lemma {:induction false} CsrcsKeepOwn(t: Table, csrcs: seq<u32>, from: Option<Address>)
    ensures MarkCsrcs(t, csrcs, from).own == t.own
  {
    hide Collides, Bound;
    if csrcs != [] {
      CsrcsKeepOwn(t, csrcs[..|csrcs| - 1], from);
    }
  }

  lemma {:induction false} RtcpKeepsOwn(t: Table, ssrc: u32, r: Report, now: RtpTime, from: Option<Address>)
    requires Sound(t)
    ensures RtcpIn(t, ssrc, r, now, from).0.own == t.own
  {
    hide Sound, Collides, Bound, Described;
  }

  // ---------------------------------------------------------------- a sign of life

  /** The source was heard now, from this address; or the address clashes, and no entry changes. */
  predicate HeardNow(t: Table, u: Table, ssrc: u32, now: RtpTime, from: Option<Address>) {
    var k, n := Find(t.sources, ssrc), Find(u.sources, ssrc);
    if k < |t.sources| && Clash(t.sources[k], from, false) then u.sources == t.sources
    else n < |u.sources| && u.sources[n].stats.lastMsgTime == now && u.sources[n].rtcp == Known(from)
  }

  lemma {:induction false} AliveIsHeard(t: Table, ssrc: u32, now: RtpTime, from: Option<Address>)
    requires Sound(t)
    ensures HeardNow(t, RtcpIn(t, ssrc, Alive, now, from).0, ssrc, now, from)
  {
    hide Sound, EntryOk, Collides, Bound, Clash, WithAddress;
    OpenedSound(t, ssrc, from, false);
    var (u, k) := Obtain(t, ssrc);
    EntryAt(u, k);
    FitsEntry(u.own, u.sources[k]);
    CollisionExact(u.sources[k], from, false);
    NoCollisionYet(ssrc, t.probationType, from, false);
    if !(Has(t, ssrc) && Collides(u.sources[k], from, false)) {
      var v := RtcpIn(t, ssrc, Alive, now, from).0;
      SetAddress(u.sources[k], from);
      UniqueSources(u);
      Present(v.sources, k, ssrc);
    }
  }

  lemma {:induction false} FitsEntry(own: Option<u32>, s: Source)
    requires EntryOk(own, s)
    ensures AddressesFit(s)
  {
  }

  lemma {:induction false} SetAddress(s: Source, from: Option<Address>)
    ensures WithAddress(s, from, false).ssrc == s.ssrc && WithAddress(s, from, false).rtcp == Known(from)
  {
  }

  lemma {:induction false} UniqueSources(t: Table)
    requires Sound(t)
    ensures Unique(t.sources)
  {
  }
}
