/** The callbacks of the source table over whole runs: every entry is announced once, and so is its end. */
module SourceNotices {
  import opened Bytes
  import opened RtpPacket
  import opened SourceStats
  import opened SourceData
  import opened SourceTable
  import opened SourceTableRuns
  import opened SourceLives
  import H = SourceTableHistory

  /** How many more entries were announced for the source than were taken back. */
  function Balance(log: seq<Notice>, ssrc: u32): int {
    multiset(log)[IsNew(ssrc)] as int - multiset(log)[IsRemoved(ssrc)] as int
  }

  function Presence(t: Table, ssrc: u32): int {
    if Has(t, ssrc) then 1 else 0
  }

  /** The table of u follows that of t, and says of the source what has changed. */
  predicate Tells(t: Table, u: Table, ssrc: u32) {
    Balance(u.log, ssrc) - Balance(t.log, ssrc) == Presence(u, ssrc) - Presence(t, ssrc)
  }

  lemma {:induction false} Adds(t: Table, u: Table, more: seq<Notice>, ssrc: u32)
    requires u.log == t.log + more
    ensures Balance(u.log, ssrc) == Balance(t.log, ssrc) + Balance(more, ssrc)
  {
  }

  lemma {:induction false} NoneNew(more: seq<Notice>, ssrc: u32)
    requires forall i :: 0 <= i < |more| ==> !more[i].IsNew? && !more[i].IsRemoved?
    ensures Balance(more, ssrc) == 0
  {
  }

  lemma {:induction false} OneNew(x: u32, ssrc: u32)
    ensures Balance([IsNew(x)], ssrc) == if x == ssrc then 1 else 0
    ensures Balance([IsRemoved(x)], ssrc) == if x == ssrc then -1 else 0
  {
  }

  // ---------------------------------------------------------------- packets

  lemma {:induction false} CsrcTells(t: Table, csrc: u32, from: Option<Address>, ssrc: u32)
    requires Sound(t)
    ensures Tells(t, MarkCsrc(t, csrc, from), ssrc)
  {
    hide Sound, Collides, Bound, LifeIn, Clash, Balance, NewSource;
    ListedOnce(t, csrc, from, ssrc);
    var u := MarkCsrc(t, csrc, from);
    var k := Find(t.sources, csrc);
    OneNew(csrc, ssrc);
    NoneNew([], ssrc);
    NoneNew([Collision(csrc, from, true)], ssrc);
    Adds(t, u, if k == |t.sources| then [IsNew(csrc)] else if Collides(t.sources[k], from, true) then [Collision(csrc, from, true)] else [], ssrc);
  }

  lemma {:induction false} CsrcsTell(t: Table, csrcs: seq<u32>, from: Option<Address>, ssrc: u32)
    requires Sound(t)
    ensures Tells(t, MarkCsrcs(t, csrcs, from), ssrc)
  {
    hide Sound, MarkCsrc, Balance;
    if csrcs != [] {
      var front := csrcs[..|csrcs| - 1];
      CsrcsTell(t, front, from, ssrc);
      CsrcsSound(t, front, from);
      CsrcTells(MarkCsrcs(t, front, from), csrcs[|csrcs| - 1], from, ssrc);
    }
  }

  lemma {:induction false} PacketTells(t: Table, e: Event, ssrc: u32)
    requires Sound(t) && e.Rtp?
    ensures Tells(t, PacketOnly(t, e.packet, e.now, e.tsUnit, e.from).0, ssrc)
  {
    hide Sound, Collides, Bound, Clash, WithAddress, AddressesFit, Received, LifeIn, PacketLived, ListCounts, Balance;
    var p, from := e.packet, e.from;
    OpenedEntry(t, p.ssrc, from, true, ssrc);
    FitsHere(t, p.ssrc);
    PacketLife(t, e, ssrc);
    var (u, k) := Obtain(t, p.ssrc);
    var x := PacketOnly(t, p, e.now, e.tsUnit, from).0;
    OneNew(p.ssrc, ssrc);
    NoneNew([], ssrc);
    NoneNew([Collision(p.ssrc, from, true)], ssrc);
    Adds(t, x, if Has(t, p.ssrc) && Collides(u.sources[k], from, true) then [Collision(p.ssrc, from, true)]
               else if Has(t, p.ssrc) then [] else [IsNew(p.ssrc)], ssrc);
  }

  lemma {:induction false} RtpTells(t: Table, e: Event, ssrc: u32)
    requires Sound(t) && e.Rtp?
    ensures Tells(t, RtpPacketIn(t, e.packet, e.now, e.tsUnit, e.from).0, ssrc)
  {
    hide Sound, PacketOnly, MarkCsrcs, Balance;
    PacketSound(t, e.packet, e.now, e.tsUnit, e.from);
    PacketTells(t, e, ssrc);
    CsrcsTell(PacketOnly(t, e.packet, e.now, e.tsUnit, e.from).0, e.packet.csrcs, e.from, ssrc);
  }

  lemma {:induction false} ApplyTells(t: Table, k: nat, created: bool, e: Event, ssrc: u32)
    requires e.Rtcp? && k < |t.sources| && (created ==> !IsOwn(t, t.sources[k]))
    ensures var u := Apply(t, k, created, e.report, e.now, e.from).0;
            Balance(u.log, ssrc) == Balance(t.log, ssrc) + if created && t.sources[k].ssrc == ssrc then 1 else 0
  {
    hide Described, SaidBye, Heard, Balance;
    var s := t.sources[k];
    var u := Apply(t, k, created, e.report, e.now, e.from).0;
    var news := if created then [IsNew(s.ssrc)] else [];
    var more := u.log[|t.log|..];
    OneNew(s.ssrc, ssrc);
    NoneNew([], ssrc);
    var others := more[|news|..];
    if e.report.Bye? && IsOwn(t, s) {
      Adds(t, u, [], ssrc);
    } else {
      assert more == news + others;
      NoneNew(others, ssrc);
      Adds(t, u, more, ssrc);
      BalanceConcat(news, others, ssrc);
    }
  }

  lemma {:induction false} BalanceConcat(a: seq<Notice>, b: seq<Notice>, ssrc: u32)
    ensures Balance(a + b, ssrc) == Balance(a, ssrc) + Balance(b, ssrc)
  {
  }

  lemma {:induction false} RtcpTells(t: Table, e: Event, ssrc: u32)
    requires Sound(t) && CnamesValid(t) && e.Rtcp?
    ensures Tells(t, RtcpIn(t, e.ssrc, e.report, e.now, e.from).0, ssrc)
  {
    hide Sound, CnamesValid, Collides, Bound, Clash, WithAddress, AddressesFit, Apply, LifeIn, Lived, Makes, Balance, ReportLived;
    var from := e.from;
    assert LifeIn(H.EntryOf(t, e.ssrc)).cname != [] ==> LifeIn(H.EntryOf(t, e.ssrc)).valid by {
      NamedLife(H.EntryOf(t, e.ssrc));
      CnameValid(t, e.ssrc);
    }
    RtcpLife(t, e, ssrc);
    LivedByReport(LifeIn(H.EntryOf(t, ssrc)), t, e, ssrc);
    OpenedEntry(t, e.ssrc, from, false, ssrc);
    FitsHere(t, e.ssrc);
    var (u, k) := Obtain(t, e.ssrc);
    var x := RtcpIn(t, e.ssrc, e.report, e.now, from).0;
    NoneNew([], ssrc);
    NoneNew([Collision(e.ssrc, from, false)], ssrc);
    if e.report.Item? && !(CNAME <= e.report.id <= NOTE) {
      Adds(t, x, [], ssrc);
    } else if Has(t, e.ssrc) && Collides(u.sources[k], from, false) {
      Adds(t, x, [Collision(e.ssrc, from, false)], ssrc);
    } else {
      var v := Replace(u, k, Bound(u.sources[k], from, false));
      BoundName(u.sources[k], from);
      ApplyTells(v, k, !Has(t, e.ssrc), e, ssrc);
    }
  }

  lemma {:induction false} BoundName(s: Source, from: Option<Address>)
    ensures Bound(s, from, false).ssrc == s.ssrc
  {
  }

  lemma {:induction false} CnameValid(t: Table, ssrc: u32)
    requires CnamesValid(t)
    ensures H.EntryOf(t, ssrc).Item(CNAME) != [] ==> H.EntryOf(t, ssrc).validated
  {
  }

  // ---------------------------------------------------------------- passes

  lemma {:induction false} PassTells(own: Option<u32>, e: Event, s: Source, ssrc: u32)
    requires IsCheck(e)
    ensures Balance(PassOf(own, e)(s).said, ssrc) == if !PassOf(own, e)(s).Keep? && s.ssrc == ssrc then -1 else 0
  {
    hide TimeMinus, NoteOld;
  }

  lemma {:induction false} SaidTells(ss: seq<Source>, own: Option<u32>, e: Event, ssrc: u32)
    requires IsCheck(e) && Unique(ss)
    ensures var k := Find(ss, ssrc);
            Balance(Said(ss, PassOf(own, e)), ssrc) == if k < |ss| && !PassOf(own, e)(ss[k]).Keep? then -1 else 0
  {
    hide Balance, Find, PassOf;
    NoneNew([], ssrc);
    if ss != [] {
      var front, last := ss[..|ss| - 1], ss[|ss| - 1];
      SaidTells(front, own, e, ssrc);
      PassTells(own, e, last, ssrc);
      BalanceConcat(Said(front, PassOf(own, e)), PassOf(own, e)(last).said, ssrc);
      FindAppend(front, last, ssrc);
      assert ss == front + [last];
    }
  }

  lemma {:induction false} CheckTells(t: Table, e: Event, ssrc: u32)
    requires Sound(t) && IsCheck(e)
    ensures t.own.Some? ==> Has(t, t.own.value)
    ensures Tells(t, Step(t, e), ssrc)
  {
    hide EntryOk, Balance, PassOf, Step, LifeIn, Lived, Leaves;
    CheckIsSweep(t, e);
    var pass := PassOf(t.own, e);
    SaidTells(t.sources, t.own, e, ssrc);
    Adds(t, Sweep(t, pass), Said(t.sources, pass), ssrc);
    CheckLife(t, e, ssrc);
    if Has(t, ssrc) {
      PassKeeps(t, t.sources[Find(t.sources, ssrc)], e);
    }
  }

  // ---------------------------------------------------------------- whole runs

  lemma {:induction false} QuietTells(t: Table, e: Event, ssrc: u32)
    requires Sound(t) && !IsCheck(e) && !e.Rtp? && !e.Rtcp? && !e.Clear?
    ensures t.own.Some? ==> Has(t, t.own.value)
    ensures Tells(t, Step(t, e), ssrc)
  {
    hide Sound, Balance, LifeIn, Lived, Find;
    OwnHas(t);
    var u := Step(t, e);
    QuietLife(t, e, ssrc);
    NoneNew([], ssrc);
    match e
    case Create(x) =>
      OneNew(x, ssrc);
      Adds(t, u, if t.own == None && !Has(t, x) then [IsNew(x)] else [], ssrc);
    case Delete =>
      if t.own.Some? {
        OneNew(t.own.value, ssrc);
        FitsHere(t, t.own.value);
        Adds(t, u, [IsRemoved(t.own.value)], ssrc);
      }
    case SentRtp(_) =>
    case TakePacket(_) =>
  }

  lemma {:induction false} StepTells(t: Table, e: Event, ssrc: u32)
    requires Sound(t) && CnamesValid(t) && !e.Clear?
    ensures t.own.Some? ==> Has(t, t.own.value)
    ensures Tells(t, Step(t, e), ssrc)
  {
    hide Sound, Tells, CnamesValid, RtpPacketIn, RtcpIn;
    OwnHas(t);
    if IsCheck(e) {
      CheckTells(t, e, ssrc);
    } else if e.Rtp? {
      RtpTells(t, e, ssrc);
    } else if e.Rtcp? {
      RtcpTells(t, e, ssrc);
    } else {
      QuietTells(t, e, ssrc);
    }
  }

  /** Unless the table is cleared, the entry of a source has been announced exactly once more than its end. */
  lemma {:induction false} NoticesExact(probationType: ProbationType, events: seq<Event>, n: nat, ssrc: u32)
    requires n <= |events| && forall i :: 0 <= i < |events| ==> !events[i].Clear?
    ensures var t := TableAt(probationType, events, n);
            multiset(t.log)[IsNew(ssrc)] == multiset(t.log)[IsRemoved(ssrc)] + if Has(t, ssrc) then 1 else 0
  {
    hide TableAt, Step;
    if n > 0 {
      NoticesExact(probationType, events, n - 1, ssrc);
      AtStep(probationType, events, n - 1);
      AlwaysNamed(probationType, events, n - 1);
      StepTells(TableAt(probationType, events, n - 1), events[n - 1], ssrc);
    } else {
      StartsSilent(probationType, events, ssrc);
    }
  }

  lemma {:induction false} StartsSilent(probationType: ProbationType, events: seq<Event>, ssrc: u32)
    ensures TableAt(probationType, events, 0).log == [] && !Has(TableAt(probationType, events, 0), ssrc)
  {
    EmptySound(probationType, []);
  }
}
