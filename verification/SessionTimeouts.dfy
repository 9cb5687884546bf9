/** What a session asks of its timer and of the timeouts: for whom, and after how long. */
module SessionTimeouts {
  import opened Bytes
  import B = RtcpBuild
  import F = RtcpFormat
  import P = PacketRound
  import Q = PacketRoundRuns
  import opened SourceStats
  import D = SourceData
  import opened SourceTable
  import opened TimerCalls
  import opened SessionStep
  import H = SourceTableHistory
  import L = SourceLives
  import T = SourceTableRuns
  import S = Scheduler
  import I = SchedulerIntervals

  /** The part of the bandwidth by the counters of the table: the sources that send, the active ones, and whether we send. */
  lemma {:induction false} GroupExact(t: Table)
    requires T.Sound(t)
    ensures GroupOf(t).senders == |L.SenderIds(t.sources)| && GroupOf(t).members == t.active
    ensures GroupOf(t).weSend <==> t.own.Some? && t.own.value in L.SenderIds(t.sources)
  {
    hide T.EntryOk;
    L.SenderIdsCount(t.sources);
    if t.own.Some? {
      hide T.Sound;
      L.SenderIsListed(t, t.own.value);
    }
  }

  /** x microseconds, times a factor, cut down, in the 32 bits of the seconds. */
  predicate Multiple(limit: RtpTime, interval: int, factor: real) {
    limit == (interval as real * factor).Floor % (0x1_0000_0000 * 1_000_000)
  }

  predicate Multiples(d: Delays, interval: int, m: Multipliers) {
    && Multiple(d.sender, interval, m.sender) && Multiple(d.bye, interval, m.bye) && Multiple(d.general, interval, m.general)
    && Multiple(d.note, interval, m.note) && Multiple(d.collision, interval, m.collision)
  }

  /** This is the least interval at which the receivers keep to their share of the bandwidth. */
  predicate ReceiverInterval(sched: S.State, g: S.Group, interval: int) {
    var (share, n) := I.Part(sched.params, g.(weSend := false));
    I.Least(I.Minimum(sched), n, sched.avgPacketSize, share, interval)
  }

  /** The time limits are multiples of the interval of the receivers, whether or not we send. */
  lemma {:induction false} LimitsExact(sched: S.State, g: S.Group, m: Multipliers)
    requires S.Usable(sched.params)
    ensures var d := TimeLimitsFor(S.DeterministicInterval(sched, g, false), m);
            exists interval: int :: ReceiverInterval(sched, g, interval) && Multiples(d, interval, m)
  {
    hide S.DeterministicInterval, I.Least, I.Part, S.Usable, Multiples, TimeLimitsFor;
    I.DeterministicExact(sched, g.(weSend := false));
    SameInterval(sched, g);
    var interval := S.DeterministicInterval(sched, g, false);
    assert ReceiverInterval(sched, g, interval);
    LimitsAre(interval, m);
  }

  lemma {:induction false} LimitsAre(interval: int, m: Multipliers)
    ensures Multiples(TimeLimitsFor(interval, m), interval, m)
  {
    hide Multiple, LimitOf;
    AsMultiple(interval, m.sender);
    AsMultiple(interval, m.bye);
    AsMultiple(interval, m.general);
    AsMultiple(interval, m.note);
    AsMultiple(interval, m.collision);
  }

  lemma {:induction false} SameInterval(sched: S.State, g: S.Group)
    requires S.Usable(sched.params)
    ensures S.DeterministicInterval(sched, g, false) == S.DeterministicInterval(sched, g.(weSend := false), false)
  {
  }

  lemma {:induction false} AsMultiple(interval: int, factor: real)
    ensures Multiple(LimitOf(interval, factor), interval, factor)
  {
    InMicros(S.Seconds(interval), interval as real, factor);
  }

  lemma {:induction false} InMicros(seconds: real, micros: real, factor: real)
    requires seconds * 1_000_000.0 == micros
    ensures S.Micros(Times(seconds, factor)) == (micros * factor).Floor
  {
    assert seconds * factor * 1_000_000.0 == micros * factor;
  }

  // ---------------------------------------------------------------- what a call removes

  /** The pass of a call, as an event of the table. */
  function Checks(poll: Poll): T.Event {
    T.AllChecks(poll.tick, poll.delays.sender, poll.delays.bye, poll.delays.general, poll.delays.note)
  }

  lemma {:induction false} TransmitKeepsTable(s: Session, poll: Poll)
    requires Ready(s)
    ensures Transmit(s, poll).0.table == s.table
  {
    hide S.Outgoing, S.ScheduleBye, B.Size, GroupOf, NextSituation;
  }

  lemma {:induction false} FinishTable(s: Session, poll: Poll)
    requires Ready(s) && T.Sound(s.table)
    ensures s.table.own.Some? ==> Has(s.table, s.table.own.value)
    ensures Finish(s, poll).0.table == T.Step(s.table, Checks(poll))
  {
    hide T.Sound, Transmit, TimerSwept, MultipleTimeouts, ForgetCollisions, S.Usable, S.Interval, B.ContentOk;
    T.OwnHas(s.table);
    TimeOutReady(s, poll);
    var t := TimeOut(s, poll);
    var (sched, isTime) := S.Expire(t.sched, GroupOf(t.table), poll.clock, poll.later, poll.draw, poll.draw2);
    if isTime {
      TransmitKeepsTable(t.(sched := sched), poll);
    }
  }

  /** More than the limit before now; the difference of two times wraps around with the 32-bit seconds. */
  predicate Late(time: RtpTime, now: RtpTime, limit: RtpTime) {
    time < (now - limit) % (0x1_0000_0000 * 1_000_000)
  }

  /**
   A call that takes all the waiting packets without an error: whoever was in the table then, and only they, are in it
   after the call, but for the remote sources that are silent for longer than the general limit, or gone for longer
   than that for BYE; and those that sent no data for longer than the sender limit are no senders.
   */
  lemma {:induction false} PollRemoves(s: Session, poll: Poll, m: Multipliers, x: u32)
    requires Ready(s) && T.Sound(s.table) && TakeAll(s, poll.raws).1 == NoFailure
    ensures var t := TakeAll(s, poll.raws).0.table;
            var d := Limited(s, poll, m).delays;
            var u := ProcessPolledData(s, Limited(s, poll, m)).0.table;
            var l, k := L.LifeIn(H.EntryOf(t, x)), L.LifeIn(H.EntryOf(u, x));
            && (Has(u, x) <==> Has(t, x) && (t.own == Some(x) || !(Late(l.heard, poll.tick, d.general) || (l.gone && Late(l.goneAt, poll.tick, d.bye)))))
            && (Has(u, x) ==> k == l.(sends := l.sends && !Late(l.data, poll.tick, d.sender),
                                      note := if Late(l.notedAt, poll.tick, d.note) then [] else l.note))
  {
    hide T.Sound, Ready, TakeAll, Finish, T.Step, TimeLimitsFor, S.DeterministicInterval, L.LifeIn, L.Lived, GroupOf;
    AllSound(s, poll.raws);
    var t := TakeAll(s, poll.raws).0;
    var limited := Limited(s, poll, m);
    FinishTable(t, limited);
    L.CheckLife(t.table, Checks(limited), x);
    L.LivedByCheck(L.LifeIn(H.EntryOf(t.table, x)), t.table, Checks(limited), x);
  }

  // ---------------------------------------------------------------- what a call sends

  /** A report under this header and SSRC, without a goodbye, with the CNAME as the first item of the own chunk. */
  predicate IsReport(c: B.Content, header: B.ReportHeader, ssrc: u32, cname: bytes) {
    && c.header == header && c.byes == [] && |c.chunks| == 1 && c.chunks[0].ssrc == ssrc
    && c.chunks[0].items != [] && c.chunks[0].items[0] == F.Item(1, cname)
  }

  lemma {:induction false} BuiltReport(max: nat, r: P.Round, s: P.Situation)
    requires max >= B.MIN_PACKET_SIZE && P.SituationOk(s) && Q.RoundOk(r)
    ensures var o := P.BuildNext(max, r, s); o.Filled? && IsReport(o.content, P.HeaderOf(s), s.ssrc, s.cname)
  {
    hide P.BuildNext, P.PendingOf, B.Size, P.HeaderOf;
    if r.ongoing {
      Q.GoesOn(max, r, s);
    } else {
      Q.Opens(max, r, s);
    }
  }

  /** The header of the own report: that of a sender report exactly if the own entry is a sender. */
  function OwnHeader(t: Table, ssrc: u32, info: F.SenderInfo): B.ReportHeader {
    if t.own.Some? && t.own.value in L.SenderIds(t.sources) then B.SrHeader(ssrc, info) else B.RrHeader(ssrc)
  }

  /**
   What a call without a goodbye to send does send: a sender report exactly if the own entry is a sender after the
   timeouts, a receiver report otherwise, under the own SSRC, and with the CNAME as its first description item.
   */
  lemma {:induction false} ReportExact(s: Session, poll: Poll)
    requires Ready(s) && T.Sound(s.table) && Q.RoundOk(s.round) && s.byes == []
    ensures var (u, failure, sent) := Finish(s, poll);
            sent.Some? ==> IsReport(sent.value, OwnHeader(u.table, s.ssrc, poll.info), s.ssrc, s.config.cname)
  {
    hide T.Sound, T.Step, TimerSwept, MultipleTimeouts, ForgetCollisions, S.Usable, S.Interval, S.Outgoing, B.ContentOk, B.Size, P.BuildNext, L.SenderIds, IsReport;
    TimeOutReady(s, poll);
    FinishTable(s, poll);
    var t := TimeOut(s, poll);
    TableSound(s, poll);
    GroupExact(t.table);
    BuiltReport(s.config.maxPacketSize, s.round, NextSituation(t, poll));
  }

  lemma {:induction false} TableSound(s: Session, poll: Poll)
    requires T.Sound(s.table)
    ensures T.Sound(TimeOut(s, poll).table)
  {
    hide T.Sound, TimerSwept, MultipleTimeouts;
    T.OwnHas(s.table);
    T.StepSound(s.table, Checks(poll));
  }
}
