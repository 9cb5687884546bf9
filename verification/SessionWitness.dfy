/** A run of a session in which two goodbyes wait at once, and one in which a failed transmission strands the second. */
module SessionWitness {
  import opened Bytes
  import F = RtcpFormat
  import B = RtcpBuild
  import opened SourceStats
  import D = SourceData
  import opened SourceTable
  import T = SourceTableRuns
  import H = SourceTableHistory
  import S = Scheduler
  import R = SchedulerRuns
  import P = PacketRound
  import Q = PacketRoundRuns
  import RP = RtpPacket
  import RtcpTimer
  import opened TimerCalls
  import opened SessionStep
  import opened SessionRuns

  /** A data packet that claims the SSRC. */
  function Claim(ssrc: u32): RP.Packet {
    RP.Packet(false, 0, 1, 0, ssrc, [], None, [])
  }

  /** It arrives from an address; free is the only number drawn for a new SSRC. */
  function Colliding(ssrc: u32, from: Address, free: u32): Raw {
    Raw(Some(from), false, true, RP.Encode(Claim(ssrc)), 0, 0, 0.0, 0, F.SenderInfo(0, 0, 0, 0, 0), [free], 0.0)
  }

  function PollAt(raws: seq<Raw>, clock: int, sendOk: bool): Poll {
    Poll(raws, 0, Delays(0, 0, 0, 0, 0), clock, clock, 0.0, 0.0, 0.0, F.SenderInfo(0, 0, 0, 0, 0), [], 0, [], sendOk)
  }

  /** The own entry is the only one. */
  predicate Alone(s: Session) {
    |s.table.sources| == 1 && s.table.sources[0].ssrc == s.ssrc
  }

  lemma {:induction false} ClaimParses(ssrc: u32, from: Address, free: u32)
    ensures BodyOf(Colliding(ssrc, from, free)) == Data(Claim(ssrc))
  {
    hide RP.Encode, RP.Parse;
    RP.RoundTrip(Claim(ssrc), 0);
  }

  /** A claim of the own SSRC from elsewhere is reported as a collision, and changes nothing else. */
  lemma {:induction false} ClaimCollides(s: Session, from: Address, free: u32)
    requires Coupled(s)
    ensures var raw := Colliding(s.ssrc, from, free);
            HandleRaw(s, raw) == (s.(table := s.table.(log := s.table.log + [Collision(s.ssrc, Some(from), true)])), true)
  {
    hide T.Sound, Ready, RtpPacketIn, BodyOf, H.Respects, D.QueueOk;
    ClaimParses(s.ssrc, from, free);
    T.OwnHas(s.table);
    var k := Find(s.table.sources, s.ssrc);
    T.EntryAt(s.table, k);
    assert H.EntryOf(s.table, s.ssrc) == s.table.sources[k];
    H.RtpCollisionsHarmless(s.table, Claim(s.ssrc), 0, 0.0, Some(from));
  }

  /** The timer does not fire at time 0. */
  predicate NotDue(sched: S.State) {
    !sched.firstCall && sched.next > 0
  }

  lemma {:induction false} SpacingAboveZero(p: S.Params, half: bool)
    requires S.Usable(p)
    ensures R.Spacing(p, half) > 0
  {
    var least := S.LeastInterval(p, half);
    assert least >= 0.5;
    R.FloorMonotone(0.5, least);
    R.SecondsMonotone(500_000, S.Micros(least));
    R.RandomizedMonotone(0.5, S.Seconds(S.Micros(least)));
  }

  lemma {:induction false} BackedOff(sched: S.State, g: S.Group, size: nat)
    requires S.Usable(sched.params) && !sched.byeScheduled && !sched.params.immediateBye
    ensures NotDue(S.ScheduleBye(sched, g, size, 0, 0.0)) && S.ScheduleBye(sched, g, size, 0, 0.0).params == sched.params
  {
    hide R.Spacing, S.ByeInterval;
    RtcpTimer.ByeSpaced(sched, g, size, 0, 0.0);
    SpacingAboveZero(sched.params, sched.params.useHalfAtStartup);
  }

  /** The goodbye for the SSRC joins the queue; only the first one starts the back-off. */
  lemma {:induction false} ByeQueued(s: Session, raw: Raw)
    requires Coupled(s) && raw.clock == 0 && raw.draw == 0.0 && !s.sched.params.immediateBye
    ensures var t := QueueBye(s, raw).0;
            && t == s.(byes := t.byes, built := t.built, sched := t.sched) && t.sched.params == s.sched.params
            && (if s.byes == [] then NotDue(t.sched) else t.sched == s.sched)
  {
    hide T.Sound, S.Usable, B.ContentOk, S.ScheduleBye, P.BuildBye, B.Size, IsByePacket, Q.RoundOk, WeSend, Contents, NotDue;
    ByeIsBye(s.config.maxPacketSize, ByeSituation(s, raw));
    var c := P.BuildBye(s.config.maxPacketSize, ByeSituation(s, raw), []).value;
    if s.byes == [] {
      BackedOff(s.sched, GroupOf(s.table), B.Size(c));
    }
  }

  lemma {:induction false} SsrcChanged(s: Session, raw: Raw, free: u32)
    requires Coupled(s) && Alone(s) && free != s.ssrc && raw.draws == [free]
    ensures s.table.own.Some? ==> Has(s.table, s.table.own.value)
    ensures var (t, failure) := ChangeSsrc(s, raw);
            failure == NoFailure && Alone(t) && t == s.(ssrc := free, sentPackets := false, table := t.table)
  {
    hide T.Sound, Ready, Contents, Q.RoundOk, IsByePacket;
    T.OwnHas(s.table);
    NotThere(s.table, free);
    FreshIsFree(s.table, free);
  }

  lemma {:induction false} NotThere(t: Table, ssrc: u32)
    requires |t.sources| == 1 && t.sources[0].ssrc != ssrc
    ensures !Has(t, ssrc) && FreshSsrc(t, [ssrc]) == Some(ssrc)
  {
    assert Find(t.sources, ssrc) == 1;
  }

  /** The session gives up its SSRC; the own entry stays the only one. */
  lemma {:induction false} ClaimTaken(s: Session, from: Address, free: u32)
    requires Coupled(s) && Alone(s) && s.sentPackets && free != s.ssrc && !s.sched.params.immediateBye
    requires FindAddress(s.collisions, from) == |s.collisions|
    ensures var raw := Colliding(s.ssrc, from, free);
            var (t, failure) := TakeRaw(s, raw);
            && failure == NoFailure && Coupled(t) && Alone(t) && t.ssrc == free && |t.byes| == |s.byes| + 1
            && t.collisions == s.collisions + [(from, 0)]
            && (if s.byes == [] then NotDue(t.sched) else t.sched == s.sched) && t.sched.params == s.sched.params
  {
    hide T.Sound, Ready, Coupled, QueueBye, ChangeSsrc, NotDue, HandleRaw;
    var raw := Colliding(s.ssrc, from, free);
    SoundParts(s);
    HandledSound(s, raw);
    RawKeeps(s, raw);
    ClaimCollides(s, from, free);
    HandledCoupled(s, raw);
    var t := HandleRaw(s, raw).0;
    assert t.table.log[|s.table.log|] == Collision(s.ssrc, Some(from), true);
    OwnIs(s);
    assert OwnCollided(t.table, |s.table.log|);
    var u := t.(collisions := s.collisions + [(from, 0)]);
    ListCoupled(t, u);
    SoundParts(u);
    QueueCoupled(u, raw);
    ByeQueued(u, raw);
    SsrcChanged(QueueBye(u, raw).0, raw, free);
  }

  lemma {:induction false} OwnIs(s: Session)
    requires Coupled(s)
    ensures s.table.own == Some(s.ssrc)
  {
  }

  lemma {:induction false} TimedOutAlone(s: Session, poll: Poll)
    requires Coupled(s) && Alone(s) && poll.delays == Delays(0, 0, 0, 0, 0) && poll.tick == 0
    ensures var t := TimeOut(s, poll);
            Alone(t) && t.sched == s.sched && t.ssrc == s.ssrc && t.collisions == s.collisions && t.sentPackets == s.sentPackets
  {
    hide T.Sound, Ready, Contents, Q.RoundOk, IsByePacket, D.QueueOk, NoteOld;
    var own := s.table.sources[0];
    var pass := PassOf(s.table.own, poll);
    assert s.table.sources == [own] && [own][..0] == [];
    assert pass(own).Keep? && pass(own).source.ssrc == own.ssrc;
    assert Kept([own], pass) == Kept([], pass) + [pass(own).source];
    assert Leavings([own], pass, s.table.active).0 == [];
    NothingForgotten(s.collisions);
  }

  lemma {:induction false} NothingForgotten(list: seq<(Address, RtpTime)>)
    ensures ForgetCollisions(list, 0) == list
  {
    if list != [] {
      NothingForgotten(list[1..]);
    }
  }

  /** A call at time 0 in which the only packet claims the SSRC: one goodbye more waits, and none is sent. */
  lemma {:induction false} PollClaims(s: Session, from: Address, free: u32)
    requires Coupled(s) && Alone(s) && s.sentPackets && free != s.ssrc && !s.sched.params.immediateBye
    requires FindAddress(s.collisions, from) == |s.collisions| && (s.byes != [] ==> NotDue(s.sched))
    ensures var t := Step(s, PollData(PollAt([Colliding(s.ssrc, from, free)], 0, true))).0;
            && Coupled(t) && Alone(t) && t.ssrc == free && |t.byes| == |s.byes| + 1 && NotDue(t.sched)
            && t.collisions == s.collisions + [(from, 0)] && !t.sched.params.immediateBye
            && (ByesAgree(t) <==> ByesAgree(s))
  {
    hide T.Sound, Ready, Coupled, TakeRaw, TimeOut, NotDue, S.TransmissionInterval, S.ByeInterval, Transmit;
    var raw := Colliding(s.ssrc, from, free);
    var poll := PollAt([raw], 0, true);
    SoundParts(s);
    SessionInvariant(s, poll);
    ClaimTaken(s, from, free);
    TakenSound(s, raw);
    var t := TakeRaw(s, raw).0;
    assert [raw][1..] == [];
    AllSound(s, poll.raws);
    assert TakeAll(s, [raw]) == (t, NoFailure);
    TimedOutAlone(t, poll);
    TimeOutKeeps(t, poll);
    SoundParts(TimeOut(t, poll));
    NotDueNotFired(TimeOut(t, poll), poll);
  }

  lemma {:induction false} NotDueNotFired(s: Session, poll: Poll)
    requires Ready(s) && NotDue(s.sched) && poll.clock == 0
    ensures S.Expire(s.sched, GroupOf(s.table), poll.clock, poll.later, poll.draw, poll.draw2) == (s.sched, false)
  {
    hide S.TransmissionInterval, S.ByeInterval;
  }

  lemma {:induction false} SendAlone(s: Session)
    requires Coupled(s) && Alone(s)
    ensures var t := Step(s, SendData(0, true)).0;
            && Coupled(t) && Alone(t) && t.sentPackets && t == s.(sentPackets := true, table := t.table)
            && (ByesAgree(t) <==> ByesAgree(s))
  {
    hide T.Sound, Ready, Contents, Q.RoundOk, IsByePacket, D.Sent;
    SoundParts(s);
    T.OwnHas(s.table);
    T.SentFlags(s.table.sources[0], 0);
  }

  function Twice(s: Session, a: Address, b: Address, x: u32, y: u32): seq<Event> {
    [SendData(0, true), PollData(PollAt([Colliding(s.ssrc, a, x)], 0, true)),
     SendData(0, true), PollData(PollAt([Colliding(x, b, y)], 0, true))]
  }

  lemma {:induction false} RunSteps(s: Session, e1: Event, e2: Event, e3: Event, e4: Event)
    requires Coupled(s)
    ensures Run(s, [e1, e2, e3, e4]) == Step(Step(Step(Step(s, e1).0, e2).0, e3).0, e4).0
  {
    hide Step, Coupled;
    assert [e1][..0] == [] && Run(s, [e1]) == Step(s, e1).0;
    assert [e1, e2][..1] == [e1] && Run(s, [e1, e2]) == Step(Run(s, [e1]), e2).0;
    assert [e1, e2, e3][..2] == [e1, e2] && Run(s, [e1, e2, e3]) == Step(Run(s, [e1, e2]), e3).0;
    assert [e1, e2, e3, e4][..3] == [e1, e2, e3];
  }

  lemma {:induction false} NewIsAlone(config: Config, probationType: D.ProbationType, ssrc: u32, sched: S.State)
    requires Creatable(config, sched)
    ensures var s := NewSession(config, probationType, ssrc, sched);
            Coupled(s) && Alone(s) && s.byes == [] && s.collisions == [] && s.sched.params == sched.params && s.ssrc == ssrc
  {
    NewSessionKeeps(config, probationType, ssrc, sched);
  }

  /** Two claims from different addresses, with a data packet sent before each: two goodbyes wait at once. */
  lemma {:induction false} TwoGoodbyesWait(config: Config, probationType: D.ProbationType, ssrc: u32, sched: S.State,
                                           a: Address, b: Address, x: u32, y: u32)
    requires Creatable(config, sched) && !sched.params.immediateBye && a != b && x != ssrc && y != x
    ensures Coupled(NewSession(config, probationType, ssrc, sched))
    ensures var s := NewSession(config, probationType, ssrc, sched);
            var t := Run(s, Twice(s, a, b, x, y));
            |t.byes| == 2 && NotDue(t.sched) && t.sched.byeScheduled && Alone(t)
  {
    hide Coupled, Step, Alone, NotDue, Run;
    var s := NewSession(config, probationType, ssrc, sched);
    NewIsAlone(config, probationType, ssrc, sched);
    NewSessionKeeps(config, probationType, ssrc, sched);
    SendAlone(s);
    var s1 := Step(s, SendData(0, true)).0;
    PollClaims(s1, a, x);
    var s2 := Step(s1, PollData(PollAt([Colliding(ssrc, a, x)], 0, true))).0;
    SendAlone(s2);
    var s3 := Step(s2, SendData(0, true)).0;
    PollClaims(s3, b, y);
    RunSteps(s, SendData(0, true), PollData(PollAt([Colliding(ssrc, a, x)], 0, true)), SendData(0, true),
             PollData(PollAt([Colliding(x, b, y)], 0, true)));
  }

  function Later(a: int, b: int): int {
    if a < b then b else a
  }

  /** A call without packets, late enough for the timer to fire, whose transmission fails. */
  function Failing(s: Session): Poll
    requires Coupled(s)
  {
    SoundParts(s);
    PollAt([], Later(s.sched.next, s.sched.prev + S.Interval(s.sched, GroupOf(TimeOut(s, PollAt([], 0, false)).table), 0.0)), false)
  }

  lemma {:induction false} LateFires(s: Session)
    requires Coupled(s) && Alone(s) && NotDue(s.sched)
    ensures Ready(s) && T.Sound(s.table) && Fires(s, Failing(s)) && Waiting(s, Failing(s)) == s.byes
  {
    hide T.Sound, Ready, Coupled, S.TransmissionInterval, S.ByeInterval, S.Interval, MultipleTimeouts;
    var poll := Failing(s);
    SoundParts(s);
    AllSound(s, poll.raws);
    TimedOutAlone(s, poll);
    TimeOutReady(s, poll);
    assert TimeOut(s, poll).table == TimeOut(s, PollAt([], 0, false)).table;
    LateExpires(s.sched, GroupOf(TimeOut(s, poll).table), poll.clock);
  }

  lemma {:induction false} LateExpires(s: S.State, g: S.Group, clock: int)
    requires S.Usable(s.params) && !s.firstCall && s.next <= clock && s.prev + S.Interval(s, g, 0.0) <= clock
    ensures S.Expire(s, g, clock, clock, 0.0, 0.0).1
  {
    hide S.TransmissionInterval, S.Interval;
  }

  /**
   From the creation of a session: two goodbyes wait, the first is not transmitted, and the second is left
   waiting without a timer.
   */
  lemma {:induction false} FailedSendStrands(config: Config, probationType: D.ProbationType, ssrc: u32, sched: S.State,
                                             a: Address, b: Address, x: u32, y: u32)
    requires Creatable(config, sched) && !sched.params.immediateBye && a != b && x != ssrc && y != x
    ensures Coupled(NewSession(config, probationType, ssrc, sched))
    ensures var s := NewSession(config, probationType, ssrc, sched);
            var t := Run(s, Twice(s, a, b, x, y));
            var u := Run(s, Twice(s, a, b, x, y) + [PollData(Failing(t))]);
            |u.byes| == 1 && !u.sched.byeScheduled && !ByesAgree(u)
  {
    hide Coupled, Alone, NotDue, Failing, ProcessPolledData, Fires, Waiting, Twice;
    TwoGoodbyesWait(config, probationType, ssrc, sched, a, b, x, y);
    var s := NewSession(config, probationType, ssrc, sched);
    var events := Twice(s, a, b, x, y);
    var t := Run(s, events);
    LateFires(t);
    FailingFails(t);
    SessionInvariant(t, Failing(t));
    assert (events + [PollData(Failing(t))])[..|events|] == events;
  }

  lemma {:induction false} FailingFails(s: Session)
    requires Coupled(s)
    ensures !Failing(s).sendOk
  {
  }
}
