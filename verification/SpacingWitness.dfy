/**
 A run from the creation of a session in which three contributing sources are missed: the timer is told of -1
 and then of -2 members, and fires again before its least interval is over.
 */
module SpacingWitness {
  import opened Bytes
  import F = RtcpFormat
  import B = RtcpBuild
  import C = RtcpCompound
  import opened SourceStats
  import D = SourceData
  import opened SourceTable
  import T = SourceTableRuns
  import H = SourceTableHistory
  import opened CompoundActions
  import S = Scheduler
  import R = SchedulerRuns
  import P = PacketRound
  import Q = PacketRoundRuns
  import RP = RtpPacket
  import opened TimerCalls
  import opened SessionStep
  import opened SessionRuns
  import opened SessionCounts
  import opened SessionSpacing
  import opened SessionWitness
  import opened MissedScene

  // ---------------------------------------------------------------- the timer

  /** Plenty of bandwidth, and the usual five seconds as the minimum. */
  const PARAMS := S.Params(1_000_000_000.0, 0.25, 5_000_000, false, false)

  /** The time between the two packets: more than half the least interval, and less than all of it. */
  const LAPSE := 1_100_000

  lemma {:induction false} SpacingIs()
    ensures S.Usable(PARAMS) && LAPSE < R.Spacing(PARAMS, false) <= 2 * LAPSE
  {
    var td := S.Seconds(S.Micros(S.LeastInterval(PARAMS, false)));
    assert S.LeastInterval(PARAMS, false) == 5.0;
    assert S.Micros(5.0) == 5_000_000 && td == 5.0;
    assert 5.0 * 0.5 / 1.21828 * 1_000_000.0 == 2_500_000.0 / 1.21828;
    assert 1_100_001.0 <= 2_500_000.0 / 1.21828 < 2_200_001.0;
  }

  /** In a small group, with packets of at most 1000 bytes, the minimum decides. */
  lemma {:induction false} LeastDecides(s: S.State, g: S.Group)
    requires s.params == PARAMS && s.avgPacketSize <= 1000 && 0 <= g.senders <= 10 && 0 <= g.members <= 10
    ensures S.Usable(PARAMS) && S.TransmissionInterval(s, g, 0.0) == R.Spacing(PARAMS, false)
  {
    hide S.Randomized;
    var (share, n) := S.Share(s.params, g, g.weSend);
    SmallLoad(n, s.avgPacketSize, share);
    assert S.LeastInterval(s.params, !s.hasSentRtcp && s.params.useHalfAtStartup) == 5.0;
  }

  lemma {:induction false} SmallLoad(n: int, size: nat, share: real)
    requires n <= 10 && size <= 1000 && share >= 1_000_000.0
    ensures S.Load(n, size, share) <= 5.0
  {
    var each := size as real / share;
    assert each * share == size as real;
    R.Growing(each, 1_000_000.0, share);
    assert 0.0 <= each <= 0.001;
    R.Growing(each, n as real, 10.0);
    assert S.Load(n, size, share) == each * n as real <= each * 10.0;
  }

  /** What four told counts make of a timer that has just fired. */
  lemma {:induction false} ToldFour(s: S.State, now: int)
    requires !s.firstCall && s.prev == now && s.pmembers == 1
    ensures var t := S.MembersLeft(S.MembersLeft(S.MembersLeft(s, 1, now), 0, now), -1, now);
            t == s.(next := now, prev := now, pmembers := -1)
    ensures var t := S.MembersLeft(s.(next := now, prev := now, pmembers := -1), -2, now + LAPSE);
            t == s.(next := now + LAPSE, prev := now - LAPSE, pmembers := -2)
  {
    hide S.Portion;
    R.PortionIs(0, 1, S.AtLeastZero(s.next - now));
    R.PortionIs(0, 1, 0);
    R.PortionIs(-1, 1, 0);
    R.PortionIs(-2, -1, 0);
    R.PortionIs(-2, -1, LAPSE);
  }

  // ---------------------------------------------------------------- the run

  const CONFIG := Config(600, [], false, false)

  const TIMER := S.State(PARAMS, 0, 1000, false, true, 0, 0, 0, false, 0, 0, false)

  function Beginning(): Session {
    NewSession(CONFIG, D.NoProbation, 0, TIMER)
  }

  /** A session with no other sources and nothing queued, under its first SSRC. */
  predicate Calm(s: Session) {
    && Coupled(s) && Alone(s) && s.ssrc == 0 && s.table.probationType == D.NoProbation && s.table.active == 1
    && s.config == CONFIG && s.byes == [] && s.collisions == []
    && s.sched.params == PARAMS && s.sched.headerOverhead == 0 && s.sched.avgPacketSize <= 1000 && !s.sched.byeScheduled
  }

  /** A call without packets that comes when the timer is due. */
  function DueCall(s: Session): Poll
    requires Coupled(s)
  {
    SoundParts(s);
    PollAt([], SessionWitness.Later(s.sched.next, s.sched.prev + S.Interval(s.sched, GroupOf(TimeOut(s, PollAt([], 0, true)).table), 0.0)), true)
  }

  function ControlRaw(a: Address, ps: seq<F.Packet>, clock: int): Raw
    requires C.AllOk(ps)
  {
    Raw(Some(a), false, false, Flatten(C.Encoded(ps)), 0, 0, 0.0, clock, F.SenderInfo(0, 0, 0, 0, 0), [], 0.0)
  }

  /** A mixer's first data packet. */
  const MIXED := RP.Packet(false, 0, 1, 0, 9, [1, 2, 3], None, [])

  function DataRaw(a: Address, clock: int): Raw {
    Raw(Some(a), false, true, RP.Encode(MIXED), 0, 0, 0.0, clock, F.SenderInfo(0, 0, 0, 0, 0), [], 0.0)
  }

  /**
   Three sources are heard of; a mixer names them; they say goodbye; and later in the call the mixer does.
   */
  function MissingCall(a: Address, clock: int): Poll {
    PollAt([ControlRaw(a, [F.RR(1, []), F.RR(2, []), F.RR(3, [])], clock),
            DataRaw(a, clock),
            ControlRaw(a, [F.RR(9, []), F.BYE([1, 2, 3], [])], clock),
            ControlRaw(a, [F.RR(9, []), F.BYE([9], [])], clock + LAPSE)], clock + LAPSE, true)
  }

  // ---------------------------------------------------------------- the packets of the last call

  lemma {:induction false} SmallPackets()
    ensures var ps := [F.RR(1, []), F.RR(2, []), F.RR(3, [])];
            C.AllOk(ps) && |Flatten(C.Encoded(ps))| == 24 && forall i :: 0 <= i < |ps| ==> C.LengthFits(C.Encoded(ps)[i])
  {
    var ps := [F.RR(1, []), F.RR(2, []), F.RR(3, [])];
    assert ps[1..] == [ps[1], ps[2]] && ps[1..][1..] == [ps[2]] && ps[1..][1..][1..] == [];
    var bs := C.Encoded(ps);
    assert bs == [F.EncodePacket(ps[0]), F.EncodePacket(ps[1]), F.EncodePacket(ps[2])];
    FlattenThree(bs[0], bs[1], bs[2]);
    ReportSize(1);
    ReportSize(2);
    ReportSize(3);
  }

  lemma {:induction false} ReportSize(ssrc: u32)
    ensures |F.EncodePacket(F.RR(ssrc, []))| == 8
  {
    B.HeadReportSize(B.RrHeader(ssrc), []);
  }

  lemma {:induction false} FlattenThree(x: bytes, y: bytes, z: bytes)
    ensures |Flatten([x, y, z])| == |x| + |y| + |z|
  {
    assert [x, y, z][1..] == [y, z] && [y, z][1..] == [z] && [z][1..] == [];
    assert Flatten([z]) == z + Flatten([]) && Flatten([y, z]) == y + Flatten([z]);
  }

  lemma {:induction false} GoodbyePackets(ssrcs: seq<u32>)
    requires |ssrcs| <= 3
    ensures var ps := [F.RR(9, []), F.BYE(ssrcs, [])];
            C.AllOk(ps) && forall i :: 0 <= i < |ps| ==> C.LengthFits(C.Encoded(ps)[i])
  {
    var ps := [F.RR(9, []), F.BYE(ssrcs, [])];
    assert ps[1..] == [ps[1]] && ps[1..][1..] == [];
    assert C.Encoded(ps) == [F.EncodePacket(ps[0]), F.EncodePacket(ps[1])];
  }

  lemma {:induction false} ReportsHeard(a: Address, clock: int)
    ensures var ps := [F.RR(1, []), F.RR(2, []), F.RR(3, [])];
            && C.AllOk(ps) && |ControlRaw(a, ps, clock).data| == 24
            && BodyOf(ControlRaw(a, ps, clock)) == Control([Part.Known(ps[0]), Part.Known(ps[1]), Part.Known(ps[2])])
  {
    hide C.ParseFrom, F.DecodePacket, C.Encoded, Flatten;
    SmallPackets();
    WrittenIsHeard([F.RR(1, []), F.RR(2, []), F.RR(3, [])]);
  }

  lemma {:induction false} GoodbyesHeard(a: Address, ssrcs: seq<u32>, clock: int)
    requires |ssrcs| <= 3
    ensures var ps := [F.RR(9, []), F.BYE(ssrcs, [])];
            C.AllOk(ps) && BodyOf(ControlRaw(a, ps, clock)) == Control([Part.Known(ps[0]), Part.Known(ps[1])])
  {
    hide C.ParseFrom, F.DecodePacket, C.Encoded, Flatten;
    GoodbyePackets(ssrcs);
    WrittenIsHeard([F.RR(9, []), F.BYE(ssrcs, [])]);
  }

  lemma {:induction false} MixedHeard(a: Address, clock: int)
    ensures BodyOf(DataRaw(a, clock)) == Data(MIXED)
  {
    hide RP.Encode, RP.Parse;
    RP.RoundTrip(MIXED, 0);
  }

  // ---------------------------------------------------------------- what they say

  lemma {:induction false} ReportSays(ssrc: u32, own: Option<u32>)
    ensures PartActions(Part.Known(F.RR(ssrc, [])), own) == [(ssrc, Report.Alive)]
  {
  }

  lemma {:induction false} GoodbyeSays(ssrcs: seq<u32>, own: Option<u32>)
    ensures ssrcs == [9] ==> PartActions(Part.Known(F.BYE(ssrcs, [])), own) == [(9, Report.Bye([]))]
    ensures ssrcs == [1, 2, 3] ==> PartActions(Part.Known(F.BYE(ssrcs, [])), own) == [(1, Report.Bye([])), (2, Report.Bye([])), (3, Report.Bye([]))]
  {
    assert [9][..0] == [] && [1, 2, 3][..2] == [1, 2] && [1, 2][..1] == [1] && [1][..0] == [];
  }

  lemma {:induction false} PartsSay(p: Part, q: Part, r: Part, own: Option<u32>)
    ensures AllActions([p, q], own) == PartActions(p, own) + PartActions(q, own)
    ensures AllActions([p, q, r], own) == PartActions(p, own) + PartActions(q, own) + PartActions(r, own)
  {
    hide PartActions;
    assert [p][..0] == [] && [p, q][..1] == [p] && [p, q, r][..2] == [p, q];
    assert AllActions([p], own) == AllActions([], own) + PartActions(p, own) == PartActions(p, own);
    assert AllActions([p, q], own) == AllActions([p], own) + PartActions(q, own);
  }

  /** One action more. */
  lemma {:induction false} OneAction(t: Table, sched: S.State, front: seq<Action>, x: Action, clock: int, a: Address)
    requires Perform(t, front, 0, Some(a)).1 == Done
    ensures var u := Perform(t, front, 0, Some(a)).0;
            var v := RtcpIn(u, x.0, x.1, 0, Some(a)).0;
            && Perform(t, front + [x], 0, Some(a)) == RtcpIn(u, x.0, x.1, 0, Some(a))
            && TimerAfter(t, sched, front + [x], 0, clock, Some(a))
               == AfterAction(TimerAfter(t, sched, front, 0, clock, Some(a)), u, x, v, clock)
            && ToldBy(t, front + [x], 0, Some(a)) == ToldBy(t, front, 0, Some(a)) + if TakenAsBye(u, x, v) then [v.active] else []
  {
    hide RtcpIn, TakenAsBye, AfterAction;
    assert (front + [x])[..|front|] == front;
  }

  // ---------------------------------------------------------------- what they do to table and timer

  const ALONE: Roles := [(0, Own)]
  const HEARD: Roles := [(0, Own), (1, Silent), (2, Silent), (3, Silent)]
  const MIXING: Roles := [(0, Own), (1, Live), (2, Live), (3, Live), (9, Live)]
  const LEFT: Roles := [(0, Own), (1, Gone), (2, Gone), (3, Gone), (9, Live)]
  const EMPTY: Roles := [(0, Own), (1, Gone), (2, Gone), (3, Gone), (9, Gone)]

  /** No collision was reported since the log had this length. */
  predicate NoCollision(t: Table, length: nat) {
    forall i :: length <= i < |t.log| ==> !t.log[i].Collision?
  }

  lemma {:induction false} NoCollisionMore(t: Table, u: Table, length: nat, n: Notice)
    requires length <= |t.log| && NoCollision(t, length) && u.log == t.log + [n] && !n.Collision?
    ensures NoCollision(u, length) && length <= |u.log|
  {
  }

  /** A sign of life of a new source, at the end of a list of actions. */
  lemma {:induction false} NewSign(t: Table, sched: S.State, front: seq<Action>, roles: Roles, ssrc: u32, clock: int, a: Address)
    requires var (u, status) := Perform(t, front, 0, Some(a)); status == Done && Scene(u, roles, a) && NoCollision(u, |t.log|) && |t.log| <= |u.log|
    requires forall i :: 0 <= i < |roles| ==> roles[i].0 != ssrc
    ensures var u := Perform(t, front, 0, Some(a)).0;
            var (v, status) := Perform(t, front + [(ssrc, Report.Alive)], 0, Some(a));
            && status == Done && Scene(v, roles + [(ssrc, Silent)], a) && v.active == u.active && NoCollision(v, |t.log|) && |t.log| <= |v.log|
            && TimerAfter(t, sched, front + [(ssrc, Report.Alive)], 0, clock, Some(a)) == TimerAfter(t, sched, front, 0, clock, Some(a))
            && ToldBy(t, front + [(ssrc, Report.Alive)], 0, Some(a)) == ToldBy(t, front, 0, Some(a))
  {
    hide Scene, RtcpIn, Perform, TimerAfter, ToldBy, NoCollision;
    var u := Perform(t, front, 0, Some(a)).0;
    OneAction(t, sched, front, (ssrc, Report.Alive), clock, a);
    AliveNew(u, roles, ssrc, a);
    NoCollisionMore(u, RtcpIn(u, ssrc, Report.Alive, 0, Some(a)).0, |t.log|, IsNew(ssrc));
    var told := ToldBy(t, front, 0, Some(a));
    assert told + [] == told;
  }

  lemma {:induction false} NothingYet(t: Table, sched: S.State, clock: int, a: Address)
    ensures Perform(t, [], 0, Some(a)) == (t, Done) && TimerAfter(t, sched, [], 0, clock, Some(a)) == sched
    ensures ToldBy(t, [], 0, Some(a)) == [] && NoCollision(t, |t.log|)
  {
  }

  /** The first packet: three sources are heard of. */
  lemma {:induction false} ThreeHeard(t: Table, sched: S.State, clock: int, a: Address)
    requires Scene(t, ALONE, a)
    ensures var actions := [(1, Report.Alive), (2, Report.Alive), (3, Report.Alive)];
            var (v, status) := Perform(t, actions, 0, Some(a));
            && status == Done && Scene(v, HEARD, a) && v.active == t.active && NoCollision(v, |t.log|)
            && TimerAfter(t, sched, actions, 0, clock, Some(a)) == sched && ToldBy(t, actions, 0, Some(a)) == []
  {
    hide Scene, Perform, TimerAfter, ToldBy, NoCollision;
    NothingYet(t, sched, clock, a);
    var one, two, three: Action := (1, Report.Alive), (2, Report.Alive), (3, Report.Alive);
    NewSign(t, sched, [], ALONE, 1, clock, a);
    assert [] + [one] == [one] && ALONE + [(1, Silent)] == [(0, Own), (1, Silent)];
    NewSign(t, sched, [one], [(0, Own), (1, Silent)], 2, clock, a);
    assert [one] + [two] == [one, two] && [(0, Own), (1, Silent)] + [(2, Silent)] == [(0, Own), (1, Silent), (2, Silent)];
    NewSign(t, sched, [one, two], [(0, Own), (1, Silent), (2, Silent)], 3, clock, a);
    assert [one, two] + [three] == [one, two, three] && [(0, Own), (1, Silent), (2, Silent)] + [(3, Silent)] == HEARD;
  }

  /** The second packet: the mixer is new, and names them. */
  lemma {:induction false} ThreeNamed(t: Table, a: Address)
    requires Scene(t, HEARD, a)
    ensures var u := RtpPacketIn(t, MIXED, 0, 0.0, Some(a)).0;
            Scene(u, MIXING, a) && u.active == t.active + 1 && NoCollision(u, |t.log|)
  {
    hide Scene, PacketOnly, MarkCsrc;
    PacketNew(t, HEARD, MIXED, a);
    var u := PacketOnly(t, MIXED, 0, 0.0, Some(a)).0;
    var roles := HEARD + [(9, Live)];
    MarkSilent(u, roles, 1, a);
    var u1, roles1 := MarkCsrc(u, 1, Some(a)), roles[1 := (1, Live)];
    MarkSilent(u1, roles1, 2, a);
    var u2, roles2 := MarkCsrc(u1, 2, Some(a)), roles1[2 := (2, Live)];
    MarkSilent(u2, roles2, 3, a);
    assert roles2[3 := (3, Live)] == MIXING;
    var csrcs: seq<u32> := [1, 2, 3];
    assert csrcs[..2] == [1, 2] && [1, 2][..1] == [1] && [1][..0] == [];
    assert MarkCsrcs(u, [], Some(a)) == u && MarkCsrcs(u, [1], Some(a)) == u1 && MarkCsrcs(u, [1, 2], Some(a)) == u2;
    assert MarkCsrcs(u, csrcs, Some(a)) == MarkCsrc(u2, 3, Some(a));
  }

  /** A sign of life of a known source. */
  lemma {:induction false} KnownSign(t: Table, sched: S.State, roles: Roles, clock: int, a: Address)
    requires Scene(t, roles, a) && |roles| == 5 && roles[4] == (9, Live)
    ensures var actions := [(9, Report.Alive)];
            var (v, status) := Perform(t, actions, 0, Some(a));
            && status == Done && Scene(v, roles, a) && v.active == t.active && NoCollision(v, |t.log|) && |v.log| == |t.log|
            && TimerAfter(t, sched, actions, 0, clock, Some(a)) == sched && ToldBy(t, actions, 0, Some(a)) == []
  {
    hide Scene, RtcpIn, Perform, TimerAfter, ToldBy;
    NothingYet(t, sched, clock, a);
    OneAction(t, sched, [], (9, Report.Alive), clock, a);
    assert [] + [(9, Report.Alive)] == [(9, Report.Alive)];
    AliveKnown(t, roles, 4, a);
  }

  /** A goodbye at the end of a list of actions: it is told, with the counter. */
  lemma {:induction false} OneGoodbye(t: Table, sched: S.State, front: seq<Action>, roles: Roles, k: nat, clock: int, a: Address)
    requires var (u, status) := Perform(t, front, 0, Some(a)); status == Done && Scene(u, roles, a) && NoCollision(u, |t.log|) && |t.log| <= |u.log|
    requires k < |roles| && roles[k].1 == Live
    ensures var u := Perform(t, front, 0, Some(a)).0;
            var actions := front + [(roles[k].0, Report.Bye([]))];
            var (v, status) := Perform(t, actions, 0, Some(a));
            && status == Done && Scene(v, roles[k := (roles[k].0, Gone)], a) && v.active == u.active - 1
            && NoCollision(v, |t.log|) && |t.log| <= |v.log|
            && TimerAfter(t, sched, actions, 0, clock, Some(a)) == S.MembersLeft(TimerAfter(t, sched, front, 0, clock, Some(a)), v.active, clock)
            && ToldBy(t, actions, 0, Some(a)) == ToldBy(t, front, 0, Some(a)) + [v.active]
  {
    hide Scene, RtcpIn, Perform, TimerAfter, ToldBy, NoCollision, S.MembersLeft;
    var u := Perform(t, front, 0, Some(a)).0;
    OneAction(t, sched, front, (roles[k].0, Report.Bye([])), clock, a);
    ByeLive(u, roles, k, a);
    NoCollisionMore(u, RtcpIn(u, roles[k].0, Report.Bye([]), 0, Some(a)).0, |t.log|, ByeHeard(roles[k].0));
  }

  /** The third packet: they say goodbye, after the mixer's sign of life. */
  lemma {:induction false} ThreeLeave(t: Table, sched: S.State, clock: int, a: Address)
    requires Scene(t, MIXING, a)
    ensures var actions := [(9, Report.Alive), (1, Report.Bye([])), (2, Report.Bye([])), (3, Report.Bye([]))];
            var (v, status) := Perform(t, actions, 0, Some(a));
            && status == Done && Scene(v, LEFT, a) && v.active == t.active - 3 && NoCollision(v, |t.log|)
            && TimerAfter(t, sched, actions, 0, clock, Some(a))
               == S.MembersLeft(S.MembersLeft(S.MembersLeft(sched, t.active - 1, clock), t.active - 2, clock), t.active - 3, clock)
            && ToldBy(t, actions, 0, Some(a)) == [t.active - 1, t.active - 2, t.active - 3]
  {
    hide Scene, Perform, TimerAfter, ToldBy, NoCollision, S.MembersLeft;
    KnownSign(t, sched, MIXING, clock, a);
    var front: seq<Action> := [(9, Report.Alive)];
    OneGoodbye(t, sched, front, MIXING, 1, clock, a);
    var roles1 := MIXING[1 := (1, Gone)];
    OneGoodbye(t, sched, front + [(1, Report.Bye([]))], roles1, 2, clock, a);
    var roles2 := roles1[2 := (2, Gone)];
    OneGoodbye(t, sched, front + [(1, Report.Bye([]))] + [(2, Report.Bye([]))], roles2, 3, clock, a);
    assert roles2[3 := (3, Gone)] == LEFT;
    assert front + [(1, Report.Bye([]))] + [(2, Report.Bye([]))] + [(3, Report.Bye([]))]
        == [(9, Report.Alive), (1, Report.Bye([])), (2, Report.Bye([])), (3, Report.Bye([]))];
  }

  /** The fourth packet: the mixer leaves. */
  lemma {:induction false} MixerLeaves(t: Table, sched: S.State, clock: int, a: Address)
    requires Scene(t, LEFT, a)
    ensures var actions := [(9, Report.Alive), (9, Report.Bye([]))];
            var (v, status) := Perform(t, actions, 0, Some(a));
            && status == Done && Scene(v, EMPTY, a) && v.active == t.active - 1 && NoCollision(v, |t.log|)
            && TimerAfter(t, sched, actions, 0, clock, Some(a)) == S.MembersLeft(sched, t.active - 1, clock)
            && ToldBy(t, actions, 0, Some(a)) == [t.active - 1]
  {
    hide Scene, Perform, TimerAfter, ToldBy, NoCollision, S.MembersLeft;
    KnownSign(t, sched, LEFT, clock, a);
    OneGoodbye(t, sched, [(9, Report.Alive)], LEFT, 4, clock, a);
    assert LEFT[4 := (9, Gone)] == EMPTY;
    assert [(9, Report.Alive)] + [(9, Report.Bye([]))] == [(9, Report.Alive), (9, Report.Bye([]))];
  }

  // ---------------------------------------------------------------- the last call

  lemma {:induction false} TakenQuietly(s: Session, raw: Raw)
    requires Coupled(s) && HandleRaw(s, raw).1 && NoCollision(HandleRaw(s, raw).0.table, |s.table.log|)
    ensures Ready(s) && T.Sound(s.table) && Coupled(HandleRaw(s, raw).0)
    ensures TakeRaw(s, raw) == (HandleRaw(s, raw).0, NoFailure)
  {
    hide Coupled, HandleRaw, Ready, T.Sound, ResolveCollision;
    SoundParts(s);
    HandledSound(s, raw);
    HandledCoupled(s, raw);
  }

  /** A session in the middle of the last call. */
  predicate Midway(s: Session, roles: Roles, active: int, a: Address) {
    Coupled(s) && Scene(s.table, roles, a) && s.table.active == active && s.config == CONFIG && !s.sched.byeScheduled && s.sched.headerOverhead == 0
  }

  lemma {:induction false} FirstRaw(s: Session, clock: int, a: Address)
    requires Midway(s, ALONE, 1, a)
    ensures Ready(s) && T.Sound(s.table)
    ensures C.AllOk([F.RR(1, []), F.RR(2, []), F.RR(3, [])])
    ensures var raw := ControlRaw(a, [F.RR(1, []), F.RR(2, []), F.RR(3, [])], clock);
            var (t, failure) := TakeRaw(s, raw);
            && failure == NoFailure && Midway(t, HEARD, 1, a) && t == s.(table := t.table, sched := S.Incoming(s.sched, false, 24)) && ToldOf(s, raw) == []
  {
    hide Coupled, Scene, Ready, T.Sound, Perform, TimerAfter, ToldBy, NoCollision, BodyOf, AllActions, PartActions, C.AllOk, Flatten, C.Encoded;
    SoundParts(s);
    ReportsHeard(a, clock);
    var raw := ControlRaw(a, [F.RR(1, []), F.RR(2, []), F.RR(3, [])], clock);
    var parts := [Part.Known(F.RR(1, [])), Part.Known(F.RR(2, [])), Part.Known(F.RR(3, []))];
    var own := s.table.own;
    PartsSay(parts[0], parts[1], parts[2], own);
    ReportSays(1, own);
    ReportSays(2, own);
    ReportSays(3, own);
    var actions: seq<Action> := [(1, Report.Alive), (2, Report.Alive), (3, Report.Alive)];
    assert AllActions(parts, own) == actions;
    ThreeHeard(s.table, S.Incoming(s.sched, false, 24), clock, a);
    assert !IsGoodbye(parts);
    TakenQuietly(s, raw);
  }

  lemma {:induction false} SecondRaw(s: Session, clock: int, a: Address)
    requires Midway(s, HEARD, 1, a)
    ensures Ready(s) && T.Sound(s.table)
    ensures var raw := DataRaw(a, clock);
            var (t, failure) := TakeRaw(s, raw);
            failure == NoFailure && Midway(t, MIXING, 2, a) && t == s.(table := t.table) && ToldOf(s, raw) == []
  {
    hide Coupled, Scene, Ready, T.Sound, RtpPacketIn, NoCollision, BodyOf;
    SoundParts(s);
    MixedHeard(a, clock);
    ThreeNamed(s.table, a);
    TakenQuietly(s, DataRaw(a, clock));
  }

  lemma {:induction false} GoodbyeRaw(s: Session, ssrcs: seq<u32>, roles: Roles, after: Roles, told: seq<int>, sched: S.State, clock: int, a: Address)
    requires |ssrcs| <= 3 && Midway(s, roles, s.table.active, a)
    requires var actions := [(9, Report.Alive)] + PartActions(Part.Known(F.BYE(ssrcs, [])), s.table.own);
             var (v, status) := Perform(s.table, actions, 0, Some(a));
             && status == Done && Scene(v, after, a) && NoCollision(v, |s.table.log|) && ToldBy(s.table, actions, 0, Some(a)) == told
             && TimerAfter(s.table, s.sched, actions, 0, clock, Some(a)) == sched && v.active == s.table.active - |ssrcs|
             && !sched.byeScheduled && sched.headerOverhead == 0
    ensures Ready(s) && T.Sound(s.table)
    ensures C.AllOk([F.RR(9, []), F.BYE(ssrcs, [])])
    ensures var raw := ControlRaw(a, [F.RR(9, []), F.BYE(ssrcs, [])], clock);
            var (t, failure) := TakeRaw(s, raw);
            && failure == NoFailure && Midway(t, after, s.table.active - |ssrcs|, a) && t == s.(table := t.table, sched := sched) && ToldOf(s, raw) == told
  {
    hide Coupled, Scene, Ready, T.Sound, Perform, TimerAfter, ToldBy, NoCollision, BodyOf, AllActions, PartActions, C.AllOk, Flatten, C.Encoded;
    SoundParts(s);
    GoodbyesHeard(a, ssrcs, clock);
    var raw := ControlRaw(a, [F.RR(9, []), F.BYE(ssrcs, [])], clock);
    var parts := [Part.Known(F.RR(9, [])), Part.Known(F.BYE(ssrcs, []))];
    PartsSay(parts[0], parts[1], parts[0], s.table.own);
    ReportSays(9, s.table.own);
    assert IsBye(parts[1]);
    assert S.Incoming(s.sched, true, |raw.data|) == s.sched;
    TakenQuietly(s, raw);
  }

  lemma {:induction false} ThirdRaw(s: Session, clock: int, a: Address)
    requires Midway(s, MIXING, 2, a)
    ensures Ready(s) && T.Sound(s.table)
    ensures C.AllOk([F.RR(9, []), F.BYE([1, 2, 3], [])])
    ensures var raw := ControlRaw(a, [F.RR(9, []), F.BYE([1, 2, 3], [])], clock);
            var (t, failure) := TakeRaw(s, raw);
            var sched := S.MembersLeft(S.MembersLeft(S.MembersLeft(s.sched, 1, clock), 0, clock), -1, clock);
            failure == NoFailure && Midway(t, LEFT, -1, a) && t == s.(table := t.table, sched := sched) && ToldOf(s, raw) == [1, 0, -1]
  {
    hide Coupled, Scene, Perform, TimerAfter, ToldBy, NoCollision, PartActions, S.Portion;
    ThreeLeave(s.table, s.sched, clock, a);
    GoodbyeSays([1, 2, 3], s.table.own);
    assert [(9, Report.Alive)] + [(1, Report.Bye([])), (2, Report.Bye([])), (3, Report.Bye([]))]
        == [(9, Report.Alive), (1, Report.Bye([])), (2, Report.Bye([])), (3, Report.Bye([]))];
    var sched := S.MembersLeft(S.MembersLeft(S.MembersLeft(s.sched, 1, clock), 0, clock), -1, clock);
    GoodbyeRaw(s, [1, 2, 3], MIXING, LEFT, [1, 0, -1], sched, clock, a);
  }

  lemma {:induction false} FourthRaw(s: Session, clock: int, a: Address)
    requires Midway(s, LEFT, -1, a)
    ensures Ready(s) && T.Sound(s.table)
    ensures C.AllOk([F.RR(9, []), F.BYE([9], [])])
    ensures var raw := ControlRaw(a, [F.RR(9, []), F.BYE([9], [])], clock);
            var (t, failure) := TakeRaw(s, raw);
            && failure == NoFailure && Midway(t, EMPTY, -2, a) && t == s.(table := t.table, sched := S.MembersLeft(s.sched, -2, clock)) && ToldOf(s, raw) == [-2]
  {
    hide Coupled, Scene, Perform, TimerAfter, ToldBy, NoCollision, PartActions, S.Portion;
    MixerLeaves(s.table, s.sched, clock, a);
    GoodbyeSays([9], s.table.own);
    assert [(9, Report.Alive)] + [(9, Report.Bye([]))] == [(9, Report.Alive), (9, Report.Bye([]))];
    GoodbyeRaw(s, [9], LEFT, EMPTY, [-2], S.MembersLeft(s.sched, -2, clock), clock, a);
  }

  lemma {:induction false} FourRaws(s: Session, r1: Raw, r2: Raw, r3: Raw, r4: Raw)
    requires Coupled(s)
    ensures Ready(s) && T.Sound(s.table) && Coupled(TakeRaw(s, r1).0)
    ensures var (s1, f1) := TakeRaw(s, r1); Ready(s1) && T.Sound(s1.table) && Coupled(TakeRaw(s1, r2).0)
    ensures var s2 := TakeRaw(TakeRaw(s, r1).0, r2).0; Ready(s2) && T.Sound(s2.table) && Coupled(TakeRaw(s2, r3).0)
    ensures var s3 := TakeRaw(TakeRaw(TakeRaw(s, r1).0, r2).0, r3).0; Ready(s3) && T.Sound(s3.table)
    ensures var (s1, f1) := TakeRaw(s, r1); var (s2, f2) := TakeRaw(s1, r2); var (s3, f3) := TakeRaw(s2, r3); var (s4, f4) := TakeRaw(s3, r4);
            f1 == f2 == f3 == f4 == NoFailure ==>
              && TakeAll(s, [r1, r2, r3, r4]) == (s4, NoFailure)
              && ToldOfAll(s, [r1, r2, r3, r4]) == ToldOf(s, r1) + (ToldOf(s1, r2) + (ToldOf(s2, r3) + ToldOf(s3, r4)))
  {
    hide Coupled, TakeRaw, Ready, T.Sound, ToldOf;
    SoundParts(s);
    RawKeeps(s, r1);
    var (s1, f1) := TakeRaw(s, r1);
    SoundParts(s1);
    RawKeeps(s1, r2);
    var (s2, f2) := TakeRaw(s1, r2);
    SoundParts(s2);
    RawKeeps(s2, r3);
    var (s3, f3) := TakeRaw(s2, r3);
    SoundParts(s3);
    RawKeeps(s3, r4);
    var s4 := TakeRaw(s3, r4).0;
    SoundParts(s4);
    if f1 == f2 == f3 == TakeRaw(s3, r4).1 == NoFailure {
      OneRawMore(s3, r4, []);
      OneRawMore(s2, r3, [r4]);
      OneRawMore(s1, r2, [r3, r4]);
      OneRawMore(s, r1, [r2, r3, r4]);
      assert [r4] + [] == [r4] && [r3] + [r4] == [r3, r4] && [r2] + [r3, r4] == [r2, r3, r4] && [r1] + [r2, r3, r4] == [r1, r2, r3, r4];
      assert TakeAll(s4, []) == (s4, NoFailure) && ToldOfAll(s4, []) == [];
      assert ToldOf(s3, r4) + [] == ToldOf(s3, r4);
    }
  }

  lemma {:induction false} OneRawMore(s: Session, r: Raw, rest: seq<Raw>)
    requires Ready(s) && T.Sound(s.table) && TakeRaw(s, r).1 == NoFailure
    ensures var t := TakeRaw(s, r).0;
            && Ready(t) && T.Sound(t.table)
            && TakeAll(s, [r] + rest) == TakeAll(t, rest) && ToldOfAll(s, [r] + rest) == ToldOf(s, r) + ToldOfAll(t, rest)
  {
    hide Ready, T.Sound, TakeRaw, ToldOf;
    TakenSound(s, r);
    assert ([r] + rest)[0] == r && ([r] + rest)[1..] == rest;
  }

  /** The timer has just fired. */
  predicate JustFired(s: Session, clock: int) {
    Calm(s) && !s.sched.firstCall && s.sched.prev == clock && s.sched.pmembers == 1
  }

  lemma {:induction false} CalmScene(s: Session, a: Address)
    requires Calm(s)
    ensures Midway(s, ALONE, 1, a)
  {
    hide D.QueueOk, T.AddressesFit, Ready, Contents;
  }

  /** The waiting packets of the last call, and what the timer is told. */
  lemma {:induction false} LastTaken(s: Session, clock: int, a: Address)
    requires JustFired(s, clock)
    ensures Ready(s) && T.Sound(s.table)
    ensures var raws := MissingCall(a, clock).raws;
            var (t, failure) := TakeAll(s, raws);
            && failure == NoFailure && Midway(t, EMPTY, -2, a) && ToldOfAll(s, raws) == [1, 0, -1, -2]
            && t.sched == S.Incoming(s.sched, false, 24).(next := clock + LAPSE, prev := clock - LAPSE, pmembers := -2)
  {
    hide Coupled, Ready, T.Sound, Scene, TakeRaw, ToldOf, Flatten, C.Encoded, C.AllOk, TakeAll, ToldOfAll, S.MembersLeft;
    CalmScene(s, a);
    FirstRaw(s, clock, a);
    var raws := MissingCall(a, clock).raws;
    var s1 := TakeRaw(s, raws[0]).0;
    SecondRaw(s1, clock, a);
    var s2 := TakeRaw(s1, raws[1]).0;
    ThirdRaw(s2, clock, a);
    var s3 := TakeRaw(s2, raws[2]).0;
    FourthRaw(s3, clock + LAPSE, a);
    ToldFour(s1.sched, clock);
    FourRaws(s, raws[0], raws[1], raws[2], raws[3]);
    assert raws == [raws[0], raws[1], raws[2], raws[3]];
    assert [] + ([] + ([1, 0, -1] + [-2])) == [1, 0, -1, -2];
  }

  /** With no delays at time 0, a pass drops nothing. */
  lemma {:induction false} NothingLeaves(ss: seq<D.Source>, own: Option<u32>, poll: Poll, active: int)
    requires poll.tick == 0 && poll.delays == Delays(0, 0, 0, 0, 0)
    ensures Leavings(ss, PassOf(own, poll), active) == ([], active)
  {
    hide NoteOld;
    if ss != [] {
      NothingLeaves(ss[..|ss| - 1], own, poll, active);
      assert PassOf(own, poll)(ss[|ss| - 1]).Keep?;
    }
  }

  /** After the timeouts of a call without delays the counter is exact. */
  lemma {:induction false} Recounted(s: Session, poll: Poll)
    requires Ready(s) && T.Sound(s.table) && poll.tick == 0 && poll.delays == Delays(0, 0, 0, 0, 0)
    ensures var t := TimeOut(s, poll);
            && T.Sound(t.table) && t.sched == s.sched && t.table.active == ActiveCount(s.table.sources) && |t.table.sources| <= |s.table.sources|
            && Leavings(s.table.sources, PassOf(s.table.own, poll), s.table.active).0 == []
  {
    hide Ready, T.Sound, NoteOld, KeepsActive, ForgetCollisions;
    var own, active := s.table.own, s.table.active;
    NothingLeaves(s.table.sources, own, poll, active);
    FusedKeepsActive(own, poll);
    LeavingsExact(s.table.sources, PassOf(own, poll), active);
    T.StepSound(s.table, T.AllChecks(0, 0, 0, 0, 0));
    NoMoreKept(s.table.sources, PassOf(own, poll));
  }

  lemma {:induction false} NoMoreKept(ss: seq<D.Source>, pass: D.Source -> Fate)
    ensures |Kept(ss, pass)| <= |ss|
  {
    if ss != [] {
      NoMoreKept(ss[..|ss| - 1], pass);
    }
  }

  lemma {:induction false} SmallGroup(t: Table)
    requires T.Sound(t) && |t.sources| <= 5 && 0 <= t.active
    ensures 0 <= GroupOf(t).senders <= 10 && 0 <= GroupOf(t).members <= 10
  {
    hide T.EntryOk, T.Unique;
    CountsBounded(t.sources);
  }

  lemma {:induction false} CountsBounded(ss: seq<D.Source>)
    ensures SenderCount(ss) <= |ss| && ActiveCount(ss) <= |ss|
  {
    if ss != [] {
      CountsBounded(ss[1..]);
    }
  }

  /** The last call: what it tells, and that it fires too soon. */
  lemma {:induction false} LastFires(s: Session, clock: int, a: Address)
    requires JustFired(s, clock)
    ensures Ready(s) && T.Sound(s.table)
    ensures var poll := MissingCall(a, clock);
            && Told(s, poll) == [1, 0, -1, -2] && Fires(s, poll)
            && !AtTimer(s, poll).sched.byeScheduled && AtTimer(s, poll).sched.params == PARAMS
  {
    hide Coupled, Ready, T.Sound, Scene, TakeAll, ToldOfAll, S.TransmissionInterval, TimeOut, MissingCall;
    SoundParts(s);
    var poll := MissingCall(a, clock);
    MissingClock(a, clock);
    LastTaken(s, clock, a);
    AllSound(s, poll.raws);
    var t := TakeAll(s, poll.raws).0;
    Recounted(t, poll);
    TimeOutReady(t, poll);
    var u := TimeOut(t, poll);
    EmptyStage(t, a);
    SmallGroup(u.table);
    SpacingIs();
    LeastDecides(u.sched, GroupOf(u.table));
    LateExpires(u.sched, GroupOf(u.table), clock + LAPSE);
    assert [1, 0, -1, -2] + [] == [1, 0, -1, -2];
  }

  lemma {:induction false} MissingClock(a: Address, clock: int)
    ensures var poll := MissingCall(a, clock);
            && poll.clock == poll.later == clock + LAPSE && poll.tick == 0 && poll.delays == Delays(0, 0, 0, 0, 0)
            && poll.draw == poll.draw2 == 0.0 && NotBefore(poll, clock)
  {
  }

  lemma {:induction false} EmptyStage(s: Session, a: Address)
    requires Midway(s, EMPTY, -2, a)
    ensures ActiveCount(s.table.sources) == 1 && |s.table.sources| == 5 && H.Gap(s.table) == 3
  {
    hide T.EntryOk, Coupled, T.Unique;
    SceneActive(s.table.sources, s.table.own, EMPTY, a);
    assert OnStage([(9, Gone)]) == 0 && EMPTY[1..][1..][1..][1..] == [(9, Gone)];
  }

  // ---------------------------------------------------------------- the calls before it

  lemma {:induction false} BeginsCalm()
    ensures Calm(Beginning()) && Beginning().sched.firstCall
  {
    SpacingIs();
    NewSessionKeeps(CONFIG, D.NoProbation, 0, TIMER);
  }

  lemma {:induction false} CalmGap(s: Session)
    requires Calm(s)
    ensures ActiveCount(s.table.sources) == 1 && H.Gap(s.table) == 0
  {
    hide D.QueueOk, T.AddressesFit, Ready, Contents;
    var own := s.table.sources[0];
    T.EntryAt(s.table, 0);
    assert s.table.sources == [own] && [own][1..] == [];
    assert ActiveCount([own]) == One(own.Active()) + ActiveCount([]);
  }

  /** The timeouts of a call without delays change nothing that matters. */
  lemma {:induction false} CalmTimeOut(s: Session, poll: Poll)
    requires Calm(s) && poll.tick == 0 && poll.delays == Delays(0, 0, 0, 0, 0)
    ensures Ready(s) && T.Sound(s.table)
    ensures var t := TimeOut(s, poll); Calm(t) && t.sched == s.sched
  {
    hide Coupled, Ready, T.Sound, MultipleTimeouts, Leavings, PassOf;
    SoundParts(s);
    TimedOutAlone(s, poll);
    TimeOutKeeps(s, poll);
    Recounted(s, poll);
    CalmGap(s);
    SameProbation(s.table, poll);
  }

  lemma {:induction false} SameProbation(t: Table, poll: Poll)
    ensures var d := poll.delays; MultipleTimeouts(t, poll.tick, d.sender, d.bye, d.general, d.note).probationType == t.probationType
  {
  }

  /** The first call only starts the timer. */
  lemma {:induction false} Starts(s: Session)
    requires Calm(s) && s.sched.firstCall
    ensures var t := Step(s, PollData(PollAt([], 0, true))).0; Calm(t) && !t.sched.firstCall
  {
    hide Coupled, Ready, T.Sound, TimeOut, S.TransmissionInterval, GroupOf;
    var poll := PollAt([], 0, true);
    SoundParts(s);
    SessionInvariant(s, poll);
    CalmTimeOut(s, poll);
    TimeOutReady(s, poll);
  }

  /** The second one comes when it is due, and sends a report. */
  lemma {:induction false} Fires2(s: Session)
    requires Calm(s) && !s.sched.firstCall
    ensures Ready(s) && T.Sound(s.table) && Fires(s, DueCall(s))
    ensures JustFired(Step(s, PollData(DueCall(s))).0, DueCall(s).clock)
  {
    hide Coupled, Ready, T.Sound, TimeOut, S.TransmissionInterval, S.Interval, S.Expire, GroupOf, Transmit;
    var poll := DueCall(s);
    SoundParts(s);
    SessionInvariant(s, poll);
    AllSound(s, poll.raws);
    CalmTimeOut(s, poll);
    CalmTimeOut(s, PollAt([], 0, true));
    TimeOutReady(s, poll);
    var t := TimeOut(s, poll);
    SameTimeOut(s, poll);
    LateExpires(t.sched, GroupOf(t.table), poll.clock);
    Reported(t, poll);
  }

  lemma {:induction false} SameTimeOut(s: Session, poll: Poll)
    requires poll.tick == 0 && poll.delays == Delays(0, 0, 0, 0, 0)
    ensures TimeOut(s, poll).table == TimeOut(s, PollAt([], 0, true)).table
  {
    hide MultipleTimeouts;
  }

  lemma {:induction false} Reported(s: Session, poll: Poll)
    requires Calm(s) && !s.sched.firstCall && poll.sendOk
    ensures S.Usable(s.sched.params)
    ensures var (sched, fires) := S.Expire(s.sched, GroupOf(s.table), poll.clock, poll.later, poll.draw, poll.draw2);
            fires ==> Ready(s.(sched := sched)) && JustFired(Transmit(s.(sched := sched), poll).0, poll.clock)
  {
    hide T.Sound, B.ContentOk, S.TransmissionInterval, S.ByeInterval, P.BuildNext, B.Size, Q.RoundOk, WeSend, Contents, IsByePacket;
    SpacingIs();
    ExpireKeeps(s, poll);
    var (sched, fires) := S.Expire(s.sched, GroupOf(s.table), poll.clock, poll.later, poll.draw, poll.draw2);
    if fires {
      var u := s.(sched := sched);
      TransmitKeeps(u, poll);
      NextAlwaysFits(u, poll);
    }
  }

  // ---------------------------------------------------------------- all of it

  function Started(s: Session): (t: Session)
    requires Coupled(s)
    ensures Coupled(t)
  {
    Step(s, PollData(PollAt([], 0, true))).0
  }

  function MissingRun(s: Session, a: Address): seq<Event>
    requires Coupled(s)
  {
    [PollData(PollAt([], 0, true)), PollData(DueCall(Started(s))), PollData(MissingCall(a, DueCall(Started(s)).clock))]
  }

  lemma {:induction false} RunTwo(s: Session, e1: Event, e2: Event)
    requires Coupled(s)
    ensures Run(s, [e1]) == Step(s, e1).0 && Run(s, [e1, e2]) == Step(Step(s, e1).0, e2).0
  {
    hide Step, Coupled;
    assert [e1][..0] == [] && [e1, e2][..1] == [e1] && Run(s, []) == s;
  }

  lemma {:induction false} MissingSteps(s: Session, a: Address)
    requires Coupled(s)
    ensures var e := MissingRun(s, a);
            |e| == 3 && Run(s, e[..1]) == Started(s) && Run(s, e[..2]) == Step(Started(s), e[1]).0
  {
    hide Step, Coupled, DueCall, MissingCall, Run;
    var e := MissingRun(s, a);
    RunTwo(s, e[0], e[1]);
    assert e[..1] == [e[0]] && e[..2] == [e[0], e[1]];
  }

  /**
   What goes wrong in the last of three calls: it misses three sources, tells 1, 0, -1 and -2, and fires before the
   least interval since the call before it is over.
   */
  predicate TooSoon(s: Session, e: seq<Event>)
    requires Coupled(s)
  {
    && |e| == 3 && e[1].PollData? && e[2].PollData? && NotBefore(e[2].poll, e[1].poll.clock)
    && var before := Run(s, e[..2]);
       SoundParts(before);
       var sched := AtTimer(before, e[2].poll).sched;
       && FiresAt(s, e, 1) && FiresAt(s, e, 2) && !sched.byeScheduled
       && MissedIn(s, e[..2]) == 0 && ArrivingIn(before, e[2].poll) == 3 && Told(before, e[2].poll) == [1, 0, -1, -2]
       && e[2].poll.clock - e[1].poll.clock < R.Spacing(sched.params, R.HalvedNow(sched))
  }

  lemma {:induction false} MissedTooSoon(s: Session, a: Address)
    requires Calm(s) && s.sched.firstCall
    ensures Coupled(s) && TooSoon(s, MissingRun(s, a))
  {
    hide Coupled, Ready, T.Sound, Step, DueCall, MissingCall, Fires, AtTimer, Told, R.Spacing, ArrivingIn, H.Gap, Run, MissedIn, NotBefore;
    CalmCoupled(s);
    var e := MissingRun(s, a);
    Starts(s);
    MissingSteps(s, a);
    Fires2(Started(s));
    var before, clock := Run(s, e[..2]), DueCall(Started(s)).clock;
    MissingClock(a, clock);
    LastFires(before, clock, a);
    RunMissed(s, e[..2]);
    CalmGap(before);
    ThreeArrive(before, clock, a);
    SpacingIs();
  }

  /** There is such a run from the creation of a session, and its clock does not go back. */
  lemma {:induction false} ThreeMissedTooSoon(a: Address)
    ensures Coupled(Beginning()) && TooSoon(Beginning(), MissingRun(Beginning(), a))
  {
    hide Coupled, TooSoon, MissingRun, Beginning;
    BeginsCalm();
    CalmCoupled(Beginning());
    MissedTooSoon(Beginning(), a);
  }

  lemma {:induction false} CalmCoupled(s: Session)
    requires Calm(s)
    ensures Coupled(s)
  {
  }

  lemma {:induction false} ThreeArrive(s: Session, clock: int, a: Address)
    requires JustFired(s, clock)
    ensures ArrivingIn(s, MissingCall(a, clock)) == 3
  {
    hide Coupled, Ready, T.Sound, TakeAll, UncountedIn, H.Gap, MissingCall, Midway;
    LastTaken(s, clock, a);
    AllGap(s, MissingCall(a, clock).raws);
    CalmGap(s);
    EmptyStage(TakeAll(s, MissingCall(a, clock).raws).0, a);
  }
}
