/** The timer's distance between transmissions, over runs of a whole session. */
module SessionSpacing {
  import opened Bytes
  import B = RtcpBuild
  import opened SourceStats
  import D = SourceData
  import opened SourceTable
  import T = SourceTableRuns
  import H = SourceTableHistory
  import opened CompoundActions
  import S = Scheduler
  import R = SchedulerRuns
  import P = PacketRound
  import opened TimerCalls
  import opened SessionStep
  import opened SessionRuns
  import opened SessionCounts

  /** Counts that do not move the last packet back: none is below -1. */
  predicate Mild(counts: seq<int>) {
    forall i :: 0 <= i < |counts| ==> counts[i] >= -1
  }

  lemma {:induction false} MildConcat(a: seq<int>, b: seq<int>)
    ensures Mild(a + b) <==> Mild(a) && Mild(b)
  {
    if Mild(a + b) {
      assert forall i :: 0 <= i < |a| ==> (a + b)[i] == a[i];
      assert forall i :: 0 <= i < |b| ==> (a + b)[|a| + i] == b[i];
    }
  }

  /** If at most two contributing sources were missed, the counts are mild, because the own entry is always active. */
  lemma {:induction false} FewMissedMild(s: Session, poll: Poll)
    requires Coupled(s)
    ensures Ready(s) && T.Sound(s.table)
    ensures MissedBy(s, poll) <= 2 ==> Mild(Told(s, poll))
    ensures MissedBy(s, poll) <= 1 ==> forall i :: 0 <= i < |Told(s, poll)| ==> Told(s, poll)[i] >= 0
  {
    hide Coupled, Told, Counts, MissedBy;
    ToldExact(s, poll);
  }

  // ---------------------------------------------------------------- the time of the last packet

  lemma {:induction false} LeaveFloor(sched: S.State, members: int, clock: int, floor: int)
    requires members >= -1 && floor <= sched.prev && floor <= clock
    ensures floor <= S.MembersLeft(sched, members, clock).prev
  {
    R.FloorKept(sched, members, clock, floor);
  }

  lemma {:induction false} TimerFloor(t: Table, sched: S.State, actions: seq<Action>, now: RtpTime, clock: int, from: Option<Address>, floor: int)
    requires floor <= sched.prev && floor <= clock && Mild(ToldBy(t, actions, now, from))
    ensures floor <= TimerAfter(t, sched, actions, now, clock, from).prev
  {
    hide RtcpIn, Perform, S.MembersLeft, Mild;
    if actions != [] {
      var front, last := actions[..|actions| - 1], actions[|actions| - 1];
      var (u, status) := Perform(t, front, now, from);
      var v := RtcpIn(u, last.0, last.1, now, from).0;
      if status == Done && TakenAsBye(u, last, v) {
        MildConcat(ToldBy(t, front, now, from), [v.active]);
        TimerFloor(t, sched, front, now, clock, from, floor);
        OneMild(v.active);
        LeaveFloor(TimerAfter(t, sched, front, now, clock, from), v.active, clock, floor);
      } else {
        assert ToldBy(t, front, now, from) + [] == ToldBy(t, front, now, from);
        TimerFloor(t, sched, front, now, clock, from, floor);
      }
    }
  }

  lemma {:induction false} OneMild(c: int)
    requires Mild([c])
    ensures c >= -1
  {
    assert [c][0] == c;
  }

  lemma {:induction false} LeaveAllFloor(sched: S.State, counts: seq<int>, clock: int, floor: int)
    requires floor <= sched.prev && floor <= clock && Mild(counts)
    ensures floor <= LeaveAll(sched, counts, clock).prev
  {
    hide S.MembersLeft;
    if counts != [] {
      LeaveAllFloor(sched, counts[..|counts| - 1], clock, floor);
      LeaveFloor(LeaveAll(sched, counts[..|counts| - 1], clock), counts[|counts| - 1], clock, floor);
    }
  }

  lemma {:induction false} HandledFloor(s: Session, raw: Raw, floor: int)
    requires floor <= s.sched.prev && floor <= raw.clock && Mild(ToldOf(s, raw))
    ensures floor <= HandleRaw(s, raw).0.sched.prev
  {
    hide T.Sound, BodyOf, Perform, TimerAfter, RtpPacketIn, Mild, ToldBy;
    if !(raw.local && !s.config.acceptOwn) && BodyOf(raw).Control? {
      var from := if raw.local then None else raw.sender;
      var ps := BodyOf(raw).parts;
      var sched := if from.Some? then S.Incoming(s.sched, IsGoodbye(ps), |raw.data|) else s.sched;
      TimerFloor(s.table, sched, AllActions(ps, s.table.own), raw.receivedAt, raw.clock, from, floor);
    }
  }

  lemma {:induction false} ByeFloor(sched: S.State, g: S.Group, size: nat, clock: int, draw: real, floor: int)
    requires S.Usable(sched.params) && floor <= sched.prev && floor <= clock
    ensures floor <= S.ScheduleBye(sched, g, size, clock, draw).prev
  {
    hide S.ByeInterval;
  }

  lemma {:induction false} RawFloor(s: Session, raw: Raw, floor: int)
    requires Ready(s) && T.Sound(s.table) && floor <= s.sched.prev && floor <= raw.clock && Mild(ToldOf(s, raw))
    ensures floor <= TakeRaw(s, raw).0.sched.prev
  {
    hide T.Sound, Ready, HandleRaw, P.BuildBye, S.ScheduleBye, B.Size, DeleteOwn, CreateOwn;
    HandledFloor(s, raw, floor);
    HandledSound(s, raw);
    var (t, ok) := HandleRaw(s, raw);
    if ok && OwnCollided(t.table, |s.table.log|) && raw.sender.Some? {
      var u := t.(collisions := NoteCollision(t.collisions, raw.sender.value, raw.receivedAt).0);
      SameParts(t, u);
      QueueFloor(u, raw, floor);
    }
  }

  lemma {:induction false} QueueFloor(s: Session, raw: Raw, floor: int)
    requires Ready(s) && floor <= s.sched.prev && floor <= raw.clock
    ensures floor <= QueueBye(s, raw).0.sched.prev
  {
    hide P.BuildBye, S.ScheduleBye, B.Size, B.ContentOk, S.Usable;
    var o := P.BuildBye(s.config.maxPacketSize, ByeSituation(s, raw), []);
    if o.Some? {
      ByeFloor(s.sched, GroupOf(s.table), B.Size(o.value), raw.clock, raw.draw, floor);
    }
  }

  lemma {:induction false} RawsFloor(s: Session, raws: seq<Raw>, floor: int)
    requires Ready(s) && T.Sound(s.table) && floor <= s.sched.prev && Mild(ToldOfAll(s, raws))
    requires forall i :: 0 <= i < |raws| ==> floor <= raws[i].clock
    ensures floor <= TakeAll(s, raws).0.sched.prev
    decreases |raws|
  {
    hide T.Sound, Ready, TakeRaw, Mild, ToldOf;
    if raws != [] {
      TakenSound(s, raws[0]);
      var (t, failure) := TakeRaw(s, raws[0]);
      if failure != NoFailure {
        assert ToldOf(s, raws[0]) + [] == ToldOf(s, raws[0]);
        RawFloor(s, raws[0], floor);
      } else {
        MildConcat(ToldOf(s, raws[0]), ToldOfAll(t, raws[1..]));
        RawFloor(s, raws[0], floor);
        RawsFloor(t, raws[1..], floor);
      }
    }
  }

  // ---------------------------------------------------------------- calls and runs

  /** The clock readings of a call are not before a time. */
  predicate NotBefore(poll: Poll, time: int) {
    time <= poll.clock && forall i :: 0 <= i < |poll.raws| ==> time <= poll.raws[i].clock
  }

  /** The session when the timer is asked. */
  function AtTimer(s: Session, poll: Poll): (t: Session)
    requires Ready(s) && T.Sound(s.table)
    ensures Ready(t)
  {
    AllSound(s, poll.raws);
    TimeOutReady(TakeAll(s, poll.raws).0, poll);
    TimeOut(TakeAll(s, poll.raws).0, poll)
  }

  lemma {:induction false} AtTimerFloor(s: Session, poll: Poll, floor: int)
    requires Ready(s) && T.Sound(s.table) && floor <= s.sched.prev && NotBefore(poll, floor) && Mild(Told(s, poll))
    ensures floor <= TakeAll(s, poll.raws).0.sched.prev
    ensures TakeAll(s, poll.raws).1 == NoFailure ==> floor <= AtTimer(s, poll).sched.prev
  {
    hide T.Sound, Ready, TakeAll, Mild, Leavings, LeaveAll, MultipleTimeouts, PassOf, ToldOfAll;
    AllSound(s, poll.raws);
    var (t, failure) := TakeAll(s, poll.raws);
    var counts := Leavings(t.table.sources, PassOf(t.table.own, poll), t.table.active).0;
    var told := ToldOfAll(s, poll.raws);
    assert told + [] == told;
    MildConcat(told, counts);
    RawsFloor(s, poll.raws, floor);
    if failure == NoFailure {
      LeaveAllFloor(t.sched, counts, poll.clock, floor);
    }
  }

  lemma {:induction false} ExpirePrev(s: S.State, g: S.Group, now: int, later: int, draw: real, draw2: real)
    requires S.Usable(s.params)
    ensures var (t, r) := S.Expire(s, g, now, later, draw, draw2);
            (r ==> t.prev == now) && (t.prev == s.prev || t.prev == now)
  {
    hide S.TransmissionInterval, S.ByeInterval;
  }

  lemma {:induction false} TransmitPrev(s: Session, poll: Poll)
    requires Ready(s)
    ensures var t := Transmit(s, poll).0; t.sched.prev == s.sched.prev || t.sched.prev == poll.clock
  {
    hide S.ByeInterval, P.BuildNext, B.Size, S.Usable, B.ContentOk;
  }

  /** A call moves the time of the last packet to no earlier than a time before it; to its own, if the timer fires. */
  lemma {:induction false} PollFloor(s: Session, poll: Poll, floor: int)
    requires Coupled(s) && floor <= s.sched.prev && NotBefore(poll, floor)
    ensures Ready(s) && T.Sound(s.table)
    ensures Mild(Told(s, poll)) ==> floor <= ProcessPolledData(s, poll).0.sched.prev
    ensures Fires(s, poll) ==> ProcessPolledData(s, poll).0.sched.prev == poll.clock
  {
    hide T.Sound, Ready, TakeAll, Mild, TimeOut, S.Expire, Transmit, Told, Coupled;
    SoundParts(s);
    AllSound(s, poll.raws);
    AllKeep(s, poll.raws);
    var (t, failure) := TakeAll(s, poll.raws);
    TimeOutReady(t, poll);
    if Mild(Told(s, poll)) {
      AtTimerFloor(s, poll, floor);
    }
    if failure == NoFailure {
      TimeOutKeeps(t, poll);
      var u := AtTimer(s, poll);
      UsableTimer(u);
      ExpirePrev(u.sched, GroupOf(u.table), poll.clock, poll.later, poll.draw, poll.draw2);
      ExpireKeeps(u, poll);
      var v := u.(sched := S.Expire(u.sched, GroupOf(u.table), poll.clock, poll.later, poll.draw, poll.draw2).0);
      SoundParts(v);
      TransmitPrev(v, poll);
    }
  }

  lemma {:induction false} UsableTimer(s: Session)
    requires Ready(s)
    ensures S.Usable(s.sched.params)
  {
  }

  /** When the timer fires in a call, at least the least interval has passed since the last packet. */
  lemma {:induction false} FiringWaited(s: Session, poll: Poll, floor: int)
    requires Coupled(s) && floor <= s.sched.prev && NotBefore(poll, floor) && 0.0 <= poll.draw <= 1.0
    ensures Ready(s) && T.Sound(s.table)
    ensures var sched := AtTimer(s, poll).sched;
            Mild(Told(s, poll)) && Fires(s, poll) && !(sched.byeScheduled && sched.sendByeNow) ==>
              poll.clock >= floor + R.Spacing(sched.params, R.HalvedNow(sched))
  {
    hide T.Sound, Ready, TakeAll, Mild, TimeOut, Told, R.Spacing, R.HalvedNow, S.Interval, Coupled;
    SoundParts(s);
    if Mild(Told(s, poll)) && Fires(s, poll) {
      AtTimerFloor(s, poll, floor);
      var u := AtTimer(s, poll);
      UsableTimer(u);
      ExpireWaited(u.sched, GroupOf(u.table), poll.clock, poll.later, poll.draw, poll.draw2);
      if !(u.sched.byeScheduled && u.sched.sendByeNow) {
        R.IntervalAtLeast(u.sched, GroupOf(u.table), poll.draw);
      }
    }
  }

  lemma {:induction false} ExpireWaited(s: S.State, g: S.Group, now: int, later: int, draw: real, draw2: real)
    requires S.Usable(s.params)
    ensures S.Expire(s, g, now, later, draw, draw2).1 ==> now >= s.prev + S.Interval(s, g, draw)
  {
    hide S.TransmissionInterval, S.Interval;
  }

  /** The clock does not go back, and random numbers are between 0 and 1. */
  predicate Clocked(events: seq<Event>) {
    && (forall i, j :: 0 <= i < j < |events| && events[i].PollData? && events[j].PollData? ==> NotBefore(events[j].poll, events[i].poll.clock))
    && (forall i :: 0 <= i < |events| && events[i].PollData? ==> 0.0 <= events[i].poll.draw <= 1.0)
  }

  /**
   A run in which the clock does not go back, and at no call have more than two contributing sources become
   active uncounted since the last timeouts.
   */
  predicate Orderly(s: Session, events: seq<Event>)
    requires Coupled(s)
  {
    && Clocked(events)
    && (forall i :: 0 <= i < |events| && events[i].PollData? ==> MissedIn(s, events[..i]) + ArrivingIn(Run(s, events[..i]), events[i].poll) <= 2)
  }

  /** The contributing sources that arrive uncounted in the call. */
  function ArrivingIn(s: Session, poll: Poll): nat
    requires Coupled(s)
  {
    SoundParts(s);
    UncountedIn(s, poll.raws)
  }

  predicate CountsFine(s: Session, poll: Poll)
    requires Coupled(s)
  {
    SoundParts(s);
    MissedBy(s, poll) <= 2
  }

  predicate FiresAt(s: Session, events: seq<Event>, i: nat)
    requires Coupled(s) && i < |events|
  {
    SoundParts(Run(s, events[..i]));
    events[i].PollData? && Fires(Run(s, events[..i]), events[i].poll)
  }

  lemma {:induction false} RunFloor(s: Session, events: seq<Event>, i: nat, j: nat, floor: int)
    requires Coupled(s) && Orderly(s, events) && i <= j <= |events| && floor <= Run(s, events[..i]).sched.prev
    requires forall k :: i <= k < |events| && events[k].PollData? ==> NotBefore(events[k].poll, floor)
    ensures floor <= Run(s, events[..j]).sched.prev
    decreases j
  {
    hide Coupled, Mild, NotBefore, Step, Run, CountsFine, Orderly;
    if i < j {
      RunFloor(s, events, i, j - 1, floor);
      OrderlyAt(s, events, j - 1);
      StepFloor(Run(s, events[..j - 1]), events[j - 1], floor);
    }
  }

  /** The next event of an orderly run. */
  lemma {:induction false} OrderlyAt(s: Session, events: seq<Event>, j: nat)
    requires Coupled(s) && Orderly(s, events) && j < |events|
    ensures Run(s, events[..j + 1]) == Step(Run(s, events[..j]), events[j]).0
    ensures events[j].PollData? ==> CountsFine(Run(s, events[..j]), events[j].poll)
  {
    hide Coupled, Mild, NotBefore, Step, H.Gap, UncountedIn;
    assert events[..j + 1][..j] == events[..j];
    RunMissed(s, events[..j]);
  }

  lemma {:induction false} StepFloor(s: Session, e: Event, floor: int)
    requires Coupled(s) && floor <= s.sched.prev
    requires e.PollData? ==> NotBefore(e.poll, floor) && CountsFine(s, e.poll)
    ensures floor <= Step(s, e).0.sched.prev
  {
    hide Coupled, Mild, NotBefore, ProcessPolledData, Sent, Told;
    match e
    case PollData(poll) =>
      FewMissedMild(s, poll);
      PollFloor(s, poll, floor);
    case SendData(now, ok) => SentKeeps(s, now, ok, true);
    case SendApp(ok) => SentKeeps(s, 0, ok, false);
  }

  /**
   Over every orderly run of a session, whatever packets arrive, collide, time out, say goodbye or fail to be
   sent: any two calls in which the timer fires keep its least interval, unless the second is for a goodbye
   that may go at once.
   */
  lemma {:induction false} SessionSpaced(s: Session, events: seq<Event>, i: nat, j: nat)
    requires Coupled(s) && Orderly(s, events) && i < j < |events| && FiresAt(s, events, i) && FiresAt(s, events, j)
    ensures var before := Run(s, events[..j]);
            && Ready(before) && T.Sound(before.table)
            && var sched := AtTimer(before, events[j].poll).sched;
               !(sched.byeScheduled && sched.sendByeNow) ==>
                 events[j].poll.clock - events[i].poll.clock >= R.Spacing(sched.params, R.HalvedNow(sched))
  {
    hide Coupled, Mild, ProcessPolledData, Sent, R.Spacing, R.HalvedNow, Fires, AtTimer, Told, NotBefore, Orderly, Run, Step, MissedBy;
    var before, floor := Run(s, events[..j]), events[i].poll.clock;
    FiredAt(s, events, i);
    OrderlyClock(s, events, i);
    RunFloor(s, events, i + 1, j, floor);
    OrderlyAt(s, events, j);
    SoundParts(before);
    FewMissedMild(before, events[j].poll);
    FiringWaited(before, events[j].poll, floor);
  }

  lemma {:induction false} FiredAt(s: Session, events: seq<Event>, i: nat)
    requires Coupled(s) && Orderly(s, events) && i < |events| && FiresAt(s, events, i)
    ensures Run(s, events[..i + 1]).sched.prev == events[i].poll.clock
  {
    hide Coupled, ProcessPolledData, Fires, Orderly, Run;
    OrderlyAt(s, events, i);
    FiredPrev(Run(s, events[..i]), events[i].poll);
  }

  lemma {:induction false} OrderlyClock(s: Session, events: seq<Event>, i: nat)
    requires Coupled(s) && Orderly(s, events) && i < |events| && events[i].PollData?
    ensures forall k :: i < k < |events| && events[k].PollData? ==>
              NotBefore(events[k].poll, events[i].poll.clock) && 0.0 <= events[k].poll.draw <= 1.0
  {
    hide Coupled, Run, NotBefore, MissedIn, ArrivingIn;
  }

  lemma {:induction false} SelfNotBefore(poll: Poll, prev: int)
    ensures exists floor :: floor <= prev && NotBefore(poll, floor)
  {
    var floor := Lowest(poll.raws, if prev < poll.clock then prev else poll.clock);
    LowestFacts(poll.raws, if prev < poll.clock then prev else poll.clock);
    assert NotBefore(poll, floor);
  }

  function Lowest(raws: seq<Raw>, least: int): int {
    if raws == [] then least
    else var rest := Lowest(raws[1..], least); if raws[0].clock < rest then raws[0].clock else rest
  }

  lemma {:induction false} LowestFacts(raws: seq<Raw>, least: int)
    ensures Lowest(raws, least) <= least && forall i :: 0 <= i < |raws| ==> Lowest(raws, least) <= raws[i].clock
  {
    if raws != [] {
      LowestFacts(raws[1..], least);
    }
  }

  lemma {:induction false} FiredPrev(s: Session, poll: Poll)
    requires Coupled(s)
    ensures Ready(s) && T.Sound(s.table)
    ensures Fires(s, poll) ==> ProcessPolledData(s, poll).0.sched.prev == poll.clock
  {
    hide Coupled, Mild, ProcessPolledData, Fires, NotBefore;
    SelfNotBefore(poll, s.sched.prev);
    var floor :| floor <= s.sched.prev && NotBefore(poll, floor);
    PollFloor(s, poll, floor);
  }

  // ---------------------------------------------------------------- by what arrives alone

  /** The contributing sources that a packet lists. */
  function Listed(raw: Raw): nat {
    match BodyOf(raw) case Data(p) => |p.csrcs| case _ => 0
  }

  function ListedIn(raws: seq<Raw>): nat {
    if raws == [] then 0 else Listed(raws[0]) + ListedIn(raws[1..])
  }

  function ListedOver(events: seq<Event>): nat {
    if events == [] then 0
    else ListedOver(events[..|events| - 1]) + if events[|events| - 1].PollData? then ListedIn(events[|events| - 1].poll.raws) else 0
  }

  lemma {:induction false} UncountedAmongListed(t: Table, csrcs: seq<u32>, from: Option<Address>)
    ensures H.UncountedAmong(t, csrcs, from) <= |csrcs|
  {
    hide H.Uncounted, MarkCsrcs;
    if csrcs != [] {
      UncountedAmongListed(t, csrcs[..|csrcs| - 1], from);
    }
  }

  lemma {:induction false} UncountedListed(s: Session, raw: Raw)
    ensures Uncounted(s, raw) <= Listed(raw)
  {
    hide BodyOf, PacketOnly, H.UncountedAmong;
    match BodyOf(raw)
    case Data(p) =>
      UncountedAmongListed(PacketOnly(s.table, p, raw.receivedAt, raw.tsUnit, FromOf(raw)).0, p.csrcs, FromOf(raw));
    case _ =>
  }

  lemma {:induction false} ArrivingListed(s: Session, raws: seq<Raw>)
    requires Ready(s) && T.Sound(s.table)
    ensures UncountedIn(s, raws) <= ListedIn(raws)
    decreases |raws|
  {
    hide Ready, T.Sound, TakeRaw, Uncounted, Listed;
    if raws != [] {
      UncountedListed(s, raws[0]);
      TakenSound(s, raws[0]);
      var (t, failure) := TakeRaw(s, raws[0]);
      if failure == NoFailure {
        ArrivingListed(t, raws[1..]);
      }
    }
  }

  lemma {:induction false} MissedListed(s: Session, events: seq<Event>)
    requires Coupled(s)
    ensures 0 <= MissedIn(s, events) <= H.Gap(s.table) + ListedOver(events)
  {
    hide Coupled, H.Gap, Run, UncountedIn, ListedIn, TakeAll;
    SoundParts(s);
    H.GapAtLeastZero(s.table);
    if events != [] {
      var front, last := events[..|events| - 1], events[|events| - 1];
      MissedListed(s, front);
      if last.PollData? {
        SoundParts(Run(s, front));
        ArrivingListed(Run(s, front), last.poll.raws);
      }
    }
  }

  lemma {:induction false} ListedGrows(events: seq<Event>, i: nat)
    requires i < |events| && events[i].PollData?
    ensures ListedOver(events[..i]) + ListedIn(events[i].poll.raws) <= ListedOver(events)
    decreases |events|
  {
    hide ListedIn;
    if i < |events| - 1 {
      var front := events[..|events| - 1];
      assert front[..i] == events[..i];
      ListedGrows(front, i);
    }
  }

  /**
   A run from creation is orderly if its clock does not go back and the data packets that arrive in it list at most
   two contributing sources: in a session without mixers, that is any run.
   */
  lemma {:induction false} FewListedOrderly(config: Config, probationType: D.ProbationType, ssrc: u32, sched: S.State, events: seq<Event>)
    requires Creatable(config, sched) && Clocked(events) && ListedOver(events) <= 2
    ensures Coupled(NewSession(config, probationType, ssrc, sched)) && Orderly(NewSession(config, probationType, ssrc, sched), events)
  {
    hide Coupled, Run, MissedIn, ListedIn, Clocked, UncountedIn;
    NewSessionKeeps(config, probationType, ssrc, sched);
    var s := NewSession(config, probationType, ssrc, sched);
    NewIsExact(config, probationType, ssrc, sched);
    forall i | 0 <= i < |events| && events[i].PollData?
      ensures MissedIn(s, events[..i]) + ArrivingIn(Run(s, events[..i]), events[i].poll) <= 2
    {
      var before := Run(s, events[..i]);
      SoundParts(before);
      MissedListed(s, events[..i]);
      ArrivingListed(before, events[i].poll.raws);
      ListedGrows(events, i);
    }
  }

  lemma {:induction false} NewIsExact(config: Config, probationType: D.ProbationType, ssrc: u32, sched: S.State)
    ensures H.Gap(NewSession(config, probationType, ssrc, sched).table) == 0
  {
    hide T.Sound, H.Gap, CreateOwn;
    H.EmptyIsSound(probationType);
    EmptyIsExact(probationType);
    H.StepGap(EmptyTable(probationType), T.Create(ssrc));
  }

  lemma {:induction false} EmptyIsExact(probationType: D.ProbationType)
    ensures H.Gap(EmptyTable(probationType)) == 0
  {
  }
}
