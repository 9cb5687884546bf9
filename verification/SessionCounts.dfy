/**
 The counts of active members that a session tells its timer: what they are, by the entries that are active and
 by what arrived.
 */
module SessionCounts {
  import opened Bytes
  import opened SourceStats
  import D = SourceData
  import opened SourceTable
  import T = SourceTableRuns
  import H = SourceTableHistory
  import opened CompoundActions
  import opened TimerCalls
  import S = Scheduler
  import B = RtcpBuild
  import P = PacketRound
  import opened SessionStep
  import opened SessionRuns

  // ---------------------------------------------------------------- what the timer is told

  /** The table takes the action as a goodbye. */
  predicate TakenAsBye(u: Table, a: Action, v: Table) {
    a.1.Bye? && |v.log| > |u.log| && v.log[|v.log| - 1].ByeHeard?
  }

  /** The counts that the timer is told while the actions are taken up. */
  function ToldBy(t: Table, actions: seq<Action>, now: RtpTime, from: Option<Address>): seq<int> {
    if actions == [] then []
    else
      var front, last := actions[..|actions| - 1], actions[|actions| - 1];
      var (u, status) := Perform(t, front, now, from);
      var v := RtcpIn(u, last.0, last.1, now, from).0;
      ToldBy(t, front, now, from) + if status == Done && TakenAsBye(u, last, v) then [v.active] else []
  }

  /** The address that a packet counts as coming from. */
  function FromOf(raw: Raw): Option<Address> {
    if raw.local then None else raw.sender
  }

  predicate Ignored(s: Session, raw: Raw) {
    raw.local && !s.config.acceptOwn
  }

  function ToldOf(s: Session, raw: Raw): seq<int> {
    if Ignored(s, raw) then []
    else
      match BodyOf(raw)
      case Control(ps) => ToldBy(s.table, AllActions(ps, s.table.own), raw.receivedAt, FromOf(raw))
      case _ => []
  }

  function ToldOfAll(s: Session, raws: seq<Raw>): seq<int>
    requires Ready(s) && T.Sound(s.table)
    decreases |raws|
  {
    if raws == [] then []
    else
      TakenSound(s, raws[0]);
      var (t, failure) := TakeRaw(s, raws[0]);
      ToldOf(s, raws[0]) + if failure != NoFailure then [] else ToldOfAll(t, raws[1..])
  }

  /** All counts that the timer is told in a call: for goodbyes, and then for timeouts. */
  function Told(s: Session, poll: Poll): seq<int>
    requires Ready(s) && T.Sound(s.table)
  {
    var (t, failure) := TakeAll(s, poll.raws);
    ToldOfAll(s, poll.raws)
    + if failure != NoFailure then [] else Leavings(t.table.sources, PassOf(t.table.own, poll), t.table.active).0
  }

  // ---------------------------------------------------------------- what the counts should be, and what was missed

  /** How many entries are active when a count is told, and how many of them the counter has missed. */
  datatype Count = Count(active: nat, missed: int)

  function CountsBy(t: Table, actions: seq<Action>, now: RtpTime, from: Option<Address>, missed: int): seq<Count> {
    if actions == [] then []
    else
      var front, last := actions[..|actions| - 1], actions[|actions| - 1];
      var (u, status) := Perform(t, front, now, from);
      var v := RtcpIn(u, last.0, last.1, now, from).0;
      CountsBy(t, front, now, from, missed)
      + if status == Done && TakenAsBye(u, last, v) then [Count(ActiveCount(v.sources), missed)] else []
  }

  function CountsOf(s: Session, raw: Raw, missed: int): seq<Count> {
    if Ignored(s, raw) then []
    else
      match BodyOf(raw)
      case Control(ps) => CountsBy(s.table, AllActions(ps, s.table.own), raw.receivedAt, FromOf(raw), missed)
      case _ => []
  }

  /** The contributing sources that a packet makes active without their being counted. */
  function Uncounted(s: Session, raw: Raw): nat {
    if Ignored(s, raw) then 0
    else
      match BodyOf(raw)
      case Data(p) => H.UncountedBy(s.table, T.Rtp(p, raw.receivedAt, raw.tsUnit, FromOf(raw)))
      case _ => 0
  }

  function UncountedIn(s: Session, raws: seq<Raw>): nat
    requires Ready(s) && T.Sound(s.table)
    decreases |raws|
  {
    if raws == [] then 0
    else
      TakenSound(s, raws[0]);
      var (t, failure) := TakeRaw(s, raws[0]);
      Uncounted(s, raws[0]) + if failure != NoFailure then 0 else UncountedIn(t, raws[1..])
  }

  function CountsOfAll(s: Session, raws: seq<Raw>, missed: int): seq<Count>
    requires Ready(s) && T.Sound(s.table)
    decreases |raws|
  {
    if raws == [] then []
    else
      TakenSound(s, raws[0]);
      var (t, failure) := TakeRaw(s, raws[0]);
      CountsOf(s, raws[0], missed) + if failure != NoFailure then [] else CountsOfAll(t, raws[1..], missed + Uncounted(s, raws[0]))
  }

  /** The table while a pass is under way: n entries were dealt with. */
  function MidPass(ss: seq<D.Source>, pass: D.Source -> Fate, n: nat): seq<D.Source>
    requires n <= |ss|
  {
    Kept(ss[..n], pass) + ss[n..]
  }

  function CountsLeft(ss: seq<D.Source>, pass: D.Source -> Fate, n: nat, missed: int): seq<Count>
    requires n <= |ss|
  {
    if n == 0 then []
    else
      CountsLeft(ss, pass, n - 1, missed)
      + match pass(ss[n - 1])
        case Drop(said) => if said != [] && said[0].TimedOut? then [Count(ActiveCount(MidPass(ss, pass, n)), missed)] else []
        case Keep(_, _) => []
  }

  /** The counts of a call, if the counter has missed so many entries before it. */
  function Counts(s: Session, poll: Poll, missed: int): seq<Count>
    requires Ready(s) && T.Sound(s.table)
  {
    var (t, failure) := TakeAll(s, poll.raws);
    CountsOfAll(s, poll.raws, missed)
    + if failure != NoFailure then []
      else CountsLeft(t.table.sources, PassOf(t.table.own, poll), |t.table.sources|, missed + UncountedIn(s, poll.raws))
  }

  /** What is told is what is active, less what was missed, which is at most so many. */
  predicate Match(told: seq<int>, counts: seq<Count>, most: int) {
    |told| == |counts|
    && forall i :: 0 <= i < |told| ==> told[i] == counts[i].active - counts[i].missed && counts[i].active >= 1 && counts[i].missed <= most
  }

  lemma {:induction false} MatchConcat(a: seq<int>, b: seq<int>, x: seq<Count>, y: seq<Count>, most: int)
    requires Match(a, x, most) && Match(b, y, most)
    ensures Match(a + b, x + y, most)
  {
  }

  lemma {:induction false} MatchMore(a: seq<int>, x: seq<Count>, most: int, more: int)
    requires Match(a, x, most) && most <= more
    ensures Match(a, x, more)
  {
  }

  // ---------------------------------------------------------------- goodbyes

  /** The own entry is always active. */
  lemma {:induction false} OwnActive(t: Table)
    requires T.Sound(t) && t.own.Some?
    ensures ActiveCount(t.sources) >= 1
  {
    hide D.QueueOk;
    var k := Find(t.sources, t.own.value);
    T.CountsRemove(t.sources, k);
  }

  lemma {:induction false} ToldByExact(t: Table, actions: seq<Action>, now: RtpTime, from: Option<Address>)
    requires T.Sound(t) && t.own.Some?
    ensures var u := Perform(t, actions, now, from).0; T.Sound(u) && u.own == t.own && H.Gap(u) == H.Gap(t)
    ensures Match(ToldBy(t, actions, now, from), CountsBy(t, actions, now, from, H.Gap(t)), H.Gap(t))
  {
    hide T.Sound, RtcpIn, TakenAsBye, Match;
    NoneMatch(H.Gap(t));
    if actions != [] {
      var front, last := actions[..|actions| - 1], actions[|actions| - 1];
      ToldByExact(t, front, now, from);
      var (u, status) := Perform(t, front, now, from);
      T.RtcpSound(u, last.0, last.1, now, from);
      T.RtcpKeepsOwn(u, last.0, last.1, now, from);
      H.GapOfRtcp(u, last.0, last.1, now, from);
      var v := RtcpIn(u, last.0, last.1, now, from).0;
      OwnActive(v);
      OneMatch(v.active, Count(ActiveCount(v.sources), H.Gap(t)));
      var told, counts := ToldBy(t, front, now, from), CountsBy(t, front, now, from, H.Gap(t));
      MatchConcat(told, [v.active], counts, [Count(ActiveCount(v.sources), H.Gap(t))], H.Gap(t));
      assert told + [] == told && counts + [] == counts;
    }
  }

  lemma {:induction false} NoneMatch(most: int)
    ensures Match([], [], most)
  {
  }

  lemma {:induction false} OneMatch(told: int, c: Count)
    requires told == c.active - c.missed && c.active >= 1
    ensures Match([told], [c], c.missed)
  {
  }

  // ---------------------------------------------------------------- waiting packets

  /** One packet: only contributing sources open the gap. */
  lemma {:induction false} HandledGap(s: Session, raw: Raw)
    requires Ready(s) && T.Sound(s.table) && s.table.own.Some?
    ensures H.Gap(HandleRaw(s, raw).0.table) == H.Gap(s.table) + Uncounted(s, raw)
    ensures Match(ToldOf(s, raw), CountsOf(s, raw, H.Gap(s.table)), H.Gap(s.table))
  {
    hide T.Sound, RtpPacketIn, Perform, BodyOf, H.UncountedBy, H.Gap, Match, ToldBy, CountsBy, TimerHears;
    NoneMatch(H.Gap(s.table));
    if !Ignored(s, raw) {
      match BodyOf(raw)
      case Garbage =>
      case Data(p) => H.StepGap(s.table, T.Rtp(p, raw.receivedAt, raw.tsUnit, FromOf(raw)));
      case Control(ps) => ToldByExact(s.table, AllActions(ps, s.table.own), raw.receivedAt, FromOf(raw));
    }
  }

  lemma {:induction false} ChangeGap(s: Session, raw: Raw)
    requires Coupled(s)
    ensures s.table.own.Some? ==> Has(s.table, s.table.own.value)
    ensures H.Gap(ChangeSsrc(s, raw).0.table) == H.Gap(s.table)
  {
    hide T.Sound, Ready, H.Gap, DeleteOwn, CreateOwn, Contents;
    T.OwnHas(s.table);
    T.DeleteSound(s.table);
    H.StepGap(s.table, T.Delete);
    var free := FreshSsrc(s.table, raw.draws);
    if free.Some? {
      H.StepGap(DeleteOwn(s.table).0, T.Create(free.value));
    }
  }

  lemma {:induction false} TakenGap(s: Session, raw: Raw)
    requires Coupled(s)
    ensures Ready(s) && T.Sound(s.table) && Coupled(TakeRaw(s, raw).0)
    ensures H.Gap(TakeRaw(s, raw).0.table) == H.Gap(s.table) + Uncounted(s, raw)
    ensures Match(ToldOf(s, raw), CountsOf(s, raw, H.Gap(s.table)), H.Gap(s.table))
  {
    hide T.Sound, Ready, HandleRaw, QueueBye, ChangeSsrc, Coupled, OwnCollided, H.Gap, Match, ToldOf, CountsOf, Uncounted;
    SoundParts(s);
    OwnThere(s);
    HandledGap(s, raw);
    HandledCoupled(s, raw);
    HandledSound(s, raw);
    RawKeeps(s, raw);
    var (t, ok) := HandleRaw(s, raw);
    if ok && OwnCollided(t.table, |s.table.log|) && raw.sender.Some? {
      var u := t.(collisions := NoteCollision(t.collisions, raw.sender.value, raw.receivedAt).0);
      ListCoupled(t, u);
      QueueCoupled(u, raw);
      SoundParts(u);
      ChangeGap(if u.sentPackets then QueueBye(u, raw).0 else u, raw);
    }
  }

  lemma {:induction false} OwnThere(s: Session)
    requires Coupled(s)
    ensures s.table.own.Some?
  {
  }

  lemma {:induction false} AllGap(s: Session, raws: seq<Raw>)
    requires Coupled(s)
    ensures Ready(s) && T.Sound(s.table) && Coupled(TakeAll(s, raws).0)
    ensures H.Gap(TakeAll(s, raws).0.table) == H.Gap(s.table) + UncountedIn(s, raws)
    ensures Match(ToldOfAll(s, raws), CountsOfAll(s, raws, H.Gap(s.table)), H.Gap(s.table) + UncountedIn(s, raws))
    decreases |raws|
  {
    hide T.Sound, Ready, TakeRaw, Coupled, H.Gap, Match, ToldOf, CountsOf, Uncounted;
    SoundParts(s);
    NoneMatch(H.Gap(s.table));
    if raws != [] {
      var missed, most := H.Gap(s.table), H.Gap(s.table) + UncountedIn(s, raws);
      TakenGap(s, raws[0]);
      TakenSound(s, raws[0]);
      var (t, failure) := TakeRaw(s, raws[0]);
      var told, counts := ToldOf(s, raws[0]), CountsOf(s, raws[0], missed);
      MatchMore(told, counts, missed, most);
      if failure == NoFailure {
        AllGap(t, raws[1..]);
        MatchConcat(told, ToldOfAll(t, raws[1..]), counts, CountsOfAll(t, raws[1..], missed + Uncounted(s, raws[0])), most);
      } else {
        assert told + [] == told && counts + [] == counts;
      }
    }
  }

  // ---------------------------------------------------------------- timeouts

  lemma {:induction false} ActiveConcat(a: seq<D.Source>, b: seq<D.Source>)
    ensures ActiveCount(a + b) == ActiveCount(a) + ActiveCount(b)
  {
    if a == [] {
      assert a + b == b;
    } else {
      assert (a + b)[1..] == a[1..] + b;
      ActiveConcat(a[1..], b);
    }
  }

  /** The own entry stays, so that something active is left throughout. */
  lemma {:induction false} MidPassActive(ss: seq<D.Source>, pass: D.Source -> Fate, n: nat, k: nat)
    requires KeepsActive(pass) && n <= |ss| && k < |ss| && ss[k].Active() && pass(ss[k]).Keep?
    ensures ActiveCount(MidPass(ss, pass, n)) >= 1
  {
    ActiveConcat(Kept(ss[..n], pass), ss[n..]);
    if k < n {
      KeptHas(ss[..n], pass, k);
    } else {
      T.CountsRemove(ss[n..], k - n);
    }
  }

  lemma {:induction false} KeptHas(ss: seq<D.Source>, pass: D.Source -> Fate, k: nat)
    requires KeepsActive(pass) && k < |ss| && ss[k].Active() && pass(ss[k]).Keep?
    ensures ActiveCount(Kept(ss, pass)) >= 1
  {
    var n := |ss| - 1;
    ActiveConcat(Kept(ss[..n], pass), if pass(ss[n]).Keep? then [pass(ss[n]).source] else []);
    if k < n {
      KeptHas(ss[..n], pass, k);
    }
  }

  lemma {:induction false} MidPassStarts(ss: seq<D.Source>, pass: D.Source -> Fate)
    ensures MidPass(ss, pass, 0) == ss
  {
  }

  lemma {:induction false} MidPassStep(ss: seq<D.Source>, pass: D.Source -> Fate, n: nat)
    requires KeepsActive(pass) && n < |ss|
    ensures ActiveCount(MidPass(ss, pass, n + 1)) == ActiveCount(MidPass(ss, pass, n)) - if pass(ss[n]).Keep? then 0 else One(ss[n].Active())
  {
    var kept, s, rest := Kept(ss[..n], pass), ss[n], ss[n + 1..];
    assert ss[..n + 1][..n] == ss[..n] && ss[n..] == [s] + rest;
    ActiveConcat(kept, ss[n..]);
    ActiveConcat([s], rest);
    ActiveConcat(Kept(ss[..n + 1], pass), rest);
    ActiveConcat(kept, if pass(s).Keep? then [pass(s).source] else []);
  }

  /** Every count told in a pass is what is active then, less what was missed before it. */
  lemma {:induction false} LeavingsMatch(ss: seq<D.Source>, pass: D.Source -> Fate, n: nat, k: nat, active: int)
    requires KeepsActive(pass) && n <= |ss| && k < |ss| && ss[k].Active() && pass(ss[k]).Keep?
    ensures var missed := ActiveCount(ss) - active;
            var (told, a) := Leavings(ss[..n], pass, active);
            Match(told, CountsLeft(ss, pass, n, missed), missed) && a == ActiveCount(MidPass(ss, pass, n)) - missed
  {
    hide KeepsActive, Match, ActiveCount, MidPass, Kept;
    var missed := ActiveCount(ss) - active;
    NoneMatch(missed);
    if n == 0 {
      MidPassStarts(ss, pass);
    } else {
      LeavingsMatch(ss, pass, n - 1, k, active);
      MidPassStep(ss, pass, n - 1);
      MidPassActive(ss, pass, n, k);
      assert ss[..n][..n - 1] == ss[..n - 1];
      var (told, a) := Leavings(ss[..n - 1], pass, active);
      var counts, left := CountsLeft(ss, pass, n - 1, missed), ActiveCount(MidPass(ss, pass, n));
      OneMatch(left - missed, Count(left, missed));
      MatchConcat(told, [left - missed], counts, [Count(left, missed)], missed);
      assert told + [] == told && counts + [] == counts;
    }
  }

  lemma {:induction false} FusedKeepsActive(own: Option<u32>, poll: Poll)
    ensures KeepsActive(PassOf(own, poll))
  {
    hide NoteOld;
  }

  lemma {:induction false} OwnStaysOn(t: Table, poll: Poll) returns (k: nat)
    requires T.Sound(t) && t.own.Some?
    ensures k < |t.sources| && t.sources[k].Active() && PassOf(t.own, poll)(t.sources[k]).Keep?
  {
    hide T.Sound, NoteOld, D.QueueOk;
    T.OwnHas(t);
    k := Find(t.sources, t.own.value);
    T.EntryAt(t, k);
  }

  lemma {:induction false} SweptMatch(t: Table, poll: Poll)
    requires T.Sound(t) && t.own.Some?
    ensures Match(Leavings(t.sources, PassOf(t.own, poll), t.active).0,
                  CountsLeft(t.sources, PassOf(t.own, poll), |t.sources|, H.Gap(t)), H.Gap(t))
  {
    hide T.Sound, KeepsActive, Match, PassOf;
    FusedKeepsActive(t.own, poll);
    var k := OwnStaysOn(t, poll);
    LeavingsMatch(t.sources, PassOf(t.own, poll), |t.sources|, k, t.active);
    assert t.sources[..|t.sources|] == t.sources;
  }

  // ---------------------------------------------------------------- calls

  /** What the counter has missed when the timer is asked. */
  function MissedBy(s: Session, poll: Poll): int
    requires Ready(s) && T.Sound(s.table)
  {
    H.Gap(s.table) + UncountedIn(s, poll.raws)
  }

  /**
   Every count that the timer is told in a call is the number of entries active at that moment, the own one
   always among them, less what the counter has missed; and that is what it had missed before the call, and the
   contributing sources that arrived in it without being counted.
   */
  lemma {:induction false} ToldExact(s: Session, poll: Poll)
    requires Coupled(s)
    ensures Ready(s) && T.Sound(s.table)
    ensures Match(Told(s, poll), Counts(s, poll, H.Gap(s.table)), MissedBy(s, poll))
  {
    hide T.Sound, Ready, TakeAll, Coupled, H.Gap, Match, ToldOfAll, CountsOfAll, UncountedIn, Leavings, CountsLeft;
    SoundParts(s);
    AllGap(s, poll.raws);
    var (t, failure) := TakeAll(s, poll.raws);
    var told, counts := ToldOfAll(s, poll.raws), CountsOfAll(s, poll.raws, H.Gap(s.table));
    if failure == NoFailure {
      SoundParts(t);
      OwnThere(t);
      SweptMatch(t.table, poll);
      MatchConcat(told, Leavings(t.table.sources, PassOf(t.table.own, poll), t.table.active).0,
                  counts, CountsLeft(t.table.sources, PassOf(t.table.own, poll), |t.table.sources|, MissedBy(s, poll)), MissedBy(s, poll));
    } else {
      assert told + [] == told && counts + [] == counts;
    }
  }

  /** A call closes the gap, unless it fails before the timeouts. */
  lemma {:induction false} PollGap(s: Session, poll: Poll)
    requires Coupled(s)
    ensures Ready(s) && T.Sound(s.table)
    ensures var failure := TakeAll(s, poll.raws).1;
            H.Gap(ProcessPolledData(s, poll).0.table) == if failure == NoFailure then 0 else MissedBy(s, poll)
  {
    hide T.Sound, Ready, TakeAll, Coupled, H.Gap, UncountedIn, Finish, MultipleTimeouts;
    SoundParts(s);
    AllSound(s, poll.raws);
    AllGap(s, poll.raws);
    var (t, failure) := TakeAll(s, poll.raws);
    if failure == NoFailure {
      FinishTable(t, poll);
      PassCloses(t.table, poll);
    }
  }

  lemma {:induction false} PassCloses(t: Table, poll: Poll)
    requires T.Sound(t)
    ensures var d := poll.delays; H.Gap(MultipleTimeouts(t, poll.tick, d.sender, d.bye, d.general, d.note)) == 0
  {
    hide T.Sound, H.Gap, MultipleTimeouts;
    var d := poll.delays;
    H.StepGap(t, T.AllChecks(poll.tick, d.sender, d.bye, d.general, d.note));
  }

  lemma {:induction false} FinishTable(s: Session, poll: Poll)
    requires Ready(s)
    ensures var d := poll.delays; Finish(s, poll).0.table == MultipleTimeouts(s.table, poll.tick, d.sender, d.bye, d.general, d.note)
  {
    hide MultipleTimeouts, TimerSwept, ForgetCollisions, S.Expire, S.ScheduleBye, P.BuildNext, B.Size, B.ContentOk, S.Usable, WeSend;
    TimeOutReady(s, poll);
    var t := TimeOut(s, poll);
    ExpireFlags(t.sched, GroupOf(t.table), poll.clock, poll.later, poll.draw, poll.draw2);
    var u := t.(sched := S.Expire(t.sched, GroupOf(t.table), poll.clock, poll.later, poll.draw, poll.draw2).0);
    TransmitTable(u, poll);
  }

  lemma {:induction false} TransmitTable(s: Session, poll: Poll)
    requires Ready(s)
    ensures Transmit(s, poll).0.table == s.table
  {
    hide S.ByeInterval, P.BuildNext, B.Size, S.Usable, B.ContentOk;
  }

  // ---------------------------------------------------------------- runs

  /** What the counter has missed over a run: what arrived since the last call that came to its timeouts. */
  function MissedIn(s: Session, events: seq<Event>): int
    requires Coupled(s)
  {
    if events == [] then H.Gap(s.table)
    else
      var front, last := events[..|events| - 1], events[|events| - 1];
      match last
      case PollData(poll) =>
        var before := Run(s, front);
        SoundParts(before);
        if TakeAll(before, poll.raws).1 == NoFailure then 0 else MissedIn(s, front) + UncountedIn(before, poll.raws)
      case _ => MissedIn(s, front)
  }

  lemma {:induction false} SentGap(s: Session, now: RtpTime, ok: bool, isRtp: bool)
    requires Coupled(s)
    ensures T.Sound(s.table) && H.Gap(Sent(s, now, ok, isRtp).table) == H.Gap(s.table)
  {
    hide T.Sound, Ready, H.Gap, SentPacket, Contents;
    T.OwnHas(s.table);
    H.StepGap(s.table, T.SentRtp(now));
  }

  /** The gap of the counter is what was missed over the run. */
  lemma {:induction false} RunMissed(s: Session, events: seq<Event>)
    requires Coupled(s)
    ensures H.Gap(Run(s, events).table) == MissedIn(s, events)
  {
    hide Coupled, H.Gap, ProcessPolledData, Sent, UncountedIn, TakeAll;
    if events != [] {
      var front, last := events[..|events| - 1], events[|events| - 1];
      var before := Run(s, front);
      RunMissed(s, front);
      SoundParts(before);
      match last
      case PollData(poll) => PollGap(before, poll);
      case SendData(now, ok) => SentGap(before, now, ok, true);
      case SendApp(ok) => SentGap(before, 0, ok, false);
    }
  }
}
