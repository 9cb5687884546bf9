/** What every successful call of ProcessPolledData keeps, and which failures can occur. */
module SessionRuns {
  import opened Bytes
  import F = RtcpFormat
  import B = RtcpBuild
  import opened SourceStats
  import D = SourceData
  import opened SourceTable
  import opened CompoundActions
  import T = SourceTableRuns
  import H = SourceTableHistory
  import S = Scheduler
  import R = SchedulerRuns
  import opened TimerCalls
  import RP = RtpPacket
  import P = PacketRound
  import Q = PacketRoundRuns
  import opened SessionStep

  /** The packet says goodbye for the SSRC that it is sent under, and for no other. */
  predicate IsByePacket(c: B.Content) {
    match c.header
    case NoReport => false
    case SrHeader(ssrc, _) => c.byes == [F.BYE([ssrc], [])]
    case RrHeader(ssrc) => c.byes == [F.BYE([ssrc], [])]
  }

  function Contents(gone: seq<Departure>): seq<B.Content> {
    if gone == [] then [] else Contents(gone[..|gone| - 1]) + [gone[|gone| - 1].content]
  }

  /**
   What every call keeps, whether or not its transmission succeeds: the builders' SSRC is the own entry's, the
   goodbyes that were built are those that left and those that wait, in order, and a goodbye is scheduled only
   if one waits.
   */
  predicate Coupled(s: Session) {
    && Ready(s) && T.Sound(s.table) && s.table.own == Some(s.ssrc) && Q.RoundOk(s.round)
    && s.built == Contents(s.gone) + s.byes
    && (forall i :: 0 <= i < |s.built| ==> IsByePacket(s.built[i]))
    && (s.sched.byeScheduled ==> s.byes != [])
  }

  /** The timer has a goodbye scheduled exactly if one is waiting. */
  predicate ByesAgree(s: Session) {
    s.sched.byeScheduled <==> s.byes != []
  }

  // ---------------------------------------------------------------- collisions

  /** Nothing that comes from the session itself collides with its own entry. */
  lemma {:induction false} OwnNeverCollides(t: Table, u: Table, isRtp: bool, i: nat)
    requires T.Sound(t) && H.Respects(t, u, None, isRtp) && |t.log| <= i < |u.log| && u.log[i].Collision?
    ensures Some(u.log[i].ssrc) != t.own
  {
    hide D.QueueOk;
    assert H.Flagged(t, u.log[i], None, isRtp);
    var k :| 0 <= k < |t.sources| && t.sources[k].ssrc == u.log[i].ssrc && Collides(t.sources[k], None, isRtp);
    T.EntryAt(t, k);
  }

  /** The log only grows, and what is added by packets from nowhere is no collision with the own entry. */
  predicate Harmless(t: Table, u: Table) {
    && u.own == t.own && |t.log| <= |u.log| && u.log[..|t.log|] == t.log
    && forall i :: |t.log| <= i < |u.log| && u.log[i].Collision? ==> Some(u.log[i].ssrc) != t.own
  }

  lemma {:induction false} HarmlessTwice(t: Table, u: Table, v: Table)
    requires Harmless(t, u) && Harmless(u, v)
    ensures Harmless(t, v)
  {
    assert v.log[..|t.log|] == v.log[..|u.log|][..|t.log|];
    forall i | |t.log| <= i < |v.log| && v.log[i].Collision?
      ensures Some(v.log[i].ssrc) != t.own
    {
      if i < |u.log| {
        assert v.log[i] == v.log[..|u.log|][i];
      }
    }
  }

  lemma {:induction false} PerformHarmless(t: Table, sched: S.State, actions: seq<Action>, now: RtpTime)
    requires T.Sound(t)
    ensures Harmless(t, Perform(t, actions, now, None).0)
  {
    hide T.Sound, RtcpIn, H.Respects;
    if actions != [] {
      var front, last := actions[..|actions| - 1], actions[|actions| - 1];
      PerformHarmless(t, sched, front, now);
      PerformSound(t, sched, front, now, 0, None);
      var (u, status) := Perform(t, front, now, None);
      T.RtcpSound(u, last.0, last.1, now, None);
      T.RtcpKeepsOwn(u, last.0, last.1, now, None);
      H.RtcpCollisionsHarmless(u, last.0, last.1, now, None);
      StepHarmless(u, RtcpIn(u, last.0, last.1, now, None).0, false);
      HarmlessTwice(t, u, RtcpIn(u, last.0, last.1, now, None).0);
    }
  }

  lemma {:induction false} StepHarmless(t: Table, u: Table, isRtp: bool)
    requires T.Sound(t) && H.Respects(t, u, None, isRtp) && u.own == t.own
    ensures Harmless(t, u)
  {
    hide T.Sound;
    forall i | |t.log| <= i < |u.log| && u.log[i].Collision?
      ensures Some(u.log[i].ssrc) != t.own
    {
      OwnNeverCollides(t, u, isRtp, i);
    }
  }

  /** A packet that collides with the own entry has an address, and does not come from the session itself. */
  lemma {:induction false} CollisionHasSender(s: Session, raw: Raw)
    requires Ready(s) && T.Sound(s.table)
    requires OwnCollided(HandleRaw(s, raw).0.table, |s.table.log|)
    ensures raw.sender.Some? && !raw.local
  {
    hide T.Sound, RtpPacketIn, Perform, H.Respects, Ready;
    if raw.local || raw.sender == None {
      var t := HandleRaw(s, raw).0.table;
      var i :| |s.table.log| <= i < |t.log| && t.log[i].Collision? && Some(t.log[i].ssrc) == t.own;
      NoOwnCollision(s, raw);
    }
  }

  lemma {:induction false} NoOwnCollision(s: Session, raw: Raw)
    requires Ready(s) && T.Sound(s.table) && (raw.local || raw.sender == None)
    ensures Harmless(s.table, HandleRaw(s, raw).0.table)
  {
    hide T.Sound, RtpPacketIn, Perform, H.Respects, Ready, TimerHears, BodyOf;
    if !(raw.local && !s.config.acceptOwn) {
      match BodyOf(raw)
      case Garbage =>
      case Data(p) =>
        T.RtpKeepsOwn(s.table, p, raw.receivedAt, raw.tsUnit, None);
        H.RtpCollisionsHarmless(s.table, p, raw.receivedAt, raw.tsUnit, None);
        StepHarmless(s.table, RtpPacketIn(s.table, p, raw.receivedAt, raw.tsUnit, None).0, true);
      case Control(ps) =>
        PerformHarmless(s.table, s.sched, AllActions(ps, s.table.own), raw.receivedAt);
    }
  }

  predicate NoAddressTwice(list: seq<(Address, RtpTime)>) {
    forall i, j :: 0 <= i < j < |list| ==> list[i].0 != list[j].0
  }

  /** An address is new exactly if it is not in the list; it is in the list then, once, with the time of now. */
  lemma {:induction false} CollisionNoted(list: seq<(Address, RtpTime)>, a: Address, at: RtpTime)
    requires NoAddressTwice(list)
    ensures var (after, created) := NoteCollision(list, a, at);
            && NoAddressTwice(after) && (a, at) in after
            && (created <==> forall i :: 0 <= i < |list| ==> list[i].0 != a)
            && (forall e: (Address, RtpTime) :: e.0 != a ==> (e in after <==> e in list))
  {
    var k := FindAddress(list, a);
    var after := NoteCollision(list, a, at).0;
    if k < |list| {
      assert after[k] == (a, at);
      forall e: (Address, RtpTime) | e.0 != a && e in list
        ensures e in after
      {
        var i :| 0 <= i < |list| && list[i] == e;
        assert after[i] == e;
      }
    } else {
      assert after[|list|] == (a, at);
    }
  }

  /** Exactly the addresses that did not collide for too long are forgotten. */
  lemma {:induction false} CollisionsForgotten(list: seq<(Address, RtpTime)>, check: RtpTime)
    ensures forall e: (Address, RtpTime) :: e in ForgetCollisions(list, check) <==> e in list && e.1 >= check
    ensures NoAddressTwice(list) ==> NoAddressTwice(ForgetCollisions(list, check))
  {
    if list != [] {
      CollisionsForgotten(list[1..], check);
      var rest := ForgetCollisions(list[1..], check);
      assert forall e: (Address, RtpTime) :: e in list <==> e == list[0] || e in list[1..];
      assert NoAddressTwice(list) ==> forall i :: 0 <= i < |rest| ==> rest[i] in list[1..] && rest[i].0 != list[0].0;
    }
  }

  // ---------------------------------------------------------------- the new SSRC

  /** A number that no entry has is free after the own entry is gone, so the new own entry can be made. */
  lemma {:induction false} FreshIsFree(t: Table, ssrc: u32)
    requires T.Sound(t) && t.own.Some? && Has(t, t.own.value) && !Has(t, ssrc)
    ensures var (u, status) := DeleteOwn(t); status == Done && u.own == None && !Has(u, ssrc)
    ensures var (v, status) := CreateOwn(DeleteOwn(t).0, ssrc); status == Done && v.own == Some(ssrc)
  {
    hide T.Sound;
    var u := DeleteOwn(t).0;
    forall j | 0 <= j < |u.sources|
      ensures u.sources[j].ssrc != ssrc
    {
      assert u.sources[j] in t.sources;
    }
  }

  lemma {:induction false} ByeIsBye(max: nat, s: P.Situation)
    requires max >= B.MIN_PACKET_SIZE && P.SituationOk(s)
    ensures P.BuildBye(max, s, []).Some? && IsByePacket(P.BuildBye(max, s, []).value)
  {
    Q.ByeAlwaysFits(max, s, []);
  }

  lemma {:induction false} QueueCoupled(s: Session, raw: Raw)
    requires Coupled(s)
    ensures var (t, failure) := QueueBye(s, raw);
            && failure == NoFailure && Coupled(t) && (ByesAgree(t) <==> ByesAgree(s)) && t.table == s.table && t.ssrc == s.ssrc
            && |t.byes| == |s.byes| + 1 && t.byes[..|s.byes|] == s.byes && t.gone == s.gone
  {
    hide T.Sound, S.Usable, B.ContentOk, S.ByeInterval, P.BuildBye, B.Size, IsByePacket, Q.RoundOk, WeSend, Contents;
    ByeIsBye(s.config.maxPacketSize, ByeSituation(s, raw));
    var c := P.BuildBye(s.config.maxPacketSize, ByeSituation(s, raw), []).value;
    assert Contents(s.gone) + s.byes + [c] == Contents(s.gone) + (s.byes + [c]);
  }

  lemma {:induction false} ChangeCoupled(s: Session, raw: Raw)
    requires Coupled(s)
    ensures s.table.own.Some? ==> Has(s.table, s.table.own.value)
    ensures var (t, failure) := ChangeSsrc(s, raw);
            && Coupled(t) && t.byes == s.byes && t.sched == s.sched && t.gone == s.gone && t.built == s.built
            && (failure == NoFailure || failure == NoFreeSsrc)
            && (failure == NoFailure ==> t.ssrc != s.ssrc && !Has(s.table, t.ssrc) && !t.sentPackets)
            && (failure == NoFreeSsrc ==> t == s)
  {
    hide T.Sound, Ready, DeleteOwn, CreateOwn, IsByePacket, Q.RoundOk, Contents;
    T.OwnHas(s.table);
    ChangeSound(s, raw);
    var free := FreshSsrc(s.table, raw.draws);
    if free.Some? {
      FreshIsFree(s.table, free.value);
    }
  }

  /** Whether the session is to give up its SSRC because of this packet. */
  predicate MustChange(s: Session, raw: Raw) {
    var t := HandleRaw(s, raw).0;
    OwnCollided(t.table, |s.table.log|) && raw.sender.Some? && FindAddress(s.collisions, raw.sender.value) == |s.collisions|
  }

  lemma {:induction false} HandledCoupled(s: Session, raw: Raw)
    requires Coupled(s)
    ensures var t := HandleRaw(s, raw).0;
            && Coupled(t) && (ByesAgree(t) <==> ByesAgree(s)) && t.collisions == s.collisions && t.ssrc == s.ssrc
            && t.sentPackets == s.sentPackets && t.byes == s.byes && t.gone == s.gone && t.built == s.built
  {
    hide T.Sound, Ready, HandleRaw, IsByePacket, Q.RoundOk, Contents;
    HandledSound(s, raw);
  }

  lemma {:induction false} ListCoupled(s: Session, t: Session)
    requires Coupled(s) && t == s.(collisions := t.collisions)
    ensures Coupled(t) && (ByesAgree(t) <==> ByesAgree(s))
  {
  }

  /**
   One waiting packet: the builders' SSRC stays that of the own entry. It changes exactly if the packet collides
   with it and comes from an address that did not collide before; the new one is no entry's, and a goodbye
   joins the queue if anything was sent under the old one. Timer and queue agree afterwards if they did before.
   */
  lemma {:induction false} RawKeeps(s: Session, raw: Raw)
    requires Coupled(s)
    ensures var (t, failure) := TakeRaw(s, raw);
            && Coupled(t) && (ByesAgree(t) <==> ByesAgree(s)) && t.gone == s.gone
            && |s.byes| <= |t.byes| && t.byes[..|s.byes|] == s.byes
            && (failure == NoFailure || failure == BadItem || failure == NoFreeSsrc)
            && (failure == NoFailure ==>
                  && (t.ssrc != s.ssrc <==> MustChange(s, raw))
                  && (MustChange(s, raw) ==> !Has(HandleRaw(s, raw).0.table, t.ssrc)
                                             && |t.byes| == |s.byes| + if s.sentPackets then 1 else 0)
                  && (!MustChange(s, raw) ==> t.byes == s.byes))
  {
    hide T.Sound, Ready, HandleRaw, QueueBye, ChangeSsrc, Coupled, OwnCollided;
    HandledCoupled(s, raw);
    SoundParts(s);
    HandledSound(s, raw);
    var (t, ok) := HandleRaw(s, raw);
    if ok && OwnCollided(t.table, |s.table.log|) {
      CollisionHasSender(s, raw);
      var (list, created) := NoteCollision(t.collisions, raw.sender.value, raw.receivedAt);
      var u := t.(collisions := list);
      ListCoupled(t, u);
      QueueCoupled(u, raw);
      SoundParts(u);
      ChangeCoupled(if u.sentPackets then QueueBye(u, raw).0 else u, raw);
    }
  }

  lemma {:induction false} SoundParts(s: Session)
    requires Coupled(s)
    ensures Ready(s) && T.Sound(s.table)
  {
  }

  lemma {:induction false} AllKeep(s: Session, raws: seq<Raw>)
    requires Coupled(s)
    ensures Ready(s) && T.Sound(s.table)
    ensures var (t, failure) := TakeAll(s, raws);
            && Coupled(t) && (ByesAgree(t) <==> ByesAgree(s)) && t.gone == s.gone
            && |s.byes| <= |t.byes| && t.byes[..|s.byes|] == s.byes
            && (failure == NoFailure || failure == BadItem || failure == NoFreeSsrc)
    decreases |raws|
  {
    hide T.Sound, Ready, TakeRaw, Coupled, ByesAgree;
    SoundParts(s);
    if raws != [] {
      RawKeeps(s, raws[0]);
      TakenSound(s, raws[0]);
      var (t, failure) := TakeRaw(s, raws[0]);
      if failure == NoFailure {
        AllKeep(t, raws[1..]);
        var u := TakeAll(t, raws[1..]).0;
        assert u.byes[..|s.byes|] == u.byes[..|t.byes|][..|s.byes|];
      }
    }
  }

  // ---------------------------------------------------------------- sending

  lemma {:induction false} TimeOutKeeps(s: Session, poll: Poll)
    requires Coupled(s)
    ensures var t := TimeOut(s, poll);
            Coupled(t) && (ByesAgree(t) <==> ByesAgree(s)) && t.byes == s.byes && t.gone == s.gone && t.built == s.built
  {
    hide T.Sound, Ready, IsByePacket, Q.RoundOk, MultipleTimeouts, LeaveAll, Leavings, PassOf, Contents;
    var d := poll.delays;
    TimeOutReady(s, poll);
    T.OwnHas(s.table);
    T.StepSound(s.table, T.AllChecks(poll.tick, d.sender, d.bye, d.general, d.note));
    OwnStays(s.table, poll);
  }

  lemma {:induction false} OwnStays(t: Table, poll: Poll)
    ensures var d := poll.delays; MultipleTimeouts(t, poll.tick, d.sender, d.bye, d.general, d.note).own == t.own
  {
  }

  lemma {:induction false} ExpireFlags(s: S.State, g: S.Group, now: int, later: int, draw: real, draw2: real)
    requires S.Usable(s.params)
    ensures var (t, fires) := S.Expire(s, g, now, later, draw, draw2);
            t.params == s.params && t.byeScheduled == (s.byeScheduled && !fires)
  {
    hide S.TransmissionInterval, S.ByeInterval;
  }

  lemma {:induction false} OneGone(gone: seq<Departure>, d: Departure)
    ensures Contents(gone + [d]) == Contents(gone) + [d.content]
  {
    assert (gone + [d])[..|gone|] == gone;
  }

  /** The timer fires: what is sent, what leaves the queue, and whether the rest is scheduled. */
  lemma {:induction false} TransmitKeeps(s: Session, poll: Poll)
    requires Coupled(s) && !s.sched.byeScheduled
    ensures var (t, failure, sent) := Transmit(s, poll);
            && Coupled(t)
            && failure == (if poll.sendOk then NoFailure else SendFailed)
            && sent.Some? == poll.sendOk
            && (ByesAgree(t) <==> poll.sendOk || |s.byes| <= 1)
            && (if s.byes == [] then t.byes == [] && t.gone == s.gone && (sent.Some? ==> sent.value.byes == [] && B.Size(sent.value) <= s.config.maxPacketSize)
                else t.byes == s.byes[1..] && t.gone == s.gone + [Departure(s.byes[0], poll.sendOk)]
                     && (sent.Some? ==> sent.value == s.byes[0] && sent.value.byes != []))
  {
    hide T.Sound, S.Usable, B.ContentOk, S.ByeInterval, P.BuildNext, B.Size, Q.RoundOk, WeSend, P.HeaderOf, Contents;
    if s.byes == [] {
      NextAlwaysFits(s, poll);
    } else {
      OneGone(s.gone, Departure(s.byes[0], poll.sendOk));
      assert Contents(s.gone) + s.byes == Contents(s.gone) + [s.byes[0]] + s.byes[1..];
      assert s.built[|Contents(s.gone)|] == s.byes[0];
      assert IsByePacket(s.built[|Contents(s.gone)|]);
    }
  }

  lemma {:induction false} NextAlwaysFits(s: Session, poll: Poll)
    requires Coupled(s)
    ensures var o := P.BuildNext(s.config.maxPacketSize, s.round, NextSituation(s, poll));
            o.Filled? && B.Size(o.content) <= s.config.maxPacketSize && Q.RoundOk(o.round) && o.content.byes == []
  {
    hide P.BuildNext, B.Size, T.Sound, B.ContentOk, Contents;
    var n := NextSituation(s, poll);
    if s.round.ongoing {
      Q.GoesOn(s.config.maxPacketSize, s.round, n);
    } else {
      Q.Opens(s.config.maxPacketSize, s.round, n);
    }
  }

  /** Whether the call gets as far as the timer, and that fires. */
  predicate Fires(s: Session, poll: Poll)
    requires Ready(s) && T.Sound(s.table)
  {
    AllSound(s, poll.raws);
    var (t, failure) := TakeAll(s, poll.raws);
    TimeOutReady(t, poll);
    var u := TimeOut(t, poll);
    failure == NoFailure && S.Expire(u.sched, GroupOf(u.table), poll.clock, poll.later, poll.draw, poll.draw2).1
  }

  /** The goodbyes in the queue after the waiting packets, before anything is sent. */
  function Waiting(s: Session, poll: Poll): seq<B.Content>
    requires Ready(s) && T.Sound(s.table)
  {
    TakeAll(s, poll.raws).0.byes
  }

  lemma {:induction false} ExpireKeeps(t: Session, poll: Poll)
    requires Coupled(t)
    ensures S.Usable(t.sched.params)
    ensures var (sched, isTime) := S.Expire(t.sched, GroupOf(t.table), poll.clock, poll.later, poll.draw, poll.draw2);
            var u := t.(sched := sched);
            && Coupled(u) && (!isTime ==> (ByesAgree(u) <==> ByesAgree(t))) && (isTime ==> !u.sched.byeScheduled)
  {
    hide T.Sound, Q.RoundOk, IsByePacket, S.Expire, B.ContentOk, Contents;
    ExpireFlags(t.sched, GroupOf(t.table), poll.clock, poll.later, poll.draw, poll.draw2);
  }

  /**
   The invariant of the session, and exactly when timer and queue agree after a call. If the timer fires, they
   do so unless the transmission fails and more than one goodbye was waiting for it; if it does not fire, they
   do as they did before.
   */
  lemma {:induction false} SessionInvariant(s: Session, poll: Poll)
    requires Coupled(s)
    ensures Ready(s) && T.Sound(s.table)
    ensures var (t, failure, sent) := ProcessPolledData(s, poll);
            && Coupled(t)
            && (failure == NoFailure || failure == BadItem || failure == NoFreeSsrc || failure == SendFailed)
            && (failure == SendFailed <==> Fires(s, poll) && !poll.sendOk)
            && (ByesAgree(t) <==> if Fires(s, poll) then poll.sendOk || |Waiting(s, poll)| <= 1 else ByesAgree(s))
            && (sent.Some? <==> Fires(s, poll) && poll.sendOk)
    ensures var (t, failure, sent) := ProcessPolledData(s, poll);
            var waiting := Waiting(s, poll);
            && |s.byes| <= |waiting| && waiting[..|s.byes|] == s.byes
            && (if Fires(s, poll) && waiting != []
                then t.gone == s.gone + [Departure(waiting[0], poll.sendOk)] && t.byes == waiting[1..]
                     && (sent.Some? ==> sent.value == waiting[0] && sent.value.byes != [])
                else t.gone == s.gone && t.byes == waiting && (sent.Some? ==> sent.value.byes == []))
  {
    hide T.Sound, Ready, TakeAll, Transmit, Coupled, S.Expire, TimeOut, ByesAgree, S.Usable;
    SoundParts(s);
    AllSound(s, poll.raws);
    AllKeep(s, poll.raws);
    var (t, failure) := TakeAll(s, poll.raws);
    TimeOutReady(t, poll);
    if failure == NoFailure {
      TimeOutKeeps(t, poll);
      var u := TimeOut(t, poll);
      ExpireKeeps(u, poll);
      var (sched, isTime) := S.Expire(u.sched, GroupOf(u.table), poll.clock, poll.later, poll.draw, poll.draw2);
      if isTime {
        TransmitKeeps(u.(sched := sched), poll);
        SoundParts(u.(sched := sched));
      }
    }
  }

  // ---------------------------------------------------------------- whole runs

  /** A session as it is created: the own entry is made for the SSRC that the packet builder has drawn. */
  function NewSession(config: Config, probationType: D.ProbationType, ssrc: u32, sched: S.State): Session {
    Session(config, CreateOwn(EmptyTable(probationType), ssrc).0, S.Reset(sched), ssrc, false, [], [],
            P.Round(0, map[], {}, {}, false, true), map[], [], [])
  }

  predicate Creatable(config: Config, sched: S.State) {
    config.maxPacketSize >= B.MIN_PACKET_SIZE && |config.cname| <= 255 && S.Usable(sched.params)
  }

  lemma {:induction false} NewSessionKeeps(config: Config, probationType: D.ProbationType, ssrc: u32, sched: S.State)
    requires Creatable(config, sched)
    ensures Coupled(NewSession(config, probationType, ssrc, sched)) && ByesAgree(NewSession(config, probationType, ssrc, sched))
  {
    H.EmptyIsSound(probationType);
    T.CreateSound(EmptyTable(probationType), ssrc);
    hide T.Sound, S.Usable;
  }

  lemma {:induction false} SentKeeps(s: Session, now: RtpTime, ok: bool, isRtp: bool)
    requires Coupled(s)
    ensures T.Sound(s.table)
    ensures var t := Sent(s, now, ok, isRtp);
            Coupled(t) && (ByesAgree(t) <==> ByesAgree(s)) && t.byes == s.byes && t.gone == s.gone && t.sched == s.sched
  {
    hide T.Sound, Ready, IsByePacket, Q.RoundOk, Contents;
    T.OwnHas(s.table);
    T.SentSound(s.table, now);
    SameReady(s, Sent(s, now, ok, isRtp));
  }

  lemma {:induction false} SameReady(s: Session, t: Session)
    requires Ready(s) && t == s.(sentPackets := t.sentPackets, table := t.table)
    ensures Ready(t)
  {
  }

  function Step(s: Session, e: Event): (r: (Session, Option<B.Content>))
    requires Coupled(s)
    ensures Coupled(r.0)
  {
    match e
    case PollData(poll) =>
      SessionInvariant(s, poll);
      var (t, failure, sent) := ProcessPolledData(s, poll);
      (t, sent)
    case SendData(now, ok) =>
      SentKeeps(s, now, ok, true);
      (Sent(s, now, ok, true), None)
    case SendApp(ok) =>
      SentKeeps(s, 0, ok, false);
      (Sent(s, 0, ok, false), None)
  }

  function Run(s: Session, events: seq<Event>): (r: Session)
    requires Coupled(s)
    ensures Coupled(r)
  {
    if events == [] then s else Step(Run(s, events[..|events| - 1]), events[|events| - 1]).0
  }

  /** The goodbyes that were transmitted in a run. */
  function ByesOf(s: Session, events: seq<Event>): seq<B.Content>
    requires Coupled(s)
  {
    if events == [] then []
    else
      var front, last := events[..|events| - 1], events[|events| - 1];
      var sent := Step(Run(s, front), last).1;
      ByesOf(s, front) + if sent.Some? && sent.value.byes != [] then [sent.value] else []
  }

  function SentOf(gone: seq<Departure>): seq<B.Content> {
    if gone == [] then []
    else SentOf(gone[..|gone| - 1]) + if gone[|gone| - 1].sent then [gone[|gone| - 1].content] else []
  }

  predicate AllSent(gone: seq<Departure>) {
    forall i :: 0 <= i < |gone| ==> gone[i].sent
  }

  lemma {:induction false} AllSentContents(gone: seq<Departure>)
    requires AllSent(gone)
    ensures SentOf(gone) == Contents(gone)
  {
    if gone != [] {
      AllSentContents(gone[..|gone| - 1]);
    }
  }

  lemma {:induction false} OneSent(gone: seq<Departure>, d: Departure)
    ensures SentOf(gone + [d]) == SentOf(gone) + if d.sent then [d.content] else []
  {
    assert (gone + [d])[..|gone|] == gone;
  }

  predicate SendsOk(events: seq<Event>) {
    forall i :: 0 <= i < |events| && events[i].PollData? ==> events[i].poll.sendOk
  }

  lemma {:induction false} StepHistory(s: Session, e: Event)
    requires Coupled(s)
    ensures var (t, sent) := Step(s, e);
            && SentOf(t.gone) == SentOf(s.gone) + (if sent.Some? && sent.value.byes != [] then [sent.value] else [])
            && (AllSent(s.gone) && (e.PollData? ==> e.poll.sendOk) ==> AllSent(t.gone))
  {
    hide Coupled, ProcessPolledData, SentOf, Sent, ByesAgree, Fires, Waiting;
    match e
    case PollData(poll) =>
      SessionInvariant(s, poll);
      var waiting := Waiting(s, poll);
      if Fires(s, poll) && waiting != [] {
        OneSent(s.gone, Departure(waiting[0], poll.sendOk));
      }
    case SendData(now, ok) => SentKeeps(s, now, ok, true);
    case SendApp(ok) => SentKeeps(s, 0, ok, false);
  }

  lemma {:induction false} RunHistory(s: Session, events: seq<Event>)
    requires Coupled(s)
    ensures SentOf(Run(s, events).gone) == SentOf(s.gone) + ByesOf(s, events)
    ensures AllSent(s.gone) && SendsOk(events) ==> AllSent(Run(s, events).gone)
  {
    hide Coupled, Step, SentOf;
    if events != [] {
      RunHistory(s, events[..|events| - 1]);
      StepHistory(Run(s, events[..|events| - 1]), events[|events| - 1]);
    }
  }

  /**
   Over every run from the creation of a session, whatever fails to be sent: the goodbyes leave the queue in the
   order in which they were built, and those transmitted are the ones among them whose transmission succeeded.
   Without a failure none is lost.
   */
  lemma {:induction false} FirstInFirstOut(config: Config, probationType: D.ProbationType, ssrc: u32, sched: S.State, events: seq<Event>)
    requires Creatable(config, sched)
    ensures Coupled(NewSession(config, probationType, ssrc, sched))
    ensures var s := NewSession(config, probationType, ssrc, sched);
            var t := Run(s, events);
            && Contents(t.gone) + t.byes == t.built && ByesOf(s, events) == SentOf(t.gone)
            && (SendsOk(events) ==> ByesOf(s, events) + t.byes == t.built)
  {
    hide Coupled, Run, ByesOf, SentOf, Contents;
    NewSessionKeeps(config, probationType, ssrc, sched);
    var s := NewSession(config, probationType, ssrc, sched);
    NothingSent();
    RunHistory(s, events);
    BuiltIs(Run(s, events));
    if SendsOk(events) {
      AllSentContents(Run(s, events).gone);
    }
  }

  lemma {:induction false} NothingSent()
    ensures SentOf([]) == [] && AllSent([])
  {
  }

  lemma {:induction false} BuiltIs(s: Session)
    requires Coupled(s)
    ensures s.built == Contents(s.gone) + s.byes
  {
  }

  /** Whether the last time that the timer fired left timer and queue in agreement. */
  predicate LastFiringFine(s: Session, events: seq<Event>)
    requires Coupled(s)
  {
    events != [] ==>
      var front, last := events[..|events| - 1], events[|events| - 1];
      var before := Run(s, front);
      SoundParts(before);
      if last.PollData? && Fires(before, last.poll) then last.poll.sendOk || |Waiting(before, last.poll)| <= 1
      else LastFiringFine(s, front)
  }

  /** Over every run, timer and queue agree at the end exactly if the last firing was fine. */
  lemma {:induction false} AgreementExact(s: Session, events: seq<Event>)
    requires Coupled(s) && ByesAgree(s)
    ensures ByesAgree(Run(s, events)) <==> LastFiringFine(s, events)
  {
    hide Coupled, ByesAgree, ProcessPolledData, Sent, Fires, Waiting;
    if events != [] {
      var front, last := events[..|events| - 1], events[|events| - 1];
      AgreementExact(s, front);
      var before := Run(s, front);
      SoundParts(before);
      match last
      case PollData(poll) => SessionInvariant(before, poll);
      case SendData(now, ok) => SentKeeps(before, now, ok, true);
      case SendApp(ok) => SentKeeps(before, 0, ok, false);
    }
  }
}
