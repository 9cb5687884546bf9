/**
 One call of ProcessPolledData: the waiting packets go into the source table, a collision with the own SSRC
 makes the session say goodbye and take a new one, old entries time out, and a control packet is sent when
 it is time.
 */
module SessionStep {
  import opened Bytes
  import F = RtcpFormat
  import B = RtcpBuild
  import opened SourceStats
  import D = SourceData
  import opened SourceTable
  import opened CompoundActions
  import T = SourceTableRuns
  import RP = RtpPacket
  import S = Scheduler
  import P = PacketRound
  import opened TimerCalls

  type Address = D.Address

  datatype Config = Config(maxPacketSize: nat, cname: bytes, acceptOwn: bool, useSrInBye: bool)

  /** A goodbye that left the queue, and whether its transmission succeeded. */
  datatype Departure = Departure(content: B.Content, sent: bool)

  /**
   The session: the source table, the timer, the SSRC that the packet builders use, the goodbyes that wait to
   be sent, and the addresses that collided. The last two parts record which goodbyes were built, and which
   have left the queue.
   */
  datatype Session = Session(
    config: Config, table: Table, sched: S.State, ssrc: u32, sentPackets: bool, byes: seq<B.Content>,
    collisions: seq<(Address, RtpTime)>, round: P.Round, texts: P.Texts,
    built: seq<B.Content>, gone: seq<Departure>)

  /** A waiting packet, and what the clock and the random numbers give while it is dealt with. */
  datatype Raw = Raw(sender: Option<Address>, local: bool, isRtp: bool, data: bytes, beyond: u16, receivedAt: RtpTime,
                     tsUnit: real, clock: int, info: F.SenderInfo, draws: seq<u32>, draw: real)

  datatype Body =
    | Data(packet: RP.Packet)
    | Control(parts: seq<Part>)
    | Garbage

  /** What the bytes are: a data packet, a compound packet, or nothing that is taken notice of. */
  function BodyOf(raw: Raw): Body {
    if raw.isRtp then
      match RP.Parse(raw.data, raw.beyond)
      case Some(p) => Data(p)
      case None => Garbage
    else
      match PartsIn(raw.data)
      case Some(parts) => Control(parts)
      case None => Garbage
  }

  datatype Failure = NoFailure | BadItem | NoAddress | NoFreeSsrc | NoOwnEntry | SsrcTaken | FilledTooSoon | SendFailed

  // ---------------------------------------------------------------- control packets

  /** ProcessRawPacket: own packets count as coming from no address, or not at all. */
  function HandleRaw(s: Session, raw: Raw): (Session, bool) {
    if raw.local && !s.config.acceptOwn then (s, true)
    else
      var from := if raw.local then None else raw.sender;
      match BodyOf(raw)
      case Garbage => (s, true)
      case Data(p) => (s.(table := RtpPacketIn(s.table, p, raw.receivedAt, raw.tsUnit, from).0), true)
      case Control(ps) =>
        var (t, status) := Perform(s.table, AllActions(ps, s.table.own), raw.receivedAt, from);
        (s.(table := t, sched := TimerHears(s.table, s.sched, ps, |raw.data|, raw.receivedAt, raw.clock, from)), status == Done)
  }

  // ---------------------------------------------------------------- collisions

  /** A collision with the own entry was reported since the log had this length. */
  predicate OwnCollided(t: Table, length: nat) {
    exists i :: length <= i < |t.log| && t.log[i].Collision? && Some(t.log[i].ssrc) == t.own
  }

  function FindAddress(list: seq<(Address, RtpTime)>, a: Address): (k: nat)
    ensures k <= |list| && (k < |list| ==> list[k].0 == a) && forall i :: 0 <= i < k ==> list[i].0 != a
  {
    if list == [] then 0 else if list[0].0 == a then 0 else 1 + FindAddress(list[1..], a)
  }

  /** The address is noted with its time; true if it is new. */
  function NoteCollision(list: seq<(Address, RtpTime)>, a: Address, at: RtpTime): (seq<(Address, RtpTime)>, bool) {
    var k := FindAddress(list, a);
    if k < |list| then (list[k := (a, at)], false) else (list + [(a, at)], true)
  }

  function ForgetCollisions(list: seq<(Address, RtpTime)>, check: RtpTime): seq<(Address, RtpTime)> {
    if list == [] then []
    else (if list[0].1 < check then [] else [list[0]]) + ForgetCollisions(list[1..], check)
  }

  /** The first number drawn that no entry has. */
  function FreshSsrc(t: Table, draws: seq<u32>): (r: Option<u32>)
    ensures r.Some? ==> !Has(t, r.value)
  {
    if draws == [] then None
    else if Has(t, draws[0]) then FreshSsrc(t, draws[1..])
    else Some(draws[0])
  }

  function GroupOf(t: Table): S.Group {
    S.Group(t.senders, t.active, WeSend(t))
  }

  function ByeSituation(s: Session, raw: Raw): P.Situation {
    P.Situation(s.ssrc, if s.config.useSrInBye && WeSend(s.table) then Some(raw.info) else None,
                s.config.cname, s.texts, [], 0, 0, [])
  }

  /** What the rest of the session demands of its parts. */
  predicate Ready(s: Session) {
    && s.config.maxPacketSize >= B.MIN_PACKET_SIZE && |s.config.cname| <= 255
    && (forall t :: t in s.texts ==> |s.texts[t]| <= 255)
    && S.Usable(s.sched.params)
    && (forall i :: 0 <= i < |s.byes| ==> B.ContentOk(s.byes[i]))
  }

  /** The goodbye for the old SSRC joins the queue; the timer is told only of the first one. */
  function QueueBye(s: Session, raw: Raw): (Session, Failure)
    requires Ready(s)
  {
    match P.BuildBye(s.config.maxPacketSize, ByeSituation(s, raw), [])
    case None => (s, FilledTooSoon)
    case Some(c) =>
      var t := s.(byes := s.byes + [c], built := s.built + [c]);
      (if |t.byes| == 1 then t.(sched := S.ScheduleBye(t.sched, GroupOf(t.table), B.Size(c), raw.clock, raw.draw)) else t, NoFailure)
  }

  /** The own entry is exchanged for one with a new SSRC. */
  function ChangeSsrc(s: Session, raw: Raw): (Session, Failure)
    requires s.table.own.Some? ==> Has(s.table, s.table.own.value)
  {
    match FreshSsrc(s.table, raw.draws)
    case None => (s, NoFreeSsrc)
    case Some(free) =>
      var t := s.(ssrc := free, sentPackets := false);
      var (u, status) := DeleteOwn(t.table);
      if status != Done then (t.(table := u), NoOwnEntry)
      else
        var (v, status2) := CreateOwn(u, free);
        (t.(table := v), if status2 != Done then SsrcTaken else NoFailure)
  }

  /** The own SSRC collided; the first time an address does that, the session gives the SSRC up. */
  function ResolveCollision(s: Session, raw: Raw): (Session, Failure)
    requires Ready(s) && (s.table.own.Some? ==> Has(s.table, s.table.own.value))
  {
    if raw.sender == None then (s, NoAddress)
    else
      var (list, created) := NoteCollision(s.collisions, raw.sender.value, raw.receivedAt);
      var t := s.(collisions := list);
      if !created then (t, NoFailure)
      else
        var (u, failure) := if t.sentPackets then QueueBye(t, raw) else (t, NoFailure);
        if failure != NoFailure then (u, failure) else ChangeSsrc(u, raw)
  }

  function TakeRaw(s: Session, raw: Raw): (Session, Failure)
    requires Ready(s) && T.Sound(s.table)
  {
    HandledSound(s, raw);
    var (t, ok) := HandleRaw(s, raw);
    if !ok then (t, BadItem)
    else if OwnCollided(t.table, |s.table.log|) then ResolveCollision(t, raw)
    else (t, NoFailure)
  }

  /** Handling a packet keeps the table sound, and the own entry. */
  lemma {:induction false} HandledSound(s: Session, raw: Raw)
    requires Ready(s) && T.Sound(s.table)
    ensures var t := HandleRaw(s, raw).0;
            && Ready(t) && T.Sound(t.table) && t.table.own == s.table.own
            && (t.table.own.Some? ==> Has(t.table, t.table.own.value))
            && t == s.(table := t.table, sched := t.sched) && t.sched.byeScheduled == s.sched.byeScheduled
  {
    hide T.Sound, RtpPacketIn, Perform, TimerAfter, B.ContentOk, S.Usable, BodyOf;
    var from := if raw.local then None else raw.sender;
    if !(raw.local && !s.config.acceptOwn) {
      match BodyOf(raw)
      case Garbage =>
      case Data(p) =>
        T.RtpSound(s.table, p, raw.receivedAt, raw.tsUnit, from);
        T.RtpKeepsOwn(s.table, p, raw.receivedAt, raw.tsUnit, from);
      case Control(ps) =>
        var sched := if from.Some? then S.Incoming(s.sched, IsGoodbye(ps), |raw.data|) else s.sched;
        PerformSound(s.table, sched, AllActions(ps, s.table.own), raw.receivedAt, raw.clock, from);
    }
    T.OwnHas(HandleRaw(s, raw).0.table);
  }

  lemma {:induction false} PerformSound(t: Table, sched: S.State, actions: seq<Action>, now: RtpTime, clock: int, from: Option<Address>)
    requires T.Sound(t)
    ensures var u, after := Perform(t, actions, now, from).0, TimerAfter(t, sched, actions, now, clock, from);
            T.Sound(u) && u.own == t.own && after.byeScheduled == sched.byeScheduled && after.params == sched.params
  {
    hide T.Sound, RtcpIn, S.Portion;
    if actions != [] {
      var front, last := actions[..|actions| - 1], actions[|actions| - 1];
      PerformSound(t, sched, front, now, clock, from);
      var (u, status) := Perform(t, front, now, from);
      T.RtcpSound(u, last.0, last.1, now, from);
      T.RtcpKeepsOwn(u, last.0, last.1, now, from);
    }
  }

  function TakeAll(s: Session, raws: seq<Raw>): (Session, Failure)
    requires Ready(s) && T.Sound(s.table)
    decreases |raws|
  {
    if raws == [] then (s, NoFailure)
    else
      TakenSound(s, raws[0]);
      var (t, failure) := TakeRaw(s, raws[0]);
      if failure != NoFailure then (t, failure) else TakeAll(t, raws[1..])
  }

  lemma {:induction false} TakenSound(s: Session, raw: Raw)
    requires Ready(s) && T.Sound(s.table)
    ensures Ready(TakeRaw(s, raw).0) && T.Sound(TakeRaw(s, raw).0.table)
  {
    hide T.Sound, HandleRaw, Ready, QueueBye, ChangeSsrc;
    HandledSound(s, raw);
    var (t, ok) := HandleRaw(s, raw);
    if ok && OwnCollided(t.table, |s.table.log|) && raw.sender.Some? {
      var (list, created) := NoteCollision(t.collisions, raw.sender.value, raw.receivedAt);
      var u := t.(collisions := list);
      SameParts(t, u);
      QueueReady(u, raw);
      ChangeSound(u, raw);
      ChangeSound(QueueBye(u, raw).0, raw);
    }
  }

  lemma {:induction false} SameParts(s: Session, t: Session)
    requires Ready(s) && t == s.(collisions := t.collisions)
    ensures Ready(t)
  {
  }

  lemma {:induction false} QueueReady(s: Session, raw: Raw)
    requires Ready(s)
    ensures Ready(QueueBye(s, raw).0) && QueueBye(s, raw).0.table == s.table
  {
    hide S.Usable, B.ContentOk, S.ByeInterval, P.BuildBye, B.Size;
  }

  lemma {:induction false} ChangeSound(s: Session, raw: Raw)
    requires Ready(s) && T.Sound(s.table)
    ensures s.table.own.Some? ==> Has(s.table, s.table.own.value)
    ensures Ready(ChangeSsrc(s, raw).0) && T.Sound(ChangeSsrc(s, raw).0.table)
  {
    hide S.Usable, B.ContentOk, T.Sound, DeleteOwn, CreateOwn;
    T.OwnHas(s.table);
    T.DeleteSound(s.table);
    var free := FreshSsrc(s.table, raw.draws);
    if free.Some? {
      T.CreateSound(DeleteOwn(s.table).0, free.value);
    }
  }

  // ---------------------------------------------------------------- timeouts and sending

  datatype Delays = Delays(sender: RtpTime, bye: RtpTime, general: RtpTime, note: RtpTime, collision: RtpTime)

  /** What one call finds besides the waiting packets; sendOk tells whether the transmission succeeds. */
  datatype Poll = Poll(raws: seq<Raw>, tick: RtpTime, delays: Delays, clock: int, later: int,
                       draw: real, draw2: real, byeDraw: real, info: F.SenderInfo,
                       blocks: seq<F.ReportBlock>, skipped: nat, again: seq<F.ReportBlock>, sendOk: bool)

  /** The fused pass of this call. */
  function PassOf(own: Option<u32>, poll: Poll): D.Source -> Fate {
    FusedPass(own, TimeMinus(poll.tick, poll.delays.sender), TimeMinus(poll.tick, poll.delays.bye),
              TimeMinus(poll.tick, poll.delays.general), TimeMinus(poll.tick, poll.delays.note))
  }

  function TimeOut(s: Session, poll: Poll): Session {
    var d := poll.delays;
    s.(table := MultipleTimeouts(s.table, poll.tick, d.sender, d.bye, d.general, d.note),
       sched := TimerSwept(s.table, s.sched, PassOf(s.table.own, poll), poll.clock),
       collisions := ForgetCollisions(s.collisions, TimeMinus(poll.tick, d.collision)))
  }

  function NextSituation(s: Session, poll: Poll): P.Situation {
    P.Situation(s.ssrc, if WeSend(s.table) then Some(poll.info) else None, s.config.cname, s.texts,
                poll.blocks, s.table.total, poll.skipped, poll.again)
  }

  /** It is time: the first goodbye goes out, or a report. */
  function Transmit(s: Session, poll: Poll): (Session, Failure, Option<B.Content>)
    requires Ready(s)
  {
    if s.byes == [] then
      match P.BuildNext(s.config.maxPacketSize, s.round, NextSituation(s, poll))
      case FilledTooSoon => (s, Failure.FilledTooSoon, None)
      case Filled(round, c) =>
        var t := s.(round := round);
        if !poll.sendOk then (t, SendFailed, None)
        else (t.(sentPackets := true, sched := S.Outgoing(t.sched, false, B.Size(c))), NoFailure, Some(c))
    else
      var c := s.byes[0];
      var t := s.(byes := s.byes[1..], gone := s.gone + [Departure(c, poll.sendOk)]);
      if !poll.sendOk then (t, SendFailed, None)
      else
        var u := t.(sentPackets := true);
        var sched := if u.byes != [] then S.ScheduleBye(u.sched, GroupOf(u.table), B.Size(u.byes[0]), poll.clock, poll.byeDraw)
                     else u.sched;
        (u.(sched := S.Outgoing(sched, true, B.Size(c))), NoFailure, Some(c))
  }

  function Finish(s: Session, poll: Poll): (Session, Failure, Option<B.Content>)
    requires Ready(s)
  {
    TimeOutReady(s, poll);
    var t := TimeOut(s, poll);
    var (sched, isTime) := S.Expire(t.sched, GroupOf(t.table), poll.clock, poll.later, poll.draw, poll.draw2);
    var u := t.(sched := sched);
    if isTime then Transmit(u, poll) else (u, NoFailure, None)
  }

  lemma {:induction false} LeaveAllKeeps(sched: S.State, counts: seq<int>, clock: int)
    ensures LeaveAll(sched, counts, clock).params == sched.params && LeaveAll(sched, counts, clock).byeScheduled == sched.byeScheduled
  {
    hide S.Portion;
    if counts != [] {
      LeaveAllKeeps(sched, counts[..|counts| - 1], clock);
    }
  }

  lemma {:induction false} TimeOutReady(s: Session, poll: Poll)
    requires Ready(s)
    ensures Ready(TimeOut(s, poll)) && TimeOut(s, poll).sched.byeScheduled == s.sched.byeScheduled
  {
    hide S.Usable, B.ContentOk, LeaveAll, Leavings, PassOf;
    LeaveAllKeeps(s.sched, Leavings(s.table.sources, PassOf(s.table.own, poll), s.table.active).0, poll.clock);
  }

  function ProcessPolledData(s: Session, poll: Poll): (Session, Failure, Option<B.Content>)
    requires Ready(s) && T.Sound(s.table)
  {
    AllSound(s, poll.raws);
    var (t, failure) := TakeAll(s, poll.raws);
    if failure != NoFailure then (t, failure, None) else Finish(t, poll)
  }

  lemma {:induction false} AllSound(s: Session, raws: seq<Raw>)
    requires Ready(s) && T.Sound(s.table)
    ensures Ready(TakeAll(s, raws).0) && T.Sound(TakeAll(s, raws).0.table)
    decreases |raws|
  {
    hide Ready, T.Sound, TakeRaw;
    if raws != [] {
      TakenSound(s, raws[0]);
      var (t, failure) := TakeRaw(s, raws[0]);
      if failure == NoFailure {
        AllSound(t, raws[1..]);
      }
    }
  }

  /** By how much the deterministic interval is multiplied to give the time limits. */
  datatype Multipliers = Multipliers(sender: real, bye: real, general: real, note: real, collision: real)

  function Times(seconds: real, factor: real): real {
    seconds * factor
  }

  /** A multiple of an interval, as a time whose seconds have 32 bits. */
  function LimitOf(interval: int, factor: real): RtpTime {
    S.Micros(Times(S.Seconds(interval), factor)) % ERA
  }

  /** The time limits of the timeouts, by the interval of a receiver. */
  function TimeLimitsFor(interval: int, m: Multipliers): Delays {
    Delays(LimitOf(interval, m.sender), LimitOf(interval, m.bye), LimitOf(interval, m.general), LimitOf(interval, m.note),
           LimitOf(interval, m.collision))
  }

  /** A call with the time limits that hold after its waiting packets. */
  function Limited(s: Session, poll: Poll, m: Multipliers): Poll
    requires Ready(s) && T.Sound(s.table)
  {
    AllSound(s, poll.raws);
    var t := TakeAll(s, poll.raws).0;
    poll.(delays := TimeLimitsFor(S.DeterministicInterval(t.sched, GroupOf(t.table), false), m))
  }

  // ---------------------------------------------------------------- the other calls

  datatype Event =
    | PollData(poll: Poll)
    | SendData(now: RtpTime, ok: bool)
    | SendApp(ok: bool)

  /** SendPacket, and SendRTCPAPPPacket: once something was built and sent, the SSRC is known to others. */
  function Sent(s: Session, now: RtpTime, ok: bool, isRtp: bool): Session
    requires T.Sound(s.table)
  {
    T.OwnHas(s.table);
    if !ok then s
    else s.(sentPackets := true, table := if isRtp then SentPacket(s.table, now) else s.table)
  }
}
