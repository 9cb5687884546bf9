/**
 The source table as a value: its entries in the order of their arrival, the entry of the local
 participant, the three counters, and the callbacks that were made.
 */
module SourceTable {
  import opened Bytes
  import opened RtpPacket
  import opened SourceStats
  import opened SourceData

  datatype Notice =
    | IsNew(ssrc: u32) | IsRemoved(ssrc: u32) | TimedOut(ssrc: u32) | ByeTimedOut(ssrc: u32) | NoteTimedOut(ssrc: u32)
    | ByeHeard(ssrc: u32) | Collision(ssrc: u32, from: Option<Address>, isRtp: bool)
    | CnameCollision(ssrc: u32, from: Option<Address>, cname: bytes)

  datatype Verdict = Done | AlreadyHaveOwnSsrc | SsrcExists | DontHaveOwnSsrc | IllegalSdesType | ItemTooLong

  datatype Table = Table(sources: seq<Source>, own: Option<u32>, total: int, senders: int, active: int,
                         probationType: ProbationType, log: seq<Notice>)

  function EmptyTable(probationType: ProbationType): Table {
    Table([], None, 0, 0, 0, probationType, [])
  }

  /** The position of an entry; the number of entries if there is none. */
  function Find(ss: seq<Source>, ssrc: u32): (k: nat)
    ensures k <= |ss| && (k < |ss| ==> ss[k].ssrc == ssrc)
    ensures forall i :: 0 <= i < k ==> ss[i].ssrc != ssrc
  {
    if ss == [] then 0 else if ss[0].ssrc == ssrc then 0 else 1 + Find(ss[1..], ssrc)
  }

  predicate Has(t: Table, ssrc: u32) {
    Find(t.sources, ssrc) < |t.sources|
  }

  predicate IsOwn(t: Table, s: Source) {
    t.own == Some(s.ssrc)
  }

  function One(b: bool): int {
    if b then 1 else 0
  }

  function SenderCount(ss: seq<Source>): nat {
    if ss == [] then 0 else One(ss[0].sender) + SenderCount(ss[1..])
  }

  function ActiveCount(ss: seq<Source>): nat {
    if ss == [] then 0 else One(ss[0].Active()) + ActiveCount(ss[1..])
  }

  // ---------------------------------------------------------------- addresses

  /** Whether a packet from this address clashes with what is known of the source. */
  predicate Collides(s: Source, from: Option<Address>, isRtp: bool) {
    match (if isRtp then s.rtp else s.rtcp)
    case Known(addr) => addr != from
    case Unset =>
      match (if isRtp then s.rtcp else s.rtp)
      case Unset => false
      case Known(None) => from != None
      case Known(Some(other)) => from == None || from.value.host != other.host
  }

  /** The address is kept if there was none. */
  function Bound(s: Source, from: Option<Address>, isRtp: bool): Source {
    if isRtp then (if s.rtp == Unset then s.(rtp := Known(from)) else s)
    else (if s.rtcp == Unset then s.(rtcp := Known(from)) else s)
  }

  // ---------------------------------------------------------------- the own entry

  function OwnEntry(ssrc: u32, probationType: ProbationType): Source {
    NewSource(ssrc, probationType).(own := true, validated := true, rtp := Known(None), rtcp := Known(None))
  }

  function CreateOwn(t: Table, ssrc: u32): (Table, Verdict) {
    if t.own.Some? then (t, AlreadyHaveOwnSsrc)
    else if Has(t, ssrc) then (t, SsrcExists)
    else (t.(sources := t.sources + [OwnEntry(ssrc, t.probationType)], own := Some(ssrc), total := t.total + 1,
             active := t.active + 1, log := t.log + [IsNew(ssrc)]), Done)
  }

  function Removed<T>(s: seq<T>, k: nat): seq<T>
    requires k < |s|
  {
    s[..k] + s[k + 1..]
  }

  function DeleteOwn(t: Table): (Table, Verdict)
    requires t.own.Some? ==> Has(t, t.own.value)
  {
    if t.own == None then (t, DontHaveOwnSsrc)
    else
      var k := Find(t.sources, t.own.value);
      var s := t.sources[k];
      (t.(sources := Removed(t.sources, k), own := None, total := t.total - 1, senders := t.senders - One(s.sender),
          active := t.active - One(s.Active()), log := t.log + [IsRemoved(s.ssrc)]), Done)
  }

  /** An entry is replaced, and the counters follow its flags where they are raised. */
  function Replace(t: Table, k: nat, s: Source): Table
    requires k < |t.sources|
  {
    t.(sources := t.sources[k := s])
  }

  function SentPacket(t: Table, now: RtpTime): Table
    requires t.own.Some? ==> Has(t, t.own.value)
  {
    if t.own == None then t
    else
      var k := Find(t.sources, t.own.value);
      var s := Sent(t.sources[k], now);
      Replace(t, k, s).(senders := t.senders + One(!t.sources[k].sender && s.sender))
  }

  /** The own entry is a sender. */
  predicate WeSend(t: Table) {
    t.own.Some? && Has(t, t.own.value) && t.sources[Find(t.sources, t.own.value)].sender
  }

  // ---------------------------------------------------------------- RTP packets

  /** The entry of a source, made when it is first heard of. */
  function Obtain(t: Table, ssrc: u32): (Table, nat) {
    var k := Find(t.sources, ssrc);
    if k < |t.sources| then (t, k)
    else (t.(sources := t.sources + [NewSource(ssrc, t.probationType)], total := t.total + 1), k)
  }

  /** A contributing source is valid at once; an entry that is known already is not counted anew. */
  function MarkCsrc(t: Table, csrc: u32, from: Option<Address>): Table {
    var k := Find(t.sources, csrc);
    if k == |t.sources| then
      t.(sources := t.sources + [NewSource(csrc, t.probationType).(validated := true, csrc := true)],
         total := t.total + 1, active := t.active + 1, log := t.log + [IsNew(csrc)])
    else if Collides(t.sources[k], from, true) then t.(log := t.log + [Collision(csrc, from, true)])
    else Replace(t, k, Bound(t.sources[k], from, true).(validated := true, csrc := true))
  }

  function MarkCsrcs(t: Table, csrcs: seq<u32>, from: Option<Address>): Table {
    if csrcs == [] then t
    else MarkCsrc(MarkCsrcs(t, csrcs[..|csrcs| - 1], from), csrcs[|csrcs| - 1], from)
  }

  function Deliver(t: Table, k: nat, p: Packet, now: RtpTime, tsUnit: real): (Table, bool)
    requires k < |t.sources|
  {
    var s := t.sources[k];
    var (r, stored) := Received(s, p, now, tsUnit);
    (Replace(t, k, r).(senders := t.senders + One(!s.sender && r.sender), active := t.active + One(!s.Active() && r.Active())), stored)
  }

  /** The table after the packet itself, whether it was stored, and whether its contributing sources come next. */
  function PacketOnly(t: Table, p: Packet, now: RtpTime, tsUnit: real, from: Option<Address>): (Table, bool, bool) {
    var (u, k) := Obtain(t, p.ssrc);
    var created := !Has(t, p.ssrc);
    var s := u.sources[k];
    if !created && Collides(s, from, true) then (u.(log := u.log + [Collision(s.ssrc, from, true)]), false, false)
    else
      var (v, stored) := Deliver(Replace(u, k, Bound(s, from, true)), k, p, now, tsUnit);
      (v.(log := v.log + if created then [IsNew(s.ssrc)] else []), stored, v.sources[k].validated)
  }

  function RtpPacketIn(t: Table, p: Packet, now: RtpTime, tsUnit: real, from: Option<Address>): (Table, bool) {
    var (u, stored, csrcs) := PacketOnly(t, p, now, tsUnit, from);
    (if csrcs then MarkCsrcs(u, p.csrcs, from) else u, stored)
  }

  // ---------------------------------------------------------------- RTCP packets

  /** What a control packet says about a source; all but items and BYE only count as a sign of life. */
  datatype Report = Alive | Item(id: nat, data: bytes) | Bye(reason: bytes)

  function Apply(t: Table, k: nat, created: bool, r: Report, now: RtpTime, from: Option<Address>): (Table, Verdict)
    requires k < |t.sources|
  {
    var s := t.sources[k];
    var news := if created then [IsNew(s.ssrc)] else [];
    match r
    case Alive => (Replace(t, k, Heard(s, now)).(log := t.log + news), Done)
    case Item(id, data) =>
      var (d, collision) := Described(s, id, data, now);
      (Replace(t, k, d).(active := t.active + One(!s.Active() && d.Active()),
                         log := t.log + news + if collision then [CnameCollision(s.ssrc, from, data)] else []),
       if ItemRefused(s, id, data) then ItemTooLong else Done)
    case Bye(reason) =>
      if IsOwn(t, s) then (t, Done)
      else
        var b := SaidBye(s, reason, now);
        (Replace(t, k, b).(active := t.active - One(s.Active() && !b.Active()), log := t.log + news + [ByeHeard(s.ssrc)]), Done)
  }

  function RtcpIn(t: Table, ssrc: u32, r: Report, now: RtpTime, from: Option<Address>): (Table, Verdict) {
    if r.Item? && !(CNAME <= r.id <= NOTE) then (t, IllegalSdesType)
    else
      var (u, k) := Obtain(t, ssrc);
      var created := !Has(t, ssrc);
      if !created && Collides(u.sources[k], from, false) then (u.(log := u.log + [Collision(ssrc, from, false)]), Done)
      else Apply(Replace(u, k, Bound(u.sources[k], from, false)), k, created, r, now, from)
  }

  // ---------------------------------------------------------------- timeouts

  /** What a timeout pass does to one entry. */
  datatype Fate = Keep(source: Source, said: seq<Notice>) | Drop(said: seq<Notice>)

  function Kept(ss: seq<Source>, pass: Source -> Fate): seq<Source> {
    if ss == [] then []
    else
      var f := pass(ss[|ss| - 1]);
      Kept(ss[..|ss| - 1], pass) + if f.Keep? then [f.source] else []
  }

  function Said(ss: seq<Source>, pass: Source -> Fate): seq<Notice> {
    if ss == [] then [] else Said(ss[..|ss| - 1], pass) + pass(ss[|ss| - 1]).said
  }

  /** Every pass counts afresh what it leaves in the table. */
  function Sweep(t: Table, pass: Source -> Fate): Table {
    var ss := Kept(t.sources, pass);
    t.(sources := ss, total := |ss|, senders := SenderCount(ss), active := ActiveCount(ss), log := t.log + Said(t.sources, pass))
  }

  function ByePass(own: Option<u32>, check: RtpTime): Source -> Fate {
    (s: Source) =>
      if s.receivedBye && own != Some(s.ssrc) && check > s.byeTime then Drop([ByeTimedOut(s.ssrc), IsRemoved(s.ssrc)])
      else Keep(s, [])
  }

  function GeneralPass(own: Option<u32>, check: RtpTime): Source -> Fate {
    (s: Source) =>
      if own != Some(s.ssrc) && s.stats.lastMsgTime < check then Drop([TimedOut(s.ssrc), IsRemoved(s.ssrc)])
      else Keep(s, [])
  }

  function SenderPass(check: RtpTime): Source -> Fate {
    (s: Source) => Keep(if s.sender && s.stats.lastRtpTime < check then s.(sender := false) else s, [])
  }

  predicate NoteOld(s: Source, check: RtpTime) {
    s.Item(NOTE) != [] && check > s.stats.lastNoteTime
  }

  function NotePass(check: RtpTime): Source -> Fate {
    (s: Source) => if NoteOld(s, check) then Keep(s.(sdes := s.sdes[NOTE := []]), [NoteTimedOut(s.ssrc)]) else Keep(s, [])
  }

  /** The order of the fused pass: the note first, the sender flag last, the note's callback only for what stays. */
  function FusedPass(own: Option<u32>, sender: RtpTime, bye: RtpTime, general: RtpTime, note: RtpTime): Source -> Fate {
    (s: Source) =>
      var n := if NoteOld(s, note) then s.(sdes := s.sdes[NOTE := []]) else s;
      if s.receivedBye && own != Some(s.ssrc) && bye > s.byeTime then Drop([ByeTimedOut(s.ssrc), IsRemoved(s.ssrc)])
      else if own != Some(s.ssrc) && s.stats.lastMsgTime < general then Drop([TimedOut(s.ssrc), IsRemoved(s.ssrc)])
      else Keep(if s.sender && s.stats.lastRtpTime < sender then n.(sender := false) else n,
                if NoteOld(s, note) then [NoteTimedOut(s.ssrc)] else [])
  }

  function ByeTimeout(t: Table, now: RtpTime, delay: RtpTime): Table {
    Sweep(t, ByePass(t.own, TimeMinus(now, delay)))
  }

  function Timeout(t: Table, now: RtpTime, delay: RtpTime): Table {
    Sweep(t, GeneralPass(t.own, TimeMinus(now, delay)))
  }

  function SenderTimeout(t: Table, now: RtpTime, delay: RtpTime): Table {
    Sweep(t, SenderPass(TimeMinus(now, delay)))
  }

  function NoteTimeout(t: Table, now: RtpTime, delay: RtpTime): Table {
    Sweep(t, NotePass(TimeMinus(now, delay)))
  }

  function MultipleTimeouts(t: Table, now: RtpTime, sender: RtpTime, bye: RtpTime, general: RtpTime, note: RtpTime): Table {
    Sweep(t, FusedPass(t.own, TimeMinus(now, sender), TimeMinus(now, bye), TimeMinus(now, general), TimeMinus(now, note)))
  }

  /** The next packet of an entry's queue is taken out; an entry that is not validated gives none. */
  function Take(t: Table, ssrc: u32): Table {
    var k := Find(t.sources, ssrc);
    if k == |t.sources| || !t.sources[k].validated || t.sources[k].queue == [] then t
    else Replace(t, k, t.sources[k].(queue := t.sources[k].queue[1..]))
  }
}
