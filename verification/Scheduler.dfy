/**
 The RTCP transmission timer of section 6.3 of RFC 3550. Times are whole microseconds; intervals are
 computed in seconds and cut down to microseconds. The clock, the random factor and the counts of the source
 table are inputs.
 */
module Scheduler {

  datatype Params = Params(bandwidth: real, senderFraction: real, minInterval: nat, useHalfAtStartup: bool, immediateBye: bool)

  /** What the setters of the parameters enforce. */
  predicate Configured(p: Params) {
    p.bandwidth >= 0.0 && 0.0 <= p.senderFraction <= 1.0 && p.minInterval >= 1_000_000
  }

  /** Parameters with which no interval is infinite. */
  predicate Usable(p: Params) {
    Configured(p) && p.bandwidth > 0.0 && 0.0 < p.senderFraction < 1.0
  }

  /** The numbers that the source table gives: senders, active members, and whether the own entry is a sender. */
  datatype Group = Group(senders: int, members: int, weSend: bool)

  datatype State = State(
    params: Params, headerOverhead: nat, avgPacketSize: nat, hasSentRtcp: bool, firstCall: bool,
    next: int, prev: int, pmembers: int, byeScheduled: bool, byeMembers: int, avgByeSize: nat, sendByeNow: bool)

  function Seconds(t: int): real {
    t as real / 1_000_000.0
  }

  /** A number of seconds, cut down to microseconds. */
  function Micros(x: real): int {
    (x * 1_000_000.0).Floor
  }

  function MaxReal(a: real, b: real): real {
    if a > b then a else b
  }

  function LeastInterval(p: Params, half: bool): real {
    if half then Seconds(p.minInterval) / 2.0 else Seconds(p.minInterval)
  }

  // ---------------------------------------------------------------- intervals

  lemma {:induction false} Positive(x: real, y: real)
    requires x >= 0.0 && y >= 0.0
    ensures x * y >= 0.0
    ensures x > 0.0 && y > 0.0 ==> x * y > 0.0
  {
  }

  function SenderShare(p: Params): (r: real)
    requires Configured(p)
    ensures r >= 0.0 && (Usable(p) ==> r > 0.0)
  {
    Positive(p.senderFraction, p.bandwidth);
    p.senderFraction * p.bandwidth
  }

  function ReceiverShare(p: Params): (r: real)
    requires Configured(p)
    ensures r >= 0.0 && (Usable(p) ==> r > 0.0)
  {
    var rest := 1.0 - p.senderFraction;
    Positive(rest, p.bandwidth);
    rest * p.bandwidth
  }

  /** Section 6.3.1 of RFC 3550: the bytes a second that the group shares, and how many share them. */
  function Share(p: Params, g: Group, sender: bool): (r: (real, int))
    requires Configured(p)
    ensures r.0 >= 0.0 && (Usable(p) ==> r.0 > 0.0)
  {
    var total := if g.members == 0 then 1 else g.members;
    if Ratio(g.senders, total) <= p.senderFraction then
      if sender then (SenderShare(p), g.senders) else (ReceiverShare(p), total - g.senders)
    else (p.bandwidth, total)
  }

  function Ratio(a: int, b: int): real
    requires b != 0
  {
    a as real / b as real
  }

  /** The seconds that n members need for a packet each. */
  function Load(n: int, size: nat, share: real): real
    requires share > 0.0
  {
    n as real * (size as real / share)
  }

  /** The deterministic interval before it is cut down; without a share of the bandwidth there is none. */
  function ExactInterval(s: State, g: Group, sender: bool): real
    requires Configured(s.params) && Share(s.params, g, sender).0 > 0.0
  {
    var (share, n) := Share(s.params, g, sender);
    MaxReal(LeastInterval(s.params, !s.hasSentRtcp && s.params.useHalfAtStartup), Load(n, s.avgPacketSize, share))
  }

  function DeterministicInterval(s: State, g: Group, sender: bool): int
    requires Usable(s.params)
  {
    Micros(ExactInterval(s, g, sender))
  }

  /** The random factor, and the compensation for reconsideration. */
  function Randomized(td: real, draw: real): int {
    Compensate(td, draw + 0.5)
  }

  function Compensate(td: real, mul: real): int {
    Micros(td * mul / 1.21828)
  }

  function TransmissionInterval(s: State, g: Group, draw: real): int
    requires Usable(s.params)
  {
    Randomized(Seconds(DeterministicInterval(s, g, g.weSend)), draw)
  }

  function ByeInterval(s: State, draw: real): int
    requires Usable(s.params)
  {
    if !s.byeScheduled || s.sendByeNow then 0
    else
      var needed := Load(s.byeMembers, s.avgByeSize, ReceiverShare(s.params));
      Randomized(MaxReal(LeastInterval(s.params, s.params.useHalfAtStartup), needed), draw)
  }

  // ---------------------------------------------------------------- steps

  function ScheduleNext(s: State, g: Group, now: int, draw: real): State
    requires Usable(s.params)
  {
    s.(next := now + TransmissionInterval(s, g, draw))
  }

  /** The first call starts the timer; the clock is read once for the start and once for the next time. */
  function Start(s: State, g: Group, now: int, later: int, draw: real): State
    requires Usable(s.params)
  {
    ScheduleNext(s.(firstCall := false, prev := now, pmembers := g.members), g, later, draw)
  }

  function Interval(s: State, g: Group, draw: real): int
    requires Usable(s.params)
  {
    if s.byeScheduled then ByeInterval(s, draw) else TransmissionInterval(s, g, draw)
  }

  /** Section 6.3.6 of RFC 3550: when the timer expires, the interval is reconsidered. */
  function Expire(s: State, g: Group, now: int, later: int, draw: real, draw2: real): (State, bool)
    requires Usable(s.params)
  {
    if s.firstCall then (Start(s, g, now, later, draw), false)
    else if now < s.next then (s, false)
    else
      var check := s.prev + Interval(s, g, draw);
      if check <= now then
        (ScheduleNext(s.(byeScheduled := false, prev := now, pmembers := g.members), g, later, draw2), true)
      else (s.(next := check, pmembers := g.members), false)
  }

  function Delay(s: State, g: Group, now: int, later: int, latest: int, draw: real): (State, int)
    requires Usable(s.params)
  {
    var t := if s.firstCall then Start(s, g, now, later, draw) else s;
    (t, if latest > t.next then 0 else t.next - latest)
  }

  function AtLeastZero(t: int): int {
    if t > 0 then t else 0
  }

  /** Section 6.3.4 of RFC 3550: the times move closer to now as the group shrinks. */
  function MembersLeft(s: State, members: int, now: int): State {
    if s.firstCall || members >= s.pmembers then s
    else
      var p := if s.pmembers == 0 then 1 else s.pmembers;
      s.(next := now + Portion(members, p, AtLeastZero(s.next - now)),
         prev := now - Portion(members, p, AtLeastZero(now - s.prev)),
         pmembers := members)
  }

  /** The part a / b of a time. */
  function Portion(a: int, b: int, t: int): int
    requires b != 0
  {
    Micros(Ratio(a, b) * Seconds(t))
  }

  /** Section 6.3.7 of RFC 3550: a BYE waits for its own back-off, unless it may go at once. */
  function ScheduleBye(s: State, g: Group, size: nat, now: int, draw: real): State
    requires Usable(s.params)
  {
    if s.byeScheduled then s
    else
      var t := s.(firstCall := false, pmembers := if s.firstCall then g.members else s.pmembers, byeScheduled := true,
                  avgByeSize := size + s.headerOverhead, byeMembers := 1,
                  sendByeNow := s.params.immediateBye && g.members < 50, prev := now);
      t.(next := now + ByeInterval(t, draw))
  }

  function Averaged(average: nat, size: nat): nat {
    (size + 15 * average) / 16
  }

  function Incoming(s: State, isBye: bool, size: nat): State {
    if !isBye then s.(avgPacketSize := Averaged(s.avgPacketSize, size + s.headerOverhead))
    else if s.byeScheduled then
      s.(avgByeSize := Averaged(s.avgByeSize, size + s.headerOverhead), byeMembers := s.byeMembers + 1)
    else s
  }

  function Outgoing(s: State, isBye: bool, size: nat): State {
    s.(hasSentRtcp := true,
       avgPacketSize := if isBye then s.avgPacketSize else Averaged(s.avgPacketSize, size + s.headerOverhead))
  }

  function Reset(s: State): State {
    s.(headerOverhead := 0, hasSentRtcp := false, firstCall := true, avgPacketSize := 1000, byeScheduled := false, sendByeNow := false)
  }
}
