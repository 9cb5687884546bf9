/** The timer as an object: it keeps the times, and is told what the source table counts. */
module RtcpTimer {
  import opened Scheduler
  import opened SchedulerRuns
  import opened SchedulerIntervals

  class RtcpScheduler {
    var params: Params
    var headerOverhead: nat
    var avgPacketSize: nat
    var hasSentRtcp: bool
    var firstCall: bool
    var next: int
    var prev: int
    var pmembers: int
    var byeScheduled: bool
    var byeMembers: int
    var avgByeSize: nat
    var sendByeNow: bool

    ghost function Model(): State
      reads this
    {
      State(params, headerOverhead, avgPacketSize, hasSentRtcp, firstCall, next, prev, pmembers, byeScheduled, byeMembers, avgByeSize, sendByeNow)
    }

    lemma ParamsOf()
      ensures Model().params == params
    {
    }

    /** The minimum interval, in whole microseconds. */
    ghost function Shortest(): int
      reads this
    {
      Micros(LeastInterval(params, !hasSentRtcp && params.useHalfAtStartup))
    }

    constructor (p: Params)
      ensures params == p && prev == 0 && next == 0 && firstCall && !byeScheduled && !sendByeNow && !hasSentRtcp
      ensures avgPacketSize == 1000 && headerOverhead == 0
    {
      params, headerOverhead, avgPacketSize, hasSentRtcp, firstCall := p, 0, 1000, false, true;
      next, prev, pmembers, byeScheduled, byeMembers, avgByeSize, sendByeNow := 0, 0, 0, false, 0, 0, false;
    }

    /** The least number of microseconds at which the members keep to their share of the bandwidth. */
    method CalculateDeterministicInterval(g: Group, sender: bool) returns (t: int)
      requires Usable(params)
      ensures t == DeterministicInterval(Model(), g, sender)
      ensures var (share, n) := Share(params, g, sender);
              && Rate(n, avgPacketSize, Seconds(t + 1)) <= share
              && (t > Shortest() ==> Rate(n, avgPacketSize, Seconds(t)) >= share)
      ensures 0 < Shortest() <= t
    {
      DeterministicIsLeast(Model(), g, sender);
      hide Load, Ratio, SenderShare, ReceiverShare, Micros, Seconds;
      var numTotal := g.members;
      if numTotal == 0 {
        numTotal := numTotal + 1;
      }
      var sfraction := Ratio(g.senders, numTotal);
      var ntimesC: real;
      if sfraction <= params.senderFraction {
        if sender {
          ntimesC := Load(g.senders, avgPacketSize, SenderShare(params));
        } else {
          ntimesC := Load(numTotal - g.senders, avgPacketSize, ReceiverShare(params));
        }
      } else {
        ntimesC := Load(numTotal, avgPacketSize, params.bandwidth);
      }
      var tmin := Seconds(params.minInterval);
      if !hasSentRtcp && params.useHalfAtStartup {
        tmin := tmin / 2.0;
      }
      t := Micros(if tmin > ntimesC then tmin else ntimesC);
    }

    method CalculateTransmissionInterval(g: Group, draw: real) returns (t: int)
      requires Usable(params)
      ensures t == TransmissionInterval(Model(), g, draw)
    {
      hide DeterministicInterval, Randomized;
      var td := CalculateDeterministicInterval(g, g.weSend);
      t := Randomized(Seconds(td), draw);
    }

    method CalculateBYETransmissionInterval(draw: real) returns (t: int)
      requires Usable(params)
      ensures t == ByeInterval(Model(), draw)
    {
      hide Load, ReceiverShare, Randomized, Seconds;
      if !byeScheduled || sendByeNow {
        return 0;
      }
      var ntimesC := Load(byeMembers, avgByeSize, ReceiverShare(params));
      var tmin := Seconds(params.minInterval);
      if params.useHalfAtStartup {
        tmin := tmin / 2.0;
      }
      t := Randomized(if tmin > ntimesC then tmin else ntimesC, draw);
    }

    method CalculateNextRTCPTime(g: Group, now: int, draw: real)
      requires Usable(params)
      modifies `next
      ensures Model() == ScheduleNext(old(Model()), g, now, draw)
    {
      hide TransmissionInterval;
      var t := CalculateTransmissionInterval(g, draw);
      next := now + t;
    }

    /**
     It is time exactly if both the scheduled time and the reconsidered one have come. Then this moment becomes
     the time of the last packet, a scheduled BYE is over, and the next packet keeps its distance; otherwise
     the timer does not fire before the next time.
     */
    method IsTime(g: Group, now: int, later: int, draw: real, draw2: real) returns (r: bool)
      requires Usable(params) && now <= later && 0.0 <= draw <= 1.0 && 0.0 <= draw2 <= 1.0
      modifies this
      ensures (Model(), r) == Expire(old(Model()), g, now, later, draw, draw2)
      // the wait that is reconsidered, and the one that follows, in numbers
      ensures exists c: int :: old(Waits(Model(), g, draw, c)) && Reconsidered(old(Model()), Model(), now, c, r)
      ensures r ==> Paced(Model(), g, draw2, next - later)
      ensures old(firstCall) ==> Paced(Model(), g, draw, next - later)
      ensures r <==> !old(firstCall) && old(next) <= now && old(prev + Interval(Model(), g, draw)) <= now
      ensures r ==> prev == now && pmembers == g.members && !byeScheduled && next >= later + Spacing(params, HalvedNow(Model()))
      ensures r && !old(byeScheduled && sendByeNow) ==> now - old(prev) >= old(Spacing(params, HalvedNow(Model())))
      ensures !r && !old(firstCall) ==> now < next && prev == old(prev) && byeScheduled == old(byeScheduled)
      ensures old(firstCall) ==> !firstCall && prev == now
    {
      hide TransmissionInterval, ByeInterval, Spacing, HalvedNow, Paced, ByePaced;
      ExpireSpaced(Model(), g, now, later, draw, draw2);
      ExpireWaits(Model(), g, now, later, draw, draw2);
      if firstCall {
        firstCall := false;
        prev := now;
        pmembers := g.members;
        CalculateNextRTCPTime(g, later, draw);
        return false;
      }
      if now < next {
        return false;
      }
      var checktime: int;
      if !byeScheduled {
        checktime := CalculateTransmissionInterval(g, draw);
      } else {
        checktime := CalculateBYETransmissionInterval(draw);
      }
      checktime := checktime + prev;
      if checktime <= now {
        byeScheduled := false;
        prev := now;
        pmembers := g.members;
        CalculateNextRTCPTime(g, later, draw2);
        return true;
      }
      next := checktime;
      pmembers := g.members;
      return false;
    }

    method GetTransmissionDelay(g: Group, now: int, later: int, latest: int, draw: real) returns (d: int)
      requires Usable(params)
      modifies this
      ensures (Model(), d) == Delay(old(Model()), g, now, later, latest, draw)
    {
      hide TransmissionInterval;
      if firstCall {
        firstCall := false;
        prev := now;
        pmembers := g.members;
        CalculateNextRTCPTime(g, later, draw);
      }
      if latest > next {
        return 0;
      }
      d := next - latest;
    }

    method ActiveMemberDecrease(members: int, now: int)
      modifies this
      ensures Model() == MembersLeft(old(Model()), members, now)
    {
      if members < pmembers {
        PerformReverseReconsideration(members, now);
      }
    }

    /** The times move closer to now; with negative counts they do so only as far as Gentle says. */
    method PerformReverseReconsideration(members: int, now: int)
      requires members < pmembers
      modifies this
      ensures Model() == MembersLeft(old(Model()), members, now)
      ensures old(prev) <= now && members >= 0 ==> old(prev) <= prev <= now && (next <= old(next) || next <= now)
      ensures old(prev) <= now ==> (old(prev) <= prev <==> old(Gentle(Model(), members, now - prev)))
    {
      hide Portion;
      ReverseReconsideration(Model(), members, now);
      if firstCall {
        return;
      }
      var tnMinTc := next;
      if tnMinTc > now {
        tnMinTc := tnMinTc - now;
      } else {
        tnMinTc := 0;
      }
      var tcMinTp := now;
      if tcMinTp > prev {
        tcMinTp := tcMinTp - prev;
      } else {
        tcMinTp := 0;
      }
      if pmembers == 0 {
        pmembers := pmembers + 1;
      }
      next := now + Portion(members, pmembers, tnMinTc);
      prev := now - Portion(members, pmembers, tcMinTp);
      pmembers := members;
    }

    /** The back-off starts now; only in a small group that asks for it may the BYE go at once. */
    method ScheduleBYEPacket(g: Group, size: nat, now: int, draw: real)
      requires Usable(params) && 0.0 <= draw <= 1.0
      modifies this
      ensures Model() == ScheduleBye(old(Model()), g, size, now, draw)
      ensures byeScheduled && (old(byeScheduled) ==> Model() == old(Model()))
      ensures !old(byeScheduled) ==>
                && prev == now && !firstCall && byeMembers == 1 && (sendByeNow <==> params.immediateBye && g.members < 50)
                && (if sendByeNow then next == now else next >= now + Spacing(params, params.useHalfAtStartup))
                && Waits(Model(), g, draw, next - now) && avgByeSize == size + headerOverhead
    {
      hide ByeInterval, Spacing, ByePaced, Paced;
      ByeSpaced(Model(), g, size, now, draw);
      ByeWaits(Model(), g, size, now, draw);
      if byeScheduled {
        return;
      }
      if firstCall {
        firstCall := false;
        pmembers := g.members;
      }
      byeScheduled := true;
      avgByeSize := size + headerOverhead;
      byeMembers := 1;
      if params.immediateBye && g.members < 50 {
        sendByeNow := true;
      } else {
        sendByeNow := false;
      }
      prev := now;
      next := prev;
      var t := CalculateBYETransmissionInterval(draw);
      ByeIgnoresNext(Model(), old(next), draw);
      next := next + t;
    }

    method AnalyseIncoming(isBye: bool, size: nat)
      modifies this
      ensures Model() == Incoming(old(Model()), isBye, size)
      ensures !isBye ==> Averages(old(avgPacketSize), size + headerOverhead, avgPacketSize) && byeMembers == old(byeMembers)
      ensures isBye && byeScheduled ==> Averages(old(avgByeSize), size + headerOverhead, avgByeSize) && byeMembers == old(byeMembers) + 1
      ensures isBye ==> avgPacketSize == old(avgPacketSize)
    {
      if !isBye {
        avgPacketSize := (size + headerOverhead + 15 * avgPacketSize) / 16;
      } else if byeScheduled {
        avgByeSize := (size + headerOverhead + 15 * avgByeSize) / 16;
        byeMembers := byeMembers + 1;
      }
    }

    method AnalyseOutgoing(isBye: bool, size: nat)
      modifies this
      ensures Model() == Outgoing(old(Model()), isBye, size)
      ensures hasSentRtcp && if isBye then avgPacketSize == old(avgPacketSize) else Averages(old(avgPacketSize), size + headerOverhead, avgPacketSize)
    {
      if !isBye {
        avgPacketSize := (size + headerOverhead + 15 * avgPacketSize) / 16;
      }
      hasSentRtcp := true;
    }
  }

  /** The average goes a sixteenth of the way to the new size, cut down. */
  predicate Averages(before: nat, size: nat, after: nat) {
    16 * after <= 16 * before + (size - before) < 16 * after + 16
  }

  lemma {:induction false} ByeWaits(s: State, g: Group, size: nat, now: int, draw: real)
    requires Usable(s.params)
    ensures var t := ScheduleBye(s, g, size, now, draw); !s.byeScheduled ==> Waits(t, g, draw, t.next - now)
  {
    hide ByeInterval, Paced, ByePacedBy;
    if !s.byeScheduled {
      var t := s.(firstCall := false, pmembers := if s.firstCall then g.members else s.pmembers, byeScheduled := true,
                  avgByeSize := size + s.headerOverhead, byeMembers := 1,
                  sendByeNow := s.params.immediateBye && g.members < 50, prev := now);
      IntervalExact(t, g, draw);
      SameByePace(t, ScheduleBye(s, g, size, now, draw), draw, ByeInterval(t, draw));
    }
  }

  lemma {:induction false} SameByePace(s: State, t: State, draw: real, c: int)
    requires t == s.(next := t.next)
    ensures ByePaced(s, draw, c) ==> ByePaced(t, draw, c)
  {
    hide ByeLeast, Spread, ByeShare, ByeMinimum;
    if ByePaced(s, draw, c) {
      var x :| ByePacedBy(s, draw, c, x);
      assert ByePacedBy(t, draw, c, x);
    }
  }

  /** Once the timer has been started and its time has come, it fires exactly if the wait c from the last packet is over. */
  predicate Reconsidered(s: State, t: State, now: int, c: int, fires: bool) {
    && (fires <==> !s.firstCall && s.next <= now && s.prev + c <= now)
    && (!s.firstCall && s.next <= now && !fires ==> t.next == s.prev + c)
  }

  lemma {:induction false} ExpireWaits(s: State, g: Group, now: int, later: int, draw: real, draw2: real)
    requires Usable(s.params)
    ensures var (t, r) := Expire(s, g, now, later, draw, draw2);
            && Waits(s, g, draw, Interval(s, g, draw)) && Reconsidered(s, t, now, Interval(s, g, draw), r)
            && (r ==> Paced(t, g, draw2, t.next - later))
            && (s.firstCall ==> Paced(t, g, draw, t.next - later))
  {
    hide TransmissionInterval, ByeInterval, PacedBy;
    IntervalExact(s, g, draw);
    var (t, r) := Expire(s, g, now, later, draw, draw2);
    if r {
      var u := s.(byeScheduled := false, prev := now, pmembers := g.members);
      ReportPaced(u, g, draw2);
      SamePace(u, t, g, draw2, t.next - later);
    }
    if s.firstCall {
      var u := s.(firstCall := false, prev := now, pmembers := g.members);
      ReportPaced(u, g, draw);
      SamePace(u, t, g, draw, t.next - later);
    }
  }

  lemma {:induction false} SamePace(s: State, t: State, g: Group, draw: real, c: int)
    requires t == s.(next := t.next) && Paced(s, g, draw, c)
    ensures Paced(t, g, draw, c)
  {
    hide Least, Part, Spread;
    var d :| PacedBy(s, g, draw, c, d);
    assert PacedBy(t, g, draw, c, d);
  }

  lemma {:induction false} ByeIgnoresNext(s: State, next: int, draw: real)
    requires Usable(s.params)
    ensures ByeInterval(s.(next := next), draw) == ByeInterval(s, draw)
  {
    hide Load, Randomized, LeastInterval, MaxReal, ReceiverShare;
  }

  /** Both ways in which the timer can answer. */
  lemma {:induction false} ExpireSpaced(s: State, g: Group, now: int, later: int, draw: real, draw2: real)
    requires Usable(s.params) && now <= later && 0.0 <= draw <= 1.0 && 0.0 <= draw2 <= 1.0
    ensures var (t, r) := Expire(s, g, now, later, draw, draw2);
            && (r ==> t.next >= later + Spacing(t.params, HalvedNow(t)))
            && (r && !(s.byeScheduled && s.sendByeNow) ==> now - s.prev >= Spacing(s.params, HalvedNow(s)))
  {
    hide TransmissionInterval, ByeInterval, Spacing, HalvedNow, Interval;
    var (t, r) := Expire(s, g, now, later, draw, draw2);
    if r {
      var u := s.(byeScheduled := false, prev := now, pmembers := g.members);
      ScheduledLater(u, g, later, draw2);
      SameHalving(u, t);
      if !(s.byeScheduled && s.sendByeNow) {
        IntervalAtLeast(s, g, draw);
      }
    }
  }

  lemma {:induction false} SameHalving(s: State, t: State)
    requires t == s.(next := t.next)
    ensures HalvedNow(s) == HalvedNow(t)
  {
  }

  lemma {:induction false} ByeSpaced(s: State, g: Group, size: nat, now: int, draw: real)
    requires Usable(s.params) && 0.0 <= draw <= 1.0
    ensures var t := ScheduleBye(s, g, size, now, draw);
            !s.byeScheduled ==> if t.sendByeNow then t.next == now else t.next >= now + Spacing(s.params, s.params.useHalfAtStartup)
  {
    hide Spacing, TransmissionInterval, Load, Randomized;
    if !s.byeScheduled {
      var t := s.(firstCall := false, pmembers := if s.firstCall then g.members else s.pmembers, byeScheduled := true,
                  avgByeSize := size + s.headerOverhead, byeMembers := 1,
                  sendByeNow := s.params.immediateBye && g.members < 50, prev := now);
      if !t.sendByeNow {
        IntervalAtLeast(t, g, draw);
      }
    }
  }
}
