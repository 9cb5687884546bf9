/**
 How long the timer waits: section 6.3.1 of RFC 3550 in numbers, with the code's truncations, and the bandwidth
 that the waits leave to the group.
 */
module SchedulerIntervals {
  import opened Scheduler
  import opened SchedulerRuns

  /** There are more senders than their part of the bandwidth is meant for, so that all members share all of it. */
  predicate Crowded(p: Params, g: Group) {
    g.senders as real / (if g.members == 0 then 1 else g.members) as real > p.senderFraction
  }

  /** The bytes a second that the group of a member shares, and how many share them. */
  function Part(p: Params, g: Group): (real, int) {
    var total := if g.members == 0 then 1 else g.members;
    if Crowded(p, g) then (p.bandwidth, total)
    else if g.weSend then (Product(p.senderFraction, p.bandwidth), g.senders)
    else (Product(1.0 - p.senderFraction, p.bandwidth), total - g.senders)
  }

  function Product(x: real, y: real): real {
    x * y
  }

  /**
   d is the least whole number of microseconds, not below the minimum, at which n members with packets of this
   size keep to their share: one more is enough, and above the minimum d itself is not too much.
   */
  predicate Least(minimum: int, n: int, size: nat, share: real, d: int) {
    && d >= minimum > 0
    && n as real * size as real <= share * ((d + 1) as real / 1_000_000.0)
    && (d > minimum ==> n as real * size as real >= share * (d as real / 1_000_000.0))
  }

  /** t is the time d, times a random factor between a half and three halves, over 1.21828, cut down. */
  predicate Spread(d: real, draw: real, t: int) {
    t as real * 1.21828 <= d * (draw + 0.5) < (t + 1) as real * 1.21828
  }

  /** The minimum, which is halved as long as no report was sent, if that is asked for. */
  function Minimum(s: State): int {
    if s.params.useHalfAtStartup && !s.hasSentRtcp then s.params.minInterval / 2 else s.params.minInterval
  }

  predicate PacedBy(s: State, g: Group, draw: real, t: int, d: int) {
    var (share, n) := Part(s.params, g);
    Least(Minimum(s), n, s.avgPacketSize, share, d) && Spread(d as real, draw, t)
  }

  /** t is what a member waits between two reports. */
  ghost predicate Paced(s: State, g: Group, draw: real, t: int) {
    exists d: int :: PacedBy(s, g, draw, t, d)
  }

  /** x microseconds are needed by n members with BYE packets of this size, and no less than the minimum. */
  predicate ByeLeast(minimum: real, n: int, size: nat, share: real, x: real) {
    && x >= minimum && n as real * size as real <= share * (x / 1_000_000.0)
    && (x > minimum ==> n as real * size as real == share * (x / 1_000_000.0))
  }

  /** The minimum before a BYE, which is always halved, if that is asked for. */
  function ByeMinimum(p: Params): real {
    p.minInterval as real / if p.useHalfAtStartup then 2.0 else 1.0
  }

  /** A BYE takes from what receivers share. */
  function ByeShare(p: Params): real {
    (1.0 - p.senderFraction) * p.bandwidth
  }

  predicate ByePacedBy(s: State, draw: real, t: int, x: real) {
    ByeLeast(ByeMinimum(s.params), s.byeMembers, s.avgByeSize, ByeShare(s.params), x) && Spread(x, draw, t)
  }

  /** t is what a member waits before it says goodbye, among those that do. */
  ghost predicate ByePaced(s: State, draw: real, t: int) {
    exists x: real :: ByePacedBy(s, draw, t, x)
  }

  ghost predicate Waits(s: State, g: Group, draw: real, t: int) {
    if !s.byeScheduled then Paced(s, g, draw, t) else if s.sendByeNow then t == 0 else ByePaced(s, draw, t)
  }

  // ---------------------------------------------------------------- the code waits so

  lemma {:induction false} SpreadExact(x: real, draw: real)
    ensures Spread(x * 1_000_000.0, draw, Randomized(x, draw))
  {
    var y := x * (draw + 0.5) / 1.21828 * 1_000_000.0;
    assert y * 1.21828 == x * 1_000_000.0 * (draw + 0.5);
  }

  lemma {:induction false} CrowdedExact(p: Params, g: Group)
    ensures Crowded(p, g) <==> Ratio(g.senders, if g.members == 0 then 1 else g.members) > p.senderFraction
  {
  }

  lemma {:induction false} SharesExact(p: Params)
    requires Configured(p)
    ensures SenderShare(p) == Product(p.senderFraction, p.bandwidth) && ReceiverShare(p) == Product(1.0 - p.senderFraction, p.bandwidth)
  {
  }

  lemma {:induction false} PartExact(p: Params, g: Group)
    requires Configured(p)
    ensures Part(p, g) == Share(p, g, g.weSend)
  {
    hide Crowded, Ratio, SenderShare, ReceiverShare, Product;
    CrowdedExact(p, g);
    SharesExact(p);
  }

  lemma {:induction false} MinimumExact(p: Params, half: bool)
    requires Configured(p)
    ensures Micros(LeastInterval(p, half)) == (if half then p.minInterval / 2 else p.minInterval) > 0
  {
    assert Seconds(p.minInterval) * 1_000_000.0 == p.minInterval as real;
    if half {
      var k := p.minInterval / 2;
      assert k as real <= p.minInterval as real / 2.0 < (k + 1) as real;
      assert Seconds(p.minInterval) / 2.0 * 1_000_000.0 == p.minInterval as real / 2.0;
    }
  }

  lemma {:induction false} RateTimes(n: int, size: nat, share: real, td: real)
    requires td > 0.0
    ensures Rate(n, size, td) <= share <==> n as real * size as real <= share * td
    ensures Rate(n, size, td) >= share <==> n as real * size as real >= share * td
  {
    var x := n as real * size as real;
    assert x / td * td == x;
    if x / td <= share { Scaled(x / td, share, td); }
    if x / td >= share { Scaled(share, x / td, td); }
    if x <= share * td { DivideLess(x, share * td, td); DivideBack(td, share); }
    if x >= share * td { DivideLess(share * td, x, td); DivideBack(td, share); }
  }

  lemma {:induction false} DeterministicExact(s: State, g: Group)
    requires Usable(s.params)
    ensures var (share, n) := Part(s.params, g);
            Least(Minimum(s), n, s.avgPacketSize, share, DeterministicInterval(s, g, g.weSend))
  {
    hide Rate, Share, Part, LeastInterval, DeterministicInterval;
    PartExact(s.params, g);
    MinimumExact(s.params, !s.hasSentRtcp && s.params.useHalfAtStartup);
    DeterministicIsLeast(s, g, g.weSend);
    var (share, n) := Part(s.params, g);
    var t := DeterministicInterval(s, g, g.weSend);
    RateTimes(n, s.avgPacketSize, share, Seconds(t + 1));
    RateTimes(n, s.avgPacketSize, share, Seconds(t));
  }

  lemma {:induction false} ByeExact(s: State, draw: real)
    requires Usable(s.params) && s.byeScheduled && !s.sendByeNow
    ensures ByePaced(s, draw, ByeInterval(s, draw))
  {
    hide Randomized, Load;
    var share := ReceiverShare(s.params);
    var least, needed := LeastInterval(s.params, s.params.useHalfAtStartup), Load(s.byeMembers, s.avgByeSize, share);
    var x := MaxReal(least, needed);
    var micros := x * 1_000_000.0;
    assert ByeInterval(s, draw) == Randomized(x, draw);
    SpreadExact(x, draw);
    LoadTimesShare(s.byeMembers, s.avgByeSize, share);
    Scaled(needed, x, share);
    assert micros / 1_000_000.0 == x;
    ByeMinimumExact(s.params);
    AtLeast(least, x);
    assert ByePacedBy(s, draw, ByeInterval(s, draw), micros);
  }

  lemma {:induction false} ByeMinimumExact(p: Params)
    ensures ByeMinimum(p) == LeastInterval(p, p.useHalfAtStartup) * 1_000_000.0
  {
  }

  lemma {:induction false} AtLeast(a: real, b: real)
    requires a <= b
    ensures a * 1_000_000.0 <= b * 1_000_000.0
    ensures b * 1_000_000.0 > a * 1_000_000.0 ==> b > a
  {
  }

  lemma {:induction false} ReportPaced(s: State, g: Group, draw: real)
    requires Usable(s.params)
    ensures Paced(s, g, draw, TransmissionInterval(s, g, draw))
  {
    hide Least, Part, DeterministicInterval, Randomized;
    DeterministicExact(s, g);
    var d := DeterministicInterval(s, g, g.weSend);
    SpreadExact(Seconds(d), draw);
    assert Seconds(d) * 1_000_000.0 == d as real;
    assert PacedBy(s, g, draw, TransmissionInterval(s, g, draw), d);
  }

  /** What the timer waits, for a report or for a BYE, in numbers. */
  lemma {:induction false} IntervalExact(s: State, g: Group, draw: real)
    requires Usable(s.params)
    ensures Waits(s, g, draw, Interval(s, g, draw))
  {
    hide Paced, ByePaced, ByeInterval, TransmissionInterval;
    if !s.byeScheduled {
      ReportPaced(s, g, draw);
    } else if !s.sendByeNow {
      ByeExact(s, draw);
    } else {
      ByeAtOnce(s, draw);
    }
  }

  lemma {:induction false} ByeAtOnce(s: State, draw: real)
    requires Usable(s.params) && s.sendByeNow
    ensures ByeInterval(s, draw) == 0
  {
  }

  // ---------------------------------------------------------------- the bandwidth that the waits leave

  /** The most seconds that the time before the random factor and the compensation can have had, to the microsecond. */
  function Stands(t: int, draw: real): real
    requires 0.0 <= draw
  {
    ((t + 1) as real * 1.21828 / (draw + 0.5) + 1.0) / 1_000_000.0
  }

  lemma {:induction false} StandsLonger(d: int, t: int, draw: real)
    requires 0.0 <= draw && 0 <= d && Spread(d as real, draw, t)
    ensures (d + 1) as real / 1_000_000.0 <= Stands(t, draw) && Stands(t, draw) > 0.0
  {
    var k := draw + 0.5;
    DivideLess(d as real * k, (t + 1) as real * 1.21828, k);
    assert d as real * k / k == d as real;
  }

  /** Members who wait so send no more than their part of the bandwidth. */
  lemma {:induction false} PartKept(s: State, g: Group, draw: real, t: int, n: int)
    requires Usable(s.params) && 0.0 <= draw && Paced(s, g, draw, t) && n <= Part(s.params, g).1
    ensures Stands(t, draw) > 0.0 && Rate(n, s.avgPacketSize, Stands(t, draw)) <= Part(s.params, g).0
  {
    hide Part, Rate, Stands, Minimum, Spread;
    var (share, m) := Part(s.params, g);
    var d :| PacedBy(s, g, draw, t, d);
    StandsLonger(d, t, draw);
    PartPositive(s.params, g);
    KeptLonger(n, m, s.avgPacketSize, share, (d + 1) as real / 1_000_000.0, Stands(t, draw));
  }

  lemma {:induction false} KeptLonger(n: int, m: int, size: nat, share: real, x: real, td: real)
    requires n <= m && share > 0.0 && x <= td && td > 0.0 && m as real * size as real <= share * x
    ensures Rate(n, size, td) <= share
  {
    hide Rate;
    GrowingProduct(n, m, size);
    Growing(share, x, td);
    RateTimes(n, size, share, td);
  }

  lemma {:induction false} PartPositive(p: Params, g: Group)
    requires Usable(p)
    ensures Part(p, g).0 > 0.0
  {
    PartExact(p, g);
  }

  lemma {:induction false} ProRata(n: int, m: int, size: nat, share: real, td: real)
    requires 0 <= n && 0 < m && td > 0.0 && Rate(m, size, td) <= share
    ensures Rate(n, size, td) <= n as real * (share / m as real)
  {
    var one, each := Rate(1, size, td), share / m as real;
    TimesOne(n, size, td);
    TimesOne(m, size, td);
    assert each * m as real == share;
    NotAbove(one, each, m as real);
    Growing(n as real, one, each);
  }

  lemma {:induction false} NotAbove(a: real, b: real, m: real)
    requires m > 0.0 && a * m <= b * m
    ensures a <= b
  {
  }

  lemma {:induction false} TimesOne(n: int, size: nat, td: real)
    requires td > 0.0
    ensures Rate(n, size, td) == n as real * Rate(1, size, td) == Rate(1, size, td) * n as real
  {
    var x := 1 as real * size as real / td;
    assert x * td == size as real;
    assert n as real * x * td == n as real * (x * td);
    DivideBack(td, n as real * x);
  }

  /**
   The law of section 6.3.1 of RFC 3550 for the times that are really waited, compensation and random factor taken
   off: senders and receivers together stay within the bandwidth for control traffic.
   */
  lemma {:induction false} BandwidthKept(s: State, g: Group, draw: real, other: real, t: int, u: int)
    requires Usable(s.params) && 0.0 <= draw && 0.0 <= other && 0 <= g.senders
    requires Paced(s, g.(weSend := true), draw, t) && Paced(s, g.(weSend := false), other, u)
    requires Crowded(s.params, g) && g.senders > g.members ==> draw == other && t == u
    ensures Stands(t, draw) > 0.0 && Stands(u, other) > 0.0
    ensures Rate(g.senders, s.avgPacketSize, Stands(t, draw)) + Rate(g.members - g.senders, s.avgPacketSize, Stands(u, other))
            <= s.params.bandwidth
  {
    hide Paced, Rate, Stands;
    var ours, theirs := g.(weSend := true), g.(weSend := false);
    var total := if g.members == 0 then 1 else g.members;
    if Crowded(s.params, g) {
      PartKept(s, ours, draw, t, total);
      PartKept(s, theirs, other, u, total);
      if t == u && draw == other {
        RatesAddUp(g.senders, g.members - g.senders, s.avgPacketSize, Stands(t, draw));
        RateGrows(g.members, total, s.avgPacketSize, Stands(t, draw));
      } else {
        ProRata(g.senders, total, s.avgPacketSize, s.params.bandwidth, Stands(t, draw));
        ProRata(g.members - g.senders, total, s.avgPacketSize, s.params.bandwidth, Stands(u, other));
        var each := s.params.bandwidth / total as real;
        assert g.senders as real * each + (g.members - g.senders) as real * each == g.members as real * each == s.params.bandwidth;
      }
    } else {
      PartKept(s, ours, draw, t, g.senders);
      PartKept(s, theirs, other, u, g.members - g.senders);
      SharesAddUp(s.params);
    }
  }

  /** The code's own waits keep the law, for all counts and a common random number. */
  lemma {:induction false} WaitsKeepBandwidth(s: State, g: Group, draw: real)
    requires Usable(s.params) && 0.0 <= draw && 0 <= g.senders && !s.byeScheduled
    ensures var t, u := Interval(s, g.(weSend := true), draw), Interval(s, g.(weSend := false), draw);
            && Stands(t, draw) > 0.0 && Stands(u, draw) > 0.0
            && Rate(g.senders, s.avgPacketSize, Stands(t, draw)) + Rate(g.members - g.senders, s.avgPacketSize, Stands(u, draw))
               <= s.params.bandwidth
  {
    hide Paced, Rate, Stands, Randomized, Load;
    var ours, theirs := g.(weSend := true), g.(weSend := false);
    IntervalExact(s, ours, draw);
    IntervalExact(s, theirs, draw);
    SameForAll(s, g, draw);
    BandwidthKept(s, g, draw, draw, Interval(s, ours, draw), Interval(s, theirs, draw));
  }

  lemma {:induction false} SameForAll(s: State, g: Group, draw: real)
    requires Usable(s.params) && !s.byeScheduled
    ensures Crowded(s.params, g) ==> Interval(s, g.(weSend := true), draw) == Interval(s, g.(weSend := false), draw)
  {
    hide Randomized, Load;
  }

  // ---------------------------------------------------------------- how much of the time is left

  /** x is the part a / b of a time t, cut down. */
  predicate PartOfTime(a: int, b: int, t: int, x: int) {
    if b > 0 then b * x <= a * t < b * (x + 1) else b * (x + 1) < a * t <= b * x
  }

  function Multiple(a: int, b: int): int {
    a * b
  }

  lemma {:induction false} MultipleAsReal(a: int, b: int)
    ensures Multiple(a, b) as real == Product(a as real, b as real)
  {
    ProductAsReal(a, b);
  }

  lemma {:induction false} PortionTimes(a: int, b: int, t: int)
    requires b != 0
    ensures exists y: real :: Portion(a, b, t) == y.Floor && Product(y, b as real) == Product(a as real, t as real)
  {
    PortionIs(a, b, t);
    TimesDivisor(a, b, t);
    assert Product(Ratio(a, b) * t as real, b as real) == Product(a as real, t as real);
  }

  lemma {:induction false} PortionExact(a: int, b: int, t: int)
    requires b != 0
    ensures PartOfTime(a, b, t, Portion(a, b, t))
  {
    hide Portion, Product, Multiple, PartOfTime;
    PortionTimes(a, b, t);
    var x := Portion(a, b, t);
    var y: real :| x == y.Floor && Product(y, b as real) == Product(a as real, t as real);
    FloorTimes(y, x, b);
    MultipleAsReal(a, t);
    MultipleAsReal(b, x);
    MultipleAsReal(b, x + 1);
    PartInInts(a, b, t, x);
  }

  lemma {:induction false} PartInInts(a: int, b: int, t: int, x: int)
    requires b > 0 ==> Multiple(b, x) <= Multiple(a, t) < Multiple(b, x + 1)
    requires b < 0 ==> Multiple(b, x + 1) < Multiple(a, t) <= Multiple(b, x)
    requires b != 0
    ensures PartOfTime(a, b, t, x)
  {
  }

  lemma {:induction false} FloorTimes(y: real, x: int, b: int)
    requires x == y.Floor
    ensures b > 0 ==> Product(b as real, x as real) <= Product(y, b as real) < Product(b as real, (x + 1) as real)
    ensures b < 0 ==> Product(b as real, (x + 1) as real) < Product(y, b as real) <= Product(b as real, x as real)
  {
    hide Product;
    Ordered(b as real, x as real, y);
    Ordered(b as real, y, (x + 1) as real);
    Turned(y, b as real);
  }

  lemma {:induction false} Turned(x: real, y: real)
    ensures Product(x, y) == Product(y, x)
  {
  }

  lemma {:induction false} Ordered(c: real, u: real, v: real)
    ensures u <= v && c > 0.0 ==> Product(c, u) <= Product(c, v)
    ensures u < v && c > 0.0 ==> Product(c, u) < Product(c, v)
    ensures u <= v && c < 0.0 ==> Product(c, v) <= Product(c, u)
    ensures u < v && c < 0.0 ==> Product(c, v) < Product(c, u)
  {
    var d := v - u;
    assert c * v == c * u + c * d;
  }

  /**
   Section 6.3.4 of RFC 3550: when the group shrinks, of the time to the next packet and of the time since the last
   one exactly the part of the members that are left remains, to the microsecond; and the smaller group is noted.
   */
  lemma {:induction false} LeftExact(s: State, members: int, now: int)
    requires Reconsiders(s, members)
    ensures var r := MembersLeft(s, members, now);
            var p := if s.pmembers == 0 then 1 else s.pmembers;
            && PartOfTime(members, p, if s.next > now then s.next - now else 0, r.next - now)
            && PartOfTime(members, p, if now > s.prev then now - s.prev else 0, now - r.prev)
            && r.pmembers == members && r == s.(next := r.next, prev := r.prev, pmembers := members)
  {
    hide Portion, PartOfTime;
    var p := if s.pmembers == 0 then 1 else s.pmembers;
    PortionExact(members, p, AtLeastZero(s.next - now));
    PortionExact(members, p, AtLeastZero(now - s.prev));
  }
}
