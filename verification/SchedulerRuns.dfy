/** What the timer guarantees: the share of the bandwidth that is used, and the distance between transmissions. */
module SchedulerRuns {
  import opened Scheduler

  // ---------------------------------------------------------------- bandwidth

  /** The bytes a second that n members send who wait td seconds between packets. */
  function Rate(n: int, size: nat, td: real): real
    requires td > 0.0
  {
    n as real * size as real / td
  }

  lemma {:induction false} IntervalPositive(s: State, g: Group, sender: bool)
    requires Configured(s.params) && Share(s.params, g, sender).0 > 0.0
    ensures ExactInterval(s, g, sender) > 0.0
  {
    hide Load, Share;
  }

  lemma {:induction false} LoadTimesShare(n: int, size: nat, share: real)
    requires share > 0.0
    ensures Load(n, size, share) * share == n as real * size as real
  {
    var q := size as real / share;
    assert q * share == size as real;
    assert n as real * q * share == n as real * (q * share);
  }

  /** A rate stays within a share exactly if the interval is no shorter than the load asks for. */
  lemma {:induction false} RateBounded(n: int, size: nat, share: real, td: real)
    requires share > 0.0 && td > 0.0
    ensures td >= Load(n, size, share) ==> Rate(n, size, td) <= share
    ensures td <= Load(n, size, share) ==> Rate(n, size, td) >= share
  {
    LoadTimesShare(n, size, share);
    DivideBack(td, share);
    if td >= Load(n, size, share) {
      Scaled(Load(n, size, share), td, share);
      DivideLess(Load(n, size, share) * share, td * share, td);
    }
    if td <= Load(n, size, share) {
      Scaled(td, Load(n, size, share), share);
      DivideLess(td * share, Load(n, size, share) * share, td);
    }
  }

  lemma {:induction false} Scaled(a: real, b: real, c: real)
    requires a <= b && c > 0.0
    ensures a * c <= b * c
  {
  }

  lemma {:induction false} DivideBack(a: real, b: real)
    requires a > 0.0
    ensures a * b / a == b
  {
  }

  lemma {:induction false} DivideLess(a: real, b: real, c: real)
    requires a <= b && c > 0.0
    ensures a / c <= b / c
  {
  }

  /** Whether there is an interval, and the part of it that the bandwidth asks for is longer than the minimum. */
  predicate MinimumIsSlack(s: State, g: Group, sender: bool)
    requires Configured(s.params)
  {
    var (share, n) := Share(s.params, g, sender);
    share > 0.0 && LeastInterval(s.params, !s.hasSentRtcp && s.params.useHalfAtStartup) <= Load(n, s.avgPacketSize, share)
  }

  /** What n members send who wait for their interval; who has no share of the bandwidth waits forever. */
  function Used(s: State, g: Group, sender: bool, n: int): real
    requires Configured(s.params)
  {
    if Share(s.params, g, sender).0 == 0.0 then 0.0
    else
      IntervalPositive(s, g, sender);
      Rate(n, s.avgPacketSize, ExactInterval(s, g, sender))
  }

  lemma {:induction false} UsedWithinShare(s: State, g: Group, sender: bool, n: int)
    requires Configured(s.params) && n <= Share(s.params, g, sender).1
    ensures Used(s, g, sender, n) <= Share(s.params, g, sender).0
    ensures MinimumIsSlack(s, g, sender) && n == Share(s.params, g, sender).1 ==> Used(s, g, sender, n) == Share(s.params, g, sender).0
  {
    hide Load, Rate, LeastInterval, Share;
    var (share, m) := Share(s.params, g, sender);
    if share > 0.0 {
      IntervalPositive(s, g, sender);
      var td := ExactInterval(s, g, sender);
      RateBounded(m, s.avgPacketSize, share, td);
      RateGrows(n, m, s.avgPacketSize, td);
    }
  }

  lemma {:induction false} RateGrows(n: int, m: int, size: nat, td: real)
    requires n <= m && td > 0.0
    ensures Rate(n, size, td) <= Rate(m, size, td)
  {
    GrowingProduct(n, m, size);
    DivideLess(n as real * size as real, m as real * size as real, td);
  }

  lemma {:induction false} GrowingProduct(n: int, m: int, size: nat)
    requires n <= m
    ensures n as real * size as real <= m as real * size as real
  {
    var d := (m - n) as real * size as real;
    assert m as real * size as real == n as real * size as real + d;
  }

  /**
   Section 6.3.1 of RFC 3550: senders and receivers together use no more than the bandwidth for control
   traffic, and all of it where the minimum interval does not hold them back. This holds for every setting
   that is accepted and all counts, also where more senders are counted than active members.
   */
  lemma {:induction false} AggregateBandwidth(s: State, g: Group)
    requires Configured(s.params) && 0 <= g.senders
    ensures var used := Used(s, g, true, g.senders) + Used(s, g, false, g.members - g.senders);
            && used <= s.params.bandwidth
            && (g.members != 0 && MinimumIsSlack(s, g, true) && MinimumIsSlack(s, g, false) ==> used == s.params.bandwidth)
  {
    hide Load, Rate, Ratio, SenderShare, ReceiverShare, LeastInterval, MinimumIsSlack;
    var total := if g.members == 0 then 1 else g.members;
    if Ratio(g.senders, total) <= s.params.senderFraction {
      UsedWithinShare(s, g, true, g.senders);
      UsedWithinShare(s, g, false, g.members - g.senders);
      SharesAddUp(s.params);
    } else {
      UsedTogether(s, g);
      UsedWithinShare(s, g, true, g.members);
    }
  }

  lemma {:induction false} UsedTogether(s: State, g: Group)
    requires Configured(s.params) && Share(s.params, g, true) == Share(s.params, g, false)
    ensures Used(s, g, true, g.senders) + Used(s, g, false, g.members - g.senders) == Used(s, g, true, g.members)
  {
    hide Load, Rate, Share, LeastInterval;
    if Share(s.params, g, true).0 > 0.0 {
      IntervalPositive(s, g, true);
      RatesAddUp(g.senders, g.members - g.senders, s.avgPacketSize, ExactInterval(s, g, true));
    }
  }

  lemma {:induction false} SharesAddUp(p: Params)
    requires Configured(p)
    ensures SenderShare(p) + ReceiverShare(p) == p.bandwidth
  {
  }

  lemma {:induction false} RatesAddUp(a: int, b: int, size: nat, td: real)
    requires td > 0.0
    ensures Rate(a, size, td) + Rate(b, size, td) == Rate(a + b, size, td)
  {
    var x, y := a as real * size as real, b as real * size as real;
    assert (a + b) as real * size as real == x + y;
    DivideSum(x, y, td);
  }

  lemma {:induction false} DivideSum(x: real, y: real, z: real)
    requires z != 0.0
    ensures x / z + y / z == (x + y) / z
  {
  }

  // ---------------------------------------------------------------- the random factor

  lemma {:induction false} FloorMonotone(x: real, y: real)
    requires x <= y
    ensures Micros(x) <= Micros(y)
  {
  }

  lemma {:induction false} Compensated(td: real, low: real, high: real)
    requires 0.0 <= td && low <= high
    ensures Compensate(td, low) <= Compensate(td, high)
  {
    Growing(td, low, high);
    FloorMonotone(td * low / 1.21828, td * high / 1.21828);
  }

  lemma {:induction false} Growing(a: real, b: real, c: real)
    requires 0.0 <= a && b <= c
    ensures a * b <= a * c
  {
  }

  /** The interval is spread over half to three halves of the deterministic one, less the compensation. */
  lemma {:induction false} RandomizedBounds(td: real, draw: real)
    requires 0.0 <= td && 0.0 <= draw <= 1.0
    ensures Randomized(td, 0.0) <= Randomized(td, draw) <= Randomized(td, 1.0)
  {
    hide Compensate;
    Compensated(td, 0.5, draw + 0.5);
    Compensated(td, draw + 0.5, 1.5);
  }

  /** The least time that the timer keeps between packets. */
  function Spacing(p: Params, half: bool): int {
    Randomized(Seconds(Micros(LeastInterval(p, half))), 0.0)
  }

  lemma {:induction false} RandomizedMonotone(td: real, more: real)
    requires td <= more
    ensures Randomized(td, 0.0) <= Randomized(more, 0.0)
  {
    FloorMonotone(td * 0.5 / 1.21828, more * 0.5 / 1.21828);
  }

  lemma {:induction false} CutDown(x: real)
    requires 0.0 <= x
    ensures 0.0 <= Seconds(Micros(x)) <= x
  {
  }

  lemma {:induction false} SecondsMonotone(a: int, b: int)
    requires a <= b
    ensures Seconds(a) <= Seconds(b)
  {
  }

  lemma {:induction false} LeastPositive(p: Params, half: bool)
    requires Usable(p)
    ensures 0.0 <= LeastInterval(p, half)
  {
  }

  predicate HalvedNow(s: State) {
    s.params.useHalfAtStartup && (s.byeScheduled || !s.hasSentRtcp)
  }

  lemma {:induction false} IntervalAtLeast(s: State, g: Group, draw: real)
    requires Usable(s.params) && 0.0 <= draw <= 1.0 && !(s.byeScheduled && s.sendByeNow)
    ensures Interval(s, g, draw) >= Spacing(s.params, HalvedNow(s)) >= 0
  {
    hide Micros, Seconds, LeastInterval, Randomized, Load, Share;
    var least := LeastInterval(s.params, HalvedNow(s));
    LeastPositive(s.params, HalvedNow(s));
    CutDown(least);
    SpacingPositive(Seconds(Micros(least)));
    if s.byeScheduled {
      var td := MaxReal(least, Load(s.byeMembers, s.avgByeSize, ReceiverShare(s.params)));
      RandomizedBounds(td, draw);
      RandomizedMonotone(Seconds(Micros(least)), td);
    } else {
      var td := Seconds(DeterministicInterval(s, g, g.weSend));
      FloorMonotone(least, ExactInterval(s, g, g.weSend));
      SecondsMonotone(Micros(least), DeterministicInterval(s, g, g.weSend));
      RandomizedBounds(td, draw);
      RandomizedMonotone(Seconds(Micros(least)), td);
    }
  }

  lemma {:induction false} SpacingPositive(td: real)
    requires 0.0 <= td
    ensures 0 <= Randomized(td, 0.0)
  {
    FloorMonotone(0.0, td * 0.5 / 1.21828);
  }

  /** The next time is at least that far away. */
  lemma {:induction false} ScheduledLater(s: State, g: Group, now: int, draw: real)
    requires Usable(s.params) && 0.0 <= draw <= 1.0 && !s.byeScheduled
    ensures ScheduleNext(s, g, now, draw).next >= now + Spacing(s.params, HalvedNow(s))
  {
    hide TransmissionInterval, Spacing, HalvedNow;
    IntervalAtLeast(s, g, draw);
  }

  /** The deterministic interval is the least number of microseconds at which the group keeps to its share. */
  lemma {:induction false} DeterministicIsLeast(s: State, g: Group, sender: bool)
    requires Usable(s.params)
    ensures var (share, n) := Share(s.params, g, sender);
            var t := DeterministicInterval(s, g, sender);
            var least := Micros(LeastInterval(s.params, !s.hasSentRtcp && s.params.useHalfAtStartup));
            && 0 < least <= t
            && Rate(n, s.avgPacketSize, Seconds(t + 1)) <= share
            && (t > least ==> Rate(n, s.avgPacketSize, Seconds(t)) >= share)
  {
    hide Share, LeastInterval, Rate, Load;
    var (share, n) := Share(s.params, g, sender);
    var t := DeterministicInterval(s, g, sender);
    var half := !s.hasSentRtcp && s.params.useHalfAtStartup;
    var x := LeastInterval(s.params, half);
    var y := Load(n, s.avgPacketSize, share);
    LeastIsLong(s.params, half);
    FloorMonotone(x, MaxReal(x, y));
    WholeMicros(MaxReal(x, y));
    RateBounded(n, s.avgPacketSize, share, Seconds(t + 1));
    if t > Micros(x) {
      RateBounded(n, s.avgPacketSize, share, Seconds(t));
    }
  }

  lemma {:induction false} LeastIsLong(p: Params, half: bool)
    requires Configured(p)
    ensures 0 < Micros(LeastInterval(p, half))
  {
  }

  lemma {:induction false} WholeMicros(x: real)
    ensures Seconds(Micros(x)) <= x < Seconds(Micros(x) + 1)
    ensures x > 0.0 ==> Seconds(Micros(x) + 1) > 0.0
  {
  }

  // ---------------------------------------------------------------- reverse reconsideration

  lemma {:induction false} PortionIs(a: int, b: int, t: int)
    requires b != 0
    ensures Portion(a, b, t) == (Ratio(a, b) * t as real).Floor
  {
    var r := Ratio(a, b);
    assert Seconds(t) * 1_000_000.0 == t as real;
    assert r * Seconds(t) * 1_000_000.0 == r * (Seconds(t) * 1_000_000.0);
  }

  lemma {:induction false} TimesDivisor(a: int, b: int, t: int)
    requires b != 0
    ensures Ratio(a, b) * t as real * b as real == a as real * t as real
  {
    var r := Ratio(a, b);
    assert r * b as real == a as real;
    assert r * t as real * b as real == r * b as real * t as real;
  }

  /** The part that a shrinking group leaves of a time. */
  lemma {:induction false} PortionLess(a: nat, b: int, t: nat)
    requires a < b
    ensures 0 <= Portion(a, b, t) <= t
  {
    var r := Ratio(a, b);
    assert 0.0 <= r < 1.0;
    Growing(t as real, r, 1.0);
    Growing(t as real, 0.0, r);
    PortionIs(a, b, t);
  }

  /** With a negative count, the part of a time is negative; nothing is left of no time. */
  lemma {:induction false} PortionNegative(a: int, b: int, t: nat)
    requires a < 0 < b
    ensures t > 0 ==> Portion(a, b, t) < 0
    ensures t == 0 ==> Portion(a, b, t) == 0
  {
    PortionIs(a, b, t);
    if t > 0 {
      var x := Ratio(a, b) * t as real;
      TimesDivisor(a, b, t);
      NegativeProduct(a, t);
      NegativeFactor(x, b);
    }
  }

  lemma {:induction false} NegativeProduct(a: int, t: int)
    requires a < 0 < t
    ensures a as real * t as real < 0.0
  {
  }

  lemma {:induction false} NegativeFactor(x: real, b: int)
    requires b > 0 && x * b as real < 0.0
    ensures x < 0.0
  {
  }

  /** If the count was negative already and falls further, the part is more than the whole, beyond a bound. */
  lemma {:induction false} PortionGrows(a: int, b: int, t: nat)
    requires a < b < 0
    ensures Portion(a, b, t) >= t
    ensures Portion(a, b, t) == t <==> (b - a) * t < -b
  {
    var x, c := Ratio(a, b) * t as real, -b as real;
    PortionIs(a, b, t);
    TimesDivisor(a, b, t);
    assert x * c == -(a as real) * t as real;
    var more := (b - a) * t;
    assert x * c == t as real * c + more as real by {
      assert (b - a) as real * t as real == b as real * t as real - a as real * t as real;
      assert more as real == (b - a) as real * t as real by { ProductAsReal(b - a, t); }
    }
    assert more >= 0;
    AboveWhole(x, t as real, c, more as real);
    BelowNext(x, t as real, c, more as real);
  }

  lemma {:induction false} ProductAsReal(a: int, b: int)
    ensures (a * b) as real == a as real * b as real
  {
  }

  lemma {:induction false} AboveWhole(x: real, t: real, c: real, more: real)
    requires c > 0.0 && more >= 0.0 && x * c == t * c + more
    ensures x >= t
  {
    assert (x - t) * c >= 0.0;
  }

  lemma {:induction false} BelowNext(x: real, t: real, c: real, more: real)
    requires c > 0.0 && x * c == t * c + more
    ensures x < t + 1.0 <==> more < c
  {
    var d := x - t - 1.0;
    assert d * c == more - c;
    if d < 0.0 {
      NegativeTimes(d, c);
    } else {
      Growing(d, 0.0, c);
    }
  }

  lemma {:induction false} NegativeTimes(d: real, c: real)
    requires d < 0.0 < c
    ensures d * c < 0.0
  {
  }

  /** Whether the times are changed at all. */
  predicate Reconsiders(s: State, members: int) {
    !s.firstCall && members < s.pmembers
  }

  /**
   The counter of active members can be negative. A fall of a count that was negative already moves the times
   apart instead of closer, unless the time since the last packet is too short for that.
   */
  predicate Gentle(s: State, members: int, t: int) {
    Reconsiders(s, members) && members < 0 && s.pmembers < 0 ==> (s.pmembers - members) * AtLeastZero(t) < -s.pmembers
  }

  /**
   Section 6.3.4 of RFC 3550: when members leave, the time of the last packet does not move back nor into the
   future, and the next time does not move to later than it was, or than now - exactly as far as the counts
   are not negative.
   */
  lemma {:induction false} ReverseReconsideration(s: State, members: int, now: int)
    ensures var r := MembersLeft(s, members, now);
            && (s.prev <= r.prev <==> if s.prev <= now then Gentle(s, members, now - s.prev) else !Reconsiders(s, members))
            && (r.prev <= now <==> if s.prev <= now then Reconsiders(s, members) && members < 0 <= s.pmembers ==> s.prev == now
                                   else Reconsiders(s, members))
            && ((r.next <= s.next || r.next <= now) <==> Gentle(s, members, s.next - now))
            && (Reconsiders(s, members) ==> (now <= r.next <==> (members < 0 <= s.pmembers ==> s.next <= now)))
  {
    hide Portion;
    if Reconsiders(s, members) {
      var p := if s.pmembers == 0 then 1 else s.pmembers;
      var ahead, back := AtLeastZero(s.next - now), AtLeastZero(now - s.prev);
      PortionIs(members, p, 0);
      if members >= 0 {
        PortionLess(members, p, ahead);
        PortionLess(members, p, back);
      } else if s.pmembers >= 0 {
        PortionNegative(members, p, ahead);
        PortionNegative(members, p, back);
      } else {
        PortionGrows(members, p, ahead);
        PortionGrows(members, p, back);
      }
    }
  }

  /** A time before now and the last packet stays so, also where the last packet is put into the future. */
  lemma {:induction false} FloorKept(s: State, members: int, now: int, floor: int)
    requires floor <= s.prev && floor <= now && Gentle(s, members, now - s.prev)
    ensures floor <= MembersLeft(s, members, now).prev
  {
    hide Portion;
    if s.prev <= now {
      ReverseReconsideration(s, members, now);
    } else if Reconsiders(s, members) {
      NoTimeLeft(members, if s.pmembers == 0 then 1 else s.pmembers);
    }
  }

  lemma {:induction false} NoTimeLeft(a: int, b: int)
    requires b != 0
    ensures Portion(a, b, 0) == 0
  {
    PortionIs(a, b, 0);
  }

  /** Two members too few were counted after one too few: the last packet moves back by the time since. */
  lemma {:induction false} NegativeCountsMoveBack(s: State, now: int)
    requires !s.firstCall && s.pmembers == -1 && s.prev < now
    ensures MembersLeft(s, -2, now).prev < s.prev && !Gentle(s, -2, now - s.prev)
  {
    ReverseReconsideration(s, -2, now);
  }

  // ---------------------------------------------------------------- whole runs

  datatype Action =
    | Check(g: Group, draw: real, draw2: real)
    | AskDelay(g: Group, latest: int, draw: real)
    | Leave(members: int)
    | Bye(g: Group, size: nat, draw: real)
    | In(isBye: bool, size: nat)
    | Out(isBye: bool, size: nat)
    | SetParams(p: Params)
    | Restart

  /** The clock is read up to twice during an action. */
  datatype Event = Event(now: int, later: int, action: Action)

  predicate EventOk(e: Event) {
    && e.now <= e.later
    && match e.action
       case Check(_, draw, draw2) => 0.0 <= draw <= 1.0 && 0.0 <= draw2 <= 1.0
       case AskDelay(_, _, draw) => 0.0 <= draw <= 1.0
       case Bye(_, _, draw) => 0.0 <= draw <= 1.0
       case SetParams(p) => Usable(p)
       case _ => true
  }

  function Step(s: State, e: Event): (r: State)
    requires Usable(s.params) && EventOk(e)
    ensures Usable(r.params)
  {
    match e.action
    case Check(g, draw, draw2) => Expire(s, g, e.now, e.later, draw, draw2).0
    case AskDelay(g, latest, draw) => Delay(s, g, e.now, e.later, latest, draw).0
    case Leave(members) => MembersLeft(s, members, e.now)
    case Bye(g, size, draw) => ScheduleBye(s, g, size, e.now, draw)
    case In(isBye, size) => Incoming(s, isBye, size)
    case Out(isBye, size) => Outgoing(s, isBye, size)
    case SetParams(p) => s.(params := p)
    case Restart => Reset(s)
  }

  /** A run with a clock that does not go back. */
  predicate Monotone(events: seq<Event>) {
    && (forall i :: 0 <= i < |events| ==> EventOk(events[i]))
    && (forall i, j :: 0 <= i < j < |events| ==> events[i].later <= events[j].now)
  }

  function Run(s: State, events: seq<Event>): (r: State)
    requires Usable(s.params) && forall i :: 0 <= i < |events| ==> EventOk(events[i])
    ensures Usable(r.params)
  {
    if events == [] then s else Step(Run(s, events[..|events| - 1]), events[|events| - 1])
  }

  /** The timer says that it is time, at event i of the run. */
  predicate Fires(s: State, events: seq<Event>, i: nat)
    requires Usable(s.params) && i < |events| && forall i :: 0 <= i < |events| ==> EventOk(events[i])
  {
    var e := events[i];
    e.action.Check? && Expire(Run(s, events[..i]), e.action.g, e.now, e.later, e.action.draw, e.action.draw2).1
  }

  /** Whether an action is no reconsideration with counts that move the last packet back. */
  predicate Steady(s: State, e: Event) {
    e.action.Leave? ==> Gentle(s, e.action.members, e.now - s.prev)
  }

  /** No action moves the time of the last packet back to before a time that has passed. */
  lemma {:induction false} StepPrev(s: State, e: Event, floor: int)
    requires Usable(s.params) && EventOk(e) && floor <= s.prev && floor <= e.now && Steady(s, e)
    ensures floor <= Step(s, e).prev
  {
    hide TransmissionInterval, ByeInterval, Portion, Gentle;
    if e.action.Leave? {
      FloorKept(s, e.action.members, e.now, floor);
    } else if e.action.Check? {
      CheckPrev(s, e);
    }
  }

  lemma {:induction false} CheckPrev(s: State, e: Event)
    requires Usable(s.params) && EventOk(e) && e.action.Check?
    ensures Step(s, e).prev == s.prev || Step(s, e).prev == e.now
  {
    hide TransmissionInterval, ByeInterval;
  }

  predicate SteadyRun(s: State, events: seq<Event>)
    requires Usable(s.params) && forall i :: 0 <= i < |events| ==> EventOk(events[i])
  {
    forall i :: 0 <= i < |events| ==> Steady(Run(s, events[..i]), events[i])
  }

  lemma {:induction false} RunOneMore(s: State, events: seq<Event>, j: nat)
    requires Usable(s.params) && Monotone(events) && SteadyRun(s, events) && 0 < j <= |events|
    ensures var before := Run(s, events[..j - 1]);
            Run(s, events[..j]) == Step(before, events[j - 1]) && Steady(before, events[j - 1]) && EventOk(events[j - 1])
  {
    hide Step, Steady, EventOk, Usable;
    assert events[..j][..j - 1] == events[..j - 1];
  }

  lemma {:induction false} RunPrev(s: State, events: seq<Event>, i: nat, j: nat, floor: int)
    requires Usable(s.params) && Monotone(events) && SteadyRun(s, events) && i <= j <= |events|
    requires floor <= Run(s, events[..i]).prev && forall k :: i <= k < |events| ==> floor <= events[k].now
    ensures floor <= Run(s, events[..j]).prev
    decreases j
  {
    hide Step, Steady, EventOk, Usable, Run, SteadyRun;
    if i < j {
      RunOneMore(s, events, j);
      RunPrev(s, events, i, j - 1, floor);
      StepPrev(Run(s, events[..j - 1]), events[j - 1], floor);
    }
  }

  /** When the timer fires, that moment becomes the time of the last packet, and the interval has passed. */
  lemma {:induction false} FiringIsSpaced(s: State, e: Event)
    requires Usable(s.params) && EventOk(e) && e.action.Check?
    requires Expire(s, e.action.g, e.now, e.later, e.action.draw, e.action.draw2).1
    ensures Step(s, e).prev == e.now
    ensures e.now >= s.prev + Interval(s, e.action.g, e.action.draw)
  {
    hide TransmissionInterval, ByeInterval;
  }

  /**
   Between any two moments at which the timer fires lies at least half the minimum interval, halved once
   more at startup or for a BYE, over the compensation; only a BYE that may go at once is not held back.
   The run may contain any actions, except for the one reconsideration that moves the last packet back.
   */
  lemma {:induction false} Spaced(s: State, events: seq<Event>, i: nat, j: nat)
    requires Usable(s.params) && Monotone(events) && SteadyRun(s, events) && i < j < |events|
    requires Fires(s, events, i) && Fires(s, events, j)
    requires var before := Run(s, events[..j]); !(before.byeScheduled && before.sendByeNow)
    ensures var before := Run(s, events[..j]);
            events[j].now - events[i].now >= Spacing(before.params, HalvedNow(before))
  {
    hide Step, Interval, Spacing, HalvedNow, Expire, Steady;
    var before, e := Run(s, events[..j]), events[j];
    FiringIsSpaced(Run(s, events[..i]), events[i]);
    assert events[..i + 1][..i] == events[..i];
    RunPrev(s, events, i + 1, j, events[i].now);
    FiringIsSpaced(before, e);
    IntervalAtLeast(before, e.action.g, e.action.draw);
  }

  /** As long as the announced delay has not passed, and nothing else happens, it is not time. */
  lemma {:induction false} DelayIsSafe(s: State, g: Group, now: int, later: int, latest: int, draw: real, h: Group, at: int, end: int, draw2: real, draw3: real)
    requires Usable(s.params)
    requires var (t, d) := Delay(s, g, now, later, latest, draw); at < latest + d && d > 0
    ensures !Expire(Delay(s, g, now, later, latest, draw).0, h, at, end, draw2, draw3).1
  {
    hide TransmissionInterval, ByeInterval;
  }

  /** A BYE that may go at once goes at the next check. */
  lemma {:induction false} ImmediateBye(s: State, g: Group, size: nat, now: int, draw: real, h: Group, at: int, end: int, draw2: real, draw3: real)
    requires Usable(s.params) && !s.byeScheduled && s.params.immediateBye && g.members < 50 && now <= at
    ensures Expire(ScheduleBye(s, g, size, now, draw), h, at, end, draw2, draw3).1
  {
    hide TransmissionInterval;
  }
}
