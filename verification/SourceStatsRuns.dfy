/** What the receive statistics get right over whole runs, and exactly when. */
module SourceStatsRuns {
  import opened Bytes
  import opened SourceStats

  const CYCLE: int := 0x1_0000

  /** The packets of a source come in, and reports cut the time into intervals. */
  datatype Event = Packet(arrival: Arrival) | Cut

  /** The state after a run, the numbers its accepted packets were given, and what the cut-off intervals add up to. */
  datatype Log = Log(stats: Stats, raws: seq<u16>, numbers: seq<u32>, expected: int, received: int)

  function Record(log: Log, e: Event): Log {
    match e
    case Packet(a) =>
      var o := Processed(log.stats, a);
      if o.accept then log.(stats := o.stats, raws := log.raws + [a.raw], numbers := log.numbers + [o.seqNr])
      else log.(stats := o.stats)
    case Cut =>
      log.(stats := NewInterval(log.stats),
           expected := log.expected + Wrap32(log.stats.extHighSeqNr - log.stats.savedExtSeqNr),
           received := log.received + log.stats.numNewPackets)
  }

  function Run(events: seq<Event>): Log {
    if events == [] then Log(FRESH, [], [], 0, 0)
    else Record(Run(events[..|events| - 1]), events[|events| - 1])
  }

  // ---------- conservation ----------

  lemma {:induction false} WrapSum(x: int, y: int)
    ensures Wrap32(x + Wrap32(y)) == Wrap32(x + y)
  {
  }

  ghost predicate Balanced(log: Log) {
    var s := log.stats;
    && |log.raws| == |log.numbers| && (s.sentData <==> log.numbers != [])
    && Wrap32(log.expected + (s.extHighSeqNr - s.savedExtSeqNr)) == Wrap32(s.extHighSeqNr - s.baseSeqNr)
    && Wrap32(log.received + s.numNewPackets) == s.packetsReceived == Wrap32(|log.numbers|)
    && (!s.sentData ==>
          && s.extHighSeqNr == s.savedExtSeqNr == s.baseSeqNr == s.numCycles == 0
          && log.expected == log.received == s.numNewPackets == s.packetsReceived == 0)
  }

  /** The counters before and after a packet that counts. */
  lemma {:induction false} LaterCounters(s: Stats, a: Arrival)
    requires s.sentData
    ensures var o := Processed(s, a);
            && o.accept && o.stats.sentData
            && o.stats.savedExtSeqNr == s.savedExtSeqNr && o.stats.baseSeqNr == s.baseSeqNr
            && o.stats.numNewPackets == Wrap32(s.numNewPackets + 1) && o.stats.packetsReceived == Wrap32(s.packetsReceived + 1)
  {
    hide Deviation, Smoothed, Wrap32;
  }

  lemma {:induction false} EarlyCounters(s: Stats, a: Arrival)
    requires !s.sentData
    ensures var o := Processed(s, a);
            && o.accept == o.stats.sentData
            && (!o.accept ==> (o.stats.extHighSeqNr, o.stats.savedExtSeqNr, o.stats.baseSeqNr, o.stats.numCycles)
                              == (s.extHighSeqNr, s.savedExtSeqNr, s.baseSeqNr, s.numCycles)
                              && (o.stats.numNewPackets, o.stats.packetsReceived) == (s.numNewPackets, s.packetsReceived))
            && (o.accept ==> o.stats.savedExtSeqNr == o.stats.baseSeqNr
                             && o.stats.numNewPackets == Wrap32(s.numNewPackets + 1)
                             && o.stats.packetsReceived == Wrap32(s.packetsReceived + 1))
  {
    hide Deviation, Smoothed, Wrap32;
  }

  lemma {:induction false} LaterBalance(log: Log, a: Arrival)
    requires Balanced(log) && log.stats.sentData
    ensures Balanced(Record(log, Packet(a)))
  {
    hide Processed, Wrap32;
    var s := log.stats;
    LaterCounters(s, a);
    WrapShift(log.expected - s.savedExtSeqNr, s.extHighSeqNr, 0 - s.baseSeqNr as int, Processed(s, a).stats.extHighSeqNr);
    WrapSum(log.received, s.numNewPackets + 1);
    WrapSum(1, |log.numbers|);
    WrapSum(1, log.received + s.numNewPackets);
  }

  lemma {:induction false} EarlyBalance(log: Log, a: Arrival)
    requires Balanced(log) && !log.stats.sentData
    ensures Balanced(Record(log, Packet(a)))
  {
    hide Processed;
    EarlyCounters(log.stats, a);
  }

  lemma {:induction false} BalanceKept(log: Log, e: Event)
    requires Balanced(log)
    ensures Balanced(Record(log, e))
  {
    match e
    case Packet(a) =>
      hide Record, Balanced;
      if log.stats.sentData {
        LaterBalance(log, a);
      } else {
        EarlyBalance(log, a);
      }
    case Cut =>
      hide Processed;
      WrapSum(log.expected, log.stats.extHighSeqNr - log.stats.savedExtSeqNr);
  }

  lemma {:induction false} WrapShift(a: int, x: int, b: int, y: int)
    requires Wrap32(a + x) == Wrap32(x + b)
    ensures Wrap32(a + y) == Wrap32(y + b)
  {
    WrapSum(y - x, a + x);
    WrapSum(y - x, x + b);
  }

  lemma {:induction false} RunBalanced(events: seq<Event>)
    ensures Balanced(Run(events))
  {
    hide Record, Processed;
    if events != [] {
      RunBalanced(events[..|events| - 1]);
      BalanceKept(Run(events[..|events| - 1]), events[|events| - 1]);
    }
  }

  /** However the run is cut, the intervals' expected and received packets add up to those of the whole run. */
  lemma {:induction false} IntervalsAddUp(events: seq<Event>)
    ensures var log := Run(events);
            && Wrap32(log.expected + (log.stats.extHighSeqNr - log.stats.savedExtSeqNr))
               == Wrap32(log.stats.extHighSeqNr - log.stats.baseSeqNr)
            && Wrap32(log.received + log.stats.numNewPackets) == log.stats.packetsReceived == Wrap32(|log.numbers|)
  {
    RunBalanced(events);
  }

  // ---------- sequence numbers ----------

  /** The number that a packet gets after the highest number so far, before it is cut down to 32 bits. */
  function Number(high: int, raw: u16): int {
    var cycle := high - high % CYCLE;
    if raw < high % CYCLE - 0x8000 then cycle + CYCLE + raw else cycle + raw
  }

  /** A true number that stays in the cycle of the highest and not too far behind, or is close ahead in the next. */
  predicate InStep(high: int, t: int) {
    if t / CYCLE == high / CYCLE then high - t <= 0x8000
    else t / CYCLE == high / CYCLE + 1 && t - high < 0x8000
  }

  function Max(a: int, b: int): int {
    if a < b then b else a
  }

  function Highest(ts: seq<int>): int
    requires ts != []
  {
    if |ts| == 1 then ts[0] else Max(Highest(ts[..|ts| - 1]), ts[|ts| - 1])
  }

  function Numbers(raws: seq<u16>): (ns: seq<int>)
    ensures |ns| == |raws|
  {
    if raws == [] then []
    else if |raws| == 1 then [if raws[0] == 0 then CYCLE else raws[0]]
    else
      var ns := Numbers(raws[..|raws| - 1]);
      ns + [Number(Highest(ns), raws[|raws| - 1])]
  }

  /** A number is given out exactly when it is in step; in step, the 16 bits determine it. */
  lemma {:induction false} NumberExact(high: int, t: int, raw: u16)
    requires high >= 0 && raw == t % CYCLE
    ensures Number(high, raw) == t <==> InStep(high, t)
    ensures InStep(high, Number(high, raw)) && Number(high, raw) % CYCLE == raw
  {
  }

  predicate AllInStep(ts: seq<int>) {
    && (ts != [] ==> 1 <= ts[0] <= CYCLE)
    && (forall i {:trigger ts[i]} :: 1 <= i < |ts| ==> InStep(Highest(ts[..i]), ts[i]))
  }

  lemma {:induction false} HighestFacts(ts: seq<int>)
    requires ts != []
    ensures Highest(ts) in ts && forall i :: 0 <= i < |ts| ==> ts[i] <= Highest(ts)
  {
    if |ts| > 1 {
      HighestFacts(ts[..|ts| - 1]);
    }
  }

  lemma {:induction false} NumbersPositive(raws: seq<u16>)
    requires raws != []
    ensures Highest(Numbers(raws)) >= 1
  {
    if |raws| > 1 {
      var last := |raws| - 1;
      NumbersPositive(raws[..last]);
      assert Numbers(raws)[..last] == Numbers(raws[..last]);
    }
  }

  lemma {:induction false} HighestAppend(ts: seq<int>, t: int)
    requires ts != []
    ensures Highest(ts + [t]) == Max(Highest(ts), t)
  {
    assert (ts + [t])[..|ts|] == ts;
  }

  lemma {:induction false} NumbersAppend(raws: seq<u16>, raw: u16)
    requires raws != []
    ensures Numbers(raws + [raw]) == Numbers(raws) + [Number(Highest(Numbers(raws)), raw)]
  {
    assert (raws + [raw])[..|raws|] == raws;
  }

  /** The machine's state after giving out the unbounded numbers ns. */
  ghost predicate Mirrors(log: Log, ns: seq<int>) {
    && |log.numbers| == |ns| == |log.raws| && (forall i :: 0 <= i < |ns| ==> log.numbers[i] == Wrap32(ns[i]))
    && (ns != [] ==>
          && Highest(ns) >= 0
          && log.stats.extHighSeqNr == Wrap32(Highest(ns))
          && log.stats.numCycles == Wrap32(Highest(ns) - Highest(ns) % CYCLE))
  }

  lemma {:induction false} MirrorsKept(log: Log, e: Event)
    requires Balanced(log) && Mirrors(log, Numbers(log.raws))
    ensures var l := Record(log, e); Mirrors(l, Numbers(l.raws))
  {
    hide Wrap32, Highest, Numbers, Number, Processed;
    var ns := Numbers(log.raws);
    match e
    case Cut =>
      assert Record(log, e).stats.extHighSeqNr == log.stats.extHighSeqNr;
    case Packet(a) =>
      if log.stats.sentData {
        LaterCounters(log.stats, a);
        NumbersAppend(log.raws, a.raw);
        HighestAppend(ns, Number(Highest(ns), a.raw));
        MachineStep(log.stats, a, Highest(ns));
      } else {
        EarlyCounters(log.stats, a);
        assert log.raws == [];
        if Processed(log.stats, a).accept {
          FirstStep(log.stats, a);
          FirstHighest(a.raw);
          assert [] + [a.raw] == [a.raw];
        }
      }
  }

  lemma {:induction false} FirstHighest(raw: u16)
    ensures |Numbers([raw])| == 1 && Highest(Numbers([raw])) == Numbers([raw])[0] && 0 <= Numbers([raw])[0] < 0x1_0000_0000
    ensures var n := Numbers([raw])[0]; Wrap32(n) == n && Wrap32(n - n % CYCLE) == n - n % CYCLE
  {
  }

  lemma {:induction false} RunMirrors(events: seq<Event>)
    ensures Mirrors(Run(events), Numbers(Run(events).raws))
  {
    hide Record, Processed;
    if events != [] {
      RunMirrors(events[..|events| - 1]);
      RunBalanced(events[..|events| - 1]);
      MirrorsKept(Run(events[..|events| - 1]), events[|events| - 1]);
    }
  }

  /** The machine's numbers are the unbounded ones, cut down to 32 bits. */
  lemma {:induction false} MachineNumbers(events: seq<Event>)
    ensures var log := Run(events);
            |log.numbers| == |log.raws| && forall i :: 0 <= i < |log.raws| ==> log.numbers[i] == Wrap32(Numbers(log.raws)[i])
    ensures var log := Run(events); log.raws != [] ==>
            var high := Highest(Numbers(log.raws));
            log.stats.extHighSeqNr == Wrap32(high) && log.stats.numCycles == Wrap32(high - high % CYCLE)
  {
    hide Run;
    RunMirrors(events);
  }

  lemma {:induction false} FirstStep(s: Stats, a: Arrival)
    requires !s.sentData && s.numCycles == 0 && Processed(s, a).accept
    ensures var o := Processed(s, a); var first := Numbers([a.raw])[0];
            o.seqNr == first == o.stats.extHighSeqNr && o.stats.baseSeqNr == first - 1
            && o.stats.numCycles == first - first % CYCLE
  {
  }

  lemma {:induction false} MachineStep(s: Stats, a: Arrival, high: int)
    requires s.sentData && high >= 0
    requires s.extHighSeqNr == Wrap32(high) && s.numCycles == Wrap32(high - high % CYCLE)
    ensures var o := Processed(s, a); var n := Number(high, a.raw);
            && o.seqNr == Wrap32(n)
            && o.stats.extHighSeqNr == Wrap32(Max(high, n))
            && o.stats.numCycles == Wrap32(Max(high, n) - Max(high, n) % CYCLE)
  {
    hide Deviation, Smoothed, Wrap32;
    var cycle := high - high % CYCLE;
    assert s.extHighSeqNr % CYCLE == high % CYCLE by { WrapModCycle(high); }
    WrapSum(a.raw, cycle);
    WrapSum(CYCLE, cycle);
    WrapSum(a.raw, cycle + CYCLE);
    CycleOf(high, a.raw);
  }

  lemma {:induction false} WrapModCycle(x: int)
    ensures Wrap32(x) % CYCLE == x % CYCLE
  {
  }

  lemma {:induction false} CycleOf(high: int, raw: u16)
    ensures (high - high % CYCLE + raw) % CYCLE == raw == (high - high % CYCLE + CYCLE + raw) % CYCLE
  {
  }

  /** All packets of a run get their true numbers exactly if the first is aligned and all the others are in step. */
  lemma {:induction false} NumbersExact(raws: seq<u16>, ts: seq<int>)
    requires |raws| == |ts| && forall i :: 0 <= i < |ts| ==> raws[i] == ts[i] % CYCLE
    ensures Numbers(raws) == ts <==> AllInStep(ts)
  {
    if |raws| > 1 {
      var last := |raws| - 1;
      var rs, us := raws[..last], ts[..last];
      NumbersExact(rs, us);
      assert raws == rs + [raws[last]] && ts == us + [ts[last]];
      NumbersAppend(rs, raws[last]);
      AllInStepAppend(us, ts[last]);
      hide Numbers, AllInStep, Number, Highest, InStep;
      AppendEqual(Numbers(rs), us, Number(Highest(Numbers(rs)), raws[last]), ts[last]);
      NumbersPositive(rs);
      if Numbers(rs) == us {
        NumberExact(Highest(us), ts[last], raws[last]);
      }
    }
  }

  lemma {:induction false} AllInStepAppend(ts: seq<int>, t: int)
    requires ts != []
    ensures AllInStep(ts + [t]) <==> AllInStep(ts) && InStep(Highest(ts), t)
  {
    hide InStep, Highest;
    var us := ts + [t];
    assert us[..|ts|] == ts && us[|ts|] == t;
    assert forall i :: 1 <= i < |ts| ==> us[..i] == ts[..i] && us[i] == ts[i];
    if AllInStep(us) {
      assert InStep(Highest(us[..|ts|]), us[|ts|]);
      forall i | 1 <= i < |ts|
        ensures InStep(Highest(ts[..i]), ts[i])
      {
        assert us[..i] == ts[..i] && InStep(Highest(us[..i]), us[i]);
      }
    }
  }

  lemma {:induction false} AppendEqual<T>(a: seq<T>, b: seq<T>, x: T, y: T)
    ensures a + [x] == b + [y] <==> a == b && x == y
  {
    if a + [x] == b + [y] {
      assert |a + [x]| == |b + [y]|;
      assert a == (a + [x])[..|a|] && b == (b + [y])[..|b|];
      assert x == (a + [x])[|a|] && y == (b + [y])[|b|];
    }
  }

  /**
   Sequence extension over a run: packets in step get their true numbers, the highest number is the largest
   one seen, and the cycle count is its upper half.
   */
  lemma {:induction false} SequenceExtension(events: seq<Event>, ts: seq<int>)
    requires |Run(events).raws| == |ts| > 0
    requires forall i :: 0 <= i < |ts| ==> Run(events).raws[i] == ts[i] % CYCLE
    requires AllInStep(ts)
    ensures var log := Run(events);
            && |log.numbers| == |ts| && (forall i :: 0 <= i < |ts| ==> log.numbers[i] == Wrap32(ts[i]))
            && log.stats.extHighSeqNr == Wrap32(Highest(ts))
            && log.stats.numCycles == Wrap32(Highest(ts) - Highest(ts) % CYCLE)
  {
    hide Run, Wrap32, AllInStep;
    MachineNumbers(events);
    NumbersExact(Run(events).raws, ts);
  }

  /** A packet that comes late across the end of a cycle is numbered a cycle ahead, and becomes the highest. */
  lemma {:induction false} LateAcrossWrap(s: Stats, a: Arrival)
    requires s.sentData && s.extHighSeqNr == 0x1_0003 && s.numCycles == 0x1_0000 && a.raw == 0xFFFF
    ensures Processed(s, a).seqNr == Processed(s, a).stats.extHighSeqNr == 0x1_FFFF != 0xFFFF
    ensures !InStep(0x1_0003, 0xFFFF)
  {
    hide Deviation, Smoothed;
  }

  // ---------- loss ----------

  ghost function Elements(ts: seq<int>): set<int> {
    set t | t in ts
  }

  predicate Counts(n: int) { true }

  /** All numbers above low, up to high. */
  ghost function Span(low: int, high: int): set<int> {
    set n: int {:trigger Counts(n)} | low < n <= high && Counts(n)
  }

  lemma {:induction false} SpanSize(low: int, high: int)
    requires low <= high
    ensures |Span(low, high)| == high - low
    decreases high - low
  {
    if low < high {
      SpanSize(low, high - 1);
      assert Span(low, high) == Span(low, high - 1) + {high};
    } else {
      assert Span(low, high) == {};
    }
  }

  lemma {:induction false} ElementsSize(ts: seq<int>)
    requires forall i, j :: 0 <= i < j < |ts| ==> ts[i] != ts[j]
    ensures |Elements(ts)| == |ts|
  {
    if ts != [] {
      var last := |ts| - 1;
      ElementsSize(ts[..last]);
      assert Elements(ts) == Elements(ts[..last]) + {ts[last]};
    }
  }

  lemma {:induction false} BaseStays(events: seq<Event>)
    requires Run(events).raws != []
    ensures Run(events).stats.baseSeqNr == Numbers(Run(events).raws[..1])[0] - 1
  {
    hide Deviation, Smoothed;
    var before := Run(events[..|events| - 1]);
    RunBalanced(events[..|events| - 1]);
    if before.raws != [] {
      BaseStays(events[..|events| - 1]);
      assert Run(events).raws[..1] == before.raws[..1];
    } else {
      FirstStep(before.stats, events[|events| - 1].arrival);
    }
  }

  /** No number comes twice, and none is from before the first. */
  predicate NoneTwice(ts: seq<int>) {
    (forall i, j :: 0 <= i < j < |ts| ==> ts[i] != ts[j]) && (forall i :: 0 <= i < |ts| ==> ts[0] <= ts[i])
  }

  /**
   The difference that a report states, modulo 2^32: the numbers from the first up to the highest, less the packets.
   Without duplicates and packets older than the first, it is the number of sequence numbers that never came.
   */
  lemma {:induction false} CumulativeLoss(events: seq<Event>, ts: seq<int>)
    requires |Run(events).raws| == |ts| > 0 && AllInStep(ts)
    requires forall i :: 0 <= i < |ts| ==> Run(events).raws[i] == ts[i] % CYCLE
    ensures var s := Run(events).stats;
            Wrap32(s.extHighSeqNr - s.baseSeqNr - s.packetsReceived) == Wrap32(Highest(ts) - ts[0] + 1 - |ts|)
    ensures NoneTwice(ts) ==> Highest(ts) - ts[0] + 1 - |ts| == |Span(ts[0] - 1, Highest(ts)) - Elements(ts)|
  {
    hide Run, AllInStep, Numbers, Highest, Span, Elements, Wrap32;
    var log := Run(events);
    SequenceExtension(events, ts);
    IntervalsAddUp(events);
    BaseStays(events);
    FirstNumber(log.raws, ts);
    WrapDifference(Highest(ts), |ts|, ts[0] - 1);
    if NoneTwice(ts) {
      MissingSize(ts);
    }
  }

  lemma {:induction false} WrapDifference(x: int, y: int, z: int)
    ensures Wrap32(Wrap32(x) - z - Wrap32(y)) == Wrap32(x - z - y)
  {
  }

  lemma {:induction false} MissingSize(ts: seq<int>)
    requires ts != [] && 1 <= ts[0] && NoneTwice(ts)
    ensures |Span(ts[0] - 1, Highest(ts)) - Elements(ts)| == Highest(ts) - (ts[0] - 1) - |ts|
  {
    HighestFacts(ts);
    SpanSize(ts[0] - 1, Highest(ts));
    ElementsSize(ts);
    assert Elements(ts) <= Span(ts[0] - 1, Highest(ts));
    SubsetSize(Elements(ts), Span(ts[0] - 1, Highest(ts)));
  }

  lemma {:induction false} FirstNumber(raws: seq<u16>, ts: seq<int>)
    requires |raws| == |ts| > 0 && AllInStep(ts) && raws[0] == ts[0] % CYCLE
    ensures Numbers(raws[..1]) == [ts[0]] && 1 <= ts[0]
  {
  }

  lemma {:induction false} SubsetSize(a: set<int>, b: set<int>)
    requires a <= b
    ensures |a| <= |b| && |b - a| == |b| - |a|
  {
    assert b == a + (b - a);
  }

  // ---------- probation ----------

  /** The numbers at positions k - 2, k - 1 and k follow each other. */
  predicate ThreeInARow(raws: seq<u16>, k: nat)
    requires k < |raws|
  {
    k >= 2 && raws[k - 1] == (raws[k - 2] + 1) % CYCLE && raws[k] == (raws[k - 1] + 1) % CYCLE
  }

  function Raws(arrivals: seq<Arrival>): (r: seq<u16>)
    ensures |r| == |arrivals| && forall i :: 0 <= i < |r| ==> r[i] == arrivals[i].raw
  {
    seq(|arrivals|, i requires 0 <= i < |arrivals| => arrivals[i].raw)
  }

  function Packets(arrivals: seq<Arrival>): (r: seq<Event>)
    ensures |r| == |arrivals| && forall i :: 0 <= i < |r| ==> r[i] == Packet(arrivals[i])
  {
    seq(|arrivals|, i requires 0 <= i < |arrivals| => Packet(arrivals[i]))
  }

  /** Probation ends with the first packet that is the third of three consecutive ones, and not before. */
  lemma {:induction false} ProbationExact(arrivals: seq<Arrival>)
    requires forall i :: 0 <= i < |arrivals| ==> arrivals[i].applyProbation
    ensures Run(Packets(arrivals)).stats.sentData <==> exists k :: 0 <= k < |arrivals| && ThreeInARow(Raws(arrivals), k)
  {
    ProbationState(arrivals);
  }

  /** What probation remembers of the numbers that came in. */
  ghost predicate Waiting(s: Stats, raws: seq<u16>) {
    && (s.sentData <==> exists k :: 0 <= k < |raws| && ThreeInARow(raws, k))
    && (raws != [] && !s.sentData ==>
          s.prevSeqNr == raws[|raws| - 1]
          && s.probation == if |raws| >= 2 && raws[|raws| - 1] == (raws[|raws| - 2] + 1) % CYCLE then 1 else 2)
    && (raws == [] ==> s.probation == 0)
  }

  lemma {:induction false} WaitingKept(s: Stats, raws: seq<u16>, a: Arrival)
    requires Waiting(s, raws) && a.applyProbation
    ensures Waiting(Processed(s, a).stats, raws + [a.raw])
  {
    hide Later, Wrap32;
    var all := raws + [a.raw];
    assert forall k :: 0 <= k < |raws| ==> (ThreeInARow(all, k) <==> ThreeInARow(raws, k));
    LaterCountersIf(s, a);
    if ThreeInARow(all, |raws|) {
      assert all[|raws|] == a.raw;
    }
  }

  lemma {:induction false} ProbationState(arrivals: seq<Arrival>)
    requires forall i :: 0 <= i < |arrivals| ==> arrivals[i].applyProbation
    ensures Waiting(Run(Packets(arrivals)).stats, Raws(arrivals))
  {
    hide Processed, Waiting;
    if arrivals != [] {
      var last := |arrivals| - 1;
      ProbationState(arrivals[..last]);
      WaitingKept(Run(Packets(arrivals[..last])).stats, Raws(arrivals[..last]), arrivals[last]);
      assert Packets(arrivals)[..last] == Packets(arrivals[..last]);
      assert Raws(arrivals) == Raws(arrivals[..last]) + [arrivals[last].raw];
    } else {
      NoneWaiting();
    }
  }

  lemma {:induction false} NoneWaiting()
    ensures Waiting(FRESH, [])
  {
  }

  lemma {:induction false} LaterCountersIf(s: Stats, a: Arrival)
    ensures s.sentData ==> Processed(s, a).stats.sentData
  {
    if s.sentData {
      LaterCounters(s, a);
    }
  }

  // ---------- jitter ----------

  /** No packet of the run deviates by more than this from its timestamp. */
  predicate Steady(events: seq<Event>, most: real) {
    forall i :: 0 <= i < |events| && events[i].Packet? && events[i].arrival.tsUnit > 0.0 ==>
      Deviation(Run(events[..i]).stats, events[i].arrival) <= most
  }

  /** Over a whole run the estimate stays between zero and the largest deviation, and the integer is the estimate cut down. */
  lemma {:induction false} JitterOverRun(events: seq<Event>, most: real)
    requires most >= 0.0 && Steady(events, most)
    ensures var s := Run(events).stats; 0.0 <= s.djitter <= most && s.jitter == s.djitter.Floor
  {
    hide Deviation, Smoothed, Processed;
    if events != [] {
      var front, last := events[..|events| - 1], events[|events| - 1];
      assert forall i :: 0 <= i < |front| ==> front[..i] == events[..i] && front[i] == events[i];
      JitterOverRun(front, most);
      if last.Packet? {
        JitterBounded(Run(front).stats, last.arrival, most);
        JitterWhole(Run(front).stats, last.arrival);
      }
    }
  }

  lemma {:induction false} JitterWhole(s: Stats, a: Arrival)
    requires s.jitter == s.djitter.Floor
    ensures Processed(s, a).stats.jitter == Processed(s, a).stats.djitter.Floor
  {
    hide Deviation, Smoothed, Extended;
  }

  /** The integer estimate is the estimate cut down. */
  lemma {:induction false} JitterIsFloor(events: seq<Event>)
    ensures Run(events).stats.jitter == Run(events).stats.djitter.Floor
  {
    hide Deviation, Smoothed, Processed;
    if events != [] {
      var front, last := events[..|events| - 1], events[|events| - 1];
      JitterIsFloor(front);
      if last.Packet? {
        JitterWhole(Run(front).stats, last.arrival);
      }
    }
  }

  /** The amount, times (15/16) to the power of n. */
  function Left(amount: real, n: nat): real {
    if n == 0 then amount else Left(amount, n - 1) * 15.0 / 16.0
  }

  /** Every packet after the first that counts deviates by the same amount. */
  predicate Uniform(events: seq<Event>, deviation: real) {
    forall i :: 0 <= i < |events| && events[i].Packet? && Run(events[..i]).stats.sentData ==>
      events[i].arrival.tsUnit > 0.0 && Deviation(Run(events[..i]).stats, events[i].arrival) == deviation
  }

  lemma {:induction false} JitterGain(s: Stats, a: Arrival, deviation: real)
    requires s.sentData ==> a.tsUnit > 0.0 && Deviation(s, a) == deviation
    ensures var o := Processed(s, a);
            deviation - o.stats.djitter == if s.sentData then (deviation - s.djitter) * 15.0 / 16.0 else deviation - s.djitter
    ensures s.sentData ==> Processed(s, a).accept
  {
    hide Deviation, Extended;
    if s.sentData {
      AlwaysAccepted(s, a);
    }
  }

  lemma {:induction false} AlwaysAccepted(s: Stats, a: Arrival)
    requires s.sentData
    ensures Processed(s, a).accept && Extended(s, a).accept && Extended(s, a).stats.djitter == s.djitter
  {
    hide Deviation, Smoothed;
  }

  /** A constant deviation is approached by a sixteenth of the distance with each packet after the first. */
  lemma {:induction false} JitterConverges(events: seq<Event>, deviation: real)
    requires Uniform(events, deviation)
    ensures var log := Run(events);
            deviation - log.stats.djitter == Left(deviation, if log.raws == [] then 0 else |log.raws| - 1)
  {
    hide Deviation, Smoothed, Processed, Wrap32;
    if events != [] {
      var front, last := events[..|events| - 1], events[|events| - 1];
      assert forall i :: 0 <= i < |front| ==> front[..i] == events[..i] && front[i] == events[i];
      JitterConverges(front, deviation);
      RunBalanced(front);
      if last.Packet? {
        JitterGain(Run(front).stats, last.arrival, deviation);
      }
    }
  }
}
