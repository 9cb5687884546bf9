/**
 The receive statistics of one source: probation, the extension of 16-bit sequence numbers to 32 bits,
 the packet counters of a reporting interval, and the interarrival jitter.
 */
module SourceStats {
  import opened Bytes

  /** A point in time in microseconds; seconds are kept in 32 bits, so differences wrap around. */
  const ERA: int := 0x1_0000_0000 * 1_000_000
  type RtpTime = t: int | 0 <= t < 0x1_0000_0000 * 1_000_000

  function TimeMinus(a: RtpTime, b: RtpTime): RtpTime {
    (a - b) % ERA
  }

  function Seconds(t: RtpTime): real {
    t as real / 1_000_000.0
  }

  const PROBATION_COUNT := 2

  function Wrap32(x: int): u32 {
    x % 0x1_0000_0000
  }

  datatype Stats = Stats(
    sentData: bool, packetsReceived: u32, numCycles: u32, baseSeqNr: u32,
    extHighSeqNr: u32, prevExtHighSeqNr: u32,
    jitter: int, prevTimestamp: u32, djitter: real,
    prevPackTime: RtpTime, lastMsgTime: RtpTime, lastRtpTime: RtpTime, lastNoteTime: RtpTime,
    numNewPackets: u32, savedExtSeqNr: u32, prevSeqNr: u16, probation: nat)

  const FRESH: Stats :=
    Stats(false, 0, 0, 0, 0, 0, 0, 0, 0.0, 0, 0, 0, 0, 0, 0, 0, 0)

  /** A packet as it comes in: its 16-bit number, and the circumstances the statistics depend on. */
  datatype Arrival = Arrival(raw: u16, timestamp: u32, now: RtpTime, tsUnit: real, own: bool, applyProbation: bool)

  datatype Outcome = Outcome(stats: Stats, seqNr: u32, accept: bool, onProbation: bool)

  /** The signed distance that the jitter estimate sees between two timestamps. */
  function TimestampStep(prev: u32, cur: u32): int {
    var ahead := Wrap32(cur - prev);
    if cur > prev && ahead < 0x1000_0000 then ahead
    else if cur < prev && 0x1_0000_0000 - ahead >= 0x1000_0000 then ahead
    else if cur == prev then 0
    else ahead - 0x1_0000_0000
  }

  function Abs(x: real): real {
    if x < 0.0 then -x else x
  }

  /** How much later than its timestamp suggests the packet came, in timestamp units. */
  function Deviation(s: Stats, a: Arrival): real
    requires a.tsUnit > 0.0
  {
    Abs(Seconds(TimeMinus(a.now, s.prevPackTime)) / a.tsUnit - TimestampStep(s.prevTimestamp, a.timestamp) as real)
  }

  function Smoothed(djitter: real, deviation: real): real {
    djitter + (deviation - djitter) / 16.0
  }

  /** The first packet that counts. The number before it becomes the base; number 0 is taken as 65536. */
  function FirstAccepted(s: Stats, a: Arrival): Outcome {
    var first: u32 := if a.raw == 0 then 0x1_0000 else a.raw;
    Outcome(
      s.(sentData := true, packetsReceived := Wrap32(s.packetsReceived + 1), numNewPackets := Wrap32(s.numNewPackets + 1),
         numCycles := if a.raw == 0 then 0x1_0000 else s.numCycles,
         baseSeqNr := first - 1, extHighSeqNr := first, prevExtHighSeqNr := first - 1, savedExtSeqNr := first - 1,
         prevPackTime := a.now, prevTimestamp := a.timestamp, lastMsgTime := a.now,
         lastRtpTime := if a.own then s.lastRtpTime else a.now),
      first, true, false)
  }

  /** Whether the packet is the one that probation is waiting for. */
  predicate Expected(s: Stats, a: Arrival) {
    s.probation > 0 && a.raw == (s.prevSeqNr + 1) % 0x1_0000
  }

  function OnProbation(s: Stats, a: Arrival): Outcome {
    var left := if Expected(s, a) then s.probation - 1 else PROBATION_COUNT;
    var t := s.(prevSeqNr := a.raw, probation := left);
    if left == 0 then FirstAccepted(t, a) else Outcome(t.(lastMsgTime := a.now), a.raw, false, true)
  }

  /** The sequence number of a later packet, which may open a new cycle or raise the highest number. */
  function Extended(s: Stats, a: Arrival): Outcome {
    var max := s.extHighSeqNr % 0x1_0000;
    var cycles := if a.raw < max - 0x8000 then Wrap32(s.numCycles + 0x1_0000) else s.numCycles;
    var number := Wrap32(cycles + a.raw);
    var high := if max - 0x8000 <= a.raw < max then s.extHighSeqNr else number;
    Outcome(s.(numCycles := cycles, extHighSeqNr := high), number, true, false)
  }

  function Later(s: Stats, a: Arrival): Outcome {
    var o := Extended(s, a);
    var dj := if a.tsUnit > 0.0 then Smoothed(s.djitter, Deviation(s, a)) else 0.0;
    o.(stats := o.stats.(packetsReceived := Wrap32(s.packetsReceived + 1), numNewPackets := Wrap32(s.numNewPackets + 1),
                         djitter := dj, jitter := dj.Floor,
                         prevPackTime := a.now, prevTimestamp := a.timestamp, lastMsgTime := a.now,
                         lastRtpTime := if a.own then s.lastRtpTime else a.now))
  }

  function Processed(s: Stats, a: Arrival): Outcome {
    if s.sentData then Later(s, a)
    else if a.applyProbation then OnProbation(s, a)
    else FirstAccepted(s, a)
  }

  function NewInterval(s: Stats): Stats {
    s.(numNewPackets := 0, savedExtSeqNr := s.extHighSeqNr)
  }

  class RtpSourceStats {
    var sentData: bool
    var packetsReceived: u32
    var numCycles: u32
    var baseSeqNr: u32
    var extHighSeqNr: u32
    var prevExtHighSeqNr: u32
    var jitter: int
    var prevTimestamp: u32
    var djitter: real
    var prevPackTime: RtpTime
    var lastMsgTime: RtpTime
    var lastRtpTime: RtpTime
    var lastNoteTime: RtpTime
    var numNewPackets: u32
    var savedExtSeqNr: u32
    var prevSeqNr: u16
    var probation: nat

    ghost function State(): Stats
      reads this
    {
      Stats(sentData, packetsReceived, numCycles, baseSeqNr, extHighSeqNr, prevExtHighSeqNr, jitter, prevTimestamp,
            djitter, prevPackTime, lastMsgTime, lastRtpTime, lastNoteTime, numNewPackets, savedExtSeqNr, prevSeqNr, probation)
    }

    constructor ()
      ensures State() == FRESH
    {
      sentData, packetsReceived, numCycles, baseSeqNr, extHighSeqNr, prevExtHighSeqNr := false, 0, 0, 0, 0, 0;
      jitter, prevTimestamp, djitter, prevPackTime, lastMsgTime, lastRtpTime, lastNoteTime := 0, 0, 0.0, 0, 0, 0, 0;
      numNewPackets, savedExtSeqNr, prevSeqNr, probation := 0, 0, 0, 0;
    }

    method Count()
      modifies `packetsReceived, `numNewPackets
      ensures packetsReceived == Wrap32(old(packetsReceived) + 1) && numNewPackets == Wrap32(old(numNewPackets) + 1)
    {
      packetsReceived := (packetsReceived + 1) % 0x1_0000_0000;
      numNewPackets := (numNewPackets + 1) % 0x1_0000_0000;
    }

    method Stamp(a: Arrival)
      modifies `prevPackTime, `prevTimestamp, `lastMsgTime, `lastRtpTime
      ensures prevPackTime == a.now && prevTimestamp == a.timestamp && lastMsgTime == a.now
      ensures lastRtpTime == if a.own then old(lastRtpTime) else a.now
    {
      prevPackTime := a.now;
      prevTimestamp := a.timestamp;
      lastMsgTime := prevPackTime;
      if !a.own {
        lastRtpTime := prevPackTime;
      }
    }

    method SetBase(a: Arrival)
      modifies `numCycles, `baseSeqNr, `extHighSeqNr, `prevExtHighSeqNr, `savedExtSeqNr
      ensures extHighSeqNr == (if a.raw == 0 then 0x1_0000 else a.raw)
      ensures baseSeqNr == prevExtHighSeqNr == savedExtSeqNr == extHighSeqNr - 1
      ensures numCycles == if a.raw == 0 then 0x1_0000 else old(numCycles)
    {
      if a.raw == 0 {
        baseSeqNr := 0x0000_FFFF;
        numCycles := 0x0001_0000;
      } else {
        baseSeqNr := a.raw - 1;
      }
      extHighSeqNr := baseSeqNr + 1;
      prevExtHighSeqNr := baseSeqNr;
      savedExtSeqNr := baseSeqNr;
    }

    method Accept(a: Arrival) returns (seqNr: u32)
      modifies this
      ensures Outcome(State(), seqNr, true, false) == FirstAccepted(old(State()), a)
    {
      hide Wrap32;
      sentData := true;
      Count();
      SetBase(a);
      seqNr := extHighSeqNr;
      Stamp(a);
    }

    method ApplyProbation(a: Arrival) returns (accept: bool, onProbation: bool)
      requires !sentData
      modifies `prevSeqNr, `probation
      ensures prevSeqNr == a.raw && onProbation == !accept && accept == (probation == 0)
      ensures probation == if Expected(old(State()), a) then old(probation) - 1 else PROBATION_COUNT
    {
      accept, onProbation := false, false;
      if probation != 0 {
        var pseq: u16 := (prevSeqNr + 1) % 0x1_0000;
        if pseq == a.raw {
          prevSeqNr := a.raw;
          probation := probation - 1;
          if probation == 0 {
            accept := true;
          } else {
            onProbation := true;
          }
        } else {
          probation := PROBATION_COUNT;
          prevSeqNr := a.raw;
          onProbation := true;
        }
      } else {
        probation := PROBATION_COUNT;
        prevSeqNr := a.raw;
        onProbation := true;
      }
    }

    method ExtendSequenceNumber(a: Arrival) returns (seqNr: u32)
      modifies `numCycles, `extHighSeqNr
      ensures Outcome(State(), seqNr, true, false) == Extended(old(State()), a)
    {
      var maxSeq16: u16 := extHighSeqNr % 0x1_0000;
      if a.raw >= maxSeq16 {
        seqNr := (numCycles + a.raw) % 0x1_0000_0000;
        extHighSeqNr := seqNr;
      } else {
        var dif1: u16 := (a.raw - maxSeq16) % 0x1_0000;
        var dif2: u16 := (maxSeq16 - a.raw) % 0x1_0000;
        if dif1 < dif2 {
          numCycles := (numCycles + 0x1_0000) % 0x1_0000_0000;
          seqNr := (numCycles + a.raw) % 0x1_0000_0000;
          extHighSeqNr := seqNr;
        } else {
          seqNr := (numCycles + a.raw) % 0x1_0000_0000;
        }
      }
    }

    method TimestampDifference(timestamp: u32) returns (diffts2: int)
      ensures diffts2 == TimestampStep(prevTimestamp, timestamp)
    {
      diffts2 := 0;
      if timestamp > prevTimestamp {
        var unsignedDiff: u32 := timestamp - prevTimestamp;
        if unsignedDiff < 0x1000_0000 {
          diffts2 := unsignedDiff;
        } else {
          diffts2 := -((0 - unsignedDiff as int) % 0x1_0000_0000);
        }
      } else if timestamp < prevTimestamp {
        var unsignedDiff: u32 := prevTimestamp - timestamp;
        if unsignedDiff < 0x1000_0000 {
          diffts2 := 0 - unsignedDiff as int;
        } else {
          diffts2 := (0 - unsignedDiff as int) % 0x1_0000_0000;
        }
      }
    }

    method UpdateJitter(a: Arrival)
      modifies `djitter, `jitter
      ensures djitter == if a.tsUnit > 0.0 then Smoothed(old(djitter), Deviation(old(State()), a)) else 0.0
      ensures jitter == djitter.Floor
    {
      hide TimestampStep, Seconds, TimeMinus;
      if a.tsUnit > 0.0 {
        var curTime := TimeMinus(a.now, prevPackTime);
        var diffts1 := Seconds(curTime) / a.tsUnit;
        var diffts2 := TimestampDifference(a.timestamp);
        var diff := diffts1 - diffts2 as real;
        if diff < 0.0 {
          diff := -diff;
        }
        diff := diff - djitter;
        diff := diff / 16.0;
        djitter := djitter + diff;
        jitter := djitter.Floor;
      } else {
        djitter := 0.0;
        jitter := 0;
      }
    }

    method ProcessPacket(a: Arrival) returns (seqNr: u32, accept: bool, onProbation: bool)
      modifies this
      ensures Outcome(State(), seqNr, accept, onProbation) == Processed(old(State()), a)
    {
      hide Smoothed, Wrap32, TimestampStep, Seconds, TimeMinus, Abs, Later, FirstAccepted;
      seqNr, onProbation := a.raw, false;
      if !sentData {
        if a.applyProbation {
          accept, onProbation := ApplyProbation(a);
          if accept {
            seqNr := Accept(a);
          } else {
            lastMsgTime := a.now;
          }
        } else {
          accept := true;
          seqNr := Accept(a);
        }
      } else {
        accept := true;
        seqNr := ProcessLater(a);
      }
    }

    method ProcessLater(a: Arrival) returns (seqNr: u32)
      requires sentData
      modifies this
      ensures Outcome(State(), seqNr, true, false) == Later(old(State()), a)
    {
      hide Smoothed, Wrap32, TimestampStep, Seconds, TimeMinus, Abs;
      Count();
      seqNr := ExtendSequenceNumber(a);
      UpdateJitter(a);
      Stamp(a);
    }

    method SetLastMessageTime(t: RtpTime)
      modifies this
      ensures State() == old(State()).(lastMsgTime := t)
    {
      lastMsgTime := t;
    }

    method SetLastRTPPacketTime(t: RtpTime)
      modifies this
      ensures State() == old(State()).(lastRtpTime := t)
    {
      lastRtpTime := t;
    }

    method SetLastNoteTime(t: RtpTime)
      modifies this
      ensures State() == old(State()).(lastNoteTime := t)
    {
      lastNoteTime := t;
    }

    method StartNewInterval()
      modifies this
      ensures State() == NewInterval(old(State()))
    {
      numNewPackets := 0;
      savedExtSeqNr := extHighSeqNr;
    }
  }

  /**
   The distance is the true one for every step of less than 2^28 in either direction, also over a wrap-around
   of the timestamps; a larger step is taken right only where it crosses one.
   */
  lemma {:induction false} TimestampStepExact(prev: u32, d: int)
    requires -0x8000_0000 <= d < 0x8000_0000
    ensures TimestampStep(prev, Wrap32(prev + d)) == d
      <==> -0x1000_0000 < d < 0x1000_0000 || !(0 <= prev + d < 0x1_0000_0000)
  {
  }

  /** A step of 2^28 units from timestamp 0 is taken as a long way back. */
  lemma {:induction false} TimestampStepWrong()
    ensures TimestampStep(0, 0x1000_0000) == -0xF000_0000
  {
  }

  /** The estimate stays between zero and the largest deviation it has been fed. */
  lemma {:induction false} JitterBounded(s: Stats, a: Arrival, most: real)
    requires 0.0 <= s.djitter <= most && (a.tsUnit > 0.0 ==> Deviation(s, a) <= most)
    ensures 0.0 <= Processed(s, a).stats.djitter <= most
  {
    hide TimestampStep, Seconds, TimeMinus, Extended;
    if s.sentData && a.tsUnit > 0.0 {
      assert Deviation(s, a) >= 0.0;
    }
  }
}
