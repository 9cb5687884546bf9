/**
 What the receiver of a report reads in its blocks: for each source that a walk reports on, the numbers of the packets
 that came, and of those that did not, since the first one and since the last report.
 */
module ReportExact {
  import opened Bytes
  import F = RtcpFormat
  import opened RtcpBuild
  import opened RtcpBuildRuns
  import opened SourceStats
  import opened PacketRound
  import opened PacketRoundRuns
  import opened LossReport
  import opened ReportSelection
  import R = SourceStatsRuns

  // ---------------------------------------------------------------- intervals

  /** How many packets had been counted when the last report cut the run. */
  function BeforeCut(events: seq<R.Event>): nat {
    if events == [] then 0
    else
      var front, last := events[..|events| - 1], events[|events| - 1];
      if last.Cut? then |R.Run(front).raws| else BeforeCut(front)
  }

  /** The highest number at the last report; before the first one, the number before that of the first packet. */
  function HighBefore(ns: seq<int>, k: nat): int
    requires k <= |ns| && ns != []
  {
    if k == 0 then ns[0] - 1 else R.Highest(ns[..k])
  }

  /** The statistics remember the highest number at the last cut, and count the packets since. */
  lemma {:induction false} SinceCut(events: seq<R.Event>)
    ensures var log, k := R.Run(events), BeforeCut(events);
            && k <= |log.raws|
            && (log.raws == [] ==> log.stats.numNewPackets == 0)
            && (log.raws != [] ==>
                  && log.stats.savedExtSeqNr == Wrap32(HighBefore(R.Numbers(log.raws), k))
                  && log.stats.numNewPackets == Wrap32(|log.raws| - k))
  {
    hide R.Record, R.Numbers, HighBefore, Wrap32, Processed;
    if events != [] {
      var front, last := events[..|events| - 1], events[|events| - 1];
      SinceCut(front);
      R.RunBalanced(front);
      if last.Cut? {
        CutInterval(events);
      } else {
        LongerInterval(R.Run(front), last.arrival, BeforeCut(front));
      }
    }
  }

  lemma {:induction false} CutInterval(events: seq<R.Event>)
    requires events != [] && events[|events| - 1].Cut?
    ensures var log := R.Run(events);
            var k := |R.Run(events[..|events| - 1]).raws|;
            && k == |log.raws| && log.stats.numNewPackets == 0 == Wrap32(|log.raws| - k)
            && (log.raws != [] ==> log.stats.savedExtSeqNr == Wrap32(HighBefore(R.Numbers(log.raws), k)))
  {
    hide R.Numbers, R.Highest, Processed, R.Record;
    var front := events[..|events| - 1];
    R.MachineNumbers(front);
    var log := R.Run(front);
    CutChanges(log);
    assert R.Numbers(log.raws)[..|log.raws|] == R.Numbers(log.raws);
  }

  lemma {:induction false} CutChanges(log: R.Log)
    ensures var l := R.Record(log, R.Cut);
            l.raws == log.raws && l.stats.numNewPackets == 0 && l.stats.savedExtSeqNr == log.stats.extHighSeqNr
  {
  }

  lemma {:induction false} LongerInterval(log: R.Log, a: Arrival, k: nat)
    requires R.Balanced(log) && k <= |log.raws|
    requires log.raws == [] ==> log.stats.numNewPackets == 0
    requires log.raws != [] ==> log.stats.savedExtSeqNr == Wrap32(HighBefore(R.Numbers(log.raws), k))
                                && log.stats.numNewPackets == Wrap32(|log.raws| - k)
    ensures var l := R.Record(log, R.Packet(a));
            && k <= |l.raws|
            && (l.raws == [] ==> l.stats.numNewPackets == 0)
            && (l.raws != [] ==>
                  && l.stats.savedExtSeqNr == Wrap32(HighBefore(R.Numbers(l.raws), k))
                  && l.stats.numNewPackets == Wrap32(|l.raws| - k))
  {
    hide R.Numbers, R.Highest, Processed, Wrap32;
    if log.stats.sentData {
      R.LaterCounters(log.stats, a);
      R.WrapSum(1, |log.raws| - k);
      R.NumbersAppend(log.raws, a.raw);
      SamePast(R.Numbers(log.raws), R.Number(R.Highest(R.Numbers(log.raws)), a.raw), k);
    } else {
      R.EarlyCounters(log.stats, a);
      if Processed(log.stats, a).accept {
        R.FirstStep(log.stats, a);
        R.FirstHighest(a.raw);
        assert [] + [a.raw] == [a.raw];
        SmallWrap(R.Numbers([a.raw])[0] - 1);
      }
    }
  }

  lemma {:induction false} SmallWrap(x: int)
    ensures 0 <= x < 0x1_0000_0000 ==> Wrap32(x) == x
  {
  }

  lemma {:induction false} SamePast(ns: seq<int>, n: int, k: nat)
    requires ns != [] && k <= |ns|
    ensures HighBefore(ns + [n], k) == HighBefore(ns, k)
  {
    assert (ns + [n])[..k] == ns[..k];
  }

  lemma {:induction false} PrefixInStep(ts: seq<int>, k: nat)
    requires R.AllInStep(ts) && k <= |ts|
    ensures R.AllInStep(ts[..k])
  {
    hide R.InStep, R.Highest;
    forall i | 1 <= i < k
      ensures R.InStep(R.Highest(ts[..k][..i]), ts[..k][i])
    {
      assert ts[..k][..i] == ts[..i] && ts[..k][i] == ts[i];
    }
  }

  // ---------------------------------------------------------------- the fields of a block

  /** The run has counted these packets, by their true numbers. */
  predicate CameIn(events: seq<R.Event>, ts: seq<int>) {
    && |R.Run(events).raws| == |ts| > 0 && R.AllInStep(ts)
    && forall i :: 0 <= i < |ts| ==> R.Run(events).raws[i] == ts[i] % 0x1_0000
  }

  /** The fraction, in 256ths and cut down, of what should have come that did not, or zero if more came. */
  predicate IsFraction(f: int, expected: int, received: int) {
    var lost := if expected < received then 0 else expected - received;
    f * expected <= lost * 256 && (expected > 0 ==> lost * 256 < (f + 1) * expected)
  }

  /** The numbers from the first packet to the highest that never came. */
  ghost function Missing(ts: seq<int>): set<int>
    requires ts != []
  {
    R.Span(ts[0] - 1, R.Highest(ts)) - R.Elements(ts)
  }

  /**
   What a block says about a source of which these packets came, the first k before the last report. The loss is that
   since the first packet, the fraction that since the last report.
   */
  ghost predicate Says(b: F.ReportBlock, c: Candidate, ts: seq<int>, k: nat)
    requires ts != []
  {
    var lost := R.Highest(ts) - ts[0] + 1 - |ts|;
    && k <= |ts|
    && b.ssrc == c.ssrc
    && b.extHighSeq == R.Highest(ts) % 0x1_0000_0000
    && (-0x80_0000 <= lost < 0x80_0000 ==> b.packetsLost == lost)
    && (R.NoneTwice(ts) && |Missing(ts)| < 0x80_0000 ==> b.packetsLost == |Missing(ts)|)
    && Fraction(b, R.Highest(ts) - HighBefore(ts, k), |ts| - k)
    && b.jitter == c.stats.djitter.Floor % 0x1_0000_0000
    && (b.lsr, b.dlsr) == (c.lsr, c.dlsr)
  }

  /** There is a fraction if a packet came in the interval. */
  predicate Fraction(b: F.ReportBlock, expected: int, received: int) {
    0 < received < 0x1_0000_0000 && 0 <= expected < 0x1_0000_0000 ==> IsFraction(b.fractionLost as int, expected, received)
  }

  lemma {:induction false} HighGrows(ts: seq<int>, k: nat)
    requires k <= |ts| && ts != []
    ensures HighBefore(ts, k) <= R.Highest(ts)
  {
    hide R.Highest;
    R.HighestFacts(ts);
    if k > 0 {
      R.HighestFacts(ts[..k]);
      assert forall i :: 0 <= i < k ==> ts[..k][i] == ts[i];
    }
  }

  lemma {:induction false} IntervalIs(events: seq<R.Event>, ts: seq<int>)
    requires CameIn(events, ts)
    ensures var s, k := R.Run(events).stats, BeforeCut(events);
            && k <= |ts| && s.savedExtSeqNr == Wrap32(HighBefore(ts, k)) && s.numNewPackets == Wrap32(|ts| - k)
  {
    hide R.Run, R.AllInStep, R.Numbers, HighBefore, Wrap32, BeforeCut;
    SinceCut(events);
    R.NumbersExact(R.Run(events).raws, ts);
  }

  lemma {:induction false} WrapTo(x: int, y: int)
    ensures Wrap32(Wrap32(x) - Wrap32(y)) == Wrap32(x - y)
  {
  }

  lemma {:induction false} FractionSays(c: Candidate, odd: byte, events: seq<R.Event>, ts: seq<int>)
    requires CameIn(events, ts) && c.stats == R.Run(events).stats
    ensures BeforeCut(events) <= |ts|
    ensures Fraction(BlockFor(c, odd), R.Highest(ts) - HighBefore(ts, BeforeCut(events)), |ts| - BeforeCut(events))
  {
    hide R.Run, R.AllInStep, R.Highest, HighBefore, Wrap32, BeforeCut, FractionLost, PacketsLost, IsFraction;
    var k := BeforeCut(events);
    IntervalIs(events, ts);
    HighIs(events, ts);
    var e, n := R.Highest(ts) - HighBefore(ts, k), |ts| - k;
    WrapTo(R.Highest(ts), HighBefore(ts, k));
    if 0 < n < 0x1_0000_0000 && 0 <= e < 0x1_0000_0000 {
      SmallWrap(e);
      SmallWrap(n);
      FractionIs(e, n);
    }
  }

  lemma {:induction false} FractionIs(expected: u32, received: u32)
    requires received > 0
    ensures FractionLost(expected, received).Some? && IsFraction(FractionLost(expected, received).value as int, expected, received)
  {
    FractionExact(expected, received);
  }

  lemma {:induction false} HighIs(events: seq<R.Event>, ts: seq<int>)
    requires CameIn(events, ts)
    ensures R.Run(events).stats.extHighSeqNr == Wrap32(R.Highest(ts))
  {
    hide R.Run, R.AllInStep, R.Highest, Wrap32;
    R.SequenceExtension(events, ts);
  }

  /** After 24 bits, the block says of every field what the packets say. */
  lemma {:induction false} BlockExact(c: Candidate, odd: byte, events: seq<R.Event>, ts: seq<int>)
    requires CameIn(events, ts) && c.stats == R.Run(events).stats
    ensures Says(F.Canonical(BlockFor(c, odd)), c, ts, BeforeCut(events))
  {
    hide R.Run, R.AllInStep, R.Highest, HighBefore, BeforeCut, FractionLost, PacketsLost, IsFraction, R.Span, R.Elements, R.NoneTwice;
    FractionSays(c, odd, events, ts);
    HighIs(events, ts);
    R.JitterIsFloor(events);
    R.CumulativeLoss(events, ts);
    var lost := R.Highest(ts) - ts[0] + 1 - |ts|;
    if -0x80_0000 <= lost < 0x80_0000 {
      LossReads(c.stats.extHighSeqNr, c.stats.baseSeqNr, c.stats.packetsReceived, lost);
    }
  }

  // ---------------------------------------------------------------- the blocks of a walk

  /** The sources that a walk may report on, in their order. */
  function AvailableOf(sources: seq<Candidate>, since: Since): seq<Candidate> {
    if sources == [] then []
    else (if Available(sources[0], since) then [sources[0]] else []) + AvailableOf(sources[1..], since)
  }

  lemma {:induction false} BlocksOf(sources: seq<Candidate>, since: Since, odd: byte)
    ensures var a, b := AvailableOf(sources, since), Blocks(sources, since, odd);
            |b| == |a| && forall i :: 0 <= i < |a| ==> b[i] == BlockFor(a[i], odd)
  {
    hide Available, BlockFor;
    if sources != [] {
      BlocksOf(sources[1..], since, odd);
    }
  }

  lemma {:induction false} AddedBlocks(max: nat, c: Content, blocks: seq<F.ReportBlock>, limit: int, added: nat)
    requires ContentOk(c)
    ensures var (d, n, full) := AddBlocks(max, c, blocks, limit, added);
            added <= n <= added + |blocks| && d.blocks == c.blocks + blocks[..n - added]
    decreases |blocks|
  {
    hide ContentOk, Size;
    if blocks != [] {
      var (d, status) := Step(max, c, Call.AddReportBlock(blocks[0]));
      var (e, n, full) := AddBlocks(max, c, blocks, limit, added);
      if status == Ok && added + 1 < limit {
        AddedBlocks(max, d, blocks[1..], limit, added + 1);
        assert blocks[..n - added] == [blocks[0]] + blocks[1..][..n - added - 1];
      } else {
        assert blocks[..1] == [blocks[0]];
      }
    }
  }

  lemma {:induction false} WalkBlock(max: nat, c: Content, sources: seq<Candidate>, since: Since, limit: int, odd: byte, i: nat)
    requires ContentOk(c) && i < Fill(max, c, sources, since, limit, 0, odd).added
    ensures var blocks := Fill(max, c, sources, since, limit, 0, odd).content.blocks;
            && i < |AvailableOf(sources, since)| && |c.blocks| + i < |blocks|
            && blocks[|c.blocks| + i] == BlockFor(AvailableOf(sources, since)[i], odd)
  {
    hide Fill, ContentOk, Available, BlockFor, AddBlocks;
    FillAddsBlocks(max, c, sources, since, limit, 0, odd);
    AddedBlocks(max, c, Blocks(sources, since, odd), limit, 0);
    BlocksOf(sources, since, odd);
  }

  lemma {:induction false} ReadBlock(d: bytes, p: nat, blocks: seq<F.ReportBlock>, j: nat)
    requires At(d, p, F.EncodeBlocks(blocks)) && j < |blocks|
    ensures p + 24 * (j + 1) <= |d| && F.BlockAt(d, p + 24 * j) == F.Canonical(blocks[j])
  {
    hide F.Canonical, F.EncodeBlocks, F.BlockAt, F.BlocksAt;
    assert p + 24 * |blocks| <= |d|;
    F.BlocksRoundTrip(d, p, blocks);
    F.BlockByIndex(d, p, |blocks|, j);
  }

  /**
   Every block that a walk adds, read from the bytes of the packet: block i is about the i-th source that was left to
   report on, and says of all its packets what is true.
   */
  lemma {:induction false} WalkSays(max: nat, c: Content, sources: seq<Candidate>, since: Since, limit: int, odd: byte, i: nat,
                                    events: seq<R.Event>, ts: seq<int>, d: bytes, p: nat)
    requires ContentOk(c) && CameIn(events, ts)
    requires i < Fill(max, c, sources, since, limit, 0, odd).added && i < |AvailableOf(sources, since)|
    requires AvailableOf(sources, since)[i].stats == R.Run(events).stats
    requires At(d, p, F.EncodeBlocks(Fill(max, c, sources, since, limit, 0, odd).content.blocks))
    ensures p + 24 * (|c.blocks| + i + 1) <= |d|
    ensures Says(F.BlockAt(d, p + 24 * (|c.blocks| + i)), AvailableOf(sources, since)[i], ts, BeforeCut(events))
  {
    hide Fill, ContentOk, BlockFor, Says, CameIn, R.Run, BeforeCut, AvailableOf, At;
    WalkBlock(max, c, sources, since, limit, odd, i);
    ReadBlock(d, p, Fill(max, c, sources, since, limit, 0, odd).content.blocks, |c.blocks| + i);
    BlockExact(AvailableOf(sources, since)[i], odd, events, ts);
  }

  /** With the report, the next interval of the source begins. */
  lemma {:induction false} ReportCuts(c: Candidate, events: seq<R.Event>)
    requires c.stats == R.Run(events).stats
    ensures Reported(c).stats == R.Run(events + [R.Cut]).stats && BeforeCut(events + [R.Cut]) == |R.Run(events + [R.Cut]).raws|
  {
    assert (events + [R.Cut])[..|events|] == events;
  }
}
