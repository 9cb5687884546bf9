/** The loss fields of a report block, from the statistics of a source to the receiver of the report. */
module LossReport {
  import opened Bytes
  import F = RtcpFormat
  import opened PacketRound
  import opened SourceStats
  import R = SourceStatsRuns

  /** The fraction is missing exactly for an interval without packets; otherwise it is the loss in 256ths, cut down. */
  lemma {:induction false} FractionExact(expected: u32, received: u32)
    ensures FractionLost(expected, received) == None <==> received == 0
    ensures received > 0 ==>
              var v := FractionLost(expected, received).value as int;
              var lost := if expected < received then 0 else expected - received;
              v * expected <= lost * 256 && (expected > 0 ==> lost * 256 < (v + 1) * expected)
  {
    if 0 < received <= expected {
      var a := (expected - received) * 256;
      assert a == a / expected * expected + a % expected;
      BelowOne(a, expected);
      assert (a / expected + 1) * expected == a / expected * expected + expected;
    } else if expected > 0 {
      assert (0 + 1) * expected == expected;
    }
  }

  /**
   After a run without duplicates, and without packets from before the first, the receiver of a report reads
   the number of sequence numbers that never came, as long as it is below 2^23.
   */
  lemma {:induction false} LossIsRead(events: seq<R.Event>, ts: seq<int>)
    requires |R.Run(events).raws| == |ts| > 0 && R.AllInStep(ts)
    requires forall i :: 0 <= i < |ts| ==> R.Run(events).raws[i] == ts[i] % R.CYCLE
    requires R.NoneTwice(ts)
    ensures var s := R.Run(events).stats;
            var missing := R.Span(ts[0] - 1, R.Highest(ts)) - R.Elements(ts);
            |missing| < 0x80_0000 ==> F.LostAt(F.Low24(PacketsLost(s.extHighSeqNr, s.baseSeqNr, s.packetsReceived)), 0) == |missing|
  {
    hide R.Run, R.AllInStep, R.Highest, R.Span, R.Elements, F.LostAt, F.Low24, PacketsLost;
    R.CumulativeLoss(events, ts);
    var s := R.Run(events).stats;
    var lost := R.Highest(ts) - ts[0] + 1 - |ts|;
    if lost < 0x80_0000 {
      LossReads(s.extHighSeqNr, s.baseSeqNr, s.packetsReceived, lost);
    }
  }

  lemma {:induction false} LossReads(high: u32, base: u32, received: u32, lost: int)
    requires Wrap32(high - base - received) == Wrap32(lost) && -0x80_0000 <= lost < 0x80_0000
    ensures F.Wrap24(PacketsLost(high, base, received)) == lost
    ensures F.LostAt(F.Low24(PacketsLost(high, base, received)), 0) == lost
  {
    hide F.Low24, F.LostAt;
    F.LostRoundTrip(F.Low24(PacketsLost(high, base, received)), 0, PacketsLost(high, base, received));
  }
}
