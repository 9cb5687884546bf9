/** Two packets of a builder, in the second of which a source is reported on twice. */
module ReportWitness {
  import opened Bytes
  import opened RtcpFormat
  import opened RtcpBuild
  import opened RtcpBuildRuns
  import opened SourceStats
  import opened PacketRound
  import opened PacketRoundRuns
  import opened ReportSelection

  /** The own source, one that was heard of but has sent nothing, and 25 that have sent a packet. */
  function FirstSources(): seq<Candidate> {
    [Candidate(0, true, false, FRESH, false, 0, 0), Candidate(1, false, false, FRESH, false, 0, 0)] + Senders(25, 0)
  }

  function ArrivalAt(now: RtpTime, raw: u16): Arrival {
    Arrival(raw, 0, now, 0.0, false, false)
  }

  function Sender(i: nat, reported: bool): Candidate {
    var c := Candidate((2 + i) % 0x1_0000_0000, false, false, Processed(FRESH, ArrivalAt(200, 1)).stats, false, 0, 0);
    if reported then Reported(c) else c
  }

  /** n sources, of which the first k were reported on. */
  function Senders(n: nat, k: nat): (r: seq<Candidate>)
    ensures |r| == n && forall i :: 0 <= i < n ==> r[i] == Sender(i, i < k)
  {
    seq(n, i requires 0 <= i < n => Sender(i, i < k))
  }

  /** A packet from each of the sources that are not the own one. */
  function AllSend(sources: seq<Candidate>): (r: seq<Candidate>)
    ensures |r| == |sources|
    ensures forall i :: 0 <= i < |r| ==> r[i] == if sources[i].own then sources[i]
                                                 else sources[i].(stats := Processed(sources[i].stats, ArrivalAt(400, 2)).stats)
  {
    seq(|sources|, i requires 0 <= i < |sources| =>
      if sources[i].own then sources[i] else sources[i].(stats := Processed(sources[i].stats, ArrivalAt(400, 2)).stats))
  }

  /** What a packet begins with, and some report blocks. */
  function Begun(blocks: seq<ReportBlock>): Content {
    Content(RrHeader(0), blocks, [Chunk(0, [Item(1, [])])], [], [])
  }

  lemma {:induction false} BegunSize(blocks: seq<ReportBlock>)
    requires |blocks| <= 31
    ensures ContentOk(Begun(blocks)) && Size(Begun(blocks)) == 20 + 24 * |blocks|
  {
    hide Size, SourceNeeds, ReportNeeds;
    var c := Begun(blocks);
    OneChunkSize(c);
    OneItem(0, Item(1, []));
    BegunNeeds(|blocks|);
  }

  lemma {:induction false} BegunNeeds(n: nat)
    requires n <= 31
    ensures ReportNeeds(RrHeader(0), n) == 8 + 24 * n && SourceNeeds(2) == 8
  {
  }

  /** Into 600 bytes go 24 blocks. */
  lemma {:induction false} CountBlocks(done: seq<ReportBlock>, blocks: seq<ReportBlock>, limit: int, added: nat)
    requires |done| <= 24 && added + |blocks| < limit
    ensures ContentOk(Begun(done))
    ensures var (d, n, full) := AddBlocks(600, Begun(done), blocks, limit, added);
            var more := if |blocks| <= 24 - |done| then |blocks| else 24 - |done|;
            n == added + more && full == (|blocks| > more) && d == Begun(done + blocks[..more])
    decreases |blocks|
  {
    hide Size;
    BegunSize(done);
    if blocks != [] {
      BegunSize(done + [blocks[0]]);
      assert Step(600, Begun(done), Call.AddReportBlock(blocks[0]))
             == if |done| < 24 then (Begun(done + [blocks[0]]), Ok) else (Begun(done), NotEnoughBytesLeft);
      if |done| < 24 {
        CountBlocks(done + [blocks[0]], blocks[1..], limit, added + 1);
        var more := if |blocks| <= 24 - |done| then |blocks| else 24 - |done|;
        assert done + [blocks[0]] + blocks[1..][..more - 1] == done + blocks[..more];
      } else {
        assert done + blocks[..0] == done;
      }
    } else {
      assert done + blocks[..0] == done;
    }
  }

  lemma {:induction false} BlocksConcat(a: seq<Candidate>, b: seq<Candidate>, since: Since, odd: byte)
    ensures Blocks(a + b, since, odd) == Blocks(a, since, odd) + Blocks(b, since, odd)
    ensures Skipped(a + b, since) == Skipped(a, since) + Skipped(b, since)
  {
    hide Wanted, BlockFor;
    if a == [] {
      assert a + b == b;
    } else {
      assert (a + b)[1..] == a[1..] + b;
      BlocksConcat(a[1..], b, since, odd);
    }
  }

  lemma {:induction false} AllAvailable(sources: seq<Candidate>, since: Since, n: nat, odd: byte)
    requires forall i :: 0 <= i < |sources| ==> Available(sources[i], since)
    ensures |Blocks(sources, since, odd)| == |sources|
    ensures var t := Taken(sources, since, n);
            forall i :: 0 <= i < |t| ==> t[i] == if i < n then Reported(sources[i]) else sources[i]
    decreases |sources|
  {
    hide Available, BlockFor, Reported;
    if sources != [] {
      AllAvailable(sources[1..], since, if n > 0 then n - 1 else 0, odd);
    }
  }

  lemma {:induction false} AllSkipped(sources: seq<Candidate>, since: Since, odd: byte)
    requires forall i :: 0 <= i < |sources| ==> Wanted(sources[i], since) && sources[i].reported
    ensures Blocks(sources, since, odd) == [] && Skipped(sources, since) == |sources|
  {
    hide Wanted, BlockFor;
    if sources != [] {
      AllSkipped(sources[1..], since, odd);
    }
  }

  function FirstWalk(odd: byte): Walk {
    BegunSize([]);
    Fill(600, Begun([]), FirstSources(), Since(true, 0), 27, 0, odd)
  }

  function NextWalk(odd: byte): Walk {
    BegunSize([]);
    Fill(600, Begun([]), AllSend(FirstWalk(odd).sources), Since(false, 300), 27, 0, odd)
  }

  function LastWalk(odd: byte): Walk {
    var w := NextWalk(odd);
    Fill(600, w.content, Cleared(w.sources), Since(false, 300), w.skipped, 0, odd)
  }

  lemma {:induction false} SendersFirst(odd: byte)
    ensures |Blocks(Senders(25, 0), Since(true, 0), odd)| == 25 && Taken(Senders(25, 0), Since(true, 0), 24) == Senders(25, 24)
  {
    hide Processed, Blocks, Taken;
    SendersSent();
    AllAvailable(Senders(25, 0), Since(true, 0), 24, odd);
  }

  lemma {:induction false} HeardFirst(rest: seq<Candidate>, odd: byte)
    ensures var heard := FirstSources()[..2];
            && Blocks(heard + rest, Since(true, 0), odd) == Blocks(rest, Since(true, 0), odd)
            && Taken(heard + rest, Since(true, 0), 24) == heard + Taken(rest, Since(true, 0), 24)
  {
    hide Processed, Senders;
    var heard := FirstSources()[..2];
    var own, silent := heard[0], heard[1];
    assert (heard + rest)[1..] == [silent] + rest && ([silent] + rest)[1..] == rest;
    assert [] + Blocks(rest, Since(true, 0), odd) == Blocks(rest, Since(true, 0), odd);
    assert Blocks(heard + rest, Since(true, 0), odd) == Blocks([silent] + rest, Since(true, 0), odd);
  }

  /** The first packet of all is filled by the reports on 24 sources; the one that has sent nothing is not among them. */
  lemma {:induction false} FirstPacket(odd: byte)
    ensures FirstWalk(odd).full && FirstWalk(odd).sources == FirstSources()[..2] + Senders(25, 24)
  {
    hide Fill, AddBlocks, Begun, Senders, Blocks, Taken, Wanted, BlockFor, Reported, Processed;
    var since, heard, senders := Since(true, 0), FirstSources()[..2], Senders(25, 0);
    BegunSize([]);
    SendersFirst(odd);
    HeardFirst(senders, odd);
    assert FirstSources() == heard + senders;
    FillAddsBlocks(600, Begun([]), FirstSources(), since, 27, 0, odd);
    CountBlocks([], Blocks(FirstSources(), since, odd), 27, 0);
    FillTakesFirst(600, Begun([]), FirstSources(), since, 27, 0, odd);
  }

  /** The sources when the second packet is built: the silent one has sent its first packet meanwhile. */
  function NextSources(): seq<Candidate> {
    AllSend(FirstSources()[..2] + Senders(25, 24))
  }

  /** Two of them can be reported on, and 24 are passed over. */
  lemma {:induction false} NextBlocks(odd: byte)
    ensures var l, since := NextSources(), Since(false, 300);
            && |l| == 27 && l[0].own && l[1].ssrc == 1 && Available(l[1], since)
            && |Blocks(l, since, odd)| == 2 && Blocks(l, since, odd)[0] == BlockFor(l[1], odd) && Skipped(l, since) == 24
  {
    hide Processed, NewInterval, Blocks, Skipped, BlockFor;
    SendersSent();
    var l, since := NextSources(), Since(false, 300);
    assert l[0].own && l[1].ssrc == 1 && Available(l[1], since);
    var known := l[2..26];
    assert l == [l[0]] + ([l[1]] + (known + [l[26]]));
    forall i | 0 <= i < |known|
      ensures Wanted(known[i], since) && known[i].reported
    {
      assert known[i] == l[i + 2];
    }
    assert Available(l[26], since);
    AllSkipped(known, since, odd);
    OneSource(l[0], since, odd);
    OneSource(l[1], since, odd);
    OneSource(l[26], since, odd);
    BlocksConcat([l[0]], [l[1]] + (known + [l[26]]), since, odd);
    BlocksConcat([l[1]], known + [l[26]], since, odd);
    BlocksConcat(known, [l[26]], since, odd);
  }

  lemma {:induction false} OneSource(s: Candidate, since: Since, odd: byte)
    ensures Blocks([s], since, odd) == if Available(s, since) then [BlockFor(s, odd)] else []
    ensures Skipped([s], since) == if Wanted(s, since) && s.reported then 1 else 0
  {
    hide BlockFor, Wanted;
  }

  lemma {:induction false} NextPacket(odd: byte)
    ensures var w := NextWalk(odd);
            && !w.full && w.skipped == 24 && w.sources == AllReported(NextSources(), Since(false, 300))
            && w.content == Begun(Blocks(NextSources(), Since(false, 300), odd))
  {
    hide Fill, AddBlocks, Begun, Blocks, Skipped, Wanted, BlockFor, AllSend, AllReported;
    var since := Since(false, 300);
    BegunSize([]);
    FirstPacket(odd);
    NextBlocks(odd);
    var l := NextSources();
    FillAddsBlocks(600, Begun([]), l, since, 27, 0, odd);
    FillReportsAll(600, Begun([]), l, since, 27, 0, odd);
    CountBlocks([], Blocks(l, since, odd), 27, 0);
    assert [] + Blocks(l, since, odd)[..2] == Blocks(l, since, odd);
  }

  /**
   From the first packet on: 24 sources are reported on, then all of them and two more send. The second packet
   reports on the two, passes over the 24, clears the flags, and begins again with one of the two: its interval
   has no packets, so that its fraction lost is nothing divided by nothing.
   */
  lemma {:induction false} ReportedTwice(odd: byte)
    ensures var next, last := NextWalk(odd), LastWalk(odd);
            && FirstWalk(odd).full && !next.full && next.skipped > 0
            && |next.content.blocks| == 2 && next.content.blocks[0].ssrc == 1
            && |last.content.blocks| >= 3 && last.content.blocks[2].ssrc == 1
            && var s := Cleared(next.sources)[1];
               s.ssrc == 1 && !HasFraction(s) && last.content.blocks[2] == BlockFor(s, odd)
  {
    hide Fill, AddBlocks, Skipped, Wanted, AllSend, Size, HasFraction, Reported, BlockFor;
    var since, l := Since(false, 300), NextSources();
    FirstPacket(odd);
    NextBlocks(odd);
    NextPacket(odd);
    var next := NextWalk(odd);
    var cleared := Cleared(next.sources);
    AgainFacts(l[1], since);
    AvailableIs(l[1], since);
    OwnIsLeftOut(l[0], since);
    assert cleared[0].own && cleared[1] == Again(l[1]);
    FirstBlock(cleared, since, odd);
    BegunSize(next.content.blocks);
    BegunSize(next.content.blocks + [BlockFor(cleared[1], odd)]);
    var blocks := Blocks(cleared, since, odd);
    FillAddsBlocks(600, next.content, cleared, since, 24, 0, odd);
    AtLeastOne(600, next.content, blocks, 24);
    BlocksFit(600, next.content, blocks, 24, 0);
    BlockNames(l[1], cleared[1], odd);
  }

  lemma {:induction false} OwnIsLeftOut(s: Candidate, since: Since)
    ensures s.own ==> !Available(s, since)
  {
  }

  lemma {:induction false} BlockNames(s: Candidate, t: Candidate, odd: byte)
    ensures BlockFor(s, odd).ssrc == s.ssrc && BlockFor(t, odd).ssrc == t.ssrc
  {
  }

  lemma {:induction false} FirstBlock(sources: seq<Candidate>, since: Since, odd: byte)
    requires |sources| >= 2 && sources[0].own && Available(sources[1], since)
    ensures Blocks(sources, since, odd) != [] && Blocks(sources, since, odd)[0] == BlockFor(sources[1], odd)
  {
    hide BlockFor;
    assert sources[1..][0] == sources[1];
  }

  lemma {:induction false} SendersSent()
    ensures var s := Processed(FRESH, ArrivalAt(200, 1)).stats;
            s.sentData && Processed(s, ArrivalAt(400, 2)).stats.sentData && Processed(s, ArrivalAt(400, 2)).stats.lastRtpTime == 400
    ensures var t := Processed(FRESH, ArrivalAt(400, 2)).stats; t.sentData && t.lastRtpTime == 400
    ensures var s := NewInterval(Processed(FRESH, ArrivalAt(200, 1)).stats);
            s.sentData && Processed(s, ArrivalAt(400, 2)).stats.sentData && Processed(s, ArrivalAt(400, 2)).stats.lastRtpTime == 400
  {
  }
}
