/**
 Which sources a packet reports on: the walk over the source table that adds a report block for every source
 that has sent data since the last packet and was not reported on yet.
 */
module ReportSelection {
  import opened Bytes
  import opened RtcpFormat
  import opened RtcpBuild
  import opened RtcpBuildRuns
  import opened RtcpBuilder
  import opened SourceStats
  import opened PacketRound
  import opened PacketRoundRuns

  /** A source as the walk finds it; reported is the flag that it sets, lsr and dlsr come from the sender reports. */
  datatype Candidate = Candidate(ssrc: u32, own: bool, csrc: bool, stats: Stats, reported: bool, lsr: u32, dlsr: u32)

  /** When the walk takes place: at the first packet, or after the packet of time prev. */
  datatype Since = Since(first: bool, prev: RtpTime)

  predicate Wanted(c: Candidate, since: Since) {
    !c.own && !c.csrc && c.stats.sentData && (since.first || c.stats.lastRtpTime > since.prev)
  }

  predicate Available(c: Candidate, since: Since) {
    Wanted(c, since) && !c.reported
  }

  /** The packets that should have come in the interval, and whether the fraction of those lost can be computed. */
  function Expected(c: Candidate): u32 {
    Wrap32(c.stats.extHighSeqNr - c.stats.savedExtSeqNr)
  }

  predicate HasFraction(c: Candidate) {
    FractionLost(Expected(c), c.stats.numNewPackets).Some?
  }

  /** The report block for a source; odd is the byte that comes of a fraction that does not exist. */
  function BlockFor(c: Candidate, odd: byte): ReportBlock {
    var s := c.stats;
    ReportBlock(c.ssrc, match FractionLost(Expected(c), s.numNewPackets) case Some(f) => f case None => odd,
                PacketsLost(s.extHighSeqNr, s.baseSeqNr, s.packetsReceived), s.extHighSeqNr, Wrap32(s.jitter), c.lsr, c.dlsr)
  }

  /** A source that was reported on begins a new interval. */
  function Reported(c: Candidate): Candidate {
    c.(stats := NewInterval(c.stats), reported := true)
  }

  /** What a walk leaves behind: the sources, the packet, and how it ended; rest is what it has not passed. */
  datatype Walk = Walk(sources: seq<Candidate>, content: Content, added: nat, skipped: nat, full: bool, rest: seq<Candidate>)

  function Fill(max: nat, c: Content, sources: seq<Candidate>, since: Since, limit: int, added: nat, odd: byte): (r: Walk)
    requires ContentOk(c)
    ensures ContentOk(r.content) && |r.sources| == |sources|
    decreases |sources|
  {
    if sources == [] then Walk([], c, added, 0, false, [])
    else
      var s, others := sources[0], sources[1..];
      if !Wanted(s, since) then
        var r := Fill(max, c, others, since, limit, added, odd);
        r.(sources := [s] + r.sources)
      else if s.reported then
        var r := Fill(max, c, others, since, limit, added, odd);
        r.(sources := [s] + r.sources, skipped := r.skipped + 1)
      else
        var (d, status) := Step(max, c, Call.AddReportBlock(BlockFor(s, odd)));
        if status != Ok then Walk(sources, c, added, 0, true, sources)
        else if added + 1 >= limit then Walk([Reported(s)] + others, d, added + 1, 0, false, others)
        else
          var r := Fill(max, d, others, since, limit, added + 1, odd);
          r.(sources := [Reported(s)] + r.sources)
  }

  /** Nothing is left to report on. */
  predicate AtEnd(rest: seq<Candidate>, since: Since) {
    forall i :: 0 <= i < |rest| ==> !Available(rest[i], since)
  }

  /** The blocks that are left to add. */
  function Blocks(sources: seq<Candidate>, since: Since, odd: byte): seq<ReportBlock> {
    if sources == [] then []
    else (if Available(sources[0], since) then [BlockFor(sources[0], odd)] else []) + Blocks(sources[1..], since, odd)
  }

  function Skipped(sources: seq<Candidate>, since: Since): nat {
    if sources == [] then 0
    else (if Wanted(sources[0], since) && sources[0].reported then 1 else 0) + Skipped(sources[1..], since)
  }

  /** Every source after a walk that leaves none out. */
  function AllReported(sources: seq<Candidate>, since: Since): (r: seq<Candidate>)
    ensures |r| == |sources|
    ensures forall i :: 0 <= i < |r| ==> r[i] == if Available(sources[i], since) then Reported(sources[i]) else sources[i]
  {
    seq(|sources|, i requires 0 <= i < |sources| => if Available(sources[i], since) then Reported(sources[i]) else sources[i])
  }

  /** ClearAllSourceFlags. */
  function Cleared(sources: seq<Candidate>): (r: seq<Candidate>)
    ensures |r| == |sources| && forall i :: 0 <= i < |r| ==> r[i] == sources[i].(reported := false)
  {
    seq(|sources|, i requires 0 <= i < |sources| => sources[i].(reported := false))
  }

  // ---------------------------------------------------------------- the walk adds the blocks that are left

  /** The walk is the same as adding the blocks of the available sources one after the other. */
  lemma {:induction false} FillAddsBlocks(max: nat, c: Content, sources: seq<Candidate>, since: Since, limit: int, added: nat, odd: byte)
    requires ContentOk(c)
    ensures var r := Fill(max, c, sources, since, limit, added, odd);
            (r.content, r.added, r.full) == AddBlocks(max, c, Blocks(sources, since, odd), limit, added)
    decreases |sources|
  {
    hide Step, ContentOk, Wanted, BlockFor, Reported;
    if sources != [] {
      var s := sources[0];
      if Available(s, since) {
        var (d, status) := Step(max, c, Call.AddReportBlock(BlockFor(s, odd)));
        var all := Blocks(sources, since, odd);
        assert all[0] == BlockFor(s, odd) && all[1..] == Blocks(sources[1..], since, odd);
        if status == Ok && added + 1 < limit {
          FillAddsBlocks(max, d, sources[1..], since, limit, added + 1, odd);
        }
      } else {
        assert [] + Blocks(sources[1..], since, odd) == Blocks(sources[1..], since, odd);
        FillAddsBlocks(max, c, sources[1..], since, limit, added, odd);
      }
    }
  }

  /** A walk that does not fill the packet reports on every available source, and counts all the others. */
  lemma {:induction false} FillReportsAll(max: nat, c: Content, sources: seq<Candidate>, since: Since, limit: int, added: nat, odd: byte)
    requires ContentOk(c) && added + |sources| <= limit
    ensures var r := Fill(max, c, sources, since, limit, added, odd);
            !r.full ==> r.sources == AllReported(sources, since) && r.skipped == Skipped(sources, since)
    decreases |sources|
  {
    hide Step, ContentOk, Wanted, BlockFor, Reported;
    if sources != [] {
      var s, others := sources[0], sources[1..];
      assert AllReported(sources, since) == [if Available(s, since) then Reported(s) else s] + AllReported(others, since);
      if Available(s, since) {
        var (d, status) := Step(max, c, Call.AddReportBlock(BlockFor(s, odd)));
        if status == Ok && added + 1 < limit {
          FillReportsAll(max, d, others, since, limit, added + 1, odd);
        }
      } else {
        FillReportsAll(max, c, others, since, limit, added, odd);
      }
    }
  }

  /** The walk w is under way: what it has passed, and what it will still do. */
  ghost predicate Walking(w: Walk, passed: seq<Candidate>, skipped: nat, more: Walk) {
    w == more.(sources := passed + more.sources, skipped := skipped + more.skipped)
  }

  /** What the next source of the walk, the first of those left, does to it. */
  lemma {:induction false} WalkOn(w: Walk, passed: seq<Candidate>, skipped: nat, max: nat, c: Content, left: seq<Candidate>,
                                  since: Since, limit: int, added: nat, odd: byte)
    requires ContentOk(c) && left != [] && Walking(w, passed, skipped, Fill(max, c, left, since, limit, added, odd))
    ensures var s, others := left[0], left[1..];
            if !Wanted(s, since) then Walking(w, passed + [s], skipped, Fill(max, c, others, since, limit, added, odd))
            else if s.reported then Walking(w, passed + [s], skipped + 1, Fill(max, c, others, since, limit, added, odd))
            else
              var (d, status) := Step(max, c, Call.AddReportBlock(BlockFor(s, odd)));
              if status != Ok then w == Walk(passed + left, c, added, skipped, true, left)
              else if added + 1 >= limit then w == Walk(passed + [Reported(s)] + others, d, added + 1, skipped, false, others)
              else Walking(w, passed + [Reported(s)], skipped, Fill(max, d, others, since, limit, added + 1, odd))
  {
    hide Step, ContentOk, Wanted, BlockFor, Reported;
    var s := left[0];
    forall x: Candidate, more: seq<Candidate> ensures passed + ([x] + more) == passed + [x] + more {
    }
  }

  lemma {:induction false} WalkEnds(w: Walk, passed: seq<Candidate>, skipped: nat, max: nat, c: Content,
                                    since: Since, limit: int, added: nat, odd: byte)
    requires ContentOk(c) && Walking(w, passed, skipped, Fill(max, c, [], since, limit, added, odd))
    ensures w == Walk(passed, c, added, skipped, false, [])
  {
    assert passed + [] == passed;
  }

  /** One source: its block is added, and a new interval begins for it, unless the block does not fit. */
  method ReportOn(b: CompoundPacketBuilder, sources: array<Candidate>, i: nat, odd: byte) returns (status: Status)
    requires b.Valid() && b.areBuilding && !b.content.header.NoReport? && i < sources.Length
    modifies sources, b`reportBlocks, b`content
    ensures b.Valid() && b.areBuilding && !b.content.header.NoReport? && ContentOk(b.content) && ContentOk(old(b.content))
    ensures (b.content, status) == Step(b.maximumPacketSize, old(b.content), Call.AddReportBlock(BlockFor(old(sources[i]), odd)))
    ensures status != Ok ==> b.content == old(b.content)
    ensures sources[..] == if status == Ok then old(sources[..])[i := Reported(old(sources[i]))] else old(sources[..])
  {
    hide CompoundPacketBuilder.Valid, Size, ContentOk, Step, BlockFor, Reported;
    ContentValid(b);
    BlockStep(b.maximumPacketSize, b.content, BlockFor(sources[i], odd));
    status := b.AddReportBlock(BlockFor(sources[i], odd));
    ContentValid(b);
    if status == Ok {
      sources[i] := Reported(sources[i]);
    }
  }

  /** The walk w, which began with the sources all, has come to source i, or is over before it. */
  ghost predicate WalkAt(w: Walk, all: seq<Candidate>, now: seq<Candidate>, i: nat, max: nat, c: Content, since: Since, limit: int,
                         added: nat, skipped: nat, full: bool, done: bool, odd: byte)
  {
    && ContentOk(c) && i <= |all| == |now| && now[i..] == all[i..]
    && (!done ==> !full && Walking(w, now[..i], skipped, Fill(max, c, all[i..], since, limit, added, odd)))
    && (done ==> w == Walk(now, c, added, skipped, full, all[i..]))
  }

  lemma {:induction false} WalkPasses(w: Walk, all: seq<Candidate>, now: seq<Candidate>, i: nat, max: nat, c: Content, since: Since,
                                      limit: int, added: nat, skipped: nat, odd: byte)
    requires WalkAt(w, all, now, i, max, c, since, limit, added, skipped, false, false, odd) && i < |all|
    requires !Available(now[i], since)
    ensures WalkAt(w, all, now, i + 1, max, c, since, limit, added, if Wanted(now[i], since) then skipped + 1 else skipped, false, false, odd)
  {
    hide Fill, Wanted, ContentOk, Walking, BlockFor, Reported, Step;
    assert all[i..][0] == now[i..][0] == now[i] && all[i..][1..] == all[i + 1..] && now[..i + 1] == now[..i] + [now[i]];
    WalkOn(w, now[..i], skipped, max, c, all[i..], since, limit, added, odd);
  }

  lemma {:induction false} WalkReports(w: Walk, all: seq<Candidate>, now: seq<Candidate>, i: nat, max: nat, c: Content, since: Since,
                                       limit: int, added: nat, skipped: nat, odd: byte)
    requires WalkAt(w, all, now, i, max, c, since, limit, added, skipped, false, false, odd) && i < |all|
    requires Available(now[i], since)
    ensures var (d, status) := Step(max, c, Call.AddReportBlock(BlockFor(now[i], odd)));
            if status != Ok then (d == c ==> WalkAt(w, all, now, i, max, c, since, limit, added, skipped, true, true, odd))
            else WalkAt(w, all, now[i := Reported(now[i])], i + 1, max, d, since, limit, added + 1, skipped, false, added + 1 >= limit, odd)
  {
    hide Fill, Wanted, ContentOk, Walking, BlockFor, Reported, Step;
    var s, next := now[i], now[i := Reported(now[i])];
    assert all[i..][0] == now[i..][0] == s && all[i..][1..] == all[i + 1..];
    assert now[..i] + all[i..] == now && next[..i + 1] == now[..i] + [Reported(s)] && next[i + 1..] == all[i + 1..];
    assert now[..i] + [Reported(s)] + all[i + 1..] == next;
    WalkOn(w, now[..i], skipped, max, c, all[i..], since, limit, added, odd);
  }

  /** The walk over the table, with what it does to the packet, to the sources, and to their flags. */
  method FillInReportBlocks(b: CompoundPacketBuilder, sources: array<Candidate>, since: Since, limit: int, odd: byte)
    returns (full: bool, added: nat, skipped: nat, atEnd: bool)
    requires b.Valid() && b.areBuilding && !b.content.header.NoReport?
    modifies sources, b`reportBlocks, b`content
    ensures b.Valid() && b.areBuilding && ContentOk(old(b.content))
    ensures var w := Fill(b.maximumPacketSize, old(b.content), old(sources[..]), since, limit, 0, odd);
            && (sources[..], b.content, added, skipped, full) == (w.sources, w.content, w.added, w.skipped, w.full)
            && atEnd == AtEnd(w.rest, since)
  {
    hide CompoundPacketBuilder.Valid, Size, ContentOk, Step, Fill, Wanted, BlockFor, Reported, AtEnd, Walking, WalkAt;
    full, added, skipped := false, 0, 0;
    ContentValid(b);
    ghost var max, all := b.maximumPacketSize, sources[..];
    ghost var w := Fill(max, b.content, all, since, limit, 0, odd);
    var i, done := 0, false;
    WalkStarts(w, all, max, b.content, since, limit, odd);
    while !done && i < sources.Length
      invariant b.Valid() && b.areBuilding && ContentOk(b.content) && !b.content.header.NoReport?
      invariant 0 <= i <= sources.Length && (!done ==> !full)
      invariant WalkAt(w, all, sources[..], i, max, b.content, since, limit, added, skipped, full, done, odd)
      decreases !done, sources.Length - i
    {
      ghost var now := sources[..];
      if Available(sources[i], since) {
        WalkReports(w, all, now, i, max, b.content, since, limit, added, skipped, odd);
        var status := ReportOn(b, sources, i, odd);
        if status != Ok {
          done, full := true, true;
        } else {
          added := added + 1;
          i := i + 1;
          done := added >= limit;
        }
      } else {
        WalkPasses(w, all, now, i, max, b.content, since, limit, added, skipped, odd);
        if Wanted(sources[i], since) {
          skipped := skipped + 1;
        }
        i := i + 1;
      }
    }
    WalkOver(w, all, sources[..], i, max, b.content, since, limit, added, skipped, full, done, odd);
    atEnd := NoneAvailable(sources[i..], since);
  }

  lemma {:induction false} WalkOver(w: Walk, all: seq<Candidate>, now: seq<Candidate>, i: nat, max: nat, c: Content, since: Since,
                                    limit: int, added: nat, skipped: nat, full: bool, done: bool, odd: byte)
    requires WalkAt(w, all, now, i, max, c, since, limit, added, skipped, full, done, odd) && (done || i == |all|)
    ensures i <= |now| && w == Walk(now, c, added, skipped, full, now[i..])
  {
    hide Fill, ContentOk, Walking;
    if !done {
      assert all[i..] == [] && now[..i] == now;
      WalkEnds(w, now[..i], skipped, max, c, since, limit, added, odd);
    }
  }

  /** The search for a source that could still be reported on. */
  method NoneAvailable(rest: seq<Candidate>, since: Since) returns (atEnd: bool)
    ensures atEnd == AtEnd(rest, since)
  {
    var i := 0;
    while i < |rest| && !Available(rest[i], since)
      invariant 0 <= i <= |rest| && forall k :: 0 <= k < i ==> !Available(rest[k], since)
    {
      i := i + 1;
    }
    atEnd := i == |rest|;
  }

  lemma {:induction false} BlockStep(max: nat, c: Content, block: ReportBlock)
    requires ContentOk(c)
    ensures var (d, status) := Step(max, c, Call.AddReportBlock(block)); d.header == c.header && (status != Ok ==> d == c)
  {
    hide Size;
  }

  lemma {:induction false} WalkStarts(w: Walk, all: seq<Candidate>, max: nat, c: Content, since: Since, limit: int, odd: byte)
    requires ContentOk(c) && w == Fill(max, c, all, since, limit, 0, odd)
    ensures WalkAt(w, all, all, 0, max, c, since, limit, 0, 0, false, false, odd)
  {
    hide Fill, ContentOk;
    assert all[..0] == [] && all[0..] == all && [] + w.sources == w.sources;
  }

  lemma {:induction false} ContentValid(b: CompoundPacketBuilder)
    requires b.Valid()
    ensures ContentOk(b.content)
  {
  }

  // ---------------------------------------------------------------- which sources, and how often

  /** The first n available sources are reported on. */
  function Taken(sources: seq<Candidate>, since: Since, n: nat): (r: seq<Candidate>)
    ensures |r| == |sources|
  {
    if sources == [] then []
    else if !Available(sources[0], since) then [sources[0]] + Taken(sources[1..], since, n)
    else if n == 0 then sources
    else [Reported(sources[0])] + Taken(sources[1..], since, n - 1)
  }

  /** A walk takes the available sources in their order, until it is full, has reached its limit, or is at the end. */
  lemma {:induction false} FillTakesFirst(max: nat, c: Content, sources: seq<Candidate>, since: Since, limit: int, added: nat, odd: byte)
    requires ContentOk(c) && added < limit
    ensures var r := Fill(max, c, sources, since, limit, added, odd);
            && added <= r.added <= limit && r.added - added + (if r.full then 1 else 0) <= |Blocks(sources, since, odd)|
            && r.sources == Taken(sources, since, r.added - added)
    decreases |sources|
  {
    hide Step, ContentOk, Available, BlockFor, Reported;
    if sources != [] {
      var s, others := sources[0], sources[1..];
      var r := Fill(max, c, sources, since, limit, added, odd);
      AvailableIs(s, since);
      if Available(s, since) {
        var (d, status) := Step(max, c, Call.AddReportBlock(BlockFor(s, odd)));
        if status == Ok && added + 1 < limit {
          FillTakesFirst(max, d, others, since, limit, added + 1, odd);
        } else if status == Ok {
          TakenNone(others, since);
        }
      } else {
        FillTakesFirst(max, c, others, since, limit, added, odd);
      }
    }
  }

  lemma {:induction false} AvailableIs(s: Candidate, since: Since)
    ensures Available(s, since) <==> Wanted(s, since) && !s.reported
  {
  }

  /** What a walk has not taken is left to the next one, in the same order and with the same blocks. */
  lemma {:induction false} TakenLeavesRest(sources: seq<Candidate>, since: Since, n: nat, odd: byte)
    requires n <= |Blocks(sources, since, odd)|
    ensures Blocks(Taken(sources, since, n), since, odd) == Blocks(sources, since, odd)[n..]
    decreases |sources|
  {
    hide Available, BlockFor, Reported;
    if sources != [] {
      var s, others := sources[0], sources[1..];
      if !Available(s, since) {
        TakenLeavesRest(others, since, n, odd);
        var rest := Taken(others, since, n);
        assert Taken(sources, since, n)[1..] == rest && [] + Blocks(rest, since, odd) == Blocks(rest, since, odd);
        assert [] + Blocks(others, since, odd) == Blocks(others, since, odd);
      } else if n > 0 {
        OneBlockLess(s, others, since, odd);
        assert sources == [s] + others;
        TakenLeavesRest(others, since, n - 1, odd);
      }
    }
  }

  lemma {:induction false} TakenNone(sources: seq<Candidate>, since: Since)
    ensures Taken(sources, since, 0) == sources
  {
    if sources != [] {
      TakenNone(sources[1..], since);
    }
  }

  lemma {:induction false} ReportedIsDone(s: Candidate, since: Since)
    ensures !Available(Reported(s), since) && Wanted(Reported(s), since) == Wanted(s, since)
  {
  }

  lemma {:induction false} OneBlockLess(s: Candidate, others: seq<Candidate>, since: Since, odd: byte)
    requires Available(s, since)
    ensures Blocks([s] + others, since, odd) == [BlockFor(s, odd)] + Blocks(others, since, odd)
    ensures forall after: seq<Candidate> :: Blocks([Reported(s)] + after, since, odd) == Blocks(after, since, odd)
  {
    hide BlockFor;
    assert ([s] + others)[1..] == others;
    ReportedIsDone(s, since);
    forall after: seq<Candidate>
      ensures Blocks([Reported(s)] + after, since, odd) == Blocks(after, since, odd)
    {
      assert ([Reported(s)] + after)[1..] == after;
      assert [] + Blocks(after, since, odd) == Blocks(after, since, odd);
    }
  }

  /** The sources that have sent data since the last packet, in their order. */
  function WantedOf(sources: seq<Candidate>, since: Since): seq<Candidate> {
    if sources == [] then []
    else (if Wanted(sources[0], since) then [sources[0]] else []) + WantedOf(sources[1..], since)
  }

  /** The sources of the second walk of a packet: the flags are cleared after the first one has reported on all. */
  function SecondTime(sources: seq<Candidate>, since: Since): seq<Candidate> {
    Cleared(AllReported(sources, since))
  }

  /** How the second walk finds a source: those that the first one reported on are in an interval without packets. */
  function Again(s: Candidate): Candidate {
    (if s.reported then s else Reported(s)).(reported := false)
  }

  lemma {:induction false} AgainFacts(s: Candidate, since: Since)
    ensures Again(s).ssrc == s.ssrc && Wanted(Again(s), since) == Wanted(s, since)
    ensures HasFraction(Again(s)) <==> s.reported && s.stats.numNewPackets > 0
    ensures !s.reported ==> Expected(Again(s)) == 0
  {
  }

  lemma {:induction false} SecondTimeWanted(sources: seq<Candidate>, since: Since)
    ensures var w, again := WantedOf(sources, since), WantedOf(SecondTime(sources, since), since);
            |again| == |w| && forall i :: 0 <= i < |w| ==> again[i] == Again(w[i])
  {
    hide Wanted, Reported;
    if sources != [] {
      var s, others := sources[0], sources[1..];
      SecondTimeWanted(others, since);
      var t := SecondTime(sources, since);
      assert t[1..] == SecondTime(others, since);
      ReportedIsDone(s, since);
      FlagIgnored(s, since);
      FlagIgnored(Reported(s), since);
      assert Wanted(t[0], since) == Wanted(s, since);
      assert Wanted(s, since) ==> t[0] == Again(s);
    }
  }

  lemma {:induction false} FlagIgnored(s: Candidate, since: Since)
    ensures Wanted(s.(reported := false), since) == Wanted(s, since)
  {
  }

  /** The number of sources for which a walk has computed a block: those that it added, and one that did not fit. */
  function Tried(w: Walk): nat {
    w.added + if w.full then 1 else 0
  }

  lemma {:induction false} BlocksAreWanted(sources: seq<Candidate>, since: Since, odd: byte)
    requires forall i :: 0 <= i < |sources| ==> !sources[i].reported
    ensures |Blocks(sources, since, odd)| == |WantedOf(sources, since)|
    ensures forall i :: 0 <= i < |Blocks(sources, since, odd)| ==> Blocks(sources, since, odd)[i] == BlockFor(WantedOf(sources, since)[i], odd)
  {
    hide Wanted, BlockFor;
    if sources != [] {
      BlocksAreWanted(sources[1..], since, odd);
    }
  }

  /** So many report blocks more leave the content within the maximum. */
  predicate RoomFor(max: nat, c: Content, n: nat)
    requires ContentOk(c)
  {
    Size(c) - ReportNeeds(c.header, |c.blocks|) + ReportNeeds(c.header, |c.blocks| + n) <= max
  }

  lemma {:induction false} NeedsGrow(h: ReportHeader, n: nat, m: nat)
    requires !h.NoReport? && n <= m
    ensures ReportNeeds(h, n) <= ReportNeeds(h, m)
    decreases m - n
  {
    hide ReportNeeds;
    if n < m {
      ReportNeedsGrow(h, n);
      NeedsGrow(h, n + 1, m);
    }
  }

  /** One block more takes one of the places. */
  lemma {:induction false} RoomStep(max: nat, c: Content, block: ReportBlock, n: nat)
    requires ContentOk(c) && !c.header.NoReport?
    ensures var (d, status) := Step(max, c, Call.AddReportBlock(block));
            && (status == Ok <==> RoomFor(max, c, 1))
            && (status == Ok ==> d.header == c.header && (RoomFor(max, d, n) <==> RoomFor(max, c, n + 1)))
    ensures n >= 1 && RoomFor(max, c, n) ==> RoomFor(max, c, 1)
  {
    hide Size, ReportNeeds, SdesNeeds, BytesOf;
    var d := c.(blocks := c.blocks + [block]);
    SizeExact(c);
    SizeExact(d);
    if n >= 1 {
      NeedsGrow(c.header, |c.blocks| + 1, |c.blocks| + n);
    }
  }

  /** A block is tried exactly if the limit leaves it a place, and all the blocks before it had room. */
  lemma {:induction false} TriedExact(max: nat, c: Content, blocks: seq<ReportBlock>, limit: int, added: nat, i: nat)
    requires ContentOk(c) && !c.header.NoReport? && added < limit && i < |blocks|
    ensures var (d, n, full) := AddBlocks(max, c, blocks, limit, added);
            && n >= added && (i < n - added + (if full then 1 else 0) <==> added + i < limit && (i == 0 || RoomFor(max, c, i)))
    decreases |blocks|
  {
    hide Step, RoomFor, ContentOk;
    var (d, status) := Step(max, c, Call.AddReportBlock(blocks[0]));
    RoomStep(max, c, blocks[0], i);
    if i > 0 {
      RoomStep(max, c, blocks[0], i - 1);
    }
    if status == Ok && added + 1 < limit {
      if i > 0 {
        TriedExact(max, d, blocks[1..], limit, added + 1, i - 1);
        if i == 1 {
          assert RoomFor(max, c, 1);
        }
      } else {
        AddedMore(max, d, blocks[1..], limit, added + 1);
      }
    }
  }

  lemma {:induction false} AddedMore(max: nat, c: Content, blocks: seq<ReportBlock>, limit: int, added: nat)
    requires ContentOk(c)
    ensures AddBlocks(max, c, blocks, limit, added).1 >= added
    decreases |blocks|
  {
    hide Step, ContentOk;
    if blocks != [] {
      AddedMore(max, Step(max, c, Call.AddReportBlock(blocks[0])).0, blocks[1..], limit, added + 1);
    }
  }

  /** The second walk comes to this source: it is among as many as were passed over, and there is room for all before it. */
  predicate Reached(max: nat, e: Content, skipped: nat, i: nat)
    requires ContentOk(e)
  {
    i < skipped && (i == 0 || RoomFor(max, e, i))
  }

  /**
   The second walk of a packet, which starts from the first source again with all flags cleared: it comes to a
   source without any packet in its interval, and divides nothing by nothing, exactly if among the sources that it
   reaches - as many as the first walk passed over, while there is room - one was reported on by the first walk,
   or had no packet to begin with.
   */
  lemma {:induction false} SecondWalkExact(max: nat, c: Content, e: Content, sources: seq<Candidate>, since: Since, odd: byte)
    requires ContentOk(c) && ContentOk(e) && !e.header.NoReport?
    requires var first := Fill(max, c, sources, since, |sources|, 0, odd); !first.full && first.skipped > 0
    ensures Skipped(sources, since) <= |WantedOf(sources, since)|
    ensures var first := Fill(max, c, sources, since, |sources|, 0, odd);
            var second := Fill(max, e, Cleared(first.sources), since, first.skipped, 0, odd);
            var before, now := WantedOf(sources, since), WantedOf(Cleared(first.sources), since);
            && first.skipped == Skipped(sources, since) && Tried(second) <= |now| == |before|
            && (forall i :: 0 <= i < |before| ==> (i < Tried(second) <==> Reached(max, e, Skipped(sources, since), i)))
            && ((exists i :: 0 <= i < Tried(second) && !HasFraction(now[i]))
                <==> exists i :: 0 <= i < |before| && Reached(max, e, Skipped(sources, since), i)
                                 && (!before[i].reported || before[i].stats.numNewPackets == 0))
  {
    hide Fill, Wanted, HasFraction, Again, Cleared, AllReported, RoomFor, AddBlocks, ContentOk;
    FillReportsAll(max, c, sources, since, |sources|, 0, odd);
    var first := Fill(max, c, sources, since, |sources|, 0, odd);
    var cleared := Cleared(first.sources);
    SecondTimeWanted(sources, since);
    SkippedWanted(sources, since);
    NoneReported(first.sources);
    BlocksAreWanted(cleared, since, odd);
    FillTakesFirst(max, e, cleared, since, first.skipped, 0, odd);
    FillAddsBlocks(max, e, cleared, since, first.skipped, 0, odd);
    var before, now := WantedOf(sources, since), WantedOf(cleared, since);
    var second := Fill(max, e, cleared, since, first.skipped, 0, odd);
    forall i | 0 <= i < |before|
      ensures HasFraction(now[i]) <==> before[i].reported && before[i].stats.numNewPackets > 0
      ensures i < Tried(second) <==> Reached(max, e, first.skipped, i)
    {
      AgainFacts(before[i], since);
      TriedExact(max, e, Blocks(cleared, since, odd), first.skipped, 0, i);
    }
  }

  lemma {:induction false} SkippedWanted(sources: seq<Candidate>, since: Since)
    ensures Skipped(sources, since) <= |WantedOf(sources, since)|
  {
    if sources != [] {
      SkippedWanted(sources[1..], since);
    }
  }

  lemma {:induction false} NoneReported(sources: seq<Candidate>)
    ensures forall i :: 0 <= i < |sources| ==> !Cleared(sources)[i].reported
  {
  }

  // ---------------------------------------------------------------- the walks of a packet

  /** What a packet is built from, when the sources are walked over. */
  function SituationFor(s: Situation, sources: seq<Candidate>, since: Since, odd: byte): Situation {
    s.(blocks := Blocks(sources, since, odd), limit := |sources|, skipped := Skipped(sources, since),
       again := Blocks(SecondTime(sources, since), since, odd))
  }

  /** The content of a packet outside a round, by its walks over the sources. */
  function Walked(max: nat, r: Round, s: Situation, sources: seq<Candidate>, since: Since, odd: byte): Content
    requires SituationOk(s)
  {
    OpeningSize(s);
    var first := Fill(max, Opening(s), sources, since, |sources|, 0, odd);
    if first.full then first.content
    else
      var q := r.(count := r.count + 1, due := DueIn(r.intervals, r.count + 1));
      var (e, n) := AddItems(max, first.content, PendingOf(q), s.texts);
      if n == |PendingOf(q)| && first.skipped > 0 then
        Fill(max, e, Cleared(first.sources), since, first.skipped, 0, odd).content
      else e
  }

  /** Walking over the sources, clearing the flags and walking again builds the packet of the packet builder. */
  lemma {:induction false} WalksBuildNext(max: nat, r: Round, s: Situation, sources: seq<Candidate>, since: Since, odd: byte)
    requires max >= MIN_PACKET_SIZE && SituationOk(s) && RoundOk(r) && !r.ongoing
    ensures var o := BuildNext(max, r, SituationFor(s, sources, since, odd));
            o.Filled? && o.content == Walked(max, r, s, sources, since, odd)
  {
    hide Fill, AddBlocks, AddItems, Blocks, Skipped, Cleared, AllReported, Step, Pending, DueIn, ContentOk;
    var next := SituationFor(s, sources, since, odd);
    OpeningBuilt(max, next);
    OpeningSize(s);
    Reports(max, next);
    assert Opening(next) == Opening(s);
    FillAddsBlocks(max, Opening(s), sources, since, |sources|, 0, odd);
    FillReportsAll(max, Opening(s), sources, since, |sources|, 0, odd);
    var first := Fill(max, Opening(s), sources, since, |sources|, 0, odd);
    if !first.full {
      var q := r.(count := r.count + 1, due := DueIn(r.intervals, r.count + 1));
      assert PendingOf(q.(firstPacket := false)) == PendingOf(q);
      var (e, n) := AddItems(max, first.content, PendingOf(q), s.texts);
      FillAddsBlocks(max, e, Cleared(first.sources), since, first.skipped, 0, odd);
    }
  }

  // ---------------------------------------------------------------- a source over many packets

  /** What happens to a source: a packet of it comes in, or a packet of the builder is finished, with or without a report on it. */
  datatype Happening = Arrives(arrival: Arrival) | Built(at: RtpTime, reports: bool)

  /** The statistics, and what the builder keeps. */
  datatype Life = Life(stats: Stats, since: Since)

  function Lived(l: Life, h: Happening): Life {
    match h
    case Arrives(a) => l.(stats := Processed(l.stats, a).stats)
    case Built(at, reports) => Life(if reports then NewInterval(l.stats) else l.stats, Since(false, at))
  }

  function LifeOf(hs: seq<Happening>): Life {
    if hs == [] then Life(FRESH, Since(true, 0)) else Lived(LifeOf(hs[..|hs| - 1]), hs[|hs| - 1])
  }

  function TimeOf(h: Happening): RtpTime {
    match h case Arrives(a) => a.now case Built(at, _) => at
  }

  /** One after the other in time, fewer than 2^32, and not about the own source. */
  predicate Orderly(hs: seq<Happening>) {
    && |hs| < 0x1_0000_0000
    && (forall i, j :: 0 <= i < j < |hs| ==> TimeOf(hs[i]) <= TimeOf(hs[j]))
    && (forall i :: 0 <= i < |hs| && hs[i].Arrives? ==> !hs[i].arrival.own)
  }

  predicate Lives(l: Life, n: nat, now: RtpTime) {
    && l.stats.numNewPackets <= n && (!l.stats.sentData ==> l.stats.numNewPackets == 0)
    && (l.stats.sentData && l.stats.numNewPackets == 0 ==> !l.since.first && l.stats.lastRtpTime <= l.since.prev)
    && (l.stats.sentData ==> l.stats.lastRtpTime <= now)
  }

  lemma {:induction false} LivesOn(l: Life, n: nat, now: RtpTime, h: Happening)
    requires Lives(l, n, now) && n < 0xFFFF_FFFF && now <= TimeOf(h) && (h.Arrives? ==> !h.arrival.own)
    ensures Lives(Lived(l, h), n + 1, TimeOf(h))
  {
    hide Deviation, Smoothed;
  }

  lemma {:induction false} LifeLives(hs: seq<Happening>)
    requires Orderly(hs)
    ensures Lives(LifeOf(hs), |hs|, if hs == [] then 0 else TimeOf(hs[|hs| - 1]))
  {
    hide Lives, Lived;
    if hs != [] {
      LifeLives(hs[..|hs| - 1]);
      LivesOn(LifeOf(hs[..|hs| - 1]), |hs| - 1, if |hs| == 1 then 0 else TimeOf(hs[|hs| - 2]), hs[|hs| - 1]);
    } else {
      LivesFirst();
    }
  }

  lemma {:induction false} LivesFirst()
    ensures Lives(LifeOf([]), 0, 0)
  {
  }

  /**
   Over every life of a source, in whatever packets it was reported on: when the first walk of a packet wants it, its
   interval has a packet, so that its fraction lost is defined. Only a second walk divides nothing by nothing.
   */
  lemma {:induction false} FirstWalkDefined(hs: seq<Happening>, c: Candidate)
    requires Orderly(hs) && c.stats == LifeOf(hs).stats && Wanted(c, LifeOf(hs).since)
    ensures c.stats.numNewPackets > 0 && HasFraction(c)
  {
    hide LifeOf;
    LifeLives(hs);
  }
}
