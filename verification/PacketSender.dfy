/** RTPPacketBuilder: the contributing sources it lists, and the numbering of the packets it builds. */
module PacketSender {
  import opened Bytes
  import opened RtpPacket
  import opened RtpDataPacket
  import R = SourceStatsRuns

  datatype Verdict = Fine | NotInit | AlreadyInit | InvalidMaxPacketSize | ListFull | AlreadyInList | NotInList | Refused(why: Status)

  predicate Distinct(s: seq<u32>) {
    forall i, j :: 0 <= i < j < |s| ==> s[i] != s[j]
  }

  /** What a packet is asked to carry besides the builder's own numbers. */
  datatype Request = Request(payloadType: byte, marker: bool, timestampInc: u32, extension: Option<Extension>, payload: bytes)

  predicate RequestOk(r: Request) {
    r.extension.Some? ==> |r.extension.value.data| % 4 == 0 && |r.extension.value.data| / 4 <= 0xFFFF
  }

  /** The numbers that go from packet to packet. */
  datatype Counter = Counter(ssrc: u32, seqNr: u16, timestamp: u32, packets: u32, payloadBytes: u32)

  function PacketFor(c: Counter, csrcs: seq<u32>, r: Request): Packet {
    Packet(r.marker, r.payloadType, c.seqNr, c.timestamp, c.ssrc, csrcs, r.extension, r.payload)
  }

  function Advanced(c: Counter, r: Request): Counter {
    c.(seqNr := (c.seqNr + 1) % 0x1_0000, timestamp := (c.timestamp + r.timestampInc) % 0x1_0000_0000,
       packets := (c.packets + 1) % 0x1_0000_0000, payloadBytes := (c.payloadBytes + |r.payload|) % 0x1_0000_0000)
  }

  class PacketBuilder {
    var init: bool
    var maxPackSize: nat
    var ssrc: u32
    var seqNr: u16
    var timestamp: u32
    var numPackets: u32
    var numPayloadBytes: u32
    const csrcs: array<u32>
    var numCsrcs: nat
    var packet: DataPacket?

    ghost predicate Valid()
      reads this, csrcs
    {
      csrcs.Length == MAX_CSRCS && numCsrcs <= MAX_CSRCS && Distinct(csrcs[..numCsrcs])
    }

    ghost function Csrcs(): seq<u32>
      reads this, csrcs
      requires Valid()
    {
      csrcs[..numCsrcs]
    }

    ghost function Numbers(): Counter
      reads this
    {
      Counter(ssrc, seqNr, timestamp, numPackets, numPayloadBytes)
    }

    constructor ()
      ensures Valid() && !init && Csrcs() == [] && fresh(csrcs)
    {
      init, maxPackSize, ssrc, seqNr, timestamp, numPackets, numPayloadBytes := false, 0, 0, 0, 0, 0, 0;
      csrcs := new u32[MAX_CSRCS](_ => 0);
      numCsrcs, packet := 0, null;
    }

    method Init(max: nat, firstSsrc: u32, firstTimestamp: u32, firstSeqNr: u16) returns (v: Verdict)
      requires Valid()
      modifies this
      ensures Valid() && v == if old(init) then AlreadyInit else if max == 0 then InvalidMaxPacketSize else Fine
      ensures v == Fine ==> init && Csrcs() == [] && Numbers() == Counter(firstSsrc, firstSeqNr, firstTimestamp, 0, 0) && maxPackSize == max
      ensures v != Fine ==> init == old(init) && Csrcs() == old(Csrcs()) && Numbers() == old(Numbers())
    {
      if init {
        return AlreadyInit;
      }
      if max == 0 {
        return InvalidMaxPacketSize;
      }
      maxPackSize := max;
      NewNumbers(firstSsrc, firstTimestamp, firstSeqNr);
      numCsrcs := 0;
      init := true;
      return Fine;
    }

    /** A new SSRC comes with new numbers, and with counts that start again. */
    method NewNumbers(newSsrc: u32, newTimestamp: u32, newSeqNr: u16)
      requires Valid()
      modifies `ssrc, `timestamp, `seqNr, `numPackets, `numPayloadBytes
      ensures Valid() && Csrcs() == old(Csrcs()) && Numbers() == Counter(newSsrc, newSeqNr, newTimestamp, 0, 0)
    {
      ssrc, timestamp, seqNr := newSsrc, newTimestamp, newSeqNr;
      numPayloadBytes, numPackets := 0, 0;
    }

    method AddCSRC(csrc: u32) returns (v: Verdict)
      requires Valid()
      modifies `numCsrcs, csrcs
      ensures Valid()
      ensures v == if !init then NotInit else if |old(Csrcs())| >= MAX_CSRCS then ListFull
                   else if csrc in old(Csrcs()) then AlreadyInList else Fine
      ensures Csrcs() == if v == Fine then old(Csrcs()) + [csrc] else old(Csrcs())
    {
      if !init {
        return NotInit;
      }
      if numCsrcs >= MAX_CSRCS {
        return ListFull;
      }
      ghost var list := Csrcs();
      for i := 0 to numCsrcs
        invariant csrcs[..numCsrcs] == list && forall k :: 0 <= k < i ==> list[k] != csrc
      {
        if csrcs[i] == csrc {
          assert list[i] == csrc;
          return AlreadyInList;
        }
      }
      csrcs[numCsrcs] := csrc;
      numCsrcs := numCsrcs + 1;
      assert csrcs[..numCsrcs] == list + [csrc];
      return Fine;
    }

    /** The last of the list takes the place of the deleted one. */
    method DeleteCSRC(csrc: u32) returns (v: Verdict)
      requires Valid()
      modifies `numCsrcs, csrcs
      ensures Valid()
      ensures v == if !init then NotInit else if csrc in old(Csrcs()) then Fine else NotInList
      ensures multiset(Csrcs()) == if v == Fine then multiset(old(Csrcs())) - multiset{csrc} else multiset(old(Csrcs()))
    {
      hide Distinct, SwappedOut;
      if !init {
        return NotInit;
      }
      ghost var list := Csrcs();
      var i := 0;
      while i < numCsrcs && csrcs[i] != csrc
        invariant 0 <= i <= numCsrcs && forall k :: 0 <= k < i ==> list[k] != csrc
      {
        i := i + 1;
      }
      if i == numCsrcs {
        return NotInList;
      }
      assert list[i] == csrc;
      DeletedBySwap(list, i);
      SwapOut(i);
      return Fine;
    }

    method SwapOut(i: nat)
      requires Valid() && i < numCsrcs
      modifies `numCsrcs, csrcs
      ensures numCsrcs == old(numCsrcs) - 1 && csrcs[..numCsrcs] == SwappedOut(old(Csrcs()), i)
    {
      ghost var list := Csrcs();
      numCsrcs := numCsrcs - 1;
      if numCsrcs > 0 && numCsrcs != i {
        csrcs[i] := csrcs[numCsrcs];
      }
    }

    /** The packet gets the next numbers; one that is refused uses none up. */
    method BuildPacket(r: Request) returns (v: Verdict)
      requires Valid() && RequestOk(r)
      modifies `packet, `timestamp, `seqNr, `numPackets, `numPayloadBytes
      ensures Valid() && Csrcs() == old(Csrcs())
      ensures var p := PacketFor(old(Numbers()), Csrcs(), r);
              && ArgumentsOk(p)
              && v == (if !init then NotInit else if BuildStatus(p, maxPackSize) != Ok then Refused(BuildStatus(p, maxPackSize)) else Fine)
              && (v == Fine ==> fresh(packet) && packet.packet != null && packet.packet[..] == Encode(p))
      ensures Numbers() == if v == Fine then Advanced(old(Numbers()), r) else old(Numbers())
    {
      hide Encode, Header, BuildStatus, DataPacket.Describes, Distinct;
      if !init {
        return NotInit;
      }
      var built := new DataPacket();
      var p := Packet(r.marker, r.payloadType, seqNr, timestamp, ssrc, csrcs[..numCsrcs], r.extension, r.payload);
      var status := built.BuildPacket(p, maxPackSize);
      if status != Ok {
        return Refused(status);
      }
      packet := built;
      numPayloadBytes := (numPayloadBytes + |r.payload|) % 0x1_0000_0000;
      numPackets := (numPackets + 1) % 0x1_0000_0000;
      timestamp := (timestamp + r.timestampInc) % 0x1_0000_0000;
      seqNr := (seqNr + 1) % 0x1_0000;
      return Fine;
    }
  }

  function SwappedOut(list: seq<u32>, i: nat): seq<u32>
    requires i < |list|
  {
    var last := |list| - 1;
    if i == last then list[..last] else list[..last][i := list[last]]
  }

  lemma {:induction false} DeletedBySwap(list: seq<u32>, i: nat)
    requires i < |list| && Distinct(list)
    ensures Distinct(SwappedOut(list, i))
    ensures multiset(SwappedOut(list, i)) == multiset(list) - multiset{list[i]}
  {
    SwapPlaces(list, i);
    hide Distinct, SwappedOut;
    var last := |list| - 1;
    if i < last {
      Rearranged(list[..i], list[i], list[i + 1..last], list[last]);
    } else {
      Rearranged(list[..last], list[last], [], list[last]);
    }
  }

  lemma {:induction false} SwapPlaces(list: seq<u32>, i: nat)
    requires i < |list| && Distinct(list)
    ensures var last := |list| - 1;
            && (i < last ==> list == list[..i] + [list[i]] + list[i + 1..last] + [list[last]])
            && (i == last ==> list == list[..last] + [list[last]] + [])
            && SwappedOut(list, i) == (if i < last then list[..i] + [list[last]] + list[i + 1..last] else list[..last])
            && Distinct(SwappedOut(list, i))
  {
  }

  lemma {:induction false} Rearranged<T>(a: seq<T>, x: T, b: seq<T>, y: T)
    ensures multiset(a + [y] + b) == multiset(a + [x] + b + [y]) - multiset{x}
    ensures multiset(a) == multiset(a + [x] + []) - multiset{x}
  {
    assert a + [x] + [] == a + [x];
  }

  // ---------------------------------------------------------------- from the sender to the receiver

  /** The sequence numbers of n packets that one builder builds in a row. */
  function NumbersFrom(c: Counter, requests: seq<Request>): seq<u16>
    decreases |requests|
  {
    if requests == [] then [] else [c.seqNr] + NumbersFrom(Advanced(c, requests[0]), requests[1..])
  }

  lemma {:induction false} NumbersFollow(c: Counter, requests: seq<Request>, i: nat)
    requires i < |requests|
    ensures |NumbersFrom(c, requests)| == |requests| && NumbersFrom(c, requests)[i] == (c.seqNr + i) % 0x1_0000
    decreases |requests|
  {
    var next := Advanced(c, requests[0]);
    hide Advanced;
    if |requests| > 1 {
      NumbersFollow(next, requests[1..], if i > 0 then i - 1 else 0);
      AdvancedNumber(c, requests[0], i);
    } else {
      assert NumbersFrom(next, []) == [];
    }
  }

  lemma {:induction false} AdvancedNumber(c: Counter, r: Request, i: nat)
    ensures i > 0 ==> (Advanced(c, r).seqNr + i - 1) % 0x1_0000 == (c.seqNr + i) % 0x1_0000
  {
  }

  /** Consecutive true numbers, beginning as the first number of a run is taken. */
  function Consecutive(first: int, n: nat): (ts: seq<int>)
    ensures |ts| == n && forall i :: 0 <= i < n ==> ts[i] == first + i
  {
    seq(n, i => first + i)
  }

  lemma {:induction false} ConsecutiveHighest(first: int, n: nat)
    requires n > 0
    ensures R.Highest(Consecutive(first, n)) == first + n - 1
  {
    if n > 1 {
      assert Consecutive(first, n)[..n - 1] == Consecutive(first, n - 1);
      ConsecutiveHighest(first, n - 1);
    }
  }

  lemma {:induction false} ConsecutiveInStep(first: int, n: nat)
    requires 1 <= first <= R.CYCLE
    ensures R.AllInStep(Consecutive(first, n))
  {
    var ts := Consecutive(first, n);
    forall i | 1 <= i < n
      ensures R.InStep(R.Highest(ts[..i]), ts[i])
    {
      assert ts[..i] == Consecutive(first, i);
      ConsecutiveHighest(first, i);
    }
  }

  /**
   What one builder sends, received in order and as a whole, is numbered without a gap over any number of
   wrap-arounds of the 16-bit numbers.
   */
  lemma {:induction false} SentIsNumberedThrough(c: Counter, requests: seq<Request>)
    ensures var first := if c.seqNr == 0 then 0x1_0000 else c.seqNr;
            R.Numbers(NumbersFrom(c, requests)) == Consecutive(first, |requests|)
  {
    var first := if c.seqNr == 0 then 0x1_0000 else c.seqNr;
    var raws, ts := NumbersFrom(c, requests), Consecutive(first, |requests|);
    if requests != [] {
      forall i | 0 <= i < |requests|
        ensures |raws| == |requests| && raws[i] == ts[i] % R.CYCLE
      {
        NumbersFollow(c, requests, i);
      }
      ConsecutiveInStep(first, |requests|);
      assert |raws| == |ts| by { NumbersFollow(c, requests, 0); }
      R.NumbersExact(raws, ts);
    }
  }

  /** The numbers after these packets. */
  function After(c: Counter, requests: seq<Request>): Counter {
    if requests == [] then c else Advanced(After(c, requests[..|requests| - 1]), requests[|requests| - 1])
  }

  function Increments(requests: seq<Request>): nat {
    if requests == [] then 0 else Increments(requests[..|requests| - 1]) + requests[|requests| - 1].timestampInc
  }

  function Payloads(requests: seq<Request>): nat {
    if requests == [] then 0 else Payloads(requests[..|requests| - 1]) + |requests[|requests| - 1].payload|
  }

  lemma {:induction false} WrapOne(a: int, b: int)
    ensures (a % 0x1_0000_0000 + b) % 0x1_0000_0000 == (a + b) % 0x1_0000_0000
  {
    var q := a / 0x1_0000_0000;
    assert a % 0x1_0000_0000 + b == a + b - q * 0x1_0000_0000;
  }

  lemma {:induction false} WrapNumber(a: int)
    ensures (a % 0x1_0000 + 1) % 0x1_0000 == (a + 1) % 0x1_0000
  {
  }

  /**
   After any packets, the counts that a sender report states are the numbers of packets and of payload bytes, and the
   timestamp has gone on by the sum of the increments.
   */
  lemma {:induction false} CountersExact(c: Counter, requests: seq<Request>)
    ensures After(c, requests)
         == Counter(c.ssrc, (c.seqNr + |requests|) % 0x1_0000, (c.timestamp + Increments(requests)) % 0x1_0000_0000,
                    (c.packets + |requests|) % 0x1_0000_0000, (c.payloadBytes + Payloads(requests)) % 0x1_0000_0000)
  {
    if requests != [] {
      var front, last := requests[..|requests| - 1], requests[|requests| - 1];
      CountersExact(c, front);
      WrapNumber(c.seqNr + |front|);
      WrapOne(c.timestamp + Increments(front), last.timestampInc);
      WrapOne(c.packets + |front|, 1);
      WrapOne(c.payloadBytes + Payloads(front), |last.payload|);
    }
  }
}
