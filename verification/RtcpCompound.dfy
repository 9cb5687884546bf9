/** Splitting the bytes of an RTCP compound packet into the packets it consists of. */
module RtcpCompound {
  import opened Bytes
  import opened RtcpFormat

  /** An entry of the packet list: which class describes the bytes, and which bytes they are. */
  datatype PacketRef = PacketRef(packetType: byte, offset: nat, length: nat)

  /** What ParseData makes of d from position p on; first tells whether no packet was seen yet. */
  function ParseFrom(d: bytes, p: nat, first: bool): (r: Option<seq<PacketRef>>)
    requires p <= |d|
    decreases |d| - p
  {
    if p == |d| && !first then Some([])
    else if |d| - p < 4 || d[p] / 64 != RTP_VERSION then None
    else if first && d[p + 1] != RTCP_SR && d[p + 1] != RTCP_RR then None
    else
      var length := (U16At(d, p + 2) + 1) * 4;
      if length > |d| - p || (d[p] / 32 % 2 == 1 && length != |d| - p) then None
      else
        Prefixed([PacketRef(d[p + 1], p, length)], ParseFrom(d, p + length, false))
  }

  /** The packets found after position p, in front of which the packets in refs were found already. */
  function Prefixed(refs: seq<PacketRef>, r: Option<seq<PacketRef>>): Option<seq<PacketRef>> {
    match r
    case None => None
    case Some(rest) => Some(refs + rest)
  }

  lemma {:induction false} PrefixedNone(r: Option<seq<PacketRef>>)
    ensures Prefixed([], r) == r
  {
    assert r.Some? ==> [] + r.value == r.value;
  }

  lemma {:induction false} PrefixedStep(refs: seq<PacketRef>, e: PacketRef, r: Option<seq<PacketRef>>)
    ensures Prefixed(refs + [e], r) == Prefixed(refs, Prefixed([e], r))
  {
    assert r.Some? ==> refs + ([e] + r.value) == refs + [e] + r.value;
  }

  method ParseData(d: bytes) returns (ok: bool, refs: seq<PacketRef>)
    ensures ok <==> ParseFrom(d, 0, true).Some?
    ensures refs == if ok then ParseFrom(d, 0, true).value else []
  {
    refs := [];
    if |d| < 4 {
      return false, [];
    }
    var first, more := true, true;
    var data, datalen := 0, |d|;
    PrefixedNone(ParseFrom(d, 0, true));
    while more
      invariant data >= 0 && datalen >= 0 && data + datalen == |d|
      invariant more ==> datalen >= 4
      invariant !more ==> !first && datalen < 4
      invariant Prefixed(refs, ParseFrom(d, data, first)) == ParseFrom(d, 0, true)
      decreases datalen, more
    {
      if d[data] / 64 != RTP_VERSION {
        return false, [];
      }
      if first && d[data + 1] != RTCP_SR && d[data + 1] != RTCP_RR {
        return false, [];
      }
      var length := (U16At(d, data + 2) + 1) * 4;
      if length > datalen {
        return false, [];
      }
      if d[data] / 32 % 2 == 1 && length != datalen {
        return false, [];
      }
      PrefixedStep(refs, PacketRef(d[data + 1], data, length), ParseFrom(d, data + length, false));
      refs := refs + [PacketRef(d[data + 1], data, length)];
      first := false;
      datalen := datalen - length;
      data := data + length;
      more := datalen >= 4;
    }
    if datalen != 0 {
      return false, [];
    }
    ok := true;
  }

  // ---------------------------------------------------------------- compound packets as written

  /** The bytes of one packet: a plain header whose length field holds the low 16 bits of the word count. */
  predicate IsBlock(b: bytes) {
    |b| >= 4 && |b| % 4 == 0 && b[0] / 64 == RTP_VERSION && b[0] / 32 % 2 == 0 && U16At(b, 2) == (|b| / 4 - 1) % 0x1_0000
  }

  predicate AllHeaded(bs: seq<bytes>) {
    forall i :: 0 <= i < |bs| ==> |bs[i]| >= 4
  }

  predicate AllBlocks(bs: seq<bytes>) {
    forall i :: 0 <= i < |bs| ==> IsBlock(bs[i])
  }

  /** The length field counts at most 65536 words. */
  predicate LengthFits(b: bytes) {
    |b| <= 0x4_0000
  }

  /** The packet list of a compound packet whose first packet is written at offset at. */
  function Layout(bs: seq<bytes>, at: nat): (r: seq<PacketRef>)
    requires AllHeaded(bs)
    ensures |r| == |bs|
  {
    if bs == [] then [] else [PacketRef(bs[0][1], at, |bs[0]|)] + Layout(bs[1..], at + |bs[0]|)
  }

  lemma {:induction false} LayoutCons(b: bytes, bs: seq<bytes>, at: nat)
    requires AllHeaded(bs) && |b| >= 4
    ensures AllHeaded([b] + bs)
    ensures Layout([b] + bs, at) == [PacketRef(b[1], at, |b|)] + Layout(bs, at + |b|)
  {
    assert ([b] + bs)[1..] == bs;
  }

  lemma {:induction false} LayoutAppend(bs: seq<bytes>, b: bytes, at: nat)
    requires AllHeaded(bs) && |b| >= 4
    ensures AllHeaded(bs + [b])
    ensures Layout(bs + [b], at) == Layout(bs, at) + [PacketRef(b[1], at + |Flatten(bs)|, |b|)]
    decreases |bs|
  {
    if bs == [] {
      LayoutCons(b, [], at);
      assert [] + [b] == [b] + [];
    } else {
      var h, t := bs[0], bs[1..];
      LayoutAppend(t, b, at + |h|);
      LayoutCons(h, t + [b], at);
      assert bs + [b] == [h] + (t + [b]);
    }
  }

  /** What the parser reads from the header of the packet b, written at offset at. */
  lemma {:induction false} HeaderAt(d: bytes, at: nat, b: bytes)
    requires IsBlock(b) && At(d, at, b)
    ensures d[at] == b[0] && d[at + 1] == b[1] && U16At(d, at + 2) == U16At(b, 2)
    ensures LengthFits(b) <==> (U16At(d, at + 2) + 1) * 4 == |b|
  {
    assert d[at + 0] == b[0] && d[at + 1] == b[1] && d[at + 2] == b[2] && d[at + 3] == b[3];
  }

  /** The parser recovers the packet list the writer made, exactly when every length fits its field. */
  lemma {:induction false} ParseBlocks(d: bytes, at: nat, bs: seq<bytes>, first: bool)
    requires AllBlocks(bs) && At(d, at, Flatten(bs)) && at + |Flatten(bs)| == |d|
    requires first ==> bs != [] && (bs[0][1] == RTCP_SR || bs[0][1] == RTCP_RR)
    ensures ParseFrom(d, at, first) == Some(Layout(bs, at)) <==> forall i :: 0 <= i < |bs| ==> LengthFits(bs[i])
    decreases |bs|
  {
    if bs != [] {
      var b, rest := bs[0], bs[1..];
      assert bs == [b] + rest;
      AtConcat(d, at, b, Flatten(rest));
      HeaderAt(d, at, b);
      if LengthFits(b) {
        ParseBlocks(d, at + |b|, rest, false);
        ghost var r := ParseFrom(d, at + |b|, false);
        if r.Some? {
          assert ParseFrom(d, at, first) == Some([PacketRef(b[1], at, |b|)] + r.value);
          assert ParseFrom(d, at, first).value[1..] == r.value;
        }
        assert Layout(bs, at)[1..] == Layout(rest, at + |b|);
      } else if ParseFrom(d, at, first).Some? {
        assert ParseFrom(d, at, first).value[0].length != |b| == Layout(bs, at)[0].length;
      }
    }
  }

  /** The bytes an entry of the layout points at are those of its packet. */
  lemma {:induction false} LayoutSlices(d: bytes, at: nat, bs: seq<bytes>, i: nat)
    requires AllHeaded(bs) && At(d, at, Flatten(bs)) && i < |bs|
    ensures var e := Layout(bs, at)[i];
            e.offset + e.length <= |d| && e.packetType == bs[i][1] && d[e.offset..e.offset + e.length] == bs[i]
    decreases i
  {
    AtConcat(d, at, bs[0], Flatten(bs[1..]));
    if i == 0 {
      AtSlice(d, at, bs[0]);
    } else {
      LayoutSlices(d, at + |bs[0]|, bs[1..], i - 1);
    }
  }

  predicate AllOk(ps: seq<Packet>) {
    forall i :: 0 <= i < |ps| ==> PacketOk(ps[i])
  }

  /** The packets as they are written. */
  function Encoded(ps: seq<Packet>): (bs: seq<bytes>)
    requires AllOk(ps)
    ensures |bs| == |ps|
  {
    if ps == [] then [] else [EncodePacket(ps[0])] + Encoded(ps[1..])
  }

  lemma {:induction false} EncodedAt(ps: seq<Packet>, i: nat)
    requires AllOk(ps) && i < |ps|
    ensures Encoded(ps)[i] == EncodePacket(ps[i])
    decreases i
  {
    if i > 0 {
      EncodedAt(ps[1..], i - 1);
    }
  }

  lemma {:induction false} EncodedBlock(p: Packet)
    requires PacketOk(p)
    ensures IsBlock(EncodePacket(p)) && EncodePacket(p)[1] == TypeOf(p)
  {
    BodyAligned(p);
    HeadedIsBlock(EncodePacket(p), CountOf(p), TypeOf(p), Body(p));
  }

  lemma {:induction false} HeadedIsBlock(d: bytes, count: byte, packetType: byte, body: bytes)
    requires count <= 31 && |body| % 4 == 0 && d == Header(count, packetType, 4 + |body|) + body
    ensures IsBlock(d) && d[1] == packetType
  {
    AtConcat(d, 0, Header(count, packetType, 4 + |body|), body);
    HeaderFields(d, 0, count, packetType, 4 + |body|);
    HeaderLength(d, 0, count, packetType, 4 + |body|);
  }

  lemma {:induction false} EncodedBlocks(ps: seq<Packet>)
    requires AllOk(ps)
    ensures AllBlocks(Encoded(ps)) && AllHeaded(Encoded(ps))
    ensures ps != [] ==> Encoded(ps)[0][1] == TypeOf(ps[0])
  {
    forall i | 0 <= i < |ps|
      ensures IsBlock(Encoded(ps)[i]) && Encoded(ps)[i][1] == TypeOf(ps[i])
    {
      EncodedAt(ps, i);
      EncodedBlock(ps[i]);
    }
  }

  /** The entry e of the packet list of d names the class of p, which reads p from the entry's bytes. */
  predicate ReadsBack(d: bytes, e: PacketRef, p: Packet) {
    e.packetType == TypeOf(p) && e.length >= 4 && e.offset + e.length <= |d|
    && DecodePacket(d[e.offset..e.offset + e.length]) == Some(CanonicalPacket(p))
  }

  lemma {:induction false} SliceReadsBack(d: bytes, e: PacketRef, p: Packet)
    requires PacketOk(p) && e.offset + e.length <= |d|
    requires d[e.offset..e.offset + e.length] == EncodePacket(p) && e.packetType == EncodePacket(p)[1]
    ensures ReadsBack(d, e, p)
  {
    PacketRoundTrip(p);
    EncodedBlock(p);
  }

  lemma {:induction false} EntryReadsBack(ps: seq<Packet>, i: nat)
    requires AllOk(ps) && AllHeaded(Encoded(ps)) && i < |ps|
    ensures ReadsBack(Flatten(Encoded(ps)), Layout(Encoded(ps), 0)[i], ps[i])
  {
    EncodedAt(ps, i);
    LayoutSlices(Flatten(Encoded(ps)), 0, Encoded(ps), i);
    SliceReadsBack(Flatten(Encoded(ps)), Layout(Encoded(ps), 0)[i], ps[i]);
  }

  /**
   Round trip of a whole compound packet: the parser finds the packets that were written, at the
   offsets where they were written, exactly when no packet is longer than its length field can say.
   The class chosen for each entry of the list reads back the contents that went in.
   */
  lemma {:induction false} CompoundRoundTrip(ps: seq<Packet>)
    requires AllOk(ps) && ps != [] && (ps[0].SR? || ps[0].RR?)
    ensures AllHeaded(Encoded(ps))
    ensures ParseFrom(Flatten(Encoded(ps)), 0, true) == Some(Layout(Encoded(ps), 0))
            <==> forall i :: 0 <= i < |ps| ==> LengthFits(Encoded(ps)[i])
    ensures forall i :: 0 <= i < |ps| ==> ReadsBack(Flatten(Encoded(ps)), Layout(Encoded(ps), 0)[i], ps[i])
  {
    EncodedBlocks(ps);
    ParseBlocks(Flatten(Encoded(ps)), 0, Encoded(ps), true);
    forall i | 0 <= i < |ps|
      ensures ReadsBack(Flatten(Encoded(ps)), Layout(Encoded(ps), 0)[i], ps[i])
    {
      EntryReadsBack(ps, i);
    }
  }

  /** The entries of refs cover the bytes from p to end without gap or overlap, in whole words. */
  predicate Tiles(refs: seq<PacketRef>, p: nat, end: nat)
    decreases |refs|
  {
    if refs == [] then p == end
    else refs[0].offset == p && refs[0].length >= 4 && refs[0].length % 4 == 0 && Tiles(refs[1..], p + refs[0].length, end)
  }

  /** Whatever bytes come in, an accepted compound packet is tiled by its packets and led by a report. */
  lemma {:induction false} AcceptedPacketsTile(d: bytes, p: nat, first: bool)
    requires p <= |d| && ParseFrom(d, p, first).Some?
    ensures Tiles(ParseFrom(d, p, first).value, p, |d|)
    ensures first ==> ParseFrom(d, p, first).value != []
                      && ParseFrom(d, p, first).value[0].packetType in {RTCP_SR, RTCP_RR}
    decreases |d| - p
  {
    if p < |d| {
      var length := (U16At(d, p + 2) + 1) * 4;
      AcceptedPacketsTile(d, p + length, false);
      assert ParseFrom(d, p, first).value[1..] == ParseFrom(d, p + length, false).value;
    }
  }

  /** The entry is a packet of the bytes: its header has the version, the type and the length, and padding only at the very end. */
  predicate IsEntry(d: bytes, e: PacketRef) {
    && 4 <= e.length && e.offset + e.length <= |d|
    && d[e.offset] / 64 == 2 && d[e.offset + 1] == e.packetType && 4 * (U16At(d, e.offset + 2) + 1) == e.length
    && (d[e.offset] / 32 % 2 == 1 ==> e.offset + e.length == |d|)
  }

  /** These packets make up the bytes from p on; a compound packet begins with a report. */
  predicate MakeUp(d: bytes, p: nat, first: bool, refs: seq<PacketRef>) {
    && Tiles(refs, p, |d|) && (forall i :: 0 <= i < |refs| ==> IsEntry(d, refs[i]))
    && (first ==> refs != [] && (refs[0].packetType == 200 || refs[0].packetType == 201))
  }

  lemma {:induction false} FirstEntry(d: bytes, p: nat, first: bool, refs: seq<PacketRef>)
    requires p <= |d| && refs != []
    ensures MakeUp(d, p, first, refs) <==>
              && refs[0].offset == p && IsEntry(d, refs[0]) && (first ==> refs[0].packetType == 200 || refs[0].packetType == 201)
              && MakeUp(d, p + refs[0].length, false, refs[1..])
  {
    hide IsEntry;
    assert refs == [refs[0]] + refs[1..];
    assert forall i :: 1 <= i < |refs| ==> refs[i] == refs[1..][i - 1];
    LengthsWhole(d, refs[0]);
  }

  lemma {:induction false} LengthsWhole(d: bytes, e: PacketRef)
    ensures IsEntry(d, e) ==> e.length >= 4 && e.length % 4 == 0
  {
  }

  /** The parser accepts exactly the bytes that are made up of packets, and lists exactly those. */
  lemma {:induction false} ParseExact(d: bytes, p: nat, first: bool, refs: seq<PacketRef>)
    requires p <= |d|
    ensures ParseFrom(d, p, first) == Some(refs) <==> MakeUp(d, p, first, refs)
    decreases |d| - p
  {
    if p < |d| && refs != [] && refs[0].offset == p && IsEntry(d, refs[0]) {
      FirstEntry(d, p, first, refs);
      ParseExact(d, p + refs[0].length, false, refs[1..]);
      assert refs == [refs[0]] + refs[1..];
    } else if refs != [] {
      FirstEntry(d, p, first, refs);
    }
  }
}
