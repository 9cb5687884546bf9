/** Which bytes are RTP packets: those that are a header, contributing sources, an extension, a payload and padding. */
module RtpPadding {
  import opened Bytes
  import opened RtpPacket

  /** The padding ends with the number of its bytes; none is announced by no bit. */
  predicate IsPadding(pads: bytes) {
    pads != [] ==> |pads| <= 255 && pads[|pads| - 1] as nat == |pads|
  }

  /** The fields have their widths, and the second byte is not that of a sender or receiver report. */
  predicate Wellformed(p: Packet) {
    && ArgumentsOk(p) && |p.csrcs| <= MAX_CSRCS && p.payloadType <= 127
    && !(p.marker && (p.payloadType == 72 || p.payloadType == 73))
  }

  function WireHeader(p: Packet, padded: bool): (b: bytes)
    requires Wellformed(p)
    ensures |b| == 12
  {
    [(0x80 + (if padded then 0x20 else 0) + (if p.extension.Some? then 0x10 else 0) + |p.csrcs|) as byte,
     (if p.marker then 0x80 else 0) + p.payloadType] + Be16(p.seqNr) + Be32(p.timestamp) + Be32(p.ssrc)
  }

  /** Section 5.1 of RFC 3550. */
  function Wire(p: Packet, pads: bytes): bytes
    requires Wellformed(p)
  {
    WireHeader(p, pads != []) + Words(p.csrcs) + ExtensionBytes(p.extension) + p.payload + pads
  }

  // ---------------------------------------------------------------- what is written is read

  lemma {:induction false} HeaderRead(d: bytes, p: Packet, padded: bool)
    requires Wellformed(p) && At(d, 0, WireHeader(p, padded))
    ensures U16At(d, 2) == p.seqNr && U32At(d, 4) == p.timestamp && U32At(d, 8) == p.ssrc
    ensures d[0] / 64 == 2 && d[1] != 200 && d[1] != 201 && (d[1] >= 0x80 <==> p.marker) && d[1] % 0x80 == p.payloadType
    ensures HasPadding(d) == padded && HasExtension(d) == p.extension.Some? && CsrcEnd(d) == 12 + 4 * |p.csrcs|
  {
    hide Be16, Be32, U16At, U32At;
    var h := WireHeader(p, padded);
    var seq2, ts, ssrc := Be16(p.seqNr), Be32(p.timestamp), Be32(p.ssrc);
    var two := [h[0], h[1]];
    assert h == two + seq2 + ts + ssrc;
    AtConcat(d, 0, two + seq2 + ts, ssrc);
    AtConcat(d, 0, two + seq2, ts);
    AtConcat(d, 0, two, seq2);
    Read16(d, 2, p.seqNr);
    Read32(d, 4, p.timestamp);
    Read32(d, 8, p.ssrc);
    assert d[0 + 0] == h[0] && d[0 + 1] == h[1];
    FirstBits(d[0], padded, p.extension.Some?, |p.csrcs|);
  }

  lemma {:induction false} FirstBits(b: byte, padded: bool, extended: bool, n: nat)
    requires n <= 15 && b as int == 0x80 + (if padded then 0x20 else 0) + (if extended then 0x10 else 0) + n
    ensures b / 64 == 2 && (b / 0x20 % 2 == 1 <==> padded) && (b / 0x10 % 2 == 1 <==> extended) && b % 16 == n as byte
  {
  }

  /** A packet with whatever padding is accepted, and its parts are the ones it was made of. */
  lemma {:induction false} WireParses(p: Packet, pads: bytes, beyond: u16)
    requires Wellformed(p) && IsPadding(pads) && |p.payload| < 0x8000_0000
    ensures Parse(Wire(p, pads), beyond) == Some(p)
    ensures var d := Wire(p, pads); |d| - PadBytes(d) - PayloadStart(d, beyond) < 0x8000_0000
  {
    hide WireHeader, ExtensionBytes, Words, U16At, U32At, At, CsrcEnd, HasExtension, HasPadding;
    var d := Wire(p, pads);
    var h, c, x := WireHeader(p, pads != []), Words(p.csrcs), ExtensionBytes(p.extension);
    Whole(d);
    AtConcat(d, 0, h + c + x + p.payload, pads);
    AtConcat(d, 0, h + c + x, p.payload);
    AtConcat(d, 0, h + c, x);
    AtConcat(d, 0, h, c);
    HeaderRead(d, p, pads != []);
    CsrcsBack(d, p.csrcs);
    var e, start := 12 + 4 * |p.csrcs|, |h + c + x|;
    if p.extension.Some? {
      ExtensionBack(d, e, p.extension.value);
    }
    AtSlice(d, start, p.payload);
    assert pads != [] ==> d[|d| - 1] == pads[|pads| - 1];
    WirePlaces(d, p, pads, beyond);
    CsrcEndIs(d);
    assert Fields(d, start, |p.payload|) == p;
  }

  lemma {:induction false} Whole(d: bytes)
    ensures At(d, 0, d)
  {
  }

  lemma {:induction false} WirePlaces(d: bytes, p: Packet, pads: bytes, beyond: u16)
    requires Wellformed(p) && IsPadding(pads) && |p.payload| < 0x8000_0000 && |d| >= HEADER_SIZE
    requires HasPadding(d) == (pads != []) && HasExtension(d) == p.extension.Some? && CsrcEnd(d) == 12 + 4 * |p.csrcs|
    requires |d| == 12 + 4 * |p.csrcs| + ExtensionSize(p) + |p.payload| + |pads|
    requires pads != [] ==> d[|d| - 1] == pads[|pads| - 1]
    requires p.extension.Some? ==> U16At(d, CsrcEnd(d) + 2) == |p.extension.value.data| / 4
    ensures PadBytes(d) == |pads| && PayloadStart(d, beyond) == 12 + 4 * |p.csrcs| + ExtensionSize(p)
    ensures PayloadLength(d, beyond) == |p.payload|
  {
    hide HasPadding, HasExtension, CsrcEnd, U16At;
  }

  // ---------------------------------------------------------------- what is read was written

  lemma {:induction false} HeaderRewritten(d: bytes, p: Packet)
    requires |d| >= HEADER_SIZE && d[0] / 64 == 2 && Wellformed(p)
    requires p.marker == (d[1] >= 0x80) && p.payloadType == d[1] % 0x80
    requires p.seqNr == U16At(d, 2) && p.timestamp == U32At(d, 4) && p.ssrc == U32At(d, 8)
    requires |p.csrcs| == CsrcCount(d) && p.extension.Some? == HasExtension(d)
    ensures WireHeader(p, HasPadding(d)) == d[..12]
  {
    hide Be16, Be32, U16At, U32At;
    Rewrite16(d, 2);
    Rewrite32(d, 4);
    Rewrite32(d, 8);
    BitsBack(d[0]);
    assert d[..12] == [d[0], d[1]] + d[2..4] + d[4..8] + d[8..12];
  }

  lemma {:induction false} BitsBack(b: byte)
    requires b / 64 == 2
    ensures b as int == 0x80 + (if b / 0x20 % 2 == 1 then 0x20 else 0) + (if b / 0x10 % 2 == 1 then 0x10 else 0) + (b % 16) as int
  {
  }

  /** What the parser reads, and where. */
  lemma {:induction false} ParsedParts(d: bytes, beyond: u16)
    requires Accepted(d, beyond) && |d| - PadBytes(d) - PayloadStart(d, beyond) < 0x8000_0000
    ensures Parse(d, beyond).Some?
    ensures var p, start := Parse(d, beyond).value, PayloadStart(d, beyond);
            && HEADER_SIZE <= CsrcEnd(d) <= start && start + PadBytes(d) <= |d|
            && d[0] / 64 == 2 && d[1] != 200 && d[1] != 201 && (HasPadding(d) ==> d[|d| - 1] != 0)
            && p.marker == (d[1] >= 0x80) && p.payloadType == d[1] % 0x80
            && p.seqNr == U16At(d, 2) && p.timestamp == U32At(d, 4) && p.ssrc == U32At(d, 8)
            && p.csrcs == Csrcs(d, CsrcCount(d)) && p.extension.Some? == HasExtension(d)
            && p.payload == d[start..|d| - PadBytes(d)]
  {
    hide U16At, U32At, PayloadStart, CsrcEnd, HasExtension, HasPadding, PadBytes;
    AcceptedFits(d, beyond);
  }

  lemma {:induction false} PaddingRead(d: bytes)
    requires |d| >= HEADER_SIZE && PadBytes(d) <= |d| && (HasPadding(d) ==> d[|d| - 1] != 0)
    ensures var pads := d[|d| - PadBytes(d)..]; IsPadding(pads) && (pads != [] <==> HasPadding(d))
  {
    hide HasPadding;
  }

  /** Whatever is accepted was written so, if its payload is shorter than 2^31. */
  lemma {:induction false} ParsedWire(d: bytes, beyond: u16)
    requires Accepted(d, beyond) && |d| - PadBytes(d) - PayloadStart(d, beyond) < 0x8000_0000
    ensures PadBytes(d) <= |d|
    ensures var p, pads := Parse(d, beyond).value, d[|d| - PadBytes(d)..];
            Wellformed(p) && IsPadding(pads) && |p.payload| < 0x8000_0000 && d == Wire(p, pads)
  {
    hide WireHeader, ExtensionBytes, Words, U16At, U32At, PayloadLength, PayloadStart, CsrcEnd, Parse, HasExtension, HasPadding, PadBytes, IsPadding;
    ParsedParts(d, beyond);
    RebuiltExtension(d, beyond);
    PaddingRead(d);
    CsrcEndIs(d);
    var p := Parse(d, beyond).value;
    HeaderRewritten(d, p);
    RewriteCsrcs(d, CsrcCount(d));
    WireBack(d, p, CsrcEnd(d), PayloadStart(d, beyond), |d| - PadBytes(d));
  }

  lemma {:induction false} WireBack(d: bytes, p: Packet, e: nat, start: nat, end: nat)
    requires 12 <= e <= start <= end <= |d| && Wellformed(p)
    requires WireHeader(p, d[end..] != []) == d[..12] && Words(p.csrcs) == d[12..e]
    requires ExtensionBytes(p.extension) == d[e..start] && p.payload == d[start..end]
    ensures d == Wire(p, d[end..])
  {
    hide WireHeader, Words, ExtensionBytes, Wellformed;
    FiveParts(d, e, start, end);
  }

  lemma {:induction false} FiveParts(d: bytes, e: nat, start: nat, end: nat)
    requires 12 <= e <= start <= end <= |d|
    ensures d == d[..12] + d[12..e] + d[e..start] + d[start..end] + d[end..]
  {
  }

  /** The parts make up the bytes. */
  predicate MadeOf(d: bytes, p: Packet, pads: bytes) {
    Wellformed(p) && IsPadding(pads) && |p.payload| < 0x8000_0000 && d == Wire(p, pads)
  }

  /**
   Exactly those bytes are accepted that are made of a packet and padding, and what is read is that packet; but for a
   payload of 2^31 bytes or more, whose length does not fit the parser's variable.
   */
  lemma {:induction false} AcceptedExact(d: bytes, beyond: u16)
    ensures (exists p, pads :: MadeOf(d, p, pads))
       <==> Accepted(d, beyond) && |d| - PadBytes(d) - PayloadStart(d, beyond) < 0x8000_0000
    ensures |d| < 0x8000_0000 ==> ((exists p, pads :: MadeOf(d, p, pads)) <==> Accepted(d, beyond))
    ensures forall p, pads :: MadeOf(d, p, pads) ==> Parse(d, beyond) == Some(p)
  {
    hide Wellformed, IsPadding, Wire, Fields;
    forall p, pads | MadeOf(d, p, pads)
      ensures Parse(d, beyond) == Some(p) && Accepted(d, beyond) && |d| - PadBytes(d) - PayloadStart(d, beyond) < 0x8000_0000
    {
      WireParses(p, pads, beyond);
    }
    if Accepted(d, beyond) && |d| - PadBytes(d) - PayloadStart(d, beyond) < 0x8000_0000 {
      ParsedWire(d, beyond);
      assert MadeOf(d, Parse(d, beyond).value, d[|d| - PadBytes(d)..]);
    }
  }

  /** What the builder takes: a well-formed packet, whose type is neither 72 nor 73, and whose bytes are not too many. */
  lemma {:induction false} BuildExact(p: Packet, maxSize: nat)
    requires ArgumentsOk(p)
    ensures BuildStatus(p, maxSize) == Ok
       <==> Wellformed(p) && p.payloadType != 72 && p.payloadType != 73 && (maxSize == 0 || |Wire(p, [])| <= maxSize)
    ensures BuildStatus(p, maxSize) == Ok ==> Encode(p) == Wire(p, [])
  {
    hide Words, ExtensionBytes;
    if Wellformed(p) && p.payloadType != 72 && p.payloadType != 73 {
      assert Encode(p) == Wire(p, []);
    }
  }
}
