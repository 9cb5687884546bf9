/** RTP data packets (section 5.1 of RFC 3550): what BuildPacket writes and ParseRawPacket reads back. */
module RtpPacket {
  import opened Bytes

  const HEADER_SIZE := 12
  const MAX_CSRCS := 15

  /** The extension's data is counted in 32-bit words (section 5.3.1 of RFC 3550). */
  datatype Extension = Extension(id: u16, data: bytes)

  /** The sequence number has 16 bits on the wire; the receiving side extends it to 32. */
  datatype Packet = Packet(marker: bool, payloadType: byte, seqNr: u32, timestamp: u32, ssrc: u32,
                           csrcs: seq<u32>, extension: Option<Extension>, payload: bytes)

  datatype Status = Ok | TooManyCsrcs | BadPayloadType | ExceedsMaxSize | InvalidPacket

  /** What the types of BuildPacket's parameters say about its arguments. */
  predicate ArgumentsOk(p: Packet) {
    && p.seqNr < 0x1_0000 && |p.csrcs| <= 255
    && (p.extension.Some? ==> |p.extension.value.data| % 4 == 0 && |p.extension.value.data| / 4 <= 0xFFFF)
  }

  function ExtensionSize(p: Packet): nat {
    match p.extension case None => 0 case Some(x) => 4 + |x.data|
  }

  function Size(p: Packet): nat {
    HEADER_SIZE + 4 * |p.csrcs| + ExtensionSize(p) + |p.payload|
  }

  /** The checks that precede the writing; a maximum size of 0 stands for no limit. */
  function BuildStatus(p: Packet, maxSize: nat): Status {
    if |p.csrcs| > MAX_CSRCS then TooManyCsrcs
    else if p.payloadType > 127 || p.payloadType == 72 || p.payloadType == 73 then BadPayloadType
    else if maxSize > 0 && Size(p) > maxSize then ExceedsMaxSize
    else Ok
  }

  predicate Sendable(p: Packet) {
    ArgumentsOk(p) && BuildStatus(p, 0) == Ok
  }

  function FirstByte(extension: bool, csrcs: nat): byte
    requires csrcs <= MAX_CSRCS
  {
    (0x80 + (if extension then 0x10 else 0) + csrcs) as byte
  }

  function SecondByte(marker: bool, payloadType: byte): byte
    requires payloadType <= 127
  {
    (if marker then 0x80 else 0) + payloadType
  }

  function Header(p: Packet): (b: bytes)
    requires Sendable(p)
    ensures |b| == HEADER_SIZE
  {
    [FirstByte(p.extension.Some?, |p.csrcs|), SecondByte(p.marker, p.payloadType)] + Be16(p.seqNr) + Be32(p.timestamp) + Be32(p.ssrc)
  }

  function ExtensionBytes(x: Option<Extension>): (b: bytes)
    requires x.Some? ==> |x.value.data| / 4 <= 0xFFFF
    ensures |b| == match x case None => 0 case Some(e) => 4 + |e.data|
  {
    match x
    case None => []
    case Some(e) => Be16(e.id) + Be16(|e.data| / 4) + e.data
  }

  function Encode(p: Packet): (b: bytes)
    requires Sendable(p)
    ensures |b| == Size(p)
  {
    Header(p) + Words(p.csrcs) + ExtensionBytes(p.extension) + p.payload
  }

  // ---------------------------------------------------------------- reading

  function Int32(x: int): i32 {
    (x + 0x8000_0000) % 0x1_0000_0000 - 0x8000_0000
  }

  predicate HasPadding(d: bytes) requires |d| >= HEADER_SIZE { d[0] / 0x20 % 2 == 1 }
  predicate HasExtension(d: bytes) requires |d| >= HEADER_SIZE { d[0] / 0x10 % 2 == 1 }
  function CsrcCount(d: bytes): (n: nat) requires |d| >= HEADER_SIZE ensures n <= MAX_CSRCS { (d[0] % 16) as nat }
  function CsrcEnd(d: bytes): nat requires |d| >= HEADER_SIZE { HEADER_SIZE + 4 * CsrcCount(d) }

  function PadBytes(d: bytes): nat
    requires |d| >= HEADER_SIZE
  {
    if HasPadding(d) then d[|d| - 1] as nat else 0
  }

  /** The length field of the extension header; it is what lies in memory where the packet is too short for it. */
  function ExtensionWords(d: bytes, beyond: u16): u16
    requires |d| >= HEADER_SIZE
  {
    if CsrcEnd(d) + 4 <= |d| then U16At(d, CsrcEnd(d) + 2) else beyond
  }

  function PayloadStart(d: bytes, beyond: u16): nat
    requires |d| >= HEADER_SIZE
  {
    CsrcEnd(d) + if HasExtension(d) then 4 + 4 * ExtensionWords(d, beyond) else 0
  }

  /** The computed length of the payload, in the 32-bit variable that the parser keeps it in. */
  function PayloadLength(d: bytes, beyond: u16): i32
    requires |d| >= HEADER_SIZE
  {
    Int32(|d| - PadBytes(d) - PayloadStart(d, beyond))
  }

  predicate Accepted(d: bytes, beyond: u16) {
    && |d| >= HEADER_SIZE && d[0] / 64 == 2 && d[1] != 200 && d[1] != 201
    && (HasPadding(d) ==> d[|d| - 1] != 0)
    && PayloadLength(d, beyond) >= 0
  }

  function Csrcs(d: bytes, n: nat): (r: seq<u32>)
    requires HEADER_SIZE + 4 * n <= |d|
    ensures |r| == n && forall i :: 0 <= i < n ==> r[i] == U32At(d, HEADER_SIZE + 4 * i)
  {
    seq(n, i requires 0 <= i < n => U32At(d, HEADER_SIZE + 4 * i))
  }

  function Fields(d: bytes, start: nat, length: nat): Packet
    requires |d| >= HEADER_SIZE && CsrcEnd(d) <= start && start + length <= |d|
    requires HasExtension(d) ==> CsrcEnd(d) + 4 <= start
  {
    Packet(d[1] >= 0x80, d[1] % 0x80, U16At(d, 2), U32At(d, 4), U32At(d, 8), Csrcs(d, CsrcCount(d)),
           if HasExtension(d) then Some(Extension(U16At(d, CsrcEnd(d)), d[CsrcEnd(d) + 4..start])) else None,
           d[start..start + length])
  }

  /** In an accepted packet everything lies inside, and nothing that is read beyond its end matters. */
  lemma {:induction false} AcceptedFits(d: bytes, beyond: u16)
    requires Accepted(d, beyond)
    ensures PayloadStart(d, beyond) + PayloadLength(d, beyond) + PadBytes(d) <= |d|
    ensures PayloadStart(d, beyond) + PayloadLength(d, beyond) + PadBytes(d) == |d|
            <==> |d| - PadBytes(d) - PayloadStart(d, beyond) < 0x8000_0000
    ensures HEADER_SIZE <= CsrcEnd(d) <= PayloadStart(d, beyond) <= |d| - PadBytes(d)
    ensures HasExtension(d) ==> CsrcEnd(d) + 4 <= PayloadStart(d, beyond)
  {
  }

  lemma {:induction false} BeyondIsHarmless(d: bytes, beyond: u16, other: u16)
    ensures Accepted(d, beyond) <==> Accepted(d, other)
    ensures Accepted(d, beyond) ==> PayloadStart(d, beyond) == PayloadStart(d, other) && PayloadLength(d, beyond) == PayloadLength(d, other)
  {
    if |d| >= HEADER_SIZE && HasExtension(d) && CsrcEnd(d) + 4 > |d| {
      assert PayloadStart(d, beyond) > |d| && PayloadStart(d, other) > |d|;
    }
  }

  function Parse(d: bytes, beyond: u16): Option<Packet> {
    if Accepted(d, beyond) then
      AcceptedFits(d, beyond);
      Some(Fields(d, PayloadStart(d, beyond), PayloadLength(d, beyond)))
    else None
  }

  // ---------------------------------------------------------------- the two together

  lemma {:induction false} HeaderParts(d: bytes, p: Packet)
    requires Sendable(p) && At(d, 0, Header(p))
    ensures d[0] == FirstByte(p.extension.Some?, |p.csrcs|) && d[1] == SecondByte(p.marker, p.payloadType)
    ensures U16At(d, 2) == p.seqNr && U32At(d, 4) == p.timestamp && U32At(d, 8) == p.ssrc
  {
    hide Be16, Be32, FirstByte, SecondByte, U16At, U32At;
    var two := [FirstByte(p.extension.Some?, |p.csrcs|), SecondByte(p.marker, p.payloadType)];
    var seq2, ts, ssrc := Be16(p.seqNr), Be32(p.timestamp), Be32(p.ssrc);
    AtConcat(d, 0, two + seq2 + ts, ssrc);
    AtConcat(d, 0, two + seq2, ts);
    AtConcat(d, 0, two, seq2);
    AtSlice(d, 0, two);
    assert d[0] == d[0..2][0] && d[1] == d[0..2][1];
    Read16(d, 2, p.seqNr);
    Read32(d, 4, p.timestamp);
    Read32(d, 8, p.ssrc);
  }

  lemma {:induction false} EncodedParts(p: Packet)
    requires Sendable(p)
    ensures var d := Encode(p); var e := HEADER_SIZE + 4 * |p.csrcs|;
            && d[0] == FirstByte(p.extension.Some?, |p.csrcs|) && d[1] == SecondByte(p.marker, p.payloadType)
            && U16At(d, 2) == p.seqNr && U32At(d, 4) == p.timestamp && U32At(d, 8) == p.ssrc
            && At(d, HEADER_SIZE, Words(p.csrcs)) && At(d, e, ExtensionBytes(p.extension))
            && d[e + ExtensionSize(p)..] == p.payload
  {
    hide Header, ExtensionBytes, U16At, U32At, FirstByte, SecondByte, Words;
    var d := Encode(p);
    assert At(d, 0, Header(p));
    HeaderParts(d, p);
  }

  lemma {:induction false} ExtensionBack(d: bytes, e: nat, x: Extension)
    requires |x.data| % 4 == 0 && |x.data| / 4 <= 0xFFFF && At(d, e, ExtensionBytes(Some(x)))
    ensures U16At(d, e) == x.id && U16At(d, e + 2) == |x.data| / 4 && d[e + 4..e + 4 + |x.data|] == x.data
  {
    var id, n := Be16(x.id), Be16(|x.data| / 4);
    assert id + n + x.data == ExtensionBytes(Some(x));
    AtConcat(d, e, id + n, x.data);
    AtConcat(d, e, id, n);
    Read16(d, e, x.id);
    Read16(d, e + 2, |x.data| / 4);
    AtSlice(d, e + 4, x.data);
  }

  /** Where the parser finds the parts of a packet that was built. */
  lemma {:induction false} EncodedPlaces(p: Packet, beyond: u16)
    requires Sendable(p)
    ensures var d := Encode(p);
            && !HasPadding(d) && (HasExtension(d) <==> p.extension.Some?) && CsrcEnd(d) == HEADER_SIZE + 4 * |p.csrcs|
            && PayloadStart(d, beyond) == CsrcEnd(d) + ExtensionSize(p)
            && PayloadLength(d, beyond) == Int32(|p.payload|)
            && d[0] / 64 == 2 && d[1] != 200 && d[1] != 201
    ensures var d := Encode(p);
            p.extension.Some? ==> U16At(d, CsrcEnd(d)) == p.extension.value.id && d[CsrcEnd(d) + 4..PayloadStart(d, beyond)] == p.extension.value.data
  {
    hide Encode, ExtensionBytes, FirstByte, SecondByte, U16At, At;
    var d := Encode(p);
    EncodedParts(p);
    HeaderBits(d[0], d[1], p);
    if p.extension.Some? {
      ExtensionBack(d, HEADER_SIZE + 4 * |p.csrcs|, p.extension.value);
    }
  }

  lemma {:induction false} FieldsBack(p: Packet, start: nat)
    requires Sendable(p) && start == HEADER_SIZE + 4 * |p.csrcs| + ExtensionSize(p)
    ensures var d := Encode(p);
            HasExtension(d) == p.extension.Some? && CsrcEnd(d) == HEADER_SIZE + 4 * |p.csrcs|
            && Fields(d, start, |p.payload|) == p
  {
    hide Encode, FirstByte, SecondByte, U16At, U32At, At, ExtensionBytes;
    var d := Encode(p);
    EncodedParts(p);
    EncodedPlaces(p, 0);
    HeaderBits(d[0], d[1], p);
    CsrcsBack(d, p.csrcs);
    assert start + |p.payload| == |d|;
    assert d[start..start + |p.payload|] == p.payload;
  }

  /** A packet that was built comes back as it was, exactly if the payload's length fits a signed 32-bit number. */
  lemma {:induction false} RoundTrip(p: Packet, beyond: u16)
    requires Sendable(p)
    ensures Parse(Encode(p), beyond) == Some(p) <==> |p.payload| < 0x8000_0000
  {
    hide Encode, Fields, PayloadLength, PayloadStart;
    EncodedPlaces(p, beyond);
    FieldsBack(p, PayloadStart(Encode(p), beyond));
    var d, start := Encode(p), PayloadStart(Encode(p), beyond);
    if Accepted(d, beyond) && |p.payload| >= 0x8000_0000 {
      assert Parse(d, beyond).value.payload == d[start..start + PayloadLength(d, beyond)] by {
        AcceptedFits(d, beyond);
        PayloadOf(d, start, PayloadLength(d, beyond));
      }
    }
  }

  /** A packet that the builder accepts and no receiver does: its payload has 2^31 bytes. */
  lemma {:induction false} LongPayloadLost(beyond: u16)
    ensures exists p: Packet :: Sendable(p) && |p.payload| == 0x8000_0000 && Parse(Encode(p), beyond) == None
  {
    hide Encode, Fields, PayloadStart;
    var p := Packet(false, 0, 0, 0, 0, [], None, seq(0x8000_0000, _ => 0));
    assert Sendable(p);
    EncodedPlaces(p, beyond);
    assert PayloadLength(Encode(p), beyond) == -0x8000_0000;
    assert Parse(Encode(p), beyond) == None;
  }

  lemma {:induction false} PayloadOf(d: bytes, start: nat, length: nat)
    requires |d| >= HEADER_SIZE && CsrcEnd(d) <= start && start + length <= |d|
    requires HasExtension(d) ==> CsrcEnd(d) + 4 <= start
    ensures Fields(d, start, length).payload == d[start..start + length]
  {
  }

  lemma {:induction false} HeaderBits(b0: byte, b1: byte, p: Packet)
    requires Sendable(p) && b0 == FirstByte(p.extension.Some?, |p.csrcs|) && b1 == SecondByte(p.marker, p.payloadType)
    ensures b0 / 64 == 2 && b0 / 0x20 % 2 == 0 && (b0 / 0x10 % 2 == 1 <==> p.extension.Some?) && b0 % 16 == |p.csrcs| as byte
    ensures b1 != 200 && b1 != 201 && (b1 >= 0x80 <==> p.marker) && b1 % 0x80 == p.payloadType
  {
  }

  lemma {:induction false} CsrcsBack(d: bytes, csrcs: seq<u32>)
    requires At(d, HEADER_SIZE, Words(csrcs))
    ensures HEADER_SIZE + 4 * |csrcs| <= |d| && Csrcs(d, |csrcs|) == csrcs
  {
    forall i | 0 <= i < |csrcs|
      ensures U32At(d, HEADER_SIZE + 4 * i) == csrcs[i]
    {
      ReadWord(d, HEADER_SIZE, csrcs, i);
    }
  }

  lemma {:induction false} Rewrite16(d: bytes, p: nat)
    requires p + 2 <= |d|
    ensures Be16(U16At(d, p)) == d[p..p + 2]
  {
  }

  lemma {:induction false} Rewrite32(d: bytes, p: nat)
    requires p + 4 <= |d|
    ensures Be32(U32At(d, p)) == d[p..p + 4]
  {
    Rewrite16(d, p);
    Rewrite16(d, p + 2);
    assert U32At(d, p) / 0x1_0000 == U16At(d, p) && U32At(d, p) % 0x1_0000 == U16At(d, p + 2);
    assert d[p..p + 4] == d[p..p + 2] + d[p + 2..p + 4];
  }

  lemma {:induction false} RewriteCsrcs(d: bytes, n: nat)
    requires HEADER_SIZE + 4 * n <= |d|
    ensures Words(Csrcs(d, n)) == d[HEADER_SIZE..HEADER_SIZE + 4 * n]
    decreases n
  {
    if n > 0 {
      RewriteCsrcs(d, n - 1);
      Rewrite32(d, HEADER_SIZE + 4 * (n - 1));
      assert Csrcs(d, n) == Csrcs(d, n - 1) + [U32At(d, HEADER_SIZE + 4 * (n - 1))];
      WordsAppend(Csrcs(d, n - 1), U32At(d, HEADER_SIZE + 4 * (n - 1)));
    }
  }

  /** The packet without its padding, and without the bit that announces it. */
  function Unpadded(d: bytes): bytes
    requires |d| >= HEADER_SIZE && PadBytes(d) + HEADER_SIZE <= |d|
  {
    [d[0] - if HasPadding(d) then 0x20 else 0] + d[1..|d| - PadBytes(d)]
  }

  lemma {:induction false} FirstByteBack(d: bytes)
    requires |d| >= HEADER_SIZE && d[0] / 64 == 2
    ensures FirstByte(HasExtension(d), CsrcCount(d)) == d[0] - if HasPadding(d) then 0x20 else 0
    ensures SecondByte(d[1] >= 0x80, d[1] % 0x80) == d[1]
  {
    var b := d[0] as int;
    assert b == b / 16 * 16 + b % 16 && b / 16 == b / 64 * 4 + b / 32 % 2 * 2 + b / 16 % 2;
    assert d[0] / 0x20 % 2 == (b / 32 % 2) as byte && d[0] / 0x10 % 2 == (b / 16 % 2) as byte && d[0] % 16 == (b % 16) as byte;
  }

  lemma {:induction false} RebuiltHeader(d: bytes, beyond: u16)
    requires Accepted(d, beyond) && Sendable(Parse(d, beyond).value) && PadBytes(d) + HEADER_SIZE <= |d|
    ensures Header(Parse(d, beyond).value) == Unpadded(d)[..HEADER_SIZE]
  {
    hide FirstByte, SecondByte, Be16, Be32, U16At, U32At, PayloadLength, PayloadStart, PadBytes, HasPadding;
    FirstByteBack(d);
    Rewrite16(d, 2);
    Rewrite32(d, 4);
    Rewrite32(d, 8);
  }

  lemma {:induction false} ExtensionRewritten(d: bytes, e: nat, n: u16)
    requires e + 4 + 4 * n <= |d| && U16At(d, e + 2) == n
    ensures ExtensionBytes(Some(Extension(U16At(d, e), d[e + 4..e + 4 + 4 * n]))) == d[e..e + 4 + 4 * n]
  {
    hide Be16, U16At;
    Rewrite16(d, e);
    Rewrite16(d, e + 2);
    var end := e + 4 + 4 * n;
    assert d[e..end] == d[e..e + 2] + d[e + 2..e + 4] + d[e + 4..end];
  }

  lemma {:induction false} RebuiltExtension(d: bytes, beyond: u16)
    requires Accepted(d, beyond) && PayloadStart(d, beyond) <= |d|
    ensures var x := Parse(d, beyond).value.extension;
            && (x.Some? ==> |x.value.data| % 4 == 0 && |x.value.data| / 4 <= 0xFFFF)
            && ExtensionBytes(x) == d[CsrcEnd(d)..PayloadStart(d, beyond)]
  {
    hide Be16, U16At, PayloadLength, ExtensionWords, HasPadding, PadBytes, ExtensionBytes, CsrcEnd;
    if HasExtension(d) {
      ExtensionLength(d, beyond);
      ExtensionRewritten(d, CsrcEnd(d), ExtensionWords(d, beyond));
    } else {
      NoExtension();
    }
  }

  lemma {:induction false} NoExtension()
    ensures ExtensionBytes(None) == []
  {
  }

  /**
   Every packet that the parser accepts is, but for its padding, what the builder writes from the parsed
   parts, unless it has one of the two payload types that the builder refuses and the parser lets pass; exactly
   if the true length of the payload is below 2^31.
   */
  lemma {:induction false} ParsedRebuilds(d: bytes, beyond: u16)
    requires Accepted(d, beyond)
    ensures PadBytes(d) + HEADER_SIZE <= |d|
    ensures var p := Parse(d, beyond).value;
            && (Sendable(p) <==> p.payloadType != 72 && p.payloadType != 73)
            && (Sendable(p) ==> (Encode(p) == Unpadded(d) <==> |d| - PadBytes(d) - PayloadStart(d, beyond) < 0x8000_0000))
  {
    hide U16At, U32At, PayloadLength, PayloadStart, Header, ExtensionBytes, CsrcEnd;
    AcceptedFits(d, beyond);
    RebuiltExtension(d, beyond);
    var p := Parse(d, beyond).value;
    if Sendable(p) {
      RebuiltHeader(d, beyond);
      assert CsrcEnd(d) == HEADER_SIZE + 4 * CsrcCount(d) by { CsrcEndIs(d); }
      RewriteCsrcs(d, CsrcCount(d));
      UnpaddedParts(d, CsrcEnd(d), PayloadStart(d, beyond));
    }
  }

  lemma {:induction false} UnpaddedParts(d: bytes, e: nat, start: nat)
    requires HEADER_SIZE <= e <= start && |d| >= HEADER_SIZE && start + PadBytes(d) <= |d|
    ensures var u, end := Unpadded(d), |d| - PadBytes(d);
            u == u[..HEADER_SIZE] + d[HEADER_SIZE..e] + d[e..start] + d[start..end]
  {
    hide PadBytes, HasPadding;
    var u, end := Unpadded(d), |d| - PadBytes(d);
    assert u[HEADER_SIZE..] == d[HEADER_SIZE..end];
    assert d[HEADER_SIZE..end] == d[HEADER_SIZE..e] + d[e..start] + d[start..end];
  }

  lemma {:induction false} CsrcEndIs(d: bytes)
    requires |d| >= HEADER_SIZE
    ensures CsrcEnd(d) == HEADER_SIZE + 4 * CsrcCount(d)
  {
  }

  lemma {:induction false} ExtensionLength(d: bytes, beyond: u16)
    requires Accepted(d, beyond) && HasExtension(d)
    ensures PayloadStart(d, beyond) - CsrcEnd(d) - 4 == 4 * ExtensionWords(d, beyond)
    ensures ExtensionWords(d, beyond) == U16At(d, CsrcEnd(d) + 2)
  {
  }
}
