/** The packet object: it writes a packet into a buffer of its own, or takes over the buffer of a received one. */
module RtpDataPacket {
  import opened Bytes
  import opened RtpPacket

  class DataPacket {
    var hasExtension: bool
    var extId: u16
    var extensionLength: nat
    var extensionStart: nat
    var hasMarker: bool
    var numCsrcs: nat
    var payloadType: byte
    var extSeqNr: u32
    var timestamp: u32
    var ssrc: u32
    var packet: array?<byte>
    var packetLength: nat
    var payloadStart: nat
    var payloadLength: nat

    constructor ()
      ensures packet == null && packetLength == 0
    {
      hasExtension, extId, extensionLength, extensionStart := false, 0, 0, 0;
      hasMarker, numCsrcs, payloadType, extSeqNr, timestamp, ssrc := false, 0, 0, 0, 0, 0;
      packet, packetLength, payloadStart, payloadLength := null, 0, 0, 0;
    }

    /** The fields point into the buffer. */
    ghost predicate Valid()
      reads this, packet
    {
      && packet != null && packetLength == packet.Length
      && HEADER_SIZE + 4 * numCsrcs <= payloadStart && payloadStart + payloadLength <= packet.Length
    }

    /** The header fields that are kept beside the buffer. */
    ghost predicate Describes(p: Packet)
      reads this, packet
    {
      && Valid()
      && hasMarker == p.marker && payloadType == p.payloadType && extSeqNr == p.seqNr && timestamp == p.timestamp && ssrc == p.ssrc
      && numCsrcs == |p.csrcs| && Csrcs(packet[..], numCsrcs) == p.csrcs
      && hasExtension == p.extension.Some?
      && packet[payloadStart..payloadStart + payloadLength] == p.payload
    }

    method GetCSRC(num: nat) returns (csrc: u32)
      requires Valid()
      ensures csrc == if num >= numCsrcs then 0 else Csrcs(packet[..], numCsrcs)[num]
    {
      if num >= numCsrcs {
        return 0;
      }
      var pos := HEADER_SIZE + 4 * num;
      assert U16At(packet[..], pos) == packet[pos] as int * 0x100 + packet[pos + 1] as int;
      csrc := packet[pos] as int * 0x100_0000 + packet[pos + 1] as int * 0x1_0000
              + packet[pos + 2] as int * 0x100 + packet[pos + 3] as int;
    }

    /**
     The packet is written into a new buffer of exactly its size; where the arguments are refused, no
     field changes except the length of a packet that would be too large.
     */
    method BuildPacket(p: Packet, maxSize: nat) returns (status: Status)
      requires ArgumentsOk(p)
      modifies this
      ensures status == BuildStatus(p, maxSize)
      ensures status == Ok ==> fresh(packet) && packet[..] == Encode(p) && Describes(p) && extId == ExtensionId(p)
      ensures status != Ok ==> packet == old(packet) && packetLength == if status == ExceedsMaxSize then 0 else old(packetLength)
    {
      hide Encode, Csrcs;
      var length;
      status, length := Check(p, maxSize);
      if status != Ok {
        if status == ExceedsMaxSize {
          packetLength := 0;
        }
        return;
      }
      packet := new byte[length];
      payloadStart := Fill(packet, p);
      BuiltDescribed(p);
      SetFields(p);
    }

    method SetFields(p: Packet)
      requires packet != null && Sendable(p) && packet.Length == Size(p)
      modifies this
      ensures packet == old(packet) && payloadStart == old(payloadStart)
      ensures hasMarker == p.marker && hasExtension == p.extension.Some? && numCsrcs == |p.csrcs|
      ensures payloadType == p.payloadType && extSeqNr == p.seqNr && timestamp == p.timestamp && ssrc == p.ssrc
      ensures payloadLength == |p.payload| && extId == ExtensionId(p) && packetLength == Size(p)
    {
      packetLength := packet.Length;
      hasMarker, hasExtension, numCsrcs := p.marker, p.extension.Some?, |p.csrcs|;
      payloadType, extSeqNr, timestamp, ssrc := p.payloadType, p.seqNr, p.timestamp, p.ssrc;
      payloadLength := |p.payload|;
      extId := ExtensionId(p);
      extensionLength := if p.extension.Some? then |p.extension.value.data| else 0;
    }

    /** Takes over the buffer of a raw packet, or leaves everything as it was. */
    method ParseRawPacket(raw: array<byte>, isRtp: bool, beyond: u16) returns (status: Status)
      modifies this
      ensures status == if isRtp && Accepted(raw[..], beyond) then Ok else InvalidPacket
      ensures status == Ok ==> packet == raw && Valid() && Describes(Parse(raw[..], beyond).value)
      ensures status == Ok && hasExtension ==>
                Parse(raw[..], beyond).value.extension.Some?
                && extensionStart + extensionLength <= raw.Length
                && Parse(raw[..], beyond).value.extension.value == Extension(extId, raw[extensionStart..extensionStart + extensionLength])
      ensures status != Ok ==> packet == old(packet) && packetLength == old(packetLength)
    {
      hide Accepted, PayloadStart, PayloadLength, ExtensionWords, U16At, U32At, Csrcs, Parse, HasExtension, CsrcCount;
      if !isRtp {
        return InvalidPacket;
      }
      var offset, length, words;
      status, offset, length, words := Locate(raw, beyond);
      if status != Ok {
        return;
      }
      ParsedFields(raw[..], beyond);
      TakeFields(raw, offset, length, words);
    }

    method TakeFields(raw: array<byte>, offset: nat, length: nat, words: nat)
      requires raw.Length >= HEADER_SIZE && (HasExtension(raw[..]) ==> HEADER_SIZE + 4 * CsrcCount(raw[..]) + 4 <= raw.Length)
      modifies this
      ensures hasMarker == (raw[1] >= 0x80) && payloadType == raw[1] % 0x80 && numCsrcs == CsrcCount(raw[..])
      ensures extSeqNr == U16At(raw[..], 2) && timestamp == U32At(raw[..], 4) && ssrc == U32At(raw[..], 8)
      ensures hasExtension == HasExtension(raw[..])
      ensures hasExtension ==> extId == U16At(raw[..], HEADER_SIZE + 4 * numCsrcs)
      ensures hasExtension ==> extensionStart == HEADER_SIZE + 4 * numCsrcs + 4 && extensionLength == 4 * words
      ensures packet == raw && packetLength == raw.Length && payloadStart == offset && payloadLength == length
    {
      hide U16At, U32At, HasExtension, CsrcCount;
      TakeHeader(raw);
      if hasExtension {
        TakeExtension(raw, words);
      }
      packet, packetLength, payloadStart, payloadLength := raw, raw.Length, offset, length;
    }

    method TakeExtension(raw: array<byte>, words: nat)
      requires HEADER_SIZE + 4 * numCsrcs + 4 <= raw.Length
      modifies `extId, `extensionLength, `extensionStart
      ensures extId == U16At(raw[..], HEADER_SIZE + 4 * numCsrcs)
      ensures extensionStart == HEADER_SIZE + 4 * numCsrcs + 4 && extensionLength == 4 * words
    {
      extId := HalfWord(raw, HEADER_SIZE + 4 * numCsrcs);
      extensionLength := 4 * words;
      extensionStart := HEADER_SIZE + 4 * numCsrcs + 4;
    }

    method TakeHeader(raw: array<byte>)
      requires raw.Length >= HEADER_SIZE
      modifies `hasMarker, `numCsrcs, `payloadType, `extSeqNr, `timestamp, `ssrc, `hasExtension
      ensures hasMarker == (raw[1] >= 0x80) && payloadType == raw[1] % 0x80 && numCsrcs == CsrcCount(raw[..])
      ensures extSeqNr == U16At(raw[..], 2) && timestamp == U32At(raw[..], 4) && ssrc == U32At(raw[..], 8)
      ensures hasExtension == HasExtension(raw[..])
    {
      hide U16At, U32At;
      hasExtension := raw[0] / 0x10 % 2 == 1;
      hasMarker, numCsrcs, payloadType := raw[1] >= 0x80, (raw[0] % 16) as nat, raw[1] % 0x80;
      extSeqNr := HalfWord(raw, 2);
      timestamp := Word(raw, 4);
      ssrc := Word(raw, 8);
    }
  }

  /** The checks, and where the payload starts and how long it is; the running offset may pass the end. */
  method Locate(raw: array<byte>, beyond: u16) returns (status: Status, offset: nat, length: nat, words: nat)
    ensures status == if Accepted(raw[..], beyond) then Ok else InvalidPacket
    ensures status == Ok ==> offset == PayloadStart(raw[..], beyond) && length == PayloadLength(raw[..], beyond)
    ensures status == Ok && HasExtension(raw[..]) ==> words == ExtensionWords(raw[..], beyond)
  {
    hide U16At;
    status, offset, length, words := InvalidPacket, 0, 0, 0;
    ghost var d := raw[..];
    if raw.Length < HEADER_SIZE || raw[0] / 64 != 2 {
      return;
    }
    var marker, ptype := raw[1] >= 0x80, raw[1] % 0x80;
    if marker && (ptype == 72 || ptype == 73) {
      return;
    }
    offset := HEADER_SIZE + 4 * (raw[0] % 16) as nat;
    var padding: nat := 0;
    if raw[0] / 0x20 % 2 == 1 {
      padding := raw[raw.Length - 1] as nat;
      if padding <= 0 {
        return;
      }
    }
    if raw[0] / 0x10 % 2 == 1 {
      words := beyond;
      if offset + 4 <= raw.Length {
        words := HalfWord(raw, offset + 2);
      }
      offset := offset + 4 + 4 * words;
    }
    assert offset == PayloadStart(d, beyond) && padding == PadBytes(d);
    var len: i32 := Int32(raw.Length - padding - offset);
    if len >= 0 {
      status, length := Ok, len;
    }
  }

  method HalfWord(raw: array<byte>, p: nat) returns (v: u16)
    requires p + 2 <= raw.Length
    ensures v == U16At(raw[..], p)
  {
    v := raw[p] as int * 0x100 + raw[p + 1] as int;
  }

  lemma {:induction false} ParsedFields(d: bytes, beyond: u16)
    requires Accepted(d, beyond)
    ensures var p, start, e := Parse(d, beyond).value, PayloadStart(d, beyond), CsrcEnd(d);
            && p.marker == (d[1] >= 0x80) && p.payloadType == d[1] % 0x80
            && p.seqNr == U16At(d, 2) && p.timestamp == U32At(d, 4) && p.ssrc == U32At(d, 8)
            && |p.csrcs| == CsrcCount(d) && HEADER_SIZE + 4 * CsrcCount(d) == e && p.csrcs == Csrcs(d, CsrcCount(d))
            && e <= start && start + PayloadLength(d, beyond) <= |d|
            && p.payload == d[start..start + PayloadLength(d, beyond)]
            && (HasExtension(d) <==> p.extension.Some?)
            && (HasExtension(d) ==> e + 4 <= start && p.extension.value == Extension(U16At(d, e), d[e + 4..start])
                                    && start == e + 4 + 4 * ExtensionWords(d, beyond))
  {
    AcceptedFits(d, beyond);
    if HasExtension(d) {
      ExtensionLength(d, beyond);
    }
  }

  function ExtensionId(p: Packet): u16 {
    if p.extension.Some? then p.extension.value.id else 0
  }

  method Word(raw: array<byte>, p: nat) returns (v: u32)
    requires p + 4 <= raw.Length
    ensures v == U32At(raw[..], p)
  {
    v := raw[p] as int * 0x100_0000 + raw[p + 1] as int * 0x1_0000 + raw[p + 2] as int * 0x100 + raw[p + 3] as int;
  }

  lemma {:induction false} BuiltDescribed(p: Packet)
    requires Sendable(p)
    ensures Csrcs(Encode(p), |p.csrcs|) == p.csrcs
    ensures Encode(p)[HEADER_SIZE + 4 * |p.csrcs| + ExtensionSize(p)..] == p.payload
  {
    hide Encode;
    EncodedParts(p);
    CsrcsBack(Encode(p), p.csrcs);
  }

  method Check(p: Packet, maxSize: nat) returns (status: Status, length: nat)
    requires ArgumentsOk(p)
    ensures status == BuildStatus(p, maxSize) && (status == Ok ==> length == Size(p))
  {
    length := 0;
    if |p.csrcs| > MAX_CSRCS {
      return TooManyCsrcs, 0;
    }
    if p.payloadType > 127 || p.payloadType == 72 || p.payloadType == 73 {
      return BadPayloadType, 0;
    }
    length := HEADER_SIZE + 4 * |p.csrcs|;
    if p.extension.Some? {
      length := length + 4 + |p.extension.value.data|;
    }
    length := length + |p.payload|;
    if maxSize > 0 && length > maxSize {
      return ExceedsMaxSize, 0;
    }
    status := Ok;
  }

  /** Writes the parts of the packet one after the other; the result is where the payload starts. */
  method Fill(buf: array<byte>, p: Packet) returns (payload: nat)
    requires Sendable(p) && buf.Length == Size(p)
    modifies buf
    ensures buf[..] == Encode(p) && payload == HEADER_SIZE + 4 * |p.csrcs| + ExtensionSize(p)
  {
    hide Header, Words, ExtensionBytes, ArgumentsOk, BuildStatus;
    Append(buf, 0, 0, Header(p));
    assert buf[0..HEADER_SIZE] == Header(p);
    FillCsrcs(buf, p.csrcs);
    payload := HEADER_SIZE + 4 * |p.csrcs|;
    ghost var front := buf[0..payload];
    if p.extension.Some? {
      ShortExtension(p);
      FillExtension(buf, payload, p.extension.value);
    } else {
      NothingForNone();
    }
    payload := payload + ExtensionSize(p);
    assert buf[0..payload] == front + ExtensionBytes(p.extension);
    Append(buf, 0, payload, p.payload);
    assert buf[0..buf.Length] == buf[..];
  }

  lemma {:induction false} ShortExtension(p: Packet)
    requires Sendable(p) && p.extension.Some?
    ensures |p.extension.value.data| / 4 <= 0xFFFF
  {
  }

  lemma {:induction false} NothingForNone()
    ensures ExtensionBytes(None) == []
  {
  }

  method FillCsrcs(buf: array<byte>, csrcs: seq<u32>)
    requires HEADER_SIZE + 4 * |csrcs| <= buf.Length
    modifies buf
    ensures buf[0..HEADER_SIZE + 4 * |csrcs|] == old(buf[0..HEADER_SIZE]) + Words(csrcs)
  {
    ghost var header := buf[0..HEADER_SIZE];
    for i := 0 to |csrcs|
      invariant buf[0..HEADER_SIZE + 4 * i] == header + Words(csrcs[..i])
    {
      Append(buf, 0, HEADER_SIZE + 4 * i, Be32(csrcs[i]));
      WordsAppend(csrcs[..i], csrcs[i]);
      assert csrcs[..i + 1] == csrcs[..i] + [csrcs[i]];
      assert header + Words(csrcs[..i]) + Be32(csrcs[i]) == header + (Words(csrcs[..i]) + Be32(csrcs[i]));
    }
    assert csrcs[..|csrcs|] == csrcs;
  }

  method FillExtension(buf: array<byte>, start: nat, x: Extension)
    requires start + 4 + |x.data| <= buf.Length && |x.data| / 4 <= 0xFFFF
    modifies buf
    ensures buf[0..start + 4 + |x.data|] == old(buf[0..start]) + ExtensionBytes(Some(x))
  {
    ghost var front := buf[0..start];
    var id, n := Be16(x.id), Be16(|x.data| / 4);
    Append(buf, 0, start, id);
    Append(buf, 0, start + 2, n);
    Append(buf, 0, start + 4, x.data);
    assert front + id + n + x.data == front + (id + n + x.data);
  }
}
