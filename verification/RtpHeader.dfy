/** The fixed RTP header of section 5.1 of RFC 3550: what the sender writes and the receiver reads. */
module RtpHeader {
  import opened Bytes

  const HEADER_SIZE := 12
  const DATA_PAYLOAD_TYPE: bv8 := 96
  const FEC_PAYLOAD_TYPE: bv8 := 127

  datatype Header = Header(payloadType: bv8, marker: bool, seqNo: u16, timestamp: bv32, ssrc: bv32)

  datatype Decoded = Packet(header: Header, payload: seq<byte>) | Malformed(reason: string)

  function Encode(h: Header, payload: seq<byte>): (pkt: seq<byte>)
    ensures |pkt| == HEADER_SIZE + |payload|
  {
    [0x80, (h.payloadType & 0x7F) | (if h.marker then 0x80 else 0)]
    + Put16(h.seqNo) + Put32(h.timestamp) + Put32(h.ssrc) + payload
  }

  function HeaderOf(pkt: seq<byte>): Header
    requires |pkt| >= HEADER_SIZE
  {
    Header(pkt[1] & 0x7F, pkt[1] & 0x80 != 0, Get16(pkt[2], pkt[3]),
           Get32(pkt[4], pkt[5], pkt[6], pkt[7]), Get32(pkt[8], pkt[9], pkt[10], pkt[11]))
  }

  function Decode(pkt: seq<byte>): Decoded {
    if |pkt| < HEADER_SIZE then Malformed("rtp packet too short")
    else if pkt[0] >> 6 != 2 then Malformed("unsupported rtp version")
    else
      var headerLen := HEADER_SIZE + (pkt[0] & 0x0F) as int * 4;
      if pkt[0] & 0x10 != 0 then Malformed("rtp extension not supported")
      else if |pkt| < headerLen then Malformed("invalid rtp header length")
      else
        var payload := pkt[headerLen..];
        if pkt[0] & 0x20 == 0 then Packet(HeaderOf(pkt), payload)
        else if |payload| == 0 then Malformed("rtp padding invalid")
        else
          var padLen := payload[|payload| - 1] as int;
          if padLen <= 0 || padLen > |payload| then Malformed("rtp padding invalid")
          else Packet(HeaderOf(pkt), payload[..|payload| - padLen])
  }

  /** Every header and payload survives the wire; only bit 7 of an over-wide payload type is lost. */
  lemma DecodeEncode(h: Header, payload: seq<byte>)
    ensures Decode(Encode(h, payload)) == Packet(h.(payloadType := h.payloadType & 0x7F), payload)
  {
    var pkt := Encode(h, payload);
    var zero: bv8 := 0x80 & 0x0F;
    assert pkt[0] == 0x80 && zero as int == 0;
    assert pkt[2..4] == Put16(h.seqNo) && pkt[2..4] == [pkt[2], pkt[3]];
    assert pkt[4..8] == Put32(h.timestamp) && pkt[4..8] == [pkt[4], pkt[5], pkt[6], pkt[7]];
    assert pkt[8..12] == Put32(h.ssrc) && pkt[8..12] == [pkt[8], pkt[9], pkt[10], pkt[11]];
    assert pkt[12..] == payload;
    Get16Put16(h.seqNo);
    Get32Put32(h.timestamp);
    Get32Put32(h.ssrc);
    PayloadTypeByte(h.payloadType, h.marker);
  }

  lemma PayloadTypeByte(pt: bv8, marker: bool)
    ensures var b := (pt & 0x7F) | (if marker then 0x80 else 0);
            b & 0x7F == pt & 0x7F && (b & 0x80 != 0) == marker
  {
  }

  /** Re-encoding a decoded packet reproduces it exactly when its first byte is plain version 2:
      no padding, no extension, no contributing sources. */
  lemma EncodeDecode(pkt: seq<byte>)
    requires Decode(pkt).Packet?
    ensures Encode(Decode(pkt).header, Decode(pkt).payload) == pkt <==> pkt[0] == 0x80
  {
    if pkt[0] == 0x80 {
      PlainPacketBack(pkt);
    } else {
      assert Encode(Decode(pkt).header, Decode(pkt).payload)[0] == 0x80;
    }
  }

  lemma PlainPacketBack(pkt: seq<byte>)
    requires |pkt| >= HEADER_SIZE && pkt[0] == 0x80
    ensures Decode(pkt) == Packet(HeaderOf(pkt), pkt[12..])
    ensures Encode(HeaderOf(pkt), pkt[12..]) == pkt
  {
    assert Decode(pkt) == Packet(HeaderOf(pkt), pkt[12..]) by {
      var zero: bv8 := 0x80 & 0x0F;
      assert zero as int == 0;
    }
    var h := HeaderOf(pkt);
    assert Put16(h.seqNo) == [pkt[2], pkt[3]] by { Put16Get16(pkt[2], pkt[3]); }
    assert Put32(h.timestamp) == [pkt[4], pkt[5], pkt[6], pkt[7]] by { Put32Get32(pkt[4], pkt[5], pkt[6], pkt[7]); }
    assert Put32(h.ssrc) == [pkt[8], pkt[9], pkt[10], pkt[11]] by { Put32Get32(pkt[8], pkt[9], pkt[10], pkt[11]); }
    TypeByteBack(pkt[1]);
    Pieces(pkt);
  }

  lemma Pieces(pkt: seq<byte>)
    requires |pkt| >= 12
    ensures pkt == [pkt[0], pkt[1]] + [pkt[2], pkt[3]] + [pkt[4], pkt[5], pkt[6], pkt[7]]
                   + [pkt[8], pkt[9], pkt[10], pkt[11]] + pkt[12..]
  {
  }

  lemma TypeByteBack(b: byte)
    ensures ((b & 0x7F) & 0x7F) | (if b & 0x80 != 0 then 0x80 else 0) == b
  {
  }

  /** The bytes of a written packet, as the standard lays them out: big-endian fields at fixed places. */
  lemma EncodeLayout(h: Header, payload: seq<byte>)
    ensures var pkt := Encode(h, payload);
            && |pkt| == 12 + |payload| && pkt[12..] == payload
            && pkt[2] as int * 256 + pkt[3] as int == h.seqNo && Word(pkt, 4, h.timestamp) && Word(pkt, 8, h.ssrc)
  {
    var pkt := Encode(h, payload);
    FieldsAt(pkt[..2], Put16(h.seqNo), Put32(h.timestamp), Put32(h.ssrc), payload, pkt);
    Number16(h.seqNo, pkt[2], pkt[3]);
    Number32(h.timestamp, pkt, 4);
    Number32(h.ssrc, pkt, 8);
  }

  /** Its first two bytes: version 2 without options, and the marker above seven bits of payload type. */
  lemma EncodeStart(h: Header, payload: seq<byte>)
    ensures var pkt := Encode(h, payload);
            pkt[0] == 0x80 && pkt[1] & 0x7F == h.payloadType & 0x7F && (pkt[1] >= 0x80 <==> h.marker)
  {
    TypeByte(h.payloadType, h.marker);
  }

  /** The four bytes from here on are this number, highest byte first. */
  predicate Word(pkt: seq<byte>, i: nat, x: bv32) {
    i + 4 <= |pkt| && ((pkt[i] as bv32) << 24) | ((pkt[i + 1] as bv32) << 16) | ((pkt[i + 2] as bv32) << 8) | (pkt[i + 3] as bv32) == x
  }

  lemma Number16(x: u16, hi: byte, lo: byte)
    requires Put16(x) == [hi, lo]
    ensures hi as int * 256 + lo as int == x
  {
    Get16Put16(x);
  }

  lemma Number32(x: bv32, pkt: seq<byte>, i: nat)
    requires i + 4 <= |pkt| && Put32(x) == [pkt[i], pkt[i + 1], pkt[i + 2], pkt[i + 3]]
    ensures Word(pkt, i, x)
  {
    Get32Put32(x);
  }

  lemma FieldsAt(start: seq<byte>, number: seq<byte>, stamp: seq<byte>, source: seq<byte>, payload: seq<byte>, pkt: seq<byte>)
    requires |start| == 2 && |number| == 2 && |stamp| == 4 && |source| == 4 && pkt == start + number + stamp + source + payload
    ensures number == [pkt[2], pkt[3]] && stamp == [pkt[4], pkt[5], pkt[6], pkt[7]] && source == [pkt[8], pkt[9], pkt[10], pkt[11]]
    ensures pkt[12..] == payload
  {
  }

  lemma TypeByte(pt: bv8, marker: bool)
    ensures var b := (pt & 0x7F) | (if marker then 0x80 else 0);
            b & 0x7F == pt & 0x7F && (b >= 0x80 <==> marker)
  {
  }

  /** The number of contributing sources. */
  function Sources(pkt: seq<byte>): nat
    requires pkt != []
  {
    (pkt[0] & 0x0F) as int
  }

  /** The padding that the last byte counts, if the padding bit is set. */
  function Padding(pkt: seq<byte>): nat
    requires pkt != []
  {
    if pkt[0] & 0x20 == 0 then 0 else pkt[|pkt| - 1] as int
  }

  /** Which packets are accepted: version 2, no extension, all sources there, and padding of at least one byte where it is announced that stays behind them. */
  predicate Acceptable(pkt: seq<byte>) {
    && |pkt| >= 12 && pkt[0] & 0xC0 == 0x80 && pkt[0] & 0x10 == 0
    && 12 + 4 * Sources(pkt) + Padding(pkt) <= |pkt|
    && (pkt[0] & 0x20 != 0 ==> Padding(pkt) > 0)
  }

  lemma VersionBits(b: byte)
    ensures b >> 6 == 2 <==> b & 0xC0 == 0x80
  {
  }

  /** Exactly these are decoded, and the payload is what lies between the sources and the padding. */
  lemma DecodedPayloadIsSlice(pkt: seq<byte>)
    ensures Decode(pkt).Packet? <==> Acceptable(pkt)
    ensures Decode(pkt).Packet? ==> Decode(pkt).payload == pkt[12 + 4 * Sources(pkt)..|pkt| - Padding(pkt)]
  {
    if |pkt| >= 12 {
      VersionBits(pkt[0]);
      var from := 12 + 4 * Sources(pkt);
      if from <= |pkt| {
        assert from < |pkt| ==> pkt[from..][|pkt| - from - 1] == pkt[|pkt| - 1];
        assert Padding(pkt) <= |pkt| - from ==> pkt[from..][..|pkt| - from - Padding(pkt)] == pkt[from..|pkt| - Padding(pkt)];
      }
    }
  }
}
