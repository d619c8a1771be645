/** Fixed headers and whole frames: construction, validation and their wire form. */
module Frames {
  import opened Basics

  const HEADER_SIZE: nat := 40
  const VERSION: byte := 1
  const TAG_SIZE: nat := 16
  const MAX_FRAME_SIZE: nat := 65535
  const MAX_ENCRYPTED_PAYLOAD: nat := MAX_FRAME_SIZE - HEADER_SIZE - TAG_SIZE
  const FLAG_PADDING: byte := 2
  const MAGIC: Bytes := [0x44, 0x47, 0x50, 0x31]

  type Bytes4 = s: Bytes | |s| == 4 witness [0, 0, 0, 0]
  type Bytes16 = s: Bytes | |s| == 16 witness seq(16, i => 0)
  type Bytes32 = s: Bytes | |s| == 32 witness seq(32, i => 0)

  const ZERO4: Bytes4 := [0, 0, 0, 0]
  const ZERO16: Bytes16 := [0, 0, 0, 0, 0, 0, 0, 0, 0, 0, 0, 0, 0, 0, 0, 0]

  /* Message type octets. */
  const HANDSHAKE_INIT: byte := 1
  const HANDSHAKE_RESPONSE: byte := 2
  const ENCRYPTED_DATA: byte := 3
  const PING_PONG: byte := 4
  const SESSION_CLOSE: byte := 5
  const ACK: byte := 6
  const RESUMPTION_TICKET: byte := 7
  const REKEY_INIT: byte := 8
  const ERROR_MESSAGE: byte := 9

  datatype Header = Header(
    version: byte, flags: byte, messageType: byte, reserved: Bytes4, sessionId: Bytes16,
    sequence: uint64, payloadLength: uint32, padLength: byte)
  {
    predicate HasTag() { messageType != HANDSHAKE_INIT && messageType != HANDSHAKE_RESPONSE }

    function FrameSize(): nat {
      HEADER_SIZE + payloadLength + padLength + if HasTag() then TAG_SIZE else 0
    }

    /** Reserved flag bits and reserved octets are not inspected on receive. */
    function ValidateReceive(): Result<()> {
      if version != VERSION then Err(UnsupportedVersion)
      else if (flags / FLAG_PADDING % 2 == 1) != (padLength != 0) then Err(PaddingFlag)
      else if FrameSize() > MAX_FRAME_SIZE then Err(FrameTooLarge)
      else Ok(())
    }

    function Validate(): Result<()> {
      var _ :- ValidateReceive();
      if flags != 0 && flags != FLAG_PADDING then Err(ReservedFlags)
      else if reserved != ZERO4 then Err(ReservedFlags)
      else Ok(())
    }
  }

  function NewHeader(messageType: byte, sessionId: Bytes16, sequence: uint64, payloadLength: uint32,
                     padLength: byte): Header {
    var flags := if padLength != 0 then FLAG_PADDING else 0;
    Header(VERSION, flags, messageType, ZERO4, sessionId, sequence, payloadLength, padLength)
  }

  /* ---------- header octets ---------- */

  function EncodeHeader(h: Header): (s: Bytes)
    ensures |s| == HEADER_SIZE
  {
    MAGIC + [h.version, h.flags, h.messageType, h.reserved[0]] + h.sessionId
    + PutLE(h.sequence, 8) + PutLE(h.payloadLength, 4) + [h.padLength] + h.reserved[1..]
  }

  function ReadHeader(s: Bytes): Header
    requires |s| >= HEADER_SIZE
  {
    Header(s[4], s[5], s[6], [s[7], s[37], s[38], s[39]], s[8..24], Get64(s[24..32]), Get32(s[32..36]), s[36])
  }

  /** Overwrites the first 40 octets of dst and leaves any suffix alone. */
  method PutHeader(dst: array<byte>, h: Header)
    requires dst.Length >= HEADER_SIZE
    modifies dst
    ensures dst[..HEADER_SIZE] == EncodeHeader(h)
    ensures dst[HEADER_SIZE..] == old(dst[HEADER_SIZE..])
  {
    var sequence, length := PutLE(h.sequence, 8), PutLE(h.payloadLength, 4);
    forall i | 0 <= i < 4 { dst[i] := MAGIC[i]; }
    dst[4], dst[5], dst[6], dst[7] := h.version, h.flags, h.messageType, h.reserved[0];
    forall i | 0 <= i < 16 { dst[8 + i] := h.sessionId[i]; }
    forall i | 0 <= i < 8 { dst[24 + i] := sequence[i]; }
    forall i | 0 <= i < 4 { dst[32 + i] := length[i]; }
    dst[36] := h.padLength;
    forall i | 0 <= i < 3 { dst[37 + i] := h.reserved[1 + i]; }
  }

  lemma HeaderParts(h: Header)
    ensures var s := EncodeHeader(h);
            && s[..4] == MAGIC && s[4] == h.version && s[5] == h.flags && s[6] == h.messageType
            && s[7] == h.reserved[0] && s[8..24] == h.sessionId
            && s[24..32] == PutLE(h.sequence, 8) && s[32..36] == PutLE(h.payloadLength, 4)
            && s[36] == h.padLength && s[37..40] == h.reserved[1..]
  {
  }

  lemma ReadEncodeHeader(h: Header)
    ensures ReadHeader(EncodeHeader(h)) == h
  {
    var s := EncodeHeader(h);
    HeaderParts(h);
    FieldWidths(); GetPutLE(h.sequence, 8); GetPutLE(h.payloadLength, 4);
    assert [s[7], s[37], s[38], s[39]] == h.reserved by {
      assert s[37] == s[37..40][0] && s[38] == s[37..40][1] && s[39] == s[37..40][2];
    }
  }

  /** Every octet of a received header survives decoding, reserved ones included. */
  lemma EncodeReadHeader(s: Bytes)
    requires |s| == HEADER_SIZE && s[..4] == MAGIC
    ensures EncodeHeader(ReadHeader(s)) == s
  {
    var h := ReadHeader(s);
    PutGetLE(s[24..32]); PutGetLE(s[32..36]);
    assert h.reserved[1..] == s[37..40];
    assert [h.version, h.flags, h.messageType, h.reserved[0]] == s[4..8];
    assert s == s[..4] + s[4..8] + s[8..24] + s[24..32] + s[32..36] + s[36..37] + s[37..40];
  }

  function MarshalHeader(h: Header, send: bool): Result<Bytes> {
    var _ :- if send then h.Validate() else h.ValidateReceive();
    Ok(EncodeHeader(h))
  }

  function UnmarshalHeader(data: Bytes): Result<Header> {
    if |data| < HEADER_SIZE then Err(HeaderTooShort)
    else if data[..4] != MAGIC then Err(InvalidMagic)
    else if data[4] != VERSION then Err(UnsupportedVersion)
    else
      var h := ReadHeader(data);
      var _ :- h.ValidateReceive();
      Ok(h)
  }

  /** A decoded header re-marshals to the very octets received, so the associated data can be rebuilt. */
  lemma RemarshalReceived(data: Bytes)
    requires |data| == HEADER_SIZE && UnmarshalHeader(data).Ok?
    ensures MarshalHeader(UnmarshalHeader(data).value, false) == Ok(data)
  {
    EncodeReadHeader(data);
  }

  lemma UnmarshalMarshalHeader(h: Header, send: bool)
    requires MarshalHeader(h, send).Ok?
    ensures UnmarshalHeader(MarshalHeader(h, send).value) == Ok(h)
  {
    ReadEncodeHeader(h); HeaderParts(h);
  }

  /* ---------- frames ---------- */

  datatype Frame = Frame(header: Header, payload: Bytes, tag: Bytes16, padding: Bytes)
  {
    function ValidateLengths(): Result<()> {
      if |payload| != header.payloadLength || |padding| != header.padLength then Err(FrameLengthMismatch) else Ok(())
    }

    function Validate(): Result<()> {
      var _ :- header.Validate();
      ValidateLengths()
    }

    function ValidateReceive(): Result<()> {
      var _ :- header.ValidateReceive();
      ValidateLengths()
    }
  }

  predicate AllZero(s: Bytes) { forall i :: 0 <= i < |s| ==> s[i] == 0 }

  function NewFrame(messageType: byte, sessionId: Bytes16, sequence: uint64, payload: Bytes, tag: Bytes,
                    padding: Bytes): Result<Frame> {
    if |padding| > 255 then Err(PaddingLength)
    else if |payload| > MAX_UINT32 then Err(PayloadTooLarge)
    else
      var header := NewHeader(messageType, sessionId, sequence, |payload|, |padding|);
      if header.HasTag() && |tag| != TAG_SIZE then Err(TagLength)
      else if !header.HasTag() && |tag| != 0 && (|tag| != TAG_SIZE || !AllZero(tag)) then Err(TagLength)
      else if header.FrameSize() > MAX_FRAME_SIZE then Err(PayloadTooLarge)
      else Ok(Frame(header, payload, if header.HasTag() then tag else ZERO16, padding))
  }

  function EncodeFrame(f: Frame): Bytes {
    EncodeHeader(f.header) + f.payload + (if f.header.HasTag() then f.tag else []) + f.padding
  }

  function MarshalFrame(f: Frame): Result<Bytes> {
    var _ :- f.Validate();
    Ok(EncodeFrame(f))
  }

  function UnmarshalFrame(data: Bytes): Result<Frame> {
    if |data| < HEADER_SIZE then Err(FrameTooShort)
    else
      var header :- UnmarshalHeader(data[..HEADER_SIZE]);
      if |data| != header.FrameSize() then Err(FrameLengthMismatch)
      else
        var payloadEnd := HEADER_SIZE + header.payloadLength;
        var tagEnd := payloadEnd + if header.HasTag() then TAG_SIZE else 0;
        Ok(Frame(header, data[HEADER_SIZE..payloadEnd],
                 if header.HasTag() then data[payloadEnd..tagEnd] else ZERO16, data[tagEnd..]))
  }

  /** The frames NewFrame can build: outbound-canonical, with the tag zero where the wire carries none. */
  predicate Canonical(f: Frame) {
    f.Validate().Ok? && (f.header.HasTag() || f.tag == ZERO16)
  }

  lemma NewFrameCanonical(messageType: byte, sessionId: Bytes16, sequence: uint64, payload: Bytes, tag: Bytes,
                          padding: Bytes)
    requires NewFrame(messageType, sessionId, sequence, payload, tag, padding).Ok?
    ensures Canonical(NewFrame(messageType, sessionId, sequence, payload, tag, padding).value)
  {
  }

  lemma MarshalSize(f: Frame)
    requires f.Validate().Ok?
    ensures |EncodeFrame(f)| == f.header.FrameSize() <= MAX_FRAME_SIZE
    ensures EncodeFrame(f)[..HEADER_SIZE] == EncodeHeader(f.header)
  {
  }

  /** Unmarshal undoes Marshal on every frame NewFrame can build. */
  lemma UnmarshalMarshal(f: Frame)
    requires Canonical(f)
    ensures MarshalFrame(f).Ok? && UnmarshalFrame(MarshalFrame(f).value) == Ok(f)
  {
    var data := EncodeFrame(f);
    MarshalSize(f);
    UnmarshalMarshalHeader(f.header, true);
    var payloadEnd := HEADER_SIZE + f.header.payloadLength;
    var tagEnd := payloadEnd + if f.header.HasTag() then TAG_SIZE else 0;
    assert data[HEADER_SIZE..payloadEnd] == f.payload;
    assert data[tagEnd..] == f.padding;
    if f.header.HasTag() { assert data[payloadEnd..tagEnd] == f.tag; }
  }

  /** A received frame holds every octet it was read from. */
  lemma MarshalUnmarshal(data: Bytes)
    requires UnmarshalFrame(data).Ok?
    ensures var f := UnmarshalFrame(data).value;
            EncodeFrame(f) == data && f.ValidateReceive().Ok? && (f.header.HasTag() || f.tag == ZERO16)
  {
    var f := UnmarshalFrame(data).value;
    EncodeReadHeader(data[..HEADER_SIZE]);
    assert ReadHeader(data[..HEADER_SIZE]) == f.header;
    var payloadEnd := HEADER_SIZE + f.header.payloadLength;
    var tagEnd := payloadEnd + if f.header.HasTag() then TAG_SIZE else 0;
    assert data == data[..HEADER_SIZE] + data[HEADER_SIZE..payloadEnd] + data[payloadEnd..tagEnd] + data[tagEnd..];
  }

  /** No frame encoding is a proper prefix of another, so a stream splits in one way only. */
  lemma PrefixFree(f: Frame, g: Frame)
    requires MarshalFrame(f).Ok? && MarshalFrame(g).Ok?
    requires MarshalFrame(f).value <= MarshalFrame(g).value
    ensures MarshalFrame(f).value == MarshalFrame(g).value
  {
    MarshalSize(f); MarshalSize(g);
    assert EncodeFrame(f)[..HEADER_SIZE] == EncodeFrame(g)[..HEADER_SIZE];
    ReadEncodeHeader(f.header); ReadEncodeHeader(g.header);
  }
}
