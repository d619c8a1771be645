/** Typed payloads of encrypted frames and their codecs. UTF-8 validity is a parameter. */
module Messages {
  import opened Basics
  import opened Frames
  import Tlv

  const PING_PONG_SIZE: nat := 9
  const REKEY_INIT_SIZE: nat := 36
  const MAX_ACK_SEQUENCES: nat := 255
  const MAX_REASON_SIZE: nat := MAX_ENCRYPTED_PAYLOAD - 2 - Tlv.HEADER_SIZE - 1
  const MAX_ERROR_CONTEXT: nat := MAX_ENCRYPTED_PAYLOAD - 2
  const TEXT_TYPE: byte := 1

  datatype Message =
    | EncryptedData(streamId: uint16, appType: byte, fields: seq<Tlv.Field>)
    | PingPong(isResponse: bool, nonce: uint64)
    | SessionClose(closeCode: uint16, reason: Bytes)
    | Ack(sequences: seq<uint64>)
    | RekeyInit(epoch: uint32, confirm: Bytes32)
    | ErrorMessage(errorCode: uint16, context: Bytes)

  type Utf8 = Bytes -> bool

  function TypeOf(m: Message): byte {
    match m
    case EncryptedData(_, _, _) => ENCRYPTED_DATA
    case PingPong(_, _) => PING_PONG
    case SessionClose(_, _) => SESSION_CLOSE
    case Ack(_) => ACK
    case RekeyInit(_, _) => REKEY_INIT
    case ErrorMessage(_, _) => ERROR_MESSAGE
  }

  /* ---------- application envelope ---------- */

  predicate Distinct(fields: seq<Tlv.Field>) {
    forall i, j :: 0 <= i < j < |fields| ==> fields[i].typ != fields[j].typ
  }

  method RejectDuplicates(fields: seq<Tlv.Field>) returns (r: Result<()>)
    ensures r == if Distinct(fields) then Ok(()) else Err(DuplicateMessageTlv)
  {
    var seen := new bool[256](i => false);
    for k := 0 to |fields|
      invariant forall t: byte :: seen[t] <==> exists i :: 0 <= i < k && fields[i].typ == t
      invariant Distinct(fields[..k])
    {
      var t := fields[k].typ;
      if seen[t] {
        var i :| 0 <= i < k && fields[i].typ == t;
        assert !Distinct(fields);
        return Err(DuplicateMessageTlv);
      }
      seen[t] := true;
      assert fields[k].typ == t;
    }
    assert fields[..|fields|] == fields;
    return Ok(());
  }

  function MarshalData(streamId: uint16, appType: byte, fields: seq<Tlv.Field>): Result<Bytes> {
    if !Distinct(fields) then Err(DuplicateMessageTlv)
    else
      var encoded :- Tlv.Encode(fields);
      if |encoded| > MAX_ENCRYPTED_PAYLOAD - 4 then Err(MessageLength)
      else Ok(PutLE(streamId, 2) + [appType, 0] + encoded)
  }

  /** The size preflight: same checks in the same order, nothing allocated. */
  function DataLen(fields: seq<Tlv.Field>): Result<nat> {
    if !Distinct(fields) then Err(DuplicateMessageTlv)
    else
      var n :- Tlv.EncodedLen(fields);
      if n > MAX_ENCRYPTED_PAYLOAD - 4 then Err(MessageLength) else Ok(4 + n)
  }

  function ValidateFrameSize(fields: seq<Tlv.Field>, padLength: byte): Result<()> {
    var n :- DataLen(fields);
    if HEADER_SIZE + n + TAG_SIZE + padLength > MAX_FRAME_SIZE then Err(PayloadTooLarge) else Ok(())
  }

  /** Codec.Encrypt's size test. */
  predicate FitsFrame(plaintext: Bytes, padLength: byte) {
    HEADER_SIZE + |plaintext| + TAG_SIZE + padLength <= MAX_FRAME_SIZE
  }

  /**
   * The preflight and the marshaller agree on every envelope: same verdict, same error, same
   * length; and the frame preflight passes exactly when the marshalled payload fits a frame.
   */
  lemma {:induction false} SizeAgreement(streamId: uint16, appType: byte, fields: seq<Tlv.Field>, padLength: byte)
    ensures match MarshalData(streamId, appType, fields)
            case Ok(payload) => DataLen(fields) == Ok(|payload|)
            case Err(error) => DataLen(fields) == Err(error)
    ensures ValidateFrameSize(fields, padLength).Ok? <==>
            && MarshalData(streamId, appType, fields).Ok?
            && FitsFrame(MarshalData(streamId, appType, fields).value, padLength)
    ensures DataLen(fields).Ok? <==> Distinct(fields) && Tlv.Size(fields) <= MAX_ENCRYPTED_PAYLOAD - 4
  {
    LengthsAgree(streamId, appType, fields);
    LengthIsSize(fields);
  }

  lemma {:induction false} LengthsAgree(streamId: uint16, appType: byte, fields: seq<Tlv.Field>)
    ensures match MarshalData(streamId, appType, fields)
            case Ok(payload) => DataLen(fields) == Ok(|payload|)
            case Err(error) => DataLen(fields) == Err(error)
  {
    Tlv.EncodableExactly(fields);
  }

  lemma {:induction false} LengthIsSize(fields: seq<Tlv.Field>)
    ensures DataLen(fields).Ok? <==> Distinct(fields) && Tlv.Size(fields) <= MAX_ENCRYPTED_PAYLOAD - 4
  {
    Tlv.EncodableExactly(fields);
  }

  function UnmarshalData(data: Bytes): Result<Message> {
    if |data| < 4 then Err(MessageTooShort)
    else if data[3] != 0 then Err(MessageReserved)
    else
      var fields :- Tlv.Decode(data[4..], MAX_ENCRYPTED_PAYLOAD - 4);
      if !Distinct(fields) then Err(DuplicateMessageTlv)
      else Ok(EncryptedData(Get16(data[..2]), data[2], fields))
  }

  /* ---------- close and error text ---------- */

  function MarshalClose(utf8: Utf8, code: uint16, reason: Bytes): Result<Bytes> {
    if code > 3 then Err(InvalidCloseCode)
    else if !utf8(reason) then Err(InvalidUtf8)
    else if |reason| > MAX_REASON_SIZE then Err(ReasonTooLong)
    else if reason == [] then Ok(PutLE(code, 2))
    else Ok(PutLE(code, 2) + Tlv.EncodeField(Tlv.Field(TEXT_TYPE, reason)))
  }

  function UnmarshalText(utf8: Utf8, data: Bytes): Result<Bytes>
    requires |data| >= 2
  {
    if |data| == 2 then Ok([])
    else
      var fields :- Tlv.Decode(data[2..], Tlv.Align4(Tlv.HEADER_SIZE + MAX_REASON_SIZE));
      if !Distinct(fields) then Err(DuplicateMessageTlv)
      else if |fields| != 1 || fields[0].typ != TEXT_TYPE then Err(UnknownMessageTlv)
      else if !utf8(fields[0].value) then Err(InvalidUtf8)
      else Ok(fields[0].value)
  }

  function UnmarshalClose(utf8: Utf8, data: Bytes): Result<Message> {
    if |data| < 2 then Err(MessageTooShort)
    else
      var reason :- UnmarshalText(utf8, data);
      var code := Get16(data[..2]);
      if code > 3 then Err(InvalidCloseCode) else Ok(SessionClose(code, reason))
  }

  function MarshalError(utf8: Utf8, code: uint16, context: Bytes): Result<Bytes> {
    if !utf8(context) then Err(InvalidUtf8)
    else if |context| > MAX_ERROR_CONTEXT then Err(ReasonTooLong)
    else Ok(PutLE(code, 2) + context)
  }

  function UnmarshalError(utf8: Utf8, data: Bytes): Result<Message> {
    if |data| < 2 then Err(MessageTooShort)
    else if |data| > MAX_ENCRYPTED_PAYLOAD then Err(MessageLength)
    else if !utf8(data[2..]) then Err(InvalidUtf8)
    else Ok(ErrorMessage(Get16(data[..2]), data[2..]))
  }

  /* ---------- fixed control payloads ---------- */

  function EncodePing(isResponse: bool, nonce: uint64): Bytes {
    [if isResponse then 1 else 0] + PutLE(nonce, 8)
  }

  function UnmarshalPing(data: Bytes): Result<Message> {
    if |data| != PING_PONG_SIZE then Err(MessageLength)
    else if data[0] > 1 then Err(InvalidPingResponse)
    else Ok(PingPong(data[0] == 1, Get64(data[1..])))
  }

  function EncodeRekey(epoch: uint32, confirm: Bytes32): Bytes {
    PutLE(epoch, 4) + confirm
  }

  /** Epoch and confirmation of a RekeyInit payload. */
  function UnmarshalRekey(data: Bytes): Result<(uint32, Bytes32)> {
    if |data| != REKEY_INIT_SIZE then Err(MessageLength)
    else if Get32(data[..4]) == 0 then Err(InvalidEpoch)
    else Ok((Get32(data[..4]), data[4..]))
  }

  function AckBody(sequences: seq<uint64>): (s: Bytes)
    ensures |s| == 8 * |sequences|
  {
    if sequences == [] then [] else PutLE(sequences[0], 8) + AckBody(sequences[1..])
  }

  function AckSequences(body: Bytes): (s: seq<uint64>)
    requires |body| % 8 == 0
    ensures |s| == |body| / 8
    decreases |body|
  {
    if body == [] then [] else [Get64(body[..8])] + AckSequences(body[8..])
  }

  function MarshalAck(sequences: seq<uint64>): Result<Bytes> {
    if |sequences| < 1 || |sequences| > MAX_ACK_SEQUENCES then Err(AckCount)
    else Ok([|sequences|] + AckBody(sequences))
  }

  function UnmarshalAck(data: Bytes): Result<Message> {
    if |data| < 1 then Err(MessageTooShort)
    else if data[0] < 1 then Err(AckCount)
    else if |data| != 1 + 8 * data[0] as int then Err(MessageLength)
    else Ok(Ack(AckSequences(data[1..])))
  }

  /* ---------- dispatch ---------- */

  function Marshal(utf8: Utf8, m: Message): Result<Bytes> {
    match m
    case EncryptedData(streamId, appType, fields) => MarshalData(streamId, appType, fields)
    case PingPong(isResponse, nonce) => Ok(EncodePing(isResponse, nonce))
    case SessionClose(code, reason) => MarshalClose(utf8, code, reason)
    case Ack(sequences) => MarshalAck(sequences)
    case RekeyInit(epoch, confirm) => if epoch == 0 then Err(InvalidEpoch) else Ok(EncodeRekey(epoch, confirm))
    case ErrorMessage(code, context) => MarshalError(utf8, code, context)
  }

  function Unmarshal(utf8: Utf8, messageType: byte, data: Bytes): Result<Message> {
    if messageType == ENCRYPTED_DATA then UnmarshalData(data)
    else if messageType == PING_PONG then UnmarshalPing(data)
    else if messageType == SESSION_CLOSE then UnmarshalClose(utf8, data)
    else if messageType == ACK then UnmarshalAck(data)
    else if messageType == REKEY_INIT then
      var (epoch, confirm) :- UnmarshalRekey(data);
      Ok(RekeyInit(epoch, confirm))
    else if messageType == ERROR_MESSAGE then UnmarshalError(utf8, data)
    else Err(MessageTypeMismatch)
  }

  /* ---------- round trips ---------- */

  lemma DataRoundTrip(streamId: uint16, appType: byte, fields: seq<Tlv.Field>)
    requires MarshalData(streamId, appType, fields).Ok?
    ensures UnmarshalData(MarshalData(streamId, appType, fields).value) == Ok(EncryptedData(streamId, appType, fields))
  {
    var encoded := Tlv.Encode(fields).value;
    var data := MarshalData(streamId, appType, fields).value;
    assert data[4..] == encoded && data[..2] == PutLE(streamId, 2);
    FieldWidths(); GetPutLE(streamId, 2);
    Tlv.EncodableExactly(fields);
    Tlv.DecodeEncode(fields, MAX_ENCRYPTED_PAYLOAD - 4);
  }

  lemma CloseRoundTrip(utf8: Utf8, code: uint16, reason: Bytes)
    requires MarshalClose(utf8, code, reason).Ok?
    ensures UnmarshalClose(utf8, MarshalClose(utf8, code, reason).value) == Ok(SessionClose(code, reason))
    ensures |MarshalClose(utf8, code, reason).value| <= MAX_ENCRYPTED_PAYLOAD
  {
    var data := MarshalClose(utf8, code, reason).value;
    assert data[..2] == PutLE(code, 2);
    FieldWidths(); GetPutLE(code, 2);
    if reason != [] { TextRoundTrip(utf8, data, reason); }
  }

  lemma TextRoundTrip(utf8: Utf8, data: Bytes, reason: Bytes)
    requires utf8(reason) && |reason| <= MAX_REASON_SIZE
    requires |data| > 2 && data[2..] == Tlv.EncodeField(Tlv.Field(TEXT_TYPE, reason))
    ensures UnmarshalText(utf8, data) == Ok(reason) && |data| <= MAX_ENCRYPTED_PAYLOAD
  {
    Tlv.DecodeOne(Tlv.Field(TEXT_TYPE, reason), Tlv.Align4(Tlv.HEADER_SIZE + MAX_REASON_SIZE));
  }

  lemma ErrorRoundTrip(utf8: Utf8, code: uint16, context: Bytes)
    requires MarshalError(utf8, code, context).Ok?
    ensures UnmarshalError(utf8, MarshalError(utf8, code, context).value) == Ok(ErrorMessage(code, context))
  {
    var data := MarshalError(utf8, code, context).value;
    assert data[..2] == PutLE(code, 2) && data[2..] == context;
    FieldWidths(); GetPutLE(code, 2);
  }

  lemma {:induction false} AckSequencesBody(sequences: seq<uint64>)
    ensures AckSequences(AckBody(sequences)) == sequences
  {
    if sequences != [] {
      var body := AckBody(sequences);
      assert body[..8] == PutLE(sequences[0], 8) && body[8..] == AckBody(sequences[1..]);
      FieldWidths(); GetPutLE(sequences[0], 8);
      AckSequencesBody(sequences[1..]);
    }
  }

  lemma AckRoundTrip(sequences: seq<uint64>)
    requires MarshalAck(sequences).Ok?
    ensures UnmarshalAck(MarshalAck(sequences).value) == Ok(Ack(sequences))
  {
    assert MarshalAck(sequences).value[1..] == AckBody(sequences);
    AckSequencesBody(sequences);
  }

  lemma PingRoundTrip(isResponse: bool, nonce: uint64)
    ensures UnmarshalPing(EncodePing(isResponse, nonce)) == Ok(PingPong(isResponse, nonce))
  {
    assert EncodePing(isResponse, nonce)[1..] == PutLE(nonce, 8);
    FieldWidths(); GetPutLE(nonce, 8);
  }

  lemma RekeyRoundTrip(epoch: uint32, confirm: Bytes32)
    requires epoch != 0
    ensures UnmarshalRekey(EncodeRekey(epoch, confirm)) == Ok((epoch, confirm))
  {
    var data := EncodeRekey(epoch, confirm);
    assert data[..4] == PutLE(epoch, 4) && data[4..] == confirm;
    FieldWidths(); GetPutLE(epoch, 4);
  }

  /** Marshalling has its own errors and no others. */
  lemma MarshalErrors(utf8: Utf8, m: Message)
    ensures Marshal(utf8, m).Err? ==>
              Marshal(utf8, m).error in {
                DuplicateMessageTlv, TlvElementLimit, TlvValueTooLarge, TlvSequenceLimit, MessageLength,
                InvalidCloseCode, InvalidUtf8, ReasonTooLong, AckCount, InvalidEpoch}
  {
  }

  /* ---------- and back: what the decoders accept ---------- */

  lemma {:induction false} AckBodySequences(body: Bytes)
    requires |body| % 8 == 0
    ensures AckBody(AckSequences(body)) == body
    decreases |body|
  {
    if body != [] {
      var s := AckSequences(body);
      assert s[1..] == AckSequences(body[8..]);
      AckBodySequences(body[8..]);
      PutGetLE(body[..8]);
      assert body == body[..8] + body[8..];
    }
  }

  lemma AckExact(data: Bytes)
    requires UnmarshalAck(data).Ok?
    ensures MarshalAck(UnmarshalAck(data).value.sequences) == Ok(data)
  {
    AckBodySequences(data[1..]);
    assert data == [data[0]] + data[1..];
  }

  lemma PingExact(data: Bytes)
    requires UnmarshalPing(data).Ok?
    ensures var m := UnmarshalPing(data).value; EncodePing(m.isResponse, m.nonce) == data
  {
    PutGetLE(data[1..]);
    assert data == [data[0]] + data[1..];
  }

  lemma RekeyExact(data: Bytes)
    requires UnmarshalRekey(data).Ok?
    ensures var (epoch, confirm) := UnmarshalRekey(data).value; epoch != 0 && EncodeRekey(epoch, confirm) == data
  {
    PutGetLE(data[..4]);
    assert data == data[..4] + data[4..];
  }

  lemma ErrorExact(utf8: Utf8, data: Bytes)
    requires UnmarshalError(utf8, data).Ok?
    ensures var m := UnmarshalError(utf8, data).value; MarshalError(utf8, m.errorCode, m.context) == Ok(data)
  {
    PutGetLE(data[..2]);
    assert data == data[..2] + data[2..];
  }

  /** Control payloads have one encoding: whatever the decoder accepts, the encoder writes octet for octet. */
  lemma ControlExact(utf8: Utf8, messageType: byte, data: Bytes)
    requires messageType in {PING_PONG, ACK, REKEY_INIT, ERROR_MESSAGE} && Unmarshal(utf8, messageType, data).Ok?
    ensures var m := Unmarshal(utf8, messageType, data).value; TypeOf(m) == messageType && Marshal(utf8, m) == Ok(data)
  {
    if messageType == PING_PONG { PingExact(data); }
    else if messageType == ACK { AckExact(data); }
    else if messageType == REKEY_INIT { RekeyExact(data); }
    else { ErrorExact(utf8, data); }
  }

  /** An accepted envelope re-encodes to the same length, head and fields; only alignment octets may differ. */
  lemma DataReencodes(data: Bytes)
    requires UnmarshalData(data).Ok?
    ensures var m := UnmarshalData(data).value;
            && m.EncryptedData? && MarshalData(m.streamId, m.appType, m.fields).Ok?
            && var out := MarshalData(m.streamId, m.appType, m.fields).value;
               |out| == |data| && out[..4] == data[..4] && UnmarshalData(out) == Ok(m)
  {
    var m := UnmarshalData(data).value;
    Tlv.ReencodeAccepted(data[4..], MAX_ENCRYPTED_PAYLOAD - 4);
    Tlv.DecodableExactly(data[4..], MAX_ENCRYPTED_PAYLOAD - 4);
    PutGetLE(data[..2]);
    assert data[..4] == data[..2] + [data[2], data[3]];
    DataRoundTrip(m.streamId, m.appType, m.fields);
  }

  /** Every message that marshals comes back equal through its own frame type, and fits an unpadded frame. */
  lemma MessageRoundTrip(utf8: Utf8, m: Message)
    requires Marshal(utf8, m).Ok?
    ensures Unmarshal(utf8, TypeOf(m), Marshal(utf8, m).value) == Ok(m)
    ensures |Marshal(utf8, m).value| <= MAX_ENCRYPTED_PAYLOAD
  {
    match m
    case EncryptedData(streamId, appType, fields) => DataRoundTrip(streamId, appType, fields);
    case PingPong(isResponse, nonce) => PingRoundTrip(isResponse, nonce);
    case SessionClose(code, reason) => CloseRoundTrip(utf8, code, reason);
    case Ack(sequences) => AckRoundTrip(sequences);
    case RekeyInit(epoch, confirm) => RekeyRoundTrip(epoch, confirm);
    case ErrorMessage(code, context) => ErrorRoundTrip(utf8, code, context);
  }

  /* ---------- acknowledgement loops over caller-owned storage ---------- */

  lemma {:induction false} AckBodyAppend(sequences: seq<uint64>, s: uint64)
    ensures AckBody(sequences + [s]) == AckBody(sequences) + PutLE(s, 8)
    decreases sequences
  {
    if sequences == [] {
      assert sequences + [s] == [s];
      assert AckBody([s]) == PutLE(s, 8) + AckBody([s][1..]);
    } else {
      assert (sequences + [s])[1..] == sequences[1..] + [s];
      AckBodyAppend(sequences[1..], s);
    }
  }

  /** Writes count and sequences, leaving any suffix of dst alone. */
  method PutAck(dst: array<byte>, sequences: seq<uint64>)
    requires 1 <= |sequences| <= MAX_ACK_SEQUENCES && dst.Length >= 1 + 8 * |sequences|
    modifies dst
    ensures Ok(dst[..1 + 8 * |sequences|]) == MarshalAck(sequences)
    ensures dst[1 + 8 * |sequences|..] == old(dst[1 + 8 * |sequences|..])
  {
    dst[0] := |sequences|;
    for i := 0 to |sequences|
      invariant dst[..1 + 8 * i] == [|sequences|] + AckBody(sequences[..i])
      invariant dst[1 + 8 * |sequences|..] == old(dst[1 + 8 * |sequences|..])
    {
      ghost var before := dst[..1 + 8 * i];
      var octets := PutLE(sequences[i], 8);
      forall k | 0 <= k < 8 { dst[1 + 8 * i + k] := octets[k]; }
      assert dst[..9 + 8 * i] == before + octets;
      AckBodyAppend(sequences[..i], sequences[i]);
      assert sequences[..i + 1] == sequences[..i] + [sequences[i]];
    }
    assert sequences[..|sequences|] == sequences;
  }

  lemma {:induction false} AckSequenceAt(body: Bytes, i: nat)
    requires |body| % 8 == 0 && 8 * i < |body|
    ensures AckSequences(body)[i] == Get64(body[8 * i..8 * i + 8])
    decreases i
  {
    if i > 0 {
      AckSequenceAt(body[8..], i - 1);
      TailSlice(body, 8, 8 * (i - 1), 8 * (i - 1) + 8);
    }
  }

  /** Fills caller storage of exactly the encoded count. */
  method ReadAck(src: Bytes, sequences: array<uint64>)
    requires |src| == 1 + 8 * sequences.Length
    modifies sequences
    ensures sequences[..] == AckSequences(src[1..])
  {
    for i := 0 to sequences.Length
      invariant forall j :: 0 <= j < i ==> sequences[j] == AckSequences(src[1..])[j]
    {
      sequences[i] := Get64(src[1 + 8 * i..9 + 8 * i]);
      AckSequenceAt(src[1..], i);
      TailSlice(src, 1, 8 * i, 8 * i + 8);
    }
  }
}
