/**
 * Data-frame encryption over an abstract AEAD, and the epoch key schedule. The cipher, the
 * ratchet and the confirmation MAC are function values: nothing is known of them beyond
 * `Correct`, which asks only that opening undoes sealing and that sealing adds a 16-octet tag.
 */
module Crypto {
  import opened Basics
  import opened Frames

  type Key = Bytes32

  datatype SuiteFunctions = SuiteFunctions(
    seal: (Key, Bytes, Bytes, Bytes) -> Bytes,           // key, nonce, associated data, plaintext
    open: (Key, Bytes, Bytes, Bytes) -> Option<Bytes>,   // key, nonce, associated data, sealed octets
    next: Key -> Key,
    confirm: (Key, uint32) -> Bytes32)

  ghost predicate Correct(c: SuiteFunctions) {
    forall k: Key, n: Bytes, a: Bytes, p: Bytes ::
      |c.seal(k, n, a, p)| == |p| + TAG_SIZE && c.open(k, n, a, c.seal(k, n, a, p)) == Some(p)
  }

  /** A cipher that hides nothing but satisfies `Correct`, so the assumption is satisfiable. */
  function NullSuite(): (c: SuiteFunctions)
    ensures Correct(c)
  {
    SuiteFunctions(
      (k, n, a, p) => p + ZERO16,
      (k, n, a, s) => if |s| >= TAG_SIZE && s[|s| - TAG_SIZE..] == ZERO16 then Some(s[..|s| - TAG_SIZE]) else None,
      k => k,
      (k, e) => k)
  }

  type Suite = c: SuiteFunctions | Correct(c) witness NullSuite()

  datatype Codec = Codec(key: Key)

  /** One invocation of the AEAD seal. */
  datatype Sealing = Sealing(key: Key, nonce: Bytes, aad: Bytes, plaintext: Bytes)

  /** What the random source returned when asked for padLength octets; None is a read failure. */
  datatype RawDraw = RawDraw(padLength: byte, octets: Option<Bytes>)
  type Draw = d: RawDraw | d.octets.Some? ==> |d.octets.value| == d.padLength witness RawDraw(0, None)

  function Nonce(sequence: uint64): Bytes { [0, 0, 0, 0] + PutLE(sequence, 8) }

  lemma NonceInjective(s: uint64, t: uint64)
    requires Nonce(s) == Nonce(t)
    ensures s == t
  {
    assert Nonce(s)[4..] == PutLE(s, 8) && Nonce(t)[4..] == PutLE(t, 8);
    FieldWidths(); GetPutLE(s, 8); GetPutLE(t, 8);
  }

  function ValidateEncryptedHeader(messageType: byte, sessionId: Bytes16, sequence: uint64): Result<()> {
    if messageType < ENCRYPTED_DATA || messageType > ERROR_MESSAGE || messageType == RESUMPTION_TICKET
    then Err(UnencryptedType)
    else if sequence == 0 then Err(InvalidSequence)
    else if sessionId == ZERO16 then Err(InvalidSessionId)
    else Ok(())
  }

  /** The result of Codec.Encrypt together with the seal invocations it made. */
  datatype Encryption = Encryption(frame: Result<Frame>, seals: seq<Sealing>)

  function Encrypt(c: Suite, codec: Codec, messageType: byte, sessionId: Bytes16, sequence: uint64, plaintext: Bytes,
                   draw: Draw): Encryption {
    var valid := ValidateEncryptedHeader(messageType, sessionId, sequence);
    if valid.Err? then Encryption(Err(valid.error), [])
    else if HEADER_SIZE + |plaintext| + TAG_SIZE + draw.padLength > MAX_FRAME_SIZE
    then Encryption(Err(PayloadTooLarge), [])
    else
      var header := MarshalHeader(NewHeader(messageType, sessionId, sequence, |plaintext|, draw.padLength), true);
      if header.Err? then Encryption(Err(header.error), [])
      else if draw.octets.None? then Encryption(Err(RandomSource), [])
      else
        var aad := header.value + draw.octets.value;
        var sealed := c.seal(codec.key, Nonce(sequence), aad, plaintext);
        Encryption(
          NewFrame(messageType, sessionId, sequence, sealed[..|plaintext|], sealed[|plaintext|..], draw.octets.value),
          [Sealing(codec.key, Nonce(sequence), aad, plaintext)])
  }

  /** The associated data a receiver rebuilds from a frame. */
  function Aad(frame: Frame): Bytes { EncodeHeader(frame.header) + frame.padding }

  /** Associated data whose header carries this message type. */
  predicate NamesType(aad: Bytes, messageType: byte) { |aad| >= HEADER_SIZE && aad[6] == messageType }

  function Decrypt(c: SuiteFunctions, codec: Codec, frame: Frame): Result<Bytes> {
    var _ :- frame.ValidateReceive();
    var _ :- ValidateEncryptedHeader(frame.header.messageType, frame.header.sessionId, frame.header.sequence);
    match c.open(codec.key, Nonce(frame.header.sequence), Aad(frame), frame.payload + frame.tag)
    case None => Err(Authentication)
    case Some(plaintext) => Ok(plaintext)
  }

  /**
   * Nothing fails after the seal: a frame comes out exactly when the AEAD was invoked, once.
   * The frame is canonical, names what was asked for, and opens to the plaintext under the same key.
   */
  lemma EncryptSeals(c: Suite, codec: Codec, messageType: byte, sessionId: Bytes16, sequence: uint64,
                     plaintext: Bytes, draw: Draw)
    ensures var e := Encrypt(c, codec, messageType, sessionId, sequence, plaintext, draw);
            && (e.frame.Err? ==> e.seals == [])
            && (e.frame.Ok? ==>
                  var frame := e.frame.value;
                  && e.seals == [Sealing(codec.key, Nonce(sequence), Aad(frame), plaintext)]
                  && Canonical(frame)
                  && frame.header == NewHeader(messageType, sessionId, sequence, |plaintext|, draw.padLength)
                  && frame.payload + frame.tag == c.seal(codec.key, Nonce(sequence), Aad(frame), plaintext)
                  && Decrypt(c, codec, frame) == Ok(plaintext))
  {
    var e := Encrypt(c, codec, messageType, sessionId, sequence, plaintext, draw);
    if e.seals != [] {
      var aad := e.seals[0].aad;
      var sealed := c.seal(codec.key, Nonce(sequence), aad, plaintext);
      assert |sealed| == |plaintext| + TAG_SIZE;
      var frame := e.frame.value;
      assert frame.payload + frame.tag == sealed;
    }
  }

  lemma EncryptLogs(c: Suite, codec: Codec, messageType: byte, sessionId: Bytes16, sequence: uint64, plaintext: Bytes,
                    draw: Draw)
    ensures var e := Encrypt(c, codec, messageType, sessionId, sequence, plaintext, draw);
            if e.frame.Err? then e.seals == []
            else
              && |e.seals| == 1 && e.seals[0].key == codec.key && e.seals[0].nonce == Nonce(sequence)
              && e.frame.value.header.messageType == messageType && NamesType(e.seals[0].aad, messageType)
  {
    var length := if |plaintext| <= MAX_FRAME_SIZE then |plaintext| else 0;
    HeaderParts(NewHeader(messageType, sessionId, sequence, length, draw.padLength));
    EncryptSeals(c, codec, messageType, sessionId, sequence, plaintext, draw);
  }

  /** When Encrypt succeeds, exactly. */
  lemma EncryptSucceeds(c: Suite, codec: Codec, messageType: byte, sessionId: Bytes16, sequence: uint64,
                        plaintext: Bytes, draw: Draw)
    ensures Encrypt(c, codec, messageType, sessionId, sequence, plaintext, draw).frame.Ok? <==>
            && ValidateEncryptedHeader(messageType, sessionId, sequence).Ok?
            && HEADER_SIZE + |plaintext| + TAG_SIZE + draw.padLength <= MAX_FRAME_SIZE
            && draw.octets.Some?
  {
    EncryptSeals(c, codec, messageType, sessionId, sequence, plaintext, draw);
  }

  lemma AadDeterminesHeader(f: Frame, g: Frame)
    requires Aad(f) == Aad(g)
    ensures f.header == g.header && f.padding == g.padding
  {
    assert Aad(f)[..HEADER_SIZE] == EncodeHeader(f.header) && Aad(g)[..HEADER_SIZE] == EncodeHeader(g.header);
    assert Aad(f)[HEADER_SIZE..] == f.padding && Aad(g)[HEADER_SIZE..] == g.padding;
    ReadEncodeHeader(f.header); ReadEncodeHeader(g.header);
  }

  /* ---------- key schedule ---------- */

  /** Confirmation for the immediate successor of currentEpoch. */
  function ComputeKeyConfirm(c: SuiteFunctions, currentEpoch: uint32, secret: Key, epoch: uint32): Result<Bytes32> {
    if currentEpoch == MAX_UINT32 then Err(EpochExhausted)
    else if currentEpoch == 0 then Err(InvalidEpoch)
    else if epoch != currentEpoch + 1 then Err(InvalidEpoch)
    else Ok(c.confirm(secret, epoch))
  }

  /** The traffic key of an epoch; epoch one is the handshake's. */
  function KeyAt(c: SuiteFunctions, root: Key, epoch: nat): Key
    requires epoch >= 1
  {
    if epoch == 1 then root else c.next(KeyAt(c, root, epoch - 1))
  }

  /** The ratchet does not come back to a key within the epochs a session can reach. */
  ghost predicate FreshKeys(c: SuiteFunctions, root: Key) {
    forall i: nat, j: nat :: 1 <= i < j <= MAX_UINT32 ==> KeyAt(c, root, i) != KeyAt(c, root, j)
  }
}
