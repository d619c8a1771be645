/**
 * The session object: both directions' state, updated in place. Each method runs under the
 * direction's mutex, so it is one atomic step; its contract ties the new fields to the
 * functions of modules Sending and Receiving.
 */
module Sessions {
  import opened Basics
  import opened Frames
  import opened Crypto
  import opened Messages
  import opened Replay
  import opened Sending
  import Receiving
  import Fifo

  const DEFAULT_REKEY_FRAME_LIMIT: uint64 := TWO32
  const DEFAULT_REKEY_INTERVAL: int := 600_000_000_000
  const DEFAULT_GRACE_FRAMES: uint64 := WINDOW_SIZE
  const DEFAULT_GRACE_PERIOD: int := 30_000_000_000

  /** Suite identifiers a caller may pass; only the first is implemented. */
  datatype CipherSuite = ChaCha20Poly1305 | Aes256Gcm | OtherSuite(id: byte)

  class Session {
    const c: Suite
    const utf8: Utf8
    const sessionId: Bytes16

    var send: Codec
    var sendKey: Key
    var sendEpoch: uint32
    var nextSequence: uint64
    var sentInEpoch: uint64
    var epochStarted: int
    var rekeyFrameLimit: uint64
    var rekeyInterval: int
    var pendingRekey: Option<PendingRekey>
    var closed: bool

    var receive: Codec
    var receiveKey: Key
    var receiveEpoch: uint32
    var replay: Window
    var previousReceive: Option<Codec>
    var previousReplay: Window
    var graceRemaining: uint64
    var graceUntil: int
    var graceFrames: uint64
    var gracePeriod: int

    function SendView(): SendState
      reads this
    {
      SendState(sessionId, send, sendKey, sendEpoch, nextSequence, sentInEpoch, epochStarted, rekeyFrameLimit,
          rekeyInterval, pendingRekey, closed)
    }

    function ReceiveView(): Receiving.ReceiveState
      reads this
    {
      Receiving.ReceiveState(sessionId, receive, receiveKey, receiveEpoch, replay, previousReceive, previousReplay,
                             graceRemaining, graceUntil, graceFrames, gracePeriod, closed)
    }

    constructor (c: Suite, utf8: Utf8, sessionId: Bytes16, sendKey: Key, receiveKey: Key, now: int)
      ensures this.c == c && this.utf8 == utf8
      ensures SendView() == NewSendState(sessionId, sendKey, DEFAULT_REKEY_FRAME_LIMIT, DEFAULT_REKEY_INTERVAL, now)
      ensures ReceiveView() == Receiving.NewReceiveState(sessionId, receiveKey, DEFAULT_GRACE_FRAMES,
              DEFAULT_GRACE_PERIOD)
    {
      this.c, this.utf8, this.sessionId := c, utf8, sessionId;
      send, this.sendKey, sendEpoch := Codec(sendKey), sendKey, 1;
      nextSequence, sentInEpoch, epochStarted := 1, 0, now;
      rekeyFrameLimit, rekeyInterval := DEFAULT_REKEY_FRAME_LIMIT, DEFAULT_REKEY_INTERVAL;
      pendingRekey, closed := None, false;
      receive, this.receiveKey, receiveEpoch, replay := Codec(receiveKey), receiveKey, 1, EMPTY;
      previousReceive, previousReplay, graceRemaining, graceUntil := None, EMPTY, 0, 0;
      graceFrames, gracePeriod := DEFAULT_GRACE_FRAMES, DEFAULT_GRACE_PERIOD;
    }

    /** NewSession: refuses any cipher suite but the one of version 1, and the all-zero session ID. */
    static method Open(cipher: CipherSuite, c: Suite, utf8: Utf8, sessionId: Bytes16, sendKey: Key, receiveKey: Key,
                       now: int)
      returns (r: Result<Session>)
      ensures r.Ok? <==> cipher == ChaCha20Poly1305 && sessionId != ZERO16
      ensures r.Err? ==> r.error == if cipher != ChaCha20Poly1305 then UnsupportedCipher else InvalidSessionId
      ensures r.Ok? ==> fresh(r.value) && r.value.c == c && r.value.utf8 == utf8
                        && r.value.SendView() == NewSendState(sessionId, sendKey, DEFAULT_REKEY_FRAME_LIMIT,
                               DEFAULT_REKEY_INTERVAL, now)
                        && r.value.ReceiveView() == Receiving.NewReceiveState(sessionId, receiveKey,
                               DEFAULT_GRACE_FRAMES, DEFAULT_GRACE_PERIOD)
    {
      if cipher != ChaCha20Poly1305 { return Err(UnsupportedCipher); }
      if sessionId == ZERO16 { return Err(InvalidSessionId); }
      var s := new Session(c, utf8, sessionId, sendKey, receiveKey, now);
      return Ok(s);
    }

    /** Idempotent; both directions are closed together. */
    method Close()
      modifies this`closed
      ensures SendView() == old(SendView()).(closed := true) && ReceiveView() == old(ReceiveView()).(closed := true)
    {
      closed := true;
    }

    /* ---------- sending ---------- */

    method EncryptLocked(messageType: byte, plaintext: Bytes, draw: Draw) returns (r: Result<Frame>)
      modifies this`nextSequence, this`sentInEpoch
      ensures var spec := EncryptNext(c, old(SendView()), messageType, plaintext, draw);
              r == spec.frame && SendView() == spec.state
    {
      if nextSequence == 0 { return Err(SequenceExhausted); }
      var e := Encrypt(c, send, messageType, sessionId, nextSequence, plaintext, draw);
      if e.frame.Ok? {
        nextSequence := if nextSequence == MAX_UINT64 then 0 else nextSequence + 1;
        sentInEpoch := Inc(sentInEpoch);
      }
      return e.frame;
    }

    method StartRekeyLocked(draw: Draw) returns (r: Result<Frame>)
      modifies this`nextSequence, this`sentInEpoch, this`pendingRekey
      ensures var spec := StartRekey(c, old(SendView()), draw); r == spec.frame && SendView() == spec.state
    {
      if sendEpoch == MAX_UINT32 { return Err(EpochExhausted); }
      var nextEpoch := sendEpoch + 1;
      var confirm := ComputeKeyConfirm(c, sendEpoch, sendKey, nextEpoch);
      if confirm.Err? { return Err(confirm.error); }
      r := EncryptLocked(REKEY_INIT, EncodeRekey(nextEpoch, confirm.value), draw);
      if r.Err? { return; }
      var nextKey := c.next(sendKey);
      pendingRekey := Some(PendingRekey(r.value, nextKey, Codec(nextKey), nextEpoch));
    }

    method SendLocked(messageType: byte, plaintext: Bytes, draw: Draw, now: int) returns (r: Result<Frame>)
      modifies this`nextSequence, this`sentInEpoch, this`pendingRekey
      ensures var spec := SendEncoded(c, old(SendView()), messageType, plaintext, draw, now);
              r == spec.frame && SendView() == spec.state
    {
      if !ValidSessionMessageType(messageType) { return Err(MessageTypeMismatch); }
      if closed { return Err(SessionClosed); }
      if pendingRekey.Some? { return Err(Error.RekeyPending); }
      if RekeyDue(SendView(), now) { r := StartRekeyLocked(draw); }
      else { r := EncryptLocked(messageType, plaintext, draw); }
    }

    method SendPayload(messageType: byte, plaintext: Bytes, draw: Draw, now: int) returns (r: Result<Frame>)
      modifies this`nextSequence, this`sentInEpoch, this`pendingRekey
      ensures var spec := Sending.SendPayload(c, old(SendView()), messageType, plaintext, draw, now);
              r == spec.frame && SendView() == spec.state && ReceiveView() == old(ReceiveView())
    {
      if messageType == RESUMPTION_TICKET || messageType == REKEY_INIT { return Err(MessageTypeMismatch); }
      r := SendLocked(messageType, plaintext, draw, now);
    }

    method Send(m: Message, draw: Draw, now: int) returns (r: Result<Frame>)
      modifies this`nextSequence, this`sentInEpoch, this`pendingRekey
      ensures var spec := SendMessage(c, utf8, old(SendView()), m, draw, now);
              r == spec.frame && SendView() == spec.state && ReceiveView() == old(ReceiveView())
    {
      if m.RekeyInit? { return Err(MessageTypeMismatch); }
      var plaintext := Marshal(utf8, m);
      if plaintext.Err? { return Err(plaintext.error); }
      r := SendLocked(TypeOf(m), plaintext.value, draw, now);
    }

    method MarkRekeySent(frame: Frame, now: int) returns (r: Result<()>)
      modifies this`send, this`sendKey, this`sendEpoch, this`nextSequence, this`sentInEpoch, this`epochStarted,
               this`pendingRekey
      ensures (SendView(), r) == Sending.MarkRekeySent(old(SendView()), frame, now)
    {
      if closed { return Err(SessionClosed); }
      if pendingRekey.None? || pendingRekey.value.frame != frame { return Err(Error.RekeyPending); }
      var pending := pendingRekey.value;
      sendKey, send, sendEpoch := pending.key, pending.codec, pending.epoch;
      nextSequence, sentInEpoch, epochStarted := 1, 0, now;
      pendingRekey := None;
      return Ok(());
    }

    /* ---------- receiving ---------- */

    method ExpireGraceLocked(now: int)
      modifies this`previousReceive, this`previousReplay, this`graceRemaining, this`graceUntil
      ensures ReceiveView() == Receiving.ExpireGrace(old(ReceiveView()), now)
    {
      if previousReceive.None? { return; }
      if graceRemaining == 0 || gracePeriod <= 0 || now >= graceUntil {
        previousReceive, previousReplay, graceRemaining, graceUntil := None, EMPTY, 0, 0;
      }
    }

    /** Commits on a private copy of the window, so a refusal cannot leave a half-updated one behind. */
    method CommitCopy(window: Window, token: Token) returns (r: Result<Window>)
      ensures r == Commit(window, token)
    {
      var copy := new ReplayWindow(window);
      var committed := copy.CommitToken(token);
      if committed.Err? { return Err(committed.error); }
      return Ok(copy.Value());
    }

    method AcceptRekeyLocked(frame: Frame, candidate: Receiving.Candidate, now: int, later: int)
      returns (r: Result<Receiving.Acceptance>)
      modifies this`receive, this`receiveKey, this`receiveEpoch, this`replay, this`previousReceive,
               this`previousReplay, this`graceRemaining, this`graceUntil
      ensures Receiving.ReceiveResult(ReceiveView(), r) ==
              Receiving.AcceptRekey(c, old(ReceiveView()), frame, candidate, now, later)
    {
      var init := UnmarshalRekey(candidate.plaintext);
      if init.Err? { return Err(init.error); }
      var (epoch, confirm) := init.value;
      var nextKey := Receiving.PrepareRekey(c, ReceiveView(), epoch, confirm);
      if nextKey.Err? { return Err(nextKey.error); }
      var committed := CommitCopy(replay, candidate.token);
      if committed.Err? { return Err(committed.error); }
      r := Ok(Receiving.Acceptance(receiveEpoch, frame.header.sequence, REKEY_INIT, true, candidate.plaintext));
      MoveReceiveLocked(nextKey.value, epoch, committed.value, now, later);
    }

    /** The retained key keeps the window that has just recorded the RekeyInit; the new key starts a fresh one. */
    method MoveReceiveLocked(nextKey: Key, epoch: uint32, committed: Window, now: int, later: int)
      modifies this`receive, this`receiveKey, this`receiveEpoch, this`replay, this`previousReceive,
               this`previousReplay, this`graceRemaining, this`graceUntil
      ensures ReceiveView() == Receiving.ExpireGrace(
                old(ReceiveView()).(previous := Some(old(receive)), previousReplay := committed,
                                    receive := Codec(nextKey), receiveKey := nextKey, receiveEpoch := epoch,
                                    replay := EMPTY,
                                    graceRemaining := graceFrames, graceUntil := now + gracePeriod), later)
    {
      previousReceive, previousReplay := Some(receive), committed;
      receive, receiveKey, receiveEpoch := Codec(nextKey), nextKey, epoch;
      replay := EMPTY;
      graceRemaining := graceFrames;
      graceUntil := now + gracePeriod;
      ExpireGraceLocked(later);
    }

    method AcceptCurrentLocked(frame: Frame, candidate: Receiving.Candidate, now: int)
      returns (r: Result<Receiving.Acceptance>)
      modifies this`replay, this`previousReceive, this`previousReplay, this`graceRemaining, this`graceUntil
      ensures Receiving.ReceiveResult(ReceiveView(), r) ==
              Receiving.AcceptCurrent(old(ReceiveView()), frame, candidate, now)
    {
      var committed := CommitCopy(replay, candidate.token);
      if committed.Err? { return Err(committed.error); }
      replay := committed.value;
      if previousReceive.Some? {
        if graceRemaining > 0 { graceRemaining := graceRemaining - 1; }
        ExpireGraceLocked(now);
      }
      return Ok(Receiving.Acceptance(receiveEpoch, frame.header.sequence, frame.header.messageType, true,
          candidate.plaintext));
    }

    method AcceptPreviousLocked(frame: Frame, candidate: Receiving.Candidate) returns (r: Result<Receiving.Acceptance>)
      modifies this`previousReplay
      ensures Receiving.ReceiveResult(ReceiveView(), r) ==
              Receiving.AcceptPrevious(old(ReceiveView()), frame, candidate)
    {
      var committed := CommitCopy(previousReplay, candidate.token);
      if committed.Err? { return Err(committed.error); }
      previousReplay := committed.value;
      return Ok(Receiving.Acceptance(receiveEpoch - 1, frame.header.sequence, frame.header.messageType, false,
          candidate.plaintext));
    }

    /** A failed receive changes no field. */
    method ReceivePayload(frame: Frame, now: int, later: int) returns (r: Result<Receiving.Acceptance>)
      modifies this`receive, this`receiveKey, this`receiveEpoch, this`replay, this`previousReceive,
               this`previousReplay, this`graceRemaining, this`graceUntil
      ensures Receiving.ReceiveResult(ReceiveView(), r) ==
              Receiving.ReceivePayload(c, old(ReceiveView()), frame, now, later)
      ensures SendView() == old(SendView())
      ensures r.Err? ==> ReceiveView() == old(ReceiveView())
    {
      var messageType := frame.header.messageType;
      if messageType == RESUMPTION_TICKET { return Err(MessageTypeMismatch); }
      if frame.header.sessionId != sessionId { return Err(WrongSession); }
      if !ValidSessionMessageType(messageType) { return Err(MessageTypeMismatch); }
      if closed { return Err(SessionClosed); }
      var candidate := Receiving.DecryptEpoch(c, ReceiveView(), frame, now);
      if candidate.Err? { return Err(candidate.error); }
      if messageType == REKEY_INIT {
        if !candidate.value.current { return Err(InvalidEpoch); }
        r := AcceptRekeyLocked(frame, candidate.value, now, later);
      } else if candidate.value.current {
        r := AcceptCurrentLocked(frame, candidate.value, now);
      } else {
        r := AcceptPreviousLocked(frame, candidate.value);
      }
    }

    method Receive(frame: Frame, now: int, later: int) returns (r: Result<Message>)
      modifies this`receive, this`receiveKey, this`receiveEpoch, this`replay, this`previousReceive,
               this`previousReplay, this`graceRemaining, this`graceUntil
      ensures (ReceiveView(), r) == Receiving.Receive(c, utf8, old(ReceiveView()), frame, now, later)
      ensures SendView() == old(SendView())
    {
      var accepted := ReceivePayload(frame, now, later);
      if accepted.Err? { return Err(accepted.error); }
      return Unmarshal(utf8, frame.header.messageType, accepted.value.plaintext);
    }
  }

  /**
   * The writer's retry loop: seals, hands the frame to the transport, and after a RekeyInit commits
   * the new key and tries the same message again. It terminates because every retry is one epoch on.
   * A Close by another goroutine may come before the send or before the mark.
   */
  method WriteMessage(session: Session, m: Message, attempts: nat -> Fifo.Attempt) returns (done: bool,
                      sealed: seq<Fifo.SealedFrame>)
    modifies session`send, session`sendKey, session`sendEpoch, session`nextSequence, session`sentInEpoch,
             session`epochStarted, session`pendingRekey, session`closed
    ensures var spec := Fifo.WriteMessage(Fifo.SessionWriter(session.c, session.utf8, attempts),
            old(session.SendView()), m, 0);
            done == spec.done && sealed == spec.sealed && session.SendView() == spec.state
  {
    ghost var writer := Fifo.SessionWriter(session.c, session.utf8, attempts);
    ghost var spec := Fifo.WriteMessage(writer, session.SendView(), m, 0);
    sealed := [];
    var i := 0;
    while true
      invariant spec == Fifo.Prepend(sealed, Fifo.WriteMessage(writer, session.SendView(), m, i))
      decreases MAX_UINT32 - session.sendEpoch
    {
      var attempt := attempts(i);
      var epoch, key := session.sendEpoch, session.sendKey;
      Fifo.WriteUnfolds(session.c, session.utf8, attempts, session.SendView(), m, i);
      if attempt.closedBeforeSend { session.Close(); }
      var frame := session.Send(m, attempt.draw, attempt.sendNow);
      if frame.Err? { return false, sealed; }
      var entry := Fifo.SealedFrame(frame.value, epoch, key);
      if !attempt.written { return false, sealed + [entry]; }
      if frame.value.header.messageType != REKEY_INIT { return true, sealed + [entry]; }
      if attempt.closedBeforeMark { session.Close(); }
      var marked := session.MarkRekeySent(frame.value, attempt.markNow);
      if marked.Err? { return false, sealed + [entry]; }
      i := i + 1;
      Fifo.PrependTwice(sealed, [entry], Fifo.WriteMessage(writer, session.SendView(), m, i));
      sealed := sealed + [entry];
    }
  }
}
