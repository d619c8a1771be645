/**
 * End to end: a writer that retries each message across rekeys, an octet stream cut anywhere,
 * and a reader. Messages come out equal and in order, through any number of rekeys.
 */
module Fifo {
  import opened Basics
  import opened Frames
  import opened Crypto
  import opened Messages
  import opened Replay
  import opened Transport
  import Sending
  import Receiving

  type SendState = Sending.SendState
  type ReceiveState = Receiving.ReceiveState

  /**
   * The surroundings of one attempt: padding, clock readings, whether the write went through, and a Close racing it.
   */
  datatype Attempt = Attempt(
    closedBeforeSend: bool, draw: Draw, sendNow: int, written: bool, closedBeforeMark: bool, markNow: int)

  /** A Close slips in here, or not. */
  function Raced(s: SendState, closed: bool): SendState { if closed then s.(closed := true) else s }

  /** A frame handed to the transport, with the epoch and key that sealed it. */
  datatype SealedFrame = SealedFrame(frame: Frame, epoch: uint32, key: Key)

  /** handed: the message's own frame reached the transport; done: and was fully written. */
  datatype Written = Written(state: SendState, sealed: seq<SealedFrame>, handed: bool, done: bool)

  /* ---------- the writer ---------- */

  lemma RekeyFrameIsPending(c: Suite, utf8: Utf8, s: SendState, m: Message, draw: Draw, now: int)
    ensures var r := Sending.SendMessage(c, utf8, s, m, draw, now);
            r.frame.Ok? && r.frame.value.header.messageType == REKEY_INIT ==>
              && s.sendEpoch < MAX_UINT32 && !s.closed && s.pending.None?
              && r.state.pending.Some? && r.state.pending.value.frame == r.frame.value
              && r.state.pending.value.epoch == s.sendEpoch + 1 && r.state.closed == s.closed
  {
    if !m.RekeyInit? && Marshal(utf8, m).Ok? && s.nextSequence != 0 {
      EncryptLogs(c, s.send, TypeOf(m), s.sessionId, s.nextSequence, Marshal(utf8, m).value, draw);
    }
  }

  /** How the i-th attempt seals, commits a rekey that went out, and whether its write went through. */
  datatype RawWriter = RawWriter(
    send: (SendState, Message, nat) -> Sending.SendResult,
    mark: (SendState, Frame, nat) -> (SendState, Result<()>),
    written: nat -> bool)

  /** A sealed RekeyInit, once marked sent, leaves the sender one epoch further on. */
  ghost predicate Progresses(w: RawWriter) {
    forall s, m, i :: var r := w.send(s, m, i);
      r.frame.Ok? && r.frame.value.header.messageType == REKEY_INIT ==>
        && s.sendEpoch < MAX_UINT32
        && (w.mark(r.state, r.frame.value, i).1.Ok? ==>
                w.mark(r.state, r.frame.value, i).0.sendEpoch == s.sendEpoch + 1)
  }

  type Writer = w: RawWriter | Progresses(w)
    witness RawWriter((s, m, i) => Sending.Fails(s, SessionClosed), (s, f, i) => (s, Err(SessionClosed)), i => false)

  function AttemptSend(c: Suite, utf8: Utf8, s: SendState, m: Message, a: Attempt): Sending.SendResult {
    Sending.SendMessage(c, utf8, Raced(s, a.closedBeforeSend), m, a.draw, a.sendNow)
  }

  function AttemptMark(s: SendState, frame: Frame, a: Attempt): (SendState, Result<()>) {
    Sending.MarkRekeySent(Raced(s, a.closedBeforeMark), frame, a.markNow)
  }

  /** The mark of the frame just sealed is refused only if a Close came in between. */
  lemma AttemptProgresses(c: Suite, utf8: Utf8, s: SendState, m: Message, a: Attempt)
    ensures var r := AttemptSend(c, utf8, s, m, a);
            r.frame.Ok? && r.frame.value.header.messageType == REKEY_INIT ==>
              var (s', marked) := AttemptMark(r.state, r.frame.value, a);
              && s.sendEpoch < MAX_UINT32 && (marked.Ok? <==> !a.closedBeforeMark)
              && (marked.Ok? ==> s'.sendEpoch == s.sendEpoch + 1)
  {
    RekeyFrameIsPending(c, utf8, Raced(s, a.closedBeforeSend), m, a.draw, a.sendNow);
  }

  /** The writer of a session, in given surroundings. */
  function SessionWriter(c: Suite, utf8: Utf8, attempts: nat -> Attempt): (w: Writer)
    ensures forall s, m, i: nat :: w.send(s, m, i) == AttemptSend(c, utf8, s, m, attempts(i))
    ensures forall s, f, i: nat :: w.mark(s, f, i) == AttemptMark(s, f, attempts(i))
    ensures forall i: nat :: w.written(i) == attempts(i).written
  {
    var w := RawWriter(
      (s, m, i: nat) => AttemptSend(c, utf8, s, m, attempts(i)),
      (s, f, i: nat) => AttemptMark(s, f, attempts(i)),
      (i: nat) => attempts(i).written);
    assert Progresses(w) by {
      forall s, m, i: nat { AttemptProgresses(c, utf8, s, m, attempts(i)); }
    }
    w
  }

  /** Retries m after every automatically generated RekeyInit; each retry is one epoch further on. */
  function WriteMessage(w: Writer, s: SendState, m: Message, i: nat): Written
    decreases MAX_UINT32 - s.sendEpoch
  {
    var r := w.send(s, m, i);
    if r.frame.Err? then Written(r.state, [], false, false)
    else
      var sealed := SealedFrame(r.frame.value, s.sendEpoch, s.sendKey);
      var rekey := r.frame.value.header.messageType == REKEY_INIT;
      if !w.written(i) || !rekey then Written(r.state, [sealed], !rekey, w.written(i))
      else
        var (s', marked) := w.mark(r.state, r.frame.value, i);
        if marked.Err? then Written(s', [sealed], false, false)
        else Prepend([sealed], WriteMessage(w, s', m, i + 1))
  }

  function Prepend(sealed: seq<SealedFrame>, w: Written): Written { w.(sealed := sealed + w.sealed) }

  lemma PrependTwice(a: seq<SealedFrame>, b: seq<SealedFrame>, w: Written)
    ensures Prepend(a, Prepend(b, w)) == Prepend(a + b, w)
  {
    assert a + (b + w.sealed) == a + b + w.sealed;
  }

  /** One turn of the retry loop, in terms of the session's own send and mark. */
  lemma WriteUnfolds(c: Suite, utf8: Utf8, attempts: nat -> Attempt, s: SendState, m: Message, i: nat)
    ensures var w, a := SessionWriter(c, utf8, attempts), attempts(i);
            var r := AttemptSend(c, utf8, s, m, a);
            var out := WriteMessage(w, s, m, i);
            if r.frame.Err? then out == Written(r.state, [], false, false)
            else
              var entry := SealedFrame(r.frame.value, s.sendEpoch, s.sendKey);
              var rekey := r.frame.value.header.messageType == REKEY_INIT;
              if !a.written || !rekey then out == Written(r.state, [entry], !rekey, a.written)
              else
                var (s', marked) := AttemptMark(r.state, r.frame.value, a);
                && (marked.Err? <==> a.closedBeforeMark)
                && (marked.Err? ==> out == Written(s', [entry], false, false))
                && (marked.Ok? ==> s.sendEpoch < s'.sendEpoch && out == Prepend([entry], WriteMessage(w, s', m, i + 1)))
  {
    AttemptProgresses(c, utf8, s, m, attempts(i));
  }

  /** All that a writer puts on the stream for a queue of messages; it stops at the first failure. */
  datatype Stream = Stream(sealed: seq<SealedFrame>, handed: nat, done: nat)

  datatype Item = Item(message: Message, writer: Writer)

  function WriteQueue(s: SendState, items: seq<Item>): Stream
    decreases items
  {
    if items == [] then Stream([], 0, 0)
    else
      var w := WriteMessage(items[0].writer, s, items[0].message, 0);
      Extended(w, if w.done then WriteQueue(w.state, items[1..]) else Stream([], 0, 0))
  }

  /** What one message put on the stream, then the rest if it went out whole. */
  function Extended(w: Written, rest: Stream): Stream {
    if !w.done then Stream(w.sealed, if w.handed then 1 else 0, 0)
    else Stream(w.sealed + rest.sealed, 1 + rest.handed, 1 + rest.done)
  }

  /* ---------- the reader ---------- */

  function FramesOf(sealed: seq<SealedFrame>): seq<Frame> {
    seq(|sealed|, i requires 0 <= i < |sealed| => sealed[i].frame)
  }

  /** How a receiver takes the i-th frame it reads. */
  type Receiver = (ReceiveState, Frame, nat) -> (ReceiveState, Result<Message>)

  function SessionReceiver(c: Suite, utf8: Utf8, clock: nat -> (int, int)): Receiver {
    (r, frame, i: nat) => Receiving.Receive(c, utf8, r, frame, clock(i).0, clock(i).1)
  }

  /** Application messages delivered while frames are received in order, up to the first failure. */
  function Inbox(receive: Receiver, r: ReceiveState, frames: seq<Frame>, i: nat): seq<Message>
    decreases frames
  {
    if frames == [] then []
    else
      var (r', message) := receive(r, frames[0], i);
      if message.Err? then []
      else (if message.value.RekeyInit? then [] else [message.value]) + Inbox(receive, r', frames[1..], i + 1)
  }

  ghost function After(receive: Receiver, r: ReceiveState, frames: seq<Frame>, i: nat): ReceiveState
    decreases frames
  {
    if frames == [] then r else After(receive, receive(r, frames[0], i).0, frames[1..], i + 1)
  }

  /** Before every frame the receiver holds the epoch and key that sealed it, and every receive succeeds. */
  ghost predicate InStep(receive: Receiver, r: ReceiveState, sealed: seq<SealedFrame>, i: nat)
    decreases sealed
  {
    sealed != [] ==>
      && r.receiveEpoch == sealed[0].epoch && r.receiveKey == sealed[0].key
      && var (r', message) := receive(r, sealed[0].frame, i);
         message.Ok? && InStep(receive, r', sealed[1..], i + 1)
  }

  /** Receiving sealed in step from r delivers messages and ends in r'. */
  ghost predicate Feeds(receive: Receiver, r: ReceiveState, sealed: seq<SealedFrame>, i: nat, messages: seq<Message>,
                        r': ReceiveState) {
    && InStep(receive, r, sealed, i)
    && Inbox(receive, r, FramesOf(sealed), i) == messages
    && After(receive, r, FramesOf(sealed), i) == r'
  }

  lemma FramesOfTail(sealed: seq<SealedFrame>)
    requires sealed != []
    ensures FramesOf(sealed)[0] == sealed[0].frame && FramesOf(sealed)[1..] == FramesOf(sealed[1..])
  {
  }

  /** One frame sealed under the receiver's epoch and key, accepted by the receiver. */
  lemma FeedsOne(receive: Receiver, r: ReceiveState, first: SealedFrame, i: nat)
    requires r.receiveEpoch == first.epoch && r.receiveKey == first.key && receive(r, first.frame, i).1.Ok?
    ensures var (r', message) := receive(r, first.frame, i);
            Feeds(receive, r, [first], i, if message.value.RekeyInit? then [] else [message.value], r')
  {
    FramesOfTail([first]);
  }

  lemma {:induction false} FeedsJoin(receive: Receiver, r: ReceiveState, a: seq<SealedFrame>, i: nat,
                                     ms: seq<Message>, r': ReceiveState,
                                     b: seq<SealedFrame>, ns: seq<Message>, r'': ReceiveState)
    requires Feeds(receive, r, a, i, ms, r') && Feeds(receive, r', b, i + |a|, ns, r'')
    ensures Feeds(receive, r, a + b, i, ms + ns, r'')
    decreases a
  {
    if a == [] {
      assert a + b == b && ms + ns == ns;
    } else {
      FramesOfTail(a); FramesOfTail(a + b);
      assert (a + b)[1..] == a[1..] + b;
      var (r1, message) := receive(r, a[0].frame, i);
      var here := if message.value.RekeyInit? then [] else [message.value];
      var rest := Inbox(receive, r1, FramesOf(a[1..]), i + 1);
      FeedsJoin(receive, r1, a[1..], i + 1, rest, r', b, ns, r'');
      assert here + (rest + ns) == ms + ns;
    }
  }

  lemma {:induction false} InStepPrefix(receive: Receiver, r: ReceiveState, sealed: seq<SealedFrame>, i: nat, k: nat)
    requires InStep(receive, r, sealed, i) && k <= |sealed|
    ensures InStep(receive, r, sealed[..k], i)
    ensures Inbox(receive, r, FramesOf(sealed[..k]), i) <= Inbox(receive, r, FramesOf(sealed), i)
    decreases sealed
  {
    if sealed != [] && k > 0 {
      FramesOfTail(sealed); FramesOfTail(sealed[..k]);
      InStepPrefix(receive, receive(r, sealed[0].frame, i).0, sealed[1..], i + 1, k - 1);
      assert sealed[..k][1..] == sealed[1..][..k - 1];
    }
  }

  /* ---------- the two ends in step ---------- */

  ghost function UpTo(n: nat): set<nat> { if n == 0 then {} else UpTo(n - 1) + {n} }

  lemma {:induction false} InUpTo(n: nat, k: nat)
    ensures k in UpTo(n) <==> 1 <= k <= n
  {
    if n > 0 { InUpTo(n - 1, k); }
  }

  ghost predicate SenderReady(s: SendState) {
    && s.sendEpoch >= 1 && s.send == Codec(s.sendKey) && s.pending.None?
    && s.nextSequence == Inc(s.sentInEpoch)
  }

  ghost predicate ReceiverReady(r: ReceiveState, n: nat) {
    !r.closed && r.receiveEpoch >= 1 && r.receive == Codec(r.receiveKey) && Tracks(r.replay, UpTo(n))
  }

  /** The receiver has accepted exactly what the sender sealed so far in this epoch. */
  ghost predicate Synced(s: SendState, r: ReceiveState) {
    && SenderReady(s) && ReceiverReady(r, s.sentInEpoch)
    && r.sessionId == s.sessionId && r.receiveEpoch == s.sendEpoch && r.receiveKey == s.sendKey
  }

  lemma NextIsFresh(w: Window, n: nat)
    requires Tracks(w, UpTo(n)) && n < MAX_UINT64
    ensures Check(w, n + 1).Ok?
    ensures var token := Check(w, n + 1).value; Commit(w, token).Ok? && Tracks(Commit(w, token).value, UpTo(n + 1))
  {
    InUpTo(n, n + 1);
    if w.highest > 0 { InUpTo(n, w.highest); }
    CheckExact(w, UpTo(n), n + 1);
    CommitTracks(w, UpTo(n), Token(n + 1, w.generation));
  }

  /** What a successful send of m put in the frame: m itself, or the RekeyInit that must go first. */
  ghost predicate Carries(c: Suite, utf8: Utf8, s: SendState, m: Message, r: Sending.SendResult) {
    && r.frame.Ok? && Canonical(r.frame.value)
    && s.nextSequence == s.sentInEpoch + 1
    && r.frame.value.header.sequence == s.nextSequence && r.frame.value.header.sessionId == s.sessionId
    && var h := r.frame.value.header;
       if h.messageType == REKEY_INIT then
         && s.sendEpoch < MAX_UINT32
         && Decrypt(c, s.send, r.frame.value) == Ok(EncodeRekey(s.sendEpoch + 1, c.confirm(s.sendKey, s.sendEpoch + 1)))
         && r.state == s.(nextSequence := Inc(s.nextSequence), sentInEpoch := s.sentInEpoch + 1, pending :=
              Some(Sending.PendingRekey(r.frame.value, c.next(s.sendKey), Codec(c.next(s.sendKey)), s.sendEpoch + 1)))
       else
         && !m.RekeyInit? && Marshal(utf8, m).Ok? && h.messageType == TypeOf(m)
         && Decrypt(c, s.send, r.frame.value) == Ok(Marshal(utf8, m).value)
         && r.state == s.(nextSequence := Inc(s.nextSequence), sentInEpoch := s.sentInEpoch + 1)
  }

  /** r is s with one frame sealed at the next sequence that opens to the plaintext. */
  ghost predicate SealedAs(c: Suite, s: SendState, messageType: byte, plaintext: Bytes, r: Sending.SendResult) {
    && r.frame.Ok? && Canonical(r.frame.value) && s.nextSequence == s.sentInEpoch + 1
    && r.frame.value.header.sequence == s.nextSequence && r.frame.value.header.sessionId == s.sessionId
    && r.frame.value.header.messageType == messageType
    && Decrypt(c, s.send, r.frame.value) == Ok(plaintext)
    && r.state == s.(nextSequence := Inc(s.nextSequence), sentInEpoch := s.sentInEpoch + 1)
  }

  lemma SealedCarries(c: Suite, s: SendState, messageType: byte, plaintext: Bytes, draw: Draw)
    requires SenderReady(s) && Sending.EncryptNext(c, s, messageType, plaintext, draw).frame.Ok?
    ensures SealedAs(c, s, messageType, plaintext, Sending.EncryptNext(c, s, messageType, plaintext, draw))
  {
    EncryptSeals(c, s.send, messageType, s.sessionId, s.nextSequence, plaintext, draw);
  }

  /** A sealed RekeyInit held pending. */
  function Pended(c: Suite, s: SendState, r: Sending.SendResult): Sending.SendResult
    requires s.sendEpoch < MAX_UINT32 && r.frame.Ok?
  {
    r.(state := r.state.(pending := Some(Sending.PendingRekey(r.frame.value, c.next(s.sendKey),
        Codec(c.next(s.sendKey)), s.sendEpoch + 1))))
  }

  lemma PendedCarries(c: Suite, utf8: Utf8, s: SendState, m: Message, r: Sending.SendResult)
    requires s.sendEpoch < MAX_UINT32
    requires SealedAs(c, s, REKEY_INIT, EncodeRekey(s.sendEpoch + 1, c.confirm(s.sendKey, s.sendEpoch + 1)), r)
    ensures Carries(c, utf8, s, m, Pended(c, s, r))
  {
  }

  lemma StartRekeyPends(c: Suite, s: SendState, draw: Draw)
    requires SenderReady(s) && Sending.StartRekey(c, s, draw).frame.Ok?
    ensures s.sendEpoch < MAX_UINT32
    ensures var r := Sending.EncryptNext(c, s, REKEY_INIT,
            EncodeRekey(s.sendEpoch + 1, c.confirm(s.sendKey, s.sendEpoch + 1)), draw);
            r.frame.Ok? && Sending.StartRekey(c, s, draw) == Pended(c, s, r)
  {
  }

  lemma RekeyCarries(c: Suite, utf8: Utf8, s: SendState, m: Message, draw: Draw)
    requires SenderReady(s) && Sending.StartRekey(c, s, draw).frame.Ok?
    ensures Carries(c, utf8, s, m, Sending.StartRekey(c, s, draw))
  {
    StartRekeyPends(c, s, draw);
    var plaintext := EncodeRekey(s.sendEpoch + 1, c.confirm(s.sendKey, s.sendEpoch + 1));
    SealedCarries(c, s, REKEY_INIT, plaintext, draw);
    PendedCarries(c, utf8, s, m, Sending.EncryptNext(c, s, REKEY_INIT, plaintext, draw));
  }

  lemma DataCarries(c: Suite, utf8: Utf8, s: SendState, m: Message, draw: Draw)
    requires SenderReady(s) && !m.RekeyInit? && Marshal(utf8, m).Ok?
    requires Sending.EncryptNext(c, s, TypeOf(m), Marshal(utf8, m).value, draw).frame.Ok?
    ensures Carries(c, utf8, s, m, Sending.EncryptNext(c, s, TypeOf(m), Marshal(utf8, m).value, draw))
  {
    SealedCarries(c, s, TypeOf(m), Marshal(utf8, m).value, draw);
  }

  lemma SendCarries(c: Suite, utf8: Utf8, s: SendState, m: Message, draw: Draw, now: int)
    requires SenderReady(s) && Sending.SendMessage(c, utf8, s, m, draw, now).frame.Ok?
    ensures Carries(c, utf8, s, m, Sending.SendMessage(c, utf8, s, m, draw, now))
  {
    if Sending.RekeyDue(s, now) { RekeyCarries(c, utf8, s, m, draw); } else { DataCarries(c, utf8, s, m, draw); }
  }

  /** The next ordinary frame in sequence is accepted, whatever the clock says. */
  lemma AcceptsNext(c: Suite, r: ReceiveState, n: nat, frame: Frame, plaintext: Bytes, now: int, later: int)
    requires ReceiverReady(r, n) && n < MAX_UINT64
    requires frame.header.sequence == n + 1 && frame.header.sessionId == r.sessionId
    requires ENCRYPTED_DATA <= frame.header.messageType <= ERROR_MESSAGE
    requires frame.header.messageType != RESUMPTION_TICKET && frame.header.messageType != REKEY_INIT
    requires Decrypt(c, r.receive, frame) == Ok(plaintext)
    ensures var result := Receiving.ReceivePayload(c, r, frame, now, later);
            && result.outcome.Ok? && result.outcome.value.plaintext == plaintext
            && ReceiverReady(result.state, n + 1)
            && result.state.receiveEpoch == r.receiveEpoch && result.state.receiveKey == r.receiveKey
            && result.state.sessionId == r.sessionId
  {
    NextIsFresh(r.replay, n);
    var token := Check(r.replay, n + 1).value;
    assert Receiving.DecryptEpoch(c, r, frame, now) == Ok(Receiving.Candidate(plaintext, true, token));
  }

  /** The next RekeyInit in sequence moves the receiver to the next epoch and key. */
  lemma AcceptsRekey(c: Suite, r: ReceiveState, n: nat, frame: Frame, now: int, later: int)
    requires ReceiverReady(r, n) && n < MAX_UINT64 && r.receiveEpoch < MAX_UINT32
    requires frame.header.sequence == n + 1 && frame.header.sessionId == r.sessionId
    requires frame.header.messageType == REKEY_INIT
    requires Decrypt(c, r.receive, frame) ==
            Ok(EncodeRekey(r.receiveEpoch + 1, c.confirm(r.receiveKey, r.receiveEpoch + 1)))
    ensures var result := Receiving.ReceivePayload(c, r, frame, now, later);
            && result.outcome.Ok?
            && UnmarshalRekey(result.outcome.value.plaintext) ==
               Ok((r.receiveEpoch + 1, c.confirm(r.receiveKey, r.receiveEpoch + 1)))
            && ReceiverReady(result.state, 0)
            && result.state.receiveEpoch == r.receiveEpoch + 1 && result.state.receiveKey == c.next(r.receiveKey)
            && result.state.sessionId == r.sessionId
  {
    NextIsFresh(r.replay, n);
    EmptyTracks();
    var epoch := r.receiveEpoch + 1;
    RekeyRoundTrip(epoch, c.confirm(r.receiveKey, epoch));
    var candidate := Receiving.Candidate(EncodeRekey(epoch, c.confirm(r.receiveKey, epoch)), true,
        Check(r.replay, n + 1).value);
    assert Receiving.DecryptEpoch(c, r, frame, now) == Ok(candidate);
  }

  /** A typed receive of an accepted payload decodes it. */
  lemma ReceiveDecodes(c: Suite, utf8: Utf8, r: ReceiveState, frame: Frame, now: int, later: int)
    ensures var result := Receiving.ReceivePayload(c, r, frame, now, later);
            result.outcome.Ok? ==>
              Receiving.Receive(c, utf8, r, frame, now, later)
              == (result.state, Unmarshal(utf8, frame.header.messageType, result.outcome.value.plaintext))
  {
  }

  /** Both ends have moved one frame on. */
  lemma StillSynced(s: SendState, r: ReceiveState, s': SendState, r': ReceiveState)
    requires Synced(s, r) && !s.closed && s.nextSequence == s.sentInEpoch + 1
    requires s' == s.(nextSequence := Inc(s.nextSequence), sentInEpoch := s.sentInEpoch + 1)
    requires ReceiverReady(r', s.sentInEpoch + 1) && r'.sessionId == r.sessionId
    requires r'.receiveEpoch == r.receiveEpoch && r'.receiveKey == r.receiveKey
    ensures Synced(s', r') && !s'.closed
  {
  }

  /** What came out is m, or the RekeyInit that had to go first. */
  ghost predicate Yields(m: Message, rekey: bool, message: Result<Message>) {
    message.Ok? && if rekey then message.value.RekeyInit? else message.value == m && !m.RekeyInit?
  }

  lemma DataDelivered(c: Suite, utf8: Utf8, s: SendState, r: ReceiveState, m: Message, sent: Sending.SendResult,
                      now: int, later: int)
    requires Synced(s, r) && !s.closed && Carries(c, utf8, s, m, sent)
    requires sent.frame.value.header.messageType != REKEY_INIT
    ensures var (r', message) := Receiving.Receive(c, utf8, r, sent.frame.value, now, later);
            Yields(m, false, message) && Synced(sent.state, r') && !sent.state.closed
  {
    MessageRoundTrip(utf8, m);
    PayloadDelivered(c, utf8, s, r, m, sent, Marshal(utf8, m).value, now, later);
  }

  lemma PayloadAccepted(c: Suite, s: SendState, r: ReceiveState, messageType: byte, plaintext: Bytes,
                        sent: Sending.SendResult,
                        now: int, later: int)
    requires Synced(s, r) && !s.closed && SealedAs(c, s, messageType, plaintext, sent)
    requires ENCRYPTED_DATA <= messageType <= ERROR_MESSAGE && messageType != RESUMPTION_TICKET
    requires messageType != REKEY_INIT
    ensures var result := Receiving.ReceivePayload(c, r, sent.frame.value, now, later);
            && result.outcome.Ok? && result.outcome.value.plaintext == plaintext
            && Synced(sent.state, result.state) && !sent.state.closed
  {
    AcceptsNext(c, r, s.sentInEpoch, sent.frame.value, plaintext, now, later);
    StillSynced(s, r, sent.state, Receiving.ReceivePayload(c, r, sent.frame.value, now, later).state);
  }

  lemma PayloadDelivered(c: Suite, utf8: Utf8, s: SendState, r: ReceiveState, m: Message, sent: Sending.SendResult,
                         plaintext: Bytes, now: int, later: int)
    requires Synced(s, r) && !s.closed && !m.RekeyInit? && SealedAs(c, s, TypeOf(m), plaintext, sent)
    requires Unmarshal(utf8, TypeOf(m), plaintext) == Ok(m)
    ensures var (r', message) := Receiving.Receive(c, utf8, r, sent.frame.value, now, later);
            Yields(m, false, message) && Synced(sent.state, r') && !sent.state.closed
  {
    PayloadAccepted(c, s, r, TypeOf(m), plaintext, sent, now, later);
    ReceiveDecodes(c, utf8, r, sent.frame.value, now, later);
  }

  lemma RekeyDelivered(c: Suite, utf8: Utf8, s: SendState, r: ReceiveState, m: Message, sent: Sending.SendResult,
                       markNow: int, now: int, later: int)
    requires Synced(s, r) && !s.closed && Carries(c, utf8, s, m, sent)
    requires sent.frame.value.header.messageType == REKEY_INIT
    ensures var s' := Sending.MarkRekeySent(sent.state, sent.frame.value, markNow).0;
            var (r', message) := Receiving.Receive(c, utf8, r, sent.frame.value, now, later);
            Yields(m, true, message) && Synced(s', r') && !s'.closed
  {
    AcceptsRekey(c, r, s.sentInEpoch, sent.frame.value, now, later);
    ReceiveDecodes(c, utf8, r, sent.frame.value, now, later);
    var result := Receiving.ReceivePayload(c, r, sent.frame.value, now, later);
    DecodesRekey(utf8, result.outcome.value.plaintext);
    SyncedAcrossRekey(c, s, r, sent, markNow, result.state);
  }

  lemma DecodesRekey(utf8: Utf8, plaintext: Bytes)
    requires UnmarshalRekey(plaintext).Ok?
    ensures Unmarshal(utf8, REKEY_INIT, plaintext).Ok? && Unmarshal(utf8, REKEY_INIT, plaintext).value.RekeyInit?
  {
  }

  /** Once the announcement is marked, both ends are at the start of the next epoch. */
  lemma SyncedAcrossRekey(c: Suite, s: SendState, r: ReceiveState, sent: Sending.SendResult, markNow: int,
                          r': ReceiveState)
    requires Synced(s, r) && !s.closed && s.sendEpoch < MAX_UINT32 && sent.frame.Ok?
    requires sent.state == s.(nextSequence := sent.state.nextSequence, sentInEpoch := sent.state.sentInEpoch, pending :=
               Some(Sending.PendingRekey(sent.frame.value, c.next(s.sendKey), Codec(c.next(s.sendKey)),
                   s.sendEpoch + 1)))
    requires ReceiverReady(r', 0) && r'.sessionId == r.sessionId
    requires r'.receiveEpoch == r.receiveEpoch + 1 && r'.receiveKey == c.next(r.receiveKey)
    ensures var s' := Sending.MarkRekeySent(sent.state, sent.frame.value, markNow).0; Synced(s', r') && !s'.closed
  {
  }

  /** A relation between the two ends. */
  type Relation = (SendState, ReceiveState) -> bool

  /**
   * sync is kept by the pair: whatever the writer seals for m while in sync, the receiver, at the
   * same epoch and key, accepts; it yields what was sent, and the two ends are in sync again.
   */
  ghost predicate Faithful(w: Writer, receive: Receiver, sync: Relation) {
    && (forall s, r :: sync(s, r) ==> r.receiveEpoch == s.sendEpoch && r.receiveKey == s.sendKey)
    && (forall s, r, m, i, k :: sync(s, r) && w.send(s, m, i).frame.Ok? ==> Exchange(w, receive, sync, s, r, m, i, k))
  }

  ghost predicate Exchange(w: Writer, receive: Receiver, sync: Relation, s: SendState, r: ReceiveState, m: Message,
                           i: nat, k: nat)
    requires w.send(s, m, i).frame.Ok?
  {
    var sent := w.send(s, m, i);
    var frame := sent.frame.value;
    var rekey := frame.header.messageType == REKEY_INIT;
    var (r', message) := receive(r, frame, k);
    var (s', marked) := if rekey then w.mark(sent.state, frame, i) else (sent.state, Ok(()));
    Yields(m, rekey, message) && (marked.Ok? ==> sync(s', r'))
  }

  /** Session writers and session receivers are faithful to each other in all surroundings. */
  lemma SessionsFaithful(c: Suite, utf8: Utf8, attempts: nat -> Attempt, clock: nat -> (int, int))
    ensures Faithful(SessionWriter(c, utf8, attempts), SessionReceiver(c, utf8, clock),
                     (s, r) => Synced(s, r) && !s.closed)
  {
    var w, receive := SessionWriter(c, utf8, attempts), SessionReceiver(c, utf8, clock);
    var sync := (s, r) => Synced(s, r) && !s.closed;
    forall s, r, m, i: nat, k: nat | sync(s, r) && w.send(s, m, i).frame.Ok?
      ensures Exchange(w, receive, sync, s, r, m, i, k)
    {
      SessionExchange(c, utf8, attempts, clock, s, r, m, i, k);
    }
  }

  lemma SessionExchange(c: Suite, utf8: Utf8, attempts: nat -> Attempt, clock: nat -> (int, int), s: SendState,
                        r: ReceiveState, m: Message, i: nat, k: nat)
    requires Synced(s, r) && !s.closed && SessionWriter(c, utf8, attempts).send(s, m, i).frame.Ok?
    ensures Exchange(SessionWriter(c, utf8, attempts), SessionReceiver(c, utf8, clock),
                     (s, r) => Synced(s, r) && !s.closed, s, r, m, i, k)
  {
    var w := SessionWriter(c, utf8, attempts);
    var sent := w.send(s, m, i);
    assert !attempts(i).closedBeforeSend;
    SendCarries(c, utf8, s, m, attempts(i).draw, attempts(i).sendNow);
    if sent.frame.value.header.messageType == REKEY_INIT {
      RekeyDelivered(c, utf8, s, r, m, sent, attempts(i).markNow, clock(k).0, clock(k).1);
    } else {
      DataDelivered(c, utf8, s, r, m, sent, clock(k).0, clock(k).1);
    }
  }

  /** Everything one message puts on the stream is received in step, and delivers it exactly once if at all. */
  lemma {:induction false} MessageDelivered(w: Writer, receive: Receiver, sync: Relation, s: SendState,
                                            r: ReceiveState, m: Message, i: nat, k: nat) returns (r': ReceiveState)
    requires Faithful(w, receive, sync) && sync(s, r)
    ensures var out := WriteMessage(w, s, m, i);
            && Feeds(receive, r, out.sealed, k, if out.handed then [m] else [], r')
            && (out.done ==> out.handed && sync(out.state, r'))
    decreases MAX_UINT32 - s.sendEpoch
  {
    var sent := w.send(s, m, i);
    if sent.frame.Err? {
      r' := r;
    } else {
      var frame := sent.frame.value;
      var first := SealedFrame(frame, s.sendEpoch, s.sendKey);
      assert Exchange(w, receive, sync, s, r, m, i, k);
      r' := receive(r, frame, k).0;
      FeedsOne(receive, r, first, k);
      var (s', marked) := w.mark(sent.state, frame, i);
      if w.written(i) && frame.header.messageType == REKEY_INIT && marked.Ok? {
        var rest := WriteMessage(w, s', m, i + 1);
        var r1 := r';
        r' := MessageDelivered(w, receive, sync, s', r1, m, i + 1, k + 1);
        FeedsJoin(receive, r, [first], k, [], r1, rest.sealed, if rest.handed then [m] else [], r');
      }
    }
  }

  function MessagesOf(items: seq<Item>): seq<Message> {
    seq(|items|, i requires 0 <= i < |items| => items[i].message)
  }

  lemma MessagesOfFront(items: seq<Item>, n: nat)
    requires n < |items|
    ensures MessagesOf(items)[..1 + n] == [items[0].message] + MessagesOf(items[1..])[..n]
  {
  }

  /** stream delivers the first of items it handed over, and no more. */
  ghost predicate Delivers(receive: Receiver, r: ReceiveState, stream: Stream, items: seq<Item>, k: nat,
                           r': ReceiveState) {
    && stream.done <= stream.handed <= |items| && stream.handed <= stream.done + 1
    && Feeds(receive, r, stream.sealed, k, MessagesOf(items)[..stream.handed], r')
  }

  lemma QueueExtended(receive: Receiver, r: ReceiveState, items: seq<Item>, w: Written, rest: Stream, k: nat,
                      r1: ReceiveState, r': ReceiveState)
    requires items != [] && (w.done ==> w.handed)
    requires Feeds(receive, r, w.sealed, k, if w.handed then [items[0].message] else [], r1)
    requires if w.done then Delivers(receive, r1, rest, items[1..], k + |w.sealed|, r') else r' == r1
    ensures Delivers(receive, r, Extended(w, rest), items, k, r')
  {
    if w.done {
      var more := MessagesOf(items[1..])[..rest.handed];
      FeedsJoin(receive, r, w.sealed, k, [items[0].message], r1, rest.sealed, more, r');
      MessagesOfFront(items, rest.handed);
    } else if w.handed {
      MessagesOfFront(items, 0);
    }
  }

  ghost predicate AllFaithful(items: seq<Item>, receive: Receiver, sync: Relation) {
    items != [] ==> Faithful(items[0].writer, receive, sync) && AllFaithful(items[1..], receive, sync)
  }

  lemma {:induction false} EachFaithful(items: seq<Item>, receive: Receiver, sync: Relation)
    requires forall item <- items :: Faithful(item.writer, receive, sync)
    ensures AllFaithful(items, receive, sync)
  {
    if items != [] {
      assert items[0] in items;
      EachFaithful(items[1..], receive, sync);
    }
  }

  lemma {:induction false} QueueDelivered(receive: Receiver, sync: Relation, s: SendState, r: ReceiveState,
                                          items: seq<Item>, k: nat) returns (r': ReceiveState)
    requires AllFaithful(items, receive, sync) && sync(s, r)
    ensures Delivers(receive, r, WriteQueue(s, items), items, k, r')
    decreases items
  {
    r' := r;
    if items != [] {
      var w := WriteMessage(items[0].writer, s, items[0].message, 0);
      var r1 := MessageDelivered(items[0].writer, receive, sync, s, r, items[0].message, 0, k);
      r' := r1;
      var rest := Stream([], 0, 0);
      if w.done {
        rest := WriteQueue(w.state, items[1..]);
        r' := QueueDelivered(receive, sync, w.state, r1, items[1..], k + |w.sealed|);
      }
      assert WriteQueue(s, items) == Extended(w, rest);
      QueueExtended(receive, r, items, w, rest, k, r1, r');
    }
  }

  /** Items as a session's writer goroutine takes them off its queue, each in its own surroundings. */
  function SessionItems(c: Suite, utf8: Utf8, queue: seq<(Message, nat -> Attempt)>): seq<Item> {
    seq(|queue|, i requires 0 <= i < |queue| => Item(queue[i].0, SessionWriter(c, utf8, queue[i].1)))
  }

  /**
   * The end-to-end law. One peer writes a queue of messages, rekeying whenever frame limit or
   * interval says so, until done or failed; the other reads whatever prefix of the octets arrived,
   * however cut. Every frame read back was written, finds the receiver at the epoch and key that
   * sealed it, and is received without error; the messages delivered are the queue's, in order,
   * with none lost once all octets are in. No property of the cipher is used but `Correct`.
   */
  lemma FifoAcrossRekeys(c: Suite, utf8: Utf8, sessionId: Bytes16, key: Key, limit: uint64, interval: int, start: int,
                         graceFrames: uint64, gracePeriod: int, queue: seq<(Message, nat -> Attempt)>,
                         clock: nat -> (int, int), arrived: Bytes)
    requires var stream := WriteQueue(Sending.NewSendState(sessionId, key, limit, interval, start),
            SessionItems(c, utf8, queue));
             arrived <= Wire(FramesOf(stream.sealed))
    ensures var items := SessionItems(c, utf8, queue);
            var stream := WriteQueue(Sending.NewSendState(sessionId, key, limit, interval, start), items);
            var r := Receiving.NewReceiveState(sessionId, key, graceFrames, gracePeriod);
            var receive, got := SessionReceiver(c, utf8, clock), ReadAll(arrived);
            && stream.done <= stream.handed <= |items| && stream.handed <= stream.done + 1
            && got <= FramesOf(stream.sealed)
            && InStep(receive, r, stream.sealed[..|got|], 0)
            && Inbox(receive, r, got, 0) <= MessagesOf(items)[..stream.handed]
            && (arrived == Wire(FramesOf(stream.sealed)) ==>
                    Inbox(receive, r, got, 0) == MessagesOf(items)[..stream.handed])
  {
    var items := SessionItems(c, utf8, queue);
    var s := Sending.NewSendState(sessionId, key, limit, interval, start);
    var r := Receiving.NewReceiveState(sessionId, key, graceFrames, gracePeriod);
    var receive := SessionReceiver(c, utf8, clock);
    EmptyTracks();
    var sync := (s, r) => Synced(s, r) && !s.closed;
    forall item <- items ensures Faithful(item.writer, receive, sync) && SealsCanonical(item.writer) {
      var i :| 0 <= i < |items| && items[i] == item;
      SessionsFaithful(c, utf8, queue[i].1, clock);
      SessionSealsCanonical(c, utf8, queue[i].1);
    }
    EachFaithful(items, receive, sync);
    var r' := QueueDelivered(receive, sync, s, r, items, 0);
    QueueCanonical(s, items);
    StreamDelivered(receive, r, WriteQueue(s, items).sealed, arrived);
  }

  /** Every frame the writer seals can be marshalled and read back. */
  ghost predicate SealsCanonical(w: Writer) {
    forall s, m, i :: w.send(s, m, i).frame.Ok? ==> Canonical(w.send(s, m, i).frame.value)
  }

  lemma SessionSealsCanonical(c: Suite, utf8: Utf8, attempts: nat -> Attempt)
    ensures SealsCanonical(SessionWriter(c, utf8, attempts))
  {
    var w := SessionWriter(c, utf8, attempts);
    forall s, m, i: nat | w.send(s, m, i).frame.Ok? ensures Canonical(w.send(s, m, i).frame.value) {
      var a := attempts(i);
      SendCanonical(c, utf8, Raced(s, a.closedBeforeSend), m, a.draw, a.sendNow);
    }
  }

  lemma SendCanonical(c: Suite, utf8: Utf8, s: SendState, m: Message, draw: Draw, now: int)
    requires Sending.SendMessage(c, utf8, s, m, draw, now).frame.Ok?
    ensures Canonical(Sending.SendMessage(c, utf8, s, m, draw, now).frame.value)
  {
    if Sending.RekeyDue(s, now) {
      EncryptSeals(c, s.send, REKEY_INIT, s.sessionId, s.nextSequence,
          EncodeRekey(s.sendEpoch + 1, c.confirm(s.sendKey, s.sendEpoch + 1)), draw);
    } else {
      EncryptSeals(c, s.send, TypeOf(m), s.sessionId, s.nextSequence, Marshal(utf8, m).value, draw);
    }
  }

  lemma {:induction false} MessageCanonical(w: Writer, s: SendState, m: Message, i: nat)
    requires SealsCanonical(w)
    ensures forall f <- WriteMessage(w, s, m, i).sealed :: Canonical(f.frame)
    decreases MAX_UINT32 - s.sendEpoch
  {
    var sent := w.send(s, m, i);
    if sent.frame.Ok? && w.written(i) && sent.frame.value.header.messageType == REKEY_INIT {
      var (s', marked) := w.mark(sent.state, sent.frame.value, i);
      if marked.Ok? { MessageCanonical(w, s', m, i + 1); }
    }
  }

  lemma {:induction false} QueueCanonical(s: SendState, items: seq<Item>)
    requires forall item <- items :: SealsCanonical(item.writer)
    ensures forall f <- WriteQueue(s, items).sealed :: Canonical(f.frame)
    decreases items
  {
    if items != [] {
      assert items[0] in items;
      MessageCanonical(items[0].writer, s, items[0].message, 0);
      QueueCanonical(WriteMessage(items[0].writer, s, items[0].message, 0).state, items[1..]);
    }
  }

  lemma StreamDelivered(receive: Receiver, r: ReceiveState, sealed: seq<SealedFrame>, arrived: Bytes)
    requires InStep(receive, r, sealed, 0) && arrived <= Wire(FramesOf(sealed))
    requires forall f <- sealed :: Canonical(f.frame)
    ensures var got := ReadAll(arrived);
            && got <= FramesOf(sealed)
            && InStep(receive, r, sealed[..|got|], 0)
            && Inbox(receive, r, got, 0) <= Inbox(receive, r, FramesOf(sealed), 0)
            && (arrived == Wire(FramesOf(sealed)) ==> got == FramesOf(sealed))
  {
    ReadBackWritten(FramesOf(sealed), arrived);
    var got := ReadAll(arrived);
    assert got == FramesOf(sealed[..|got|]);
    InStepPrefix(receive, r, sealed, 0, |got|);
  }
}
