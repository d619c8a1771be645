/**
 * The sending half of a session: sequence allocation, the two-phase rekey, and what every
 * run of sends keeps. Clock readings are integers, random padding is a `Draw`.
 */
module Sending {
  import opened Basics
  import opened Frames
  import opened Crypto
  import opened Messages
  import opened Runs

  datatype PendingRekey = PendingRekey(frame: Frame, key: Key, codec: Codec, epoch: uint32)

  datatype SendState = SendState(
    sessionId: Bytes16,
    send: Codec, sendKey: Key, sendEpoch: uint32,
    nextSequence: uint64, sentInEpoch: uint64, epochStarted: int,
    rekeyFrameLimit: uint64, rekeyInterval: int,
    pending: Option<PendingRekey>, closed: bool)

  /** New state, what the caller gets, and the seals performed. */
  datatype SendResult = SendResult(state: SendState, frame: Result<Frame>, seals: seq<Sealing>)

  predicate ValidSessionMessageType(messageType: byte) {
    ENCRYPTED_DATA <= messageType <= ERROR_MESSAGE
  }

  function Fails(s: SendState, error: Error): SendResult { SendResult(s, Err(error), []) }

  function EncryptNext(c: Suite, s: SendState, messageType: byte, plaintext: Bytes, draw: Draw): SendResult {
    if s.nextSequence == 0 then Fails(s, SequenceExhausted)
    else
      var e := Encrypt(c, s.send, messageType, s.sessionId, s.nextSequence, plaintext, draw);
      if e.frame.Err? then SendResult(s, e.frame, e.seals)
      else
        SendResult(s.(nextSequence := Inc(s.nextSequence), sentInEpoch := Inc(s.sentInEpoch)),
                   e.frame, e.seals)
  }

  predicate RekeyDue(s: SendState, now: int) {
    || (s.rekeyFrameLimit != 0 && s.sentInEpoch >= s.rekeyFrameLimit)
    || (s.rekeyInterval > 0 && now >= s.epochStarted + s.rekeyInterval)
  }

  /** Seals a RekeyInit and holds it pending; the key changes only once it is marked sent. */
  function StartRekey(c: Suite, s: SendState, draw: Draw): SendResult {
    if s.sendEpoch == MAX_UINT32 then Fails(s, EpochExhausted)
    else
      var nextEpoch := s.sendEpoch + 1;
      var confirm := ComputeKeyConfirm(c, s.sendEpoch, s.sendKey, nextEpoch);
      if confirm.Err? then Fails(s, confirm.error)
      else
        var r := EncryptNext(c, s, REKEY_INIT, EncodeRekey(nextEpoch, confirm.value), draw);
        if r.frame.Err? then r
        else
          var key := c.next(s.sendKey);
          r.(state := r.state.(pending := Some(PendingRekey(r.frame.value, key, Codec(key), nextEpoch))))
  }

  function SendEncoded(c: Suite, s: SendState, messageType: byte, plaintext: Bytes, draw: Draw, now: int): SendResult {
    if !ValidSessionMessageType(messageType) then Fails(s, MessageTypeMismatch)
    else if s.closed then Fails(s, SessionClosed)
    else if s.pending.Some? then Fails(s, Error.RekeyPending)
    else if RekeyDue(s, now) then StartRekey(c, s, draw)
    else EncryptNext(c, s, messageType, plaintext, draw)
  }

  function SendPayload(c: Suite, s: SendState, messageType: byte, plaintext: Bytes, draw: Draw, now: int): SendResult {
    if messageType == RESUMPTION_TICKET || messageType == REKEY_INIT then Fails(s, MessageTypeMismatch)
    else SendEncoded(c, s, messageType, plaintext, draw, now)
  }

  function SendMessage(c: Suite, utf8: Utf8, s: SendState, m: Message, draw: Draw, now: int): SendResult {
    if m.RekeyInit? then Fails(s, MessageTypeMismatch)
    else
      var plaintext := Marshal(utf8, m);
      if plaintext.Err? then Fails(s, plaintext.error)
      else SendEncoded(c, s, TypeOf(m), plaintext.value, draw, now)
  }

  function MarkRekeySent(s: SendState, frame: Frame, now: int): (SendState, Result<()>) {
    if s.closed then (s, Err(SessionClosed))
    else if s.pending.None? || s.pending.value.frame != frame then (s, Err(Error.RekeyPending))
    else
      var p := s.pending.value;
      (s.(sendKey := p.key, send := p.codec, sendEpoch := p.epoch, nextSequence := 1, sentInEpoch := 0,
          epochStarted := now, pending := None),
       Ok(()))
  }

  function NewSendState(sessionId: Bytes16, key: Key, limit: uint64, interval: int, now: int): SendState {
    SendState(sessionId, Codec(key), key, 1, 1, 0, now, limit, interval, None, false)
  }

  /* ---------- whole runs ---------- */

  datatype SendEvent =
    | SendTyped(message: Message, draw: Draw, now: int)
    | SendRaw(messageType: byte, plaintext: Bytes, draw: Draw, now: int)
    | MarkSent(frame: Frame, now: int)
    | CloseSend

  /** One seal, labelled with the epoch, sequence and message type it was made for. */
  datatype SealEntry = SealEntry(epoch: nat, sequence: nat, messageType: byte, sealing: Sealing)

  function Act(c: Suite, utf8: Utf8, s: SendState, e: SendEvent): SendResult {
    match e
    case SendTyped(m, draw, now) => SendMessage(c, utf8, s, m, draw, now)
    case SendRaw(messageType, plaintext, draw, now) => SendPayload(c, s, messageType, plaintext, draw, now)
    case MarkSent(frame, now) =>
      var (s', r) := MarkRekeySent(s, frame, now);
      SendResult(s', if r.Ok? then Ok(frame) else Err(r.error), [])
    case CloseSend => Fails(s.(closed := true), SessionClosed)
  }

  /** The entries one event adds: its seals, under the epoch and sequence in force when it ran. */
  function Entries(s: SendState, r: SendResult): seq<SealEntry> {
    seq(|r.seals|, i requires 0 <= i < |r.seals| =>
      SealEntry(s.sendEpoch, s.nextSequence, if r.frame.Ok? then r.frame.value.header.messageType else 0, r.seals[i]))
  }

  function Step(c: Suite, utf8: Utf8, s: SendState, e: SendEvent): (SendState, seq<SealEntry>) {
    var r := Act(c, utf8, s, e);
    (r.state, Entries(s, r))
  }

  /** State and seal log after a run of sends, raw sends, marks and closes, failed ones included. */
  function SendRun(c: Suite, utf8: Utf8, s: SendState, events: seq<SendEvent>): (SendState, seq<SealEntry>) {
    Run((s, e) => Step(c, utf8, s, e), s, events)
  }

  /** b is the next seal after a: the next sequence of the same epoch, or the first after a RekeyInit. */
  predicate Follows(a: SealEntry, b: SealEntry) {
    || (b.epoch == a.epoch && b.sequence == a.sequence + 1 && a.messageType != REKEY_INIT)
    || (b.epoch == a.epoch + 1 && b.sequence == 1 && a.messageType == REKEY_INIT)
  }

  /** Seals come in epoch order, each epoch counting 1, 2, 3, ... and ending with its RekeyInit. */
  ghost predicate Chained(log: seq<SealEntry>) {
    && (log != [] ==> log[0].epoch == 1 && log[0].sequence == 1)
    && (forall i :: 0 < i < |log| ==> Follows(log[i - 1], log[i]))
  }

  /** Every seal used its epoch's key and its sequence's nonce, and authenticated its message type. */
  ghost predicate Keyed(c: Suite, root: Key, log: seq<SealEntry>) {
    forall e <- log :: 1 <= e.epoch <= MAX_UINT32 && 1 <= e.sequence < TWO64
                       && e.sealing.key == KeyAt(c, root, e.epoch) && e.sealing.nonce == Nonce(e.sequence)
                       && NamesType(e.sealing.aad, e.messageType)
  }

  /** Under a frame limit of at least one, ordinary frames stop at the limit and only a RekeyInit goes past it. */
  ghost predicate Limited(limit: nat, log: seq<SealEntry>) {
    limit > 0 ==> forall e <- log :: e.sequence <= if e.messageType == REKEY_INIT then limit + 1 else limit
  }

  /** How the state relates to the last seal made. */
  ghost predicate AtTip(s: SendState, log: seq<SealEntry>) {
    if log == [] then s.sendEpoch == 1 && s.sentInEpoch == 0 && s.pending.None?
    else
      var last := log[|log| - 1];
      || (last.epoch == s.sendEpoch && last.sequence == s.sentInEpoch
          && (s.pending.Some? <==> last.messageType == REKEY_INIT))
      || (last.messageType == REKEY_INIT && last.epoch + 1 == s.sendEpoch && s.sentInEpoch == 0 && s.pending.None?)
  }

  ghost predicate SendInv(c: Suite, root: Key, s: SendState, log: seq<SealEntry>) {
    && s.sendEpoch >= 1
    && s.sendKey == KeyAt(c, root, s.sendEpoch) && s.send == Codec(s.sendKey)
    && s.nextSequence == Inc(s.sentInEpoch)
    && (s.pending.Some? ==>
          var p := s.pending.value;
          && p.epoch == s.sendEpoch + 1 && p.key == c.next(s.sendKey) && p.codec == Codec(p.key)
          && p.frame.header.messageType == REKEY_INIT)
    && (0 < s.rekeyFrameLimit && s.pending.None? ==> s.sentInEpoch <= s.rekeyFrameLimit)
    && AtTip(s, log) && Chained(log) && Keyed(c, root, log) && Limited(s.rekeyFrameLimit, log)
  }

  lemma NewSendInv(c: Suite, sessionId: Bytes16, key: Key, limit: uint64, interval: int, now: int)
    ensures SendInv(c, key, NewSendState(sessionId, key, limit, interval, now), [])
  {
  }

  /** r is s with one frame sealed at the next sequence, nothing else touched but pending. */
  ghost predicate Sealed(s: SendState, r: SendResult, messageType: byte) {
    && r.frame.Ok? && r.frame.value.header.messageType == messageType
    && |r.seals| == 1 && r.seals[0].key == s.send.key && r.seals[0].nonce == Nonce(s.nextSequence)
    && NamesType(r.seals[0].aad, messageType)
    && s.nextSequence == s.sentInEpoch + 1
    && r.state == s.(nextSequence := Inc(s.nextSequence), sentInEpoch := s.sentInEpoch + 1, pending := r.state.pending)
  }

  /** What a send can do: nothing, one ordinary seal below the limit, or a RekeyInit held pending. */
  ghost predicate Outcome(c: Suite, s: SendState, r: SendResult) {
    || (r.frame.Err? && r.seals == [] && r.state == s)
    || (s.pending.None? && r.frame.Ok? && r.frame.value.header.messageType != REKEY_INIT
        && Sealed(s, r, r.frame.value.header.messageType) && r.state.pending.None?
        && (s.rekeyFrameLimit > 0 ==> s.sentInEpoch < s.rekeyFrameLimit))
    || (s.pending.None? && s.sendEpoch < MAX_UINT32 && Sealed(s, r, REKEY_INIT)
        && r.state.pending == Some(PendingRekey(r.frame.value, c.next(s.sendKey), Codec(c.next(s.sendKey)),
               s.sendEpoch + 1)))
  }

  lemma EncryptNextOutcome(c: Suite, s: SendState, messageType: byte, plaintext: Bytes, draw: Draw)
    requires s.nextSequence == Inc(s.sentInEpoch)
    ensures var r := EncryptNext(c, s, messageType, plaintext, draw);
            if r.frame.Err? then r.seals == [] && r.state == s
            else Sealed(s, r, messageType) && r.state.pending == s.pending
  {
    if s.nextSequence != 0 {
      EncryptLogs(c, s.send, messageType, s.sessionId, s.nextSequence, plaintext, draw);
    }
  }

  lemma SendOutcome(c: Suite, s: SendState, messageType: byte, plaintext: Bytes, draw: Draw, now: int)
    requires s.nextSequence == Inc(s.sentInEpoch) && s.sendEpoch >= 1 && messageType != REKEY_INIT
    ensures Outcome(c, s, SendEncoded(c, s, messageType, plaintext, draw, now))
  {
    if !ValidSessionMessageType(messageType) || s.closed || s.pending.Some? {
    } else if RekeyDue(s, now) {
      if s.sendEpoch < MAX_UINT32 {
        EncryptNextOutcome(c, s, REKEY_INIT, EncodeRekey(s.sendEpoch + 1, c.confirm(s.sendKey, s.sendEpoch + 1)), draw);
      }
    } else {
      EncryptNextOutcome(c, s, messageType, plaintext, draw);
    }
  }

  /** Extending the log by one seal under the current epoch and next sequence. */
  lemma ExtendLog(c: Suite, root: Key, s: SendState, log: seq<SealEntry>, entry: SealEntry)
    requires SendInv(c, root, s, log) && s.pending.None?
    requires entry.epoch == s.sendEpoch && entry.sequence == s.nextSequence == s.sentInEpoch + 1
    requires entry.sealing.key == s.send.key && entry.sealing.nonce == Nonce(s.nextSequence)
    requires NamesType(entry.sealing.aad, entry.messageType)
    requires s.rekeyFrameLimit > 0 && entry.messageType != REKEY_INIT ==> s.sentInEpoch < s.rekeyFrameLimit
    ensures Chained(log + [entry]) && Keyed(c, root, log + [entry]) && Limited(s.rekeyFrameLimit, log + [entry])
  {
    var log' := log + [entry];
    forall i | 0 < i < |log'| ensures Follows(log'[i - 1], log'[i]) {
      if i == |log| { assert Follows(log[|log| - 1], entry); }
    }
  }

  lemma OutcomeKeepsInv(c: Suite, root: Key, s: SendState, log: seq<SealEntry>, r: SendResult)
    requires SendInv(c, root, s, log) && Outcome(c, s, r)
    ensures SendInv(c, root, r.state, log + Entries(s, r))
  {
    if r.seals == [] {
      assert log + Entries(s, r) == log;
    } else {
      var entry := SealEntry(s.sendEpoch, s.nextSequence, r.frame.value.header.messageType, r.seals[0]);
      assert Entries(s, r) == [entry];
      ExtendLog(c, root, s, log, entry);
    }
  }

  lemma MarkKeepsInv(c: Suite, root: Key, s: SendState, log: seq<SealEntry>, frame: Frame, now: int)
    requires SendInv(c, root, s, log)
    ensures SendInv(c, root, MarkRekeySent(s, frame, now).0, log)
  {
  }

  lemma TypedOutcome(c: Suite, utf8: Utf8, s: SendState, m: Message, draw: Draw, now: int)
    requires s.nextSequence == Inc(s.sentInEpoch) && s.sendEpoch >= 1
    ensures Outcome(c, s, SendMessage(c, utf8, s, m, draw, now))
  {
    if !m.RekeyInit? && Marshal(utf8, m).Ok? { SendOutcome(c, s, TypeOf(m), Marshal(utf8, m).value, draw, now); }
  }

  lemma RawOutcome(c: Suite, s: SendState, messageType: byte, plaintext: Bytes, draw: Draw, now: int)
    requires s.nextSequence == Inc(s.sentInEpoch) && s.sendEpoch >= 1
    ensures Outcome(c, s, SendPayload(c, s, messageType, plaintext, draw, now))
  {
    if messageType != REKEY_INIT { SendOutcome(c, s, messageType, plaintext, draw, now); }
  }

  lemma StepKeepsInv(c: Suite, utf8: Utf8, root: Key, s: SendState, log: seq<SealEntry>, e: SendEvent)
    requires SendInv(c, root, s, log)
    ensures SendInv(c, root, Step(c, utf8, s, e).0, log + Step(c, utf8, s, e).1)
  {
    var r := Act(c, utf8, s, e);
    match e
    case SendTyped(m, draw, now) =>
      TypedOutcome(c, utf8, s, m, draw, now);
      OutcomeKeepsInv(c, root, s, log, r);
    case SendRaw(messageType, plaintext, draw, now) =>
      RawOutcome(c, s, messageType, plaintext, draw, now);
      OutcomeKeepsInv(c, root, s, log, r);
    case MarkSent(frame, now) =>
      MarkKeepsInv(c, root, s, log, frame, now);
      assert log + Entries(s, r) == log;
    case CloseSend =>
      assert log + Entries(s, r) == log;
  }

  /** Every run keeps the sender invariant. */
  lemma SendRunKeepsInv(c: Suite, utf8: Utf8, root: Key, s: SendState, events: seq<SendEvent>)
    requires SendInv(c, root, s, [])
    ensures var (s', log) := SendRun(c, utf8, s, events); SendInv(c, root, s', log)
  {
    var step := (s, e) => Step(c, utf8, s, e);
    var inv := (s, log) => SendInv(c, root, s, log);
    forall s, log, e | inv(s, log) ensures inv(step(s, e).0, log + step(s, e).1) {
      StepKeepsInv(c, utf8, root, s, log, e);
    }
    RunKeeps(step, inv, s, [], events);
    assert [] + SendRun(c, utf8, s, events).1 == SendRun(c, utf8, s, events).1;
  }

  /* ---------- what the chain means ---------- */

  lemma {:induction false} ChainOrdered(log: seq<SealEntry>, i: nat, j: nat)
    requires Chained(log) && i < j < |log|
    ensures log[i].epoch < log[j].epoch || (log[i].epoch == log[j].epoch && log[i].sequence < log[j].sequence)
    ensures log[i].messageType == REKEY_INIT ==> log[i].epoch < log[j].epoch
    decreases j
  {
    assert Follows(log[j - 1], log[j]);
    if i < j - 1 { ChainOrdered(log, i, j - 1); }
  }

  /** No two seals of a chained, keyed log share an epoch and a nonce; a RekeyInit ends its epoch. */
  ghost predicate Unrepeated(log: seq<SealEntry>) {
    forall i, j :: 0 <= i < j < |log| ==>
      && log[i].epoch <= log[j].epoch
      && (log[i].epoch == log[j].epoch ==>
            && log[i].sealing.nonce != log[j].sealing.nonce
            && log[i].sequence < log[j].sequence && log[i].messageType != REKEY_INIT)
  }

  /**
   * Over every run the AEAD is invoked at most once per (epoch, sequence), under that epoch's
   * key and that sequence's nonce; each epoch carries at most `limit` ordinary frames and then
   * at most one RekeyInit, its last.
   */
  lemma SealsNeverRepeat(c: Suite, utf8: Utf8, sessionId: Bytes16, root: Key, limit: uint64, interval: int,
                         start: int, events: seq<SendEvent>)
    ensures var (_, log) := SendRun(c, utf8, NewSendState(sessionId, root, limit, interval, start), events);
            Unrepeated(log) && Keyed(c, root, log) && Chained(log) && Limited(limit, log)
  {
    var s := NewSendState(sessionId, root, limit, interval, start);
    NewSendInv(c, sessionId, root, limit, interval, start);
    SendRunKeepsInv(c, utf8, root, s, events);
    SendRunKeepsLimit(c, utf8, s, events);
    var log := SendRun(c, utf8, s, events).1;
    ChainUnrepeated(c, root, log);
  }

  lemma ChainUnrepeated(c: Suite, root: Key, log: seq<SealEntry>)
    requires Chained(log) && Keyed(c, root, log)
    ensures Unrepeated(log)
  {
    forall i, j | 0 <= i < j < |log|
      ensures log[i].epoch <= log[j].epoch
      ensures log[i].epoch == log[j].epoch ==>
                && log[i].sealing.nonce != log[j].sealing.nonce
                && log[i].sequence < log[j].sequence && log[i].messageType != REKEY_INIT
    {
      ChainOrdered(log, i, j);
      assert log[i] in log && log[j] in log;
      if log[i].sealing.nonce == log[j].sealing.nonce { NonceInjective(log[i].sequence, log[j].sequence); }
    }
  }

  /** With a ratchet that does not repeat, no run seals twice under the same key and nonce. */
  lemma KeyNonceNeverRepeats(c: Suite, utf8: Utf8, sessionId: Bytes16, root: Key, limit: uint64, interval: int,
                             start: int, events: seq<SendEvent>)
    requires FreshKeys(c, root)
    ensures var log := SendRun(c, utf8, NewSendState(sessionId, root, limit, interval, start), events).1;
            forall i, j :: 0 <= i < j < |log| ==>
              log[i].sealing.key != log[j].sealing.key || log[i].sealing.nonce != log[j].sealing.nonce
  {
    SealsNeverRepeat(c, utf8, sessionId, root, limit, interval, start, events);
    var log := SendRun(c, utf8, NewSendState(sessionId, root, limit, interval, start), events).1;
    forall i, j | 0 <= i < j < |log|
      ensures log[i].sealing.key != log[j].sealing.key || log[i].sealing.nonce != log[j].sealing.nonce
    {
      assert log[i] in log && log[j] in log;
    }
  }

  /** Configuration never changes in a run. */
  lemma SendRunKeepsLimit(c: Suite, utf8: Utf8, s: SendState, events: seq<SendEvent>)
    ensures SendRun(c, utf8, s, events).0.rekeyFrameLimit == s.rekeyFrameLimit
  {
    var step := (s, e) => Step(c, utf8, s, e);
    var inv := (t: SendState, log: seq<SealEntry>) => t.rekeyFrameLimit == s.rekeyFrameLimit;
    RunKeeps(step, inv, s, [], events);
  }

  /** Neither typed nor raw sends seal while a rekey is pending; only the mark of its very frame resolves it. */
  lemma PendingStep(c: Suite, utf8: Utf8, s: SendState, e: SendEvent)
    requires s.pending.Some?
    ensures var r := Act(c, utf8, s, e);
            && r.seals == []
            && (|| r.state.pending == s.pending
                || (e.MarkSent? && e.frame == s.pending.value.frame && r.state.pending == None))
  {
  }

  /** Until it is marked sent, no run seals anything behind a pending rekey. */
  lemma {:induction false} PendingBlocksRun(c: Suite, utf8: Utf8, s: SendState, events: seq<SendEvent>)
    requires s.pending.Some? && forall e <- events :: e.MarkSent? ==> e.frame != s.pending.value.frame
    ensures var (s', log) := SendRun(c, utf8, s, events); s'.pending == s.pending && log == []
    decreases events
  {
    if events != [] {
      assert events[0] in events;
      PendingStep(c, utf8, s, events[0]);
      var (s', first) := Step(c, utf8, s, events[0]);
      PendingBlocksRun(c, utf8, s', events[1..]);
      assert first == [];
    }
  }

  /* ---------- when a rekey goes out ---------- */

  /** The seals made so far in the epoch, reading the log back from its end. */
  function SealsIn(log: seq<SealEntry>, epoch: nat): nat {
    if log == [] || log[|log| - 1].epoch != epoch then 0 else 1 + SealsIn(log[..|log| - 1], epoch)
  }

  lemma {:induction false} SealsCounted(log: seq<SealEntry>)
    requires Chained(log) && log != []
    ensures SealsIn(log, log[|log| - 1].epoch) == log[|log| - 1].sequence
  {
    var last, init := log[|log| - 1], log[..|log| - 1];
    if init != [] {
      assert Follows(log[|log| - 2], log[|log| - 1]);
      assert forall i :: 0 < i < |init| ==> Follows(init[i - 1], init[i]);
      SealsCounted(init);
    }
  }

  /** When the epoch in force after the run began: at the last mark that took effect, or at the start. */
  function Began(c: Suite, utf8: Utf8, s: SendState, events: seq<SendEvent>, began: int): int
    decreases events
  {
    if events == [] then began
    else
      var e := events[0];
      Began(c, utf8, Step(c, utf8, s, e).0, events[1..],
            if e.MarkSent? && MarkRekeySent(s, e.frame, e.now).1.Ok? then e.now else began)
  }

  lemma StepStarts(c: Suite, utf8: Utf8, s: SendState, e: SendEvent)
    ensures var s' := Act(c, utf8, s, e).state;
            && s'.epochStarted == (if e.MarkSent? && MarkRekeySent(s, e.frame, e.now).1.Ok? then e.now
                   else s.epochStarted)
            && s'.rekeyInterval == s.rekeyInterval
  {
  }

  lemma {:induction false} RunStarts(c: Suite, utf8: Utf8, s: SendState, events: seq<SendEvent>)
    ensures var s' := SendRun(c, utf8, s, events).0;
            s'.epochStarted == Began(c, utf8, s, events, s.epochStarted) && s'.rekeyInterval == s.rekeyInterval
    decreases events
  {
    if events != [] {
      StepStarts(c, utf8, s, events[0]);
      RunStarts(c, utf8, Step(c, utf8, s, events[0]).0, events[1..]);
    }
  }

  lemma DueSends(c: Suite, s: SendState, messageType: byte, plaintext: Bytes, draw: Draw, now: int)
    requires s.nextSequence == Inc(s.sentInEpoch) && s.sendEpoch >= 1 && messageType != REKEY_INIT
    requires SendEncoded(c, s, messageType, plaintext, draw, now).frame.Ok?
    ensures s.pending.None?
    ensures var sent := SendEncoded(c, s, messageType, plaintext, draw, now).frame.value.header.messageType;
            sent == if RekeyDue(s, now) then REKEY_INIT else messageType
  {
    if RekeyDue(s, now) {
      EncryptNextOutcome(c, s, REKEY_INIT, EncodeRekey(s.sendEpoch + 1, c.confirm(s.sendKey, s.sendEpoch + 1)), draw);
    } else {
      EncryptNextOutcome(c, s, messageType, plaintext, draw);
    }
  }

  lemma DueByLog(c: Suite, root: Key, s: SendState, log: seq<SealEntry>)
    requires SendInv(c, root, s, log) && s.pending.None?
    ensures s.sentInEpoch == SealsIn(log, s.sendEpoch)
  {
    if log != [] { SealsCounted(log); }
  }

  /**
   * After every run a send puts out a RekeyInit exactly when the epoch's seals have reached the limit, or the interval
   * has passed since the epoch began, both read off the history; otherwise it puts out what was asked for.
   */
  lemma RekeyExactlyWhenDue(c: Suite, utf8: Utf8, sessionId: Bytes16, root: Key, limit: uint64, interval: int,
                            start: int,
                            events: seq<SendEvent>, messageType: byte, plaintext: Bytes, draw: Draw, now: int)
    ensures var s0 := NewSendState(sessionId, root, limit, interval, start);
            var (s, log) := SendRun(c, utf8, s0, events);
            var r := SendPayload(c, s, messageType, plaintext, draw, now);
            r.frame.Ok? ==>
              var due := (limit > 0 && SealsIn(log, s.sendEpoch) >= limit)
                         || (interval > 0 && now >= Began(c, utf8, s0, events, start) + interval);
              r.frame.value.header.messageType == if due then REKEY_INIT else messageType
  {
    var s0 := NewSendState(sessionId, root, limit, interval, start);
    NewSendInv(c, sessionId, root, limit, interval, start);
    SendRunKeepsInv(c, utf8, root, s0, events);
    SendRunKeepsLimit(c, utf8, s0, events);
    RunStarts(c, utf8, s0, events);
    var (s, log) := SendRun(c, utf8, s0, events);
    if SendPayload(c, s, messageType, plaintext, draw, now).frame.Ok? {
      DueSends(c, s, messageType, plaintext, draw, now);
      DueByLog(c, root, s, log);
    }
  }

  /** When a raw send succeeds, exactly; a due RekeyInit always fits its frame. */
  lemma SendSucceedsExactly(c: Suite, s: SendState, messageType: byte, plaintext: Bytes, draw: Draw, now: int)
    requires s.nextSequence == Inc(s.sentInEpoch) && s.sendEpoch >= 1
    ensures SendPayload(c, s, messageType, plaintext, draw, now).frame.Ok? <==>
            && messageType in {ENCRYPTED_DATA, PING_PONG, SESSION_CLOSE, ACK, ERROR_MESSAGE}
            && !s.closed && s.pending.None? && s.nextSequence != 0 && s.sessionId != ZERO16 && draw.octets.Some?
            && if RekeyDue(s, now) then s.sendEpoch < MAX_UINT32 else FitsFrame(plaintext, draw.padLength)
  {
    if s.nextSequence != 0 {
      if !RekeyDue(s, now) {
        EncryptSucceeds(c, s.send, messageType, s.sessionId, s.nextSequence, plaintext, draw);
      } else if s.sendEpoch < MAX_UINT32 {
        var announcement := EncodeRekey(s.sendEpoch + 1, c.confirm(s.sendKey, s.sendEpoch + 1));
        EncryptSucceeds(c, s.send, REKEY_INIT, s.sessionId, s.nextSequence, announcement, draw);
      }
    }
  }

  /* ---------- sequences suffice ---------- */

  lemma EncryptNextErrors(c: Suite, s: SendState, messageType: byte, plaintext: Bytes, draw: Draw)
    requires s.nextSequence != 0
    ensures EncryptNext(c, s, messageType, plaintext, draw).frame != Err(SequenceExhausted)
  {
  }

  lemma SendErrors(c: Suite, s: SendState, messageType: byte, plaintext: Bytes, draw: Draw, now: int)
    requires s.pending.None? ==> s.nextSequence != 0
    ensures SendEncoded(c, s, messageType, plaintext, draw, now).frame != Err(SequenceExhausted)
  {
    if s.pending.None? {
      EncryptNextErrors(c, s, messageType, plaintext, draw);
      if s.sendEpoch < MAX_UINT32 {
        EncryptNextErrors(c, s, REKEY_INIT, EncodeRekey(s.sendEpoch + 1, c.confirm(s.sendKey, s.sendEpoch + 1)), draw);
      }
    }
  }

  lemma ActErrors(c: Suite, utf8: Utf8, s: SendState, e: SendEvent)
    requires s.pending.None? ==> s.nextSequence != 0
    ensures Act(c, utf8, s, e).frame != Err(SequenceExhausted)
  {
    match e
    case SendTyped(m, draw, now) =>
      MarshalErrors(utf8, m);
      if !m.RekeyInit? && Marshal(utf8, m).Ok? { SendErrors(c, s, TypeOf(m), Marshal(utf8, m).value, draw, now); }
    case SendRaw(messageType, plaintext, draw, now) => SendErrors(c, s, messageType, plaintext, draw, now);
    case MarkSent(frame, now) =>
    case CloseSend =>
  }

  /** With a frame limit in [1, 2^64 - 1), after no run does any event report the sequence exhausted. */
  lemma SequencesSuffice(c: Suite, utf8: Utf8, sessionId: Bytes16, root: Key, limit: uint64, interval: int, start: int,
                         events: seq<SendEvent>, e: SendEvent)
    requires 1 <= limit < MAX_UINT64
    ensures var s := SendRun(c, utf8, NewSendState(sessionId, root, limit, interval, start), events).0;
            Act(c, utf8, s, e).frame != Err(SequenceExhausted)
  {
    var s := NewSendState(sessionId, root, limit, interval, start);
    NewSendInv(c, sessionId, root, limit, interval, start);
    SendRunKeepsInv(c, utf8, root, s, events);
    SendRunKeepsLimit(c, utf8, s, events);
    ActErrors(c, utf8, SendRun(c, utf8, s, events).0, e);
  }

  /** A closed session seals nothing and changes nothing, in every run. */
  lemma ClosedSendsNothing(c: Suite, utf8: Utf8, s: SendState, events: seq<SendEvent>)
    requires s.closed
    ensures SendRun(c, utf8, s, events) == (s, [])
  {
    var step := (s, e) => Step(c, utf8, s, e);
    var inv := (t: SendState, log: seq<SealEntry>) => t == s && log == [];
    forall t, log, e | inv(t, log) ensures inv(step(t, e).0, log + step(t, e).1) { ClosedStep(c, utf8, s, e); }
    RunKeeps(step, inv, s, [], events);
    assert [] + SendRun(c, utf8, s, events).1 == SendRun(c, utf8, s, events).1;
  }

  lemma ClosedStep(c: Suite, utf8: Utf8, s: SendState, e: SendEvent)
    requires s.closed
    ensures Step(c, utf8, s, e) == (s, [])
  {
    var r := Act(c, utf8, s, e);
    assert r.state == s && r.seals == [];
    assert Entries(s, r) == [];
  }
}
