/**
 * The receiving half of a session: current key, retained previous key with its grace budget,
 * one replay window per key, and what every run of deliveries keeps. `now` and `later` are
 * the first and second clock readings of one call.
 */
module Receiving {
  import opened Basics
  import opened Frames
  import opened Crypto
  import opened Messages
  import opened Replay
  import opened Runs

  datatype ReceiveState = ReceiveState(
    sessionId: Bytes16,
    receive: Codec, receiveKey: Key, receiveEpoch: uint32, replay: Window,
    previous: Option<Codec>, previousReplay: Window,
    graceRemaining: uint64, graceUntil: int,
    graceFrames: uint64, gracePeriod: int, closed: bool)

  /** A payload that authenticated, with the key epoch that authenticated it. */
  datatype Acceptance = Acceptance(epoch: int, sequence: uint64, messageType: byte, current: bool, plaintext: Bytes)

  datatype ReceiveResult = ReceiveResult(state: ReceiveState, outcome: Result<Acceptance>)

  datatype Candidate = Candidate(plaintext: Bytes, current: bool, token: Token)

  predicate PreviousAvailable(r: ReceiveState, now: int) {
    r.previous.Some? && r.graceRemaining > 0 && r.gracePeriod > 0 && now < r.graceUntil
  }

  /** Current key first; the previous key only if the current one fails to authenticate. */
  function DecryptEpoch(c: SuiteFunctions, r: ReceiveState, frame: Frame, now: int): Result<Candidate> {
    var sequence := frame.header.sequence;
    if sequence == 0 then Err(ReplayZero)
    else
      match Decrypt(c, r.receive, frame)
      case Ok(plaintext) =>
        var token :- Check(r.replay, sequence);
        Ok(Candidate(plaintext, true, token))
      case Err(error) =>
        if error != Authentication then Err(error)
        else if !PreviousAvailable(r, now) then Err(Authentication)
        else
          match Decrypt(c, r.previous.value, frame)
          case Ok(plaintext) =>
            if frame.header.messageType == REKEY_INIT then Ok(Candidate(plaintext, false, Token(0, 0)))
            else
              var token :- Check(r.previousReplay, sequence);
              Ok(Candidate(plaintext, false, token))
          case Err(error) => Err(error)
  }

  function PrepareRekey(c: SuiteFunctions, r: ReceiveState, epoch: uint32, confirm: Bytes32): Result<Key> {
    if r.receiveEpoch == MAX_UINT32 then Err(EpochExhausted)
    else if epoch != r.receiveEpoch + 1 then Err(InvalidEpoch)
    else
      var expected :- ComputeKeyConfirm(c, r.receiveEpoch, r.receiveKey, epoch);
      if expected != confirm then Err(KeyConfirmFailed) else Ok(c.next(r.receiveKey))
  }

  /** Drops the previous key once either grace budget is spent. */
  function ExpireGrace(r: ReceiveState, now: int): ReceiveState {
    if r.previous.Some? && (r.graceRemaining == 0 || r.gracePeriod <= 0 || now >= r.graceUntil)
    then r.(previous := None, previousReplay := EMPTY, graceRemaining := 0, graceUntil := 0)
    else r
  }

  function Rejects(r: ReceiveState, error: Error): ReceiveResult { ReceiveResult(r, Err(error)) }

  function AcceptRekey(c: SuiteFunctions, r: ReceiveState, frame: Frame, candidate: Candidate, now: int,
                       later: int): ReceiveResult {
    match UnmarshalRekey(candidate.plaintext)
    case Err(error) => Rejects(r, error)
    case Ok((epoch, confirm)) =>
      match PrepareRekey(c, r, epoch, confirm)
      case Err(error) => Rejects(r, error)
      case Ok(nextKey) =>
        match Commit(r.replay, candidate.token)
        case Err(error) => Rejects(r, error)
        case Ok(committed) =>
          var moved := r.(previous := Some(r.receive), previousReplay := committed,
                          receive := Codec(nextKey), receiveKey := nextKey, receiveEpoch := epoch, replay := EMPTY,
                          graceRemaining := r.graceFrames, graceUntil := now + r.gracePeriod);
          ReceiveResult(ExpireGrace(moved, later),
                        Ok(Acceptance(r.receiveEpoch, frame.header.sequence, REKEY_INIT, true, candidate.plaintext)))
  }

  function AcceptCurrent(r: ReceiveState, frame: Frame, candidate: Candidate, now: int): ReceiveResult {
    match Commit(r.replay, candidate.token)
    case Err(error) => Rejects(r, error)
    case Ok(committed) =>
      var r' := r.(replay := committed);
      ReceiveResult(
        if r.previous.None? then r'
        else ExpireGrace(r'.(graceRemaining := if r.graceRemaining > 0 then r.graceRemaining - 1 else 0), now),
        Ok(Acceptance(r.receiveEpoch, frame.header.sequence, frame.header.messageType, true, candidate.plaintext)))
  }

  function AcceptPrevious(r: ReceiveState, frame: Frame, candidate: Candidate): ReceiveResult {
    match Commit(r.previousReplay, candidate.token)
    case Err(error) => Rejects(r, error)
    case Ok(committed) =>
      ReceiveResult(
        r.(previousReplay := committed),
        Ok(Acceptance(r.receiveEpoch - 1, frame.header.sequence, frame.header.messageType, false, candidate.plaintext)))
  }

  function ReceivePayload(c: SuiteFunctions, r: ReceiveState, frame: Frame, now: int, later: int): ReceiveResult {
    var messageType := frame.header.messageType;
    if messageType == RESUMPTION_TICKET then Rejects(r, MessageTypeMismatch)
    else if frame.header.sessionId != r.sessionId then Rejects(r, WrongSession)
    else if !(ENCRYPTED_DATA <= messageType <= ERROR_MESSAGE) then Rejects(r, MessageTypeMismatch)
    else if r.closed then Rejects(r, SessionClosed)
    else
      match DecryptEpoch(c, r, frame, now)
      case Err(error) => Rejects(r, error)
      case Ok(candidate) =>
        if messageType == REKEY_INIT then
          if !candidate.current then Rejects(r, InvalidEpoch) else AcceptRekey(c, r, frame, candidate, now, later)
        else if candidate.current then AcceptCurrent(r, frame, candidate, now)
        else AcceptPrevious(r, frame, candidate)
  }

  /** Typed receive: an authenticated but malformed payload has still consumed its sequence. */
  function Receive(c: SuiteFunctions, utf8: Utf8, r: ReceiveState, frame: Frame, now: int, later: int): (ReceiveState,
                   Result<Message>) {
    var result := ReceivePayload(c, r, frame, now, later);
    match result.outcome
    case Err(error) => (result.state, Err(error))
    case Ok(accepted) => (result.state, Unmarshal(utf8, frame.header.messageType, accepted.plaintext))
  }

  function NewReceiveState(sessionId: Bytes16, key: Key, graceFrames: uint64, gracePeriod: int): ReceiveState {
    ReceiveState(sessionId, Codec(key), key, 1, EMPTY, None, EMPTY, 0, 0, graceFrames, gracePeriod, false)
  }

  /* ---------- receive is a transaction ---------- */

  /** r after a rekey whose committed window is kept for the outgoing key. */
  function Moved(c: SuiteFunctions, r: ReceiveState, committed: Window, now: int, later: int): ReceiveState
    requires r.receiveEpoch < MAX_UINT32
  {
    ExpireGrace(r.(previous := Some(r.receive), previousReplay := committed,
                   receive := Codec(c.next(r.receiveKey)), receiveKey := c.next(r.receiveKey),
                   receiveEpoch := r.receiveEpoch + 1, replay := EMPTY,
                   graceRemaining := r.graceFrames, graceUntil := now + r.gracePeriod), later)
  }

  /** r after an ordinary current-epoch frame: the window moves on and one grace frame is spent. */
  function Spent(r: ReceiveState, committed: Window, now: int): ReceiveState {
    if r.previous.None? then r.(replay := committed)
    else
      var remaining := if r.graceRemaining > 0 then r.graceRemaining - 1 else 0;
      ExpireGrace(r.(replay := committed, graceRemaining := remaining), now)
  }

  /** w' is w with the fresh sequence recorded. */
  ghost predicate Records(w: Window, sequence: uint64, w': Window) {
    Check(w, sequence).Ok? && Commit(w, Token(sequence, w.generation)) == Ok(w')
  }

  ghost predicate RekeyAccepted(c: SuiteFunctions, r: ReceiveState, frame: Frame, now: int, later: int, a: Acceptance,
                                r': ReceiveState) {
    && a == Acceptance(r.receiveEpoch, frame.header.sequence, REKEY_INIT, true, a.plaintext)
    && frame.header.messageType == REKEY_INIT
    && Decrypt(c, r.receive, frame) == Ok(a.plaintext)
    && r.receiveEpoch < MAX_UINT32
    && UnmarshalRekey(a.plaintext) == Ok((r.receiveEpoch + 1, c.confirm(r.receiveKey, r.receiveEpoch + 1)))
    && exists committed :: Records(r.replay, a.sequence, committed) && r' == Moved(c, r, committed, now, later)
  }

  ghost predicate CurrentAccepted(c: SuiteFunctions, r: ReceiveState, frame: Frame, now: int, a: Acceptance,
                                  r': ReceiveState) {
    && a == Acceptance(r.receiveEpoch, frame.header.sequence, frame.header.messageType, true, a.plaintext)
    && frame.header.messageType != REKEY_INIT
    && Decrypt(c, r.receive, frame) == Ok(a.plaintext)
    && exists committed :: Records(r.replay, a.sequence, committed) && r' == Spent(r, committed, now)
  }

  ghost predicate PreviousAccepted(c: SuiteFunctions, r: ReceiveState, frame: Frame, now: int, a: Acceptance,
                                   r': ReceiveState) {
    && a == Acceptance(r.receiveEpoch - 1, frame.header.sequence, frame.header.messageType, false, a.plaintext)
    && frame.header.messageType != REKEY_INIT
    && PreviousAvailable(r, now)
    && Decrypt(c, r.receive, frame) == Err(Authentication)
    && Decrypt(c, r.previous.value, frame) == Ok(a.plaintext)
    && exists committed :: Records(r.previousReplay, a.sequence, committed) && r' == r.(previousReplay := committed)
  }

  /**
   * A rejected delivery leaves keys, epoch, windows and grace alone; an accepted one commits its
   * sequence (the commit after its own check never fails) and moves all state together.
   */
  ghost predicate Transaction(c: SuiteFunctions, r: ReceiveState, frame: Frame, now: int, later: int,
                              result: ReceiveResult) {
    match result.outcome
    case Err(_) => result.state == r
    case Ok(a) =>
      && !r.closed && frame.header.sessionId == r.sessionId
      && (|| RekeyAccepted(c, r, frame, now, later, a, result.state)
          || CurrentAccepted(c, r, frame, now, a, result.state)
          || PreviousAccepted(c, r, frame, now, a, result.state))
  }

  ghost predicate CandidateFacts(c: SuiteFunctions, r: ReceiveState, frame: Frame, now: int, candidate: Candidate) {
    if candidate.current then
      && Decrypt(c, r.receive, frame) == Ok(candidate.plaintext)
      && Check(r.replay, frame.header.sequence) == Ok(candidate.token)
    else
      && PreviousAvailable(r, now)
      && Decrypt(c, r.receive, frame) == Err(Authentication)
      && Decrypt(c, r.previous.value, frame) == Ok(candidate.plaintext)
      && (frame.header.messageType != REKEY_INIT ==>
              Check(r.previousReplay, frame.header.sequence) == Ok(candidate.token))
  }

  lemma DecryptEpochFacts(c: SuiteFunctions, r: ReceiveState, frame: Frame, now: int)
    requires DecryptEpoch(c, r, frame, now).Ok?
    ensures CandidateFacts(c, r, frame, now, DecryptEpoch(c, r, frame, now).value)
  {
  }

  lemma CheckRecords(w: Window, sequence: uint64)
    requires Check(w, sequence).Ok?
    ensures var token := Check(w, sequence).value;
            Commit(w, token).Ok? && Records(w, sequence, Commit(w, token).value)
  {
    CheckedCommitSucceeds(w, sequence);
  }

  lemma RekeyTransaction(c: SuiteFunctions, r: ReceiveState, frame: Frame, candidate: Candidate, now: int, later: int)
    requires candidate.current && frame.header.messageType == REKEY_INIT && CandidateFacts(c, r, frame, now, candidate)
    ensures var result := AcceptRekey(c, r, frame, candidate, now, later);
            if result.outcome.Err? then result.state == r
            else RekeyAccepted(c, r, frame, now, later, result.outcome.value, result.state)
  {
    CheckRecords(r.replay, frame.header.sequence);
    var committed := Commit(r.replay, candidate.token).value;
    var result := AcceptRekey(c, r, frame, candidate, now, later);
    if result.outcome.Ok? { assert result.state == Moved(c, r, committed, now, later); }
  }

  lemma CurrentTransaction(c: SuiteFunctions, r: ReceiveState, frame: Frame, candidate: Candidate, now: int)
    requires candidate.current && frame.header.messageType != REKEY_INIT && CandidateFacts(c, r, frame, now, candidate)
    ensures var result := AcceptCurrent(r, frame, candidate, now);
            result.outcome.Ok? && CurrentAccepted(c, r, frame, now, result.outcome.value, result.state)
  {
    CheckRecords(r.replay, frame.header.sequence);
    var committed := Commit(r.replay, candidate.token).value;
    assert AcceptCurrent(r, frame, candidate, now).state == Spent(r, committed, now);
  }

  lemma PreviousTransaction(c: SuiteFunctions, r: ReceiveState, frame: Frame, candidate: Candidate, now: int)
    requires !candidate.current && frame.header.messageType != REKEY_INIT && CandidateFacts(c, r, frame, now, candidate)
    ensures var result := AcceptPrevious(r, frame, candidate);
            result.outcome.Ok? && PreviousAccepted(c, r, frame, now, result.outcome.value, result.state)
  {
    CheckRecords(r.previousReplay, frame.header.sequence);
    var committed := Commit(r.previousReplay, candidate.token).value;
    assert AcceptPrevious(r, frame, candidate).state == r.(previousReplay := committed);
  }

  lemma ReceiveIsTransaction(c: SuiteFunctions, r: ReceiveState, frame: Frame, now: int, later: int)
    ensures Transaction(c, r, frame, now, later, ReceivePayload(c, r, frame, now, later))
  {
    if DecryptEpoch(c, r, frame, now).Ok? {
      var candidate := DecryptEpoch(c, r, frame, now).value;
      DecryptEpochFacts(c, r, frame, now);
      if frame.header.messageType != REKEY_INIT {
        if candidate.current { CurrentTransaction(c, r, frame, candidate, now); }
        else { PreviousTransaction(c, r, frame, candidate, now); }
      } else if candidate.current { RekeyTransaction(c, r, frame, candidate, now, later); }
    }
  }

  /* ---------- whole runs ---------- */

  datatype Delivery = Deliver(frame: Frame, now: int, later: int) | CloseReceive

  function Step(c: SuiteFunctions, r: ReceiveState, d: Delivery): (ReceiveState, seq<Acceptance>) {
    match d
    case CloseReceive => (r.(closed := true), [])
    case Deliver(frame, now, later) =>
      var result := ReceivePayload(c, r, frame, now, later);
      (result.state, Logged(result))
  }

  function Logged(result: ReceiveResult): seq<Acceptance> {
    if result.outcome.Ok? then [result.outcome.value] else []
  }

  /** State and acceptance log after a run of arbitrary deliveries: duplicated, reordered, injected. */
  function ReceiveRun(c: SuiteFunctions, r: ReceiveState, deliveries: seq<Delivery>): (ReceiveState, seq<Acceptance>) {
    Run((r, d) => Step(c, r, d), r, deliveries)
  }

  ghost function SeqsOf(log: seq<Acceptance>, epoch: int): set<nat> {
    set a | a in log && a.epoch == epoch :: a.sequence
  }

  function Rekeys(log: seq<Acceptance>): nat {
    if log == [] then 0 else Rekeys(log[..|log| - 1]) + if log[|log| - 1].messageType == REKEY_INIT then 1 else 0
  }

  /** Ordinary current-epoch frames accepted since the last accepted RekeyInit. */
  function Since(log: seq<Acceptance>): nat {
    if log == [] || log[|log| - 1].messageType == REKEY_INIT then 0
    else Since(log[..|log| - 1]) + if log[|log| - 1].current then 1 else 0
  }

  ghost predicate AtMostOnce(log: seq<Acceptance>) {
    forall i, j :: 0 <= i < j < |log| ==> log[i].epoch != log[j].epoch || log[i].sequence != log[j].sequence
  }

  /** Every acceptance is of the epoch then current or of its immediate predecessor. */
  ghost predicate Recent(log: seq<Acceptance>) {
    forall i :: 0 <= i < |log| ==>
      && log[i].epoch == (if log[i].current then 1 else 0) + Rekeys(log[..i])
      && (log[i].messageType == REKEY_INIT ==> log[i].current)
  }

  ghost predicate NotAhead(log: seq<Acceptance>, epoch: int) { forall a <- log :: a.epoch <= epoch }

  /** Epoch, keys and grace as the acceptance log dictates them. */
  ghost predicate Books(c: SuiteFunctions, root: Key, r: ReceiveState, log: seq<Acceptance>) {
    && r.receiveEpoch == 1 + Rekeys(log)
    && r.receiveKey == KeyAt(c, root, r.receiveEpoch) && r.receive == Codec(r.receiveKey)
    && NotAhead(log, r.receiveEpoch)
    && (r.previous.Some? ==>
          && r.receiveEpoch >= 2
          && r.previous == Some(Codec(KeyAt(c, root, r.receiveEpoch - 1)))
          && r.graceRemaining > 0 && r.graceRemaining + Since(log) == r.graceFrames)
  }

  /** Each window holds exactly the sequences accepted under its key. */
  ghost predicate Windows(r: ReceiveState, log: seq<Acceptance>) {
    && Tracks(r.replay, SeqsOf(log, r.receiveEpoch))
    && (r.previous.Some? ==> Tracks(r.previousReplay, SeqsOf(log, r.receiveEpoch - 1)))
  }

  ghost predicate Coherent(c: SuiteFunctions, root: Key, r: ReceiveState, log: seq<Acceptance>) {
    Books(c, root, r, log) && Windows(r, log) && AtMostOnce(log) && Recent(log)
  }

  /** Closing is of no concern to the invariant. */
  ghost predicate ReceiveInv(c: SuiteFunctions, root: Key, r: ReceiveState, log: seq<Acceptance>) {
    Coherent(c, root, r.(closed := false), log)
  }

  lemma InvBooks(c: SuiteFunctions, root: Key, r: ReceiveState, log: seq<Acceptance>)
    requires ReceiveInv(c, root, r, log)
    ensures Books(c, root, r.(closed := false), log)
  {
  }

  lemma NewReceiveInv(c: SuiteFunctions, sessionId: Bytes16, key: Key, graceFrames: uint64, gracePeriod: int)
    ensures ReceiveInv(c, key, NewReceiveState(sessionId, key, graceFrames, gracePeriod), [])
  {
    EmptyTracks();
    assert SeqsOf([], 1) == {};
  }

  lemma SeqsOfAppend(log: seq<Acceptance>, a: Acceptance, epoch: int)
    ensures SeqsOf(log + [a], epoch) == SeqsOf(log, epoch) + if a.epoch == epoch then {a.sequence} else {}
  {
  }

  lemma SeqsOfOther(log: seq<Acceptance>, a: Acceptance, epoch: int)
    requires a.epoch != epoch
    ensures SeqsOf(log + [a], epoch) == SeqsOf(log, epoch)
  {
  }

  /** a may come next in the log: fresh in its epoch, which is the current one or its predecessor. */
  ghost predicate Permitted(log: seq<Acceptance>, a: Acceptance) {
    && a.sequence !in SeqsOf(log, a.epoch)
    && a.epoch == (if a.current then 1 else 0) + Rekeys(log)
    && (a.messageType == REKEY_INIT ==> a.current)
  }

  lemma CountsAppend(log: seq<Acceptance>, a: Acceptance)
    ensures Rekeys(log + [a]) == Rekeys(log) + if a.messageType == REKEY_INIT then 1 else 0
    ensures Since(log + [a]) == if a.messageType == REKEY_INIT then 0 else Since(log) + if a.current then 1 else 0
  {
    assert (log + [a])[..|log + [a]| - 1] == log;
  }

  lemma PermittedKeepsLog(log: seq<Acceptance>, a: Acceptance)
    requires AtMostOnce(log) && Recent(log) && Permitted(log, a)
    ensures AtMostOnce(log + [a]) && Recent(log + [a])
  {
    var log' := log + [a];
    forall i | 0 <= i < |log'|
      ensures log'[i].epoch == (if log'[i].current then 1 else 0) + Rekeys(log'[..i])
      ensures log'[i].messageType == REKEY_INIT ==> log'[i].current
    {
      assert log'[..i] == log[..i];
      if i == |log| { assert log[..i] == log; }
    }
    forall i, j | 0 <= i < j < |log'| ensures log'[i].epoch != log'[j].epoch || log'[i].sequence != log'[j].sequence {
      if j == |log| { assert log'[i] in log; }
    }
  }

  lemma BooksKept(c: SuiteFunctions, root: Key, r: ReceiveState, log: seq<Acceptance>, a: Acceptance,
                  committed: Window, now: int, later: int)
    requires Books(c, root, r, log) && Permitted(log, a)
    ensures a.messageType == REKEY_INIT && r.receiveEpoch < MAX_UINT32 ==>
            Books(c, root, Moved(c, r, committed, now, later), log + [a])
    ensures a.messageType != REKEY_INIT && a.current ==> Books(c, root, Spent(r, committed, now), log + [a])
    ensures !a.current ==> Books(c, root, r.(previousReplay := committed), log + [a])
  {
    CountsAppend(log, a);
  }

  lemma WindowsRekeyed(c: SuiteFunctions, r: ReceiveState, log: seq<Acceptance>, a: Acceptance, committed: Window,
                       now: int, later: int)
    requires r.receiveEpoch < MAX_UINT32 && a.epoch == r.receiveEpoch && NotAhead(log, r.receiveEpoch)
    requires Tracks(committed, SeqsOf(log, a.epoch) + {a.sequence})
    ensures Windows(Moved(c, r, committed, now, later), log + [a])
  {
    SeqsOfAppend(log, a, r.receiveEpoch);
    assert SeqsOf(log + [a], r.receiveEpoch + 1) == {};
    EmptyTracks();
  }

  lemma WindowsSpent(r: ReceiveState, log: seq<Acceptance>, a: Acceptance, committed: Window, now: int)
    requires Windows(r, log) && a.epoch == r.receiveEpoch
    requires Tracks(committed, SeqsOf(log, a.epoch) + {a.sequence})
    ensures Windows(Spent(r, committed, now), log + [a])
  {
    SeqsOfAppend(log, a, r.receiveEpoch);
    SeqsOfOther(log, a, r.receiveEpoch - 1);
  }

  lemma WindowsPrevious(r: ReceiveState, log: seq<Acceptance>, a: Acceptance, committed: Window)
    requires Windows(r, log) && a.epoch == r.receiveEpoch - 1
    requires Tracks(committed, SeqsOf(log, a.epoch) + {a.sequence})
    ensures Windows(r.(previousReplay := committed), log + [a])
  {
    SeqsOfAppend(log, a, a.epoch);
    SeqsOfOther(log, a, r.receiveEpoch);
  }

  /** A recorded sequence was fresh, and the window then tracks it too. */
  lemma RecordsTracks(w: Window, committed: set<nat>, sequence: uint64, w': Window)
    requires Tracks(w, committed) && Records(w, sequence, w')
    ensures sequence !in committed && Tracks(w', committed + {sequence})
  {
    CommitTracks(w, committed, Token(sequence, w.generation));
  }

  lemma RekeyKeeps(c: SuiteFunctions, root: Key, r: ReceiveState, log: seq<Acceptance>, a: Acceptance,
                   committed: Window, now: int, later: int)
    requires Coherent(c, root, r, log) && Recorded(log, a, committed) && a.messageType == REKEY_INIT
    requires r.receiveEpoch < MAX_UINT32
    ensures Coherent(c, root, Moved(c, r, committed, now, later), log + [a])
  {
    BooksKept(c, root, r, log, a, committed, now, later);
    WindowsRekeyed(c, r, log, a, committed, now, later);
    PermittedKeepsLog(log, a);
  }

  lemma CurrentKeeps(c: SuiteFunctions, root: Key, r: ReceiveState, log: seq<Acceptance>, a: Acceptance,
                     committed: Window, now: int)
    requires Coherent(c, root, r, log) && Recorded(log, a, committed) && a.messageType != REKEY_INIT && a.current
    ensures Coherent(c, root, Spent(r, committed, now), log + [a])
  {
    BooksKept(c, root, r, log, a, committed, now, now);
    WindowsSpent(r, log, a, committed, now);
    PermittedKeepsLog(log, a);
  }

  lemma PreviousKeeps(c: SuiteFunctions, root: Key, r: ReceiveState, log: seq<Acceptance>, a: Acceptance,
                      committed: Window)
    requires Coherent(c, root, r, log) && Recorded(log, a, committed) && !a.current
    ensures Coherent(c, root, r.(previousReplay := committed), log + [a])
  {
    BooksKept(c, root, r, log, a, committed, 0, 0);
    WindowsPrevious(r, log, a, committed);
    PermittedKeepsLog(log, a);
  }

  /** The part of the invariant an acceptance is checked against. */
  ghost predicate Ready(r: ReceiveState, log: seq<Acceptance>) { r.receiveEpoch == 1 + Rekeys(log) && Windows(r, log) }

  /** committed records a in the window of a's epoch, where a was fresh. */
  ghost predicate Recorded(log: seq<Acceptance>, a: Acceptance, committed: Window) {
    Permitted(log, a) && Tracks(committed, SeqsOf(log, a.epoch) + {a.sequence})
  }

  lemma RekeyRecorded(c: SuiteFunctions, r: ReceiveState, log: seq<Acceptance>, frame: Frame, now: int, later: int,
                      a: Acceptance, r': ReceiveState) returns (committed: Window)
    requires Ready(r, log) && RekeyAccepted(c, r, frame, now, later, a, r')
    ensures Recorded(log, a, committed) && r.receiveEpoch < MAX_UINT32 && r' == Moved(c, r, committed, now, later)
    ensures a.messageType == REKEY_INIT && r'.closed == r.closed
  {
    committed :| Records(r.replay, a.sequence, committed) && r' == Moved(c, r, committed, now, later);
    RecordsTracks(r.replay, SeqsOf(log, r.receiveEpoch), a.sequence, committed);
  }

  lemma CurrentRecorded(c: SuiteFunctions, r: ReceiveState, log: seq<Acceptance>, frame: Frame, now: int,
                        a: Acceptance, r': ReceiveState) returns (committed: Window)
    requires Ready(r, log) && CurrentAccepted(c, r, frame, now, a, r')
    ensures Recorded(log, a, committed) && r' == Spent(r, committed, now)
    ensures a.messageType != REKEY_INIT && a.current && r'.closed == r.closed
  {
    committed :| Records(r.replay, a.sequence, committed) && r' == Spent(r, committed, now);
    RecordsTracks(r.replay, SeqsOf(log, r.receiveEpoch), a.sequence, committed);
  }

  lemma PreviousRecorded(c: SuiteFunctions, r: ReceiveState, log: seq<Acceptance>, frame: Frame, now: int,
                         a: Acceptance, r': ReceiveState) returns (committed: Window)
    requires Ready(r, log) && PreviousAccepted(c, r, frame, now, a, r')
    ensures Recorded(log, a, committed) && r' == r.(previousReplay := committed)
    ensures !a.current && r'.closed == r.closed
  {
    committed :| Records(r.previousReplay, a.sequence, committed) && r' == r.(previousReplay := committed);
    RecordsTracks(r.previousReplay, SeqsOf(log, r.receiveEpoch - 1), a.sequence, committed);
  }

  lemma RekeyAcceptedKeeps(c: SuiteFunctions, root: Key, r: ReceiveState, log: seq<Acceptance>, frame: Frame,
                           now: int, later: int, a: Acceptance, r': ReceiveState)
    requires Coherent(c, root, r, log) && Ready(r, log) && RekeyAccepted(c, r, frame, now, later, a, r')
    ensures Coherent(c, root, r', log + [a]) && r'.closed == r.closed
  {
    var committed := RekeyRecorded(c, r, log, frame, now, later, a, r');
    RekeyKeeps(c, root, r, log, a, committed, now, later);
  }

  lemma CurrentAcceptedKeeps(c: SuiteFunctions, root: Key, r: ReceiveState, log: seq<Acceptance>, frame: Frame,
                             now: int, a: Acceptance, r': ReceiveState)
    requires Coherent(c, root, r, log) && Ready(r, log) && CurrentAccepted(c, r, frame, now, a, r')
    ensures Coherent(c, root, r', log + [a]) && r'.closed == r.closed
  {
    var committed := CurrentRecorded(c, r, log, frame, now, a, r');
    CurrentKeeps(c, root, r, log, a, committed, now);
  }

  lemma PreviousAcceptedKeeps(c: SuiteFunctions, root: Key, r: ReceiveState, log: seq<Acceptance>, frame: Frame,
                              now: int, a: Acceptance, r': ReceiveState)
    requires Coherent(c, root, r, log) && Ready(r, log) && PreviousAccepted(c, r, frame, now, a, r')
    ensures Coherent(c, root, r', log + [a]) && r'.closed == r.closed
  {
    var committed := PreviousRecorded(c, r, log, frame, now, a, r');
    PreviousKeeps(c, root, r, log, a, committed);
  }

  lemma CoherentReady(c: SuiteFunctions, root: Key, r: ReceiveState, log: seq<Acceptance>)
    requires Coherent(c, root, r, log)
    ensures Ready(r, log)
  {
  }

  lemma AcceptKeepsInv(c: SuiteFunctions, root: Key, r: ReceiveState, log: seq<Acceptance>, frame: Frame, now: int,
                       later: int, a: Acceptance, r': ReceiveState)
    requires Coherent(c, root, r, log)
    requires || RekeyAccepted(c, r, frame, now, later, a, r')
             || CurrentAccepted(c, r, frame, now, a, r')
             || PreviousAccepted(c, r, frame, now, a, r')
    ensures Coherent(c, root, r', log + [a]) && r'.closed == r.closed
  {
    CoherentReady(c, root, r, log);
    if RekeyAccepted(c, r, frame, now, later, a, r') {
      RekeyAcceptedKeeps(c, root, r, log, frame, now, later, a, r');
    } else if CurrentAccepted(c, r, frame, now, a, r') {
      CurrentAcceptedKeeps(c, root, r, log, frame, now, a, r');
    } else {
      PreviousAcceptedKeeps(c, root, r, log, frame, now, a, r');
    }
  }

  lemma TransactionKeepsInv(c: SuiteFunctions, root: Key, r: ReceiveState, log: seq<Acceptance>, frame: Frame,
                            now: int, later: int, result: ReceiveResult)
    requires ReceiveInv(c, root, r, log) && Transaction(c, r, frame, now, later, result)
    ensures ReceiveInv(c, root, result.state, log + Logged(result))
  {
    if result.outcome.Ok? {
      assert r.(closed := false) == r;
      AcceptKeepsInv(c, root, r, log, frame, now, later, result.outcome.value, result.state);
      assert result.state.(closed := false) == result.state;
    } else {
      assert log + [] == log;
    }
  }

  lemma CloseKeepsInv(c: SuiteFunctions, root: Key, r: ReceiveState, log: seq<Acceptance>)
    requires ReceiveInv(c, root, r, log)
    ensures ReceiveInv(c, root, r.(closed := true), log)
  {
    assert r.(closed := true).(closed := false) == r.(closed := false);
  }

  lemma StepKeepsInv(c: SuiteFunctions, root: Key, r: ReceiveState, log: seq<Acceptance>, d: Delivery)
    requires ReceiveInv(c, root, r, log)
    ensures ReceiveInv(c, root, Step(c, r, d).0, log + Step(c, r, d).1)
  {
    match d
    case CloseReceive =>
      CloseKeepsInv(c, root, r, log);
      assert log + [] == log;
    case Deliver(frame, now, later) =>
      ReceiveIsTransaction(c, r, frame, now, later);
      TransactionKeepsInv(c, root, r, log, frame, now, later, ReceivePayload(c, r, frame, now, later));
  }

  /**
   * Under any duplication, reordering or injection, and with no assumption on the cipher, every
   * run accepts each (epoch, sequence) at most once, only from the current epoch or its immediate
   * predecessor; both windows hold exactly the accepted sequences of their epochs, and while the
   * previous key is kept its budget is what current-epoch frames have left of it.
   */
  lemma AcceptedAtMostOnce(c: SuiteFunctions, sessionId: Bytes16, root: Key, graceFrames: uint64, gracePeriod: int,
                           deliveries: seq<Delivery>)
    ensures var (r, log) := ReceiveRun(c, NewReceiveState(sessionId, root, graceFrames, gracePeriod), deliveries);
            AtMostOnce(log) && Recent(log) && ReceiveInv(c, root, r, log)
  {
    NewReceiveInv(c, sessionId, root, graceFrames, gracePeriod);
    ReceiveRunKeepsInv(c, root, NewReceiveState(sessionId, root, graceFrames, gracePeriod), [], deliveries);
    var (r, log) := ReceiveRun(c, NewReceiveState(sessionId, root, graceFrames, gracePeriod), deliveries);
    assert [] + log == log;
  }

  lemma ReceiveRunKeepsInv(c: SuiteFunctions, root: Key, r: ReceiveState, log: seq<Acceptance>,
                           deliveries: seq<Delivery>)
    requires ReceiveInv(c, root, r, log)
    ensures var (r', more) := ReceiveRun(c, r, deliveries); ReceiveInv(c, root, r', log + more)
  {
    var step := (r, d) => Step(c, r, d);
    var inv := (r, log) => ReceiveInv(c, root, r, log);
    forall r, log, d | inv(r, log) ensures inv(step(r, d).0, log + step(r, d).1) {
      StepKeepsInv(c, root, r, log, d);
    }
    RunKeeps(step, inv, r, log, deliveries);
  }

  lemma StepKeepsConfig(c: SuiteFunctions, r: ReceiveState, d: Delivery)
    ensures Step(c, r, d).0.graceFrames == r.graceFrames
  {
    if d.Deliver? { ReceiveIsTransaction(c, r, d.frame, d.now, d.later); }
  }

  /**
   * In every run, while the previous key is kept, what is left of its budget and the ordinary current-epoch frames
   * accepted since the last transition add up to graceFrames; previous-epoch frames spend nothing.
   */
  lemma GraceAccounting(c: SuiteFunctions, sessionId: Bytes16, root: Key, graceFrames: uint64, gracePeriod: int,
                        deliveries: seq<Delivery>)
    ensures var (r, log) := ReceiveRun(c, NewReceiveState(sessionId, root, graceFrames, gracePeriod), deliveries);
            r.previous.Some? ==> r.graceRemaining > 0 && r.graceRemaining + Since(log) == graceFrames
  {
    var r := NewReceiveState(sessionId, root, graceFrames, gracePeriod);
    AcceptedAtMostOnce(c, sessionId, root, graceFrames, gracePeriod, deliveries);
    var step := (r, d) => Step(c, r, d);
    var inv := (r: ReceiveState, log: seq<Acceptance>) => r.graceFrames == graceFrames;
    forall r, log, d | inv(r, log) ensures inv(step(r, d).0, log + step(r, d).1) { StepKeepsConfig(c, r, d); }
    RunKeeps(step, inv, r, [], deliveries);
  }

  /* ---------- an expired key stays expired ---------- */

  /** Epoch p can no longer be accepted by r at any time from clock on. */
  ghost predicate Dead(p: int, r: ReceiveState, clock: int) {
    p + 1 < r.receiveEpoch || (p + 1 == r.receiveEpoch && (r.previous.None? || clock >= r.graceUntil))
  }

  ghost predicate NonDecreasing(clock: int, deliveries: seq<Delivery>)
    decreases deliveries
  {
    deliveries == [] ||
    match deliveries[0]
    case CloseReceive => NonDecreasing(clock, deliveries[1..])
    case Deliver(_, now, later) => clock <= now <= later && NonDecreasing(later, deliveries[1..])
  }

  lemma StepKeepsDead(c: SuiteFunctions, p: int, r: ReceiveState, clock: int, frame: Frame, now: int, later: int)
    requires Dead(p, r, clock) && clock <= now <= later
    ensures var (r', accepted) := Step(c, r, Deliver(frame, now, later));
            Dead(p, r', later) && forall a <- accepted :: a.epoch != p
  {
    ReceiveIsTransaction(c, r, frame, now, later);
  }

  /** With a clock that never goes back, an epoch whose key was dropped or has expired never accepts again. */
  lemma {:induction false} DeadEpochNeverAccepts(c: SuiteFunctions, p: int, r: ReceiveState, clock: int,
                                                 deliveries: seq<Delivery>)
    requires Dead(p, r, clock) && NonDecreasing(clock, deliveries)
    ensures forall a <- ReceiveRun(c, r, deliveries).1 :: a.epoch != p
    decreases deliveries
  {
    if deliveries != [] {
      var (r', accepted) := Step(c, r, deliveries[0]);
      match deliveries[0] {
        case CloseReceive => DeadEpochNeverAccepts(c, p, r', clock, deliveries[1..]);
        case Deliver(frame, now, later) =>
          StepKeepsDead(c, p, r, clock, frame, now, later);
          DeadEpochNeverAccepts(c, p, r', later, deliveries[1..]);
      }
      assert ReceiveRun(c, r, deliveries).1 == accepted + ReceiveRun(c, r', deliveries[1..]).1;
    }
  }

  /* ---------- nothing fresh is refused ---------- */

  /** The window of this epoch still reaches back to the sequence. */
  predicate InReach(w: Window, sequence: uint64) { sequence > w.highest || w.highest - sequence < WINDOW_SIZE }

  /** An authentic ordinary frame of the current epoch is accepted exactly when it is new and in reach. */
  lemma CurrentAcceptedExactly(c: SuiteFunctions, r: ReceiveState, log: seq<Acceptance>, frame: Frame,
                               plaintext: Bytes, now: int, later: int)
    requires Ready(r, log) && !r.closed && frame.header.sessionId == r.sessionId
    requires frame.header.messageType != REKEY_INIT && Decrypt(c, r.receive, frame) == Ok(plaintext)
    ensures ReceivePayload(c, r, frame, now, later).outcome.Ok? <==>
            frame.header.sequence !in SeqsOf(log, r.receiveEpoch) && InReach(r.replay, frame.header.sequence)
  {
    CheckExact(r.replay, SeqsOf(log, r.receiveEpoch), frame.header.sequence);
    if Check(r.replay, frame.header.sequence).Ok? { CheckedCommitSucceeds(r.replay, frame.header.sequence); }
  }

  /** One of the previous epoch, exactly when its key is still in grace and it is new and in reach there. */
  lemma PreviousAcceptedExactly(c: SuiteFunctions, r: ReceiveState, log: seq<Acceptance>, frame: Frame,
                                plaintext: Bytes, now: int, later: int)
    requires Ready(r, log) && !r.closed && frame.header.sessionId == r.sessionId && r.previous.Some?
    requires frame.header.messageType != REKEY_INIT
    requires Decrypt(c, r.receive, frame) == Err(Authentication) && Decrypt(c, r.previous.value, frame) == Ok(plaintext)
    ensures ReceivePayload(c, r, frame, now, later).outcome.Ok? <==>
            && r.graceRemaining > 0 && r.gracePeriod > 0 && now < r.graceUntil
            && frame.header.sequence !in SeqsOf(log, r.receiveEpoch - 1)
            && InReach(r.previousReplay, frame.header.sequence)
  {
    CheckExact(r.previousReplay, SeqsOf(log, r.receiveEpoch - 1), frame.header.sequence);
    if Check(r.previousReplay, frame.header.sequence).Ok? {
      CheckedCommitSucceeds(r.previousReplay, frame.header.sequence);
    }
  }

  /**
   * An authentic RekeyInit, exactly when it is new, in reach, and announces the next epoch with the right
   * confirmation.
   */
  lemma RekeyAcceptedExactly(c: SuiteFunctions, r: ReceiveState, log: seq<Acceptance>, frame: Frame, plaintext: Bytes,
                             now: int, later: int)
    requires Ready(r, log) && !r.closed && frame.header.sessionId == r.sessionId
    requires frame.header.messageType == REKEY_INIT && Decrypt(c, r.receive, frame) == Ok(plaintext)
    ensures ReceivePayload(c, r, frame, now, later).outcome.Ok? <==>
            && frame.header.sequence !in SeqsOf(log, r.receiveEpoch) && InReach(r.replay, frame.header.sequence)
            && r.receiveEpoch < MAX_UINT32
            && UnmarshalRekey(plaintext) == Ok((r.receiveEpoch + 1, c.confirm(r.receiveKey, r.receiveEpoch + 1)))
  {
    CheckExact(r.replay, SeqsOf(log, r.receiveEpoch), frame.header.sequence);
    if Check(r.replay, frame.header.sequence).Ok? { CheckedCommitSucceeds(r.replay, frame.header.sequence); }
  }
}
