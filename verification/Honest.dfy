/**
 * The hypothesis of module Network can be met. If keys of different epochs do not open each other's frames, every
 * network that delivers only frames the sender made, in any order and any number of times, is genuine; a suite
 * with such keys exists, and its genuine runs go through every epoch.
 */
module Honest {
  import opened Basics
  import opened Frames
  import opened Crypto
  import opened Messages
  import opened Runs
  import opened Network
  import Fifo
  import Receiving
  import Replay
  import Sending

  /** A frame sealed in one epoch does not open in another. */
  ghost predicate Separates(c: Suite, root: Key) {
    forall i: nat, j: nat, n: Bytes, a: Bytes, p: Bytes ::
      1 <= i <= MAX_UINT32 && 1 <= j <= MAX_UINT32 ==>
        c.open(KeyAt(c, root, j), n, a, c.seal(KeyAt(c, root, i), n, a, p)).Some? ==> i == j
  }

  lemma SeparateKeysAreFresh(c: Suite, root: Key)
    requires Separates(c, root)
    ensures FreshKeys(c, root)
  {
    forall i: nat, j: nat | 1 <= i < j <= MAX_UINT32 ensures KeyAt(c, root, i) != KeyAt(c, root, j) {
      assert c.open(KeyAt(c, root, i), [], [], c.seal(KeyAt(c, root, i), [], [], [])).Some?;
    }
  }

  /* ---------- honest deliveries ---------- */

  /** frame is what this seal produced. */
  ghost predicate Carries(c: Suite, s: Sealing, frame: Frame) {
    && s.nonce == Nonce(frame.header.sequence) && s.aad == Aad(frame)
    && frame.payload + frame.tag == c.seal(s.key, s.nonce, s.aad, s.plaintext)
  }

  /** The sender made this frame. */
  ghost predicate Own(c: Suite, sealed: seq<Sending.SealEntry>, frame: Frame) {
    exists e :: e in sealed && Carries(c, e.sealing, frame)
  }

  /** The network may keep, repeat and reorder frames, but makes none of its own. */
  ghost predicate Honest(c: Suite, n: Net, e: Event) {
    e.AtReceiver? && e.delivery.Deliver? ==> Own(c, n.sealed, e.delivery.frame)
  }

  lemma OwnOpensOnlySealed(c: Suite, root: Key, sealed: seq<Sending.SealEntry>, codec: Codec, epoch: nat, frame: Frame)
    requires Separates(c, root) && Sending.Keyed(c, root, sealed) && Own(c, sealed, frame)
    requires 1 <= epoch <= MAX_UINT32 && codec.key == KeyAt(c, root, epoch)
    ensures OpensOnlySealed(c, sealed, codec, frame)
  {
    var e :| e in sealed && Carries(c, e.sealing, frame);
    if Decrypt(c, codec, frame).Ok? {
      assert c.open(codec.key, e.sealing.nonce, e.sealing.aad, frame.payload + frame.tag).Some?;
      assert e.epoch == epoch;
    }
  }

  lemma HonestIsGenuine(c: Suite, root: Key, n: Net, e: Event)
    requires Separates(c, root) && NetInv(c, root, n) && Honest(c, n, e)
    ensures Genuine(c, n, e)
  {
    if e.AtReceiver? && e.delivery.Deliver? {
      var r, frame := n.receiver, e.delivery.frame;
      InvKeys(c, root, r, n.accepted);
      OwnOpensOnlySealed(c, root, n.sealed, r.receive, r.receiveEpoch, frame);
      if r.previous.Some? { OwnOpensOnlySealed(c, root, n.sealed, r.previous.value, r.receiveEpoch - 1, frame); }
    }
  }

  ghost predicate HonestRun(c: Suite, utf8: Utf8, n: Net, events: seq<Event>) {
    Permits((n, e) => Step(c, utf8, n, e), (n, e) => Honest(c, n, e), n, events)
  }

  /** Every run of an honest network satisfies the hypothesis, through any number of rekeys. */
  lemma {:induction false} HonestRunsAreGenuine(c: Suite, utf8: Utf8, root: Key, n: Net, events: seq<Event>)
    requires Separates(c, root) && NetInv(c, root, n) && HonestRun(c, utf8, n, events)
    ensures GenuineRun(c, utf8, n, events)
    decreases events
  {
    if events != [] {
      HonestIsGenuine(c, root, n, events[0]);
      SeparateKeysAreFresh(c, root);
      StepKeepsInv(c, utf8, root, n, events[0]);
      HonestRunsAreGenuine(c, utf8, root, Step(c, utf8, n, events[0]), events[1..]);
    }
  }

  /* ---------- a suite whose keys separate ---------- */

  const ROOT: Key := ZERO16 + ZERO16

  /** A cipher that hides nothing: its tag is the front of the key, and the ratchet counts there. */
  function CountingFunctions(): (c: SuiteFunctions)
    ensures Correct(c)
  {
    SuiteFunctions(
      (k: Key, n, a, p) => p + k[..TAG_SIZE],
      (k: Key, n, a, s) =>
        if |s| >= TAG_SIZE && s[|s| - TAG_SIZE..] == k[..TAG_SIZE] then Some(s[..|s| - TAG_SIZE]) else None,
      (k: Key) => PutLE((GetLE(k[..4]) + 1) % TWO32, 4) + k[4..],
      (k, e) => k)
  }

  function CountingSuite(): Suite { CountingFunctions() }

  lemma RatchetCounts(k: Key)
    ensures GetLE(CountingSuite().next(k)[..4]) == (GetLE(k[..4]) + 1) % TWO32
  {
    var n := (GetLE(k[..4]) + 1) % TWO32;
    assert CountingSuite().next(k)[..4] == PutLE(n, 4);
    FieldWidths();
    GetPutLE(n, 4);
  }

  lemma {:induction false} ZeroCounter(s: Bytes)
    requires AllZero(s)
    ensures GetLE(s) == 0
  {
    if s != [] { ZeroCounter(s[1..]); }
  }

  /** A ratchet that counts in the front of the key tells epochs apart. */
  lemma {:induction false} CountsUp(c: SuiteFunctions, root: Key, epoch: nat)
    requires 1 <= epoch <= MAX_UINT32 && GetLE(root[..4]) == 0
    requires forall k: Key :: GetLE(c.next(k)[..4]) == (GetLE(k[..4]) + 1) % TWO32
    ensures GetLE(KeyAt(c, root, epoch)[..4]) == epoch - 1
  {
    if epoch > 1 { CountsUp(c, root, epoch - 1); }
  }

  lemma CountingKey(epoch: nat)
    requires 1 <= epoch <= MAX_UINT32
    ensures GetLE(KeyAt(CountingSuite(), ROOT, epoch)[..4]) == epoch - 1
  {
    ZeroCounter(ROOT[..4]);
    forall k: Key ensures GetLE(CountingSuite().next(k)[..4]) == (GetLE(k[..4]) + 1) % TWO32 { RatchetCounts(k); }
    CountsUp(CountingSuite(), ROOT, epoch);
  }

  lemma CountingSeparates()
    ensures Separates(CountingSuite(), ROOT)
  {
    var c := CountingSuite();
    forall i: nat, j: nat, n: Bytes, a: Bytes, p: Bytes
      | && 1 <= i <= MAX_UINT32 && 1 <= j <= MAX_UINT32
        && c.open(KeyAt(c, ROOT, j), n, a, c.seal(KeyAt(c, ROOT, i), n, a, p)).Some?
      ensures i == j
    {
      var ki, kj := KeyAt(c, ROOT, i), KeyAt(c, ROOT, j);
      var s := c.seal(ki, n, a, p);
      assert s[|s| - TAG_SIZE..] == ki[..TAG_SIZE];
      assert ki[..4] == ki[..TAG_SIZE][..4] && kj[..4] == kj[..TAG_SIZE][..4];
      CountingKey(i);
      CountingKey(j);
    }
  }

  /* ---------- genuine runs through every epoch ---------- */

  const PING: Message := PingPong(false, 7)
  const NO_PADDING: Draw := RawDraw(0, Some([]))

  function Send(): Event { AtSender(Sending.SendTyped(PING, NO_PADDING, 0)) }

  function Deliver(frame: Frame): Event { AtReceiver(Receiving.Deliver(frame, 0, 0)) }

  function Mark(frame: Frame): Event { AtSender(Sending.MarkSent(frame, 0)) }

  function Sent(c: Suite, utf8: Utf8, n: Net): Sending.SendResult { Sending.SendMessage(c, utf8, n.sender, PING,
                NO_PADDING, 0) }

  /** The two ends agree, and the sender rekeys after every ordinary frame. */
  ghost predicate InStep(n: Net) {
    && Fifo.Synced(n.sender, n.receiver) && !n.sender.closed && n.sender.sessionId != ZERO16
    && n.sender.rekeyFrameLimit == 1 && n.sender.rekeyInterval == 0 && n.sender.sentInEpoch <= 1
  }

  lemma SendWorks(c: Suite, utf8: Utf8, n: Net)
    requires InStep(n) && n.sender.sendEpoch < MAX_UINT32
    ensures Sent(c, utf8, n).frame.Ok?
    ensures Sent(c, utf8, n).frame.value.header.messageType
            == if n.sender.sentInEpoch == 1 then REKEY_INIT else PING_PONG
  {
    var s := n.sender;
    assert Sent(c, utf8, n) == Sending.SendPayload(c, s, PING_PONG, EncodePing(false, 7), NO_PADDING, 0);
    Sending.SendSucceedsExactly(c, s, PING_PONG, EncodePing(false, 7), NO_PADDING, 0);
    Sending.DueSends(c, s, PING_PONG, EncodePing(false, 7), NO_PADDING, 0);
  }

  lemma SentIsOwn(c: Suite, utf8: Utf8, n: Net)
    requires Sent(c, utf8, n).frame.Ok?
    ensures Own(c, Step(c, utf8, n, Send()).sealed, Sent(c, utf8, n).frame.value)
  {
    var s, r := n.sender, Sent(c, utf8, n);
    if Sending.RekeyDue(s, 0) {
      EncryptSeals(c, s.send, REKEY_INIT, s.sessionId, s.nextSequence,
          EncodeRekey(s.sendEpoch + 1, c.confirm(s.sendKey, s.sendEpoch + 1)), NO_PADDING);
    } else {
      EncryptSeals(c, s.send, PING_PONG, s.sessionId, s.nextSequence, EncodePing(false, 7), NO_PADDING);
    }
    assert Carries(c, r.seals[0], r.frame.value);
    var entry := Sending.Entries(s, r)[0];
    assert entry in Step(c, utf8, n, Send()).sealed;
  }

  /** The frame is sent and arrives. */
  function Exchanged(c: Suite, utf8: Utf8, n: Net): Net
    requires Sent(c, utf8, n).frame.Ok?
  {
    Step(c, utf8, Step(c, utf8, n, Send()), Deliver(Sent(c, utf8, n).frame.value))
  }

  lemma ExchangeIsHonest(c: Suite, utf8: Utf8, n: Net)
    requires Sent(c, utf8, n).frame.Ok?
    ensures var frame := Sent(c, utf8, n).frame.value;
            && Honest(c, n, Send()) && Honest(c, Step(c, utf8, n, Send()), Deliver(frame))
            && Honest(c, Exchanged(c, utf8, n), Mark(frame))
  {
    SentIsOwn(c, utf8, n);
  }

  lemma DataRound(c: Suite, utf8: Utf8, n: Net)
    requires InStep(n) && n.sender.sentInEpoch == 0 && n.sender.sendEpoch < MAX_UINT32
    ensures Sent(c, utf8, n).frame.Ok?
    ensures var n' := Exchanged(c, utf8, n);
            InStep(n') && n'.sender.sentInEpoch == 1 && n'.sender.sendEpoch == n.sender.sendEpoch
  {
    SendWorks(c, utf8, n);
    Fifo.SendCarries(c, utf8, n.sender, PING, NO_PADDING, 0);
    Fifo.DataDelivered(c, utf8, n.sender, n.receiver, PING, Sent(c, utf8, n), 0, 0);
  }

  lemma RekeyRound(c: Suite, utf8: Utf8, n: Net)
    requires InStep(n) && n.sender.sentInEpoch == 1 && n.sender.sendEpoch < MAX_UINT32
    ensures Sent(c, utf8, n).frame.Ok?
    ensures var n' := Step(c, utf8, Exchanged(c, utf8, n), Mark(Sent(c, utf8, n).frame.value));
            InStep(n') && n'.sender.sentInEpoch == 0 && n'.sender.sendEpoch == n.sender.sendEpoch + 1
  {
    SendWorks(c, utf8, n);
    Fifo.SendCarries(c, utf8, n.sender, PING, NO_PADDING, 0);
    Fifo.RekeyDelivered(c, utf8, n.sender, n.receiver, PING, Sent(c, utf8, n), 0, 0, 0);
  }

  /** One ordinary frame, then the rekey: five honest events that take both ends to the next epoch. */
  lemma EpochRound(c: Suite, utf8: Utf8, n: Net) returns (events: seq<Event>)
    requires InStep(n) && n.sender.sentInEpoch == 0 && n.sender.sendEpoch < MAX_UINT32
    ensures HonestRun(c, utf8, n, events)
    ensures var n' := NetRun(c, utf8, n, events);
            InStep(n') && n'.sender.sentInEpoch == 0 && n'.sender.sendEpoch == n.sender.sendEpoch + 1
  {
    DataRound(c, utf8, n);
    ExchangeIsHonest(c, utf8, n);
    var data, n' := Sent(c, utf8, n).frame.value, Exchanged(c, utf8, n);
    RekeyRound(c, utf8, n');
    ExchangeIsHonest(c, utf8, n');
    var rekey := Sent(c, utf8, n').frame.value;
    Five((n, e) => Step(c, utf8, n, e), (n, e) => Honest(c, n, e), n, Send(), Deliver(data), Send(), Deliver(rekey),
        Mark(rekey));
    events := [Send(), Deliver(data), Send(), Deliver(rekey), Mark(rekey)];
  }

  lemma One<S, E>(step: (S, E) -> S, guard: (S, E) -> bool, s: S, e: E)
    requires guard(s, e)
    ensures Permits(step, guard, s, [e]) && Fold(step, s, [e]) == step(s, e)
  {
    assert [e][1..] == [];
  }

  lemma Two<S, E>(step: (S, E) -> S, guard: (S, E) -> bool, s: S, e: E, f: E)
    requires guard(s, e) && guard(step(s, e), f)
    ensures Permits(step, guard, s, [e, f]) && Fold(step, s, [e, f]) == step(step(s, e), f)
  {
    assert [e, f][1..] == [f];
    One(step, guard, step(s, e), f);
  }

  lemma Five<S, E>(step: (S, E) -> S, guard: (S, E) -> bool, s: S, e: E, f: E, g: E, h: E, k: E)
    requires guard(s, e) && guard(step(s, e), f)
    requires var t := step(step(s, e), f); guard(t, g) && guard(step(t, g), h) && guard(step(step(t, g), h), k)
    ensures Permits(step, guard, s, [e, f, g, h, k])
    ensures Fold(step, s, [e, f, g, h, k]) == step(step(step(step(step(s, e), f), g), h), k)
  {
    var t := step(step(s, e), f);
    Two(step, guard, s, e, f);
    Two(step, guard, t, g, h);
    One(step, guard, step(step(t, g), h), k);
    FoldJoins(step, guard, t, [g, h], [k]);
    FoldJoins(step, guard, s, [e, f], [g, h] + [k]);
    assert [e, f] + ([g, h] + [k]) == [e, f, g, h, k];
  }

  /** Genuine runs exist that take sender and receiver through every epoch together. */
  lemma {:induction false} GenuineThroughRekeys(utf8: Utf8, sessionId: Bytes16, epoch: uint32)
    returns (events: seq<Event>)
    requires sessionId != ZERO16 && epoch >= 1
    ensures var n := NewNet(sessionId, ROOT, 1, 0, 0, 1, 1);
            && GenuineRun(CountingSuite(), utf8, n, events)
            && NetRun(CountingSuite(), utf8, n, events).receiver.receiveEpoch == epoch
  {
    var c, n := CountingSuite(), NewNet(sessionId, ROOT, 1, 0, 0, 1, 1);
    events := HonestThroughRekeys(c, utf8, sessionId, epoch);
    CountingSeparates();
    Sending.NewSendInv(c, sessionId, ROOT, 1, 0, 0);
    Receiving.NewReceiveInv(c, sessionId, ROOT, 1, 1);
    HonestRunsAreGenuine(c, utf8, ROOT, n, events);
  }

  lemma {:induction false} HonestThroughRekeys(c: Suite, utf8: Utf8, sessionId: Bytes16, epoch: uint32)
    returns (events: seq<Event>)
    requires sessionId != ZERO16 && epoch >= 1
    ensures var n := NewNet(sessionId, ROOT, 1, 0, 0, 1, 1);
            && HonestRun(c, utf8, n, events)
            && var n' := NetRun(c, utf8, n, events);
               InStep(n') && n'.sender.sentInEpoch == 0 && n'.sender.sendEpoch == epoch
    decreases epoch
  {
    var n := NewNet(sessionId, ROOT, 1, 0, 0, 1, 1);
    if epoch == 1 {
      events := [];
      Replay.EmptyTracks();
    } else {
      var before := HonestThroughRekeys(c, utf8, sessionId, epoch - 1);
      var round := EpochRound(c, utf8, NetRun(c, utf8, n, before));
      FoldJoins((n, e) => Step(c, utf8, n, e), (n, e) => Honest(c, n, e), n, before, round);
      events := before + round;
    }
  }
}
