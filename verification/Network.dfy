/**
 * A sender and a receiver joined by a network that may duplicate, reorder, drop and inject.
 * The AEAD is ideal on the run: a delivered frame that opens under a key of the receiver was
 * sealed by the sender under that key, with the same nonce and associated data. That it was
 * sealed in the receiver's epoch is derived, from a ratchet that does not repeat a key.
 */
module Network {
  import opened Basics
  import opened Frames
  import opened Crypto
  import opened Messages
  import opened Runs
  import Sending
  import Receiving

  datatype Net = Net(
    sender: Sending.SendState, sealed: seq<Sending.SealEntry>,
    receiver: Receiving.ReceiveState, accepted: seq<Receiving.Acceptance>)

  datatype Event = AtSender(send: Sending.SendEvent) | AtReceiver(delivery: Receiving.Delivery)

  function Step(c: Suite, utf8: Utf8, n: Net, e: Event): Net {
    match e
    case AtSender(send) =>
      var (sender, sealed) := Sending.Step(c, utf8, n.sender, send);
      n.(sender := sender, sealed := n.sealed + sealed)
    case AtReceiver(delivery) =>
      var (receiver, accepted) := Receiving.Step(c, n.receiver, delivery);
      n.(receiver := receiver, accepted := n.accepted + accepted)
  }

  /** The sender has sealed exactly this key, nonce, associated data and plaintext. */
  ghost predicate SealedUnder(sealed: seq<Sending.SealEntry>, key: Key, frame: Frame, plaintext: Bytes) {
    exists e :: e in sealed && e.sealing == Sealing(key, Nonce(frame.header.sequence), Aad(frame), plaintext)
  }

  /** What opens under the codec was sealed under its key. */
  ghost predicate OpensOnlySealed(c: Suite, sealed: seq<Sending.SealEntry>, codec: Codec, frame: Frame) {
    Decrypt(c, codec, frame).Ok? ==> SealedUnder(sealed, codec.key, frame, Decrypt(c, codec, frame).value)
  }

  /** Ciphertext integrity of the two keys the receiver may try, for this delivery. */
  ghost predicate Genuine(c: Suite, n: Net, e: Event) {
    e.AtReceiver? && e.delivery.Deliver? ==>
      && OpensOnlySealed(c, n.sealed, n.receiver.receive, e.delivery.frame)
      && (n.receiver.previous.Some? ==> OpensOnlySealed(c, n.sealed, n.receiver.previous.value, e.delivery.frame))
  }

  /** a is the sender's own frame: same epoch, sequence, message type and plaintext. */
  ghost predicate Matches(e: Sending.SealEntry, a: Receiving.Acceptance) {
    && e.epoch == a.epoch && e.sequence == a.sequence
    && e.messageType == a.messageType && e.sealing.plaintext == a.plaintext
  }

  ghost predicate Authentic(sealed: seq<Sending.SealEntry>, accepted: seq<Receiving.Acceptance>) {
    forall a <- accepted :: exists e :: e in sealed && Matches(e, a)
  }

  ghost predicate NetInv(c: Suite, root: Key, n: Net) {
    && Sending.SendInv(c, root, n.sender, n.sealed)
    && Receiving.ReceiveInv(c, root, n.receiver, n.accepted)
    && Authentic(n.sealed, n.accepted)
  }

  /** The key a frame was sealed under tells the epoch it was sealed in. */
  lemma SealedMatches(c: Suite, root: Key, sealed: seq<Sending.SealEntry>, a: Receiving.Acceptance, frame: Frame)
    requires FreshKeys(c, root) && Sending.Keyed(c, root, sealed) && 1 <= a.epoch <= MAX_UINT32
    requires SealedUnder(sealed, KeyAt(c, root, a.epoch), frame, a.plaintext)
    requires a.sequence == frame.header.sequence && a.messageType == frame.header.messageType
    ensures exists e :: e in sealed && Matches(e, a)
  {
    var key := KeyAt(c, root, a.epoch);
    var e :| e in sealed && e.sealing == Sealing(key, Nonce(frame.header.sequence), Aad(frame), a.plaintext);
    assert e.epoch == a.epoch;
    NonceInjective(e.sequence, frame.header.sequence);
    HeaderParts(frame.header);
    assert Matches(e, a);
  }

  /** The receiver's codecs hold the keys of their epochs. */
  ghost predicate KeysOf(c: Suite, root: Key, r: Receiving.ReceiveState) {
    && r.receiveEpoch >= 1 && r.receive.key == KeyAt(c, root, r.receiveEpoch)
    && (r.previous.Some? ==> r.receiveEpoch >= 2 && r.previous.value.key == KeyAt(c, root, r.receiveEpoch - 1))
  }

  lemma InvKeys(c: Suite, root: Key, r: Receiving.ReceiveState, log: seq<Receiving.Acceptance>)
    requires Receiving.ReceiveInv(c, root, r, log)
    ensures KeysOf(c, root, r)
  {
    Receiving.InvBooks(c, root, r, log);
    BooksKeys(c, root, r, log);
  }

  lemma BooksKeys(c: Suite, root: Key, r: Receiving.ReceiveState, log: seq<Receiving.Acceptance>)
    requires Receiving.Books(c, root, r.(closed := false), log)
    ensures KeysOf(c, root, r)
  {
  }

  /** A payload that was accepted opened under the key of the epoch it was accepted for. */
  lemma AcceptedUnderKey(c: Suite, root: Key, sealed: seq<Sending.SealEntry>, r: Receiving.ReceiveState, frame: Frame,
                         now: int, later: int, result: Receiving.ReceiveResult)
    requires KeysOf(c, root, r) && Receiving.Transaction(c, r, frame, now, later, result) && result.outcome.Ok?
    requires OpensOnlySealed(c, sealed, r.receive, frame)
    requires r.previous.Some? ==> OpensOnlySealed(c, sealed, r.previous.value, frame)
    ensures var a := result.outcome.value;
            && 1 <= a.epoch <= MAX_UINT32
            && a.sequence == frame.header.sequence && a.messageType == frame.header.messageType
            && SealedUnder(sealed, KeyAt(c, root, a.epoch), frame, a.plaintext)
  {
  }

  lemma AcceptanceAuthentic(c: Suite, root: Key, n: Net, frame: Frame, now: int, later: int)
    requires FreshKeys(c, root) && NetInv(c, root, n) && Genuine(c, n, AtReceiver(Receiving.Deliver(frame, now, later)))
    ensures var result := Receiving.ReceivePayload(c, n.receiver, frame, now, later);
            result.outcome.Ok? ==> exists e :: e in n.sealed && Matches(e, result.outcome.value)
  {
    var result := Receiving.ReceivePayload(c, n.receiver, frame, now, later);
    Receiving.ReceiveIsTransaction(c, n.receiver, frame, now, later);
    InvKeys(c, root, n.receiver, n.accepted);
    if result.outcome.Ok? {
      AcceptedUnderKey(c, root, n.sealed, n.receiver, frame, now, later, result);
      SealedMatches(c, root, n.sealed, result.outcome.value, frame);
    }
  }

  lemma StepKeepsInv(c: Suite, utf8: Utf8, root: Key, n: Net, e: Event)
    requires FreshKeys(c, root) && NetInv(c, root, n) && Genuine(c, n, e)
    ensures NetInv(c, root, Step(c, utf8, n, e))
  {
    match e
    case AtSender(send) => Sending.StepKeepsInv(c, utf8, root, n.sender, n.sealed, send);
    case AtReceiver(delivery) =>
      Receiving.StepKeepsInv(c, root, n.receiver, n.accepted, delivery);
      if delivery.Deliver? { AcceptanceAuthentic(c, root, n, delivery.frame, delivery.now, delivery.later); }
  }

  function NewNet(sessionId: Bytes16, root: Key, limit: uint64, interval: int, start: int, graceFrames: uint64,
                  gracePeriod: int): Net {
    Net(Sending.NewSendState(sessionId, root, limit, interval, start), [],
        Receiving.NewReceiveState(sessionId, root, graceFrames, gracePeriod), [])
  }

  function NetRun(c: Suite, utf8: Utf8, n: Net, events: seq<Event>): Net {
    Fold((n, e) => Step(c, utf8, n, e), n, events)
  }

  ghost predicate GenuineRun(c: Suite, utf8: Utf8, n: Net, events: seq<Event>) {
    Permits((n, e) => Step(c, utf8, n, e), (n, e) => Genuine(c, n, e), n, events)
  }

  /** The seal an acceptance answers. */
  ghost predicate Answers(n: Net, i: nat, k: nat) {
    i < |n.accepted| && k < |n.sealed| && Matches(n.sealed[k], n.accepted[i])
  }

  ghost predicate Answered(n: Net, i: nat) { exists k: nat :: Answers(n, i, k) }

  /**
   * Whatever the network does, every payload accepted is one the sender sealed, in that epoch,
   * at that sequence, with that type and content; no seal is answered twice; and the receiver is
   * never further than the RekeyInit the sender has sealed.
   */
  lemma NetworkDeliversGenuineOnce(c: Suite, utf8: Utf8, sessionId: Bytes16, root: Key, limit: uint64, interval: int,
                                   start: int,
                                   graceFrames: uint64, gracePeriod: int, events: seq<Event>)
    requires FreshKeys(c, root)
    requires GenuineRun(c, utf8, NewNet(sessionId, root, limit, interval, start, graceFrames, gracePeriod), events)
    ensures var n := NetRun(c, utf8, NewNet(sessionId, root, limit, interval, start, graceFrames, gracePeriod), events);
            && (forall i :: 0 <= i < |n.accepted| ==> Answered(n, i))
            && (forall i: nat, j: nat, k: nat :: Answers(n, i, k) && Answers(n, j, k) ==> i == j)
            && n.receiver.receiveEpoch <= n.sender.sendEpoch + (if n.sender.pending.Some? then 1 else 0)
  {
    var n0 := NewNet(sessionId, root, limit, interval, start, graceFrames, gracePeriod);
    Sending.NewSendInv(c, sessionId, root, limit, interval, start);
    Receiving.NewReceiveInv(c, sessionId, root, graceFrames, gracePeriod);
    var step, guard, inv := (n, e) => Step(c, utf8, n, e), (n, e) => Genuine(c, n, e), n => NetInv(c, root, n);
    forall n, e | inv(n) && guard(n, e) ensures inv(step(n, e)) { StepKeepsInv(c, utf8, root, n, e); }
    FoldKeeps(step, guard, inv, n0, events);
    var n := NetRun(c, utf8, n0, events);
    EveryAcceptanceAnswers(c, root, n);
    EpochNotAhead(c, root, n);
  }

  lemma EveryAcceptanceAnswers(c: Suite, root: Key, n: Net)
    requires NetInv(c, root, n)
    ensures forall i :: 0 <= i < |n.accepted| ==> Answered(n, i)
    ensures forall i: nat, j: nat, k: nat :: Answers(n, i, k) && Answers(n, j, k) ==> i == j
  {
    forall i | 0 <= i < |n.accepted| ensures Answered(n, i) {
      assert n.accepted[i] in n.accepted;
      var e :| e in n.sealed && Matches(e, n.accepted[i]);
      var k :| 0 <= k < |n.sealed| && n.sealed[k] == e;
      assert Answers(n, i, k);
    }
  }

  lemma {:induction false} LastRekey(log: seq<Receiving.Acceptance>) returns (i: nat)
    requires Receiving.Recent(log) && Receiving.Rekeys(log) > 0
    ensures i < |log| && log[i].messageType == REKEY_INIT && log[i].epoch == Receiving.Rekeys(log)
  {
    var init := log[..|log| - 1];
    if log[|log| - 1].messageType == REKEY_INIT {
      i := |log| - 1;
    } else {
      forall j | 0 <= j < |init| ensures init[..j] == log[..j] {}
      i := LastRekey(init);
    }
  }

  /** A sealed RekeyInit of epoch e means the sender is past e, or still holds that rekey pending. */
  lemma RekeySealedMeansPast(c: Suite, root: Key, s: Sending.SendState, sealed: seq<Sending.SealEntry>, k: nat)
    requires Sending.SendInv(c, root, s, sealed) && k < |sealed| && sealed[k].messageType == REKEY_INIT
    ensures sealed[k].epoch + 1 <= s.sendEpoch + (if s.pending.Some? then 1 else 0)
  {
    if k < |sealed| - 1 { Sending.ChainOrdered(sealed, k, |sealed| - 1); }
  }

  lemma EpochNotAhead(c: Suite, root: Key, n: Net)
    requires NetInv(c, root, n)
    ensures n.receiver.receiveEpoch <= n.sender.sendEpoch + (if n.sender.pending.Some? then 1 else 0)
  {
    if Receiving.Rekeys(n.accepted) > 0 {
      var i := LastRekey(n.accepted);
      assert n.accepted[i] in n.accepted;
      var e :| e in n.sealed && Matches(e, n.accepted[i]);
      var k :| 0 <= k < |n.sealed| && n.sealed[k] == e;
      RekeySealedMeansPast(c, root, n.sender, n.sealed, k);
    }
  }
}
