# DGProto session protocol: a Dafny model

This project models the hard core of `dgproto-go`, a Go implementation of the draft DGProto v1 session
protocol over TCP, and proves what that core is for.

* **Sessions.** Each direction has a key epoch, a sequence counter, a 2048-bit replay window and a two-phase
  rekey. `Sending` and `Receiving` are the two halves as functions of their state with theorems over every run;
  `Sessions.Session` is the object that updates its fields in place and is proved against those functions;
  `Network` joins a sender and a receiver through an arbitrary network, and `Honest` shows that its
  hypothesis can be met; `Fifo` is the end-to-end law through
  any number of rekeys, from message values down to octets cut anywhere.
* **Replay window.** `Replay` proves that the words shifted in place are exactly the set of accepted sequences;
  `Words` gives the 64-bit shifts and masks their meaning bit by bit.
* **Codecs and framing.** `Tlv`, `Frames`, `Messages` and `Transport` are the two-pass TLV parser, header and
  frame codecs, message payloads and stream framing, each with its round trip.
* **Connection runtime.** `Connections` is producers, writer, reader, handler worker and once-only disposal as
  interleaved atomic steps with explicit lease, cancel and once flags; `Winding` shows that a canceled
  connection cannot get stuck on its way to a closed `done`; `Keepalive` is the ping fields, the
  maintenance loop and racing shutdowns.
* **Server.** `Servers` is the handoff of sockets between two maps, slot tokens and wait count while shutdown
  races them.
* `Basics` and `Runs` hold integer widths, little-endian fields and the induction over runs.

Reading notes:

* The AEAD, the key ratchet and the confirmation MAC are function values. Only `Crypto.Correct` is assumed of
  them: opening undoes sealing and a seal adds 16 octets. At-most-once acceptance and the FIFO law need nothing
  more. Authenticity is a hypothesis on a run (`Network.GenuineRun`): a delivered frame that opens under a key of
  the receiver was sealed by the sender under that key, with the same nonce and associated data. Together with
  `Crypto.FreshKeys`, a ratchet that does not repeat a key, it gives the epoch. `Honest` shows that both
  assumptions can be met, through every epoch.
* Clock readings, padding octets, UTF-8 validity, the outcome of each socket write, timers and scheduling are
  parameters or nondeterministic steps. Clock readings are unbounded integers.
* A concurrent step is one critical section, one channel operation or one atomic flag access. Fields described
  as history record what has happened and are read by no step.
* A stream that ends right after a frame's header is reported like one that ends between frames: the second full
  read finds nothing and says so. `Transport.ReadOnePartial` has the exact condition.
* One promise about keepalive does not hold to the letter. The recorded cause is `ErrKeepaliveTimeout` only if no
  matching pong had been processed when the deadline was judged; a pong processed between that check and the
  record of the cause comes too late. `Keepalive.LatePongCounterexample` is such a run, and
  `Keepalive.TimeoutWrongExactlyIfLate` says that these are the only ones.

## Model

| member | source | states |
|---|---|---|
| `Words.BitShl` | internal/replay/window.go:71-90 | a left shift moves every bit up by the amount and drops what leaves the 64-bit word |
| `Words.BitShr` | internal/replay/window.go:71-90 | a right shift moves every bit down by the amount |
| `Words.MaskTestsBit` | internal/replay/window.go:61-63 | masking with a shifted one is nonzero exactly when that bit is set |
| `Words.MaskSetsBit` | internal/replay/window.go:66-68 | or-ing a shifted one sets that bit and changes no other |
| `Replay.WithBitMarks` | internal/replay/window.go:61-68 | after Set, exactly the old distances and the new one are marked |
| `Replay.AdvancedShifts` | internal/replay/window.go:71-90 | for every shift amount, advancing is the exact truncating shift of the 2048 bits |
| `Replay.SetBit` | internal/replay/window.go:66-68 | the in-place bitmap update equals the functional one |
| `Replay.Advance` | internal/replay/window.go:71-90 | the descending in-place loop reads only words not yet overwritten and yields the shifted bitmap |
| `Replay.ReplayWindow.constructor` | replay.go:26-32 | the object holds the given window value |
| `Replay.ReplayWindow.CommitToken` | replay.go:53-58 | the object takes the committed value on success and is untouched on rejection |
| `Replay.CheckExact` | internal/replay/window.go:21-35 | Check accepts exactly the nonzero, uncommitted sequences above highest or less than 2048 behind it |
| `Replay.CommitTracks` | internal/replay/window.go:40-58 | a commit succeeds exactly for a current token of an acceptable sequence, adds that sequence and no other to the tracked set, and raises the generation by one without wrapping |
| `Replay.CheckedCommitSucceeds` | replay.go:41-58 | the commit of a token just issued by Check never fails |
| `Replay.RunTracks` | internal/replay/window.go:21-58 | after any run of commit attempts the bitmap is the accepted set within reach, no sequence is accepted twice, and the generation has counted every commit |
| `Replay.StaleTokenRejected` | replay.go:41-58 | a token taken before any later successful commit is always rejected |
| `Tlv.EncodableExactly` | tlv.go:88-116 | encoding succeeds exactly when the fields' aligned sizes fit the byte limit, so the element limit never rejects on its own |
| `Tlv.MeasureFields` | tlv.go:103-116 | the accumulating length loop returns the reference length or the first error |
| `Tlv.WriteField` | internal/tlv/codec.go:140-145 | writes one aligned field in place at its offset and leaves the rest of the buffer alone |
| `Tlv.EncodeTlvs` | tlv.go:88-99 | size-then-write produces exactly the concatenated aligned encodings |
| `Tlv.Validate` | internal/tlv/codec.go:96-125 | the validation loop accepts with the field count or reports the error the reference scan reports |
| `Tlv.DecodeTlvs` | tlv.go:71-85 | after validation every read stays in bounds and the fields are those the octets spell |
| `Tlv.DecodableExactly` | internal/tlv/codec.go:96-125 | decoding accepts exactly the aligned well-formed inputs within the limits |
| `Tlv.DecodeEncode` | tlv.go:71-99 | decoding an encoding gives the same fields, for every encodable list |
| `Tlv.ReencodeAccepted` | tlv.go:71-99 | re-encoding an accepted input keeps its length and changes only alignment octets |
| `Frames.PutHeader` | internal/wire/header.go:31-43 | fills the 40 octets in place with the header's encoding and leaves any suffix alone |
| `Frames.ReadEncodeHeader` | internal/wire/header.go:31-60 | reading an encoded header gives it back |
| `Frames.EncodeReadHeader` | internal/wire/header.go:31-60 | encoding what was read from 40 octets gives those octets back |
| `Frames.RemarshalReceived` | header.go:150-204 | a received header re-marshals to the octets it came from, so the rebuilt associated data matches |
| `Frames.UnmarshalMarshalHeader` | header.go:150-204 | a header that marshals for sending unmarshals to itself |
| `Frames.NewFrameCanonical` | frame.go:33-61 | every frame NewFrame builds is canonical: valid, with consistent lengths and no tag where none travels |
| `Frames.MarshalSize` | frame.go:100-117 | a canonical frame marshals to exactly the size its header announces |
| `Frames.UnmarshalMarshal` | frame.go:100-150 | every canonical frame survives marshal and unmarshal |
| `Frames.MarshalUnmarshal` | frame.go:121-150 | every octet of an accepted frame is kept: encoding it again gives the input back |
| `Frames.PrefixFree` | frame.go:100-150 | no canonical frame's encoding is a proper prefix of another's |
| `Transport.Socket.constructor` | tcp.go:27-32 | a socket starts with the given arriving segments and nothing sent |
| `Transport.Socket.ReadFull` | tcp.go:36-75 | collects exactly n octets however they are cut, or reports whether the stream ended at once or in the middle |
| `Transport.Socket.ReadFrame` | tcp.go:36-75 | the frame read, or the error, depends on the octets alone and consumes exactly that frame |
| `Transport.Socket.WriteAll` | tcp.go:79-112 | the short-write loop sends every octet in order, or a prefix before failing |
| `Transport.Socket.WriteFrame` | tcp.go:79-112 | success means the whole encoding went out; failure leaves a prefix; an unmarshalable frame sends nothing |
| `Transport.Socket.WriteFrames` | tcp.go:79-112 | frames written one after another put exactly their encodings on the wire, or a prefix of them; a network that keeps taking something never makes it fail |
| `Transport.Socket.ReadFrames` | tcp.go:36-75 | reading to the end yields every frame the octets hold, whatever the segments |
| `Transport.ReadOneWritten` | tcp.go:36-75 | the first written frame is read back with the rest of the stream intact |
| `Transport.ReadOnePartial` | tcp.go:36-75 | a cut inside a frame reads as end of stream, never as another frame: a clean one before the frame or right after its header, an unexpected one anywhere else |
| `Transport.ReadBackWritten` | tcp.go:36-112 | from any arrived prefix of the octets a prefix of the written frames is read; from all of them, exactly those frames |
| `Transport.Transfer` | tcp.go:36-112 | through two sockets, for every short-write pattern and every segmentation, the frames read are a prefix of the frames written, and all of them if the writes went through |
| `Messages.RejectDuplicates` | messages_tlv.go:101-110 | the seen-table loop rejects exactly the lists with a repeated type |
| `Messages.SizeAgreement` | messages_tlv.go:29-80 | preflight and marshaller agree on verdict, error and length, and the frame preflight passes exactly when the payload fits a frame with that padding |
| `Messages.DataRoundTrip` | messages_tlv.go:65-99 | every envelope that marshals unmarshals to itself |
| `Messages.CloseRoundTrip` | messages_tlv.go:121-186 | every close message that marshals unmarshals to itself within the payload limit |
| `Messages.ErrorRoundTrip` | messages_error.go:25-59 | every error message that marshals unmarshals to itself |
| `Messages.AckRoundTrip` | messages.go:130-155 | every acknowledgement list that marshals unmarshals to itself |
| `Messages.PingRoundTrip` | messages.go:104-121 | a ping or pong unmarshals to itself |
| `Messages.RekeyRoundTrip` | messages.go:168-188 | a rekey announcement of a nonzero epoch unmarshals to itself |
| `Messages.MessageRoundTrip` | session.go:155-220 | through dispatch, every message that marshals comes back equal and fits an unpadded frame |
| `Messages.ControlExact` | messages.go:104-188 | ping, acknowledgement, rekey and error payloads have one encoding: whatever the decoder accepts, the encoder writes octet for octet |
| `Messages.DataReencodes` | messages_tlv.go:65-99 | an accepted envelope re-encodes to the same length and head and decodes to the same message again |
| `Messages.PutAck` | internal/wire/control.go:34-40 | the in-place loop writes the marshalled acknowledgement and leaves the suffix alone |
| `Messages.ReadAck` | internal/wire/control.go:44-49 | the loop fills caller storage with exactly the encoded sequences |
| `Crypto.NonceInjective` | crypto.go:113-117 | different sequences have different nonces |
| `Crypto.EncryptSeals` | crypto.go:67-111 | a frame comes out exactly when the AEAD was invoked, once, so nothing fails after the seal; the frame is canonical and decrypts to the plaintext |
| `Crypto.EncryptSucceeds` | crypto.go:67-87 | Encrypt succeeds exactly for an encrypted type, nonzero sequence and session, fitting size and working random source |
| `Crypto.AadDeterminesHeader` | crypto.go:91-111 | the associated data determines header and padding |
| `Sending.SendOutcome` | session_send.go:45-62 | a send either changes nothing, seals one ordinary frame below the limit, or seals one RekeyInit and holds it pending |
| `Sending.MarkKeepsInv` | session_send.go:69-87 | committing or refusing a sent rekey keeps the sender invariant |
| `Sending.StepKeepsInv` | session_send.go:14-152 | every typed send, raw send, mark or close, failed or not, keeps the sender invariant |
| `Sending.SendRunKeepsInv` | session_send.go:14-152 | so does every run of them |
| `Sending.SealsNeverRepeat` | session_send.go:45-152 | over every run the AEAD seals at most once per epoch and sequence, under that epoch's key; an epoch carries at most the limit of ordinary frames and then at most one RekeyInit, its last |
| `Sending.PendingBlocksRun` | session_send.go:45-87 | until its very frame is marked sent, no run seals anything behind a pending rekey |
| `Sending.SequencesSuffice` | session_send.go:94-110 | with a frame limit in [1, 2^64-1), after every run no event's result is the exhausted-sequence error |
| `Sending.KeyNonceNeverRepeats` | session_send.go:94-152 | if the ratchet does not repeat a key, no run seals twice under the same key and nonce |
| `Sending.RekeyExactlyWhenDue` | session_send.go:45-115 | after every run a send puts out a RekeyInit exactly when the epoch's seals reach the limit or the interval has passed since the last mark that took effect, both read off the history |
| `Sending.SendSucceedsExactly` | session_send.go:32-62 | a raw send succeeds exactly for an open session without pending rekey, an allowed type, a working random source and a fitting payload or, when a rekey is due, an epoch to go to |
| `Sending.ClosedSendsNothing` | session_send.go:45-87 | after Close no run seals or changes anything |
| `Receiving.ReceiveIsTransaction` | session_receive.go:38-179 | a rejected delivery leaves keys, epoch, windows and grace alone; an accepted one commits its sequence, which cannot fail, and an accepted RekeyInit advances the epoch by exactly one with all state moving together |
| `Receiving.StepKeepsInv` | session_receive.go:38-193 | every delivery keeps the receiver invariant |
| `Receiving.AcceptedAtMostOnce` | session_receive.go:38-157 | under any duplication, reordering or injection each epoch and sequence is accepted at most once, only from the current epoch or its predecessor, and both windows hold exactly what was accepted |
| `Receiving.GraceAccounting` | session_receive.go:76-109 | while the previous key is kept, its positive remaining budget plus the current-epoch frames since the transition is graceFrames |
| `Receiving.DeadEpochNeverAccepts` | session_receive.go:181-193 | with a clock that never goes back, an expired or dropped epoch never accepts again |
| `Receiving.CurrentAcceptedExactly` | session_receive.go:90-102 | an authentic current-epoch frame is accepted exactly when its sequence was not accepted before and is still in reach of the window |
| `Receiving.PreviousAcceptedExactly` | session_receive.go:118-157 | an authentic previous-epoch frame is accepted exactly when its key is in grace by count and clock and the sequence is new and in reach |
| `Receiving.RekeyAcceptedExactly` | session_receive.go:159-179 | an authentic RekeyInit is accepted exactly when it is new, in reach, and announces the next epoch with the right confirmation |
| `Network.NetworkDeliversGenuineOnce` | session_receive.go:38-110 | whatever the network does, every accepted payload is one the sender sealed with that epoch, sequence, type and content, no seal is answered twice, and the receiver is never ahead of a sealed rekey; the epoch follows from the key |
| `Network.SealedMatches` | session_receive.go:118-157 | with a ratchet that does not repeat, the key a frame was sealed under determines the epoch it was sealed in |
| `Network.EpochNotAhead` | session_receive.go:159-179 | the receiver's epoch is at most the sender's, or one more while that rekey is pending |
| `Honest.HonestRunsAreGenuine` | session_receive.go:38-110 | if keys of different epochs do not open each other's frames, every run over a network that forges nothing satisfies the authenticity hypothesis, through any number of rekeys |
| `Honest.CountingSeparates` | rekey.go:66-85 | a suite with such keys exists |
| `Honest.GenuineThroughRekeys` | session_send.go:45-152 | with it, genuine runs take sender and receiver together to every epoch |
| `Fifo.WriteUnfolds` | connection_send.go:174-193 | each turn of the retry either ends or commits its rekey and goes on one epoch later; the commit is refused exactly if a Close came in between |
| `Fifo.AcceptsNext` | session_receive.go:38-157 | the next frame in sequence is accepted whatever the clock says |
| `Fifo.AcceptsRekey` | session_receive.go:58-88 | the next RekeyInit moves the receiver to the sender's next epoch and key |
| `Fifo.SessionsFaithful` | session_send.go:45-152 | in any surroundings, what a synchronised session seals its peer accepts at the same epoch and key, yields what was sent, and both are synchronised again |
| `Fifo.MessageDelivered` | connection_send.go:174-193 | everything one message puts on the stream is received in step and delivers it exactly once if its own frame was handed over |
| `Fifo.FifoAcrossRekeys` | connection_send.go:174-193 | end to end, through any number of rekeys and any cut of the octets, every frame read is received without error at the epoch and key that sealed it, and the messages come back equal, in order, none missing once all octets are in |
| `Sessions.Session.constructor` | session.go:68-102 | a new session has both directions at epoch one with the default limits |
| `Sessions.Session.Open` | session.go:68-102 | session creation fails exactly for another cipher suite or the all-zero session ID, in that order |
| `Sessions.Session.Close` | session.go:118-128 | closes both directions and changes nothing else |
| `Sessions.Session.EncryptLocked` | session_send.go:94-110 | the counters move only when a frame comes out, as the sender model says |
| `Sessions.Session.StartRekeyLocked` | session_send.go:117-152 | seals the announcement and holds key, codec and epoch pending without switching |
| `Sessions.Session.SendLocked` | session_send.go:45-62 | the whole new sending state and result are the model's |
| `Sessions.Session.SendPayload` | session_send.go:32-43 | raw sends refuse rekey and ticket types and otherwise follow the model, leaving the receiving side alone |
| `Sessions.Session.Send` | session_send.go:14-27 | typed sends follow the model, leaving the receiving side alone |
| `Sessions.Session.MarkRekeySent` | session_send.go:69-87 | switches key, codec, epoch and counters together, or changes nothing |
| `Sessions.Session.ExpireGraceLocked` | session_receive.go:181-193 | drops the previous key and its window exactly when a budget is spent |
| `Sessions.Session.AcceptRekeyLocked` | session_receive.go:66-88 | the accepted rekey's whole new receiving state is the model's |
| `Sessions.Session.AcceptCurrentLocked` | session_receive.go:90-102 | a current-epoch frame commits its sequence and spends one grace frame |
| `Sessions.Session.AcceptPreviousLocked` | session_receive.go:102-109 | a previous-epoch frame commits in the previous window only |
| `Sessions.Session.ReceivePayload` | session_receive.go:38-110 | new state and result are the model's, a failure changes no field, and the sending side is untouched |
| `Sessions.Session.Receive` | session_receive.go:17-30 | typed receive follows the model; a malformed authenticated payload has still consumed its sequence |
| `Sessions.WriteMessage` | connection_send.go:174-193 | the retry loop ends, because each retry is one epoch on, having sealed and committed exactly what the stream model says, also when a Close comes before the send or before the mark |
| `Connections.FailPending` | connection_send.go:153-170 | whatever order the queues are drained in, the loop empties all three and fails each queued item once |
| `Connections.LeaseKeepsInv` | connection_send.go:72-101 | every step of a producer or of the dispatching reader under the read lease keeps the invariant |
| `Connections.ShutdownKeepsInv` | connection_lifecycle.go:120-143 | every step of the disposal keeps it: flag, cancel, exclusive lease, drain, drop, release, close |
| `Connections.WriterKeepsInv` | connection_send.go:109-193 | every step of the write loop and of its deferred drain keeps it |
| `Connections.HandlerKeepsOrder` | connection_receive.go:57-118 | every step of the handler worker and its callbacks keeps dispatch order |
| `Connections.LifeKeepsInv` | connection_lifecycle.go:11-118 | starting, claiming, closing and closing done keep it |
| `Connections.ReachableInv` | connection_lifecycle.go:11-143 | the invariant holds after every interleaving |
| `Connections.ExactlyOnce` | connection_send.go:72-170 | in every interleaving an accepted item is in exactly one place: queued, in one hand, or completed once; nothing else is anywhere |
| `Connections.DoneMeansSettled` | connection_lifecycle.go:11-143 | done closes at most once; by then queues and hands are empty, every accepted item has its one completion, and an application message was completed with nil exactly if it was written |
| `Connections.WrittenPrefix` | connection_send.go:109-193 | fully written application messages are a prefix of the acceptance order without repeats, and only those are completed with nil, even while shutdown drains concurrently |
| `Connections.HandlerPrefix` | connection_receive.go:39-118 | callbacks begun are an in-order prefix of the messages dispatched, and two are never active together |
| `Connections.NothingAfterDisposal` | connection_lifecycle.go:120-143 | once disposed, no run enqueues or dispatches anything and the queues stay empty |
| `Winding.StepWinds` | connection_lifecycle.go:120-143 | once canceled, every step except a new producer's arrival lowers a measure over queues, hands, jobs, callbacks and stages |
| `Winding.NeverStuck` | connection_lifecycle.go:11-143 | until done is closed, a canceled connection always has such a step enabled |
| `Winding.WindingEnds` | connection_lifecycle.go:120-143 | in whatever order they are taken, only boundedly many such steps can follow one another |
| `Winding.ShutdownCompletes` | connection_lifecycle.go:11-143 | from every reachable canceled state the shutdown can be carried through to a closed done with everything accepted completed, within a number of steps given by queue sizes and producers inside |
| `Winding.QuietMeansDone` | connection_lifecycle.go:11-143 | when no such step is left, done has been closed |
| `Keepalive.NextNonce` | connection_keepalive.go:17-30 | the next nonce is never zero and never the previous one, across rollover |
| `Keepalive.Pings.constructor` | connection.go:99-127 | no ping is expected at first |
| `Keepalive.Pings.BeginPing` | connection_keepalive.go:17-30 | publishes a fresh nonzero expectation, or nothing after cancellation |
| `Keepalive.Pings.ClearPing` | connection_keepalive.go:32-36 | withdraws expectation and acknowledgement |
| `Keepalive.Pings.AcknowledgePing` | connection_keepalive.go:38-49 | only the expected nonce before cancellation is acknowledged, and then a wakeup is pending |
| `Keepalive.Pings.ConsumePingAcknowledgement` | connection_keepalive.go:51-57 | reports and clears the acknowledgement |
| `Keepalive.StepKeepsInv` | connection_keepalive.go:17-132 | while no cause is recorded, every step keeps the ping fields an exact record of whether the outstanding ping has been answered |
| `Keepalive.TimeoutOnlyIfUnanswered` | connection_keepalive.go:17-132 | in every interleaving zero is never sent, and the timeout is the recorded cause only if the outstanding ping was unanswered when its deadline was judged |
| `Keepalive.TimeoutWrongExactlyIfLate` | connection_keepalive.go:115-125 | judged at the record of the cause instead, the timeout is wrong exactly when the answer came between check and record |
| `Keepalive.LatePongCounterexample` | connection_keepalive.go:115-125 | a run in which an answer is processed before the record and the cause is still the timeout |
| `Keepalive.LatePongExactly` | connection_lifecycle.go:145-151 | exactly the pongs processed in that gap can be missed |
| `Keepalive.DeadlineJudgesExactly` | connection_keepalive.go:115-125 | while no cause is recorded a deadline tick is fatal exactly when the ping is unanswered, and otherwise the loop goes on with the next ping armed |
| `Keepalive.NeverStuck` | connection_keepalive.go:74-132 | the selecting loop always has the next ping or the current deadline armed, and an answer has a wakeup pending |
| `Keepalive.TerminalStable` | connection_lifecycle.go:145-151 | whatever happens later, the first recorded cause stays |
| `Servers.Server.constructor` | server_config.go:154-161 | a server starts with empty maps and free slots |
| `Servers.Server.RegisterHandshake` | server_runtime.go:112-122 | registers socket and worker together, or refuses after shutdown |
| `Servers.Server.TryAcquire` | server_runtime.go:99-106 | takes a token of the pool exactly when one is free, and otherwise changes nothing |
| `Servers.Server.RegisterConn` | server_runtime.go:130-140 | moves the socket from one map to the other in one step, or refuses after shutdown |
| `Servers.Server.Admit` | server.go:98-112 | a worker starts exactly when a handshake slot is free and no shutdown has begun; a refused socket leaves no trace in maps, slots or wait count |
| `Servers.Server.BeginShutdown` | server.go:151-166 | raises the flag and lists every registered connection and socket exactly once |
| `Servers.Server.HandleConn` | server_runtime.go:9-83 | whichever way a worker ends, its deferred calls give back token, slot, map entries and wait count, and nothing else; it runs exactly when handshake, slot, admission and registration all succeed |
| `Servers.Server.ServeOne` | server_runtime.go:112-146 | a connection served from accept to the end leaves the server's books as it found them: registering and unregistering undo each other on every path |
| `Servers.StepBalances` | server_runtime.go:9-146 | each pool and the wait count change exactly when a holder comes or goes, within capacity |
| `Servers.StepKeepsPlace` | server_runtime.go:9-146 | every step keeps maps, closed sockets and snapshots in agreement with where each socket's owner stands |
| `Servers.OneOwner` | server_runtime.go:9-146 | in every interleaving an open socket with a worker is in exactly one of the two maps |
| `Servers.TokensConserved` | server_runtime.go:99-110 | tokens out of each pool are exactly their holders, never above capacity, and the wait count is exactly the workers |
| `Servers.ReleaseNeverBlocks` | server_runtime.go:108-110 | whoever comes to release a token finds one, and the wait count never goes negative |
| `Servers.ShutdownReachesAll` | server.go:117-166 | once shutdown has begun, every socket with a worker was in a snapshot or is closed |
| `Servers.NothingRegisteredAfterShutdown` | server_runtime.go:112-140 | after shutdown begins no run adds a worker or a map entry |
| `Servers.WaitMeansQuiet` | server.go:117-131 | when the wait in Close ends, both maps are empty and every connection slot is free, for good |

## Left out

- Handshake, static keys and Noise messages: mostly calls into an unseen library; sessions start from crossed keys and a session ID.
- Dialing, configuration defaults and validation of client and server: flat per-branch facts.
- Real cryptography and constant-time comparison: function values with the one assumption named above.
- Sockets, deadlines, context watchers and timers: nondeterministic success, failure, cancel and tick steps.
- Scheduling: that an enabled step is eventually taken, that a closed socket unblocks a read, and that user callbacks return is not stated; `Winding` counts these as steps that can be taken.
- Error text and wrapping, nil against empty slices and slice aliasing: a small error datatype and sequences as values.
- Resumption tickets, key logging, accept retry policy, statistics and the envelope builder: I/O or small additions.
- The runtime's goroutines: `Connections`, the maintenance loop of `Keepalive` and the workers of `Servers` are state machines over values rather than running loops, so update in place and channel identity are not captured there; the ping fields, the server's books with the sequential life of one worker, and the drain loop are.
- The lane tokens that serialise two transports' reads and writes: each connection has one reader and one writer, and the cancellation check of the lane is the `WriteStarts` step.
- The priority of a close request over other queues is widened to any choice, and completion channels that are nil are treated like the others.
- Transport.Socket.ReadFrame: does not model context cancellation and deadlines, which turn any read error into the context's error.
- Sessions.WriteMessage: the outcome of each transport write and a racing Close are parameters; a failing write of the runtime is the `WriteFails` step of `Connections`.
- Receiving.DeadEpochNeverAccepts: does not model saturation of time addition near the ends of the representable range; clock readings are unbounded integers.
- The closing of each socket listed by a shutdown snapshot is widened to any socket closing at any time.
