/**
 * The connection runtime as interleaved atomic steps: producers under a read lease, one writer,
 * a handler worker, and the once-only disposal that shutdown runs under the exclusive lease.
 * Items and messages carry identities; the fields named as past participles are history.
 */
module Connections {
  import opened Runs

  datatype Kind = Outbound | Control | CloseRequest

  datatype Item = Item(kind: Kind, id: nat)

  /** The three write queues, and what has become of the items accepted into them. */
  datatype Out = Out(
    outbound: seq<Item>, control: seq<Item>, closeRequests: seq<Item>,
    accepted: set<Item>, completedOk: multiset<Item>, completedErr: multiset<Item>,
    acceptedOut: seq<Item>, takenOut: seq<Item>, written: seq<Item>)

  /** The write loop. In Holding, started means past the cancellation checks of WriteFrame. */
  datatype Writer =
    | NotStarted | Idle
    | Holding(item: Item, started: bool) | Wrote(item: Item, ok: bool)
    | Closing | Draining | DrainHolding(item: Item) | Exited

  datatype Worker = NoHandler | Ready | Took(message: nat) | Waiting(message: nat) | WorkerClosing | WorkerExited

  datatype Callback = Callback(message: nat, begun: bool)

  /** The dispatch queue, the handler worker and its callbacks. */
  datatype In = In(
    queue: seq<nat>, worker: Worker, active: seq<Callback>,
    dispatched: seq<nat>, taken: seq<nat>, begun: seq<nat>)

  /** A thread between RLock and RUnlock of queueMu. */
  datatype Work = Enqueue(item: Item) | Dispatch(message: nat)
  datatype Stage = Entered | Checked | Sent
  datatype Job = Job(work: Work, stage: Stage)

  /** The body of shutdownOnce: flag, cancel, exclusive lease, drain, release, close. */
  datatype Disposal = NotBegun | Begun | Canceled | Locked | LockedHolding(item: Item) | Dropping | Unlocked | Finished

  /** Who owns startOnce, and whether that owner has closed done. */
  datatype Starter = Unclaimed | Running | Stopped | Closed
  datatype Life = Life(starter: Starter, loops: nat, doneCloses: nat)

  datatype Config = Config(outboundCap: nat, handlerCap: nat, hasHandler: bool)

  datatype State = State(
    config: Config, out: Out, writer: Writer, inbound: In, life: Life,
    jobs: map<nat, Job>, closing: bool, canceled: bool, disposal: Disposal)

  function NewConnection(outboundCap: nat, handlerCap: nat, hasHandler: bool): State {
    State(Config(if outboundCap == 0 then 16 else outboundCap, if handlerCap == 0 then 16 else handlerCap, hasHandler),
          Out([], [], [], {}, multiset{}, multiset{}, [], [], []), NotStarted,
          In([], NoHandler, [], [], [], []), Life(Unclaimed, 0, 0),
          map[], false, false, NotBegun)
  }

  /* ---------- queues ---------- */

  function Queue(out: Out, kind: Kind): seq<Item> {
    match kind
    case Outbound => out.outbound
    case Control => out.control
    case CloseRequest => out.closeRequests
  }

  function Capacity(config: Config, kind: Kind): nat {
    match kind
    case Outbound => config.outboundCap
    case Control => 16
    case CloseRequest => 1
  }

  function Queued(out: Out): multiset<Item> {
    multiset(out.outbound) + multiset(out.control) + multiset(out.closeRequests)
  }

  predicate QueuesEmpty(out: Out) { out.outbound == [] && out.control == [] && out.closeRequests == [] }

  function Pop(out: Out, kind: Kind): Out
    requires Queue(out, kind) != []
  {
    match kind
    case Outbound => out.(outbound := out.outbound[1..], takenOut := out.takenOut + [out.outbound[0]])
    case Control => out.(control := out.control[1..])
    case CloseRequest => out.(closeRequests := out.closeRequests[1..])
  }

  function Push(out: Out, item: Item): Out {
    var out' := out.(accepted := out.accepted + {item});
    match item.kind
    case Outbound => out'.(outbound := out.outbound + [item], acceptedOut := out.acceptedOut + [item])
    case Control => out'.(control := out.control + [item])
    case CloseRequest => out'.(closeRequests := out.closeRequests + [item])
  }

  function Complete(out: Out, item: Item, ok: bool): Out {
    if ok then out.(completedOk := out.completedOk + multiset{item})
    else out.(completedErr := out.completedErr + multiset{item})
  }

  function Write(out: Out, item: Item): Out {
    if item.kind == Outbound then out.(written := out.written + [item]) else out
  }

  function TakeMessage(i: In): In
    requires i.queue != []
  {
    i.(queue := i.queue[1..], taken := i.taken + [i.queue[0]])
  }

  /** The drain loop: whichever queue is chosen each time, it empties all three and fails each item once. */
  method FailPending(out: Out) returns (drained: Out)
    ensures QueuesEmpty(drained)
    ensures drained.completedErr == out.completedErr + Queued(out) && drained.completedOk == out.completedOk
    ensures drained.takenOut == out.takenOut + out.outbound
    ensures drained.accepted == out.accepted && drained.acceptedOut == out.acceptedOut && drained.written == out.written
  {
    drained := out;
    while !QueuesEmpty(drained)
      invariant drained.completedErr + Queued(drained) == out.completedErr + Queued(out)
      invariant drained.completedOk == out.completedOk
      invariant drained.takenOut + drained.outbound == out.takenOut + out.outbound
      invariant drained.accepted == out.accepted && drained.acceptedOut == out.acceptedOut
      invariant drained.written == out.written
      decreases |drained.outbound| + |drained.control| + |drained.closeRequests|
    {
      var kind :| Queue(drained, kind) != [];
      var item := Queue(drained, kind)[0];
      PopTakes(drained, kind);
      drained := Complete(Pop(drained, kind), item, false);
    }
    assert Queued(drained) == multiset{};
  }

  lemma PopTakes(out: Out, kind: Kind)
    requires Queue(out, kind) != []
    ensures Queued(out) == Queued(Pop(out, kind)) + multiset{Queue(out, kind)[0]}
    ensures Pop(out, kind).takenOut + Pop(out, kind).outbound == out.takenOut + out.outbound
  {
    var q := Queue(out, kind);
    HeadCount(q);
    if kind == Outbound { assert out.takenOut + [q[0]] + q[1..] == out.takenOut + q; }
  }

  lemma HeadCount(q: seq<Item>)
    requires q != []
    ensures multiset(q) == multiset{q[0]} + multiset(q[1..])
  {
    assert q == [q[0]] + q[1..];
  }

  /* ---------- lifecycle steps ---------- */

  datatype LifeAction = Start | Claim | SetClosing | LoopExits | CloseDone

  predicate LifeEnabled(s: State, a: LifeAction) {
    match a
    case Start => s.life.starter == Unclaimed
    case Claim => s.life.starter == Unclaimed
    case SetClosing => true
    case LoopExits => s.life.loops > 0
    case CloseDone =>
      && s.disposal == Finished
      && (s.life.starter == Stopped ||
          (s.life.starter == Running && s.writer == Exited && s.life.loops == 0
           && s.inbound.worker in {NoHandler, WorkerExited}))
  }

  /** Loops other than writer and handler are the reader and the maintenance loop. */
  function LifeStep(s: State, a: LifeAction): State {
    match a
    case Start =>
      s.(life := s.life.(starter := Running, loops := 2), writer := Idle,
         inbound := s.inbound.(worker := if s.config.hasHandler then Ready else NoHandler))
    case Claim => s.(life := s.life.(starter := Stopped))
    case SetClosing => s.(closing := true)
    case LoopExits => s.(life := s.life.(loops := if s.life.loops > 0 then s.life.loops - 1 else 0))
    case CloseDone => s.(life := s.life.(starter := Closed, doneCloses := s.life.doneCloses + 1))
  }

  /* ---------- producers and the reader, under the read lease ---------- */

  datatype LeaseAction =
    | Acquire(thread: nat, work: Work) | Check(thread: nat, callerCanceled: bool) | Give(thread: nat)
    | Abandon(thread: nat) | Release(thread: nat)

  /** queueMu is held exclusively. */
  predicate LeaseTaken(d: Disposal) { d.Locked? || d.LockedHolding? || d.Dropping? }

  predicate JobAt(s: State, thread: nat, stage: Stage) { thread in s.jobs && s.jobs[thread].stage == stage }

  /** The check made under the lease refuses the job. */
  predicate Refused(s: State, work: Work, callerCanceled: bool) {
    match work
    case Dispatch(_) => s.canceled
    case Enqueue(item) => if item.kind == CloseRequest then s.canceled else callerCanceled || s.closing
  }

  predicate HasRoom(s: State, work: Work) {
    match work
    case Dispatch(_) => |s.inbound.queue| < s.config.handlerCap
    case Enqueue(item) => item !in s.out.accepted && |Queue(s.out, item.kind)| < Capacity(s.config, item.kind)
  }

  predicate LeaseEnabled(s: State, a: LeaseAction) {
    match a
    case Acquire(thread, _) => thread !in s.jobs && !LeaseTaken(s.disposal)
    case Check(thread, _) => JobAt(s, thread, Entered)
    case Give(thread) => JobAt(s, thread, Checked) && HasRoom(s, s.jobs[thread].work)
    case Abandon(thread) => JobAt(s, thread, Checked)
    case Release(thread) => JobAt(s, thread, Sent)
  }

  function Given(s: State, work: Work): State {
    match work
    case Dispatch(message) =>
      s.(inbound := s.inbound.(queue := s.inbound.queue + [message], dispatched := s.inbound.dispatched + [message]))
    case Enqueue(item) => s.(out := Push(s.out, item))
  }

  function LeaseStep(s: State, a: LeaseAction): State
    requires LeaseEnabled(s, a)
  {
    match a
    case Acquire(thread, work) => s.(jobs := s.jobs[thread := Job(work, Entered)])
    case Check(thread, callerCanceled) =>
      if Refused(s, s.jobs[thread].work, callerCanceled) then s.(jobs := s.jobs - {thread})
      else s.(jobs := s.jobs[thread := s.jobs[thread].(stage := Checked)])
    case Give(thread) => Given(s, s.jobs[thread].work).(jobs := s.jobs[thread := s.jobs[thread].(stage := Sent)])
    case Abandon(thread) => s.(jobs := s.jobs - {thread})
    case Release(thread) => s.(jobs := s.jobs - {thread})
  }

  /* ---------- shutdown ---------- */

  datatype ShutdownAction = Begin | Cancel | Lock | Take(kind: Kind) | Fail | Drained | Drop | Unlock | Finish

  predicate ShutdownEnabled(s: State, a: ShutdownAction) {
    match a
    case Begin => s.disposal == NotBegun
    case Cancel => s.disposal == Begun
    case Lock => s.disposal == Canceled && s.jobs == map[]
    case Take(kind) => s.disposal == Locked && Queue(s.out, kind) != []
    case Fail => s.disposal.LockedHolding?
    case Drained => s.disposal == Locked && QueuesEmpty(s.out)
    case Drop => s.disposal == Dropping && s.inbound.queue != []
    case Unlock => s.disposal == Dropping && s.inbound.queue == []
    case Finish => s.disposal == Unlocked
  }

  function ShutdownStep(s: State, a: ShutdownAction): State
    requires ShutdownEnabled(s, a)
  {
    match a
    case Begin => s.(closing := true, disposal := Begun)
    case Cancel => s.(canceled := true, disposal := Canceled)
    case Lock => s.(disposal := Locked)
    case Take(kind) => s.(out := Pop(s.out, kind), disposal := LockedHolding(Queue(s.out, kind)[0]))
    case Fail => s.(out := Complete(s.out, s.disposal.item, false), disposal := Locked)
    case Drained => s.(disposal := Dropping)
    case Drop => s.(inbound := TakeMessage(s.inbound))
    case Unlock => s.(disposal := Unlocked)
    case Finish => s.(disposal := Finished)
  }

  /* ---------- writer ---------- */

  datatype WriterAction =
    | WriterTakes(kind: Kind) | WriteStarts | RekeyWritten | WriteSucceeds | WriteFails | Completes
    | WriterCanceled | ShutdownReturns | DrainTakes(kind: Kind) | DrainFails | DrainEnds

  predicate WriterEnabled(s: State, a: WriterAction) {
    match a
    case WriterTakes(kind) => s.writer == Idle && Queue(s.out, kind) != []
    case WriteStarts => s.writer.Holding? && !s.writer.started && !s.canceled
    case RekeyWritten => s.writer.Holding? && s.writer.started
    case WriteSucceeds => s.writer.Holding? && s.writer.started
    case WriteFails => s.writer.Holding?
    case Completes => s.writer.Wrote?
    case WriterCanceled => s.writer == Idle && s.canceled
    case ShutdownReturns => s.writer == Writer.Closing && s.disposal == Finished
    case DrainTakes(kind) => s.writer == Draining && Queue(s.out, kind) != []
    case DrainFails => s.writer.DrainHolding?
    case DrainEnds => s.writer == Draining && QueuesEmpty(s.out)
  }

  /** A failed write ends the loop, and so does any close request. */
  function AfterCompletion(item: Item, ok: bool): Writer {
    if ok && item.kind != CloseRequest then Idle else Writer.Closing
  }

  function WriterStep(s: State, a: WriterAction): State
    requires WriterEnabled(s, a)
  {
    match a
    case WriterTakes(kind) => s.(out := Pop(s.out, kind), writer := Holding(Queue(s.out, kind)[0], false))
    case WriteStarts => s.(writer := s.writer.(started := true))
    case RekeyWritten => s.(writer := s.writer.(started := false))
    case WriteSucceeds => s.(out := Write(s.out, s.writer.item), writer := Wrote(s.writer.item, true))
    case WriteFails => s.(writer := Wrote(s.writer.item, false))
    case Completes =>
      s.(out := Complete(s.out, s.writer.item, s.writer.ok),
         writer := AfterCompletion(s.writer.item, s.writer.ok))
    case WriterCanceled => s.(writer := Draining)
    case ShutdownReturns => s.(writer := Draining)
    case DrainTakes(kind) => s.(out := Pop(s.out, kind), writer := DrainHolding(Queue(s.out, kind)[0]))
    case DrainFails => s.(out := Complete(s.out, s.writer.item, false), writer := Draining)
    case DrainEnds => s.(writer := Exited)
  }

  /* ---------- handler ---------- */

  datatype HandlerAction =
    | HandlerTakes | Recheck | CallbackBegins(index: nat) | CallbackReturns(index: nat)
    | Result(failed: bool) | Detach | HandlerCanceled | HandlerShutdownReturns

  predicate HandlerEnabled(s: State, a: HandlerAction) {
    var i := s.inbound;
    match a
    case HandlerTakes => i.worker == Ready && i.queue != []
    case Recheck => i.worker.Took?
    case CallbackBegins(index) => index < |i.active| && !i.active[index].begun
    case CallbackReturns(index) => index < |i.active| && i.active[index].begun
    case Result(_) => i.worker.Waiting? && i.active == []
    case Detach => i.worker.Waiting? && s.canceled
    case HandlerCanceled => i.worker == Ready && s.canceled
    case HandlerShutdownReturns => i.worker == WorkerClosing && s.disposal == Finished
  }

  function HandlerStep(s: State, a: HandlerAction): In
    requires HandlerEnabled(s, a)
  {
    var i := s.inbound;
    match a
    case HandlerTakes => TakeMessage(i).(worker := Took(i.queue[0]))
    case Recheck =>
      if s.canceled then i.(worker := WorkerExited)
      else i.(worker := Waiting(i.worker.message), active := i.active + [Callback(i.worker.message, false)])
    case CallbackBegins(index) =>
      i.(active := i.active[index := i.active[index].(begun := true)], begun := i.begun + [i.active[index].message])
    case CallbackReturns(index) => i.(active := i.active[..index] + i.active[index + 1..])
    case Result(failed) => i.(worker := if failed then WorkerClosing else Ready)
    case Detach => i.(worker := Ready)
    case HandlerCanceled => i.(worker := WorkerExited)
    case HandlerShutdownReturns => i.(worker := WorkerExited)
  }

  /* ---------- the whole machine ---------- */

  datatype Action = OfLife(life: LifeAction) | OfLease(lease: LeaseAction) | OfShutdown(shutdown: ShutdownAction)
                  | OfWriter(writer: WriterAction) | OfHandler(handler: HandlerAction)

  predicate Enabled(s: State, a: Action) {
    match a
    case OfLife(b) => LifeEnabled(s, b)
    case OfLease(b) => LeaseEnabled(s, b)
    case OfShutdown(b) => ShutdownEnabled(s, b)
    case OfWriter(b) => WriterEnabled(s, b)
    case OfHandler(b) => HandlerEnabled(s, b)
  }

  /** A step that is not enabled is not taken. */
  function Step(s: State, a: Action): State {
    if !Enabled(s, a) then s
    else
      match a
      case OfLife(b) => LifeStep(s, b)
      case OfLease(b) => LeaseStep(s, b)
      case OfShutdown(b) => ShutdownStep(s, b)
      case OfWriter(b) => WriterStep(s, b)
      case OfHandler(b) => s.(inbound := HandlerStep(s, b))
  }

  /* ---------- invariants ---------- */

  function HeldByWriter(w: Writer): multiset<Item> {
    match w
    case Holding(item, _) => multiset{item}
    case Wrote(item, _) => multiset{item}
    case DrainHolding(item) => multiset{item}
    case _ => multiset{}
  }

  function HeldByShutdown(d: Disposal): multiset<Item> {
    if d.LockedHolding? then multiset{d.item} else multiset{}
  }

  function InHand(w: Writer, d: Disposal): multiset<Item> { HeldByWriter(w) + HeldByShutdown(d) }

  function Held(s: State): multiset<Item> { InHand(s.writer, s.disposal) }

  /** Every accepted item is in exactly one place: a queue, a hand, or among the completions. */
  ghost predicate Conserved(out: Out, held: multiset<Item>) {
    multiset(out.accepted) == Queued(out) + held + out.completedOk + out.completedErr
  }

  /** Each queue holds its own kind, in the order accepted. */
  ghost predicate Kinds(out: Out) {
    && (forall item <- out.outbound :: item.kind == Outbound)
    && (forall item <- out.control :: item.kind == Control)
    && (forall item <- out.closeRequests :: item.kind == CloseRequest)
    && out.acceptedOut == out.takenOut + out.outbound
  }

  /** Written application messages are a prefix of those taken; only a write begun before cancellation can extend it. */
  ghost predicate WriteOrder(out: Out, w: Writer, canceled: bool) {
    && out.written <= out.takenOut
    && (!canceled && (w.NotStarted? || w.Idle? || (w.Holding? && w.item.kind != Outbound) || (w.Wrote? && w.ok)) ==>
          out.takenOut == out.written)
    && (w.Holding? && w.item.kind == Outbound && !canceled ==> out.takenOut == out.written + [w.item])
    && (w.Holding? && w.item.kind == Outbound && w.started ==>
          |out.written| < |out.takenOut| && out.takenOut[|out.written|] == w.item)
    && (w.Draining? || w.DrainHolding? || w.Exited? ==> canceled)
  }

  /** A nil completion is given, or about to be given, to exactly the items written in full. */
  ghost predicate OkMeansWritten(out: Out, w: Writer) {
    && (forall item :: item in out.completedOk && item.kind == Outbound ==> item in out.written)
    && (w.Wrote? && w.ok && w.item.kind == Outbound ==> w.item in out.written)
    && (forall item <- out.written :: item in out.completedOk || (w.Wrote? && w.ok && w.item == item))
  }

  /** No application message is accepted twice. */
  ghost predicate Distinct(accepted: set<Item>, acceptedOut: seq<Item>) {
    && (forall item <- acceptedOut :: item in accepted && item.kind == Outbound)
    && (forall i, j :: 0 <= i < j < |acceptedOut| ==> acceptedOut[i] != acceptedOut[j])
  }

  /** Callbacks begun are a prefix of the messages taken, and at most one is ever active. */
  ghost predicate HandlerOrder(i: In, canceled: bool) {
    && i.dispatched == i.taken + i.queue
    && i.begun <= i.taken
    && |i.active| <= 1
    && (i.active != [] && !i.active[0].begun ==> |i.begun| < |i.taken| && i.taken[|i.begun|] == i.active[0].message)
    && (!canceled ==>
          && (i.active != [] ==> i.worker.Waiting?)
          && i.taken == i.begun + (if i.worker.Took? then [i.worker.message]
                                   else if i.active != [] && !i.active[0].begun then [i.active[0].message] else []))
  }

  /** Flags, the lease, and what the disposal has already emptied for good. */
  ghost predicate Staged(s: State) {
    && (s.disposal != NotBegun ==> s.closing)
    && (s.canceled <==> !(s.disposal.NotBegun? || s.disposal.Begun?))
    && (LeaseTaken(s.disposal) ==> s.jobs == map[])
    && (s.disposal.Dropping? ==> QueuesEmpty(s.out))
    && (s.disposal.Unlocked? || s.disposal.Finished? ==>
          QueuesEmpty(s.out) && s.inbound.queue == [] && forall t <- s.jobs :: s.jobs[t].stage == Entered)
  }

  /** done is closed at most once, by the owner of startOnce, after everything else has ended. */
  ghost predicate Lifecycle(life: Life, w: Writer, h: Worker, d: Disposal) {
    && life.doneCloses == (if life.starter == Closed then 1 else 0) && life.loops <= 2
    && (life.starter == Unclaimed || life.starter == Stopped ==> w == NotStarted && h == NoHandler && life.loops == 0)
    && (life.starter == Running ==> w != NotStarted)
    && (life.starter == Closed ==>
          d == Finished && life.loops == 0 && (w == NotStarted || w == Exited) && (h == NoHandler || h == WorkerExited))
  }

  ghost predicate OutInv(out: Out, w: Writer, canceled: bool, d: Disposal) {
    && Conserved(out, InHand(w, d)) && Kinds(out) && Distinct(out.accepted, out.acceptedOut)
    && WriteOrder(out, w, canceled) && OkMeansWritten(out, w)
  }

  ghost predicate Inv(s: State) {
    && OutInv(s.out, s.writer, s.canceled, s.disposal)
    && HandlerOrder(s.inbound, s.canceled) && Staged(s)
    && Lifecycle(s.life, s.writer, s.inbound.worker, s.disposal)
  }

  lemma NewInv(outboundCap: nat, handlerCap: nat, hasHandler: bool)
    ensures Inv(NewConnection(outboundCap, handlerCap, hasHandler))
  {
  }

  /* ---------- what each queue operation does to the invariant of Out ---------- */

  lemma PopConserves(out: Out, kind: Kind, held: multiset<Item>)
    requires Queue(out, kind) != [] && Conserved(out, held)
    ensures Conserved(Pop(out, kind), held + multiset{Queue(out, kind)[0]})
  {
    PopTakes(out, kind);
  }

  lemma PopKinds(out: Out, kind: Kind)
    requires Queue(out, kind) != [] && Kinds(out)
    ensures Kinds(Pop(out, kind)) && Queue(out, kind)[0].kind == kind
  {
    var q := Queue(out, kind);
    assert q == [q[0]] + q[1..];
    assert q[0] in q;
  }

  lemma PushConserves(out: Out, item: Item, held: multiset<Item>)
    requires item !in out.accepted && Conserved(out, held)
    ensures Conserved(Push(out, item), held)
  {
    PushQueues(out, item);
    assert multiset(out.accepted + {item}) == multiset(out.accepted) + multiset{item};
    Arrived(multiset(out.accepted), Queued(out), multiset{item}, held, out.completedOk, out.completedErr);
  }

  lemma PushQueues(out: Out, item: Item)
    ensures Queued(Push(out, item)) == Queued(out) + multiset{item}
  {
  }

  lemma Arrived(all: multiset<Item>, queued: multiset<Item>, item: multiset<Item>, held: multiset<Item>,
                ok: multiset<Item>, err: multiset<Item>)
    requires all == queued + held + ok + err
    ensures all + item == queued + item + held + ok + err
  {
  }

  lemma PushKinds(out: Out, item: Item)
    requires Kinds(out)
    ensures Kinds(Push(out, item))
  {
  }

  lemma OutPush(out: Out, item: Item, w: Writer, canceled: bool, d: Disposal)
    requires OutInv(out, w, canceled, d) && item !in out.accepted
    ensures OutInv(Push(out, item), w, canceled, d)
  {
    PushConserves(out, item, InHand(w, d));
    PushKinds(out, item);
    PushDistinct(out, item);
  }

  lemma PushDistinct(out: Out, item: Item)
    requires Distinct(out.accepted, out.acceptedOut) && item !in out.accepted
    ensures Distinct(Push(out, item).accepted, Push(out, item).acceptedOut)
  {
  }

  /** An item popped into somebody's hand stays accounted for. */
  lemma PopIntoHand(out: Out, kind: Kind, w: Writer, d: Disposal, w': Writer, d': Disposal)
    requires Queue(out, kind) != [] && Conserved(out, InHand(w, d)) && Kinds(out)
    requires Distinct(out.accepted, out.acceptedOut)
    requires InHand(w', d') == InHand(w, d) + multiset{Queue(out, kind)[0]}
    ensures var out' := Pop(out, kind);
            && Conserved(out', InHand(w', d')) && Kinds(out') && Distinct(out'.accepted, out'.acceptedOut)
            && Queue(out, kind)[0].kind == kind
  {
    PopConserves(out, kind, InHand(w, d));
    PopKinds(out, kind);
  }

  lemma WriterTakesInHand(w: Writer, w': Writer, d: Disposal, item: Item)
    requires HeldByWriter(w) == multiset{} && HeldByWriter(w') == multiset{item}
    ensures InHand(w', d) == InHand(w, d) + multiset{item}
  {
  }

  lemma ShutdownTakesInHand(w: Writer, item: Item)
    ensures InHand(w, LockedHolding(item)) == InHand(w, Locked) + multiset{item}
  {
  }

  lemma CanceledPopKeepsOrder(out: Out, kind: Kind, w: Writer)
    requires Queue(out, kind) != [] && WriteOrder(out, w, true)
    ensures WriteOrder(Pop(out, kind), w, true)
  {
  }

  lemma OutWriterPop(out: Out, kind: Kind, canceled: bool, d: Disposal)
    requires OutInv(out, Idle, canceled, d) && Queue(out, kind) != []
    ensures OutInv(Pop(out, kind), Holding(Queue(out, kind)[0], false), canceled, d)
  {
    var w' := Holding(Queue(out, kind)[0], false);
    WriterTakesInHand(Idle, w', d, Queue(out, kind)[0]);
    PopIntoHand(out, kind, Idle, d, w', d);
    WriterPopKeepsOrder(out, kind, canceled);
  }

  lemma WriterPopKeepsOrder(out: Out, kind: Kind, canceled: bool)
    requires Queue(out, kind) != [] && Queue(out, kind)[0].kind == kind && WriteOrder(out, Idle, canceled)
    ensures WriteOrder(Pop(out, kind), Holding(Queue(out, kind)[0], false), canceled)
  {
  }

  /** Once canceled, items may leave the queue in any hands: they only lengthen what was taken. */
  lemma OutDrainPop(out: Out, kind: Kind, d: Disposal)
    requires OutInv(out, Draining, true, d) && Queue(out, kind) != []
    ensures OutInv(Pop(out, kind), DrainHolding(Queue(out, kind)[0]), true, d)
  {
    var w' := DrainHolding(Queue(out, kind)[0]);
    WriterTakesInHand(Draining, w', d, Queue(out, kind)[0]);
    PopIntoHand(out, kind, Draining, d, w', d);
    CanceledPopKeepsOrder(out, kind, Draining);
  }

  lemma OutShutdownPop(out: Out, kind: Kind, w: Writer)
    requires OutInv(out, w, true, Locked) && Queue(out, kind) != []
    ensures OutInv(Pop(out, kind), w, true, LockedHolding(Queue(out, kind)[0]))
  {
    var d' := LockedHolding(Queue(out, kind)[0]);
    ShutdownTakesInHand(w, Queue(out, kind)[0]);
    PopIntoHand(out, kind, w, Locked, w, d');
    CanceledPopKeepsOrder(out, kind, w);
  }

  /** An item completed out of somebody's hand stays accounted for. */
  lemma CompleteFromHand(out: Out, item: Item, ok: bool, w: Writer, d: Disposal, w': Writer, d': Disposal)
    requires Conserved(out, InHand(w, d)) && Kinds(out)
    requires InHand(w, d) == InHand(w', d') + multiset{item}
    ensures Conserved(Complete(out, item, ok), InHand(w', d')) && Kinds(Complete(out, item, ok))
  {
    assert Queued(Complete(out, item, ok)) == Queued(out);
    Rebalanced(Queued(out), InHand(w', d'), multiset{item}, out.completedOk, out.completedErr);
  }

  lemma Rebalanced(queued: multiset<Item>, held: multiset<Item>, item: multiset<Item>, ok: multiset<Item>,
                   err: multiset<Item>)
    ensures queued + (held + item) + ok + err == queued + held + (ok + item) + err
    ensures queued + (held + item) + ok + err == queued + held + ok + (err + item)
  {
  }

  lemma OutShutdownFail(out: Out, item: Item, w: Writer, canceled: bool)
    requires OutInv(out, w, canceled, LockedHolding(item))
    ensures OutInv(Complete(out, item, false), w, canceled, Locked)
  {
    ShutdownTakesInHand(w, item);
    CompleteFromHand(out, item, false, w, LockedHolding(item), w, Locked);
  }

  lemma OutDrainFail(out: Out, item: Item, canceled: bool, d: Disposal)
    requires OutInv(out, DrainHolding(item), canceled, d)
    ensures OutInv(Complete(out, item, false), Draining, canceled, d)
  {
    WriterTakesInHand(Draining, DrainHolding(item), d, item);
    CompleteFromHand(out, item, false, DrainHolding(item), d, Draining, d);
  }

  lemma OutComplete(out: Out, item: Item, ok: bool, canceled: bool, d: Disposal)
    requires OutInv(out, Wrote(item, ok), canceled, d)
    ensures OutInv(Complete(out, item, ok), AfterCompletion(item, ok), canceled, d)
  {
    var w' := AfterCompletion(item, ok);
    WriterTakesInHand(w', Wrote(item, ok), d, item);
    CompleteFromHand(out, item, ok, Wrote(item, ok), d, w', d);
    assert WriteOrder(Complete(out, item, ok), w', canceled);
  }

  lemma OutWrite(out: Out, item: Item, canceled: bool, d: Disposal)
    requires OutInv(out, Holding(item, true), canceled, d)
    ensures OutInv(Write(out, item), Wrote(item, true), canceled, d)
  {
    WriteKeepsOrder(out, item, canceled);
    assert Queued(Write(out, item)) == Queued(out);
    assert InHand(Wrote(item, true), d) == InHand(Holding(item, true), d);
    assert Kinds(Write(out, item));
  }

  lemma WriteKeepsOrder(out: Out, item: Item, canceled: bool)
    requires WriteOrder(out, Holding(item, true), canceled) && OkMeansWritten(out, Holding(item, true))
    ensures WriteOrder(Write(out, item), Wrote(item, true), canceled)
    ensures OkMeansWritten(Write(out, item), Wrote(item, true))
  {
  }

  /** A writer that only moves on keeps its item, if any, in hand. */
  lemma OutMove(out: Out, w: Writer, w': Writer, canceled: bool, d: Disposal)
    requires OutInv(out, w, canceled, d) && HeldByWriter(w') == HeldByWriter(w) && WriteOrder(out, w', canceled)
    requires w.Wrote? || w'.Wrote? ==> w'.Wrote? && !w'.ok && (w.Wrote? ==> !w.ok)
    ensures OutInv(out, w', canceled, d)
  {
  }

  /* ---------- every step keeps the invariant ---------- */

  lemma LifeKeepsInv(s: State, a: LifeAction)
    requires Inv(s) && LifeEnabled(s, a)
    ensures Inv(LifeStep(s, a))
  {
    if a.Start? { OutMove(s.out, s.writer, Idle, s.canceled, s.disposal); }
  }

  lemma GiveKeepsInv(s: State, thread: nat)
    requires Inv(s) && LeaseEnabled(s, Give(thread))
    ensures Inv(LeaseStep(s, Give(thread)))
  {
    assert !s.disposal.Unlocked? && !s.disposal.Finished? && !LeaseTaken(s.disposal);
    match s.jobs[thread].work
    case Enqueue(item) => OutPush(s.out, item, s.writer, s.canceled, s.disposal);
    case Dispatch(message) =>
  }

  lemma JobsKeepInv(s: State, jobs: map<nat, Job>)
    requires Inv(s)
    requires LeaseTaken(s.disposal) ==> jobs == map[]
    requires s.disposal.Unlocked? || s.disposal.Finished? ==> forall t <- jobs :: jobs[t].stage == Entered
    ensures Inv(s.(jobs := jobs))
  {
  }

  lemma LeaseKeepsInv(s: State, a: LeaseAction)
    requires Inv(s) && LeaseEnabled(s, a)
    ensures Inv(LeaseStep(s, a))
  {
    match a
    case Give(thread) => GiveKeepsInv(s, thread);
    case Acquire(thread, work) => JobsKeepInv(s, s.jobs[thread := Job(work, Entered)]);
    case Check(thread, callerCanceled) => CheckKeepsInv(s, thread, callerCanceled);
    case Abandon(thread) => JobsKeepInv(s, s.jobs - {thread});
    case Release(thread) => JobsKeepInv(s, s.jobs - {thread});
  }

  /** After disposal both flags are up, so a job that enters late is refused. */
  lemma CheckKeepsInv(s: State, thread: nat, callerCanceled: bool)
    requires Inv(s) && LeaseEnabled(s, Check(thread, callerCanceled))
    ensures Inv(LeaseStep(s, Check(thread, callerCanceled)))
  {
    var work := s.jobs[thread].work;
    if Refused(s, work, callerCanceled) {
      JobsKeepInv(s, s.jobs - {thread});
    } else {
      assert !s.disposal.Unlocked? && !s.disposal.Finished?;
      JobsKeepInv(s, s.jobs[thread := s.jobs[thread].(stage := Checked)]);
    }
  }

  /** Disposal moves that touch no queue. */
  lemma ShutdownMoveKeepsInv(s: State, a: ShutdownAction)
    requires Inv(s) && ShutdownEnabled(s, a) && !a.Take? && !a.Fail? && !a.Drop? && !a.Cancel?
    ensures Inv(ShutdownStep(s, a))
  {
    assert InHand(s.writer, ShutdownStep(s, a).disposal) == InHand(s.writer, s.disposal);
  }

  lemma DropKeepsInv(s: State)
    requires Inv(s) && ShutdownEnabled(s, Drop)
    ensures Inv(ShutdownStep(s, Drop))
  {
    assert s.inbound.queue == [s.inbound.queue[0]] + s.inbound.queue[1..];
    assert HandlerOrder(TakeMessage(s.inbound), s.canceled);
  }

  lemma CancelKeepsInv(s: State)
    requires Inv(s) && ShutdownEnabled(s, Cancel)
    ensures Inv(ShutdownStep(s, Cancel))
  {
    assert InHand(s.writer, Canceled) == InHand(s.writer, Begun);
    assert WriteOrder(s.out, s.writer, true) && HandlerOrder(s.inbound, true);
  }

  lemma ShutdownKeepsInv(s: State, a: ShutdownAction)
    requires Inv(s) && ShutdownEnabled(s, a)
    ensures Inv(ShutdownStep(s, a))
  {
    match a
    case Take(kind) => OutShutdownPop(s.out, kind, s.writer);
    case Fail => OutShutdownFail(s.out, s.disposal.item, s.writer, s.canceled);
    case Drop => DropKeepsInv(s);
    case Cancel => CancelKeepsInv(s);
    case _ => ShutdownMoveKeepsInv(s, a);
  }

  /** The rest of the state does not mind what a running writer does, once its own invariant is kept. */
  lemma WriterFrame(s: State, out: Out, w: Writer)
    requires Inv(s) && !s.writer.NotStarted? && !s.writer.Exited? && !w.NotStarted?
    requires OutInv(out, w, s.canceled, s.disposal) && (QueuesEmpty(s.out) ==> QueuesEmpty(out))
    ensures Inv(s.(out := out, writer := w))
  {
    assert s.life.starter == Running;
  }

  /** Writer actions that leave queues and completions alone. */
  predicate Moves(a: WriterAction) {
    a.WriteStarts? || a.RekeyWritten? || a.WriteFails? || a.WriterCanceled? || a.ShutdownReturns? || a.DrainEnds?
  }

  lemma MoveKeepsOrder(s: State, a: WriterAction)
    requires WriterEnabled(s, a) && Moves(a) && WriteOrder(s.out, s.writer, s.canceled)
    requires (s.disposal.Finished? ==> s.canceled)
    ensures var w := WriterStep(s, a).writer;
            && WriteOrder(s.out, w, s.canceled) && HeldByWriter(w) == HeldByWriter(s.writer)
            && !w.NotStarted? && !s.writer.Wrote? && (w.Wrote? ==> !w.ok)
    ensures WriterStep(s, a) == s.(out := s.out, writer := WriterStep(s, a).writer)
  {
  }

  lemma WriterMoveKeepsInv(s: State, a: WriterAction)
    requires Inv(s) && WriterEnabled(s, a) && Moves(a)
    ensures Inv(WriterStep(s, a))
  {
    var w := WriterStep(s, a).writer;
    MoveKeepsOrder(s, a);
    OutMove(s.out, s.writer, w, s.canceled, s.disposal);
    assert !s.writer.NotStarted? && !s.writer.Exited?;
    WriterFrame(s, s.out, w);
  }

  lemma WriterTakesKeepsInv(s: State, kind: Kind)
    requires Inv(s) && WriterEnabled(s, WriterTakes(kind))
    ensures Inv(WriterStep(s, WriterTakes(kind)))
  {
    OutWriterPop(s.out, kind, s.canceled, s.disposal);
    WriterFrame(s, Pop(s.out, kind), Holding(Queue(s.out, kind)[0], false));
  }

  lemma DrainTakesKeepsInv(s: State, kind: Kind)
    requires Inv(s) && WriterEnabled(s, DrainTakes(kind))
    ensures Inv(WriterStep(s, DrainTakes(kind)))
  {
    OutDrainPop(s.out, kind, s.disposal);
    WriterFrame(s, Pop(s.out, kind), DrainHolding(Queue(s.out, kind)[0]));
  }

  lemma CompletesKeepsInv(s: State)
    requires Inv(s) && WriterEnabled(s, Completes)
    ensures Inv(WriterStep(s, Completes))
  {
    OutComplete(s.out, s.writer.item, s.writer.ok, s.canceled, s.disposal);
    WriterFrame(s, Complete(s.out, s.writer.item, s.writer.ok), AfterCompletion(s.writer.item, s.writer.ok));
  }

  lemma DrainFailsKeepsInv(s: State)
    requires Inv(s) && WriterEnabled(s, DrainFails)
    ensures Inv(WriterStep(s, DrainFails))
  {
    OutDrainFail(s.out, s.writer.item, s.canceled, s.disposal);
    WriterFrame(s, Complete(s.out, s.writer.item, false), Draining);
  }

  lemma WriteSucceedsKeepsInv(s: State)
    requires Inv(s) && WriterEnabled(s, WriteSucceeds)
    ensures Inv(WriterStep(s, WriteSucceeds))
  {
    OutWrite(s.out, s.writer.item, s.canceled, s.disposal);
    WriterFrame(s, Write(s.out, s.writer.item), Wrote(s.writer.item, true));
  }

  lemma WriterKeepsInv(s: State, a: WriterAction)
    requires Inv(s) && WriterEnabled(s, a)
    ensures Inv(WriterStep(s, a))
  {
    match a
    case WriterTakes(kind) => WriterTakesKeepsInv(s, kind);
    case DrainTakes(kind) => DrainTakesKeepsInv(s, kind);
    case Completes => CompletesKeepsInv(s);
    case DrainFails => DrainFailsKeepsInv(s);
    case WriteSucceeds => WriteSucceedsKeepsInv(s);
    case _ => WriterMoveKeepsInv(s, a);
  }

  lemma HandlerKeepsOrder(s: State, a: HandlerAction)
    requires HandlerOrder(s.inbound, s.canceled) && HandlerEnabled(s, a)
    ensures HandlerOrder(HandlerStep(s, a), s.canceled)
  {
    if a.HandlerTakes? { HandlerTakesKeepsOrder(s.inbound, s.canceled); }
  }

  lemma HandlerTakesKeepsOrder(i: In, canceled: bool)
    requires HandlerOrder(i, canceled) && i.worker == Ready && i.queue != []
    ensures HandlerOrder(TakeMessage(i).(worker := Took(i.queue[0])), canceled)
  {
    assert i.queue == [i.queue[0]] + i.queue[1..];
  }

  lemma HandlerKeepsInv(s: State, a: HandlerAction)
    requires Inv(s) && HandlerEnabled(s, a)
    ensures Inv(s.(inbound := HandlerStep(s, a)))
  {
    HandlerKeepsOrder(s, a);
  }

  lemma StepKeepsInv(s: State, a: Action)
    requires Inv(s) && Enabled(s, a)
    ensures Inv(Step(s, a))
  {
    match a
    case OfLife(b) => LifeKeepsInv(s, b);
    case OfLease(b) => LeaseKeepsInv(s, b);
    case OfShutdown(b) => ShutdownKeepsInv(s, b);
    case OfWriter(b) => WriterKeepsInv(s, b);
    case OfHandler(b) => HandlerKeepsInv(s, b);
  }

  /* ---------- every run ---------- */

  function After(outboundCap: nat, handlerCap: nat, hasHandler: bool, actions: seq<Action>): State {
    Fold(Step, NewConnection(outboundCap, handlerCap, hasHandler), actions)
  }

  lemma AnyStepKeepsInv(s: State, a: Action)
    requires Inv(s)
    ensures Inv(Step(s, a))
  {
    if Enabled(s, a) { StepKeepsInv(s, a); }
  }

  lemma RunKeepsInv(s: State, actions: seq<Action>)
    requires Inv(s)
    ensures Inv(Fold(Step, s, actions))
  {
    forall s, a | Inv(s) ensures Inv(Step(s, a)) { AnyStepKeepsInv(s, a); }
    FoldAlways(Step, s => Inv(s), s, actions);
  }

  lemma ReachableInv(outboundCap: nat, handlerCap: nat, hasHandler: bool, actions: seq<Action>)
    ensures Inv(After(outboundCap, handlerCap, hasHandler, actions))
  {
    NewInv(outboundCap, handlerCap, hasHandler);
    RunKeepsInv(NewConnection(outboundCap, handlerCap, hasHandler), actions);
  }

  /** In every interleaving an accepted item is queued, in one hand, or completed once; nothing else is anywhere. */
  lemma ExactlyOnce(outboundCap: nat, handlerCap: nat, hasHandler: bool, actions: seq<Action>, item: Item)
    ensures var s := After(outboundCap, handlerCap, hasHandler, actions);
            Queued(s.out)[item] + Held(s)[item] + s.out.completedOk[item] + s.out.completedErr[item]
              == if item in s.out.accepted then 1 else 0
  {
    ReachableInv(outboundCap, handlerCap, hasHandler, actions);
    var s := After(outboundCap, handlerCap, hasHandler, actions);
    assert multiset(s.out.accepted)[item] == (Queued(s.out) + Held(s) + s.out.completedOk + s.out.completedErr)[item];
  }

  /**
   * done closes at most once; by then every queue is empty, every hand too, and every accepted item has its one
   * completion.
   */
  lemma DoneMeansSettled(outboundCap: nat, handlerCap: nat, hasHandler: bool, actions: seq<Action>)
    ensures var s := After(outboundCap, handlerCap, hasHandler, actions);
            && s.life.doneCloses <= 1
            && (s.life.doneCloses == 1 ==>
                  && QueuesEmpty(s.out) && s.inbound.queue == [] && Held(s) == multiset{}
                  && multiset(s.out.accepted) == s.out.completedOk + s.out.completedErr
                  && forall item <- s.out.acceptedOut :: item in s.out.completedOk <==> item in s.out.written)
  {
    ReachableInv(outboundCap, handlerCap, hasHandler, actions);
    var s := After(outboundCap, handlerCap, hasHandler, actions);
    if s.life.doneCloses == 1 { Settled(s); }
  }

  lemma Settled(s: State)
    requires Inv(s) && s.life.doneCloses == 1
    ensures QueuesEmpty(s.out) && s.inbound.queue == [] && Held(s) == multiset{}
    ensures multiset(s.out.accepted) == s.out.completedOk + s.out.completedErr
    ensures forall item <- s.out.acceptedOut :: item in s.out.completedOk <==> item in s.out.written
  {
    assert Held(s) == multiset{};
    assert Queued(s.out) == multiset{};
    assert s.out.acceptedOut == s.out.takenOut;
  }

  /** What is written in full is a prefix of what was accepted, without repeats, and only that is completed with nil. */
  lemma WrittenPrefix(outboundCap: nat, handlerCap: nat, hasHandler: bool, actions: seq<Action>)
    ensures var out := After(outboundCap, handlerCap, hasHandler, actions).out;
            && out.written <= out.acceptedOut
            && (forall i, j :: 0 <= i < j < |out.written| ==> out.written[i] != out.written[j])
            && (forall item :: item in out.completedOk && item.kind == Outbound ==> item in out.written)
  {
    ReachableInv(outboundCap, handlerCap, hasHandler, actions);
    var out := After(outboundCap, handlerCap, hasHandler, actions).out;
    assert forall i :: 0 <= i < |out.written| ==> out.written[i] == out.takenOut[i] == out.acceptedOut[i];
  }

  /**
   * Callbacks begin in dispatch order, none skipped, and two are never active together, before or after cancellation.
   */
  lemma HandlerPrefix(outboundCap: nat, handlerCap: nat, hasHandler: bool, actions: seq<Action>)
    ensures var i := After(outboundCap, handlerCap, hasHandler, actions).inbound;
            i.begun <= i.dispatched && |i.active| <= 1
  {
    ReachableInv(outboundCap, handlerCap, hasHandler, actions);
  }

  predicate Disposed(s: State) { s.disposal.Unlocked? || s.disposal.Finished? }

  /** Only a producer or the reader, holding the lease, adds to a queue. */
  lemma OnlyGiveAdds(s: State, a: Action)
    requires Enabled(s, a) && !(a.OfLease? && a.lease.Give?)
    ensures Step(s, a).out.accepted == s.out.accepted && Step(s, a).inbound.dispatched == s.inbound.dispatched
  {
    match a
    case OfWriter(b) => WriterAddsNothing(s, b);
    case OfShutdown(b) => ShutdownAddsNothing(s, b);
    case _ =>
  }

  lemma WriterAddsNothing(s: State, a: WriterAction)
    requires WriterEnabled(s, a)
    ensures WriterStep(s, a).out.accepted == s.out.accepted && WriterStep(s, a).inbound == s.inbound
  {
  }

  lemma ShutdownAddsNothing(s: State, a: ShutdownAction)
    requires ShutdownEnabled(s, a)
    ensures ShutdownStep(s, a).out.accepted == s.out.accepted
    ensures ShutdownStep(s, a).inbound.dispatched == s.inbound.dispatched
  {
  }

  lemma DisposedStays(s: State, a: Action)
    requires Disposed(s)
    ensures Disposed(Step(s, a))
  {
  }

  lemma DisposedStep(s: State, a: Action)
    requires Inv(s) && Disposed(s)
    ensures Disposed(Step(s, a))
    ensures Step(s, a).out.accepted == s.out.accepted && Step(s, a).inbound.dispatched == s.inbound.dispatched
  {
    DisposedStays(s, a);
    if Enabled(s, a) && !(a.OfLease? && a.lease.Give?) { OnlyGiveAdds(s, a); }
  }

  /** Disposed, with what s had accepted and dispatched. */
  ghost predicate DisposedLike(t: State, s: State) {
    && Inv(t) && Disposed(t) && t.out.accepted == s.out.accepted && t.inbound.dispatched == s.inbound.dispatched
  }

  /** After terminal disposal no run enqueues or dispatches anything, and the queues stay empty. */
  lemma NothingAfterDisposal(s: State, actions: seq<Action>)
    requires Inv(s) && Disposed(s)
    ensures var t := Fold(Step, s, actions);
            && t.out.accepted == s.out.accepted && t.inbound.dispatched == s.inbound.dispatched
            && QueuesEmpty(t.out) && t.inbound.queue == []
  {
    forall t, a | DisposedLike(t, s) ensures DisposedLike(Step(t, a), s) {
      AnyStepKeepsInv(t, a);
      DisposedStep(t, a);
    }
    FoldAlways(Step, t => DisposedLike(t, s), s, actions);
  }

  /** No queue outgrows its channel. */
  predicate Bounded(s: State) {
    && |s.out.outbound| <= Capacity(s.config, Outbound) && |s.out.control| <= Capacity(s.config, Control)
    && |s.out.closeRequests| <= Capacity(s.config, CloseRequest) && |s.inbound.queue| <= s.config.handlerCap
  }

  lemma LeaseKeepsBounds(s: State, a: LeaseAction)
    requires Bounded(s) && LeaseEnabled(s, a)
    ensures Bounded(LeaseStep(s, a)) && LeaseStep(s, a).config == s.config
  {
  }

  lemma ShutdownKeepsBounds(s: State, a: ShutdownAction)
    requires Bounded(s) && ShutdownEnabled(s, a)
    ensures Bounded(ShutdownStep(s, a)) && ShutdownStep(s, a).config == s.config
  {
  }

  lemma WriterKeepsBounds(s: State, a: WriterAction)
    requires Bounded(s) && WriterEnabled(s, a)
    ensures Bounded(WriterStep(s, a)) && WriterStep(s, a).config == s.config
  {
  }

  lemma StepKeepsBounds(s: State, a: Action)
    requires Bounded(s)
    ensures Bounded(Step(s, a)) && Step(s, a).config == s.config
  {
    if Enabled(s, a) {
      match a
      case OfLease(b) => LeaseKeepsBounds(s, b);
      case OfShutdown(b) => ShutdownKeepsBounds(s, b);
      case OfWriter(b) => WriterKeepsBounds(s, b);
      case _ =>
    }
  }

  lemma RunKeepsBounds(s: State, actions: seq<Action>)
    requires Bounded(s)
    ensures Bounded(Fold(Step, s, actions)) && Fold(Step, s, actions).config == s.config
  {
    forall t: State, a | Bounded(t) && t.config == s.config
      ensures Bounded(Step(t, a)) && Step(t, a).config == s.config
    {
      StepKeepsBounds(t, a);
    }
    FoldAlways(Step, (t: State) => Bounded(t) && t.config == s.config, s, actions);
  }
}
