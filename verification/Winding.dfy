/**
 * Winding down: once a connection is canceled, its disposal cannot get stuck. Remaining counts what is left to do;
 * every step but a newly arriving producer's lowers it, and until done is closed some such step is enabled.
 */
module Winding {
  import opened Runs
  import opened Connections

  /* ---------- what is left to do ---------- */

  function WriterWork(w: Writer): nat {
    match w
    case NotStarted => 0
    case Exited => 0
    case Draining => 1
    case DrainHolding(_) => 3
    case Closing => 2
    case Idle => 3
    case Wrote(_, _) => 4
    case Holding(_, started) => if started then 6 else 5
  }

  function WorkerWork(h: Worker): nat {
    match h
    case NoHandler => 0
    case WorkerExited => 0
    case WorkerClosing => 1
    case Ready => 2
    case Took(_) => 3
    case Waiting(_) => 3
  }

  /** A callback has still to begin and to return. */
  function CallbackWork(active: seq<Callback>): nat {
    if active == [] then 0 else (if active[0].begun then 1 else 2) + CallbackWork(active[1..])
  }

  function DisposalWork(d: Disposal): nat {
    match d
    case NotBegun => 8
    case Begun => 7
    case Canceled => 6
    case LockedHolding(_) => 6
    case Locked => 5
    case Dropping => 4
    case Unlocked => 3
    case Finished => 0
  }

  function StarterWork(starter: Starter): nat {
    match starter
    case Unclaimed => 20
    case Running => 3
    case Stopped => 1
    case Closed => 0
  }

  /** An item or message still queued is worth more than the hand that takes it. */
  function QueueWork(out: Out, messages: seq<nat>): nat {
    4 * (|out.outbound| + |out.control| + |out.closeRequests| + |messages|)
  }

  function StageWork(stage: Stage): nat {
    match stage
    case Entered => 8
    case Checked => 7
    case Sent => 1
  }

  ghost function Unsent(jobs: map<nat, Job>): set<nat> { set t | t in jobs && jobs[t].stage != Sent }

  ghost function Unchecked(jobs: map<nat, Job>): set<nat> { set t | t in jobs && jobs[t].stage == Entered }

  /** The sum of StageWork over the threads holding the lease. */
  ghost function JobWork(jobs: map<nat, Job>): nat { |jobs.Keys| + 6 * |Unsent(jobs)| + |Unchecked(jobs)| }

  ghost function Remaining(s: State): nat {
    QueueWork(s.out, s.inbound.queue) + WriterWork(s.writer) + WorkerWork(s.inbound.worker)
    + CallbackWork(s.inbound.active) + DisposalWork(s.disposal) + StarterWork(s.life.starter) + s.life.loops
    + JobWork(s.jobs)
  }

  /* ---------- jobs ---------- */

  lemma OneMore(s: set<nat>, t: nat)
    ensures |s + {t}| == |s| + (if t in s then 0 else 1) && |s - {t}| == |s| - (if t in s then 1 else 0)
  {
    if t in s { assert s + {t} == s; } else { assert s - {t} == s; }
  }

  lemma MovedSets(jobs: map<nat, Job>, t: nat, stage: Stage)
    requires t in jobs
    ensures var moved := jobs[t := jobs[t].(stage := stage)];
            && moved.Keys == jobs.Keys
            && Unsent(moved) == (if stage != Sent then Unsent(jobs) + {t} else Unsent(jobs) - {t})
            && Unchecked(moved) == (if stage == Entered then Unchecked(jobs) + {t} else Unchecked(jobs) - {t})
  {
  }

  lemma JobMoves(jobs: map<nat, Job>, t: nat, stage: Stage)
    requires t in jobs
    ensures JobWork(jobs[t := jobs[t].(stage := stage)]) == JobWork(jobs) - StageWork(jobs[t].stage) + StageWork(stage)
  {
    MovedSets(jobs, t, stage);
    OneMore(Unsent(jobs), t);
    OneMore(Unchecked(jobs), t);
  }

  lemma JobLeaves(jobs: map<nat, Job>, t: nat)
    requires t in jobs
    ensures JobWork(jobs - {t}) == JobWork(jobs) - StageWork(jobs[t].stage)
  {
    LeftSets(jobs, t);
    OneMore(jobs.Keys, t);
    OneMore(Unsent(jobs), t);
    OneMore(Unchecked(jobs), t);
  }

  lemma LeftSets(jobs: map<nat, Job>, t: nat)
    ensures var rest := jobs - {t};
            && rest.Keys == jobs.Keys - {t}
            && Unsent(rest) == Unsent(jobs) - {t} && Unchecked(rest) == Unchecked(jobs) - {t}
  {
  }

  /* ---------- every step winds down ---------- */

  /** All steps but a new producer's arrival and a flag already raised. */
  predicate Winds(a: Action) { !(a.OfLease? && a.lease.Acquire?) && !(a.OfLife? && a.life.SetClosing?) }

  /** What a producer adds to a queue was already counted in its job. */
  lemma GiveWinds(s: State, thread: nat)
    requires LeaseEnabled(s, Give(thread))
    ensures Remaining(LeaseStep(s, Give(thread))) < Remaining(s)
  {
    JobMoves(s.jobs, thread, Sent);
    GivenWork(s, s.jobs[thread].work);
  }

  lemma GivenWork(s: State, work: Work)
    ensures var t := Given(s, work);
            && QueueWork(t.out, t.inbound.queue) == QueueWork(s.out, s.inbound.queue) + 4
            && t == s.(out := t.out, inbound := t.inbound)
            && t.inbound.worker == s.inbound.worker && t.inbound.active == s.inbound.active
  {
  }

  lemma LeaseWinds(s: State, a: LeaseAction)
    requires LeaseEnabled(s, a) && !a.Acquire?
    ensures Remaining(LeaseStep(s, a)) < Remaining(s)
  {
    match a
    case Check(thread, callerCanceled) =>
      if Refused(s, s.jobs[thread].work, callerCanceled) { JobLeaves(s.jobs, thread); }
      else { JobMoves(s.jobs, thread, Checked); }
    case Give(thread) => GiveWinds(s, thread);
    case Abandon(thread) => JobLeaves(s.jobs, thread);
    case Release(thread) => JobLeaves(s.jobs, thread);
  }

  lemma PopWork(out: Out, kind: Kind, messages: seq<nat>)
    requires Queue(out, kind) != []
    ensures QueueWork(Pop(out, kind), messages) == QueueWork(out, messages) - 4
  {
  }

  lemma ShutdownWinds(s: State, a: ShutdownAction)
    requires ShutdownEnabled(s, a)
    ensures Remaining(ShutdownStep(s, a)) < Remaining(s)
  {
    if a.Take? { PopWork(s.out, a.kind, s.inbound.queue); }
  }

  lemma WriterWinds(s: State, a: WriterAction)
    requires WriterEnabled(s, a) && s.canceled
    ensures Remaining(WriterStep(s, a)) < Remaining(s)
  {
    match a
    case WriterTakes(kind) => PopWork(s.out, kind, s.inbound.queue);
    case DrainTakes(kind) => PopWork(s.out, kind, s.inbound.queue);
    case _ => WriterMoveWinds(s, a);
  }

  lemma WriterMoveWinds(s: State, a: WriterAction)
    requires WriterEnabled(s, a) && s.canceled && !a.WriterTakes? && !a.DrainTakes?
    ensures Remaining(WriterStep(s, a)) < Remaining(s)
  {
    var t := WriterStep(s, a);
    assert QueueWork(t.out, t.inbound.queue) == QueueWork(s.out, s.inbound.queue);
  }

  lemma HandlerWinds(s: State, a: HandlerAction)
    requires HandlerEnabled(s, a) && s.canceled && |s.inbound.active| <= 1
    ensures Remaining(s.(inbound := HandlerStep(s, a))) < Remaining(s)
  {
  }

  lemma LifeWinds(s: State, a: LifeAction)
    requires LifeEnabled(s, a) && !a.SetClosing? && Lifecycle(s.life, s.writer, s.inbound.worker, s.disposal)
    ensures Remaining(LifeStep(s, a)) < Remaining(s)
  {
  }

  lemma StepWinds(s: State, a: Action)
    requires Inv(s) && s.canceled && Enabled(s, a) && Winds(a)
    ensures Remaining(Step(s, a)) < Remaining(s) && Step(s, a).canceled
  {
    match a
    case OfLife(b) => LifeWinds(s, b);
    case OfLease(b) => LeaseWinds(s, b);
    case OfShutdown(b) => ShutdownWinds(s, b);
    case OfWriter(b) => WriterWinds(s, b);
    case OfHandler(b) => HandlerWinds(s, b);
  }

  /* ---------- until done is closed, something winds ---------- */

  lemma JobCanMove(s: State, thread: nat) returns (a: Action)
    requires thread in s.jobs
    ensures Enabled(s, a) && Winds(a)
  {
    match s.jobs[thread].stage
    case Entered => a := OfLease(Check(thread, true));
    case Checked => a := OfLease(Abandon(thread));
    case Sent => a := OfLease(Release(thread));
  }

  lemma DisposalCanMove(s: State) returns (a: Action)
    requires Inv(s) && s.canceled && s.disposal != Finished
    ensures Enabled(s, a) && Winds(a)
  {
    match s.disposal
    case Canceled =>
      if s.jobs == map[] {
        a := OfShutdown(Lock);
      } else {
        var thread :| thread in s.jobs;
        a := JobCanMove(s, thread);
      }
    case Locked =>
      if QueuesEmpty(s.out) {
        a := OfShutdown(Drained);
      } else {
        var kind :| Queue(s.out, kind) != [];
        a := OfShutdown(Take(kind));
      }
    case LockedHolding(_) => a := OfShutdown(Fail);
    case Dropping => a := OfShutdown(if s.inbound.queue == [] then Unlock else Drop);
    case Unlocked => a := OfShutdown(Finish);
  }

  lemma WriterCanMove(s: State) returns (a: Action)
    requires Inv(s) && s.canceled && s.disposal == Finished && s.writer != NotStarted && s.writer != Exited
    ensures Enabled(s, a) && Winds(a)
  {
    match s.writer
    case Idle => a := OfWriter(WriterCanceled);
    case Holding(_, _) => a := OfWriter(WriteFails);
    case Wrote(_, _) => a := OfWriter(Completes);
    case Closing => a := OfWriter(ShutdownReturns);
    case Draining => a := OfWriter(DrainEnds);
    case DrainHolding(_) => a := OfWriter(DrainFails);
  }

  lemma HandlerCanMove(s: State) returns (a: Action)
    requires s.canceled && s.disposal == Finished && s.inbound.worker !in {NoHandler, WorkerExited}
    ensures Enabled(s, a) && Winds(a)
  {
    match s.inbound.worker
    case Ready => a := OfHandler(HandlerCanceled);
    case Took(_) => a := OfHandler(Recheck);
    case Waiting(_) => a := OfHandler(Detach);
    case WorkerClosing => a := OfHandler(HandlerShutdownReturns);
  }

  /** A canceled connection whose done is open can always take a step that winds it down. */
  lemma NeverStuck(s: State) returns (a: Action)
    requires Inv(s) && s.canceled && s.life.starter != Closed
    ensures Enabled(s, a) && Winds(a)
  {
    if s.disposal != Finished { a := DisposalCanMove(s); }
    else if s.life.starter == Unclaimed { a := OfLife(Claim); }
    else if s.life.starter == Stopped { a := OfLife(CloseDone); }
    else if s.life.loops > 0 { a := OfLife(LoopExits); }
    else if s.writer != Exited { a := WriterCanMove(s); }
    else if s.inbound.worker !in {NoHandler, WorkerExited} { a := HandlerCanMove(s); }
    else { a := OfLife(CloseDone); }
  }

  /* ---------- whole runs ---------- */

  /** Only finitely many winding steps can follow one another, in whatever order. */
  lemma {:induction false} WindingEnds(s: State, actions: seq<Action>)
    requires Inv(s) && s.canceled && Permits(Step, (s, a) => Enabled(s, a) && Winds(a), s, actions)
    ensures |actions| <= Remaining(s)
    decreases actions
  {
    if actions != [] {
      StepWinds(s, actions[0]);
      StepKeepsInv(s, actions[0]);
      WindingEnds(Step(s, actions[0]), actions[1..]);
    }
  }

  /** And they can be taken until done is closed. */
  lemma {:induction false} Finishes(s: State) returns (rest: seq<Action>)
    requires Inv(s) && s.canceled
    ensures Permits(Step, (s, a) => Enabled(s, a) && Winds(a), s, rest)
    ensures Fold(Step, s, rest).life.starter == Closed && |rest| <= Remaining(s)
    decreases Remaining(s)
  {
    rest := [];
    if s.life.starter != Closed {
      var a := NeverStuck(s);
      StepWinds(s, a);
      StepKeepsInv(s, a);
      var more := Finishes(Step(s, a));
      rest := [a] + more;
      assert rest[0] == a && rest[1..] == more;
    }
  }

  lemma UnsentJobs(jobs: map<nat, Job>)
    ensures JobWork(jobs) <= 8 * |jobs|
  {
    assert Unchecked(jobs) <= Unsent(jobs) <= jobs.Keys;
    Smaller(Unchecked(jobs), Unsent(jobs));
    Smaller(Unsent(jobs), jobs.Keys);
  }

  lemma Smaller(a: set<nat>, b: set<nat>)
    requires a <= b
    ensures |a| <= |b|
  {
    assert b == a + (b - a);
  }

  /** What a canceled connection has left to do is bounded by its queue sizes and the threads holding the lease. */
  lemma WorkBound(s: State)
    requires Inv(s) && Bounded(s) && s.canceled
    ensures Remaining(s) <= 4 * (s.config.outboundCap + s.config.handlerCap) + 8 * |s.jobs| + 107
  {
    UnsentJobs(s.jobs);
    CanceledParts(s);
  }

  lemma CanceledParts(s: State)
    requires Staged(s) && s.canceled && |s.inbound.active| <= 1
    ensures CallbackWork(s.inbound.active) <= 2 && DisposalWork(s.disposal) <= 6
  {
    if s.inbound.active != [] { assert s.inbound.active[1..] == []; }
  }

  /**
   * From every reachable canceled state the shutdown can be carried through to a closed done, within a number of
   * steps given by the queue sizes and the producers inside; by then everything accepted is completed.
   */
  lemma ShutdownCompletes(outboundCap: nat, handlerCap: nat, hasHandler: bool, actions: seq<Action>)
    returns (rest: seq<Action>)
    requires After(outboundCap, handlerCap, hasHandler, actions).canceled
    ensures var s := After(outboundCap, handlerCap, hasHandler, actions);
            var t := Fold(Step, s, rest);
            && t.life.doneCloses == 1
            && multiset(t.out.accepted) == t.out.completedOk + t.out.completedErr
            && |rest| <= 4 * (s.config.outboundCap + s.config.handlerCap) + 8 * |s.jobs| + 107
  {
    var s := After(outboundCap, handlerCap, hasHandler, actions);
    ReachableInv(outboundCap, handlerCap, hasHandler, actions);
    RunKeepsBounds(NewConnection(outboundCap, handlerCap, hasHandler), actions);
    WorkBound(s);
    rest := Finishes(s);
    RunKeepsInv(s, rest);
    Settled(Fold(Step, s, rest));
  }

  /** And whatever order its winding steps are taken in, when none is left done has been closed. */
  lemma QuietMeansDone(outboundCap: nat, handlerCap: nat, hasHandler: bool, actions: seq<Action>)
    requires After(outboundCap, handlerCap, hasHandler, actions).canceled
    requires forall a :: Winds(a) ==> !Enabled(After(outboundCap, handlerCap, hasHandler, actions), a)
    ensures After(outboundCap, handlerCap, hasHandler, actions).life.doneCloses == 1
  {
    ReachableInv(outboundCap, handlerCap, hasHandler, actions);
    var s := After(outboundCap, handlerCap, hasHandler, actions);
    if s.life.starter != Closed { var a := NeverStuck(s); }
  }
}
