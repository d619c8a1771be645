/**
 * Keepalive: the ping fields under pingMu, the maintenance loop that owns the timers, the reader that
 * acknowledges, and shutdowns racing both. Timers are nondeterministic ticks of an armed timer.
 */
module Keepalive {
  import opened Basics
  import opened Runs

  /** The fields under pingMu, and whether the coalesced wakeup channel holds a token. */
  datatype Ping = Ping(nonce: uint64, expected: uint64, acknowledged: bool, wake: bool)

  const NO_PING := Ping(0, 0, false, false)

  /** Zero is reserved: the counter skips it when it wraps. */
  function NextNonce(nonce: uint64): (r: uint64)
    ensures r != 0 && r != nonce
  {
    if nonce == MAX_UINT64 then 1 else nonce + 1
  }

  function Begun(p: Ping): Ping {
    p.(nonce := NextNonce(p.nonce), expected := NextNonce(p.nonce), acknowledged := false)
  }

  function Cleared(p: Ping): Ping { p.(expected := 0, acknowledged := false) }

  function Acknowledged(p: Ping, nonce: uint64, canceled: bool): Ping {
    if p.expected == 0 || nonce != p.expected || canceled then p
    else p.(expected := 0, acknowledged := true, wake := true)
  }

  function Consumed(p: Ping): Ping { p.(acknowledged := false) }

  /** The ping fields as the connection updates them in place, each method one critical section. */
  class Pings {
    var pingNonce: uint64
    var pingExpected: uint64
    var pingAcknowledged: bool
    var pong: bool

    function Value(): Ping
      reads this
    {
      Ping(pingNonce, pingExpected, pingAcknowledged, pong)
    }

    constructor ()
      ensures Value() == NO_PING
    {
      pingNonce, pingExpected, pingAcknowledged, pong := 0, 0, false, false;
    }

    method BeginPing(canceled: bool) returns (nonce: uint64)
      modifies this
      ensures canceled ==> nonce == 0 && Value() == old(Value())
      ensures !canceled ==> nonce == pingNonce != 0 && Value() == Begun(old(Value()))
    {
      if canceled { return 0; }
      nonce := if pingNonce == MAX_UINT64 then 0 else pingNonce + 1;
      if nonce == 0 { nonce := 1; }
      pingExpected, pingAcknowledged := nonce, false;
      pingNonce := nonce;
    }

    method ClearPing()
      modifies this
      ensures Value() == Cleared(old(Value()))
    {
      pingExpected, pingAcknowledged := 0, false;
    }

    method AcknowledgePing(nonce: uint64, canceled: bool)
      modifies this
      ensures Value() == Acknowledged(old(Value()), nonce, canceled)
    {
      if pingExpected == 0 || nonce != pingExpected || canceled { return; }
      pingExpected, pingAcknowledged := 0, true;
      if !pong { pong := true; }
    }

    method ConsumePingAcknowledgement() returns (acknowledged: bool)
      modifies this
      ensures acknowledged == old(pingAcknowledged) && Value() == Consumed(old(Value()))
    {
      acknowledged := pingAcknowledged;
      pingAcknowledged := false;
    }
  }

  /* ---------- the interleaved machine ---------- */

  datatype Cause = KeepaliveTimeout | IdleTimeout | Elsewhere(id: nat)

  /** Where the maintenance loop stands between two of its critical sections. */
  datatype Loop = Selecting | Woken | PingBegun | Missed | Exited

  /** What the failing deadline check knew: the ping it gave up on, and the pongs processed since that ping began. */
  datatype Verdict = Verdict(nonce: uint64, pongs: seq<uint64>)

  /** pongs, sent, verdict and reported are history: reported is what was known when the timeout became the cause. */
  datatype State = State(
    enabled: bool, ping: Ping, canceled: bool, terminal: Option<Cause>,
    loop: Loop, outstanding: uint64, keepalive: bool, deadline: bool,
    pongs: seq<uint64>, sent: seq<uint64>, verdict: Option<Verdict>, reported: Option<Verdict>)

  function Start(enabled: bool): State {
    State(enabled, NO_PING, false, None, Selecting, 0, enabled, false, [], [], None, None)
  }

  datatype Action =
    | Pong(nonce: uint64) | ShutdownElsewhere(id: nat) | Cancel | ClearPing
    | PongWakes | ConsumeWake | KeepaliveTick | EnqueuePing(ok: bool) | DeadlineTick | ReportTimeout | IdleTick
    | SeeCanceled

  predicate Enabled(s: State, a: Action) {
    match a
    case Pong(_) => true
    case ShutdownElsewhere(_) => true
    case Cancel => s.terminal.Some?
    case ClearPing => s.canceled
    case PongWakes => s.loop == Selecting && s.ping.wake
    case ConsumeWake => s.loop == Woken
    case KeepaliveTick => s.loop == Selecting && s.keepalive
    case EnqueuePing(_) => s.loop == PingBegun
    case DeadlineTick => s.loop == Selecting && s.deadline
    case ReportTimeout => s.loop == Missed
    case IdleTick => s.loop == Selecting
    case SeeCanceled => s.loop == Selecting && s.canceled
  }

  /** The first recorded cause stays. */
  function Recorded(terminal: Option<Cause>, cause: Cause): Option<Cause> {
    if terminal.None? then Some(cause) else terminal
  }

  function Resolved(s: State): State {
    s.(ping := Consumed(s.ping), outstanding := 0, deadline := false, keepalive := s.enabled, loop := Selecting)
  }

  function Step(s: State, a: Action): State {
    if !Enabled(s, a) then s
    else
      match a
      case Pong(nonce) => s.(ping := Acknowledged(s.ping, nonce, s.canceled), pongs := s.pongs + [nonce])
      case ShutdownElsewhere(id) => s.(terminal := Recorded(s.terminal, Elsewhere(id)))
      case Cancel => s.(canceled := true)
      case ClearPing => s.(ping := Cleared(s.ping))
      case PongWakes => s.(ping := s.ping.(wake := false), loop := Woken)
      case ConsumeWake => if s.outstanding != 0 && s.ping.acknowledged then Resolved(s) else ConsumedInVain(s)
      case KeepaliveTick =>
        if s.outstanding != 0 then s.(keepalive := false)
        else if s.canceled then s.(loop := Exited)
        else s.(ping := Begun(s.ping), outstanding := NextNonce(s.ping.nonce), loop := PingBegun, pongs := [])
      case EnqueuePing(ok) =>
        if ok then s.(sent := s.sent + [s.outstanding], deadline := true, keepalive := false, loop := Selecting)
        else s.(ping := Cleared(s.ping), outstanding := 0, loop := Selecting)
      case DeadlineTick =>
        if s.ping.acknowledged then Resolved(s)
        else s.(loop := Missed, verdict := Some(Verdict(s.outstanding, s.pongs)))
      case ReportTimeout =>
        s.(terminal := Recorded(s.terminal, KeepaliveTimeout), loop := Exited,
           reported := if s.terminal.None? then Some(Verdict(s.outstanding, s.pongs)) else s.reported)
      case IdleTick => s.(terminal := Recorded(s.terminal, IdleTimeout), loop := Exited)
      case SeeCanceled => s.(loop := Exited)
  }

  /** With no ping outstanding the acknowledgement is not even looked at. */
  function ConsumedInVain(s: State): State {
    s.(ping := if s.outstanding != 0 then Consumed(s.ping) else s.ping, loop := Selecting)
  }

  /** The ping fields say exactly whether the outstanding ping has been answered since it began. */
  ghost predicate Faithful(p: Ping, outstanding: uint64, pongs: seq<uint64>) {
    if outstanding == 0 then p.expected == 0 && !p.acknowledged
    else p.acknowledged == (outstanding in pongs) && p.expected == (if outstanding in pongs then 0 else outstanding)
  }

  /**
   * Either the next ping or the deadline of the outstanding one is armed, and a recorded acknowledgement has its
   * wakeup.
   */
  ghost predicate Armed(s: State) {
    && (s.loop == Selecting || s.loop == Woken ==>
          s.keepalive == (s.enabled && s.outstanding == 0) && s.deadline == (s.outstanding != 0))
    && (s.loop == PingBegun ==> s.enabled && s.keepalive && !s.deadline)
    && (s.loop == Selecting || s.loop == PingBegun ==> s.ping.acknowledged ==> s.ping.wake)
  }

  ghost predicate UnansweredVerdict(s: State) {
    s.verdict.Some? && s.verdict.value.nonce != 0 && s.verdict.value.nonce !in s.verdict.value.pongs
  }

  /** The same ping, with the pongs processed meanwhile. */
  ghost predicate Follows(early: Verdict, later: Verdict) { early.nonce == later.nonce && early.pongs <= later.pongs }

  /** Until some shutdown records its cause. */
  ghost predicate Live(s: State) {
    && Faithful(s.ping, s.outstanding, s.pongs)
    && Armed(s)
    && s.loop != Exited
    && (s.outstanding != 0 ==> s.enabled)
    && (s.loop == Missed ==> UnansweredVerdict(s) && Follows(s.verdict.value, Verdict(s.outstanding, s.pongs)))
  }

  ghost predicate Inv(s: State) {
    && (s.canceled ==> s.terminal.Some?)
    && (forall nonce <- s.sent :: nonce != 0)
    && (s.loop == PingBegun ==> s.outstanding != 0)
    && (s.terminal.None? ==> Live(s))
    && (s.terminal == Some(KeepaliveTimeout) ==>
          s.loop == Exited && UnansweredVerdict(s) && s.reported.Some? && Follows(s.verdict.value, s.reported.value))
  }

  lemma PongKeepsFaithful(p: Ping, outstanding: uint64, pongs: seq<uint64>, nonce: uint64)
    requires Faithful(p, outstanding, pongs)
    ensures Faithful(Acknowledged(p, nonce, false), outstanding, pongs + [nonce])
  {
  }

  lemma PongKeepsInv(s: State, nonce: uint64)
    requires Inv(s)
    ensures Inv(Step(s, Pong(nonce)))
  {
    if s.terminal.None? { PongKeepsFaithful(s.ping, s.outstanding, s.pongs, nonce); }
  }

  lemma ShutdownKeepsInv(s: State, a: Action)
    requires Inv(s) && (a.ShutdownElsewhere? || a.Cancel? || a.ClearPing?)
    ensures Inv(Step(s, a))
  {
  }

  /** The maintenance loop waiting, waking and pinging. */
  lemma PingingKeepsInv(s: State, a: Action)
    requires Inv(s) && (a.PongWakes? || a.ConsumeWake? || a.KeepaliveTick? || a.EnqueuePing?)
    ensures Inv(Step(s, a))
  {
  }

  /** The maintenance loop judging a deadline and ending. */
  lemma EndingKeepsInv(s: State, a: Action)
    requires Inv(s) && (a.DeadlineTick? || a.ReportTimeout? || a.IdleTick? || a.SeeCanceled?)
    ensures Inv(Step(s, a))
  {
  }

  lemma StepKeepsInv(s: State, a: Action)
    requires Inv(s)
    ensures Inv(Step(s, a))
  {
    if a.Pong? { PongKeepsInv(s, a.nonce); }
    else if a.ShutdownElsewhere? || a.Cancel? || a.ClearPing? { ShutdownKeepsInv(s, a); }
    else if a.PongWakes? || a.ConsumeWake? || a.KeepaliveTick? || a.EnqueuePing? { PingingKeepsInv(s, a); }
    else { EndingKeepsInv(s, a); }
  }

  lemma RunKeepsInv(s: State, actions: seq<Action>)
    requires Inv(s)
    ensures Inv(Fold(Step, s, actions))
  {
    forall s, a | Inv(s) ensures Inv(Step(s, a)) { StepKeepsInv(s, a); }
    FoldAlways(Step, s => Inv(s), s, actions);
  }

  /**
   * In every interleaving: zero is never sent, and ErrKeepaliveTimeout is recorded only if, when the deadline was
   * judged, no pong with the outstanding nonce had been processed since that ping began.
   */
  lemma TimeoutOnlyIfUnanswered(enabled: bool, actions: seq<Action>)
    ensures var s := Fold(Step, Start(enabled), actions);
            && 0 !in s.sent
            && (s.terminal == Some(KeepaliveTimeout) ==>
                  s.verdict.Some? && s.verdict.value.nonce != 0 && s.verdict.value.nonce !in s.verdict.value.pongs)
  {
    RunKeepsInv(Start(enabled), actions);
  }

  /**
   * Judged instead against the pongs processed by the time the cause was recorded, a timeout is wrong exactly when
   * the answer came between the deadline check and the record.
   */
  lemma TimeoutWrongExactlyIfLate(enabled: bool, actions: seq<Action>)
    ensures var s := Fold(Step, Start(enabled), actions);
            s.terminal == Some(KeepaliveTimeout) ==>
              && s.verdict.Some? && s.reported.Some?
              && s.verdict.value.nonce == s.reported.value.nonce && s.verdict.value.pongs <= s.reported.value.pongs
              && (s.reported.value.nonce in s.reported.value.pongs <==>
                    s.reported.value.nonce in s.reported.value.pongs[|s.verdict.value.pongs|..])
  {
    RunKeepsInv(Start(enabled), actions);
    var s := Fold(Step, Start(enabled), actions);
    if s.terminal == Some(KeepaliveTimeout) {
      var early, all := s.verdict.value.pongs, s.reported.value.pongs;
      assert all == early + all[|early|..];
    }
  }

  /** While no cause is recorded, a deadline tick is fatal exactly when the outstanding ping is unanswered. */
  lemma DeadlineJudgesExactly(enabled: bool, actions: seq<Action>)
    ensures var s := Fold(Step, Start(enabled), actions);
            s.terminal.None? && Enabled(s, DeadlineTick) ==>
              var t := Step(s, DeadlineTick);
              && (t.loop == Missed <==> s.outstanding !in s.pongs)
              && (s.outstanding in s.pongs ==>
                    t.loop == Selecting && t.outstanding == 0 && t.keepalive && t.terminal.None?)
  {
    RunKeepsInv(Start(enabled), actions);
  }

  /**
   * While no cause is recorded, the selecting loop waits for the next ping or for a deadline, and an answer has woken
   * it.
   */
  lemma NeverStuck(enabled: bool, actions: seq<Action>)
    ensures var s := Fold(Step, Start(enabled), actions);
            s.terminal.None? && s.loop == Selecting ==>
              && (if s.outstanding == 0 then s.keepalive == enabled && !s.deadline else s.deadline && !s.keepalive)
              && (s.outstanding != 0 && s.outstanding in s.pongs ==> Enabled(s, PongWakes))
  {
    RunKeepsInv(Start(enabled), actions);
    RunKeepsConfig(Start(enabled), actions);
  }

  lemma RunKeepsConfig(s: State, actions: seq<Action>)
    ensures Fold(Step, s, actions).enabled == s.enabled
  {
    FoldAlways(Step, (t: State) => t.enabled == s.enabled, s, actions);
  }

  /**
   * Judged against the pongs processed when the cause is recorded, the claim fails: one can slip in after the verdict.
   */
  lemma LatePongCounterexample()
    ensures var s := Fold(Step, Start(true), [KeepaliveTick, EnqueuePing(true), DeadlineTick, Pong(1), ReportTimeout]);
            s.terminal == Some(KeepaliveTimeout) && s.outstanding == 1 && 1 in s.pongs
  {
    var s := Step(Step(Step(Start(true), KeepaliveTick), EnqueuePing(true)), DeadlineTick);
    assert s.loop == Missed && s.outstanding == 1;
    var t := Step(Step(s, Pong(1)), ReportTimeout);
    assert t == Fold(Step, s, [Pong(1), ReportTimeout]) by {
      assert [Pong(1), ReportTimeout][1..] == [ReportTimeout];
      assert [ReportTimeout][1..] == [];
    }
    var all := [KeepaliveTick, EnqueuePing(true), DeadlineTick, Pong(1), ReportTimeout];
    assert all[1..][1..][1..] == [Pong(1), ReportTimeout];
  }

  function Pongs(nonces: seq<uint64>): seq<Action> { seq(|nonces|, i requires 0 <= i < |nonces| => Pong(nonces[i])) }

  lemma {:induction false} PongsOnlyAppend(s: State, late: seq<uint64>)
    ensures var t := Fold(Step, s, Pongs(late));
            t.pongs == s.pongs + late && t.loop == s.loop && t.terminal == s.terminal && t.outstanding == s.outstanding
    decreases late
  {
    if late != [] {
      assert Pongs(late)[1..] == Pongs(late[1..]);
      PongsOnlyAppend(Step(s, Pong(late[0])), late[1..]);
      assert s.pongs + [late[0]] + late[1..] == s.pongs + late;
    }
  }

  /** Exactly the pongs processed between the failing check and the record can be missed. */
  lemma LatePongExactly(enabled: bool, actions: seq<Action>, late: seq<uint64>)
    ensures var s := Fold(Step, Start(enabled), actions);
            s.terminal.None? && Enabled(s, DeadlineTick) && s.outstanding !in s.pongs ==>
              var t := Step(Fold(Step, Step(s, DeadlineTick), Pongs(late)), ReportTimeout);
              && t.terminal == Some(KeepaliveTimeout) && t.outstanding == s.outstanding
              && (t.outstanding in t.pongs <==> s.outstanding in late)
  {
    RunKeepsInv(Start(enabled), actions);
    PongsOnlyAppend(Step(Fold(Step, Start(enabled), actions), DeadlineTick), late);
  }

  lemma StepKeepsTerminal(s: State, a: Action)
    requires s.terminal.Some?
    ensures Step(s, a).terminal == s.terminal
  {
  }

  /** Whatever else happens, the first recorded cause stays. */
  lemma TerminalStable(s: State, actions: seq<Action>)
    requires s.terminal.Some?
    ensures Fold(Step, s, actions).terminal == s.terminal
  {
    forall t: State, a | t.terminal == s.terminal ensures Step(t, a).terminal == s.terminal { StepKeepsTerminal(t, a); }
    FoldAlways(Step, (t: State) => t.terminal == s.terminal, s, actions);
  }
}
