/**
 * The server's ownership of sockets: two maps under one mutex, two pools of slot tokens and the wait count,
 * with accepting, workers and shutdown interleaved step by step. A connection is named by its socket.
 */
module Servers {
  import opened Runs

  datatype Pool = Handshakes | Connections

  /** The fields workers share. The token pools are counted by their occupied slots. */
  datatype Books = Books(
    inShutdown: bool, handshakeConns: set<nat>, conns: set<nat>, handshakes: nat, connSlots: nat, workers: nat)

  const EMPTY_BOOKS := Books(false, {}, {}, 0, 0, 0)

  /* ---------- what each critical section and channel operation does to the books ---------- */

  function Used(b: Books, pool: Pool): nat { if pool == Handshakes then b.handshakes else b.connSlots }

  function WithUsed(b: Books, pool: Pool, n: nat): Books {
    if pool == Handshakes then b.(handshakes := n) else b.(connSlots := n)
  }

  /** A token goes into the pool's channel. */
  function Taken(b: Books, pool: Pool): Books { WithUsed(b, pool, Used(b, pool) + 1) }

  /** A token comes out of the pool's channel. */
  function Returned(b: Books, pool: Pool): Books
    requires Used(b, pool) > 0
  {
    WithUsed(b, pool, Used(b, pool) - 1)
  }

  /** Socket and worker are registered together. */
  function Registered(b: Books, socket: nat): Books {
    b.(handshakeConns := b.handshakeConns + {socket}, workers := b.workers + 1)
  }

  function HandshakeForgotten(b: Books, socket: nat): Books { b.(handshakeConns := b.handshakeConns - {socket}) }

  /** The connection replaces its socket. */
  function HandedOver(b: Books, socket: nat): Books {
    b.(conns := b.conns + {socket}, handshakeConns := b.handshakeConns - {socket})
  }

  function ConnForgotten(b: Books, socket: nat): Books { b.(conns := b.conns - {socket}) }

  function WorkerLeft(b: Books): Books
    requires b.workers > 0
  {
    b.(workers := b.workers - 1)
  }

  function ShutDown(b: Books): Books { b.(inShutdown := true) }

  /** The server's shared fields, updated in place; the methods up to BeginShutdown are one atomic step each. */
  class Server {
    const handshakeCap: nat
    const connCap: nat
    var inShutdown: bool
    var handshakeConns: set<nat>
    var conns: set<nat>
    var handshakes: nat
    var connSlots: nat
    var workers: nat

    function Value(): Books
      reads this
    {
      Books(inShutdown, handshakeConns, conns, handshakes, connSlots, workers)
    }

    function Capacity(pool: Pool): nat { if pool == Handshakes then handshakeCap else connCap }

    constructor (handshakeCap: nat, connCap: nat)
      ensures Value() == EMPTY_BOOKS && this.handshakeCap == handshakeCap && this.connCap == connCap
    {
      this.handshakeCap, this.connCap := handshakeCap, connCap;
      inShutdown, handshakeConns, conns := false, {}, {};
      handshakes, connSlots, workers := 0, 0, 0;
    }

    /** Never blocks: a full pool refuses. */
    method TryAcquire(pool: Pool) returns (ok: bool)
      modifies `handshakes, `connSlots
      ensures ok == (Used(old(Value()), pool) < Capacity(pool))
      ensures Value() == if ok then Taken(old(Value()), pool) else old(Value())
    {
      match pool
      case Handshakes =>
        ok := handshakes < handshakeCap;
        if ok { handshakes := handshakes + 1; }
      case Connections =>
        ok := connSlots < connCap;
        if ok { connSlots := connSlots + 1; }
    }

    /** A receive from the pool's channel, which blocks unless a token is there. */
    method Release(pool: Pool)
      requires Used(Value(), pool) > 0
      modifies `handshakes, `connSlots
      ensures Value() == Returned(old(Value()), pool)
    {
      match pool
      case Handshakes => handshakes := handshakes - 1;
      case Connections => connSlots := connSlots - 1;
    }

    method RegisterHandshake(socket: nat) returns (ok: bool)
      modifies `handshakeConns, `workers
      ensures ok == !old(inShutdown)
      ensures Value() == if ok then Registered(old(Value()), socket) else old(Value())
    {
      if inShutdown { return false; }
      handshakeConns := handshakeConns + {socket};
      workers := workers + 1;
      return true;
    }

    method UnregisterHandshake(socket: nat)
      modifies `handshakeConns
      ensures Value() == HandshakeForgotten(old(Value()), socket)
    {
      handshakeConns := handshakeConns - {socket};
    }

    method RegisterConn(socket: nat) returns (ok: bool)
      modifies `handshakeConns, `conns
      ensures ok == !old(inShutdown)
      ensures Value() == if ok then HandedOver(old(Value()), socket) else old(Value())
    {
      if inShutdown { return false; }
      conns := conns + {socket};
      handshakeConns := handshakeConns - {socket};
      return true;
    }

    method UnregisterConn(socket: nat)
      modifies `conns
      ensures Value() == ConnForgotten(old(Value()), socket)
    {
      conns := conns - {socket};
    }

    method WorkerDone()
      requires workers > 0
      modifies `workers
      ensures Value() == WorkerLeft(old(Value()))
    {
      workers := workers - 1;
    }

    /** The snapshot lists hold every registered connection and socket once. */
    method BeginShutdown() returns (connList: seq<nat>, socketList: seq<nat>)
      modifies `inShutdown
      ensures Value() == ShutDown(old(Value()))
      ensures multiset(connList) == multiset(conns) && multiset(socketList) == multiset(handshakeConns)
    {
      inShutdown := true;
      connList := Listed(conns);
      socketList := Listed(handshakeConns);
    }

    /* ---------- whole sequences, undisturbed ---------- */

    /** The accept loop's turn: a worker starts, or a refused socket leaves no trace. */
    method Admit(socket: nat) returns (started: bool)
      modifies this
      ensures started == (old(handshakes) < handshakeCap && !old(inShutdown))
      ensures Value() == if started then Registered(Taken(old(Value()), Handshakes), socket) else old(Value())
    {
      started := TryAcquire(Handshakes);
      if !started { return; }
      started := RegisterHandshake(socket);
      if !started { Release(Handshakes); }
    }

    /** The worker: whichever way it ends, its deferred calls give back all that it and Admit took, and nothing else. */
    method HandleConn(socket: nat, handshakeOk: bool, admitted: bool) returns (ran: bool)
      requires socket in handshakeConns && socket !in conns && handshakes > 0 && workers > 0
      modifies this
      ensures ran == (handshakeOk && admitted && old(connSlots) < connCap && !old(inShutdown))
      ensures Value() == WorkerLeft(HandshakeForgotten(Returned(old(Value()), Handshakes), socket))
    {
      ran := false;
      Release(Handshakes);
      if handshakeOk {
        var slot := TryAcquire(Connections);
        if slot {
          if admitted {
            ran := RegisterConn(socket);
            if ran { UnregisterConn(socket); }
          }
          Release(Connections);
        }
      }
      UnregisterHandshake(socket);
      WorkerDone();
    }

    /** A connection served from accept to the end leaves the server as it found it. */
    method ServeOne(socket: nat, handshakeOk: bool, admitted: bool) returns (ran: bool)
      requires socket !in handshakeConns && socket !in conns
      modifies this
      ensures Value() == old(Value())
      ensures ran ==> handshakeOk && admitted && !inShutdown && handshakes < handshakeCap && connSlots < connCap
    {
      ran := Admit(socket);
      if ran { ran := HandleConn(socket, handshakeOk, admitted); }
    }
  }

  /** Iterates over a map's keys in some order. */
  method Listed(keys: set<nat>) returns (list: seq<nat>)
    ensures multiset(list) == multiset(keys)
  {
    list := [];
    var rest := keys;
    while rest != {}
      invariant multiset(list) + multiset(rest) == multiset(keys)
      decreases |rest|
    {
      var key :| key in rest;
      assert multiset(rest) == multiset(rest - {key}) + multiset{key};
      list := list + [key];
      rest := rest - {key};
    }
  }

  /* ---------- the interleaved machine ---------- */

  /**
   * Where a socket's owner stands: first the accept loop, then its worker, whose deferred calls run last-in first-out.
   */
  datatype Stage =
    | Accepted | Tokened | TurnedAway
    | Handshaking | Handshaken(ok: bool) | Slotted | Refused
    | Running | Ended
    | ReleasingSlot | ClosingTransport | Unhooking | Unhooked | Gone

  datatype State = State(
    handshakeCap: nat, connCap: nat, books: Books, stages: map<nat, Stage>, closed: set<nat>, snapshots: set<nat>)

  function NewServer(handshakeCap: nat, connCap: nat): State {
    State(handshakeCap, connCap, EMPTY_BOOKS, map[], {}, {})
  }

  datatype Action =
    | Accept(socket: nat) | TakeToken(socket: nat) | RegisterHandshake(socket: nat) | TurnAway(socket: nat)
    | FinishHandshake(socket: nat, ok: bool) | TakeSlot(socket: nat) | RegisterConn(socket: nat, admitted: bool)
    | CloseRefused(socket: nat)
    | ConnectionDone(socket: nat) | UnregisterConn(socket: nat) | ReleaseSlot(socket: nat)
    | CloseTransport(socket: nat) | UnregisterHandshake(socket: nat) | WorkerDone(socket: nat)
    | SocketCloses(socket: nat) | BeginShutdown

  predicate At(s: State, socket: nat, stage: Stage) { socket in s.stages && s.stages[socket] == stage }

  /** The control points; releases are receives from the token channel and can also block, see Ready. */
  predicate Reached(s: State, a: Action) {
    match a
    case Accept(x) => x !in s.stages
    case TakeToken(x) => At(s, x, Accepted)
    case RegisterHandshake(x) => At(s, x, Tokened)
    case TurnAway(x) => At(s, x, TurnedAway)
    case FinishHandshake(x, _) => At(s, x, Handshaking)
    case TakeSlot(x) => x in s.stages && s.stages[x].Handshaken?
    case RegisterConn(x, _) => At(s, x, Slotted)
    case CloseRefused(x) => At(s, x, Refused)
    case ConnectionDone(x) => At(s, x, Running)
    case UnregisterConn(x) => At(s, x, Ended)
    case ReleaseSlot(x) => At(s, x, ReleasingSlot)
    case CloseTransport(x) => At(s, x, ClosingTransport)
    case UnregisterHandshake(x) => At(s, x, Unhooking)
    case WorkerDone(x) => At(s, x, Unhooked)
    case SocketCloses(x) => x in s.stages
    case BeginShutdown => true
  }

  /** A receive finds a token, and the wait count does not go negative. */
  predicate Ready(s: State, a: Action) {
    match a
    case TurnAway(_) => s.books.handshakes > 0
    case FinishHandshake(_, _) => s.books.handshakes > 0
    case ReleaseSlot(_) => s.books.connSlots > 0
    case WorkerDone(_) => s.books.workers > 0
    case _ => true
  }

  function Moved(s: State, socket: nat, stage: Stage): State { s.(stages := s.stages[socket := stage]) }

  function Closing(s: State, socket: nat): State { s.(closed := s.closed + {socket}) }

  function Step(s: State, a: Action): State {
    if !Reached(s, a) || !Ready(s, a) then s
    else
      var b := s.books;
      match a
      case Accept(x) => Moved(s, x, Accepted)
      case TakeToken(x) =>
        if b.handshakes < s.handshakeCap then Moved(s, x, Tokened).(books := Taken(b, Handshakes))
        else Closing(Moved(s, x, Gone), x)
      case RegisterHandshake(x) =>
        if b.inShutdown then Moved(s, x, TurnedAway)
        else Moved(s, x, Handshaking).(books := Registered(b, x))
      case TurnAway(x) => Closing(Moved(s, x, Gone), x).(books := Returned(b, Handshakes))
      case FinishHandshake(x, ok) => Moved(s, x, Handshaken(ok)).(books := Returned(b, Handshakes))
      case TakeSlot(x) =>
        if s.stages[x].ok && b.connSlots < s.connCap then Moved(s, x, Slotted).(books := Taken(b, Connections))
        else Closing(Moved(s, x, ClosingTransport), x)
      case RegisterConn(x, admitted) =>
        if !admitted || b.inShutdown then Moved(s, x, Refused)
        else Moved(s, x, Running).(books := HandedOver(b, x))
      case CloseRefused(x) => Closing(Moved(s, x, ReleasingSlot), x)
      case ConnectionDone(x) => Closing(Moved(s, x, Ended), x)
      case UnregisterConn(x) => Moved(s, x, ReleasingSlot).(books := ConnForgotten(b, x))
      case ReleaseSlot(x) => Moved(s, x, ClosingTransport).(books := Returned(b, Connections))
      case CloseTransport(x) => Closing(Moved(s, x, Unhooking), x)
      case UnregisterHandshake(x) => Moved(s, x, Unhooked).(books := HandshakeForgotten(b, x))
      case WorkerDone(x) => Moved(s, x, Gone).(books := WorkerLeft(b))
      case SocketCloses(x) => Closing(s, x)
      case BeginShutdown =>
        s.(books := ShutDown(b), snapshots := s.snapshots + b.handshakeConns + b.conns)
  }

  /* ---------- invariants ---------- */

  predicate HoldsToken(stage: Stage) { stage.Tokened? || stage.TurnedAway? || stage.Handshaking? }

  predicate HoldsSlot(stage: Stage) {
    stage.Slotted? || stage.Refused? || stage.Running? || stage.Ended? || stage.ReleasingSlot?
  }

  predicate HasWorker(stage: Stage) { !stage.Accepted? && !stage.Tokened? && !stage.TurnedAway? && !stage.Gone? }

  /** The stages in which the connection map owns the socket. */
  predicate OwnedByConns(stage: Stage) { stage.Running? || stage.Ended? }

  /** The stages in which the handshake map owns the socket. */
  predicate OwnedByHandshakes(stage: Stage) {
    stage.Handshaking? || stage.Handshaken? || stage.Slotted? || stage.Refused?
  }

  /** From here on the socket has been closed. */
  predicate PastClose(stage: Stage) {
    || stage.Ended? || stage.ReleasingSlot? || stage.ClosingTransport?
    || stage.Unhooking? || stage.Unhooked? || stage.Gone?
  }

  /** A socket already closed may stay in the handshake map until its worker unhooks it. */
  predicate MayBeHooked(stage: Stage) {
    OwnedByHandshakes(stage) || stage.ReleasingSlot? || stage.ClosingTransport? || stage.Unhooking?
  }

  ghost function Holding(stages: map<nat, Stage>, p: Stage -> bool): set<nat> { set x | x in stages && p(stages[x]) }

  /** Tokens out of each pool are exactly the holders, and the wait count is exactly the workers. */
  ghost predicate TokensCounted(s: State) { s.books.handshakes == |Holding(s.stages, HoldsToken)| <= s.handshakeCap }

  ghost predicate SlotsCounted(s: State) { s.books.connSlots == |Holding(s.stages, HoldsSlot)| <= s.connCap }

  ghost predicate WorkersCounted(s: State) { s.books.workers == |Holding(s.stages, HasWorker)| }

  /** The maps, the closed sockets and the shutdown snapshots agree with the stage of the socket. */
  ghost predicate Placed(s: State, x: nat) {
    && (x in s.books.conns <==> x in s.stages && OwnedByConns(s.stages[x]))
    && (x in s.stages && OwnedByHandshakes(s.stages[x]) ==> x in s.books.handshakeConns)
    && (x in s.books.handshakeConns ==> x in s.stages && MayBeHooked(s.stages[x]))
    && (x in s.stages && PastClose(s.stages[x]) ==> x in s.closed)
    && (s.books.inShutdown && x in s.stages && HasWorker(s.stages[x]) ==> x in s.snapshots || x in s.closed)
  }

  ghost predicate Inv(s: State) {
    TokensCounted(s) && SlotsCounted(s) && WorkersCounted(s) && forall x: nat :: Placed(s, x)
  }

  /** What one socket's move does to the holders of anything. */
  lemma MoveHolds(stages: map<nat, Stage>, socket: nat, stage: Stage, p: Stage -> bool)
    ensures var before, after := Holding(stages, p), Holding(stages[socket := stage], p);
            && after == (if p(stage) then before + {socket} else before - {socket})
            && |after| == |before| - (if socket in before then 1 else 0) + (if p(stage) then 1 else 0)
  {
    var before, after := Holding(stages, p), Holding(stages[socket := stage], p);
    assert after == (if p(stage) then before + {socket} else before - {socket});
    OneMore(before, socket);
  }

  lemma OneMore(s: set<nat>, x: nat)
    ensures |s + {x}| == |s| + (if x in s then 0 else 1) && |s - {x}| == |s| - (if x in s then 1 else 0)
  {
    if x in s { assert s + {x} == s; } else { assert s - {x} == s; }
  }

  /** The stage an action moves its socket to. */
  function Target(s: State, a: Action): Stage
    requires !a.SocketCloses? && !a.BeginShutdown?
    requires a.TakeSlot? ==> a.socket in s.stages && s.stages[a.socket].Handshaken?
  {
    match a
    case Accept(_) => Accepted
    case TakeToken(_) => if s.books.handshakes < s.handshakeCap then Tokened else Gone
    case RegisterHandshake(_) => if s.books.inShutdown then TurnedAway else Handshaking
    case TurnAway(_) => Gone
    case FinishHandshake(_, ok) => Handshaken(ok)
    case TakeSlot(x) => if s.stages[x].ok && s.books.connSlots < s.connCap then Slotted else ClosingTransport
    case RegisterConn(_, admitted) => if !admitted || s.books.inShutdown then Refused else Running
    case CloseRefused(_) => ReleasingSlot
    case ConnectionDone(_) => Ended
    case UnregisterConn(_) => ReleasingSlot
    case ReleaseSlot(_) => ClosingTransport
    case CloseTransport(_) => Unhooking
    case UnregisterHandshake(_) => Unhooked
    case WorkerDone(_) => Gone
  }

  predicate Moves(a: Action) { !a.SocketCloses? && !a.BeginShutdown? }

  /** Every move changes one stage. */
  lemma StepMoves(s: State, a: Action)
    requires Reached(s, a) && Ready(s, a)
    ensures Step(s, a).stages == if Moves(a) then s.stages[a.socket := Target(s, a)] else s.stages
    ensures Step(s, a).handshakeCap == s.handshakeCap && Step(s, a).connCap == s.connCap
  {
  }

  function Held(s: State, socket: nat,
                p: Stage -> bool): nat { if socket in s.stages && p(s.stages[socket]) then 1 else 0 }

  function Holds(stage: Stage, p: Stage -> bool): nat { if p(stage) then 1 else 0 }

  /** Each pool and the wait group are touched exactly when a holder comes or goes. */
  lemma StepBalances(s: State, a: Action)
    requires Reached(s, a) && Ready(s, a) && Moves(a)
    ensures var b, b', t := s.books, Step(s, a).books, Target(s, a);
            && b'.handshakes == b.handshakes - Held(s, a.socket, HoldsToken) + Holds(t, HoldsToken)
            && b'.connSlots == b.connSlots - Held(s, a.socket, HoldsSlot) + Holds(t, HoldsSlot)
            && b'.workers == b.workers - Held(s, a.socket, HasWorker) + Holds(t, HasWorker)
            && (b.handshakes <= s.handshakeCap ==> b'.handshakes <= s.handshakeCap)
            && (b.connSlots <= s.connCap ==> b'.connSlots <= s.connCap)
  {
  }

  lemma MoveCounts(s: State, socket: nat, stage: Stage, p: Stage -> bool)
    ensures |Holding(s.stages[socket := stage], p)| == |Holding(s.stages, p)| - Held(s, socket, p) + Holds(stage, p)
  {
    MoveHolds(s.stages, socket, stage, p);
  }

  lemma StepKeepsCounts(s: State, a: Action)
    requires TokensCounted(s) && SlotsCounted(s) && WorkersCounted(s) && Reached(s, a) && Ready(s, a)
    ensures TokensCounted(Step(s, a)) && SlotsCounted(Step(s, a)) && WorkersCounted(Step(s, a))
  {
    StepMoves(s, a);
    if Moves(a) {
      StepBalances(s, a);
      var t := Target(s, a);
      MoveCounts(s, a.socket, t, HoldsToken);
      MoveCounts(s, a.socket, t, HoldsSlot);
      MoveCounts(s, a.socket, t, HasWorker);
    }
  }

  lemma MovedKeepsPlace(s: State, a: Action)
    requires Moves(a) && Reached(s, a) && Ready(s, a) && Placed(s, a.socket)
    ensures Placed(Step(s, a), a.socket)
  {
    if Late(a) { LateKeepsPlace(s, a); } else { EarlyKeepsPlace(s, a); }
  }

  /** The worker's steps from the connection's end on. */
  predicate Late(a: Action) {
    || a.ConnectionDone? || a.UnregisterConn? || a.ReleaseSlot?
    || a.CloseTransport? || a.UnregisterHandshake? || a.WorkerDone?
  }

  lemma EarlyKeepsPlace(s: State, a: Action)
    requires Moves(a) && !Late(a) && Reached(s, a) && Ready(s, a) && Placed(s, a.socket)
    ensures Placed(Step(s, a), a.socket)
  {
  }

  lemma LateKeepsPlace(s: State, a: Action)
    requires Late(a) && Reached(s, a) && Ready(s, a) && Placed(s, a.socket)
    ensures Placed(Step(s, a), a.socket)
  {
  }

  /** A move concerns its own socket only. */
  lemma OthersKeepPlace(s: State, a: Action, x: nat)
    requires Moves(a) && Reached(s, a) && Ready(s, a) && a.socket != x
    ensures var t := Step(s, a);
            && (x in t.stages <==> x in s.stages) && (x in s.stages ==> t.stages[x] == s.stages[x])
            && (x in t.books.conns <==> x in s.books.conns)
            && (x in t.books.handshakeConns <==> x in s.books.handshakeConns)
            && (x in t.closed <==> x in s.closed) && t.snapshots == s.snapshots
            && t.books.inShutdown == s.books.inShutdown
  {
  }

  lemma StepKeepsPlace(s: State, a: Action, x: nat)
    requires Placed(s, x) && Reached(s, a) && Ready(s, a)
    ensures Placed(Step(s, a), x)
  {
    if Moves(a) {
      if a.socket == x { MovedKeepsPlace(s, a); } else { OthersKeepPlace(s, a, x); }
    }
  }

  lemma StepKeepsInv(s: State, a: Action)
    requires Inv(s)
    ensures Inv(Step(s, a))
  {
    if Reached(s, a) && Ready(s, a) {
      StepKeepsCounts(s, a);
      forall x: nat ensures Placed(Step(s, a), x) { StepKeepsPlace(s, a, x); }
    }
  }

  lemma RunKeepsInv(s: State, actions: seq<Action>)
    requires Inv(s)
    ensures Inv(Fold(Step, s, actions))
  {
    forall s, a | Inv(s) ensures Inv(Step(s, a)) { StepKeepsInv(s, a); }
    FoldAlways(Step, s => Inv(s), s, actions);
  }

  function After(handshakeCap: nat, connCap: nat, actions: seq<Action>): State { Fold(Step, NewServer(handshakeCap,
                 connCap), actions) }

  lemma ReachableInv(handshakeCap: nat, connCap: nat, actions: seq<Action>)
    ensures Inv(After(handshakeCap, connCap, actions))
  {
    assert Holding(map[], HoldsToken) == {} && Holding(map[], HoldsSlot) == {} && Holding(map[], HasWorker) == {};
    RunKeepsInv(NewServer(handshakeCap, connCap), actions);
  }

  /**
   * In every interleaving an open socket with a worker is owned by exactly one map, and only such sockets by the
   * connection map.
   */
  lemma OneOwner(handshakeCap: nat, connCap: nat, actions: seq<Action>, x: nat)
    ensures var s := After(handshakeCap, connCap, actions);
            x in s.stages && HasWorker(s.stages[x]) && x !in s.closed ==>
              (x in s.books.handshakeConns) != (x in s.books.conns)
  {
    ReachableInv(handshakeCap, connCap, actions);
    assert Placed(After(handshakeCap, connCap, actions), x);
  }

  /** Tokens out are exactly the holders, within capacity. */
  lemma TokensConserved(handshakeCap: nat, connCap: nat, actions: seq<Action>)
    ensures var s := After(handshakeCap, connCap, actions);
            && s.books.handshakes == |Holding(s.stages, HoldsToken)| <= handshakeCap
            && s.books.connSlots == |Holding(s.stages, HoldsSlot)| <= connCap
            && s.books.workers == |Holding(s.stages, HasWorker)|
  {
    ReachableInv(handshakeCap, connCap, actions);
    RunKeepsCaps(NewServer(handshakeCap, connCap), actions);
  }

  lemma RunKeepsCaps(s: State, actions: seq<Action>)
    ensures var t := Fold(Step, s, actions); t.handshakeCap == s.handshakeCap && t.connCap == s.connCap
  {
    FoldAlways(Step, (t: State) => t.handshakeCap == s.handshakeCap && t.connCap == s.connCap, s, actions);
  }

  /** A worker that comes to release a token or to leave the wait group never blocks or underflows. */
  lemma ReleaseNeverBlocks(handshakeCap: nat, connCap: nat, actions: seq<Action>, a: Action)
    ensures var s := After(handshakeCap, connCap, actions); Reached(s, a) ==> Ready(s, a)
  {
    ReachableInv(handshakeCap, connCap, actions);
    var s := After(handshakeCap, connCap, actions);
    if Reached(s, a) {
      match a
      case TurnAway(x) => assert x in Holding(s.stages, HoldsToken);
      case FinishHandshake(x, _) => assert x in Holding(s.stages, HoldsToken);
      case ReleaseSlot(x) => assert x in Holding(s.stages, HoldsSlot);
      case WorkerDone(x) => assert x in Holding(s.stages, HasWorker);
      case _ =>
    }
  }

  /** Once shutdown has begun, every socket with a worker was snapshotted or is closed. */
  lemma ShutdownReachesAll(handshakeCap: nat, connCap: nat, actions: seq<Action>, x: nat)
    ensures var s := After(handshakeCap, connCap, actions);
            s.books.inShutdown && x in s.stages && HasWorker(s.stages[x]) ==> x in s.snapshots || x in s.closed
  {
    ReachableInv(handshakeCap, connCap, actions);
    assert Placed(After(handshakeCap, connCap, actions), x);
  }

  lemma ShutdownStep(s: State, a: Action)
    requires s.books.inShutdown
    ensures Step(s, a).books.inShutdown && Holding(Step(s, a).stages, HasWorker) <= Holding(s.stages, HasWorker)
    ensures Step(s, a).books.conns <= s.books.conns && Step(s, a).books.handshakeConns <= s.books.handshakeConns
  {
  }

  /** Shutdown has begun, and t has nothing registered that s has not. */
  ghost predicate NoMoreThan(t: State, s: State) {
    && t.books.inShutdown && Holding(t.stages, HasWorker) <= Holding(s.stages, HasWorker)
    && t.books.conns <= s.books.conns && t.books.handshakeConns <= s.books.handshakeConns
  }

  /** After shutdown begins no run adds a worker or a map entry. */
  lemma NothingRegisteredAfterShutdown(s: State, actions: seq<Action>)
    requires s.books.inShutdown
    ensures NoMoreThan(Fold(Step, s, actions), s)
  {
    forall t, a | NoMoreThan(t, s) ensures NoMoreThan(Step(t, a), s) { ShutdownStep(t, a); }
    FoldAlways(Step, t => NoMoreThan(t, s), s, actions);
  }

  /** When Close's wait ends, both maps are empty and every connection slot is free, for good. */
  lemma WaitMeansQuiet(handshakeCap: nat, connCap: nat, before: seq<Action>, later: seq<Action>)
    ensures var s := After(handshakeCap, connCap, before);
            s.books.inShutdown && s.books.workers == 0 ==>
              var t := Fold(Step, s, later);
              t.books.conns == {} && t.books.handshakeConns == {} && t.books.connSlots == 0 && t.books.workers == 0
  {
    ReachableInv(handshakeCap, connCap, before);
    var s := After(handshakeCap, connCap, before);
    if s.books.inShutdown && s.books.workers == 0 {
      RunKeepsInv(s, later);
      NothingRegisteredAfterShutdown(s, later);
      Quiet(Fold(Step, s, later));
    }
  }

  lemma WorkerBehind(s: State, x: nat)
    requires Placed(s, x)
    ensures x in s.books.conns || x in s.books.handshakeConns || x in Holding(s.stages, HoldsSlot) ==>
            x in Holding(s.stages, HasWorker)
  {
  }

  lemma Quiet(s: State)
    requires Inv(s) && Holding(s.stages, HasWorker) == {}
    ensures s.books.conns == {} && s.books.handshakeConns == {} && s.books.connSlots == 0 && s.books.workers == 0
  {
    var slots := Holding(s.stages, HoldsSlot);
    forall x: nat ensures x !in s.books.conns && x !in s.books.handshakeConns && x !in slots { WorkerBehind(s, x); }
    assert slots == {};
  }
}
