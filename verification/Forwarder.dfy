/**
 internal/forwarder/server.go: which connections are tracked, counted and closed while the accept
 loop, one handler per connection and the shutdown run side by side.
 */
module Forwarder {
  import opened Maps

  type Conn = nat

  /** How far a handler's deferred calls have got: close, then untrack, then count down. */
  datatype Handler = Serving | Closed | Untracked

  datatype Pc =
    | Accepting
    | Accepted(c: Conn)
    | Tracked(c: Conn)
    | Counted(c: Conn)
    | Failed
    | Waiting
    | Forcing(rest: set<Conn>)
    | AwaitingDone
    | Returned

  datatype State = State(
    accepted: set<Conn>,
    closed: set<Conn>,
    conns: set<Conn>,
    connWG: int,
    handlers: map<Conn, Handler>,
    pc: Pc,
    cancelled: bool,
    done: bool)

  function Init(): State {
    State({}, {}, {}, 0, map[], Accepting, false, false)
  }

  datatype Action =
    | Cancel
    | Accept(c: Conn)
    | AcceptFails(temporary: bool)
    | LoopStep
    | HandlerStep(c: Conn)
    | CountReachesZero
    | SeeDone
    | Timeout
    | CloseNext(c: Conn)
    | SnapshotClosed

  /** After the accept loop: waitForConnections. */
  predicate ShuttingDown(pc: Pc) {
    pc.Waiting? || pc.Forcing? || pc.AwaitingDone? || pc.Returned?
  }

  /** runTLSListener: track, count up, start the handler. */
  function StepLoop(s: State): State {
    match s.pc
    case Accepted(c) => s.(conns := s.conns + {c}, pc := Tracked(c))
    case Tracked(c) => s.(connWG := s.connWG + 1, pc := Counted(c))
    case Counted(c) => s.(handlers := s.handlers[c := Serving], pc := Accepting)
    case _ => s
  }

  /** handleTLSConn's deferred calls, last one first. */
  function StepHandler(s: State, c: Conn): State {
    if c !in s.handlers then s
    else match s.handlers[c]
      case Serving => s.(closed := s.closed + {c}, handlers := s.handlers[c := Closed])
      case Closed => s.(conns := s.conns - {c}, handlers := s.handlers[c := Untracked])
      case Untracked => s.(connWG := s.connWG - 1, handlers := s.handlers - {c})
  }

  function Apply(s: State, a: Action): State {
    match a
    case Cancel => s.(cancelled := true)
    case Accept(c) =>
      if s.pc.Accepting? && c !in s.accepted then s.(accepted := s.accepted + {c}, pc := Accepted(c)) else s
    case AcceptFails(temporary) =>
      if !s.pc.Accepting? then s
      else if s.cancelled then s.(pc := Waiting)
      else if temporary then s
      else s.(pc := Failed)
    case LoopStep => StepLoop(s)
    case HandlerStep(c) => StepHandler(s, c)
    case CountReachesZero => if ShuttingDown(s.pc) && s.connWG == 0 then s.(done := true) else s
    case SeeDone => if s.done && (s.pc.Waiting? || s.pc.AwaitingDone?) then s.(pc := Returned) else s
    case Timeout => if s.pc.Waiting? then s.(pc := Forcing(s.conns)) else s
    case CloseNext(c) =>
      if s.pc.Forcing? && c in s.pc.rest then s.(closed := s.closed + {c}, pc := Forcing(s.pc.rest - {c})) else s
    case SnapshotClosed => if s.pc.Forcing? && s.pc.rest == {} then s.(pc := AwaitingDone) else s
  }

  function Run(s: State, actions: seq<Action>): State
    decreases |actions|
  {
    if actions == [] then s else Run(Apply(s, actions[0]), actions[1..])
  }

  /** The connection the accept loop has tracked but not yet handed over. */
  function InHand(pc: Pc): set<Conn> {
    match pc
    case Tracked(c) => {c}
    case Counted(c) => {c}
    case _ => {}
  }

  ghost predicate HandlersOk(s: State) {
    forall c :: c in s.handlers ==>
      && c in s.accepted
      && (c in s.conns <==> !s.handlers[c].Untracked?)
      && (!s.handlers[c].Serving? ==> c in s.closed)
  }

  ghost predicate LoopOk(s: State) {
    && (s.pc.Accepted? ==> s.pc.c in s.accepted && s.pc.c !in s.conns && s.pc.c !in s.handlers)
    && (forall c :: c in InHand(s.pc) ==> c in s.accepted && c in s.conns && c !in s.handlers)
    && (ShuttingDown(s.pc) ==> s.cancelled)
    && (s.done ==> ShuttingDown(s.pc) && s.connWG == 0)
    && (s.pc.Returned? ==> s.done)
    && (s.pc.Forcing? ==> forall c :: c in s.conns ==> c in s.pc.rest || c in s.closed)
    && (s.pc.AwaitingDone? ==> s.conns <= s.closed)
  }

  ghost predicate Inv(s: State) {
    && HandlersOk(s) && LoopOk(s)
    && s.connWG == |s.handlers| + (if s.pc.Counted? then 1 else 0)
    && (forall c :: c in s.conns ==> c in s.handlers || c in InHand(s.pc))
    && (forall c :: c in s.accepted && c !in s.conns ==> c in s.closed || s.pc == Accepted(c))
  }

  lemma HandlerKeeps(s: State, c: Conn)
    requires Inv(s)
    ensures Inv(StepHandler(s, c))
  {
    if c in s.handlers {
      RemoveOne(s.handlers, c);
      PutOne(s.handlers, c, Closed);
      PutOne(s.handlers, c, Untracked);
    }
  }

  lemma LoopKeeps(s: State)
    requires Inv(s)
    ensures Inv(StepLoop(s))
  {
    if s.pc.Counted? { PutOne(s.handlers, s.pc.c, Serving); }
  }

  lemma ApplyKeeps(s: State, a: Action)
    requires Inv(s)
    ensures Inv(Apply(s, a))
  {
    match a
    case LoopStep => LoopKeeps(s);
    case HandlerStep(c) => HandlerKeeps(s, c);
    case _ =>
  }

  lemma {:induction false} RunKeeps(s: State, actions: seq<Action>)
    requires Inv(s)
    ensures Inv(Run(s, actions))
    decreases |actions|
  {
    if actions != [] {
      ApplyKeeps(s, actions[0]);
      RunKeeps(Apply(s, actions[0]), actions[1..]);
    }
  }

  lemma NoneLeft<V>(m: map<Conn, V>)
    requires |m| == 0
    ensures m.Keys == {}
  {
    assert |m.Keys| == 0;
  }

  /**
   In every run: when Run returns without an error, by either path, the context was cancelled, no
   handler is running, nothing is tracked, and every connection ever accepted is closed.
   */
  lemma ReturnedClean(actions: seq<Action>)
    ensures var s := Run(Init(), actions); s.pc.Returned? ==>
      s.cancelled && s.handlers.Keys == {} && s.conns == {} && s.connWG == 0 && s.accepted <= s.closed
  {
    RunKeeps(Init(), actions);
    var s := Run(Init(), actions);
    if s.pc.Returned? {
      assert |s.handlers| == 0;
      NoneLeft(s.handlers);
    }
  }

  /**
   Throughout every run: the wait group counts exactly the handlers not yet done, plus the one about
   to start, so it never drops below zero; an accepted connection that is not tracked is closed or
   has just been accepted; and once the forced close is over, no tracked connection is open.
   */
  lemma AlwaysAccounted(actions: seq<Action>)
    ensures var s := Run(Init(), actions);
      && s.connWG == |s.handlers| + (if s.pc.Counted? then 1 else 0)
      && (forall c :: c in s.accepted && c !in s.conns ==> c in s.closed || s.pc == Accepted(c))
      && (forall c :: c in s.handlers ==> s.connWG > 0)
      && (s.pc.AwaitingDone? ==> s.conns <= s.closed)
  {
    RunKeeps(Init(), actions);
    var s := Run(Init(), actions);
    forall c | c in s.handlers ensures s.connWG > 0 {
      RemoveOne(s.handlers, c);
    }
  }

  // ----- the server's own methods

  lemma {:induction false} RunThen(s: State, actions: seq<Action>, a: Action)
    ensures Run(s, actions + [a]) == Apply(Run(s, actions), a)
    decreases |actions|
  {
    if actions == [] {
      assert [a][1..] == [];
    } else {
      assert (actions + [a])[1..] == actions[1..] + [a];
      RunThen(Apply(s, actions[0]), actions[1..], a);
    }
  }

  /** From `s`, `steps` have closed all tracked connections but those in `rest`. */
  ghost predicate Closing(s: State, t: State, steps: seq<Action>, rest: set<Conn>) {
    t == Run(s, steps) && Inv(t) && t == s.(closed := s.closed + (s.conns - rest), pc := Forcing(rest))
  }

  lemma ClosesOne(s: State, t: State, steps: seq<Action>, rest: set<Conn>, c: Conn)
    requires Closing(s, t, steps, rest) && c in rest && rest <= s.conns
    ensures Closing(s, Apply(t, CloseNext(c)), steps + [CloseNext(c)], rest - {c})
  {
    RunThen(s, steps, CloseNext(c));
    ApplyKeeps(t, CloseNext(c));
  }

  /**
   The fields of the server.  `at` is where the whole program stands: each method below is a run of
   the machine above, so what holds in its runs holds of the fields.
   */
  class Server {
    var conns: set<Conn>
    var connWG: int
    ghost var at: State

    ghost predicate Valid()
      reads this
    {
      conns == at.conns && connWG == at.connWG && Inv(at)
    }

    constructor ()
      ensures Valid() && at == Init()
    {
      conns, connWG, at := {}, 0, Init();
    }

    method TrackConn(c: Conn)
      requires Valid() && at.pc == Accepted(c)
      modifies this`conns, this`at
      ensures Valid() && at == Apply(old(at), LoopStep)
    {
      conns := conns + {c};
      ApplyKeeps(at, LoopStep);
      at := Apply(at, LoopStep);
    }

    /** What the accept loop does with a connection. */
    method HandOver(c: Conn)
      requires Valid() && at.pc == Accepted(c)
      modifies this
      ensures Valid() && at == Run(old(at), [LoopStep, LoopStep, LoopStep])
      ensures conns == old(conns) + {c} && connWG == old(connWG) + 1 && at.pc.Accepting?
    {
      TrackConn(c);
      connWG := connWG + 1;
      ApplyKeeps(at, LoopStep);
      at := Apply(at, LoopStep);
      ApplyKeeps(at, LoopStep);
      at := Apply(at, LoopStep);
      ThreeSteps(old(at), LoopStep);
    }

    method UntrackConn(c: Conn)
      requires Valid() && c in at.handlers && at.handlers[c].Closed?
      modifies this`conns, this`at
      ensures Valid() && at == Apply(old(at), HandlerStep(c))
    {
      conns := conns - {c};
      ApplyKeeps(at, HandlerStep(c));
      at := Apply(at, HandlerStep(c));
    }

    /** The deferred calls of handleTLSConn: close, untrack, count down. */
    method FinishHandler(c: Conn)
      requires Valid() && c in at.handlers && at.handlers[c].Serving?
      modifies this
      ensures Valid() && at == Run(old(at), [HandlerStep(c), HandlerStep(c), HandlerStep(c)])
      ensures conns == old(conns) - {c} && connWG == old(connWG) - 1 && c in at.closed && c !in at.handlers
    {
      ApplyKeeps(at, HandlerStep(c));
      at := Apply(at, HandlerStep(c));
      UntrackConn(c);
      connWG := connWG - 1;
      ApplyKeeps(at, HandlerStep(c));
      at := Apply(at, HandlerStep(c));
      ThreeSteps(old(at), HandlerStep(c));
    }

    /**
     closeAllConnections after the timeout: a snapshot of the table, closed one by one in any order.
     With no handler stepping in between it closes exactly what was tracked.
     */
    method CloseAllConnections() returns (ghost steps: seq<Action>)
      requires Valid() && at.pc.Waiting?
      modifies this`at
      ensures Valid() && at == Run(old(at), steps) && at.pc.AwaitingDone?
      ensures at.closed == old(at).closed + conns && at.conns == old(at).conns && at.handlers == old(at).handlers
    {
      var snapshot := conns;
      steps := [Timeout];
      RunThen(at, [], Timeout);
      ApplyKeeps(at, Timeout);
      at := Apply(at, Timeout);
      while snapshot != {}
        invariant snapshot <= conns && Closing(old(at), at, steps, snapshot)
        decreases snapshot
      {
        var c :| c in snapshot;
        ClosesOne(old(at), at, steps, snapshot, c);
        at := Apply(at, CloseNext(c));
        steps := steps + [CloseNext(c)];
        snapshot := snapshot - {c};
      }
      RunThen(old(at), steps, SnapshotClosed);
      ApplyKeeps(at, SnapshotClosed);
      at := Apply(at, SnapshotClosed);
      steps := steps + [SnapshotClosed];
    }
  }

  lemma ThreeSteps(s: State, a: Action)
    ensures Run(s, [a, a, a]) == Apply(Apply(Apply(s, a), a), a)
  {
    RunThen(s, [], a);
    RunThen(s, [a], a);
    RunThen(s, [a, a], a);
  }
}
