/**
 That the server's safety results are about something: how accepting ends, that every shutdown can
 still return, and that both ways of returning exist for every set of connections.
 */
module Shutdown {
  import opened Maps
  import opened Forwarder

  lemma {:induction false} RunConcat(s: State, a: seq<Action>, b: seq<Action>)
    ensures Run(s, a + b) == Run(Run(s, a), b)
    decreases |a|
  {
    if a == [] {
      assert a + b == b;
    } else {
      assert (a + b)[1..] == a[1..] + b;
      RunConcat(Apply(s, a[0]), a[1..], b);
    }
  }

  lemma RunOne(s: State, a: Action)
    ensures Run(s, [a]) == Apply(s, a)
  {
    assert [a][1..] == [];
  }

  // ----- how accepting ends

  /**
   In every run: an accept error while accepting ends in the shutdown exactly when the context was
   cancelled, in failure exactly when it was not and the error is not temporary, and otherwise
   accepting goes on.
   */
  lemma AcceptErrorExactly(actions: seq<Action>, temporary: bool)
    ensures var s := Run(Init(), actions); s.pc.Accepting? ==>
      var t := Apply(s, AcceptFails(temporary));
      && (t.pc == Waiting <==> Cancel in actions)
      && (t.pc == Failed <==> Cancel !in actions && !temporary)
      && (t == s <==> Cancel !in actions && temporary)
  {
    CancelledExactly(Init(), actions);
  }

  /** The context is cancelled once it has been, and not before. */
  lemma {:induction false} CancelledExactly(s: State, actions: seq<Action>)
    ensures Run(s, actions).cancelled <==> s.cancelled || Cancel in actions
    decreases |actions|
  {
    if actions != [] {
      CancelledExactly(Apply(s, actions[0]), actions[1..]);
      CancelStep(s, actions[0]);
      assert Cancel in actions <==> actions[0] == Cancel || Cancel in actions[1..];
    }
  }

  lemma CancelStep(s: State, a: Action)
    ensures Apply(s, a).cancelled <==> s.cancelled || a == Cancel
  {
  }

  /** At `i` an accept error that is not temporary meets an accepting server that was not cancelled. */
  ghost predicate FailsAt(actions: seq<Action>, i: nat)
    requires i < |actions|
  {
    actions[i] == AcceptFails(false) && Run(Init(), actions[..i]).pc == Accepting && Cancel !in actions[..i]
  }

  /** In every run that failed, an accept error that was not temporary came while accepting, before any cancellation. */
  lemma {:induction false} FailedUncancelled(actions: seq<Action>)
    requires Run(Init(), actions).pc == Failed
    ensures exists i :: 0 <= i < |actions| && FailsAt(actions, i)
    decreases |actions|
  {
    if actions != [] {
      var n := |actions| - 1;
      var front := actions[..n];
      assert actions == front + [actions[n]];
      RunConcat(Init(), front, [actions[n]]);
      RunOne(Run(Init(), front), actions[n]);
      if Run(Init(), front).pc == Failed {
        FailedUncancelled(front);
        var i :| 0 <= i < n && FailsAt(front, i);
        assert front[..i] == actions[..i];
        assert FailsAt(actions, i);
      } else {
        CancelledExactly(Init(), front);
        assert FailsAt(actions, n);
      }
    }
  }

  // ----- every shutdown can return

  /** How many of its deferred calls a handler has before it. */
  function ToGo(h: Handler): nat {
    match h
    case Serving => 2
    case Closed => 1
    case Untracked => 0
  }

  /** The handler of `c` finishes. */
  lemma {:induction false} OneHandlerEnds(s: State, c: Conn) returns (more: seq<Action>)
    requires Inv(s) && c in s.handlers
    ensures Quiet(more)
    ensures var t := Run(s, more); Inv(t) && t.handlers == s.handlers - {c} && SameProgram(s, t)
    decreases ToGo(s.handlers[c])
  {
    var h := HandlerStep(c);
    ApplyKeeps(s, h);
    RunOne(s, h);
    if s.handlers[c].Untracked? {
      more := [h];
    } else {
      var next := Apply(s, h);
      assert next.handlers - {c} == s.handlers - {c};
      var rest := OneHandlerEnds(next, c);
      RunConcat(s, [h], rest);
      more := [h] + rest;
    }
  }

  /** Only handlers step. */
  ghost predicate Quiet(more: seq<Action>) {
    forall i :: 0 <= i < |more| ==> more[i].HandlerStep?
  }

  /** The main program stands where it stood. */
  ghost predicate SameProgram(s: State, t: State) {
    t.pc == s.pc && t.cancelled == s.cancelled && t.done == s.done && t.accepted == s.accepted
  }

  lemma {:induction false} AllHandlersEnd(s: State) returns (more: seq<Action>)
    requires Inv(s)
    ensures Quiet(more)
    ensures var t := Run(s, more); Inv(t) && t.handlers == map[] && SameProgram(s, t)
    decreases |s.handlers|
  {
    if s.handlers == map[] { return []; }
    var c :| c in s.handlers;
    var first := OneHandlerEnds(s, c);
    RemoveOne(s.handlers, c);
    var rest := AllHandlersEnd(Run(s, first));
    RunConcat(s, first, rest);
    more := first + rest;
  }

  /** With every handler gone and nothing left to close, the wait is over. */
  lemma Returns(s: State) returns (more: seq<Action>)
    requires Inv(s) && (s.pc == Waiting || s.pc == AwaitingDone)
    ensures Timeout !in more && Run(s, more).pc == Returned && Run(s, more).accepted == s.accepted
  {
    var drain := AllHandlersEnd(s);
    var t := Run(s, drain);
    assert t.connWG == 0;
    var last := [CountReachesZero, SeeDone];
    RunConcat(s, drain, last);
    RunConcat(t, [CountReachesZero], [SeeDone]);
    RunOne(t, CountReachesZero);
    RunOne(Apply(t, CountReachesZero), SeeDone);
    assert last == [CountReachesZero] + [SeeDone];
    more := drain + last;
  }

  /** The forced close goes through its snapshot. */
  lemma {:induction false} Closes(s: State) returns (more: seq<Action>)
    requires Inv(s) && s.pc.Forcing?
    ensures var t := Run(s, more); Inv(t) && t.pc == AwaitingDone && t.accepted == s.accepted
    decreases if s.pc.Forcing? then s.pc.rest else {}
  {
    if s.pc.rest == {} {
      more := [SnapshotClosed];
      RunOne(s, SnapshotClosed);
      RunKeeps(s, more);
    } else {
      var c :| c in s.pc.rest;
      ApplyKeeps(s, CloseNext(c));
      var rest := Closes(Apply(s, CloseNext(c)));
      RunConcat(s, [CloseNext(c)], rest);
      RunOne(s, CloseNext(c));
      more := [CloseNext(c)] + rest;
    }
  }

  lemma ShutdownReturns(s: State) returns (more: seq<Action>)
    requires Inv(s) && ShuttingDown(s.pc)
    ensures Run(s, more).pc == Returned && Run(s, more).accepted == s.accepted
  {
    if s.pc == Returned {
      more := [];
    } else if s.pc.Forcing? {
      var first := Closes(s);
      var rest := Returns(Run(s, first));
      RunConcat(s, first, rest);
      more := first + rest;
    } else {
      more := Returns(s);
    }
  }

  /** From every state of every run in which the shutdown has begun, some continuation returns nil. */
  lemma EveryShutdownCanReturn(actions: seq<Action>)
    requires ShuttingDown(Run(Init(), actions).pc)
    ensures exists more :: Run(Run(Init(), actions), more).pc == Returned
  {
    RunKeeps(Init(), actions);
    var more := ShutdownReturns(Run(Init(), actions));
  }

  // ----- both ways exist

  /** One connection is accepted and handed over. */
  lemma Accepts(s: State, c: Conn)
    requires Inv(s) && s.pc == Accepting && c !in s.accepted
    ensures var t := Run(s, [Accept(c), LoopStep, LoopStep, LoopStep]);
      Inv(t) && t.pc == Accepting && t.accepted == s.accepted + {c} && t.cancelled == s.cancelled
  {
    var run := [Accept(c), LoopStep, LoopStep, LoopStep];
    assert run == [Accept(c)] + [LoopStep, LoopStep, LoopStep];
    RunConcat(s, [Accept(c)], [LoopStep, LoopStep, LoopStep]);
    RunOne(s, Accept(c));
    ThreeSteps(Apply(s, Accept(c)), LoopStep);
    RunKeeps(s, run);
  }

  lemma {:induction false} AcceptsAll(conns: set<Conn>) returns (run: seq<Action>)
    ensures Timeout !in run
    ensures var t := Run(Init(), run); Inv(t) && t.pc == Accepting && t.accepted == conns && !t.cancelled
    decreases conns
  {
    if conns == {} {
      run := [];
    } else {
      var c :| c in conns;
      var front := AcceptsAll(conns - {c});
      var one := [Accept(c), LoopStep, LoopStep, LoopStep];
      RunConcat(Init(), front, one);
      Accepts(Run(Init(), front), c);
      run := front + one;
      assert conns - {c} + {c} == conns;
    }
  }

  /** All accepted, cancelled, and at the wait. */
  lemma WaitsWith(conns: set<Conn>) returns (run: seq<Action>)
    ensures Timeout !in run
    ensures var t := Run(Init(), run); Inv(t) && t.pc == Waiting && t.accepted == conns
  {
    var front := AcceptsAll(conns);
    var s, last := Run(Init(), front), [Cancel, AcceptFails(false)];
    RunConcat(Init(), front, last);
    assert last == [Cancel] + [AcceptFails(false)];
    RunConcat(s, [Cancel], [AcceptFails(false)]);
    RunOne(s, Cancel);
    RunOne(Apply(s, Cancel), AcceptFails(false));
    run := front + last;
    RunKeeps(Init(), run);
  }

  /** The run returns with exactly these connections accepted. */
  ghost predicate ReturnsWith(run: seq<Action>, conns: set<Conn>) {
    Run(Init(), run).pc == Returned && Run(Init(), run).accepted == conns
  }

  /** The run's timeout strikes during the wait. */
  ghost predicate Forced(run: seq<Action>) {
    exists i :: 0 <= i < |run| && run[i] == Timeout && Run(Init(), run[..i]).pc == Waiting
  }

  /** For every set of connections some run returns without a timeout, and some run by the forced close. */
  lemma BothWaysReturn(conns: set<Conn>)
    ensures exists run :: ReturnsWith(run, conns) && Timeout !in run
    ensures exists run :: ReturnsWith(run, conns) && Forced(run)
  {
    var wait := WaitsWith(conns);
    var s := Run(Init(), wait);
    var graceful := Returns(s);
    RunConcat(Init(), wait, graceful);
    assert ReturnsWith(wait + graceful, conns) && Timeout !in wait + graceful;
    ApplyKeeps(s, Timeout);
    var forced := ShutdownReturns(Apply(s, Timeout));
    var run := wait + ([Timeout] + forced);
    RunConcat(Init(), wait, [Timeout] + forced);
    RunConcat(s, [Timeout], forced);
    RunOne(s, Timeout);
    assert run[..|wait|] == wait && run[|wait|] == Timeout;
    assert ReturnsWith(run, conns) && Forced(run);
  }
}
