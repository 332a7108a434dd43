/**
 StartVM and StopVM look whether the VM exists before they take its lock.  So a start can act on a VM
 that a delete has removed in between; it acts on a stored one exactly when the VM is still stored at
 the moment the lock is taken.
 */
module StaleStart {
  import opened Ipv4
  import opened Store
  import opened ControlPlane
  import opened LockSafety
  import opened Effects
  import opened Lifecycles
  import opened Scenarios

  // ----- how it fails

  /** A start that has found its VM waits while a delete of it runs to its end, and then goes on. */
  function StaleRun(u: Id): seq<Action> {
    CreateRun(u) + (LookRun(u) + ((ToConfig(2, u) + Steps(3, 2)) + (Steps(2, 2) + (Steps(2, 1) + Steps(1, 1)))))
  }

  lemma StartEnters(cfg: Config, s: State, u: Id)
    requires WellFormed(cfg.alloc.cidr) && s.calls == map[1 := Waiting(u)] && s.holders == map[]
    ensures var t := Run(cfg, s, Steps(2, 1));
      && InCritical(t, 1, u) && t.calls[1].op.Start? && t.calls[1].pc.stage == ChangeUnit
      && t.metas == s.metas && t.deletes == s.deletes
  {
    RunTwo(cfg, s, Steps(2, 1));
    var s1 := Apply(cfg, s, Advance(1, Go("")));
    assert s1.calls[1].pc.TryLock? && s1.holders == map[];
  }

  lemma StartGoesOn(cfg: Config, s: State, u: Id)
    requires WellFormed(cfg.alloc.cidr) && s.calls == map[1 := Waiting(u)] && s.holders == map[]
    ensures var t := Run(cfg, s, Steps(2, 1) + Steps(1, 1)); u in t.units && t.metas == s.metas && t.deletes == s.deletes
  {
    RunConcat(cfg, s, Steps(2, 1), Steps(1, 1));
    StartEnters(cfg, s, u);
    RunOne(cfg, Run(cfg, s, Steps(2, 1)), Steps(1, 1));
  }

  /** For every configuration there is a run in which the unit of a VM is started after its delete has succeeded. */
  lemma StartAfterDelete(cfg: Config, u: Id)
    requires Allocator.Usable(cfg.alloc.cidr) && IsUuid(u)
    ensures var s := Run(cfg, Init(), StaleRun(u)); u in s.deletes && u !in s.metas && u in s.units
  {
    FirstAllocates(cfg);
    var meta := Record(cfg, u);
    var found := Found(u, meta);
    var gone := WithoutData(cfg, Locked(found, 2, u), u);
    var deletes := ToConfig(2, u) + Steps(3, 2);
    RunConcat(cfg, Init(), CreateRun(u), LookRun(u) + (deletes + (Steps(2, 2) + (Steps(2, 1) + Steps(1, 1)))));
    Creates(cfg, u);
    RunConcat(cfg, Created(u, meta), LookRun(u), deletes + (Steps(2, 2) + (Steps(2, 1) + Steps(1, 1))));
    Looks(cfg, u, meta);
    RunConcat(cfg, found, deletes, Steps(2, 2) + (Steps(2, 1) + Steps(1, 1)));
    UuidIsTrimmed(u);
    Reaches(cfg, found, 2, u);
    OwnRecordGone(cfg, Locked(found, 2, u), u);
    RunConcat(cfg, At(gone, 2, 0, u, FireDelete), Steps(2, 2), Steps(2, 1) + Steps(1, 1));
    Finishes(cfg, gone, 2, 0, Delete(false), u);
    StartGoesOn(cfg, gone.(deletes := gone.deletes + [u], holders := map[]), u);
  }

  // ----- when it does not

  /** The step takes away the record of `id`: a delete of it, at its config directory, gets that far. */
  ghost predicate RemovesRecord(s: State, a: Action, id: Id) {
    && a.Advance? && a.c in s.calls && Inside(s.calls[a.c], id) && s.calls[a.c].pc.stage == RemoveConfig
    && !a.choice.fails && (a.choice.partly ==> !a.choice.lock && a.choice.id == id)
  }

  lemma CriticalStored(cfg: Config, s: State, c: CallId, ch: Choice, id: Id)
    requires ValidConfig(cfg) && Reachable(s) && id in s.metas
    requires c in s.calls && s.calls[c].Lifecycle? && s.calls[c].pc.Critical?
    ensures id in StepCritical(cfg, s, c, s.calls[c], ch).metas <==> !RemovesRecord(s, Advance(c, ch), id)
  {
    var call := s.calls[c];
    assert CallOk(s, c, call);
    if call.id != id {
      CriticalFits(cfg, s, c, ch, id);
    } else if call.pc.stage == RemoveConfig {
      OwnRecordTaken(cfg, s, c, ch);
    } else {
      RecordLeft(cfg, s, c, ch, id);
    }
  }

  lemma OwnRecordTaken(cfg: Config, s: State, c: CallId, ch: Choice)
    requires c in s.calls && s.calls[c].Lifecycle? && s.calls[c].pc.Critical? && s.calls[c].pc.stage == RemoveConfig
    requires s.calls[c].id in s.metas
    ensures s.calls[c].id in StepCritical(cfg, s, c, s.calls[c], ch).metas <==>
      ch.fails || (ch.partly && (ch.lock || ch.id != s.calls[c].id))
  {
    var p := PathsFor(cfg.roots, s.calls[c].id);
    assert Within(p.meta, p.configDir);
  }

  /** Before the removals, and after the last, no record goes. */
  lemma RecordLeft(cfg: Config, s: State, c: CallId, ch: Choice, id: Id)
    requires c in s.calls && s.calls[c].Lifecycle? && s.calls[c].pc.Critical? && id in s.metas
    requires s.calls[c].pc.stage !in {RemoveConfig, RemoveRun, RemoveData}
    ensures id in StepCritical(cfg, s, c, s.calls[c], ch).metas
  {
  }

  lemma StepStored(cfg: Config, s: State, a: Action, id: Id)
    requires ValidConfig(cfg) && Reachable(s) && id in s.saved
    ensures id in Apply(cfg, s, a).metas <==> id in s.metas && !RemovesRecord(s, a, id)
    ensures id in Apply(cfg, s, a).saved
  {
    if a.Advance? && a.c in s.calls { CallStored(cfg, s, a.c, a.choice, id); }
  }

  lemma CallStored(cfg: Config, s: State, c: CallId, ch: Choice, id: Id)
    requires ValidConfig(cfg) && Reachable(s) && id in s.saved && c in s.calls
    ensures var t := StepCall(cfg, s, c, ch);
      && (id in t.metas <==> id in s.metas && !RemovesRecord(s, Advance(c, ch), id))
      && id in t.saved
  {
    var call := s.calls[c];
    assert CallOk(s, c, call);
    CallFits(cfg, s, c, ch, id);
    SavedGrows(cfg, s, c, ch);
    if call.Lifecycle? && call.pc.Critical? && id in s.metas { CriticalStored(cfg, s, c, ch, id); }
  }

  lemma SavedGrows(cfg: Config, s: State, c: CallId, ch: Choice)
    requires WellFormed(cfg.alloc.cidr) && c in s.calls
    ensures s.saved <= StepCall(cfg, s, c, ch).saved
  {
    var call := s.calls[c];
    if call.Reading? {
      ReadingFits(cfg, s, c, ch);
    } else if call.Lifecycle? && call.pc.Critical? {
      CriticalShape(cfg, s, c, call, ch);
    } else if !call.Saving? {
      OtherFits(cfg, s, c, ch);
    }
  }

  /** A step of `more` takes away the record of `id`. */
  ghost predicate Taken(cfg: Config, s: State, more: seq<Action>, id: Id)
    requires WellFormed(cfg.alloc.cidr)
  {
    exists i :: 0 <= i < |more| && RemovesRecord(Run(cfg, s, more[..i]), more[i], id)
  }

  lemma TakenFirst(cfg: Config, s: State, more: seq<Action>, id: Id)
    requires WellFormed(cfg.alloc.cidr) && more != []
    ensures Taken(cfg, s, more, id) <==>
      RemovesRecord(s, more[0], id) || Taken(cfg, Apply(cfg, s, more[0]), more[1..], id)
  {
    var t, rest := Apply(cfg, s, more[0]), more[1..];
    assert Run(cfg, s, more[..0]) == s;
    forall i | 0 < i < |more| ensures Run(cfg, s, more[..i]) == Run(cfg, t, rest[..i - 1]) {
      SliceTail(more, i);
    }
    if RemovesRecord(s, more[0], id) { assert RemovesRecord(Run(cfg, s, more[..0]), more[0], id); }
    forall i | 0 <= i < |rest| && RemovesRecord(Run(cfg, t, rest[..i]), rest[i], id) ensures Taken(cfg, s, more, id) {
      assert RemovesRecord(Run(cfg, s, more[..i + 1]), more[i + 1], id);
    }
    if i :| 0 <= i < |more| && RemovesRecord(Run(cfg, s, more[..i]), more[i], id) && i > 0 {
      assert RemovesRecord(Run(cfg, t, rest[..i - 1]), rest[i - 1], id);
    }
  }

  lemma {:induction false} StoredOnward(cfg: Config, s: State, more: seq<Action>, id: Id)
    requires ValidConfig(cfg) && Reachable(s) && id in s.saved
    ensures id in Run(cfg, s, more).metas <==> id in s.metas && !Taken(cfg, s, more, id)
    decreases |more|
  {
    if more != [] {
      StepStored(cfg, s, more[0], id);
      ReachableStep(cfg, s, more[0]);
      StoredOnward(cfg, Apply(cfg, s, more[0]), more[1..], id);
      TakenFirst(cfg, s, more, id);
    }
  }

  /**
   In every run, a VM found stored is stored later exactly when no delete of it has got to its record
   in the meantime.
   */
  lemma StoredUntilDeleted(cfg: Config, actions: seq<Action>, more: seq<Action>, id: Id)
    requires ValidConfig(cfg) && id in Run(cfg, Init(), actions).metas
    ensures var s := Run(cfg, Init(), actions);
      id in Run(cfg, s, more).metas <==> !Taken(cfg, s, more, id)
  {
    ReachableRun(cfg, actions);
    StoredOnward(cfg, Run(cfg, Init(), actions), more, id);
  }

  ghost predicate NoDelete(s: State, id: Id) {
    forall d :: d in s.calls && s.calls[d].Lifecycle? && s.calls[d].op.Delete? ==> s.calls[d].id != id
  }

  lemma NothingRemoved(s: State, a: Action, id: Id)
    requires Disciplined(s) && NoDelete(s, id)
    ensures !RemovesRecord(s, a, id)
  {
  }

  /**
   What a caller can rely on: in every run, if a VM is stored when its existence is checked and no
   delete of it is in flight from then on, it is stored whenever its unit is changed.
   */
  lemma StoredWithoutDeletes(cfg: Config, actions: seq<Action>, more: seq<Action>, id: Id)
    requires ValidConfig(cfg) && id in Run(cfg, Init(), actions).metas
    requires forall i :: 0 <= i < |more| ==> NoDelete(Run(cfg, Run(cfg, Init(), actions), more[..i]), id)
    ensures id in Run(cfg, Run(cfg, Init(), actions), more).metas
  {
    var s := Run(cfg, Init(), actions);
    StoredUntilDeleted(cfg, actions, more, id);
    forall i | 0 <= i < |more| ensures !RemovesRecord(Run(cfg, s, more[..i]), more[i], id) {
      RunConcat(cfg, Init(), actions, more[..i]);
      ReachableRun(cfg, actions + more[..i]);
      NothingRemoved(Run(cfg, s, more[..i]), more[i], id);
    }
  }

  /** Neither a crash nor a step of `c`. */
  ghost predicate LeavesAlone(more: seq<Action>, c: CallId) {
    forall i :: 0 <= i < |more| ==> !more[i].Crash? && !(more[i].Advance? && more[i].c == c)
  }

  lemma CallUntouched(cfg: Config, s: State, a: Action, c: CallId)
    requires WellFormed(cfg.alloc.cidr) && c in s.calls && !a.Crash? && !(a.Advance? && a.c == c)
    ensures var t := Apply(cfg, s, a); c in t.calls && t.calls[c] == s.calls[c]
  {
    if a.Advance? && a.c in s.calls { OtherCallsSame(cfg, s, a.c, a.choice, c); }
  }

  lemma OtherCallsSame(cfg: Config, s: State, d: CallId, ch: Choice, c: CallId)
    requires WellFormed(cfg.alloc.cidr) && c in s.calls && d in s.calls && c != d
    ensures var t := StepCall(cfg, s, d, ch); c in t.calls && t.calls[c] == s.calls[c]
  {
    match s.calls[d]
    case Reading(_, _, _) => assert StepCall(cfg, s, d, ch) == StepReading(cfg, s, d, s.calls[d], ch);
    case Lifecycle(_, _, _) => OthersInLifecycle(cfg, s, d, ch, c);
    case _ =>
  }

  lemma OthersInLifecycle(cfg: Config, s: State, d: CallId, ch: Choice, c: CallId)
    requires WellFormed(cfg.alloc.cidr) && c in s.calls && d in s.calls && c != d && s.calls[d].Lifecycle?
    ensures var t := StepCall(cfg, s, d, ch); c in t.calls && t.calls[c] == s.calls[c]
  {
    if s.calls[d].pc.Critical? {
      OthersInSection(cfg, s, d, ch, c);
    } else {
      OthersAtEntry(s, d, ch, c);
    }
  }

  lemma OthersInSection(cfg: Config, s: State, d: CallId, ch: Choice, c: CallId)
    requires c in s.calls && d in s.calls && c != d && s.calls[d].Lifecycle? && s.calls[d].pc.Critical?
    ensures var t := StepCritical(cfg, s, d, s.calls[d], ch); c in t.calls && t.calls[c] == s.calls[c]
  {
    CriticalShape(cfg, s, d, s.calls[d], ch);
  }

  lemma OthersAtEntry(s: State, d: CallId, ch: Choice, c: CallId)
    requires c in s.calls && d in s.calls && c != d && s.calls[d].Lifecycle?
    ensures var t := StepCheckExists(s, d, s.calls[d], ch); c in t.calls && t.calls[c] == s.calls[c]
    ensures var t := StepOpenLock(s, d, s.calls[d], ch); c in t.calls && t.calls[c] == s.calls[c]
    ensures s.calls[d].pc.TryLock? ==>
      var t := StepTryLock(s, d, s.calls[d], ch); c in t.calls && t.calls[c] == s.calls[c]
  {
  }

  lemma {:induction false} HeldStored(cfg: Config, s: State, c: CallId, id: Id, more: seq<Action>)
    requires ValidConfig(cfg) && Reachable(s) && InCritical(s, c, id) && !s.calls[c].op.Delete?
    requires LeavesAlone(more, c)
    ensures var t := Run(cfg, s, more); c in t.calls && t.calls[c] == s.calls[c] && (id in t.metas <==> id in s.metas)
    decreases |more|
  {
    if more != [] {
      var a := more[0];
      assert !a.Crash? && !(a.Advance? && a.c == c);
      CallUntouched(cfg, s, a, c);
      assert CallOk(s, c, s.calls[c]);
      StepStored(cfg, s, a, id);
      if RemovesRecord(s, a, id) {
        MutualExclusion(s, a.c, c, id);
      }
      ReachableStep(cfg, s, a);
      HeldStored(cfg, Apply(cfg, s, a), c, id, more[1..]);
    }
  }

  /**
   In every run: let a start or stop take the lock of its VM, and let anything happen before its next
   step, short of a crash.  Then it stands before the change of the unit, and the VM is stored there
   exactly when it was stored as the lock was taken.  So looking again after taking the lock is what
   the code lacks.
   */
  lemma ActsOnStoredExactly(cfg: Config, actions: seq<Action>, c: CallId, ch: Choice, more: seq<Action>)
    requires ValidConfig(cfg) && LeavesAlone(more, c)
    ensures var s := Run(cfg, Init(), actions);
      c in s.calls && s.calls[c].Lifecycle? && s.calls[c].pc.TryLock? && !s.calls[c].op.Delete? ==>
        var locked := Apply(cfg, s, Advance(c, ch));
        c in locked.calls ==>
          var id, t := s.calls[c].id, Run(cfg, locked, more);
          && InCritical(t, c, id) && t.calls[c].pc.stage == ChangeUnit
          && (id in t.metas <==> id in s.metas)
  {
    var s := Run(cfg, Init(), actions);
    if c in s.calls && s.calls[c].Lifecycle? && s.calls[c].pc.TryLock? && !s.calls[c].op.Delete? {
      var locked := Apply(cfg, s, Advance(c, ch));
      if c in locked.calls {
        ReachableRun(cfg, actions);
        ReachableStep(cfg, s, Advance(c, ch));
        HeldStored(cfg, locked, c, s.calls[c].id, more);
      }
    }
  }
}
