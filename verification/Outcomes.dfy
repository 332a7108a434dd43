/**
 What each call of the service does in the end, when it meets no fault and nothing else happens until
 it is over: from every reachable state, whatever other calls are in flight.
 */
module Outcomes {
  import opened Text
  import opened Ipv4
  import opened Store
  import opened ControlPlane
  import opened LockSafety
  import opened Effects
  import opened Lifecycles
  import opened Scenarios

  ghost predicate Unlocked(s: State, id: Id) {
    forall d :: !InCritical(s, d, id)
  }

  lemma HeldFromInside(s: State, id: Id)
    requires Reachable(s) && LockFile(s, id) in s.holders
    ensures InCritical(s, s.holders[LockFile(s, id)], id) && id in s.saved
  {
    var d := s.holders[LockFile(s, id)];
    assert Holding(s, d, LockFile(s, id));
    assert CallOk(s, d, s.calls[d]);
  }

  /** With nobody in the critical section the lock file, old or new, is free. */
  lemma UnlockedIsFree(s: State, id: Id)
    requires Reachable(s) && Unlocked(s, id)
    ensures LockFile(s, id) !in s.holders
  {
    if LockFile(s, id) in s.holders { HeldFromInside(s, id); }
  }

  lemma StoredIsFree(s: State, c: CallId, id: Id)
    requires Reachable(s) && Unlocked(s, id) && id in s.metas && c !in s.calls
    ensures Free(s, c, id)
  {
    UnlockedIsFree(s, id);
    UuidIsTrimmed(id);
  }

  // ----- start and stop

  function StartStopRun(c: CallId, o: Op, id: Id): seq<Action> {
    ToLock(c, o, id) + Steps(2, c)
  }

  /**
   A start leaves the unit active and a stop leaves it inactive; the call is over, the lock is free
   again, and nothing else has changed but that the VM has a lock file.
   */
  lemma StartStopOutcome(cfg: Config, actions: seq<Action>, c: CallId, o: Op, id: Id)
    requires LocksKept(cfg) && !o.Delete?
    ensures var s := Run(cfg, Init(), actions);
      id in s.metas && c !in s.calls && Unlocked(s, id) ==>
        Run(cfg, s, StartStopRun(c, o, id)) ==
          WithLockFile(s, id).(units := if o == Start then s.units + {id} else s.units - {id})
  {
    var s := Run(cfg, Init(), actions);
    ReachableRun(cfg, actions);
    if id in s.metas && c !in s.calls && Unlocked(s, id) {
      StoredIsFree(s, c, id);
      StartStopEnds(cfg, s, c, o, id);
    }
  }

  lemma StartStopEnds(cfg: Config, s: State, c: CallId, o: Op, id: Id)
    requires WellFormed(cfg.alloc.cidr) && !o.Delete? && Free(s, c, id)
    ensures Run(cfg, s, StartStopRun(c, o, id)) == WithLockFile(s, id).(units := if o == Start then s.units + {id} else s.units - {id})
  {
    RunConcat(cfg, s, ToLock(c, o, id), Steps(2, c));
    Locks(cfg, s, c, o, id);
    Changes(cfg, Locked(s, c, id), c, LockFile(s, id), o, id);
    assert s.holders[LockFile(s, id) := c] - {LockFile(s, id)} == s.holders;
  }

  // ----- delete

  function DeleteRun(c: CallId, retainData: bool, id: Id): seq<Action> {
    ToLock(c, Delete(retainData), id) + FromLock(c, retainData)
  }

  /** What a removal of a directory of `id` takes: at most that VM's record and directory. */
  lemma TreeExactly(cfg: Config, s: State, id: Id, dir: Path)
    requires ValidConfig(cfg) && IsUuid(id)
    requires var p := PathsFor(cfg.roots, id); dir in {p.configDir, p.runDir, p.dataDir}
    ensures var t := RemoveTree(cfg, s, dir);
      && t.lockFiles == s.lockFiles
      && (forall v :: v != id ==> (v in t.metas <==> v in s.metas) && (v in t.dirs <==> v in s.dirs))
      && (dir == PathsFor(cfg.roots, id).configDir ==> id !in t.metas && id !in t.dirs)
  {
    LocksSurvive(cfg, s.lockFiles, id, dir);
    var p := PathsFor(cfg.roots, id);
    assert Within(p.meta, p.configDir) && Within(p.configDir, p.configDir);
    var t := RemoveTree(cfg, s, dir);
    forall v | v != id ensures (v in t.metas <==> v in s.metas) && (v in t.dirs <==> v in s.dirs) {
      OthersOutOfReach(cfg, id, v);
      assert !Within(PathsFor(cfg.roots, v).configDir, dir) && !Within(PathsFor(cfg.roots, v).meta, dir);
    }
  }

  lemma ConfigRemoved(cfg: Config, s: State, id: Id)
    requires ValidConfig(cfg) && IsUuid(id)
    ensures WithoutConfig(cfg, s, id) == s.(metas := s.metas - {id}, dirs := s.dirs - {id})
  {
    TreeExactly(cfg, s, id, PathsFor(cfg.roots, id).configDir);
    var t := WithoutConfig(cfg, s, id);
    assert t.metas == s.metas - {id} && t.dirs == s.dirs - {id};
  }

  lemma NothingMore(cfg: Config, s: State, id: Id, dir: Path)
    requires ValidConfig(cfg) && IsUuid(id) && id !in s.metas && id !in s.dirs
    requires var p := PathsFor(cfg.roots, id); dir in {p.configDir, p.runDir, p.dataDir}
    ensures RemoveTree(cfg, s, dir) == s
  {
    TreeExactly(cfg, s, id, dir);
    var t := RemoveTree(cfg, s, dir);
    assert t.metas == s.metas && t.dirs == s.dirs;
  }

  /** After the removals everything but the VM is stored, and the lock files are there. */
  lemma RemovedExactly(cfg: Config, s: State, id: Id)
    requires ValidConfig(cfg) && IsUuid(id)
    ensures WithoutRun(cfg, s, id) == WithoutData(cfg, s, id) == s.(metas := s.metas - {id}, dirs := s.dirs - {id})
  {
    var p, t := PathsFor(cfg.roots, id), s.(metas := s.metas - {id}, dirs := s.dirs - {id});
    ConfigRemoved(cfg, s, id);
    NothingMore(cfg, t, id, p.runDir);
    NothingMore(cfg, t, id, p.dataDir);
  }

  /** No directory of `id` contains the directory or the record of `v`. */
  ghost predicate OutOfReach(cfg: Config, id: Id, v: Id) {
    var p, q := PathsFor(cfg.roots, id), PathsFor(cfg.roots, v);
    forall dir :: dir in {p.configDir, p.runDir, p.dataDir} ==> !Within(q.configDir, dir) && !Within(q.meta, dir)
  }

  lemma OthersOutOfReach(cfg: Config, id: Id, v: Id)
    requires ConfigRootApart(cfg.roots) && IsUuid(id) && v != id
    ensures OutOfReach(cfg, id, v)
  {
    RecordSurvives(cfg.roots, id, v, false);
    ChildWithin(cfg.roots.config, cfg.roots.config, id, v);
    ChildWithin(cfg.roots.config, cfg.roots.run, id, v);
    ChildWithin(cfg.roots.config, cfg.roots.data, id, v);
  }

  /**
   A delete removes the VM's record and directory and no other, leaves its unit inactive and reports
   success once; the call is over and the lock is free again.
   */
  lemma DeleteOutcome(cfg: Config, actions: seq<Action>, c: CallId, retainData: bool, id: Id)
    requires ValidConfig(cfg)
    ensures var s := Run(cfg, Init(), actions);
      id in s.metas && c !in s.calls && Unlocked(s, id) ==>
        Run(cfg, s, DeleteRun(c, retainData, id)) ==
          WithLockFile(s, id).(metas := s.metas - {id}, dirs := s.dirs - {id}, units := s.units - {id}, deletes := s.deletes + [id])
  {
    var s := Run(cfg, Init(), actions);
    ReachableRun(cfg, actions);
    if id in s.metas && c !in s.calls && Unlocked(s, id) {
      StoredIsFree(s, c, id);
      DeleteEnds(cfg, s, c, retainData, id);
    }
  }

  lemma Removals(cfg: Config, s: State, c: CallId, n: Inode, retainData: bool, id: Id)
    requires ValidConfig(cfg) && IsUuid(id)
    ensures Run(cfg, Doing(s, c, Delete(retainData), id, Critical(n, RemoveConfig)), Steps(if retainData then 2 else 3, c)) ==
      Doing(s.(metas := s.metas - {id}, dirs := s.dirs - {id}), c, Delete(retainData), id, Critical(n, FireDelete))
  {
    var o, from := Delete(retainData), Doing(s, c, Delete(retainData), id, Critical(n, RemoveConfig));
    RemovesConfig(cfg, s, c, n, o, id);
    RemovesRun(cfg, s, c, n, o, id);
    RemovedExactly(cfg, s, id);
    if retainData {
      RunTwo(cfg, from, Steps(2, c));
    } else {
      RunThree(cfg, from, Steps(3, c));
      RemovesData(cfg, s, c, n, o, id);
    }
  }

  lemma DeleteEnds(cfg: Config, s: State, c: CallId, retainData: bool, id: Id)
    requires ValidConfig(cfg) && Free(s, c, id) && IsUuid(id)
    ensures Run(cfg, s, DeleteRun(c, retainData, id)) ==
      WithLockFile(s, id).(metas := s.metas - {id}, dirs := s.dirs - {id}, units := s.units - {id}, deletes := s.deletes + [id])
  {
    var o, n, locked := Delete(retainData), LockFile(s, id), Locked(s, c, id);
    RunConcat(cfg, s, ToLock(c, o, id), FromLock(c, retainData));
    Locks(cfg, s, c, o, id);
    DeleteGoesOn(cfg, locked, c, n, retainData, id);
    assert s.holders[n := c] - {n} == s.holders;
  }

  /** From the lock to the end. */
  function FromLock(c: CallId, retainData: bool): seq<Action> {
    Steps(3, c) + (Steps(if retainData then 2 else 3, c) + Steps(2, c))
  }

  lemma DeleteGoesOn(cfg: Config, s: State, c: CallId, n: Inode, retainData: bool, id: Id)
    requires ValidConfig(cfg) && IsUuid(id) && id in s.metas && c !in s.calls && n in s.holders && s.holders[n] == c
    ensures Run(cfg, Doing(s, c, Delete(retainData), id, Critical(n, ReadRecord)), FromLock(c, retainData)) ==
      s.(metas := s.metas - {id}, dirs := s.dirs - {id}, units := s.units - {id}, deletes := s.deletes + [id], holders := s.holders - {n})
  {
    var o, k := Delete(retainData), if retainData then 2 else 3;
    RunConcat(cfg, Doing(s, c, o, id, Critical(n, ReadRecord)), Steps(3, c), Steps(k, c) + Steps(2, c));
    Checks(cfg, s, c, n, o, id);
    RunConcat(cfg, Doing(Stopped(s, id), c, o, id, Critical(n, RemoveConfig)), Steps(k, c), Steps(2, c));
    Removals(cfg, Stopped(s, id), c, n, retainData, id);
    Finishes(cfg, Stopped(s, id).(metas := s.metas - {id}, dirs := s.dirs - {id}), c, n, o, id);
  }

  // ----- refusals

  /** An operation on a VM that is not stored changes nothing. */
  lemma MissingOutcome(cfg: Config, s: State, c: CallId, o: Op, id: Id)
    requires WellFormed(cfg.alloc.cidr) && id !in s.metas && c !in s.calls
    ensures Run(cfg, s, [BeginLifecycle(c, o, id), Advance(c, Go(""))]) == s
  {
    RunTwo(cfg, s, [BeginLifecycle(c, o, id), Advance(c, Go(""))]);
    assert s.calls[c := Lifecycle(o, id, CheckExists)] - {c} == s.calls;
  }

  /** And so does one on a VM another call is busy with. */
  lemma BusyOutcome(cfg: Config, actions: seq<Action>, c: CallId, d: CallId, o: Op, id: Id)
    requires LocksKept(cfg)
    ensures var s := Run(cfg, Init(), actions);
      id in s.metas && c !in s.calls && InCritical(s, d, id) ==> Run(cfg, s, ToLock(c, o, id)) == s
  {
    var s := Run(cfg, Init(), actions);
    ReachableRun(cfg, actions);
    if id in s.metas && c !in s.calls && InCritical(s, d, id) {
      assert CallOk(s, d, s.calls[d]);
      UuidIsTrimmed(id);
      BusyEnds(cfg, s, c, o, id);
    }
  }

  lemma BusyEnds(cfg: Config, s: State, c: CallId, o: Op, id: Id)
    requires WellFormed(cfg.alloc.cidr) && id in s.metas && Trim(id) != "" && c !in s.calls
    requires id in s.lockFiles && s.lockFiles[id] in s.holders
    ensures Run(cfg, s, ToLock(c, o, id)) == s
  {
    var go, n := Advance(c, Go("")), s.lockFiles[id];
    RunFour(cfg, s, ToLock(c, o, id));
    assert Apply(cfg, s, BeginLifecycle(c, o, id)) == Doing(s, c, o, id, CheckExists);
    assert Apply(cfg, Doing(s, c, o, id, CheckExists), go) == Doing(s, c, o, id, OpenLock);
    assert Apply(cfg, Doing(s, c, o, id, OpenLock), go) == Doing(s, c, o, id, TryLock(n));
    assert s.calls[c := Lifecycle(o, id, TryLock(n))] - {c} == s.calls;
  }

  // ----- faults

  /** Whether the fault of a unit operation struck after it took effect. */
  ghost predicate UnitsKept(s: State, t: State, ch: Choice) {
    !ch.partly ==> t.units == s.units
  }

  /**
   A fault in a critical section is final, but for the stop a delete makes: the call goes to its
   release, reports no success, and removes no record; a unit operation that failed may have taken
   effect.
   */
  lemma FaultEnds(cfg: Config, s: State, c: CallId, ch: Choice)
    requires WellFormed(cfg.alloc.cidr) && ch.fails
    requires c in s.calls && s.calls[c].Lifecycle? && s.calls[c].pc.Critical?
    requires s.calls[c].pc.stage !in {StopUnit, FireDelete, Release}
    ensures var t := Apply(cfg, s, Advance(c, ch));
      && c in t.calls && t.calls[c] == AtStage(s.calls[c], Release)
      && t.deletes == s.deletes && t.metas == s.metas && t.holders == s.holders && UnitsKept(s, t, ch)
  {
    if s.calls[c].pc.stage in {RemoveConfig, RemoveRun, RemoveData} {
      RemoveFails(cfg, s, c, ch);
    }
  }

  lemma RemoveFails(cfg: Config, s: State, c: CallId, ch: Choice)
    requires ch.fails && c in s.calls && s.calls[c].Lifecycle? && s.calls[c].pc.Critical?
    requires s.calls[c].pc.stage in {RemoveConfig, RemoveRun, RemoveData}
    ensures StepCritical(cfg, s, c, s.calls[c], ch) == Goto(s, c, AtStage(s.calls[c], Release))
  {
  }

  /** A fault before the lock ends the call and changes nothing else. */
  lemma FaultBeforeLock(cfg: Config, s: State, c: CallId, ch: Choice)
    requires WellFormed(cfg.alloc.cidr) && ch.fails
    requires c in s.calls && s.calls[c].Lifecycle? && !s.calls[c].pc.Critical?
    ensures Apply(cfg, s, Advance(c, ch)) == s.(calls := s.calls - {c})
  {
  }

  /** A fault in a create ends it; no record is written by that step, and none is taken back. */
  lemma FaultInCreate(cfg: Config, s: State, c: CallId, ch: Choice)
    requires WellFormed(cfg.alloc.cidr) && ch.fails && c in s.calls && !s.calls[c].Lifecycle?
    requires s.calls[c].Reading? ==> s.calls[c].todo == {} || ch.id in s.calls[c].todo
    ensures var t := Apply(cfg, s, Advance(c, ch));
      && t.calls == s.calls - {c} && t.metas == s.metas && t.units == s.units
      && t.issued == s.issued && t.saved == s.saved && t.holders == s.holders
  {
    if s.calls[c].Reading? { FaultInReading(cfg, s, c, ch); }
  }

  lemma FaultInReading(cfg: Config, s: State, c: CallId, ch: Choice)
    requires WellFormed(cfg.alloc.cidr) && ch.fails && c in s.calls && s.calls[c].Reading?
    requires s.calls[c].todo == {} || ch.id in s.calls[c].todo
    ensures StepReading(cfg, s, c, s.calls[c], ch) == s.(calls := s.calls - {c})
  {
  }

  // ----- a delete that comes too late

  /**
   In every run: a delete that finds the record gone, whether as it looks for the first time under the
   lock or for the second, stops nothing, removes nothing and reports no success.
   */
  lemma LateDeleteEnds(cfg: Config, actions: seq<Action>, c: CallId)
    requires LocksKept(cfg)
    ensures var s := Run(cfg, Init(), actions);
      c in s.calls && s.calls[c].Lifecycle? && s.calls[c].pc.Critical? && s.calls[c].id !in s.metas
      && s.calls[c].pc.stage in {ReadRecord, CheckStored} ==>
        Run(cfg, s, Steps(2, c)) == s.(calls := s.calls - {c}, holders := s.holders - {s.calls[c].pc.inode})
  {
    var s := Run(cfg, Init(), actions);
    ReachableRun(cfg, actions);
    if c in s.calls && s.calls[c].Lifecycle? && s.calls[c].pc.Critical? && s.calls[c].id !in s.metas
      && s.calls[c].pc.stage in {ReadRecord, CheckStored} {
      assert CallOk(s, c, s.calls[c]);
      LateEnds(cfg, s, c, s.calls[c]);
    }
  }

  lemma LateEnds(cfg: Config, s: State, c: CallId, call: Call)
    requires WellFormed(cfg.alloc.cidr) && c in s.calls && s.calls[c] == call && call.Lifecycle? && call.pc.Critical?
    requires call.id !in s.metas && call.pc.stage in {ReadRecord, CheckStored}
    requires call.pc.inode in s.holders && s.holders[call.pc.inode] == c
    ensures Run(cfg, s, Steps(2, c)) == s.(calls := s.calls - {c}, holders := s.holders - {call.pc.inode})
  {
    var go, t := Advance(c, Go("")), s.(calls := s.calls[c := AtStage(call, Release)]);
    RunTwo(cfg, s, Steps(2, c));
    assert Apply(cfg, s, go) == t;
    assert t.calls - {c} == s.calls - {c};
  }
}
