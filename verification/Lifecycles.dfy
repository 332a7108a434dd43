/**
 One start, stop or delete taken alone and without faults, step by step, from any state in which its
 VM is stored and nobody holds its lock.
 */
module Lifecycles {
  import opened Text
  import opened Ipv4
  import opened Store
  import opened ControlPlane

  /** Call `c` is an operation `o` on `u`, at the point `pc`. */
  ghost function Doing(s: State, c: CallId, o: Op, u: Id, pc: Pc): State {
    s.(calls := s.calls[c := Lifecycle(o, u, pc)])
  }

  /** The lock file an attempt opens: the one there is, or a new one. */
  ghost function LockFile(s: State, u: Id): Inode {
    if u in s.lockFiles then s.lockFiles[u] else s.nextInode
  }

  ghost function WithLockFile(s: State, u: Id): State {
    s.(lockFiles := s.lockFiles[u := LockFile(s, u)], nextInode := if u in s.lockFiles then s.nextInode else s.nextInode + 1)
  }

  /** Call `c` has the lock of `u`. */
  ghost function Locked(s: State, c: CallId, u: Id): State {
    WithLockFile(s, u).(holders := s.holders[LockFile(s, u) := c])
  }

  /** `u` is stored and its lock is free, and call `c` is not in flight. */
  ghost predicate Free(s: State, c: CallId, u: Id) {
    u in s.metas && Trim(u) != "" && c !in s.calls && LockFile(s, u) !in s.holders
  }

  function FirstStage(o: Op): Stage {
    if o.Delete? then ReadRecord else ChangeUnit
  }

  /** From the existence check to the lock. */
  lemma Enters(cfg: Config, s: State, c: CallId, o: Op, u: Id)
    requires WellFormed(cfg.alloc.cidr) && u in s.metas && LockFile(s, u) !in s.holders
    ensures var n := LockFile(s, u);
      Run(cfg, Doing(s, c, o, u, CheckExists), Steps(3, c)) == Doing(Locked(s, c, u), c, o, u, Critical(n, FirstStage(o)))
  {
    var go := Advance(c, Go(""));
    RunThree(cfg, Doing(s, c, o, u, CheckExists), Steps(3, c));
    assert Apply(cfg, Doing(s, c, o, u, CheckExists), go) == Doing(s, c, o, u, OpenLock);
    Opens(cfg, s, c, o, u);
    Takes(cfg, s, c, o, u);
  }

  lemma Takes(cfg: Config, s: State, c: CallId, o: Op, u: Id)
    requires WellFormed(cfg.alloc.cidr) && LockFile(s, u) !in s.holders
    ensures var n := LockFile(s, u);
      Apply(cfg, Doing(WithLockFile(s, u), c, o, u, TryLock(n)), Advance(c, Go(""))) ==
      Doing(Locked(s, c, u), c, o, u, Critical(n, FirstStage(o)))
  {
  }

  lemma Opens(cfg: Config, s: State, c: CallId, o: Op, u: Id)
    requires WellFormed(cfg.alloc.cidr)
    ensures Apply(cfg, Doing(s, c, o, u, OpenLock), Advance(c, Go(""))) == Doing(WithLockFile(s, u), c, o, u, TryLock(LockFile(s, u)))
  {
    if u in s.lockFiles { assert s.lockFiles[u := s.lockFiles[u]] == s.lockFiles; }
  }

  /** From the request to the lock. */
  function ToLock(c: CallId, o: Op, u: Id): seq<Action> {
    [BeginLifecycle(c, o, u)] + Steps(3, c)
  }

  lemma Locks(cfg: Config, s: State, c: CallId, o: Op, u: Id)
    requires WellFormed(cfg.alloc.cidr) && Free(s, c, u)
    ensures Run(cfg, s, ToLock(c, o, u)) == Doing(Locked(s, c, u), c, o, u, Critical(LockFile(s, u), FirstStage(o)))
  {
    RunConcat(cfg, s, [BeginLifecycle(c, o, u)], Steps(3, c));
    RunOne(cfg, s, [BeginLifecycle(c, o, u)]);
    Enters(cfg, s, c, o, u);
  }

  // ----- start and stop

  function UnitsAfter(o: Op, units: set<Id>, u: Id): set<Id> {
    if o.Start? then units + {u} else units - {u}
  }

  lemma Changes(cfg: Config, s: State, c: CallId, n: Inode, o: Op, u: Id)
    requires WellFormed(cfg.alloc.cidr) && !o.Delete? && c !in s.calls && n in s.holders && s.holders[n] == c
    ensures Run(cfg, Doing(s, c, o, u, Critical(n, ChangeUnit)), Steps(2, c)) ==
      s.(units := UnitsAfter(o, s.units, u), holders := s.holders - {n})
  {
    var go, t := Advance(c, Go("")), s.(units := UnitsAfter(o, s.units, u));
    RunTwo(cfg, Doing(s, c, o, u, Critical(n, ChangeUnit)), Steps(2, c));
    assert Apply(cfg, Doing(s, c, o, u, Critical(n, ChangeUnit)), go) == Doing(t, c, o, u, Critical(n, Release));
    Releases(cfg, t, c, n, o, u);
  }

  lemma Releases(cfg: Config, s: State, c: CallId, n: Inode, o: Op, u: Id)
    requires WellFormed(cfg.alloc.cidr) && c !in s.calls && n in s.holders && s.holders[n] == c
    ensures Apply(cfg, Doing(s, c, o, u, Critical(n, Release)), Advance(c, Go(""))) == s.(holders := s.holders - {n})
  {
    assert s.calls[c := Lifecycle(o, u, Critical(n, Release))] - {c} == s.calls;
  }

  // ----- delete

  ghost function Stopped(s: State, u: Id): State {
    s.(units := s.units - {u})
  }

  ghost function WithoutConfig(cfg: Config, s: State, u: Id): State {
    RemoveTree(cfg, s, PathsFor(cfg.roots, u).configDir)
  }

  ghost function WithoutRun(cfg: Config, s: State, u: Id): State {
    RemoveTree(cfg, WithoutConfig(cfg, s, u), PathsFor(cfg.roots, u).runDir)
  }

  ghost function WithoutData(cfg: Config, s: State, u: Id): State {
    RemoveTree(cfg, WithoutRun(cfg, s, u), PathsFor(cfg.roots, u).dataDir)
  }

  /** Reading the record, stopping the unit, looking again. */
  lemma Checks(cfg: Config, s: State, c: CallId, n: Inode, o: Op, u: Id)
    requires WellFormed(cfg.alloc.cidr) && u in s.metas
    ensures Run(cfg, Doing(s, c, o, u, Critical(n, ReadRecord)), Steps(3, c)) == Doing(Stopped(s, u), c, o, u, Critical(n, RemoveConfig))
  {
    var go := Advance(c, Go(""));
    RunThree(cfg, Doing(s, c, o, u, Critical(n, ReadRecord)), Steps(3, c));
    assert Apply(cfg, Doing(s, c, o, u, Critical(n, ReadRecord)), go) == Doing(s, c, o, u, Critical(n, StopUnit));
    assert Apply(cfg, Doing(s, c, o, u, Critical(n, StopUnit)), go) == Doing(Stopped(s, u), c, o, u, Critical(n, CheckStored));
    assert Apply(cfg, Doing(Stopped(s, u), c, o, u, Critical(n, CheckStored)), go) == Doing(Stopped(s, u), c, o, u, Critical(n, RemoveConfig));
  }

  lemma RemovesConfig(cfg: Config, s: State, c: CallId, n: Inode, o: Op, u: Id)
    requires WellFormed(cfg.alloc.cidr)
    ensures Apply(cfg, Doing(s, c, o, u, Critical(n, RemoveConfig)), Advance(c, Go(""))) ==
      Doing(WithoutConfig(cfg, s, u), c, o, u, Critical(n, RemoveRun))
  {
  }

  /** With the data retained, the last directory stays. */
  lemma RemovesRun(cfg: Config, s: State, c: CallId, n: Inode, o: Op, u: Id)
    requires WellFormed(cfg.alloc.cidr)
    ensures Apply(cfg, Doing(WithoutConfig(cfg, s, u), c, o, u, Critical(n, RemoveRun)), Advance(c, Go(""))) ==
      Doing(WithoutRun(cfg, s, u), c, o, u, Critical(n, if o.Delete? && o.retainData then FireDelete else RemoveData))
  {
  }

  lemma RemovesData(cfg: Config, s: State, c: CallId, n: Inode, o: Op, u: Id)
    requires WellFormed(cfg.alloc.cidr)
    ensures Apply(cfg, Doing(WithoutRun(cfg, s, u), c, o, u, Critical(n, RemoveData)), Advance(c, Go(""))) ==
      Doing(WithoutData(cfg, s, u), c, o, u, Critical(n, FireDelete))
  {
    RemovesLast(cfg, WithoutRun(cfg, s, u), c, n, o, u);
  }

  lemma RemovesLast(cfg: Config, s: State, c: CallId, n: Inode, o: Op, u: Id)
    requires WellFormed(cfg.alloc.cidr)
    ensures Apply(cfg, Doing(s, c, o, u, Critical(n, RemoveData)), Advance(c, Go(""))) ==
      Doing(RemoveTree(cfg, s, PathsFor(cfg.roots, u).dataDir), c, o, u, Critical(n, FireDelete))
  {
  }

  /** The event, and the release. */
  lemma Finishes(cfg: Config, s: State, c: CallId, n: Inode, o: Op, u: Id)
    requires WellFormed(cfg.alloc.cidr) && c !in s.calls && n in s.holders && s.holders[n] == c
    ensures Run(cfg, Doing(s, c, o, u, Critical(n, FireDelete)), Steps(2, c)) ==
      s.(deletes := s.deletes + [u], holders := s.holders - {n})
  {
    var t := s.(deletes := s.deletes + [u]);
    RunTwo(cfg, Doing(s, c, o, u, Critical(n, FireDelete)), Steps(2, c));
    assert Apply(cfg, Doing(s, c, o, u, Critical(n, FireDelete)), Advance(c, Go(""))) == Doing(t, c, o, u, Critical(n, Release));
    Releases(cfg, t, c, n, o, u);
  }
}
