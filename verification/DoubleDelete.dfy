/**
 A VM's delete succeeds at most once, and its event fires at most once, exactly when no VM directory
 contains the run root.  When one does, deleting that VM takes the lock file of another VM away under
 a delete that holds it; a second delete of the other VM gets a new lock file, and both succeed.
 */
module DoubleDelete {
  import opened Ipv4
  import opened Store
  import opened ControlPlane
  import opened LockSafety
  import opened Lifecycles
  import opened Scenarios
  import opened ResourceSafety
  import opened Layouts

  // ----- two deletes of one VM

  /** The next two steps of call 1 write the record of `v`. */
  ghost function Written(cfg: Config, s: State, v: Id): State
    requires WellFormed(cfg.alloc.cidr) && Allocator.GuestAddress(cfg.alloc.cidr, []).Ok?
  {
    s.(calls := s.calls[1 := Finishing(PLAIN, v)], dirs := s.dirs + {v}, metas := s.metas[v := Record(cfg, v)], saved := s.saved + {v})
  }

  lemma Writing(cfg: Config, s: State, v: Id)
    requires WellFormed(cfg.alloc.cidr) && Allocator.GuestAddress(cfg.alloc.cidr, []).Ok?
    requires 1 in s.calls && s.calls[1] == FirstSaving(cfg, v)
    ensures Run(cfg, s, Steps(2, 1)) == Written(cfg, s, v)
  {
    var go := Advance(1, Go(""));
    RunTwo(cfg, s, Steps(2, 1));
    var t := s.(calls := s.calls[1 := FirstSaving(cfg, v).(dirMade := true)], dirs := s.dirs + {v});
    assert Apply(cfg, s, go) == t;
    assert Apply(cfg, t, go) == Written(cfg, s, v);
  }

  /** Call `c` is a delete of `u`, inside, at the stage. */
  ghost predicate Stands(s: State, c: CallId, n: Inode, u: Id, stage: Stage) {
    c in s.calls && s.calls[c] == Lifecycle(Delete(false), u, Critical(n, stage))
  }

  lemma Fires(cfg: Config, s: State, c: CallId, n: Inode, v: Id)
    requires WellFormed(cfg.alloc.cidr) && Stands(s, c, n, v, RemoveConfig)
    ensures var t := Run(cfg, s, Steps(3, c) + Steps(1, c));
      t.deletes == s.deletes + [v] && c in t.calls && t.calls == s.calls[c := t.calls[c]]
  {
    assert s == At(s, c, n, v, RemoveConfig);
    RunConcat(cfg, s, Steps(3, c), Steps(1, c));
    Removes(cfg, s, c, n, v);
    RunOne(cfg, At(WithoutData(cfg, s, v), c, n, v, FireDelete), Steps(1, c));
  }

  /** A partial removal that has got to the lock file of `v`. */
  function TakeLock(v: Id): Action {
    Advance(2, Choice(false, true, v, 0, true))
  }

  /** The directory of `u` removed at that stage contains the run root. */
  ghost predicate HoldsLocks(cfg: Config, u: Id, stage: Stage) {
    var p := PathsFor(cfg.roots, u);
    (stage == RemoveConfig && Within(cfg.roots.run, p.configDir)) || (stage == RemoveData && Within(cfg.roots.run, p.dataDir))
  }

  lemma LockTaken(cfg: Config, s: State, u: Id, v: Id, stage: Stage)
    requires WellFormed(cfg.alloc.cidr) && Stands(s, 2, 0, u, stage) && HoldsLocks(cfg, u, stage)
    ensures Apply(cfg, s, TakeLock(v)) == s.(lockFiles := s.lockFiles - {v})
  {
    assert cfg.roots.run <= PathsFor(cfg.roots, v).lockFile;
  }

  /** The delete of `u` stands at the directory that holds the run root, and `v` is about to be written. */
  ghost predicate Set(cfg: Config, s: State, u: Id, v: Id, stage: Stage)
    requires WellFormed(cfg.alloc.cidr) && Allocator.GuestAddress(cfg.alloc.cidr, []).Ok?
  {
    && Stands(s, 2, 0, u, stage) && 1 in s.calls && s.calls[1] == FirstSaving(cfg, v)
    && 3 !in s.calls && 4 !in s.calls && v !in s.lockFiles && s.nextInode == 1 && s.holders == map[0 := 2]
    && s.units == {} && s.deletes == []
  }

  function FireBoth(): seq<Action> {
    (Steps(3, 3) + Steps(1, 3)) + (Steps(3, 4) + Steps(1, 4))
  }

  function TwiceRun(v: Id): seq<Action> {
    Steps(2, 1) + (ToConfig(3, v) + ([TakeLock(v)] + (ToConfig(4, v) + FireBoth())))
  }

  lemma BothFire(cfg: Config, s: State, v: Id)
    requires WellFormed(cfg.alloc.cidr) && Stands(s, 3, 1, v, RemoveConfig) && Stands(s, 4, 2, v, RemoveConfig)
    ensures Run(cfg, s, FireBoth()).deletes == s.deletes + [v] + [v]
  {
    RunConcat(cfg, s, Steps(3, 3) + Steps(1, 3), Steps(3, 4) + Steps(1, 4));
    Fires(cfg, s, 3, 1, v);
    Fires(cfg, Run(cfg, s, Steps(3, 3) + Steps(1, 3)), 4, 2, v);
  }

  lemma Twice(cfg: Config, s: State, u: Id, v: Id, stage: Stage)
    requires WellFormed(cfg.alloc.cidr) && Allocator.GuestAddress(cfg.alloc.cidr, []).Ok? && IsUuid(v)
    requires Set(cfg, s, u, v, stage) && HoldsLocks(cfg, u, stage)
    ensures Run(cfg, s, TwiceRun(v)).deletes == [v, v]
  {
    RunConcat(cfg, s, Steps(2, 1), ToConfig(3, v) + ([TakeLock(v)] + (ToConfig(4, v) + FireBoth())));
    Writing(cfg, s, v);
    UuidIsTrimmed(v);
    FirstEnters(cfg, s, u, v, stage);
    OnceWritten(cfg, Written(cfg, s, v), u, v, stage);
  }

  lemma OnceWritten(cfg: Config, s: State, u: Id, v: Id, stage: Stage)
    requires WellFormed(cfg.alloc.cidr) && IsUuid(v) && HoldsLocks(cfg, u, stage)
    requires Idle(s, 3, v) && s.nextInode == 1 && FirstInside(At(Locked(s, 3, v), 3, 1, v, RemoveConfig), u, v, stage)
    ensures Run(cfg, s, ToConfig(3, v) + ([TakeLock(v)] + (ToConfig(4, v) + FireBoth()))).deletes == [v, v]
  {
    RunConcat(cfg, s, ToConfig(3, v), [TakeLock(v)] + (ToConfig(4, v) + FireBoth()));
    ReachesConfig(cfg, s, 3, v);
    SecondTime(cfg, At(Locked(s, 3, v), 3, 1, v, RemoveConfig), u, v, stage);
  }

  /** The first delete of `v` is before its removals. */
  ghost predicate FirstInside(s: State, u: Id, v: Id, stage: Stage) {
    && Stands(s, 2, 0, u, stage) && Stands(s, 3, 1, v, RemoveConfig) && 4 !in s.calls
    && v in s.metas && v !in s.units && s.nextInode == 2 && 2 !in s.holders && s.deletes == []
  }

  lemma FirstEnters(cfg: Config, s: State, u: Id, v: Id, stage: Stage)
    requires WellFormed(cfg.alloc.cidr) && Allocator.GuestAddress(cfg.alloc.cidr, []).Ok?
    requires Set(cfg, s, u, v, stage)
    ensures var w := Written(cfg, s, v);
      && v in w.metas && v !in w.units && 3 !in w.calls && v !in w.lockFiles && w.nextInode == 1 && 1 !in w.holders
      && FirstInside(At(Locked(w, 3, v), 3, 1, v, RemoveConfig), u, v, stage)
  {
  }

  /** From the first delete's removals on. */
  lemma SecondTime(cfg: Config, s: State, u: Id, v: Id, stage: Stage)
    requires WellFormed(cfg.alloc.cidr) && IsUuid(v) && HoldsLocks(cfg, u, stage) && FirstInside(s, u, v, stage)
    ensures Run(cfg, s, [TakeLock(v)] + (ToConfig(4, v) + FireBoth())).deletes == s.deletes + [v] + [v]
  {
    RunConcat(cfg, s, [TakeLock(v)], ToConfig(4, v) + FireBoth());
    RunOne(cfg, s, [TakeLock(v)]);
    LockTaken(cfg, s, u, v, stage);
    UuidIsTrimmed(v);
    var lost := s.(lockFiles := s.lockFiles - {v});
    RunConcat(cfg, lost, ToConfig(4, v), FireBoth());
    ReachesConfig(cfg, lost, 4, v);
    BothFire(cfg, At(Locked(lost, 4, v), 4, 2, v, RemoveConfig), v);
  }

  // ----- from the start

  /** Both creates have allocated; the first has written its record. */
  ghost function Half(cfg: Config, u: Id, v: Id): State
    requires WellFormed(cfg.alloc.cidr) && Allocator.GuestAddress(cfg.alloc.cidr, []).Ok?
  {
    Init().(calls := map[0 := Finishing(PLAIN, u), 1 := FirstSaving(cfg, v)],
            dirs := {u}, metas := map[u := Record(cfg, u)], issued := {u, v}, saved := {u})
  }

  function HalfRun(u: Id, v: Id): seq<Action> {
    [BeginCreate(0, PLAIN), BeginCreate(1, PLAIN), Advance(0, Go("")), Advance(1, Go(""))]
    + ([Advance(0, Go(u)), Advance(1, Go(v))] + Steps(2, 0))
  }

  lemma HalfWay(cfg: Config, u: Id, v: Id)
    requires WellFormed(cfg.alloc.cidr) && Allocator.GuestAddress(cfg.alloc.cidr, []).Ok?
    requires IsUuid(u) && IsUuid(v) && u != v
    ensures Run(cfg, Init(), HalfRun(u, v)) == Half(cfg, u, v)
  {
    var lists := [BeginCreate(0, PLAIN), BeginCreate(1, PLAIN), Advance(0, Go("")), Advance(1, Go(""))];
    var draws := [Advance(0, Go(u)), Advance(1, Go(v))];
    RunConcat(cfg, Init(), lists, draws + Steps(2, 0));
    OverlapLists(cfg);
    RunConcat(cfg, BothListed(), draws, Steps(2, 0));
    OverlapAllocates(cfg, u, v);
    FirstWrites(cfg, u, v);
  }

  lemma FirstWrites(cfg: Config, u: Id, v: Id)
    requires WellFormed(cfg.alloc.cidr) && Allocator.GuestAddress(cfg.alloc.cidr, []).Ok?
    ensures Run(cfg, BothAllocated(cfg, u, v), Steps(2, 0)) == Half(cfg, u, v)
  {
    var s, go := BothAllocated(cfg, u, v), Advance(0, Go(""));
    RunTwo(cfg, s, Steps(2, 0));
    var t := s.(calls := s.calls[0 := FirstSaving(cfg, u).(dirMade := true)], dirs := {u});
    assert Apply(cfg, s, go) == t;
    SecondWrite(cfg, u, v, t);
  }

  lemma SecondWrite(cfg: Config, u: Id, v: Id, t: State)
    requires WellFormed(cfg.alloc.cidr) && Allocator.GuestAddress(cfg.alloc.cidr, []).Ok?
    requires t == Half(cfg, u, v).(calls := map[0 := FirstSaving(cfg, u).(dirMade := true), 1 := FirstSaving(cfg, v)], metas := map[], saved := {})
    ensures Apply(cfg, t, Advance(0, Go(""))) == Half(cfg, u, v)
  {
  }

  /** With the run root below `u`, the run in which the other VM is deleted twice. */
  function DoubleRun(roots: Roots, u: Id): seq<Action>
    requires IsUuid(u)
  {
    var n := if Within(roots.run, PathsFor(roots, u).configDir) then 0 else 2;
    HalfRun(u, Another(u)) + ((ToConfig(2, u) + Steps(n, 2)) + TwiceRun(Another(u)))
  }

  lemma DeletedTwice(cfg: Config, u: Id)
    requires Allocator.Usable(cfg.alloc.cidr) && IsUuid(u) && !RunRootSurvives(cfg.roots, u, false)
    ensures Run(cfg, Init(), DoubleRun(cfg.roots, u)).deletes == [Another(u), Another(u)]
  {
    FirstAllocates(cfg);
    UuidIsTrimmed(u);
    var v, p := Another(u), PathsFor(cfg.roots, u);
    var s, n := Half(cfg, u, v), if Within(cfg.roots.run, p.configDir) then 0 else 2;
    RunConcat(cfg, Init(), HalfRun(u, v), (ToConfig(2, u) + Steps(n, 2)) + TwiceRun(v));
    HalfWay(cfg, u, v);
    RunConcat(cfg, s, ToConfig(2, u) + Steps(n, 2), TwiceRun(v));
    var stage := if n == 0 then RemoveConfig else RemoveData;
    Sets(cfg, u, v, n, stage);
    Twice(cfg, Run(cfg, s, ToConfig(2, u) + Steps(n, 2)), u, v, stage);
  }

  lemma Sets(cfg: Config, u: Id, v: Id, n: nat, stage: Stage)
    requires WellFormed(cfg.alloc.cidr) && Allocator.GuestAddress(cfg.alloc.cidr, []).Ok? && IsUuid(u) && u != v
    requires (n == 0 && stage == RemoveConfig) || (n == 2 && stage == RemoveData)
    ensures Set(cfg, Run(cfg, Half(cfg, u, v), ToConfig(2, u) + Steps(n, 2)), u, v, stage)
  {
    UuidIsTrimmed(u);
    var s := Half(cfg, u, v);
    if n == 0 {
      assert ToConfig(2, u) + Steps(0, 2) == ToConfig(2, u);
      ReachesConfig(cfg, s, 2, u);
      SetAtConfig(cfg, u, v);
    } else {
      Reaches(cfg, s, 2, u);
      SetAtData(cfg, u, v);
    }
  }

  lemma SetAtConfig(cfg: Config, u: Id, v: Id)
    requires WellFormed(cfg.alloc.cidr) && Allocator.GuestAddress(cfg.alloc.cidr, []).Ok? && u != v
    ensures Set(cfg, At(Locked(Half(cfg, u, v), 2, u), 2, 0, u, RemoveConfig), u, v, RemoveConfig)
  {
  }

  lemma SetAtData(cfg: Config, u: Id, v: Id)
    requires WellFormed(cfg.alloc.cidr) && Allocator.GuestAddress(cfg.alloc.cidr, []).Ok? && u != v
    ensures Set(cfg, At(WithoutRun(cfg, Locked(Half(cfg, u, v), 2, u), u), 2, 0, u, RemoveData), u, v, RemoveData)
  {
  }

  /** In every run no VM's delete succeeds twice, exactly when no VM directory contains the run root. */
  lemma DeletesExact(cfg: Config)
    requires Allocator.Usable(cfg.alloc.cidr)
    ensures (forall actions :: NoDuplicates(Run(cfg, Init(), actions).deletes)) <==> RunRootApart(cfg.roots)
  {
    if RunRootApart(cfg.roots) {
      forall actions ensures NoDuplicates(Run(cfg, Init(), actions).deletes) {
        AtMostOneDelete(cfg, actions);
      }
    } else {
      var u :| IsUuid(u) && !RunRootSurvives(cfg.roots, u, false);
      DeletedTwice(cfg, u);
      var d := Run(cfg, Init(), DoubleRun(cfg.roots, u)).deletes;
      assert d[0] == d[1];
    }
  }
}
