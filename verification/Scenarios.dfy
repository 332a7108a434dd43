/**
 Runs that show what can go wrong, piece by piece and for every layout of the roots: a create, a start
 that has looked its VM up, and a delete from beginning to end while that start waits.
 */
module Scenarios {
  import opened Text
  import opened Ipv4
  import opened Model
  import opened Store
  import opened ControlPlane
  import opened Lifecycles

  // ----- a create and a start

  ghost function Record(cfg: Config, u: Id): VmMeta
    requires WellFormed(cfg.alloc.cidr) && Allocator.GuestAddress(cfg.alloc.cidr, []).Ok?
  {
    VmMeta(u, 0, Allocator.GuestAddress(cfg.alloc.cidr, []).value, [], map[], map[])
  }

  /** Only `u` is stored, and nothing is in flight. */
  ghost function Created(u: Id, meta: VmMeta): State {
    Init().(dirs := {u}, metas := map[u := meta], issued := {u}, saved := {u})
  }

  /** With nothing stored there is an address for the first VM. */
  lemma FirstAllocates(cfg: Config)
    requires Allocator.Usable(cfg.alloc.cidr)
    ensures Allocator.GuestAddress(cfg.alloc.cidr, []).Ok?
  {
    Allocator.UsableSize(cfg.alloc.cidr);
    Allocator.GuestAddressIsLowestFree(cfg.alloc.cidr, []);
  }

  function CreateRun(u: Id): seq<Action> {
    [BeginCreate(0, PLAIN), Advance(0, Go("")), Advance(0, Go(u)), Advance(0, Go(""))] + Steps(2, 0)
  }

  lemma Creates(cfg: Config, u: Id)
    requires WellFormed(cfg.alloc.cidr) && Allocator.GuestAddress(cfg.alloc.cidr, []).Ok? && IsUuid(u)
    ensures Run(cfg, Init(), CreateRun(u)) == Created(u, Record(cfg, u))
  {
    var a, meta := CreateRun(u), Record(cfg, u);
    assert Allocator.Ports(cfg.alloc, [], []) == Ok([]);
    RunConcat(cfg, Init(), a[..4], Steps(2, 0));
    assert a == a[..4] + Steps(2, 0);
    RunFour(cfg, Init(), a[..4]);
    var s2 := Init().(calls := map[0 := Reading(PLAIN, {}, [])]);
    assert Apply(cfg, Apply(cfg, Init(), a[0]), a[1]) == s2;
    var s3 := Init().(calls := map[0 := Saving(PLAIN, meta, [], false)], issued := {u});
    assert Apply(cfg, s2, a[2]) == s3;
    var s4 := s3.(calls := map[0 := Saving(PLAIN, meta, [], true)], dirs := {u});
    assert Apply(cfg, s3, a[3]) == s4;
    CreateWrites(cfg, s4, u, meta);
  }

  lemma CreateWrites(cfg: Config, s: State, u: Id, meta: VmMeta)
    requires WellFormed(cfg.alloc.cidr)
    requires meta.id == u && s == Created(u, meta).(calls := map[0 := Saving(PLAIN, meta, [], true)], metas := map[], saved := {})
    ensures Run(cfg, s, Steps(2, 0)) == Created(u, meta)
  {
    RunTwo(cfg, s, Steps(2, 0));
    var t := s.(calls := map[0 := Finishing(PLAIN, u)], metas := map[u := meta], saved := {u});
    assert Apply(cfg, s, Advance(0, Go(""))) == t;
    assert Apply(cfg, t, Advance(0, Go(""))) == Created(u, meta);
  }

  /** A start of `u` has found it stored. */
  ghost function Waiting(u: Id): Call {
    Lifecycle(Start, u, OpenLock)
  }

  ghost function Found(u: Id, meta: VmMeta): State {
    Created(u, meta).(calls := map[1 := Waiting(u)])
  }

  function LookRun(u: Id): seq<Action> {
    [BeginLifecycle(1, Start, u), Advance(1, Go(""))]
  }

  lemma Looks(cfg: Config, u: Id, meta: VmMeta)
    requires WellFormed(cfg.alloc.cidr) && IsUuid(u)
    ensures Run(cfg, Created(u, meta), LookRun(u)) == Found(u, meta)
  {
    UuidIsTrimmed(u);
    RunTwo(cfg, Created(u, meta), LookRun(u));
    var t := Created(u, meta).(calls := map[1 := Lifecycle(Start, u, CheckExists)]);
    assert Apply(cfg, Created(u, meta), BeginLifecycle(1, Start, u)) == t;
    assert Apply(cfg, t, Advance(1, Go(""))) == Found(u, meta);
  }

  lemma UuidIsTrimmed(u: Id)
    requires IsUuid(u)
    ensures Trim(u) == u && Trim(u) != ""
  {
    TrimTrims(u);
  }

  // ----- a delete

  /** `u` is stored and stopped, call `c` is not in flight, and `u` has no lock file yet. */
  ghost predicate Idle(s: State, c: CallId, u: Id) {
    Free(s, c, u) && u !in s.units && u !in s.lockFiles
  }

  /** Call `c`, a delete of `u`, is at the stage, with lock file `n`. */
  ghost function At(s: State, c: CallId, n: Inode, u: Id, stage: Stage): State {
    Doing(s, c, Delete(false), u, Critical(n, stage))
  }

  /** From the first removal to the end of the last. */
  lemma Removes(cfg: Config, s: State, c: CallId, n: Inode, u: Id)
    requires WellFormed(cfg.alloc.cidr)
    ensures Run(cfg, At(s, c, n, u, RemoveConfig), Steps(1, c)) == At(WithoutConfig(cfg, s, u), c, n, u, RemoveRun)
    ensures Run(cfg, At(s, c, n, u, RemoveConfig), Steps(2, c)) == At(WithoutRun(cfg, s, u), c, n, u, RemoveData)
    ensures Run(cfg, At(s, c, n, u, RemoveConfig), Steps(3, c)) == At(WithoutData(cfg, s, u), c, n, u, FireDelete)
  {
    RunOne(cfg, At(s, c, n, u, RemoveConfig), Steps(1, c));
    RunTwo(cfg, At(s, c, n, u, RemoveConfig), Steps(2, c));
    RunThree(cfg, At(s, c, n, u, RemoveConfig), Steps(3, c));
    RemovesConfig(cfg, s, c, n, Delete(false), u);
    RemovesRun(cfg, s, c, n, Delete(false), u);
    RemovesData(cfg, s, c, n, Delete(false), u);
  }

  /** Up to the first removal. */
  function ToConfig(c: CallId, u: Id): seq<Action> {
    ToLock(c, Delete(false), u) + Steps(3, c)
  }

  lemma ReachesConfig(cfg: Config, s: State, c: CallId, u: Id)
    requires WellFormed(cfg.alloc.cidr) && Idle(s, c, u)
    ensures Run(cfg, s, ToConfig(c, u)) == At(Locked(s, c, u), c, s.nextInode, u, RemoveConfig)
  {
    RunConcat(cfg, s, ToLock(c, Delete(false), u), Steps(3, c));
    Locks(cfg, s, c, Delete(false), u);
    Checks(cfg, Locked(s, c, u), c, s.nextInode, Delete(false), u);
    assert Stopped(Locked(s, c, u), u) == Locked(s, c, u) by { assert s.units - {u} == s.units; }
  }

  /** And through one, two or all of them. */
  lemma Reaches(cfg: Config, s: State, c: CallId, u: Id)
    requires WellFormed(cfg.alloc.cidr) && Idle(s, c, u)
    ensures var t, n := Locked(s, c, u), s.nextInode;
      && Run(cfg, s, ToConfig(c, u) + Steps(1, c)) == At(WithoutConfig(cfg, t, u), c, n, u, RemoveRun)
      && Run(cfg, s, ToConfig(c, u) + Steps(2, c)) == At(WithoutRun(cfg, t, u), c, n, u, RemoveData)
      && Run(cfg, s, ToConfig(c, u) + Steps(3, c)) == At(WithoutData(cfg, t, u), c, n, u, FireDelete)
  {
    RunConcat(cfg, s, ToConfig(c, u), Steps(1, c));
    RunConcat(cfg, s, ToConfig(c, u), Steps(2, c));
    RunConcat(cfg, s, ToConfig(c, u), Steps(3, c));
    ReachesConfig(cfg, s, c, u);
    Removes(cfg, Locked(s, c, u), c, s.nextInode, u);
  }

  /** The record of `u` is gone after its config directory, and does not come back. */
  lemma OwnRecordGone(cfg: Config, s: State, u: Id)
    ensures u !in WithoutConfig(cfg, s, u).metas && u !in WithoutRun(cfg, s, u).metas && u !in WithoutData(cfg, s, u).metas
  {
    assert Within(PathsFor(cfg.roots, u).meta, PathsFor(cfg.roots, u).configDir);
  }
}
