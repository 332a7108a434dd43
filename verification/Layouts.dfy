/**
 Where the roots have to lie.  The lock files are below the run root and the records below the config
 root, and a delete removes whole directories, so both guarantees of the control plane rest on no VM
 directory containing those roots: each fails for some run as soon as one does.
 */
module Layouts {
  import opened Ipv4
  import opened Store
  import opened ControlPlane
  import opened LockSafety
  import opened Effects
  import opened Lifecycles
  import opened Scenarios
  import opened ResourceSafety

  // ----- lock files

  ghost predicate OneInSection(cfg: Config, actions: seq<Action>, c: CallId, d: CallId, id: Id)
    requires WellFormed(cfg.alloc.cidr)
  {
    var s := Run(cfg, Init(), actions);
    InCritical(s, c, id) && InCritical(s, d, id) ==> c == d
  }

  /** A delete removes the lock file it holds; a start that waits makes a new one. */
  function TwoRun(u: Id): seq<Action> {
    CreateRun(u) + (LookRun(u) + ((ToConfig(2, u) + Steps(3, 2)) + Steps(2, 1)))
  }

  lemma LockFileLost(cfg: Config, s: State, u: Id)
    requires !RunRootSurvives(cfg.roots, u, false) && s.lockFiles == map[]
    ensures WithoutData(cfg, Locked(s, 2, u), u).lockFiles == map[]
  {
    var p := PathsFor(cfg.roots, u);
    assert cfg.roots.run <= p.lockFile;
    assert Within(p.lockFile, p.configDir) || Within(p.lockFile, p.dataDir);
  }

  lemma SecondEnters(cfg: Config, s: State, u: Id)
    requires WellFormed(cfg.alloc.cidr) && s.calls == map[1 := Waiting(u)]
    requires s.lockFiles == map[] && s.nextInode == 1 && s.holders == map[0 := 2]
    ensures var t := Run(cfg, At(s, 2, 0, u, FireDelete), Steps(2, 1)); InCritical(t, 1, u) && InCritical(t, 2, u)
  {
    var go := Advance(1, Go(""));
    RunTwo(cfg, At(s, 2, 0, u, FireDelete), Steps(2, 1));
    var s1 := Apply(cfg, At(s, 2, 0, u, FireDelete), go);
    assert s1.calls[1].pc == TryLock(1) && s1.holders == map[0 := 2];
  }

  lemma TwoInSection(cfg: Config, u: Id)
    requires Allocator.Usable(cfg.alloc.cidr) && IsUuid(u) && !RunRootSurvives(cfg.roots, u, false)
    ensures !OneInSection(cfg, TwoRun(u), 1, 2, u)
  {
    FirstAllocates(cfg);
    var meta := Record(cfg, u);
    var found := Found(u, meta);
    var gone := WithoutData(cfg, Locked(found, 2, u), u);
    var deletes := ToConfig(2, u) + Steps(3, 2);
    RunConcat(cfg, Init(), CreateRun(u), LookRun(u) + (deletes + Steps(2, 1)));
    Creates(cfg, u);
    RunConcat(cfg, Created(u, meta), LookRun(u), deletes + Steps(2, 1));
    Looks(cfg, u, meta);
    RunConcat(cfg, found, deletes, Steps(2, 1));
    UuidIsTrimmed(u);
    Reaches(cfg, found, 2, u);
    LockFileLost(cfg, found, u);
    SecondEnters(cfg, gone, u);
  }

  /** At most one call is in a VM's critical section in every run exactly when no VM directory contains the run root. */
  lemma LockingExact(cfg: Config)
    requires Allocator.Usable(cfg.alloc.cidr)
    ensures (forall actions, c, d, id :: OneInSection(cfg, actions, c, d, id)) <==> RunRootApart(cfg.roots)
  {
    if RunRootApart(cfg.roots) {
      forall actions, c, d, id ensures OneInSection(cfg, actions, c, d, id) {
        OneCallPerVm(cfg, actions, c, d, id);
      }
    } else {
      var u :| IsUuid(u) && !RunRootSurvives(cfg.roots, u, false);
      TwoInSection(cfg, u);
    }
  }

  // ----- records

  /** If the step makes the record of `id` disappear, its call is a delete of `id`, inside the critical section. */
  ghost predicate OwnRecordOnly(cfg: Config, actions: seq<Action>, c: CallId, ch: Choice, id: Id)
    requires WellFormed(cfg.alloc.cidr)
  {
    var s := Run(cfg, Init(), actions);
    c in s.calls && id in s.metas && id !in Apply(cfg, s, Advance(c, ch)).metas ==>
      Inside(s.calls[c], id) && s.calls[c].op.Delete?
  }

  lemma RecordsKept(cfg: Config, s: State, c: CallId, ch: Choice, id: Id)
    requires WellFormed(cfg.alloc.cidr) && ConfigRootApart(cfg.roots) && Disciplined(s)
    requires c in s.calls && id in s.metas && id !in StepCall(cfg, s, c, ch).metas
    ensures Inside(s.calls[c], id) && s.calls[c].op.Delete?
  {
    var call := s.calls[c];
    if call.Reading? {
      ReadingFits(cfg, s, c, ch);
    } else if call.Lifecycle? && call.pc.Critical? {
      CriticalFits(cfg, s, c, ch, id);
    } else if !call.Saving? {
      OtherFits(cfg, s, c, ch);
    }
  }

  /** Some id other than `u`. */
  function Another(u: Id): (v: Id)
    requires IsUuid(u)
    ensures IsUuid(v) && v != u
  {
    [if u[0] == '0' then '1' else '0'] + u[1..]
  }

  /** Two VMs are stored, and one is deleted up to one of its directories. */
  function UpTo(u: Id, n: nat): seq<Action>
    requires IsUuid(u)
  {
    OverlappingCreates(u, Another(u)) + (ToConfig(2, u) + Steps(n, 2))
  }

  ghost function Both(cfg: Config, u: Id): State
    requires Allocator.Usable(cfg.alloc.cidr) && IsUuid(u)
  {
    Run(cfg, Init(), OverlappingCreates(u, Another(u)))
  }

  lemma BothStored(cfg: Config, u: Id)
    requires Allocator.Usable(cfg.alloc.cidr) && IsUuid(u)
    ensures Idle(Both(cfg, u), 2, u) && Another(u) in Both(cfg, u).metas
  {
    OverlapEnds(cfg, u, Another(u));
    UuidIsTrimmed(u);
  }

  /** The record of the other VM stands until a directory goes that contains the config root. */
  lemma OtherRecord(cfg: Config, s: State, u: Id, v: Id)
    requires IsUuid(u) && v != u && v in s.metas
    ensures v in WithoutConfig(cfg, s, u).metas
    ensures var p := PathsFor(cfg.roots, u);
      && (v in WithoutRun(cfg, s, u).metas <==> !Within(cfg.roots.config, p.runDir))
      && (v in WithoutData(cfg, s, u).metas <==> !Within(cfg.roots.config, p.runDir) && !Within(cfg.roots.config, p.dataDir))
  {
    assert |"meta.json"| == 9;
    GrandchildWithin(cfg.roots.config, cfg.roots.config, u, v, "meta.json");
    GrandchildWithin(cfg.roots.config, cfg.roots.run, u, v, "meta.json");
    GrandchildWithin(cfg.roots.config, cfg.roots.data, u, v, "meta.json");
  }

  lemma OtherRecordLost(cfg: Config, u: Id)
    requires Allocator.Usable(cfg.alloc.cidr) && IsUuid(u) && !ConfigRootSurvives(cfg.roots, u, false)
    ensures exists n :: !OwnRecordOnly(cfg, UpTo(u, n), 2, Go(""), Another(u))
  {
    var s, v := Both(cfg, u), Another(u);
    BothStored(cfg, u);
    var t := Locked(s, 2, u);
    RemovesRun(cfg, t, 2, s.nextInode, Delete(false), u);
    RemovesData(cfg, t, 2, s.nextInode, Delete(false), u);
    Reaches(cfg, s, 2, u);
    OtherRecord(cfg, t, u, v);
    if Within(cfg.roots.config, PathsFor(cfg.roots, u).runDir) {
      RunConcat(cfg, Init(), OverlappingCreates(u, v), ToConfig(2, u) + Steps(1, 2));
      assert !OwnRecordOnly(cfg, UpTo(u, 1), 2, Go(""), v);
    } else {
      RunConcat(cfg, Init(), OverlappingCreates(u, v), ToConfig(2, u) + Steps(2, 2));
      assert !OwnRecordOnly(cfg, UpTo(u, 2), 2, Go(""), v);
    }
  }

  /** In every run only a delete of a VM removes its record, exactly when no VM directory contains the config root. */
  lemma RecordsExact(cfg: Config)
    requires Allocator.Usable(cfg.alloc.cidr)
    ensures (forall actions, c, ch, id :: OwnRecordOnly(cfg, actions, c, ch, id)) <==> ConfigRootApart(cfg.roots)
  {
    if ConfigRootApart(cfg.roots) {
      forall actions, c, ch, id ensures OwnRecordOnly(cfg, actions, c, ch, id) {
        DisciplineRun(cfg, Init(), actions);
        var s := Run(cfg, Init(), actions);
        if c in s.calls && id in s.metas && id !in StepCall(cfg, s, c, ch).metas { RecordsKept(cfg, s, c, ch, id); }
      }
    } else {
      var u :| IsUuid(u) && !ConfigRootSurvives(cfg.roots, u, false);
      OtherRecordLost(cfg, u);
    }
  }
}
