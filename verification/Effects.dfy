/**
 What each operation may do, and when it is refused: a step changes a VM only in the way its
 operation is for, the lock table holds exactly the calls inside critical sections, and a call meets a
 conflict exactly when another one is inside the critical section of the same VM.
 */
module Effects {
  import opened Ipv4
  import opened Store
  import opened ControlPlane
  import opened LockSafety

  /** The stages an operation goes through. */
  ghost predicate StageFits(op: Op, stage: Stage) {
    stage == Release || (op.Delete? <==> stage != ChangeUnit)
  }

  ghost predicate Holding(s: State, c: CallId, n: Inode) {
    c in s.calls && s.calls[c].Lifecycle? && s.calls[c].pc.Critical? && s.calls[c].pc.inode == n
  }

  ghost predicate LocksApart(s: State) {
    && (forall id :: id in s.lockFiles ==> s.lockFiles[id] < s.nextInode)
    && (forall i, j :: i in s.lockFiles && j in s.lockFiles && s.lockFiles[i] == s.lockFiles[j] ==> i == j)
  }

  ghost predicate ShapedCall(call: Call) {
    && (call.Saving? ==> IsUuid(call.meta.id))
    && (call.Lifecycle? && !call.pc.CheckExists? ==> IsUuid(call.id))
  }

  /** Ids that got past the existence check are the ids creates drew. */
  ghost predicate Shaped(s: State) {
    && (forall id :: id in s.metas ==> IsUuid(id))
    && (forall c :: c in s.calls ==> ShapedCall(s.calls[c]))
  }

  ghost predicate Disciplined(s: State) {
    && LocksApart(s) && Shaped(s)
    && (forall n :: n in s.holders ==> Holding(s, s.holders[n], n))
    && (forall c :: c in s.calls && s.calls[c].Lifecycle? && s.calls[c].pc.Critical? ==>
          StageFits(s.calls[c].op, s.calls[c].pc.stage))
  }

  /** A step outside critical sections that leaves the locks alone. */
  lemma QuietKeeps(s: State, s': State, c: CallId)
    requires Disciplined(s) && (c in s.calls ==> !(s.calls[c].Lifecycle? && s.calls[c].pc.Critical?))
    requires s'.holders == s.holders && s'.lockFiles == s.lockFiles && s'.nextInode == s.nextInode
    requires forall d :: d != c ==> (d in s.calls <==> d in s'.calls) && (d in s.calls ==> s'.calls[d] == s.calls[d])
    requires c in s'.calls ==> !(s'.calls[c].Lifecycle? && s'.calls[c].pc.Critical?) && ShapedCall(s'.calls[c])
    requires forall id :: id in s'.metas ==> IsUuid(id)
    ensures Disciplined(s')
  {
    forall n | n in s'.holders ensures Holding(s', s'.holders[n], n) {
      assert Holding(s, s.holders[n], n);
    }
  }

  lemma TryDisciplined(s: State, c: CallId, ch: Choice)
    requires Disciplined(s) && c in s.calls && s.calls[c].Lifecycle? && s.calls[c].pc.TryLock?
    ensures Disciplined(StepTryLock(s, c, s.calls[c], ch))
  {
    var s' := StepTryLock(s, c, s.calls[c], ch);
    forall n | n in s'.holders ensures Holding(s', s'.holders[n], n) {
      assert n in s.holders ==> Holding(s, s.holders[n], n);
    }
  }

  /** Going on inside the section; lock files may disappear, none appears. */
  lemma StageKeeps(s: State, s': State, c: CallId)
    requires Disciplined(s) && c in s.calls && s.calls[c].Lifecycle? && s.calls[c].pc.Critical?
    requires s'.holders == s.holders && s'.nextInode == s.nextInode
    requires forall id :: id in s'.lockFiles ==> id in s.lockFiles && s'.lockFiles[id] == s.lockFiles[id]
    requires forall id :: id in s'.metas ==> id in s.metas
    requires exists stage :: StageFits(s.calls[c].op, stage) && s'.calls == s.calls[c := AtStage(s.calls[c], stage)]
    ensures Disciplined(s')
  {
    forall n | n in s'.holders ensures Holding(s', s'.holders[n], n) {
      assert Holding(s, s.holders[n], n);
    }
  }

  lemma ReleaseDisciplined(cfg: Config, s: State, c: CallId, ch: Choice)
    requires Disciplined(s) && c in s.calls && s.calls[c].Lifecycle? && s.calls[c].pc.Critical? && s.calls[c].pc.stage == Release
    ensures Disciplined(StepCritical(cfg, s, c, s.calls[c], ch))
  {
    var s' := StepCritical(cfg, s, c, s.calls[c], ch);
    forall n | n in s'.holders ensures Holding(s', s'.holders[n], n) {
      assert Holding(s, s.holders[n], n);
    }
  }

  /** Short of the release, a call stays inside, at a stage of its operation, and makes no lock file. */
  lemma StageGoesOn(cfg: Config, s: State, c: CallId, ch: Choice)
    requires Disciplined(s) && c in s.calls && s.calls[c].Lifecycle? && s.calls[c].pc.Critical? && s.calls[c].pc.stage != Release
    ensures var call, s' := s.calls[c], StepCritical(cfg, s, c, s.calls[c], ch);
      && c in s'.calls && s'.calls[c].Lifecycle? && s'.calls[c].pc.Critical?
      && s'.calls[c] == AtStage(call, s'.calls[c].pc.stage) && StageFits(call.op, s'.calls[c].pc.stage)
      && s'.holders == s.holders && s'.nextInode == s.nextInode
      && forall id :: id in s'.lockFiles ==> id in s.lockFiles && s'.lockFiles[id] == s.lockFiles[id]
  {
    assert StageFits(s.calls[c].op, s.calls[c].pc.stage);
  }

  lemma CriticalDisciplined(cfg: Config, s: State, c: CallId, ch: Choice)
    requires Disciplined(s) && c in s.calls && s.calls[c].Lifecycle? && s.calls[c].pc.Critical? && s.calls[c].pc.stage != Release
    ensures Disciplined(StepCritical(cfg, s, c, s.calls[c], ch))
  {
    var call, s' := s.calls[c], StepCritical(cfg, s, c, s.calls[c], ch);
    CriticalShape(cfg, s, c, call, ch);
    StageGoesOn(cfg, s, c, ch);
    assert s'.calls == s.calls[c := AtStage(call, s'.calls[c].pc.stage)];
    StageKeeps(s, s', c);
  }

  lemma ReadingDisciplined(cfg: Config, s: State, c: CallId, ch: Choice)
    requires WellFormed(cfg.alloc.cidr) && Disciplined(s) && c in s.calls && s.calls[c].Reading?
    ensures Disciplined(StepReading(cfg, s, c, s.calls[c], ch))
  {
    if s.calls[c].todo != {} {
      QuietKeeps(s, StepReadOne(s, c, s.calls[c], ch), c);
    } else {
      AllocateDisciplined(cfg, s, c, ch);
    }
  }

  lemma AllocateDisciplined(cfg: Config, s: State, c: CallId, ch: Choice)
    requires WellFormed(cfg.alloc.cidr) && Disciplined(s) && c in s.calls && s.calls[c].Reading?
    ensures Disciplined(StepAllocate(cfg, s, c, s.calls[c], ch))
  {
    QuietKeeps(s, StepAllocate(cfg, s, c, s.calls[c], ch), c);
  }

  lemma CreateKeeps(cfg: Config, s: State, c: CallId, ch: Choice)
    requires WellFormed(cfg.alloc.cidr) && Disciplined(s) && c in s.calls && !s.calls[c].Lifecycle?
    ensures Disciplined(StepCall(cfg, s, c, ch))
  {
    var call := s.calls[c];
    match call
    case Listing(req) => QuietKeeps(s, StepListing(s, c, req, ch), c);
    case Reading(_, _, _) => ReadingDisciplined(cfg, s, c, ch);
    case Saving(_, _, _, _) => QuietKeeps(s, StepSaving(s, c, call, ch), c);
    case Finishing(_, _) => QuietKeeps(s, StepFinishing(s, c, call, ch), c);
  }

  lemma LifecycleKeeps(cfg: Config, s: State, c: CallId, ch: Choice)
    requires WellFormed(cfg.alloc.cidr) && Disciplined(s) && c in s.calls && s.calls[c].Lifecycle?
    ensures Disciplined(StepCall(cfg, s, c, ch))
  {
    var call := s.calls[c];
    match call.pc
    case CheckExists => QuietKeeps(s, StepCheckExists(s, c, call, ch), c);
    case OpenLock => OpenDisciplined(s, c, ch);
    case TryLock(_) => TryDisciplined(s, c, ch);
    case Critical(_, stage) =>
      if stage == Release {
        ReleaseDisciplined(cfg, s, c, ch);
      } else {
        CriticalDisciplined(cfg, s, c, ch);
      }
  }

  /** A new lock file gets a number of its own. */
  lemma OpenDisciplined(s: State, c: CallId, ch: Choice)
    requires Disciplined(s) && c in s.calls && s.calls[c].Lifecycle? && s.calls[c].pc.OpenLock?
    ensures Disciplined(StepOpenLock(s, c, s.calls[c], ch))
  {
    var s' := StepOpenLock(s, c, s.calls[c], ch);
    forall n | n in s'.holders ensures Holding(s', s'.holders[n], n) {
      assert Holding(s, s.holders[n], n);
    }
  }

  lemma DisciplineStep(cfg: Config, s: State, a: Action)
    requires WellFormed(cfg.alloc.cidr) && Disciplined(s)
    ensures Disciplined(Apply(cfg, s, a))
  {
    if a.Advance? && a.c in s.calls {
      if s.calls[a.c].Lifecycle? { LifecycleKeeps(cfg, s, a.c, a.choice); } else { CreateKeeps(cfg, s, a.c, a.choice); }
    }
  }

  lemma {:induction false} DisciplineRun(cfg: Config, s: State, actions: seq<Action>)
    requires WellFormed(cfg.alloc.cidr) && Disciplined(s)
    ensures Disciplined(Run(cfg, s, actions))
    decreases |actions|
  {
    if actions != [] {
      DisciplineStep(cfg, s, actions[0]);
      DisciplineRun(cfg, Apply(cfg, s, actions[0]), actions[1..]);
    }
  }

  /** What holds in every reachable state. */
  ghost predicate Reachable(s: State) {
    Inv(s) && Disciplined(s)
  }

  lemma ReachableStep(cfg: Config, s: State, a: Action)
    requires LocksKept(cfg) && Reachable(s)
    ensures Reachable(Apply(cfg, s, a))
  {
    ApplyKeeps(cfg, s, a);
    DisciplineStep(cfg, s, a);
  }

  lemma ReachableRun(cfg: Config, actions: seq<Action>)
    requires LocksKept(cfg)
    ensures Reachable(Run(cfg, Init(), actions))
  {
    RunKeeps(cfg, Init(), actions);
    DisciplineRun(cfg, Init(), actions);
  }

  /** In every run a lock is held by a call exactly while that call is in the critical section under it. */
  lemma LocksHeldExactly(cfg: Config, actions: seq<Action>, c: CallId, n: Inode)
    requires LocksKept(cfg)
    ensures var s := Run(cfg, Init(), actions);
      (n in s.holders && s.holders[n] == c) <==> Holding(s, c, n)
  {
    RunKeeps(cfg, Init(), actions);
    DisciplineRun(cfg, Init(), actions);
    var s := Run(cfg, Init(), actions);
    if c in s.calls { assert CallOk(s, c, s.calls[c]); }
  }

  /** The attempt of `c` to lock the VM `id` ends the call exactly when that VM is locked. */
  ghost predicate RefusedExactly(s: State, s': State, c: CallId, id: Id) {
    && (c !in s'.calls <==> exists d :: InCritical(s, d, id))
    && (c in s'.calls ==> InCritical(s', c, id))
  }

  lemma TryExact(cfg: Config, s: State, c: CallId, ch: Choice)
    requires WellFormed(cfg.alloc.cidr) && Inv(s) && Disciplined(s) && !ch.fails
    requires c in s.calls && s.calls[c].Lifecycle? && s.calls[c].pc.TryLock?
    ensures RefusedExactly(s, Apply(cfg, s, Advance(c, ch)), c, s.calls[c].id)
  {
    var id, n := s.calls[c].id, s.calls[c].pc.inode;
    assert CallOk(s, c, s.calls[c]);
    if n in s.holders {
      var d := s.holders[n];
      assert Holding(s, d, n) && CallOk(s, d, s.calls[d]);
      assert InCritical(s, d, id);
    }
    forall d | InCritical(s, d, id) ensures n in s.holders {
      assert CallOk(s, d, s.calls[d]);
    }
  }

  /**
   In every run, an attempt to take a VM's lock that meets no error is refused exactly when a call is
   inside that VM's critical section: crashes leave no lock behind, and VMs do not block each other.
   */
  lemma ConflictExact(cfg: Config, actions: seq<Action>, c: CallId, ch: Choice)
    requires LocksKept(cfg) && !ch.fails
    ensures var s := Run(cfg, Init(), actions);
      c in s.calls && s.calls[c].Lifecycle? && s.calls[c].pc.TryLock? ==>
        RefusedExactly(s, Apply(cfg, s, Advance(c, ch)), c, s.calls[c].id)
  {
    RunKeeps(cfg, Init(), actions);
    DisciplineRun(cfg, Init(), actions);
    var s := Run(cfg, Init(), actions);
    if c in s.calls && s.calls[c].Lifecycle? && s.calls[c].pc.TryLock? { TryExact(cfg, s, c, ch); }
  }

  // ----- effects

  /** How the call that takes a step from `s` to `s'` may affect the VM `id`. */
  ghost predicate Fits(s: State, s': State, call: Call, id: Id) {
    && (id in s.metas && id !in s'.metas ==> Inside(call, id) && call.op.Delete?)
    && (id !in s.metas && id in s'.metas ==> call.Saving? && s'.metas[id] == call.meta)
    && (id in s.metas && id in s'.metas ==> s'.metas[id] == s.metas[id])
    && (id !in s.units && id in s'.units ==> Inside(call, id) && call.op.Start?)
    && (id in s.units && id !in s'.units ==> Inside(call, id) && !call.op.Start?)
  }

  /** The call is in the critical section of `id`. */
  ghost predicate Inside(call: Call, id: Id) {
    call.Lifecycle? && call.id == id && call.pc.Critical?
  }

  /**
   In every run: only a delete of a VM removes its record, only its create writes it, and a stored
   record never changes; only a start of a VM starts its unit and only a stop or delete stops it.
   */
  lemma EffectsFit(cfg: Config, actions: seq<Action>, c: CallId, ch: Choice, id: Id)
    requires ValidConfig(cfg)
    ensures var s := Run(cfg, Init(), actions);
      c in s.calls ==> Fits(s, Apply(cfg, s, Advance(c, ch)), s.calls[c], id)
  {
    RunKeeps(cfg, Init(), actions);
    DisciplineRun(cfg, Init(), actions);
    var s := Run(cfg, Init(), actions);
    if c in s.calls { CallFits(cfg, s, c, ch, id); }
  }

  lemma CallFits(cfg: Config, s: State, c: CallId, ch: Choice, id: Id)
    requires ValidConfig(cfg) && Inv(s) && Disciplined(s) && c in s.calls
    ensures Fits(s, Apply(cfg, s, Advance(c, ch)), s.calls[c], id)
  {
    var call := s.calls[c];
    if call.Reading? {
      ReadingFits(cfg, s, c, ch);
    } else if call.Saving? {
      SavingFits(s, c, ch, id);
    } else if call.Lifecycle? && call.pc.Critical? {
      CriticalFits(cfg, s, c, ch, id);
    } else {
      OtherFits(cfg, s, c, ch);
    }
  }

  lemma OtherFits(cfg: Config, s: State, c: CallId, ch: Choice)
    requires WellFormed(cfg.alloc.cidr) && c in s.calls && !s.calls[c].Reading? && !s.calls[c].Saving?
    requires !(s.calls[c].Lifecycle? && s.calls[c].pc.Critical?)
    ensures var s' := StepCall(cfg, s, c, ch); s'.metas == s.metas && s'.units == s.units && s'.saved == s.saved
  {
    if s.calls[c].Lifecycle? { EntryFits(s, c, ch); }
  }

  lemma EntryFits(s: State, c: CallId, ch: Choice)
    requires c in s.calls && s.calls[c].Lifecycle?
    ensures var s' := StepCheckExists(s, c, s.calls[c], ch); s'.metas == s.metas && s'.units == s.units && s'.saved == s.saved
    ensures var s' := StepOpenLock(s, c, s.calls[c], ch); s'.metas == s.metas && s'.units == s.units && s'.saved == s.saved
    ensures s.calls[c].pc.TryLock? ==>
      var s' := StepTryLock(s, c, s.calls[c], ch); s'.metas == s.metas && s'.units == s.units && s'.saved == s.saved
  {
  }

  lemma ReadingFits(cfg: Config, s: State, c: CallId, ch: Choice)
    requires WellFormed(cfg.alloc.cidr) && c in s.calls && s.calls[c].Reading?
    ensures var s' := StepReading(cfg, s, c, s.calls[c], ch); s'.metas == s.metas && s'.units == s.units && s'.saved == s.saved
  {
  }

  lemma SavingFits(s: State, c: CallId, ch: Choice, id: Id)
    requires Inv(s) && c in s.calls && s.calls[c].Saving?
    ensures Fits(s, StepSaving(s, c, s.calls[c], ch), s.calls[c], id)
  {
    assert CallOk(s, c, s.calls[c]);
  }

  /** Removing a directory of the VM `id`, to its end or in part, removes no other record, and changes none. */
  lemma OthersSurvive(cfg: Config, s: State, id: Id, dir: Path, ch: Choice, v: Id)
    requires ConfigRootApart(cfg.roots) && IsUuid(id)
    requires var p := PathsFor(cfg.roots, id); dir in {p.configDir, p.runDir, p.dataDir}
    requires v in s.metas
    ensures var t := RemoveTree(cfg, s, dir); v in t.metas || v == id
    ensures var t := RemoveOneFile(cfg, s, dir, ch); v in t.metas || v == id
  {
    if v != id {
      RecordSurvives(cfg.roots, id, v, false);
    }
  }

  lemma CriticalFits(cfg: Config, s: State, c: CallId, ch: Choice, id: Id)
    requires ConfigRootApart(cfg.roots) && Disciplined(s) && c in s.calls && s.calls[c].Lifecycle? && s.calls[c].pc.Critical?
    ensures Fits(s, StepCritical(cfg, s, c, s.calls[c], ch), s.calls[c], id)
  {
    var call, p := s.calls[c], PathsFor(cfg.roots, s.calls[c].id);
    assert StageFits(call.op, call.pc.stage) && ShapedCall(call);
    match call.pc.stage
    case RemoveConfig => RemoveFits(cfg, s, c, ch, p.configDir, RemoveRun, id);
    case RemoveRun => RemoveFits(cfg, s, c, ch, p.runDir, if call.op.Delete? && call.op.retainData then FireDelete else RemoveData, id);
    case RemoveData => RemoveFits(cfg, s, c, ch, p.dataDir, FireDelete, id);
    case _ => UnitFits(cfg, s, c, ch, id);
  }

  lemma RemoveFits(cfg: Config, s: State, c: CallId, ch: Choice, dir: Path, next: Stage, id: Id)
    requires ConfigRootApart(cfg.roots) && c in s.calls && s.calls[c].Lifecycle? && s.calls[c].pc.Critical?
    requires IsUuid(s.calls[c].id) && s.calls[c].op.Delete?
    requires var p := PathsFor(cfg.roots, s.calls[c].id); dir in {p.configDir, p.runDir, p.dataDir}
    ensures Fits(s, StepRemove(cfg, s, c, s.calls[c], ch, dir, next), s.calls[c], id)
  {
    if id in s.metas { OthersSurvive(cfg, s, s.calls[c].id, dir, ch, id); }
  }

  lemma UnitFits(cfg: Config, s: State, c: CallId, ch: Choice, id: Id)
    requires c in s.calls && s.calls[c].Lifecycle? && s.calls[c].pc.Critical? && StageFits(s.calls[c].op, s.calls[c].pc.stage)
    requires s.calls[c].pc.stage !in {RemoveConfig, RemoveRun, RemoveData}
    ensures Fits(s, StepCritical(cfg, s, c, s.calls[c], ch), s.calls[c], id)
  {
  }

  /** The step makes the stored record of `id` disappear, or its unit start or stop. */
  ghost predicate Touches(s: State, s': State, id: Id) {
    (id in s.metas && id !in s'.metas) || ((id in s.units) != (id in s'.units))
  }

  /**
   In every run, a step that removes a stored record or makes a unit change state (other than the
   unit exiting or being restarted by itself) is a step of the one call that holds that VM's lock.
   */
  lemma EffectsUnderLock(cfg: Config, actions: seq<Action>, a: Action, id: Id)
    requires ValidConfig(cfg)
    ensures var s := Run(cfg, Init(), actions);
      Touches(s, Apply(cfg, s, a), id) && !a.UnitExits? && !a.UnitRestarts? ==>
        a.Advance? && InCritical(s, a.c, id) && forall d :: InCritical(s, d, id) ==> d == a.c
  {
    RunKeeps(cfg, Init(), actions);
    DisciplineRun(cfg, Init(), actions);
    var s := Run(cfg, Init(), actions);
    if Touches(s, Apply(cfg, s, a), id) && !a.UnitExits? && !a.UnitRestarts? {
      CallFits(cfg, s, a.c, a.choice, id);
      forall d | InCritical(s, d, id) ensures d == a.c { MutualExclusion(s, a.c, d, id); }
    }
  }
}
