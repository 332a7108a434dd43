/**
 What holds in every run of the control plane: one call at a time in a VM's critical section, every
 effect on a VM inside it, and at most one successful delete per VM ever created.
 */
module LockSafety {
  import opened Model
  import opened Store
  import opened ControlPlane

  /** The call `c` has the lock file of `id` open. */
  ghost predicate HasOpen(s: State, id: Id, n: Inode) {
    id in s.saved && id in s.lockFiles && s.lockFiles[id] == n
  }

  ghost predicate StageOk(s: State, id: Id, stage: Stage) {
    && (stage in {RemoveConfig, RemoveRun, RemoveData, FireDelete} ==> id !in s.deletes)
    && (stage in {RemoveRun, RemoveData, FireDelete} ==> id !in s.metas)
  }

  ghost predicate CallOk(s: State, c: CallId, call: Call) {
    match call
    case Listing(_) => true
    case Reading(_, _, _) => true
    case Saving(_, meta, _, _) => meta.id in s.issued && meta.id !in s.saved
    case Finishing(_, id) => id in s.saved
    case Lifecycle(_, id, pc) =>
      match pc
      case CheckExists => true
      case OpenLock => id in s.saved
      case TryLock(n) => HasOpen(s, id, n)
      case Critical(n, stage) => HasOpen(s, id, n) && n in s.holders && s.holders[n] == c && StageOk(s, id, stage)
  }

  /** Ids being saved are drawn fresh, so they differ. */
  ghost predicate SavingDiffer(s: State) {
    forall c, d :: c in s.calls && d in s.calls && c != d && s.calls[c].Saving? && s.calls[d].Saving? ==>
      s.calls[c].meta.id != s.calls[d].meta.id
  }

  ghost predicate RecordsOk(s: State) {
    && s.saved <= s.issued && s.metas.Keys <= s.saved && s.metas.Keys <= s.dirs && s.units <= s.saved
    && (forall id :: id in s.issued ==> IsUuid(id))
    && (forall id :: id in s.metas ==> s.metas[id].id == id)
    && (forall id :: id in s.deletes ==> id in s.saved && id !in s.metas)
    && NoDuplicates(s.deletes)
  }

  ghost predicate Inv(s: State) {
    RecordsOk(s) && SavingDiffer(s) && forall c :: c in s.calls ==> CallOk(s, c, s.calls[c])
  }

  /** What a step of call `c` may do to the state the other calls rely on. */
  ghost predicate StepOf(s: State, s': State, c: CallId) {
    && (forall d :: d in s'.calls && d != c ==> d in s.calls && s'.calls[d] == s.calls[d])
    && s.issued <= s'.issued && s.saved <= s'.saved
    && (forall id :: id in s'.saved && id !in s.saved ==> c in s.calls && s.calls[c].Saving? && s.calls[c].meta.id == id)
    && (forall id :: id in s.lockFiles ==> id in s'.lockFiles && s'.lockFiles[id] == s.lockFiles[id])
    && (forall n :: n in s.holders && s.holders[n] != c ==> n in s'.holders && s'.holders[n] == s.holders[n])
    && (forall id :: id in s'.metas && id !in s.metas ==> id !in s.saved)
    && (forall id :: id in s'.deletes && id !in s.deletes ==> InCritical(s, c, id))
  }

  lemma LocksSurvive(cfg: Config, locks: map<Id, Inode>, id: Id, dir: Path)
    requires RunRootApart(cfg.roots) && IsUuid(id)
    requires var p := PathsFor(cfg.roots, id); dir in {p.configDir, p.runDir, p.dataDir}
    ensures SurvivingLocks(cfg, locks, dir) == locks
  {
    forall other | other in locks ensures !Within(PathsFor(cfg.roots, other).lockFile, dir) {
      LockFileSurvives(cfg.roots, id, other, false);
    }
  }

  /** The lock is the one thing two critical calls would have to share. */
  lemma MutualExclusion(s: State, c: CallId, d: CallId, id: Id)
    requires Inv(s) && InCritical(s, c, id) && InCritical(s, d, id)
    ensures c == d
  {
    assert CallOk(s, c, s.calls[c]) && CallOk(s, d, s.calls[d]);
  }

  /** A step of one call leaves what the others rely on. */
  lemma OthersKeep(s: State, s': State, c: CallId, d: CallId)
    requires Inv(s) && StepOf(s, s', c) && d in s'.calls && d != c
    ensures CallOk(s', d, s'.calls[d])
  {
    var call := s.calls[d];
    assert CallOk(s, d, call);
    if call.Lifecycle? && call.pc.Critical? && InCritical(s, c, call.id) {
      MutualExclusion(s, c, d, call.id);
    }
  }

  lemma StepKeeps(s: State, s': State, c: CallId)
    requires Inv(s) && StepOf(s, s', c)
    requires RecordsOk(s') && SavingDiffer(s') && (c in s'.calls ==> CallOk(s', c, s'.calls[c]))
    ensures Inv(s')
  {
    forall d | d in s'.calls ensures CallOk(s', d, s'.calls[d]) {
      if d != c { OthersKeep(s, s', c, d); }
    }
  }

  lemma EndKeeps(s: State, c: CallId)
    requires Inv(s)
    ensures Inv(End(s, c))
  {
    StepKeeps(s, End(s, c), c);
  }

  lemma GotoKeeps(s: State, c: CallId, call: Call)
    requires Inv(s) && CallOk(s, c, call)
    requires call.Saving? ==> forall d :: d in s.calls && d != c && s.calls[d].Saving? ==> s.calls[d].meta.id != call.meta.id
    ensures Inv(Goto(s, c, call))
  {
    StepKeeps(s, Goto(s, c, call), c);
  }

  lemma DirAdded(s: State, id: Id)
    requires Inv(s)
    ensures Inv(s.(dirs := s.dirs + {id}))
  {
    var s' := s.(dirs := s.dirs + {id});
    forall d | d in s'.calls ensures CallOk(s', d, s'.calls[d]) { assert CallOk(s, d, s.calls[d]); }
  }

  lemma IdIssued(s: State, id: Id)
    requires Inv(s) && IsUuid(id)
    ensures Inv(s.(issued := s.issued + {id}))
  {
    var s' := s.(issued := s.issued + {id});
    forall d | d in s'.calls ensures CallOk(s', d, s'.calls[d]) { assert CallOk(s, d, s.calls[d]); }
  }

  lemma UnitsChanged(s: State, units: set<Id>)
    requires Inv(s) && units <= s.saved
    ensures Inv(s.(units := units))
  {
    var s' := s.(units := units);
    forall d | d in s'.calls ensures CallOk(s', d, s'.calls[d]) { assert CallOk(s, d, s.calls[d]); }
  }

  lemma RecordsRemoved(s: State, metas: map<Id, VmMeta>, dirs: set<Id>)
    requires Inv(s) && metas.Keys <= dirs && forall id :: id in metas ==> id in s.metas && metas[id] == s.metas[id]
    ensures Inv(s.(metas := metas, dirs := dirs))
  {
    var s' := s.(metas := metas, dirs := dirs);
    forall d | d in s'.calls ensures CallOk(s', d, s'.calls[d]) { assert CallOk(s, d, s.calls[d]); }
  }

  /** Removing a directory of a VM, to its end or in part, keeps all lock files. */
  lemma TreeRemoved(cfg: Config, s: State, id: Id, dir: Path)
    requires LocksKept(cfg) && Inv(s) && IsUuid(id)
    requires var p := PathsFor(cfg.roots, id); dir in {p.configDir, p.runDir, p.dataDir}
    ensures Inv(RemoveTree(cfg, s, dir)) && RemoveTree(cfg, s, dir).lockFiles == s.lockFiles
  {
    LocksSurvive(cfg, s.lockFiles, id, dir);
    var t := RemoveTree(cfg, s, dir);
    forall v | v in t.metas ensures v in t.dirs {
      var p := PathsFor(cfg.roots, v);
      assert Within(p.configDir, dir) ==> Within(p.meta, dir);
    }
    RecordsRemoved(s, t.metas, t.dirs);
    assert t == s.(metas := t.metas, dirs := t.dirs);
  }

  lemma OneFileRemoved(cfg: Config, s: State, id: Id, dir: Path, ch: Choice)
    requires LocksKept(cfg) && Inv(s) && IsUuid(id)
    requires var p := PathsFor(cfg.roots, id); dir in {p.configDir, p.runDir, p.dataDir}
    ensures Inv(RemoveOneFile(cfg, s, dir, ch)) && RemoveOneFile(cfg, s, dir, ch).lockFiles == s.lockFiles
  {
    LockFileSurvives(cfg.roots, id, ch.id, false);
    var t := RemoveOneFile(cfg, s, dir, ch);
    if t.metas != s.metas {
      RecordsRemoved(s, t.metas, s.dirs);
      assert t == s.(metas := t.metas, dirs := s.dirs);
    }
  }

  lemma LockFileMade(s: State, id: Id)
    requires Inv(s) && id !in s.lockFiles
    ensures Inv(s.(lockFiles := s.lockFiles[id := s.nextInode], nextInode := s.nextInode + 1))
  {
    var s' := s.(lockFiles := s.lockFiles[id := s.nextInode], nextInode := s.nextInode + 1);
    forall d | d in s'.calls ensures CallOk(s', d, s'.calls[d]) { assert CallOk(s, d, s.calls[d]); }
  }

  lemma LockTaken(s: State, n: Inode, c: CallId)
    requires Inv(s) && n !in s.holders
    ensures Inv(s.(holders := s.holders[n := c]))
  {
    var s' := s.(holders := s.holders[n := c]);
    forall d | d in s'.calls ensures CallOk(s', d, s'.calls[d]) { assert CallOk(s, d, s.calls[d]); }
  }

  lemma LockReleased(s: State, n: Inode)
    requires Inv(s) && (n in s.holders ==> s.holders[n] !in s.calls)
    ensures Inv(s.(holders := s.holders - {n}))
  {
    var s' := s.(holders := s.holders - {n});
    forall d | d in s'.calls ensures CallOk(s', d, s'.calls[d]) { assert CallOk(s, d, s.calls[d]); }
  }

  lemma ReadOneKeeps(s: State, c: CallId, ch: Choice)
    requires Inv(s) && c in s.calls && s.calls[c].Reading?
    ensures Inv(StepReadOne(s, c, s.calls[c], ch))
  {
    var s' := StepReadOne(s, c, s.calls[c], ch);
    EndKeeps(s, c);
    if c in s'.calls { GotoKeeps(s, c, s'.calls[c]); }
  }

  /** The drawn id is new, so no other create is saving under it. */
  lemma AllocateKeeps(cfg: Config, s: State, c: CallId, ch: Choice)
    requires LocksKept(cfg) && Inv(s) && c in s.calls && s.calls[c].Reading?
    ensures Inv(StepAllocate(cfg, s, c, s.calls[c], ch))
  {
    var s' := StepAllocate(cfg, s, c, s.calls[c], ch);
    EndKeeps(s, c);
    if c in s'.calls && s'.calls[c].Saving? {
      forall d | d in s.calls && s.calls[d].Saving? ensures s.calls[d].meta.id in s.issued {
        assert CallOk(s, d, s.calls[d]);
      }
      IdIssued(s, ch.id);
      GotoKeeps(s.(issued := s.issued + {ch.id}), c, s'.calls[c]);
    }
  }

  lemma RecordWritten(s: State, c: CallId)
    requires Inv(s) && c in s.calls && s.calls[c].Saving?
    requires s.calls[c].meta.id in s.dirs
    ensures var call := s.calls[c];
      Inv(Goto(s, c, Finishing(call.req, call.meta.id)).(metas := s.metas[call.meta.id := call.meta], saved := s.saved + {call.meta.id}))
  {
    var call := s.calls[c];
    assert CallOk(s, c, call);
    StepKeeps(s, Goto(s, c, Finishing(call.req, call.meta.id)).(metas := s.metas[call.meta.id := call.meta], saved := s.saved + {call.meta.id}), c);
  }

  lemma SavingKeeps(s: State, c: CallId, ch: Choice)
    requires Inv(s) && c in s.calls && s.calls[c].Saving?
    ensures Inv(StepSaving(s, c, s.calls[c], ch))
  {
    var call := s.calls[c];
    DirAdded(s, call.meta.id);
    var t := s.(dirs := s.dirs + {call.meta.id});
    assert CallOk(t, c, call);
    if ch.fails { EndKeeps(t, c); }
    else if !call.dirMade { GotoKeeps(t, c, call.(dirMade := true)); }
    else { RecordWritten(t, c); }
  }

  lemma FinishingKeeps(s: State, c: CallId, ch: Choice)
    requires Inv(s) && c in s.calls && s.calls[c].Finishing?
    ensures Inv(StepFinishing(s, c, s.calls[c], ch))
  {
    DirAdded(s, s.calls[c].id);
    var t := s.(dirs := s.dirs + {s.calls[c].id});
    EndKeeps(t, c);
    GotoKeeps(t, c, Lifecycle(Start, s.calls[c].id, CheckExists));
  }

  lemma OpenKeeps(s: State, c: CallId, ch: Choice)
    requires Inv(s) && c in s.calls && s.calls[c].Lifecycle? && s.calls[c].pc.OpenLock?
    ensures Inv(StepOpenLock(s, c, s.calls[c], ch))
  {
    var call, id := s.calls[c], s.calls[c].id;
    assert CallOk(s, c, call);
    if ch.fails {
      EndKeeps(s, c);
    } else if id in s.lockFiles {
      GotoKeeps(s, c, call.(pc := TryLock(s.lockFiles[id])));
    } else {
      LockFileMade(s, id);
      GotoKeeps(s.(lockFiles := s.lockFiles[id := s.nextInode], nextInode := s.nextInode + 1), c, call.(pc := TryLock(s.nextInode)));
    }
  }

  lemma TryKeeps(s: State, c: CallId, ch: Choice)
    requires Inv(s) && c in s.calls && s.calls[c].Lifecycle? && s.calls[c].pc.TryLock?
    ensures Inv(StepTryLock(s, c, s.calls[c], ch))
  {
    var call, n := s.calls[c], s.calls[c].pc.inode;
    assert CallOk(s, c, call);
    if ch.fails || n in s.holders {
      EndKeeps(s, c);
    } else {
      LockTaken(s, n, c);
      GotoKeeps(s.(holders := s.holders[n := c]), c, call.(pc := Critical(n, if call.op.Delete? then ReadRecord else ChangeUnit)));
    }
  }

  lemma CheckKeeps(s: State, c: CallId, ch: Choice)
    requires Inv(s) && c in s.calls && s.calls[c].Lifecycle?
    ensures Inv(StepCheckExists(s, c, s.calls[c], ch))
  {
    var call := s.calls[c];
    if ch.fails || call.id !in s.metas {
      EndKeeps(s, c);
    } else {
      GotoKeeps(s, c, call.(pc := OpenLock));
    }
  }

  lemma DeleteFired(s: State, c: CallId)
    requires Inv(s) && c in s.calls && s.calls[c].Lifecycle? && s.calls[c].pc.Critical? && s.calls[c].pc.stage == FireDelete
    ensures Inv(Goto(s, c, AtStage(s.calls[c], Release)).(deletes := s.deletes + [s.calls[c].id]))
  {
    assert CallOk(s, c, s.calls[c]);
    StepKeeps(s, Goto(s, c, AtStage(s.calls[c], Release)).(deletes := s.deletes + [s.calls[c].id]), c);
  }

  lemma ReleaseKeeps(s: State, c: CallId)
    requires Inv(s) && c in s.calls && s.calls[c].Lifecycle? && s.calls[c].pc.Critical?
    ensures Inv(End(s, c).(holders := s.holders - {s.calls[c].pc.inode}))
  {
    assert CallOk(s, c, s.calls[c]);
    EndKeeps(s, c);
    LockReleased(End(s, c), s.calls[c].pc.inode);
  }

  lemma RemoveKeeps(cfg: Config, s: State, c: CallId, ch: Choice, dir: Path, next: Stage)
    requires LocksKept(cfg) && Inv(s) && c in s.calls && s.calls[c].Lifecycle? && s.calls[c].pc.Critical?
    requires var p := PathsFor(cfg.roots, s.calls[c].id);
      || (s.calls[c].pc.stage == RemoveConfig && dir == p.configDir && next == RemoveRun)
      || (s.calls[c].pc.stage == RemoveRun && dir == p.runDir && next in {FireDelete, RemoveData})
      || (s.calls[c].pc.stage == RemoveData && dir == p.dataDir && next == FireDelete)
    ensures Inv(StepRemove(cfg, s, c, s.calls[c], ch, dir, next))
  {
    var call, id := s.calls[c], s.calls[c].id;
    assert CallOk(s, c, call);
    if ch.fails {
      GotoKeeps(s, c, AtStage(call, Release));
    } else if ch.partly {
      OneFileRemoved(cfg, s, id, dir, ch);
    } else {
      TreeRemoved(cfg, s, id, dir);
      GotoKeeps(RemoveTree(cfg, s, dir), c, AtStage(call, next));
    }
  }

  lemma CriticalKeeps(cfg: Config, s: State, c: CallId, ch: Choice)
    requires LocksKept(cfg) && Inv(s) && c in s.calls && s.calls[c].Lifecycle? && s.calls[c].pc.Critical?
    ensures Inv(StepCritical(cfg, s, c, s.calls[c], ch))
  {
    var call, id, s' := s.calls[c], s.calls[c].id, StepCritical(cfg, s, c, s.calls[c], ch);
    var p := PathsFor(cfg.roots, id);
    assert CallOk(s, c, call);
    match call.pc.stage
    case ChangeUnit =>
      UnitsChanged(s, s'.units);
      GotoKeeps(s.(units := s'.units), c, s'.calls[c]);
    case ReadRecord =>
      GotoKeeps(s, c, s'.calls[c]);
    case StopUnit =>
      UnitsChanged(s, s'.units);
      GotoKeeps(s.(units := s'.units), c, s'.calls[c]);
    case CheckStored =>
      GotoKeeps(s, c, s'.calls[c]);
    case RemoveConfig =>
      RemoveKeeps(cfg, s, c, ch, p.configDir, RemoveRun);
    case RemoveRun =>
      RemoveKeeps(cfg, s, c, ch, p.runDir, if call.op.Delete? && call.op.retainData then FireDelete else RemoveData);
    case RemoveData =>
      RemoveKeeps(cfg, s, c, ch, p.dataDir, FireDelete);
    case FireDelete =>
      DeleteFired(s, c);
    case Release =>
      ReleaseKeeps(s, c);
  }

  lemma BeginKeeps(s: State, c: CallId, call: Call)
    requires Inv(s) && c !in s.calls
    requires call.Listing? || (call.Lifecycle? && call.pc.CheckExists?)
    ensures Inv(Goto(s, c, call))
  {
    StepKeeps(s, Goto(s, c, call), c);
  }

  lemma ApplyKeeps(cfg: Config, s: State, a: Action)
    requires LocksKept(cfg) && Inv(s)
    ensures Inv(Apply(cfg, s, a))
  {
    match a
    case BeginCreate(c, req) =>
      if c !in s.calls { BeginKeeps(s, c, Listing(req)); }
    case BeginLifecycle(c, op, id) =>
      if c !in s.calls { BeginKeeps(s, c, Lifecycle(op, id, CheckExists)); }
    case Advance(c, ch) =>
      if c in s.calls {
        var call := s.calls[c];
        match call
        case Listing(req) => EndKeeps(s, c); GotoKeeps(s, c, Reading(req, s.dirs, []));
        case Reading(_, todo, _) =>
          if todo != {} { ReadOneKeeps(s, c, ch); } else { AllocateKeeps(cfg, s, c, ch); }
        case Saving(_, _, _, _) => SavingKeeps(s, c, ch);
        case Finishing(_, _) => FinishingKeeps(s, c, ch);
        case Lifecycle(_, _, pc) =>
          match pc
          case CheckExists => CheckKeeps(s, c, ch);
          case OpenLock => OpenKeeps(s, c, ch);
          case TryLock(_) => TryKeeps(s, c, ch);
          case Critical(_, _) => CriticalKeeps(cfg, s, c, ch);
      }
    case UnitExits(id) =>
      UnitsChanged(s, s.units - {id});
    case UnitRestarts(id) =>
      if id in s.saved { UnitsChanged(s, s.units + {id}); }
    case Crash =>
  }

  lemma {:induction false} RunKeeps(cfg: Config, s: State, actions: seq<Action>)
    requires LocksKept(cfg) && Inv(s)
    ensures Inv(Run(cfg, s, actions))
    decreases |actions|
  {
    if actions != [] {
      ApplyKeeps(cfg, s, actions[0]);
      RunKeeps(cfg, Apply(cfg, s, actions[0]), actions[1..]);
    }
  }

  /** In every run, at most one call is in a VM's critical section. */
  lemma OneCallPerVm(cfg: Config, actions: seq<Action>, c: CallId, d: CallId, id: Id)
    requires LocksKept(cfg)
    ensures var s := Run(cfg, Init(), actions); InCritical(s, c, id) && InCritical(s, d, id) ==> c == d
  {
    RunKeeps(cfg, Init(), actions);
    var s := Run(cfg, Init(), actions);
    if InCritical(s, c, id) && InCritical(s, d, id) { MutualExclusion(s, c, d, id); }
  }

  /**
   In every run, each successful delete (and with it the delete event) is of a VM that was saved,
   no VM is deleted twice, and a deleted VM is not stored again.
   */
  lemma AtMostOneDelete(cfg: Config, actions: seq<Action>)
    requires LocksKept(cfg)
    ensures var s := Run(cfg, Init(), actions);
      NoDuplicates(s.deletes) && forall id :: id in s.deletes ==> id in s.saved && id !in s.metas
  {
    RunKeeps(cfg, Init(), actions);
  }
}
