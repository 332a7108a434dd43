/**
 When stored VMs are sure to have their own guest address and host ports.  A create reads the stored
 records and writes its own without holding a lock in between, so this depends on creates not
 overlapping in that window; starts, stops, deletes and crashes may come at any point.
 */
module ResourceSafety {
  import opened Text
  import opened Ipv4
  import opened Model
  import opened Store
  import opened ControlPlane
  import opened LockSafety
  import opened Scenarios

  /** An address the allocator can hand out. */
  ghost predicate InBlock(cfg: Config, ip: string)
    requires WellFormed(cfg.alloc.cidr)
  {
    && Allocator.Usable(cfg.alloc.cidr)
    && exists k: nat :: 2 <= k <= Size(cfg.alloc.cidr) - 2 && ip == Allocator.HostText(cfg.alloc.cidr, k)
  }

  /** An allocated record has an address of the block and nothing in common with the records listed. */
  ghost predicate Allocated(cfg: Config, call: Call)
    requires WellFormed(cfg.alloc.cidr) && call.Saving?
  {
    InBlock(cfg, call.meta.guestIp) && forall vm :: vm in call.listed ==> Compatible(vm, call.meta)
  }

  ghost predicate AllocInv(cfg: Config, s: State)
    requires WellFormed(cfg.alloc.cidr)
  {
    && (forall c :: c in s.calls && s.calls[c].Saving? ==> Allocated(cfg, s.calls[c]))
    && (forall id :: id in s.metas ==> InBlock(cfg, s.metas[id].guestIp))
  }

  ghost predicate OthersSame(s: State, s': State, c: CallId) {
    forall d :: d in s'.calls && d != c ==> d in s.calls && s'.calls[d] == s.calls[d]
  }

  /** The step that puts a new record in place. */
  predicate Writes(s: State, c: CallId, ch: Choice) {
    c in s.calls && s.calls[c].Saving? && s.calls[c].dirMade && !ch.fails
  }

  /** A call outside the window adds no record and stays outside. */
  ghost predicate Quiet(s: State, s': State, c: CallId) {
    NoneAdded(s, s') && OthersSame(s, s', c) && (c in s'.calls ==> !InWindow(s'.calls[c]))
  }

  lemma CriticalIsQuiet(cfg: Config, s: State, c: CallId, ch: Choice)
    requires c in s.calls && s.calls[c].Lifecycle? && s.calls[c].pc.Critical?
    ensures Quiet(s, StepCritical(cfg, s, c, s.calls[c], ch), c)
  {
    CriticalShape(cfg, s, c, s.calls[c], ch);
  }

  lemma EntryIsQuiet(s: State, c: CallId, ch: Choice)
    requires c in s.calls && s.calls[c].Lifecycle?
    ensures Quiet(s, StepCheckExists(s, c, s.calls[c], ch), c)
    ensures Quiet(s, StepOpenLock(s, c, s.calls[c], ch), c)
    ensures s.calls[c].pc.TryLock? ==> Quiet(s, StepTryLock(s, c, s.calls[c], ch), c)
  {
  }

  lemma QuietStep(cfg: Config, s: State, c: CallId, ch: Choice)
    requires WellFormed(cfg.alloc.cidr) && c in s.calls && !InWindow(s.calls[c])
    ensures Quiet(s, StepCall(cfg, s, c, ch), c)
  {
    match s.calls[c]
    case Finishing(_, _) =>
      assert StepCall(cfg, s, c, ch) == StepFinishing(s, c, s.calls[c], ch);
    case Lifecycle(_, _, pc) =>
      if pc.Critical? { CriticalIsQuiet(cfg, s, c, ch); } else { EntryIsQuiet(s, c, ch); }
  }

  lemma QuietAlloc(cfg: Config, s: State, s': State, c: CallId)
    requires WellFormed(cfg.alloc.cidr) && AllocInv(cfg, s) && Quiet(s, s', c)
    ensures AllocInv(cfg, s')
  {
  }

  lemma GotoAlloc(cfg: Config, s: State, s': State, c: CallId)
    requires WellFormed(cfg.alloc.cidr) && AllocInv(cfg, s) && OthersSame(s, s', c) && s'.metas == s.metas
    requires c in s'.calls && s'.calls[c].Saving? ==> Allocated(cfg, s'.calls[c])
    ensures AllocInv(cfg, s')
  {
  }

  lemma FreshAllocated(cfg: Config, req: Request, meta: VmMeta, listed: seq<VmMeta>)
    requires WellFormed(cfg.alloc.cidr)
    requires Allocator.Allocation(cfg.alloc, listed, req.ports) == Ok((meta.guestIp, meta.ports))
    ensures Allocated(cfg, Saving(req, meta, listed, false))
  {
    Allocator.AllocationClear(cfg.alloc, listed, req.ports);
  }

  lemma AllocateAlloc(cfg: Config, s: State, c: CallId, ch: Choice)
    requires WellFormed(cfg.alloc.cidr) && AllocInv(cfg, s) && c in s.calls && s.calls[c].Reading?
    ensures AllocInv(cfg, StepAllocate(cfg, s, c, s.calls[c], ch))
  {
    var call, s' := s.calls[c], StepAllocate(cfg, s, c, s.calls[c], ch);
    if c in s'.calls && s'.calls[c].Saving? {
      FreshAllocated(cfg, call.req, s'.calls[c].meta, call.listed);
    }
    GotoAlloc(cfg, s, s', c);
  }

  lemma ReadingAlloc(cfg: Config, s: State, c: CallId, ch: Choice)
    requires WellFormed(cfg.alloc.cidr) && AllocInv(cfg, s) && c in s.calls && s.calls[c].Reading?
    ensures AllocInv(cfg, StepReading(cfg, s, c, s.calls[c], ch))
  {
    if s.calls[c].todo != {} {
      GotoAlloc(cfg, s, StepReadOne(s, c, s.calls[c], ch), c);
    } else {
      AllocateAlloc(cfg, s, c, ch);
    }
  }

  lemma SavingAlloc(cfg: Config, s: State, c: CallId, ch: Choice)
    requires WellFormed(cfg.alloc.cidr) && AllocInv(cfg, s) && c in s.calls && s.calls[c].Saving?
    ensures AllocInv(cfg, StepSaving(s, c, s.calls[c], ch))
  {
    var call, s' := s.calls[c], StepSaving(s, c, s.calls[c], ch);
    assert Allocated(cfg, call);
    assert s'.metas == if Writes(s, c, ch) then s.metas[call.meta.id := call.meta] else s.metas;
  }

  lemma AllocStep(cfg: Config, s: State, c: CallId, ch: Choice)
    requires WellFormed(cfg.alloc.cidr) && AllocInv(cfg, s) && c in s.calls
    ensures AllocInv(cfg, StepCall(cfg, s, c, ch))
  {
    match s.calls[c]
    case Listing(req) => QuietAlloc(cfg, s, End(s, c), c);
    case Reading(_, _, _) => ReadingAlloc(cfg, s, c, ch);
    case Saving(_, _, _, _) => SavingAlloc(cfg, s, c, ch);
    case _ =>
      QuietStep(cfg, s, c, ch);
      QuietAlloc(cfg, s, StepCall(cfg, s, c, ch), c);
  }

  lemma AllocApply(cfg: Config, s: State, a: Action)
    requires WellFormed(cfg.alloc.cidr) && AllocInv(cfg, s)
    ensures AllocInv(cfg, Apply(cfg, s, a))
  {
    match a
    case Advance(c, ch) => if c in s.calls { AllocStep(cfg, s, c, ch); }
    case _ =>
  }

  lemma {:induction false} AllocRun(cfg: Config, s: State, actions: seq<Action>)
    requires WellFormed(cfg.alloc.cidr) && AllocInv(cfg, s)
    ensures AllocInv(cfg, Run(cfg, s, actions))
    decreases |actions|
  {
    if actions != [] {
      AllocApply(cfg, s, actions[0]);
      AllocRun(cfg, Apply(cfg, s, actions[0]), actions[1..]);
    }
  }

  // ----- ids

  /** Ids are drawn fresh and saved once, and each record lies in a listed directory. */
  ghost predicate IdsFresh(s: State) {
    && s.saved <= s.issued && s.metas.Keys <= s.saved && s.metas.Keys <= s.dirs
    && (forall c :: c in s.calls && s.calls[c].Saving? ==> s.calls[c].meta.id in s.issued && s.calls[c].meta.id !in s.saved)
    && SavingDiffer(s)
  }

  /** A step that draws no id, adds no record and starts no save. */
  ghost predicate DrawsNone(s: State, s': State, c: CallId) {
    && OthersSame(s, s', c) && NoneAdded(s, s') && s'.saved == s.saved && s'.issued == s.issued
    && s'.metas.Keys <= s'.dirs
    && (c in s'.calls && s'.calls[c].Saving? ==> c in s.calls && s.calls[c].Saving? && s'.calls[c].meta == s.calls[c].meta)
  }

  lemma DrawsNoneKeeps(s: State, s': State, c: CallId)
    requires IdsFresh(s) && DrawsNone(s, s', c)
    ensures IdsFresh(s')
  {
  }

  lemma RecordsListed(cfg: Config, s: State, c: CallId, ch: Choice, dir: Path, next: Stage)
    requires s.metas.Keys <= s.dirs && c in s.calls && s.calls[c].Lifecycle? && s.calls[c].pc.Critical?
    ensures var t := StepRemove(cfg, s, c, s.calls[c], ch, dir, next); t.metas.Keys <= t.dirs
  {
    forall v | v in SurvivingRecords(cfg, s.metas, dir) ensures v in SurvivingDirs(cfg, s.dirs, dir) {
      var p := PathsFor(cfg.roots, v);
      assert Within(p.configDir, dir) ==> Within(p.meta, dir);
    }
  }

  lemma CriticalIds(cfg: Config, s: State, c: CallId, ch: Choice)
    requires IdsFresh(s) && c in s.calls && s.calls[c].Lifecycle? && s.calls[c].pc.Critical?
    ensures IdsFresh(StepCritical(cfg, s, c, s.calls[c], ch))
  {
    var call, p := s.calls[c], PathsFor(cfg.roots, s.calls[c].id);
    CriticalIsQuiet(cfg, s, c, ch);
    CriticalShape(cfg, s, c, call, ch);
    match call.pc.stage
    case RemoveConfig => RecordsListed(cfg, s, c, ch, p.configDir, RemoveRun);
    case RemoveRun => RecordsListed(cfg, s, c, ch, p.runDir, if call.op.Delete? && call.op.retainData then FireDelete else RemoveData);
    case RemoveData => RecordsListed(cfg, s, c, ch, p.dataDir, FireDelete);
    case _ =>
    DrawsNoneKeeps(s, StepCritical(cfg, s, c, call, ch), c);
  }

  lemma EntryIds(s: State, c: CallId, ch: Choice)
    requires IdsFresh(s) && c in s.calls && s.calls[c].Lifecycle? && !s.calls[c].pc.Critical?
    ensures IdsFresh(StepCheckExists(s, c, s.calls[c], ch))
    ensures IdsFresh(StepOpenLock(s, c, s.calls[c], ch))
    ensures s.calls[c].pc.TryLock? ==> IdsFresh(StepTryLock(s, c, s.calls[c], ch))
  {
    EntryIsQuiet(s, c, ch);
    DrawsNoneKeeps(s, StepCheckExists(s, c, s.calls[c], ch), c);
    DrawsNoneKeeps(s, StepOpenLock(s, c, s.calls[c], ch), c);
    if s.calls[c].pc.TryLock? { DrawsNoneKeeps(s, StepTryLock(s, c, s.calls[c], ch), c); }
  }

  lemma AllocateIds(cfg: Config, s: State, c: CallId, ch: Choice)
    requires WellFormed(cfg.alloc.cidr) && IdsFresh(s) && c in s.calls && s.calls[c].Reading?
    ensures IdsFresh(StepAllocate(cfg, s, c, s.calls[c], ch))
  {
    var s' := StepAllocate(cfg, s, c, s.calls[c], ch);
    if s'.issued == s.issued {
      DrawsNoneKeeps(s, s', c);
    } else {
      assert s'.issued == s.issued + {ch.id} && s'.calls == s.calls[c := s'.calls[c]] && s'.calls[c].meta.id == ch.id;
    }
  }

  lemma SavingIds(s: State, c: CallId, ch: Choice)
    requires IdsFresh(s) && c in s.calls && s.calls[c].Saving?
    ensures IdsFresh(StepSaving(s, c, s.calls[c], ch))
  {
    var s' := StepSaving(s, c, s.calls[c], ch);
    if !Writes(s, c, ch) { DrawsNoneKeeps(s, s', c); }
  }

  lemma IdsStep(cfg: Config, s: State, c: CallId, ch: Choice)
    requires WellFormed(cfg.alloc.cidr) && IdsFresh(s) && c in s.calls
    ensures IdsFresh(StepCall(cfg, s, c, ch))
  {
    match s.calls[c]
    case Listing(req) => DrawsNoneKeeps(s, StepListing(s, c, req, ch), c);
    case Reading(_, todo, _) =>
      if todo != {} { DrawsNoneKeeps(s, StepReadOne(s, c, s.calls[c], ch), c); } else { AllocateIds(cfg, s, c, ch); }
    case Saving(_, _, _, _) => SavingIds(s, c, ch);
    case Finishing(_, _) => DrawsNoneKeeps(s, StepFinishing(s, c, s.calls[c], ch), c);
    case Lifecycle(_, _, pc) =>
      if pc.Critical? { CriticalIds(cfg, s, c, ch); } else { EntryIds(s, c, ch); }
  }

  lemma IdsApply(cfg: Config, s: State, a: Action)
    requires WellFormed(cfg.alloc.cidr) && IdsFresh(s)
    ensures IdsFresh(Apply(cfg, s, a))
  {
    match a
    case BeginCreate(c, _) => if c !in s.calls { DrawsNoneKeeps(s, Apply(cfg, s, a), c); }
    case BeginLifecycle(c, _, _) => if c !in s.calls { DrawsNoneKeeps(s, Apply(cfg, s, a), c); }
    case Advance(c, ch) => if c in s.calls { IdsStep(cfg, s, c, ch); }
    case _ =>
  }

  lemma {:induction false} IdsRun(cfg: Config, s: State, actions: seq<Action>)
    requires WellFormed(cfg.alloc.cidr) && IdsFresh(s)
    ensures IdsFresh(Run(cfg, s, actions))
    decreases |actions|
  {
    if actions != [] {
      IdsApply(cfg, s, actions[0]);
      IdsRun(cfg, Apply(cfg, s, actions[0]), actions[1..]);
    }
  }

  // ----- serialised creates

  /** A create begins only when no other is between its listing and its write. */
  ghost predicate Allowed(s: State, a: Action) {
    a.BeginCreate? ==> forall c :: c in s.calls ==> !InWindow(s.calls[c])
  }

  ghost predicate Serialised(cfg: Config, s: State, actions: seq<Action>)
    requires WellFormed(cfg.alloc.cidr)
    decreases |actions|
  {
    actions == [] || (Allowed(s, actions[0]) && Serialised(cfg, Apply(cfg, s, actions[0]), actions[1..]))
  }

  ghost predicate OneInWindow(s: State) {
    forall c, d :: c in s.calls && d in s.calls && InWindow(s.calls[c]) && InWindow(s.calls[d]) ==> c == d
  }

  /** A listing in progress has seen, or has yet to see, all that is stored; a finished one has seen it. */
  ghost predicate ListingCovers(s: State, call: Call) {
    && (call.Reading? ==> forall id :: id in s.metas ==> id in call.todo || s.metas[id] in call.listed)
    && (call.Saving? ==> forall id :: id in s.metas ==> s.metas[id] in call.listed)
  }

  ghost predicate SerialInv(s: State) {
    && ResourcesDisjoint(s) && OneInWindow(s)
    && forall c :: c in s.calls ==> ListingCovers(s, s.calls[c])
  }

  lemma QuietKeeps(s: State, s': State, c: CallId)
    requires SerialInv(s) && Quiet(s, s', c)
    ensures SerialInv(s')
  {
    forall d | d in s'.calls ensures ListingCovers(s', s'.calls[d]) {
      if d != c { assert ListingCovers(s, s.calls[d]); }
    }
  }

  /** A call may move on inside the window while the records stay as they are. */
  lemma GotoCovers(s: State, c: CallId, call: Call)
    requires SerialInv(s) && c in s.calls && InWindow(s.calls[c]) && ListingCovers(s, call)
    ensures SerialInv(Goto(s, c, call))
  {
    var s' := Goto(s, c, call);
    forall d | d in s'.calls ensures ListingCovers(s', s'.calls[d]) {
      if d != c { assert ListingCovers(s, s.calls[d]); }
    }
  }

  lemma ReadOneSerial(s: State, c: CallId, ch: Choice)
    requires SerialInv(s) && c in s.calls && s.calls[c].Reading?
    ensures SerialInv(StepReadOne(s, c, s.calls[c], ch))
  {
    var call := s.calls[c];
    assert ListingCovers(s, call);
    if ch.id in call.todo {
      if ch.fails {
        QuietKeeps(s, End(s, c), c);
      } else {
        GotoCovers(s, c, StepReadOne(s, c, call, ch).calls[c]);
      }
    }
  }

  lemma AllocateSerial(cfg: Config, s: State, c: CallId, ch: Choice)
    requires WellFormed(cfg.alloc.cidr) && SerialInv(s) && c in s.calls && s.calls[c].Reading? && s.calls[c].todo == {}
    ensures SerialInv(StepAllocate(cfg, s, c, s.calls[c], ch))
  {
    var s' := StepAllocate(cfg, s, c, s.calls[c], ch);
    assert ListingCovers(s, s.calls[c]);
    if c in s'.calls {
      GotoCovers(s, c, s'.calls[c]);
      SameCallsKeep(Goto(s, c, s'.calls[c]), s');
    } else {
      QuietKeeps(s, s', c);
    }
  }

  /** The one step that adds a record: the listing has seen everything stored, so nothing clashes. */
  lemma WriteSerial(cfg: Config, s: State, c: CallId, ch: Choice)
    requires WellFormed(cfg.alloc.cidr) && IdsFresh(s) && AllocInv(cfg, s) && SerialInv(s)
    requires Writes(s, c, ch)
    ensures SerialInv(StepSaving(s, c, s.calls[c], ch))
  {
    var s', call := StepSaving(s, c, s.calls[c], ch), s.calls[c];
    assert ListingCovers(s, call) && Allocated(cfg, call);
    assert s'.metas == s.metas[call.meta.id := call.meta];
    forall d | d in s'.calls ensures ListingCovers(s', s'.calls[d]) {
      if d != c { assert !InWindow(s.calls[d]); }
    }
  }

  lemma SavingSerial(s: State, c: CallId, ch: Choice)
    requires SerialInv(s) && c in s.calls && s.calls[c].Saving? && !Writes(s, c, ch)
    ensures SerialInv(StepSaving(s, c, s.calls[c], ch))
  {
    var call, t := s.calls[c], s.(dirs := s.dirs + {s.calls[c].meta.id});
    assert ListingCovers(s, call);
    SameCallsKeep(s, t);
    if ch.fails {
      QuietKeeps(t, End(t, c), c);
    } else {
      GotoCovers(t, c, call.(dirMade := true));
    }
  }

  lemma ListingSerial(s: State, c: CallId, req: Request, ch: Choice)
    requires SerialInv(s) && s.metas.Keys <= s.dirs && c in s.calls && s.calls[c].Listing?
    ensures SerialInv(StepListing(s, c, req, ch))
  {
    if ch.fails {
      QuietKeeps(s, End(s, c), c);
    } else {
      GotoCovers(s, c, Reading(req, s.dirs, []));
    }
  }

  lemma SerialStep(cfg: Config, s: State, c: CallId, ch: Choice)
    requires WellFormed(cfg.alloc.cidr) && IdsFresh(s) && AllocInv(cfg, s) && SerialInv(s) && c in s.calls
    ensures SerialInv(StepCall(cfg, s, c, ch))
  {
    match s.calls[c]
    case Listing(req) => ListingSerial(s, c, req, ch);
    case Reading(_, todo, _) =>
      if todo != {} { ReadOneSerial(s, c, ch); } else { AllocateSerial(cfg, s, c, ch); }
    case Saving(_, _, _, _) =>
      if Writes(s, c, ch) { WriteSerial(cfg, s, c, ch); } else { SavingSerial(s, c, ch); }
    case _ =>
      QuietStep(cfg, s, c, ch);
      QuietKeeps(s, StepCall(cfg, s, c, ch), c);
  }

  lemma SameCallsKeep(s: State, s': State)
    requires SerialInv(s) && s'.calls == s.calls && s'.metas == s.metas
    ensures SerialInv(s')
  {
    forall d | d in s'.calls ensures ListingCovers(s', s'.calls[d]) {
      assert ListingCovers(s, s.calls[d]);
    }
  }

  lemma BeginSerial(cfg: Config, s: State, c: CallId, req: Request)
    requires WellFormed(cfg.alloc.cidr) && SerialInv(s) && Allowed(s, BeginCreate(c, req))
    ensures SerialInv(Apply(cfg, s, BeginCreate(c, req)))
  {
  }

  lemma SerialApply(cfg: Config, s: State, a: Action)
    requires WellFormed(cfg.alloc.cidr) && IdsFresh(s) && AllocInv(cfg, s) && SerialInv(s) && Allowed(s, a)
    ensures SerialInv(Apply(cfg, s, a))
  {
    match a
    case BeginCreate(c, req) => BeginSerial(cfg, s, c, req);
    case BeginLifecycle(c, op, id) =>
      if c !in s.calls { QuietKeeps(s, Goto(s, c, Lifecycle(op, id, CheckExists)), c); }
    case Advance(c, ch) => if c in s.calls { SerialStep(cfg, s, c, ch); }
    case UnitExits(id) => SameCallsKeep(s, s.(units := s.units - {id}));
    case UnitRestarts(id) => SameCallsKeep(s, Apply(cfg, s, a));
    case Crash =>
  }

  lemma {:induction false} SerialRun(cfg: Config, s: State, actions: seq<Action>)
    requires WellFormed(cfg.alloc.cidr) && IdsFresh(s) && AllocInv(cfg, s) && SerialInv(s) && Serialised(cfg, s, actions)
    ensures SerialInv(Run(cfg, s, actions))
    decreases |actions|
  {
    if actions != [] {
      IdsApply(cfg, s, actions[0]);
      AllocApply(cfg, s, actions[0]);
      SerialApply(cfg, s, actions[0]);
      SerialRun(cfg, Apply(cfg, s, actions[0]), actions[1..]);
    }
  }

  /**
   In every run whose creates do not overlap between listing and writing, stored VMs have pairwise
   different guest addresses and pairwise disjoint host ports.
   */
  lemma SerialCreatesDisjoint(cfg: Config, actions: seq<Action>)
    requires WellFormed(cfg.alloc.cidr) && Serialised(cfg, Init(), actions)
    ensures ResourcesDisjoint(Run(cfg, Init(), actions))
  {
    SerialRun(cfg, Init(), actions);
  }

  /**
   In such a run, a create that has allocated and not yet written has in its listing every record
   stored at that moment, whatever was deleted or started since.
   */
  lemma ListingsComplete(cfg: Config, actions: seq<Action>, c: CallId, id: Id)
    requires WellFormed(cfg.alloc.cidr) && Serialised(cfg, Init(), actions)
    ensures var s := Run(cfg, Init(), actions);
      c in s.calls && s.calls[c].Saving? && id in s.metas ==> s.metas[id] in s.calls[c].listed
  {
    SerialRun(cfg, Init(), actions);
    var s := Run(cfg, Init(), actions);
    if c in s.calls { assert ListingCovers(s, s.calls[c]); }
  }

  // ----- how many VMs fit

  lemma {:induction false} Pigeonhole(m: map<Id, nat>, lo: nat, hi: nat)
    requires lo <= hi
    requires forall id :: id in m ==> lo <= m[id] < hi
    requires forall i, j :: i in m && j in m && m[i] == m[j] ==> i == j
    ensures |m| <= hi - lo
    decreases hi - lo
  {
    if exists id :: id in m && m[id] == hi - 1 {
      var id :| id in m && m[id] == hi - 1;
      var rest := m - {id};
      Pigeonhole(rest, lo, hi - 1);
      assert m.Keys == rest.Keys + {id};
      assert |m| == |m.Keys| && |rest| == |rest.Keys|;
    } else if lo < hi {
      Pigeonhole(m, lo, hi - 1);
    } else {
      assert m.Keys == {};
      assert |m| == |m.Keys|;
    }
  }

  ghost function Offset(cfg: Config, ip: string): (k: nat)
    requires WellFormed(cfg.alloc.cidr) && InBlock(cfg, ip)
    ensures 2 <= k <= Size(cfg.alloc.cidr) - 2 && ip == Allocator.HostText(cfg.alloc.cidr, k)
  {
    var k: nat :| 2 <= k <= Size(cfg.alloc.cidr) - 2 && ip == Allocator.HostText(cfg.alloc.cidr, k);
    k
  }

  lemma DisjointFit(cfg: Config, s: State)
    requires WellFormed(cfg.alloc.cidr) && Allocator.Usable(cfg.alloc.cidr)
    requires AllocInv(cfg, s) && ResourcesDisjoint(s) && Size(cfg.alloc.cidr) >= 4
    ensures |s.metas| <= Size(cfg.alloc.cidr) - 3
  {
    var m := map id | id in s.metas :: Offset(cfg, s.metas[id].guestIp);
    assert forall i, j :: i in m && j in m && i != j ==> Compatible(s.metas[i], s.metas[j]);
    Pigeonhole(m, 2, Size(cfg.alloc.cidr) - 1);
    assert m.Keys == s.metas.Keys;
    assert |m| == |m.Keys| && |s.metas| == |s.metas.Keys|;
  }

  /** In such a run no more VMs are stored than the block has addresses, less three. */
  lemma SerialCreatesFit(cfg: Config, actions: seq<Action>)
    requires WellFormed(cfg.alloc.cidr) && Serialised(cfg, Init(), actions) && Allocator.Usable(cfg.alloc.cidr)
    ensures |Run(cfg, Init(), actions).metas| <= Size(cfg.alloc.cidr) - 3
  {
    SerialCreatesDisjoint(cfg, actions);
    AllocRun(cfg, Init(), actions);
    Allocator.UsableSize(cfg.alloc.cidr);
    DisjointFit(cfg, Run(cfg, Init(), actions));
  }

  // ----- overlapping creates

  /**
   In any run: when a create writes its record, the stored VMs stay disjoint exactly when no record
   written since the create listed them clashes with the new one.
   */
  lemma WriteClashesOnlyWithUnlisted(cfg: Config, actions: seq<Action>, c: CallId, ch: Choice)
    requires WellFormed(cfg.alloc.cidr)
    requires Writes(Run(cfg, Init(), actions), c, ch) && ResourcesDisjoint(Run(cfg, Init(), actions))
    ensures var s := Run(cfg, Init(), actions); var call := s.calls[c];
      ResourcesDisjoint(StepCall(cfg, s, c, ch)) <==>
      (forall id :: id in s.metas && s.metas[id] !in call.listed ==> Compatible(s.metas[id], call.meta))
  {
    IdsRun(cfg, Init(), actions);
    AllocRun(cfg, Init(), actions);
    WriteClash(cfg, Run(cfg, Init(), actions), c, ch);
  }

  lemma WriteClash(cfg: Config, s: State, c: CallId, ch: Choice)
    requires WellFormed(cfg.alloc.cidr) && IdsFresh(s) && AllocInv(cfg, s) && Writes(s, c, ch) && ResourcesDisjoint(s)
    ensures ResourcesDisjoint(StepCall(cfg, s, c, ch)) <==>
      (forall id :: id in s.metas && s.metas[id] !in s.calls[c].listed ==> Compatible(s.metas[id], s.calls[c].meta))
  {
    var call, s' := s.calls[c], StepSaving(s, c, s.calls[c], ch);
    assert StepCall(cfg, s, c, ch) == s';
    assert Allocated(cfg, call);
    assert s'.metas == s.metas[call.meta.id := call.meta] && call.meta.id !in s.metas;
    if ResourcesDisjoint(s') {
      forall id | id in s.metas ensures Compatible(s.metas[id], call.meta) {
        assert id in s'.metas && call.meta.id in s'.metas;
      }
    }
  }

  /** Two creates that list before either writes. */
  function OverlappingCreates(u: Id, v: Id): seq<Action> {
    [BeginCreate(0, PLAIN), BeginCreate(1, PLAIN), Advance(0, Go("")), Advance(1, Go(""))]
    + ([Advance(0, Go(u)), Advance(1, Go(v))]
    + [Advance(0, Go("")), Advance(0, Go("")), Advance(1, Go("")), Advance(1, Go(""))])
  }

  /** What one create has when it has allocated from an empty listing. */
  ghost function FirstSaving(cfg: Config, id: Id): Call
    requires WellFormed(cfg.alloc.cidr) && Allocator.GuestAddress(cfg.alloc.cidr, []).Ok?
  {
    Saving(PLAIN, Record(cfg, id), [], false)
  }

  ghost function BothListed(): State {
    Init().(calls := map[0 := Reading(PLAIN, {}, []), 1 := Reading(PLAIN, {}, [])])
  }

  ghost function BothAllocated(cfg: Config, u: Id, v: Id): State
    requires WellFormed(cfg.alloc.cidr) && Allocator.GuestAddress(cfg.alloc.cidr, []).Ok?
  {
    Init().(calls := map[0 := FirstSaving(cfg, u), 1 := FirstSaving(cfg, v)], issued := {u, v})
  }

  lemma OverlapLists(cfg: Config)
    requires WellFormed(cfg.alloc.cidr)
    ensures Run(cfg, Init(), [BeginCreate(0, PLAIN), BeginCreate(1, PLAIN), Advance(0, Go("")), Advance(1, Go(""))]) == BothListed()
  {
    var a := [BeginCreate(0, PLAIN), BeginCreate(1, PLAIN), Advance(0, Go("")), Advance(1, Go(""))];
    var s2 := Init().(calls := map[0 := Listing(PLAIN), 1 := Listing(PLAIN)]);
    RunFour(cfg, Init(), a);
    assert Apply(cfg, Apply(cfg, Init(), a[0]), a[1]) == s2;
    assert Apply(cfg, Apply(cfg, s2, a[2]), a[3]) == BothListed();
  }

  lemma OverlapAllocates(cfg: Config, u: Id, v: Id)
    requires WellFormed(cfg.alloc.cidr) && Allocator.GuestAddress(cfg.alloc.cidr, []).Ok?
    requires IsUuid(u) && IsUuid(v) && u != v
    ensures Run(cfg, BothListed(), [Advance(0, Go(u)), Advance(1, Go(v))]) == BothAllocated(cfg, u, v)
  {
    var a := [Advance(0, Go(u)), Advance(1, Go(v))];
    assert Allocator.Ports(cfg.alloc, [], []) == Ok([]);
    RunTwo(cfg, BothListed(), a);
    var s5 := BothListed().(calls := BothListed().calls[0 := FirstSaving(cfg, u)], issued := {u});
    assert Apply(cfg, BothListed(), a[0]) == s5;
    assert Apply(cfg, s5, a[1]) == BothAllocated(cfg, u, v);
  }

  /** Only the two creates are in flight, and no lock has been used. */
  ghost predicate Untouched(s: State) {
    s.calls.Keys <= {0, 1} && s.lockFiles == map[] && s.holders == map[] && s.nextInode == 0 && s.units == {}
  }

  lemma OverlapWrites(cfg: Config, u: Id, v: Id)
    requires WellFormed(cfg.alloc.cidr) && Allocator.GuestAddress(cfg.alloc.cidr, []).Ok? && u != v
    ensures var s := Run(cfg, BothAllocated(cfg, u, v), [Advance(0, Go("")), Advance(0, Go("")), Advance(1, Go("")), Advance(1, Go(""))]);
      && s.metas == map[u := FirstSaving(cfg, u).meta, v := FirstSaving(cfg, v).meta]
      && Untouched(s)
  {
    var s, go := BothAllocated(cfg, u, v), Advance(0, Go(""));
    RunFour(cfg, s, [go, go, Advance(1, Go("")), Advance(1, Go(""))]);
    var t := Apply(cfg, Apply(cfg, s, go), go);
    assert t.metas == map[u := FirstSaving(cfg, u).meta] && t.calls[1] == FirstSaving(cfg, v) && Untouched(t);
    var w := Apply(cfg, Apply(cfg, t, Advance(1, Go(""))), Advance(1, Go("")));
    assert w.metas == t.metas[v := FirstSaving(cfg, v).meta];
  }

  lemma OverlapEnds(cfg: Config, u: Id, v: Id)
    requires Allocator.Usable(cfg.alloc.cidr) && IsUuid(u) && IsUuid(v) && u != v
    ensures Allocator.GuestAddress(cfg.alloc.cidr, []).Ok?
    ensures var s := Run(cfg, Init(), OverlappingCreates(u, v));
      s.metas == map[u := FirstSaving(cfg, u).meta, v := FirstSaving(cfg, v).meta] && Untouched(s)
  {
    FirstAllocates(cfg);
    var a := OverlappingCreates(u, v);
    RunSplit(cfg, Init(), a, 4);
    assert a[..4] == [BeginCreate(0, PLAIN), BeginCreate(1, PLAIN), Advance(0, Go("")), Advance(1, Go(""))];
    OverlapLists(cfg);
    var b := a[4..];
    RunSplit(cfg, BothListed(), b, 2);
    assert b[..2] == [Advance(0, Go(u)), Advance(1, Go(v))];
    assert b[2..] == [Advance(0, Go("")), Advance(0, Go("")), Advance(1, Go("")), Advance(1, Go(""))];
    OverlapAllocates(cfg, u, v);
    OverlapWrites(cfg, u, v);
  }

  /**
   Without serialisation the promise fails, whatever the block: two creates that overlap give two
   stored VMs the same guest address.
   */
  lemma OverlappingCreatesCollide(cfg: Config, u: Id, v: Id)
    requires Allocator.Usable(cfg.alloc.cidr) && IsUuid(u) && IsUuid(v) && u != v
    ensures var s := Run(cfg, Init(), OverlappingCreates(u, v));
      u in s.metas && v in s.metas && s.metas[u].guestIp == s.metas[v].guestIp
  {
    OverlapEnds(cfg, u, v);
  }
}
