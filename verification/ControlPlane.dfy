/**
 internal/manager/service.go as a step machine.  Each API call is a small program; the calls in
 flight take their steps in any order over the stored records, the lock files, the kernel's flock
 table and the units.  The daemon may crash between any two steps, and is then restarted.

 `Apply` is total: an action that cannot happen in a state leaves it as it is, so a run is just a
 sequence of actions.  What the outside world decides (errors, random ids, which directory is read
 next) is part of the action.
 */
module ControlPlane {
  import opened Text
  import opened Ipv4
  import opened Model
  import opened Store
  import Allocator

  type Id = string
  type CallId = nat
  type Inode = nat

  datatype Config = Config(roots: Roots, alloc: Allocator.Config)

  /** No directory of a VM contains the run root, where the lock files are. */
  ghost predicate RunRootApart(roots: Roots) {
    forall id :: IsUuid(id) ==> RunRootSurvives(roots, id, false)
  }

  /** No directory of a VM contains the config root, where the records are. */
  ghost predicate ConfigRootApart(roots: Roots) {
    forall id :: IsUuid(id) ==> ConfigRootSurvives(roots, id, false)
  }

  ghost predicate LocksKept(cfg: Config) {
    WellFormed(cfg.alloc.cidr) && RunRootApart(cfg.roots)
  }

  ghost predicate ValidConfig(cfg: Config) {
    LocksKept(cfg) && ConfigRootApart(cfg.roots)
  }

  datatype Request = Request(ports: seq<PortRequest>, tags: map<string, string>, metadata: map<string, MetaValue>, autoStart: bool)

  datatype Op = Start | Stop | Delete(retainData: bool)

  /** Where a call stands inside its critical section. */
  datatype Stage =
    | ChangeUnit
    | ReadRecord
    | StopUnit
    | CheckStored
    | RemoveConfig
    | RemoveRun
    | RemoveData
    | FireDelete
    | Release

  datatype Pc =
    | CheckExists
    | OpenLock
    | TryLock(inode: Inode)
    | Critical(inode: Inode, stage: Stage)

  /**
   A call in flight.  A create lists the stored records one by one, allocates, writes the record,
   then finishes the remaining files; with auto-start it goes on as a start.
   */
  datatype Call =
    | Listing(req: Request)
    | Reading(req: Request, todo: set<Id>, listed: seq<VmMeta>)
    | Saving(req: Request, meta: VmMeta, listed: seq<VmMeta>, dirMade: bool)
    | Finishing(req: Request, id: Id)
    | Lifecycle(op: Op, id: Id, pc: Pc)

  datatype State = State(
    calls: map<CallId, Call>,
    dirs: set<Id>,
    metas: map<Id, VmMeta>,
    lockFiles: map<Id, Inode>,
    nextInode: Inode,
    holders: map<Inode, CallId>,
    units: set<Id>,
    issued: set<Id>,
    saved: set<Id>,
    deletes: seq<Id>)

  function Init(): State {
    State(map[], {}, map[], map[], 0, map[], {}, {}, {}, [])
  }

  /**
   What the world decides at a step: whether the operation fails, whether it took effect partly, an
   id, the clock, and whether a partial removal takes a lock file or a record.
   */
  datatype Choice = Choice(fails: bool, partly: bool, id: Id, time: int, lock: bool)

  datatype Action =
    | BeginCreate(c: CallId, req: Request)
    | BeginLifecycle(c: CallId, op: Op, id: Id)
    | Advance(c: CallId, choice: Choice)
    | UnitExits(id: Id)
    | UnitRestarts(id: Id)
    | Crash

  // ----- steps

  function Goto(s: State, c: CallId, call: Call): State {
    s.(calls := s.calls[c := call])
  }

  function End(s: State, c: CallId): State {
    s.(calls := s.calls - {c})
  }

  /** ListVMIDs: one directory read. */
  function StepListing(s: State, c: CallId, req: Request, ch: Choice): State {
    if ch.fails then End(s, c) else Goto(s, c, Reading(req, s.dirs, []))
  }

  /** ReadMeta of one listed directory; a missing record is skipped. */
  function StepReadOne(s: State, c: CallId, call: Call, ch: Choice): State
    requires call.Reading?
  {
    if ch.id !in call.todo then s
    else if ch.fails then End(s, c)
    else
      var listed := if ch.id in s.metas then call.listed + [s.metas[ch.id]] else call.listed;
      Goto(s, c, call.(todo := call.todo - {ch.id}, listed := listed))
  }

  /** After the last record: allocate, and draw an id. */
  function StepAllocate(cfg: Config, s: State, c: CallId, call: Call, ch: Choice): State
    requires WellFormed(cfg.alloc.cidr) && call.Reading?
  {
    match Allocator.Allocation(cfg.alloc, call.listed, call.req.ports)
    case Err(_) => End(s, c)
    case Ok((ip, ports)) =>
      if ch.fails then End(s, c)
      else if !IsUuid(ch.id) || ch.id in s.issued then s
      else
        var meta := VmMeta(ch.id, ch.time, ip, ports, call.req.tags, call.req.metadata);
        Goto(s, c, Saving(call.req, meta, call.listed, false)).(issued := s.issued + {ch.id})
  }

  function StepReading(cfg: Config, s: State, c: CallId, call: Call, ch: Choice): State
    requires WellFormed(cfg.alloc.cidr) && call.Reading?
  {
    if call.todo != {} then StepReadOne(s, c, call, ch) else StepAllocate(cfg, s, c, call, ch)
  }

  /** SaveVM up to the rename that puts meta.json in place. */
  function StepSaving(s: State, c: CallId, call: Call, ch: Choice): State
    requires call.Saving?
  {
    var id := call.meta.id;
    var s' := s.(dirs := s.dirs + {id});
    if ch.fails then End(s', c)
    else if !call.dirMade then Goto(s', c, call.(dirMade := true))
    else Goto(s', c, Finishing(call.req, id)).(metas := s.metas[id := call.meta], saved := s.saved + {id})
  }

  /** The hook and environment files; then the auto-start, or the end. */
  function StepFinishing(s: State, c: CallId, call: Call, ch: Choice): State
    requires call.Finishing?
  {
    var s' := s.(dirs := s.dirs + {call.id});
    if ch.fails || !call.req.autoStart then End(s', c)
    else Goto(s', c, Lifecycle(Start, call.id, CheckExists))
  }

  function StepCheckExists(s: State, c: CallId, call: Call, ch: Choice): State
    requires call.Lifecycle?
  {
    if ch.fails || call.id !in s.metas then End(s, c) else Goto(s, c, call.(pc := OpenLock))
  }

  /** Open the lock file, creating it when it is not there. */
  function StepOpenLock(s: State, c: CallId, call: Call, ch: Choice): State
    requires call.Lifecycle?
  {
    if ch.fails then End(s, c)
    else if call.id in s.lockFiles then Goto(s, c, call.(pc := TryLock(s.lockFiles[call.id])))
    else
      Goto(s, c, call.(pc := TryLock(s.nextInode)))
        .(lockFiles := s.lockFiles[call.id := s.nextInode], nextInode := s.nextInode + 1)
  }

  /** flock without waiting: a held lock ends the call with a conflict. */
  function StepTryLock(s: State, c: CallId, call: Call, ch: Choice): State
    requires call.Lifecycle? && call.pc.TryLock?
  {
    var n := call.pc.inode;
    if ch.fails || n in s.holders then End(s, c)
    else
      var first := if call.op.Delete? then ReadRecord else ChangeUnit;
      Goto(s, c, call.(pc := Critical(n, first))).(holders := s.holders[n := c])
  }

  function AtStage(call: Call, stage: Stage): Call
    requires call.Lifecycle? && call.pc.Critical?
  {
    call.(pc := call.pc.(stage := stage))
  }

  /** A lock file in a removed directory goes with it. */
  function SurvivingLocks(cfg: Config, locks: map<Id, Inode>, dir: Path): map<Id, Inode> {
    map id | id in locks && !Within(PathsFor(cfg.roots, id).lockFile, dir) :: locks[id]
  }

  /** And so does a record, whichever VM it belongs to. */
  function SurvivingRecords(cfg: Config, metas: map<Id, VmMeta>, dir: Path): map<Id, VmMeta> {
    map id | id in metas && !Within(PathsFor(cfg.roots, id).meta, dir) :: metas[id]
  }

  function SurvivingDirs(cfg: Config, dirs: set<Id>, dir: Path): set<Id> {
    set id | id in dirs && !Within(PathsFor(cfg.roots, id).configDir, dir)
  }

  /** os.RemoveAll, run to its end. */
  function RemoveTree(cfg: Config, s: State, dir: Path): State {
    s.(metas := SurvivingRecords(cfg, s.metas, dir),
       dirs := SurvivingDirs(cfg, s.dirs, dir),
       lockFiles := SurvivingLocks(cfg, s.lockFiles, dir))
  }

  /** os.RemoveAll has got to one more file below `dir`. */
  function RemoveOneFile(cfg: Config, s: State, dir: Path, ch: Choice): State {
    var paths := PathsFor(cfg.roots, ch.id);
    if ch.lock then
      if Within(paths.lockFile, dir) then s.(lockFiles := s.lockFiles - {ch.id}) else s
    else
      if Within(paths.meta, dir) then s.(metas := s.metas - {ch.id}) else s
  }

  /** One step of os.RemoveAll, and the stage after its end. */
  function StepRemove(cfg: Config, s: State, c: CallId, call: Call, ch: Choice, dir: Path, next: Stage): State
    requires call.Lifecycle? && call.pc.Critical?
  {
    if ch.fails then Goto(s, c, AtStage(call, Release))
    else if ch.partly then RemoveOneFile(cfg, s, dir, ch)
    else Goto(RemoveTree(cfg, s, dir), c, AtStage(call, next))
  }

  function StepCritical(cfg: Config, s: State, c: CallId, call: Call, ch: Choice): State
    requires call.Lifecycle? && call.pc.Critical?
  {
    var id, paths := call.id, PathsFor(cfg.roots, call.id);
    match call.pc.stage
    case ChangeUnit =>
      var units := if call.op.Start? then s.units + {id} else s.units - {id};
      Goto(s, c, AtStage(call, Release)).(units := if ch.fails && !ch.partly then s.units else units)
    case ReadRecord =>
      Goto(s, c, AtStage(call, if ch.fails || id !in s.metas then Release else StopUnit))
    case StopUnit =>
      // an error here is only logged
      Goto(s, c, AtStage(call, CheckStored)).(units := if ch.fails && !ch.partly then s.units else s.units - {id})
    case CheckStored =>
      Goto(s, c, AtStage(call, if ch.fails || id !in s.metas then Release else RemoveConfig))
    case RemoveConfig =>
      StepRemove(cfg, s, c, call, ch, paths.configDir, RemoveRun)
    case RemoveRun =>
      var keep := call.op.Delete? && call.op.retainData;
      StepRemove(cfg, s, c, call, ch, paths.runDir, if keep then FireDelete else RemoveData)
    case RemoveData =>
      StepRemove(cfg, s, c, call, ch, paths.dataDir, FireDelete)
    case FireDelete =>
      Goto(s, c, AtStage(call, Release)).(deletes := s.deletes + [id])
    case Release =>
      End(s, c).(holders := if call.pc.inode in s.holders && s.holders[call.pc.inode] == c
                            then s.holders - {call.pc.inode} else s.holders)
  }

  /** Every record in `s'` was already stored in `s`. */
  ghost predicate NoneAdded(s: State, s': State) {
    forall id :: id in s'.metas ==> id in s.metas && s'.metas[id] == s.metas[id]
  }

  /** Only call `c` differs, and it is still a lifecycle call. */
  ghost predicate OnlyCall(s: State, t: State, c: CallId) {
    t.calls == s.calls || (c in t.calls && t.calls[c].Lifecycle? && t.calls == s.calls[c := t.calls[c]])
  }

  lemma RemoveShape(cfg: Config, s: State, c: CallId, call: Call, ch: Choice, dir: Path, next: Stage)
    requires call.Lifecycle? && call.pc.Critical?
    ensures var t := StepRemove(cfg, s, c, call, ch, dir, next); OnlyCall(s, t, c) && NoneAdded(s, t) && t.saved == s.saved && t.issued == s.issued
  {
  }

  /** A step in a critical section is about its own call only, and adds no record. */
  lemma CriticalShape(cfg: Config, s: State, c: CallId, call: Call, ch: Choice)
    requires call.Lifecycle? && call.pc.Critical?
    ensures var t := StepCritical(cfg, s, c, call, ch);
      && NoneAdded(s, t) && t.saved == s.saved && t.issued == s.issued
      && if call.pc.stage == Release then t.calls == s.calls - {c} else OnlyCall(s, t, c)
  {
    var p := PathsFor(cfg.roots, call.id);
    match call.pc.stage
    case RemoveConfig => RemoveShape(cfg, s, c, call, ch, p.configDir, RemoveRun);
    case RemoveRun => RemoveShape(cfg, s, c, call, ch, p.runDir, if call.op.Delete? && call.op.retainData then FireDelete else RemoveData);
    case RemoveData => RemoveShape(cfg, s, c, call, ch, p.dataDir, FireDelete);
    case _ =>
  }

  function StepCall(cfg: Config, s: State, c: CallId, ch: Choice): State
    requires WellFormed(cfg.alloc.cidr) && c in s.calls
  {
    var call := s.calls[c];
    match call
    case Listing(req) => StepListing(s, c, req, ch)
    case Reading(_, _, _) => StepReading(cfg, s, c, call, ch)
    case Saving(_, _, _, _) => StepSaving(s, c, call, ch)
    case Finishing(_, _) => StepFinishing(s, c, call, ch)
    case Lifecycle(_, _, pc) =>
      match pc
      case CheckExists => StepCheckExists(s, c, call, ch)
      case OpenLock => StepOpenLock(s, c, call, ch)
      case TryLock(_) => StepTryLock(s, c, call, ch)
      case Critical(_, _) => StepCritical(cfg, s, c, call, ch)
  }

  function Apply(cfg: Config, s: State, a: Action): State
    requires WellFormed(cfg.alloc.cidr)
  {
    match a
    case BeginCreate(c, req) => if c in s.calls then s else Goto(s, c, Listing(req))
    case BeginLifecycle(c, op, id) => if c in s.calls || Trim(id) == "" then s else Goto(s, c, Lifecycle(op, id, CheckExists))
    case Advance(c, ch) => if c in s.calls then StepCall(cfg, s, c, ch) else s
    case UnitExits(id) => s.(units := s.units - {id})
    case UnitRestarts(id) => if id in s.saved then s.(units := s.units + {id}) else s
    case Crash => s.(calls := map[], holders := map[])
  }

  /** The state after a run from `s`. */
  function Run(cfg: Config, s: State, actions: seq<Action>): State
    requires WellFormed(cfg.alloc.cidr)
    decreases |actions|
  {
    if actions == [] then s else Run(cfg, Apply(cfg, s, actions[0]), actions[1..])
  }

  lemma {:induction false} RunSplit(cfg: Config, s: State, actions: seq<Action>, n: nat)
    requires WellFormed(cfg.alloc.cidr) && n <= |actions|
    ensures Run(cfg, s, actions) == Run(cfg, Run(cfg, s, actions[..n]), actions[n..])
    decreases n
  {
    if n == 0 {
      assert actions[..0] == [] && actions[0..] == actions;
    } else {
      RunSplit(cfg, Apply(cfg, s, actions[0]), actions[1..], n - 1);
      SliceTail(actions, n);
    }
  }

  lemma SliceTail(actions: seq<Action>, n: nat)
    requires 0 < n <= |actions|
    ensures actions[..n] != [] && actions[..n][0] == actions[0]
    ensures actions[..n][1..] == actions[1..][..n - 1]
    ensures actions[1..][n - 1..] == actions[n..]
  {
  }

  lemma RunConcat(cfg: Config, s: State, a: seq<Action>, b: seq<Action>)
    requires WellFormed(cfg.alloc.cidr)
    ensures Run(cfg, s, a + b) == Run(cfg, Run(cfg, s, a), b)
  {
    RunSplit(cfg, s, a + b, |a|);
    assert (a + b)[..|a|] == a && (a + b)[|a|..] == b;
  }

  lemma RunThree(cfg: Config, s: State, a: seq<Action>)
    requires WellFormed(cfg.alloc.cidr) && |a| == 3
    ensures Run(cfg, s, a) == Apply(cfg, Apply(cfg, Apply(cfg, s, a[0]), a[1]), a[2])
  {
    RunSplit(cfg, s, a, 2);
    RunTwo(cfg, s, a[..2]);
    RunOne(cfg, Run(cfg, s, a[..2]), a[2..]);
  }

  lemma RunOne(cfg: Config, s: State, a: seq<Action>)
    requires WellFormed(cfg.alloc.cidr) && |a| == 1
    ensures Run(cfg, s, a) == Apply(cfg, s, a[0])
  {
    assert a[1..] == [];
  }

  lemma RunTwo(cfg: Config, s: State, a: seq<Action>)
    requires WellFormed(cfg.alloc.cidr) && |a| == 2
    ensures Run(cfg, s, a) == Apply(cfg, Apply(cfg, s, a[0]), a[1])
  {
    RunOne(cfg, Apply(cfg, s, a[0]), a[1..]);
  }

  lemma RunFour(cfg: Config, s: State, a: seq<Action>)
    requires WellFormed(cfg.alloc.cidr) && |a| == 4
    ensures Run(cfg, s, a) == Apply(cfg, Apply(cfg, Apply(cfg, Apply(cfg, s, a[0]), a[1]), a[2]), a[3])
  {
    RunSplit(cfg, s, a, 2);
    RunTwo(cfg, s, a[..2]);
    RunTwo(cfg, Run(cfg, s, a[..2]), a[2..]);
  }

  /** A step at which nothing goes wrong. */
  function Go(id: Id): Choice {
    Choice(false, false, id, 0, false)
  }

  /** `n` such steps of call `c`. */
  function Steps(n: nat, c: CallId): seq<Action> {
    seq(n, i => Advance(c, Go("")))
  }

  /** A create without ports. */
  const PLAIN: Request := Request([], map[], map[], false)

  // ----- vocabulary

  /** Call `c` is inside the critical section of `id`. */
  ghost predicate InCritical(s: State, c: CallId, id: Id) {
    c in s.calls && s.calls[c].Lifecycle? && s.calls[c].id == id && s.calls[c].pc.Critical?
  }

  ghost predicate NoDuplicates(ids: seq<Id>) {
    forall i, j :: 0 <= i < j < |ids| ==> ids[i] != ids[j]
  }

  /** Two records that could both be served. */
  ghost predicate Compatible(a: VmMeta, b: VmMeta) {
    a.guestIp != b.guestIp && HostPorts(a.ports) !! HostPorts(b.ports)
  }

  /** No two stored VMs share a guest address or a host port. */
  ghost predicate ResourcesDisjoint(s: State) {
    forall i, j :: i in s.metas && j in s.metas && i != j ==> Compatible(s.metas[i], s.metas[j])
  }

  /** Between listing the records and writing its own. */
  predicate InWindow(call: Call) {
    call.Listing? || call.Reading? || call.Saving?
  }
}
