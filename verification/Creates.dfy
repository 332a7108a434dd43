/**
 What a create makes of its request: over all runs, the record it saves; and, taken alone and without
 faults from any reachable state, where it ends.
 */
module Creates {
  import opened Text
  import opened Ipv4
  import opened Model
  import opened ControlPlane
  import opened Effects
  import opened ResourceSafety
  import opened Lifecycles
  import opened Outcomes

  // ----- the record

  /** The lowest address of the block that none of the listed VMs holds. */
  ghost predicate LowestAddress(cidr: Cidr, listed: seq<VmMeta>, ip: string)
    requires WellFormed(cidr)
  {
    && Allocator.Usable(cidr)
    && exists k: nat :: 2 <= k <= Size(cidr) - 2 && ip == Allocator.HostText(cidr, k)
         && ip !in Allocator.UsedAddresses(listed)
         && forall j :: 2 <= j < k ==> Allocator.HostText(cidr, j) in Allocator.UsedAddresses(listed)
  }

  /** The bindings answer the requests in turn, on ports none of the listed VMs uses, sorted by host port. */
  ghost predicate PortsAnswer(alloc: Allocator.Config, listed: seq<VmMeta>, requests: seq<PortRequest>, ports: seq<PortBinding>) {
    && (exists bs :: Allocator.AllAnswered(alloc, Allocator.UsedPorts(listed), requests, bs) && multiset(ports) == multiset(bs))
    && (forall i, j :: 0 <= i < j < |ports| ==> ports[i].host < ports[j].host)
  }

  /** The record is what the request asked for, with resources free of the listed VMs. */
  ghost predicate Fulfils(cfg: Config, req: Request, meta: VmMeta, listed: seq<VmMeta>)
    requires WellFormed(cfg.alloc.cidr)
  {
    && meta.tags == req.tags && meta.metadata == req.metadata
    && PortsAnswer(cfg.alloc, listed, req.ports, meta.ports)
    && LowestAddress(cfg.alloc.cidr, listed, meta.guestIp)
  }

  lemma AllocationFulfils(cfg: Config, req: Request, meta: VmMeta, listed: seq<VmMeta>)
    requires WellFormed(cfg.alloc.cidr) && meta.tags == req.tags && meta.metadata == req.metadata
    requires Allocator.Allocation(cfg.alloc, listed, req.ports) == Ok((meta.guestIp, meta.ports))
    ensures Fulfils(cfg, req, meta, listed)
  {
    Allocator.GuestAddressIsLowestFree(cfg.alloc.cidr, listed);
    Allocator.PortsExact(cfg.alloc, listed, req.ports);
  }

  /** For some listing. */
  ghost predicate Granted(cfg: Config, req: Request, meta: VmMeta)
    requires WellFormed(cfg.alloc.cidr)
  {
    exists listed :: Fulfils(cfg, req, meta, listed)
  }

  ghost predicate CallFulfils(cfg: Config, s: State, call: Call)
    requires WellFormed(cfg.alloc.cidr)
  {
    && (call.Saving? ==> Fulfils(cfg, call.req, call.meta, call.listed))
    && (call.Finishing? ==> call.id in s.saved && (call.id in s.metas ==> Granted(cfg, call.req, s.metas[call.id])))
  }

  ghost predicate AllFulfil(cfg: Config, s: State)
    requires WellFormed(cfg.alloc.cidr)
  {
    forall c :: c in s.calls ==> CallFulfils(cfg, s, s.calls[c])
  }

  /** Every step but a write: no record appears, and the call of the step is in order afterwards. */
  lemma FulfilKeeps(cfg: Config, s: State, s': State, c: CallId)
    requires WellFormed(cfg.alloc.cidr) && AllFulfil(cfg, s)
    requires OthersSame(s, s', c) && NoneAdded(s, s') && s.saved <= s'.saved
    requires c in s'.calls ==> CallFulfils(cfg, s', s'.calls[c])
    ensures AllFulfil(cfg, s')
  {
    forall d | d in s'.calls ensures CallFulfils(cfg, s', s'.calls[d]) {
      if d != c { assert CallFulfils(cfg, s, s.calls[d]); }
    }
  }

  lemma AllocateFulfils(cfg: Config, s: State, c: CallId, ch: Choice)
    requires WellFormed(cfg.alloc.cidr) && AllFulfil(cfg, s) && c in s.calls && s.calls[c].Reading?
    ensures AllFulfil(cfg, StepAllocate(cfg, s, c, s.calls[c], ch))
  {
    var call, s' := s.calls[c], StepAllocate(cfg, s, c, s.calls[c], ch);
    if c in s'.calls && s'.calls[c].Saving? {
      AllocationFulfils(cfg, call.req, s'.calls[c].meta, call.listed);
    }
    FulfilKeeps(cfg, s, s', c);
  }

  lemma WriteFulfils(cfg: Config, s: State, c: CallId, ch: Choice)
    requires WellFormed(cfg.alloc.cidr) && AllFulfil(cfg, s) && IdsFresh(s) && Writes(s, c, ch)
    ensures AllFulfil(cfg, StepSaving(s, c, s.calls[c], ch))
  {
    var call, s' := s.calls[c], StepSaving(s, c, s.calls[c], ch);
    assert CallFulfils(cfg, s, call);
    forall d | d in s'.calls ensures CallFulfils(cfg, s', s'.calls[d]) {
      if d != c { assert CallFulfils(cfg, s, s.calls[d]); }
    }
  }

  lemma SavingFulfils(cfg: Config, s: State, c: CallId, ch: Choice)
    requires WellFormed(cfg.alloc.cidr) && AllFulfil(cfg, s) && IdsFresh(s) && c in s.calls && s.calls[c].Saving?
    ensures AllFulfil(cfg, StepSaving(s, c, s.calls[c], ch))
  {
    assert CallFulfils(cfg, s, s.calls[c]);
    if Writes(s, c, ch) { WriteFulfils(cfg, s, c, ch); } else { FulfilKeeps(cfg, s, StepSaving(s, c, s.calls[c], ch), c); }
  }

  lemma LifecycleFulfils(cfg: Config, s: State, c: CallId, ch: Choice)
    requires WellFormed(cfg.alloc.cidr) && AllFulfil(cfg, s) && c in s.calls && s.calls[c].Lifecycle?
    ensures AllFulfil(cfg, StepCall(cfg, s, c, ch))
  {
    var s' := StepCall(cfg, s, c, ch);
    QuietStep(cfg, s, c, ch);
    if s.calls[c].pc.Critical? {
      CriticalShape(cfg, s, c, s.calls[c], ch);
    } else {
      OtherFits(cfg, s, c, ch);
      StaysLifecycle(cfg, s, c, ch);
    }
    FulfilKeeps(cfg, s, s', c);
  }

  lemma StaysLifecycle(cfg: Config, s: State, c: CallId, ch: Choice)
    requires WellFormed(cfg.alloc.cidr) && c in s.calls && s.calls[c].Lifecycle? && !s.calls[c].pc.Critical?
    ensures var s' := StepCall(cfg, s, c, ch); c in s'.calls ==> s'.calls[c].Lifecycle?
  {
  }

  lemma FulfilStep(cfg: Config, s: State, c: CallId, ch: Choice)
    requires WellFormed(cfg.alloc.cidr) && AllFulfil(cfg, s) && IdsFresh(s) && c in s.calls
    ensures AllFulfil(cfg, StepCall(cfg, s, c, ch))
  {
    match s.calls[c]
    case Listing(req) => FulfilKeeps(cfg, s, StepListing(s, c, req, ch), c);
    case Reading(_, todo, _) =>
      if todo != {} { FulfilKeeps(cfg, s, StepReadOne(s, c, s.calls[c], ch), c); } else { AllocateFulfils(cfg, s, c, ch); }
    case Saving(_, _, _, _) => SavingFulfils(cfg, s, c, ch);
    case Finishing(_, _) => FulfilKeeps(cfg, s, StepFinishing(s, c, s.calls[c], ch), c);
    case Lifecycle(_, _, _) => LifecycleFulfils(cfg, s, c, ch);
  }

  lemma FulfilApply(cfg: Config, s: State, a: Action)
    requires WellFormed(cfg.alloc.cidr) && AllFulfil(cfg, s) && IdsFresh(s)
    ensures AllFulfil(cfg, Apply(cfg, s, a))
  {
    match a
    case BeginCreate(c, _) => if c !in s.calls { FulfilKeeps(cfg, s, Apply(cfg, s, a), c); }
    case BeginLifecycle(c, _, _) => if c !in s.calls { FulfilKeeps(cfg, s, Apply(cfg, s, a), c); }
    case Advance(c, ch) => if c in s.calls { FulfilStep(cfg, s, c, ch); }
    case UnitExits(_) => UnitsFulfil(cfg, s, Apply(cfg, s, a));
    case UnitRestarts(_) => UnitsFulfil(cfg, s, Apply(cfg, s, a));
    case Crash =>
  }

  lemma UnitsFulfil(cfg: Config, s: State, s': State)
    requires WellFormed(cfg.alloc.cidr) && AllFulfil(cfg, s) && s' == s.(units := s'.units)
    ensures AllFulfil(cfg, s')
  {
    forall d | d in s'.calls ensures CallFulfils(cfg, s', s'.calls[d]) { assert CallFulfils(cfg, s, s.calls[d]); }
  }

  lemma {:induction false} FulfilRun(cfg: Config, s: State, actions: seq<Action>)
    requires WellFormed(cfg.alloc.cidr) && AllFulfil(cfg, s) && IdsFresh(s)
    ensures AllFulfil(cfg, Run(cfg, s, actions))
    decreases |actions|
  {
    if actions != [] {
      FulfilApply(cfg, s, actions[0]);
      IdsApply(cfg, s, actions[0]);
      FulfilRun(cfg, Apply(cfg, s, actions[0]), actions[1..]);
    }
  }

  /**
   In every run: the record a create is about to save, and the one it has saved, carries the request's
   tags and metadata, ports that answer the request's and the lowest free address, all free of the
   VMs the create listed.
   */
  lemma RecordAsRequested(cfg: Config, actions: seq<Action>, c: CallId)
    requires WellFormed(cfg.alloc.cidr)
    ensures var s := Run(cfg, Init(), actions); c in s.calls ==>
      && (s.calls[c].Saving? ==> Fulfils(cfg, s.calls[c].req, s.calls[c].meta, s.calls[c].listed))
      && (s.calls[c].Finishing? && s.calls[c].id in s.metas ==> Granted(cfg, s.calls[c].req, s.metas[s.calls[c].id]))
  {
    FulfilRun(cfg, Init(), actions);
    var s := Run(cfg, Init(), actions);
    if c in s.calls { assert CallFulfils(cfg, s, s.calls[c]); }
  }

  // ----- a create alone

  ghost function Creating(s: State, c: CallId, call: Call): State {
    s.(calls := s.calls[c := call])
  }

  /** The records a create has read after the directories `order`. */
  function ListedIn(metas: map<Id, VmMeta>, order: seq<Id>): seq<VmMeta> {
    if order == [] then []
    else
      var id, front := order[|order| - 1], ListedIn(metas, order[..|order| - 1]);
      if id in metas then front + [metas[id]] else front
  }

  /** The order names every directory, once. */
  ghost predicate Enumerates(order: seq<Id>, dirs: set<Id>) {
    (forall id :: id in order <==> id in dirs) && NoDuplicates(order)
  }

  lemma {:induction false} ListedExactly(metas: map<Id, VmMeta>, order: seq<Id>)
    ensures forall m :: m in ListedIn(metas, order) <==> exists id :: id in order && id in metas && metas[id] == m
  {
    if order != [] {
      var front, last := order[..|order| - 1], order[|order| - 1];
      ListedExactly(metas, front);
      assert order == front + [last];
    }
  }

  function ReadRun(c: CallId, order: seq<Id>): seq<Action> {
    seq(|order|, i requires 0 <= i < |order| => Advance(c, Go(order[i])))
  }

  ghost function Left(order: seq<Id>, n: nat): set<Id>
    requires n <= |order|
  {
    set id | id in order[n..]
  }

  lemma ReadsOne(cfg: Config, s: State, c: CallId, req: Request, order: seq<Id>, n: nat)
    requires WellFormed(cfg.alloc.cidr) && n < |order| && NoDuplicates(order)
    ensures Apply(cfg, Creating(s, c, Reading(req, Left(order, n), ListedIn(s.metas, order[..n]))), Advance(c, Go(order[n]))) ==
      Creating(s, c, Reading(req, Left(order, n + 1), ListedIn(s.metas, order[..n + 1])))
  {
    assert order[n..] == [order[n]] + order[n + 1..];
    assert order[n] !in order[n + 1..];
    assert Left(order, n) - {order[n]} == Left(order, n + 1);
    assert order[n] in Left(order, n);
    assert order[..n + 1][..n] == order[..n] && order[..n + 1][n] == order[n];
  }

  lemma {:induction false} Reads(cfg: Config, s: State, c: CallId, req: Request, order: seq<Id>, n: nat)
    requires WellFormed(cfg.alloc.cidr) && n <= |order| && NoDuplicates(order)
    ensures Run(cfg, Creating(s, c, Reading(req, Left(order, 0), [])), ReadRun(c, order)[..n]) ==
      Creating(s, c, Reading(req, Left(order, n), ListedIn(s.metas, order[..n])))
  {
    var run, from := ReadRun(c, order), Creating(s, c, Reading(req, Left(order, 0), []));
    if n > 0 {
      Reads(cfg, s, c, req, order, n - 1);
      assert run[..n] == run[..n - 1] + [run[n - 1]];
      RunConcat(cfg, from, run[..n - 1], [run[n - 1]]);
      ReadsOne(cfg, s, c, req, order, n - 1);
      RunOne(cfg, Run(cfg, from, run[..n - 1]), [run[n - 1]]);
    }
  }

  function ListRun(c: CallId, req: Request, order: seq<Id>): seq<Action> {
    [BeginCreate(c, req), Advance(c, Go(""))] + ReadRun(c, order)
  }

  lemma Lists(cfg: Config, s: State, c: CallId, req: Request, order: seq<Id>)
    requires WellFormed(cfg.alloc.cidr) && c !in s.calls && Enumerates(order, s.dirs)
    ensures Run(cfg, s, ListRun(c, req, order)) == Creating(s, c, Reading(req, {}, ListedIn(s.metas, order)))
  {
    var begin := [BeginCreate(c, req), Advance(c, Go(""))];
    RunConcat(cfg, s, begin, ReadRun(c, order));
    RunTwo(cfg, s, begin);
    assert Apply(cfg, s, begin[0]) == Creating(s, c, Listing(req));
    assert Apply(cfg, Creating(s, c, Listing(req)), begin[1]) == Creating(s, c, Reading(req, s.dirs, []));
    assert order[0..] == order && Left(order, 0) == s.dirs;
    Reads(cfg, s, c, req, order, |order|);
    assert ReadRun(c, order)[..|order|] == ReadRun(c, order) && order[..|order|] == order && Left(order, |order|) == {};
  }

  /** The step that allocates and draws the id. */
  function Draw(c: CallId, u: Id, time: int): Action {
    Advance(c, Choice(false, false, u, time, false))
  }

  /** The record and what goes with it, as a create saves it. */
  ghost function Saved(s: State, meta: VmMeta): State {
    s.(dirs := s.dirs + {meta.id}, metas := s.metas[meta.id := meta], issued := s.issued + {meta.id}, saved := s.saved + {meta.id})
  }

  lemma Saves(cfg: Config, s: State, c: CallId, req: Request, meta: VmMeta, listed: seq<VmMeta>)
    requires WellFormed(cfg.alloc.cidr)
    ensures Run(cfg, Creating(s, c, Saving(req, meta, listed, false)).(issued := s.issued + {meta.id}), Steps(2, c)) ==
      Creating(Saved(s, meta), c, Finishing(req, meta.id))
  {
    var from := Creating(s, c, Saving(req, meta, listed, false)).(issued := s.issued + {meta.id});
    var made := Creating(s, c, Saving(req, meta, listed, true)).(issued := s.issued + {meta.id}, dirs := s.dirs + {meta.id});
    RunTwo(cfg, from, Steps(2, c));
    assert Apply(cfg, from, Advance(c, Go(""))) == made;
    SavesRecord(cfg, s, c, req, meta, listed, made);
  }

  lemma SavesRecord(cfg: Config, s: State, c: CallId, req: Request, meta: VmMeta, listed: seq<VmMeta>, made: State)
    requires WellFormed(cfg.alloc.cidr)
    requires made == Creating(s, c, Saving(req, meta, listed, true)).(issued := s.issued + {meta.id}, dirs := s.dirs + {meta.id})
    ensures Apply(cfg, made, Advance(c, Go(""))) == Creating(Saved(s, meta), c, Finishing(req, meta.id))
  {
  }

  function AfterDraw(c: CallId, autoStart: bool): seq<Action> {
    Steps(2, c) + (Steps(1, c) + Rest(c, autoStart))
  }

  /** The whole create: list, read in that order, draw, save, finish, and start if asked to. */
  function CreateAlone(c: CallId, req: Request, order: seq<Id>, u: Id, time: int): seq<Action> {
    ListRun(c, req, order) + ([Draw(c, u, time)] + AfterDraw(c, req.autoStart))
  }

  ghost function Ended(s: State, meta: VmMeta, autoStart: bool): State {
    if autoStart then WithLockFile(Saved(s, meta), meta.id).(units := s.units + {meta.id}) else Saved(s, meta)
  }

  /** Where a create ends, given what the allocator answered. */
  ghost function CreateEnd(s: State, got: Result<(string, seq<PortBinding>), Allocator.AllocError>, req: Request, u: Id, time: int): State {
    if got.Err? then s else Ended(s, VmMeta(u, time, got.value.0, got.value.1, req.tags, req.metadata), req.autoStart)
  }

  lemma FinishStep(cfg: Config, s: State, c: CallId, req: Request, u: Id)
    requires WellFormed(cfg.alloc.cidr) && c !in s.calls && u in s.dirs
    ensures Apply(cfg, Creating(s, c, Finishing(req, u)), Advance(c, Go(""))) ==
      if req.autoStart then Doing(s, c, Start, u, CheckExists) else s
  {
    assert s.dirs + {u} == s.dirs;
    assert s.calls[c := Finishing(req, u)] - {c} == s.calls;
  }

  lemma StartsAlone(cfg: Config, s: State, c: CallId, u: Id)
    requires WellFormed(cfg.alloc.cidr) && c !in s.calls && u in s.metas && LockFile(s, u) !in s.holders
    ensures Run(cfg, Doing(s, c, Start, u, CheckExists), Steps(3, c) + Steps(2, c)) == WithLockFile(s, u).(units := s.units + {u})
  {
    RunConcat(cfg, Doing(s, c, Start, u, CheckExists), Steps(3, c), Steps(2, c));
    Enters(cfg, s, c, Start, u);
    Changes(cfg, Locked(s, c, u), c, LockFile(s, u), Start, u);
    assert s.holders[LockFile(s, u) := c] - {LockFile(s, u)} == s.holders;
  }

  function Rest(c: CallId, autoStart: bool): seq<Action> {
    if autoStart then Steps(3, c) + Steps(2, c) else []
  }

  lemma FinishesAlone(cfg: Config, s: State, c: CallId, req: Request, meta: VmMeta)
    requires WellFormed(cfg.alloc.cidr) && c !in s.calls && LockFile(s, meta.id) !in s.holders
    ensures Run(cfg, Creating(Saved(s, meta), c, Finishing(req, meta.id)), Steps(1, c) + Rest(c, req.autoStart)) ==
      Ended(s, meta, req.autoStart)
  {
    var u, t := meta.id, Saved(s, meta);
    RunConcat(cfg, Creating(t, c, Finishing(req, u)), Steps(1, c), Rest(c, req.autoStart));
    RunOne(cfg, Creating(t, c, Finishing(req, u)), Steps(1, c));
    FinishStep(cfg, t, c, req, u);
    if req.autoStart { StartsAlone(cfg, t, c, u); }
  }

  lemma FreshIsFree(s: State, u: Id)
    requires Reachable(s) && u !in s.issued
    ensures LockFile(s, u) !in s.holders && u !in s.units && u !in s.metas
  {
    if LockFile(s, u) in s.holders { HeldFromInside(s, u); }
  }

  lemma {:induction false} GoneStays(cfg: Config, s: State, c: CallId, run: seq<Action>)
    requires WellFormed(cfg.alloc.cidr) && c !in s.calls && forall i :: 0 <= i < |run| ==> run[i].Advance? && run[i].c == c
    ensures Run(cfg, s, run) == s
    decreases |run|
  {
    if run != [] {
      assert Apply(cfg, s, run[0]) == s;
      GoneStays(cfg, s, c, run[1..]);
    }
  }

  /**
   From every reachable state: a create alone and without faults ends with its VM stored, with the
   request's tags and metadata and what the allocator gives for the records listed, and active exactly
   when the request says to start it; or, when the allocator has nothing to give, it changes nothing.
   */
  lemma CreateOutcome(cfg: Config, actions: seq<Action>, c: CallId, req: Request, order: seq<Id>, u: Id, time: int)
    requires LocksKept(cfg) && Store.IsUuid(u)
    ensures var s := Run(cfg, Init(), actions);
      c !in s.calls && u !in s.issued && Enumerates(order, s.dirs) ==>
        var t, got := Run(cfg, s, CreateAlone(c, req, order, u, time)), Allocator.Allocation(cfg.alloc, ListedIn(s.metas, order), req.ports);
        && t == CreateEnd(s, got, req, u, time) && u !in s.metas
        && (forall id :: id in s.metas ==> s.metas[id] in ListedIn(s.metas, order))
        && (got.Ok? ==> u in t.metas && (u in t.units <==> req.autoStart))
  {
    var s := Run(cfg, Init(), actions);
    if c !in s.calls && u !in s.issued && Enumerates(order, s.dirs) {
      ReachableRun(cfg, actions);
      FreshIsFree(s, u);
      Lists(cfg, s, c, req, order);
      ListedExactly(s.metas, order);
      CreateEnds(cfg, s, c, req, order, u, time);
    }
  }

  lemma CreateEnds(cfg: Config, s: State, c: CallId, req: Request, order: seq<Id>, u: Id, time: int)
    requires WellFormed(cfg.alloc.cidr) && Store.IsUuid(u) && c !in s.calls && u !in s.issued && LockFile(s, u) !in s.holders
    requires Run(cfg, s, ListRun(c, req, order)) == Creating(s, c, Reading(req, {}, ListedIn(s.metas, order)))
    ensures Run(cfg, s, CreateAlone(c, req, order, u, time)) ==
      CreateEnd(s, Allocator.Allocation(cfg.alloc, ListedIn(s.metas, order), req.ports), req, u, time)
  {
    var listed, after := ListedIn(s.metas, order), AfterDraw(c, req.autoStart);
    var from := Creating(s, c, Reading(req, {}, listed));
    RunConcat(cfg, s, ListRun(c, req, order), [Draw(c, u, time)] + after);
    RunConcat(cfg, from, [Draw(c, u, time)], after);
    RunOne(cfg, from, [Draw(c, u, time)]);
    match Allocator.Allocation(cfg.alloc, listed, req.ports)
    case Err(_) =>
      DrawFails(cfg, s, c, req, listed, u, time);
      GoneStays(cfg, s, c, after);
    case Ok(got) =>
      var meta := VmMeta(u, time, got.0, got.1, req.tags, req.metadata);
      DrawWorks(cfg, s, c, req, listed, meta);
      RunConcat(cfg, Apply(cfg, from, Draw(c, u, time)), Steps(2, c), Steps(1, c) + Rest(c, req.autoStart));
      Saves(cfg, s, c, req, meta, listed);
      FinishesAlone(cfg, s, c, req, meta);
  }

  lemma DrawFails(cfg: Config, s: State, c: CallId, req: Request, listed: seq<VmMeta>, u: Id, time: int)
    requires WellFormed(cfg.alloc.cidr) && c !in s.calls && Allocator.Allocation(cfg.alloc, listed, req.ports).Err?
    ensures Apply(cfg, Creating(s, c, Reading(req, {}, listed)), Draw(c, u, time)) == s
  {
    assert s.calls[c := Reading(req, {}, listed)] - {c} == s.calls;
  }

  lemma DrawWorks(cfg: Config, s: State, c: CallId, req: Request, listed: seq<VmMeta>, meta: VmMeta)
    requires WellFormed(cfg.alloc.cidr) && Store.IsUuid(meta.id) && meta.id !in s.issued
    requires Allocator.Allocation(cfg.alloc, listed, req.ports) == Ok((meta.guestIp, meta.ports))
    requires meta.tags == req.tags && meta.metadata == req.metadata
    ensures Apply(cfg, Creating(s, c, Reading(req, {}, listed)), Draw(c, meta.id, meta.createdAt)) ==
      Creating(s, c, Saving(req, meta, listed, false)).(issued := s.issued + {meta.id})
  {
  }
}
