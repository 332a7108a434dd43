/**
 internal/forwarder/resolver.go: the cached index under concurrent lookups.  A lookup checks the
 cache under the read lock; when it is stale it takes the write lock, checks again, reads the
 directory and installs a new index.
 */
module ResolverCache {
  import opened Text
  import opened Sorting
  import opened Model
  import opened FirstWins
  import opened Resolver

  datatype Cache = Cache(until: int, index: map<string, VmMeta>, ordered: seq<VmMeta>)

  /** Usable without reading the directory: not expired, and not empty. */
  predicate Fresh(c: Cache, now: int) {
    now < c.until && |c.index| > 0
  }

  /** What a refresh at `now` installs. */
  function Installed(listing: seq<VmMeta>, now: int, ttl: int): Cache {
    Cache(now + ttl, Index(InOrder(listing)), InOrder(listing))
  }

  /** The three fields the write lock guards. */
  class Cell {
    var until: int
    var index: map<string, VmMeta>
    var ordered: seq<VmMeta>

    function Contents(): Cache
      reads this
    {
      Cache(until, index, ordered)
    }

    constructor (never: int)
      ensures Contents() == Cache(never, map[], [])
    {
      until, index, ordered := never, map[], [];
    }

    /**
     refreshCacheIfNeeded by a single caller: the clock is read at the first check, at the second,
     and when the new index is installed; `listing` is the directory read, or a failure.
     */
    method RefreshIfNeeded(ttl: int, checkedAt: int, recheckedAt: int, installedAt: int, listing: Option<seq<VmMeta>>)
      returns (ok: bool)
      modifies this
      ensures ok <==> old(Fresh(Contents(), checkedAt)) || old(Fresh(Contents(), recheckedAt)) || listing.Some?
      ensures Contents() ==
        if old(Fresh(Contents(), checkedAt)) || old(Fresh(Contents(), recheckedAt)) || listing.None? then old(Contents())
        else Installed(listing.value, installedAt, ttl)
    {
      if checkedAt < until && |index| > 0 { return true; }
      if recheckedAt < until && |index| > 0 { return true; }
      if listing.None? { return false; }
      var metas := Sort(MetaLess, listing.value);
      var next := BuildIndex(metas);
      index := next;
      ordered := metas;
      until := installedAt + ttl;
      return true;
    }
  }

  // ----- concurrent lookups

  type CallId = nat

  /** When something happened: by the clock, and which step of the run it was. */
  datatype Moment = Moment(time: int, step: nat)

  /** Where a lookup of `alias` stands. */
  datatype Call =
    | Begun(alias: string)
    | Waiting(alias: string, check: Moment)
    | Rechecking(alias: string, check: Moment)
    | Reading(alias: string, check: Moment)
    | Installing(alias: string, check: Moment, listing: seq<VmMeta>, read: Moment)
    | Ready(alias: string, check: Moment)

  /** An answer given, with the cache it came from, when that was installed, and when its listing was read. */
  datatype Answer = Answer(alias: string, check: Moment, result: Option<VmMeta>, cache: Cache, installedAt: int, read: Moment)

  datatype State = State(
    clock: int,
    step: nat,
    cache: Cache,
    installedAt: int,
    read: Moment,
    writer: Option<CallId>,
    calls: map<CallId, Call>,
    answers: seq<Answer>)

  datatype Action =
    | Begin(c: CallId, alias: string)
    | Step(c: CallId, listing: Option<seq<VmMeta>>)
    | Tick(d: nat)

  /** A new resolver: nothing cached, as if installed one lifetime before the clock starts. */
  function Init(start: int, ttl: int): State {
    State(start, 1, Cache(start, map[], []), start - ttl, Moment(start - ttl, 0), None, map[], [])
  }

  function Goto(s: State, c: CallId, call: Call): State {
    s.(calls := s.calls[c := call])
  }

  function Move(ttl: int, s: State, c: CallId, call: Call, listing: Option<seq<VmMeta>>): State {
    match call
    case Begun(alias) =>
      if s.writer.Some? then s
      else
        var check := Moment(s.clock, s.step);
        Goto(s, c, if Fresh(s.cache, s.clock) then Ready(alias, check) else Waiting(alias, check))
    case Waiting(alias, check) =>
      if s.writer.Some? then s else Goto(s, c, Rechecking(alias, check)).(writer := Some(c))
    case Rechecking(alias, check) =>
      if Fresh(s.cache, s.clock) then Goto(s, c, Ready(alias, check)).(writer := None)
      else Goto(s, c, Reading(alias, check))
    case Reading(alias, check) =>
      if listing.None? then s.(calls := s.calls - {c}, writer := None)
      else Goto(s, c, Installing(alias, check, listing.value, Moment(s.clock, s.step)))
    case Installing(alias, check, metas, read) =>
      Goto(s, c, Ready(alias, check))
        .(cache := Installed(metas, s.clock, ttl), installedAt := s.clock, read := read, writer := None)
    case Ready(alias, check) =>
      if s.writer.Some? then s
      else
        var answer := Answer(alias, check, Lookup(s.cache.index, alias), s.cache, s.installedAt, s.read);
        s.(calls := s.calls - {c}, answers := s.answers + [answer])
  }

  /** A step of a lookup; steps are numbered. */
  function StepCall(ttl: int, s: State, c: CallId, call: Call, listing: Option<seq<VmMeta>>): State {
    Move(ttl, s, c, call, listing).(step := s.step + 1)
  }

  function Apply(ttl: int, s: State, a: Action): State {
    match a
    case Begin(c, alias) => if c in s.calls then s else Goto(s, c, Begun(alias))
    case Step(c, listing) => if c in s.calls then StepCall(ttl, s, c, s.calls[c], listing) else s
    case Tick(d) => s.(clock := s.clock + d)
  }

  function Run(ttl: int, s: State, actions: seq<Action>): State
    decreases |actions|
  {
    if actions == [] then s else Run(ttl, Apply(ttl, s, actions[0]), actions[1..])
  }

  /** The index and the ordered list come from one refresh. */
  ghost predicate Coherent(c: Cache) {
    c.index == Index(c.ordered) && Sorted(MetaLess, c.ordered)
  }

  /**
   The cache is young enough for a lookup with that check, counting from its installation; an empty
   one is from a listing that was read after the check.
   */
  ghost predicate RecentEnough(ttl: int, c: Cache, installedAt: int, read: Moment, check: Moment) {
    && installedAt > check.time - ttl && read.time <= installedAt
    && (|c.index| == 0 ==> check.step < read.step && check.time <= read.time)
  }

  ghost predicate AnswerOk(ttl: int, a: Answer) {
    && Coherent(a.cache) && a.result == FirstWith(a.cache.ordered, a.alias)
    && RecentEnough(ttl, a.cache, a.installedAt, a.read, a.check)
  }

  predicate HoldsWriteLock(call: Call) {
    call.Rechecking? || call.Reading? || call.Installing?
  }

  /** Later than every check made so far: nobody checks while the write lock is held. */
  ghost predicate AfterChecks(s: State, read: Moment) {
    forall d :: d in s.calls && !s.calls[d].Begun? ==> s.calls[d].check.step < read.step && s.calls[d].check.time <= read.time
  }

  ghost predicate CallOk(ttl: int, s: State, c: CallId, call: Call) {
    && (HoldsWriteLock(call) ==> s.writer == Some(c))
    && (!call.Begun? ==> call.check.time <= s.clock && call.check.step < s.step)
    && (call.Ready? ==> RecentEnough(ttl, s.cache, s.installedAt, s.read, call.check))
    && (call.Installing? ==> call.read.time <= s.clock && AfterChecks(s, call.read))
    && (call.Reading? || call.Installing? ==> !Fresh(s.cache, s.clock))
  }

  ghost predicate Inv(ttl: int, s: State) {
    && Coherent(s.cache) && s.cache.until == s.installedAt + ttl && s.read.time <= s.installedAt <= s.clock
    && (s.writer.Some? ==> s.writer.value in s.calls && HoldsWriteLock(s.calls[s.writer.value]))
    && (forall c :: c in s.calls ==> CallOk(ttl, s, c, s.calls[c]))
    && (forall i :: 0 <= i < |s.answers| ==> AnswerOk(ttl, s.answers[i]))
  }

  lemma InstalledCoherent(listing: seq<VmMeta>, now: int, ttl: int)
    ensures Coherent(Installed(listing, now, ttl))
  {
    MetaOrder();
    SortSorts(MetaLess, listing);
  }

  /** A step of one call leaves the others in order: the lock stays with its holder, a new cache is as young as can be. */
  lemma OthersKeep(ttl: int, s: State, s': State, c: CallId)
    requires ttl > 0 && Inv(ttl, s) && c in s.calls && s'.clock == s.clock
    requires forall d :: d in s'.calls && d != c ==> d in s.calls && s'.calls[d] == s.calls[d]
    requires s'.writer == s.writer || s.writer.None? || s.writer == Some(c)
    requires s'.step == s.step + 1
    requires c in s'.calls && !s'.calls[c].Begun? ==>
      s.writer.None? || (!s.calls[c].Begun? && s'.calls[c].check == s.calls[c].check)
    requires
      || (s'.cache == s.cache && s'.installedAt == s.installedAt && s'.read == s.read)
      || (s.writer == Some(c) && s'.installedAt == s.clock && s'.read.time <= s.clock && AfterChecks(s, s'.read))
    ensures forall d :: d in s'.calls && d != c ==> CallOk(ttl, s', d, s'.calls[d])
  {
    forall d | d in s'.calls && d != c ensures CallOk(ttl, s', d, s'.calls[d]) {
      assert CallOk(ttl, s, d, s.calls[d]);
    }
  }

  lemma InstallKeeps(ttl: int, s: State, c: CallId)
    requires ttl > 0 && Inv(ttl, s) && c in s.calls && s.calls[c].Installing?
    ensures Inv(ttl, StepCall(ttl, s, c, s.calls[c], None))
  {
    var call, s' := s.calls[c], StepCall(ttl, s, c, s.calls[c], None);
    assert CallOk(ttl, s, c, call);
    InstalledCoherent(call.listing, s.clock, ttl);
    OthersKeep(ttl, s, s', c);
    assert CallOk(ttl, s', c, s'.calls[c]);
  }

  lemma AnswerKeeps(ttl: int, s: State, c: CallId)
    requires ttl > 0 && Inv(ttl, s) && c in s.calls && s.calls[c].Ready?
    ensures Inv(ttl, StepCall(ttl, s, c, s.calls[c], None))
  {
    var call, s' := s.calls[c], StepCall(ttl, s, c, s.calls[c], None);
    assert CallOk(ttl, s, c, call);
    IndexScans(s.cache.ordered, call.alias);
    OthersKeep(ttl, s, s', c);
  }

  lemma CheckKeeps(ttl: int, s: State, c: CallId)
    requires ttl > 0 && Inv(ttl, s) && c in s.calls && s.calls[c].Begun?
    ensures Inv(ttl, StepCall(ttl, s, c, s.calls[c], None))
  {
    var s' := StepCall(ttl, s, c, s.calls[c], None);
    OthersKeep(ttl, s, s', c);
    assert CallOk(ttl, s', c, s'.calls[c]);
  }

  lemma LockKeeps(ttl: int, s: State, c: CallId)
    requires ttl > 0 && Inv(ttl, s) && c in s.calls && (s.calls[c].Waiting? || s.calls[c].Rechecking?)
    ensures Inv(ttl, StepCall(ttl, s, c, s.calls[c], None))
  {
    assert CallOk(ttl, s, c, s.calls[c]);
    var s' := StepCall(ttl, s, c, s.calls[c], None);
    OthersKeep(ttl, s, s', c);
    assert CallOk(ttl, s', c, s'.calls[c]);
  }

  /** While one call reads, no other has checked since it took the lock. */
  lemma ReadKeeps(ttl: int, s: State, c: CallId, listing: Option<seq<VmMeta>>)
    requires ttl > 0 && Inv(ttl, s) && c in s.calls && s.calls[c].Reading?
    ensures Inv(ttl, StepCall(ttl, s, c, s.calls[c], listing))
  {
    var call, s' := s.calls[c], StepCall(ttl, s, c, s.calls[c], listing);
    assert CallOk(ttl, s, c, call);
    OthersKeep(ttl, s, s', c);
    if c in s'.calls {
      forall d | d in s'.calls && !s'.calls[d].Begun?
        ensures s'.calls[d].check.step < s.step && s'.calls[d].check.time <= s.clock
      {
        assert CallOk(ttl, s, d, s.calls[d]);
      }
    }
  }

  lemma StepKeeps(ttl: int, s: State, c: CallId, listing: Option<seq<VmMeta>>)
    requires ttl > 0 && Inv(ttl, s) && c in s.calls
    ensures Inv(ttl, StepCall(ttl, s, c, s.calls[c], listing))
  {
    match s.calls[c]
    case Begun(_) => CheckKeeps(ttl, s, c);
    case Waiting(_, _) => LockKeeps(ttl, s, c);
    case Rechecking(_, _) => LockKeeps(ttl, s, c);
    case Reading(_, _) => ReadKeeps(ttl, s, c, listing);
    case Installing(_, _, _, _) => InstallKeeps(ttl, s, c);
    case Ready(_, _) => AnswerKeeps(ttl, s, c);
  }

  lemma ApplyKeeps(ttl: int, s: State, a: Action)
    requires ttl > 0 && Inv(ttl, s)
    ensures Inv(ttl, Apply(ttl, s, a))
  {
    match a
    case Step(c, listing) => if c in s.calls { StepKeeps(ttl, s, c, listing); }
    case _ =>
      var s' := Apply(ttl, s, a);
      forall d | d in s'.calls ensures CallOk(ttl, s', d, s'.calls[d]) {
        if d in s.calls { assert CallOk(ttl, s, d, s.calls[d]); }
      }
  }

  lemma {:induction false} RunKeeps(ttl: int, s: State, actions: seq<Action>)
    requires ttl > 0 && Inv(ttl, s)
    ensures Inv(ttl, Run(ttl, s, actions))
    decreases |actions|
  {
    if actions != [] {
      ApplyKeeps(ttl, s, actions[0]);
      RunKeeps(ttl, Apply(ttl, s, actions[0]), actions[1..]);
    }
  }

  lemma InitHolds(start: int, ttl: int)
    requires ttl > 0
    ensures Inv(ttl, Init(start, ttl))
  {
  }

  /**
   In every run, every answer is the linear scan of a list installed later than the lookup's check
   less the lifetime; and an answer from an empty index is from a listing read after that check.
   */
  lemma AnswersAreRecent(start: int, ttl: int, actions: seq<Action>)
    requires ttl > 0
    ensures forall i :: 0 <= i < |Run(ttl, Init(start, ttl), actions).answers| ==>
      AnswerOk(ttl, Run(ttl, Init(start, ttl), actions).answers[i])
  {
    InitHolds(start, ttl);
    RunKeeps(ttl, Init(start, ttl), actions);
  }

  /**
   In every run, a step changes the cache only by installing a directory reading whole: index and
   list together, no sooner than the lifetime after the one it replaces unless that was empty.
   A failed reading changes nothing.
   */
  lemma RefreshesWhole(start: int, ttl: int, actions: seq<Action>, a: Action)
    requires ttl > 0
    ensures var s := Run(ttl, Init(start, ttl), actions); var s' := Apply(ttl, s, a);
      && Coherent(s'.cache)
      && (s'.cache != s.cache ==>
            && a.Step? && a.c in s.calls && s.calls[a.c].Installing?
            && s'.cache == Installed(s.calls[a.c].listing, s.clock, ttl)
            && (|s.cache.index| > 0 ==> s.clock >= s.installedAt + ttl))
  {
    InitHolds(start, ttl);
    RunKeeps(ttl, Init(start, ttl), actions);
    var s := Run(ttl, Init(start, ttl), actions);
    ApplyKeeps(ttl, s, a);
    if a.Step? && a.c in s.calls { assert CallOk(ttl, s, a.c, s.calls[a.c]); }
  }

  /** In every run, at most one lookup is refreshing. */
  lemma OneRefreshAtATime(start: int, ttl: int, actions: seq<Action>, c: CallId, d: CallId)
    requires ttl > 0
    ensures var s := Run(ttl, Init(start, ttl), actions);
      c in s.calls && d in s.calls && HoldsWriteLock(s.calls[c]) && HoldsWriteLock(s.calls[d]) ==> c == d
  {
    InitHolds(start, ttl);
    RunKeeps(ttl, Init(start, ttl), actions);
    var s := Run(ttl, Init(start, ttl), actions);
    if c in s.calls && d in s.calls {
      assert CallOk(ttl, s, c, s.calls[c]) && CallOk(ttl, s, d, s.calls[d]);
    }
  }

  // ----- a lookup alone

  /** A lookup from its begin to its answer; when it reads the directory, it gets `listing`. */
  function LookupRun(c: CallId, alias: string, listing: Option<seq<VmMeta>>): seq<Action> {
    [Begin(c, alias)] + Turns(6, c, listing)
  }

  function Turns(n: nat, c: CallId, listing: Option<seq<VmMeta>>): seq<Action> {
    seq(n, i => Step(c, listing))
  }

  /** Steps of a lookup that is over do nothing. */
  lemma {:induction false} TurnsOver(ttl: int, s: State, n: nat, c: CallId, listing: Option<seq<VmMeta>>)
    requires c !in s.calls
    ensures Run(ttl, s, Turns(n, c, listing)) == s
    decreases n
  {
    if n > 0 {
      assert Turns(n, c, listing)[1..] == Turns(n - 1, c, listing);
      TurnsOver(ttl, s, n - 1, c, listing);
    }
  }

  lemma OneTurn(ttl: int, s: State, n: nat, c: CallId, listing: Option<seq<VmMeta>>)
    requires n > 0 && c in s.calls
    ensures Run(ttl, s, Turns(n, c, listing)) == Run(ttl, StepCall(ttl, s, c, s.calls[c], listing), Turns(n - 1, c, listing))
  {
    assert Turns(n, c, listing)[1..] == Turns(n - 1, c, listing);
  }

  /** Call `c` stands at `call`, after `k` more steps of the run. */
  ghost function After(s: State, k: nat, c: CallId, call: Call): State {
    s.(step := s.step + k, calls := s.calls[c := call])
  }

  lemma LookupFresh(ttl: int, s: State, c: CallId, alias: string, listing: Option<seq<VmMeta>>)
    requires s.writer.None? && c !in s.calls && Fresh(s.cache, s.clock)
    ensures Run(ttl, After(s, 0, c, Begun(alias)), Turns(6, c, listing)) ==
      s.(step := s.step + 2, answers := s.answers + [Answer(alias, Moment(s.clock, s.step), Lookup(s.cache.index, alias), s.cache, s.installedAt, s.read)])
  {
    var check := Moment(s.clock, s.step);
    OneTurn(ttl, After(s, 0, c, Begun(alias)), 6, c, listing);
    assert StepCall(ttl, After(s, 0, c, Begun(alias)), c, Begun(alias), listing) == After(s, 1, c, Ready(alias, check));
    OneTurn(ttl, After(s, 1, c, Ready(alias, check)), 5, c, listing);
    var t := StepCall(ttl, After(s, 1, c, Ready(alias, check)), c, Ready(alias, check), listing);
    assert t.calls == s.calls;
    TurnsOver(ttl, t, 4, c, listing);
  }

  /** With a stale cache the lookup comes to its reading. */
  lemma LookupReads(ttl: int, s: State, c: CallId, alias: string, listing: Option<seq<VmMeta>>)
    requires s.writer.None? && c !in s.calls && !Fresh(s.cache, s.clock)
    ensures Run(ttl, After(s, 0, c, Begun(alias)), Turns(6, c, listing)) ==
      Run(ttl, After(s, 3, c, Reading(alias, Moment(s.clock, s.step))).(writer := Some(c)), Turns(3, c, listing))
  {
    var check := Moment(s.clock, s.step);
    OneTurn(ttl, After(s, 0, c, Begun(alias)), 6, c, listing);
    assert StepCall(ttl, After(s, 0, c, Begun(alias)), c, Begun(alias), listing) == After(s, 1, c, Waiting(alias, check));
    OneTurn(ttl, After(s, 1, c, Waiting(alias, check)), 5, c, listing);
    var locked := After(s, 2, c, Rechecking(alias, check)).(writer := Some(c));
    assert StepCall(ttl, After(s, 1, c, Waiting(alias, check)), c, Waiting(alias, check), listing) == locked;
    OneTurn(ttl, locked, 4, c, listing);
    assert StepCall(ttl, locked, c, Rechecking(alias, check), listing) == After(s, 3, c, Reading(alias, check)).(writer := Some(c));
  }

  lemma ReadingFails(ttl: int, s: State, c: CallId, alias: string, check: Moment)
    requires s.writer.None? && c !in s.calls
    ensures Run(ttl, After(s, 3, c, Reading(alias, check)).(writer := Some(c)), Turns(3, c, None)) == s.(step := s.step + 4)
  {
    var from := After(s, 3, c, Reading(alias, check)).(writer := Some(c));
    OneTurn(ttl, from, 3, c, None);
    var t := StepCall(ttl, from, c, Reading(alias, check), None);
    assert t.calls == s.calls && t == s.(step := s.step + 4);
    TurnsOver(ttl, t, 2, c, None);
  }

  /** A reading is installed and answered from. */
  lemma ReadingAnswers(ttl: int, s: State, c: CallId, alias: string, check: Moment, listing: seq<VmMeta>)
    requires s.writer.None? && c !in s.calls
    ensures var t := Run(ttl, After(s, 3, c, Reading(alias, check)).(writer := Some(c)), Turns(3, c, Some(listing)));
      && t.calls == s.calls && t.writer.None? && t.cache == Installed(listing, s.clock, ttl)
      && |t.answers| == |s.answers| + 1 && t.answers[..|s.answers|] == s.answers
      && t.answers[|s.answers|].alias == alias
      && t.answers[|s.answers|].result == Lookup(Index(InOrder(listing)), alias)
  {
    var from := After(s, 3, c, Reading(alias, check)).(writer := Some(c));
    OneTurn(ttl, from, 3, c, Some(listing));
    var got := StepCall(ttl, from, c, Reading(alias, check), Some(listing));
    OneTurn(ttl, got, 2, c, Some(listing));
    var ready := StepCall(ttl, got, c, got.calls[c], Some(listing));
    assert ready.calls[c] == Ready(alias, check) && ready.writer.None?;
    OneTurn(ttl, ready, 1, c, Some(listing));
    var t := StepCall(ttl, ready, c, Ready(alias, check), Some(listing));
    assert t.calls == s.calls;
    TurnsOver(ttl, t, 0, c, Some(listing));
  }

  /** The one answer more that `t` has than `s`. */
  ghost predicate Answered(s: State, t: State, alias: string, result: Option<VmMeta>) {
    && |t.answers| == |s.answers| + 1 && t.answers[..|s.answers|] == s.answers
    && t.answers[|s.answers|].alias == alias && t.answers[|s.answers|].result == result
  }

  /**
   From every state of every run in which nobody refreshes: a lookup alone is answered from the cache
   if that is fresh, and otherwise from a new reading of the directory, which it installs; if the
   reading fails there is no answer and the cache stays.
   */
  lemma LookupOutcome(ttl: int, s: State, c: CallId, alias: string, listing: Option<seq<VmMeta>>)
    requires s.writer.None? && c !in s.calls
    ensures var t := Run(ttl, s, LookupRun(c, alias, listing));
      && t.calls == s.calls && t.writer.None?
      && (Fresh(s.cache, s.clock) ==> Answered(s, t, alias, Lookup(s.cache.index, alias)) && t.cache == s.cache)
      && (!Fresh(s.cache, s.clock) && listing.None? ==> t.answers == s.answers && t.cache == s.cache)
      && (!Fresh(s.cache, s.clock) && listing.Some? ==>
            Answered(s, t, alias, Lookup(Index(InOrder(listing.value)), alias)) && t.cache == Installed(listing.value, s.clock, ttl))
  {
    var run := LookupRun(c, alias, listing);
    assert run[0] == Begin(c, alias) && run[1..] == Turns(6, c, listing);
    assert Apply(ttl, s, run[0]) == After(s, 0, c, Begun(alias));
    if Fresh(s.cache, s.clock) {
      LookupFresh(ttl, s, c, alias, listing);
    } else {
      LookupReads(ttl, s, c, alias, listing);
      if listing.None? {
        ReadingFails(ttl, s, c, alias, Moment(s.clock, s.step));
      } else {
        ReadingAnswers(ttl, s, c, alias, Moment(s.clock, s.step), listing.value);
      }
    }
  }
}
