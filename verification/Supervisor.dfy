/**
 cmd/mergen-init-snapshot/main.go: the init process reaps its children and ends with the exit code
 of the main one.
 */
module Supervisor {
  import opened Text
  import opened Maps

  type Pid = n: int | n > 0 witness 1

  /** A wait status word as the kernel packs it. */
  type Status = n: int | 0 <= n < 0x1_0000

  predicate Exited(w: Status) {
    w % 128 == 0
  }

  predicate Signaled(w: Status) {
    w % 128 != 0 && w % 128 != 127
  }

  /** waitStatusToExitCode */
  function ExitCode(w: Status): int {
    if Exited(w) then w / 256 % 256
    else if Signaled(w) then 128 + w % 128
    else 1
  }

  function ExitedWith(code: int): Status
    requires 0 <= code < 256
  {
    code * 256
  }

  function KilledBy(signal: int, core: bool): Status
    requires 1 <= signal < 127
  {
    signal + (if core then 128 else 0)
  }

  /** A process exits with a code a parent can see, and the two ways to die read back as they should. */
  lemma ExitCodes(w: Status)
    ensures 0 <= ExitCode(w) <= 255
    ensures forall code :: 0 <= code < 256 ==> ExitCode(ExitedWith(code)) == code
    ensures forall signal, core :: 1 <= signal < 127 ==> ExitCode(KilledBy(signal, core)) == 128 + signal
    ensures w % 128 == 127 ==> ExitCode(w) == 1
  {
  }

  // ----- the kernel's side

  /** What may happen while init runs, in the order it happens. */
  datatype Event =
    | Dies(pid: Pid, status: Status)
    | Adopted(pid: Pid)
    | Interrupt
    | Signal(n: int)
    | Tick

  datatype WaitResult = Child(pid: Pid, status: Status) | NoneReady | NoChildren | Interrupted

  /** How a living child is going to end: by its first death in the schedule. */
  function FirstDeath(schedule: seq<Event>, p: Pid): Option<Status> {
    if schedule == [] then None
    else if schedule[0].Dies? && schedule[0].pid == p then Some(schedule[0].status)
    else FirstDeath(schedule[1..], p)
  }

  /**
   The children of init: alive, or dead and not yet reaped.  `schedule` holds what is still to
   happen; a system call lets any number of those events happen first.  A pid belongs to at most one
   child at a time.  `born` and `reaped` count births and reaps for each pid.
   */
  class Kernel {
    var live: set<Pid>
    var zombies: map<Pid, Status>
    var interrupted: bool
    var schedule: seq<Event>
    ghost var born: multiset<Pid>
    ghost var reaped: multiset<Pid>

    /** Every child born is alive, or waiting to be reaped, or was reaped: one of the three, once. */
    ghost predicate Valid()
      reads this
    {
      live !! zombies.Keys && born == multiset(live) + multiset(zombies.Keys) + reaped
    }

    /** `p` is a child that has not been reaped. */
    ghost predicate Holds(p: Pid)
      reads this
    {
      p in live || p in zombies
    }

    /** The status `p` died with, or will die with. */
    ghost function Fate(p: Pid): Option<Status>
      reads this
    {
      if p in zombies then Some(zombies[p]) else FirstDeath(schedule, p)
    }

    /** Work left for a loop that reaps: zombies, those still to come, and a pending interrupt. */
    ghost function Work(): nat
      reads this
    {
      |zombies| + 2 * |schedule| + if interrupted then 1 else 0
    }

    constructor (main: Pid, future: seq<Event>)
      ensures Valid() && live == {main} && zombies == map[] && schedule == future
      ensures born == multiset{main} && reaped == multiset{}
    {
      live, zombies, interrupted, schedule := {main}, map[], false, future;
      born, reaped := multiset{main}, multiset{};
    }

    method Die(p: Pid, w: Status)
      requires Valid()
      modifies this`live, this`zombies
      ensures Valid() && |zombies| <= old(|zombies|) + 1
      ensures if p in old(live) then live == old(live) - {p} && zombies == old(zombies)[p := w]
              else live == old(live) && zombies == old(zombies)
    {
      if p in live {
        PutOne(zombies, p, w);
        Moved(live, zombies.Keys, p);
        assert zombies[p := w].Keys == zombies.Keys + {p};
        live := live - {p};
        zombies := zombies[p := w];
      }
    }

    method Adopt(p: Pid)
      requires Valid()
      modifies this`live, this`born
      ensures Valid() && live == old(live) + (if p in zombies then {} else {p})
    {
      if p !in live && p !in zombies {
        assert multiset(live + {p}) == multiset(live) + multiset{p};
        live := live + {p};
        born := born + multiset{p};
      }
    }

    /** One event; an event that cannot happen is skipped. */
    method Happen()
      requires Valid() && schedule != []
      modifies this
      ensures Valid() && schedule == old(schedule)[1..] && reaped == old(reaped) && Work() < old(Work())
      ensures forall p :: old(Holds(p)) ==> Holds(p) && Fate(p) == old(Fate(p))
      ensures forall p :: p in old(zombies) ==> p in zombies
    {
      var e := schedule[0];
      schedule := schedule[1..];
      match e
      case Dies(p, w) => Die(p, w);
      case Adopted(p) => Adopt(p);
      case Interrupt => interrupted := true;
      case _ =>
    }

    /** wait4(-1, WNOHANG): any zombie, or the reason there is none to report. */
    method Wait4() returns (r: WaitResult)
      requires Valid()
      modifies this
      ensures Valid() && Work() <= old(Work())
      ensures r.Child? || r.Interrupted? ==> Work() < old(Work())
      ensures forall p :: old(Holds(p)) && !(r.Child? && r.pid == p) ==> Holds(p) && Fate(p) == old(Fate(p))
      ensures forall p :: p in old(zombies) && !(r.Child? && r.pid == p) ==> p in zombies
      ensures r.Child? && old(Holds(r.pid)) ==> old(Fate(r.pid)) == Some(r.status)
      ensures reaped == if r.Child? then old(reaped) + multiset{r.pid} else old(reaped)
      ensures r.NoneReady? ==> zombies == map[] && live != {}
      ensures r.NoChildren? ==> zombies == map[] && live == {}
    {
      var n: nat :| n <= |schedule|;
      while n > 0
        invariant Valid() && n <= |schedule| && reaped == old(reaped) && Work() <= old(Work())
        invariant forall p :: old(Holds(p)) ==> Holds(p) && Fate(p) == old(Fate(p))
        invariant forall p :: p in old(zombies) ==> p in zombies
        decreases n
      {
        Happen();
        n := n - 1;
      }
      if interrupted {
        interrupted := false;
        return Interrupted;
      }
      if zombies.Keys != {} {
        var p :| p in zombies.Keys;
        r := Child(p, zombies[p]);
        RemoveOne(zombies, p);
        zombies := zombies - {p};
        reaped := reaped + multiset{p};
        return;
      }
      assert zombies == map[];
      r := if live == {} then NoChildren else NoneReady;
    }
  }

  lemma Moved(live: set<Pid>, dead: set<Pid>, p: Pid)
    requires p in live && live !! dead
    ensures multiset(live - {p}) + multiset(dead + {p}) == multiset(live) + multiset(dead)
  {
    assert multiset(live) == multiset(live - {p}) + multiset{p};
    assert multiset(dead + {p}) == multiset(dead) + multiset{p};
  }

  // ----- init's side

  /**
   reapChildren: reaps until the main process has been reaped or no zombie is left.  When it returns
   without the main process, that one is alive; so the first call after its death reports it.
   */
  method ReapChildren(k: Kernel, main: Pid) returns (exited: bool, exitCode: int)
    requires k.Valid() && k.Holds(main)
    modifies k
    ensures k.Valid() && k.Work() <= old(k.Work())
    ensures exited ==> old(k.Fate(main)).Some? && exitCode == ExitCode(old(k.Fate(main)).value)
    ensures exited ==> k.reaped[main] > old(k.reaped)[main]
    ensures !exited ==> main in k.live && k.Fate(main) == old(k.Fate(main)) && exitCode == 0
    ensures old(main in k.zombies) ==> exited
  {
    while true
      invariant k.Valid() && k.Holds(main) && k.Fate(main) == old(k.Fate(main)) && k.Work() <= old(k.Work())
      invariant old(main in k.zombies) ==> main in k.zombies
      invariant k.reaped[main] >= old(k.reaped)[main]
      decreases k.Work()
    {
      var r := k.Wait4();
      match r
      case Interrupted => continue;
      case NoChildren => assert false; return false, 0;
      case NoneReady => return false, 0;
      case Child(pid, status) =>
        var code := ExitCode(status);
        if pid == main { return true, code; }
    }
  }

  /**
   runAndSupervise from the start of the main process on: for every schedule it returns the exit
   code of the status the main process dies with, and while that has not happened it goes on.
   */
  method RunAndSupervise(main: Pid, schedule: seq<Event>) returns (r: Option<int>)
    ensures match FirstDeath(schedule, main)
      case Some(status) => r == Some(ExitCode(status))
      case None => r == None
  {
    var k := new Kernel(main, schedule);
    while true
      invariant fresh(k) && k.Valid() && k.Holds(main) && k.Fate(main) == FirstDeath(schedule, main)
      decreases k.Work()
    {
      var exited, exitCode := ReapChildren(k, main);
      if exited { return Some(exitCode); }
      if k.schedule == [] { return None; }
      var e := k.schedule[0];
      k.Happen();
      if e.Signal? {
        // forwardSignal: the main process has not been reaped, so its pid still names it
        assert k.Holds(main);
      }
    }
  }
}
