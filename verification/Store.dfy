/**
 internal/store/fs_store.go: where a VM's files lie, and how they are written and removed so that
 a crash between any two file system calls leaves no half-written file in place.
 */
module Store {
  import opened Text

  // ----- paths

  /** A cleaned path, component by component. */
  type Path = seq<string>

  datatype Roots = Roots(config: Path, data: Path, run: Path)

  datatype VmPaths = VmPaths(
    configDir: Path, vmConfig: Path, meta: Path, hooks: Path, env: Path,
    runDir: Path, socket: Path, lockFile: Path, dataDir: Path, logsDir: Path)

  function PathsFor(roots: Roots, id: string): VmPaths {
    var configDir, dataDir, runDir := roots.config + [id], roots.data + [id], roots.run + [id];
    VmPaths(
      configDir, configDir + ["vm.json"], configDir + ["meta.json"], configDir + ["hooks.json"], configDir + ["env"],
      runDir, runDir + ["mergen.socket"], roots.run + [id + ".lock"], dataDir, dataDir + ["logs"])
  }

  /** validateID */
  predicate ValidId(id: string) {
    && Trim(id) != ""
    && '/' !in id
    && forall i :: 0 <= i < |id| - 1 ==> !(id[i] == '.' && id[i + 1] == '.')
  }

  /** `p` is `dir` or lies below it. */
  predicate Within(p: Path, dir: Path) {
    dir <= p
  }

  predicate IsHex(c: char) {
    '0' <= c <= '9' || 'a' <= c <= 'f'
  }

  /** What newUUIDv4 prints. */
  predicate IsUuid(id: string) {
    && |id| == 36
    && forall i :: 0 <= i < 36 ==> if i in {8, 13, 18, 23} then id[i] == '-' else IsHex(id[i])
  }

  /** The directories a delete removes. */
  predicate Removed(roots: Roots, id: string, retainData: bool, p: Path) {
    var paths := PathsFor(roots, id);
    Within(p, paths.configDir) || Within(p, paths.runDir) || (!retainData && Within(p, paths.dataDir))
  }

  /** The three directories, written out. */
  lemma RemovedDirs(roots: Roots, id: string, retainData: bool, p: Path)
    ensures Removed(roots, id, retainData, p) <==>
      roots.config + [id] <= p || roots.run + [id] <= p || (!retainData && roots.data + [id] <= p)
  {
  }

  /** Every id a create draws is valid; a valid id is one path component, and not the parent. */
  lemma UuidIsValid(id: string)
    ensures IsUuid(id) ==> ValidId(id)
    ensures ValidId(id) ==> id != "" && id != ".." && '/' !in id
  {
    if IsUuid(id) { TrimTrims(id); }
    assert ".."[0] == '.' && ".."[1] == '.';
  }

  /** The run root does not lie inside what deleting `id` removes. */
  predicate RunRootSurvives(roots: Roots, id: string, retainData: bool) {
    var paths := PathsFor(roots, id);
    !Within(roots.run, paths.configDir) && (retainData || !Within(roots.run, paths.dataDir))
  }

  /** The config root does not lie inside what deleting `id` removes. */
  predicate ConfigRootSurvives(roots: Roots, id: string, retainData: bool) {
    var paths := PathsFor(roots, id);
    !Within(roots.config, paths.runDir) && (retainData || !Within(roots.config, paths.dataDir))
  }

  lemma ChildWithin(root: Path, dir: Path, id: string, name: string)
    requires id != name
    ensures Within(root + [name], dir + [id]) <==> Within(root, dir + [id])
  {
    var p, d := root + [name], dir + [id];
    assert p[|p| - 1] == name && d[|d| - 1] == id;
    if Within(p, d) {
      assert p[..|p|] == p;
      assert d == p[..|d|] == root[..|d|];
    }
    if Within(root, d) {
      assert p[..|d|] == root[..|d|];
    }
  }

  /**
   Deleting one VM removes the lock file of another (or its own) exactly when the whole run root
   lies inside a directory that is removed.
   */
  lemma LockFileSurvives(roots: Roots, id: string, other: string, retainData: bool)
    requires IsUuid(id)
    ensures !Removed(roots, id, retainData, PathsFor(roots, other).lockFile) <==> RunRootSurvives(roots, id, retainData)
  {
    var name := other + ".lock";
    assert name[|other|] == '.';
    assert |other| < 36 ==> id[|other|] != '.';
    ChildWithin(roots.run, roots.config, id, name);
    ChildWithin(roots.run, roots.run, id, name);
    ChildWithin(roots.run, roots.data, id, name);
  }

  /** A file two levels below `root` lies in the directory of another VM exactly when `root` does. */
  lemma GrandchildWithin(root: Path, dir: Path, id: string, other: string, name: string)
    requires id != other && id != name
    ensures Within(root + [other] + [name], dir + [id]) <==> Within(root, dir + [id])
  {
    ChildWithin(root, dir, id, other);
    ChildWithin(root + [other], dir, id, name);
  }

  /**
   Deleting one VM removes the record of another exactly when the whole config root lies inside a
   directory that is removed.
   */
  lemma RecordSurvives(roots: Roots, id: string, other: string, retainData: bool)
    requires IsUuid(id) && id != other
    ensures !Removed(roots, id, retainData, PathsFor(roots, other).meta) <==> ConfigRootSurvives(roots, id, retainData)
  {
    assert |"meta.json"| == 9;
    GrandchildWithin(roots.config, roots.config, id, other, "meta.json");
    GrandchildWithin(roots.config, roots.run, id, other, "meta.json");
    GrandchildWithin(roots.config, roots.data, id, other, "meta.json");
  }

  // ----- the file system

  type Files = map<Path, string>

  /** A name os.CreateTemp makes. */
  predicate IsTemp(p: Path) {
    p != [] && ".tmp-" <= p[|p| - 1]
  }

  /** The files other than temporary ones. */
  ghost function Visible(files: Files): Files {
    map p | p in files && !IsTemp(p) :: files[p]
  }

  /**
   The files on disk, and every state they passed through.  A crash leaves the files in some state
   of the history; each call below adds the states at which it can be cut short.  On a healthy disk
   no operation fails.
   */
  class Disk {
    const healthy: bool
    var files: Files
    ghost var history: seq<Files>

    ghost predicate Valid()
      reads this
    {
      history != [] && history[|history| - 1] == files
    }

    constructor (initial: Files, healthy: bool)
      ensures Valid() && files == initial && history == [initial] && this.healthy == healthy
    {
      this.healthy := healthy;
      files := initial;
      history := [initial];
    }

    /** Whether the next operation works. */
    method Works() returns (ok: bool)
      ensures healthy ==> ok
    {
      ok := *;
      ok := ok || healthy;
    }

    /** A temporary name that is not in use: os.CreateTemp tries one after the other. */
    method UnusedTemp(dir: Path) returns (temp: Path)
      ensures IsTemp(temp) && temp !in files
    {
      var suffix: string := *;
      ghost var rest := files.Keys;
      temp := dir + [".tmp-" + suffix];
      while temp in files
        invariant temp == dir + [".tmp-" + suffix]
        invariant rest <= files.Keys
        invariant forall t: string :: |t| >= |suffix| && dir + [".tmp-" + t] in files ==> dir + [".tmp-" + t] in rest
        decreases rest
      {
        assert forall t: string :: |t| > |suffix| ==> (dir + [".tmp-" + t])[|dir|] != temp[|dir|];
        rest := rest - {temp};
        suffix := suffix + "0";
        temp := dir + [".tmp-" + suffix];
      }
    }

    method CreateTemp(dir: Path) returns (ok: bool, temp: Path)
      requires Valid()
      modifies this
      ensures Valid() && (healthy ==> ok)
      ensures ok ==> IsTemp(temp) && temp !in old(files) && files == old(files)[temp := ""]
      ensures !ok ==> files == old(files)
      ensures history == old(history) + [files]
    {
      temp := UnusedTemp(dir);
      ok := Works();
      if ok {
        files := files[temp := ""];
      }
      history := history + [files];
    }

    /** A write can stop after any number of bytes. */
    method Write(path: Path, content: string) returns (ok: bool)
      requires Valid() && path in files
      modifies this
      ensures Valid() && files.Keys == old(files).Keys && (healthy ==> ok)
      ensures ok ==> files == old(files)[path := content]
      ensures forall p :: p in files && p != path ==> files[p] == old(files)[p]
      ensures old(history) <= history
      ensures forall i :: |old(history)| <= i < |history| ==>
        path in history[i] && history[i] == old(files)[path := history[i][path]]
    {
      var written: nat :| written <= |content|;
      files := files[path := content[..written]];
      history := history + [files];
      ok := Works();
      if ok {
        files := files[path := content];
        history := history + [files];
      }
    }

    method Rename(source: Path, target: Path) returns (ok: bool)
      requires Valid() && source in files
      modifies this
      ensures Valid() && (healthy ==> ok)
      ensures files == if ok then (old(files) - {source})[target := old(files)[source]] else old(files)
      ensures history == old(history) + [files]
    {
      ok := Works();
      if ok {
        files := (files - {source})[target := files[source]];
      }
      history := history + [files];
    }

    method Remove(path: Path) returns (ok: bool)
      requires Valid()
      modifies this
      ensures Valid() && (healthy ==> ok)
      ensures files == if ok then old(files) - {path} else old(files)
      ensures history == old(history) + [files]
    {
      ok := Works();
      if ok {
        files := files - {path};
      }
      history := history + [files];
    }

    /** writeAtomic: a temporary file, written, closed, given its mode, renamed into place. */
    method WriteAtomic(path: Path, content: string) returns (ok: bool)
      requires Valid() && path != [] && !IsTemp(path)
      modifies this
      ensures Valid() && old(history) <= history && (healthy ==> ok)
      ensures ok ==> files == old(files)[path := content]
      ensures Visible(files) == if ok then Visible(old(files))[path := content] else Visible(old(files))
      ensures forall i :: |old(history)| <= i < |history| ==>
        Visible(history[i]) in {Visible(old(files)), Visible(files)}
    {
      var made := Works();
      if !made { return false; }
      var created, temp := CreateTemp(path[..|path| - 1]);
      if created { VisiblePut(old(files), temp, ""); }
      if !created { return false; }
      var wrote := WriteTemp(temp, content);
      var closed := Works();
      var moded := Works();
      if !wrote || !closed || !moded {
        Abandon(temp);
        return false;
      }
      VisibleMoved(files, temp, path);
      TempReplaced(old(files), temp, path, content);
      ok := Rename(temp, path);
      if !ok { Abandon(temp); }
    }

    /** Writing the temporary file is invisible, however far it gets. */
    method WriteTemp(temp: Path, content: string) returns (ok: bool)
      requires Valid() && IsTemp(temp) && temp in files
      modifies this
      ensures Valid() && old(history) <= history && temp in files && (healthy ==> ok)
      ensures files == old(files)[temp := files[temp]] && (ok ==> files[temp] == content)
      ensures Visible(files) == Visible(old(files))
      ensures forall i :: |old(history)| <= i < |history| ==> Visible(history[i]) == Visible(old(files))
    {
      ok := Write(temp, content);
      SameVisible(old(files), temp, old(history), history);
      assert files == old(files)[temp := files[temp]];
      VisiblePut(old(files), temp, files[temp]);
    }

    /** The temporary file is removed after a failure, if it can be. */
    method Abandon(temp: Path)
      requires Valid() && IsTemp(temp)
      modifies this
      ensures Valid() && Visible(files) == Visible(old(files))
      ensures history == old(history) + [files]
    {
      var removed := Remove(temp);
      VisibleDropped(old(files), temp);
    }

    /** os.RemoveAll: the files below `dir`, in any order, stopping at the first that cannot go. */
    method RemoveAll(dir: Path) returns (ok: bool)
      requires Valid()
      modifies this
      ensures Valid() && old(history) <= history && (healthy ==> ok)
      ensures ok ==> files == Outside(old(files), dir)
      ensures forall i :: |old(history)| <= i < |history| ==>
        Outside(old(files), dir) == Outside(history[i], dir) && Subset(history[i], old(files))
      ensures Outside(files, dir) == Outside(old(files), dir) && Subset(files, old(files))
    {
      var victims := set p | p in files && Within(p, dir);
      while victims != {}
        invariant Valid() && old(history) <= history
        invariant victims == set p | p in files && Within(p, dir)
        invariant Outside(files, dir) == Outside(old(files), dir) && Subset(files, old(files))
        invariant forall i :: |old(history)| <= i < |history| ==>
          Outside(old(files), dir) == Outside(history[i], dir) && Subset(history[i], old(files))
        decreases |victims|
      {
        var p :| p in victims;
        var gone := Remove(p);
        if !gone { return false; }
        victims := victims - {p};
      }
      assert forall p :: p in files && Within(p, dir) ==> p in victims;
      assert files == Outside(files, dir);
      return true;
    }

    /** One write of a save: number `i` of the list, after those before it. */
    method WriteNext(roots: Roots, id: string, art: Artifacts, ghost was: Files, ghost start: nat, i: nat) returns (ok: bool)
      requires Valid() && i < |Writes(roots, id, art)| && start <= |history|
      requires Visible(files) == WriteAll(Visible(was), Writes(roots, id, art)[..i])
      requires forall j :: start <= j < |history| ==> SavedUpTo(roots, id, art, was, history[j])
      modifies this
      ensures Valid() && old(history) <= history && (healthy ==> ok)
      ensures ok ==> files == old(files)[Writes(roots, id, art)[i].0 := Writes(roots, id, art)[i].1]
      ensures Visible(files) == WriteAll(Visible(was), Writes(roots, id, art)[..if ok then i + 1 else i])
      ensures forall j :: start <= j < |history| ==> SavedUpTo(roots, id, art, was, history[j])
    {
      var writes := Writes(roots, id, art);
      ok := WriteAtomic(writes[i].0, writes[i].1);
      WriteAllNext(Visible(was), writes, i);
    }

    /** SaveVM.  `art` holds the encoded files; hooks and env are written only when there are any. */
    method SaveVm(roots: Roots, id: string, art: Artifacts) returns (ok: bool)
      requires Valid()
      modifies this
      ensures Valid() && old(history) <= history
      ensures forall i :: |old(history)| <= i < |history| ==> SavedUpTo(roots, id, art, old(files), history[i])
      ensures SavedUpTo(roots, id, art, old(files), files)
      ensures ok ==> ValidId(id) && files == WriteAll(old(files), Writes(roots, id, art))
      ensures healthy && ValidId(id) ==> ok
    {
      ghost var was, start, writes := files, |history|, Writes(roots, id, art);
      assert WriteAll(Visible(was), writes[..0]) == Visible(was) && WriteAll(was, writes[..0]) == was;
      var made := Works();
      if !ValidId(id) || !made { return false; }
      WriteAllNext(was, writes, 0);
      ok := WriteNext(roots, id, art, was, start, 0);
      if !ok { return; }
      WriteAllNext(was, writes, 1);
      ok := WriteNext(roots, id, art, was, start, 1);
      if !ok { return; }
      var n := 2;
      if art.hooks.Some? {
        WriteAllNext(was, writes, n);
        ok := WriteNext(roots, id, art, was, start, n);
        if !ok { return; }
        n := n + 1;
      }
      if art.env.Some? {
        WriteAllNext(was, writes, n);
        ok := WriteNext(roots, id, art, was, start, n);
        if !ok { return; }
        n := n + 1;
      }
      assert writes[..n] == writes;
      return true;
    }

    /** Exists: the metadata file is there. */
    predicate Exists(roots: Roots, id: string)
      reads this
    {
      PathsFor(roots, id).meta in files
    }

    /** DeleteVM */
    method DeleteVm(roots: Roots, id: string, retainData: bool) returns (r: DeleteResult)
      requires Valid()
      modifies this
      ensures Valid() && old(history) <= history
      ensures r == NotFound ==> !old(Exists(roots, id)) && files == old(files)
      ensures !ValidId(id) ==> r == Failed
      ensures !ValidId(id) || !old(Exists(roots, id)) ==> files == old(files) && history == old(history)
      ensures r == Deleted ==> ValidId(id) && old(Exists(roots, id))
      ensures r == Deleted ==> files == map p | p in old(files) && !Removed(roots, id, retainData, p) :: old(files)[p]
      ensures r == Deleted ==> !Exists(roots, id)
      ensures healthy && ValidId(id) ==> r == if old(Exists(roots, id)) then Deleted else NotFound
      ensures forall i, p :: |old(history)| <= i < |history| && p in old(files) && !Removed(roots, id, retainData, p) ==>
        p in history[i] && history[i][p] == old(files)[p]
    {
      var readable := Works();
      if !ValidId(id) || !readable { return Failed; }
      if !Exists(roots, id) { return NotFound; }
      var ok := RemoveDirs(roots, id, retainData);
      return if ok then Deleted else Failed;
    }

    /** The removals of DeleteVM, in order. */
    method RemoveDirs(roots: Roots, id: string, retainData: bool) returns (ok: bool)
      requires Valid()
      modifies this
      ensures Valid() && old(history) <= history && (healthy ==> ok)
      ensures ok ==> files == map p | p in old(files) && !Removed(roots, id, retainData, p) :: old(files)[p]
      ensures forall i, p :: |old(history)| <= i < |history| && p in old(files) && !Removed(roots, id, retainData, p) ==>
        p in history[i] && history[i][p] == old(files)[p]
    {
      var paths := PathsFor(roots, id);
      ok := RemoveAll(paths.configDir);
      OutsideKeeps(old(files), paths.configDir, old(history), history);
      if !ok { return; }
      label Config:
      ok := RemoveAll(paths.runDir);
      OutsideKeeps(old@Config(files), paths.runDir, old@Config(history), history);
      if !ok || retainData { return; }
      label Run:
      ok := RemoveAll(paths.dataDir);
      OutsideKeeps(old@Run(files), paths.dataDir, old@Run(history), history);
    }
  }

  datatype DeleteResult = Deleted | NotFound | Failed

  /** The part of `files` that does not lie in `dir`. */
  ghost function Outside(files: Files, dir: Path): Files {
    map p | p in files && !Within(p, dir) :: files[p]
  }

  ghost predicate Subset(small: Files, large: Files) {
    forall p :: p in small ==> p in large && small[p] == large[p]
  }

  lemma OutsideKeeps(was: Files, dir: Path, before: seq<Files>, after: seq<Files>)
    requires before <= after
    requires forall i :: |before| <= i < |after| ==> Outside(was, dir) == Outside(after[i], dir)
    ensures forall i, p :: |before| <= i < |after| && p in was && !Within(p, dir) ==>
      p in after[i] && after[i][p] == was[p]
  {
    forall i, p | |before| <= i < |after| && p in was && !Within(p, dir)
      ensures p in after[i] && after[i][p] == was[p]
    {
      assert p in Outside(was, dir) && p in Outside(after[i], dir);
    }
  }

  lemma VisiblePut(files: Files, temp: Path, content: string)
    requires IsTemp(temp)
    ensures Visible(files[temp := content]) == Visible(files)
  {
  }

  lemma VisibleDropped(files: Files, temp: Path)
    requires IsTemp(temp)
    ensures Visible(files - {temp}) == Visible(files)
  {
  }

  lemma TempReplaced(was: Files, temp: Path, path: Path, content: string)
    requires temp !in was
    ensures (was[temp := content] - {temp})[path := content] == was[path := content]
  {
  }

  /** A rename of a temporary file onto a proper name. */
  lemma VisibleMoved(files: Files, temp: Path, path: Path)
    requires IsTemp(temp) && temp in files && !IsTemp(path)
    ensures Visible((files - {temp})[path := files[temp]]) == Visible(files)[path := files[temp]]
  {
  }

  lemma SameVisible(was: Files, temp: Path, before: seq<Files>, after: seq<Files>)
    requires IsTemp(temp) && before <= after
    requires forall i :: |before| <= i < |after| ==> temp in after[i] && after[i] == was[temp := after[i][temp]]
    ensures forall i :: |before| <= i < |after| ==> Visible(after[i]) == Visible(was)
  {
  }

  // ----- what a save writes

  lemma TargetsAreNotTemp(roots: Roots, id: string)
    ensures var p := PathsFor(roots, id);
      !IsTemp(p.vmConfig) && !IsTemp(p.meta) && !IsTemp(p.hooks) && !IsTemp(p.env)
  {
    assert ".tmp-"[0] == '.';
    assert "vm.json"[0] == 'v' && "meta.json"[0] == 'm' && "hooks.json"[0] == 'h' && "env"[0] == 'e';
  }

  datatype Artifacts = Artifacts(vm: string, meta: string, hooks: Option<string>, env: Option<string>)

  /** The writes of a save, in order. */
  function Writes(roots: Roots, id: string, art: Artifacts): (w: seq<(Path, string)>)
    ensures forall i :: 0 <= i < |w| ==> w[i].0 != [] && !IsTemp(w[i].0)
  {
    var paths := PathsFor(roots, id);
    TargetsAreNotTemp(roots, id);
    [(paths.vmConfig, art.vm), (paths.meta, art.meta)]
    + (if art.hooks.Some? then [(paths.hooks, art.hooks.value)] else [])
    + (if art.env.Some? then [(paths.env, art.env.value)] else [])
  }

  ghost function WriteAll(files: Files, writes: seq<(Path, string)>): Files {
    if writes == [] then files
    else WriteAll(files, writes[..|writes| - 1])[writes[|writes| - 1].0 := writes[|writes| - 1].1]
  }

  lemma WriteAllNext(files: Files, writes: seq<(Path, string)>, i: nat)
    requires i < |writes|
    ensures WriteAll(files, writes[..i + 1]) == WriteAll(files, writes[..i])[writes[i].0 := writes[i].1]
  {
    assert writes[..i + 1][..i] == writes[..i];
  }

  /** What a finished save leaves: each part in the file of its name, and nothing else changed. */
  lemma SavedFiles(roots: Roots, id: string, art: Artifacts, was: Files, now: Files)
    requires now == WriteAll(was, Writes(roots, id, art))
    ensures var dir := roots.config + [id];
      && Holds(now, dir + ["vm.json"], art.vm)
      && Holds(now, dir + ["meta.json"], art.meta)
      && (if art.hooks.Some? then Holds(now, dir + ["hooks.json"], art.hooks.value) else SameAt(was, now, dir + ["hooks.json"]))
      && (if art.env.Some? then Holds(now, dir + ["env"], art.env.value) else SameAt(was, now, dir + ["env"]))
    ensures forall p :: p !in Targets(roots, id) ==> SameAt(was, now, p)
  {
    var w, k := Writes(roots, id, art), |Writes(roots, id, art)|;
    WritesAreDistinct(roots, id, art);
    WriteAllAt(was, w, k);
    assert w[..k] == w;
    assert w[0].0 == roots.config + [id] + ["vm.json"] && w[1].0 == roots.config + [id] + ["meta.json"];
    TargetsDiffer(roots, id);
    forall p | p !in Targets(roots, id) ensures SameAt(was, now, p) { assert !Reached(w, k, p); }
    if art.hooks.None? { assert !Reached(w, k, PathsFor(roots, id).hooks); }
    if art.env.None? { assert !Reached(w, k, PathsFor(roots, id).env); }
  }

  function Targets(roots: Roots, id: string): set<Path> {
    var dir := roots.config + [id];
    {dir + ["vm.json"], dir + ["meta.json"], dir + ["hooks.json"], dir + ["env"]}
  }

  lemma TargetsDiffer(roots: Roots, id: string)
    ensures var p := PathsFor(roots, id);
      p.vmConfig != p.meta && p.vmConfig != p.hooks && p.vmConfig != p.env && p.meta != p.hooks && p.meta != p.env && p.hooks != p.env
  {
    var p := PathsFor(roots, id);
    var n := |p.configDir|;
    assert p.vmConfig[n] == "vm.json" && p.meta[n] == "meta.json" && p.hooks[n] == "hooks.json" && p.env[n] == "env";
    assert |"vm.json"| == 7 && |"meta.json"| == 9 && |"hooks.json"| == 10 && |"env"| == 3;
  }

  /** Apart from temporary files, `now` is `was` with the first few writes done, in order. */
  ghost predicate SavedUpTo(roots: Roots, id: string, art: Artifacts, was: Files, now: Files) {
    exists k :: 0 <= k <= |Writes(roots, id, art)| && Visible(now) == WriteAll(Visible(was), Writes(roots, id, art)[..k])
  }

  /** At `p`, `now` holds what `was` held. */
  ghost predicate SameAt(was: Files, now: Files, p: Path) {
    (p in now <==> p in was) && (p in was ==> now[p] == was[p])
  }

  ghost predicate Holds(now: Files, p: Path, content: string) {
    p in now && now[p] == content
  }

  ghost predicate OldOrNew(was: Files, now: Files, p: Path, content: string) {
    SameAt(was, now, p) || Holds(now, p, content)
  }

  ghost predicate DistinctPaths(w: seq<(Path, string)>) {
    forall i, j :: 0 <= i < j < |w| ==> w[i].0 != w[j].0
  }

  lemma WritesAreDistinct(roots: Roots, id: string, art: Artifacts)
    ensures DistinctPaths(Writes(roots, id, art))
  {
    TargetsDiffer(roots, id);
  }

  /** One of the first `k` writes goes to `q`. */
  ghost predicate Reached(w: seq<(Path, string)>, k: nat, q: Path) {
    exists i :: 0 <= i < k && i < |w| && w[i].0 == q
  }

  /** After `k` writes to distinct paths: those paths hold the new content, all others the old. */
  lemma {:induction false} WriteAllAt(files: Files, w: seq<(Path, string)>, k: nat)
    requires k <= |w| && DistinctPaths(w)
    ensures forall i :: 0 <= i < k ==> Holds(WriteAll(files, w[..k]), w[i].0, w[i].1)
    ensures forall q :: !Reached(w, k, q) ==> SameAt(files, WriteAll(files, w[..k]), q)
  {
    if k > 0 {
      WriteAllAt(files, w, k - 1);
      WriteAllNext(files, w, k - 1);
      forall q | !Reached(w, k, q) ensures SameAt(files, WriteAll(files, w[..k]), q) {
        assert w[k - 1].0 != q;
        assert !Reached(w, k - 1, q);
      }
    }
  }

  lemma VisibleAt(files: Files, p: Path)
    requires !IsTemp(p)
    ensures SameAt(files, Visible(files), p)
  {
  }

  /** With the first `k` of the writes done: each target is old or complete, in the order of the writes, and the rest is old. */
  lemma PrefixState(w: seq<(Path, string)>, k: nat, was: Files, now: Files)
    requires k <= |w| && DistinctPaths(w) && forall i :: 0 <= i < |w| ==> !IsTemp(w[i].0)
    requires Visible(now) == WriteAll(Visible(was), w[..k])
    ensures forall i :: 0 <= i < k ==> Holds(now, w[i].0, w[i].1)
    ensures forall q :: !IsTemp(q) && !Reached(w, k, q) ==> SameAt(was, now, q)
  {
    WriteAllAt(Visible(was), w, k);
    forall q | !IsTemp(q) ensures SameAt(was, Visible(was), q) && SameAt(now, Visible(now), q) {
      VisibleAt(was, q);
      VisibleAt(now, q);
    }
  }

  lemma NotYetReached(w: seq<(Path, string)>, k: nat, i: nat)
    requires DistinctPaths(w) && k <= i < |w|
    ensures !Reached(w, k, w[i].0)
  {
  }

  /**
   A crash or failure anywhere in a save leaves each of the four files as it was or completely
   written, every other file as it was, and a new metadata file only beside the new vm.json.
   */
  lemma SaveIsCrashSafe(roots: Roots, id: string, art: Artifacts, was: Files, now: Files)
    requires SavedUpTo(roots, id, art, was, now)
    ensures forall i :: 0 <= i < |Writes(roots, id, art)| ==>
      OldOrNew(was, now, Writes(roots, id, art)[i].0, Writes(roots, id, art)[i].1)
    ensures forall q :: !IsTemp(q) && !Reached(Writes(roots, id, art), |Writes(roots, id, art)|, q) ==> SameAt(was, now, q)
    ensures var p := PathsFor(roots, id); !SameAt(was, now, p.meta) ==> Holds(now, p.vmConfig, art.vm)
  {
    var w := Writes(roots, id, art);
    var k :| 0 <= k <= |w| && Visible(now) == WriteAll(Visible(was), w[..k]);
    WritesAreDistinct(roots, id, art);
    PrefixState(w, k, was, now);
    forall i | 0 <= i < |w| ensures OldOrNew(was, now, w[i].0, w[i].1) {
      if i >= k { NotYetReached(w, k, i); }
    }
    forall q | !IsTemp(q) && !Reached(w, |w|, q) ensures SameAt(was, now, q) {
      assert !Reached(w, k, q);
    }
    assert w[0] == (PathsFor(roots, id).vmConfig, art.vm) && w[1] == (PathsFor(roots, id).meta, art.meta);
    if k <= 1 { NotYetReached(w, k, 1); }
  }

  /** For a fresh id: a VM that exists has a complete vm.json and a complete metadata file. */
  lemma FreshSaveExistsComplete(roots: Roots, id: string, art: Artifacts, was: Files, now: Files)
    requires SavedUpTo(roots, id, art, was, now)
    requires PathsFor(roots, id).meta !in was
    ensures PathsFor(roots, id).meta in now ==>
      Holds(now, PathsFor(roots, id).vmConfig, art.vm) && Holds(now, PathsFor(roots, id).meta, art.meta)
  {
    SaveIsCrashSafe(roots, id, art, was, now);
    assert Writes(roots, id, art)[1] == (PathsFor(roots, id).meta, art.meta);
  }
}
