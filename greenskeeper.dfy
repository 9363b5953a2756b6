/**
 * Package greenskeeper: copying files into place through a temporary file, creating
 * directories with a given mode and owner, and clearing a stale garden pidfile.
 *
 * Each routine is a method on an Os.FileSystem that makes its calls one at a time, as
 * the Go code does, and is proved equal to a function (CopyAll, CreateOne, CreateAll,
 * CheckPidfile) of the filesystem it started from. The properties the package promises
 * are proved about those functions in module GreenskeeperProperties.
 */
module Greenskeeper {
  import opened Wrappers
  import opened Posix
  import opened Os
  import opened Strings

  /** defaultDirectoryMode, 0701: rwx for the owner, search-only for group and others. */
  const DefaultDirectoryMode: Perm := 0x1C1

  /** Printed before a stale pidfile is removed. */
  const StaleNotice := "Removing stale pidfile..."

  // ----------------------------------------------------------------------------------
  // Routines as plans of calls

  /** A value for one of Directory's function fields: the real os call, or an injected stub. */
  datatype Prim = System | Stub(result: Option<Error>)

  /** Call `prim` with the arguments in `c`. */
  function Apply(env: Env, s: Snapshot, prim: Prim, c: Call): (Option<Error>, Snapshot) {
    match prim
    case System => Perform(env, s, c)
    case Stub(result) => (result, Log(s, c))
  }

  /**
   * One `if err := call; err != nil { return ... }` of a routine: the call, through `prim`,
   * and whether a failure makes the routine return nil instead of the error.
   */
  datatype Action = Action(prim: Prim, call: Call, nilOnError: bool)

  /** Where a routine stands: go on, or stop with this result. */
  datatype Step = Next(state: Snapshot) | Stop(err: Option<Error>, state: Snapshot)

  /** What a routine returns, and the system it leaves. */
  function Outcome(st: Step): (Option<Error>, Snapshot) {
    match st
    case Next(s) => (None, s)
    case Stop(e, s) => (e, s)
  }

  /** Make the calls of `plan` in order; the first that fails ends the routine. */
  function Run(env: Env, s: Snapshot, plan: seq<Action>): Step
    decreases |plan|
  {
    if plan == [] then Next(s)
    else
      var (err, s') := Apply(env, s, plan[0].prim, plan[0].call);
      if err.Some? then Stop(if plan[0].nilOnError then None else err, s')
      else Run(env, s', plan[1..])
  }

  /** `st` followed by the calls of `more`. */
  function ThenRun(env: Env, st: Step, more: seq<Action>): Step {
    match st
    case Stop(e, s) => Stop(e, s)
    case Next(s) => Run(env, s, more)
  }

  lemma {:induction false} RunAppend(env: Env, s: Snapshot, a: seq<Action>, b: seq<Action>)
    ensures Run(env, s, a + b) == ThenRun(env, Run(env, s, a), b)
    decreases |a|
  {
    if a == [] {
      assert a + b == b;
    } else {
      assert (a + b)[0] == a[0];
      assert (a + b)[1..] == a[1..] + b;
      var (err, s') := Apply(env, s, a[0].prim, a[0].call);
      if err.None? {
        RunAppend(env, s', a[1..], b);
      }
    }
  }

  // ----------------------------------------------------------------------------------
  // CopyFiles

  /** One file to copy. A negative GID leaves ownership alone; `remove` is never read. */
  datatype File = File(source: Path, dest: Path, uid: int, gid: int, remove: bool)

  /** The temporary file a copy is written to before it is renamed onto the destination. */
  function Tmp(f: File): Path {
    f.dest + ".tmp"
  }

  /** Opening both files: the source, then a new temporary file; a failure of either returns nil. */
  function OpenPlan(f: File): seq<Action> {
    [Action(System, OpenCall(f.source), true), Action(System, CreateCall(Tmp(f)), true)]
  }

  /** Filling in the temporary file: copy the bytes, chmod it to `mode`, and chown it when GID > -1. */
  function FillPlan(f: File, mode: Perm): seq<Action> {
    [Action(System, CopyCall(f.source, Tmp(f)), false), Action(System, ChmodCall(Tmp(f), mode), false)]
    + (if f.gid > -1 then [Action(System, ChownCall(Tmp(f), f.uid, f.gid), false)] else [])
  }

  /** Moving it into place: remove the destination tree, then rename the temporary file onto it. */
  function PlacePlan(f: File): seq<Action> {
    [Action(System, RemoveAllCall(f.dest), false), Action(System, RenameCall(Tmp(f), f.dest), false)]
  }

  /** The calls one entry makes once the source's mode is known. */
  function CopyPlan(f: File, mode: Perm): seq<Action> {
    OpenPlan(f) + FillPlan(f, mode) + PlacePlan(f)
  }

  /** The plan's calls one by one; the index of every call after chmod shifts by one when chown is made. */
  lemma CopyPlanShape(f: File, mode: Perm)
    ensures var plan := CopyPlan(f, mode); var c := if f.gid > -1 then 1 else 0;
      |plan| == 6 + c
      && plan[0] == Action(System, OpenCall(f.source), true)
      && plan[1] == Action(System, CreateCall(Tmp(f)), true)
      && plan[2] == Action(System, CopyCall(f.source, Tmp(f)), false)
      && plan[3] == Action(System, ChmodCall(Tmp(f), mode), false)
      && (f.gid > -1 ==> plan[4] == Action(System, ChownCall(Tmp(f), f.uid, f.gid), false))
      && plan[4 + c] == Action(System, RemoveAllCall(f.dest), false)
      && plan[5 + c] == Action(System, RenameCall(Tmp(f), f.dest), false)
  {
  }

  /** One iteration of CopyFiles' loop: stat the source, then its plan. */
  function CopyEntry(env: Env, s: Snapshot, f: File): Step {
    var (info, s1) := Stat(env, s, f.source);
    if info.Failure? then Stop(Some(info.error), s1) else Run(env, s1, CopyPlan(f, info.value))
  }

  /** CopyFiles: the entries in order, up to the first that stops the batch. */
  function CopyAll(env: Env, s: Snapshot, files: seq<File>): Step
    decreases |files|
  {
    if files == [] then Next(s)
    else match CopyEntry(env, s, files[0])
      case Stop(e, s') => Stop(e, s')
      case Next(s') => CopyAll(env, s', files[1..])
  }

  /** `st` followed by the entries `more`. */
  function ThenCopy(env: Env, st: Step, more: seq<File>): Step {
    match st
    case Stop(e, s) => Stop(e, s)
    case Next(s) => CopyAll(env, s, more)
  }

  lemma {:induction false} CopyAllAppend(env: Env, s: Snapshot, a: seq<File>, b: seq<File>)
    ensures CopyAll(env, s, a + b) == ThenCopy(env, CopyAll(env, s, a), b)
    decreases |a|
  {
    if a == [] {
      assert a + b == b;
    } else {
      assert (a + b)[0] == a[0];
      assert (a + b)[1..] == a[1..] + b;
      match CopyEntry(env, s, a[0])
      case Stop(e, s') =>
      case Next(s') => CopyAllAppend(env, s', a[1..], b);
    }
  }

  lemma CopyAllSingle(env: Env, s: Snapshot, f: File)
    ensures CopyAll(env, s, [f]) == CopyEntry(env, s, f)
  {
  }

  /** Running a plan from call k: call k, then the rest unless it failed. */
  lemma RunHead(env: Env, s: Snapshot, plan: seq<Action>, k: nat)
    requires k < |plan|
    ensures Run(env, s, plan[k..]) ==
      var (err, s') := Apply(env, s, plan[k].prim, plan[k].call);
      if err.Some? then Stop(if plan[k].nilOnError then None else err, s') else Run(env, s', plan[k + 1..])
  {
  }

  /** The first step of the loop body: open the source and create the temporary file. */
  method OpenFiles(fs: FileSystem, file: File) returns (stop: bool)
    modifies fs
    ensures (if stop then Stop(None, fs.State()) else Next(fs.State())) == Run(fs.env, old(fs.State()), OpenPlan(file))
  {
    ghost var plan := OpenPlan(file);
    assert plan[0..] == plan;
    ghost var before := fs.State();
    var openErr := fs.Open(file.source);
    RunHead(fs.env, before, plan, 0);
    if openErr.Some? {
      return true;
    }
    before := fs.State();
    var createErr := fs.Create(Tmp(file));
    RunHead(fs.env, before, plan, 1);
    assert plan[2..] == [];
    stop := createErr.Some?;
  }

  /** The second step of the loop body: copy into the temporary file, then chmod and chown it. */
  method FillTmp(fs: FileSystem, file: File, mode: Perm) returns (err: Option<Error>)
    modifies fs
    ensures (if err.Some? then Stop(err, fs.State()) else Next(fs.State())) == Run(fs.env, old(fs.State()), FillPlan(file, mode))
  {
    var tmpDest := Tmp(file);
    ghost var plan := FillPlan(file, mode);
    assert plan[0..] == plan;
    ghost var before := fs.State();
    err := fs.Copy(file.source, tmpDest);
    RunHead(fs.env, before, plan, 0);
    if err.Some? {
      return;
    }
    before := fs.State();
    err := fs.Chmod(tmpDest, mode);
    RunHead(fs.env, before, plan, 1);
    if err.Some? {
      return;
    }
    if file.gid > -1 {
      before := fs.State();
      err := fs.Chown(tmpDest, file.uid, file.gid);
      RunHead(fs.env, before, plan, 2);
      assert plan[3..] == [];
      return;
    }
    assert plan[2..] == [];
  }

  /** The last step of the loop body: RemoveAll the destination and move the temporary file into place. */
  method PlaceTmp(fs: FileSystem, file: File) returns (err: Option<Error>)
    modifies fs
    ensures (if err.Some? then Stop(err, fs.State()) else Next(fs.State())) == Run(fs.env, old(fs.State()), PlacePlan(file))
  {
    ghost var plan := PlacePlan(file);
    assert plan[0..] == plan;
    ghost var before := fs.State();
    err := fs.RemoveAll(file.dest);
    RunHead(fs.env, before, plan, 0);
    if err.Some? {
      return;
    }
    before := fs.State();
    err := fs.Rename(Tmp(file), file.dest);
    RunHead(fs.env, before, plan, 1);
    assert plan[2..] == [];
  }

  /** The body of CopyFiles' loop for one entry; `stop` says whether the loop returns. */
  method CopyOne(fs: FileSystem, file: File) returns (stop: bool, err: Option<Error>)
    modifies fs
    ensures (if stop then Stop(err, fs.State()) else Next(fs.State())) == CopyEntry(fs.env, old(fs.State()), file)
  {
    var fileInfo := fs.Stat(file.source);
    if fileInfo.Failure? {
      return true, Some(fileInfo.error);
    }
    ghost var s1 := fs.State();
    ghost var openPlan, fillPlan, placePlan := OpenPlan(file), FillPlan(file, fileInfo.value), PlacePlan(file);
    RunAppend(fs.env, s1, openPlan, fillPlan + placePlan);
    assert CopyPlan(file, fileInfo.value) == openPlan + (fillPlan + placePlan);
    stop := OpenFiles(fs, file);
    if stop {
      return true, None;
    }
    ghost var s2 := fs.State();
    RunAppend(fs.env, s2, fillPlan, placePlan);
    err := FillTmp(fs, file, fileInfo.value);
    if err.Some? {
      return true, err;
    }
    err := PlaceTmp(fs, file);
    stop := err.Some?;
  }

  /** greenskeeper.CopyFiles */
  method CopyFiles(fs: FileSystem, files: seq<File>) returns (err: Option<Error>)
    modifies fs
    ensures (err, fs.State()) == Outcome(CopyAll(fs.env, old(fs.State()), files))
  {
    ghost var s0 := fs.State();
    for i := 0 to |files|
      invariant CopyAll(fs.env, s0, files[..i]) == Next(fs.State())
    {
      ghost var before := fs.State();
      var stop;
      stop, err := CopyOne(fs, files[i]);
      CopyAllSingle(fs.env, before, files[i]);
      CopyAllAppend(fs.env, s0, files[..i], [files[i]]);
      assert files[..i + 1] == files[..i] + [files[i]];
      if stop {
        CopyAllAppend(fs.env, s0, files[..i + 1], files[i + 1..]);
        assert files[..i + 1] + files[i + 1..] == files;
        return;
      }
    }
    assert files[..|files|] == files;
    err := None;
  }

  // ----------------------------------------------------------------------------------
  // Directories

  /** Directory; `mode` None is a nil *os.FileMode, and a negative GID leaves ownership alone. */
  datatype Directory = Directory(
    path: Path, mode: Option<Perm>, uid: int, gid: int,
    mkdirAll: Prim, chown: Prim, chmod: Prim)

  /** DirectoryBuilder: each setter returns a changed copy (a value receiver). */
  datatype DirectoryBuilder = DirectoryBuilder(directory: Directory) {

    function Build(): Directory {
      directory
    }

    function UID(uid: int): (b: DirectoryBuilder)
      ensures b.Build().uid == uid
      ensures b.Build().path == Build().path && b.Build().mode == Build().mode && b.Build().gid == Build().gid
      ensures b.Build().mkdirAll == Build().mkdirAll && b.Build().chown == Build().chown && b.Build().chmod == Build().chmod
    {
      DirectoryBuilder(directory.(uid := uid))
    }

    function GID(gid: int): (b: DirectoryBuilder)
      ensures b.Build().gid == gid
      ensures b.Build().path == Build().path && b.Build().mode == Build().mode && b.Build().uid == Build().uid
      ensures b.Build().mkdirAll == Build().mkdirAll && b.Build().chown == Build().chown && b.Build().chmod == Build().chmod
    {
      DirectoryBuilder(directory.(gid := gid))
    }

    function Mode(mode: Perm): (b: DirectoryBuilder)
      ensures b.Build().mode == Some(mode)
      ensures b.Build().path == Build().path && b.Build().uid == Build().uid && b.Build().gid == Build().gid
      ensures b.Build().mkdirAll == Build().mkdirAll && b.Build().chown == Build().chown && b.Build().chmod == Build().chmod
    {
      DirectoryBuilder(directory.(mode := Some(mode)))
    }
  }

  /** NewDirectoryBuilder: no mode, UID and GID -1, and the real os calls. */
  function NewDirectoryBuilder(path: Path): (b: DirectoryBuilder)
    ensures b.Build().path == path && b.Build().mode == None
    ensures b.Build().uid == -1 && b.Build().gid == -1
    ensures b.Build().mkdirAll == System && b.Build().chown == System && b.Build().chmod == System
  {
    DirectoryBuilder(Directory(path, None, -1, -1, System, System, System))
  }

  /**
   * The calls Directory.Create makes: mkdirAll(Path, 0701), then chmod(Path, *Mode) when a
   * mode is set, then chown(Path, UID, GID) when GID > -1; the first error is returned.
   */
  function CreatePlan(d: Directory): seq<Action> {
    [Action(d.mkdirAll, MkdirAllCall(d.path, DefaultDirectoryMode), false)]
    + (if d.mode.Some? then [Action(d.chmod, ChmodCall(d.path, d.mode.value), false)] else [])
    + (if d.gid > -1 then [Action(d.chown, ChownCall(d.path, d.uid, d.gid), false)] else [])
  }

  /** Directory.Create */
  function CreateOne(env: Env, s: Snapshot, d: Directory): (Option<Error>, Snapshot) {
    Outcome(Run(env, s, CreatePlan(d)))
  }

  /** CreateDirectories: the directories in order, up to the first error. */
  function CreateAll(env: Env, s: Snapshot, ds: seq<Directory>): (Option<Error>, Snapshot)
    decreases |ds|
  {
    if ds == [] then (None, s)
    else
      var (err, s') := CreateOne(env, s, ds[0]);
      if err.Some? then (err, s') else CreateAll(env, s', ds[1..])
  }

  lemma {:induction false} CreateAllSnoc(env: Env, s: Snapshot, ds: seq<Directory>, d: Directory)
    requires CreateAll(env, s, ds).0.None?
    ensures CreateAll(env, s, ds + [d]) == CreateOne(env, CreateAll(env, s, ds).1, d)
    decreases |ds|
  {
    if ds == [] {
      assert ds + [d] == [d];
      assert [d][1..] == [];
    } else {
      assert (ds + [d])[0] == ds[0];
      assert (ds + [d])[1..] == ds[1..] + [d];
      CreateAllSnoc(env, CreateOne(env, s, ds[0]).1, ds[1..], d);
    }
  }

  lemma {:induction false} CreateAllStops(env: Env, s: Snapshot, ds: seq<Directory>, rest: seq<Directory>)
    requires CreateAll(env, s, ds).0.Some?
    ensures CreateAll(env, s, ds + rest) == CreateAll(env, s, ds)
    decreases |ds|
  {
    assert (ds + rest)[0] == ds[0];
    assert (ds + rest)[1..] == ds[1..] + rest;
    if CreateOne(env, s, ds[0]).0.None? {
      CreateAllStops(env, CreateOne(env, s, ds[0]).1, ds[1..], rest);
    }
  }

  /** A call through one of Directory's function fields. */
  method Invoke(fs: FileSystem, prim: Prim, c: Call) returns (err: Option<Error>)
    modifies fs
    ensures (err, fs.State()) == Apply(fs.env, old(fs.State()), prim, c)
  {
    match prim
    case System =>
      err := fs.Syscall(c);
    case Stub(result) =>
      fs.Record(c);
      err := result;
  }

  /** Directory.Create */
  method Create(fs: FileSystem, d: Directory) returns (err: Option<Error>)
    modifies fs
    ensures (err, fs.State()) == CreateOne(fs.env, old(fs.State()), d)
  {
    ghost var plan := CreatePlan(d);
    ghost var k := 0;
    assert plan[0..] == plan;
    ghost var before := fs.State();
    err := Invoke(fs, d.mkdirAll, MkdirAllCall(d.path, DefaultDirectoryMode));
    RunHead(fs.env, before, plan, k);
    if err.Some? {
      return;
    }
    k := k + 1;
    if d.mode.Some? {
      before := fs.State();
      err := Invoke(fs, d.chmod, ChmodCall(d.path, d.mode.value));
      RunHead(fs.env, before, plan, k);
      if err.Some? {
        return;
      }
      k := k + 1;
    }
    if d.gid > -1 {
      before := fs.State();
      err := Invoke(fs, d.chown, ChownCall(d.path, d.uid, d.gid));
      RunHead(fs.env, before, plan, k);
      assert plan[k + 1..] == [];
      return;
    }
    assert plan[k..] == [];
    err := None;
  }

  /** greenskeeper.CreateDirectories */
  method CreateDirectories(fs: FileSystem, directories: seq<Directory>) returns (err: Option<Error>)
    modifies fs
    ensures (err, fs.State()) == CreateAll(fs.env, old(fs.State()), directories)
  {
    ghost var s0 := fs.State();
    for i := 0 to |directories|
      invariant CreateAll(fs.env, s0, directories[..i]) == (None, fs.State())
    {
      err := Create(fs, directories[i]);
      CreateAllSnoc(fs.env, s0, directories[..i], directories[i]);
      assert directories[..i + 1] == directories[..i] + [directories[i]];
      if err.Some? {
        CreateAllStops(fs.env, s0, directories[..i + 1], directories[i + 1..]);
        assert directories[..i + 1] + directories[i + 1..] == directories;
        return;
      }
    }
    assert directories[..|directories|] == directories;
    err := None;
  }

  // ----------------------------------------------------------------------------------
  // The pidfile check

  /** path.Join("/proc", pid) for a pid that needs no cleaning. */
  function ProcPath(pid: string): Path {
    if pid == "" then "/proc" else "/proc/" + pid
  }

  /** The stat of ProcPath(pid) succeeds: `proc` holds the names under /proc, and /proc itself exists. */
  predicate ProcExists(proc: set<string>, pid: string) {
    pid == "" || pid in proc
  }

  /** isRunning: the stat of /proc/<pid> succeeded and the pid is not empty. */
  predicate IsRunning(proc: set<string>, pid: string) {
    pid != "" && ProcExists(proc, pid)
  }

  /** isRunning, recording its stat of /proc/<pid>. */
  method CheckRunning(fs: FileSystem, pid: string) returns (running: bool)
    modifies fs
    ensures running == IsRunning(fs.env.proc, pid)
    ensures fs.State() == Log(old(fs.State()), StatCall(ProcPath(pid)))
  {
    fs.Record(StatCall(ProcPath(pid)));
    var statOk := ProcExists(fs.env.proc, pid);
    running := pid != "" && statOk;
  }

  /** checkExistingGdnProcess with `remove` standing for its remove argument. */
  function CheckPidfile(env: Env, s: Snapshot, pidFilePath: Path, remove: Prim): (Option<Error>, Snapshot) {
    var (contents, s1) := ReadFile(env, s, pidFilePath);
    if contents.Failure? then
      (if IsNotExist(contents.error) then None else Some(contents.error), s1)
    else
      var pid := TrimSpace(contents.value);
      var s2 := Log(s1, StatCall(ProcPath(pid)));
      if IsRunning(env.proc, pid) then (Some(AlreadyRunning(pid)), s2)
      else Apply(env, s2.(stdout := s2.stdout + [StaleNotice]), remove, RemoveCall(pidFilePath))
  }

  /** checkExistingGdnProcess */
  method CheckExistingGdnProcessWith(fs: FileSystem, pidFilePath: Path, remove: Prim) returns (err: Option<Error>)
    modifies fs
    ensures (err, fs.State()) == CheckPidfile(fs.env, old(fs.State()), pidFilePath, remove)
  {
    var contents := fs.ReadFile(pidFilePath);
    if contents.Failure? {
      if IsNotExist(contents.error) {
        return None;
      }
      return Some(contents.error);
    }
    var pid := TrimSpace(contents.value);
    var running := CheckRunning(fs, pid);
    if running {
      return Some(AlreadyRunning(pid));
    }
    fs.Println(StaleNotice);
    err := Invoke(fs, remove, RemoveCall(pidFilePath));
  }

  /** CheckExistingGdnProcess: the check with os.Remove. */
  method CheckExistingGdnProcess(fs: FileSystem, pidFilePath: Path) returns (err: Option<Error>)
    modifies fs
    ensures (err, fs.State()) == CheckPidfile(fs.env, old(fs.State()), pidFilePath, System)
  {
    err := CheckExistingGdnProcessWith(fs, pidFilePath, System);
  }
}
