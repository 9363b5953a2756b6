/**
 * The operating system that greenskeeper drives, as values: a filesystem (a map from
 * path to node), the trace of every call made into it, the lines printed on standard
 * output, and the pure meaning of each call greenskeeper makes.
 *
 * A call either fails with an errno or applies its effect; a failed call changes no
 * node. Natural failures (a missing path, a node of the wrong kind) are decided by the
 * map; every other failure (permission denied, I/O error, a full disk) is an explicit
 * input: the set `Env.faults` of calls the system refuses.
 */
module Posix {
  import opened Wrappers

  type Path = string

  /**
   * The twelve mode bits chmod(2) takes: rwx for owner, group and others, then sticky
   * (01000), setgid (02000) and setuid (04000). An os.FileMode keeps the last three as
   * ModeSticky, ModeSetgid and ModeSetuid, which os.Chmod and os.Mkdir turn into these bits.
   */
  type Perm = bv12

  const SetUid: Perm := 0x800
  const SetGid: Perm := 0x400
  const GroupExec: Perm := 0x008

  /**
   * What chown(2) leaves of a regular file's mode on Linux: setuid is cleared, and setgid
   * too when group execute is set (setgid without it marks mandatory locking, and stays).
   */
  function ChownedMode(m: Perm): (r: Perm)
    ensures r & SetUid == 0
    ensures (r & SetGid != 0) <==> (m & SetGid != 0 && m & GroupExec == 0)
    ensures r & !(SetUid | SetGid) == m & !(SetUid | SetGid)
  {
    var m1 := m & !SetUid;
    if m1 & GroupExec != 0 then m1 & !SetGid else m1
  }

  /** 0777: the bits a umask can clear. */
  const PermissionBits: Perm := 0x1FF

  /** 0666: the mode os.Create asks for when it creates a file. */
  const CreateFileMode: Perm := 0x1B6

  /** The mode a new file or directory gets when `perm` is asked for under `umask`. */
  function Masked(perm: Perm, umask: Perm): Perm {
    perm & !(umask & PermissionBits)
  }

  /**
   * The id chown(2) leaves behind: Go passes the int through to the kernel, which reads
   * it as a 32-bit uid_t/gid_t, and the all-ones value (-1) means "leave this id unchanged".
   */
  function ChownId(requested: int, current: nat): (id: nat)
    ensures requested == -1 ==> id == current
    ensures 0 <= requested < 0xFFFF_FFFF ==> id == requested
    ensures id != current ==> id < 0xFFFF_FFFF
  {
    var w := requested % 0x1_0000_0000;
    if w == 0xFFFF_FFFF then current else w
  }

  datatype Kind = RegularFile | Dir

  datatype Node = Node(kind: Kind, perm: Perm, uid: nat, gid: nat, content: string)

  /** Every call greenskeeper makes, with its arguments. */
  datatype Call =
    | StatCall(path: Path)
    | OpenCall(path: Path)
    | CreateCall(path: Path)
    | CopyCall(src: Path, dst: Path)
    | ChmodCall(path: Path, perm: Perm)
    | ChownCall(path: Path, uid: int, gid: int)
    | RemoveAllCall(path: Path)
    | RenameCall(src: Path, dst: Path)
    | MkdirAllCall(path: Path, perm: Perm)
    | ReadFileCall(path: Path)
    | RemoveCall(path: Path)

  datatype Errno = NoEntry | NotDirectory | IsDirectory | NotEmpty | Refused

  /** The error values that reach greenskeeper's callers. */
  datatype Error =
    | SysError(call: Call, errno: Errno)   // a *PathError / *LinkError from package os
    | Custom(message: string)              // an error made by an injected function (errors.New)
    | AlreadyRunning(pid: string)          // fmt.Errorf("garden is already running (pid: %s)", pid)

  /** os.IsNotExist */
  predicate IsNotExist(e: Error) {
    e.SysError? && e.errno == NoEntry
  }

  /** The text of an error, as its Error() method gives it (only the greenskeeper error is spelled out). */
  function Text(e: Error): string {
    match e
    case AlreadyRunning(pid) => "garden is already running (pid: " + pid + ")"
    case Custom(message) => message
    case SysError(_, _) => "system call failed"
  }

  /**
   * What the calls cannot see in the filesystem: the calls it refuses, the process umask,
   * the effective ids new nodes are owned by, and the names under /proc that stat succeeds on.
   */
  datatype Env = Env(faults: set<Call>, umask: Perm, euid: nat, egid: nat, proc: set<string>)

  datatype Snapshot = Snapshot(nodes: map<Path, Node>, trace: seq<Call>, stdout: seq<string>)

  function Log(s: Snapshot, c: Call): Snapshot {
    s.(trace := s.trace + [c])
  }

  /** `q` lies strictly inside directory `p`. */
  predicate Under(q: Path, p: Path) {
    |p| < |q| && q[..|p|] == p && q[|p|] == '/'
  }

  /** The proper ancestors of `p` that mkdir -p would create (the root is taken to exist). */
  function Ancestors(p: Path): set<Path> {
    set i | 0 < i < |p| && p[i] == '/' :: p[..i]
  }

  /** Both maps agree at `q`. */
  ghost predicate SameAt(m: map<Path, Node>, m': map<Path, Node>, q: Path) {
    (q in m <==> q in m') && (q in m ==> m[q] == m'[q])
  }

  function Missing(nodes: map<Path, Node>, p: Path): Option<Errno> {
    if p !in nodes then Some(NoEntry) else None
  }

  /** The kernel refuses an empty path name (ENOENT); os.RemoveAll("") returns before any system call. */
  predicate NamesEmptyPath(c: Call) {
    match c
    case CopyCall(_, _) => false
    case RemoveAllCall(_) => false
    case RenameCall(src, dst) => src == "" || dst == ""
    case _ => c.path == ""
  }

  /** Some proper ancestor of `p` is a regular file, so resolving `p` fails with ENOTDIR. */
  predicate BelowFile(nodes: map<Path, Node>, p: Path) {
    exists q :: q in Ancestors(p) && q in nodes && nodes[q].kind == RegularFile
  }

  /** The call names a path that lies below a regular file (io.Copy works on open files and names none). */
  predicate NamesPathBelowFile(nodes: map<Path, Node>, c: Call) {
    match c
    case CopyCall(_, _) => false
    case RenameCall(src, dst) => BelowFile(nodes, src) || BelowFile(nodes, dst)
    case _ => BelowFile(nodes, c.path)
  }

  /** The errno a call fails with in `nodes`, or None when the call succeeds. */
  function Refusal(env: Env, nodes: map<Path, Node>, c: Call): Option<Errno> {
    var natural :=
      if NamesEmptyPath(c) then Some(NoEntry) else
      if NamesPathBelowFile(nodes, c) then Some(NotDirectory) else
      match c
      case StatCall(p) => Missing(nodes, p)
      case OpenCall(p) => Missing(nodes, p)
      case CreateCall(p) => if p in nodes && nodes[p].kind == Dir then Some(IsDirectory) else None
      case CopyCall(src, dst) =>
        if src !in nodes || dst !in nodes then Some(NoEntry)
        else if nodes[src].kind == Dir || nodes[dst].kind == Dir then Some(IsDirectory)
        else None
      case ChmodCall(p, _) => Missing(nodes, p)
      case ChownCall(p, _, _) => Missing(nodes, p)
      case RemoveAllCall(_) => None
      case RenameCall(src, dst) =>
        if src !in nodes then Some(NoEntry)
        else if dst in nodes && nodes[dst].kind != nodes[src].kind then
          Some(if nodes[dst].kind == Dir then IsDirectory else NotDirectory)
        else None
      case MkdirAllCall(p, _) =>
        if p in nodes && nodes[p].kind == RegularFile then Some(NotDirectory) else None
      case ReadFileCall(p) =>
        // a refusal met while resolving the path (EACCES on a parent, say) comes before ENOENT
        if c in env.faults then Some(Refused)
        else if p !in nodes then Some(NoEntry) else if nodes[p].kind == Dir then Some(IsDirectory) else None
      case RemoveCall(p) =>
        if p !in nodes then Some(NoEntry)
        else if exists q :: q in nodes && Under(q, p) then Some(NotEmpty)
        else None;
    if natural.Some? then natural else if c in env.faults then Some(Refused) else None
  }

  /** The paths a call may change. */
  predicate Affects(c: Call, q: Path) {
    match c
    case CreateCall(p) => q == p
    case CopyCall(_, dst) => q == dst
    case ChmodCall(p, _) => q == p
    case ChownCall(p, _, _) => q == p
    case RemoveAllCall(p) => q == p || Under(q, p)
    case RenameCall(src, dst) => q == src || q == dst
    case MkdirAllCall(p, _) => q == p || q in Ancestors(p)
    case RemoveCall(p) => q == p
    case _ => false
  }

  /** The nodes after a call that succeeds. */
  function Effect(env: Env, nodes: map<Path, Node>, c: Call): map<Path, Node>
    requires Refusal(env, nodes, c).None?
  {
    match c
    case CreateCall(p) =>
      // O_CREAT|O_TRUNC: an existing file keeps its mode and owner, a new one gets 0666 &^ umask
      nodes[p := if p in nodes then nodes[p].(content := "")
                 else Node(RegularFile, Masked(CreateFileMode, env.umask), env.euid, env.egid, "")]
    case CopyCall(src, dst) => nodes[dst := nodes[dst].(content := nodes[src].content)]
    case ChmodCall(p, m) => nodes[p := nodes[p].(perm := m)]
    case ChownCall(p, u, g) =>
      var n := nodes[p];
      nodes[p := n.(uid := ChownId(u, n.uid), gid := ChownId(g, n.gid),
                    perm := if n.kind == RegularFile then ChownedMode(n.perm) else n.perm)]
    case RemoveAllCall(p) =>
      // os.RemoveAll("") removes nothing; a missing path is not an error
      if p == "" then nodes else map q | q in nodes && q != p && !Under(q, p) :: nodes[q]
    case RenameCall(src, dst) => (nodes - {src})[dst := nodes[src]]
    case MkdirAllCall(p, m) =>
      // an existing directory is left as it is; missing ancestors get the same mode
      if p in nodes then nodes
      else nodes + map q | q in Ancestors(p) + {p} && q !in nodes
                           :: Node(Dir, Masked(m, env.umask), env.euid, env.egid, "")
    case RemoveCall(p) => nodes - {p}
    case _ => nodes
  }

  /** A call that returns only an error: record it, then fail or apply its effect. */
  function Perform(env: Env, s: Snapshot, c: Call): (r: (Option<Error>, Snapshot))
    ensures r.1.trace == s.trace + [c] && r.1.stdout == s.stdout
    ensures r.0.Some? <==> Refusal(env, s.nodes, c).Some?
    ensures r.0.Some? ==> r.0.value == SysError(c, Refusal(env, s.nodes, c).value) && r.1.nodes == s.nodes
  {
    match Refusal(env, s.nodes, c)
    case Some(e) => (Some(SysError(c, e)), Log(s, c))
    case None => (None, Log(s, c).(nodes := Effect(env, s.nodes, c)))
  }

  /** A call changes no path it does not affect. */
  lemma PerformFrame(env: Env, s: Snapshot, c: Call, q: Path)
    requires !Affects(c, q)
    ensures SameAt(s.nodes, Perform(env, s, c).1.nodes, q)
  {
  }

  /**
   * os.Stat: the mode of `p`. fileInfo.Mode() carries the special bits as ModeSetuid,
   * ModeSetgid and ModeSticky, and os.Chmod's syscallMode turns them back into the same
   * twelve bits, so the model keeps those bits throughout.
   */
  function Stat(env: Env, s: Snapshot, p: Path): (r: (Result<Perm, Error>, Snapshot))
    ensures r.1 == Log(s, StatCall(p))
    ensures r.0.Success? <==> p != "" && !BelowFile(s.nodes, p) && p in s.nodes && StatCall(p) !in env.faults
    ensures r.0.Success? ==> r.0.value == s.nodes[p].perm
  {
    var c := StatCall(p);
    match Refusal(env, s.nodes, c)
    case Some(e) => (Failure(SysError(c, e)), Log(s, c))
    case None => (Success(s.nodes[p].perm), Log(s, c))
  }

  /** ioutil.ReadFile: the content of `p`. */
  function ReadFile(env: Env, s: Snapshot, p: Path): (r: (Result<string, Error>, Snapshot))
    ensures r.1 == Log(s, ReadFileCall(p))
    ensures r.0.Failure? && IsNotExist(r.0.error) <==> p == "" || (!BelowFile(s.nodes, p) && p !in s.nodes && ReadFileCall(p) !in env.faults)
    ensures p != "" && !BelowFile(s.nodes, p) && ReadFileCall(p) in env.faults ==> r.0 == Failure(SysError(ReadFileCall(p), Refused))
    ensures r.0.Failure? && r.0.error.SysError? && r.0.error.errno == NotDirectory <==> p != "" && BelowFile(s.nodes, p)
    ensures r.0.Success? <==> p != "" && !BelowFile(s.nodes, p) && p in s.nodes && s.nodes[p].kind == RegularFile && ReadFileCall(p) !in env.faults
    ensures r.0.Success? ==> r.0.value == s.nodes[p].content
  {
    var c := ReadFileCall(p);
    match Refusal(env, s.nodes, c)
    case Some(e) => (Failure(SysError(c, e)), Log(s, c))
    case None => (Success(s.nodes[p].content), Log(s, c))
  }
}
