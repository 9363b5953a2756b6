/**
 * The calls of package os that greenskeeper makes, as methods on one mutable filesystem.
 * Each method changes the filesystem, the call trace and standard output exactly as the
 * matching function of module Posix says.
 */
module Os {
  import opened Wrappers
  import opened Posix

  class FileSystem {
    const env: Env
    var nodes: map<Path, Node>
    var trace: seq<Call>
    var stdout: seq<string>

    function State(): Snapshot
      reads this
    {
      Snapshot(nodes, trace, stdout)
    }

    constructor (env: Env, nodes: map<Path, Node>)
      ensures this.env == env
      ensures State() == Snapshot(nodes, [], [])
    {
      this.env := env;
      this.nodes := nodes;
      trace := [];
      stdout := [];
    }

    /** Make a call that returns only an error. */
    method Syscall(c: Call) returns (err: Option<Error>)
      modifies this
      ensures (err, State()) == Perform(env, old(State()), c)
    {
      trace := trace + [c];
      var refusal := Refusal(env, nodes, c);
      if refusal.Some? {
        err := Some(SysError(c, refusal.value));
      } else {
        nodes := Effect(env, nodes, c);
        err := None;
      }
    }

    /** Record a call whose answer the node map does not decide: an injected function, or a stat under /proc. */
    method Record(c: Call)
      modifies this
      ensures State() == Log(old(State()), c)
    {
      trace := trace + [c];
    }

    method Stat(p: Path) returns (r: Result<Perm, Error>)
      modifies this
      ensures (r, State()) == Posix.Stat(env, old(State()), p)
    {
      trace := trace + [StatCall(p)];
      var refusal := Refusal(env, nodes, StatCall(p));
      if refusal.Some? {
        r := Failure(SysError(StatCall(p), refusal.value));
      } else {
        r := Success(nodes[p].perm);
      }
    }

    method ReadFile(p: Path) returns (r: Result<string, Error>)
      modifies this
      ensures (r, State()) == Posix.ReadFile(env, old(State()), p)
    {
      trace := trace + [ReadFileCall(p)];
      var refusal := Refusal(env, nodes, ReadFileCall(p));
      if refusal.Some? {
        r := Failure(SysError(ReadFileCall(p), refusal.value));
      } else {
        r := Success(nodes[p].content);
      }
    }

    method Open(p: Path) returns (err: Option<Error>)
      modifies this
      ensures (err, State()) == Perform(env, old(State()), OpenCall(p))
    {
      err := Syscall(OpenCall(p));
    }

    method Create(p: Path) returns (err: Option<Error>)
      modifies this
      ensures (err, State()) == Perform(env, old(State()), CreateCall(p))
    {
      err := Syscall(CreateCall(p));
    }

    /** io.Copy from an open source to an open destination. */
    method Copy(src: Path, dst: Path) returns (err: Option<Error>)
      modifies this
      ensures (err, State()) == Perform(env, old(State()), CopyCall(src, dst))
    {
      err := Syscall(CopyCall(src, dst));
    }

    method Chmod(p: Path, m: Perm) returns (err: Option<Error>)
      modifies this
      ensures (err, State()) == Perform(env, old(State()), ChmodCall(p, m))
    {
      err := Syscall(ChmodCall(p, m));
    }

    method Chown(p: Path, uid: int, gid: int) returns (err: Option<Error>)
      modifies this
      ensures (err, State()) == Perform(env, old(State()), ChownCall(p, uid, gid))
    {
      err := Syscall(ChownCall(p, uid, gid));
    }

    method RemoveAll(p: Path) returns (err: Option<Error>)
      modifies this
      ensures (err, State()) == Perform(env, old(State()), RemoveAllCall(p))
    {
      err := Syscall(RemoveAllCall(p));
    }

    method Rename(src: Path, dst: Path) returns (err: Option<Error>)
      modifies this
      ensures (err, State()) == Perform(env, old(State()), RenameCall(src, dst))
    {
      err := Syscall(RenameCall(src, dst));
    }

    /** fmt.Println */
    method Println(line: string)
      modifies this
      ensures State() == old(State()).(stdout := old(stdout) + [line])
    {
      stdout := stdout + [line];
    }
  }
}
