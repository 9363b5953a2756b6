# greenskeeper, modelled in Dafny

Package `greenskeeper` (garden-runc-release) holds three filesystem chores that the
garden launcher runs before it starts:

- **CopyFiles** copies each file through a temporary file. It stats the source, then
  opens it and creates `<dest>.tmp`, copies the bytes, chmods the temporary file to the
  source's mode and chowns it when GID > -1. It then removes whatever tree is at the
  destination and renames the temporary file onto it.
- **Directory / DirectoryBuilder / CreateDirectories** create directories.
  `mkdirAll(path, 0701)` comes first. `chmod` follows when a mode was set, and `chown`
  follows when GID > -1. mkdirAll, chmod and chown are function fields, so tests can
  inject them.
- **CheckExistingGdnProcess** reads the garden pidfile and trims white space from the
  pid. If `/proc/<pid>` exists for a non-empty pid, it returns "garden is already running
  (pid: …)". Otherwise it prints "Removing stale pidfile..." and removes the file.

## How the model is built

- `wrappers.dfy`: `Option` and `Result`.
- `posix.dfy` (module `Posix`): the operating system as a value. A `Snapshot` holds:
  - a map from path to node (kind, permission bits, uid, gid, content);
  - the trace of every call made;
  - the lines printed on standard output.

  `Refusal` gives each call's natural failure: the empty path name, a path below a
  regular file (ENOTDIR), a missing path, or a node of the wrong kind. Any other failure
  comes from `Env.faults`, an explicit set of refused calls; EACCES, EIO and a full disk
  all become that one input. For ioutil.ReadFile, whose errno the package tests, a refused
  read beats a missing path, as EACCES on a parent directory beats ENOENT.
  `Effect` gives what a successful call does. `Env` also carries the umask, the process's
  effective ids, and the names under `/proc`.
- `os.dfy` (module `Os`): class `FileSystem` holds one mutable snapshot. `Syscall` makes
  any call that returns only an error. `Stat`, `ReadFile`, `Open`, `Create`, `Copy`
  (io.Copy), `Chmod`, `Chown`, `RemoveAll`, `Rename` and `Println` are the calls the
  package makes by name. The calls it reaches through a function value (os.MkdirAll,
  os.Chmod and os.Chown as Directory's fields, os.Remove as checkExistingGdnProcess's
  argument) go through `Syscall`. Each method is proved to change the snapshot as `Posix`
  says.
- `strings.dfy` (module `Strings`): `strings.TrimSpace` over Go's `unicode.IsSpace` set.
- `greenskeeper.dfy` (module `Greenskeeper`): the package itself.
  - Each routine is an imperative method on a `FileSystem` that makes its calls one at a
    time, as the Go code does.
  - Each method is proved equal to a function of the starting snapshot (`CopyAll`,
    `CreateAll`, `CreateOne`, `CheckPidfile`).
  - Those functions are built from `Run`. A plan is a list of calls, each one saying
    whether its failure is returned or turned into nil. `Run` makes the calls in order and
    stops at the first failure.
  - A function field of `Directory`, and the `remove` argument of
    `checkExistingGdnProcess`, is a `Prim`: either the real call (`System`) or an injected
    stub that returns a fixed error.
- `properties.dfy` (module `GreenskeeperProperties`): what the package promises, proved
  as lemmas about those functions.

What the code does and the model keeps:

- When `os.Open` or `os.Create` fails, CopyFiles returns **nil** and skips every later
  entry, so a caller gets nil although neither this entry nor any later one was copied
  (`CopyEntryNilOnOpenOrCreate`).
- `File.Remove` is never read (`CopyEntryIgnoresRemove`).
- Create passes the UID through to chown whenever GID > -1. So a directory with only its
  group set is chowned with UID -1, which keeps the current user (`CreateGroupOnly`).
- An empty pid is never running, even though the stat of `/proc` succeeds
  (`EmptyPidNeverRuns`).
- The stale-pidfile branch returns remove's result unchanged.
- CopyFiles chmods the temporary file before it chowns it. On Linux, chown(2) on a regular
  file clears setuid, and clears setgid when group execute is set. So with GID > -1 a
  set-id source does not keep its mode (see Findings).

## Model

| member | source | states |
|---|---|---|
| `Greenskeeper.CopyFiles` | src/greenskeeper/greenskeeper.go:22-66 | The loop's error and final filesystem are `CopyAll` of the starting one: entries in order, the first entry that stops ends the batch with that entry's result, and nil when all go through |
| `Greenskeeper.CopyOne` | src/greenskeeper/greenskeeper.go:24-62 | One iteration equals `CopyEntry`: a failed stat is returned, otherwise the open/create/copy/chmod/chown/RemoveAll/rename plan runs with the source's mode |
| `Greenskeeper.OpenFiles` | src/greenskeeper/greenskeeper.go:30-40 | Opening the source, then creating `<dest>.tmp`; a failure of either stops the entry with a nil error |
| `Greenskeeper.FillTmp` | src/greenskeeper/greenskeeper.go:42-54 | Copy, chmod to the source's mode, and chown only when GID > -1; the first failure is returned |
| `Greenskeeper.PlaceTmp` | src/greenskeeper/greenskeeper.go:56-62 | RemoveAll of the destination, then rename of the temporary file onto it; the first failure is returned |
| `GreenskeeperProperties.CopyEntryPlaces` | src/greenskeeper/greenskeeper.go:24-62 | A successful entry leaves the source's content at the destination, with the source's mode less the set-id bits chown clears when GID > -1, owned as the temporary file was after os.Create and chown, removes the temporary file and every node that was under the destination, and makes exactly stat, open, create, copy, chmod, [chown,] RemoveAll, rename |
| `GreenskeeperProperties.CopyEntryTrace` | src/greenskeeper/greenskeeper.go:25-62 | The calls a successful entry makes, in order, with their arguments |
| `GreenskeeperProperties.CopyEntryFrame` | src/greenskeeper/greenskeeper.go:24-62 | An entry, whether it succeeds or fails, changes no path besides its destination, the tree under it and its temporary file |
| `GreenskeeperProperties.CopyEntryOwner` | src/greenskeeper/greenskeeper.go:50-54 | With GID > -1 and both ids real, the destination ends up owned by (UID, GID) |
| `GreenskeeperProperties.CopyEntryKeepsOwner` | src/greenskeeper/greenskeeper.go:36-54 | With GID <= -1 chown is never called and a new temporary file leaves the destination owned by the process's effective ids |
| `GreenskeeperProperties.CopyEntryNilOnOpenOrCreate` | src/greenskeeper/greenskeeper.go:30-40 | An entry stops with a nil error if and only if its stat succeeds and then open or create fails |
| `GreenskeeperProperties.CopyEntryChownClearsSetuid` | src/greenskeeper/greenskeeper.go:46-54 | With GID > -1 the destination's mode is the source's with chown's clearing applied, so a setuid source's mode is not kept |
| `GreenskeeperProperties.ChownFirstCopyKeepsMode` | src/greenskeeper/greenskeeper.go:46-54 | With chown moved before chmod, a successful entry leaves the destination with exactly the source's mode |
| `GreenskeeperProperties.CopyEntryIgnoresRemove` | src/greenskeeper/greenskeeper.go:14-20 | The Remove field has no effect on an entry |
| `GreenskeeperProperties.CopyFilesFirstStop` | src/greenskeeper/greenskeeper.go:22-66 | A batch that stops does so at an entry k: every earlier entry went through and was not undone by the stop, entry k gives the batch's result and final system, and later entries are never looked at; the earlier copies survive unless entry k's RemoveAll or rename reaches them |
| `GreenskeeperProperties.CopyFilesStopKeepsEarlier` | src/greenskeeper/greenskeeper.go:22-66 | When a batch of entries that touch none of each other's files stops at entry k, every entry before k is still in place at the end, holding its replacement |
| `GreenskeeperProperties.CopyFilesFrame` | src/greenskeeper/greenskeeper.go:22-66 | A batch changes no path that none of its entries touches |
| `GreenskeeperProperties.CopyFilesPlacesAll` | src/greenskeeper/greenskeeper.go:22-66 | After a successful batch of entries that touch each other's files not at all, every destination holds its own replacement |
| `Greenskeeper.NewDirectoryBuilder` | src/greenskeeper/greenskeeper.go:83-93 | The built directory has the given path, no mode, UID and GID -1, and the real mkdirAll, chown and chmod |
| `GreenskeeperProperties.BuildConfigured` | src/greenskeeper/greenskeeper.go:83-112 | Build returns the Directory the builder configured: the chain NewDirectoryBuilder(path).Mode(m).UID(u).GID(g) gives exactly that path, mode, UID and GID with the real os calls, and so does the reverse chain |
| `GreenskeeperProperties.SettersCommute` | src/greenskeeper/greenskeeper.go:99-112 | On any builder the UID, GID and Mode setters commute pairwise, and a setter called twice keeps only its last value, so every order of setters builds the same Directory |
| `Greenskeeper.DirectoryBuilder.UID` | src/greenskeeper/greenskeeper.go:99-102 | Sets the UID and keeps every other field |
| `Greenskeeper.DirectoryBuilder.GID` | src/greenskeeper/greenskeeper.go:104-107 | Sets the GID and keeps every other field |
| `Greenskeeper.DirectoryBuilder.Mode` | src/greenskeeper/greenskeeper.go:109-112 | Sets the mode and keeps every other field |
| `Greenskeeper.Invoke` | src/greenskeeper/greenskeeper.go:125-136 | A call through a function field is the real call or the injected stub's answer, and is recorded either way |
| `Greenskeeper.Create` | src/greenskeeper/greenskeeper.go:124-140 | The method's error and final filesystem are `CreateOne` of the starting one |
| `Greenskeeper.CreateDirectories` | src/greenskeeper/greenskeeper.go:114-122 | The loop's error and final filesystem are `CreateAll`: directories in order, up to and including the first that fails |
| `GreenskeeperProperties.CreateSteps` | src/greenskeeper/greenskeeper.go:124-140 | Create is mkdirAll, then chmod when a mode is set, then chown when GID > -1; the first failure is the result and chown's result is Create's |
| `GreenskeeperProperties.CreateCallsMkdirAllFirst` | src/greenskeeper/greenskeeper.go:125-127 | mkdirAll(Path, 0701) is always the first call; when it fails its error is returned, nothing else is called and no node changes |
| `GreenskeeperProperties.CreateChmodsExactlyWhenModeSet` | src/greenskeeper/greenskeeper.go:129-133 | After mkdirAll succeeds, chmod(Path, Mode) is called if and only if a mode is set; its failure is returned and chown is then not called |
| `GreenskeeperProperties.CreateChownsExactlyWhenGidSet` | src/greenskeeper/greenskeeper.go:135-139 | After the earlier steps succeed, chown(Path, UID, GID) is called if and only if GID > -1, and its result is Create's; otherwise Create returns nil |
| `GreenskeeperProperties.CreateKeepsNodes` | src/greenskeeper/greenskeeper.go:124-140 | Create removes no node and changes no node's kind |
| `GreenskeeperProperties.CreateMakesDir` | src/greenskeeper/greenskeeper.go:125-127 | A successful Create with the real mkdirAll leaves its path a directory |
| `GreenskeeperProperties.CreateDefaultMode` | src/greenskeeper/greenskeeper.go:125-127 | Without a mode, a new directory gets 0701 with the umask bits cleared |
| `GreenskeeperProperties.CreateExplicitMode` | src/greenskeeper/greenskeeper.go:129-133 | With a mode and the real mkdirAll and chmod, the directory ends up with exactly that mode, whatever the umask; chown keeps a directory's set-id bits |
| `GreenskeeperProperties.CreateOwner` | src/greenskeeper/greenskeeper.go:135-137 | A new directory is owned by (UID, GID) as chown reads them when GID > -1, and by the process's ids otherwise |
| `GreenskeeperProperties.CreateGroupOnly` | src/greenskeeper/greenskeeper.go:135-137 | A builder with only GID set makes chown(path, -1, gid): the group changes and the user stays the process's |
| `GreenskeeperProperties.CreateDirectoriesFirstError` | src/greenskeeper/greenskeeper.go:114-122 | A failing batch fails at a directory k: those before it were created, k gives the error and the final system, later ones are never touched |
| `GreenskeeperProperties.CreateDirectoriesFailKeepsEarlier` | src/greenskeeper/greenskeeper.go:114-122 | When a batch fails at directory k, every directory before k made with the real mkdirAll still exists as a directory at the end |
| `GreenskeeperProperties.CreateDirectoriesEmpty` | src/greenskeeper/greenskeeper.go:114-122 | No directories: nil and nothing changes |
| `GreenskeeperProperties.CreateDirectoriesAllExist` | src/greenskeeper/greenskeeper.go:114-122 | After a successful batch every directory with the real mkdirAll exists as a directory, and no earlier node is lost |
| `GreenskeeperProperties.CreateDirectoriesDefaultMode` | src/greenskeeper/greenskeeper.go:114-122 | A successful batch of new directories without modes leaves each with 0701 with the umask bits cleared, chown notwithstanding |
| `Greenskeeper.CheckRunning` | src/greenskeeper/greenskeeper.go:163-168 | isRunning: true if and only if the pid is non-empty and the stat of /proc/<pid> succeeds; the stat is recorded |
| `Greenskeeper.CheckExistingGdnProcessWith` | src/greenskeeper/greenskeeper.go:146-161 | The method's error, output and final filesystem are `CheckPidfile` of the starting ones |
| `Greenskeeper.CheckExistingGdnProcess` | src/greenskeeper/greenskeeper.go:142-144 | The check with the real os.Remove |
| `GreenskeeperProperties.EmptyPidNeverRuns` | src/greenskeeper/greenskeeper.go:163-168 | The stat for an empty pid (of /proc itself) succeeds, yet the empty pid is not running |
| `GreenskeeperProperties.CheckMissingPidfile` | src/greenskeeper/greenskeeper.go:147-149 | A missing pidfile (no node at the path, no regular file above it, and the read not refused) gives nil, and the read is the only call |
| `GreenskeeperProperties.CheckRefusedMissingPidfile` | src/greenskeeper/greenskeeper.go:147-152 | A missing pidfile whose read is refused while resolving its path (EACCES on a parent, say) gives that error, which os.IsNotExist does not excuse |
| `GreenskeeperProperties.CheckReadError` | src/greenskeeper/greenskeeper.go:150-152 | Any read failure other than ENOENT is returned as it is, and nothing else is called |
| `GreenskeeperProperties.CheckPidfileBelowFile` | src/greenskeeper/greenskeeper.go:147-152 | A pidfile path below a regular file gives the ENOTDIR error, which os.IsNotExist does not excuse |
| `GreenskeeperProperties.CheckLiveProcess` | src/greenskeeper/greenskeeper.go:154-157 | A live pid gives "garden is already running (pid: <pid>)" with the trimmed, non-empty pid; nothing is printed, nothing is removed and no node changes |
| `GreenskeeperProperties.CheckStalePidfile` | src/greenskeeper/greenskeeper.go:159-160 | A pid that is not running: after the read and the stat, the notice is printed and remove(path) is called, and its result is the check's |
| `GreenskeeperProperties.StaleRemove` | src/greenskeeper/greenskeeper.go:159-160 | remove is called once, last; a stub's error is returned with no node changed, and os.Remove's error is returned, with the pidfile gone when it succeeds |
| `GreenskeeperProperties.CheckPaddedStalePid` | src/greenskeeper/greenskeeper.go:154-160 | A pidfile holding a dead pid with white space around it (a trailing newline, say) is deleted and the check succeeds |
| `GreenskeeperProperties.TrimPadded` | src/greenskeeper/greenskeeper.go:154 | TrimSpace gives back a pid padded with white space on either side |
| `Strings.TrimSpace` | src/greenskeeper/greenskeeper.go:154 | The result is the slice left after dropping leading and trailing white space: it neither starts nor ends with white space, and everything dropped is white space |
| `Strings.TrimSpaceIdempotent` | src/greenskeeper/greenskeeper.go:154 | Trimming a trimmed pid changes nothing |
| `Posix.Stat` | src/greenskeeper/greenskeeper.go:25-28 | os.Stat succeeds if and only if the path is non-empty, lies below no regular file, exists and is not refused, and then gives its mode |
| `Posix.ReadFile` | src/greenskeeper/greenskeeper.go:147-152 | ioutil.ReadFile fails with a not-exist error if and only if the path is empty, or missing with no regular file above it and the read not refused; a refused read of a path with no regular file above it fails with that refusal; it fails with ENOTDIR if and only if a regular file lies above it; it succeeds exactly on an unrefused regular file otherwise, giving its content |
| `Posix.ChownId` | src/greenskeeper/greenskeeper.go:51 | The id chown leaves: -1 keeps the current one, a real id is taken as it is |
| `Posix.ChownedMode` | src/greenskeeper/greenskeeper.go:51 | chown(2) on a regular file clears setuid, clears setgid exactly when group execute is set, and keeps every other bit |
| `Posix.Perform` | src/greenskeeper/greenskeeper.go:42-62 | Every call is recorded; it fails if and only if it is refused, and a failed call changes no node |

## Findings

| source | as written | input that shows it | evidently intended | confidence | as-written member | corrected member |
|---|---|---|---|---|---|---|
| src/greenskeeper/greenskeeper.go:46-54 | chmod(tmp, source mode) comes before chown(tmp, UID, GID), and chown clears the set-id bits chmod just set | a source with mode 04755 and `File{UID: 1001, GID: 1002}`; the destination ends up 0755 (`SetuidBinaryLosesSetuid`) | the destination's mode equals the source's, with chown before chmod | medium, not executed | `GreenskeeperProperties.CopyEntryChownClearsSetuid` | `GreenskeeperProperties.ChownFirstCopyKeepsMode` |

The corrected order is `ChownFirstCopyEntry`. CopyFiles and the rest of the model keep
the code's order, because they describe what the program does.

## Left out

- Real system calls. Each call of package os is a function over a map from path to node.
  Any failure the map does not decide is an explicit input (`Env.faults`) rather than a
  model of permissions, devices or disk space.
- Closing handles. `os.File.Close` (the two `defer`s) is not modelled. The handles stay
  open until CopyFiles returns; they are not closed per entry.
- Byte streams. Content is a `string` copied whole, so a partial `io.Copy` is a failure
  that changes nothing.
- Modes. A mode is the twelve bits chmod(2) takes (`Perm`, a `bv12`). Its top three bits
  stand for Go's `ModeSetuid`, `ModeSetgid` and `ModeSticky`, which os.Chmod and os.Mkdir
  turn into 04000, 02000 and 01000. The raw bits 07000 of an `os.FileMode`, which os.Chmod
  ignores, have no counterpart: Go's `Mode(0o2775)` gives a 0775 directory, while `Perm`
  0x5FD means 02775. The type bits of `fileInfo.Mode()` are dropped, as os.Chmod drops them.
- Renaming. `os.Rename` moves a single node. Renaming a directory does not carry the paths
  under it along.
- MkdirAll. `MkdirAll` either creates every missing ancestor or fails without changing
  anything. A partial mkdir -p is not modelled.
- Process state. The umask, the effective uid and gid, and the entries under `/proc` are
  fixed parameters (`Env`), read by the calls rather than state that changes.
- Path cleaning. Paths are raw strings: a trailing `/`, `//`, `.` or `..` is not resolved.
  For example, a destination `d/` puts its temporary file inside `d`, which RemoveAll then
  deletes. So `CopyEntryFrame` and `CopyFilesFrame` speak of paths as written.
- The node map is not required to be a tree. A path with a regular file above it fails
  with ENOTDIR even when a directory between them is missing, where the kernel would
  report ENOENT.
- Symbolic links. Nodes are regular files or directories; os.Stat and os.Open follow
  links and RemoveAll does not, and none of that is modelled.
- Group of new nodes. New files and directories always get the process's effective gid;
  inheriting the group of a setgid parent directory is not modelled. Nor is the S_ISGID bit
  a directory made under a setgid directory inherits: `CreateDefaultMode` and
  `CreateDirectoriesDefaultMode` state 0701 &^ umask with no set-id bit, where such a
  directory would also carry 02000. The permission bits 0777 are as the kernel leaves them.
- Missing parent directories. os.Create of `<dest>.tmp` fails with ENOENT in the kernel when
  the destination's directory does not exist; in the model `Refusal` checks only the path
  itself, so such a create fails only when it is in `Env.faults`. The same holds for the
  rename's destination.
- Nil function fields. A `Directory` written as a struct literal rather than through the
  builder has nil `mkdirAll`, `chmod` and `chown`, and Create then panics on the first
  call. `Prim` has no nil case, so every Directory of the model carries callable fields.
- Posix.Perform: a failed call changes no node, but a failed os.RemoveAll may already have
  removed part of the tree.
- Stubs. An injected mkdirAll, chmod, chown or remove (`Stub`) returns a fixed error and
  has no effect on the filesystem.
- CreateExplicitMode: stated for the real mkdirAll. With an injected one the path may be a
  regular file, whose set-id bits chown clears.
- `/proc` path cleaning. `/proc/<pid>` stands for `path.Join("/proc", pid)` without its
  cleaning. A pid containing `/` or `..` is looked up as written, among the names under
  `/proc`.
- Concurrency. Two copies racing for one destination are not modelled, and neither is any
  atomicity the rename gives other processes.
- `newFileMode`, the test helper at the end of the file, and the test suite are not part
  of this model.
- Error text. Only the "garden is already running" message is spelled out; errors from
  package os carry the call and an errno instead of the Go message.
- `CopyEntryKeepsOwner` covers only a temporary file that did not exist before. When it
  did exist, os.Create keeps that file's old owner, which `CopyEntryPlaces` states through
  `Replacement`.
- `CopyFilesPlacesAll` covers only batches whose entries touch none of each other's
  sources, destinations or temporary files. For other batches, the later copy can
  overwrite the earlier one's result.
