/** What greenskeeper's three routines promise, proved about the functions that specify them. */
module GreenskeeperProperties {
  import opened Wrappers
  import opened Posix
  import opened Strings
  import opened Greenskeeper

  // ----------------------------------------------------------------------------------
  // CopyFiles

  /** The paths copying `f` may change: its destination, the tree below it, and its temporary file. */
  predicate Touches(f: File, q: Path) {
    q == f.dest || q == Tmp(f) || Under(q, f.dest)
  }

  /**
   * The node a successful copy of `f` leaves at its destination, given the nodes before the
   * copy: the source's content and mode, owned as os.Create left the temporary file (its
   * old owner if it existed, the process's ids otherwise) and then as chown changed that
   * when GID > -1. The mode is the source's, less what chown then clears of it (setuid, and
   * setgid when group execute is set). A source that is the temporary file itself was
   * truncated before the copy.
   */
  function Replacement(env: Env, nodes: map<Path, Node>, f: File): Node
    requires f.source in nodes
  {
    var base := if Tmp(f) in nodes then nodes[Tmp(f)]
                else Node(RegularFile, Masked(CreateFileMode, env.umask), env.euid, env.egid, "");
    Node(RegularFile, if f.gid > -1 then ChownedMode(nodes[f.source].perm) else nodes[f.source].perm,
      if f.gid > -1 then ChownId(f.uid, base.uid) else base.uid,
      if f.gid > -1 then ChownId(f.gid, base.gid) else base.gid,
      if f.source == Tmp(f) then "" else nodes[f.source].content)
  }

  /** `f` has been copied into place: its destination holds the replacement and its temporary file is gone. */
  ghost predicate Placed(env: Env, before: map<Path, Node>, after: map<Path, Node>, f: File) {
    f.source in before && f.dest in after && Tmp(f) !in after
    && after[f.dest] == Replacement(env, before, f)
  }

  /** The calls one successful entry makes, in order; chown appears exactly when GID > -1. */
  function CopyCalls(f: File, mode: Perm): seq<Call> {
    [StatCall(f.source), OpenCall(f.source), CreateCall(Tmp(f)), CopyCall(f.source, Tmp(f)), ChmodCall(Tmp(f), mode)]
    + (if f.gid > -1 then [ChownCall(Tmp(f), f.uid, f.gid)] else [])
    + [RemoveAllCall(f.dest), RenameCall(Tmp(f), f.dest)]
  }

  lemma TmpIsNotDest(f: File)
    ensures Tmp(f) != f.dest && !Under(Tmp(f), f.dest)
  {
  }

  // ----------------------------------------------------------------------------------
  // Plans of calls

  /** The calls of a plan, in order. */
  function Calls(plan: seq<Action>): (r: seq<Call>)
    ensures |r| == |plan|
    decreases |plan|
  {
    if plan == [] then [] else [plan[0].call] + Calls(plan[1..])
  }

  /** A plan that goes through makes each of its calls once, in order, and prints nothing. */
  lemma {:induction false} RunTrace(env: Env, s: Snapshot, plan: seq<Action>)
    requires Run(env, s, plan).Next?
    ensures Run(env, s, plan).state.trace == s.trace + Calls(plan)
    ensures Run(env, s, plan).state.stdout == s.stdout
    decreases |plan|
  {
    if plan != [] {
      var s' := Apply(env, s, plan[0].prim, plan[0].call).1;
      RunTrace(env, s', plan[1..]);
      assert Calls(plan) == [plan[0].call] + Calls(plan[1..]);
    }
  }

  /** A plan changes no path that none of its calls affects. */
  lemma {:induction false} RunFrame(env: Env, s: Snapshot, plan: seq<Action>, q: Path)
    requires forall a :: a in plan ==> !Affects(a.call, q)
    ensures SameAt(s.nodes, Run(env, s, plan).state.nodes, q)
    decreases |plan|
  {
    if plan != [] {
      var a := plan[0];
      PerformFrame(env, s, a.call, q);
      var s' := Apply(env, s, a.prim, a.call).1;
      RunFrame(env, s', plan[1..], q);
    }
  }

  /** A plan in which no failure is turned into nil stops only with an error. */
  lemma {:induction false} RunKeepsErrors(env: Env, s: Snapshot, plan: seq<Action>)
    requires forall a :: a in plan ==> !a.nilOnError
    ensures Run(env, s, plan).Stop? ==> Run(env, s, plan).err.Some?
    decreases |plan|
  {
    if plan != [] {
      RunKeepsErrors(env, Apply(env, s, plan[0].prim, plan[0].call).1, plan[1..]);
    }
  }

  /** Call k of a plan that goes through from there succeeded, leaving `s'`. */
  lemma RunAt(env: Env, s: Snapshot, plan: seq<Action>, k: nat) returns (s': Snapshot)
    requires k < |plan| && Run(env, s, plan[k..]).Next?
    ensures Apply(env, s, plan[k].prim, plan[k].call) == (None, s')
    ensures Run(env, s', plan[k + 1..]) == Run(env, s, plan[k..])
  {
    assert plan[k..][0] == plan[k] && plan[k..][1..] == plan[k + 1..];
    s' := Apply(env, s, plan[k].prim, plan[k].call).1;
  }

  // ----------------------------------------------------------------------------------
  // One entry

  lemma {:induction false} CallsAt(plan: seq<Action>, i: nat)
    requires i < |plan|
    ensures Calls(plan)[i] == plan[i].call
    decreases i
  {
    if i > 0 {
      CallsAt(plan[1..], i - 1);
    }
  }

  lemma CopyPlanCalls(f: File, mode: Perm)
    ensures [StatCall(f.source)] + Calls(CopyPlan(f, mode)) == CopyCalls(f, mode)
  {
    var plan := CopyPlan(f, mode);
    CopyPlanShape(f, mode);
    var calls := [StatCall(f.source)] + Calls(plan);
    assert |calls| == |CopyCalls(f, mode)|;
    forall i | 0 <= i < |calls| ensures calls[i] == CopyCalls(f, mode)[i] {
      if i > 0 {
        CallsAt(plan, i - 1);
      }
    }
  }

  /** Copying an entry changes nothing outside its destination, that tree and its temporary file. */
  lemma CopyEntryFrame(env: Env, s: Snapshot, f: File)
    ensures forall q :: !Touches(f, q) ==> SameAt(s.nodes, CopyEntry(env, s, f).state.nodes, q)
  {
    forall q | !Touches(f, q) ensures SameAt(s.nodes, CopyEntry(env, s, f).state.nodes, q) {
      var st := Stat(env, s, f.source);
      if st.0.Success? {
        RunFrame(env, st.1, CopyPlan(f, st.0.value), q);
      }
    }
  }

  /** The seven calls a successful entry makes after stat, each of which went through. */
  ghost predicate CopySteps(env: Env, s1: Snapshot, f: File, mode: Perm,
    s2: Snapshot, s3: Snapshot, s4: Snapshot, s5: Snapshot, s6: Snapshot, s7: Snapshot, s8: Snapshot)
  {
    && Perform(env, s1, OpenCall(f.source)) == (None, s2)
    && Perform(env, s2, CreateCall(Tmp(f))) == (None, s3)
    && Perform(env, s3, CopyCall(f.source, Tmp(f))) == (None, s4)
    && Perform(env, s4, ChmodCall(Tmp(f), mode)) == (None, s5)
    && (if f.gid > -1 then Perform(env, s5, ChownCall(Tmp(f), f.uid, f.gid)) == (None, s6) else s6 == s5)
    && Perform(env, s6, RemoveAllCall(f.dest)) == (None, s7)
    && Perform(env, s7, RenameCall(Tmp(f), f.dest)) == (None, s8)
  }

  /** A successful entry is stat followed by the seven steps of CopySteps. */
  lemma CopyEntrySteps(env: Env, s: Snapshot, f: File)
    returns (s2: Snapshot, s3: Snapshot, s4: Snapshot, s5: Snapshot, s6: Snapshot, s7: Snapshot, s8: Snapshot)
    requires CopyEntry(env, s, f).Next?
    ensures f.source in s.nodes
    ensures CopySteps(env, Log(s, StatCall(f.source)), f, s.nodes[f.source].perm, s2, s3, s4, s5, s6, s7, s8)
    ensures CopyEntry(env, s, f).state == s8
  {
    var st := Stat(env, s, f.source);
    var mode := st.0.value;
    var plan := CopyPlan(f, mode);
    var c := if f.gid > -1 then 1 else 0;
    CopyPlanShape(f, mode);
    assert plan[0..] == plan;
    s2 := RunAt(env, st.1, plan, 0);
    s3 := RunAt(env, s2, plan, 1);
    s4 := RunAt(env, s3, plan, 2);
    s5 := RunAt(env, s4, plan, 3);
    s6 := s5;
    if f.gid > -1 {
      s6 := RunAt(env, s5, plan, 4);
    }
    s7 := RunAt(env, s6, plan, 4 + c);
    s8 := RunAt(env, s7, plan, 5 + c);
    assert plan[6 + c..] == [];
  }

  /** A successful entry makes exactly the calls of CopyCalls. */
  lemma CopyEntryTrace(env: Env, s: Snapshot, f: File)
    requires CopyEntry(env, s, f).Next?
    ensures f.source in s.nodes && CopyEntry(env, s, f).state.trace == s.trace + CopyCalls(f, s.nodes[f.source].perm)
  {
    var st := Stat(env, s, f.source);
    var plan := CopyPlan(f, st.0.value);
    RunTrace(env, st.1, plan);
    CopyPlanCalls(f, st.0.value);
  }

  /** What the seven steps leave at the destination and below it. */
  lemma StepsPlace(env: Env, s: Snapshot, f: File,
    s2: Snapshot, s3: Snapshot, s4: Snapshot, s5: Snapshot, s6: Snapshot, s7: Snapshot, s8: Snapshot)
    requires f.source in s.nodes
    requires CopySteps(env, Log(s, StatCall(f.source)), f, s.nodes[f.source].perm, s2, s3, s4, s5, s6, s7, s8)
    ensures Placed(env, s.nodes, s8.nodes, f)
    ensures forall q :: Under(q, f.dest) ==> q !in s8.nodes
  {
    StepsFill(env, s, f, s2, s3, s4, s5, s6);
    TmpIsNotDest(f);
    RemovedTree(env, s6, f.dest, Tmp(f));
    Renamed(env, s7, Tmp(f), f.dest);
  }

  /** Create, copy, chmod and (when GID > -1) chown leave the temporary file as the replacement. */
  lemma StepsFill(env: Env, s: Snapshot, f: File, s2: Snapshot, s3: Snapshot, s4: Snapshot, s5: Snapshot, s6: Snapshot)
    requires f.source in s.nodes
    requires Perform(env, Log(s, StatCall(f.source)), OpenCall(f.source)) == (None, s2)
    requires Perform(env, s2, CreateCall(Tmp(f))) == (None, s3)
    requires Perform(env, s3, CopyCall(f.source, Tmp(f))) == (None, s4)
    requires Perform(env, s4, ChmodCall(Tmp(f), s.nodes[f.source].perm)) == (None, s5)
    requires if f.gid > -1 then Perform(env, s5, ChownCall(Tmp(f), f.uid, f.gid)) == (None, s6) else s6 == s5
    ensures Tmp(f) in s6.nodes && s6.nodes[Tmp(f)] == Replacement(env, s.nodes, f)
  {
    var tmp := Tmp(f);
    var mode := s.nodes[f.source].perm;
    var placed := Replacement(env, s.nodes, f);
    assert s2.nodes == s.nodes;
    CreatedTmp(env, s2, tmp);
    CopiedContent(env, s3, f.source, tmp);
    assert s4.nodes[tmp].kind == RegularFile;
    assert s5.nodes[tmp] == s4.nodes[tmp].(perm := mode);
    if f.gid > -1 {
      ChownedIds(env, s5, tmp, f.uid, f.gid);
    }
  }

  /**
   * A successful entry leaves the source's content and mode at the destination, owned as
   * Replacement says, removes the temporary file and every node that was below the
   * destination, and makes exactly the calls of CopyCalls.
   */
  lemma CopyEntryPlaces(env: Env, s: Snapshot, f: File)
    requires CopyEntry(env, s, f).Next?
    ensures Placed(env, s.nodes, CopyEntry(env, s, f).state.nodes, f)
    ensures forall q :: Under(q, f.dest) ==> q !in CopyEntry(env, s, f).state.nodes
    ensures f.source in s.nodes && CopyEntry(env, s, f).state.trace == s.trace + CopyCalls(f, s.nodes[f.source].perm)
  {
    var s2, s3, s4, s5, s6, s7, s8 := CopyEntrySteps(env, s, f);
    StepsPlace(env, s, f, s2, s3, s4, s5, s6, s7, s8);
    CopyEntryTrace(env, s, f);
  }

  lemma CreatedTmp(env: Env, s: Snapshot, p: Path)
    requires Perform(env, s, CreateCall(p)).0.None?
    ensures p in Perform(env, s, CreateCall(p)).1.nodes
    ensures Perform(env, s, CreateCall(p)).1.nodes[p] ==
      if p in s.nodes then s.nodes[p].(content := "")
      else Node(RegularFile, Masked(CreateFileMode, env.umask), env.euid, env.egid, "")
    ensures p in s.nodes ==> s.nodes[p].kind == RegularFile
  {
  }

  lemma CopiedContent(env: Env, s: Snapshot, src: Path, dst: Path)
    requires Perform(env, s, CopyCall(src, dst)).0.None?
    ensures src in s.nodes && dst in s.nodes
    ensures Perform(env, s, CopyCall(src, dst)).1.nodes[dst] == s.nodes[dst].(content := s.nodes[src].content)
  {
  }

  lemma ChownedIds(env: Env, s: Snapshot, p: Path, uid: int, gid: int)
    requires Perform(env, s, ChownCall(p, uid, gid)).0.None?
    ensures p in s.nodes
    ensures Perform(env, s, ChownCall(p, uid, gid)).1.nodes[p] ==
      s.nodes[p].(uid := ChownId(uid, s.nodes[p].uid), gid := ChownId(gid, s.nodes[p].gid),
                  perm := if s.nodes[p].kind == RegularFile then ChownedMode(s.nodes[p].perm) else s.nodes[p].perm)
  {
  }

  lemma RemovedTree(env: Env, s: Snapshot, p: Path, keep: Path)
    requires p != "" && keep != p && !Under(keep, p)
    ensures Perform(env, s, RemoveAllCall(p)).0.None? ==>
      (forall q :: (q == p || Under(q, p)) ==> q !in Perform(env, s, RemoveAllCall(p)).1.nodes)
      && SameAt(s.nodes, Perform(env, s, RemoveAllCall(p)).1.nodes, keep)
  {
  }

  lemma Renamed(env: Env, s: Snapshot, src: Path, dst: Path)
    requires src != dst
    requires Perform(env, s, RenameCall(src, dst)).0.None?
    ensures src in s.nodes && dst != ""
    ensures var after := Perform(env, s, RenameCall(src, dst)).1.nodes;
      dst in after && after[dst] == s.nodes[src] && src !in after
      && forall q :: q != src && q != dst ==> SameAt(s.nodes, after, q)
  {
  }

  /** With GID > -1 a successful entry leaves the destination owned by (UID, GID) when both are real ids. */
  lemma CopyEntryOwner(env: Env, s: Snapshot, f: File)
    requires CopyEntry(env, s, f).Next?
    requires 0 <= f.uid < 0xFFFF_FFFF && 0 <= f.gid < 0xFFFF_FFFF
    ensures f.dest in CopyEntry(env, s, f).state.nodes
    ensures CopyEntry(env, s, f).state.nodes[f.dest].uid == f.uid
    ensures CopyEntry(env, s, f).state.nodes[f.dest].gid == f.gid
  {
    CopyEntryPlaces(env, s, f);
  }

  /**
   * With GID <= -1 chown is never called: the destination keeps the owner of the temporary
   * file, which is the process's ids when the temporary file did not exist before.
   */
  lemma CopyEntryKeepsOwner(env: Env, s: Snapshot, f: File)
    requires CopyEntry(env, s, f).Next?
    requires f.gid <= -1 && Tmp(f) !in s.nodes
    ensures f.dest in CopyEntry(env, s, f).state.nodes
    ensures CopyEntry(env, s, f).state.nodes[f.dest].uid == env.euid
    ensures CopyEntry(env, s, f).state.nodes[f.dest].gid == env.egid
    ensures |s.trace| <= |CopyEntry(env, s, f).state.trace|
    ensures forall c :: c in CopyEntry(env, s, f).state.trace[|s.trace|..] ==> !c.ChownCall?
  {
    CopyEntryPlaces(env, s, f);
  }

  /**
   * An entry stops the batch with a nil error exactly when the source can be stat'ed but
   * opening it or creating the temporary file fails.
   */
  lemma CopyEntryNilOnOpenOrCreate(env: Env, s: Snapshot, f: File)
    ensures (CopyEntry(env, s, f).Stop? && CopyEntry(env, s, f).err.None?)
      <==> (f.source != "" && !BelowFile(s.nodes, f.source) && f.source in s.nodes && StatCall(f.source) !in env.faults
            && (OpenCall(f.source) in env.faults || Refusal(env, s.nodes, CreateCall(Tmp(f))).Some?))
  {
    var st := Stat(env, s, f.source);
    if st.0.Success? {
      var plan := CopyPlan(f, st.0.value);
      CopyPlanShape(f, st.0.value);
      assert plan[0..] == plan;
      RunHead(env, st.1, plan, 0);
      var r1 := Perform(env, st.1, plan[0].call);
      RunHead(env, r1.1, plan, 1);
      var r2 := Perform(env, r1.1, plan[1].call);
      assert forall a :: a in plan[2..] ==> !a.nilOnError by {
        forall a | a in plan[2..] ensures !a.nilOnError {
          var i :| 0 <= i < |plan[2..]| && plan[2..][i] == a;
          assert a == plan[i + 2];
        }
      }
      RunKeepsErrors(env, r2.1, plan[2..]);
    }
  }

  /** The Remove field of File is never read. */
  lemma CopyEntryIgnoresRemove(env: Env, s: Snapshot, f: File, remove: bool)
    ensures CopyEntry(env, s, f.(remove := remove)) == CopyEntry(env, s, f)
  {
  }

  /**
   * A batch that stops does so at some entry k: the entries before it all went through,
   * entry k gives the batch's result and final system, and the entries after it are never
   * processed (the batch equals its first k + 1 entries). Nothing rolls the earlier entries
   * back, but entry k's RemoveAll may reach their files (see CopyFilesStopKeepsEarlier).
   */
  lemma {:induction false} CopyFilesFirstStop(env: Env, s: Snapshot, files: seq<File>) returns (k: nat)
    requires CopyAll(env, s, files).Stop?
    ensures k < |files| && CopyAll(env, s, files[..k]).Next?
    ensures CopyEntry(env, CopyAll(env, s, files[..k]).state, files[k]) == CopyAll(env, s, files)
    ensures CopyAll(env, s, files[..k + 1]) == CopyAll(env, s, files)
    decreases |files|
  {
    var f, rest := files[0], files[1..];
    assert files == [f] + rest;
    if CopyEntry(env, s, f).Stop? {
      k := 0;
      assert files[..0] == [] && files[..1] == [f];
      CopyAllSingle(env, s, f);
    } else {
      var s' := CopyEntry(env, s, f).state;
      CopyAllCons(env, s, f, rest);
      var j := CopyFilesFirstStop(env, s', rest);
      k := j + 1;
      assert files[..k] == [f] + rest[..j] && files[..k + 1] == [f] + rest[..j + 1] && files[k] == rest[j];
      CopyAllCons(env, s, f, rest[..j]);
      CopyAllCons(env, s, f, rest[..j + 1]);
    }
  }

  /** After an entry that goes through, the batch goes on with the rest from where it left off. */
  lemma CopyAllCons(env: Env, s: Snapshot, f: File, rest: seq<File>)
    requires CopyEntry(env, s, f).Next?
    ensures CopyAll(env, s, [f] + rest) == CopyAll(env, CopyEntry(env, s, f).state, rest)
  {
    assert ([f] + rest)[0] == f && ([f] + rest)[1..] == rest;
  }

  /**
   * When a batch of independent entries stops at entry k, every entry before k is still in
   * place at the end: entry k's RemoveAll and rename reach none of their files.
   */
  lemma CopyFilesStopKeepsEarlier(env: Env, s: Snapshot, files: seq<File>) returns (k: nat)
    requires Independent(files)
    requires CopyAll(env, s, files).Stop?
    ensures k < |files| && CopyEntry(env, CopyAll(env, s, files[..k]).state, files[k]) == CopyAll(env, s, files)
    ensures forall i :: 0 <= i < k ==> Placed(env, s.nodes, CopyAll(env, s, files).state.nodes, files[i])
  {
    k := CopyFilesFirstStop(env, s, files);
    var pre := files[..k];
    var mid := CopyAll(env, s, pre).state;
    var last := CopyAll(env, s, files).state;
    assert Independent(pre) by {
      forall i, j | 0 <= i < |pre| && 0 <= j < |pre| && i != j
        ensures !Touches(pre[j], pre[i].source) && !Touches(pre[j], pre[i].dest) && !Touches(pre[j], Tmp(pre[i]))
      {
        assert pre[i] == files[i] && pre[j] == files[j];
      }
    }
    CopyFilesPlacesAll(env, s, pre);
    CopyEntryFrame(env, mid, files[k]);
    forall i | 0 <= i < k ensures Placed(env, s.nodes, last.nodes, files[i]) {
      assert pre[i] == files[i];
      assert Placed(env, s.nodes, mid.nodes, files[i]);
      assert SameAt(mid.nodes, last.nodes, files[i].dest) && SameAt(mid.nodes, last.nodes, Tmp(files[i]));
    }
  }

  /** A batch that goes through changes nothing that none of its entries touches. */
  lemma {:induction false} CopyFilesFrame(env: Env, s: Snapshot, files: seq<File>, q: Path)
    requires forall i :: 0 <= i < |files| ==> !Touches(files[i], q)
    ensures SameAt(s.nodes, CopyAll(env, s, files).state.nodes, q)
    decreases |files|
  {
    if files != [] {
      CopyEntryFrame(env, s, files[0]);
      match CopyEntry(env, s, files[0])
      case Stop(_, _) =>
      case Next(s') =>
        CopyFilesFrame(env, s', files[1..], q);
    }
  }

  /** No entry touches another entry's source, destination or temporary file. */
  ghost predicate Independent(files: seq<File>) {
    forall i, j :: 0 <= i < |files| && 0 <= j < |files| && i != j ==>
      !Touches(files[j], files[i].source) && !Touches(files[j], files[i].dest) && !Touches(files[j], Tmp(files[i]))
  }

  /** After a successful batch of independent entries every destination holds its replacement. */
  lemma {:induction false} CopyFilesPlacesAll(env: Env, s: Snapshot, files: seq<File>)
    requires Independent(files)
    requires CopyAll(env, s, files).Next?
    ensures forall i :: 0 <= i < |files| ==> Placed(env, s.nodes, CopyAll(env, s, files).state.nodes, files[i])
    decreases |files|
  {
    if files != [] {
      var f := files[0];
      var rest := files[1..];
      var s1 := CopyEntry(env, s, f).state;
      var after := CopyAll(env, s, files).state;
      assert CopyEntry(env, s, f).Next?;
      assert after == CopyAll(env, s1, rest).state;
      assert Independent(rest) by {
        forall i, j | 0 <= i < |rest| && 0 <= j < |rest| && i != j
          ensures !Touches(rest[j], rest[i].source) && !Touches(rest[j], rest[i].dest) && !Touches(rest[j], Tmp(rest[i]))
        {
          assert rest[i] == files[i + 1] && rest[j] == files[j + 1];
        }
      }
      CopyFilesPlacesAll(env, s1, rest);
      CopyEntryPlaces(env, s, f);
      CopyEntryFrame(env, s, f);
      // the first entry: nothing after it touches its destination or temporary file
      forall i | 0 <= i < |rest| ensures !Touches(rest[i], f.dest) && !Touches(rest[i], Tmp(f)) {
        assert rest[i] == files[i + 1];
      }
      CopyFilesFrame(env, s1, rest, f.dest);
      CopyFilesFrame(env, s1, rest, Tmp(f));
      assert Placed(env, s.nodes, after.nodes, files[0]);
      // the others: the first entry touched neither their sources nor their temporary files
      forall i | 1 <= i < |files| ensures Placed(env, s.nodes, after.nodes, files[i]) {
        var g := files[i];
        assert g == rest[i - 1];
        assert Placed(env, s1.nodes, after.nodes, g);
        assert !Touches(f, g.source) && !Touches(f, Tmp(g));
        assert SameAt(s.nodes, s1.nodes, g.source) && SameAt(s.nodes, s1.nodes, Tmp(g));
        assert Replacement(env, s1.nodes, g) == Replacement(env, s.nodes, g);
      }
    }
  }

  // ----------------------------------------------------------------------------------
  // Chmod before chown

  /**
   * As written, an entry chmods the temporary file to the source's mode and only then chowns
   * it, so with GID > -1 chown clears the setuid bit (and setgid with group execute) that
   * chmod had just copied: the destination's mode is not the source's.
   */
  lemma CopyEntryChownClearsSetuid(env: Env, s: Snapshot, f: File)
    requires CopyEntry(env, s, f).Next? && f.gid > -1
    ensures f.source in s.nodes && f.dest in CopyEntry(env, s, f).state.nodes
    ensures CopyEntry(env, s, f).state.nodes[f.dest].perm == ChownedMode(s.nodes[f.source].perm)
    ensures s.nodes[f.source].perm & SetUid != 0 ==>
      CopyEntry(env, s, f).state.nodes[f.dest].perm != s.nodes[f.source].perm
  {
    CopyEntryPlaces(env, s, f);
  }

  /** A setuid binary with mode 04755 is published as 0755. */
  lemma SetuidBinaryLosesSetuid()
    ensures ChownedMode(0x9ED) == 0x1ED
  {
  }

  /** The fill step with chown moved before chmod, so the mode chmod sets is final. */
  function ChownFirstFillPlan(f: File, mode: Perm): seq<Action> {
    [Action(System, CopyCall(f.source, Tmp(f)), false)]
    + (if f.gid > -1 then [Action(System, ChownCall(Tmp(f), f.uid, f.gid), false)] else [])
    + [Action(System, ChmodCall(Tmp(f), mode), false)]
  }

  /** One entry of CopyFiles with chown before chmod. */
  function ChownFirstCopyEntry(env: Env, s: Snapshot, f: File): Step {
    var (info, s1) := Stat(env, s, f.source);
    if info.Failure? then Stop(Some(info.error), s1)
    else Run(env, s1, OpenPlan(f) + ChownFirstFillPlan(f, info.value) + PlacePlan(f))
  }

  /** Chmod to `mode`, then RemoveAll and rename: when all three go through, the destination has `mode`. */
  lemma ChmodThenPlace(env: Env, s: Snapshot, f: File, mode: Perm)
    requires Run(env, s, [Action(System, ChmodCall(Tmp(f), mode), false)] + PlacePlan(f)).Next?
    ensures var after := Run(env, s, [Action(System, ChmodCall(Tmp(f), mode), false)] + PlacePlan(f)).state;
      f.dest in after.nodes && after.nodes[f.dest].perm == mode
  {
    var tmp := Tmp(f);
    var tail := [Action(System, ChmodCall(tmp, mode), false)] + PlacePlan(f);
    assert tail[0..] == tail;
    var s5 := RunAt(env, s, tail, 0);
    var s6 := RunAt(env, s5, tail, 1);
    var s7 := RunAt(env, s6, tail, 2);
    assert tail[3..] == [];
    TmpIsNotDest(f);
    RemovedTree(env, s5, f.dest, tmp);
    Renamed(env, s6, tmp, f.dest);
  }

  /** With chown before chmod, a successful entry leaves the destination with exactly the source's mode. */
  lemma ChownFirstCopyKeepsMode(env: Env, s: Snapshot, f: File)
    requires ChownFirstCopyEntry(env, s, f).Next?
    ensures f.source in s.nodes && f.dest in ChownFirstCopyEntry(env, s, f).state.nodes
    ensures ChownFirstCopyEntry(env, s, f).state.nodes[f.dest].perm == s.nodes[f.source].perm
  {
    var st := Stat(env, s, f.source);
    var mode := st.0.value;
    var pre := OpenPlan(f) + [Action(System, CopyCall(f.source, Tmp(f)), false)]
      + (if f.gid > -1 then [Action(System, ChownCall(Tmp(f), f.uid, f.gid), false)] else []);
    var tail := [Action(System, ChmodCall(Tmp(f), mode), false)] + PlacePlan(f);
    assert OpenPlan(f) + ChownFirstFillPlan(f, mode) + PlacePlan(f) == pre + tail;
    RunAppend(env, st.1, pre, tail);
    ChmodThenPlace(env, Run(env, st.1, pre).state, f, mode);
  }

  // ----------------------------------------------------------------------------------
  // The directory builder and Directory.Create

  /** Build gives the Directory the setters configured, whatever order they were called in. */
  lemma BuildConfigured(path: Path, mode: Perm, uid: int, gid: int)
    ensures NewDirectoryBuilder(path).Mode(mode).UID(uid).GID(gid).Build()
         == Directory(path, Some(mode), uid, gid, System, System, System)
    ensures NewDirectoryBuilder(path).GID(gid).UID(uid).Mode(mode).Build()
         == NewDirectoryBuilder(path).Mode(mode).UID(uid).GID(gid).Build()
  {
  }

  /** The setters commute, and a setter called again keeps only its last value. */
  lemma SettersCommute(b: DirectoryBuilder, mode: Perm, mode': Perm, uid: int, uid': int, gid: int, gid': int)
    ensures b.UID(uid).GID(gid) == b.GID(gid).UID(uid)
    ensures b.UID(uid).Mode(mode) == b.Mode(mode).UID(uid)
    ensures b.GID(gid).Mode(mode) == b.Mode(mode).GID(gid)
    ensures b.UID(uid).UID(uid') == b.UID(uid') && b.GID(gid).GID(gid') == b.GID(gid')
    ensures b.Mode(mode).Mode(mode') == b.Mode(mode')
  {
  }

  /** The mkdirAll step of Create, and the system after it. */
  function MkdirStep(env: Env, s: Snapshot, d: Directory): (Option<Error>, Snapshot) {
    Apply(env, s, d.mkdirAll, MkdirAllCall(d.path, DefaultDirectoryMode))
  }

  /** The chmod step of Create, when a mode is set. */
  function ChmodStep(env: Env, s: Snapshot, d: Directory): (Option<Error>, Snapshot)
    requires d.mode.Some?
  {
    Apply(env, MkdirStep(env, s, d).1, d.chmod, ChmodCall(d.path, d.mode.value))
  }

  /** The system chown would act on: after mkdirAll and, when a mode is set, chmod. */
  function BeforeChown(env: Env, s: Snapshot, d: Directory): Snapshot {
    if d.mode.Some? then ChmodStep(env, s, d).1 else MkdirStep(env, s, d).1
  }

  /** The calls Create made. */
  function CreateCallsMade(env: Env, s: Snapshot, d: Directory): seq<Call> {
    var t := CreateOne(env, s, d).1.trace;
    if |s.trace| <= |t| then t[|s.trace|..] else []
  }

  /**
   * Create's plan is the Go control flow: mkdirAll, then chmod when a mode is set, then
   * chown when GID > -1; the first call that fails gives the result, and chown's result
   * is Create's once it is called.
   */
  lemma CreateSteps(env: Env, s: Snapshot, d: Directory)
    ensures CreateOne(env, s, d) ==
      if MkdirStep(env, s, d).0.Some? then MkdirStep(env, s, d)
      else if d.mode.Some? && ChmodStep(env, s, d).0.Some? then ChmodStep(env, s, d)
      else if d.gid > -1 then Apply(env, BeforeChown(env, s, d), d.chown, ChownCall(d.path, d.uid, d.gid))
      else (None, BeforeChown(env, s, d))
  {
    var plan := CreatePlan(d);
    var k := if d.mode.Some? then 2 else 1;
    assert plan[0..] == plan;
    assert plan[0] == Action(d.mkdirAll, MkdirAllCall(d.path, DefaultDirectoryMode), false);
    assert d.mode.Some? ==> plan[1] == Action(d.chmod, ChmodCall(d.path, d.mode.value), false);
    assert d.gid > -1 ==> plan[k] == Action(d.chown, ChownCall(d.path, d.uid, d.gid), false);
    assert |plan| == k + (if d.gid > -1 then 1 else 0);
    RunHead(env, s, plan, 0);
    var s1 := MkdirStep(env, s, d).1;
    if MkdirStep(env, s, d).0.None? {
      if d.mode.Some? {
        RunHead(env, s1, plan, 1);
      }
      var s2 := BeforeChown(env, s, d);
      if d.gid > -1 && (d.mode.None? || ChmodStep(env, s, d).0.None?) {
        RunHead(env, s2, plan, k);
        assert plan[k + 1..] == [];
      }
      if d.gid <= -1 {
        assert plan[k..] == [];
      }
    }
  }

  /**
   * Create always calls mkdirAll(Path, 0701) first; when that fails its error is the result,
   * nothing else is called and no node changes.
   */
  lemma CreateCallsMkdirAllFirst(env: Env, s: Snapshot, d: Directory)
    ensures |s.trace| < |CreateOne(env, s, d).1.trace|
    ensures CreateOne(env, s, d).1.trace[..|s.trace| + 1] == s.trace + [MkdirAllCall(d.path, DefaultDirectoryMode)]
    ensures CreateOne(env, s, d).1.stdout == s.stdout
    ensures MkdirStep(env, s, d).0.Some? ==>
      CreateOne(env, s, d).0 == MkdirStep(env, s, d).0
      && CreateCallsMade(env, s, d) == [MkdirAllCall(d.path, DefaultDirectoryMode)]
      && CreateOne(env, s, d).1.nodes == s.nodes
  {
    CreateSteps(env, s, d);
  }

  /**
   * Once mkdirAll succeeded, chmod(Path, *Mode) is called exactly when a mode is set; when it
   * fails its error is the result and chown is not called.
   */
  lemma CreateChmodsExactlyWhenModeSet(env: Env, s: Snapshot, d: Directory)
    requires MkdirStep(env, s, d).0.None?
    ensures (exists c :: c in CreateCallsMade(env, s, d) && c.ChmodCall?) <==> d.mode.Some?
    ensures d.mode.Some? ==> ChmodCall(d.path, d.mode.value) in CreateCallsMade(env, s, d)
    ensures d.mode.Some? && ChmodStep(env, s, d).0.Some? ==>
      CreateOne(env, s, d).0 == ChmodStep(env, s, d).0
      && forall c :: c in CreateCallsMade(env, s, d) ==> !c.ChownCall?
  {
    CreateSteps(env, s, d);
    var t := CreateOne(env, s, d).1.trace;
    var calls := CreateCallsMade(env, s, d);
    var s1 := MkdirStep(env, s, d).1;
    assert s1.trace == s.trace + [MkdirAllCall(d.path, DefaultDirectoryMode)];
    if d.mode.Some? {
      assert calls[1] == ChmodCall(d.path, d.mode.value);
    } else {
      assert calls == [MkdirAllCall(d.path, DefaultDirectoryMode)]
        + (if d.gid > -1 then [ChownCall(d.path, d.uid, d.gid)] else []);
    }
  }

  /**
   * Once mkdirAll and chmod succeeded, chown(Path, UID, GID) is called exactly when GID > -1,
   * with UID passed as it is (so -1 when only the group was set), and its result is Create's.
   */
  lemma CreateChownsExactlyWhenGidSet(env: Env, s: Snapshot, d: Directory)
    requires MkdirStep(env, s, d).0.None?
    requires d.mode.Some? ==> ChmodStep(env, s, d).0.None?
    ensures (exists c :: c in CreateCallsMade(env, s, d) && c.ChownCall?) <==> d.gid > -1
    ensures d.gid > -1 ==>
      (ChownCall(d.path, d.uid, d.gid) in CreateCallsMade(env, s, d)
       && CreateOne(env, s, d) == Apply(env, BeforeChown(env, s, d), d.chown, ChownCall(d.path, d.uid, d.gid)))
    ensures d.gid <= -1 ==> CreateOne(env, s, d) == (None, BeforeChown(env, s, d))
  {
    CreateSteps(env, s, d);
    var calls := CreateCallsMade(env, s, d);
    var pre := [MkdirAllCall(d.path, DefaultDirectoryMode)]
      + (if d.mode.Some? then [ChmodCall(d.path, d.mode.value)] else []);
    assert BeforeChown(env, s, d).trace == s.trace + pre;
    if d.gid > -1 {
      assert calls == pre + [ChownCall(d.path, d.uid, d.gid)];
      assert calls[|calls| - 1] == ChownCall(d.path, d.uid, d.gid);
    } else {
      assert calls == pre;
    }
  }

  /** mkdirAll, chmod and chown, real or injected, remove no node and change no node's kind. */
  lemma ApplyKeepsNodes(env: Env, s: Snapshot, prim: Prim, c: Call)
    requires c.MkdirAllCall? || c.ChmodCall? || c.ChownCall?
    ensures forall q :: q in s.nodes ==>
      (q in Apply(env, s, prim, c).1.nodes && Apply(env, s, prim, c).1.nodes[q].kind == s.nodes[q].kind)
  {
  }

  /** Create removes no node and changes no node's kind. */
  lemma CreateKeepsNodes(env: Env, s: Snapshot, d: Directory)
    ensures forall q :: q in s.nodes ==>
      (q in CreateOne(env, s, d).1.nodes && CreateOne(env, s, d).1.nodes[q].kind == s.nodes[q].kind)
  {
    CreateSteps(env, s, d);
    var s1 := MkdirStep(env, s, d).1;
    ApplyKeepsNodes(env, s, d.mkdirAll, MkdirAllCall(d.path, DefaultDirectoryMode));
    if d.mode.Some? {
      ApplyKeepsNodes(env, s1, d.chmod, ChmodCall(d.path, d.mode.value));
    }
    ApplyKeepsNodes(env, BeforeChown(env, s, d), d.chown, ChownCall(d.path, d.uid, d.gid));
  }

  /** A successful Create with the real mkdirAll leaves its path a directory. */
  lemma CreateMakesDir(env: Env, s: Snapshot, d: Directory)
    requires d.mkdirAll == System && CreateOne(env, s, d).0.None?
    ensures d.path in CreateOne(env, s, d).1.nodes && CreateOne(env, s, d).1.nodes[d.path].kind == Dir
  {
    CreateSteps(env, s, d);
    var s1 := MkdirStep(env, s, d).1;
    assert d.path in s1.nodes && s1.nodes[d.path].kind == Dir;
    if d.mode.Some? {
      ApplyKeepsNodes(env, s1, d.chmod, ChmodCall(d.path, d.mode.value));
    }
    ApplyKeepsNodes(env, BeforeChown(env, s, d), d.chown, ChownCall(d.path, d.uid, d.gid));
  }

  /** Without a mode, a directory Create makes is left with 0701 &^ umask. */
  lemma CreateDefaultMode(env: Env, s: Snapshot, d: Directory)
    requires d.mode.None? && d.mkdirAll == System && d.path !in s.nodes
    requires CreateOne(env, s, d).0.None?
    ensures d.path in CreateOne(env, s, d).1.nodes
    ensures CreateOne(env, s, d).1.nodes[d.path].kind == Dir
    ensures CreateOne(env, s, d).1.nodes[d.path].perm == Masked(DefaultDirectoryMode, env.umask)
  {
    CreateSteps(env, s, d);
  }

  /**
   * With a mode, the directory ends with exactly that mode, whatever the umask: chown keeps
   * a directory's set-id bits.
   */
  lemma CreateExplicitMode(env: Env, s: Snapshot, d: Directory)
    requires d.mode.Some? && d.mkdirAll == System && d.chmod == System
    requires CreateOne(env, s, d).0.None?
    ensures d.path in CreateOne(env, s, d).1.nodes
    ensures CreateOne(env, s, d).1.nodes[d.path].perm == d.mode.value
  {
    CreateSteps(env, s, d);
    var s1 := MkdirStep(env, s, d).1;
    assert d.path in s1.nodes && s1.nodes[d.path].kind == Dir;
    ApplyKeepsNodes(env, s1, d.chmod, ChmodCall(d.path, d.mode.value));
  }

  /**
   * A directory Create makes is owned by (UID, GID) when GID > -1; a UID of -1 (only the
   * group set) keeps the process's user id, and GID <= -1 keeps both of the process's ids.
   */
  lemma CreateOwner(env: Env, s: Snapshot, d: Directory)
    requires d.mkdirAll == System && d.chown == System && d.path !in s.nodes
    requires CreateOne(env, s, d).0.None?
    ensures d.path in CreateOne(env, s, d).1.nodes
    ensures var n := CreateOne(env, s, d).1.nodes[d.path];
      && (d.gid > -1 ==> n.uid == ChownId(d.uid, env.euid) && n.gid == ChownId(d.gid, env.egid))
      && (d.gid <= -1 ==> n.uid == env.euid && n.gid == env.egid)
  {
    CreateSteps(env, s, d);
  }

  /** Only the group set (the builder's UID left at -1): the group changes, the user stays the process's. */
  lemma CreateGroupOnly(env: Env, s: Snapshot, path: Path, gid: int)
    requires 0 <= gid < 0xFFFF_FFFF && path !in s.nodes
    requires CreateOne(env, s, NewDirectoryBuilder(path).GID(gid).Build()).0.None?
    ensures var d := NewDirectoryBuilder(path).GID(gid).Build();
      path in CreateOne(env, s, d).1.nodes
      && ChownCall(path, -1, gid) in CreateCallsMade(env, s, d)
      && CreateOne(env, s, d).1.nodes[path].uid == env.euid
      && CreateOne(env, s, d).1.nodes[path].gid == gid
  {
    var d := NewDirectoryBuilder(path).GID(gid).Build();
    CreateOwner(env, s, d);
    CreateChownsExactlyWhenGidSet(env, s, d);
  }

  // ----------------------------------------------------------------------------------
  // CreateDirectories

  /**
   * A batch that fails does so at some directory k: the ones before it were all created,
   * directory k gives the error and the final system, and the ones after it are never
   * touched (the batch equals its first k + 1 directories).
   */
  lemma {:induction false} CreateDirectoriesFirstError(env: Env, s: Snapshot, ds: seq<Directory>) returns (k: nat)
    requires CreateAll(env, s, ds).0.Some?
    ensures k < |ds| && CreateAll(env, s, ds[..k]).0.None?
    ensures CreateOne(env, CreateAll(env, s, ds[..k]).1, ds[k]) == CreateAll(env, s, ds)
    ensures CreateAll(env, s, ds[..k + 1]) == CreateAll(env, s, ds)
    decreases |ds|
  {
    var (e, s') := CreateOne(env, s, ds[0]);
    assert ds[..1] == [ds[0]] && [ds[0]][1..] == [];
    if e.Some? {
      k := 0;
      assert ds[..0] == [];
    } else {
      var j := CreateDirectoriesFirstError(env, s', ds[1..]);
      k := j + 1;
      assert ds[..k][0] == ds[0] && ds[..k][1..] == ds[1..][..j];
      assert ds[..k + 1][0] == ds[0] && ds[..k + 1][1..] == ds[1..][..j + 1];
    }
  }

  /**
   * When a batch fails at directory k, every directory before k whose mkdirAll is the real
   * one still exists as a directory: a failing Create removes no node.
   */
  lemma CreateDirectoriesFailKeepsEarlier(env: Env, s: Snapshot, ds: seq<Directory>) returns (k: nat)
    requires CreateAll(env, s, ds).0.Some?
    ensures k < |ds| && CreateOne(env, CreateAll(env, s, ds[..k]).1, ds[k]) == CreateAll(env, s, ds)
    ensures forall i :: 0 <= i < k && ds[i].mkdirAll == System ==>
      ds[i].path in CreateAll(env, s, ds).1.nodes && CreateAll(env, s, ds).1.nodes[ds[i].path].kind == Dir
  {
    k := CreateDirectoriesFirstError(env, s, ds);
    var pre := ds[..k];
    var mid := CreateAll(env, s, pre).1;
    CreateDirectoriesAllExist(env, s, pre);
    CreateKeepsNodes(env, mid, ds[k]);
    forall i | 0 <= i < k && ds[i].mkdirAll == System
      ensures ds[i].path in CreateAll(env, s, ds).1.nodes && CreateAll(env, s, ds).1.nodes[ds[i].path].kind == Dir
    {
      assert pre[i] == ds[i];
    }
  }

  /** An empty batch succeeds and changes nothing. */
  lemma CreateDirectoriesEmpty(env: Env, s: Snapshot)
    ensures CreateAll(env, s, []) == (None, s)
  {
  }

  /** After a successful batch every directory whose mkdirAll is the real one exists as a directory. */
  lemma {:induction false} CreateDirectoriesAllExist(env: Env, s: Snapshot, ds: seq<Directory>)
    requires CreateAll(env, s, ds).0.None?
    ensures forall i :: 0 <= i < |ds| && ds[i].mkdirAll == System ==>
      ds[i].path in CreateAll(env, s, ds).1.nodes && CreateAll(env, s, ds).1.nodes[ds[i].path].kind == Dir
    ensures forall q :: q in s.nodes ==> q in CreateAll(env, s, ds).1.nodes
    decreases |ds|
  {
    if ds != [] {
      var s1 := CreateOne(env, s, ds[0]).1;
      CreateKeepsNodes(env, s, ds[0]);
      CreateDirectoriesAllExist(env, s1, ds[1..]);
      KeepsKinds(env, s1, ds[1..]);
      if ds[0].mkdirAll == System {
        CreateMakesDir(env, s, ds[0]);
      }
      forall i | 1 <= i < |ds| && ds[i].mkdirAll == System
        ensures ds[i].path in CreateAll(env, s, ds).1.nodes && CreateAll(env, s, ds).1.nodes[ds[i].path].kind == Dir
      {
        assert ds[i] == ds[1..][i - 1];
      }
    }
  }

  lemma {:induction false} KeepsKinds(env: Env, s: Snapshot, ds: seq<Directory>)
    ensures forall q :: q in s.nodes ==>
      (q in CreateAll(env, s, ds).1.nodes && CreateAll(env, s, ds).1.nodes[q].kind == s.nodes[q].kind)
    decreases |ds|
  {
    if ds != [] {
      CreateKeepsNodes(env, s, ds[0]);
      if CreateOne(env, s, ds[0]).0.None? {
        KeepsKinds(env, CreateOne(env, s, ds[0]).1, ds[1..]);
      }
    }
  }

  /** Every node made since `s0` is a directory with mode 0701 &^ umask. */
  ghost predicate NewDirsDefault(env: Env, s0: map<Path, Node>, nodes: map<Path, Node>) {
    forall q :: q in nodes && q !in s0 ==> nodes[q].kind == Dir && nodes[q].perm == Masked(DefaultDirectoryMode, env.umask)
  }

  lemma MkdirKeepsNewDirsDefault(env: Env, s0: map<Path, Node>, s: Snapshot, prim: Prim, p: Path)
    requires NewDirsDefault(env, s0, s.nodes)
    ensures NewDirsDefault(env, s0, Apply(env, s, prim, MkdirAllCall(p, DefaultDirectoryMode)).1.nodes)
  {
  }

  lemma ChownKeepsNewDirsDefault(env: Env, s0: map<Path, Node>, s: Snapshot, prim: Prim, c: Call)
    requires c.ChownCall? && NewDirsDefault(env, s0, s.nodes)
    ensures NewDirsDefault(env, s0, Apply(env, s, prim, c).1.nodes)
  {
  }

  /** Create without a mode keeps every node made since `s0` a directory with mode 0701 &^ umask. */
  lemma CreateKeepsNewDirsDefault(env: Env, s0: map<Path, Node>, s: Snapshot, d: Directory)
    requires d.mode.None? && NewDirsDefault(env, s0, s.nodes)
    ensures NewDirsDefault(env, s0, CreateOne(env, s, d).1.nodes)
  {
    CreateSteps(env, s, d);
    var s1 := MkdirStep(env, s, d).1;
    MkdirKeepsNewDirsDefault(env, s0, s, d.mkdirAll, d.path);
    ChownKeepsNewDirsDefault(env, s0, s1, d.chown, ChownCall(d.path, d.uid, d.gid));
  }

  /**
   * A successful batch of directories without a mode, none of which existed before, leaves
   * every one of them a directory with mode 0701 &^ umask.
   */
  lemma {:induction false} CreateDirectoriesDefaultMode(env: Env, s: Snapshot, ds: seq<Directory>)
    requires forall i :: 0 <= i < |ds| ==> ds[i].mode.None? && ds[i].mkdirAll == System && ds[i].path !in s.nodes
    requires CreateAll(env, s, ds).0.None?
    ensures forall i :: 0 <= i < |ds| ==>
      ds[i].path in CreateAll(env, s, ds).1.nodes
      && CreateAll(env, s, ds).1.nodes[ds[i].path].kind == Dir
      && CreateAll(env, s, ds).1.nodes[ds[i].path].perm == Masked(DefaultDirectoryMode, env.umask)
  {
    DefaultModeFrom(env, s.nodes, s, ds);
    CreateDirectoriesAllExist(env, s, ds);
  }

  lemma {:induction false} DefaultModeFrom(env: Env, s0: map<Path, Node>, s: Snapshot, ds: seq<Directory>)
    requires forall i :: 0 <= i < |ds| ==> ds[i].mode.None?
    requires NewDirsDefault(env, s0, s.nodes)
    ensures NewDirsDefault(env, s0, CreateAll(env, s, ds).1.nodes)
    decreases |ds|
  {
    if ds != [] {
      CreateKeepsNewDirsDefault(env, s0, s, ds[0]);
      if CreateOne(env, s, ds[0]).0.None? {
        DefaultModeFrom(env, s0, CreateOne(env, s, ds[0]).1, ds[1..]);
      }
    }
  }

  // ----------------------------------------------------------------------------------
  // The pidfile check

  /** The stat of /proc succeeds for an empty pid, yet an empty pid is never running. */
  lemma EmptyPidNeverRuns(proc: set<string>)
    ensures ProcExists(proc, "") && !IsRunning(proc, "")
  {
  }

  /** No pidfile (or an empty path, which the kernel reports as missing): success, and nothing but the read happens. */
  lemma CheckMissingPidfile(env: Env, s: Snapshot, path: Path, remove: Prim)
    requires path == "" || (!BelowFile(s.nodes, path) && path !in s.nodes && ReadFileCall(path) !in env.faults)
    ensures CheckPidfile(env, s, path, remove) == (None, Log(s, ReadFileCall(path)))
  {
  }

  /** A missing pidfile whose path cannot be resolved (EACCES on a parent, say) is not excused. */
  lemma CheckRefusedMissingPidfile(env: Env, s: Snapshot, path: Path, remove: Prim)
    requires path != "" && !BelowFile(s.nodes, path) && path !in s.nodes && ReadFileCall(path) in env.faults
    ensures CheckPidfile(env, s, path, remove) == (Some(SysError(ReadFileCall(path), Refused)), Log(s, ReadFileCall(path)))
  {
  }

  /** Any read error other than a missing file is returned, and nothing else is called. */
  lemma CheckReadError(env: Env, s: Snapshot, path: Path, remove: Prim)
    requires Refusal(env, s.nodes, ReadFileCall(path)).Some? && Refusal(env, s.nodes, ReadFileCall(path)).value != NoEntry
    ensures CheckPidfile(env, s, path, remove).0 == Some(SysError(ReadFileCall(path), Refusal(env, s.nodes, ReadFileCall(path)).value))
    ensures CheckPidfile(env, s, path, remove).1 == Log(s, ReadFileCall(path))
  {
  }

  /** A pidfile path below a regular file is not a missing pidfile: ENOTDIR is returned. */
  lemma CheckPidfileBelowFile(env: Env, s: Snapshot, path: Path, remove: Prim)
    requires path != "" && BelowFile(s.nodes, path)
    ensures CheckPidfile(env, s, path, remove) == (Some(SysError(ReadFileCall(path), NotDirectory)), Log(s, ReadFileCall(path)))
  {
  }

  /** The system once the pidfile has been read and /proc/<pid> stat'ed. */
  function Probed(s: Snapshot, path: Path, pid: string): Snapshot {
    Snapshot(s.nodes, s.trace + [ReadFileCall(path), StatCall(ProcPath(pid))], s.stdout)
  }

  /**
   * A pidfile naming a live process: the "garden is already running (pid: <pid>)" error
   * with the trimmed pid, and the pidfile is left in place (remove is not called).
   */
  lemma CheckLiveProcess(env: Env, s: Snapshot, path: Path, remove: Prim)
    requires path != "" && !BelowFile(s.nodes, path) && path in s.nodes && s.nodes[path].kind == RegularFile && ReadFileCall(path) !in env.faults
    requires IsRunning(env.proc, TrimSpace(s.nodes[path].content))
    ensures var pid := TrimSpace(s.nodes[path].content);
      && CheckPidfile(env, s, path, remove) == (Some(AlreadyRunning(pid)), Probed(s, path, pid))
      && Text(AlreadyRunning(pid)) == "garden is already running (pid: " + pid + ")"
      && pid != ""
  {
    var pid := TrimSpace(s.nodes[path].content);
    assert Log(Log(s, ReadFileCall(path)), StatCall(ProcPath(pid))).trace == Probed(s, path, pid).trace;
  }

  /**
   * A pidfile whose trimmed content is no live pid: after the read and the stat the notice
   * is printed and remove(path) is called, and its result is the check's result.
   */
  lemma CheckStalePidfile(env: Env, s: Snapshot, path: Path, remove: Prim)
    requires path != "" && !BelowFile(s.nodes, path) && path in s.nodes && s.nodes[path].kind == RegularFile && ReadFileCall(path) !in env.faults
    requires !IsRunning(env.proc, TrimSpace(s.nodes[path].content))
    ensures var pid := TrimSpace(s.nodes[path].content);
      CheckPidfile(env, s, path, remove) == Apply(env, Notified(s, path, pid), remove, RemoveCall(path))
  {
    var pid := TrimSpace(s.nodes[path].content);
    assert Log(Log(s, ReadFileCall(path)), StatCall(ProcPath(pid))).trace == Probed(s, path, pid).trace;
  }

  /** Probed, with the stale-pidfile notice printed. */
  function Notified(s: Snapshot, path: Path, pid: string): Snapshot {
    Probed(s, path, pid).(stdout := s.stdout + [StaleNotice])
  }

  /**
   * After the notice, remove(path) is called exactly once, last, and its result is the
   * check's: an injected remove changes no node, and os.Remove deletes the pidfile when it
   * succeeds.
   */
  lemma StaleRemove(env: Env, s: Snapshot, path: Path, pid: string, remove: Prim)
    ensures var r := Apply(env, Notified(s, path, pid), remove, RemoveCall(path));
      && r.1.trace == s.trace + [ReadFileCall(path), StatCall(ProcPath(pid)), RemoveCall(path)]
      && r.1.stdout == s.stdout + [StaleNotice]
      && (remove.Stub? ==> r.0 == remove.result && r.1.nodes == s.nodes)
      && (remove == System ==> r.0 == Perform(env, s, RemoveCall(path)).0 && (r.0.None? ==> path !in r.1.nodes))
  {
  }

  /** Every character of `s` is white space. */
  predicate AllSpace(s: string) {
    forall k :: 0 <= k < |s| ==> IsSpace(s[k])
  }

  /**
   * A pidfile holding a pid with white space around it (a trailing newline, say) whose
   * process is not running: the pidfile is deleted and the check succeeds.
   */
  lemma CheckPaddedStalePid(env: Env, s: Snapshot, path: Path, pre: string, pid: string, post: string)
    requires AllSpace(pre) && AllSpace(post) && pid != [] && !IsSpace(pid[0]) && !IsSpace(pid[|pid| - 1])
    requires path != "" && !BelowFile(s.nodes, path) && path in s.nodes && s.nodes[path].kind == RegularFile && s.nodes[path].content == pre + pid + post
    requires pid !in env.proc && ReadFileCall(path) !in env.faults && RemoveCall(path) !in env.faults
    requires forall q :: q in s.nodes ==> !Under(q, path)
    ensures CheckPidfile(env, s, path, System).0 == None
    ensures path !in CheckPidfile(env, s, path, System).1.nodes
  {
    assert TrimSpace(s.nodes[path].content) == pid by {
      TrimPadded(pre, pid, post);
    }
    CheckStalePidfile(env, s, path, System);
    StaleRemove(env, s, path, pid, System);
    RemoveSucceeds(env, s.nodes, path);
  }

  /** os.Remove succeeds on an existing, non-empty path below no regular file, with nothing below it, that is not refused. */
  lemma RemoveSucceeds(env: Env, nodes: map<Path, Node>, path: Path)
    requires path != "" && !BelowFile(nodes, path) && path in nodes && RemoveCall(path) !in env.faults
    requires forall q :: q in nodes ==> !Under(q, path)
    ensures Refusal(env, nodes, RemoveCall(path)).None?
  {
  }

  /** strings.TrimSpace gives back a value padded with white space on either side. */
  lemma TrimPadded(pre: string, t: string, post: string)
    requires AllSpace(pre) && AllSpace(post) && t != [] && !IsSpace(t[0]) && !IsSpace(t[|t| - 1])
    ensures TrimSpace(pre + t + post) == t
  {
    assert pre + t + post == pre + (t + post);
    assert (t + post)[0] == t[0];
    TrimLeftSpaces(pre, t + post);
    TrimRightSpaces(t, post);
  }

  lemma {:induction false} TrimLeftSpaces(pre: string, t: string)
    requires AllSpace(pre) && (t == [] || !IsSpace(t[0]))
    ensures TrimLeft(pre + t) == t
    decreases |pre|
  {
    if pre == [] {
      assert pre + t == t;
    } else {
      assert (pre + t)[0] == pre[0] && (pre + t)[1..] == pre[1..] + t;
      assert AllSpace(pre[1..]) by {
        forall k | 0 <= k < |pre[1..]| ensures IsSpace(pre[1..][k]) {
          assert pre[1..][k] == pre[k + 1];
        }
      }
      TrimLeftSpaces(pre[1..], t);
    }
  }

  lemma {:induction false} TrimRightSpaces(t: string, post: string)
    requires AllSpace(post) && (t == [] || !IsSpace(t[|t| - 1]))
    ensures TrimRight(t + post) == t
    decreases |post|
  {
    if post == [] {
      assert t + post == t;
    } else {
      var n := |t + post|;
      var rest := post[..|post| - 1];
      assert (t + post)[n - 1] == post[|post| - 1] && (t + post)[..n - 1] == t + rest;
      assert AllSpace(rest) by {
        forall k | 0 <= k < |rest| ensures IsSpace(rest[k]) {
          assert rest[k] == post[k];
        }
      }
      TrimRightSpaces(t, rest);
    }
  }
}
