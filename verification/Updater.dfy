/** The updater's walk over an unpacked update: a queue of directories, and lists that grow. */
module UpdaterCode {
  import opened Wrappers
  import opened FlatMap
  import opened MeshText
  import opened UpdaterSpec
  import opened UpdaterTheorems

  // A directory that is still to be read: its text, the path inside the update that the text spells, and its node
  datatype Pending = Pending(dir: string, path: Path, node: Node)

  function TextOf(updDir: string, path: Path): string {
    if path == [] then updDir else updDir + "/" + Join(path)
  }

  // The directory of the update and the ready file, in the new place and in the old one
  function UpdDir(workDir: string, hasReady: bool): string {
    if hasReady then workDir + "tupdates/temp" else workDir + "tupdates/ready"
  }

  function ReadyFilePath(workDir: string): string {
    workDir + "tupdates/temp/ready"
  }

  ghost predicate PendingInv(updDir: string, q: Pending) {
    && q.dir == TextOf(updDir, q.path) && q.node.Dir? && IsTree(q.node) && AreNames(q.path) && !IsSkipped(q.path)
  }

  function FilesOf(c: Config, dirs: seq<Pending>): seq<Path> {
    if dirs == [] then [] else FilesOf(c, dirs[..|dirs| - 1]) + Files(c, dirs[|dirs| - 1].node, dirs[|dirs| - 1].path)
  }

  function DirsOf(dirs: seq<Pending>): seq<Path> {
    if dirs == [] then [] else DirsOf(dirs[..|dirs| - 1]) + Dirs(dirs[|dirs| - 1].node, dirs[|dirs| - 1].path)
  }

  predicate AnyFails(c: Config, dirs: seq<Pending>) {
    exists k :: 0 <= k < |dirs| && Fails(c, dirs[k].node, dirs[k].path)
  }

  function TotalSize(dirs: seq<Pending>): nat {
    if dirs == [] then 0 else TotalSize(dirs[..|dirs| - 1]) + Size(dirs[|dirs| - 1].node)
  }

  lemma {:induction false} FilesOfFirst(c: Config, dirs: seq<Pending>)
    requires dirs != []
    ensures FilesOf(c, dirs) == Files(c, dirs[0].node, dirs[0].path) + FilesOf(c, dirs[1..])
  {
    hide Files;
    if |dirs| == 1 {
      assert dirs[..0] == [] && dirs[1..] == [];
    } else {
      var n := |dirs| - 1;
      var front, others, last := dirs[..n], dirs[1..], dirs[n];
      FilesOfFirst(c, front);
      assert front[1..] == others[..n - 1];
      Regrouped(Files(c, dirs[0].node, dirs[0].path), FilesOf(c, front[1..]), Files(c, last.node, last.path));
    }
  }

  lemma {:induction false} DirsOfFirst(dirs: seq<Pending>)
    requires dirs != []
    ensures DirsOf(dirs) == Dirs(dirs[0].node, dirs[0].path) + DirsOf(dirs[1..])
  {
    hide Dirs;
    if |dirs| == 1 {
      assert dirs[..0] == [] && dirs[1..] == [];
    } else {
      var n := |dirs| - 1;
      var front, others, last := dirs[..n], dirs[1..], dirs[n];
      DirsOfFirst(front);
      assert front[1..] == others[..n - 1];
      Regrouped(Dirs(dirs[0].node, dirs[0].path), DirsOf(front[1..]), Dirs(last.node, last.path));
    }
  }

  lemma {:induction false} SizeOfFirst(dirs: seq<Pending>)
    requires dirs != []
    ensures TotalSize(dirs) == Size(dirs[0].node) + TotalSize(dirs[1..])
  {
    hide Size;
    if |dirs| == 1 {
      assert dirs[..0] == [] && dirs[1..] == [];
    } else {
      var n := |dirs| - 1;
      SizeOfFirst(dirs[..n]);
      assert dirs[..n][1..] == dirs[1..][..n - 1];
    }
  }

  lemma PushedLast(c: Config, dirs: seq<Pending>, q: Pending)
    ensures FilesOf(c, dirs + [q]) == FilesOf(c, dirs) + Files(c, q.node, q.path)
    ensures DirsOf(dirs + [q]) == DirsOf(dirs) + Dirs(q.node, q.path)
    ensures TotalSize(dirs + [q]) == TotalSize(dirs) + Size(q.node)
    ensures AnyFails(c, dirs + [q]) <==> AnyFails(c, dirs) || Fails(c, q.node, q.path)
  {
    hide Files, Dirs, Size, Fails;
    assert (dirs + [q])[..|dirs|] == dirs;
    var t := dirs + [q];
    if AnyFails(c, dirs) {
      var k :| 0 <= k < |dirs| && Fails(c, dirs[k].node, dirs[k].path);
      assert t[k] == dirs[k];
    }
    if Fails(c, q.node, q.path) {
      assert t[|dirs|] == q;
    }
  }

  lemma FailsFirst(c: Config, dirs: seq<Pending>)
    requires dirs != []
    ensures AnyFails(c, dirs) <==> Fails(c, dirs[0].node, dirs[0].path) || AnyFails(c, dirs[1..])
  {
    hide Fails;
    if AnyFails(c, dirs[1..]) {
      var k :| 0 <= k < |dirs[1..]| && Fails(c, dirs[1..][k].node, dirs[1..][k].path);
      assert dirs[k + 1] == dirs[1..][k];
    }
    if AnyFails(c, dirs) {
      var k :| 0 <= k < |dirs| && Fails(c, dirs[k].node, dirs[k].path);
      assert k > 0 ==> dirs[1..][k - 1] == dirs[k];
    }
  }

  // The texts that the code builds spell the paths they stand for.
  lemma {:induction false} JoinAppends(path: Path, name: string)
    ensures Join(path + [name]) == if path == [] then name else Join(path) + "/" + name
  {
    if |path| == 1 {
      assert (path + [name])[1..] == [name];
    } else if path != [] {
      JoinAppends(path[1..], name);
      assert (path + [name])[1..] == path[1..] + [name];
    }
  }

  lemma ChildText(updDir: string, path: Path, name: string)
    ensures TextOf(updDir, path) + "/" + name == TextOf(updDir, path + [name])
    ensures TextOf(updDir, path + [name])[|updDir| + 1..] == Join(path + [name])
  {
    hide Join;
    JoinAppends(path, name);
  }

  lemma SkipTest(updDir: string, path: Path)
    requires path != [] && AreNames(path)
    ensures var (fname, tdataDir) := (TextOf(updDir, path), updDir + "/tdata");
            (|tdataDir| <= |fname| && fname[..|tdataDir|] == tdataDir
             && (|fname| <= |tdataDir| || fname[|tdataDir|] == '/'))
            <==> IsSkipped(path)
  {
    hide Join, IsSkipped;
    TdataTest(path);
    var (fname, tdataDir, s) := (TextOf(updDir, path), updDir + "/tdata", Join(path));
    var n := |updDir| + 1;
    assert fname[n..] == s && fname[..n] == updDir + "/" && tdataDir[n..] == "tdata" && tdataDir[..n] == updDir + "/";
    if |tdataDir| <= |fname| {
      assert fname[..|tdataDir|] == fname[..n] + s[..5];
      assert tdataDir == tdataDir[..n] + "tdata";
      assert fname[..|tdataDir|] == tdataDir ==> s[..5] == fname[..|tdataDir|][n..] == "tdata";
    }
  }

  lemma ReadyTest(workDir: string, hasReady: bool, path: Path)
    requires path != [] && AreNames(path)
    ensures TextOf(UpdDir(workDir, hasReady), path) == ReadyFilePath(workDir) <==> hasReady && path == ["ready"]
  {
    var updDir := UpdDir(workDir, hasReady);
    var (fname, ready) := (TextOf(updDir, path), ReadyFilePath(workDir));
    var n := |workDir| + 9;
    if hasReady {
      assert ready == updDir + "/" + "ready" by {
        assert "tupdates/temp/ready" == "tupdates/temp" + "/" + "ready";
        assert workDir + "tupdates/temp" + "/" + "ready" == workDir + ("tupdates/temp" + "/" + "ready");
      }
      ReadyName(updDir, path);
    } else {
      assert fname[n] == "tupdates/ready"[9] == 'r';
      assert ready[n] == "tupdates/temp/ready"[9] == 't';
    }
  }

  lemma ReadyName(updDir: string, path: Path)
    requires path != [] && AreNames(path)
    ensures TextOf(updDir, path) == updDir + "/" + "ready" <==> path == ["ready"]
  {
    hide Join, SplitAt;
    var n := |updDir| + 1;
    if TextOf(updDir, path) == updDir + "/" + "ready" {
      assert TextOf(updDir, path)[n..] == Join(path);
      assert (updDir + "/" + "ready")[n..] == "ready";
      SplitJoin(path);
      ReadyIsName();
      SplitJoin(["ready"]);
      OneName("ready");
    }
    OneName("ready");
  }

  lemma ReadyIsName()
    ensures AreNames(["ready"])
  {
  }

  lemma OneName(name: string)
    ensures Join([name]) == name
  {
  }

  // Each directory to create comes after its parent.
  ghost predicate ParentsFirst(forced: seq<Path>) {
    forall i :: 0 <= i < |forced| ==> forced[i] != [] && HasParent(forced[..i], forced[i])
  }

  predicate HasParent(forced: seq<Path>, path: Path) {
    |path| > 1 ==> path[..|path| - 1] in forced
  }

  lemma ForceLast(forced: seq<Path>, path: Path)
    requires ParentsFirst(forced) && path != [] && HasParent(forced, path)
    ensures ParentsFirst(forced + [path])
  {
    var t := forced + [path];
    forall i | 0 <= i < |t|
      ensures t[i] != [] && HasParent(t[..i], t[i])
    {
      assert i < |forced| ==> t[..i] == forced[..i];
      assert i == |forced| ==> t[..i] == forced;
    }
  }

  // The texts of the lists: what is copied, where to, and which directories are created
  function Sources(updDir: string, files: seq<Path>): seq<string> {
    seq(|files|, i requires 0 <= i < |files| => TextOf(updDir, files[i]))
  }

  function Targets(c: Config, files: seq<Path>): seq<string> {
    seq(|files|, i requires 0 <= i < |files| => Target(c, files[i]))
  }

  function Created(c: Config, dirs: seq<Path>): seq<string> {
    seq(|dirs|, i requires 0 <= i < |dirs| => c.exePath + Join(dirs[i]) + "/")
  }

  class Updater {
    const c: Config
    const workDir: string
    var dirs: seq<Pending>
    var from: seq<string>
    var to: seq<string>
    var forcedirs: seq<string>
    ghost var files: seq<Path>
    ghost var forced: seq<Path>

    constructor (c: Config, workDir: string)
      ensures this.c == c && this.workDir == workDir
      ensures dirs == [] && from == to == forcedirs == [] && files == forced == []
    {
      this.c, this.workDir := c, workDir;
      dirs, from, to, forcedirs, files, forced := [], [], [], [], [], [];
    }

    function Dir(): string {
      UpdDir(workDir, c.hasReady)
    }

    // The lists spell the paths found, and the queue holds what is left.
    ghost predicate Valid()
      reads this
    {
      && from == Sources(Dir(), files) && to == Targets(c, files) && forcedirs == Created(c, forced)
      && (forall k :: 0 <= k < |dirs| ==> PendingInv(Dir(), dirs[k]) && HasParent(forced, dirs[k].path))
      && ParentsFirst(forced)
    }

    method AddFile(fname: string, name: string, ghost path: Path) returns (ok: bool)
      requires Valid() && path != [] && AreNames(path) && fname == TextOf(Dir(), path)
      modifies `from, `to, `files
      ensures Valid() && dirs == old(dirs) && forced == old(forced)
      ensures ok <==> !IsUpdater(c, path)
      ensures ok ==> files == old(files) + (if IsReadyFile(c, path) then [] else [path])
    {
      hide Join, EqualNames, UpdDir, ReadyFilePath, PendingInv, ParentsFirst;
      ghost var n := |Dir()| + 1;
      assert fname[n..] == Join(path);
      ReadyTest(workDir, c.hasReady, path);
      var toFname := c.exePath + fname[|Dir()| + 1..];
      if EqualNames(toFname, c.updaterName) {
        return false;
      } else if EqualNames(toFname, c.exePath + "FAgram") && c.exeName != "FAgram" {
        toFname := c.exePath + c.exeName;
      }
      if fname != ReadyFilePath(workDir) {
        OneMoreFile(path);
        from := from + [fname];
        to := to + [toFname];
        files := files + [path];
      }
      ok := true;
    }

    lemma OneMoreFile(path: Path)
      ensures Sources(Dir(), files + [path]) == Sources(Dir(), files) + [TextOf(Dir(), path)]
      ensures Targets(c, files + [path]) == Targets(c, files) + [Target(c, path)]
    {
    }

    ghost predicate NoRoot()
      reads this
    {
      forall k :: 0 <= k < |dirs| ==> dirs[k].path != []
    }

    // What was found, with what the queue still holds
    ghost function FilesFound(): multiset<Path>
      reads this
    {
      multiset(files) + multiset(FilesOf(c, dirs))
    }

    ghost function DirsFound(): multiset<Path>
      reads this
    {
      multiset(forced) + multiset(DirsOf(dirs))
    }

    method PushDir(fname: string, path: Path, node: Node)
      requires Valid() && path != [] && AreNames(path) && fname == TextOf(Dir(), path) && !IsSkipped(path)
      requires node.Dir? && IsTree(node) && HasParent(forced, path)
      modifies `dirs
      ensures Valid() && (old(NoRoot()) ==> NoRoot())
      ensures FilesFound() == old(FilesFound()) + multiset(Files(c, node, path))
      ensures DirsFound() == old(DirsFound()) + multiset(Dirs(node, path))
      ensures TotalSize(dirs) == old(TotalSize(dirs)) + Size(node)
      ensures AnyFails(c, dirs) <==> old(AnyFails(c, dirs)) || Fails(c, node, path)
    {
      hide Join, TextOf, IsSkipped, AreNames, Files, Dirs, Fails, Size, IsTree, HasParent, ParentsFirst;
      ghost var q := Pending(fname, path, node);
      PushedLast(c, dirs, q);
      dirs := dirs + [Pending(fname, path, node)];
    }

    method Visit(dir: string, path: Path, name: string, node: Node) returns (ok: bool)
      requires Valid() && AreNames(path) && IsName(name) && IsTree(node) && dir == TextOf(Dir(), path)
      requires HasParent(forced, path + [name])
      modifies this
      ensures Valid() && forced == old(forced) && (old(NoRoot()) ==> NoRoot())
      ensures var child := path + [name];
              var found := if IsSkipped(child) then [] else Files(c, node, child);
              var made := if IsSkipped(child) then [] else Dirs(node, child);
              var fails := !IsSkipped(child) && Fails(c, node, child);
              && (!ok ==> fails)
              && (ok ==>
                    && FilesFound() == old(FilesFound()) + multiset(found)
                    && DirsFound() == old(DirsFound()) + multiset(made)
                    && TotalSize(dirs) <= old(TotalSize(dirs)) + Size(node)
                    && (AnyFails(c, dirs) <==> old(AnyFails(c, dirs)) || fails))
    {
      hide TextOf, Join, IsSkipped, PendingInv, ParentsFirst, HasParent, Valid, IsReadyFile, IsUpdater;
      hide Files, Dirs, Fails, Size, FilesOf, DirsOf, TotalSize, AnyFails;
      if !node.Dir? {
        OnLeaf(c, node, path + [name]);
      }
      var child := path + [name];
      assert AreNames(child);
      ChildText(Dir(), path, name);
      SkipTest(Dir(), child);
      var fname := dir + "/" + name;
      var tdataDir := Dir() + "/tdata";
      if |tdataDir| <= |fname| && fname[..|tdataDir|] == tdataDir
        && (|fname| <= |tdataDir| || fname[|tdataDir|] == '/') {
        return true;
      }
      match node {
        case Broken => ok := true;
        case Dir(_, _) =>
          PushDir(fname, child, node);
          ok := true;
        case File =>
          ok := AddFile(fname, name, child);
      }
    }

    // One entry adds what lies below it to what was found.
    method ReadFirst(dir: string, path: Path, entries: Entries) returns (ok: bool)
      requires Valid() && AreNames(path) && AreEntries(entries) && dir == TextOf(Dir(), path)
      requires entries.Entry? && (path == [] || path in forced)
      modifies this
      ensures Valid() && forced == old(forced) && AreEntries(entries.rest) && (old(NoRoot()) ==> NoRoot())
      ensures FailsIn(c, entries.rest, path) || !ok ==> FailsIn(c, entries, path)
      ensures ok ==>
                && FilesFound() + multiset(FilesIn(c, entries.rest, path))
                   == old(FilesFound()) + multiset(FilesIn(c, entries, path))
                && DirsFound() + multiset(DirsIn(entries.rest, path))
                   == old(DirsFound()) + multiset(DirsIn(entries, path))
                && TotalSize(dirs) + EntriesSize(entries.rest) <= old(TotalSize(dirs)) + EntriesSize(entries)
                && (AnyFails(c, dirs) || FailsIn(c, entries.rest, path) <==>
                      old(AnyFails(c, dirs)) || FailsIn(c, entries, path))
    {
      hide Valid, TextOf, IsSkipped, Files, Dirs, Fails, Size, IsTree, FilesFound, DirsFound, AnyFails, TotalSize;
      hide FilesIn, DirsIn, FailsIn, EntriesSize, AreEntries, AreNames, IsName, HasParent, NoRoot;
      ChildHasParent(forced, path, entries.name);
      FirstEntry(c, entries, path);
      ok := Visit(dir, path, entries.name, entries.node);
    }

    // Reading a directory finds what lies below it, and pushes what is still to be read.
    method ReadEntries(dir: string, path: Path, entries: Entries) returns (ok: bool)
      requires Valid() && AreNames(path) && AreEntries(entries) && dir == TextOf(Dir(), path)
      requires path == [] || path in forced
      modifies this
      ensures Valid() && forced == old(forced) && (old(NoRoot()) ==> NoRoot())
      ensures !ok ==> FailsIn(c, entries, path)
      ensures ok ==>
                && FilesFound() == old(FilesFound()) + multiset(FilesIn(c, entries, path))
                && DirsFound() == old(DirsFound()) + multiset(DirsIn(entries, path))
                && TotalSize(dirs) <= old(TotalSize(dirs)) + EntriesSize(entries)
                && (AnyFails(c, dirs) <==> old(AnyFails(c, dirs)) || FailsIn(c, entries, path))
    {
      hide Valid, TextOf, IsSkipped, Files, Dirs, Fails, Size, IsTree, FilesFound, DirsFound, AnyFails, TotalSize;
      hide FilesIn, DirsIn, FailsIn, EntriesSize, AreEntries, AreNames, IsName, HasParent, NoRoot;
      var rest := entries;
      while rest.Entry?
        invariant Valid() && forced == old(forced) && AreEntries(rest) && (old(NoRoot()) ==> NoRoot())
        invariant FilesFound() + multiset(FilesIn(c, rest, path))
                  == old(FilesFound()) + multiset(FilesIn(c, entries, path))
        invariant DirsFound() + multiset(DirsIn(rest, path)) == old(DirsFound()) + multiset(DirsIn(entries, path))
        invariant TotalSize(dirs) + EntriesSize(rest) <= old(TotalSize(dirs)) + EntriesSize(entries)
        invariant AnyFails(c, dirs) || FailsIn(c, rest, path) <==> old(AnyFails(c, dirs)) || FailsIn(c, entries, path)
        invariant FailsIn(c, rest, path) ==> FailsIn(c, entries, path)
        decreases rest
      {
        ok := ReadFirst(dir, path, rest);
        if !ok {
          return;
        }
        rest := rest.rest;
      }
      NoEntries(c, rest, path);
      ok := true;
    }

    // The first directory leaves the queue; all but the root are to be created.
    method PopDir() returns (q: Pending)
      requires Valid() && dirs != []
      modifies this
      ensures Valid() && q == old(dirs[0]) && dirs == old(dirs[1..]) && files == old(files)
      ensures PendingInv(Dir(), q) && (q.path == [] || q.path in forced)
      ensures forced == old(forced) + if q.path == [] then [] else [q.path]
    {
      hide Join, IsTree, ParentsFirst;
      q := dirs[0];
      DirText(Dir(), q.path);
      var toDir := c.exePath;
      dirs := dirs[1..];
      if |q.dir| > |Dir()| + 1 {
        toDir := toDir + (q.dir[|Dir()| + 1..] + "/");
        ForceLast(forced, q.path);
        OneMoreDir(q.path);
        forcedirs := forcedirs + [toDir];
        forced := forced + [q.path];
      }
    }

    lemma OneMoreDir(path: Path)
      ensures Created(c, forced + [path]) == Created(c, forced) + [c.exePath + (Join(path) + "/")]
    {
      hide Join;
      assert c.exePath + Join(path) + "/" == c.exePath + (Join(path) + "/");
    }

    // What the first directory holds moves from the queue to what is being read.
    method TakeDir() returns (q: Pending)
      requires Valid() && dirs != [] && forall k :: 1 <= k < |dirs| ==> dirs[k].path != []
      modifies this
      ensures Valid() && NoRoot() && q == old(dirs[0])
      ensures q.node.Dir? && AreEntries(q.node.entries) && AreNames(q.path) && q.dir == TextOf(Dir(), q.path)
      ensures q.path == [] || q.path in forced
      ensures FilesFound() + multiset(FilesIn(c, q.node.entries, q.path)) == old(FilesFound())
      ensures DirsFound() + multiset(DirsIn(q.node.entries, q.path))
              + (if q.path == [] then multiset{[]} else multiset{})
              == old(DirsFound())
      ensures TotalSize(dirs) + EntriesSize(q.node.entries) < old(TotalSize(dirs))
      ensures old(AnyFails(c, dirs)) <==> AnyFails(c, dirs) || !q.node.readable || FailsIn(c, q.node.entries, q.path)
    {
      hide Valid, Files, Dirs, Fails, Size, IsTree, PendingInv, AnyFails, TotalSize, FilesOf, DirsOf;
      hide FilesIn, DirsIn, FailsIn, EntriesSize, AreEntries, TextOf, AreNames;
      FirstDir(c, dirs);
      q := PopDir();
      PendingFacts(Dir(), q);
      OnDir(c, q.node, q.path);
    }

    // One turn of the walk
    method ReadDir() returns (ok: bool)
      requires Valid() && dirs != [] && forall k :: 1 <= k < |dirs| ==> dirs[k].path != []
      modifies this
      ensures Valid() && NoRoot()
      ensures !ok ==> old(AnyFails(c, dirs))
      ensures ok ==>
                && FilesFound() == old(FilesFound())
                && DirsFound() + (if old(dirs[0].path) == [] then multiset{[]} else multiset{}) == old(DirsFound())
                && TotalSize(dirs) < old(TotalSize(dirs))
                && (AnyFails(c, dirs) <==> old(AnyFails(c, dirs)))
    {
      hide Valid, AnyFails, TotalSize, FilesFound, DirsFound, FilesIn, DirsIn, FailsIn, EntriesSize, AreEntries,
           TextOf, AreNames;
      var q := TakeDir();
      if !q.node.readable {
        return false;
      }
      ok := ReadEntries(q.dir, q.path, q.node.entries);
    }

    method StartWalk(root: Node)
      requires root.Dir? && IsTree(root)
      requires dirs == [] && from == to == forcedirs == [] && files == forced == []
      modifies this
      ensures Valid() && |dirs| == 1 && dirs[0].path == []
      ensures FilesFound() == multiset(Files(c, root, [])) && DirsFound() == multiset(Dirs(root, []))
      ensures AnyFails(c, dirs) <==> Fails(c, root, [])
    {
      hide Files, Dirs, Fails, Size, IsTree;
      dirs := [Pending(Dir(), [], root)];
      FirstDir(c, dirs);
      assert dirs[1..] == [];
    }

    // Collecting the lists: it succeeds exactly when every directory opens and no file is the updater's own; then
    // the lists hold each file to copy and each directory to create once.
    method Collect(root: Node) returns (ok: bool)
      requires root.Dir? && IsTree(root)
      requires dirs == [] && from == to == forcedirs == [] && files == forced == []
      modifies this
      ensures ok <==> !Fails(c, root, [])
      ensures ok ==> Valid() && dirs == []
      ensures ok ==>
                && multiset(files) == multiset(Files(c, root, []))
                && multiset([[]] + forced) == multiset(Dirs(root, []))
    {
      hide Files, Dirs, Fails, Size, IsTree, Valid, FilesFound, DirsFound, AnyFails, TotalSize;
      StartWalk(root);
      ghost var started := false;
      while dirs != []
        invariant Valid() && (if started then NoRoot() else |dirs| == 1 && dirs[0].path == [])
        invariant FilesFound() == multiset(Files(c, root, []))
        invariant DirsFound() + (if started then multiset{[]} else multiset{}) == multiset(Dirs(root, []))
        invariant AnyFails(c, dirs) <==> Fails(c, root, [])
        decreases TotalSize(dirs)
      {
        ok := ReadDir();
        if !ok {
          return;
        }
        started := true;
      }
      NothingLeft();
      assert multiset([[]] + forced) == multiset{[]} + multiset(forced);
      ok := true;
    }

    lemma NothingLeft()
      requires dirs == []
      ensures FilesFound() == multiset(files) && DirsFound() == multiset(forced) && !AnyFails(c, dirs)
    {
    }
  }

  lemma FirstDir(c: Config, dirs: seq<Pending>)
    requires dirs != []
    ensures var q := dirs[0];
            && FilesOf(c, dirs) == Files(c, q.node, q.path) + FilesOf(c, dirs[1..])
            && DirsOf(dirs) == Dirs(q.node, q.path) + DirsOf(dirs[1..])
            && TotalSize(dirs) == Size(q.node) + TotalSize(dirs[1..])
            && (AnyFails(c, dirs) <==> Fails(c, q.node, q.path) || AnyFails(c, dirs[1..]))
  {
    hide Files, Dirs, Fails, Size, FilesOf, DirsOf, TotalSize, AnyFails;
    FilesOfFirst(c, dirs);
    DirsOfFirst(dirs);
    SizeOfFirst(dirs);
    FailsFirst(c, dirs);
  }

  lemma PendingFacts(updDir: string, q: Pending)
    requires PendingInv(updDir, q)
    ensures q.node.Dir? && AreEntries(q.node.entries) && AreNames(q.path) && q.dir == TextOf(updDir, q.path)
  {
  }

  lemma OnLeaf(c: Config, node: Node, path: Path)
    requires !node.Dir?
    ensures Files(c, node, path) == (if node.File? && !IsReadyFile(c, path) then [path] else [])
    ensures Dirs(node, path) == [] && (Fails(c, node, path) <==> node.File? && IsUpdater(c, path)) && Size(node) == 1
  {
  }

  lemma OnDir(c: Config, node: Node, path: Path)
    requires node.Dir?
    ensures Files(c, node, path) == FilesIn(c, node.entries, path)
    ensures Dirs(node, path) == [path] + DirsIn(node.entries, path)
    ensures Fails(c, node, path) <==> !node.readable || FailsIn(c, node.entries, path)
    ensures Size(node) == 1 + EntriesSize(node.entries)
  {
  }

  lemma DirText(updDir: string, path: Path)
    requires AreNames(path)
    ensures |TextOf(updDir, path)| > |updDir| + 1 <==> path != []
    ensures path != [] ==> TextOf(updDir, path)[|updDir| + 1..] == Join(path)
  {
    if path != [] {
      assert path[0] in path;
      assert Join(path)[..|path[0]|] == path[0];
    }
  }

  lemma FirstEntry(c: Config, entries: Entries, path: Path)
    requires entries.Entry?
    ensures var (child, node, rest) := (path + [entries.name], entries.node, entries.rest);
            var skipped := IsSkipped(child);
            && multiset(FilesIn(c, entries, path))
               == multiset(if skipped then [] else Files(c, node, child)) + multiset(FilesIn(c, rest, path))
            && multiset(DirsIn(entries, path))
               == multiset(if skipped then [] else Dirs(node, child)) + multiset(DirsIn(rest, path))
            && (FailsIn(c, entries, path) <==> (!skipped && Fails(c, node, child)) || FailsIn(c, rest, path))
            && EntriesSize(entries) == Size(node) + EntriesSize(rest)
    ensures AreEntries(entries) ==> IsName(entries.name) && IsTree(entries.node) && AreEntries(entries.rest)
  {
    hide IsSkipped, Files, Dirs, Fails, Size;
  }

  lemma NoEntries(c: Config, entries: Entries, path: Path)
    requires entries.End?
    ensures FilesIn(c, entries, path) == [] && DirsIn(entries, path) == [] && !FailsIn(c, entries, path)
            && EntriesSize(entries) == 0
  {
  }

  lemma ChildHasParent(forced: seq<Path>, path: Path, name: string)
    requires path == [] || path in forced
    ensures HasParent(forced, path + [name])
  {
    assert (path + [name])[..|path|] == path;
  }

  // The whole walk: on success every wanted file of the tree is listed once, with its target, and every directory
  // but the root and those of the user's data once, after its parent.
  method CollectUpdate(c: Config, workDir: string, root: Node)
      returns (ok: bool, from: seq<string>, to: seq<string>, forcedirs: seq<string>, ghost files: seq<Path>,
               ghost forced: seq<Path>)
    requires root.Dir? && IsTree(root)
    ensures ok <==> !Fails(c, root, [])
    ensures ok ==>
              && from == Sources(UpdDir(workDir, c.hasReady), files) && to == Targets(c, files)
                 && forcedirs == Created(c, forced)
              && Distinct(files) && (forall p :: p in files <==> IsWanted(c, root, p))
              && Distinct(forced) && (forall p :: p in forced <==> p != [] && IsWantedDir(root, p))
              && ParentsFirst(forced)
  {
    hide Files, Dirs, Fails, IsTree;
    var updater := new Updater(c, workDir);
    ok := updater.Collect(root);
    from, to, forcedirs, files, forced := updater.from, updater.to, updater.forcedirs, updater.files, updater.forced;
    if ok {
      FilesAreComplete(c, root, files);
      DirsAreComplete(root, forced);
    }
  }

  predicate IsWantedDir(root: Node, p: Path) {
    Lookup(root, p).Some? && Lookup(root, p).value.Dir? && !IsSkipped(p)
  }

  lemma SameMembers(a: seq<Path>, b: seq<Path>)
    requires multiset(a) == multiset(b) && Distinct(b)
    ensures Distinct(a) && forall p :: p in a <==> p in b
  {
    forall p
      ensures p in a <==> p in b
    {
      assert p in a <==> p in multiset(a);
      assert p in b <==> p in multiset(b);
    }
    forall i, j | 0 <= i < j < |a|
      ensures a[i] != a[j]
    {
      Occurrences(b, a[i]);
      if a[i] == a[j] {
        CountedTwice(a, i, j);
      }
    }
  }

  lemma CountedTwice(a: seq<Path>, i: nat, j: nat)
    requires i < j < |a| && a[i] == a[j]
    ensures multiset(a)[a[i]] >= 2
  {
    assert a == a[..i] + [a[i]] + a[i + 1..j] + [a[j]] + a[j + 1..];
  }

  lemma {:induction false} Occurrences(s: seq<Path>, x: Path)
    requires Distinct(s)
    ensures multiset(s)[x] <= 1
  {
    if s != [] {
      var n := |s| - 1;
      assert s == s[..n] + [s[n]];
      Occurrences(s[..n], x);
    }
  }

  lemma FilesAreComplete(c: Config, root: Node, files: seq<Path>)
    requires IsTree(root) && root.Dir? && multiset(files) == multiset(Files(c, root, []))
    ensures Distinct(files) && forall p :: p in files <==> IsWanted(c, root, p)
  {
    hide Files, Lookup, Distinct;
    FilesAreDistinct(c, root, []);
    SameMembers(files, Files(c, root, []));
    forall p
      ensures p in files <==> IsWanted(c, root, p)
    {
      FilesAre(c, root, [], p);
      assert [] + p == p;
    }
  }

  lemma DirsAreComplete(root: Node, forced: seq<Path>)
    requires IsTree(root) && root.Dir? && multiset([[]] + forced) == multiset(Dirs(root, []))
    ensures Distinct(forced) && forall p :: p in forced <==> p != [] && IsWantedDir(root, p)
  {
    hide Dirs, Lookup;
    var all: seq<Path> := [[]] + forced;
    DirsAreDistinct(root, []);
    SameMembers(all, Dirs(root, []));
    assert forall i :: 0 <= i < |forced| ==> forced[i] == all[i + 1];
    forall p
      ensures p in forced <==> p != [] && IsWantedDir(root, p)
    {
      DirsAre(root, [], p);
      assert [] + p == p;
      assert p in all <==> p == [] || p in forced;
      assert all[0] == [];
    }
  }
}
