/** Which files are copied where, which directories are made, and when the update fails, told from the tree itself. */
module UpdaterLaws {
  import opened Wrappers
  import opened UpdaterSpec
  import opened UpdaterTheorems

  // Two texts that differ in the case of Latin letters at most
  predicate DifferInCase(a: char, b: char) {
    ('A' <= a <= 'Z' && b as int == a as int + 32) || ('A' <= b <= 'Z' && a as int == b as int + 32)
  }

  predicate IsSameText(a: string, b: string) {
    |a| == |b| && forall i :: 0 <= i < |a| ==> a[i] == b[i] || DifferInCase(a[i], b[i])
  }

  lemma EqualIffSame(a: string, b: string)
    ensures EqualNames(a, b) <==> IsSameText(a, b)
  {
    if EqualNames(a, b) {
      forall i | 0 <= i < |a|
        ensures a[i] == b[i] || DifferInCase(a[i], b[i])
      {
        assert Lower(a)[i] == Lower(b)[i];
      }
    }
  }

  lemma SameBehind(a: string, b: string, c: string)
    ensures IsSameText(a + b, a + c) <==> IsSameText(b, c)
  {
    if IsSameText(a + b, a + c) {
      forall i | 0 <= i < |b|
        ensures b[i] == c[i] || DifferInCase(b[i], c[i])
      {
        assert (a + b)[|a| + i] == b[i] && (a + c)[|a| + i] == c[i];
      }
    }
  }

  // Every file goes to its own path below the place of the program; only the program itself, directly there and in
  // whatever case, takes the name that the running one has.
  lemma TargetIs(c: Config, path: Path)
    requires path != [] && AreNames(path)
    ensures var renames := |path| == 1 && IsSameText(path[0], "FAgram") && c.exeName != "FAgram";
            Target(c, path) == c.exePath + (if renames then c.exeName else Join(path))
  {
    var to := c.exePath + Join(path);
    EqualIffSame(to, c.exePath + "FAgram");
    SameBehind(c.exePath, Join(path), "FAgram");
    assert |path| > 1 ==> Join(path)[|path[0]|] == '/';
    NoSlash(Join(path));
  }

  lemma NoSlash(s: string)
    ensures IsSameText(s, "FAgram") ==> '/' !in s
  {
  }

  predicate IsProgram(path: Path) {
    |path| == 1 && IsSameText(path[0], "FAgram")
  }

  // Two different files never go to one place, unless one of them is the program, which may go under another name.
  lemma TargetsDiffer(c: Config, p: Path, q: Path)
    requires p != q && p != [] && q != [] && AreNames(p) && AreNames(q) && !IsProgram(p) && !IsProgram(q)
    ensures Target(c, p) != Target(c, q)
  {
    TargetIs(c, p);
    TargetIs(c, q);
    SplitJoin(p);
    SplitJoin(q);
    var n := |c.exePath|;
    assert (c.exePath + Join(p))[n..] == Join(p) && (c.exePath + Join(q))[n..] == Join(q);
  }

  // What is listed: every file of the tree but the ready file, and every directory, if not below tdata
  predicate IsInTdata(p: Path) {
    p != [] && p[0] == "tdata"
  }

  lemma ListedIff(c: Config, root: Node, p: Path)
    requires IsTree(root) && root.Dir?
    ensures p in Files(c, root, []) <==>
            Lookup(root, p) == Some(File) && !IsInTdata(p) && !(c.hasReady && p == ["ready"])
    ensures p in Dirs(root, []) <==> Lookup(root, p).Some? && Lookup(root, p).value.Dir? && !IsInTdata(p)
  {
    FilesAre(c, root, [], p);
    DirsAre(root, [], p);
    assert [] + p == p;
  }

  // Why an update fails: a directory cannot be read, or a file would replace the updater that is running.
  predicate IsBad(c: Config, node: Node, p: Path) {
    || (node.Dir? && !node.readable)
    || (node.File? && IsSameText(c.exePath + Join(p), c.updaterName))
  }

  lemma {:induction false} BadFails(c: Config, node: Node, path: Path, p: Path)
    requires Lookup(node, p).Some? && IsBad(c, Lookup(node, p).value, path + p) && !IsInTdata(path + p)
    ensures Fails(c, node, path)
    decreases node
  {
    if p == [] {
      assert path + p == path;
      EqualIffSame(c.exePath + Join(path), c.updaterName);
    } else {
      BadEntryFails(c, node.entries, path, p);
    }
  }

  lemma {:induction false} BadEntryFails(c: Config, entries: Entries, path: Path, p: Path)
    requires p != [] && Find(entries, p[0]).Some? && Lookup(Find(entries, p[0]).value, p[1..]).Some?
    requires IsBad(c, Lookup(Find(entries, p[0]).value, p[1..]).value, path + p) && !IsInTdata(path + p)
    ensures FailsIn(c, entries, path)
    decreases entries
  {
    hide IsBad;
    if entries.name == p[0] {
      assert path + p == path + [entries.name] + p[1..];
      assert (path + p)[0] == (path + [entries.name])[0];
      BadFails(c, entries.node, path + [entries.name], p[1..]);
    } else {
      BadEntryFails(c, entries.rest, path, p);
    }
  }

  lemma {:induction false} FailsAt(c: Config, node: Node, path: Path) returns (p: Path)
    requires IsTree(node) && Fails(c, node, path) && !IsInTdata(path)
    ensures Lookup(node, p).Some? && IsBad(c, Lookup(node, p).value, path + p) && !IsInTdata(path + p)
    decreases node
  {
    p := [];
    assert path + p == path;
    match node {
      case File => EqualIffSame(c.exePath + Join(path), c.updaterName);
      case Dir(readable, entries) =>
        if readable {
          p := FailsInAt(c, entries, path);
        }
    }
  }

  lemma {:induction false} FailsInAt(c: Config, entries: Entries, path: Path) returns (p: Path)
    requires AreEntries(entries) && FailsIn(c, entries, path) && !IsInTdata(path)
    ensures p != [] && Find(entries, p[0]).Some? && Lookup(Find(entries, p[0]).value, p[1..]).Some?
    ensures IsBad(c, Lookup(Find(entries, p[0]).value, p[1..]).value, path + p) && !IsInTdata(path + p)
    decreases entries
  {
    hide IsBad;
    var first := path + [entries.name];
    if !IsSkipped(first) && Fails(c, entries.node, first) {
      var q := FailsAt(c, entries.node, first);
      p := [entries.name] + q;
      assert path + p == first + q;
    } else {
      p := FailsInAt(c, entries.rest, path);
      if p[0] == entries.name {
        NotFound(entries.rest, entries.name);
      }
    }
  }

  lemma FailsIff(c: Config, root: Node)
    requires IsTree(root)
    ensures Fails(c, root, []) <==>
            exists p: Path :: Lookup(root, p).Some? && IsBad(c, Lookup(root, p).value, p) && !IsInTdata(p)
  {
    hide IsBad, Fails;
    if Fails(c, root, []) {
      var p := FailsAt(c, root, []);
      assert [] + p == p;
    }
    if p: Path :| Lookup(root, p).Some? && IsBad(c, Lookup(root, p).value, p) && !IsInTdata(p) {
      assert [] + p == p;
      BadFails(c, root, [], p);
    }
  }
}
