/** What the lists of files and directories hold: every path of the tree that is wanted, once. */
module UpdaterTheorems {
  import opened Wrappers
  import opened FlatMap
  import opened MeshText
  import opened UpdaterSpec

  // A listed path starts with the path it was listed below.
  predicate Below(path: Path, p: Path) {
    |path| <= |p| && p[..|path|] == path
  }

  predicate IsWanted(c: Config, root: Node, p: Path) {
    Lookup(root, p) == Some(File) && !IsSkipped(p) && !IsReadyFile(c, p)
  }

  lemma {:induction false} FilesAreBelow(c: Config, node: Node, path: Path, p: Path)
    requires p in Files(c, node, path)
    ensures Below(path, p)
    decreases node
  {
    hide IsSkipped, IsReadyFile;
    if node.Dir? {
      FilesInAreBelow(c, node.entries, path, p);
    }
  }

  lemma {:induction false} FilesInAreBelow(c: Config, entries: Entries, path: Path, p: Path)
    requires p in FilesIn(c, entries, path)
    ensures |path| < |p| && Below(path, p) && HasName(entries, p[|path|])
    decreases entries
  {
    hide IsSkipped, IsReadyFile;
    if entries.Entry? {
      if p in FilesIn(c, entries.rest, path) {
        FilesInAreBelow(c, entries.rest, path, p);
      } else {
        FilesAreBelow(c, entries.node, path + [entries.name], p);
        assert p[..|path| + 1] == path + [entries.name];
        assert p[..|path|] == p[..|path| + 1][..|path|];
      }
    }
  }

  lemma NotBelowOther(path: Path, name: string, p: Path)
    requires p != [] && p[0] != name
    ensures !Below(path + [name], path + p)
  {
    assert (path + p)[..|path| + 1][|path|] == p[0];
    assert (path + [name])[|path|] == name;
  }

  // Which paths are listed
  lemma {:induction false} FilesAre(c: Config, node: Node, path: Path, p: Path)
    requires IsTree(node) && !IsSkipped(path) && (path == [] ==> node.Dir?)
    ensures path + p in Files(c, node, path) <==>
            Lookup(node, p) == Some(File) && !IsSkipped(path + p) && !IsReadyFile(c, path + p)
    decreases node
  {
    hide IsReadyFile;
    match node {
      case File =>
        if p == [] {
          assert path + p == path;
        } else {
          assert |path + p| != |path|;
        }
      case Broken =>
      case Dir(_, entries) =>
        if p == [] {
          if path + p in FilesIn(c, entries, path) {
            FilesInAreBelow(c, entries, path, path + p);
          }
        } else {
          FilesInAre(c, entries, path, p);
        }
    }
  }

  lemma {:induction false} FilesInAre(c: Config, entries: Entries, path: Path, p: Path)
    requires AreEntries(entries) && !IsSkipped(path) && p != []
    ensures path + p in FilesIn(c, entries, path) <==>
            Find(entries, p[0]).Some? && Lookup(Find(entries, p[0]).value, p[1..]) == Some(File)
            && !IsSkipped(path + p) && !IsReadyFile(c, path + p)
    decreases entries
  {
    hide IsReadyFile;
    if entries.Entry? {
      var first := path + [entries.name];
      FilesInAre(c, entries.rest, path, p);
      if p[0] == entries.name {
        assert path + p == first + p[1..];
        assert IsSkipped(path + p) <==> IsSkipped(first);
        if !IsSkipped(first) {
          FilesAre(c, entries.node, first, p[1..]);
        }
        NotFound(entries.rest, entries.name);
      } else {
        NotBelowOther(path, entries.name, p);
        if !IsSkipped(first) && path + p in Files(c, entries.node, first) {
          FilesAreBelow(c, entries.node, first, path + p);
        }
      }
    }
  }

  lemma {:induction false} NotFound(entries: Entries, name: string)
    requires !HasName(entries, name)
    ensures Find(entries, name).None?
  {
    if entries.Entry? {
      NotFound(entries.rest, name);
    }
  }

  // No path is listed twice.
  lemma {:induction false} FilesAreDistinct(c: Config, node: Node, path: Path)
    requires IsTree(node)
    ensures Distinct(Files(c, node, path))
    decreases node
  {
    hide IsSkipped, IsReadyFile;
    if node.Dir? {
      FilesInAreDistinct(c, node.entries, path);
    }
  }

  lemma {:induction false} FilesInAreDistinct(c: Config, entries: Entries, path: Path)
    requires AreEntries(entries)
    ensures Distinct(FilesIn(c, entries, path))
    decreases entries
  {
    hide IsSkipped, IsReadyFile;
    if entries.Entry? {
      var first := path + [entries.name];
      var here: seq<Path> := if IsSkipped(first) then [] else Files(c, entries.node, first);
      FilesAreDistinct(c, entries.node, first);
      FilesInAreDistinct(c, entries.rest, path);
      forall p | p in here
        ensures p !in FilesIn(c, entries.rest, path)
      {
        FilesAreBelow(c, entries.node, first, p);
        assert p[|path|] == p[..|first|][|path|] == entries.name;
        if p in FilesIn(c, entries.rest, path) {
          FilesInAreBelow(c, entries.rest, path, p);
        }
      }
      DistinctConcat(here, FilesIn(c, entries.rest, path));
    }
  }

  // The same for directories
  lemma {:induction false} DirsAreBelow(node: Node, path: Path, p: Path)
    requires p in Dirs(node, path)
    ensures Below(path, p)
    decreases node
  {
    hide IsSkipped;
    if node.Dir? && p in DirsIn(node.entries, path) {
      DirsInAreBelow(node.entries, path, p);
    }
  }

  lemma {:induction false} DirsInAreBelow(entries: Entries, path: Path, p: Path)
    requires p in DirsIn(entries, path)
    ensures |path| < |p| && Below(path, p) && HasName(entries, p[|path|])
    decreases entries
  {
    hide IsSkipped;
    if entries.Entry? {
      if p in DirsIn(entries.rest, path) {
        DirsInAreBelow(entries.rest, path, p);
      } else {
        DirsAreBelow(entries.node, path + [entries.name], p);
        assert p[..|path| + 1] == path + [entries.name];
        assert p[..|path|] == p[..|path| + 1][..|path|];
      }
    }
  }

  lemma {:induction false} DirsAre(node: Node, path: Path, p: Path)
    requires IsTree(node) && !IsSkipped(path)
    ensures path + p in Dirs(node, path) <==>
            Lookup(node, p).Some? && Lookup(node, p).value.Dir? && !IsSkipped(path + p)
    decreases node
  {
    if node.Dir? {
      if p == [] {
        assert path + p == path;
      } else {
        assert path + p != path;
        DirsInAre(node.entries, path, p);
      }
    } else if p == [] {
      assert path + p == path;
    }
  }

  lemma {:induction false} DirsInAre(entries: Entries, path: Path, p: Path)
    requires AreEntries(entries) && !IsSkipped(path) && p != []
    ensures path + p in DirsIn(entries, path) <==>
            Find(entries, p[0]).Some? && Lookup(Find(entries, p[0]).value, p[1..]).Some?
            && Lookup(Find(entries, p[0]).value, p[1..]).value.Dir? && !IsSkipped(path + p)
    decreases entries
  {
    if entries.Entry? {
      var first := path + [entries.name];
      DirsInAre(entries.rest, path, p);
      if p[0] == entries.name {
        assert path + p == first + p[1..];
        assert IsSkipped(path + p) <==> IsSkipped(first);
        if !IsSkipped(first) {
          DirsAre(entries.node, first, p[1..]);
        }
        NotFound(entries.rest, entries.name);
      } else {
        NotBelowOther(path, entries.name, p);
        if !IsSkipped(first) && path + p in Dirs(entries.node, first) {
          DirsAreBelow(entries.node, first, path + p);
        }
      }
    }
  }

  lemma {:induction false} DirsAreDistinct(node: Node, path: Path)
    requires IsTree(node)
    ensures Distinct(Dirs(node, path))
    decreases node
  {
    hide IsSkipped;
    if node.Dir? {
      DirsInAreDistinct(node.entries, path);
      if path in DirsIn(node.entries, path) {
        DirsInAreBelow(node.entries, path, path);
      }
      DistinctConcat([path], DirsIn(node.entries, path));
    }
  }

  lemma {:induction false} DirsInAreDistinct(entries: Entries, path: Path)
    requires AreEntries(entries)
    ensures Distinct(DirsIn(entries, path))
    decreases entries
  {
    hide IsSkipped;
    if entries.Entry? {
      var first := path + [entries.name];
      var here: seq<Path> := if IsSkipped(first) then [] else Dirs(entries.node, first);
      DirsAreDistinct(entries.node, first);
      DirsInAreDistinct(entries.rest, path);
      forall p | p in here
        ensures p !in DirsIn(entries.rest, path)
      {
        DirsAreBelow(entries.node, first, p);
        assert p[|path|] == p[..|first|][|path|] == entries.name;
        if p in DirsIn(entries.rest, path) {
          DirsInAreBelow(entries.rest, path, p);
        }
      }
      DistinctConcat(here, DirsIn(entries.rest, path));
    }
  }

  // The names in a path can be read off its text.
  predicate AreNames(path: Path) {
    forall name :: name in path ==> IsName(name)
  }

  lemma {:induction false} SplitJoin(path: Path)
    requires path != [] && AreNames(path)
    ensures SplitAt(Join(path), '/') == path
  {
    hide SplitAt;
    assert path[0] in path;
    if |path| == 1 {
      SplitAtWhole(path[0], '/');
    } else {
      SplitJoin(path[1..]);
      SplitAtFirst(path[0], '/', Join(path[1..]));
      assert path[0] + ['/'] + Join(path[1..]) == Join(path);
    }
  }

  // The prefix test on texts finds exactly what lies in the directory, not what only begins like its name.
  lemma TdataTest(path: Path)
    requires path != [] && AreNames(path)
    ensures var s := Join(path);
            (5 <= |s| && s[..5] == "tdata" && (|s| <= 5 || s[5] == '/')) <==> IsSkipped(path)
  {
    var s := Join(path);
    var n := |path[0]|;
    assert path[0] in path;
    assert s[..n] == path[0] && (n < |s| ==> s[n] == '/');
    assert forall i :: 0 <= i < n ==> s[i] == path[0][i] && path[0][i] in path[0];
    if 5 <= |s| && s[..5] == "tdata" && (|s| <= 5 || s[5] == '/') {
      assert "tdata"[0] != '/' && "tdata"[1] != '/' && "tdata"[2] != '/' && "tdata"[3] != '/' && "tdata"[4] != '/';
      assert forall i :: 0 <= i < 5 ==> s[i] == "tdata"[i];
      assert n == 5;
    }
  }
}
