/** An unpacked update as a tree, and which of its files are to be copied where. */
module UpdaterSpec {
  import opened Wrappers

  // What stat and readdir say about the nodes: a directory may not open, stat may fail.
  datatype Node = File | Broken | Dir(readable: bool, entries: Entries)

  datatype Entries = End | Entry(name: string, node: Node, rest: Entries)

  // A path inside the update, by its names
  type Path = seq<string>

  // The directory itself and its parent, which are read too, are passed over.
  predicate IsName(name: string) {
    name != "" && '/' !in name && name != "." && name != ".."
  }

  predicate HasName(entries: Entries, name: string) {
    entries.Entry? && (entries.name == name || HasName(entries.rest, name))
  }

  // Names are names, and differ in one directory.
  predicate IsTree(node: Node) {
    node.Dir? ==> AreEntries(node.entries)
  }

  predicate AreEntries(entries: Entries) {
    entries.Entry? ==>
      IsName(entries.name) && !HasName(entries.rest, entries.name) && IsTree(entries.node) && AreEntries(entries.rest)
  }

  function Size(node: Node): (n: nat)
    ensures n > 0
  {
    if node.Dir? then 1 + EntriesSize(node.entries) else 1
  }

  function EntriesSize(entries: Entries): nat {
    if entries.End? then 0 else Size(entries.node) + EntriesSize(entries.rest)
  }

  // Where the update goes. The ready file exists in the new place of the update only.
  datatype Config = Config(exePath: string, exeName: string, updaterName: string, hasReady: bool)

  function Join(path: Path): string {
    if path == [] then "" else if |path| == 1 then path[0] else path[0] + "/" + Join(path[1..])
  }

  function LowerChar(c: char): char {
    if 'A' <= c <= 'Z' then (c as int + 32) as char else c
  }

  function Lower(s: string): (t: string)
    ensures |t| == |s|
  {
    seq(|s|, i requires 0 <= i < |s| => LowerChar(s[i]))
  }

  // The program's comparison of names ignores case.
  predicate EqualNames(a: string, b: string) {
    Lower(a) == Lower(b)
  }

  predicate IsUpdater(c: Config, path: Path) {
    EqualNames(c.exePath + Join(path), c.updaterName)
  }

  // The main executable keeps the name it was given.
  function Target(c: Config, path: Path): string {
    var to := c.exePath + Join(path);
    if EqualNames(to, c.exePath + "FAgram") && c.exeName != "FAgram" then c.exePath + c.exeName else to
  }

  predicate IsSkipped(path: Path) {
    path != [] && path[0] == "tdata"
  }

  predicate IsReadyFile(c: Config, path: Path) {
    c.hasReady && path == ["ready"]
  }

  // The node at a path
  function Lookup(node: Node, path: Path): Option<Node>
    decreases path
  {
    if path == [] then Some(node)
    else if node.Dir? then
      var child :- Find(node.entries, path[0]);
      Lookup(child, path[1..])
    else None
  }

  function Find(entries: Entries, name: string): Option<Node> {
    if entries.End? then None else if entries.name == name then Some(entries.node) else Find(entries.rest, name)
  }

  // The files to copy, the directories to create and the reasons to fail, below a path
  function Files(c: Config, node: Node, path: Path): seq<Path>
    decreases node
  {
    match node
    case File => if IsReadyFile(c, path) then [] else [path]
    case Broken => []
    case Dir(_, entries) => FilesIn(c, entries, path)
  }

  function FilesIn(c: Config, entries: Entries, path: Path): seq<Path>
    decreases entries
  {
    match entries
    case End => []
    case Entry(name, node, rest) =>
      (if IsSkipped(path + [name]) then [] else Files(c, node, path + [name])) + FilesIn(c, rest, path)
  }

  function Dirs(node: Node, path: Path): seq<Path>
    decreases node
  {
    match node
    case Dir(_, entries) => [path] + DirsIn(entries, path)
    case _ => []
  }

  function DirsIn(entries: Entries, path: Path): seq<Path>
    decreases entries
  {
    match entries
    case End => []
    case Entry(name, node, rest) =>
      (if IsSkipped(path + [name]) then [] else Dirs(node, path + [name])) + DirsIn(rest, path)
  }

  predicate Fails(c: Config, node: Node, path: Path)
    decreases node
  {
    match node
    case File => IsUpdater(c, path)
    case Broken => false
    case Dir(readable, entries) => !readable || FailsIn(c, entries, path)
  }

  predicate FailsIn(c: Config, entries: Entries, path: Path)
    decreases entries
  {
    match entries
    case End => false
    case Entry(name, node, rest) =>
      (!IsSkipped(path + [name]) && Fails(c, node, path + [name])) || FailsIn(c, rest, path)
  }
}
