/** The tree builder of the Drupal file listing, and where the paths it returns lead. */
module FileTree {
  import opened Strings
  import opened SafePath
  import opened Options

  // ---------- the file system below a directory ----------

  datatype Content =
    | File(size: Option<nat>)
    | Directory(readable: bool, entries: seq<Entry>)

  /** What a directory can call an entry. */
  predicate Legal(name: string) {
    name != "" && name != "." && name != ".." && '/' !in name
  }

  type FileName = name: string | Legal(name) witness "a"

  /** A directory holds its entries in the order of sorted(os.listdir(..)). */
  datatype Entry = Entry(name: FileName, content: Content)

  datatype Node =
    | FileNode(name: string, path: string, size: Option<nat>)
    | DirectoryNode(name: string, path: string, children: seq<Node>)

  const SKIP_DIRS: set<string> := {"vendor", "node_modules", ".git", ".idea", ".vscode"}

  predicate Skipped(e: Entry) {
    e.content.Directory? && (e.name in SKIP_DIRS || e.name[0] == '.')
  }

  /** A name that the sanitiser neither rewrites nor refuses. */
  predicate Portable(name: string) {
    Legal(name) && '\\' !in name && !HasControl(name)
  }

  /** The names lead from `dir` down to `c`. */
  ghost predicate Holds(dir: Content, names: seq<string>, c: Content)
    decreases |names|
  {
    if names == [] then c == dir
    else dir.Directory? && exists e :: e in dir.entries && e.name == names[0] && Holds(e.content, names[1..], c)
  }

  /** As Holds, by at least one name and through directories that are readable and not skipped. */
  ghost predicate Visible(dir: Content, names: seq<string>, c: Content)
    decreases |names|, 0
  {
    && names != [] && dir.Directory? && dir.readable
    && exists e :: e in dir.entries && e.name == names[0] && !Skipped(e) && SeenBelow(e, names[1..], c)
  }

  ghost predicate SeenBelow(e: Entry, names: seq<string>, c: Content)
    decreases |names|, 1
  {
    if names == [] then c == e.content else Visible(e.content, names, c)
  }

  // ---------- _build_tree_from_fs ----------

  function Under(prefix: string, name: string): string {
    if prefix != "" then prefix + "/" + name else name
  }

  function UnderAll(prefix: string, names: seq<string>): string
    decreases |names|
  {
    if names == [] then prefix else UnderAll(Under(prefix, names[0]), names[1..])
  }

  function Entries(dir: Content): seq<Entry> {
    if dir.Directory? && dir.readable then dir.entries else []
  }

  /** The node for one entry, if it is shown. */
  function NodesFor(e: Entry, prefix: string): seq<Node>
    decreases e, 0
  {
    var path := Under(prefix, e.name);
    if e.content.File? then [FileNode(e.name, path, e.content.size)]
    else if Skipped(e) then []
    else [DirectoryNode(e.name, path, if e.content.readable then NodesOf(e.content.entries, path) else [])]
  }

  function NodesOf(entries: seq<Entry>, prefix: string): seq<Node>
    decreases entries
  {
    if entries == [] then []
    else NodesOf(entries[..|entries| - 1], prefix) + NodesFor(entries[|entries| - 1], prefix)
  }

  /** Every node of a tree, each directory before its children. */
  function All(nodes: seq<Node>): seq<Node> {
    if nodes == [] then [] else AllOf(nodes[0]) + All(nodes[1..])
  }

  function AllOf(n: Node): seq<Node> {
    [n] + if n.DirectoryNode? then All(n.children) else []
  }

  lemma {:induction false} AllConcat(a: seq<Node>, b: seq<Node>)
    ensures All(a + b) == All(a) + All(b)
  {
    if a == [] {
      assert a + b == b;
    } else {
      assert (a + b)[1..] == a[1..] + b;
      AllConcat(a[1..], b);
    }
  }

  lemma AllOne(n: Node)
    ensures All([n]) == AllOf(n)
  {
    assert [n][1..] == [];
  }

  /** The listing is the tree of the shown entries, and `total` counts all its nodes. */
  method BuildTree(dir: Content, prefix: string) returns (nodes: seq<Node>, total: nat)
    ensures nodes == NodesOf(Entries(dir), prefix)
    ensures total == |All(nodes)|
    decreases dir
  {
    nodes, total := [], 0;
    if dir.File? || !dir.readable {
      return;
    }
    var i := 0;
    while i < |dir.entries|
      invariant i <= |dir.entries|
      invariant nodes == NodesOf(dir.entries[..i], prefix)
      invariant total == |All(nodes)|
    {
      var e := dir.entries[i];
      assert dir.entries[..i + 1][..i] == dir.entries[..i];
      if !Skipped(e) {
        var path := Under(prefix, e.name);
        var node, count;
        if e.content.Directory? {
          var children, below := BuildTree(e.content, path);
          node, count := DirectoryNode(e.name, path, children), below + 1;
        } else {
          node, count := FileNode(e.name, path, e.content.size), 1;
        }
        AllOne(node);
        AllConcat(nodes, [node]);
        nodes, total := nodes + [node], total + count;
      }
      i := i + 1;
    }
    assert dir.entries[..i] == dir.entries;
  }

  /** Siblings stand in the order of their entries. */
  lemma {:induction false} NodesOfConcat(a: seq<Entry>, b: seq<Entry>, prefix: string)
    ensures NodesOf(a + b, prefix) == NodesOf(a, prefix) + NodesOf(b, prefix)
    ensures |b| == 1 ==> NodesOf(b, prefix) == NodesFor(b[0], prefix)
  {
    if b == [] {
      assert a + b == a;
    } else {
      NodesOfConcat(a, b[..|b| - 1], prefix);
      assert (a + b)[..|a + b| - 1] == a + b[..|b| - 1];
      assert |b| == 1 ==> b[..|b| - 1] == [];
    }
  }

  // ---------- the tree shows exactly what is visible ----------

  /** The node stands for what the names lead to. */
  ghost predicate Shows(n: Node, prefix: string, names: seq<string>, c: Content) {
    && names != [] && n.name == names[|names| - 1] && n.path == UnderAll(prefix, names)
    && match n
       case FileNode(_, _, size) => c == File(size)
       case DirectoryNode(_, _, _) => c.Directory?
  }

  lemma ShowsDeeper(n: Node, prefix: string, name: string, names: seq<string>, c: Content)
    requires Shows(n, Under(prefix, name), names, c)
    ensures Shows(n, prefix, [name] + names, c)
  {
    assert ([name] + names)[1..] == names;
  }

  lemma ShowsOne(e: Entry, prefix: string)
    requires !Skipped(e)
    ensures NodesFor(e, prefix) != [] && Shows(NodesFor(e, prefix)[0], prefix, [e.name], e.content)
  {
    assert [e.name][1..] == [];
    assert UnderAll(prefix, [e.name]) == UnderAll(Under(prefix, e.name), []);
  }

  ghost predicate FromSome(entries: seq<Entry>, prefix: string, n: Node) {
    exists e :: e in entries && n in All(NodesFor(e, prefix))
  }

  lemma FromSomePush(init: seq<Entry>, last: Entry, prefix: string, n: Node)
    ensures FromSome(init + [last], prefix, n) <==> FromSome(init, prefix, n) || n in All(NodesFor(last, prefix))
  {
    if FromSome(init, prefix, n) {
      var e :| e in init && n in All(NodesFor(e, prefix));
      assert e in init + [last];
    }
    if n in All(NodesFor(last, prefix)) {
      assert last in init + [last];
    }
  }

  lemma {:induction false} InNodesOf(entries: seq<Entry>, prefix: string, n: Node)
    ensures n in All(NodesOf(entries, prefix)) <==> FromSome(entries, prefix, n)
  {
    if entries != [] {
      var init, last := entries[..|entries| - 1], entries[|entries| - 1];
      InNodesOf(init, prefix, n);
      AllConcat(NodesOf(init, prefix), NodesFor(last, prefix));
      assert entries == init + [last];
      FromSomePush(init, last, prefix, n);
    }
  }

  /** Every node of the tree stands for something visible. */
  lemma {:induction false} TreeSound(dir: Content, prefix: string, n: Node) returns (names: seq<string>, c: Content)
    requires n in All(NodesOf(Entries(dir), prefix))
    ensures Visible(dir, names, c) && Shows(n, prefix, names, c)
    decreases dir
  {
    InNodesOf(Entries(dir), prefix, n);
    var e :| e in Entries(dir) && n in All(NodesFor(e, prefix));
    ShowsOne(e, prefix);
    AllOne(NodesFor(e, prefix)[0]);
    if n == NodesFor(e, prefix)[0] {
      names, c := [e.name], e.content;
    } else {
      var deeper;
      deeper, c := TreeSound(e.content, Under(prefix, e.name), n);
      names := [e.name] + deeper;
      ShowsDeeper(n, prefix, e.name, deeper, c);
      assert names[1..] == deeper;
    }
  }

  /** And everything visible has a node. */
  lemma {:induction false} TreeComplete(dir: Content, prefix: string, names: seq<string>, c: Content) returns (n: Node)
    requires Visible(dir, names, c)
    ensures n in All(NodesOf(Entries(dir), prefix)) && Shows(n, prefix, names, c)
    decreases |names|
  {
    var e :| e in dir.entries && e.name == names[0] && !Skipped(e) && SeenBelow(e, names[1..], c);
    ShowsOne(e, prefix);
    AllOne(NodesFor(e, prefix)[0]);
    if names[1..] == [] {
      n := NodesFor(e, prefix)[0];
      assert names == [e.name];
    } else {
      n := TreeComplete(e.content, Under(prefix, e.name), names[1..], c);
      ShowsDeeper(n, prefix, e.name, names[1..], c);
      assert names == [e.name] + names[1..];
    }
    InNodesOf(Entries(dir), prefix, n);
  }

  // ---------- and its paths open what they stand for ----------

  /** Sanitised, the prefix leads to the directory with these names; no prefix stands for the mount. */
  ghost predicate Opens(prefix: string, at: seq<string>) {
    if prefix == "" then at == []
    else SanitizePath(prefix).Clean? && LeadsTo(SanitizePath(prefix).path) == Inside(at)
  }

  lemma {:induction false} PiecesPush(names: seq<string>, name: string)
    requires '\\' !in name
    ensures Pieces(names + [name]) == Pieces(names) + [name]
  {
    if names == [] {
      Unsplit(name, '\\');
      assert [name][1..] == [] && names + [name] == [name];
    } else {
      assert (names + [name])[1..] == names[1..] + [name];
      PiecesPush(names[1..], name);
    }
  }

  lemma ControlPush(parts: seq<string>, name: string)
    requires !HasControl(name) && !AnyControl(parts)
    ensures !AnyControl(parts + [name])
  {
  }

  lemma NamesPush(parts: seq<string>, name: string)
    requires name != "" && name != "."
    ensures Names(parts + [name]) == Names(parts) + [name]
  {
    NamesConcat(parts, [name]);
    assert [name][1..] == [];
  }

  lemma OpensPieces(path: string, names: seq<string>, name: string)
    requires Portable(name) && LeadsTo(path) == Inside(names + [name])
    requires ".." !in Pieces(names) && !AnyControl(Pieces(names))
    ensures SanitizePath(path).Clean?
    ensures LeadsTo(SanitizePath(path).path) == Inside(Names(Pieces(names)) + [name])
  {
    SanitizeMeans(path);
    PiecesPush(names, name);
    ControlPush(Pieces(names), name);
    NamesPush(Pieces(names), name);
  }

  lemma LeadsToName(name: string)
    requires Portable(name)
    ensures LeadsTo(name) == Inside([] + [name])
  {
    Unsplit(name, '/');
    WalkOne(false, [], name);
  }

  lemma WalkOne(absolute: bool, at: seq<string>, name: string)
    requires Portable(name)
    ensures Walk(absolute, Inside(at), [name]) == Inside(at + [name])
  {
    assert [name][1..] == [];
  }

  lemma LeadsToUnder(prefix: string, name: string)
    requires prefix != "" && Portable(name) && LeadsTo(prefix).Inside?
    ensures LeadsTo(prefix + ['/'] + name) == Inside(LeadsTo(prefix).names + [name])
  {
    SplitConcat(prefix, name, '/');
    Unsplit(name, '/');
    WalkConcat(IsAbsolute(prefix), Inside([]), Split(prefix, '/'), [name]);
    WalkOne(IsAbsolute(prefix), LeadsTo(prefix).names, name);
  }

  lemma OpensAtTop(name: string)
    requires Portable(name)
    ensures Opens(name, [name])
  {
    LeadsToName(name);
    OpensPieces(name, [], name);
    assert Names(Pieces([])) + [name] == [name];
  }

  lemma OpensBelow(prefix: string, at: seq<string>, name: string)
    requires prefix != "" && Opens(prefix, at) && Portable(name)
    ensures Opens(prefix + ['/'] + name, at + [name])
  {
    SanitizeMeans(prefix);
    LeadsToUnder(prefix, name);
    OpensPieces(prefix + ['/'] + name, LeadsTo(prefix).names, name);
  }

  lemma OpensUnder(prefix: string, at: seq<string>, name: string)
    requires Opens(prefix, at) && Portable(name)
    ensures Opens(Under(prefix, name), at + [name])
  {
    if prefix == "" {
      OpensAtTop(name);
      assert at + [name] == [name];
    } else {
      OpensBelow(prefix, at, name);
    }
  }

  /** Going down by one portable name keeps the relation. */
  ghost predicate KeptUnder(leads: (string, seq<string>) -> bool) {
    forall p, at, n :: leads(p, at) && Portable(n) ==> leads(Under(p, n), at + [n])
  }

  lemma {:induction false} KeptUnderAll(leads: (string, seq<string>) -> bool, prefix: string, at: seq<string>,
                                        names: seq<string>)
    requires KeptUnder(leads) && leads(prefix, at) && forall n :: n in names ==> Portable(n)
    ensures leads(UnderAll(prefix, names), at + names)
    decreases |names|
  {
    if names == [] {
      assert at + names == at;
    } else {
      assert names[0] in names;
      KeptUnderAll(leads, Under(prefix, names[0]), at + [names[0]], names[1..]);
      assert at + names == (at + [names[0]]) + names[1..];
    }
  }

  lemma OpensIsKept()
    ensures KeptUnder(Opens)
  {
    forall p, at, n | Opens(p, at) && Portable(n)
      ensures Opens(Under(p, n), at + [n])
    {
      OpensUnder(p, at, n);
    }
  }

  /** A path that opens the names it was built from holds none the sanitiser would change. */
  lemma OpenNamesArePlain(path: string, names: seq<string>, name: string)
    requires path != "" && Opens(path, names) && name in names
    ensures '\\' !in name && !HasControl(name)
  {
    var clean := SanitizePath(path).path;
    var parts := Split(clean, '/');
    AcceptedStaysInside(path, 0);
    WalkDown(false, [], parts);
    assert names == [] + Names(parts) == Names(parts);
    NamesAmong(parts);
    CleanHasNoBackslash(path);
    PartsAreParts(clean, '/');
    ControlInParts(clean, '/');
  }

  lemma {:induction false} UnderAllNonempty(prefix: string, names: seq<string>)
    requires prefix != "" || (names != [] && names[0] != "")
    ensures UnderAll(prefix, names) != ""
    decreases |names|
  {
    if names != [] {
      UnderAllNonempty(Under(prefix, names[0]), names[1..]);
    }
  }

  /** Exactly when the path made of a prefix and legal names opens what the names lead to. */
  lemma OpensIff(prefix: string, at: seq<string>, names: seq<string>)
    requires Opens(prefix, at) && forall n :: n in names ==> Legal(n)
    ensures Opens(UnderAll(prefix, names), at + names) <==> forall n :: n in names ==> Portable(n)
  {
    if forall n :: n in names ==> Portable(n) {
      OpensIsKept();
      KeptUnderAll(Opens, prefix, at, names);
    } else {
      var n :| n in names && !Portable(n);
      assert names[0] in names;
      UnderAllNonempty(prefix, names);
      if Opens(UnderAll(prefix, names), at + names) {
        OpenNamesArePlain(UnderAll(prefix, names), at + names, n);
        assert false;
      }
    }
  }

  lemma {:induction false} VisibleIsLegal(dir: Content, names: seq<string>, c: Content)
    requires Visible(dir, names, c)
    ensures forall n :: n in names ==> Legal(n)
    decreases |names|
  {
    var e :| e in dir.entries && e.name == names[0] && !Skipped(e) && SeenBelow(e, names[1..], c);
    if names[1..] != [] {
      VisibleIsLegal(e.content, names[1..], c);
    }
    assert names == [names[0]] + names[1..];
  }

  lemma {:induction false} ListedIsHeld(mount: Content, at: seq<string>, dir: Content, names: seq<string>, c: Content)
    requires Holds(mount, at, dir) && Visible(dir, names, c)
    ensures Holds(mount, at + names, c)
    decreases |names|
  {
    var e :| e in dir.entries && e.name == names[0] && !Skipped(e) && SeenBelow(e, names[1..], c);
    HoldsUnder(mount, at, dir, e);
    assert at + names == (at + [e.name]) + names[1..];
    if names[1..] != [] {
      ListedIsHeld(mount, at + [e.name], e.content, names[1..], c);
    } else {
      assert at + names == at + [e.name];
    }
  }

  lemma {:induction false} HoldsUnder(mount: Content, at: seq<string>, dir: Content, e: Entry)
    requires Holds(mount, at, dir) && dir.Directory? && e in dir.entries
    ensures Holds(mount, at + [e.name], e.content)
    decreases |at|
  {
    if at == [] {
      assert (at + [e.name])[1..] == [];
      assert Holds(e.content, [], e.content);
    } else {
      var d :| d in mount.entries && d.name == at[0] && Holds(d.content, at[1..], dir);
      HoldsUnder(d.content, at[1..], dir, e);
      assert (at + [e.name])[1..] == at[1..] + [e.name];
    }
  }

  /** The node stands for an entry of the mount, and its path opens that entry exactly when every name is portable. */
  ghost predicate OpensIfPortable(mount: Content, at: seq<string>, prefix: string, n: Node, names: seq<string>,
                                  c: Content) {
    && Shows(n, prefix, names, c) && Holds(mount, at + names, c)
    && (Opens(n.path, at + names) <==> forall m :: m in names ==> Portable(m))
  }

  /** A path in a listing, given back to the file endpoints. */
  lemma ListingOpens(mount: Content, at: seq<string>, dir: Content, prefix: string, n: Node)
    requires Holds(mount, at, dir) && Opens(prefix, at) && n in All(NodesOf(Entries(dir), prefix))
    ensures exists names, c :: OpensIfPortable(mount, at, prefix, n, names, c)
  {
    var names, c := TreeSound(dir, prefix, n);
    VisibleIsLegal(dir, names, c);
    OpensIff(prefix, at, names);
    ListedIsHeld(mount, at, dir, names, c);
    assert OpensIfPortable(mount, at, prefix, n, names, c);
  }

  /** A file called `a\b` is listed under a path that leads to `b` in a directory `a`. */
  lemma BackslashNameIsLost(a: string, b: string)
    requires Portable(a) && Portable(b)
    ensures SanitizePath(a + "\\" + b) == Clean(a + ['/'] + b)
    ensures LeadsTo(a + ['/'] + b) == Inside([a, b]) && !Opens(a + "\\" + b, [a + "\\" + b])
  {
    BackslashAccepted(a, b);
    LeadsToName(a);
    LeadsToUnder(a, b);
    assert [] + [a] + [b] == [a, b];
  }

  /** So is the file of this name at the top of a listing. */
  lemma BackslashExample(name: FileName)
    requires name == "a\\b"
    ensures NodesFor(Entry(name, File(None)), "") == [FileNode(name, name, None)] && !Opens(name, [name])
  {
    var a, b := name[..1], name[2..];
    assert name == a + "\\" + b && a == "a" && b == "b";
    BackslashNameIsLost(a, b);
  }
}
