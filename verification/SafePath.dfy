/**
 The path sanitiser of the Drupal file endpoints, against the walk an operating system makes when it
 resolves a path component by component.
 */
module SafePath {
  import opened Strings

  // ---------- where a path leads ----------

  /** A directory at or below the mount, by the names on the way, or somewhere above the mount. */
  datatype Place = Inside(names: seq<string>) | Outside

  /** One step of resolving a path; in an absolute path the mount is the root, whose parent is itself. */
  function Enter(absolute: bool, at: Place, name: string): Place {
    if at == Outside || name == "" || name == "." then at
    else if name != ".." then Inside(at.names + [name])
    else if at.names != [] then Inside(at.names[..|at.names| - 1])
    else if absolute then at
    else Outside
  }

  function Walk(absolute: bool, at: Place, names: seq<string>): Place
    decreases |names|
  {
    if names == [] then at else Walk(absolute, Enter(absolute, at, names[0]), names[1..])
  }

  predicate IsAbsolute(path: string) {
    path != "" && path[0] == '/'
  }

  /** Where `path` leads from the mount; Outside as soon as a step leaves it. */
  function LeadsTo(path: string): Place {
    Walk(IsAbsolute(path), Inside([]), Split(path, '/'))
  }

  lemma {:induction false} WalkConcat(absolute: bool, at: Place, a: seq<string>, b: seq<string>)
    ensures Walk(absolute, at, a + b) == Walk(absolute, Walk(absolute, at, a), b)
    decreases |a|
  {
    if a == [] {
      assert a + b == b;
    } else {
      assert (a + b)[1..] == a[1..] + b;
      WalkConcat(absolute, Enter(absolute, at, a[0]), a[1..], b);
    }
  }

  /** The names that move a walk without "..": neither empty nor ".". */
  function Names(parts: seq<string>): seq<string> {
    if parts == [] then []
    else (if parts[0] == "" || parts[0] == "." then [] else [parts[0]]) + Names(parts[1..])
  }

  lemma {:induction false} WalkDown(absolute: bool, at: seq<string>, parts: seq<string>)
    requires ".." !in parts
    ensures Walk(absolute, Inside(at), parts) == Inside(at + Names(parts))
    decreases |parts|
  {
    if parts != [] {
      var next := Enter(absolute, Inside(at), parts[0]);
      WalkDown(absolute, next.names, parts[1..]);
      assert next.names + Names(parts[1..]) == at + Names(parts);
    }
  }

  lemma {:induction false} NamesConcat(a: seq<string>, b: seq<string>)
    ensures Names(a + b) == Names(a) + Names(b)
  {
    if a == [] {
      assert a + b == b;
    } else {
      assert (a + b)[1..] == a[1..] + b;
      NamesConcat(a[1..], b);
    }
  }

  lemma {:induction false} NamesKeep(parts: seq<string>)
    requires "" !in parts && "." !in parts
    ensures Names(parts) == parts
  {
    if parts != [] {
      NamesKeep(parts[1..]);
    }
  }

  lemma {:induction false} NamesClean(parts: seq<string>)
    ensures "" !in Names(parts) && "." !in Names(parts)
  {
    if parts != [] {
      NamesClean(parts[1..]);
    }
  }

  // ---------- os.path.normpath ----------

  function NormStep(absolute: bool, kept: seq<string>, name: string): seq<string> {
    if name == "" || name == "." then kept
    else if name != ".." || (!absolute && kept == []) || (kept != [] && kept[|kept| - 1] == "..") then kept + [name]
    else if kept != [] then kept[..|kept| - 1]
    else kept
  }

  function NormNames(absolute: bool, kept: seq<string>, names: seq<string>): seq<string>
    decreases |names|
  {
    if names == [] then kept else NormNames(absolute, NormStep(absolute, kept, names[0]), names[1..])
  }

  /** The root of a path: two leading slashes are a root of their own, any other number is one slash. */
  function Root(path: string): (root: string)
    ensures root <= path
  {
    if !IsAbsolute(path) then ""
    else if |path| == 1 || path[1] != '/' || (|path| > 2 && path[2] == '/') then path[..1]
    else path[..2]
  }

  function NormPath(path: string): string {
    var root := Root(path);
    var normal := root + Join(NormNames(IsAbsolute(path), [], Split(path[|root|..], '/')), "/");
    if normal == "" then "." else normal
  }

  /** What normalising keeps of a walk: the names below the mount, or a leading ".." when the walk left it. */
  ghost predicate Follows(absolute: bool, kept: seq<string>, at: Place) {
    && "" !in kept && "." !in kept
    && (forall k :: k in kept ==> '/' !in k)
    && (at.Inside? ==> kept == at.names && ".." !in kept)
    && (at == Outside ==> !absolute && kept != [] && kept[0] == "..")
  }

  lemma NormStepFollows(absolute: bool, kept: seq<string>, at: Place, name: string)
    requires Follows(absolute, kept, at) && '/' !in name
    ensures Follows(absolute, NormStep(absolute, kept, name), Enter(absolute, at, name))
  {
    if at == Outside && name == ".." && kept[|kept| - 1] != ".." {
      assert kept[..|kept| - 1][0] == "..";
    }
  }

  lemma {:induction false} NormFollows(absolute: bool, kept: seq<string>, at: Place, names: seq<string>)
    requires Follows(absolute, kept, at) && forall n :: n in names ==> '/' !in n
    ensures Follows(absolute, NormNames(absolute, kept, names), Walk(absolute, at, names))
    decreases |names|
  {
    if names != [] {
      NormStepFollows(absolute, kept, at, names[0]);
      NormFollows(absolute, NormStep(absolute, kept, names[0]), Enter(absolute, at, names[0]), names[1..]);
    }
  }

  function Kept(path: string): seq<string> {
    NormNames(IsAbsolute(path), [], Split(path[|Root(path)|..], '/'))
  }

  lemma LeadingSlash(path: string)
    requires path != "" && path[0] == '/'
    ensures Split(path, '/') == [""] + Split(path[1..], '/')
  {
    IndexOfUnique(path, '/', 0);
  }

  lemma WalkFromSlash(absolute: bool, path: string)
    requires path != "" && path[0] == '/'
    ensures Walk(absolute, Inside([]), Split(path, '/')) == Walk(absolute, Inside([]), Split(path[1..], '/'))
  {
    LeadingSlash(path);
    assert ([""] + Split(path[1..], '/'))[1..] == Split(path[1..], '/');
  }

  lemma WalkFromRoot(path: string)
    ensures LeadsTo(path) == Walk(IsAbsolute(path), Inside([]), Split(path[|Root(path)|..], '/'))
  {
    if IsAbsolute(path) {
      WalkFromSlash(true, path);
      if |Root(path)| == 2 {
        WalkFromSlash(true, path[1..]);
        assert path[1..][1..] == path[2..];
      }
    } else {
      assert path[0..] == path;
    }
  }

  lemma KeptFollows(path: string)
    ensures Follows(IsAbsolute(path), Kept(path), LeadsTo(path))
  {
    WalkFromRoot(path);
    NormFollows(IsAbsolute(path), [], Inside([]), Split(path[|Root(path)|..], '/'));
  }

  // ---------- _sanitize_path ----------

  datatype Verdict = Clean(path: string) | Traversal | InvalidPath | InvalidCharacters

  predicate HasControl(s: string) {
    exists i :: 0 <= i < |s| && s[i] < ' '
  }

  predicate IsSlash(c: char) {
    c == '/'
  }

  function Forward(path: string): string {
    StripLeft(Replace(NormPath(path), '\\', "/"), IsSlash)
  }

  function SanitizePath(path: string): Verdict {
    var clean := Forward(path);
    if ".." in Split(clean, '/') then Traversal
    else if clean == "" || clean == "." then InvalidPath
    else if HasControl(clean) then InvalidCharacters
    else Clean(clean)
  }

  // ---------- splitting the sanitised text ----------

  /** The names a walk kept, cut once more at the backslashes, which are turned into slashes afterwards. */
  function Pieces(names: seq<string>): seq<string> {
    if names == [] then [] else Split(names[0], '\\') + Pieces(names[1..])
  }

  lemma ReplaceStep(head: string, tail: string, from: char, other: char)
    requires from !in head
    ensures Replace(head + [from] + tail, from, [other]) == head + [other] + Replace(tail, from, [other])
  {
    ReplaceConcat(head + [from], tail, from, [other]);
    ReplaceConcat(head, [from], from, [other]);
    ReplaceAbsent(head, from, [other]);
    assert [from][1..] == [];
  }

  lemma {:induction false} ReplaceIsJoin(s: string, from: char, other: char)
    ensures Replace(s, from, [other]) == Join(Split(s, from), [other])
    decreases |s|
  {
    var i := IndexOf(s, from);
    if i == |s| {
      ReplaceAbsent(s, from, [other]);
    } else {
      assert s == s[..i] + [from] + s[i + 1..];
      ReplaceStep(s[..i], s[i + 1..], from, other);
      ReplaceIsJoin(s[i + 1..], from, other);
    }
  }

  lemma {:induction false} PartsAreParts(s: string, sep: char)
    ensures forall p, c :: p in Split(s, sep) && c in p ==> c in s
    decreases |s|
  {
    var i := IndexOf(s, sep);
    if i < |s| {
      PartsAreParts(s[i + 1..], sep);
    }
  }

  lemma NameToPieces(name: string)
    requires '/' !in name
    ensures Split(Replace(name, '\\', "/"), '/') == Split(name, '\\')
  {
    ReplaceIsJoin(name, '\\', '/');
    PartsAreParts(name, '\\');
    SplitOfJoin(Split(name, '\\'), '/');
  }

  lemma ReplaceJoinStep(names: seq<string>)
    requires |names| > 1
    ensures Replace(Join(names, "/"), '\\', "/")
         == Replace(names[0], '\\', "/") + ['/'] + Replace(Join(names[1..], "/"), '\\', "/")
  {
    ReplaceConcat(names[0] + "/", Join(names[1..], "/"), '\\', "/");
    ReplaceConcat(names[0], "/", '\\', "/");
    ReplaceAbsent("/", '\\', "/");
  }

  lemma {:induction false} JoinToPieces(names: seq<string>)
    requires names != [] && forall n :: n in names ==> '/' !in n
    ensures Split(Replace(Join(names, "/"), '\\', "/"), '/') == Pieces(names)
    decreases |names|
  {
    NameToPieces(names[0]);
    if |names| == 1 {
      assert Pieces(names) == Split(names[0], '\\') + Pieces(names[1..]);
      assert Pieces(names[1..]) == [];
    } else {
      JoinToPieces(names[1..]);
      ReplaceJoinStep(names);
      SplitConcat(Replace(names[0], '\\', "/"), Replace(Join(names[1..], "/"), '\\', "/"), '/');
    }
  }

  lemma NamesSkip(parts: seq<string>)
    ensures Names([""] + parts) == Names(parts)
  {
    assert ([""] + parts)[1..] == parts;
  }

  /** Dropping leading slashes changes neither the names nor whether ".." occurs. */
  lemma {:induction false} StripSlashes(s: string)
    ensures var r := StripLeft(s, IsSlash);
      Names(Split(r, '/')) == Names(Split(s, '/')) && (".." in Split(r, '/') <==> ".." in Split(s, '/'))
    decreases |s|
  {
    if s != "" && s[0] == '/' {
      LeadingSlash(s);
      StripSlashes(s[1..]);
      NamesSkip(Split(s[1..], '/'));
    }
  }

  lemma ControlAfter(s: string)
    requires s != "" && s[0] >= ' '
    ensures HasControl(s[1..]) <==> HasControl(s)
  {
    if HasControl(s) {
      var i :| 0 <= i < |s| && s[i] < ' ';
      assert s[1..][i - 1] < ' ';
    }
  }

  lemma {:induction false} StripSlashesControl(s: string)
    ensures HasControl(StripLeft(s, IsSlash)) <==> HasControl(s)
    decreases |s|
  {
    if s != "" && IsSlash(s[0]) {
      StripSlashesControl(s[1..]);
      ControlAfter(s);
    }
  }

  ghost predicate AnyControl(parts: seq<string>) {
    exists p :: p in parts && HasControl(p)
  }

  lemma HasControlConcat(a: string, b: string)
    ensures HasControl(a + b) <==> HasControl(a) || HasControl(b)
  {
    if HasControl(a) {
      var i :| 0 <= i < |a| && a[i] < ' ';
      assert (a + b)[i] < ' ';
    }
    if HasControl(b) {
      var i :| 0 <= i < |b| && b[i] < ' ';
      assert (a + b)[|a| + i] < ' ';
    }
  }

  lemma {:induction false} ControlInParts(s: string, sep: char)
    requires sep >= ' '
    ensures HasControl(s) <==> AnyControl(Split(s, sep))
    decreases |s|
  {
    var i := IndexOf(s, sep);
    if i == |s| {
      assert s in [s];
    } else {
      var rest := s[i + 1..];
      ControlInParts(rest, sep);
      assert s == (s[..i] + [sep]) + rest;
      HasControlConcat(s[..i] + [sep], rest);
      HasControlConcat(s[..i], [sep]);
      assert s[..i] in Split(s, sep);
      assert forall p :: p in Split(s, sep) <==> p == s[..i] || p in Split(rest, sep);
    }
  }

  lemma {:induction false} StripRoot(root: string, s: string)
    requires forall c :: c in root ==> IsSlash(c)
    ensures StripLeft(root + s, IsSlash) == StripLeft(s, IsSlash)
  {
    if root == [] {
      assert root + s == s;
    } else {
      assert root[0] in root;
      assert (root + s)[1..] == root[1..] + s;
      StripRoot(root[1..], s);
    }
  }

  lemma Rooted(path: string)
    ensures Root(path) == "" || Root(path) == "/" || Root(path) == "//"
  {
  }

  /** With nothing kept there is nothing to forward but a dot or slashes. */
  lemma NothingKept(path: string)
    requires Kept(path) == []
    ensures Forward(path) == "" || Forward(path) == "."
  {
    var root := Root(path);
    Rooted(path);
    var normal := NormPath(path);
    assert normal == (if root == "" then "." else root);
    ReplaceAbsent(normal, '\\', "/");
    StripRoot(root, "");
    if root != "" {
      assert normal == root + "";
    }
  }

  lemma JoinNonempty(names: seq<string>)
    requires names != [] && names[0] != ""
    ensures Join(names, "/") != ""
  {
  }

  lemma SomethingKept(path: string)
    requires Kept(path) != [] && Kept(path)[0] != ""
    ensures Forward(path) == StripLeft(Replace(Join(Kept(path), "/"), '\\', "/"), IsSlash)
  {
    var root := Root(path);
    Rooted(path);
    JoinNonempty(Kept(path));
    ReplaceConcat(root, Join(Kept(path), "/"), '\\', "/");
    ReplaceAbsent(root, '\\', "/");
    StripRoot(root, Replace(Join(Kept(path), "/"), '\\', "/"));
  }

  /** The forwarded text, in terms of the names the walk kept. */
  lemma ForwardPieces(path: string)
    ensures var clean, pieces := Forward(path), Pieces(Kept(path));
      && Names(Split(clean, '/')) == Names(pieces)
      && (".." in Split(clean, '/') <==> ".." in pieces)
      && (HasControl(clean) <==> AnyControl(pieces))
      && !IsAbsolute(clean)
  {
    KeptFollows(path);
    var kept := Kept(path);
    if kept == [] {
      NothingKept(path);
      SplitDot();
    } else {
      SomethingKept(path);
      var r := Replace(Join(kept, "/"), '\\', "/");
      JoinToPieces(kept);
      StripSlashes(r);
      StripSlashesControl(r);
      ControlInParts(r, '/');
    }
  }

  lemma SplitDot()
    ensures Split("", '/') == [""] && Split(".", '/') == ["."]
    ensures Names([""]) == [] && Names(["."]) == []
  {
    IndexOfUnique(".", '/', 1);
    assert [""][1..] == [] && ["."][1..] == [];
  }

  lemma {:induction false} DotDotPiece(names: seq<string>)
    requires names != [] && names[0] == ".."
    ensures ".." in Pieces(names)
  {
    IndexOfUnique("..", '\\', 2);
    assert Split("..", '\\') == [".."];
    assert [".."][0] in Pieces(names);
  }

  ghost predicate HiddenOrOutside(at: Place) {
    at == Outside || ".." in Pieces(at.names)
  }

  /**
   The verdicts, by where the path leads: traversal exactly when it leaves the mount or a backslash hides a
   ".."; control characters exactly when otherwise a name holds one; invalid exactly when no name remains and
   the forwarded text is empty or one character; and an accepted path leads where the given one does once
   backslashes separate too.
   */
  lemma SanitizeMeans(path: string)
    ensures var at, verdict := LeadsTo(path), SanitizePath(path);
      && (verdict == Traversal <==> HiddenOrOutside(at))
      && (verdict == InvalidCharacters <==> !HiddenOrOutside(at) && AnyControl(Pieces(at.names)))
      && (verdict == InvalidPath <==> at.Inside? && Names(Pieces(at.names)) == [] && |Forward(path)| <= 1)
      && (verdict.Clean? ==> LeadsTo(verdict.path) == Inside(Names(Pieces(at.names))))
  {
    KeptFollows(path);
    ForwardPieces(path);
    var clean := Forward(path);
    SplitDot();
    if LeadsTo(path) == Outside {
      DotDotPiece(Kept(path));
    } else {
      ShortForward(clean);
      NamesHold(Pieces(LeadsTo(path).names));
      if ".." !in Split(clean, '/') {
        LeadsToNames(clean);
      }
    }
  }

  /** A part that is neither empty nor "." is a name, so without names there is no ".." and no control character. */
  lemma {:induction false} NamesHold(parts: seq<string>)
    ensures Names(parts) == [] ==> ".." !in parts && !AnyControl(parts)
  {
    if parts != [] {
      NamesHold(parts[1..]);
      assert parts == [parts[0]] + parts[1..];
    }
  }

  lemma NamesOfOne(name: string)
    ensures Names([name]) == if name == "" || name == "." then [] else [name]
  {
    assert [name][1..] == [];
  }

  lemma ShortForward(clean: string)
    requires !IsAbsolute(clean)
    ensures clean == "" || clean == "." <==> |clean| <= 1 && Names(Split(clean, '/')) == []
  {
    if |clean| <= 1 {
      assert '/' !in clean;
      Unsplit(clean, '/');
      NamesOfOne(clean);
    }
  }

  /** Exactly when an accepted path leads to the mount itself. */
  lemma AcceptsMount(path: string)
    ensures SanitizePath(path).Clean? && LeadsTo(SanitizePath(path).path) == Inside([]) <==>
      LeadsTo(path).Inside? && Names(Pieces(LeadsTo(path).names)) == [] && |Forward(path)| > 1
  {
    SanitizeMeans(path);
    if LeadsTo(path).Inside? {
      NamesHold(Pieces(LeadsTo(path).names));
    }
  }

  /**
   What acceptance guarantees: a nonempty relative path free of ".." and of control characters, none of whose
   prefixes leaves the mount.
   */
  lemma AcceptedStaysInside(path: string, k: nat)
    requires SanitizePath(path).Clean?
    ensures var clean := SanitizePath(path).path;
      && clean != "" && clean != "." && !IsAbsolute(clean) && !HasControl(clean)
      && ".." !in Split(clean, '/')
      && (k <= |Split(clean, '/')| ==> Walk(false, Inside([]), Split(clean, '/')[..k]).Inside?)
  {
    ForwardPieces(path);
    var parts := Split(SanitizePath(path).path, '/');
    if k <= |parts| {
      WalkDown(false, [], parts[..k]);
    }
  }

  // ---------- paths without a backslash ----------

  lemma {:induction false} NoBackslashPieces(names: seq<string>)
    requires forall n :: n in names ==> '\\' !in n
    ensures Pieces(names) == names
  {
    if names != [] {
      assert names[0] in names;
      Unsplit(names[0], '\\');
      NoBackslashPieces(names[1..]);
      assert names == [names[0]] + names[1..];
    }
  }

  lemma {:induction false} KeptNames(absolute: bool, kept: seq<string>, names: seq<string>)
    ensures forall n :: n in NormNames(absolute, kept, names) ==> n in kept || n in names
    decreases |names|
  {
    if names != [] {
      KeptNames(absolute, NormStep(absolute, kept, names[0]), names[1..]);
    }
  }

  lemma KeptWithoutBackslash(path: string)
    requires '\\' !in path
    ensures Pieces(Kept(path)) == Kept(path)
  {
    var rest := path[|Root(path)|..];
    KeptNames(IsAbsolute(path), [], Split(rest, '/'));
    PartsAreParts(rest, '/');
    NoBackslashPieces(Kept(path));
  }

  lemma {:induction false} JoinChars(names: seq<string>, c: char)
    requires c in Join(names, "/")
    ensures c == '/' || exists n :: n in names && c in n
    decreases |names|
  {
    if |names| > 1 && c !in names[0] && c != '/' {
      JoinChars(names[1..], c);
    }
  }

  /** The forwarded text of a path without backslashes is the join of the names on the way. */
  lemma ForwardPlain(path: string)
    requires '\\' !in path && LeadsTo(path).Inside? && LeadsTo(path).names != []
    ensures Forward(path) == Join(LeadsTo(path).names, "/")
    ensures Split(Forward(path), '/') == LeadsTo(path).names
  {
    KeptFollows(path);
    KeptWithoutBackslash(path);
    var kept := Kept(path);
    assert kept[0] in kept;
    SomethingKept(path);
    JoinToPieces(kept);
    var r := Replace(Join(kept, "/"), '\\', "/");
    JoinOfSplit(r, '/');
    assert kept[0] != "" && '/' !in kept[0];
    assert r[0] == kept[0][0];
  }

  /** Without backslashes the verdict is a function of where the path leads. */
  lemma SanitizePlain(path: string)
    requires '\\' !in path
    ensures SanitizePath(path) ==
      match LeadsTo(path)
      case Outside => Traversal
      case Inside(names) =>
        if names == [] then InvalidPath
        else if HasControl(Join(names, "/")) then InvalidCharacters
        else Clean(Join(names, "/"))
  {
    KeptFollows(path);
    KeptWithoutBackslash(path);
    SanitizeMeans(path);
    if LeadsTo(path).Inside? {
      if LeadsTo(path).names == [] {
        NothingKept(path);
        SplitDot();
      } else {
        ForwardPlain(path);
      }
    }
  }

  /**
   Sanitising again changes nothing exactly when the accepted text has no empty and no "." component;
   only backslashes leave one behind.
   */
  lemma SanitizeTwice(path: string)
    requires SanitizePath(path).Clean?
    ensures var clean := SanitizePath(path).path;
      SanitizePath(clean) == Clean(clean) <==> "" !in Split(clean, '/') && "." !in Split(clean, '/')
  {
    CleanHasNoBackslash(path);
    AcceptedStaysInside(path, 0);
    CleanTwice(SanitizePath(path).path);
  }

  lemma CleanTwice(clean: string)
    requires '\\' !in clean && ".." !in Split(clean, '/') && !IsAbsolute(clean) && !HasControl(clean) && clean != ""
    ensures SanitizePath(clean) == Clean(clean) <==> "" !in Split(clean, '/') && "." !in Split(clean, '/')
  {
    var parts := Split(clean, '/');
    LeadsToNames(clean);
    SanitizePlain(clean);
    JoinOfSplit(clean, '/');
    if "" !in parts && "." !in parts {
      NamesKeep(parts);
    } else if SanitizePath(clean) == Clean(clean) {
      NamesClean(parts);
      NamesSplit(parts);
    }
  }

  lemma LeadsToNames(clean: string)
    requires ".." !in Split(clean, '/') && !IsAbsolute(clean)
    ensures LeadsTo(clean) == Inside(Names(Split(clean, '/')))
  {
    WalkDown(false, [], Split(clean, '/'));
    assert [] + Names(Split(clean, '/')) == Names(Split(clean, '/'));
  }

  /** If the names of some parts join to a text, splitting it gives the names back. */
  lemma NamesSplit(parts: seq<string>)
    requires Names(parts) != [] && forall p :: p in parts ==> '/' !in p
    ensures Split(Join(Names(parts), "/"), '/') == Names(parts)
  {
    NamesAmong(parts);
    SplitOfJoin(Names(parts), '/');
  }

  lemma {:induction false} NamesAmong(parts: seq<string>)
    ensures forall n :: n in Names(parts) ==> n in parts
  {
    if parts != [] {
      NamesAmong(parts[1..]);
    }
  }

  lemma CleanHasNoBackslash(path: string)
    ensures '\\' !in Forward(path)
  {
    ReplaceRemoves(NormPath(path), '\\', "/");
  }

  lemma NormOne(name: string)
    requires name != "" && name != "." && name != ".." && '/' !in name
    ensures NormPath(name) == name
  {
    Unsplit(name, '/');
    assert Root(name) == "" && name[0..] == name;
    NormNamesOne(false, [], name);
  }

  lemma NormNamesOne(absolute: bool, kept: seq<string>, name: string)
    requires name != "" && name != "." && name != ".."
    ensures NormNames(absolute, kept, [name]) == kept + [name]
  {
    assert [name][1..] == [];
  }

  lemma ReplacedBetween(a: string, b: string)
    requires '\\' !in a && '\\' !in b
    ensures Replace(a + "\\" + b, '\\', "/") == a + ['/'] + b
  {
    ReplaceConcat(a + "\\", b, '\\', "/");
    ReplaceConcat(a, "\\", '\\', "/");
    ReplaceAbsent(a, '\\', "/");
    ReplaceAbsent(b, '\\', "/");
    assert Replace("\\", '\\', "/") == "/";
  }

  lemma BackslashNormal(a: string, b: string)
    requires '/' !in a && '/' !in b
    ensures NormPath(a + "\\" + b) == a + "\\" + b
  {
    var path := a + "\\" + b;
    assert path[|a|] == '\\';
    NormOne(path);
  }

  /** A backslash between two names is forwarded as a slash. */
  lemma BackslashJoins(a: string, b: string)
    requires a != "" && '/' !in a && '/' !in b && '\\' !in a && '\\' !in b
    ensures Forward(a + "\\" + b) == a + ['/'] + b
    ensures Split(a + ['/'] + b, '/') == [a, b]
  {
    BackslashNormal(a, b);
    ReplacedBetween(a, b);
    assert (a + ['/'] + b)[0] == a[0] != '/';
    SplitHead(a, b, '/');
    Unsplit(b, '/');
  }

  lemma ControlBetween(a: string, b: string)
    requires !HasControl(a) && !HasControl(b)
    ensures !HasControl(a + ['/'] + b)
  {
    HasControlConcat(a + ['/'], b);
    HasControlConcat(a, ['/']);
  }

  /** So two names that are harmless alone are accepted as a path of two. */
  lemma BackslashAccepted(a: string, b: string)
    requires a != "" && '/' !in a && '/' !in b && '\\' !in a && '\\' !in b
    requires a != ".." && b != ".." && !HasControl(a) && !HasControl(b)
    ensures SanitizePath(a + "\\" + b) == Clean(a + ['/'] + b)
  {
    BackslashJoins(a, b);
    ControlBetween(a, b);
    Accepted(a + "\\" + b, a + ['/'] + b);
  }

  lemma Accepted(path: string, clean: string)
    requires Forward(path) == clean && |clean| > 1 && !HasControl(clean) && ".." !in Split(clean, '/')
    ensures SanitizePath(path) == Clean(clean)
  {
  }

  /** A backslash can hide a path to the mount itself, which the test for an empty path misses. */
  lemma HiddenDot(path: string)
    requires path == ".\\."
    ensures SanitizePath(path).Clean? && LeadsTo(SanitizePath(path).path) == Inside([])
  {
    HiddenBetween(path[..1]);
    assert path == path[..1] + "\\" + path[..1];
  }

  lemma HiddenBetween(dot: string)
    requires dot == "."
    ensures var v := SanitizePath(dot + "\\" + dot); v.Clean? && LeadsTo(v.path) == Inside([])
  {
    BackslashAccepted(dot, dot);
    BackslashJoins(dot, dot);
    LeadsToNames(dot + ['/'] + dot);
    NamesOfTwo(dot, dot);
    NamesOfOne(dot);
  }

  lemma NamesOfTwo(a: string, b: string)
    ensures Names([a, b]) == Names([a]) + Names([b])
  {
    NamesConcat([a], [b]);
    assert [a, b] == [a] + [b];
  }
}
