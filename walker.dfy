/** Listing every file of a directory tree, as `get_filelist` does with `os.walk`. */
module Walker {
  import opened Paths

  /** An entry of a directory: a file, or a sub-directory with its entries in listing order. */
  datatype Node = File(name: string) | Folder(name: string, entries: seq<Node>)

  /** One step of `os.walk`: a directory and the names of the files directly inside it. */
  type Level = (Path, seq<string>)

  // The tree's own view of what it holds, independent of how it is walked.

  /** `rel` leads from the directory holding `n` to a file at or below `n`. */
  predicate HasFileAt(n: Node, rel: Path)
    decreases n
  {
    && |rel| > 0 && rel[0] == n.name
    && match n
       case File(_) => |rel| == 1
       case Folder(_, entries) => AnyHasFileAt(entries, rel[1..])
  }

  predicate AnyHasFileAt(nodes: seq<Node>, rel: Path)
    decreases nodes
  {
    nodes != [] && (HasFileAt(nodes[0], rel) || AnyHasFileAt(nodes[1..], rel))
  }

  /** `rel` leads from the directory holding `n` to a directory at or below `n`. */
  predicate HasFolderAt(n: Node, rel: Path)
    decreases n
  {
    && |rel| > 0 && rel[0] == n.name && n.Folder?
    && (|rel| == 1 || AnyHasFolderAt(n.entries, rel[1..]))
  }

  predicate AnyHasFolderAt(nodes: seq<Node>, rel: Path)
    decreases nodes
  {
    nodes != [] && (HasFolderAt(nodes[0], rel) || AnyHasFolderAt(nodes[1..], rel))
  }

  /** `p` is a file of the tree whose top directory is `top`. */
  predicate IsFileOf(top: Path, entries: seq<Node>, p: Path) {
    |p| > |top| && p[..|top|] == top && AnyHasFileAt(entries, p[|top|..])
  }

  /** The number of files at any depth. */
  function FileCount(nodes: seq<Node>): nat
    decreases nodes
  {
    if nodes == [] then 0 else NodeFileCount(nodes[0]) + FileCount(nodes[1..])
  }

  function NodeFileCount(n: Node): nat
    decreases n
  {
    match n
    case File(_) => 1
    case Folder(_, entries) => FileCount(entries)
  }

  /** Names within one directory are distinct, at every depth, as on a real disk. */
  predicate WellFormed(nodes: seq<Node>) {
    && (forall i, j :: 0 <= i < j < |nodes| ==> nodes[i].name != nodes[j].name)
    && (forall i :: 0 <= i < |nodes| && nodes[i].Folder? ==> WellFormed(nodes[i].entries))
  }

  ghost predicate Distinct<T>(s: seq<T>) {
    forall i, j :: 0 <= i < j < |s| ==> s[i] != s[j]
  }

  // os.walk and get_filelist.

  function FileNames(nodes: seq<Node>): seq<string> {
    if nodes == [] then []
    else (if nodes[0].File? then [nodes[0].name] else []) + FileNames(nodes[1..])
  }

  /** `os.walk(top)`, top-down: the top directory first, then each sub-directory in listing order. */
  function Walk(top: Path, entries: seq<Node>): seq<Level>
    decreases entries, 1
  {
    [(top, FileNames(entries))] + WalkFolders(top, entries)
  }

  function WalkFolders(top: Path, nodes: seq<Node>): seq<Level>
    decreases nodes, 0
  {
    if nodes == [] then []
    else
      (match nodes[0]
       case File(_) => []
       case Folder(name, entries) => Walk(top + [name], entries))
      + WalkFolders(top, nodes[1..])
  }

  /** `os.path.join(root, file)` for each file name. */
  function JoinAll(root: Path, names: seq<string>): (paths: seq<Path>)
    ensures |paths| == |names|
  {
    seq(|names|, i requires 0 <= i < |names| => root + [names[i]])
  }

  /** The paths the nested loops of `get_filelist` append, level by level. */
  function Flatten(levels: seq<Level>): seq<Path> {
    if levels == [] then []
    else Flatten(levels[..|levels| - 1]) + JoinAll(levels[|levels| - 1].0, levels[|levels| - 1].1)
  }

  function FileList(top: Path, entries: seq<Node>): seq<Path> {
    Flatten(Walk(top, entries))
  }

  /**
   * `get_filelist`: every file at any depth below `dir`, joined to the
   * directory that holds it; each one once, and no directory.
   */
  method GetFileList(dir: Path, entries: seq<Node>) returns (fileList: seq<Path>)
    ensures fileList == FileList(dir, entries)
    ensures |fileList| == FileCount(entries)
    ensures forall p :: p in fileList <==> IsFileOf(dir, entries, p)
    ensures WellFormed(entries) ==> Distinct(fileList)
    ensures forall rel :: WellFormed(entries) && AnyHasFolderAt(entries, rel) ==> dir + rel !in fileList
  {
    var walk := Walk(dir, entries);
    fileList := [];
    var i := 0;
    while i < |walk|
      invariant 0 <= i <= |walk|
      invariant fileList == Flatten(walk[..i])
    {
      var (root, files) := walk[i];
      var j := 0;
      while j < |files|
        invariant 0 <= j <= |files|
        invariant fileList == Flatten(walk[..i]) + JoinAll(root, files[..j])
      {
        assert JoinAll(root, files[..j + 1]) == JoinAll(root, files[..j]) + [root + [files[j]]];
        fileList := fileList + [root + [files[j]]];
        j := j + 1;
      }
      assert files[..j] == files;
      assert walk[..i + 1][..i] == walk[..i];
      i := i + 1;
    }
    assert walk[..i] == walk;
    FileListCount(dir, entries);
    forall p ensures p in fileList <==> IsFileOf(dir, entries, p) {
      FileListMembers(dir, entries, p);
    }
    if WellFormed(entries) {
      FileListDistinct(dir, entries);
      forall rel | AnyHasFolderAt(entries, rel) ensures dir + rel !in fileList {
        FoldersAreNotFiles(entries, rel);
        assert (dir + rel)[..|dir|] == dir && (dir + rel)[|dir|..] == rel;
      }
    }
  }

  // Proofs.

  /** The part of a walk below one entry. */
  function NodeFiles(top: Path, n: Node): seq<Path> {
    match n
    case File(_) => []
    case Folder(name, entries) => FileList(top + [name], entries)
  }

  function FolderLists(top: Path, nodes: seq<Node>): seq<Path> {
    if nodes == [] then [] else NodeFiles(top, nodes[0]) + FolderLists(top, nodes[1..])
  }

  lemma {:induction false} FlattenAppend(a: seq<Level>, b: seq<Level>)
    ensures Flatten(a + b) == Flatten(a) + Flatten(b)
    decreases |b|
  {
    if b != [] {
      var b' := b[..|b| - 1];
      assert (a + b)[..|a + b| - 1] == a + b';
      FlattenAppend(a, b');
    } else {
      assert a + b == a;
    }
  }

  lemma {:induction false} FlattenWalkFolders(top: Path, nodes: seq<Node>)
    ensures Flatten(WalkFolders(top, nodes)) == FolderLists(top, nodes)
  {
    if nodes != [] {
      var here := match nodes[0] case File(_) => [] case Folder(name, entries) => Walk(top + [name], entries);
      FlattenAppend(here, WalkFolders(top, nodes[1..]));
      FlattenWalkFolders(top, nodes[1..]);
    }
  }

  /** The walk lists the files directly in `top`, then those below each sub-directory. */
  lemma FileListUnfold(top: Path, entries: seq<Node>)
    ensures FileList(top, entries) == JoinAll(top, FileNames(entries)) + FolderLists(top, entries)
  {
    var first: seq<Level> := [(top, FileNames(entries))];
    assert Walk(top, entries) == first + WalkFolders(top, entries);
    FlattenAppend(first, WalkFolders(top, entries));
    assert Flatten(first) == JoinAll(top, FileNames(entries)) by {
      assert first[..0] == [];
      assert Flatten(first) == Flatten([]) + JoinAll(top, FileNames(entries));
    }
    FlattenWalkFolders(top, entries);
  }

  lemma JoinAllAppend(root: Path, a: seq<string>, b: seq<string>)
    ensures JoinAll(root, a + b) == JoinAll(root, a) + JoinAll(root, b)
  {
  }

  lemma {:induction false} NoFileAtEmptyPath(nodes: seq<Node>)
    ensures !AnyHasFileAt(nodes, [])
    decreases nodes
  {
    if nodes != [] {
      NoFileAtEmptyPath(nodes[1..]);
    }
  }

  /** A path is listed exactly when the tree holds a file there. */
  lemma {:induction false} FileListMembers(top: Path, entries: seq<Node>, p: Path)
    ensures p in FileList(top, entries) <==> IsFileOf(top, entries, p)
    decreases entries, 1
  {
    FileListUnfold(top, entries);
    PartMembers(top, entries, p);
  }

  lemma {:induction false} PartMembers(top: Path, nodes: seq<Node>, p: Path)
    ensures p in JoinAll(top, FileNames(nodes)) + FolderLists(top, nodes) <==> IsFileOf(top, nodes, p)
    decreases nodes, 0
  {
    if nodes != [] {
      var n, rest := nodes[0], nodes[1..];
      var head := if n.File? then [n.name] else [];
      JoinAllAppend(top, head, FileNames(rest));
      PartMembers(top, rest, p);
      match n
      case File(name) =>
        assert JoinAll(top, head) == [top + [name]];
        if p == top + [name] {
          assert p[|top|..] == [name];
        }
        if |p| > |top| && p[..|top|] == top && HasFileAt(n, p[|top|..]) {
          assert p == top + p[|top|..];
        }
      case Folder(name, entries) =>
        FileListMembers(top + [name], entries, p);
        if |p| > |top| + 1 && p[..|top| + 1] == top + [name] {
          var rel := p[|top|..];
          assert p[..|top|] == top && rel[0] == name && rel[1..] == p[|top| + 1..];
        }
        if |p| > |top| && p[..|top|] == top && HasFileAt(n, p[|top|..]) {
          var rel := p[|top|..];
          NoFileAtEmptyPath(entries);
          assert |rel| > 1 && p[..|top| + 1] == top + [name] && rel[1..] == p[|top| + 1..];
        }
    }
  }

  /** The listing is as long as the tree has files. */
  lemma {:induction false} FileListCount(top: Path, entries: seq<Node>)
    ensures |FileList(top, entries)| == FileCount(entries)
    decreases entries, 1
  {
    FileListUnfold(top, entries);
    PartCount(top, entries);
  }

  lemma {:induction false} PartCount(top: Path, nodes: seq<Node>)
    ensures |FileNames(nodes)| + |FolderLists(top, nodes)| == FileCount(nodes)
    decreases nodes, 0
  {
    if nodes != [] {
      PartCount(top, nodes[1..]);
      match nodes[0]
      case File(_) =>
      case Folder(name, entries) => FileListCount(top + [name], entries);
    }
  }

  lemma DistinctAppend<T>(a: seq<T>, b: seq<T>)
    requires Distinct(a) && Distinct(b)
    requires forall x :: x in a ==> x !in b
    ensures Distinct(a + b)
  {
    forall i, j | 0 <= i < j < |a + b| ensures (a + b)[i] != (a + b)[j] {
      if i < |a| && |a| <= j {
        assert (a + b)[i] in a && (a + b)[j] in b;
      }
    }
  }

  lemma {:induction false} FileNamesFrom(nodes: seq<Node>, x: string)
    requires x in FileNames(nodes)
    ensures exists i :: 0 <= i < |nodes| && nodes[i].name == x
  {
    if nodes[0].File? && x == nodes[0].name {
    } else {
      FileNamesFrom(nodes[1..], x);
      var i :| 0 <= i < |nodes[1..]| && nodes[1..][i].name == x;
      assert nodes[i + 1].name == x;
    }
  }

  lemma {:induction false} FileNamesDistinct(nodes: seq<Node>)
    requires forall i, j :: 0 <= i < j < |nodes| ==> nodes[i].name != nodes[j].name
    ensures Distinct(FileNames(nodes))
  {
    if nodes != [] {
      var rest := nodes[1..];
      FileNamesDistinct(rest);
      if nodes[0].File? {
        forall x | x in FileNames(rest) ensures x != nodes[0].name {
          FileNamesFrom(rest, x);
        }
        DistinctAppend([nodes[0].name], FileNames(rest));
      }
    }
  }

  lemma {:induction false} FolderListsShape(top: Path, nodes: seq<Node>, p: Path)
    requires p in FolderLists(top, nodes)
    ensures |p| >= |top| + 2 && p[..|top|] == top
    ensures exists i :: 0 <= i < |nodes| && nodes[i].name == p[|top|]
  {
    var n := nodes[0];
    if p in NodeFiles(top, n) {
      FileListMembers(top + [n.name], n.entries, p);
      assert p[..|top| + 1][..|top|] == p[..|top|];
      assert p[..|top| + 1][|top|] == p[|top|];
    } else {
      FolderListsShape(top, nodes[1..], p);
      var i :| 0 <= i < |nodes[1..]| && nodes[1..][i].name == p[|top|];
      assert nodes[i + 1].name == p[|top|];
    }
  }

  /** In a well-formed tree the walk lists no path twice. */
  lemma {:induction false} FileListDistinct(top: Path, entries: seq<Node>)
    requires WellFormed(entries)
    ensures Distinct(FileList(top, entries))
    decreases entries, 1
  {
    FileListUnfold(top, entries);
    var names := FileNames(entries);
    FileNamesDistinct(entries);
    assert Distinct(JoinAll(top, names)) by {
      forall i, j | 0 <= i < j < |names| ensures JoinAll(top, names)[i] != JoinAll(top, names)[j] {
        assert JoinAll(top, names)[i][|top|] == names[i];
      }
    }
    FolderListsDistinct(top, entries);
    forall x | x in JoinAll(top, names) ensures x !in FolderLists(top, entries) {
      if x in FolderLists(top, entries) {
        FolderListsShape(top, entries, x);
      }
    }
    DistinctAppend(JoinAll(top, names), FolderLists(top, entries));
  }

  lemma {:induction false} FolderListsDistinct(top: Path, nodes: seq<Node>)
    requires WellFormed(nodes)
    ensures Distinct(FolderLists(top, nodes))
    decreases nodes, 0
  {
    if nodes != [] {
      var n, rest := nodes[0], nodes[1..];
      assert WellFormed(rest) by {
        forall i, j | 0 <= i < j < |rest| ensures rest[i].name != rest[j].name {
          assert rest[i] == nodes[i + 1] && rest[j] == nodes[j + 1];
        }
        forall i | 0 <= i < |rest| && rest[i].Folder? ensures WellFormed(rest[i].entries) {
          assert rest[i] == nodes[i + 1];
        }
      }
      FolderListsDistinct(top, rest);
      match n
      case File(_) =>
      case Folder(name, entries) =>
        FileListDistinct(top + [name], entries);
        forall x | x in FileList(top + [name], entries) ensures x !in FolderLists(top, rest) {
          FileListMembers(top + [name], entries, x);
          assert x[..|top| + 1][|top|] == name;
          if x in FolderLists(top, rest) {
            FolderListsShape(top, rest, x);
          }
        }
        DistinctAppend(FileList(top + [name], entries), FolderLists(top, rest));
    }
  }

  lemma {:induction false} FileAtSomeEntry(nodes: seq<Node>, rel: Path)
    ensures AnyHasFileAt(nodes, rel) <==> exists j :: 0 <= j < |nodes| && HasFileAt(nodes[j], rel)
  {
    if nodes != [] {
      FileAtSomeEntry(nodes[1..], rel);
      if exists j :: 0 <= j < |nodes[1..]| && HasFileAt(nodes[1..][j], rel) {
        var j :| 0 <= j < |nodes[1..]| && HasFileAt(nodes[1..][j], rel);
        assert nodes[j + 1] == nodes[1..][j];
      }
      if exists j :: 1 <= j < |nodes| && HasFileAt(nodes[j], rel) {
        var j :| 1 <= j < |nodes| && HasFileAt(nodes[j], rel);
        assert nodes[1..][j - 1] == nodes[j];
      }
    }
  }

  lemma {:induction false} FolderAtSomeEntry(nodes: seq<Node>, rel: Path)
    requires AnyHasFolderAt(nodes, rel)
    ensures exists j :: 0 <= j < |nodes| && HasFolderAt(nodes[j], rel)
  {
    if !HasFolderAt(nodes[0], rel) {
      FolderAtSomeEntry(nodes[1..], rel);
      var j :| 0 <= j < |nodes[1..]| && HasFolderAt(nodes[1..][j], rel);
      assert nodes[j + 1] == nodes[1..][j];
    }
  }

  /** In a well-formed tree no path is both a directory and a file. */
  lemma {:induction false} FoldersAreNotFiles(nodes: seq<Node>, rel: Path)
    requires WellFormed(nodes) && AnyHasFolderAt(nodes, rel)
    ensures !AnyHasFileAt(nodes, rel)
    decreases nodes
  {
    FolderAtSomeEntry(nodes, rel);
    var i :| 0 <= i < |nodes| && HasFolderAt(nodes[i], rel);
    forall j | 0 <= j < |nodes| ensures !HasFileAt(nodes[j], rel) {
      if j == i {
        FolderIsNotFile(nodes[i], rel);
      } else if j < i {
        assert nodes[j].name != nodes[i].name;
      } else {
        assert nodes[i].name != nodes[j].name;
      }
    }
    FileAtSomeEntry(nodes, rel);
  }

  lemma {:induction false} FolderIsNotFile(n: Node, rel: Path)
    requires n.Folder? && WellFormed(n.entries) && HasFolderAt(n, rel)
    ensures !HasFileAt(n, rel)
    decreases n
  {
    if |rel| == 1 {
      NoFileAtEmptyPath(n.entries);
      assert rel[1..] == [];
    } else {
      FoldersAreNotFiles(n.entries, rel[1..]);
    }
  }
}
