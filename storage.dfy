/** The filesystem the importer reads and writes: directories and file contents. */
module Storage {
  import opened Options
  import opened Paths
  import opened Logging

  type Content = seq<bv8>

  /** A snapshot of the filesystem: which paths are directories, and what each file holds. */
  datatype Disk = Disk(dirs: set<Path>, files: map<Path, Content>)

  /**
   * What every real filesystem satisfies: the root is a directory, the
   * ancestors of a directory are directories, every file sits in a
   * directory, and no path is both.
   */
  ghost predicate Sound(d: Disk) {
    && [] in d.dirs
    && (forall p, k :: p in d.dirs && 0 <= k <= |p| ==> p[..k] in d.dirs)
    && (forall f :: f in d.files ==> f != [] && Parent(f) in d.dirs && f !in d.dirs)
  }

  /** `os.path.exists` */
  predicate Exists(d: Disk, p: Path) {
    p in d.dirs || p in d.files
  }

  /** From `d` to `e` nothing was removed and no file was overwritten. */
  ghost predicate Grows(d: Disk, e: Disk) {
    && d.dirs <= e.dirs
    && forall f :: f in d.files ==> f in e.files && e.files[f] == d.files[f]
  }

  /** `p` or one of its ancestors is a file, so no directory can be made at `p`. */
  predicate BlockedByFile(d: Disk, p: Path) {
    exists k :: 0 <= k <= |p| && p[..k] in d.files
  }

  /**
   * `make_folder` (lines 66-73): nothing to do when `p` is a directory;
   * otherwise `os.makedirs`, which fails when `p` or an ancestor is a file.
   */
  function AfterMakeFolder(d: Disk, p: Path): (r: Option<Disk>)
    ensures r.None? <==> p !in d.dirs && BlockedByFile(d, p)
    ensures r.Some? ==> p in r.value.dirs && r.value.files == d.files && Grows(d, r.value)
    ensures r.Some? ==> r.value.dirs - d.dirs <= Prefixes(p)
    ensures p in d.dirs ==> r == Some(d)
  {
    if p in d.dirs then Some(d)
    else if BlockedByFile(d, p) then None
    else
      assert p[..|p|] == p;
      Some(Disk(d.dirs + Prefixes(p), d.files))
  }

  datatype CopyOutcome =
    | Copied(disk: Disk)  // the target was created
    | Skipped             // the target exists: a warning, nothing written
    | Failed              // `shutil.copy2` raised

  /**
   * `copy_file` (lines 76-86): the target is `destination/fileName`; it is
   * written only when nothing exists there. `shutil.copy2` raises when the
   * source is not a file or the destination is not a directory.
   */
  function AfterCopy(d: Disk, src: Path, destination: Path, fileName: string): (r: CopyOutcome)
    ensures r.Skipped? <==> Exists(d, destination + [fileName])
    ensures r.Failed? <==> !Exists(d, destination + [fileName]) && (src !in d.files || destination !in d.dirs)
    ensures r.Copied? ==>
      && Grows(d, r.disk) && r.disk.dirs == d.dirs
      && r.disk.files.Keys == d.files.Keys + {destination + [fileName]}
      && src in d.files && r.disk.files[destination + [fileName]] == d.files[src]
  {
    var target := destination + [fileName];
    if Exists(d, target) then Skipped
    else if src in d.files && destination in d.dirs then Copied(Disk(d.dirs, d.files[target := d.files[src]]))
    else Failed
  }

  /** Making folders keeps the filesystem well shaped. */
  lemma MakeFolderKeepsSound(d: Disk, p: Path)
    requires Sound(d) && AfterMakeFolder(d, p).Some?
    ensures Sound(AfterMakeFolder(d, p).value)
  {
    if p !in d.dirs {
      var e := AfterMakeFolder(d, p).value;
      forall q, k | q in e.dirs && 0 <= k <= |q| ensures q[..k] in e.dirs {
        if q !in d.dirs {
          var j :| 0 <= j <= |p| && q == p[..j];
          assert q[..k] == p[..k];
        }
      }
    }
  }

  /** Copying keeps the filesystem well shaped. */
  lemma CopyKeepsSound(d: Disk, src: Path, destination: Path, fileName: string)
    requires Sound(d) && AfterCopy(d, src, destination, fileName).Copied?
    ensures Sound(AfterCopy(d, src, destination, fileName).disk)
  {
    var target := destination + [fileName];
    assert Parent(target) == destination;
  }

  /** A second `make_folder` of the same path changes nothing. */
  lemma MakeFolderTwice(d: Disk, p: Path)
    requires AfterMakeFolder(d, p).Some?
    ensures AfterMakeFolder(AfterMakeFolder(d, p).value, p) == AfterMakeFolder(d, p)
  {
  }

  /** A second `copy_file` of the same file is skipped, with its warning. */
  lemma CopyTwice(d: Disk, src: Path, destination: Path, fileName: string)
    requires AfterCopy(d, src, destination, fileName).Copied?
    ensures AfterCopy(AfterCopy(d, src, destination, fileName).disk, src, destination, fileName) == Skipped
  {
  }

  /** The filesystem, changed in place by the importer. */
  class Store {
    var dirs: set<Path>
    var files: map<Path, Content>

    function State(): Disk
      reads this
    {
      Disk(dirs, files)
    }

    ghost predicate Valid()
      reads this
    {
      Sound(State())
    }

    constructor (d: Disk)
      requires Sound(d)
      ensures Valid() && State() == d
    {
      dirs, files := d.dirs, d.files;
    }

    /** `make_folder`, with `os.makedirs` spelled out; `ok` is false when it raised. */
    method MakeFolder(path: Path) returns (ok: bool)
      requires Valid()
      modifies this
      ensures Valid()
      ensures ok == AfterMakeFolder(old(State()), path).Some?
      ensures State() == if ok then AfterMakeFolder(old(State()), path).value else old(State())
    {
      if path in dirs {
        return true;
      }
      // Go up to the deepest ancestor that exists.
      var k := |path|;
      assert path[..0] == [];
      while path[..k] !in dirs && path[..k] !in files
        invariant 0 <= k <= |path|
        invariant forall j :: k < j <= |path| ==> path[..j] !in dirs && path[..j] !in files
        decreases k
      {
        k := k - 1;
      }
      if path[..k] in files {
        assert BlockedByFile(State(), path);
        return false;
      }
      // Create the missing directories from the top down.
      var j := k + 1;
      while j <= |path|
        invariant k < j <= |path| + 1
        invariant dirs == old(dirs) + set i | k < i < j :: path[..i]
        invariant files == old(files)
      {
        dirs := dirs + {path[..j]};
        j := j + 1;
      }
      assert dirs == old(dirs) + Prefixes(path) by {
        forall i | 0 <= i <= k ensures path[..i] in old(dirs) {
          assert path[..k][..i] == path[..i];
        }
      }
      assert !BlockedByFile(old(State()), path) by {
        forall i | 0 <= i <= |path| ensures path[..i] !in files {
          if i <= k {
            assert path[..k][..i] == path[..i];
          }
        }
      }
      MakeFolderKeepsSound(old(State()), path);
      return true;
    }

    /** `copy_file`; `ok` is false when `shutil.copy2` raised. */
    method CopyFile(file: Path, destination: Path, fileName: string, log: Log) returns (ok: bool)
      requires Valid()
      modifies this, log
      ensures Valid()
      ensures match AfterCopy(old(State()), file, destination, fileName)
        case Copied(e) => ok && State() == e && log.events == old(log.events)
        case Skipped => ok && State() == old(State()) && log.events == old(log.events) + [AlreadyExists(file)]
        case Failed => !ok && State() == old(State()) && log.events == old(log.events)
    {
      var target := destination + [fileName];
      if target !in dirs && target !in files {
        if file in files && destination in dirs {
          CopyKeepsSound(State(), file, destination, fileName);
          files := files[target := files[file]];
          ok := true;
        } else {
          ok := false;
        }
      } else {
        log.Record(AlreadyExists(file));
        ok := true;
      }
    }
  }
}
