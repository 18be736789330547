/** `run_app`: list the input tree, then sort each visible file into its dated folder. */
module Importer {
  import opened Options
  import opened Paths
  import opened Classifier
  import opened Dates
  import opened Walker
  import opened Logging
  import opened Storage

  /** The folder a file is copied into: its label, then its year, quarter and day. */
  function DestinationOf(outDir: Path, dateOf: Path -> CalendarDate, file: Path): Path {
    Destination(outDir, FileType(Render(file)), dateOf(file))
  }

  /** The run's placement of files: `DestinationOf` for its output root and dates. */
  function PlaceIn(outDir: Path, dateOf: Path -> CalendarDate): Path -> Path {
    file => DestinationOf(outDir, dateOf, file)
  }

  /** Where the copy of a file is written: its folder under `placeOf`, then its own name. */
  function TargetOf(placeOf: Path -> Path, file: Path): Path {
    placeOf(file) + [Basename(file)]
  }

  /** The state of the loop: the disk, the files warned about so far, and whether an exception stopped it. */
  datatype Progress = Progress(disk: Disk, warnings: seq<Path>, crashed: bool)

  /**
   * One pass of the loop body (lines 121-129). A hidden file is skipped. For
   * any other file, reading its modification time raises when nothing exists
   * at its path; otherwise it gets its folder made and is copied there unless
   * its target exists. It creates at most one file, a copy of `file`, and
   * only folders on the way to the destination.
   */
  function Step(d: Disk, placeOf: Path -> Path, file: Path): (r: Progress)
    ensures Grows(d, r.disk)
    ensures IsHidden(Basename(file)) ==> r == Progress(d, [], false)
    ensures !IsHidden(Basename(file)) && !Exists(d, file) ==> r == Progress(d, [], true)
    ensures !r.crashed && !IsHidden(Basename(file)) ==>
      Exists(d, file) && placeOf(file) in r.disk.dirs && Exists(r.disk, TargetOf(placeOf, file))
    ensures r.warnings == [] || r.warnings == [file]
    ensures forall t :: t in r.disk.files && t !in d.files ==>
      && !IsHidden(Basename(file)) && t == TargetOf(placeOf, file)
      && file in d.files && r.disk.files[t] == d.files[file]
    ensures r.disk.dirs - d.dirs <= Prefixes(placeOf(file))
  {
    var name := Basename(file);
    if IsHidden(name) then Progress(d, [], false)
    else if !Exists(d, file) then Progress(d, [], true)
    else
      var destination := placeOf(file);
      match AfterMakeFolder(d, destination)
      case None => Progress(d, [], true)
      case Some(made) =>
        match AfterCopy(made, file, destination, name)
        case Copied(copied) => Progress(copied, [], false)
        case Skipped => Progress(made, [file], false)
        case Failed => Progress(made, [], true)
  }

  /** The loop over the listed files (lines 120-129); an exception ends it. */
  function Import(d: Disk, placeOf: Path -> Path, files: seq<Path>): Progress {
    if files == [] then Progress(d, [], false)
    else
      var before := Import(d, placeOf, files[..|files| - 1]);
      if before.crashed then before
      else
        var step := Step(before.disk, placeOf, files[|files| - 1]);
        Progress(step.disk, before.warnings + step.warnings, step.crashed)
  }

  function Opening(inDir: Path, outDir: Path): seq<Event> {
    [Started, InputFolder(inDir), OutputFolder(outDir)]
  }

  function Warned(files: seq<Path>): seq<Event> {
    seq(|files|, i requires 0 <= i < |files| => AlreadyExists(files[i]))
  }

  /** The outcome of a run: the disk, the events logged, and whether it ran to its end. */
  datatype Session = Session(disk: Disk, events: seq<Event>, completed: bool)

  /**
   * `run_app` (lines 104-133), with the two folders as parameters and `tree`
   * the entries `os.walk` finds below `inDir`.
   */
  function RunSession(d: Disk, inDir: Path, outDir: Path, tree: seq<Node>, dateOf: Path -> CalendarDate): Session {
    if inDir in d.dirs && outDir in d.dirs then
      var r := Import(d, PlaceIn(outDir, dateOf), FileList(inDir, tree));
      Session(r.disk, Opening(inDir, outDir) + Warned(r.warnings) + (if r.crashed then [] else [Finished]), !r.crashed)
    else
      Session(d, Opening(inDir, outDir) + [NotAFolder, Finished], true)
  }

  /** The loop body of `run_app` (lines 121-129) for one listed file; `ok` is false when it raised. */
  method ImportFile(file: Path, outDir: Path, dateOf: Path -> CalendarDate, fs: Store, log: Log) returns (ok: bool)
    requires fs.Valid()
    modifies fs, log
    ensures fs.Valid()
    ensures var r := Step(old(fs.State()), PlaceIn(outDir, dateOf), file);
      fs.State() == r.disk && log.events == old(log.events) + Warned(r.warnings) && ok == !r.crashed
  {
    ghost var placeOf := PlaceIn(outDir, dateOf);
    ghost var r := Step(fs.State(), placeOf, file);
    WarnedOne(file);
    var fileName := Basename(file);
    if IsHidden(fileName) {
      return true;
    }
    if file !in fs.dirs && file !in fs.files {
      return false;
    }
    var fileDate := dateOf(file);
    var fileType := FileType(Render(file));
    var destination := Destination(outDir, fileType, fileDate);
    assert destination == PlaceIn(outDir, dateOf)(file);
    ok := fs.MakeFolder(destination);
    if !ok {
      assert r == Progress(old(fs.State()), [], true);
      return;
    }
    ghost var made := fs.State();
    ok := fs.CopyFile(file, destination, fileName, log);
    assert r.disk == fs.State() && r.crashed == !ok;
  }

  /** The loop of `run_app` (lines 120-129) over the listed files; `ok` is false when one of them raised. */
  method ImportFiles(files: seq<Path>, outDir: Path, dateOf: Path -> CalendarDate, fs: Store, log: Log) returns (ok: bool)
    requires fs.Valid()
    modifies fs, log
    ensures fs.Valid()
    ensures var r := Import(old(fs.State()), PlaceIn(outDir, dateOf), files);
      fs.State() == r.disk && log.events == old(log.events) + Warned(r.warnings) && ok == !r.crashed
  {
    ghost var start := fs.State();
    ghost var placeOf := PlaceIn(outDir, dateOf);
    var i := 0;
    while i < |files|
      invariant 0 <= i <= |files|
      invariant fs.Valid()
      invariant var r := Import(start, placeOf, files[..i]);
        !r.crashed && fs.State() == r.disk && log.events == old(log.events) + Warned(r.warnings)
    {
      ghost var events := log.events;
      ok := ImportFile(files[i], outDir, dateOf, fs, log);
      ImportOneMore(start, placeOf, files, i, old(log.events), events, log.events, fs.State(), ok);
      if !ok {
        ImportStopsAtCrash(start, placeOf, files, i + 1);
        return;
      }
      i := i + 1;
    }
    assert files[..i] == files;
    ok := true;
  }

  /** Lines 117-129: list the input tree, then import every file of the list. */
  method ImportTree(inDir: Path, outDir: Path, tree: seq<Node>, dateOf: Path -> CalendarDate, fs: Store, log: Log)
    returns (ok: bool)
    requires fs.Valid()
    modifies fs, log
    ensures fs.Valid()
    ensures var r := Import(old(fs.State()), PlaceIn(outDir, dateOf), FileList(inDir, tree));
      fs.State() == r.disk && log.events == old(log.events) + Warned(r.warnings) && ok == !r.crashed
  {
    var files := GetFileList(inDir, tree);
    ok := ImportFiles(files, outDir, dateOf, fs, log);
  }

  /** `run_app`; `completed` is false when an exception ended it before "Process finished". */
  method RunApp(inDir: Path, outDir: Path, tree: seq<Node>, dateOf: Path -> CalendarDate, fs: Store, log: Log)
    returns (completed: bool)
    requires fs.Valid()
    modifies fs, log
    ensures fs.Valid()
    ensures var s := RunSession(old(fs.State()), inDir, outDir, tree, dateOf);
      fs.State() == s.disk && log.events == old(log.events) + s.events && completed == s.completed
  {
    ghost var start := fs.State();
    log.Record(Started);
    log.Record(InputFolder(inDir));
    log.Record(OutputFolder(outDir));
    assert log.events == old(log.events) + Opening(inDir, outDir);
    if inDir in fs.dirs && outDir in fs.dirs {
      completed := ImportTree(inDir, outDir, tree, dateOf, fs, log);
      SessionOfImport(start, inDir, outDir, tree, dateOf, old(log.events), log.events);
      if !completed {
        return;
      }
    } else {
      log.Record(NotAFolder);
    }
    log.Record(Finished);
    completed := true;
  }

  /** How `run_app`'s log and outcome follow from those of its loop when both roots are directories. */
  lemma SessionOfImport(d: Disk, inDir: Path, outDir: Path, tree: seq<Node>, dateOf: Path -> CalendarDate,
                        before: seq<Event>, events: seq<Event>)
    requires inDir in d.dirs && outDir in d.dirs
    ensures var r := Import(d, PlaceIn(outDir, dateOf), FileList(inDir, tree));
      var s := RunSession(d, inDir, outDir, tree, dateOf);
      && s.disk == r.disk && s.completed == !r.crashed
      && (events == before + Opening(inDir, outDir) + Warned(r.warnings) ==>
            if r.crashed then events == before + s.events else events + [Finished] == before + s.events)
  {
  }

  /** One more pass of the loop: what the loop body does to the disk and the log extends the run by one file. */
  lemma ImportOneMore(d: Disk, placeOf: Path -> Path, files: seq<Path>, i: nat,
                      header: seq<Event>, events: seq<Event>, events': seq<Event>, disk': Disk, ok: bool)
    requires i < |files|
    requires var before := Import(d, placeOf, files[..i]);
      !before.crashed && events == header + Warned(before.warnings)
    requires var step := Step(Import(d, placeOf, files[..i]).disk, placeOf, files[i]);
      disk' == step.disk && events' == events + Warned(step.warnings) && ok == !step.crashed
    ensures var after := Import(d, placeOf, files[..i + 1]);
      disk' == after.disk && events' == header + Warned(after.warnings) && ok == !after.crashed
  {
    assert files[..i + 1][..i] == files[..i];
    var before := Import(d, placeOf, files[..i]);
    var step := Step(before.disk, placeOf, files[i]);
    WarnedAppend(before.warnings, step.warnings);
  }

  lemma WarnedOne(file: Path)
    ensures Warned([]) == [] && Warned([file]) == [AlreadyExists(file)]
  {
  }

  lemma WarnedAppend(a: seq<Path>, b: seq<Path>)
    ensures Warned(a + b) == Warned(a) + Warned(b)
  {
  }

  /** Once the loop has stopped on an exception, the rest of the list is never looked at. */
  lemma {:induction false} ImportStopsAtCrash(d: Disk, placeOf: Path -> Path, files: seq<Path>, j: nat)
    requires j <= |files| && Import(d, placeOf, files[..j]).crashed
    ensures Import(d, placeOf, files) == Import(d, placeOf, files[..j])
    decreases |files| - j
  {
    if j < |files| {
      assert files[..j + 1][..j] == files[..j];
      ImportStopsAtCrash(d, placeOf, files, j + 1);
    } else {
      assert files[..j] == files;
    }
  }

  /** A run removes nothing and overwrites no file. */
  lemma {:induction false} ImportGrows(d: Disk, placeOf: Path -> Path, files: seq<Path>)
    ensures Grows(d, Import(d, placeOf, files).disk)
  {
    if files != [] {
      ImportGrows(d, placeOf, files[..|files| - 1]);
    }
  }

  /** Every file a run creates is the copy of a visible listed file, at that file's target. */
  lemma {:induction false} ImportNewFiles(d: Disk, placeOf: Path -> Path, files: seq<Path>)
    ensures var e := Import(d, placeOf, files).disk;
      forall t :: t in e.files && t !in d.files ==>
        exists i :: 0 <= i < |files| && !IsHidden(Basename(files[i])) && t == TargetOf(placeOf, files[i])
          && files[i] in e.files && e.files[t] == e.files[files[i]]
  {
    if files != [] {
      var prior := files[..|files| - 1];
      var before := Import(d, placeOf, prior);
      var e := Import(d, placeOf, files).disk;
      ImportNewFiles(d, placeOf, prior);
      forall t | t in e.files && t !in d.files
        ensures exists i :: 0 <= i < |files| && !IsHidden(Basename(files[i])) && t == TargetOf(placeOf, files[i])
                            && files[i] in e.files && e.files[t] == e.files[files[i]]
      {
        if t in before.disk.files {
          var i :| 0 <= i < |prior| && !IsHidden(Basename(prior[i])) && t == TargetOf(placeOf, prior[i])
            && prior[i] in before.disk.files && before.disk.files[t] == before.disk.files[prior[i]];
          assert files[i] == prior[i];
        } else {
          assert files[|files| - 1] in e.files;
        }
      }
    }
  }

  /** No run creates a file whose name is hidden. */
  lemma NoHiddenCopies(d: Disk, placeOf: Path -> Path, files: seq<Path>)
    ensures var e := Import(d, placeOf, files).disk;
      forall t :: t in e.files && t !in d.files ==> !IsHidden(Basename(t))
  {
    ImportNewFiles(d, placeOf, files);
  }

  /** The visible files of a list, in order. */
  function Visible(files: seq<Path>): seq<Path> {
    if files == [] then []
    else Visible(files[..|files| - 1]) + (if IsHidden(Basename(files[|files| - 1])) then [] else [files[|files| - 1]])
  }

  /** A visible file whose folder and target both exist. */
  ghost predicate Placed(d: Disk, placeOf: Path -> Path, file: Path) {
    || IsHidden(Basename(file))
    || (Exists(d, file) && placeOf(file) in d.dirs && Exists(d, TargetOf(placeOf, file)))
  }

  /**
   * The first `k` files are placed on `d`, and, unless all are, the next one
   * fails again on `d` without changing it.
   */
  ghost predicate Settled(d: Disk, placeOf: Path -> Path, files: seq<Path>, k: nat) {
    && k <= |files|
    && (forall i :: 0 <= i < k ==> Placed(d, placeOf, files[i]))
    && (k < |files| ==> Step(d, placeOf, files[k]) == Progress(d, [], true))
  }

  /** After a run, every file it reached is placed, and the one it stopped on would stop it again. */
  lemma {:induction false} ImportSettles(d: Disk, placeOf: Path -> Path, files: seq<Path>)
    returns (k: nat)
    ensures Settled(Import(d, placeOf, files).disk, placeOf, files, k)
    ensures Import(d, placeOf, files).crashed <==> k < |files|
  {
    if files == [] {
      return 0;
    }
    var prior, last := files[..|files| - 1], files[|files| - 1];
    var before := Import(d, placeOf, prior);
    var k' := ImportSettles(d, placeOf, prior);
    if before.crashed {
      k := k';
      assert files[k] == prior[k];
      forall i | 0 <= i < k ensures Placed(before.disk, placeOf, files[i]) {
        assert files[i] == prior[i];
      }
    } else {
      var step := Step(before.disk, placeOf, last);
      forall i | 0 <= i < |prior| ensures Placed(step.disk, placeOf, files[i]) {
        assert files[i] == prior[i];
        assert Placed(before.disk, placeOf, prior[i]);
      }
      if step.crashed {
        k := |prior|;
        StepFailsAgain(before.disk, placeOf, last);
      } else {
        k := |files|;
      }
    }
  }

  lemma StepFailsAgain(d: Disk, placeOf: Path -> Path, file: Path)
    requires Step(d, placeOf, file).crashed
    ensures var e := Step(d, placeOf, file).disk;
      Step(e, placeOf, file) == Progress(e, [], true)
  {
  }

  /** From a settled disk a run changes nothing and warns about every visible file it reaches. */
  lemma {:induction false} ImportFromSettled(d: Disk, placeOf: Path -> Path, files: seq<Path>, k: nat)
    requires Settled(d, placeOf, files, k)
    ensures Import(d, placeOf, files) == Progress(d, Visible(files[..k]), k < |files|)
  {
    if files == [] {
      assert files[..k] == [];
    } else {
      var prior, last := files[..|files| - 1], files[|files| - 1];
      if k == |files| {
        assert Settled(d, placeOf, prior, |prior|) by {
          forall i | 0 <= i < |prior| ensures Placed(d, placeOf, prior[i]) {
            assert prior[i] == files[i];
          }
        }
        ImportFromSettled(d, placeOf, prior, |prior|);
        assert prior[..|prior|] == prior && files[..k] == files;
        assert Placed(d, placeOf, files[k - 1]);
      } else {
        var k' := if k == |prior| then |prior| else k;
        assert Settled(d, placeOf, prior, k') by {
          forall i | 0 <= i < k' ensures Placed(d, placeOf, prior[i]) {
            assert prior[i] == files[i];
          }
          if k' < |prior| {
            assert prior[k'] == files[k'];
          }
        }
        ImportFromSettled(d, placeOf, prior, k');
        assert prior[..k'] == files[..k];
      }
    }
  }

  /**
   * Running the loop a second time over the same list changes nothing; if
   * the first run completed, the second warns once for every visible file.
   */
  lemma ImportIdempotent(d: Disk, placeOf: Path -> Path, files: seq<Path>)
    ensures var first := Import(d, placeOf, files);
      var second := Import(first.disk, placeOf, files);
      && second.disk == first.disk
      && second.crashed == first.crashed
      && (!first.crashed ==> second.warnings == Visible(files))
  {
    var k := ImportSettles(d, placeOf, files);
    ImportFromSettled(Import(d, placeOf, files).disk, placeOf, files, k);
    assert files[..|files|] == files;
  }

  /** A completed run leaves every visible listed file at its target. */
  lemma ImportPlacesEveryFile(d: Disk, placeOf: Path -> Path, files: seq<Path>)
    requires !Import(d, placeOf, files).crashed
    ensures var e := Import(d, placeOf, files).disk;
      forall i :: 0 <= i < |files| && !IsHidden(Basename(files[i])) ==>
        placeOf(files[i]) in e.dirs && Exists(e, TargetOf(placeOf, files[i]))
  {
    var k := ImportSettles(d, placeOf, files);
  }

  /** When a root is not a directory: nothing is created, one error, and still "Process finished". */
  lemma RejectsMissingFolders(d: Disk, inDir: Path, outDir: Path, tree: seq<Node>, dateOf: Path -> CalendarDate)
    requires inDir !in d.dirs || outDir !in d.dirs
    ensures var s := RunSession(d, inDir, outDir, tree, dateOf);
      && s.disk == d && s.completed
      && s.events == Opening(inDir, outDir) + [NotAFolder, Finished]
  {
  }

  /** A whole run removes nothing, overwrites nothing, and creates no hidden file. */
  lemma SessionIsSafe(d: Disk, inDir: Path, outDir: Path, tree: seq<Node>, dateOf: Path -> CalendarDate)
    ensures var e := RunSession(d, inDir, outDir, tree, dateOf).disk;
      && Grows(d, e)
      && forall t :: t in e.files && t !in d.files ==> !IsHidden(Basename(t))
  {
    if inDir in d.dirs && outDir in d.dirs {
      ImportGrows(d, PlaceIn(outDir, dateOf), FileList(inDir, tree));
      NoHiddenCopies(d, PlaceIn(outDir, dateOf), FileList(inDir, tree));
    }
  }

  /**
   * Running the importer again with the same folders and tree leaves the disk
   * as the first run left it; after a completed first run, the second one
   * completes too and warns once for every visible file.
   */
  lemma SessionIdempotent(d: Disk, inDir: Path, outDir: Path, tree: seq<Node>, dateOf: Path -> CalendarDate)
    ensures var first := RunSession(d, inDir, outDir, tree, dateOf);
      var second := RunSession(first.disk, inDir, outDir, tree, dateOf);
      && second.disk == first.disk
      && (first.completed && inDir in d.dirs && outDir in d.dirs ==>
            second.completed
            && second.events == Opening(inDir, outDir) + Warned(Visible(FileList(inDir, tree))) + [Finished])
  {
    if inDir in d.dirs && outDir in d.dirs {
      ImportGrows(d, PlaceIn(outDir, dateOf), FileList(inDir, tree));
      ImportIdempotent(d, PlaceIn(outDir, dateOf), FileList(inDir, tree));
    }
  }
}
