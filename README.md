# photo_sorter in Dafny

A model of `photo_sorter`, a script that imports photos and videos from an
input folder. It sorts each file into
`<out_dir>/<label>/<yyyy>/<yyyy>-Q<q>/<yyyy>-<mm>-<dd>/`, choosing the label by
extension and the folders by the file's date. It never overwrites a file that
is already there.

The model has one module per part of the script:

- `Paths`: paths as lists of segments. Covers `os.path.join` (append a segment), `os.path.basename` and the hidden-name test.
- `Classifier`: `get_file_type`, the case-sensitive suffix test that returns `Pictures`, `Videos`, `PicturesJPG` or `Overig`.
- `Dates`: calendar dates and the quarter. The quarter is computed as written (`month / 4 + 1`), so April to July are the second quarter and only December is the fourth. It also builds the dated destination folder and reads its folder names back.
- `Walker`: `get_filelist`. The directory tree is a `Node` datatype, and `os.walk` is its top-down traversal. `GetFileList` is the nested loop that appends joined paths.
- `Logging`: the log as a sequence of abstract events. The events are start, input folder, output folder, already-exists warning, not-a-folder error, and finished.
- `Storage`: the filesystem. `Disk` is a value (a set of directories and a map from file path to content). `Store` is the class the script's calls change in place. `make_folder` (with `os.makedirs` spelled out) and `copy_file` are methods of `Store`, each proved against a function on `Disk`.
- `Importer`: `run_app`. `Step` is one pass of the loop, `Import` the loop and `RunSession` the whole run, as functions. `ImportFile`, `ImportFiles`, `ImportTree` and `RunApp` are the methods that run them on a `Store` and a `Log`.

Exceptions are modelled as the run stopping. Three exceptions are covered:
- `os.path.getmtime` (line 26) when nothing exists at a listed path. It is reached through `get_creation_datetime` at line 123, before any folder is made.
- `os.makedirs` when a component of the destination is a file.
- `shutil.copy2` when the source is a directory or the destination is not a directory.

The exception leaves `run_app`, so no "Process finished" event follows.

## Model

| member | source | states |
|---|---|---|
| Classifier.FileType | photo_sorter/main.py:32-47 | The label is one of the four; it is `Pictures` exactly when the name ends in `.NEF`, `Videos` exactly for `.MOV`, `PicturesJPG` exactly for `.JPG`, `Overig` exactly when none of the three matches |
| Classifier.FileTypeOfPath | photo_sorter/main.py:121-124 | Classifying the whole joined path, as the loop does, gives the same label as classifying the base name |
| Dates.Quarter | photo_sorter/main.py:125 | The quarter is always 1..4: months 1-3 give 1, 4-7 give 2, 8-11 give 3, 12 gives 4 (each an if-and-only-if) |
| Dates.Destination | photo_sorter/main.py:126-127 | The destination is the output root followed by exactly four segments, the first being the label |
| Dates.DestinationReadsBack | photo_sorter/main.py:126-127 | The year folder reads back as the year, the quarter folder as the year and the quarter, and the day folder as the whole date (zero-padded month and day) |
| Dates.DestinationDetermines | photo_sorter/main.py:124-127 | Two files get the same destination only if they have the same label and the same date |
| Walker.GetFileList | photo_sorter/main.py:50-63 | The list is the top-down walk's file paths. Its length is the tree's file count. A path is listed exactly when it is a file of the tree below `dir`. When sibling names are distinct, no path is listed twice and no directory is listed |
| Walker.Walk | photo_sorter/main.py:58 | No contract of its own: the top-down `os.walk`, each directory's file names before its sub-directories. `Walker.FileListMembers`, `Walker.FileListCount` and `Walker.FileListDistinct` state what its flattening holds |
| Walker.FileListMembers | photo_sorter/main.py:58-61 | A path is in the listing exactly when it leads to a file at some depth of the tree |
| Walker.FileListCount | photo_sorter/main.py:56-63 | The listing has exactly as many entries as the tree has files |
| Walker.FileListDistinct | photo_sorter/main.py:56-63 | With distinct sibling names, every file appears exactly once |
| Walker.FoldersAreNotFiles | photo_sorter/main.py:58-61 | With distinct sibling names, a path that leads to a directory never leads to a file, so directories are never listed |
| Logging.Log.Record | photo_sorter/main.py:112-114 | Logging appends exactly one event and keeps the earlier ones |
| Storage.AfterMakeFolder | photo_sorter/main.py:66-73 | `make_folder` fails exactly when the path is not a directory and it or an ancestor is a file. Otherwise the path is a directory afterwards, no file changes, nothing is removed, and only the path and its ancestors are added. If the path already is a directory, nothing changes |
| Storage.MakeFolderKeepsSound | photo_sorter/main.py:72-73 | Making folders keeps the filesystem well shaped: ancestors of directories are directories, and files sit in directories |
| Storage.MakeFolderTwice | photo_sorter/main.py:72-73 | A second `make_folder` of the same path changes nothing |
| Storage.Store.MakeFolder | photo_sorter/main.py:66-73 | The in-place `makedirs` (walk up to the deepest existing ancestor, then create downwards) succeeds exactly when `AfterMakeFolder` does and leaves exactly its state, keeping the store well shaped |
| Storage.AfterCopy | photo_sorter/main.py:76-86 | The copy is skipped exactly when the target exists. It fails exactly when the target is absent and the source is not a file or the destination is not a directory. Otherwise the target, and no other new path, holds the source's content, and nothing else changes |
| Storage.CopyKeepsSound | photo_sorter/main.py:82-84 | A copy keeps the filesystem well shaped |
| Storage.CopyTwice | photo_sorter/main.py:82-86 | Repeating a successful copy is skipped |
| Storage.Store.CopyFile | photo_sorter/main.py:76-86 | The in-place copy leaves exactly `AfterCopy`'s state. It logs exactly one warning when skipped and nothing otherwise, and reports failure exactly when `copy2` would raise |
| Importer.DestinationOf | photo_sorter/main.py:123-127 | No contract of its own: a visible file's folder is `Destination` of its label and its date. `Classifier.FileTypeOfPath` and `Dates.DestinationDetermines` state its properties |
| Importer.Step | photo_sorter/main.py:121-129 | One pass never removes or overwrites anything and leaves a hidden file's disk untouched. A visible file with nothing at its path raises before any folder is made, leaving the disk unchanged. Unless it raised, a visible file's folder and target exist afterwards. It warns at most about this file. Its only new file is this file's copy at its target, and its new folders are all on the way to the destination |
| Importer.Import | photo_sorter/main.py:120-129 | No contract of its own: the loop as a function, stopping at the first exception. `ImportGrows`, `ImportNewFiles`, `ImportSettles`, `ImportIdempotent` and `ImportPlacesEveryFile` state its properties |
| Importer.ImportFile | photo_sorter/main.py:121-129 | The loop body changes the store and log exactly as `Step` describes |
| Importer.ImportFiles | photo_sorter/main.py:120-129 | The loop over the list changes the store and log exactly as `Import` describes and stops at the first exception |
| Importer.ImportTree | photo_sorter/main.py:119-129 | Listing the input tree and then running the loop has the effect of `Import` over `FileList` |
| Importer.RunSession | photo_sorter/main.py:104-133 | No contract of its own: the whole run as a function. `SessionOfImport`, `RejectsMissingFolders`, `SessionIsSafe` and `SessionIdempotent` state its properties |
| Importer.RunApp | photo_sorter/main.py:104-133 | The whole run leaves the store and the log exactly as `RunSession` describes |
| Importer.SessionOfImport | photo_sorter/main.py:117-133 | When both roots are directories, the run's disk and outcome are the loop's. Its log is the three opening events, the loop's warnings, then "Process finished" unless an exception stopped it |
| Importer.ImportOneMore | photo_sorter/main.py:120-129 | One more pass of the loop body extends the run over the list's next file |
| Importer.ImportStopsAtCrash | photo_sorter/main.py:120-129 | Once an exception stops the loop, the rest of the list is never reached |
| Importer.ImportGrows | photo_sorter/main.py:120-129 | The loop removes nothing and overwrites no file |
| Importer.ImportNewFiles | photo_sorter/main.py:120-129 | Every file the loop creates is the copy of a visible listed file, placed at that file's target with the same content |
| Importer.NoHiddenCopies | photo_sorter/main.py:121-122 | The loop never creates a file whose name starts with `.` |
| Importer.ImportSettles | photo_sorter/main.py:120-129 | After the loop, every file it reached is in place. If it stopped on an exception, the file it stopped on would raise again on the resulting disk |
| Importer.StepFailsAgain | photo_sorter/main.py:128-129 | A pass that raised raises again on the disk it left |
| Importer.ImportFromSettled | photo_sorter/main.py:120-129 | From a disk where the files are already in place, the loop changes nothing and warns once for every visible file it reaches |
| Importer.ImportIdempotent | photo_sorter/main.py:119-129 | A second loop over the same list leaves the disk as the first left it and stops exactly when the first did. After a completed first loop, it warns once per visible file, in order |
| Importer.ImportPlacesEveryFile | photo_sorter/main.py:119-129 | After a completed loop, every visible listed file has its destination folder and its target |
| Importer.RejectsMissingFolders | photo_sorter/main.py:117-133 | If either root is not a directory, the disk is unchanged. The log is the opening events, one error, and "Process finished" |
| Importer.SessionIsSafe | photo_sorter/main.py:104-133 | A whole run removes nothing, overwrites nothing, and creates no hidden file |
| Importer.SessionIdempotent | photo_sorter/main.py:104-133 | A second run with the same inputs leaves the disk unchanged. When both roots are directories and the first run completed, the second completes and logs only the opening events, one warning per visible file, and "Process finished" |

## Left out

- Argument parsing (`read_arguments`, lines 89-101): the two folders are parameters of `RunApp`.
- Logging setup and the log file named from the wall clock (line 17): the log is a sequence of abstract events, without message text or timestamps.
- `get_creation_datetime` (lines 20-29): `os.path.getmtime` and `datetime.fromtimestamp` use float epochs and the local time zone. The capture date is a parameter `dateOf` from path to calendar date, read once per visible file as the loop does.
- Dates.CalendarDate: years are restricted to 1000..9999, so `strftime('%Y')` always gives four digits. Padding of years below 1000 is not modelled.
- Dates.Quarter: the float division of line 125 is integer division. For months 1..12 the truncated float quotient equals it.
- Storage.AfterCopy: `shutil.copy2` is modelled as copying the content only. Timestamps and permissions are not modelled.
- Walker.GetFileList: the tree `os.walk` visits is a parameter, not read from the `Store`. So symbolic links, walk errors, and a run whose output folder lies inside its input folder are not modelled. The listing is a snapshot taken before the loop, as in the script.
- Walker.GetFileList: `os.walk` lists entries in directory order, which the tree's sequence order stands for. No particular order is assumed.
- Storage.Store.MakeFolder: `os.makedirs` racing with other processes is not modelled.
- Importer.RunApp: other exceptions (permissions, a full disk, I/O errors) are not modelled. Only the three exceptions described above stop the run.
