# Smart File Organiser — a Dafny model of the organizing engine

This project models the organizing engine of Smart-File-Organiser
(`backend.py`) and proves properties of it. The engine sorts the regular
files of a target folder into category sub-folders by file extension
(`FILE_TYPES`, with `Others` for the rest). It settles name clashes under
one of three duplicate policies: Skip, Replace or Rename. Every move is
recorded in a process-wide ledger (`moved_files_log`). That ledger can be
appended to the text log `organizer_log.txt`, and its last entry can be
undone. A watchdog handler runs the same organizer on each file created in
the folder.

Layout, one module per file:

- `base.dfy` (`Base`): `Option`, `Result`, the error kinds the Python code
  raises, and the `Outcome` of a call (returned normally, or raised).
- `names.dfy` (`Names`): `os.path.splitext`, `os.path.basename`,
  `str.lower`, and the decimal counter of the Rename policy.
- `classifier.dfy` (`Classifier`): the `FILE_TYPES` table and the
  first-match classification of `organize_files`.
- `filesystem.dfy` (`FileSystem`): an abstract folder tree, with
  `os.makedirs(exist_ok=True)`, `os.remove` and `shutil.move` on it.
- `resolver.dfy` (`Resolver`): `handle_duplicates` as a function, plus its
  probing loop as a method.
- `ledger.dfy` (`Ledger`): move records, the log line format, `save_log` as
  a function, and the ledger object.
- `sweep.dfy` (`Sweep`): `organize_files` and `undo_last_action` as
  functions of the filesystem and the ledger. Facts about whole sweeps are
  proved here.
- `organizer.dfy` (`Organizer`): the stateful classes.
  - `Disk` holds the folder tree.
  - `FileOrganizer` and `WatchdogHandler` hold the methods that change the
    tree and the ledger in place.
  - Each method is proved to compute what the `Sweep` functions specify.

The filesystem is a map from folders (the root, or a named sub-folder of the
root) to maps from file names to contents. `os.listdir` is not modelled as a
function: its result is an input of the sweep, in any order, and the sweep
lemmas require only that it lists each root entry once. The progress
callback is modelled as the returned list of its `(i, total)` calls.

In these places the model follows the code, which a reader might expect to
behave otherwise:

- A full sweep does not exempt `organizer_log.txt`. On a later sweep it is
  moved into `Documents` like any other `.txt` file (`Sweep.StepMovesLogFile`).
- Under Skip, a clash is not skipped. The move overwrites the existing file
  in the category folder and is still recorded.
- `undo_last_action` pops the record before the move. A failed undo
  therefore still loses that record.
- A failure inside the loop is an exception. The loop stops, the earlier
  moves stay recorded, and `save_log` is not reached. The only exception the
  loop can raise in this model is `os.makedirs` meeting a regular file with
  the category's name (`Sweep.RunErrorIsBlockedFolder`). So a regular file
  named `Others` in the root makes every full sweep fail
  (`Sweep.OrganizeFailsOnOthersFile`).
- Logging is on by default, so `save_log` runs at the end of every passing
  call and empties the ledger (`Sweep.LoggedSweepFlushesLedger`). An
  "Undo Last" right after such a call therefore fails with "No actions to
  undo!" (`Organizer.FileOrganizer.UndoLastAction` on an empty ledger).
- The model follows Python's truthiness rule for `single_file`. An empty
  `single_file`, as a creation event for a path ending in `/` would give,
  sweeps the whole folder.

## Model

| member | source | states |
|---|---|---|
| Names.SplitExt | backend.py:36 | the stem and the extension concatenate to the name; the extension is empty or one dot followed by no dot and no slash |
| Names.SplitExtHasExtension | backend.py:36 | a name has an extension exactly when a dot follows some non-dot character of it |
| Names.LastIndexOf | backend.py:36 | the position of the last occurrence of a character (the `rfind` inside `splitext` and `basename`), or -1 when it does not occur |
| Names.Lower | backend.py:36 | lower-casing keeps the length and maps every character through `LowerChar`: `A`-`Z` to `a`-`z` and U+212A KELVIN SIGN to `k`, the characters whose lower case is ASCII |
| Names.NatToString | backend.py:72 | the counter's decimal rendering is non-empty, all digits, and has no leading zero unless the counter is 0 |
| Names.SplitExtOf | backend.py:36 | a name made of a stem, not all dots, and a dot-led extension without a further dot splits back into exactly that stem and extension |
| Names.SplitExtDotfile | backend.py:36 | a name whose only dot is its leading one has no extension, and its stem is the whole name |
| Names.Basename | backend.py:99 | the base name holds no slash and is the suffix of the path after its last slash |
| Names.NatToStringInjective | backend.py:72-76 | distinct counters print as distinct decimal strings |
| Resolver.Candidate | backend.py:72 | the name `base(k)ext` is as long as its parts together |
| Resolver.CandidateParts | backend.py:72 | a candidate name starts with the stem, ends with the extension, and holds the counter's digits in parentheses between them |
| Resolver.CandidateInjective | backend.py:72-76 | distinct counters give distinct candidate names `base(k)ext` |
| Resolver.CandidatesBelowCount | backend.py:74-77 | the candidates tried before counter k are k - 1 distinct names |
| Resolver.TakenBound | backend.py:74-77 | a probe that found all candidates below k taken has k - 1 at most the folder's size, so the rename loop ends |
| Resolver.LeastFree | backend.py:74-77 | the counter the probe stops at is free while every smaller counter is taken |
| Resolver.LeastFreeUnique | backend.py:74-77 | that stopping counter is determined by the folder's contents |
| Resolver.ResolveName | backend.py:62-78 | a free name is kept; Skip and Replace keep the name; on a clash Rename returns a free name, `base(k)ext` with the least free k |
| Resolver.RenameSkipsTakenCandidates | backend.py:69-77 | with `a.pdf` and `a(1).pdf` present, Rename yields `a(2).pdf` |
| Resolver.ProbeRename | backend.py:70-77 | the probing loop stops at the least free counter, returns a free name, and agrees with `ResolveName` under Rename |
| Classifier.Extension | backend.py:36 | the lower-cased extension is as long as the one `splitext` gives, and is empty or one dot followed by no further dot |
| Classifier.Classify | backend.py:36-54 | the destination is always one of the table's categories or `Others` |
| Classifier.FirstMatch | backend.py:39-47 | returns the first table position from `from` on whose list holds the extension, or none when no later list holds it |
| Classifier.ClassifyFirstMatch | backend.py:36-54 | a file goes to `Others` exactly when no list holds its lower-cased extension; otherwise its category is the first entry whose list holds it, and no earlier entry's list does |
| Classifier.DocumentsNotImages | backend.py:8-9 | no Documents extension is an Images extension |
| Classifier.DocumentsNotVideos | backend.py:8-10 | no Documents extension is a Videos extension |
| Classifier.ImagesNotVideos | backend.py:9-10 | no Images extension is a Videos extension |
| Classifier.TableDisjoint | backend.py:7-11 | no extension is listed under two categories |
| Classifier.ClassifyExactlyOne | backend.py:7-11 | a file goes to a category exactly when that category lists its extension |
| Classifier.ClassifyWithoutExtension | backend.py:49-54 | a file without an extension goes to `Others` |
| Classifier.ClassifyIgnoresCase | backend.py:36 | `REPORT.PDF` goes to Documents |
| Classifier.ClassifyLastExtension | backend.py:36 | `notes.txt.mp4` goes to Videos, by its last extension |
| Classifier.ClassifyKelvinSign | backend.py:36 | `m.m\u212Av` goes to Videos, because `str.lower` maps the Kelvin sign to `k` |
| Classifier.ClassifyUnlisted | backend.py:49-54 | `report.pdf.gz` goes to `Others` |
| Classifier.ClassifyDotfile | backend.py:36 | `.bashrc` has no extension and goes to `Others` |
| Classifier.ClassifyLog | backend.py:81 | the log file's own name classifies as Documents |
| Classifier.ClassifyOthersName | backend.py:50 | a file named `Others` classifies as `Others` |
| Organizer.SearchTable | backend.py:39-47 | the search loop over the table returns exactly the first match |
| Organizer.FindCategory | backend.py:36-54 | the category the loop finds equals the classification of the file |
| FileSystem.MakeDirs | backend.py:42 | fails, with FileExists, exactly when a regular file of the root has the name; otherwise it adds the folder, empty when new, and changes nothing else |
| FileSystem.MakeDirsIdempotent | backend.py:42 | creating a folder twice is the same as creating it once |
| FileSystem.RemoveFile | backend.py:68 | removes one file of one folder and nothing else |
| FileSystem.MoveFile | backend.py:44 | the file leaves its folder and lands, overwriting, under the new name in the other folder; nothing else changes |
| Ledger.LogLine | backend.py:84 | a log line is as long as its two fields plus the fixed text, and ends with a newline |
| Ledger.LogLineFields | backend.py:84 | a log line reads back: `Moved: `, the file name, ` → `, the category, a newline |
| Ledger.LogText | backend.py:83-84 | the text is empty exactly when the ledger is, and otherwise ends with a newline |
| Ledger.LogTextPrefixStep | backend.py:83-84 | writing the record at position i extends the text of the first i records by its line |
| Ledger.LogTextAppend | backend.py:83-84 | the text of two ledgers written one after the other is the text of their concatenation |
| Ledger.LogTextSnoc | backend.py:83-84 | writing one more record appends its line `Moved: file → category` and a newline |
| Organizer.WriteLines | backend.py:83-84 | the write loop leaves the open log holding its old content followed by one line per record, in order |
| Ledger.FlushLog | backend.py:80-85 | fails exactly when the root is missing or a folder holds the log's name; otherwise the log becomes its old content (empty if new) followed by the ledger's lines, and nothing else changes |
| Ledger.FlushEmptyLedger | backend.py:80-85 | flushing an emptied ledger onto an existing log changes nothing |
| Ledger.MoveLedger.constructor | backend.py:13 | the process-wide ledger starts empty |
| Organizer.FileOrganizer.SaveLog | backend.py:80-85 | performs `FlushLog` on the disk and clears the ledger on success; on failure the disk and the ledger are unchanged |
| Organizer.FileOrganizer.HandleDuplicates | backend.py:62-78 | returns `ResolveName` of the category folder's names; under Replace a clashing file is removed first, otherwise the disk is unchanged |
| Sweep.FilterFiles | backend.py:26-29 | keeps exactly the listed names that are regular files, without introducing duplicates; their order is that of the listing (`FilterFilesAppend`) |
| Sweep.FilterFilesAppend | backend.py:26-29 | the kept names stay in listing order: filtering two listings one after the other gives the first one's names, then the second one's |
| Sweep.FilterFilesSingle | backend.py:26-29 | a one-name listing keeps its name exactly when it is a regular file of the root |
| Sweep.SweepFiles | backend.py:26-29 | a truthy `single_file` gives the one-element list; otherwise the listed regular files of the root, in listing order (`SweepFilesInListingOrder`) |
| Sweep.SweepFilesInListingOrder | backend.py:26-31 | a sweep iterates over the regular files of the listing in the listing's order |
| Sweep.Step | backend.py:32-57 | a file no longer in the root is skipped; a file in the root fails, with FileExists of its category, exactly when a regular file of the root has the category's name |
| Sweep.StepMovesFile | backend.py:39-57 | a processed file leaves the root and lands under the resolved name in its category folder; one record and one progress call are added; no other folder changes |
| Sweep.StepMovesLogFile | backend.py:39-47 | the log file is moved into Documents like any `.txt` file and recorded under Documents |
| Sweep.RunPrefix | backend.py:31-57 | the loop keeps the root present and the tree well formed |
| Sweep.RunStopsAtError | backend.py:31-57 | after an exception, later files change nothing |
| Sweep.RunPrefixStep | backend.py:45-57 | each file either leaves the ledger and the progress trace alone, or appends one record with that file's category and the call `(i, total)` |
| Sweep.RunRecords | backend.py:31-57 | the ledger grows by one record per progress call; the calls carry strictly increasing positions and the list's length; each new record's category is that of the file at the reported position |
| Sweep.RunPrefixRootStep | backend.py:32-57 | while no exception occurs, a file still in the root leaves it with one progress call, and a file already gone changes nothing |
| Sweep.SweepPrefixClearsRoot | backend.py:26-57 | over a full listing, every file processed so far is gone from the root and the trace is `(1, t) ... (n, t)` |
| Sweep.SweepClearsRoot | backend.py:26-57 | a full sweep that raises nothing empties the root of regular files and reports every file once, in order |
| Sweep.MoveKeepsPlaced | backend.py:43-44 | a move leaves alone a file an earlier move placed, because the new name is free in the folder or is a root file's own name |
| Sweep.PlacedExtends | backend.py:39-57 | one move keeps every earlier record's file in its folder with its content, and places the moved file under its record |
| Sweep.RunPlacedStep | backend.py:31-57 | the loop's next file keeps every recorded file in place |
| Sweep.RunPlaced | backend.py:31-57 | after any prefix of the loop, the k-th new record names the file at the k-th reported position; that file has left the root and the record's category folder holds it under the record's name with its old content; under Skip and Replace it kept its own name |
| Sweep.PlacedInOrder | backend.py:31-57 | when every file was reported in order, the k-th new record belongs to the k-th file |
| Sweep.SweepPlacesFiles | backend.py:26-57 | a full loop that raises nothing leaves the k-th listed file in the folder of its category, under the name of the k-th new record, with its old content |
| Sweep.PlacedSurvives | backend.py:59-60 | placed files stay in place while the category folders do not change |
| Sweep.SweepPlacesFilesIn | backend.py:26-60 | the placed files are still in place in any later tree with the same category folders |
| Sweep.OrganizePlacesFiles | backend.py:22-60 | after a passing full sweep, every regular file the root held is in the folder of its category with its content, under its own name unless the policy is Rename |
| Sweep.RunErrorIsBlockedFolder | backend.py:42 | every exception of the loop is `makedirs` meeting a regular file |
| Sweep.RunFailsAtBlockedFolder | backend.py:42 | the loop raises at a file whose category names a regular file of the root |
| Sweep.OthersFileRaises | backend.py:49-51 | the turn of a regular file named `Others` raises, if nothing raised before |
| Sweep.OthersFileStopsSweep | backend.py:49-51 | a regular file named `Others` makes every full loop raise |
| Sweep.Organize | backend.py:22-60 | a missing folder fails with DirectoryNotFound and changes nothing; a passing call with logging leaves the ledger empty; without logging it adds one record per progress call |
| Sweep.LoggedSweepFlushesLedger | backend.py:80-85 | a passing call with logging also passes without it; it makes the same progress calls and leaves the same folders, except that the log in the root gains the lines of the records the unlogged call keeps and the ledger ends empty |
| Sweep.OrganizeSweepEmptiesRoot | backend.py:22-60 | a passing full sweep leaves only the log (with logging) or nothing (without) in the root, and reports `(k, n)` for k = 1..n |
| Sweep.OrganizeFailsOnOthersFile | backend.py:49-51 | a full sweep of a root holding a regular file named `Others` fails with FileExists |
| Organizer.FileOrganizer.MoveOne | backend.py:36-54 | one loop iteration changes the disk and the ledger as `Step` says; on an error both are unchanged |
| Organizer.FileOrganizer.OrganizeFiles | backend.py:22-60 | the disk, the ledger, the progress calls and the outcome are exactly those of `Organize` |
| Sweep.UndoMove | backend.py:91 | succeeds exactly when the root exists, holds nothing under the name and the category folder holds the file; the errors are DestinationExists, checked first, then SourceMissing; on success the file moves back and nothing else changes |
| Sweep.UndoMovedFile | backend.py:87-91 | moving back a file recorded under `dest` fails only when the root holds `dest`, and lands it under `dest` |
| Sweep.UndoReversesStep | backend.py:87-91 | after one move, the last record is the move's; undo succeeds exactly when the name was kept or the root holds nothing under the new name; it restores the root with the file under its recorded name and the folder without that name |
| Sweep.UndoAfterFreshMove | backend.py:87-91 | when the category folder did not hold the name, undo restores the filesystem exactly as `makedirs` left it |
| Organizer.FileOrganizer.UndoLastAction | backend.py:87-91 | an empty ledger fails with NothingToUndo and changes nothing; otherwise the last record is popped, then `UndoMove` is applied on success or its error is returned |
| Organizer.Disk.constructor | backend.py:18 | the disk holds the target folder tree it is given |
| Organizer.FileOrganizer.constructor | backend.py:17-20 | an organizer records its disk, the shared ledger, its policy (Skip by default) and its logging flag (on by default) |
| Organizer.CreatedName | backend.py:99 | the name passed on for a creation event is present and holds no slash |
| Organizer.WatchdogHandler.constructor | backend.py:94-95 | the handler records its organizer |
| Organizer.WatchdogHandler.OnCreated | backend.py:97-100 | a created directory changes nothing; a created file runs `Organize` on its base name |
| Organizer.TrailingSlashSweepsAll | backend.py:99-100 | a path ending in `/` yields an empty, falsy name, so the whole folder is swept |
| Organizer.CreatedFileIsSingle | backend.py:99-100 | any other creation event organizes exactly its base name |

## Left out

- `start_monitoring` and `stop_monitoring` (backend.py:102-114) and the `Observer` thread are not modelled, because they only start and stop the watchdog library's event thread. Event delivery is modelled by calls to `WatchdogHandler.OnCreated`.
- Concurrency between a sweep and watchdog events on the shared ledger is not modelled; every call runs to completion on its own.
- frontend.py, the user interface that calls the engine, is not part of this model.
- Names.Lower: only `A`-`Z` and U+212A KELVIN SIGN are mapped. Python's `str.lower` also maps other non-ASCII letters. Their lower cases contain non-ASCII characters, so they can match no `FILE_TYPES` extension either way. U+0130 becomes two characters in Python but stays one here.
- Duplicate policy strings other than "Skip", "Replace" or "Rename" behave like Skip in the source. The model has only the three policies.
- The model assumes a POSIX filesystem with case-sensitive file names.
  - On a case-insensitive filesystem (the default on Windows and macOS), `os.path.exists` at backend.py:63 also finds a name that differs only in case. With `A.pdf` in the root and `a.pdf` in `Documents`, Skip would overwrite `a.pdf` and Rename would return `A(1).pdf`. The model's `ResolveName` treats such names as distinct and keeps `A.pdf`, and both files stay.
  - On Windows, `os.path.basename` at backend.py:99 also splits at `\`. The model's `Basename` splits only at `/`.
  - `open(log_path, "a")` at backend.py:82 uses the locale's encoding. Under an encoding without `→`, such as cp1252, the write of backend.py:84 raises UnicodeEncodeError and the ledger is not cleared. The model writes the log as text and that write never fails.
- A `single_file` holding a `/`, and sub-folders nested deeper than one level, are outside the folder model.
- The order of `os.listdir` is not modelled. The listing is an input, and the sweep lemmas hold for every order.
- Organizer.FileOrganizer.OrganizeFiles: the progress calls are always returned. The source makes them only when a callback is passed.
- I/O failures of `shutil.move`, `os.remove` and the log write (permissions, a full disk, a partial write) are not modelled. Among `shutil.move` failures, only an existing destination and a missing source are.
- The folder path string is not modelled. A target path that names a regular file, for which `os.listdir` raises, is not modelled.
- Organizer.FileOrganizer.SaveLog: the log content reaches the disk in one update when the file is closed, not write by write.
- File contents are opaque strings. Metadata that `shutil.move` carries (times, permissions) is not modelled.
