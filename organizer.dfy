/** The stateful organizer: the target folder on disk, the process-wide move
    ledger, the `FileOrganizer` methods that change them, and the watchdog
    handler that calls the organizer for each created file. Every method is
    proved to compute what the functions of `Sweep` specify. */
module Organizer {
  import opened Base
  import opened Names
  import opened Classifier
  import opened FileSystem
  import opened Resolver
  import opened Ledger
  import opened Sweep

  /** The target root and its sub-folders, as the organizer sees them on disk. */
  class Disk {
    var dirs: Dirs

    constructor (d: Dirs)
      ensures dirs == d
    {
      dirs := d;
    }
  }

  /** The category search of `organize_files` over a table: walks it in
      order and stops at the first category whose list holds `ext`. */
  method SearchTable(table: seq<Category>, ext: string) returns (r: Option<nat>)
    ensures r == FirstMatch(table, ext, 0)
  {
    var j := 0;
    while j < |table|
      invariant 0 <= j <= |table|
      invariant FirstMatch(table, ext, j) == FirstMatch(table, ext, 0)
    {
      if ext in table[j].extensions {
        return Some(j);
      }
      j := j + 1;
    }
    return None;
  }

  /** The destination category of a file: the first `FILE_TYPES` entry
      listing its extension, else `Others`. */
  method FindCategory(file: string) returns (category: string)
    ensures category == Classify(file)
  {
    var found := SearchTable(FileTypes, Extension(file));
    if found.Some? {
      category := FileTypes[found.value].name;
    } else {
      category := Others;
    }
  }

  /** The `for` loop of `save_log`: the open log's content after one line
      per record is written after `start`. */
  method WriteLines(start: string, records: seq<Record>) returns (content: string)
    ensures content == start + LogText(records)
  {
    content := start;
    assert LogText(records[..0]) == "";
    for i := 0 to |records|
      invariant content == start + LogText(records[..i])
    {
      LogTextPrefixStep(records, i);
      content := content + LogLine(records[i]);
    }
    assert records[..|records|] == records;
  }

  /** One `FileOrganizer`: the folder it sorts, the ledger every organizer
      shares, the duplicate policy and whether sweeps end with `save_log`. */
  class FileOrganizer {
    const disk: Disk
    const ledger: MoveLedger
    const policy: Policy
    const loggingEnabled: bool

    constructor (disk: Disk, ledger: MoveLedger, policy: Policy := Skip, loggingEnabled: bool := true)
      ensures this.disk == disk && this.ledger == ledger
      ensures this.policy == policy && this.loggingEnabled == loggingEnabled
    {
      this.disk := disk;
      this.ledger := ledger;
      this.policy := policy;
      this.loggingEnabled := loggingEnabled;
    }

    /** `handle_duplicates(root/category, file)`: the name the file will take
        in the category folder; under Replace a clashing file is removed first. */
    method HandleDuplicates(category: string, file: string) returns (dest: string)
      requires WellFormed(disk.dirs) && Sub(category) in disk.dirs
      modifies disk
      ensures dest == ResolveName(policy, old(disk.dirs)[Sub(category)].Keys, file)
      ensures disk.dirs == if policy.Replace? && file in old(disk.dirs)[Sub(category)]
                           then RemoveFile(old(disk.dirs), Sub(category), file)
                           else old(disk.dirs)
    {
      var existing := disk.dirs[Sub(category)].Keys;
      dest := file;
      if file in existing {
        match policy
        case Skip =>
        case Replace =>
          disk.dirs := RemoveFile(disk.dirs, Sub(category), file);
        case Rename =>
          var counter;
          dest, counter := ProbeRename(existing, file);
      }
    }

    /** `save_log`: opens the log for appending (creating it), writes one
        line per ledger record, then clears the ledger. `content` is what the
        open file holds; it reaches the disk when the file is closed. */
    method SaveLog() returns (outcome: Outcome)
      requires WellFormed(disk.dirs)
      modifies disk, ledger
      ensures var flushed := FlushLog(old(disk.dirs), old(ledger.records));
        outcome == if flushed.Ok? then Pass else Fail(flushed.error)
      ensures var flushed := FlushLog(old(disk.dirs), old(ledger.records));
        (disk.dirs, ledger.records) == if flushed.Ok? then (flushed.value, []) else (old(disk.dirs), old(ledger.records))
    {
      if Root !in disk.dirs {
        return Fail(DirectoryNotFound);
      }
      if Sub(LogName) in disk.dirs {
        return Fail(IsADirectory(LogName));
      }
      var content := WriteLines(LogContent(disk.dirs), ledger.records);
      disk.dirs := disk.dirs[Root := disk.dirs[Root][LogName := content]];
      ledger.records := [];
      return Pass;
    }

    /** One iteration of the loop of `organize_files` for a regular file of
        the root at position `i` of `total`: find its category, create the
        folder, resolve the name, move it and record it. `progress` is the
        trace so far, which the caller extends when this returns no error. */
    method MoveOne(file: string, i: nat, total: nat, ghost progress: seq<(nat, nat)>) returns (error: Option<Error>)
      requires Root in disk.dirs && WellFormed(disk.dirs) && file in disk.dirs[Root]
      modifies disk, ledger
      ensures var step := Step(policy, State(old(disk.dirs), old(ledger.records), progress), file, Classify(file), i, total);
        && (step.Ok? ==> error == None && step.value == State(disk.dirs, ledger.records, progress + [(i, total)]))
        && (step.Err? ==> error == Some(step.error) && disk.dirs == old(disk.dirs) && ledger.records == old(ledger.records))
    {
      var category := FindCategory(file);
      var made := MakeDirs(disk.dirs, category);
      if made.Err? {
        return Some(made.error);
      }
      disk.dirs := made.value;
      var dest := HandleDuplicates(category, file);
      disk.dirs := MoveFile(disk.dirs, Root, file, Sub(category), dest);
      ledger.records := ledger.records + [Record(dest, category)];
      return None;
    }

    /** `organize_files(single_file)`: an existence check, then one step per
        listed regular file, then `save_log` when logging is enabled. The
        `(i, total)` calls of the progress callback are returned in order;
        `listing` is what `os.listdir` returns for the root. */
    method OrganizeFiles(single: Option<string>, listing: seq<string>) returns (outcome: Outcome, progress: seq<(nat, nat)>)
      requires WellFormed(disk.dirs)
      modifies disk, ledger
      ensures var (st, out) := Organize(policy, loggingEnabled, old(disk.dirs), old(ledger.records), single, listing);
        disk.dirs == st.dirs && ledger.records == st.ledger && progress == st.progress && outcome == out
    {
      if Root !in disk.dirs {
        return Fail(DirectoryNotFound), [];
      }
      var files := SweepFiles(single, listing, disk.dirs[Root].Keys);
      ghost var st0 := State(disk.dirs, ledger.records, []);
      progress := [];
      for i := 0 to |files|
        invariant RunPrefix(policy, Classify, st0, files, i) == Run(State(disk.dirs, ledger.records, progress), None)
      {
        if files[i] in disk.dirs[Root] {
          var error := MoveOne(files[i], i + 1, |files|, progress);
          if error.Some? {
            RunStopsAtError(policy, Classify, st0, files, i + 1, |files|);
            return Fail(error.value), progress;
          }
          progress := progress + [(i + 1, |files|)];
        }
      }
      if loggingEnabled {
        outcome := SaveLog();
      } else {
        outcome := Pass;
      }
    }

    /** `undo_last_action`: pops the last record, then moves that file from
        its category folder back into the root. */
    method UndoLastAction() returns (outcome: Outcome)
      requires WellFormed(disk.dirs)
      modifies disk, ledger
      ensures old(ledger.records) == [] ==>
        outcome == Fail(NothingToUndo) && disk.dirs == old(disk.dirs) && ledger.records == []
      ensures old(ledger.records) != [] ==>
        var last := old(ledger.records)[|old(ledger.records)| - 1];
        && ledger.records == old(ledger.records)[..|old(ledger.records)| - 1]
        && (UndoMove(old(disk.dirs), last).Ok? ==>
              outcome == Pass && disk.dirs == UndoMove(old(disk.dirs), last).value)
        && (UndoMove(old(disk.dirs), last).Err? ==>
              outcome == Fail(UndoMove(old(disk.dirs), last).error) && disk.dirs == old(disk.dirs))
    {
      if ledger.records == [] {
        return Fail(NothingToUndo);
      }
      var n := |ledger.records|;
      var last := ledger.records[n - 1];
      ledger.records := ledger.records[..n - 1];
      match UndoMove(disk.dirs, last)
      case Ok(d) =>
        disk.dirs := d;
        outcome := Pass;
      case Err(e) =>
        outcome := Fail(e);
    }
  }

  /** The file name a creation event hands to `organize_files`. */
  function CreatedName(srcPath: string): (r: Option<string>)
    ensures r.Some? && '/' !in r.value
  {
    Some(Basename(srcPath))
  }

  /** The watchdog handler installed on the target folder. */
  class WatchdogHandler {
    const organizer: FileOrganizer

    constructor (organizer: FileOrganizer)
      ensures this.organizer == organizer
    {
      this.organizer := organizer;
    }

    /** `on_created`: a created directory is ignored; a created file is
        organized on its own, by its base name. `None` means nothing was
        called. */
    method OnCreated(isDirectory: bool, srcPath: string, listing: seq<string>)
      returns (outcome: Option<Outcome>, progress: seq<(nat, nat)>)
      requires WellFormed(organizer.disk.dirs)
      modifies organizer.disk, organizer.ledger
      ensures isDirectory ==>
        outcome == None && progress == [] &&
        organizer.disk.dirs == old(organizer.disk.dirs) && organizer.ledger.records == old(organizer.ledger.records)
      ensures !isDirectory ==>
        var (st, out) := Organize(organizer.policy, organizer.loggingEnabled, old(organizer.disk.dirs),
                                  old(organizer.ledger.records), CreatedName(srcPath), listing);
        && organizer.disk.dirs == st.dirs && organizer.ledger.records == st.ledger
        && progress == st.progress && outcome == Some(out)
    {
      if isDirectory {
        return None, [];
      }
      var out;
      out, progress := organizer.OrganizeFiles(CreatedName(srcPath), listing);
      outcome := Some(out);
    }
  }

  /** A creation event whose path ends in `/` hands `organize_files` an
      empty, falsy name, so it sweeps the whole folder. */
  lemma TrailingSlashSweepsAll(srcPath: string)
    requires |srcPath| > 0 && srcPath[|srcPath| - 1] == '/'
    ensures IsSweep(CreatedName(srcPath))
  {
  }

  /** Any other creation event organizes exactly the created file's base name. */
  lemma CreatedFileIsSingle(srcPath: string, listing: seq<string>, rootFiles: set<string>)
    requires Basename(srcPath) != ""
    ensures SweepFiles(CreatedName(srcPath), listing, rootFiles) == [Basename(srcPath)]
  {
  }
}
