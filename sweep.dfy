/** Specification of `organize_files` and `undo_last_action` as functions of
    the filesystem and the ledger: one step per listed file, a left fold over
    the file list, the final flush, and the reverse move of undo. */
module Sweep {
  import opened Base
  import opened Classifier
  import opened FileSystem
  import opened Resolver
  import opened Ledger

  /** What one `organize_files` call works on and produces: the filesystem,
      the ledger, and the `(i, total)` pairs passed to the progress callback. */
  datatype State = State(dirs: Dirs, ledger: seq<Record>, progress: seq<(nat, nat)>)

  /** The state after a prefix of the file list, and the exception that
      stopped the loop, if any. */
  datatype Run = Run(st: State, error: Option<Error>)

  predicate NoDup<T(==)>(s: seq<T>) {
    forall i, j :: 0 <= i < j < |s| ==> s[i] != s[j]
  }

  /** The comprehension over `os.listdir` that keeps regular files only, in
      the listing's order. */
  function FilterFiles(listing: seq<string>, files: set<string>): (r: seq<string>)
    ensures forall x :: x in r <==> x in listing && x in files
    ensures NoDup(listing) ==> NoDup(r)
  {
    if listing == [] then []
    else
      var rest := FilterFiles(listing[1..], files);
      assert NoDup(listing) ==> listing[0] !in listing[1..];
      if listing[0] in files then [listing[0]] + rest else rest
  }

  /** The comprehension keeps the listing's order: filtering a listing split
      in two is filtering each part, the first part's names first. */
  lemma {:induction false} FilterFilesAppend(a: seq<string>, b: seq<string>, files: set<string>)
    ensures FilterFiles(a + b, files) == FilterFiles(a, files) + FilterFiles(b, files)
  {
    if a == [] {
      assert a + b == b;
    } else {
      assert (a + b)[0] == a[0];
      assert (a + b)[1..] == a[1..] + b;
      FilterFilesAppend(a[1..], b, files);
    }
  }

  /** A one-name listing keeps its name exactly when it is a regular file. */
  lemma FilterFilesSingle(x: string, files: set<string>)
    ensures FilterFiles([x], files) == if x in files then [x] else []
  {
    assert [x][1..] == [];
  }

  /** `single_file` is falsy (absent or empty), so the call sweeps the whole root. */
  predicate IsSweep(single: Option<string>) {
    single.None? || single.value == ""
  }

  /** `listing` is what `os.listdir(root)` returns: every entry of the root
      (regular files and sub-folders) exactly once, in some order. */
  ghost predicate IsListing(listing: seq<string>, d: Dirs)
    requires Root in d
  {
    NoDup(listing) && forall n :: n in listing <==> n in d[Root] || Sub(n) in d
  }

  /** The list `organize_files` iterates over. */
  function SweepFiles(single: Option<string>, listing: seq<string>, rootFiles: set<string>): (r: seq<string>)
    ensures !IsSweep(single) ==> r == [single.value]
    ensures IsSweep(single) ==> forall x :: x in r <==> x in listing && x in rootFiles
    ensures IsSweep(single) && NoDup(listing) ==> NoDup(r)
  {
    if IsSweep(single) then FilterFiles(listing, rootFiles) else [single.value]
  }

  /** A sweep iterates over the root's regular files in listing order: the
      files of a listing split in two are those of the first part, then
      those of the second. */
  lemma SweepFilesInListingOrder(single: Option<string>, a: seq<string>, b: seq<string>, rootFiles: set<string>)
    requires IsSweep(single)
    ensures SweepFiles(single, a + b, rootFiles) == SweepFiles(single, a, rootFiles) + SweepFiles(single, b, rootFiles)
  {
    FilterFilesAppend(a, b, rootFiles);
  }

  /** The category folder's files before `file` is moved into it. */
  function FolderFiles(d: Dirs, category: string): map<string, Content> {
    if Sub(category) in d then d[Sub(category)] else map[]
  }

  /** The net effect of processing one regular file: it leaves the root, lands
      in its category folder under the resolved name (overwriting whatever had
      that name), one record is appended and one progress call is made, and
      no other folder changes. */
  ghost predicate MovedInto(p: Policy, st: State, s: State, file: string, category: string, i: nat, total: nat)
    requires Root in st.dirs && file in st.dirs[Root]
  {
    var before := FolderFiles(st.dirs, category);
    var dest := ResolveName(p, before.Keys, file);
    && s.ledger == st.ledger + [Record(dest, category)]
    && s.progress == st.progress + [(i, total)]
    && s.dirs.Keys == st.dirs.Keys + {Sub(category)}
    && s.dirs[Root] == st.dirs[Root] - {file}
    && s.dirs[Sub(category)] == before[dest := st.dirs[Root][file]]
    && forall f :: f in st.dirs && f != Root && f != Sub(category) ==> s.dirs[f] == st.dirs[f]
  }

  /** One iteration of the loop of `organize_files` for the `i`-th of `total`
      files, whose category the search over `FILE_TYPES` found to be `category`. */
  function Step(p: Policy, st: State, file: string, category: string, i: nat, total: nat): (r: Result<State>)
    requires Root in st.dirs && WellFormed(st.dirs)
    ensures r.Ok? ==> Root in r.value.dirs && WellFormed(r.value.dirs)
    ensures file !in st.dirs[Root] ==> r == Ok(st)
    ensures file in st.dirs[Root] ==> (r.Err? <==> category in st.dirs[Root])
    ensures r.Err? ==> r.error == FileExists(category)
  {
    if file !in st.dirs[Root] then Ok(st)
    else
      match MakeDirs(st.dirs, category)
      case Err(e) => Err(e)
      case Ok(withFolder) =>
        var existing := withFolder[Sub(category)].Keys;
        var dest := ResolveName(p, existing, file);
        var cleared := if p.Replace? && file in existing then RemoveFile(withFolder, Sub(category), file) else withFolder;
        var moved := MoveFile(cleared, Root, file, Sub(category), dest);
        Ok(State(moved, st.ledger + [Record(dest, category)], st.progress + [(i, total)]))
  }

  /** A regular file that is processed is moved into exactly one folder, its
      category's, and recorded once. */
  lemma StepMovesFile(p: Policy, st: State, file: string, category: string, i: nat, total: nat)
    requires Root in st.dirs && WellFormed(st.dirs) && file in st.dirs[Root]
    requires Step(p, st, file, category, i, total).Ok?
    ensures MovedInto(p, st, Step(p, st, file, category, i, total).value, file, category, i, total)
  {
    var withFolder := MakeDirs(st.dirs, category).value;
    assert FolderFiles(st.dirs, category) == withFolder[Sub(category)];
  }

  /** The log file is not exempt: when its turn comes it is moved into
      `Documents` like any other `.txt` file and recorded. */
  lemma StepMovesLogFile(p: Policy, st: State, i: nat, total: nat)
    requires Root in st.dirs && WellFormed(st.dirs) && LogName in st.dirs[Root]
    requires Step(p, st, LogName, Classify(LogName), i, total).Ok?
    ensures var s := Step(p, st, LogName, Classify(LogName), i, total).value;
      && LogName !in s.dirs[Root]
      && Sub("Documents") in s.dirs
      && s.ledger[|s.ledger| - 1].category == "Documents"
  {
    ClassifyLog(LogName);
    StepMovesFile(p, st, LogName, Classify(LogName), i, total);
  }

  /** The loop of `organize_files` over the first `n` files of `files`, each
      sent to the folder `classify` names; an exception ends it and leaves the
      earlier moves in place. */
  function RunPrefix(p: Policy, classify: string -> string, st0: State, files: seq<string>, n: nat): (r: Run)
    requires n <= |files| && Root in st0.dirs && WellFormed(st0.dirs)
    ensures Root in r.st.dirs && WellFormed(r.st.dirs)
  {
    if n == 0 then Run(st0, None)
    else
      var prev := RunPrefix(p, classify, st0, files, n - 1);
      if prev.error.Some? then prev
      else match Step(p, prev.st, files[n - 1], classify(files[n - 1]), n, |files|)
        case Ok(s) => Run(s, None)
        case Err(e) => Run(prev.st, Some(e))
  }

  /** `organize_files`: the existence check, the loop, and the flush when
      logging is enabled. */
  function Organize(p: Policy, logging: bool, d: Dirs, ledger: seq<Record>,
                    single: Option<string>, listing: seq<string>): (r: (State, Outcome))
    requires WellFormed(d)
    ensures WellFormed(r.0.dirs)
    ensures Root !in d ==> r == (State(d, ledger, []), Fail(DirectoryNotFound))
    ensures logging && r.1.Pass? ==> r.0.ledger == []
    ensures !logging && r.1.Pass? ==> |r.0.ledger| == |ledger| + |r.0.progress|
  {
    if Root !in d then (State(d, ledger, []), Fail(DirectoryNotFound))
    else
      var files := SweepFiles(single, listing, d[Root].Keys);
      var st0 := State(d, ledger, []);
      var run := RunPrefix(p, Classify, st0, files, |files|);
      RunRecords(p, Classify, st0, files, |files|);
      if run.error.Some? then (run.st, Fail(run.error.value))
      else if !logging then (run.st, Pass)
      else match FlushLog(run.st.dirs, run.st.ledger)
        case Ok(flushed) => (State(flushed, [], run.st.progress), Pass)
        case Err(e) => (run.st, Fail(e))
  }

  /** With logging on, a passing call writes the records that the same call
      without logging would keep, after the log's content as the loop left
      it, and then empties the ledger, so nothing is left to undo. */
  lemma LoggedSweepFlushesLedger(p: Policy, d: Dirs, ledger: seq<Record>,
                                 single: Option<string>, listing: seq<string>)
    requires WellFormed(d)
    requires Organize(p, true, d, ledger, single, listing).1.Pass?
    ensures var (unlogged, out) := Organize(p, false, d, ledger, single, listing);
      var logged := Organize(p, true, d, ledger, single, listing).0;
      && out.Pass?
      && logged.ledger == []
      && logged.progress == unlogged.progress
      && Root in unlogged.dirs && Root in logged.dirs
      && logged.dirs[Root] == unlogged.dirs[Root][LogName := LogContent(unlogged.dirs) + LogText(unlogged.ledger)]
      && forall f :: f in unlogged.dirs && f != Root ==> f in logged.dirs && logged.dirs[f] == unlogged.dirs[f]
  {
    var files := SweepFiles(single, listing, d[Root].Keys);
    var run := RunPrefix(p, Classify, State(d, ledger, []), files, |files|);
    assert Organize(p, false, d, ledger, single, listing) == (run.st, Pass);
  }

  /** Once the loop has raised, later files change nothing. */
  lemma {:induction false} RunStopsAtError(p: Policy, classify: string -> string, st0: State, files: seq<string>, k: nat, n: nat)
    requires k <= n <= |files| && Root in st0.dirs && WellFormed(st0.dirs)
    requires RunPrefix(p, classify, st0, files, k).error.Some?
    ensures RunPrefix(p, classify, st0, files, n) == RunPrefix(p, classify, st0, files, k)
    decreases n - k
  {
    if k < n {
      RunStopsAtError(p, classify, st0, files, k, n - 1);
    }
  }

  /** One more file either leaves the ledger and the progress trace alone, or
      appends one record classified like that file and the call `(n, total)`. */
  lemma RunPrefixStep(p: Policy, classify: string -> string, st0: State, files: seq<string>, n: nat)
    requires 1 <= n <= |files| && Root in st0.dirs && WellFormed(st0.dirs)
    ensures var prev, cur := RunPrefix(p, classify, st0, files, n - 1).st, RunPrefix(p, classify, st0, files, n).st;
      || (cur.ledger == prev.ledger && cur.progress == prev.progress)
      || (&& cur.progress == prev.progress + [(n, |files|)]
          && |cur.ledger| == |prev.ledger| + 1
          && cur.ledger[..|prev.ledger|] == prev.ledger
          && cur.ledger[|prev.ledger|].category == classify(files[n - 1]))
  {
    var prev := RunPrefix(p, classify, st0, files, n - 1);
    if prev.error.None? && files[n - 1] in prev.st.dirs[Root] {
      var step := Step(p, prev.st, files[n - 1], classify(files[n - 1]), n, |files|);
      if step.Ok? {
        StepMovesFile(p, prev.st, files[n - 1], classify(files[n - 1]), n, |files|);
      }
    }
  }

  /** The category of each file of a list. */
  function Categories(classify: string -> string, files: seq<string>): (r: seq<string>)
    ensures |r| == |files|
    ensures forall i :: 0 <= i < |files| ==> r[i] == classify(files[i])
  {
    seq(|files|, i requires 0 <= i < |files| => classify(files[i]))
  }

  /** What a loop over the first `n` files leaves in the ledger and the
      progress trace, starting from `initial`, when the files' categories are
      `cats`: the ledger only grows, by one record per progress call; the
      calls carry strictly increasing positions in 1..n and the list's length;
      and the k-th new record's category is that of the file at the k-th
      reported position. */
  ghost predicate RecordsTrace(initial: seq<Record>, ledger: seq<Record>, progress: seq<(nat, nat)>,
                               cats: seq<string>, n: nat)
  {
    && |ledger| == |initial| + |progress|
    && ledger[..|initial|] == initial
    && (forall k :: 0 <= k < |progress| ==> 1 <= progress[k].0 <= n && progress[k].1 == |cats|)
    && (forall k, l :: 0 <= k < l < |progress| ==> progress[k].0 < progress[l].0)
    && (forall k :: 0 <= k < |progress| ==> (1 <= progress[k].0 <= |cats| &&
          ledger[|initial| + k].category == cats[progress[k].0 - 1]))
  }

  lemma RecordsTraceExtends(initial: seq<Record>, ledger: seq<Record>, progress: seq<(nat, nat)>,
                            ledger': seq<Record>, progress': seq<(nat, nat)>, cats: seq<string>, n: nat)
    requires 1 <= n <= |cats| && RecordsTrace(initial, ledger, progress, cats, n - 1)
    requires || (ledger' == ledger && progress' == progress)
             || (&& progress' == progress + [(n, |cats|)]
                 && |ledger'| == |ledger| + 1
                 && ledger'[..|ledger|] == ledger
                 && ledger'[|ledger|].category == cats[n - 1])
    ensures RecordsTrace(initial, ledger', progress', cats, n)
  {
    if progress' != progress {
      assert ledger'[..|initial|] == ledger[..|initial|];
      forall k | 0 <= k < |progress'|
        ensures ledger'[|initial| + k].category == cats[progress'[k].0 - 1]
      {
        if k < |progress| {
          assert ledger'[|initial| + k] == ledger[|initial| + k];
        }
      }
    }
  }

  lemma RunRecordsStep(p: Policy, classify: string -> string, st0: State, files: seq<string>, n: nat)
    requires 1 <= n <= |files| && Root in st0.dirs && WellFormed(st0.dirs)
    requires var r := RunPrefix(p, classify, st0, files, n - 1).st;
      RecordsTrace(st0.ledger, r.ledger, r.progress, Categories(classify, files), n - 1)
    ensures var r := RunPrefix(p, classify, st0, files, n).st;
      RecordsTrace(st0.ledger, r.ledger, r.progress, Categories(classify, files), n)
  {
    RunPrefixStep(p, classify, st0, files, n);
    var prev, cur := RunPrefix(p, classify, st0, files, n - 1).st, RunPrefix(p, classify, st0, files, n).st;
    RecordsTraceExtends(st0.ledger, prev.ledger, prev.progress, cur.ledger, cur.progress, Categories(classify, files), n);
  }

  /** The ledger and progress trace of the loop, over any prefix of the files. */
  lemma {:induction false} RunRecords(p: Policy, classify: string -> string, st0: State, files: seq<string>, n: nat)
    requires n <= |files| && Root in st0.dirs && WellFormed(st0.dirs) && st0.progress == []
    ensures var r := RunPrefix(p, classify, st0, files, n).st;
      RecordsTrace(st0.ledger, r.ledger, r.progress, Categories(classify, files), n)
  {
    if n > 0 {
      RunRecords(p, classify, st0, files, n - 1);
      RunRecordsStep(p, classify, st0, files, n);
    } else {
      assert st0.ledger[..|st0.ledger|] == st0.ledger;
    }
  }

  /** One more file of a loop that has not raised: if the file is still in
      the root it leaves it and one progress call is made; otherwise nothing
      changes. */
  lemma RunPrefixRootStep(p: Policy, classify: string -> string, st0: State, files: seq<string>, n: nat)
    requires 1 <= n <= |files| && Root in st0.dirs && WellFormed(st0.dirs)
    requires RunPrefix(p, classify, st0, files, n).error.None?
    ensures var prev, cur := RunPrefix(p, classify, st0, files, n - 1), RunPrefix(p, classify, st0, files, n).st;
      && prev.error.None?
      && (files[n - 1] in prev.st.dirs[Root] ==>
            cur.dirs[Root] == prev.st.dirs[Root] - {files[n - 1]} &&
            cur.progress == prev.st.progress + [(n, |files|)])
      && (files[n - 1] !in prev.st.dirs[Root] ==> cur == prev.st)
  {
    var prev := RunPrefix(p, classify, st0, files, n - 1);
    if files[n - 1] in prev.st.dirs[Root] {
      StepMovesFile(p, prev.st, files[n - 1], classify(files[n - 1]), n, |files|);
    }
  }

  /** What a full sweep has done to the root after its first `n` files. */
  ghost predicate ClearedTrace(root0: set<string>, root: set<string>, progress: seq<(nat, nat)>,
                               files: seq<string>, n: nat)
    requires n <= |files|
  {
    && (forall x :: x in root <==> x in root0 && x !in files[..n])
    && |progress| == n
    && forall k :: 0 <= k < n ==> progress[k] == (k + 1, |files|)
  }

  lemma ClearedTraceExtends(root0: set<string>, root: set<string>, progress: seq<(nat, nat)>,
                            root': set<string>, progress': seq<(nat, nat)>, files: seq<string>, n: nat)
    requires 1 <= n <= |files| && NoDup(files) && forall x :: x in files <==> x in root0
    requires ClearedTrace(root0, root, progress, files, n - 1)
    requires files[n - 1] in root ==> root' == root - {files[n - 1]} && progress' == progress + [(n, |files|)]
    requires files[n - 1] !in root ==> root' == root && progress' == progress
    ensures ClearedTrace(root0, root', progress', files, n)
  {
    assert files[n - 1] !in files[..n - 1];
    assert files[n - 1] in root;
    assert files[..n] == files[..n - 1] + [files[n - 1]];
  }

  /** The precondition of a full sweep: the state it starts from, and the
      list of regular files of the root, each listed once. */
  ghost predicate SweepStart(st0: State, files: seq<string>) {
    && Root in st0.dirs && WellFormed(st0.dirs) && st0.progress == []
    && NoDup(files) && (forall x :: x in files <==> x in st0.dirs[Root])
  }

  lemma SweepPrefixClearsRootStep(p: Policy, classify: string -> string, st0: State, files: seq<string>, n: nat)
    requires 1 <= n <= |files| && SweepStart(st0, files)
    requires var r := RunPrefix(p, classify, st0, files, n - 1);
      r.error.None? ==> ClearedTrace(st0.dirs[Root].Keys, r.st.dirs[Root].Keys, r.st.progress, files, n - 1)
    ensures var r := RunPrefix(p, classify, st0, files, n);
      r.error.None? ==> ClearedTrace(st0.dirs[Root].Keys, r.st.dirs[Root].Keys, r.st.progress, files, n)
  {
    if RunPrefix(p, classify, st0, files, n).error.None? {
      RunPrefixRootStep(p, classify, st0, files, n);
      var prev, cur := RunPrefix(p, classify, st0, files, n - 1).st, RunPrefix(p, classify, st0, files, n).st;
      ClearedTraceExtends(st0.dirs[Root].Keys, prev.dirs[Root].Keys, prev.progress,
                          cur.dirs[Root].Keys, cur.progress, files, n);
    }
  }

  /** The root's files after a loop over the first `n` files of a full
      listing, when nothing has raised: those files are gone and the
      progress trace is `(1, t), ..., (n, t)`. */
  lemma {:induction false} SweepPrefixClearsRoot(p: Policy, classify: string -> string, st0: State, files: seq<string>, n: nat)
    requires n <= |files| && SweepStart(st0, files)
    ensures var r := RunPrefix(p, classify, st0, files, n);
      r.error.None? ==> ClearedTrace(st0.dirs[Root].Keys, r.st.dirs[Root].Keys, r.st.progress, files, n)
  {
    if n > 0 {
      SweepPrefixClearsRoot(p, classify, st0, files, n - 1);
      SweepPrefixClearsRootStep(p, classify, st0, files, n);
    }
  }

  /** A full sweep that does not raise moves every regular file out of the
      root and reports progress for every one of them. */
  lemma SweepClearsRoot(p: Policy, classify: string -> string, st0: State, files: seq<string>)
    requires SweepStart(st0, files)
    requires RunPrefix(p, classify, st0, files, |files|).error.None?
    ensures RunPrefix(p, classify, st0, files, |files|).st.dirs[Root] == map[]
    ensures var r := RunPrefix(p, classify, st0, files, |files|).st;
      |r.progress| == |files| && forall k :: 0 <= k < |files| ==> r.progress[k] == (k + 1, |files|)
  {
    SweepPrefixClearsRoot(p, classify, st0, files, |files|);
    assert files[..|files|] == files;
    var root := RunPrefix(p, classify, st0, files, |files|).st.dirs[Root];
    assert root.Keys == {};
  }

  /** Where the files a loop has moved so far are, starting from the root
      `root0` with `initial` records already in the ledger: the root has only
      lost files; the k-th new record names the file at the k-th reported
      position, which has left the root and is held by the record's category
      folder, under the record's name and with the content it had in the
      root; under Skip and Replace that name is the file's own. */
  ghost predicate Placed(p: Policy, root0: map<string, Content>, files: seq<string>, initial: nat, st: State)
  {
    && Root in st.dirs
    && (forall x :: x in st.dirs[Root] ==> x in root0 && st.dirs[Root][x] == root0[x])
    && |st.ledger| == initial + |st.progress|
    && forall k :: 0 <= k < |st.progress| ==>
         && 1 <= st.progress[k].0 <= |files|
         && var rec, f := st.ledger[initial + k], files[st.progress[k].0 - 1];
         && f in root0 && f !in st.dirs[Root]
         && IsFile(st.dirs, Sub(rec.category), rec.file)
         && st.dirs[Sub(rec.category)][rec.file] == root0[f]
         && (!p.Rename? ==> rec.file == f)
  }

  /** A move leaves alone a file an earlier move placed: the new name is
      free in the folder, or it is a root file's own name, which an earlier
      move under Skip or Replace cannot have used. */
  lemma MoveKeepsPlaced(p: Policy, st: State, s: State, file: string, category: string, i: nat, total: nat,
                        rec: Record, f: string)
    requires Root in st.dirs && file in st.dirs[Root]
    requires MovedInto(p, st, s, file, category, i, total)
    requires IsFile(st.dirs, Sub(rec.category), rec.file) && f !in st.dirs[Root]
    requires !p.Rename? ==> rec.file == f
    ensures IsFile(s.dirs, Sub(rec.category), rec.file)
    ensures s.dirs[Sub(rec.category)][rec.file] == st.dirs[Sub(rec.category)][rec.file]
  {
    if rec.category == category {
      var before := FolderFiles(st.dirs, category);
      assert before == st.dirs[Sub(category)];
      assert ResolveName(p, before.Keys, file) != rec.file;
    }
  }

  /** One more move keeps `Placed`. */
  lemma PlacedExtends(p: Policy, root0: map<string, Content>, files: seq<string>, initial: nat,
                      st: State, s: State, category: string, n: nat)
    requires 1 <= n <= |files| && Placed(p, root0, files, initial, st)
    requires files[n - 1] in st.dirs[Root]
    requires MovedInto(p, st, s, files[n - 1], category, n, |files|)
    ensures Placed(p, root0, files, initial, s)
  {
    var file := files[n - 1];
    assert Root in s.dirs;
    forall k | 0 <= k < |s.progress|
      ensures && 1 <= s.progress[k].0 <= |files|
              && var rec, f := s.ledger[initial + k], files[s.progress[k].0 - 1];
              && f in root0 && f !in s.dirs[Root]
              && IsFile(s.dirs, Sub(rec.category), rec.file)
              && s.dirs[Sub(rec.category)][rec.file] == root0[f]
              && (!p.Rename? ==> rec.file == f)
    {
      if k < |st.progress| {
        assert s.progress[k] == st.progress[k];
        assert s.ledger[initial + k] == st.ledger[initial + k];
        var rec, f := st.ledger[initial + k], files[st.progress[k].0 - 1];
        MoveKeepsPlaced(p, st, s, file, category, n, |files|, rec, f);
      } else {
        var before := FolderFiles(st.dirs, category);
        assert s.ledger[initial + k] == Record(ResolveName(p, before.Keys, file), category);
      }
    }
  }

  /** The loop's next file keeps `Placed`. */
  lemma RunPlacedStep(p: Policy, classify: string -> string, st0: State, files: seq<string>, n: nat)
    requires 1 <= n <= |files| && Root in st0.dirs && WellFormed(st0.dirs)
    requires Placed(p, st0.dirs[Root], files, |st0.ledger|, RunPrefix(p, classify, st0, files, n - 1).st)
    ensures Placed(p, st0.dirs[Root], files, |st0.ledger|, RunPrefix(p, classify, st0, files, n).st)
  {
    var prev := RunPrefix(p, classify, st0, files, n - 1);
    if prev.error.None? && files[n - 1] in prev.st.dirs[Root] {
      var step := Step(p, prev.st, files[n - 1], classify(files[n - 1]), n, |files|);
      if step.Ok? {
        StepMovesFile(p, prev.st, files[n - 1], classify(files[n - 1]), n, |files|);
        PlacedExtends(p, st0.dirs[Root], files, |st0.ledger|, prev.st, step.value, classify(files[n - 1]), n);
      }
    }
  }

  /** `Placed` holds after every prefix of the loop. */
  lemma {:induction false} RunPlaced(p: Policy, classify: string -> string, st0: State, files: seq<string>, n: nat)
    requires n <= |files| && Root in st0.dirs && WellFormed(st0.dirs) && st0.progress == []
    ensures Placed(p, st0.dirs[Root], files, |st0.ledger|, RunPrefix(p, classify, st0, files, n).st)
  {
    if n > 0 {
      RunPlaced(p, classify, st0, files, n - 1);
      RunPlacedStep(p, classify, st0, files, n);
    }
  }

  /** Every listed file is in the folder of its category: the k-th of the
      records after the first `initial` ones names the category `cats[k]` and
      the name the k-th file now has there, and that folder holds the file's
      content from the root `root0`; under Skip and Replace the file kept its
      own name. */
  ghost predicate FilesPlaced(p: Policy, root0: map<string, Content>, files: seq<string>, initial: nat,
                              cats: seq<string>, st: State)
    requires |cats| == |files|
  {
    && |st.ledger| == initial + |files|
    && forall k :: 0 <= k < |files| ==>
         var rec := st.ledger[initial + k];
         && rec.category == cats[k]
         && IsFile(st.dirs, Sub(rec.category), rec.file)
         && files[k] in root0 && st.dirs[Sub(rec.category)][rec.file] == root0[files[k]]
         && (!p.Rename? ==> rec.file == files[k])
  }

  /** When every file was reported in order, the k-th new record belongs to
      the k-th file. */
  lemma PlacedInOrder(p: Policy, root0: map<string, Content>, files: seq<string>, initial: seq<Record>,
                      cats: seq<string>, st: State)
    requires |cats| == |files| && Placed(p, root0, files, |initial|, st)
    requires RecordsTrace(initial, st.ledger, st.progress, cats, |files|)
    requires |st.progress| == |files| && forall k :: 0 <= k < |files| ==> st.progress[k] == (k + 1, |files|)
    ensures FilesPlaced(p, root0, files, |initial|, cats, st)
  {
    forall k | 0 <= k < |files|
      ensures var rec := st.ledger[|initial| + k];
        && rec.category == cats[k]
        && IsFile(st.dirs, Sub(rec.category), rec.file)
        && files[k] in root0 && st.dirs[Sub(rec.category)][rec.file] == root0[files[k]]
        && (!p.Rename? ==> rec.file == files[k])
    {
      assert st.progress[k].0 - 1 == k;
    }
  }

  /** A full sweep that does not raise puts every listed file into the
      folder of its category, under the name its record gives, with its old
      content; the records follow the listing. */
  lemma SweepPlacesFiles(p: Policy, classify: string -> string, st0: State, files: seq<string>)
    requires SweepStart(st0, files)
    requires RunPrefix(p, classify, st0, files, |files|).error.None?
    ensures FilesPlaced(p, st0.dirs[Root], files, |st0.ledger|, Categories(classify, files),
                        RunPrefix(p, classify, st0, files, |files|).st)
  {
    var r := RunPrefix(p, classify, st0, files, |files|).st;
    SweepClearsRoot(p, classify, st0, files);
    RunPlaced(p, classify, st0, files, |files|);
    RunRecords(p, classify, st0, files, |files|);
    PlacedInOrder(p, st0.dirs[Root], files, st0.ledger, Categories(classify, files), r);
  }

  /** Every exception the loop raises is `makedirs` meeting a regular file
      that holds a category folder's name. */
  lemma {:induction false} RunErrorIsBlockedFolder(p: Policy, classify: string -> string, st0: State, files: seq<string>, n: nat)
    requires n <= |files| && Root in st0.dirs && WellFormed(st0.dirs)
    requires RunPrefix(p, classify, st0, files, n).error.Some?
    ensures RunPrefix(p, classify, st0, files, n).error.value.FileExists?
  {
    if RunPrefix(p, classify, st0, files, n - 1).error.Some? {
      RunErrorIsBlockedFolder(p, classify, st0, files, n - 1);
    }
  }

  /** The loop raises at a file still in the root whose category names a
      regular file of the root. */
  lemma RunFailsAtBlockedFolder(p: Policy, classify: string -> string, st0: State, files: seq<string>, k: nat)
    requires k < |files| && Root in st0.dirs && WellFormed(st0.dirs)
    requires RunPrefix(p, classify, st0, files, k).error.None?
    requires var root := RunPrefix(p, classify, st0, files, k).st.dirs[Root];
      files[k] in root && classify(files[k]) in root
    ensures RunPrefix(p, classify, st0, files, k + 1).error == Some(FileExists(classify(files[k])))
  {
  }

  /** The turn of a regular file called `Others` ends with an exception, if
      none was raised before: the earlier turns left it in the root, and the
      sweep's `makedirs` of its own category meets it. */
  lemma OthersFileRaises(p: Policy, classify: string -> string, st0: State, files: seq<string>, k: nat)
    requires k < |files| && SweepStart(st0, files) && files[k] == Others && classify(Others) == Others
    ensures RunPrefix(p, classify, st0, files, k + 1).error.Some?
  {
    if RunPrefix(p, classify, st0, files, k).error.None? {
      SweepPrefixClearsRoot(p, classify, st0, files, k);
      assert Others !in files[..k];
      RunFailsAtBlockedFolder(p, classify, st0, files, k);
    }
  }

  /** A regular file called `Others` in the root makes every full sweep raise. */
  lemma OthersFileStopsSweep(p: Policy, classify: string -> string, st0: State, files: seq<string>)
    requires SweepStart(st0, files)
    requires Others in st0.dirs[Root] && classify(Others) == Others
    ensures RunPrefix(p, classify, st0, files, |files|).error.Some?
  {
    var k :| 0 <= k < |files| && files[k] == Others;
    OthersFileRaises(p, classify, st0, files, k);
    RunStopsAtError(p, classify, st0, files, k + 1, |files|);
  }

  /** `shutil.move(root/category/file, root)` as `undo_last_action` calls it:
      the root is an existing folder, so the target is `root/file`, which must
      not exist (as a file or a folder) before the source is looked up. */
  function UndoMove(d: Dirs, rec: Record): (r: Result<Dirs>)
    requires WellFormed(d)
    ensures r.Ok? <==> Root in d && !ExistsInRoot(d, rec.file) && IsFile(d, Sub(rec.category), rec.file)
    ensures r.Err? && Root in d && ExistsInRoot(d, rec.file) ==> r.error == DestinationExists(rec.file)
    ensures r.Err? && !(Root in d && ExistsInRoot(d, rec.file)) ==> r.error == SourceMissing(rec.category, rec.file)
    ensures r.Ok? ==> WellFormed(r.value) && r.value.Keys == d.Keys
    ensures r.Ok? ==> r.value[Root] == d[Root][rec.file := d[Sub(rec.category)][rec.file]]
    ensures r.Ok? ==> r.value[Sub(rec.category)] == d[Sub(rec.category)] - {rec.file}
    ensures r.Ok? ==> forall f :: f in d && f != Root && f != Sub(rec.category) ==> r.value[f] == d[f]
  {
    if Root !in d then Err(SourceMissing(rec.category, rec.file))
    else if ExistsInRoot(d, rec.file) then Err(DestinationExists(rec.file))
    else if !IsFile(d, Sub(rec.category), rec.file) then Err(SourceMissing(rec.category, rec.file))
    else Ok(MoveFile(d, Sub(rec.category), rec.file, Root, rec.file))
  }

  /** Moving back a file that was moved from the root into folder `cat`
      under the name `dest`: it fails only when `dest` is taken in the root,
      and it lands in the root under `dest`. */
  lemma UndoMovedFile(d: Dirs, moved: Dirs, cat: string, file: string, dest: string)
    requires WellFormed(d) && Root in d && Sub(cat) in d && file in d[Root]
    requires WellFormed(moved) && moved.Keys == d.Keys
    requires moved[Root] == d[Root] - {file}
    requires moved[Sub(cat)] == d[Sub(cat)][dest := d[Root][file]]
    requires forall f :: f in d && f != Root && f != Sub(cat) ==> moved[f] == d[f]
    ensures var undone := UndoMove(moved, Record(dest, cat));
      && (undone.Ok? <==> dest == file || !ExistsInRoot(moved, dest))
      && (undone.Ok? ==> undone.value == d[Root := (d[Root] - {file})[dest := d[Root][file]]]
                                           [Sub(cat) := d[Sub(cat)] - {dest}])
  {
    var undone := UndoMove(moved, Record(dest, cat));
    if undone.Ok? {
      var expected := d[Root := (d[Root] - {file})[dest := d[Root][file]]][Sub(cat) := d[Sub(cat)] - {dest}];
      assert undone.value.Keys == expected.Keys;
      assert undone.value[Root] == expected[Root];
      assert undone.value[Sub(cat)] == expected[Sub(cat)];
    }
  }

  /** Undoing the move one loop step made: the record it appended names the
      file's new place; the move back succeeds unless the recorded name is
      taken in the root, and it puts the file back under the recorded name
      (which a rename changed), leaving the category folder as it was apart
      from the overwritten copy under that name. */
  lemma UndoReversesStep(p: Policy, st: State, file: string, cat: string, i: nat, total: nat)
    requires Root in st.dirs && WellFormed(st.dirs) && file in st.dirs[Root]
    requires Step(p, st, file, cat, i, total).Ok?
    ensures var s := Step(p, st, file, cat, i, total).value;
      var before := FolderFiles(st.dirs, cat);
      var dest := ResolveName(p, before.Keys, file);
      var undone := UndoMove(s.dirs, s.ledger[|s.ledger| - 1]);
      && s.ledger[|s.ledger| - 1] == Record(dest, cat)
      && (undone.Ok? <==> dest == file || !ExistsInRoot(s.dirs, dest))
      && (undone.Ok? ==> undone.value == MakeDirs(st.dirs, cat).value
            [Root := (st.dirs[Root] - {file})[dest := st.dirs[Root][file]]]
            [Sub(cat) := before - {dest}])
  {
    StepMovesFile(p, st, file, cat, i, total);
    var d1 := MakeDirs(st.dirs, cat).value;
    assert FolderFiles(st.dirs, cat) == d1[Sub(cat)];
    UndoMovedFile(d1, Step(p, st, file, cat, i, total).value.dirs, cat, file,
                  ResolveName(p, FolderFiles(st.dirs, cat).Keys, file));
  }

  /** Putting a file back into the root and taking it out of a folder that
      did not hold it before restores the filesystem. */
  lemma MoveBackRestores(d: Dirs, cat: string, file: string)
    requires Root in d && Sub(cat) in d && file in d[Root] && file !in d[Sub(cat)]
    ensures d[Root := (d[Root] - {file})[file := d[Root][file]]][Sub(cat) := d[Sub(cat)] - {file}] == d
  {
    assert (d[Root] - {file})[file := d[Root][file]] == d[Root];
    assert d[Sub(cat)] - {file} == d[Sub(cat)];
  }

  /** When no file had the name in the category folder, undo restores the
      filesystem exactly as `makedirs` left it. */
  lemma UndoAfterFreshMove(p: Policy, st: State, file: string, cat: string, i: nat, total: nat)
    requires Root in st.dirs && WellFormed(st.dirs) && file in st.dirs[Root]
    requires Step(p, st, file, cat, i, total).Ok?
    requires file !in FolderFiles(st.dirs, cat)
    ensures var s := Step(p, st, file, cat, i, total).value;
      UndoMove(s.dirs, s.ledger[|s.ledger| - 1]) == MakeDirs(st.dirs, cat)
  {
    UndoReversesStep(p, st, file, cat, i, total);
    MoveBackRestores(MakeDirs(st.dirs, cat).value, cat, file);
  }

  /** A full `organize_files` sweep that does not raise leaves no regular
      file in the root except the log it has just written, and reports one
      progress call per regular file, in listing order. */
  lemma OrganizeSweepEmptiesRoot(p: Policy, logging: bool, d: Dirs, ledger: seq<Record>,
                                 single: Option<string>, listing: seq<string>)
    requires WellFormed(d) && Root in d && IsSweep(single) && IsListing(listing, d)
    requires Organize(p, logging, d, ledger, single, listing).1.Pass?
    ensures var (st, _) := Organize(p, logging, d, ledger, single, listing);
      && st.dirs[Root].Keys == (if logging then {LogName} else {})
      && |st.progress| == |SweepFiles(single, listing, d[Root].Keys)|
      && forall k :: 0 <= k < |st.progress| ==> st.progress[k] == (k + 1, |st.progress|)
  {
    var files := SweepFiles(single, listing, d[Root].Keys);
    var st0 := State(d, ledger, []);
    assert SweepStart(st0, files);
    SweepClearsRoot(p, Classify, st0, files);
  }

  /** The folder `category` of `dirs` holds a file with `content`, under the
      name `file` unless the policy is Rename. */
  ghost predicate FileIn(p: Policy, dirs: Dirs, category: string, file: string, content: Content) {
    exists name :: && IsFile(dirs, Sub(category), name)
                   && dirs[Sub(category)][name] == content
                   && (!p.Rename? ==> name == file)
  }

  /** Placed files stay where they are while no category folder changes. */
  lemma PlacedSurvives(p: Policy, classify: string -> string, root0: map<string, Content>, files: seq<string>,
                       initial: nat, st: State, dirs: Dirs)
    requires FilesPlaced(p, root0, files, initial, Categories(classify, files), st)
    requires forall f :: f in st.dirs && f != Root ==> f in dirs && dirs[f] == st.dirs[f]
    ensures forall k :: 0 <= k < |files| ==>
      && files[k] in root0
      && FileIn(p, dirs, classify(files[k]), files[k], root0[files[k]])
  {
    forall k | 0 <= k < |files|
      ensures && files[k] in root0
              && FileIn(p, dirs, classify(files[k]), files[k], root0[files[k]])
    {
      var rec := st.ledger[initial + k];
      assert rec.category == classify(files[k]);
      assert IsFile(dirs, Sub(rec.category), rec.file);
    }
  }

  /** The files a full sweep placed are still in place in any later tree
      whose sub-folders are those the sweep left. */
  lemma SweepPlacesFilesIn(p: Policy, classify: string -> string, st0: State, files: seq<string>, dirs: Dirs)
    requires SweepStart(st0, files)
    requires RunPrefix(p, classify, st0, files, |files|).error.None?
    requires var r := RunPrefix(p, classify, st0, files, |files|).st;
      forall f :: f in r.dirs && f != Root ==> f in dirs && dirs[f] == r.dirs[f]
    ensures forall k :: 0 <= k < |files| ==>
      && files[k] in st0.dirs[Root]
      && FileIn(p, dirs, classify(files[k]), files[k], st0.dirs[Root][files[k]])
  {
    SweepPlacesFiles(p, classify, st0, files);
    PlacedSurvives(p, classify, st0.dirs[Root], files, |st0.ledger|, RunPrefix(p, classify, st0, files, |files|).st, dirs);
  }

  /** After a full `organize_files` sweep that does not raise, every regular
      file the root held is in the folder of its category with its content,
      under its own name unless the policy is Rename; the flush of the log
      does not touch the category folders. */
  lemma OrganizePlacesFiles(p: Policy, logging: bool, d: Dirs, ledger: seq<Record>,
                            single: Option<string>, listing: seq<string>)
    requires WellFormed(d) && Root in d && IsSweep(single) && IsListing(listing, d)
    requires Organize(p, logging, d, ledger, single, listing).1.Pass?
    ensures var files := SweepFiles(single, listing, d[Root].Keys);
      var st := Organize(p, logging, d, ledger, single, listing).0;
      forall k :: 0 <= k < |files| ==>
        && files[k] in d[Root]
        && FileIn(p, st.dirs, Classify(files[k]), files[k], d[Root][files[k]])
  {
    var files := SweepFiles(single, listing, d[Root].Keys);
    var st0 := State(d, ledger, []);
    assert SweepStart(st0, files);
    var run := RunPrefix(p, Classify, st0, files, |files|);
    var st := Organize(p, logging, d, ledger, single, listing).0;
    assert forall f :: f in run.st.dirs && f != Root ==> f in st.dirs && st.dirs[f] == run.st.dirs[f];
    SweepPlacesFilesIn(p, Classify, st0, files, st.dirs);
  }

  /** A regular file called `Others` in the root makes every full
      `organize_files` sweep raise `FileExists`, whatever else the root
      holds: the flush is never reached. */
  lemma OrganizeFailsOnOthersFile(p: Policy, logging: bool, d: Dirs, ledger: seq<Record>,
                                  single: Option<string>, listing: seq<string>)
    requires WellFormed(d) && Root in d && IsSweep(single) && IsListing(listing, d)
    requires Others in d[Root]
    ensures var (_, outcome) := Organize(p, logging, d, ledger, single, listing);
      outcome.Fail? && outcome.error.FileExists?
  {
    var files := SweepFiles(single, listing, d[Root].Keys);
    var st0 := State(d, ledger, []);
    assert SweepStart(st0, files);
    ClassifyOthersName(Others);
    OthersFileStopsSweep(p, Classify, st0, files);
    RunErrorIsBlockedFolder(p, Classify, st0, files, |files|);
  }
}
