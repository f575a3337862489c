/** The move ledger (`moved_files_log`) and the persistent log it is
    flushed to. */
module Ledger {
  import opened Base
  import opened FileSystem

  /** One completed move: the file's name in its category folder, and the category. */
  datatype Record = Record(file: string, category: string)

  /** The log file's name inside the target root. */
  const LogName: string := "organizer_log.txt"

  /** `f"Moved: {file} → {category}\n"` */
  function LogLine(r: Record): (line: string)
    ensures |line| == |r.file| + |r.category| + 11
    ensures line[|line| - 1] == '\n'
  {
    "Moved: " + r.file + " \U{2192} " + r.category + "\n"
  }

  /** A log line can be read back: the file name follows `Moved: ` and the
      category ends just before the newline. */
  lemma LogLineFields(r: Record)
    ensures var line := LogLine(r);
      && line[..7] == "Moved: " && line[7..7 + |r.file|] == r.file
      && line[7 + |r.file|..10 + |r.file|] == " \U{2192} "
      && line[|line| - 1 - |r.category|..|line| - 1] == r.category
  {
  }

  /** The text `save_log` writes for a ledger: one line per record, in order. */
  function LogText(records: seq<Record>): (text: string)
    ensures records == [] <==> text == ""
    ensures records != [] ==> text[|text| - 1] == '\n'
  {
    if records == [] then "" else LogLine(records[0]) + LogText(records[1..])
  }

  /** Writing a ledger in two parts writes the same text as writing it at once. */
  lemma {:induction false} LogTextAppend(a: seq<Record>, b: seq<Record>)
    ensures LogText(a + b) == LogText(a) + LogText(b)
  {
    if a == [] {
      assert a + b == b;
    } else {
      assert (a + b)[1..] == a[1..] + b;
      LogTextAppend(a[1..], b);
    }
  }

  /** Each further record adds its own line at the end. */
  lemma LogTextSnoc(a: seq<Record>, r: Record)
    ensures LogText(a + [r]) == LogText(a) + LogLine(r)
  {
    LogTextAppend(a, [r]);
    var line := LogLine(r);
    assert [r][1..] == [];
    assert LogText([r]) == line + LogText([]);
    assert line + "" == line;
  }

  /** Writing the record at position `i` extends the text of the first `i` records. */
  lemma LogTextPrefixStep(records: seq<Record>, i: nat)
    requires i < |records|
    ensures LogText(records[..i + 1]) == LogText(records[..i]) + LogLine(records[i])
  {
    assert records[..i + 1] == records[..i] + [records[i]];
    LogTextSnoc(records[..i], records[i]);
  }

  /** The log file's content before an append: empty when it does not exist yet. */
  function LogContent(d: Dirs): Content
    requires Root in d
  {
    if LogName in d[Root] then d[Root][LogName] else ""
  }

  /** `save_log`'s effect on the filesystem: `open(log, "a")` creates the log
      or appends to it, and fails when the root is gone or a folder holds the
      log's name. */
  function FlushLog(d: Dirs, records: seq<Record>): (r: Result<Dirs>)
    requires WellFormed(d)
    ensures r.Err? <==> Root !in d || Sub(LogName) in d
    ensures r.Err? ==> r.error == (if Root !in d then DirectoryNotFound else IsADirectory(LogName))
    ensures r.Ok? ==> WellFormed(r.value) && r.value.Keys == d.Keys
    ensures r.Ok? ==> r.value[Root] == d[Root][LogName := LogContent(d) + LogText(records)]
    ensures r.Ok? ==> forall f :: f in d && f != Root ==> r.value[f] == d[f]
  {
    if Root !in d then Err(DirectoryNotFound)
    else if Sub(LogName) in d then Err(IsADirectory(LogName))
    else Ok(d[Root := d[Root][LogName := LogContent(d) + LogText(records)]])
  }

  /** Flushing twice writes every record once: the second flush of an emptied
      ledger only makes sure the log exists. */
  lemma FlushEmptyLedger(d: Dirs)
    requires WellFormed(d) && Root in d && Sub(LogName) !in d && LogName in d[Root]
    ensures FlushLog(d, []) == Ok(d)
  {
    assert LogText([]) == "";
    assert d[Root][LogName] + "" == d[Root][LogName];
    assert d[Root][LogName := d[Root][LogName]] == d[Root];
    assert d[Root := d[Root]] == d;
  }

  /** The process-wide `moved_files_log`, shared by every organizer. */
  class MoveLedger {
    var records: seq<Record>

    constructor ()
      ensures records == []
    {
      records := [];
    }
  }
}
