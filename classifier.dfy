/** Extension-based classification against the fixed `FILE_TYPES` table. */
module Classifier {
  import opened Base
  import opened Names

  datatype Category = Category(name: string, extensions: seq<string>)

  /** `FILE_TYPES`, in its definition order. */
  const FileTypes: seq<Category> := [
    Category("Documents", [".pdf", ".doc", ".docx", ".txt", ".rtf", ".odt", ".ppt", ".pptx", ".xls", ".xlsx"]),
    Category("Images", [".jpg", ".jpeg", ".png", ".gif", ".bmp", ".tiff", ".svg"]),
    Category("Videos", [".mp4", ".mkv", ".avi", ".mov", ".flv", ".wmv", ".mpeg"])
  ]

  /** The catch-all folder for unmatched extensions. */
  const Others: string := "Others"

  /** The lowercased extension, dot included, exactly as the sweep takes it:
      empty, or a dot followed by no further dot. */
  function Extension(file: string): (r: string)
    ensures |r| == |SplitExt(file).1|
    ensures r == [] || (r[0] == '.' && '.' !in r[1..])
  {
    Lower(SplitExt(file).1)
  }

  /** Index of the first category of `table`, from `from` on, whose list holds `ext`. */
  function FirstMatch(table: seq<Category>, ext: string, from: nat): (r: Option<nat>)
    requires from <= |table|
    ensures r.Some? ==> from <= r.value < |table| && ext in table[r.value].extensions
    ensures r.Some? ==> forall j :: from <= j < r.value ==> ext !in table[j].extensions
    ensures r.None? ==> forall j :: from <= j < |table| ==> ext !in table[j].extensions
    decreases |table| - from
  {
    if from == |table| then None
    else if ext in table[from].extensions then Some(from)
    else FirstMatch(table, ext, from + 1)
  }

  /** The destination category of a file: always one of the table's
      categories or `Others`. */
  function Classify(file: string): (r: string)
    ensures r == Others || exists i :: 0 <= i < |FileTypes| && r == FileTypes[i].name
  {
    match FirstMatch(FileTypes, Extension(file), 0)
    case Some(i) => FileTypes[i].name
    case None => Others
  }

  /** A file goes to the first category in table order whose list holds its
      lowercased extension, and to `Others` exactly when no list holds it. */
  lemma ClassifyFirstMatch(file: string)
    ensures Classify(file) == Others <==>
      forall j :: 0 <= j < |FileTypes| ==> Extension(file) !in FileTypes[j].extensions
    ensures Classify(file) != Others ==> exists i :: (0 <= i < |FileTypes| && Classify(file) == FileTypes[i].name &&
      Extension(file) in FileTypes[i].extensions &&
      forall j :: 0 <= j < i ==> Extension(file) !in FileTypes[j].extensions)
  {
  }

  lemma DocumentsNotImages(e: string)
    requires e in FileTypes[0].extensions
    ensures e !in FileTypes[1].extensions
  {
  }

  lemma DocumentsNotVideos(e: string)
    requires e in FileTypes[0].extensions
    ensures e !in FileTypes[2].extensions
  {
  }

  lemma ImagesNotVideos(e: string)
    requires e in FileTypes[1].extensions
    ensures e !in FileTypes[2].extensions
  {
  }

  /** No extension is listed under two categories of the table. */
  lemma TableDisjoint(i: nat, j: nat, e: string)
    requires i < j < |FileTypes|
    requires e in FileTypes[i].extensions
    ensures e !in FileTypes[j].extensions
  {
    if i == 0 && j == 1 { DocumentsNotImages(e); }
    else if i == 0 { DocumentsNotVideos(e); }
    else { ImagesNotVideos(e); }
  }

  /** Because the table is disjoint, a file is classified under a category
      exactly when that category lists its extension. */
  lemma ClassifyExactlyOne(file: string, i: nat)
    requires i < |FileTypes|
    ensures Classify(file) == FileTypes[i].name <==> Extension(file) in FileTypes[i].extensions
  {
    var e := Extension(file);
    var c := Classify(file);
    ClassifyFirstMatch(file);
    if e in FileTypes[i].extensions {
      forall j | 0 <= j < i ensures e !in FileTypes[j].extensions {
        if e in FileTypes[j].extensions { TableDisjoint(j, i, e); }
      }
      assert c != Others;
      var k :| 0 <= k < |FileTypes| && c == FileTypes[k].name && e in FileTypes[k].extensions &&
        forall j :: 0 <= j < k ==> e !in FileTypes[j].extensions;
      assert k == i;
    }
    if c == FileTypes[i].name {
      assert c != Others;
      var k :| 0 <= k < |FileTypes| && c == FileTypes[k].name && e in FileTypes[k].extensions &&
        forall j :: 0 <= j < k ==> e !in FileTypes[j].extensions;
      assert FileTypes[k].name == FileTypes[i].name;
      assert k == i;
    }
  }

  /** A file without an extension is never matched by the table. */
  lemma ClassifyWithoutExtension(file: string)
    requires SplitExt(file).1 == []
    ensures Classify(file) == Others
  {
    assert Extension(file) == [];
    assert forall j :: 0 <= j < |FileTypes| ==> [] !in FileTypes[j].extensions;
    ClassifyFirstMatch(file);
  }

  /** Case is ignored: an upper-case extension is classified like its
      lower-case form. (Worked cases take the name as a parameter so that the
      verifier does not unfold the classifier on a literal.) */
  lemma ClassifyIgnoresCase(doc: string)
    requires doc == "REPORT.PDF"
    ensures Classify(doc) == "Documents"
  {
    assert doc == "REPORT" + ".PDF" && "REPORT"[0] != '.';
    SplitExtOf("REPORT", ".PDF");
    assert Lower(".PDF") == ".pdf";
    ClassifyExactlyOne(doc, 0);
  }

  /** Only the last extension counts. */
  lemma ClassifyLastExtension(video: string)
    requires video == "notes.txt.mp4"
    ensures Classify(video) == "Videos"
  {
    assert video == "notes.txt" + ".mp4" && "notes.txt"[0] != '.';
    SplitExtOf("notes.txt", ".mp4");
    assert Lower(".mp4") == ".mp4";
    ClassifyExactlyOne(video, 2);
  }

  /** `str.lower` maps U+212A KELVIN SIGN to `k`, so a name ending in
      `.m\U{212A}v` is a video. */
  lemma ClassifyKelvinSign(video: string)
    requires video == "m.m\U{212A}v"
    ensures Classify(video) == "Videos"
  {
    assert video == "m" + ".m\U{212A}v" && "m"[0] != '.';
    SplitExtOf("m", ".m\U{212A}v");
    assert Lower(".m\U{212A}v") == ".mkv";
    ClassifyExactlyOne(video, 2);
  }

  /** An extension no category lists goes to `Others`, even when an earlier
      extension in the name is listed. */
  lemma ClassifyUnlisted(tarball: string)
    requires tarball == "report.pdf.gz"
    ensures Classify(tarball) == Others
  {
    assert tarball == "report.pdf" + ".gz" && "report.pdf"[0] != '.';
    SplitExtOf("report.pdf", ".gz");
    assert Lower(".gz") == ".gz";
    assert forall j :: 0 <= j < |FileTypes| ==> ".gz" !in FileTypes[j].extensions;
    ClassifyFirstMatch(tarball);
  }

  /** A leading dot does not start an extension, so a dotfile is unmatched. */
  lemma ClassifyDotfile(dotfile: string)
    requires dotfile == ".bashrc"
    ensures Classify(dotfile) == Others
  {
    SplitExtDotfile(dotfile);
    ClassifyWithoutExtension(dotfile);
  }

  /** The persistent log is an ordinary `.txt` file to the classifier. */
  lemma ClassifyLog(log: string)
    requires log == "organizer_log.txt"
    ensures Classify(log) == "Documents"
  {
    assert log == "organizer_log" + ".txt" && "organizer_log"[0] != '.';
    SplitExtOf("organizer_log", ".txt");
    assert Lower(".txt") == ".txt";
    ClassifyExactlyOne(log, 0);
  }

  /** A file called `Others` has no extension, so it belongs in `Others`. */
  lemma ClassifyOthersName(others: string)
    requires others == Others
    ensures Classify(others) == Others
  {
    SplitExtNoDot(others);
    ClassifyWithoutExtension(others);
  }
}
