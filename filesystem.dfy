/** The abstract filesystem the organizer works on: the target root and its
    immediate sub-folders, each a map from file name to file content. */
module FileSystem {
  import opened Base

  /** The target root, or the sub-folder of the root with the given name. */
  datatype Folder = Root | Sub(name: string)

  type Content = string

  /** A folder exists exactly when it is a key; its value maps the names of
      the regular files it holds to their contents. */
  type Dirs = map<Folder, map<string, Content>>

  /** Shape every real directory tree has: sub-folders only exist inside an
      existing root, and the root never holds a regular file and a
      sub-folder of the same name. */
  ghost predicate WellFormed(d: Dirs) {
    forall f :: f in d && f.Sub? ==> Root in d && f.name !in d[Root]
  }

  /** `os.path.isfile(folder/name)` */
  predicate IsFile(d: Dirs, f: Folder, name: string) {
    f in d && name in d[f]
  }

  /** `os.path.exists(root/name)`: a regular file or a sub-folder. */
  predicate ExistsInRoot(d: Dirs, name: string) {
    IsFile(d, Root, name) || Sub(name) in d
  }

  /** `os.makedirs(root/name, exist_ok=True)`: a no-op when the folder
      exists, an error when a regular file holds the name. */
  function MakeDirs(d: Dirs, name: string): (r: Result<Dirs>)
    requires Root in d && WellFormed(d)
    ensures r.Ok? <==> name !in d[Root]
    ensures r.Err? ==> r.error == FileExists(name)
    ensures r.Ok? ==> WellFormed(r.value) && r.value.Keys == d.Keys + {Sub(name)}
    ensures r.Ok? ==> forall f :: f in d ==> r.value[f] == d[f]
    ensures r.Ok? && Sub(name) !in d ==> r.value[Sub(name)] == map[]
  {
    if Sub(name) in d then Ok(d)
    else if name in d[Root] then Err(FileExists(name))
    else Ok(d[Sub(name) := map[]])
  }

  /** Creating a folder twice is the same as creating it once. */
  lemma MakeDirsIdempotent(d: Dirs, name: string)
    requires Root in d && WellFormed(d) && MakeDirs(d, name).Ok?
    ensures MakeDirs(MakeDirs(d, name).value, name) == MakeDirs(d, name)
  {
  }

  /** `os.remove(folder/name)` */
  function RemoveFile(d: Dirs, f: Folder, name: string): (r: Dirs)
    requires IsFile(d, f, name) && WellFormed(d)
    ensures WellFormed(r) && r.Keys == d.Keys
    ensures r[f] == d[f] - {name}
    ensures forall g :: g in d && g != f ==> r[g] == d[g]
  {
    d[f := d[f] - {name}]
  }

  /** `shutil.move(from/name, to/newName)` between two distinct existing
      folders; an existing file at the destination is overwritten. */
  function MoveFile(d: Dirs, from: Folder, name: string, to: Folder, newName: string): (r: Dirs)
    requires IsFile(d, from, name) && to in d && from != to && WellFormed(d)
    requires to == Root ==> Sub(newName) !in d
    ensures WellFormed(r) && r.Keys == d.Keys
    ensures r[from] == d[from] - {name}
    ensures r[to] == d[to][newName := d[from][name]]
    ensures forall g :: g in d && g != from && g != to ==> r[g] == d[g]
  {
    var moved := d[from := d[from] - {name}];
    moved[to := moved[to][newName := d[from][name]]]
  }
}
