/** Result and error types shared by every part of the organizer model. */
module Base {

  datatype Option<T> = None | Some(value: T)

  /** The exceptions the organizing engine can raise, one constructor per
      distinct failure of the code. */
  datatype Error =
    /** the target folder does not exist (`organize_files`, or `open` of the log) */
    | DirectoryNotFound
    /** `os.makedirs(..., exist_ok=True)` on a name held by a regular file */
    | FileExists(name: string)
    /** `open(log, "a")` where a folder of that name exists */
    | IsADirectory(name: string)
    /** `undo_last_action` with an empty ledger */
    | NothingToUndo
    /** `shutil.move` whose source file is gone */
    | SourceMissing(folder: string, name: string)
    /** `shutil.move` into the root when the root already holds the name */
    | DestinationExists(name: string)

  datatype Result<T> = Ok(value: T) | Err(error: Error)

  /** Outcome of an operation that returns nothing but may raise. */
  datatype Outcome = Pass | Fail(error: Error)
}
