/**
 * Model of examples/plushkin_helper/entities.py: the records the duplicate
 * scanner fills in. Equality of the datatypes below is field by field, as
 * for the dataclasses.
 */
module Entities {
  import opened Common

  /** A path, as its sequence of components. */
  type Path = seq<string>

  /** A calendar date (`datetime.date`). */
  datatype Date = Date(year: int, month: int, day: int)

  /** `File`: a frozen record; `created_at` defaults to `None`. */
  datatype File = File(path: Path, createdAt: Option<Date> := None)

  /** `DuplicatesData`: defaults to no files and size 0. */
  datatype DuplicatesData = DuplicatesData(files: seq<File> := [], size: int := 0)

  /** The fields of a `ScannerResponse`; two responses compare equal exactly
      when these values are equal. */
  datatype ScanReport = ScanReport(
    pathToDir: Path,
    filesScanned: int,
    foldersScanned: int,
    duplicatesFound: int,
    duplicates: seq<DuplicatesData>)

  /** `ScannerResponse`, whose counters and list the scanner updates in
      place. */
  class ScannerResponse {
    const pathToDir: Path
    var filesScanned: int
    var foldersScanned: int
    var duplicatesFound: int
    var duplicates: seq<DuplicatesData>

    /** The response's fields as a value. */
    function Report(): ScanReport
      reads this
    {
      ScanReport(pathToDir, filesScanned, foldersScanned, duplicatesFound, duplicates)
    }

    /** Only `path_to_dir` is required; the counters start at 0 and the list
        empty. */
    constructor(pathToDir: Path)
      ensures Report() == ScanReport(pathToDir, 0, 0, 0, [])
    {
      this.pathToDir := pathToDir;
      filesScanned := 0;
      foldersScanned := 0;
      duplicatesFound := 0;
      duplicates := [];
    }
  }
}
