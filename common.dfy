/** Values shared by the three stages of the DMR pipeline: results, table cells and file handles. */
module Common {

  /** Outcome of a stage: a value, or the situation in which the Python code raises. */
  datatype Result<+T, +E> = Success(value: T) | Failure(error: E)

  /** One value of a table that pandas has parsed: a missing value (NaN), a text token or a number. */
  datatype Cell = Na | Text(s: string) | Num(x: real)

  /** Every row of a parsed table has as many cells as the first one. */
  predicate Rectangular(rows: seq<seq<Cell>>) {
    forall i :: 0 <= i < |rows| ==> |rows[i]| == |rows[0]|
  }

  /** A staged file: where it is written locally and where it is uploaded to. */
  datatype FileRef = FileRef(localPath: string, remotePath: string)

  /** A staged directory: its local path and its remote location. */
  datatype DirRef = DirRef(localPath: string, remotePath: string)

  /** A path that starts at the root, which `Path.resolve()` keeps as it is. */
  predicate Absolute(path: string) {
    |path| > 0 && path[0] == '/'
  }

  /**
   * `Path(rel).resolve()` taken against the working directory `workDir`: an absolute path is
   * kept, a relative one is appended to the working directory.
   */
  function Resolve(workDir: string, rel: string): string {
    if Absolute(rel) then rel else workDir + "/" + rel
  }

  /**
   * Text appended after a non-empty path is appended after its resolution too, and so is text
   * that does not start with a slash, even after an empty path.
   */
  lemma {:induction false} ResolveAppend(workDir: string, rel: string, tail: string)
    requires |rel| > 0 || !Absolute(tail)
    ensures Resolve(workDir, rel + tail) == Resolve(workDir, rel) + tail
  {
    if |rel| > 0 {
      assert (rel + tail)[0] == rel[0];
    } else {
      assert rel + tail == tail;
    }
  }
}
