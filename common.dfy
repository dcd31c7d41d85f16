/** Small value types shared by the modules of the export model. */
module Common {

  /** A value that may be absent: the script's `null`. */
  datatype Option<+T> = None | Some(value: T)

  /** One byte of a file read with the BINARY encoding (a character code 0..255). */
  type Byte = b: int | 0 <= b < 256

  /** The three states in which the script can find a file on disk. */
  datatype FileState =
    | Missing                        // `file.exists` is false
    | Unreadable                     // the file exists but opening or reading it raises
    | Readable(content: seq<Byte>)   // the bytes `file.read()` returns

  /** The state of `path` on a disk given as the map of the files it holds. */
  function FileAt(disk: map<string, FileState>, path: string): FileState
  {
    if path in disk then disk[path] else Missing
  }
}
