/** The local file system as the tools see it: a map from path to what reading
    that path yields. A path is a key exactly when `Path::exists` holds of it. */
module Files {
  import opened Wrappers

  newtype byte = x: int | 0 <= x < 256

  /** Reading an existing path either yields its bytes or fails with the
      operating system's message (permission denied, not valid UTF-8 for a
      text read, an I/O error). */
  datatype FileEntry = ReadOk(bytes: seq<byte>) | ReadErr(detail: string)

  type FileSystem = map<string, FileEntry>

  /** The message of the error reading a path that does not exist. */
  const NotFoundDetail: string := "No such file or directory (os error 2)"

  /** `Path::exists`. */
  predicate Exists(fs: FileSystem, path: string)
  {
    path in fs
  }

  /** `fs::read` (and `fs::read_to_string`, whose text the tools turn straight
      back into bytes). */
  function Read(fs: FileSystem, path: string): (r: Result<seq<byte>>)
    ensures r.Ok? <==> Exists(fs, path) && fs[path].ReadOk?
    ensures r.Ok? ==> r.value == fs[path].bytes
    ensures !Exists(fs, path) ==> r == Err(NotFoundDetail)
    ensures Exists(fs, path) && fs[path].ReadErr? ==> r == Err(fs[path].detail)
  {
    if path !in fs then Err(NotFoundDetail)
    else match fs[path]
      case ReadOk(b) => Ok(b)
      case ReadErr(e) => Err(e)
  }
}
