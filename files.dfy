/** The part of the operating system the updater touches: a map from paths to
    file contents, plus the paths whose read or write the OS refuses. The pure
    functions give the outcome of each call on a snapshot (`Disk`); the class
    `FileSystem` is the mutable filesystem whose methods perform them. */
module Files {
  import opened Bytes
  import opened Paths

  datatype Option<T> = None | Some(value: T)

  /** The cause of a failed OS call (FileNotFoundError, PermissionError and the
      other OSErrors, shutil.SameFileError). */
  datatype OsError =
    | NotFound(path: Path)
    | AccessDenied(path: Path)
    | SameFile(path: Path)

  datatype Result<T> = Ok(value: T) | Err(error: OsError)

  /** A snapshot of the filesystem: what each existing file holds, which files
      cannot be read and which paths cannot be written. */
  datatype Disk = Disk(files: map<Path, seq<byte>>, unreadable: set<Path>, unwritable: set<Path>)

  /** `p.read_bytes()`. */
  function Read(d: Disk, p: Path): Result<seq<byte>> {
    if p !in d.files then Err(NotFound(p))
    else if p in d.unreadable then Err(AccessDenied(p))
    else Ok(d.files[p])
  }

  /** `p.write_bytes(content)`: creates or truncates the file. */
  function Write(d: Disk, p: Path, content: seq<byte>): Result<Disk> {
    if p in d.unwritable then Err(AccessDenied(p))
    else Ok(d.(files := d.files[p := content]))
  }

  /** `shutil.copy2(src, dst)`, content only: refuses to copy a file onto
      itself, then reads `src` and writes its bytes to `dst`. */
  function Copy(d: Disk, src: Path, dst: Path): Result<Disk> {
    if src == dst then Err(SameFile(src))
    else match Read(d, src)
      case Err(e) => Err(e)
      case Ok(content) => Write(d, dst, content)
  }

  /** `p` exists and holds the same bytes in `d` and `d'`, or exists in neither. */
  predicate Unchanged(d: Disk, d': Disk, p: Path) {
    (p in d.files <==> p in d'.files) && (p in d.files ==> d.files[p] == d'.files[p])
  }

  class FileSystem {
    var files: map<Path, seq<byte>>
    const unreadable: set<Path>
    const unwritable: set<Path>

    function State(): Disk
      reads this
    {
      Disk(files, unreadable, unwritable)
    }

    constructor (files: map<Path, seq<byte>>, unreadable: set<Path>, unwritable: set<Path>)
      ensures State() == Disk(files, unreadable, unwritable)
    {
      this.files := files;
      this.unreadable := unreadable;
      this.unwritable := unwritable;
    }

    /** `p.exists()`. */
    method Exists(p: Path) returns (b: bool)
      ensures b <==> p in files
    {
      b := p in files;
    }

    method ReadBytes(p: Path) returns (r: Result<seq<byte>>)
      ensures r == Read(State(), p)
    {
      if p !in files {
        r := Err(NotFound(p));
      } else if p in unreadable {
        r := Err(AccessDenied(p));
      } else {
        r := Ok(files[p]);
      }
    }

    /** Writes `content` to `p`; on failure returns the error and leaves every
        file as it was. */
    method WriteBytes(p: Path, content: seq<byte>) returns (err: Option<OsError>)
      modifies this
      ensures match Write(old(State()), p, content)
        case Ok(d) => err == None && State() == d
        case Err(e) => err == Some(e) && State() == old(State())
    {
      if p in unwritable {
        err := Some(AccessDenied(p));
      } else {
        files := files[p := content];
        err := None;
      }
    }

    method Copy2(src: Path, dst: Path) returns (err: Option<OsError>)
      modifies this
      ensures match Copy(old(State()), src, dst)
        case Ok(d) => err == None && State() == d
        case Err(e) => err == Some(e) && State() == old(State())
    {
      if src == dst {
        return Some(SameFile(src));
      }
      var content := ReadBytes(src);
      if content.Err? {
        return Some(content.error);
      }
      err := WriteBytes(dst, content.value);
    }
  }
}
