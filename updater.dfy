/** The Windows standalone updater migration: replace a stale `update.py` and
    `update_comfyui.bat` one directory above the install with the copies
    shipped in `.ci/update_windows`, but only when the installed batch file
    still starts with the legacy invocation, then patch the legacy invocation
    out of the optional dependency batch file.

    The functions below give the outcome of each step on a `Disk` snapshot;
    the class `WindowsUpdater` performs the steps on a mutable `FileSystem`
    and is proved to do exactly what the functions say. */
module Updater {
  import opened Bytes
  import opened Paths
  import opened Files

  /** The start of an installed `update_comfyui.bat` that predates the new scheme. */
  const ExpectedBatPrefix: seq<byte> := Literal("..\\python_embeded\\python.exe .\\update.py")

  /** The legacy invocation in the dependency batch file ... */
  const OldContent: seq<byte> := Literal("..\\python_embeded\\python.exe .\\update.py ..\\ComfyUI\\")

  /** ... and what replaces it. */
  const NewContent: seq<byte> := Literal("call update_comfyui.bat nopause")

  /** `UpdaterError`: a missing source, or the OS error that stopped a copy. */
  datatype UpdaterError = SourceMissing(path: Path) | CopyFailed(cause: OsError)

  /** What became of the dependency batch file. */
  datatype PatchStatus =
    | DepsSkipped       // absent or unreadable: left alone
    | DepsPatched       // rewritten
    | DepsWriteFailed   // rewrite refused: a warning, not a failure

  /** What `update()` did; `update()` reports it only by its printed lines
      and by returning True exactly for `Updated`. */
  datatype Outcome = NotNeeded | Failed(error: UpdaterError) | Updated(patch: PatchStatus)

  datatype Step = Step(error: Option<UpdaterError>, disk: Disk)
  datatype Patch = Patch(status: PatchStatus, disk: Disk)
  datatype Run = Run(outcome: Outcome, disk: Disk)

  /** `_validate_paths`: the updater source is checked before the batch source. */
  function Validation(d: Disk, l: Layout): Option<UpdaterError> {
    if l.sourceUpdater !in d.files then Some(SourceMissing(l.sourceUpdater))
    else if l.sourceBat !in d.files then Some(SourceMissing(l.sourceBat))
    else None
  }

  /** `_read_file_content`: every read error reads as "no content". */
  function Content(d: Disk, p: Path): Option<seq<byte>> {
    match Read(d, p)
    case Ok(c) => Some(c)
    case Err(_) => None
  }

  /** `_should_update`: the installed batch file is readable and starts with
      the legacy prefix. */
  predicate Eligible(d: Disk, l: Layout) {
    match Content(d, l.destBat)
    case None => false
    case Some(c) => StartsWith(c, ExpectedBatPrefix)
  }

  /** The rewrite of the dependency batch file's content. */
  function Patched(content: seq<byte>): seq<byte> {
    Replace(content, OldContent, NewContent)
  }

  /** `_update_dependencies_file`. */
  function PatchDependencies(d: Disk, l: Layout): Patch {
    match Content(d, l.destBatDeps)
    case None => Patch(DepsSkipped, d)
    case Some(c) =>
      match Write(d, l.destBatDeps, Patched(c))
      case Ok(d') => Patch(DepsPatched, d')
      case Err(_) => Patch(DepsWriteFailed, d)
  }

  /** `_copy_files`: the updater first, then the batch file; the first failure
      stops the step and keeps whatever the first copy already did. */
  function CopyBoth(d: Disk, l: Layout): Step {
    match Copy(d, l.sourceUpdater, l.destUpdater)
    case Err(e) => Step(Some(CopyFailed(e)), d)
    case Ok(d1) =>
      match Copy(d1, l.sourceBat, l.destBat)
      case Err(e) => Step(Some(CopyFailed(e)), d1)
      case Ok(d2) => Step(None, d2)
  }

  /** `update()`: validate, gate, copy, patch. */
  function UpdateRun(d: Disk, l: Layout): Run {
    match Validation(d, l)
    case Some(e) => Run(Failed(e), d)
    case None =>
      if !Eligible(d, l) then Run(NotNeeded, d)
      else
        var c := CopyBoth(d, l);
        match c.error
        case Some(e) => Run(Failed(e), c.disk)
        case None =>
          var p := PatchDependencies(c.disk, l);
          Run(Updated(p.status), p.disk)
  }

  class WindowsUpdater {
    const paths: Layout
    const fs: FileSystem

    /** `__init__`: the five paths, from the install root. */
    constructor (basePath: Path, fs: FileSystem)
      ensures paths == LayoutOf(basePath) && this.fs == fs
    {
      paths := LayoutOf(basePath);
      this.fs := fs;
    }

    method ValidatePaths() returns (err: Option<UpdaterError>)
      ensures err == Validation(fs.State(), paths)
    {
      var found := fs.Exists(paths.sourceUpdater);
      if !found {
        return Some(SourceMissing(paths.sourceUpdater));
      }
      found := fs.Exists(paths.sourceBat);
      if !found {
        return Some(SourceMissing(paths.sourceBat));
      }
      err := None;
    }

    method ReadFileContent(p: Path) returns (content: Option<seq<byte>>)
      ensures content == Content(fs.State(), p)
    {
      var r := fs.ReadBytes(p);
      content := if r.Ok? then Some(r.value) else None;
    }

    /** Returns whether the write went through; a refused write changes nothing. */
    method WriteFileContent(p: Path, content: seq<byte>) returns (ok: bool)
      modifies fs
      ensures ok == Write(old(fs.State()), p, content).Ok?
      ensures fs.State() == if ok then Write(old(fs.State()), p, content).value else old(fs.State())
    {
      var err := fs.WriteBytes(p, content);
      ok := err.None?;
    }

    method ShouldUpdate() returns (b: bool)
      ensures b == Eligible(fs.State(), paths)
    {
      var content := ReadFileContent(paths.destBat);
      if content.None? {
        return false;
      }
      b := StartsWith(content.value, ExpectedBatPrefix);
    }

    method UpdateDependenciesFile() returns (status: PatchStatus)
      modifies fs
      ensures Patch(status, fs.State()) == PatchDependencies(old(fs.State()), paths)
    {
      var content := ReadFileContent(paths.destBatDeps);
      if content.None? {
        return DepsSkipped;
      }
      var updated := Patched(content.value);
      var ok := WriteFileContent(paths.destBatDeps, updated);
      status := if ok then DepsPatched else DepsWriteFailed;
    }

    method CopyFiles() returns (err: Option<UpdaterError>)
      modifies fs
      ensures Step(err, fs.State()) == CopyBoth(old(fs.State()), paths)
    {
      var e := fs.Copy2(paths.sourceUpdater, paths.destUpdater);
      if e.Some? {
        return Some(CopyFailed(e.value));
      }
      e := fs.Copy2(paths.sourceBat, paths.destBat);
      if e.Some? {
        return Some(CopyFailed(e.value));
      }
      err := None;
    }

    /** Returns True exactly when the files were copied; no error escapes. */
    method Update() returns (ok: bool, outcome: Outcome)
      modifies fs
      ensures Run(outcome, fs.State()) == UpdateRun(old(fs.State()), paths)
      ensures ok == outcome.Updated?
    {
      var err := ValidatePaths();
      if err.Some? {
        return false, Failed(err.value);
      }
      var eligible := ShouldUpdate();
      if !eligible {
        return false, NotNeeded;
      }
      err := CopyFiles();
      if err.Some? {
        return false, Failed(err.value);
      }
      var status := UpdateDependenciesFile();
      ok, outcome := true, Updated(status);
    }
  }

  /** `update_windows_updater`, with the install root passed in. */
  method UpdateWindowsUpdater(basePath: Path, fs: FileSystem) returns (ok: bool)
    modifies fs
    ensures ok == UpdateRun(old(fs.State()), LayoutOf(basePath)).outcome.Updated?
    ensures fs.State() == UpdateRun(old(fs.State()), LayoutOf(basePath)).disk
  {
    var updater := new WindowsUpdater(basePath, fs);
    var outcome;
    ok, outcome := updater.Update();
  }
}
