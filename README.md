# Windows standalone updater migration, modelled in Dafny

ComfyUI's Windows standalone package carries an updater (`update/update.py`
and `update/update_comfyui.bat`) one directory above the ComfyUI install.
When that updater predates the new scheme, `WindowsUpdater.update()` replaces
it with the copies shipped in `<install>/.ci/update_windows/`, and rewrites the
legacy invocation in the optional `update_comfyui_and_python_dependencies.bat`.
This project models that migration and proves what it does to the files.

- `bytes.dfy` (module `Bytes`): byte strings, `startswith`, and
  `bytes.replace` / `bytes.count` with their leftmost, non-overlapping scan,
  including the empty-pattern case.
- `paths.dfy` (module `Paths`): `pathlib`-style paths (anchor plus names),
  `/`, `.parent`, and `LayoutOf`, the five paths `__init__` computes.
- `files.dfy` (module `Files`): the filesystem as a `Disk` value: a map from
  paths to bytes, the set of paths whose read fails and the set whose write
  fails. It gives the pure meaning of `read_bytes`, `write_bytes` and
  `shutil.copy2`, and a class `FileSystem` whose `files` map the methods
  update in place.
- `updater.dfy` (module `Updater`): the three byte constants; one function
  per step (`Validation`, `Content`, `Eligible`, `PatchDependencies`,
  `CopyBoth`, `UpdateRun`) giving that step's outcome and resulting disk; the
  class `WindowsUpdater`, whose methods mirror the Python methods one for one,
  change the `FileSystem` step by step, and are each proved equal to their
  function; and `UpdateWindowsUpdater`. Exceptions are replaced by values:
  `UpdaterError` is `SourceMissing(path)` or `CopyFailed(cause)`, and
  `update()` returns a bool together with an `Outcome`
  (`NotNeeded`, `Failed(error)` or `Updated(patchStatus)`). The `Outcome`
  stands in for the printed diagnostics.
- `properties.dfy` (module `UpdaterProperties`): lemmas over every disk and
  every install root.

Two behaviours of the code are worth stating up front:

- A second run right after a successful one does nothing only when the
  shipped `update_comfyui.bat` does not itself start with the legacy prefix;
  `SecondRunIsNoOp` carries that hypothesis.
- A refused write of the dependency batch file only prints a warning;
  `update()` still returns True, recorded as `Updated(DepsWriteFailed)`.

## Model

| member | source | states |
|---|---|---|
| `Paths.LayoutOf` | new_updater.py:21-30 | both sources lie under `base/.ci/update_windows`, all three destinations lie under `base.parent/update`, and the five paths are pairwise distinct, so no destination write can reach a source |
| `Updater.WindowsUpdater.constructor` | new_updater.py:21-30 | the updater's paths are the layout of the given install root |
| `Updater.WindowsUpdater.ValidatePaths` | new_updater.py:32-37 | returns no error exactly when both sources exist; otherwise it names the updater source if that one is missing, else the batch source |
| `Updater.WindowsUpdater.ReadFileContent` | new_updater.py:39-44 | returns the file's bytes when it exists and can be read, and None for every read error |
| `Updater.WindowsUpdater.WriteFileContent` | new_updater.py:46-53 | returns True and stores the bytes when the path can be written; otherwise returns False and changes nothing |
| `Updater.WindowsUpdater.ShouldUpdate` | new_updater.py:55-60 | equals the gate `Eligible`: the installed batch file is readable and starts with the legacy prefix |
| `Updater.WindowsUpdater.UpdateDependenciesFile` | new_updater.py:62-69 | skips an absent or unreadable dependency file; otherwise writes back its `replace(OLD, NEW)` rewrite, and a refused write leaves the file and the result's success alone |
| `Updater.WindowsUpdater.CopyFiles` | new_updater.py:71-77 | copies the updater, then the batch file; the first failed copy stops the step with `CopyFailed`, keeping what the first copy did |
| `Updater.WindowsUpdater.Update` | new_updater.py:79-95 | performs validate, gate, copy and patch in that order, ending in exactly the outcome and disk of `UpdateRun`; returns True exactly for `Updated`, and no error escapes |
| `Updater.UpdateWindowsUpdater` | new_updater.py:98-105 | builds the updater for the given root and returns what its `update()` returns, with the same effect on the files |
| `UpdaterProperties.OldContentStartsWithPrefix` | new_updater.py:17-18 | the legacy invocation that is patched out starts with the eligibility prefix |
| `UpdaterProperties.EligibleIff` | new_updater.py:55-60 | the gate is yes exactly when the installed batch file exists, is readable and starts with the prefix; absent or unreadable gives no |
| `UpdaterProperties.MissingSourceWritesNothing` | new_updater.py:79-95 | with a source missing, the run fails with `SourceMissing`, naming the updater source first, and leaves the disk unchanged |
| `UpdaterProperties.IneligibleWritesNothing` | new_updater.py:84-85 | with both sources present and the gate no, the run reports `NotNeeded` and leaves the disk unchanged |
| `UpdaterProperties.WritesOnlyDestinations` | new_updater.py:62-77 | whatever the outcome, every path other than the three destinations, both sources included, is unchanged |
| `UpdaterProperties.UpdatedIff` | new_updater.py:79-91 | the run succeeds exactly when both sources exist and are readable, the gate is yes, and both primary destinations are writable; the dependency file plays no part |
| `UpdaterProperties.UpdatedContents` | new_updater.py:62-91 | after success, `dest_updater` and `dest_bat` hold the sources' bytes; the dependency file holds its patched bytes, or is unchanged when absent, unreadable or unwritable |
| `UpdaterProperties.CopyFailureLeavesDependencies` | new_updater.py:71-77 | a failed copy leaves the dependency file and `dest_bat` untouched; `dest_updater` is either untouched or already holds the new updater |
| `UpdaterProperties.SecondCopyFailureIsPartial` | new_updater.py:73-77 | when the first copy succeeds and the second fails, because `source_bat` cannot be read or `dest_bat` cannot be written, the run fails with that access error and the disk differs from the original only in `dest_updater`, which holds the new updater |
| `UpdaterProperties.SecondRunIsNoOp` | new_updater.py:79-91 | after a successful run that installed a batch file without the legacy prefix, a second run reports `NotNeeded` and writes nothing |
| `UpdaterProperties.PatchWithoutLegacyIsIdentity` | new_updater.py:68-69 | dependency content without the legacy invocation is written back byte-identical |
| `UpdaterProperties.PatchedLength` | new_updater.py:18-19 | each replaced invocation shortens the dependency file by 21 bytes (52 minus 31) |
| `UpdaterProperties.LegacyInstallScenario` | new_updater.py:79-91 | a legacy install whose dependency file holds the invocation once ends updated: both files copied, the one occurrence replaced, and every other byte kept |
| `Bytes.ReplaceLength` | new_updater.py:68 | `len(s.replace(p, r)) == len(s) + s.count(p) * (len(r) - len(p))` |
| `Bytes.CountZero` | new_updater.py:68 | the number of replacements is zero exactly when the pattern does not occur |
| `Bytes.ReplaceAbsent` | new_updater.py:68 | `replace` returns its input unchanged when the pattern does not occur |
| `Bytes.ReplaceSingle` | new_updater.py:68 | when the pattern occurs only once, at a known position, `replace` substitutes that occurrence and keeps every other byte |
| `Files.FileSystem.Exists` | new_updater.py:34-36 | `exists()` is True exactly for paths that hold a file |
| `Files.FileSystem.ReadBytes` | new_updater.py:42 | `read_bytes()` returns the file's bytes, or fails with not-found or access-denied |
| `Files.FileSystem.WriteBytes` | new_updater.py:49 | `write_bytes()` creates or replaces the file unless the path is unwritable, in which case it fails and changes nothing |
| `Files.FileSystem.Copy2` | new_updater.py:74-75 | `copy2()` fails on copying a file onto itself, on an unreadable source or on an unwritable destination, changing nothing; otherwise the destination gets the source's bytes |

## Left out

- `check_pytorch.py` and `disable_fp8.py` are not part of this model. They only query or reconfigure the torch runtime, and there is no state to verify.
- The module-level `base_path` (new_updater.py:6) comes from the script's own location. Here the install root is a parameter of `UpdateWindowsUpdater`.
- `Files.FileSystem.Copy2`: models content only. The timestamps and permission bits that `copy2` preserves are not modelled.
- `Files.FileSystem.WriteBytes`, `Files.FileSystem.Copy2`: a write or copy either completes or changes nothing. A file left truncated by a write that fails halfway is not modelled.
- `Files.FileSystem.Exists`: never fails. In Python, `exists()` can raise on some stat errors, such as a permission error on the directory. That exception would escape `update()`.
- Directories are not modelled. A missing parent directory is modelled as an unwritable path. A destination that is an existing directory is not modelled: reading it fails, and `copy2` would copy into it (`update/update.py/update.py`) and succeed.
- Paths are compared as written. Symbolic links, `..` segments and the case-insensitive comparison of Windows paths are not modelled.
- The printed diagnostics are not modelled. `Outcome`, `UpdaterError` and `PatchStatus` carry the same information as values.
- Python's exception classes are not modelled. They are collapsed into `OsError`: not-found, access-denied and same-file.
- `Bytes.Literal`: maps each character to its code modulo 256. This is exact for the ASCII-only byte literals of the source.
- Concurrent access to the install tree is not modelled. The updater runs once, single-threaded, at start-up.
