/** Paths as `pathlib` builds them, and the fixed layout of the five files the
    updater reads and writes inside an install tree. */
module Paths {

  /** A path split the way `pathlib` splits it: the anchor (drive and root)
      and the names below it. */
  datatype Path = Path(anchor: string, parts: seq<string>)

  /** `p / name` for a single name. */
  function Join(p: Path, name: string): Path {
    Path(p.anchor, p.parts + [name])
  }

  /** `p.parent`; the parent of a bare anchor is the anchor itself. */
  function Parent(p: Path): Path {
    if p.parts == [] then p else Path(p.anchor, p.parts[..|p.parts| - 1])
  }

  /** `p` lies strictly inside the directory `dir`. */
  predicate IsUnder(p: Path, dir: Path) {
    p.anchor == dir.anchor && |dir.parts| < |p.parts| && p.parts[..|dir.parts|] == dir.parts
  }

  /** The attributes `WindowsUpdater.__init__` computes from the install root. */
  datatype Layout = Layout(
    base: Path,
    top: Path,
    sourceUpdater: Path,
    sourceBat: Path,
    destUpdater: Path,
    destBat: Path,
    destBatDeps: Path)

  /** The directory shipping the new updater: `base/.ci/update_windows`. */
  function SourceDir(base: Path): Path {
    Join(Join(base, ".ci"), "update_windows")
  }

  /** The directory of the installed updater: `base.parent/update`. */
  function DestDir(base: Path): Path {
    Join(Parent(base), "update")
  }

  /** No two of the five files coincide. */
  predicate Distinct(l: Layout) {
    && l.sourceUpdater != l.sourceBat
    && l.sourceUpdater != l.destUpdater && l.sourceUpdater != l.destBat && l.sourceUpdater != l.destBatDeps
    && l.sourceBat != l.destUpdater && l.sourceBat != l.destBat && l.sourceBat != l.destBatDeps
    && l.destUpdater != l.destBat && l.destUpdater != l.destBatDeps
    && l.destBat != l.destBatDeps
  }

  /** The layout of an install rooted at `base`: both sources lie in
      `base/.ci/update_windows`, all three destinations lie in
      `base.parent/update`, and no two of the five paths coincide, so no
      write aimed at a destination can reach a source. */
  function LayoutOf(base: Path): (l: Layout)
    ensures l.base == base && l.top == Parent(base)
    ensures IsUnder(l.sourceUpdater, SourceDir(base)) && IsUnder(l.sourceBat, SourceDir(base))
    ensures IsUnder(l.destUpdater, DestDir(base)) && IsUnder(l.destBat, DestDir(base))
    ensures IsUnder(l.destBatDeps, DestDir(base))
    ensures Distinct(l)
  {
    var top := Parent(base);
    var src := SourceDir(base);
    var dst := Join(top, "update");
    Layout(
      base,
      top,
      Join(src, "update.py"),
      Join(src, "update_comfyui.bat"),
      Join(dst, "update.py"),
      Join(dst, "update_comfyui.bat"),
      Join(dst, "update_comfyui_and_python_dependencies.bat"))
  }
}
