/** What `update()` guarantees, stated over every filesystem snapshot and
    every install root. */
module UpdaterProperties {
  import opened Bytes
  import opened Paths
  import opened Files
  import opened Updater

  /** The legacy invocation that is patched out starts with the prefix that
      marks an installation as eligible. */
  lemma OldContentStartsWithPrefix()
    ensures StartsWith(OldContent, ExpectedBatPrefix)
  {
  }

  /** The gate reads only the installed batch file: yes exactly when it exists,
      can be read and starts with the legacy prefix. */
  lemma EligibleIff(d: Disk, base: Path)
    ensures var l := LayoutOf(base);
      Eligible(d, l) <==>
        l.destBat in d.files && l.destBat !in d.unreadable
        && StartsWith(d.files[l.destBat], ExpectedBatPrefix)
  {
  }

  /** A missing source stops the run before anything is written, and the
      error names the updater source when both are missing. */
  lemma MissingSourceWritesNothing(d: Disk, base: Path)
    requires LayoutOf(base).sourceUpdater !in d.files || LayoutOf(base).sourceBat !in d.files
    ensures var l := LayoutOf(base);
      UpdateRun(d, l) == Run(Failed(SourceMissing(
        if l.sourceUpdater !in d.files then l.sourceUpdater else l.sourceBat)), d)
  {
  }

  /** With both sources present, an ineligible installation is left as it is. */
  lemma IneligibleWritesNothing(d: Disk, base: Path)
    requires LayoutOf(base).sourceUpdater in d.files && LayoutOf(base).sourceBat in d.files
    requires !Eligible(d, LayoutOf(base))
    ensures UpdateRun(d, LayoutOf(base)) == Run(NotNeeded, d)
  {
  }

  /** The paths a run may write: the three destinations. */
  function Destinations(l: Layout): set<Path> {
    {l.destUpdater, l.destBat, l.destBatDeps}
  }

  /** Whatever the outcome, the run writes nothing but the three destinations
      (in particular never a source) and the OS's refusals stay as they were. */
  lemma WritesOnlyDestinations(d: Disk, base: Path, p: Path)
    requires p !in Destinations(LayoutOf(base))
    ensures var d' := UpdateRun(d, LayoutOf(base)).disk;
      Unchanged(d, d', p) && d'.unreadable == d.unreadable && d'.unwritable == d.unwritable
  {
  }

  /** The run reports success exactly when both sources exist and can be
      read, the installation is eligible and both primary destinations can
      be written. The dependency batch file plays no part. */
  lemma UpdatedIff(d: Disk, base: Path)
    ensures var l := LayoutOf(base);
      UpdateRun(d, l).outcome.Updated? <==>
        && l.sourceUpdater in d.files && l.sourceUpdater !in d.unreadable
        && l.sourceBat in d.files && l.sourceBat !in d.unreadable
        && Eligible(d, l)
        && l.destUpdater !in d.unwritable && l.destBat !in d.unwritable
  {
  }

  /** After a successful run both primary destinations hold their sources'
      bytes, and the dependency batch file holds its patched content, unless
      it was absent or unreadable (left alone) or could not be written (left
      alone, with a warning). */
  lemma UpdatedContents(d: Disk, base: Path)
    requires UpdateRun(d, LayoutOf(base)).outcome.Updated?
    ensures var l := LayoutOf(base);
      var r := UpdateRun(d, l);
      && l.sourceUpdater in d.files && l.sourceBat in d.files
      && l.destUpdater in r.disk.files && r.disk.files[l.destUpdater] == d.files[l.sourceUpdater]
      && l.destBat in r.disk.files && r.disk.files[l.destBat] == d.files[l.sourceBat]
      && match Content(d, l.destBatDeps)
         case None =>
           r.outcome.patch == DepsSkipped && Unchanged(d, r.disk, l.destBatDeps)
         case Some(c) =>
           if l.destBatDeps in d.unwritable then
             r.outcome.patch == DepsWriteFailed && Unchanged(d, r.disk, l.destBatDeps)
           else
             r.outcome.patch == DepsPatched && r.disk.files[l.destBatDeps] == Patched(c)
  {
  }

  /** A failed copy fails the run and never reaches the dependency batch file
      or the installed batch file; the installed updater either is untouched
      (the first copy failed) or already holds the new updater (the second
      copy failed). */
  lemma CopyFailureLeavesDependencies(d: Disk, base: Path)
    requires UpdateRun(d, LayoutOf(base)).outcome.Failed?
    requires UpdateRun(d, LayoutOf(base)).outcome.error.CopyFailed?
    ensures var l := LayoutOf(base);
      var d' := UpdateRun(d, l).disk;
      && l.sourceUpdater in d.files
      && Unchanged(d, d', l.destBat) && Unchanged(d, d', l.destBatDeps)
      && (d'.files == d.files || d'.files == d.files[l.destUpdater := d.files[l.sourceUpdater]])
  {
  }

  /** The second copy failing, on an unreadable shipped batch file or on a
      read-only installed one, leaves the new updater beside the old batch
      file. */
  lemma SecondCopyFailureIsPartial(d: Disk, base: Path)
    requires var l := LayoutOf(base);
      && l.sourceUpdater in d.files && l.sourceUpdater !in d.unreadable
      && l.sourceBat in d.files
      && (l.sourceBat in d.unreadable || l.destBat in d.unwritable)
      && Eligible(d, l) && l.destUpdater !in d.unwritable
    ensures var l := LayoutOf(base);
      var r := UpdateRun(d, l);
      && r.outcome == Failed(CopyFailed(AccessDenied(
           if l.sourceBat in d.unreadable then l.sourceBat else l.destBat)))
      && r.disk.files == d.files[l.destUpdater := d.files[l.sourceUpdater]]
  {
  }

  /** Once a run has copied a batch file that does not itself start with the
      legacy prefix, the next run finds the installation ineligible and
      writes nothing. */
  lemma SecondRunIsNoOp(d: Disk, base: Path)
    requires UpdateRun(d, LayoutOf(base)).outcome.Updated?
    requires LayoutOf(base).sourceBat in d.files
    requires !StartsWith(d.files[LayoutOf(base).sourceBat], ExpectedBatPrefix)
    ensures var d' := UpdateRun(d, LayoutOf(base)).disk;
      UpdateRun(d', LayoutOf(base)) == Run(NotNeeded, d')
  {
  }

  /** Patched content with no legacy invocation is byte-identical. */
  lemma PatchWithoutLegacyIsIdentity(content: seq<byte>)
    requires !Occurs(content, OldContent)
    ensures Patched(content) == content
  {
    ReplaceAbsent(content, OldContent, NewContent);
  }

  /** Each replaced legacy invocation shortens the file by 21 bytes. */
  lemma PatchedLength(content: seq<byte>)
    ensures |Patched(content)| + 21 * Count(content, OldContent) == |content|
  {
    ReplaceLength(content, OldContent, NewContent);
  }

  /** The end-to-end case: a legacy installation whose dependency batch file
      holds the legacy invocation once, with every file readable and
      writable, ends with the new updater and batch file and the invocation
      replaced in place, every other byte kept. */
  lemma LegacyInstallScenario(d: Disk, base: Path, before: seq<byte>, after: seq<byte>)
    requires var l := LayoutOf(base);
      && l.sourceUpdater in d.files && l.sourceBat in d.files
      && l.destBat in d.files && d.files[l.destBat] == OldContent
      && l.destBatDeps in d.files && d.files[l.destBatDeps] == before + OldContent + after
      && d.unreadable == {} && d.unwritable == {}
    requires forall i :: OccursAt(before + OldContent + after, OldContent, i) ==> i == |before|
    ensures var l := LayoutOf(base);
      var r := UpdateRun(d, l);
      && r.outcome == Updated(DepsPatched)
      && r.disk.files[l.destUpdater] == d.files[l.sourceUpdater]
      && r.disk.files[l.destBat] == d.files[l.sourceBat]
      && r.disk.files[l.destBatDeps] == before + NewContent + after
  {
    var l := LayoutOf(base);
    OldContentStartsWithPrefix();
    assert Eligible(d, l);
    UpdatedIff(d, base);
    UpdatedContents(d, base);
    ReplaceSingle(before, OldContent, after, NewContent);
  }
}
