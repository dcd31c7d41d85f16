/**
 * The outcome of `shouldExportGroup` (lines 87-154) as a function of the two files it
 * looks at: the PNG already on disk and the temporary PNG the host renders for comparison.
 * The visibility and crop bookkeeping around the render belongs to `Script.Document`.
 */
module ExportCheck {
  import opened Common
  import opened Fingerprint

  datatype Reason = NewFile | ContentModified | NoChanges

  /** The reason as it is written into the report. */
  function ReasonText(r: Reason): string
  {
    match r
    case NewFile => "New file"
    case ContentModified => "Content modified"
    case NoChanges => "No changes"
  }

  datatype Decision = Decision(shouldExport: bool, reason: Reason)

  /**
   * No file yet: export it as new. Otherwise export exactly when the fingerprints of the
   * existing and the freshly rendered file differ; two nulls compare equal.
   */
  function Decide(existing: FileState, rendered: FileState): (d: Decision)
    ensures existing.Missing? ==> d == Decision(true, NewFile)
    ensures !existing.Missing? ==> (d.shouldExport <==> FileHash(existing) != FileHash(rendered))
    ensures d.reason == ContentModified <==> !existing.Missing? && d.shouldExport
    ensures d.reason == NoChanges <==> !d.shouldExport
  {
    if existing.Missing? then Decision(true, NewFile)
    else if FileHash(existing) != FileHash(rendered) then Decision(true, ContentModified)
    else Decision(false, NoChanges)
  }

  /** Rendering the same bytes again is recognised as no change. */
  lemma SameContentIsUnchanged(content: seq<Byte>)
    ensures Decide(Readable(content), Readable(content)) == Decision(false, NoChanges)
  {
  }

  /**
   * An existing file that cannot be read is never replaced when the render cannot be read
   * either: both fingerprints are null.
   */
  lemma UnreadableOnBothSidesIsUnchanged(rendered: FileState)
    requires !rendered.Readable?
    ensures Decide(Unreadable, rendered) == Decision(false, NoChanges)
  {
  }

  /** A fingerprint collision hides a real change: "Aa" on disk, "BB" rendered. */
  lemma CollisionHidesChange()
    ensures var aa: seq<Byte>, bb: seq<Byte> := [65, 97], [66, 66];
      aa != bb && Decide(Readable(aa), Readable(bb)) == Decision(false, NoChanges)
  {
    Collision();
  }
}
