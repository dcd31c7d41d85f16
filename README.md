# Export groups from artboards — a Dafny model

`export_groups_from_artboards.jsx` is a Photoshop batch script. It walks the open document. Each
top-level layer set is an *artboard*, and each layer set inside an artboard is a *group*. For every
group the script does the following:

- It skips a group tagged red that shows nothing.
- It isolates the group by hiding its sibling groups and any "Crop Mask" layer, then showing the
  group and its children.
- It records a group that still shows nothing as blank.
- Otherwise it writes the group as `<document folder>/Exported_Groups/<artboard>/<name>.png`. It
  does so only when no such file exists yet or when a fresh render has a different fingerprint.

Before the pass the script records every layer's visibility. In a `finally` it writes every flag
back, restores the ruler units and assembles a text report with the older report kept below a
divider.

The model has these modules, one file each:

- `Common` (common.dfy): `Option`, bytes, and the three states of a file (missing, unreadable,
  readable).
- `Tree` (layers.dfy): the layer tree as an immutable datatype with one visibility map beside it.
  It holds `isLayerEmpty` and `hasVisibleContent`.
- `Fingerprint` (fingerprint.dfy): the rolling 31-multiplier hash that `calculateMD5` computes,
  with its 32-bit truncation written out.
- `Naming` (naming.dfy): the file-name sanitiser, which works on UTF-16 code units as JavaScript
  strings do, and the export paths.
- `ExportCheck` (decision.dfy): the decision `shouldExportGroup` returns.
- `Snapshot` (snapshot.dfy): `storeVisibilities` / `storeTemp` as a capture of the tree, and the
  write-back loops as a fold.
- `Report` (report.dfy): the report text, and the loops that build it.
- `Pass` (pass.dfy): the main loop of lines 193-315 as pure step functions. The host calls are an
  oracle `Host`:
  - what a render produces;
  - whether `exportDocument` raises, for a given group and target path;
  - which flags an export leaves changed on the group's own layers.

  A raised error sets `failed`, and every later step leaves the state alone, as the `try` of line
  193 does when it goes to its `finally`.
- `Disk` (disk.dfy): what the pass does to the disk. Every file it changes is the PNG of a group it
  exported, holding that group's render, or a temporary render it removed.
- `Classification` (classification.dfy) and `Isolation` (isolation.dfy): what the pass promises.
  Each group is put into exactly one list, `exportedGroups` equals `modifiedGroups`, the crop
  comes back, the isolation shows and hides what it should, the red check reads stale flags, and
  the `finally` restores every flag.
- `Script` (script.dfy): the script as it runs.
  - `Document` is a class whose `visible` map and `cropBox` are changed in place.
  - `Preferences` holds the ruler units.
  - `ExportJob` holds the script's top-level arrays and the disk. Its methods push into those
    arrays and assign flags one at a time, like the source.
  - Each method is proved to leave exactly the state that the matching function of `Pass` gives.

Where the code and its written description differ, the model follows the code:

- The crop is restored only on the paths that finish normally. When the export raises, the crop
  stays at the artboard's bounds, and the `finally` does not put it back (`Pass.CheckGroup`,
  `Pass.ExportGroup`, `Classification.GroupStepRestoresCrop`).
- `hasVisibleContent` returns false as soon as any layer on the way down is hidden. A visible leaf
  under a hidden sub-group therefore does not count (`Tree.HiddenSubgroupHidesItsLeaves`).
- The artboard's folder name is used as it is. Only the group's name is sanitised
  (`Naming.GroupFilePath`).
- `groupInfo` is one object. It is pushed to `exportedGroups` before its `reason` is set, so both
  lists hold the entry with its reason. The model stores the same value in both lists.
- The red check of lines 238-239 runs before the group is isolated. It therefore reads the flags
  that earlier groups' isolation left. Once any sibling has been isolated, every later red group
  is hidden and is skipped whatever it contains (`Isolation.RedGroupAfterIsolatedSiblingIsSkipped`).
- The fingerprint is not MD5. It is `h := ToInt32(31·h + c)` over the file's bytes, and it has
  collisions (`Fingerprint.Collision`, `ExportCheck.CollisionHidesChange`).

## Model

| member | source | states |
|---|---|---|
| Tree.IsLayerEmpty | export_groups_from_artboards.jsx:170-177 | a layer is empty when its bounds cannot be read or are at most one unit wide or high; `Tree.HasVisibleContent` states that a visible art layer has content iff it is not empty |
| Tree.HasVisibleContent | export_groups_from_artboards.jsx:179-191 | false for a hidden layer; for a visible art layer, true iff it is not empty |
| Tree.AnyVisibleContentFindsChild | export_groups_from_artboards.jsx:183-188 | the loop over a group's children is true iff some child has visible content |
| Tree.VisibleGroupHasContentInAChild | export_groups_from_artboards.jsx:179-187 | a visible group has visible content iff some child has |
| Tree.VisibleContentHasWitness | export_groups_from_artboards.jsx:179-191 | a layer has visible content iff there is a path of visible layers from it down to a non-empty leaf |
| Tree.WitnessPath | export_groups_from_artboards.jsx:179-191 | a layer with visible content yields such a path |
| Tree.PathShowsContent | export_groups_from_artboards.jsx:179-191 | a path of visible layers to a non-empty leaf makes the layer have visible content |
| Tree.HiddenSubgroupHidesItsLeaves | export_groups_from_artboards.jsx:181-188 | on an example tree, a visible, non-empty leaf under a hidden sub-group gives a visible group no content (the general law is `Tree.VisibleContentHasWitness`) |
| Fingerprint.ToInt32 | export_groups_from_artboards.jsx:78 | `hash & hash` lands in the signed 32-bit range, is congruent to its input modulo 2^32, and leaves 32-bit values alone |
| Fingerprint.Step | export_groups_from_artboards.jsx:77-78 | one turn of the hash loop; stated by `Fingerprint.StepIsTimes31` |
| Fingerprint.HashFrom | export_groups_from_artboards.jsx:75-79 | the folded hash stays in the signed 32-bit range |
| Fingerprint.StepIsTimes31 | export_groups_from_artboards.jsx:77-78 | one step `((h << 5) - h) + c` then `& ` is `ToInt32(31·h + c)` |
| Fingerprint.HashFromIsTruncatedPoly | export_groups_from_artboards.jsx:75-79 | truncating after every step gives the truncation of the unbounded polynomial |
| Fingerprint.HashIsTruncatedPoly | export_groups_from_artboards.jsx:75-80 | the hash, starting at 0, is in the 32-bit range and equals the truncated polynomial |
| Fingerprint.Collision | export_groups_from_artboards.jsx:75-80 | the distinct contents "Aa" and "BB" have the same hash |
| Fingerprint.Hash | export_groups_from_artboards.jsx:75-80 | the fingerprint of a content is in the signed 32-bit range; `Fingerprint.HashIsTruncatedPoly` gives its closed form and `Fingerprint.Collision` shows it is not injective |
| Fingerprint.FileHash | export_groups_from_artboards.jsx:64-84 | null exactly for a missing or unreadable file, otherwise a 32-bit value; `Fingerprint.CalculateHash` computes it |
| Fingerprint.CalculateHash | export_groups_from_artboards.jsx:64-84 | the loop computes the file's fingerprint; a missing or unreadable file gives null; a value is in the 32-bit range |
| Naming.Sanitize | export_groups_from_artboards.jsx:276 | as many characters as the name has UTF-16 code units; every character is in `[A-Za-z0-9_]` |
| Naming.SanitizeBmp | export_groups_from_artboards.jsx:276 | for a name with no character above U+FFFF: same length, alphanumerics kept in place, every other character becomes one `_` |
| Naming.SanitizeConcat | export_groups_from_artboards.jsx:276 | the replacement acts character by character: the name of a concatenation is the concatenation of the names |
| Naming.SanitizeSurrogatePair | export_groups_from_artboards.jsx:276 | "a" followed by U+1F600 becomes "a__": a character outside the Basic Multilingual Plane is two code units and leaves two `_` |
| Naming.SanitizeKeepsCleanNames | export_groups_from_artboards.jsx:276 | an alphanumeric name is left as it is |
| Naming.SanitizeIdempotent | export_groups_from_artboards.jsx:276 | sanitising twice equals sanitising once |
| Naming.SanitizeExample | export_groups_from_artboards.jsx:276 | "Hero/1!" becomes "Hero_1_" |
| Naming.ExportFolder | export_groups_from_artboards.jsx:23 | the export folder next to the document; stated by `Script.ExportJob.constructor` |
| Naming.GroupFilePath | export_groups_from_artboards.jsx:276-277 | the PNG path of a group; its properties are stated by `Naming.GroupFileIsInArtboardFolder` and `Naming.TempIsNoGroupFile` |
| Naming.NoSlashInFileName | export_groups_from_artboards.jsx:276-277 | a sanitised name followed by ".png" contains no `/` |
| Naming.GroupFileIsInArtboardFolder | export_groups_from_artboards.jsx:276-277 | a group's PNG is `<folder>/<artboard>/` followed by a file name without `/` that ends in ".png", whatever the group is called |
| Naming.TempIsNoGroupFile | export_groups_from_artboards.jsx:116-117 | a group's temporary path is never the PNG path of any group, so removing it cannot remove an exported file |
| ExportCheck.ReasonText | export_groups_from_artboards.jsx:92-153 | the three reason strings of `shouldExportGroup`; which one a decision carries is stated by `ExportCheck.Decide` |
| ExportCheck.Decide | export_groups_from_artboards.jsx:87-154 | a missing file gives export with "New file"; otherwise export iff the fingerprints differ; the reason is "Content modified" exactly for a differing existing file and "No changes" exactly when nothing is exported |
| ExportCheck.SameContentIsUnchanged | export_groups_from_artboards.jsx:149-153 | rendering the same bytes again is "No changes" |
| ExportCheck.UnreadableOnBothSidesIsUnchanged | export_groups_from_artboards.jsx:149-153 | two null fingerprints compare equal, so an unreadable file is kept |
| ExportCheck.CollisionHidesChange | export_groups_from_artboards.jsx:149-153 | a changed render with the same fingerprint is reported as "No changes" |
| Snapshot.CaptureOf | export_groups_from_artboards.jsx:41-53 | the entries `storeVisibilities` records for one layer and its descendants; stated by `Snapshot.CaptureOfFollowsPreOrder` |
| Snapshot.Capture | export_groups_from_artboards.jsx:41-53 | the entries recorded for a forest; stated by `Snapshot.CaptureFollowsPreOrder`, `Snapshot.CaptureCovers` and `Snapshot.CaptureConcat` |
| Snapshot.Restored | export_groups_from_artboards.jsx:56-61 | the flags after writing a snapshot back in order; stated by `Snapshot.RestoreGivesBack` and `Snapshot.RestoreAfterCapture` |
| Snapshot.CaptureConcat | export_groups_from_artboards.jsx:41-53 | capturing two forests in turn gives the entries of the first, then the second |
| Snapshot.CaptureFollowsPreOrder | export_groups_from_artboards.jsx:41-53 | the snapshot has one entry per layer, in pre-order, with that layer's flag |
| Snapshot.CaptureOfFollowsPreOrder | export_groups_from_artboards.jsx:41-53 | the same for one layer and its descendants |
| Snapshot.RestoreGivesBack | export_groups_from_artboards.jsx:56-61 | writing a snapshot back sets each recorded layer to its recorded flag and leaves the rest |
| Snapshot.CaptureCovers | export_groups_from_artboards.jsx:41-53 | the snapshot records exactly the layers of the tree, each with its current flag |
| Snapshot.RestoreAfterCapture | export_groups_from_artboards.jsx:41-61 | capture then restore gives back the captured flags, whatever changed in between |
| Snapshot.RestoreUndoesChangesBelow | export_groups_from_artboards.jsx:99-146 | capture of a group's descendants then restore undoes any change made only to those descendants |
| Report.Line | export_groups_from_artboards.jsx:344-366 | one entry line of a section; stated by `Report.LineIsOneLine` and `Report.ReadyMarkOnlyOnGreenModified` |
| Report.Lines | export_groups_from_artboards.jsx:343-366 | the lines of a section's entries, in order; stated by `Report.SectionCountMatchesLines` and `Report.AppendLines` |
| Report.ReportBody | export_groups_from_artboards.jsx:333-366 | the new report text; stated by `Report.SectionCountMatchesLines` and `Report.BuildReport` |
| Report.WithHistory | export_groups_from_artboards.jsx:369-373 | the new text followed by the earlier report; stated by `Report.ReportKeepsHistory` |
| Report.Decimal | export_groups_from_artboards.jsx:343 | a count as JavaScript prints it; stated by `Report.DecimalRoundTrip` |
| Report.Preamble | export_groups_from_artboards.jsx:334-341 | the title and the system information lines; part of `Report.ReportBody`, built by `Report.BuildReport` |
| Report.DecimalRoundTrip | export_groups_from_artboards.jsx:343 | a count is written as a non-empty string of digits, with no leading zero, that reads back as the count |
| Report.ReportKeepsHistory | export_groups_from_artboards.jsx:369-373 | a non-empty earlier report follows the new body after the dashed divider and is a suffix; an empty one adds nothing |
| Report.ReadyMarkOnlyOnGreenModified | export_groups_from_artboards.jsx:344-349 | a line carries " (Ready)" iff it is in the modified section and its group is green |
| Report.LineIsOneLine | export_groups_from_artboards.jsx:344-366 | every entry line of a group without line breaks in its names is exactly one line |
| Report.SectionCountMatchesLines | export_groups_from_artboards.jsx:343-366 | each header's count equals the number of lines in its section |
| Report.AppendLines | export_groups_from_artboards.jsx:344-349 | the `report +=` loop appends the lines of the section's entries, in order |
| Report.BuildReport | export_groups_from_artboards.jsx:333-373 | the built text is the report body, followed by the earlier report as stated by WithHistory |
| Pass.ShouldExportRestoresState | export_groups_from_artboards.jsx:95-146 | `shouldExportGroup` leaves every flag as it found it; it raises iff the file exists and the export to the temporary path fails; the crop comes back unless it raised; only the temporary file changes, and it is removed; when it raised, no file changes |
| Pass.CheckGroup | export_groups_from_artboards.jsx:87-154 | the state `shouldExportGroup` leaves; stated by `Pass.ShouldExportRestoresState` |
| Pass.ExportGroup | export_groups_from_artboards.jsx:282-306 | the export of a changed group; stated by `Disk.WriteExplained`, `Classification.CheckAndExportClassifies` and `Classification.CheckAndExportKeepsConsistent` |
| Pass.CheckAndExport | export_groups_from_artboards.jsx:275-311 | compare, then export or keep as `ExportCheck.Decide` says; stated by `Classification.CheckAndExportClassifies`, `Classification.CheckAndExportKeepsConsistent` and `Classification.CheckAndExportRestoresCrop` |
| Pass.ArtboardIsolated | export_groups_from_artboards.jsx:216-222 | the flags after isolating an artboard; stated by `Isolation.ArtboardIsolationShowsOnlyArtboard` and `Script.Document.IsolateArtboard` |
| Pass.GroupIsolated | export_groups_from_artboards.jsx:245-267 | the flags after isolating a group; stated by `Isolation.GroupIsolationShowsGroup`, `Isolation.GroupIsolationHidesSiblings`, `Isolation.GroupIsolationStaysInArtboard` and `Script.Document.IsolateGroup` |
| Pass.RedAndEmpty | export_groups_from_artboards.jsx:237-243 | the red check against the current flags; stated by `Classification.GroupStepSkipsAndBlanks`, `Isolation.RedGroupAfterIsolatedSiblingIsSkipped` and `Classification.GroupStepKeepsConsistent` (skipped entries are red) |
| Pass.Info | export_groups_from_artboards.jsx:231-235 | the entry recorded for a group: its name, its artboard's name and its colour; stated by `Classification.CheckAndExportClassifies` and `Classification.PassClassifiesEveryGroupOnce` |
| Pass.GroupStep | export_groups_from_artboards.jsx:226-312 | one group; stated by `Classification.GroupStepSkipsAndBlanks`, `Classification.GroupStepClassifies`, `Classification.GroupStepKeepsConsistent`, `Isolation.GroupStepStaysInArtboard`, `Isolation.GroupStepHidesOtherGroups` `Disk.GroupStepTouchesOwnPaths` and `Disk.GroupStepExplained` |
| Pass.PassGroups | export_groups_from_artboards.jsx:225-313 | the loop over an artboard; stated by `Classification.PassGroupsClassifies`, `Isolation.PassGroupsStaysInArtboard`, `Isolation.LaterGroupsStayHidden` and `Disk.PassGroupsExplained` |
| Pass.ArtboardStep | export_groups_from_artboards.jsx:196-314 | one top-level layer; stated by `Classification.ArtboardStepClassifies`, `Isolation.ArtboardStepKeepsLayers` and `Disk.ArtboardStepExplained` |
| Pass.PassLayers | export_groups_from_artboards.jsx:195-315 | the whole pass; stated by `Classification.PassClassifiesEveryGroupOnce`, `Isolation.FinallyRestoresEveryFlag` and `Disk.PassTouchesOnlyExportedFiles` |
| Pass.PassGroupsStopsAtFailure | export_groups_from_artboards.jsx:193-316 | once a group's step raised, the rest of the artboard's loop changes nothing |
| Pass.PassLayersStopsAtFailure | export_groups_from_artboards.jsx:193-316 | once a step raised, the rest of the top-level loop changes nothing |
| Classification.CheckAndExportClassifies | export_groups_from_artboards.jsx:275-311 | unless the host raised: when `Decide` says export, the group's entry with the decision's reason is appended to exported and modified and unchanged stays; otherwise it is appended to unchanged and exported and modified stay; blank and skipped never change; the lists only grow and the group's label is added exactly once |
| Classification.CheckAndExportKeepsConsistent | export_groups_from_artboards.jsx:275-311 | exporting or keeping the group keeps the lists consistent |
| Classification.CheckAndExportRestoresCrop | export_groups_from_artboards.jsx:280-306 | the crop comes back, or stays at the artboard's bounds when an export raised |
| Classification.GroupStepClassifies | export_groups_from_artboards.jsx:226-312 | one step only appends, and puts a group child into exactly one of the four lists, and a non-group child into none, unless it raised |
| Classification.GroupStepSkipsAndBlanks | export_groups_from_artboards.jsx:237-273 | a red group with no content at the flags the step starts from goes to skipped, before isolation; otherwise a group with no content once isolated goes to blank, with the isolated flags; in both cases nothing else changes, so no file is written; when the step does not raise, skipped grows iff the group is red and empty, and blank grows iff it is not red and empty and has no content once isolated |
| Classification.GroupStepKeepsConsistent | export_groups_from_artboards.jsx:226-312 | exported equals modified; modified entries carry "New file" or "Content modified", unchanged ones "No changes"; blank and skipped ones have no reason, and skipped ones are red |
| Classification.GroupStepRestoresCrop | export_groups_from_artboards.jsx:282-306 | a step leaves the crop as it found it, or at the artboard's bounds when it raised |
| Classification.PassGroupsClassifies | export_groups_from_artboards.jsx:225-313 | the loop over an artboard adds exactly its groups to the lists, or a part of them when it raised |
| Classification.PassGroupsExtends | export_groups_from_artboards.jsx:225-313 | the loop over an artboard only appends to the lists |
| Classification.PassGroupsKeepsConsistent | export_groups_from_artboards.jsx:225-313 | the loop keeps the lists consistent |
| Classification.PassGroupsRestoresCrop | export_groups_from_artboards.jsx:225-313 | the loop leaves the crop as it found it, or at the artboard's bounds when it raised |
| Classification.ArtboardStepClassifies | export_groups_from_artboards.jsx:196-314 | one top-level layer adds exactly the groups of an artboard, and nothing for a non-group, keeping the lists consistent |
| Classification.PassLayersClassifies | export_groups_from_artboards.jsx:195-315 | the top-level loop adds exactly the groups of every artboard, and keeps the crop unless it raised |
| Classification.PassClassifiesEveryGroupOnce | export_groups_from_artboards.jsx:195-315 | from empty lists, every group child of every artboard ends in exactly one list, and nothing else does; exported equals modified; the crop comes back; after a raise, a part of them is classified |
| Disk.KeptExplained | export_groups_from_artboards.jsx:225-313 | a path a step leaves alone keeps its explanation while the exported list grows |
| Disk.WriteExplained | export_groups_from_artboards.jsx:298-303 | writing a group's render to its PNG and recording it as exported keeps every changed file explained |
| Disk.RemoveExplained | export_groups_from_artboards.jsx:116-137 | removing a group's temporary render keeps every changed file explained |
| Disk.GroupStepTouchesOwnPaths | export_groups_from_artboards.jsx:226-312 | one step leaves every file other than its group's PNG and that PNG's temporary render as it was |
| Disk.GroupStepExplained | export_groups_from_artboards.jsx:226-312 | one step changes no file but its own group's PNG and temporary render; and it keeps every changed file of the document explained: an exported group's PNG holding its render, or a temporary render now missing |
| Disk.PassGroupsExplained | export_groups_from_artboards.jsx:225-313 | the loop over an artboard's children changes no file but the PNGs and temporary renders of the groups among them, and keeps every changed file explained |
| Disk.ArtboardStepExplained | export_groups_from_artboards.jsx:196-314 | one top-level layer changes no file unless it is an artboard, and then only the PNGs and temporary renders of its groups; it keeps every changed file explained |
| Disk.PassLayersExplained | export_groups_from_artboards.jsx:195-315 | the loop over the top-level layers changes no file but the PNGs and temporary renders of the groups of those artboards, and keeps every changed file explained |
| Disk.PassTouchesOnlyExportedFiles | export_groups_from_artboards.jsx:193-315 | whether or not the host raised, every file whose state changed is the PNG of an exported group of the document and holds that group's render, or is a temporary render that is now missing; every file that appeared is such a PNG |
| Isolation.ArtboardIsolationShowsOnlyArtboard | export_groups_from_artboards.jsx:216-222 | the artboard is the only visible top-level layer, and nothing below the top level changes |
| Isolation.GroupIsolationStaysInArtboard | export_groups_from_artboards.jsx:245-267 | isolating a group changes flags only inside the current artboard |
| Isolation.GroupIsolationShowsGroup | export_groups_from_artboards.jsx:257-267 | the group is visible, so is each child not named "Crop Mask", and a "Crop Mask" child keeps its flag |
| Isolation.GroupIsolationHidesSiblings | export_groups_from_artboards.jsx:245-255 | every other group and every "Crop Mask" of the artboard is hidden; top-level layers keep their flags |
| Isolation.GroupStepStaysInArtboard | export_groups_from_artboards.jsx:226-312 | a whole step, exports included, changes flags only inside the current artboard |
| Isolation.PassGroupsStaysInArtboard | export_groups_from_artboards.jsx:225-313 | the loop over an artboard changes flags only inside it |
| Isolation.ArtboardStaysOnlyVisibleTopLayer | export_groups_from_artboards.jsx:216-313 | throughout the loop over its groups, the artboard stays the only visible top-level layer |
| Isolation.GroupStepHidesOtherGroups | export_groups_from_artboards.jsx:245-255 | after a step that isolates, every sibling group is hidden; a hidden sibling group stays hidden |
| Isolation.PassGroupsKeepsLaterGroupsHidden | export_groups_from_artboards.jsx:225-313 | one more turn of the loop keeps every later sibling group hidden, when the child it handles is isolated or those siblings were hidden already |
| Isolation.LaterGroupsStayHidden | export_groups_from_artboards.jsx:225-313 | once one group was isolated, every later sibling group is hidden when its turn comes |
| Isolation.RedGroupAfterIsolatedSiblingIsSkipped | export_groups_from_artboards.jsx:237-243 | after an earlier sibling was isolated, a red group is skipped whatever it contains, and nothing else changes |
| Isolation.ArtboardStepKeepsLayers | export_groups_from_artboards.jsx:196-314 | one top-level step neither adds nor drops a layer's flag |
| Isolation.PassLayersKeepsLayers | export_groups_from_artboards.jsx:195-315 | the whole pass neither adds nor drops a layer's flag |
| Isolation.FinallyRestoresEveryFlag | export_groups_from_artboards.jsx:316-318 | whatever the pass did, and whether or not it raised, writing back the snapshot gives back every original flag |
| Script.Document.WriteBack | export_groups_from_artboards.jsx:56-61 | the loop leaves the flags the snapshot fold gives |
| Script.Document.IsolateArtboard | export_groups_from_artboards.jsx:216-222 | the two assignments leave the flags of the artboard isolation |
| Script.Document.IsolateGroup | export_groups_from_artboards.jsx:245-267 | the loops leave the flags of the group isolation |
| Script.Document.HideAmong | export_groups_from_artboards.jsx:246-255 | the loop hides exactly the groups and "Crop Mask" layers among the artboard's children |
| Script.Document.ShowGroup | export_groups_from_artboards.jsx:257-267 | the loop shows exactly the group and its children not named "Crop Mask" |
| Script.ExportJob.constructor | export_groups_from_artboards.jsx:23-33 | the export folder is `<document path>/Exported_Groups`, and every list starts empty |
| Script.ExportJob.StoreVisibilities | export_groups_from_artboards.jsx:41-53 | the recursive walk appends the capture of the tree to the snapshot |
| Script.ExportJob.RestoreVisibilities | export_groups_from_artboards.jsx:56-61 | every entry of the snapshot is written back |
| Script.ExportJob.StoreTemp | export_groups_from_artboards.jsx:99-110 | the walk appends the capture of the group's descendants |
| Script.ExportJob.ExportDocument | export_groups_from_artboards.jsx:131 | the host raises iff the oracle says exporting this group to this target fails, and then changes nothing; otherwise it writes the render to the target and leaves the flags the oracle gives |
| Script.ExportJob.ShouldExportGroup | export_groups_from_artboards.jsx:87-154 | leaves the state `Pass.CheckGroup` gives, and returns the decision of `ExportCheck.Decide` |
| Script.ExportJob.ProcessGroup | export_groups_from_artboards.jsx:226-312 | leaves the state of `Pass.GroupStep`, and keeps a flag for every layer |
| Script.ExportJob.CheckAndExportGroup | export_groups_from_artboards.jsx:275-311 | leaves the state of `Pass.CheckAndExport` |
| Script.ExportJob.ProcessArtboard | export_groups_from_artboards.jsx:196-314 | leaves the state of `Pass.ArtboardStep` |
| Script.ExportJob.ProcessLayers | export_groups_from_artboards.jsx:195-315 | leaves the state of `Pass.PassLayers` |
| Script.ExportJob.ProcessLayersThenRestore | export_groups_from_artboards.jsx:193-318 | leaves the crop, files and lists of `Pass.PassLayers`, and every flag as it was before the pass |
| Script.ExportJob.Run | export_groups_from_artboards.jsx:18-373 | every flag and the ruler units come back; the snapshot is the capture of the tree; crop, files and lists are those of `Pass.PassLayers`; the report is their body with the earlier report kept; `raised` is true iff the host raised, the error the `finally` passes on |

## Left out

- Folder creation (lines 22-26, 210-214) is left out: the folders are host I/O and decide nothing.
- Reading and writing the report file (lines 323-331, 375-379) is not modelled. The earlier report
  arrives as the text `existingReport` ("" when there is none), and the new text is returned.
- The temporary file is modelled as an entry of the file map that the export writes and that the
  script then removes. File-system errors on removal are not modelled.
- `systemInfo` (lines 9-16) reads the clock, the environment and the host version. It is a
  parameter of opaque strings.
- `alert` (lines 381-389), including the message shown when no document is open, is UI only and is
  left out.
- `ExportOptionsSaveForWeb` (lines 122-128, 289-295) and the PNG encoder are host code. A render is
  the oracle `Host.render`, and a failing export is `Host.fails`, which depends on the group and the
  target path, so the temporary export and the final one fail independently.
- `doc.crop` is modelled as setting the crop box to the artboard's bounds. Photoshop's real
  cropping of pixels is not modelled.
- Pass.CheckGroup: `doc.crop` (line 120) is modelled as never raising, so only `exportDocument`
  can end the pass inside `shouldExportGroup`.
- Pass.ExportGroup: `doc.crop` (line 287) is modelled as never raising, so only `exportDocument`
  can end the pass inside the export.
- Classification.CheckAndExportRestoresCrop: "at the artboard's bounds when it raised" rests on
  `doc.crop` never raising.
- Classification.GroupStepRestoresCrop: the same, for one step.
- Classification.PassGroupsRestoresCrop: the same, for the loop over an artboard.
- Script.ExportJob.Run: the error that leaves the `finally` block is returned as `raised`; the
  script's own caller, which would see the exception, is not modelled.
- Bounds are reals. JavaScript's floating-point arithmetic and the unit objects (`.value`) are not
  modelled.
- A file's characters are bytes 0..255. `charCodeAt` on a BINARY-read file gives those byte values,
  and UTF-16 code units beyond a byte are not modelled.
- `hash.toString()` is left out. The fingerprint is compared as an integer, and decimal printing is
  injective, so the comparison is the same.
- `getGroupColor` returning null on an exception is modelled as a group whose colour is `None`.
- `artboardCount` (lines 37, 200) is counted but never read, and is left out.
- `Script.ExportJob.ExportDocument`: a render is a function of the group alone. Whether Photoshop's
  output depends on other state, such as the crop, is not modelled.
- The ruler units are saved, set to pixels and restored. What they change in the host is not
  modelled.
