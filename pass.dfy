/**
 * The export pass of lines 193-315 as a function of the document's state: for every
 * layer set at the top level (an artboard), hide the other top-level layers, and for every
 * layer set inside it (a group) decide whether the group is skipped, blank, unchanged or
 * exported, isolating it first. The host calls are an oracle: what a render of a group
 * produces, whether exporting it raises, and what an export does to the visibility of
 * the group's own layers.
 *
 * A raised error ends the pass: `failed` is set and every later step returns the state
 * unchanged, as the `try` of line 193 leaves for its `finally`.
 */
module Pass {
  import opened Common
  import opened Tree
  import opened ExportCheck
  import opened Snapshot
  import opened Naming
  import opened Report

  /** What the host does when the script exports group `id`. */
  datatype Host = Host(
    render: LayerId -> FileState,       // the PNG a render of the isolated group produces
    fails: (LayerId, string) -> bool,   // `doc.exportDocument` raises writing this group to this path
    disturb: LayerId -> Visibility)     // flags the export may leave on the group's layers

  /** What the pass reads and changes: the document, the disk and the outcome lists. */
  datatype RunState = RunState(
    visible: Visibility,
    crop: Bounds,
    files: map<string, FileState>,
    exportedGroups: seq<GroupInfo>,
    modifiedGroups: seq<GroupInfo>,
    unchangedGroups: seq<GroupInfo>,
    blankGroups: seq<GroupInfo>,
    skippedGroups: seq<GroupInfo>,
    failed: bool)

  /** The state the pass starts from: empty lists (lines 29-33), nothing raised yet. */
  function Start(visible: Visibility, crop: Bounds, files: map<string, FileState>): RunState
  {
    RunState(visible, crop, files, [], [], [], [], [], false)
  }

  /** The children of a layer set; an art layer has none. */
  function Children(l: Layer): seq<Layer>
  {
    if l.LayerSet? then l.layers else []
  }

  function TopIds(top: seq<Layer>): set<LayerId>
  {
    set l | l in top :: l.id
  }

  // ---------------------------------------------------------------------------
  // Visibility changes
  // ---------------------------------------------------------------------------

  /** The flags after setting every layer of `ids` to hidden. */
  function HideAll(v: Visibility, ids: set<LayerId>): Visibility
  {
    map id | id in v :: if id in ids then false else v[id]
  }

  /** The flags after setting every layer of `ids` to visible. */
  function ShowAll(v: Visibility, ids: set<LayerId>): Visibility
  {
    map id | id in v :: if id in ids then true else v[id]
  }

  /** Lines 217-222: every top-level layer hidden, then the artboard shown. */
  function ArtboardIsolated(v: Visibility, top: seq<Layer>, a: Layer): Visibility
  {
    ShowAll(HideAll(v, TopIds(top)), {a.id})
  }

  /** The layers among `cs` that lines 246-255 hide: groups, and any "Crop Mask". */
  function HiddenAmong(cs: seq<Layer>): set<LayerId>
  {
    set c | c in cs && (c.LayerSet? || c.name == CropMask) :: c.id
  }

  /** The layers among `cs` that lines 260-266 show: all but a "Crop Mask". */
  function ShownAmong(cs: seq<Layer>): set<LayerId>
  {
    set c | c in cs && c.name != CropMask :: c.id
  }

  /** The children of the artboard that are hidden before a group is shown. */
  function HiddenForGroup(a: Layer): set<LayerId>
  {
    HiddenAmong(Children(a))
  }

  /** What lines 258-267 show: the group, and each of its children not named "Crop Mask". */
  function ShownForGroup(g: Layer): set<LayerId>
  {
    {g.id} + ShownAmong(Children(g))
  }

  /** Lines 246-267: hide, then show; a layer both hidden and shown ends up shown. */
  function GroupIsolated(v: Visibility, a: Layer, g: Layer): Visibility
  {
    ShowAll(HideAll(v, HiddenForGroup(a)), ShownForGroup(g))
  }

  /** Hiding one more layer, one assignment of `visible = false`. */
  lemma HideOneMore(v: Visibility, ids: set<LayerId>, x: LayerId)
    requires x in v
    ensures HideAll(v, ids)[x := false] == HideAll(v, ids + {x})
  {
  }

  /** Showing no layer leaves the flags as they were. */
  lemma ShowNone(v: Visibility)
    ensures ShowAll(v, {}) == v
  {
  }

  /** Showing one more layer, one assignment of `visible = true`. */
  lemma ShowOneMore(v: Visibility, ids: set<LayerId>, x: LayerId)
    requires x in v
    ensures ShowAll(v, ids)[x := true] == ShowAll(v, ids + {x})
  {
  }

  /** One more child of the artboard seen by the loop of lines 246-255. */
  lemma HiddenAmongSnoc(cs: seq<Layer>, c: Layer)
    ensures HiddenAmong(cs + [c]) == HiddenAmong(cs) + (if c.LayerSet? || c.name == CropMask then {c.id} else {})
  {
    assert forall x :: x in cs + [c] <==> x in cs || x == c;
  }

  /** One more child of the group seen by the loop of lines 260-266. */
  lemma ShownAmongSnoc(cs: seq<Layer>, c: Layer)
    ensures ShownAmong(cs + [c]) == ShownAmong(cs) + (if c.name != CropMask then {c.id} else {})
  {
    assert forall x :: x in cs + [c] <==> x in cs || x == c;
  }

  /** The flags an export of `g` leaves: `d` on the layers below `g`, nothing else touched. */
  function Disturbed(v: Visibility, g: Layer, d: Visibility): Visibility
  {
    map id | id in v :: if id in IdSet(Children(g)) && id in d then d[id] else v[id]
  }

  // ---------------------------------------------------------------------------
  // The steps
  // ---------------------------------------------------------------------------

  /**
   * The state after `shouldExportGroup` (lines 87-154). An absent target returns at once.
   * Otherwise the descendants' flags are captured, the canvas is cropped to the artboard,
   * a temporary PNG is exported next to the target, read and removed, the crop is put
   * back and the captured flags are written back. An export that raises leaves the crop
   * at the artboard's bounds and ends the pass.
   */
  function CheckGroup(s: RunState, g: Layer, path: string, artboard: Bounds, h: Host): RunState
  {
    if FileAt(s.files, path).Missing? then s
    else if h.fails(g.id, path + ".temp") then s.(crop := artboard, failed := true)
    else
      var temp := Capture(Children(g), s.visible);
      var during := Disturbed(s.visible, g, h.disturb(g.id));
      s.(visible := Restored(during, temp), files := s.files - {path + ".temp"})
  }

  /**
   * `shouldExportGroup` leaves the flags as it found them, whatever the export did to the
   * group's layers; it leaves the crop as it found it unless the export raised, and the
   * only file it leaves changed is the temporary one, which it removes.
   */
  lemma ShouldExportRestoresState(s: RunState, g: Layer, path: string, artboard: Bounds, h: Host)
    requires !s.failed && IdSet(Children(g)) <= s.visible.Keys
    ensures var r := CheckGroup(s, g, path, artboard, h);
      && r.visible == s.visible
      && (r.failed <==> !FileAt(s.files, path).Missing? && h.fails(g.id, path + ".temp"))
      && (!r.failed ==> r.crop == s.crop)
      && (r.failed ==> r.crop == artboard)
      && (r.failed ==> r.files == s.files)
      && (!r.failed ==> forall p :: p != path + ".temp" ==> FileAt(r.files, p) == FileAt(s.files, p))
      && (!r.failed ==> FileAt(r.files, path + ".temp") == Missing || FileAt(s.files, path).Missing?)
      && r.(visible := s.visible, crop := s.crop, files := s.files, failed := s.failed) == s
  {
    if !FileAt(s.files, path).Missing? && !h.fails(g.id, path + ".temp") {
      var during := Disturbed(s.visible, g, h.disturb(g.id));
      RestoreUndoesChangesBelow(Children(g), s.visible, during);
    }
  }

  /**
   * Lines 282-306: crop, export the group over its file, record it as exported and
   * modified with the decision's reason, restore the crop.
   */
  function ExportGroup(s: RunState, g: Layer, path: string, artboard: Bounds, entry: GroupInfo, h: Host): RunState
  {
    if h.fails(g.id, path) then s.(crop := artboard, failed := true)
    else s.(visible := Disturbed(s.visible, g, h.disturb(g.id)),
            files := s.files[path := h.render(g.id)],
            exportedGroups := s.exportedGroups + [entry],
            modifiedGroups := s.modifiedGroups + [entry])
  }

  /** The entry recorded for a group (lines 230-235); its reason is filled in later. */
  function Info(a: Layer, g: Layer): GroupInfo
  {
    GroupInfo(g.name, a.name, if g.LayerSet? then g.color else None, None)
  }

  /** The red check of lines 238-243, against the flags as the previous groups left them. */
  predicate RedAndEmpty(v: Visibility, g: Layer)
  {
    g.LayerSet? && g.color == Some(Red) && !HasVisibleContent(g, v)
  }

  /** One pass of the loop body of lines 226-312 for the child `g` of artboard `a`. */
  function GroupStep(s: RunState, a: Layer, artboard: Bounds, folder: string, g: Layer, h: Host): RunState
  {
    if !g.LayerSet? then s
    else if RedAndEmpty(s.visible, g) then s.(skippedGroups := s.skippedGroups + [Info(a, g)])
    else
      var isolated := s.(visible := GroupIsolated(s.visible, a, g));
      if !HasVisibleContent(g, isolated.visible) then isolated.(blankGroups := s.blankGroups + [Info(a, g)])
      else CheckAndExport(isolated, a, artboard, folder, g, h)
  }

  /**
   * Lines 275-311 for an isolated group with content: compare with its file, then export
   * it or record it as unchanged, with the reason of the comparison.
   */
  function CheckAndExport(s: RunState, a: Layer, artboard: Bounds, folder: string, g: Layer, h: Host): RunState
  {
    var path := GroupFilePath(folder, a.name, g.name);
    var decision := Decide(FileAt(s.files, path), h.render(g.id));
    var checked := CheckGroup(s, g, path, artboard, h);
    var entry := Info(a, g).(reason := Some(decision.reason));
    if checked.failed then checked
    else if decision.shouldExport then ExportGroup(checked, g, path, artboard, entry, h)
    else checked.(unchangedGroups := checked.unchangedGroups + [entry])
  }

  /** The loop of line 225 over the children `cs` of artboard `a`, in order. */
  function PassGroups(s: RunState, a: Layer, artboard: Bounds, folder: string, cs: seq<Layer>, h: Host): RunState
    decreases |cs|
  {
    if cs == [] then s
    else
      var before := PassGroups(s, a, artboard, folder, cs[..|cs| - 1], h);
      if before.failed then before else GroupStep(before, a, artboard, folder, cs[|cs| - 1], h)
  }

  /**
   * One pass of the loop body of lines 196-314 for the top-level layer `a`: reading the
   * bounds of an artboard raises when they cannot be read.
   */
  function ArtboardStep(s: RunState, top: seq<Layer>, folder: string, a: Layer, h: Host): RunState
  {
    if !a.LayerSet? then s
    else if a.bounds.None? then s.(failed := true)
    else
      PassGroups(s.(visible := ArtboardIsolated(s.visible, top, a)), a, a.bounds.value,
                 folder, a.layers, h)
  }

  /** The loop of line 195 over the top-level layers `ls` of the document `top`. */
  function PassLayers(s: RunState, top: seq<Layer>, folder: string, ls: seq<Layer>, h: Host): RunState
    decreases |ls|
  {
    if ls == [] then s
    else
      var before := PassLayers(s, top, folder, ls[..|ls| - 1], h);
      if before.failed then before else ArtboardStep(before, top, folder, ls[|ls| - 1], h)
  }

  /** One more child of the artboard: its step, unless the loop has raised already. */
  lemma PassGroupsSnoc(s: RunState, a: Layer, artboard: Bounds, folder: string, cs: seq<Layer>, c: Layer, h: Host)
    ensures var before := PassGroups(s, a, artboard, folder, cs, h);
      PassGroups(s, a, artboard, folder, cs + [c], h) ==
        if before.failed then before else GroupStep(before, a, artboard, folder, c, h)
  {
    assert (cs + [c])[..|cs|] == cs;
  }

  /** One more top-level layer, for a loop that has not raised yet. */
  lemma PassLayersSnoc(s: RunState, top: seq<Layer>, folder: string, ls: seq<Layer>, l: Layer, h: Host)
    requires !PassLayers(s, top, folder, ls, h).failed
    ensures PassLayers(s, top, folder, ls + [l], h) == ArtboardStep(PassLayers(s, top, folder, ls, h), top, folder, l, h)
  {
    assert (ls + [l])[..|ls|] == ls;
  }

  /** Once a step has raised, the rest of the loop over an artboard's children changes nothing. */
  lemma {:induction false} PassGroupsStopsAtFailure(s: RunState, a: Layer, artboard: Bounds, folder: string,
                                                    cs: seq<Layer>, n: nat, h: Host)
    requires n <= |cs| && PassGroups(s, a, artboard, folder, cs[..n], h).failed
    ensures PassGroups(s, a, artboard, folder, cs, h) == PassGroups(s, a, artboard, folder, cs[..n], h)
    decreases |cs| - n
  {
    if n < |cs| {
      assert cs[..n + 1][..n] == cs[..n];
      PassGroupsStopsAtFailure(s, a, artboard, folder, cs, n + 1, h);
    } else {
      assert cs[..n] == cs;
    }
  }

  /** Once a step has raised, the rest of the loop over the top-level layers changes nothing. */
  lemma {:induction false} PassLayersStopsAtFailure(s: RunState, top: seq<Layer>, folder: string,
                                                    ls: seq<Layer>, n: nat, h: Host)
    requires n <= |ls| && PassLayers(s, top, folder, ls[..n], h).failed
    ensures PassLayers(s, top, folder, ls, h) == PassLayers(s, top, folder, ls[..n], h)
    decreases |ls| - n
  {
    if n < |ls| {
      assert ls[..n + 1][..n] == ls[..n];
      PassLayersStopsAtFailure(s, top, folder, ls, n + 1, h);
    } else {
      assert ls[..n] == ls;
    }
  }
}
