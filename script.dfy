/**
 * The script as it runs: the open document and the host preferences are objects whose
 * fields it updates in place, and the export job holds the arrays the script's top-level
 * variables hold (the visibility snapshot, the five outcome lists) together with the files
 * it can see on disk. Every method is proved to leave exactly the state the reference
 * semantics of the pass gives.
 */
module Script {
  import opened Common
  import opened Tree
  import opened Fingerprint
  import opened ExportCheck
  import opened Snapshot
  import opened Naming
  import opened Report
  import opened Pass
  import Isolation

  /** The values `app.preferences.rulerUnits` can take. */
  datatype Units = Pixels | Inches | Centimeters | Millimeters | Points | Picas | Percent

  /** `app.preferences`: the script changes only the ruler units. */
  class Preferences {
    var rulerUnits: Units

    constructor (units: Units)
      ensures rulerUnits == units
    {
      rulerUnits := units;
    }
  }

  /** `app.activeDocument`: its layer tree, where it is saved, and what the script changes. */
  class Document {
    const layers: seq<Layer>
    const path: string
    var visible: Visibility
    var cropBox: Bounds

    /** Every layer of the tree has a flag, and nothing else has. */
    ghost predicate Valid()
      reads this
    {
      visible.Keys == IdSet(layers)
    }

    constructor (layers: seq<Layer>, path: string, visible: Visibility, cropBox: Bounds)
      requires visible.Keys == IdSet(layers)
      ensures Valid()
      ensures this.layers == layers && this.path == path
      ensures this.visible == visible && this.cropBox == cropBox
    {
      this.layers := layers;
      this.path := path;
      this.visible := visible;
      this.cropBox := cropBox;
    }

    /** Writes every recorded flag back, first entry first (lines 57-60 and 143-146). */
    method WriteBack(snap: seq<Saved>)
      modifies this`visible
      ensures visible == Restored(old(visible), snap)
    {
      var i := 0;
      while i < |snap|
        invariant 0 <= i <= |snap|
        invariant Restored(visible, snap[i..]) == Restored(old(visible), snap)
      {
        assert snap[i..][1..] == snap[i + 1..];
        var item := snap[i];
        visible := visible[item.layer := item.visible];
        i := i + 1;
      }
    }

    /** Lines 217-222: hide every top-level layer, then show the artboard. */
    method IsolateArtboard(artboard: Layer)
      requires Valid() && artboard in layers
      modifies this`visible
      ensures visible == ArtboardIsolated(old(visible), layers, artboard)
    {
      ghost var v0 := visible;
      for k := 0 to |layers|
        invariant visible == HideAll(v0, TopIds(layers[..k]))
      {
        MemberWithin(layers, k);
        assert layers[k].id in IdsOf(layers[k]);
        assert layers[..k + 1] == layers[..k] + [layers[k]];
        HideOneMore(v0, TopIds(layers[..k]), layers[k].id);
        visible := visible[layers[k].id := false];
      }
      assert layers[..|layers|] == layers;
      var i :| 0 <= i < |layers| && layers[i] == artboard;
      MemberWithin(layers, i);
      assert artboard.id in IdsOf(artboard);
      ShowOneMore(visible, {}, artboard.id);
      visible := visible[artboard.id := true];
    }

    /**
     * Lines 246-267: hide every group and any "Crop Mask" among the artboard's children,
     * then show the group and each of its children not named "Crop Mask".
     */
    method IsolateGroup(artboard: Layer, group: Layer)
      requires Valid() && artboard.LayerSet? && group.LayerSet?
      requires IdSet(artboard.layers) <= IdSet(layers) && group in artboard.layers
      modifies this`visible
      ensures visible == GroupIsolated(old(visible), artboard, group)
    {
      var j :| 0 <= j < |artboard.layers| && artboard.layers[j] == group;
      MemberWithin(artboard.layers, j);
      assert IdsOf(group) == [group.id] + Ids(group.layers);
      HideAmong(artboard.layers);
      ShowGroup(group);
    }

    /** Lines 246-255: the loop that hides the artboard's groups and its "Crop Mask". */
    method HideAmong(cs: seq<Layer>)
      requires IdSet(cs) <= visible.Keys
      modifies this`visible
      ensures visible == HideAll(old(visible), HiddenAmong(cs))
    {
      ghost var v0 := visible;
      for m := 0 to |cs|
        invariant visible == HideAll(v0, HiddenAmong(cs[..m]))
      {
        var currentLayer := cs[m];
        MemberIdIn(cs, m);
        assert cs[..m + 1] == cs[..m] + [currentLayer];
        HiddenAmongSnoc(cs[..m], currentLayer);
        if currentLayer.LayerSet? || currentLayer.name == CropMask {
          HideOneMore(v0, HiddenAmong(cs[..m]), currentLayer.id);
        }
        if currentLayer.LayerSet? {
          visible := visible[currentLayer.id := false];
        }
        if currentLayer.name == CropMask {
          visible := visible[currentLayer.id := false];
        }
      }
      assert cs[..|cs|] == cs;
    }

    /** Lines 258-267: show the group, then each of its children not named "Crop Mask". */
    method ShowGroup(group: Layer)
      requires group.LayerSet? && group.id in visible && IdSet(group.layers) <= visible.Keys
      modifies this`visible
      ensures visible == ShowAll(old(visible), ShownForGroup(group))
    {
      ghost var v0 := visible;
      ShowNone(v0);
      ShowOneMore(v0, {}, group.id);
      visible := visible[group.id := true];
      assert ShownAmong(group.layers[..0]) == {};
      for l := 0 to |group.layers|
        invariant visible == ShowAll(v0, {group.id} + ShownAmong(group.layers[..l]))
      {
        var contentLayer := group.layers[l];
        ghost var shown := {group.id} + ShownAmong(group.layers[..l]);
        MemberIdIn(group.layers, l);
        assert group.layers[..l + 1] == group.layers[..l] + [contentLayer];
        ShownAmongSnoc(group.layers[..l], contentLayer);
        if contentLayer.name != CropMask {
          ShowOneMore(v0, shown, contentLayer.id);
          visible := visible[contentLayer.id := true];
          assert shown + {contentLayer.id} == {group.id} + ShownAmong(group.layers[..l + 1]);
        } else {
          assert ShownAmong(group.layers[..l + 1]) == ShownAmong(group.layers[..l]);
        }
      }
      assert group.layers[..|group.layers|] == group.layers;
    }
  }

  /**
   * The state the script's top-level variables hold while it runs: the document, the
   * folder it exports into, the disk as the script sees it, the visibility snapshot and
   * the five outcome lists. The host's answers are fixed for the run.
   */
  class ExportJob {
    const doc: Document
    const host: Host
    const baseFolder: string
    var files: map<string, FileState>
    var originalVisibilities: seq<Saved>
    var exportedGroups: seq<GroupInfo>
    var skippedGroups: seq<GroupInfo>
    var blankGroups: seq<GroupInfo>
    var unchangedGroups: seq<GroupInfo>
    var modifiedGroups: seq<GroupInfo>

    /** Lines 23 and 29-33: the export folder next to the document, empty lists. */
    constructor (doc: Document, host: Host, files: map<string, FileState>)
      ensures this.doc == doc && this.host == host && this.files == files
      ensures baseFolder == ExportFolder(doc.path)
      ensures originalVisibilities == []
      ensures exportedGroups == [] && skippedGroups == [] && blankGroups == []
      ensures unchangedGroups == [] && modifiedGroups == []
    {
      this.doc := doc;
      this.host := host;
      this.files := files;
      baseFolder := doc.path + "/Exported_Groups";
      originalVisibilities := [];
      exportedGroups := [];
      skippedGroups := [];
      blankGroups := [];
      unchangedGroups := [];
      modifiedGroups := [];
    }

    /** The job's state as the reference semantics of the pass sees it. */
    ghost function State(failed: bool): RunState
      reads this, doc
    {
      RunState(doc.visible, doc.cropBox, files, exportedGroups, modifiedGroups,
               unchangedGroups, blankGroups, skippedGroups, failed)
    }

    /** Lines 41-53: push an entry for every layer of `ls` and, below it, its descendants. */
    method StoreVisibilities(ls: seq<Layer>)
      modifies this`originalVisibilities
      ensures originalVisibilities == old(originalVisibilities) + Capture(ls, doc.visible)
      decreases ls
    {
      for i := 0 to |ls|
        invariant originalVisibilities == old(originalVisibilities) + Capture(ls[..i], doc.visible)
      {
        var layer := ls[i];
        ghost var before := originalVisibilities;
        originalVisibilities := originalVisibilities + [Saved(layer.id, IsVisible(doc.visible, layer.id))];
        if layer.LayerSet? {
          StoreVisibilities(layer.layers);
        }
        assert originalVisibilities == before + CaptureOf(layer, doc.visible);
        CaptureSnoc(ls, i, doc.visible);
      }
      assert ls[..|ls|] == ls;
    }

    /** Lines 56-61: write every recorded flag back. */
    method RestoreVisibilities()
      modifies doc`visible
      ensures doc.visible == Restored(old(doc.visible), originalVisibilities)
    {
      doc.WriteBack(originalVisibilities);
    }

    /**
     * Lines 99-109: the entries `storeTemp(layer)` pushes onto `temp`, one per descendant of
     * `layer`, in pre-order.
     */
    method StoreTemp(layer: Layer, temp: seq<Saved>) returns (r: seq<Saved>)
      ensures r == temp + Capture(Children(layer), doc.visible)
      decreases layer
    {
      r := temp;
      if layer.LayerSet? {
        for i := 0 to |layer.layers|
          invariant r == temp + Capture(layer.layers[..i], doc.visible)
        {
          var child := layer.layers[i];
          ghost var before := r;
          r := r + [Saved(child.id, IsVisible(doc.visible, child.id))];
          r := StoreTemp(child, r);
          assert r == before + CaptureOf(child, doc.visible);
          CaptureSnoc(layer.layers, i, doc.visible);
        }
        assert layer.layers[..|layer.layers|] == layer.layers;
      } else {
        assert temp + [] == temp;
      }
    }

    /**
     * `doc.exportDocument` (lines 131 and 298): the host writes the render of the isolated
     * group to `target`, and may leave changed flags on the group's layers; or it raises.
     */
    method ExportDocument(group: Layer, target: string) returns (raised: bool)
      modifies doc`visible, this`files
      ensures raised <==> host.fails(group.id, target)
      ensures raised ==> doc.visible == old(doc.visible) && files == old(files)
      ensures !raised ==> doc.visible == Disturbed(old(doc.visible), group, host.disturb(group.id))
      ensures !raised ==> files == old(files)[target := host.render(group.id)]
    {
      if host.fails(group.id, target) {
        return true;
      }
      doc.visible := Disturbed(doc.visible, group, host.disturb(group.id));
      files := files[target := host.render(group.id)];
      return false;
    }

    /**
     * `shouldExportGroup` (lines 87-154): compare the fingerprint of the group's PNG with
     * that of a temporary render, putting back crop and flags afterwards.
     */
    method ShouldExportGroup(group: Layer, filePath: string, artboardBounds: Bounds)
      returns (raised: bool, exportCheck: Decision)
      modifies doc`visible, doc`cropBox, this`files
      ensures State(raised) == CheckGroup(old(State(false)), group, filePath, artboardBounds, host)
      ensures !raised ==> exportCheck == Decide(FileAt(old(files), filePath), host.render(group.id))
    {
      var file := FileAt(files, filePath);
      if file.Missing? {
        return false, Decision(true, NewFile);
      }
      var tempVisibilities := StoreTemp(group, []);
      assert tempVisibilities == Capture(Children(group), old(doc.visible));
      var originalCrop := doc.cropBox;
      var existingHash := CalculateHash(file);
      var tempPath := filePath + ".temp";
      doc.cropBox := artboardBounds;
      raised := ExportDocument(group, tempPath);
      if raised {
        return true, Decision(false, NoChanges);
      }
      var newHash := CalculateHash(FileAt(files, tempPath));
      assert files - {tempPath} == old(files) - {tempPath};
      files := files - {tempPath};
      doc.cropBox := originalCrop;
      doc.WriteBack(tempVisibilities);
      if existingHash != newHash {
        exportCheck := Decision(true, ContentModified);
      } else {
        exportCheck := Decision(false, NoChanges);
      }
    }

    /**
     * The loop body of lines 226-312 for the child `group` of `artboard`, whose bounds
     * are `bounds`: skip a red group without content, isolate the group, record it as blank,
     * unchanged or exported. `raised` says the host raised and the pass is over.
     */
    method ProcessGroup(artboard: Layer, bounds: Bounds, group: Layer) returns (raised: bool)
      requires doc.Valid() && artboard in doc.layers && artboard.LayerSet? && group in artboard.layers
      modifies doc`visible, doc`cropBox, this`files
      modifies this`exportedGroups, this`modifiedGroups, this`unchangedGroups, this`blankGroups, this`skippedGroups
      ensures State(raised) == GroupStep(old(State(false)), artboard, bounds, baseFolder, group, host)
      ensures doc.Valid()
    {
      ghost var s := State(false);
      ghost var i :| 0 <= i < |doc.layers| && doc.layers[i] == artboard;
      ghost var j :| 0 <= j < |artboard.layers| && artboard.layers[j] == group;
      Within(doc.layers, i, j);
      Isolation.GroupStepStaysInArtboard(doc.layers, i, j, s, bounds, baseFolder, host);
      if !group.LayerSet? {
        return false;
      }
      var groupColor := group.color;
      var groupInfo := GroupInfo(group.name, artboard.name, groupColor, None);
      if groupColor == Some(Red) && !HasVisibleContent(group, doc.visible) {
        skippedGroups := skippedGroups + [groupInfo];
        return false;
      }
      doc.IsolateGroup(artboard, group);
      if !HasVisibleContent(group, doc.visible) {
        blankGroups := blankGroups + [groupInfo];
        return false;
      }
      raised := CheckAndExportGroup(artboard, bounds, group, groupInfo);
    }

    /**
     * Lines 275-311: the group is isolated and has content; export it when its file is
     * missing or differs, otherwise record it as unchanged.
     */
    method CheckAndExportGroup(artboard: Layer, bounds: Bounds, group: Layer, groupInfo: GroupInfo)
      returns (raised: bool)
      requires groupInfo == Info(artboard, group)
      modifies doc`visible, doc`cropBox, this`files, this`exportedGroups, this`modifiedGroups, this`unchangedGroups
      ensures State(raised) == CheckAndExport(old(State(false)), artboard, bounds, baseFolder, group, host)
    {
      var fileName := Sanitize(group.name);
      var filePath := baseFolder + "/" + artboard.name + "/" + fileName + ".png";
      assert filePath == GroupFilePath(baseFolder, artboard.name, group.name);
      var exportCheck;
      raised, exportCheck := ShouldExportGroup(group, filePath, bounds);
      if raised {
        return;
      }
      var entry := groupInfo.(reason := Some(exportCheck.reason));
      if exportCheck.shouldExport {
        var originalCrop := doc.cropBox;
        doc.cropBox := bounds;
        raised := ExportDocument(group, filePath);
        if raised {
          return;
        }
        exportedGroups := exportedGroups + [entry];
        modifiedGroups := modifiedGroups + [entry];
        doc.cropBox := originalCrop;
      } else {
        unchangedGroups := unchangedGroups + [entry];
      }
    }

    /**
     * The loop body of lines 196-314 for the top-level layer `layer`: an artboard is
     * isolated and each of its children processed in order, until the host raises.
     */
    method ProcessArtboard(layer: Layer) returns (raised: bool)
      requires doc.Valid() && layer in doc.layers
      modifies doc`visible, doc`cropBox, this`files
      modifies this`exportedGroups, this`modifiedGroups, this`unchangedGroups, this`blankGroups, this`skippedGroups
      ensures State(raised) == ArtboardStep(old(State(false)), doc.layers, baseFolder, layer, host)
      ensures doc.Valid()
    {
      if !layer.LayerSet? {
        return false;
      }
      if layer.bounds.None? {
        return true;
      }
      var artboardBounds := layer.bounds.value;
      ghost var k :| 0 <= k < |doc.layers| && doc.layers[k] == layer;
      MemberWithin(doc.layers, k);
      assert IdsOf(layer) == [layer.id] + Ids(layer.layers);
      doc.IsolateArtboard(layer);
      ghost var start := State(false);
      var j := 0;
      while j < |layer.layers|
        invariant 0 <= j <= |layer.layers|
        invariant doc.Valid()
        invariant State(false) == PassGroups(start, layer, artboardBounds, baseFolder, layer.layers[..j], host)
      {
        var sublayer := layer.layers[j];
        assert layer.layers[..j + 1] == layer.layers[..j] + [sublayer];
        PassGroupsSnoc(start, layer, artboardBounds, baseFolder, layer.layers[..j], sublayer, host);
        raised := ProcessGroup(layer, artboardBounds, sublayer);
        if raised {
          PassGroupsStopsAtFailure(start, layer, artboardBounds, baseFolder, layer.layers, j + 1, host);
          return;
        }
        j := j + 1;
      }
      assert layer.layers[..j] == layer.layers;
      return false;
    }

    /** The loop of lines 195-315 over the document's top-level layers, until the host raises. */
    method ProcessLayers() returns (raised: bool)
      requires doc.Valid()
      modifies doc`visible, doc`cropBox, this`files
      modifies this`exportedGroups, this`modifiedGroups, this`unchangedGroups, this`blankGroups, this`skippedGroups
      ensures State(raised) == PassLayers(old(State(false)), doc.layers, baseFolder, doc.layers, host)
      ensures doc.Valid()
    {
      ghost var start := State(false);
      var layers := doc.layers;
      var i := 0;
      while i < |layers|
        invariant 0 <= i <= |layers|
        invariant doc.Valid()
        invariant State(false) == PassLayers(start, layers, baseFolder, layers[..i], host)
      {
        var layer := layers[i];
        assert layers[..i + 1] == layers[..i] + [layer];
        PassLayersSnoc(start, layers, baseFolder, layers[..i], layer, host);
        raised := ProcessArtboard(layer);
        if raised {
          PassLayersStopsAtFailure(start, layers, baseFolder, layers, i + 1, host);
          return;
        }
        i := i + 1;
      }
      assert layers[..i] == layers;
      return false;
    }

    /**
     * The pass followed by the first step of the `finally` of lines 316-373: whether or not
     * the host raised, every flag is put back from the snapshot taken before the pass.
     */
    method ProcessLayersThenRestore() returns (raised: bool)
      requires doc.Valid() && originalVisibilities == Capture(doc.layers, doc.visible)
      modifies doc`visible, doc`cropBox, this`files
      modifies this`exportedGroups, this`modifiedGroups, this`unchangedGroups, this`blankGroups, this`skippedGroups
      ensures State(raised) == PassLayers(old(State(false)), doc.layers, baseFolder, doc.layers, host).(visible := old(doc.visible))
    {
      ghost var s := State(false);
      ghost var r := PassLayers(s, doc.layers, baseFolder, doc.layers, host);
      raised := ProcessLayers();
      assert State(raised) == r;
      RestoreVisibilities();
      assert doc.visible == Restored(r.visible, Capture(doc.layers, s.visible));
      Isolation.FinallyRestoresEveryFlag(doc.layers, s, baseFolder, host);
    }

    /**
     * The script with a document open (lines 19-20, 157, 193-373): switch the rulers to
     * pixels, snapshot every flag, run the pass until it ends or the host raises, then in
     * the `finally` put back every flag and the ruler units and assemble the report, with
     * `existingReport` the text of the previous report ("" when there is none). The report
     * is assembled whether or not the host raised; `raised` says that the error then
     * leaves the `finally` block for the caller.
     */
    method Run(prefs: Preferences, info: SystemInfo, existingReport: string) returns (report: string, raised: bool)
      requires doc.Valid() && originalVisibilities == []
      requires exportedGroups == [] && skippedGroups == [] && blankGroups == []
      requires unchangedGroups == [] && modifiedGroups == []
      modifies prefs, doc`visible, doc`cropBox, this`files, this`originalVisibilities
      modifies this`exportedGroups, this`modifiedGroups, this`unchangedGroups, this`blankGroups, this`skippedGroups
      ensures doc.visible == old(doc.visible)
      ensures prefs.rulerUnits == old(prefs.rulerUnits)
      ensures originalVisibilities == Capture(doc.layers, old(doc.visible))
      ensures var r := PassLayers(Start(old(doc.visible), old(doc.cropBox), old(files)), doc.layers, baseFolder, doc.layers, host);
        && doc.cropBox == r.crop && files == r.files
        && exportedGroups == r.exportedGroups && modifiedGroups == r.modifiedGroups
        && unchangedGroups == r.unchangedGroups && blankGroups == r.blankGroups
        && skippedGroups == r.skippedGroups
        && raised == r.failed
        && report == WithHistory(ReportBody(info, modifiedGroups, unchangedGroups, blankGroups, skippedGroups), existingReport)
    {
      var originalRulerUnits := prefs.rulerUnits;
      prefs.rulerUnits := Pixels;
      StoreVisibilities(doc.layers);
      assert State(false) == Start(old(doc.visible), old(doc.cropBox), old(files));
      raised := ProcessLayersThenRestore();
      prefs.rulerUnits := originalRulerUnits;
      report := BuildReport(info, modifiedGroups, unchangedGroups, blankGroups, skippedGroups, existingReport);
    }
  }
}
