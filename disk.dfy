/**
 * What the export pass does to the disk. The only files it writes are the PNGs of the
 * groups it exports (line 298), each holding the render of its group, and the only other
 * files it touches are the temporary renders of lines 116-137, which it removes again.
 */
module Disk {
  import opened Common
  import opened Tree
  import opened ExportCheck
  import opened Naming
  import opened Report
  import opened Pass

  /** `g` is a group: a layer set directly inside the artboard `a` of the document `top`. */
  predicate GroupOf(top: seq<Layer>, a: Layer, g: Layer)
  {
    a in top && a.LayerSet? && g in a.layers && g.LayerSet?
  }

  /** Some entry of `exported` names group `g` of artboard `a`. */
  ghost predicate Records(exported: seq<GroupInfo>, a: Layer, g: Layer)
  {
    exists e :: e in exported && e.artboard == a.name && e.name == g.name
  }

  /** `p` is the PNG of group `g`, it holds the group's render and the group was exported. */
  ghost predicate WrittenBy(files: map<string, FileState>, exported: seq<GroupInfo>, folder: string, h: Host,
                            p: string, a: Layer, g: Layer)
  {
    p == GroupFilePath(folder, a.name, g.name) && FileAt(files, p) == h.render(g.id) && Records(exported, a, g)
  }

  /** `p` is the temporary render of group `g`, and it is gone. */
  predicate TempRemoved(files: map<string, FileState>, folder: string, p: string, a: Layer, g: Layer)
  {
    p == GroupFilePath(folder, a.name, g.name) + ".temp" && FileAt(files, p) == Missing
  }

  /** `p` is the PNG or the temporary render of a group among the children `cs` of artboard `a`. */
  ghost predicate PathOfGroups(folder: string, a: Layer, cs: seq<Layer>, p: string)
  {
    exists c :: c in cs && c.LayerSet? &&
      (p == GroupFilePath(folder, a.name, c.name) || p == GroupFilePath(folder, a.name, c.name) + ".temp")
  }

  /** `p` is the PNG or the temporary render of a group of one of the artboards `ls`. */
  ghost predicate PathOfArtboards(folder: string, ls: seq<Layer>, p: string)
  {
    exists l :: l in ls && l.LayerSet? && PathOfGroups(folder, l, l.layers, p)
  }

  /** Every path whose state differs from `initial` was written for an exported group or is a removed temporary file. */
  ghost predicate Explained(initial: map<string, FileState>, files: map<string, FileState>, exported: seq<GroupInfo>,
                            top: seq<Layer>, folder: string, h: Host)
  {
    forall p :: FileAt(files, p) != FileAt(initial, p) ==>
      exists a, g :: GroupOf(top, a, g) && (WrittenBy(files, exported, folder, h, p, a, g) || TempRemoved(files, folder, p, a, g))
  }

  /** A path the step leaves alone keeps its explanation, and the exported list only grows. */
  lemma KeptExplained(initial: map<string, FileState>, files: map<string, FileState>, exported: seq<GroupInfo>,
                      files': map<string, FileState>, exported': seq<GroupInfo>,
                      top: seq<Layer>, folder: string, h: Host, p: string)
    requires Explained(initial, files, exported, top, folder, h)
    requires FileAt(files', p) == FileAt(files, p) != FileAt(initial, p)
    requires forall e :: e in exported ==> e in exported'
    ensures exists a, g :: GroupOf(top, a, g) && (WrittenBy(files', exported', folder, h, p, a, g) || TempRemoved(files', folder, p, a, g))
  {
    var a, g :| GroupOf(top, a, g) && (WrittenBy(files, exported, folder, h, p, a, g) || TempRemoved(files, folder, p, a, g));
    if WrittenBy(files, exported, folder, h, p, a, g) {
      var e :| e in exported && e.artboard == a.name && e.name == g.name;
      assert e in exported';
      assert WrittenBy(files', exported', folder, h, p, a, g);
    } else {
      assert TempRemoved(files', folder, p, a, g);
    }
  }

  /** Line 298 writes the group's render over its PNG and lines 301-303 record the group as exported. */
  lemma WriteExplained(initial: map<string, FileState>, files: map<string, FileState>, exported: seq<GroupInfo>,
                       top: seq<Layer>, folder: string, h: Host, a: Layer, g: Layer, e: GroupInfo)
    requires Explained(initial, files, exported, top, folder, h)
    requires GroupOf(top, a, g) && e.artboard == a.name && e.name == g.name
    ensures Explained(initial, files[GroupFilePath(folder, a.name, g.name) := h.render(g.id)], exported + [e], top, folder, h)
  {
    var path := GroupFilePath(folder, a.name, g.name);
    var files' := files[path := h.render(g.id)];
    forall p | FileAt(files', p) != FileAt(initial, p)
      ensures exists a', g' ::
        GroupOf(top, a', g') && (WrittenBy(files', exported + [e], folder, h, p, a', g') || TempRemoved(files', folder, p, a', g'))
    {
      if p == path {
        assert e in exported + [e];
        assert WrittenBy(files', exported + [e], folder, h, p, a, g);
      } else {
        KeptExplained(initial, files, exported, files', exported + [e], top, folder, h, p);
      }
    }
  }

  /** Line 137 removes the temporary render of the group. */
  lemma RemoveExplained(initial: map<string, FileState>, files: map<string, FileState>, exported: seq<GroupInfo>,
                        top: seq<Layer>, folder: string, h: Host, a: Layer, g: Layer)
    requires Explained(initial, files, exported, top, folder, h)
    requires GroupOf(top, a, g)
    ensures Explained(initial, files - {GroupFilePath(folder, a.name, g.name) + ".temp"}, exported, top, folder, h)
  {
    var temp := GroupFilePath(folder, a.name, g.name) + ".temp";
    var files' := files - {temp};
    forall p | FileAt(files', p) != FileAt(initial, p)
      ensures exists a', g' ::
        GroupOf(top, a', g') && (WrittenBy(files', exported, folder, h, p, a', g') || TempRemoved(files', folder, p, a', g'))
    {
      if p == temp {
        assert TempRemoved(files', folder, p, a, g);
      } else {
        KeptExplained(initial, files, exported, files', exported, top, folder, h, p);
      }
    }
  }

  /** One group step changes no file but its group's PNG and its temporary render. */
  lemma GroupStepTouchesOwnPaths(s: RunState, a: Layer, artboard: Bounds, folder: string, g: Layer, h: Host)
    requires !s.failed
    ensures var r := GroupStep(s, a, artboard, folder, g, h);
      var path := GroupFilePath(folder, a.name, g.name);
      forall p :: p != path && p != path + ".temp" ==> FileAt(r.files, p) == FileAt(s.files, p)
  {
    if g.LayerSet? && !RedAndEmpty(s.visible, g) {
      var isolated := s.(visible := GroupIsolated(s.visible, a, g));
      if HasVisibleContent(g, isolated.visible) {
        var path := GroupFilePath(folder, a.name, g.name);
        var decision := Decide(FileAt(s.files, path), h.render(g.id));
        var entry := Info(a, g).(reason := Some(decision.reason));
        var checked := CheckGroup(isolated, g, path, artboard, h);
        assert forall p :: p != path + ".temp" ==> FileAt(checked.files, p) == FileAt(s.files, p);
        if !checked.failed && decision.shouldExport {
          assert GroupStep(s, a, artboard, folder, g, h) == ExportGroup(checked, g, path, artboard, entry, h);
        }
      }
    }
  }

  /** One group step writes only its group's PNG and removes only its temporary render. */
  lemma GroupStepExplained(initial: map<string, FileState>, top: seq<Layer>, s: RunState, a: Layer,
                           artboard: Bounds, folder: string, g: Layer, h: Host)
    requires a in top && a.LayerSet? && g in a.layers
    requires !s.failed && Explained(initial, s.files, s.exportedGroups, top, folder, h)
    ensures var r := GroupStep(s, a, artboard, folder, g, h);
      Explained(initial, r.files, r.exportedGroups, top, folder, h)
    ensures var r := GroupStep(s, a, artboard, folder, g, h);
      var path := GroupFilePath(folder, a.name, g.name);
      forall p :: p != path && p != path + ".temp" ==> FileAt(r.files, p) == FileAt(s.files, p)
  {
    GroupStepTouchesOwnPaths(s, a, artboard, folder, g, h);
    var r := GroupStep(s, a, artboard, folder, g, h);
    if g.LayerSet? && !RedAndEmpty(s.visible, g) {
      var isolated := s.(visible := GroupIsolated(s.visible, a, g));
      if HasVisibleContent(g, isolated.visible) {
        assert r == CheckAndExport(isolated, a, artboard, folder, g, h);
        var path := GroupFilePath(folder, a.name, g.name);
        var decision := Decide(FileAt(s.files, path), h.render(g.id));
        var entry := Info(a, g).(reason := Some(decision.reason));
        var checked := CheckGroup(isolated, g, path, artboard, h);
        if !FileAt(s.files, path).Missing? && !h.fails(g.id, path + ".temp") {
          assert checked.files == s.files - {path + ".temp"};
          RemoveExplained(initial, s.files, s.exportedGroups, top, folder, h, a, g);
        }
        assert checked.exportedGroups == s.exportedGroups;
        if !checked.failed && decision.shouldExport && !h.fails(g.id, path) {
          assert r == ExportGroup(checked, g, path, artboard, entry, h);
          WriteExplained(initial, checked.files, checked.exportedGroups, top, folder, h, a, g, entry);
        }
      }
    }
  }

  /** The loop over the children `cs` of artboard `a`. */
  lemma {:induction false} PassGroupsExplained(initial: map<string, FileState>, top: seq<Layer>, s: RunState, a: Layer,
                                               artboard: Bounds, folder: string, cs: seq<Layer>, h: Host)
    requires a in top && a.LayerSet? && forall c :: c in cs ==> c in a.layers
    requires Explained(initial, s.files, s.exportedGroups, top, folder, h)
    ensures var r := PassGroups(s, a, artboard, folder, cs, h);
      Explained(initial, r.files, r.exportedGroups, top, folder, h)
    ensures var r := PassGroups(s, a, artboard, folder, cs, h);
      forall p :: FileAt(r.files, p) != FileAt(s.files, p) ==> PathOfGroups(folder, a, cs, p)
    decreases |cs|
  {
    if cs != [] {
      var init, last := cs[..|cs| - 1], cs[|cs| - 1];
      assert forall c :: c in init ==> c in cs;
      PassGroupsExplained(initial, top, s, a, artboard, folder, init, h);
      var before := PassGroups(s, a, artboard, folder, init, h);
      var r := PassGroups(s, a, artboard, folder, cs, h);
      if !before.failed {
        GroupStepExplained(initial, top, before, a, artboard, folder, last, h);
        forall p | FileAt(r.files, p) != FileAt(s.files, p)
          ensures PathOfGroups(folder, a, cs, p)
        {
          if FileAt(before.files, p) != FileAt(s.files, p) {
            var c :| c in init && c.LayerSet? &&
              (p == GroupFilePath(folder, a.name, c.name) || p == GroupFilePath(folder, a.name, c.name) + ".temp");
            assert c in cs;
          } else {
            assert last in cs;
          }
        }
      } else {
        forall p | FileAt(r.files, p) != FileAt(s.files, p)
          ensures PathOfGroups(folder, a, cs, p)
        {
          var c :| c in init && c.LayerSet? &&
            (p == GroupFilePath(folder, a.name, c.name) || p == GroupFilePath(folder, a.name, c.name) + ".temp");
          assert c in cs;
        }
      }
    }
  }

  /** One top-level layer of the document `top`. */
  lemma ArtboardStepExplained(initial: map<string, FileState>, top: seq<Layer>, s: RunState, folder: string, a: Layer, h: Host)
    requires a in top
    requires Explained(initial, s.files, s.exportedGroups, top, folder, h)
    ensures var r := ArtboardStep(s, top, folder, a, h);
      Explained(initial, r.files, r.exportedGroups, top, folder, h)
    ensures var r := ArtboardStep(s, top, folder, a, h);
      forall p :: FileAt(r.files, p) != FileAt(s.files, p) ==> a.LayerSet? && PathOfGroups(folder, a, a.layers, p)
  {
    if a.LayerSet? && a.bounds.Some? {
      var isolated := s.(visible := ArtboardIsolated(s.visible, top, a));
      PassGroupsExplained(initial, top, isolated, a, a.bounds.value, folder, a.layers, h);
    }
  }

  /** The loop over the top-level layers `ls` of the document `top`. */
  lemma {:induction false} PassLayersExplained(initial: map<string, FileState>, top: seq<Layer>, s: RunState,
                                               folder: string, ls: seq<Layer>, h: Host)
    requires forall l :: l in ls ==> l in top
    requires Explained(initial, s.files, s.exportedGroups, top, folder, h)
    ensures var r := PassLayers(s, top, folder, ls, h);
      Explained(initial, r.files, r.exportedGroups, top, folder, h)
    ensures var r := PassLayers(s, top, folder, ls, h);
      forall p :: FileAt(r.files, p) != FileAt(s.files, p) ==> PathOfArtboards(folder, ls, p)
    decreases |ls|
  {
    if ls != [] {
      var init, last := ls[..|ls| - 1], ls[|ls| - 1];
      assert forall l :: l in init ==> l in ls;
      PassLayersExplained(initial, top, s, folder, init, h);
      var before := PassLayers(s, top, folder, init, h);
      var r := PassLayers(s, top, folder, ls, h);
      if !before.failed {
        ArtboardStepExplained(initial, top, before, folder, last, h);
      }
      forall p | FileAt(r.files, p) != FileAt(s.files, p)
        ensures PathOfArtboards(folder, ls, p)
      {
        if FileAt(before.files, p) != FileAt(s.files, p) {
          var l :| l in init && l.LayerSet? && PathOfGroups(folder, l, l.layers, p);
          assert l in ls;
        } else {
          assert last in ls;
        }
      }
    }
  }

  /**
   * The whole pass, whether or not the host raised: a file whose state changed is the PNG
   * of an exported group and holds that group's render, or a temporary render that is now
   * gone; so every file the pass leaves where there was none is an exported group's PNG.
   */
  lemma PassTouchesOnlyExportedFiles(top: seq<Layer>, visible: Visibility, crop: Bounds,
                                     files: map<string, FileState>, folder: string, h: Host)
    ensures var r := PassLayers(Start(visible, crop, files), top, folder, top, h);
      && Explained(files, r.files, r.exportedGroups, top, folder, h)
      && forall p :: FileAt(files, p).Missing? && !FileAt(r.files, p).Missing? ==>
           exists a, g :: GroupOf(top, a, g) && WrittenBy(r.files, r.exportedGroups, folder, h, p, a, g)
  {
    PassLayersExplained(files, top, Start(visible, crop, files), folder, top, h);
  }
}
