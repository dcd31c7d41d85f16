/**
 * What the pass of lines 193-315 promises about its outcome lists: every group-typed child
 * of every group-typed top-level layer is recorded exactly once, in one of the four
 * lists; `exportedGroups` and `modifiedGroups` hold the same entries; each list records
 * the reason that belongs to it; and the crop is back where it was unless an export raised.
 */
module Classification {
  import opened Common
  import opened Tree
  import opened ExportCheck
  import opened Naming
  import opened Report
  import opened Pass

  /** How an entry is identified in the report: artboard, then group name. */
  function Label(g: GroupInfo): (string, string)
  {
    (g.artboard, g.name)
  }

  function Labels(gs: seq<GroupInfo>): multiset<(string, string)>
  {
    if gs == [] then multiset{} else Labels(gs[..|gs| - 1]) + multiset{Label(gs[|gs| - 1])}
  }

  lemma LabelsAppend(gs: seq<GroupInfo>, e: GroupInfo)
    ensures Labels(gs + [e]) == Labels(gs) + multiset{Label(e)}
  {
    assert (gs + [e])[..|gs|] == gs;
  }

  /** Every entry in the four lists the report prints. */
  function Classified(s: RunState): multiset<(string, string)>
  {
    Labels(s.modifiedGroups) + Labels(s.unchangedGroups) + Labels(s.blankGroups) + Labels(s.skippedGroups)
  }

  /** The label of child `c` of artboard `a` if the loop classifies it: only layer sets. */
  function GroupLabel(a: Layer, c: Layer): multiset<(string, string)>
  {
    if c.LayerSet? then multiset{(a.name, c.name)} else multiset{}
  }

  /** The groups the loop of line 225 classifies among the children `cs` of artboard `a`. */
  function GroupLabels(a: Layer, cs: seq<Layer>): multiset<(string, string)>
  {
    if cs == [] then multiset{} else GroupLabels(a, cs[..|cs| - 1]) + GroupLabel(a, cs[|cs| - 1])
  }

  /** The groups of a top-level layer: those of an artboard, none of an art layer. */
  function ArtboardLabels(l: Layer): multiset<(string, string)>
  {
    if l.LayerSet? then GroupLabels(l, l.layers) else multiset{}
  }

  /** The groups the whole pass classifies: those of every layer set among `ls`. */
  function Candidates(ls: seq<Layer>): multiset<(string, string)>
  {
    if ls == [] then multiset{} else Candidates(ls[..|ls| - 1]) + ArtboardLabels(ls[|ls| - 1])
  }

  /** The lists only grow: every step appends to them and never rewrites what is there. */
  predicate Extends(s: RunState, r: RunState)
  {
    && s.exportedGroups <= r.exportedGroups
    && s.modifiedGroups <= r.modifiedGroups
    && s.unchangedGroups <= r.unchangedGroups
    && s.blankGroups <= r.blankGroups
    && s.skippedGroups <= r.skippedGroups
  }

  /**
   * The agreements between the lists: every exported group is the same entry in
   * `modifiedGroups`, each list carries the reason that belongs to it, and only groups
   * tagged red are ever skipped.
   */
  predicate Consistent(s: RunState)
  {
    && s.exportedGroups == s.modifiedGroups
    && (forall k :: 0 <= k < |s.modifiedGroups| ==>
          s.modifiedGroups[k].reason in {Some(NewFile), Some(ContentModified)})
    && (forall k :: 0 <= k < |s.unchangedGroups| ==> s.unchangedGroups[k].reason == Some(NoChanges))
    && (forall k :: 0 <= k < |s.blankGroups| ==> s.blankGroups[k].reason == None)
    && (forall k :: 0 <= k < |s.skippedGroups| ==>
          s.skippedGroups[k].reason == None && s.skippedGroups[k].color == Some(Red))
  }

  /** Adding one label to any one of four multisets adds it to their union. */
  lemma UnionGrows(m: multiset<(string, string)>, u: multiset<(string, string)>, b: multiset<(string, string)>,
                   k: multiset<(string, string)>, one: multiset<(string, string)>)
    ensures (m + one) + u + b + k == m + u + b + k + one
    ensures m + (u + one) + b + k == m + u + b + k + one
    ensures m + u + (b + one) + k == m + u + b + k + one
    ensures m + u + b + (k + one) == m + u + b + k + one
  {
  }

  /** Two steps that each add at most their own labels add at most both. */
  lemma BagChain(x: multiset<(string, string)>, y: multiset<(string, string)>, z: multiset<(string, string)>,
                 p: multiset<(string, string)>, q: multiset<(string, string)>)
    requires x <= y <= x + p && y <= z <= y + q
    ensures x <= z <= x + (p + q)
  {
    forall e ensures z[e] <= (x + (p + q))[e] {
      assert z[e] <= y[e] + q[e] && y[e] <= x[e] + p[e];
    }
  }

  /** Two steps that each add exactly their own labels add exactly both. */
  lemma BagSum(x: multiset<(string, string)>, y: multiset<(string, string)>, z: multiset<(string, string)>,
               p: multiset<(string, string)>, q: multiset<(string, string)>)
    requires y == x + p && z == y + q
    ensures z == x + (p + q)
  {
  }

  /** Appending `e` to any one of the four lists adds its label and nothing else. */
  lemma ClassifiedGrows(s: RunState, r: RunState, e: GroupInfo)
    requires
      || (r.modifiedGroups == s.modifiedGroups + [e] && r.unchangedGroups == s.unchangedGroups &&
          r.blankGroups == s.blankGroups && r.skippedGroups == s.skippedGroups)
      || (r.modifiedGroups == s.modifiedGroups && r.unchangedGroups == s.unchangedGroups + [e] &&
          r.blankGroups == s.blankGroups && r.skippedGroups == s.skippedGroups)
      || (r.modifiedGroups == s.modifiedGroups && r.unchangedGroups == s.unchangedGroups &&
          r.blankGroups == s.blankGroups + [e] && r.skippedGroups == s.skippedGroups)
      || (r.modifiedGroups == s.modifiedGroups && r.unchangedGroups == s.unchangedGroups &&
          r.blankGroups == s.blankGroups && r.skippedGroups == s.skippedGroups + [e])
    ensures Classified(r) == Classified(s) + multiset{Label(e)}
  {
    LabelsAppend(s.modifiedGroups, e);
    LabelsAppend(s.unchangedGroups, e);
    LabelsAppend(s.blankGroups, e);
    LabelsAppend(s.skippedGroups, e);
    UnionGrows(Labels(s.modifiedGroups), Labels(s.unchangedGroups), Labels(s.blankGroups),
               Labels(s.skippedGroups), multiset{Label(e)});
  }

  /** An isolated group with content is exported or recorded as unchanged, unless the host raises. */
  lemma CheckAndExportClassifies(s: RunState, a: Layer, artboard: Bounds, folder: string, g: Layer, h: Host)
    requires !s.failed && g.LayerSet?
    ensures var r := CheckAndExport(s, a, artboard, folder, g, h);
      && Extends(s, r)
      && (r.failed ==> Classified(r) == Classified(s))
      && (!r.failed ==> Classified(r) == Classified(s) + GroupLabel(a, g))
    ensures var r := CheckAndExport(s, a, artboard, folder, g, h);
      var d := Decide(FileAt(s.files, GroupFilePath(folder, a.name, g.name)), h.render(g.id));
      var e := Info(a, g).(reason := Some(d.reason));
      !r.failed ==>
        && r.blankGroups == s.blankGroups && r.skippedGroups == s.skippedGroups
        && (d.shouldExport ==>
              && r.exportedGroups == s.exportedGroups + [e] && r.modifiedGroups == s.modifiedGroups + [e]
              && r.unchangedGroups == s.unchangedGroups)
        && (!d.shouldExport ==>
              && r.unchangedGroups == s.unchangedGroups + [e]
              && r.exportedGroups == s.exportedGroups && r.modifiedGroups == s.modifiedGroups)
  {
    var r := CheckAndExport(s, a, artboard, folder, g, h);
    var path := GroupFilePath(folder, a.name, g.name);
    var decision := Decide(FileAt(s.files, path), h.render(g.id));
    var entry := Info(a, g).(reason := Some(decision.reason));
    var checked := CheckGroup(s, g, path, artboard, h);
    assert checked.(visible := s.visible, crop := s.crop, files := s.files, failed := false) == s;
    if checked.failed {
      assert r == checked;
    } else if decision.shouldExport {
      assert r == ExportGroup(checked, g, path, artboard, entry, h);
      if !h.fails(g.id, path) {
        ClassifiedGrows(s, r, entry);
      }
    } else {
      assert r == checked.(unchangedGroups := s.unchangedGroups + [entry]);
      ClassifiedGrows(s, r, entry);
    }
  }

  /**
   * One group: a layer set is appended to exactly one list unless the pass fails on it;
   * any other child is ignored, and the lists only grow.
   */
  lemma GroupStepClassifies(s: RunState, a: Layer, artboard: Bounds, folder: string, g: Layer, h: Host)
    requires !s.failed
    ensures var r := GroupStep(s, a, artboard, folder, g, h);
      && Extends(s, r)
      && (r.failed ==> Classified(r) == Classified(s))
      && (!r.failed ==> Classified(r) == Classified(s) + GroupLabel(a, g))
  {
    var r := GroupStep(s, a, artboard, folder, g, h);
    if g.LayerSet? {
      var info := Info(a, g);
      var isolated := s.(visible := GroupIsolated(s.visible, a, g));
      if RedAndEmpty(s.visible, g) {
        assert r == s.(skippedGroups := s.skippedGroups + [info]);
        ClassifiedGrows(s, r, info);
      } else if !HasVisibleContent(g, isolated.visible) {
        assert r == isolated.(blankGroups := s.blankGroups + [info]);
        ClassifiedGrows(s, r, info);
      } else {
        assert r == CheckAndExport(isolated, a, artboard, folder, g, h);
        CheckAndExportClassifies(isolated, a, artboard, folder, g, h);
      }
    }
  }

  /**
   * Which list a group child lands in before any export: a red group with no content at
   * the flags the step starts from is skipped before isolation, and a group left with no
   * content once isolated is blank; neither writes a file. Every other group reaches
   * neither list.
   */
  lemma GroupStepSkipsAndBlanks(s: RunState, a: Layer, artboard: Bounds, folder: string, g: Layer, h: Host)
    requires !s.failed && g.LayerSet?
    ensures var r := GroupStep(s, a, artboard, folder, g, h);
      var iso := GroupIsolated(s.visible, a, g);
      && (RedAndEmpty(s.visible, g) ==> r == s.(skippedGroups := s.skippedGroups + [Info(a, g)]))
      && (!RedAndEmpty(s.visible, g) && !HasVisibleContent(g, iso) ==>
            r == s.(visible := iso, blankGroups := s.blankGroups + [Info(a, g)]))
      && (!r.failed ==> (r.skippedGroups != s.skippedGroups <==> RedAndEmpty(s.visible, g)))
      && (!r.failed ==> (r.blankGroups != s.blankGroups <==> !RedAndEmpty(s.visible, g) && !HasVisibleContent(g, iso)))
  {
    var r := GroupStep(s, a, artboard, folder, g, h);
    var iso := GroupIsolated(s.visible, a, g);
    if !RedAndEmpty(s.visible, g) && HasVisibleContent(g, iso) {
      CheckAndExportClassifies(s.(visible := iso), a, artboard, folder, g, h);
      assert r.failed || (r.skippedGroups == s.skippedGroups && r.blankGroups == s.blankGroups);
    }
  }

  /** The same four lists, and `exportedGroups` too. */
  predicate SameLists(s: RunState, r: RunState)
  {
    && r.exportedGroups == s.exportedGroups && r.modifiedGroups == s.modifiedGroups
    && r.unchangedGroups == s.unchangedGroups && r.blankGroups == s.blankGroups
    && r.skippedGroups == s.skippedGroups
  }

  /** An exported group goes to `exportedGroups` and `modifiedGroups` alike, with a change reason. */
  lemma ExportedKeepsConsistent(s: RunState, r: RunState, e: GroupInfo)
    requires Consistent(s) && e.reason in {Some(NewFile), Some(ContentModified)}
    requires SameLists(s.(modifiedGroups := s.modifiedGroups + [e], exportedGroups := s.exportedGroups + [e]), r)
    ensures Consistent(r)
  {
  }

  /** An unchanged group is recorded with "No changes". */
  lemma UnchangedKeepsConsistent(s: RunState, r: RunState, e: GroupInfo)
    requires Consistent(s) && e.reason == Some(NoChanges)
    requires SameLists(s.(unchangedGroups := s.unchangedGroups + [e]), r)
    ensures Consistent(r)
  {
  }

  /** A blank group is recorded without a reason. */
  lemma BlankKeepsConsistent(s: RunState, r: RunState, e: GroupInfo)
    requires Consistent(s) && e.reason == None
    requires SameLists(s.(blankGroups := s.blankGroups + [e]), r)
    ensures Consistent(r)
  {
  }

  /** A skipped group is a red one, recorded without a reason. */
  lemma SkippedKeepsConsistent(s: RunState, r: RunState, e: GroupInfo)
    requires Consistent(s) && e.reason == None && e.color == Some(Red)
    requires SameLists(s.(skippedGroups := s.skippedGroups + [e]), r)
    ensures Consistent(r)
  {
  }

  /** Exporting or keeping an isolated group keeps the lists consistent. */
  lemma CheckAndExportKeepsConsistent(s: RunState, a: Layer, artboard: Bounds, folder: string, g: Layer, h: Host)
    requires !s.failed && Consistent(s)
    ensures Consistent(CheckAndExport(s, a, artboard, folder, g, h))
  {
    var r := CheckAndExport(s, a, artboard, folder, g, h);
    var path := GroupFilePath(folder, a.name, g.name);
    var decision := Decide(FileAt(s.files, path), h.render(g.id));
    var entry := Info(a, g).(reason := Some(decision.reason));
    var checked := CheckGroup(s, g, path, artboard, h);
    assert SameLists(s, checked);
    if checked.failed {
      assert r == checked;
    } else if decision.shouldExport {
      assert r == ExportGroup(checked, g, path, artboard, entry, h);
      if !h.fails(g.id, path) {
        ExportedKeepsConsistent(s, r, entry);
      }
    } else {
      assert r == checked.(unchangedGroups := s.unchangedGroups + [entry]);
      UnchangedKeepsConsistent(s, r, entry);
    }
  }

  /** Each step keeps the lists consistent with one another. */
  lemma GroupStepKeepsConsistent(s: RunState, a: Layer, artboard: Bounds, folder: string, g: Layer, h: Host)
    requires !s.failed && Consistent(s)
    ensures Consistent(GroupStep(s, a, artboard, folder, g, h))
  {
    var r := GroupStep(s, a, artboard, folder, g, h);
    if g.LayerSet? {
      var info := Info(a, g);
      var isolated := s.(visible := GroupIsolated(s.visible, a, g));
      if RedAndEmpty(s.visible, g) {
        assert r == s.(skippedGroups := s.skippedGroups + [info]);
        SkippedKeepsConsistent(s, r, info);
      } else if !HasVisibleContent(g, isolated.visible) {
        assert r == isolated.(blankGroups := s.blankGroups + [info]);
        BlankKeepsConsistent(s, r, info);
      } else {
        assert r == CheckAndExport(isolated, a, artboard, folder, g, h);
        CheckAndExportKeepsConsistent(isolated, a, artboard, folder, g, h);
      }
    }
  }

  /** Exporting or keeping an isolated group puts the crop back, unless the host raised. */
  lemma CheckAndExportRestoresCrop(s: RunState, a: Layer, artboard: Bounds, folder: string, g: Layer, h: Host)
    requires !s.failed
    ensures var r := CheckAndExport(s, a, artboard, folder, g, h);
      && (r.failed ==> r.crop == artboard)
      && (!r.failed ==> r.crop == s.crop)
  {
    var path := GroupFilePath(folder, a.name, g.name);
    var checked := CheckGroup(s, g, path, artboard, h);
    assert checked.failed ==> checked.crop == artboard;
    assert !checked.failed ==> checked.crop == s.crop;
  }

  /** The crop is back as it was after a group, unless an export raised and left it cropped. */
  lemma GroupStepRestoresCrop(s: RunState, a: Layer, artboard: Bounds, folder: string, g: Layer, h: Host)
    requires !s.failed
    ensures var r := GroupStep(s, a, artboard, folder, g, h);
      && (r.failed ==> r.crop == artboard)
      && (!r.failed ==> r.crop == s.crop)
  {
    if g.LayerSet? && !RedAndEmpty(s.visible, g) {
      var isolated := s.(visible := GroupIsolated(s.visible, a, g));
      if HasVisibleContent(g, isolated.visible) {
        CheckAndExportRestoresCrop(isolated, a, artboard, folder, g, h);
      }
    }
  }

  /** The loop over an artboard's children, in terms of the groups among them. */
  lemma {:induction false} PassGroupsClassifies(s: RunState, a: Layer, artboard: Bounds, folder: string, cs: seq<Layer>, h: Host)
    requires !s.failed
    ensures var r := PassGroups(s, a, artboard, folder, cs, h);
      && (r.failed ==> Classified(s) <= Classified(r) <= Classified(s) + GroupLabels(a, cs))
      && (!r.failed ==> Classified(r) == Classified(s) + GroupLabels(a, cs))
    decreases |cs|
  {
    if cs != [] {
      var init, last := cs[..|cs| - 1], cs[|cs| - 1];
      PassGroupsClassifies(s, a, artboard, folder, init, h);
      var before := PassGroups(s, a, artboard, folder, init, h);
      var r := PassGroups(s, a, artboard, folder, cs, h);
      assert GroupLabels(a, cs) == GroupLabels(a, init) + GroupLabel(a, last);
      if before.failed {
        assert r == before;
        BagChain(Classified(s), Classified(r), Classified(r), GroupLabels(a, init), GroupLabel(a, last));
      } else {
        assert r == GroupStep(before, a, artboard, folder, last, h);
        GroupStepClassifies(before, a, artboard, folder, last, h);
        if r.failed {
          BagChain(Classified(s), Classified(before), Classified(r), GroupLabels(a, init), GroupLabel(a, last));
        } else {
          BagSum(Classified(s), Classified(before), Classified(r), GroupLabels(a, init), GroupLabel(a, last));
        }
      }
    }
  }

  /** The loop only appends to the lists. */
  lemma {:induction false} PassGroupsExtends(s: RunState, a: Layer, artboard: Bounds, folder: string, cs: seq<Layer>, h: Host)
    requires !s.failed
    ensures Extends(s, PassGroups(s, a, artboard, folder, cs, h))
    decreases |cs|
  {
    if cs != [] {
      var init, last := cs[..|cs| - 1], cs[|cs| - 1];
      PassGroupsExtends(s, a, artboard, folder, init, h);
      var before := PassGroups(s, a, artboard, folder, init, h);
      if !before.failed {
        GroupStepClassifies(before, a, artboard, folder, last, h);
      }
    }
  }

  lemma {:induction false} PassGroupsKeepsConsistent(s: RunState, a: Layer, artboard: Bounds, folder: string, cs: seq<Layer>, h: Host)
    requires !s.failed && Consistent(s)
    ensures Consistent(PassGroups(s, a, artboard, folder, cs, h))
    decreases |cs|
  {
    if cs != [] {
      var init, last := cs[..|cs| - 1], cs[|cs| - 1];
      PassGroupsKeepsConsistent(s, a, artboard, folder, init, h);
      var before := PassGroups(s, a, artboard, folder, init, h);
      if !before.failed {
        GroupStepKeepsConsistent(before, a, artboard, folder, last, h);
      }
    }
  }

  lemma {:induction false} PassGroupsRestoresCrop(s: RunState, a: Layer, artboard: Bounds, folder: string, cs: seq<Layer>, h: Host)
    requires !s.failed
    ensures var r := PassGroups(s, a, artboard, folder, cs, h);
      && (r.failed ==> r.crop == artboard)
      && (!r.failed ==> r.crop == s.crop)
    decreases |cs|
  {
    if cs != [] {
      var init, last := cs[..|cs| - 1], cs[|cs| - 1];
      PassGroupsRestoresCrop(s, a, artboard, folder, init, h);
      var before := PassGroups(s, a, artboard, folder, init, h);
      if !before.failed {
        GroupStepRestoresCrop(before, a, artboard, folder, last, h);
      }
    }
  }

  /** One top-level layer: an artboard contributes exactly its groups. */
  lemma ArtboardStepClassifies(s: RunState, top: seq<Layer>, folder: string, a: Layer, h: Host)
    requires !s.failed && Consistent(s)
    ensures var r := ArtboardStep(s, top, folder, a, h);
      && Extends(s, r)
      && Consistent(r)
      && (r.failed ==> Classified(s) <= Classified(r) <= Classified(s) + ArtboardLabels(a))
      && (!r.failed ==> Classified(r) == Classified(s) + ArtboardLabels(a) && r.crop == s.crop)
  {
    if a.LayerSet? && a.bounds.Some? {
      var isolated := s.(visible := ArtboardIsolated(s.visible, top, a));
      var r := PassGroups(isolated, a, a.bounds.value, folder, a.layers, h);
      assert ArtboardStep(s, top, folder, a, h) == r;
      assert Classified(isolated) == Classified(s) && Consistent(isolated);
      PassGroupsClassifies(isolated, a, a.bounds.value, folder, a.layers, h);
      PassGroupsKeepsConsistent(isolated, a, a.bounds.value, folder, a.layers, h);
      PassGroupsExtends(isolated, a, a.bounds.value, folder, a.layers, h);
      PassGroupsRestoresCrop(isolated, a, a.bounds.value, folder, a.layers, h);
    }
  }

  lemma {:induction false} PassLayersClassifies(s: RunState, top: seq<Layer>, folder: string, ls: seq<Layer>, h: Host)
    requires !s.failed && Consistent(s)
    ensures var r := PassLayers(s, top, folder, ls, h);
      && Extends(s, r)
      && Consistent(r)
      && (r.failed ==> Classified(s) <= Classified(r) <= Classified(s) + Candidates(ls))
      && (!r.failed ==> Classified(r) == Classified(s) + Candidates(ls) && r.crop == s.crop)
    decreases |ls|
  {
    if ls != [] {
      var init, last := ls[..|ls| - 1], ls[|ls| - 1];
      PassLayersClassifies(s, top, folder, init, h);
      var before := PassLayers(s, top, folder, init, h);
      var r := PassLayers(s, top, folder, ls, h);
      assert Candidates(ls) == Candidates(init) + ArtboardLabels(last);
      if before.failed {
        assert r == before;
        BagChain(Classified(s), Classified(r), Classified(r), Candidates(init), ArtboardLabels(last));
      } else {
        assert r == ArtboardStep(before, top, folder, last, h);
        ArtboardStepClassifies(before, top, folder, last, h);
        if r.failed {
          BagChain(Classified(s), Classified(before), Classified(r), Candidates(init), ArtboardLabels(last));
        } else {
          BagSum(Classified(s), Classified(before), Classified(r), Candidates(init), ArtboardLabels(last));
        }
      }
    }
  }

  /**
   * The whole pass over the document: when it completes, the four lists together hold
   * each group of each artboard exactly once (and nothing else), exported and modified
   * agree, and the crop is as it was; when an export raises, every entry recorded so far
   * is still one of the document's groups.
   */
  lemma PassClassifiesEveryGroupOnce(top: seq<Layer>, visible: Visibility, crop: Bounds,
                                     files: map<string, FileState>, folder: string, h: Host)
    ensures var r := PassLayers(Start(visible, crop, files), top, folder, top, h);
      && Consistent(r)
      && (!r.failed ==> Classified(r) == Candidates(top) && r.crop == crop)
      && (r.failed ==> Classified(r) <= Candidates(top))
  {
    var s := Start(visible, crop, files);
    assert Classified(s) == multiset{};
    PassLayersClassifies(s, top, folder, top, h);
  }
}
