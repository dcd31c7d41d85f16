/**
 * What the pass does to the `visible` flags (lines 217-222 and 246-267): while the groups
 * of an artboard are processed, the artboard is the only visible top-level layer; when a
 * group is isolated, its sibling groups and any "Crop Mask" beside it are hidden, and the
 * group and its children other than "Crop Mask" are shown. The pass touches no layer
 * outside the artboard it is working on.
 *
 * One consequence of the order of the loop body: the red check of line 238 reads the flags
 * as the previous groups left them, and isolating any group hides all its sibling groups.
 * Once one group of an artboard has been isolated, every later red-tagged sibling is seen
 * hidden, hence without visible content, and is skipped whatever it contains.
 */
module Isolation {
  import opened Common
  import opened Tree
  import opened ExportCheck
  import opened Naming
  import opened Report
  import opened Snapshot
  import opened Pass

  /** The artboard `a` is the one visible layer at the top level. */
  predicate TopOnly(v: Visibility, top: seq<Layer>, a: Layer)
  {
    forall l :: l in top ==> (IsVisible(v, l.id) <==> l.id == a.id)
  }

  /** `w` differs from `v` at most on the layers `ids`, and has the same layers. */
  predicate SameOutside(v: Visibility, w: Visibility, ids: set<LayerId>)
  {
    w.Keys == v.Keys && forall id :: id in v && id !in ids ==> w[id] == v[id]
  }

  /** Lines 217-222: the artboard is shown, every other top-level layer hidden. */
  lemma ArtboardIsolationShowsOnlyArtboard(v: Visibility, top: seq<Layer>, a: Layer)
    requires a in top && a.id in v
    ensures TopOnly(ArtboardIsolated(v, top, a), top, a)
    ensures SameOutside(v, ArtboardIsolated(v, top, a), TopIds(top))
  {
  }

  /** In a well-formed document, child `j` of top-level layer set `i` is a layer set. */
  predicate GroupAt(top: seq<Layer>, i: nat, j: nat)
  {
    WellFormed(top) && i < |top| && top[i].LayerSet? && j < |top[i].layers| && top[i].layers[j].LayerSet?
  }

  /** Isolating any group of an artboard changes flags inside that artboard only. */
  lemma GroupIsolationStaysInArtboard(top: seq<Layer>, i: nat, j: nat, v: Visibility)
    requires i < |top| && top[i].LayerSet? && j < |top[i].layers|
    ensures SameOutside(v, GroupIsolated(v, top[i], top[i].layers[j]), IdSet(top[i].layers))
  {
    var a := top[i];
    var g := a.layers[j];
    Within(top, i, j);
    assert g.id in IdsOf(g);
    forall c | c in Children(g) ensures c.id in IdSet(a.layers) {
      var p :| 0 <= p < |g.layers| && g.layers[p] == c;
      MemberWithin(g.layers, p);
      assert c.id in IdsOf(c);
    }
  }

  /** In a well-formed document no top-level layer lies inside an artboard. */
  lemma TopLayersOutsideArtboard(top: seq<Layer>, i: nat)
    requires WellFormed(top) && i < |top| && top[i].LayerSet?
    ensures forall l :: l in top ==> l.id in IdSet(top) && l.id !in IdSet(top[i].layers)
  {
    var a := top[i];
    NestedWellFormed(top, i);
    forall l | l in top ensures l.id in IdSet(top) && l.id !in IdSet(a.layers) {
      var m :| 0 <= m < |top| && top[m] == l;
      MemberWithin(top, m);
      assert l.id in IdsOf(l);
      if m != i {
        MembersDiffer(top, m, i);
        assert IdsOf(a) == [a.id] + Ids(a.layers);
      }
    }
  }

  /** The children of a group lie below it, apart from its siblings. */
  lemma ChildrenApart(top: seq<Layer>, i: nat, j: nat)
    requires GroupAt(top, i, j)
    ensures var a := top[i]; var g := a.layers[j];
      forall c :: c in g.layers ==>
        && c.id in IdSet(top)
        && c.id != g.id
        && (forall m :: 0 <= m < |a.layers| ==> a.layers[m].id != c.id)
        && (forall d :: d in g.layers && d.id == c.id ==> d == c)
  {
    var a := top[i];
    var g := a.layers[j];
    Within(top, i, j);
    NestedWellFormed(top, i);
    NestedWellFormed(a.layers, j);
    forall c | c in g.layers
      ensures c.id in IdSet(top) && c.id != g.id
      ensures forall m :: 0 <= m < |a.layers| ==> a.layers[m].id != c.id
      ensures forall d :: d in g.layers && d.id == c.id ==> d == c
    {
      var p :| 0 <= p < |g.layers| && g.layers[p] == c;
      MemberWithin(g.layers, p);
      assert c.id in IdsOf(c);
      forall m | 0 <= m < |a.layers| ensures a.layers[m].id != c.id {
        if m != j {
          MembersDiffer(a.layers, m, j);
        }
      }
      forall d | d in g.layers && d.id == c.id ensures d == c {
        var q :| 0 <= q < |g.layers| && g.layers[q] == d;
        if p != q {
          MembersDiffer(g.layers, p, q);
        }
      }
    }
  }

  /**
   * Lines 258-267 for child `j` of artboard `i`: the group and its children other than
   * "Crop Mask" end up visible; a "Crop Mask" inside the group keeps its flag.
   */
  lemma GroupIsolationShowsGroup(top: seq<Layer>, i: nat, j: nat, v: Visibility)
    requires GroupAt(top, i, j) && IdSet(top) <= v.Keys
    ensures var a := top[i]; var g := a.layers[j]; var w := GroupIsolated(v, a, g);
      && IsVisible(w, g.id)
      && (forall c :: c in g.layers && c.name != CropMask ==> IsVisible(w, c.id))
      && (forall c :: c in g.layers && c.name == CropMask ==> c.id in v && c.id in w && w[c.id] == v[c.id])
  {
    var a := top[i];
    var g := a.layers[j];
    Within(top, i, j);
    assert g.id in IdsOf(g);
    ChildrenApart(top, i, j);
  }

  /**
   * Lines 246-255 for child `j` of artboard `i`: every other group of the artboard, and
   * any "Crop Mask" among its children, ends up hidden; no top-level layer changes.
   */
  lemma GroupIsolationHidesSiblings(top: seq<Layer>, i: nat, j: nat, v: Visibility)
    requires GroupAt(top, i, j) && IdSet(top) <= v.Keys
    ensures var a := top[i]; var g := a.layers[j]; var w := GroupIsolated(v, a, g);
      && (forall m :: 0 <= m < |a.layers| && m != j && (a.layers[m].LayerSet? || a.layers[m].name == CropMask) ==>
            !IsVisible(w, a.layers[m].id))
      && (forall l :: l in top ==> l.id in v && w[l.id] == v[l.id])
  {
    var a := top[i];
    var g := a.layers[j];
    Within(top, i, j);
    NestedWellFormed(top, i);
    ChildrenApart(top, i, j);
    forall m | 0 <= m < |a.layers| && m != j ensures a.layers[m].id !in ShownForGroup(g) {
      MembersDiffer(a.layers, m, j);
    }
    GroupIsolationStaysInArtboard(top, i, j, v);
    TopLayersOutsideArtboard(top, i);
  }

  // ---------------------------------------------------------------------------
  // Along the loop over an artboard's children
  // ---------------------------------------------------------------------------

  /** One group step changes flags inside the artboard only, and keeps every layer known. */
  lemma GroupStepStaysInArtboard(top: seq<Layer>, i: nat, j: nat, s: RunState, artboard: Bounds, folder: string, h: Host)
    requires i < |top| && top[i].LayerSet? && j < |top[i].layers|
    requires !s.failed && IdSet(top) <= s.visible.Keys
    ensures var a := top[i];
      SameOutside(s.visible, GroupStep(s, a, artboard, folder, a.layers[j], h).visible, IdSet(a.layers))
  {
    var a := top[i];
    var g := a.layers[j];
    if g.LayerSet? && !RedAndEmpty(s.visible, g) {
      var isolated := s.(visible := GroupIsolated(s.visible, a, g));
      GroupIsolationStaysInArtboard(top, i, j, s.visible);
      Within(top, i, j);
      assert IdsOf(g) == [g.id] + Ids(g.layers);
      if HasVisibleContent(g, isolated.visible) {
        var path := GroupFilePath(folder, a.name, g.name);
        ShouldExportRestoresState(isolated, g, path, artboard, h);
      }
    }
  }

  /** The loop over the first `n` children of artboard `i` changes flags inside it only. */
  lemma {:induction false} PassGroupsStaysInArtboard(top: seq<Layer>, i: nat, s: RunState, artboard: Bounds,
                                                     folder: string, n: nat, h: Host)
    requires i < |top| && top[i].LayerSet? && n <= |top[i].layers|
    requires !s.failed && IdSet(top) <= s.visible.Keys
    ensures var a := top[i];
      SameOutside(s.visible, PassGroups(s, a, artboard, folder, a.layers[..n], h).visible, IdSet(a.layers))
    decreases n
  {
    var a := top[i];
    if n > 0 {
      PassGroupsStaysInArtboard(top, i, s, artboard, folder, n - 1, h);
      assert a.layers[..n][..n - 1] == a.layers[..n - 1];
      var before := PassGroups(s, a, artboard, folder, a.layers[..n - 1], h);
      if !before.failed {
        GroupStepStaysInArtboard(top, i, n - 1, before, artboard, folder, h);
      }
    }
  }

  /**
   * While the groups of artboard `i` are processed (lines 225-313), the artboard is the
   * only visible top-level layer.
   */
  lemma ArtboardStaysOnlyVisibleTopLayer(top: seq<Layer>, i: nat, s: RunState, folder: string, n: nat, h: Host)
    requires WellFormed(top) && i < |top| && top[i].LayerSet? && top[i].bounds.Some? && n <= |top[i].layers|
    requires !s.failed && IdSet(top) <= s.visible.Keys
    ensures var a := top[i];
      var start := s.(visible := ArtboardIsolated(s.visible, top, a));
      TopOnly(PassGroups(start, a, a.bounds.value, folder, a.layers[..n], h).visible, top, a)
  {
    var a := top[i];
    var start := s.(visible := ArtboardIsolated(s.visible, top, a));
    TopLayersOutsideArtboard(top, i);
    ArtboardIsolationShowsOnlyArtboard(s.visible, top, a);
    PassGroupsStaysInArtboard(top, i, start, a.bounds.value, folder, n, h);
  }

  /** The group is isolated: it is a group, and the red check did not skip it. */
  predicate Isolates(v: Visibility, g: Layer)
  {
    g.LayerSet? && !RedAndEmpty(v, g)
  }

  /**
   * After the step for child `j`, a sibling group that was hidden is still hidden, and if
   * child `j` was isolated, every sibling group is hidden.
   */
  lemma GroupStepHidesOtherGroups(top: seq<Layer>, i: nat, j: nat, s: RunState, artboard: Bounds, folder: string, h: Host)
    requires WellFormed(top) && i < |top| && top[i].LayerSet? && j < |top[i].layers|
    requires !s.failed && IdSet(top) <= s.visible.Keys
    ensures var a := top[i]; var r := GroupStep(s, a, artboard, folder, a.layers[j], h);
      forall m ::
        0 <= m < |a.layers| && m != j && a.layers[m].LayerSet? &&
        (!IsVisible(s.visible, a.layers[m].id) || Isolates(s.visible, a.layers[j]))
        ==> !IsVisible(r.visible, a.layers[m].id)
  {
    var a := top[i];
    var g := a.layers[j];
    if Isolates(s.visible, g) {
      var isolated := s.(visible := GroupIsolated(s.visible, a, g));
      GroupIsolationHidesSiblings(top, i, j, s.visible);
      GroupIsolationStaysInArtboard(top, i, j, s.visible);
      Within(top, i, j);
      NestedWellFormed(top, i);
      forall m | 0 <= m < |a.layers| && m != j ensures a.layers[m].id !in IdSet(Children(g)) {
        MembersDiffer(a.layers, m, j);
        assert IdsOf(g) == [g.id] + Ids(g.layers);
      }
      if HasVisibleContent(g, isolated.visible) {
        var path := GroupFilePath(folder, a.name, g.name);
        assert IdsOf(g) == [g.id] + Ids(g.layers);
        ShouldExportRestoresState(isolated, g, path, artboard, h);
      }
    }
  }

  /** Every group among the children of `a` from position `n` on is hidden in `v`. */
  predicate GroupsHiddenFrom(v: Visibility, a: Layer, n: nat)
    requires a.LayerSet?
  {
    forall m :: n <= m < |a.layers| && a.layers[m].LayerSet? ==> !IsVisible(v, a.layers[m].id)
  }

  /**
   * The step for child `n - 1` keeps every later sibling group hidden, when either that
   * child is isolated or those siblings were hidden already.
   */
  lemma StepKeepsLaterGroupsHidden(top: seq<Layer>, i: nat, prev: RunState, artboard: Bounds,
                                   folder: string, h: Host, n: nat, isolating: bool)
    requires WellFormed(top) && i < |top| && top[i].LayerSet? && 0 < n <= |top[i].layers|
    requires !prev.failed && IdSet(top) <= prev.visible.Keys
    requires var a := top[i];
      if isolating then Isolates(prev.visible, a.layers[n - 1])
      else GroupsHiddenFrom(prev.visible, a, n - 1)
    ensures var a := top[i]; var r := GroupStep(prev, a, artboard, folder, a.layers[n - 1], h);
      GroupsHiddenFrom(r.visible, a, n)
  {
    GroupStepHidesOtherGroups(top, i, n - 1, prev, artboard, folder, h);
  }

  /** After the loop's first `n` turns over artboard `i`, unless it raised, every later sibling group is hidden. */
  predicate HiddenAfterTurns(top: seq<Layer>, i: nat, s: RunState, artboard: Bounds, folder: string, h: Host, n: nat)
    requires i < |top| && top[i].LayerSet? && n <= |top[i].layers|
  {
    var a := top[i];
    var r := PassGroups(s, a, artboard, folder, a.layers[..n], h);
    !r.failed ==> GroupsHiddenFrom(r.visible, a, n)
  }

  /**
   * One more turn of the loop over the children of artboard `i` keeps every later
   * sibling group hidden, when the child it handles is isolated or those siblings were
   * hidden already.
   */
  lemma PassGroupsKeepsLaterGroupsHidden(top: seq<Layer>, i: nat, s: RunState, artboard: Bounds,
                                         folder: string, h: Host, n: nat, isolating: bool)
    requires WellFormed(top) && i < |top| && top[i].LayerSet? && 0 < n <= |top[i].layers|
    requires !s.failed && IdSet(top) <= s.visible.Keys
    requires var a := top[i]; var prev := PassGroups(s, a, artboard, folder, a.layers[..n - 1], h);
      if isolating then !prev.failed && Isolates(prev.visible, a.layers[n - 1])
      else HiddenAfterTurns(top, i, s, artboard, folder, h, n - 1)
    ensures HiddenAfterTurns(top, i, s, artboard, folder, h, n)
  {
    var a := top[i];
    if !PassGroups(s, a, artboard, folder, a.layers[..n - 1], h).failed {
      PassGroupsStaysInArtboard(top, i, s, artboard, folder, n - 1, h);
      StepKeepsLaterGroupsHidden(top, i, PassGroups(s, a, artboard, folder, a.layers[..n - 1], h), artboard, folder, h, n, isolating);
    }
    assert a.layers[..n] == a.layers[..n - 1] + [a.layers[n - 1]];
    PassGroupsSnoc(s, a, artboard, folder, a.layers[..n - 1], a.layers[n - 1], h);
  }

  /**
   * Once child `j0` of artboard `i` has been isolated, every later sibling group stays
   * hidden for as long as the loop runs.
   */
  lemma {:induction false} LaterGroupsStayHidden(top: seq<Layer>, i: nat, s: RunState, artboard: Bounds,
                                                 folder: string, h: Host, j0: nat, n: nat)
    requires WellFormed(top) && i < |top| && top[i].LayerSet? && j0 < n <= |top[i].layers|
    requires !s.failed && IdSet(top) <= s.visible.Keys
    requires var a := top[i]; var before := PassGroups(s, a, artboard, folder, a.layers[..j0], h);
      !before.failed && Isolates(before.visible, a.layers[j0])
    ensures var a := top[i]; var r := PassGroups(s, a, artboard, folder, a.layers[..n], h);
      !r.failed ==> GroupsHiddenFrom(r.visible, a, n)
    decreases n
  {
    if n - 1 > j0 {
      LaterGroupsStayHidden(top, i, s, artboard, folder, h, j0, n - 1);
      assert HiddenAfterTurns(top, i, s, artboard, folder, h, n - 1);
    }
    PassGroupsKeepsLaterGroupsHidden(top, i, s, artboard, folder, h, n, n - 1 == j0);
    assert HiddenAfterTurns(top, i, s, artboard, folder, h, n);
  }

  /**
   * The red check reads stale flags: once any earlier sibling has been isolated, a group
   * tagged red is skipped as "not ready" whatever it contains, and nothing else happens
   * in its step.
   */
  lemma RedGroupAfterIsolatedSiblingIsSkipped(top: seq<Layer>, i: nat, s: RunState, artboard: Bounds,
                                              folder: string, h: Host, j0: nat, j: nat)
    requires WellFormed(top) && i < |top| && top[i].LayerSet? && j0 < j < |top[i].layers|
    requires !s.failed && IdSet(top) <= s.visible.Keys
    requires var a := top[i]; var before := PassGroups(s, a, artboard, folder, a.layers[..j0], h);
      !before.failed && Isolates(before.visible, a.layers[j0])
    requires top[i].layers[j].LayerSet? && top[i].layers[j].color == Some(Red)
    ensures var a := top[i]; var p := PassGroups(s, a, artboard, folder, a.layers[..j], h);
      !p.failed ==>
        PassGroups(s, a, artboard, folder, a.layers[..j + 1], h) ==
        p.(skippedGroups := p.skippedGroups + [Info(a, a.layers[j])])
  {
    var a := top[i];
    var p := PassGroups(s, a, artboard, folder, a.layers[..j], h);
    if !p.failed {
      LaterGroupsStayHidden(top, i, s, artboard, folder, h, j0, j);
      assert !IsVisible(p.visible, a.layers[j].id);
      assert a.layers[..j + 1][..j] == a.layers[..j];
      assert RedAndEmpty(p.visible, a.layers[j]);
    }
  }

  // ---------------------------------------------------------------------------
  // The whole pass, and the `finally` of lines 316-318
  // ---------------------------------------------------------------------------

  /** A top-level step keeps every layer of the document in the map. */
  lemma ArtboardStepKeepsLayers(top: seq<Layer>, s: RunState, folder: string, a: Layer, h: Host)
    requires a in top && !s.failed && IdSet(top) <= s.visible.Keys
    ensures ArtboardStep(s, top, folder, a, h).visible.Keys == s.visible.Keys
  {
    if a.LayerSet? && a.bounds.Some? {
      var i :| 0 <= i < |top| && top[i] == a;
      var start := s.(visible := ArtboardIsolated(s.visible, top, a));
      PassGroupsStaysInArtboard(top, i, start, a.bounds.value, folder, |a.layers|, h);
      assert a.layers[..|a.layers|] == a.layers;
    }
  }

  lemma {:induction false} PassLayersKeepsLayers(top: seq<Layer>, s: RunState, folder: string, ls: seq<Layer>, h: Host)
    requires forall l :: l in ls ==> l in top
    requires !s.failed && IdSet(top) <= s.visible.Keys
    ensures PassLayers(s, top, folder, ls, h).visible.Keys == s.visible.Keys
    decreases |ls|
  {
    if ls != [] {
      var init := ls[..|ls| - 1];
      assert forall l :: l in init ==> l in ls;
      PassLayersKeepsLayers(top, s, folder, init, h);
      var before := PassLayers(s, top, folder, init, h);
      if !before.failed {
        ArtboardStepKeepsLayers(top, before, folder, ls[|ls| - 1], h);
      }
    }
  }

  /**
   * Lines 157 and 316-318: whether the pass completes or an export raises, writing back
   * the snapshot taken before it gives every layer the flag it had before the run.
   */
  lemma FinallyRestoresEveryFlag(top: seq<Layer>, s: RunState, folder: string, h: Host)
    requires !s.failed && s.visible.Keys == IdSet(top)
    ensures var r := PassLayers(s, top, folder, top, h);
      Restored(r.visible, Capture(top, s.visible)) == s.visible
  {
    var r := PassLayers(s, top, folder, top, h);
    PassLayersKeepsLayers(top, s, folder, top, h);
    RestoreAfterCapture(top, s.visible, r.visible);
  }
}
