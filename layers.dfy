/**
 * The document's layer tree and the pure predicates the export script evaluates on it.
 *
 * A layer is either an art layer (a leaf with pixel bounds) or a layer set (a group with
 * an optional colour tag and ordered children). Visibility is not part of the tree: the
 * script flips `layer.visible` in place, so the model keeps it in a separate map from
 * layer identity to flag, owned by the document.
 */
module Tree {
  import opened Common

  /** The identity of a layer object in the host document. */
  type LayerId = nat

  /** The `visible` flag of every layer, by identity. */
  type Visibility = map<LayerId, bool>

  /** The four edges `bounds[0..3]` of a layer, in pixels. */
  datatype Bounds = Bounds(left: real, top: real, right: real, bottom: real)

  /** The name of the sentinel layer that is never shown for an export. */
  const CropMask: string := "Crop Mask"
  /** The colour tag that marks a group as not ready. */
  const Red: string := "red"
  /** The colour tag that marks a group as ready (cosmetic only). */
  const Green: string := "green"

  /**
   * `bounds` is None when reading the bounds raises; `color` is None when reading the
   * colour tag raises (the null of `getGroupColor`, lines 160-167).
   */
  datatype Layer =
    | ArtLayer(id: LayerId, name: string, bounds: Option<Bounds>)
    | LayerSet(id: LayerId, name: string, bounds: Option<Bounds>, color: Option<string>, layers: seq<Layer>)

  predicate IsVisible(vis: Visibility, id: LayerId)
  {
    id in vis && vis[id]
  }

  // ---------------------------------------------------------------------------
  // Identities, in the pre-order in which the script walks the tree
  // ---------------------------------------------------------------------------

  /** The identities of `l` and all its descendants, `l` first. */
  function IdsOf(l: Layer): seq<LayerId>
  {
    [l.id] + (if l.LayerSet? then Ids(l.layers) else [])
  }

  /** The identities of every layer in the forest `ls`, in pre-order. */
  function Ids(ls: seq<Layer>): seq<LayerId>
  {
    if ls == [] then [] else IdsOf(ls[0]) + Ids(ls[1..])
  }

  function IdSet(ls: seq<Layer>): set<LayerId>
  {
    set x | x in Ids(ls)
  }

  predicate Distinct(s: seq<LayerId>)
  {
    forall i, j :: 0 <= i < j < |s| ==> s[i] != s[j]
  }

  /** A forest of distinct layer objects: no layer occurs twice. */
  predicate WellFormed(ls: seq<Layer>)
  {
    Distinct(Ids(ls))
  }

  // ---------------------------------------------------------------------------
  // Content predicates (lines 170-191)
  // ---------------------------------------------------------------------------

  /**
   * `isLayerEmpty`: a layer is blank when its bounds are at most one pixel wide or high,
   * or when reading them raises.
   */
  predicate IsLayerEmpty(l: Layer)
  {
    match l.bounds
    case None => true
    case Some(b) => b.right - b.left <= 1.0 || b.bottom - b.top <= 1.0
  }

  /** `hasVisibleContent`: a hidden layer has none; a group has some when a child has some. */
  function HasVisibleContent(l: Layer, vis: Visibility): (r: bool)
    ensures !IsVisible(vis, l.id) ==> !r
    ensures IsVisible(vis, l.id) && l.ArtLayer? ==> (r <==> !IsLayerEmpty(l))
  {
    if !IsVisible(vis, l.id) then false
    else if l.LayerSet? then AnyVisibleContent(l.layers, vis)
    else !IsLayerEmpty(l)
  }

  /** The loop of lines 184-186: the first child with visible content ends the search. */
  function AnyVisibleContent(ls: seq<Layer>, vis: Visibility): bool
  {
    if ls == [] then false
    else HasVisibleContent(ls[0], vis) || AnyVisibleContent(ls[1..], vis)
  }

  /** The loop over the children finds visible content iff some child has it. */
  lemma {:induction false} AnyVisibleContentFindsChild(ls: seq<Layer>, vis: Visibility)
    ensures AnyVisibleContent(ls, vis) <==> exists k :: 0 <= k < |ls| && HasVisibleContent(ls[k], vis)
  {
    if ls != [] {
      AnyVisibleContentFindsChild(ls[1..], vis);
      if exists k :: 0 <= k < |ls| && HasVisibleContent(ls[k], vis) {
        var k :| 0 <= k < |ls| && HasVisibleContent(ls[k], vis);
        if k > 0 {
          assert ls[1..][k - 1] == ls[k];
        }
      }
      if AnyVisibleContent(ls[1..], vis) {
        var k :| 0 <= k < |ls[1..]| && HasVisibleContent(ls[1..][k], vis);
        assert ls[k + 1] == ls[1..][k];
      }
    }
  }

  /** A visible group has visible content iff some child has. */
  lemma VisibleGroupHasContentInAChild(l: Layer, vis: Visibility)
    requires IsVisible(vis, l.id) && l.LayerSet?
    ensures HasVisibleContent(l, vis) <==> exists k :: 0 <= k < |l.layers| && HasVisibleContent(l.layers[k], vis)
  {
    AnyVisibleContentFindsChild(l.layers, vis);
  }

  /**
   * An independent reading of visible content: `path` leads, through child indices and
   * visible layers only, to a visible leaf that is not blank.
   */
  ghost predicate ShowsLeafAt(l: Layer, path: seq<nat>, vis: Visibility)
    decreases |path|
  {
    IsVisible(vis, l.id) &&
    if path == [] then l.ArtLayer? && !IsLayerEmpty(l)
    else l.LayerSet? && path[0] < |l.layers| && ShowsLeafAt(l.layers[path[0]], path[1..], vis)
  }

  /** A layer has visible content exactly when some path shows a non-blank leaf. */
  lemma {:induction false} VisibleContentHasWitness(l: Layer, vis: Visibility)
    ensures HasVisibleContent(l, vis) <==> exists path :: ShowsLeafAt(l, path, vis)
  {
    if HasVisibleContent(l, vis) {
      var p := WitnessPath(l, vis);
      assert exists path :: ShowsLeafAt(l, path, vis) by { assert ShowsLeafAt(l, p, vis); }
    } else {
      forall path | ShowsLeafAt(l, path, vis) ensures false {
        PathShowsContent(l, path, vis);
      }
    }
  }

  lemma {:induction false} WitnessPath(l: Layer, vis: Visibility) returns (path: seq<nat>)
    requires HasVisibleContent(l, vis)
    ensures ShowsLeafAt(l, path, vis)
  {
    if l.LayerSet? {
      VisibleGroupHasContentInAChild(l, vis);
      var k :| 0 <= k < |l.layers| && HasVisibleContent(l.layers[k], vis);
      var rest := WitnessPath(l.layers[k], vis);
      path := [k] + rest;
      assert path[0] == k && path[1..] == rest;
    } else {
      path := [];
    }
  }

  lemma {:induction false} PathShowsContent(l: Layer, path: seq<nat>, vis: Visibility)
    requires ShowsLeafAt(l, path, vis)
    ensures HasVisibleContent(l, vis)
    decreases |path|
  {
    if path != [] {
      PathShowsContent(l.layers[path[0]], path[1..], vis);
      VisibleGroupHasContentInAChild(l, vis);
    }
  }

  /**
   * Visible content needs every layer on the way down to be visible, not just the leaf:
   * a visible group whose only non-blank leaf sits in a hidden sub-group has none.
   */
  lemma HiddenSubgroupHidesItsLeaves()
    ensures
      var leaf := ArtLayer(2, "shape", Some(Bounds(0.0, 0.0, 10.0, 10.0)));
      var inner := LayerSet(1, "inner", None, None, [leaf]);
      var outer := LayerSet(0, "outer", None, None, [inner]);
      var vis := map[0 := true, 1 := false, 2 := true];
      IsVisible(vis, outer.id) && IsVisible(vis, leaf.id) && !IsLayerEmpty(leaf) &&
      !HasVisibleContent(outer, vis)
  {
    var leaf := ArtLayer(2, "shape", Some(Bounds(0.0, 0.0, 10.0, 10.0)));
    var inner := LayerSet(1, "inner", None, None, [leaf]);
    var outer := LayerSet(0, "outer", None, None, [inner]);
    var vis := map[0 := true, 1 := false, 2 := true];
    assert !HasVisibleContent(inner, vis);
    assert [inner][1..] == [];
    assert !AnyVisibleContent(outer.layers, vis);
  }

  // ---------------------------------------------------------------------------
  // Where identities sit in the pre-order
  // ---------------------------------------------------------------------------

  /** The pre-order of a forest is its parts' pre-orders laid end to end. */
  lemma {:induction false} IdsSplit(ls: seq<Layer>, k: nat)
    requires k < |ls|
    ensures Ids(ls) == Ids(ls[..k]) + IdsOf(ls[k]) + Ids(ls[k + 1..])
  {
    if k == 0 {
      assert ls[..0] == [];
    } else {
      IdsSplit(ls[1..], k - 1);
      assert ls[1..][..k - 1] == ls[1..k];
      assert ls[1..][k - 1 + 1..] == ls[k + 1..];
      assert ls[..k][0] == ls[0] && ls[..k][1..] == ls[1..k];
    }
  }

  lemma DistinctConcat(a: seq<LayerId>, b: seq<LayerId>)
    requires Distinct(a + b)
    ensures Distinct(a) && Distinct(b)
    ensures forall x :: x in a ==> x !in b
  {
    forall i, j | 0 <= i < j < |a| ensures a[i] != a[j] {
      assert (a + b)[i] == a[i] && (a + b)[j] == a[j];
    }
    forall i, j | 0 <= i < j < |b| ensures b[i] != b[j] {
      assert (a + b)[|a| + i] == b[i] && (a + b)[|a| + j] == b[j];
    }
    forall i, j | 0 <= i < |a| && 0 <= j < |b| ensures a[i] != b[j] {
      assert (a + b)[i] == a[i] && (a + b)[|a| + j] == b[j];
    }
  }

  /** A member before position `k` lies in the pre-order of the first `k` members. */
  lemma InPrefix(ls: seq<Layer>, k: nat, m: nat)
    requires m < k <= |ls|
    ensures forall x :: x in IdsOf(ls[m]) ==> x in Ids(ls[..k])
  {
    IdsSplit(ls[..k], m);
    assert ls[..k][m] == ls[m];
  }

  /** A member after position `k` lies in the pre-order of the members after `k`. */
  lemma InSuffix(ls: seq<Layer>, k: nat, m: nat)
    requires k < m < |ls|
    ensures forall x :: x in IdsOf(ls[m]) ==> x in Ids(ls[k + 1..])
  {
    IdsSplit(ls[k + 1..], m - k - 1);
    assert ls[k + 1..][m - k - 1] == ls[m];
  }

  /** In a well-formed forest each member is a well-formed subtree, disjoint from the others. */
  lemma MemberIds(ls: seq<Layer>, k: nat)
    requires WellFormed(ls) && k < |ls|
    ensures Distinct(IdsOf(ls[k]))
    ensures forall x :: x in IdsOf(ls[k]) ==> x in Ids(ls)
    ensures forall m, x :: 0 <= m < |ls| && m != k && x in IdsOf(ls[k]) ==> x !in IdsOf(ls[m])
  {
    IdsSplit(ls, k);
    var before, here, after := Ids(ls[..k]), IdsOf(ls[k]), Ids(ls[k + 1..]);
    assert Ids(ls) == (before + here) + after;
    DistinctConcat(before + here, after);
    DistinctConcat(before, here);
    forall m, x | 0 <= m < |ls| && m != k && x in IdsOf(ls[k]) ensures x !in IdsOf(ls[m]) {
      if m < k {
        InPrefix(ls, k, m);
      } else {
        InSuffix(ls, k, m);
      }
    }
  }

  /** A layer set's own identity does not recur among its descendants. */
  lemma SetIds(l: Layer)
    requires l.LayerSet? && Distinct(IdsOf(l))
    ensures Distinct(Ids(l.layers)) && l.id !in Ids(l.layers)
  {
    DistinctConcat([l.id], Ids(l.layers));
  }

  /** Every layer of a member of a forest is a layer of the forest. */
  lemma MemberWithin(ls: seq<Layer>, k: nat)
    requires k < |ls|
    ensures forall x :: x in IdsOf(ls[k]) ==> x in Ids(ls)
  {
    IdsSplit(ls, k);
  }

  /** A member of a forest is one of its layers. */
  lemma MemberIdIn(ls: seq<Layer>, k: nat)
    requires k < |ls|
    ensures ls[k].id in IdSet(ls)
  {
    MemberWithin(ls, k);
    assert ls[k].id in IdsOf(ls[k]);
  }

  /**
   * Child `j` of member `i` of a forest, and everything below it, are layers of the
   * forest; so is every other child of member `i`.
   */
  lemma Within(ls: seq<Layer>, i: nat, j: nat)
    requires i < |ls| && ls[i].LayerSet? && j < |ls[i].layers|
    ensures forall x :: x in Ids(ls[i].layers) ==> x in Ids(ls)
    ensures forall x :: x in IdsOf(ls[i].layers[j]) ==> x in Ids(ls[i].layers)
    ensures forall m :: 0 <= m < |ls[i].layers| ==> ls[i].layers[m].id in Ids(ls[i].layers)
  {
    MemberWithin(ls, i);
    MemberWithin(ls[i].layers, j);
    forall m | 0 <= m < |ls[i].layers| ensures ls[i].layers[m].id in Ids(ls[i].layers) {
      MemberWithin(ls[i].layers, m);
    }
  }

  /** Below a layer set of a well-formed forest lies a well-formed forest without it. */
  lemma NestedWellFormed(ls: seq<Layer>, k: nat)
    requires WellFormed(ls) && k < |ls| && ls[k].LayerSet?
    ensures WellFormed(ls[k].layers) && ls[k].id !in Ids(ls[k].layers)
  {
    MemberIds(ls, k);
    SetIds(ls[k]);
  }

  /** Distinct members of a well-formed forest have distinct identities. */
  lemma MembersDiffer(ls: seq<Layer>, p: nat, q: nat)
    requires WellFormed(ls) && p < |ls| && q < |ls| && p != q
    ensures ls[p].id != ls[q].id
    ensures ls[p].id !in IdsOf(ls[q])
  {
    MemberIds(ls, p);
    assert ls[p].id in IdsOf(ls[p]) && ls[q].id in IdsOf(ls[q]);
  }
}
