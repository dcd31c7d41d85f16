/**
 * The visibility guard (lines 39-61): `storeVisibilities` walks the layer tree and pushes
 * one (layer, visible) entry per layer, in pre-order; `restoreVisibilities` writes every
 * recorded flag back, first entry first. The same walk over a group's descendants is
 * `storeTemp` (lines 99-110), whose entries lines 143-146 write back.
 */
module Snapshot {
  import opened Tree

  /** One pushed entry `{ layer: layer, visible: layer.visible }`. */
  datatype Saved = Saved(layer: LayerId, visible: bool)

  /** The entries pushed for `l` and, below it, for its descendants. */
  function CaptureOf(l: Layer, vis: Visibility): seq<Saved>
  {
    [Saved(l.id, IsVisible(vis, l.id))] + (if l.LayerSet? then Capture(l.layers, vis) else [])
  }

  /** The entries `storeVisibilities(ls)` pushes. */
  function Capture(ls: seq<Layer>, vis: Visibility): seq<Saved>
  {
    if ls == [] then [] else CaptureOf(ls[0], vis) + Capture(ls[1..], vis)
  }

  /** Capturing two forests one after the other: the entries of the first, then the second. */
  lemma {:induction false} CaptureConcat(a: seq<Layer>, b: seq<Layer>, vis: Visibility)
    ensures Capture(a + b, vis) == Capture(a, vis) + Capture(b, vis)
    decreases |a|
  {
    if |a| == 0 {
      assert a + b == b;
    } else {
      assert (a + b)[0] == a[0];
      assert (a + b)[1..] == a[1..] + b;
      CaptureConcat(a[1..], b, vis);
    }
  }

  /** One more layer walked: its entries follow those of the layers before it. */
  lemma CaptureSnoc(ls: seq<Layer>, i: nat, vis: Visibility)
    requires i < |ls|
    ensures Capture(ls[..i + 1], vis) == Capture(ls[..i], vis) + CaptureOf(ls[i], vis)
  {
    assert ls[..i + 1] == ls[..i] + [ls[i]];
    CaptureConcat(ls[..i], [ls[i]], vis);
    assert Capture([ls[i]], vis) == CaptureOf(ls[i], vis) + Capture([], vis);
  }

  /** The visibility after writing back every entry of `snap`, first to last. */
  function Restored(vis: Visibility, snap: seq<Saved>): Visibility
    decreases |snap|
  {
    if snap == [] then vis
    else Restored(vis[snap[0].layer := snap[0].visible], snap[1..])
  }

  /** The snapshot holds one entry per layer, in pre-order, with the flag it had. */
  lemma {:induction false} CaptureFollowsPreOrder(ls: seq<Layer>, vis: Visibility)
    ensures |Capture(ls, vis)| == |Ids(ls)|
    ensures forall k :: 0 <= k < |Ids(ls)| ==>
      Capture(ls, vis)[k] == Saved(Ids(ls)[k], IsVisible(vis, Ids(ls)[k]))
  {
    if ls != [] {
      CaptureOfFollowsPreOrder(ls[0], vis);
      CaptureFollowsPreOrder(ls[1..], vis);
    }
  }

  lemma {:induction false} CaptureOfFollowsPreOrder(l: Layer, vis: Visibility)
    ensures |CaptureOf(l, vis)| == |IdsOf(l)|
    ensures forall k :: 0 <= k < |IdsOf(l)| ==>
      CaptureOf(l, vis)[k] == Saved(IdsOf(l)[k], IsVisible(vis, IdsOf(l)[k]))
  {
    if l.LayerSet? {
      CaptureFollowsPreOrder(l.layers, vis);
    }
  }

  /** The layers a snapshot has entries for. */
  function Covered(snap: seq<Saved>): set<LayerId>
  {
    set k | 0 <= k < |snap| :: snap[k].layer
  }

  /** Every entry of `snap` records the flag its layer has in `vis`. */
  ghost predicate TakenFrom(snap: seq<Saved>, vis: Visibility)
  {
    forall k :: 0 <= k < |snap| ==> snap[k].layer in vis && snap[k].visible == vis[snap[k].layer]
  }

  /**
   * Writing back a snapshot taken from `v0` over any later state `v1` gives every covered
   * layer its flag from `v0` and leaves every other layer as `v1` has it.
   */
  lemma {:induction false} RestoreGivesBack(v1: Visibility, snap: seq<Saved>, v0: Visibility)
    requires TakenFrom(snap, v0)
    ensures Restored(v1, snap).Keys == v1.Keys + Covered(snap)
    ensures forall id :: id in Restored(v1, snap) ==>
      Restored(v1, snap)[id] == if id in Covered(snap) then v0[id] else v1[id]
    decreases |snap|
  {
    if snap != [] {
      var e := snap[0];
      RestoreGivesBack(v1[e.layer := e.visible], snap[1..], v0);
      assert Covered(snap) == {e.layer} + Covered(snap[1..]) by {
        forall x | x in Covered(snap) ensures x in {e.layer} + Covered(snap[1..]) {
          var k :| 0 <= k < |snap| && snap[k].layer == x;
          if k > 0 { assert snap[1..][k - 1] == snap[k]; }
        }
        forall x | x in Covered(snap[1..]) ensures x in Covered(snap) {
          var k :| 0 <= k < |snap[1..]| && snap[1..][k].layer == x;
          assert snap[k + 1] == snap[1..][k];
        }
      }
    }
  }

  /**
   * A capture of layers the map knows covers exactly those layers, each entry with the
   * flag the layer had.
   */
  lemma CaptureCovers(ls: seq<Layer>, vis: Visibility)
    requires IdSet(ls) <= vis.Keys
    ensures Covered(Capture(ls, vis)) == IdSet(ls)
    ensures TakenFrom(Capture(ls, vis), vis)
  {
    var snap := Capture(ls, vis);
    CaptureFollowsPreOrder(ls, vis);
    forall x | x in IdSet(ls) ensures x in Covered(snap) {
      var k :| 0 <= k < |Ids(ls)| && Ids(ls)[k] == x;
      assert snap[k].layer == x;
    }
  }

  /**
   * Capture, then any visibility changes at all, then restore: the document is back to
   * the captured state, provided the layers and the map's keys are the same.
   */
  lemma RestoreAfterCapture(ls: seq<Layer>, v0: Visibility, v1: Visibility)
    requires v0.Keys == IdSet(ls) && v1.Keys == IdSet(ls)
    ensures Restored(v1, Capture(ls, v0)) == v0
  {
    CaptureCovers(ls, v0);
    RestoreGivesBack(v1, Capture(ls, v0), v0);
  }

  /**
   * The guard of lines 96-110 and 143-146: whatever happens to the captured layers in
   * between, and only to them, writing the capture back returns the map it was taken from.
   */
  lemma RestoreUndoesChangesBelow(ls: seq<Layer>, v0: Visibility, v1: Visibility)
    requires IdSet(ls) <= v0.Keys && v1.Keys == v0.Keys
    requires forall id :: id in v0 && id !in IdSet(ls) ==> v1[id] == v0[id]
    ensures Restored(v1, Capture(ls, v0)) == v0
  {
    CaptureCovers(ls, v0);
    RestoreGivesBack(v1, Capture(ls, v0), v0);
  }
}
