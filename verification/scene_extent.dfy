/**
 The extent of everything on screen: the union of the layers' extents, taken
 layer by layer in drawing order, as the viewer does before zooming to it.
 */
module SceneExtent {
  import opened Geometry
  import opened Drawing

  /** The union of the extents of `layers`, folded from the first layer to the last. */
  function ViewExtent(layers: seq<Layer>): Extent
  {
    if |layers| == 0 then Empty
    else ViewExtent(layers[..|layers| - 1]).ExpandTo(layers[|layers| - 1].extent)
  }

  /** The view extent encloses every layer's extent. */
  lemma {:induction false} ViewExtentCovers(layers: seq<Layer>, i: int)
    requires 0 <= i < |layers|
    ensures ViewExtent(layers).Covers(layers[i].extent)
  {
    var n := |layers| - 1;
    if i < n {
      ViewExtentCovers(layers[..n], i);
      var v := ViewExtent(layers[..n]);
      CoversTransitive(v.ExpandTo(layers[n].extent), v, layers[i].extent);
    }
  }

  /** The view extent is the least one: any extent enclosing every layer encloses it. */
  lemma {:induction false} ViewExtentLeast(layers: seq<Layer>, c: Extent)
    requires forall i :: 0 <= i < |layers| ==> c.Covers(layers[i].extent)
    ensures c.Covers(ViewExtent(layers))
  {
    if |layers| > 0 {
      var n := |layers| - 1;
      ViewExtentLeast(layers[..n], c);
      ExpandToLeast(ViewExtent(layers[..n]), layers[n].extent, c);
    }
  }

  /** The view extent is empty exactly when every layer's extent is. */
  lemma {:induction false} ViewExtentEmptyIff(layers: seq<Layer>)
    ensures ViewExtent(layers).Empty? <==> forall i :: 0 <= i < |layers| ==> layers[i].extent.Empty?
  {
    if |layers| > 0 {
      var n := |layers| - 1;
      ViewExtentEmptyIff(layers[..n]);
      assert forall i :: 0 <= i < n ==> layers[..n][i] == layers[i];
    }
  }

  /** Valid layer extents give a valid view extent. */
  lemma {:induction false} ViewExtentValid(layers: seq<Layer>)
    requires forall i :: 0 <= i < |layers| ==> layers[i].extent.Valid()
    ensures ViewExtent(layers).Valid()
  {
    if |layers| > 0 {
      ViewExtentValid(layers[..|layers| - 1]);
    }
  }

  lemma CoversTransitive(a: Extent, b: Extent, c: Extent)
    requires a.Covers(b) && b.Covers(c)
    ensures a.Covers(c)
  {
  }

  /** The rectangle the viewer zooms to, accumulated over the layers with a loop. */
  method ZoomAllRect(layers: seq<Layer>) returns (r: RectF)
    ensures r == RectFromExtent(ViewExtent(layers))
    ensures (forall i :: 0 <= i < |layers| ==> layers[i].extent.Empty?) ==> r == NullRect
  {
    var extent := Empty;
    for i := 0 to |layers|
      invariant extent == ViewExtent(layers[..i])
    {
      assert layers[..i + 1][..i] == layers[..i];
      extent := extent.ExpandTo(layers[i].extent);
    }
    assert layers[..|layers|] == layers;
    ViewExtentEmptyIff(layers);
    r := RectFromExtent(extent);
  }
}
