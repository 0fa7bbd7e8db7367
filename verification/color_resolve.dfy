/**
 The colour a primitive is drawn with (`colorFromObj`): the "by layer" and
 "by block" codes are followed one step to the layer's or the block's colour,
 which is then looked up in the palette as it is, without further indirection.
 */
module ColorResolve {
  import opened Palette
  import opened Drawing

  /** The colour of `obj`, drawn on `layer`, optionally inside `block`. */
  function ColorFromObj(palette: seq<bv32>, s: Sentinels, obj: Primitive, layer: Layer, block: Option<Block>): (c: Rgb)
    requires s.Valid()
    ensures Fits24(c)
    ensures obj.color == s.byLayer ==> c == ColorFromDxfColor(palette, layer.defaultColor)
    ensures obj.color == s.byBlock && block.None? ==> c == FallbackRed
    ensures obj.color == s.byBlock && block.Some? ==> c == ColorFromDxfColor(palette, block.value.color)
    ensures obj.color != s.byLayer && obj.color != s.byBlock ==> c == ColorFromDxfColor(palette, obj.color)
  {
    match Classify(obj.color, s)
    case ByLayer => ColorFromDxfColor(palette, layer.defaultColor)
    case ByBlock =>
      if block.None? then FallbackRed else ColorFromDxfColor(palette, block.value.color)
    case Explicit(index) => ColorFromDxfColor(palette, index)
  }

  /** A "by layer" primitive takes no notice of the block it is drawn in. */
  lemma ByLayerIgnoresBlock(palette: seq<bv32>, s: Sentinels, obj: Primitive, layer: Layer, b1: Option<Block>, b2: Option<Block>)
    requires s.Valid() && obj.color == s.byLayer
    ensures ColorFromObj(palette, s, obj, layer, b1) == ColorFromObj(palette, s, obj, layer, b2)
  {
  }

  /** A primitive with its own palette index takes no notice of its layer or block. */
  lemma ExplicitIgnoresContext(palette: seq<bv32>, s: Sentinels, obj: Primitive,
                               l1: Layer, l2: Layer, b1: Option<Block>, b2: Option<Block>)
    requires s.Valid() && obj.color != s.byLayer && obj.color != s.byBlock
    ensures ColorFromObj(palette, s, obj, l1, b1) == ColorFromObj(palette, s, obj, l2, b2)
  {
  }

  /** The layer's colour is used only by "by layer" primitives: for every other
      primitive, changing the layer's default colour changes nothing. */
  lemma LayerColorMattersOnlyByLayer(palette: seq<bv32>, s: Sentinels, obj: Primitive,
                                     layer: Layer, other: Color, block: Option<Block>)
    requires s.Valid() && obj.color != s.byLayer
    ensures ColorFromObj(palette, s, obj, layer, block) ==
            ColorFromObj(palette, s, obj, layer.(defaultColor := other), block)
  {
  }

  /** An out-of-range code reaches the fallback red whatever the context: on
      the primitive itself, or on the layer of a "by layer" primitive (the
      layer's colour is not resolved a second time). */
  lemma OutOfRangeIsRed(palette: seq<bv32>, s: Sentinels, obj: Primitive, layer: Layer, block: Option<Block>)
    requires s.Valid()
    requires obj.color == s.byLayer ==> !(0 <= layer.defaultColor < |palette|)
    requires obj.color == s.byBlock ==> block.Some? && !(0 <= block.value.color < |palette|)
    requires obj.color != s.byLayer && obj.color != s.byBlock ==> !(0 <= obj.color < |palette|)
    ensures ColorFromObj(palette, s, obj, layer, block) == FallbackRed
  {
  }

  /** The colour the scene builder computes for each of a layer's primitives; no
      block is passed there. It becomes the pen only for lines, polylines and
      circles: arcs are drawn with a red pen and unhandled types are not drawn. */
  method LayerObjectColors(palette: seq<bv32>, s: Sentinels, layer: Layer) returns (colors: seq<Rgb>)
    requires s.Valid()
    ensures |colors| == |layer.objects|
    ensures forall i :: 0 <= i < |colors| ==> colors[i] == ColorFromObj(palette, s, layer.objects[i], layer, None)
    ensures forall i :: 0 <= i < |colors| && layer.objects[i].color == s.byBlock ==> colors[i] == FallbackRed
    ensures forall i :: 0 <= i < |colors| && layer.objects[i].color == s.byLayer ==>
              colors[i] == ColorFromDxfColor(palette, layer.defaultColor)
  {
    colors := [];
    for i := 0 to |layer.objects|
      invariant |colors| == i
      invariant forall j :: 0 <= j < i ==> colors[j] == ColorFromObj(palette, s, layer.objects[j], layer, None)
    {
      colors := colors + [ColorFromObj(palette, s, layer.objects[i], layer, None)];
    }
  }
}
