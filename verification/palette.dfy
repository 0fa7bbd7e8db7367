/**
 The DXF colour palette lookup of the viewer window (`colorFromDxfColor`).

 The palette stores each entry in a BGR layout (blue in bits 16..23, green in
 bits 8..15, red in bits 0..7); the display toolkit wants 0x00RRGGBB. The lookup
 guards the index, turns pure white into black (the viewer draws on a white
 background) and swaps the red and blue bytes.
 */
module Palette {

  /** A display colour as a 0x00RRGGBB value; only the low 24 bits are used. */
  type Rgb = bv32

  /** True when the value uses nothing above bit 23. */
  predicate Fits24(c: bv32) {
    c & 0xFF00_0000 == 0
  }

  /** Channels of a display colour. */
  function RedOf(c: Rgb): bv32 { (c >> 16) & 0xFF }
  function GreenOf(c: Rgb): bv32 { (c >> 8) & 0xFF }
  function BlueOf(c: Rgb): bv32 { c & 0xFF }

  /** Channels of a palette entry in its BGR layout. */
  function BgrRed(bgr: bv32): bv32 { bgr & 0xFF }
  function BgrGreen(bgr: bv32): bv32 { (bgr >> 8) & 0xFF }
  function BgrBlue(bgr: bv32): bv32 { (bgr >> 16) & 0xFF }

  /** The display colour with the given channels (the toolkit's `fromRgb(r, g, b)`). */
  function FromChannels(r: bv8, g: bv8, b: bv8): (c: Rgb)
    ensures Fits24(c)
    ensures RedOf(c) == r as bv32 && GreenOf(c) == g as bv32 && BlueOf(c) == b as bv32
  {
    ((r as bv32) << 16) | ((g as bv32) << 8) | (b as bv32)
  }

  /** The warning colour used for anything that cannot be resolved. */
  const FallbackRed: Rgb := FromChannels(255, 0, 0)
  const Black: Rgb := 0
  /** Pure white, in either layout. */
  const White: bv32 := 0xFF_FFFF

  /** Reorders a BGR palette entry into a display colour; bits above 23 are dropped. */
  function Swizzle(bgr: bv32): (rgb: Rgb)
    ensures Fits24(rgb)
    ensures RedOf(rgb) == BgrRed(bgr)
    ensures GreenOf(rgb) == BgrGreen(bgr)
    ensures BlueOf(rgb) == BgrBlue(bgr)
  {
    ((bgr & 0xFF) << 16) | (bgr & 0xFF00) | ((bgr & 0xFF_0000) >> 16)
  }

  /** Two 24-bit colours with the same channels are the same colour. */
  lemma SameChannels(a: Rgb, b: Rgb)
    requires Fits24(a) && Fits24(b)
    requires RedOf(a) == RedOf(b) && GreenOf(a) == GreenOf(b) && BlueOf(a) == BlueOf(b)
    ensures a == b
  {
  }

  /** Swapping red and blue twice gives back every 24-bit value. */
  lemma SwizzleInvolution(c: bv32)
    requires Fits24(c)
    ensures Swizzle(Swizzle(c)) == c
  {
    SameChannels(Swizzle(Swizzle(c)), c);
  }

  /** The byte reorder is injective on 24-bit values. */
  lemma SwizzleInjective(a: bv32, b: bv32)
    requires Fits24(a) && Fits24(b)
    requires Swizzle(a) == Swizzle(b)
    ensures a == b
  {
    SwizzleInvolution(a);
    SwizzleInvolution(b);
  }

  /** Translates a palette index into a display colour.
      `palette` stands for the global colour table; its length is the table size. */
  function ColorFromDxfColor(palette: seq<bv32>, index: int): (c: Rgb)
    ensures Fits24(c)
    ensures !(0 <= index < |palette|) ==> c == FallbackRed
    ensures 0 <= index < |palette| && palette[index] == White ==> c == Black
    ensures 0 <= index < |palette| && palette[index] != White ==>
              && RedOf(c) == BgrRed(palette[index])
              && GreenOf(c) == BgrGreen(palette[index])
              && BlueOf(c) == BgrBlue(palette[index])
  {
    if index < 0 || index >= |palette| then
      FallbackRed
    else
      var bgr := if palette[index] == White then 0 else palette[index];
      Swizzle(bgr)
  }

  /** The lookup shows white exactly for an in-range entry that is not the
      literal white value but whose low 24 bits are all set. */
  lemma WhiteOnlyFromWideEntry(palette: seq<bv32>, index: int)
    ensures ColorFromDxfColor(palette, index) == White <==>
              0 <= index < |palette| && palette[index] != White && palette[index] & White == White
  {
    if 0 <= index < |palette| && palette[index] != White {
      var e := palette[index];
      var c := ColorFromDxfColor(palette, index);
      if c == White {
        assert BgrRed(e) == 0xFF && BgrGreen(e) == 0xFF && BgrBlue(e) == 0xFF;
      }
      if e & White == White {
        SameChannels(c, White);
      }
    }
  }

  /** With a palette of 24-bit entries, two indices in range are drawn in the
      same colour only when their entries are equal or are white and black. */
  lemma LookupInjective(palette: seq<bv32>, i: int, j: int)
    requires forall k :: 0 <= k < |palette| ==> Fits24(palette[k])
    requires 0 <= i < |palette| && 0 <= j < |palette|
    requires ColorFromDxfColor(palette, i) == ColorFromDxfColor(palette, j)
    ensures palette[i] == palette[j] || {palette[i], palette[j]} == {White, Black}
  {
    var a := if palette[i] == White then 0 else palette[i];
    var b := if palette[j] == White then 0 else palette[j];
    SwizzleInjective(a, b);
  }

  /** With a palette of 24-bit entries nothing is ever drawn in white. */
  lemma NeverWhite(palette: seq<bv32>, index: int)
    requires forall k :: 0 <= k < |palette| ==> Fits24(palette[k])
    ensures ColorFromDxfColor(palette, index) != White
  {
    WhiteOnlyFromWideEntry(palette, index);
  }
}
