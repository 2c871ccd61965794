/** The EL Zone palette: 17 display colours, one per zone index, from black
    clip (index 0) through the stop bands to white clip (index 16). */
module ElZonePalette {

  /** An 8-bit sRGB channel value. */
  type Byte = x: int | 0 <= x < 256

  /** A colour as three 8-bit channels. */
  datatype Rgb8 = Rgb8(r: Byte, g: Byte, b: Byte)

  /** A colour as three real channels; a palette colour lies in the unit cube. */
  datatype Rgb = Rgb(r: real, g: real, b: real)

  predicate InUnitCube(c: Rgb) {
    0.0 <= c.r <= 1.0 && 0.0 <= c.g <= 1.0 && 0.0 <= c.b <= 1.0
  }

  const PaletteSize: nat := 17

  /** The palette in zone order. The labels name the band each slot stands for. */
  const ElZoneColorsSrgb: seq<Rgb8> := [
    Rgb8(0, 0, 0),        // 0  clipping black
    Rgb8(99, 72, 153),    // 1  -6 and under
    Rgb8(160, 126, 185),  // 2  -5
    Rgb8(22, 114, 164),   // 3  -4
    Rgb8(45, 174, 228),   // 4  -3
    Rgb8(22, 165, 73),    // 5  -2
    Rgb8(94, 187, 72),    // 6  -1
    Rgb8(14, 200, 62),    // 7  -1/2
    Rgb8(143, 138, 132),  // 8  0 (18% gray)
    Rgb8(252, 229, 2),    // 9  +1/2
    Rgb8(255, 248, 167),  // 10 +1
    Rgb8(244, 113, 41),   // 11 +2
    Rgb8(245, 166, 73),   // 12 +3
    Rgb8(237, 30, 36),    // 13 +4
    Rgb8(227, 126, 142),  // 14 +5
    Rgb8(240, 190, 191),  // 15 +6 and over
    Rgb8(255, 255, 255)   // 16 clipping white
  ]

  const White: Rgb := Rgb(1.0, 1.0, 1.0)

  /** Scales each 8-bit channel to [0, 1] by dividing by 255. */
  function Srgb8ToFloat(c: Rgb8): (f: Rgb)
    ensures InUnitCube(f)
    ensures f.r * 255.0 == c.r as real && f.g * 255.0 == c.g as real && f.b * 255.0 == c.b as real
  {
    Rgb(c.r as real / 255.0, c.g as real / 255.0, c.b as real / 255.0)
  }

  /** Srgb8ToFloat loses nothing: equal float colours come from equal byte colours. */
  lemma Srgb8ToFloatInjective(c: Rgb8, d: Rgb8)
    ensures Srgb8ToFloat(c) == Srgb8ToFloat(d) <==> c == d
  {
    if Srgb8ToFloat(c) == Srgb8ToFloat(d) {
      assert c.r as real == Srgb8ToFloat(c).r * 255.0 == d.r as real;
      assert c.g as real == Srgb8ToFloat(c).g * 255.0 == d.g as real;
      assert c.b as real == Srgb8ToFloat(c).b * 255.0 == d.b as real;
    }
  }

  /** The palette converted channel by channel to [0, 1]. */
  function ElZoneColorsFloat(): (s: seq<Rgb>)
    ensures |s| == PaletteSize
    ensures forall i :: 0 <= i < |s| ==> InUnitCube(s[i])
  {
    seq(|ElZoneColorsSrgb|, i requires 0 <= i < |ElZoneColorsSrgb| => Srgb8ToFloat(ElZoneColorsSrgb[i]))
  }

  /** No two slots share a colour, so every zone is told apart on screen. */
  lemma PaletteSlotsDistinct(i: int, j: int)
    requires 0 <= i < PaletteSize && 0 <= j < PaletteSize
    ensures ElZoneColorsFloat()[i] == ElZoneColorsFloat()[j] <==> i == j
  {
    var s := ElZoneColorsFloat();
    assert s[i] == Srgb8ToFloat(ElZoneColorsSrgb[i]);
    assert s[j] == Srgb8ToFloat(ElZoneColorsSrgb[j]);
    Srgb8ToFloatInjective(ElZoneColorsSrgb[i], ElZoneColorsSrgb[j]);
  }

  /** The white-clip slot is pure white, and it is the only white slot:
      in particular the "+6 and over" slot (15) is not white. */
  lemma OnlyWhiteClipIsWhite(i: int)
    requires 0 <= i < PaletteSize
    ensures ElZoneColorsFloat()[i] == White <==> i == 16
  {
    var s := ElZoneColorsFloat();
    var w := Rgb8(255, 255, 255);
    assert White == Srgb8ToFloat(w);
    assert s[i] == Srgb8ToFloat(ElZoneColorsSrgb[i]);
    Srgb8ToFloatInjective(ElZoneColorsSrgb[i], w);
  }
}
