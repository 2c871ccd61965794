# S-Log3 EL Zone false-colour LUT, modelled in Dafny

This project models the decision logic of `GenerateLut.py`. The script bakes an
"EL Zone" false-colour view of Sony S-Log3 footage into a 3D cube LUT:

- every input triple is decoded to scene-linear light;
- its Rec. 709 luma is turned into stops relative to 18% gray;
- a user offset is subtracted;
- the result is classified into one of 17 zones;
- the zone's palette colour is emitted.

The model is split by component:

- `palette.dfy` (`ElZonePalette`): the 17-entry byte palette and its conversion to [0, 1].
- `exposure.dfy` (`Exposure`): the exposure front end. Rec. 709 luma, the 18% gray reference and the 1e-12 logarithm floor are modelled as exact reals. The S-Log3 curve and the base-2 logarithm are the two fields of a `FrontEnd` value passed in by the caller. `safe_log2` floors its argument, and its one caller passes `luma / 0.18`, so the floor applies after the division, not to `luma` before it (`GenerateLut.py:64-73`; see `LogArgument` and `StopsRelativeToGray`).
- `zones.dfy` (`ZoneClassifier`): the zone centres and boundaries. `ZoneBoundaries` is a loop that builds the midpoints. `StopsToZoneIndex` is the clip checks followed by a scan with early return. Both are proved against the specification function `ZoneIndex`. In the interior, `ZoneIndex` counts how many boundaries lie at or below the exposure, so it does not repeat the scan.
- `false_color.dfy` (`FalseColor`): composes one pixel's colour, including the exposure offset and the "+6 and over to white" switch.
- `cube_lut.dfy` (`CubeLut`): the LUT document as a sequence of lines (title, size, rows). `WriteCube3d` runs the three nested loops. It is proved to emit size³ rows, and row k holds the colour of lattice point (k div size², (k div size) mod size, k mod size).

Where the comments or the documented behaviour disagree with the code, the model follows the code, and these lemmas prove what the code does:

- **Bins shifted by one.** The bin loop returns i + 1 for the interval [b_i, b_{i+1}) (`GenerateLut.py:121-123`). That interval is centred on `ZONE_CENTERS[i + 1]`, whose palette slot is i + 2. So an exposure of exactly 0 stops gets slot 7 ("-1/2"), not slot 8 ("0 (18% gray)", `GenerateLut.py:17`, `GenerateLut.py:120`). Slot 14 ("+5") is never produced. An exposure of -1.7 stops gets slot 4 ("-3"), not slot 5 ("-2"). See `GrayGetsMinusHalfSlot`, `ZoneIndexOneBelowLabel`, `ZoneIndexRange`, `OffsetShift` and `GrayInputShownAsMinusHalf`.
- **Row order.** Blue varies fastest and red slowest (`GenerateLut.py:171-183`). This is the reverse of the order for 3D table data in the Adobe Cube LUT Specification 1.0, where the red index changes fastest. See `BlueVariesFastest` and `RowOrderIsLexicographic`.
- **Bad sizes.** A size of 1 raises a division by zero after the two header lines have been written. A size of 0 or less writes the header and no rows. `WriteCube3d` models both cases.

All the classifier's constants are dyadic rationals: ±7, the zone centres and the midpoints (−5.5 … −0.75, −0.25, 0.25, 0.75 … 5.5). IEEE binary64 represents each of them exactly, so the `real` comparisons decide the same way as the floating-point ones.

## Model

| member | source | states |
|---|---|---|
| `ElZonePalette.Srgb8ToFloat` | GenerateLut.py:28-29 | each channel lands in [0, 1], and multiplying it back by 255 gives the original byte |
| `ElZonePalette.Srgb8ToFloatInjective` | GenerateLut.py:28-29 | two byte colours convert to the same float colour exactly when they are equal |
| `ElZonePalette.ElZoneColorsFloat` | GenerateLut.py:8-31 | the converted palette has 17 entries, all in the unit cube |
| `ElZonePalette.PaletteSlotsDistinct` | GenerateLut.py:8-26 | no two of the 17 slots share a colour |
| `ElZonePalette.OnlyWhiteClipIsWhite` | GenerateLut.py:24-25 | slot 16 is pure white and no other slot is; in particular slot 15 ("+6 and over") is not |
| `Exposure.Luma709` | GenerateLut.py:67-69 | luma is 0.2126·r + 0.7152·g + 0.0722·b; a neutral input r = g = b keeps its level |
| `Exposure.Luma709Properties` | GenerateLut.py:67-69 | a neutral input keeps its level (the weights sum to 1), and luma never falls when a channel rises |
| `Exposure.LogArgument` | GenerateLut.py:64-65 | the logarithm's argument is the larger of x and 1e-12, so it is always positive |
| `Exposure.SafeLog2` | GenerateLut.py:64-65 | above 1e-12 the result is log2(x); every x at or below 1e-12, including 0 and negatives, gives log2(1e-12) |
| `Exposure.StopsRelativeToGray` | GenerateLut.py:71-73 | stops are log2(luma / 0.18) when luma / 0.18 exceeds 1e-12 (luma > 0.18·1e-12), and log2(1e-12) otherwise: the floor applies after the division |
| `Exposure.Ev` | GenerateLut.py:143-148 | S-Log3 decode per channel, Rec. 709 luma, then `SafeLog2(luma / 0.18)`; a triple whose channels decode to one level v is measured as `StopsRelativeToGray(v)` |
| `Exposure.EvOfGray` | GenerateLut.py:64-73 | an input whose three channels decode to 0.18 is at 0 stops, given log2(1) = 0 |
| `ZoneClassifier.ZoneBoundaries` | GenerateLut.py:99-102 | the loop produces exactly the midpoints of consecutive zone centres, 14 of them |
| `ZoneClassifier.BoundariesAreMidpoints` | GenerateLut.py:82-102 | the midpoint list is exactly −5.5, −4.5, −3.5, −2.5, −1.5, −0.75, −0.25, 0.25, 0.75, 1.5, 2.5, 3.5, 4.5, 5.5; it increases strictly, and each boundary lies strictly between the two centres it separates |
| `ZoneClassifier.ZoneIndex` | GenerateLut.py:84-125 | the classification never exceeds 16 |
| `ZoneClassifier.StopsToZoneIndex` | GenerateLut.py:84-125 | the clip checks followed by the early-return bin scan compute `ZoneIndex(ev)` for every real ev; the trailing `return 8` is unreachable |
| `ZoneClassifier.ZoneIndexClipsAndOuterBands` | GenerateLut.py:104-117 | ev ≤ −7 gives 0 and ev ≥ 7 gives 16, before any bin is consulted; −7 < ev < −5.5 gives 1 and 5.5 ≤ ev < 7 gives 15 |
| `ZoneClassifier.ZoneIndexInBin` | GenerateLut.py:119-123 | for i in 0..12, b_i ≤ ev < b_{i+1} gives i + 1 |
| `ZoneClassifier.ZoneIndexInterior` | GenerateLut.py:110-123 | conversely, every ev in [−5.5, 5.5) gets some z in 1..13 with b_{z−1} ≤ ev < b_z |
| `ZoneClassifier.ZoneIndexRange` | GenerateLut.py:84-125 | every result is in 0..16 and is never 14 |
| `ZoneClassifier.ZoneIndexAtBoundary` | GenerateLut.py:121-123 | bins are half-open: a boundary b_i (i in 0..12) itself gets i + 1 |
| `ZoneClassifier.ZoneIndexJustBelowBoundary` | GenerateLut.py:121-123 | b_i − ε gets i, for i in 1..13 and 0 < ε ≤ b_i − b_{i−1} |
| `ZoneClassifier.ZoneIndexMonotone` | GenerateLut.py:105-123 | ev1 ≤ ev2 implies ZoneIndex(ev1) ≤ ZoneIndex(ev2) |
| `ZoneClassifier.ZoneIndexOneBelowLabel` | GenerateLut.py:120-123 | for ev in [−5.5, 5.5), the centre of the bin holding ev is the label of slot ZoneIndex(ev) + 1, not the label of slot ZoneIndex(ev) |
| `ZoneClassifier.GrayGetsMinusHalfSlot` | GenerateLut.py:120-123 | 0 stops gets slot 7, although slot 8 is the one labelled 0 stops; −1.7 stops gets slot 4, which is labelled −3 |
| `FalseColor.ApplyElZoneFalseColor` | GenerateLut.py:131-156 | the output colour always lies in the unit cube |
| `FalseColor.OutputDependsOnlyOnEffectiveEv` | GenerateLut.py:150-156 | two inputs with equal ev − offset_ev get the same colour |
| `FalseColor.OffsetShift` | GenerateLut.py:150-151 | ev 0 with offset 1.7 looks the same as ev −1.7 with offset 0, and both get slot 4 |
| `FalseColor.WhiteOverride` | GenerateLut.py:153-156 | with the switch on, the output is white exactly when the index is ≥ 15; with it off, the output is palette[idx] and is white only for index 16; the switch changes the output exactly when the index is 15 |
| `FalseColor.GrayInputShownAsMinusHalf` | GenerateLut.py:143-156 | an input that decodes to 18% gray is shown with no offset in slot 7's colour, which differs from slot 8's |
| `CubeLut.LatticeCoord` | GenerateLut.py:171-176 | the coordinate i/(size−1) lies in [0, 1]; it is 0 exactly at index 0 and 1 exactly at index size−1 |
| `CubeLut.LatticePointOfRowNumber` | GenerateLut.py:171-183 | every grid point (r, g, b) sits at row (r·size + g)·size + b < size³, and decoding that row gives the point back |
| `CubeLut.RowNumberOfLatticePoint` | GenerateLut.py:171-183 | every row k < size³ decodes to a grid point whose row number is k |
| `CubeLut.RowOrderIsLexicographic` | GenerateLut.py:171-183 | rows come in lexicographic order of (red, green, blue): red is most significant and blue least |
| `CubeLut.BlueVariesFastest` | GenerateLut.py:171-177 | row 1 is point (0,0,1), row size is (0,1,0), and row size² is (1,0,0) |
| `CubeLut.CubeRow` | GenerateLut.py:171-182 | each row's colour lies in the unit cube |
| `CubeLut.WriteCube3d` | GenerateLut.py:158-183 | the output is the title line, then `LUT_3D_SIZE size`, then for size ≥ 2 exactly size³ rows, where row k is the colour of lattice point (k div size², (k div size) mod size, k mod size); size 1 reports a division by zero after the header, and size ≤ 0 gives the header only |

## Left out

- `slog3_norm_to_reflection` (GenerateLut.py:48-58) raises 10 to a real power, which `real` arithmetic cannot express. It is the `slog3ToReflection` field of `FrontEnd`, so the continuity and gray-anchor facts of the S-Log3 curve are not modelled.
- `math.log` inside `safe_log2` (GenerateLut.py:64-65) is the `log2` field of `FrontEnd`. The floor and the division by 0.18 around it are modelled.
- Floating-point rounding is not modelled. Python rounds and the model computes exactly in these places: the division by 255 in `srgb8_to_float`; the luma weights and their sum; the division `luma / REFLECTANCE_GRAY` (GenerateLut.py:73); the lattice coordinate i/(size−1); and `ev - offset_ev` for a non-dyadic offset. The constants 0.18 and 1e-12 themselves have no exact binary64 value, so `EvOfGray`'s exact 0 is a statement about reals; in binary64 it also needs the rounded luma of a gray triple to come back as the same double as `REFLECTANCE_GRAY`. The classifier's own constants are exact in both.
- `ZoneClassifier.StopsToZoneIndex`: non-finite floats are not modelled; ev is a real. A NaN ev (for example from a NaN `offset_ev`) fails every comparison and reaches the trailing `return 8` (gray), which is unreachable for every real ev. An ev of −inf or +inf gives 0 or 16, as the model does for values beyond the clips.
- The default arguments are not modelled: `offset_ev=0.0` and `make_plus6_white=False` of `apply_el_zone_false_color`, `size=33`, `offset_ev=0.0`, the default `title` and `make_plus6_white=False` of `write_cube_3d`, and `floor=1e-12` of `safe_log2`. Every modelled operation takes these values as explicit parameters, and `SafeLog2` uses the constant `LogFloor` as its floor.
- Fixed six-decimal text formatting of the rows is not modelled. Rows are `Rgb` values and the two header lines are `Title`/`LutSize` values.
- File I/O is not modelled: the `mkdir`, `open` and `write` calls (GenerateLut.py:165-169, 183).
- The `__main__` block and its prints (GenerateLut.py:185-206) are not modelled.
- The colours at the darkest and brightest lattice corners depend on the S-Log3 curve, which is a parameter here, so no lemma states them.
