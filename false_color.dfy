/** The false-colour transform for one S-Log3 triple: exposure, offset,
    classification, palette lookup, and the optional "+6 and over to
    white" override. */
module FalseColor {
  import opened ElZonePalette
  import opened Exposure
  import opened ZoneClassifier

  /** The colour shown for one input triple. A positive offset lowers the
      exposure that is classified. */
  function ApplyElZoneFalseColor(fe: FrontEnd, r: real, g: real, b: real, offsetEv: real, makePlus6White: bool): (out: Rgb)
    ensures InUnitCube(out)
  {
    var ev := Ev(fe, r, g, b);
    var idx := ZoneIndex(ev - offsetEv);
    if makePlus6White && idx >= 15 then White else ElZoneColorsFloat()[idx]
  }

  /** The colour depends on the input and the offset only through the
      offset-adjusted exposure. */
  lemma OutputDependsOnlyOnEffectiveEv(fe: FrontEnd, r: real, g: real, b: real, offsetEv: real,
                                       fe': FrontEnd, r': real, g': real, b': real, offsetEv': real,
                                       makePlus6White: bool)
    requires Ev(fe, r, g, b) - offsetEv == Ev(fe', r', g', b') - offsetEv'
    ensures ApplyElZoneFalseColor(fe, r, g, b, offsetEv, makePlus6White)
         == ApplyElZoneFalseColor(fe', r', g', b', offsetEv', makePlus6White)
  {
  }

  /** A pixel at 0 stops shown with offset 1.7 looks like a pixel at -1.7
      stops shown without offset: both get palette slot 4. */
  lemma OffsetShift(fe: FrontEnd, r: real, g: real, b: real,
                    fe': FrontEnd, r': real, g': real, b': real, makePlus6White: bool)
    requires Ev(fe, r, g, b) == 0.0
    requires Ev(fe', r', g', b') == -1.7
    ensures ApplyElZoneFalseColor(fe, r, g, b, 1.7, makePlus6White)
         == ApplyElZoneFalseColor(fe', r', g', b', 0.0, makePlus6White)
         == ElZoneColorsFloat()[4]
  {
    GrayGetsMinusHalfSlot();
    assert Ev(fe, r, g, b) - 1.7 == Ev(fe', r', g', b') - 0.0 == -1.7;
    OutputDependsOnlyOnEffectiveEv(fe, r, g, b, 1.7, fe', r', g', b', 0.0, makePlus6White);
  }

  /** With the override on, the output is white exactly when the index is
      15 or 16; with it off, only the white clip (16) is white. The
      override changes the output only for index 15. */
  lemma WhiteOverride(fe: FrontEnd, r: real, g: real, b: real, offsetEv: real)
    ensures var idx := ZoneIndex(Ev(fe, r, g, b) - offsetEv);
      var on := ApplyElZoneFalseColor(fe, r, g, b, offsetEv, true);
      var off := ApplyElZoneFalseColor(fe, r, g, b, offsetEv, false);
      (on == White <==> idx >= 15) &&
      (off == White <==> idx == 16) &&
      (off == ElZoneColorsFloat()[idx]) &&
      (on != off <==> idx == 15)
  {
    var idx := ZoneIndex(Ev(fe, r, g, b) - offsetEv);
    OnlyWhiteClipIsWhite(idx);
  }

  /** An input that decodes to 18% gray on every channel is shown, without
      offset, in slot 7 ("-1/2"), not in slot 8 ("0 (18% gray)"). */
  lemma GrayInputShownAsMinusHalf(fe: FrontEnd, r: real, g: real, b: real, makePlus6White: bool)
    requires fe.slog3ToReflection(r) == ReflectanceGray
    requires fe.slog3ToReflection(g) == ReflectanceGray
    requires fe.slog3ToReflection(b) == ReflectanceGray
    requires fe.log2(1.0) == 0.0
    ensures ApplyElZoneFalseColor(fe, r, g, b, 0.0, makePlus6White) == ElZoneColorsFloat()[7]
    ensures ApplyElZoneFalseColor(fe, r, g, b, 0.0, makePlus6White) != ElZoneColorsFloat()[8]
  {
    EvOfGray(fe, r, g, b);
    GrayGetsMinusHalfSlot();
    assert ZoneIndex(Ev(fe, r, g, b) - 0.0) == 7;
    PaletteSlotsDistinct(7, 8);
  }
}
