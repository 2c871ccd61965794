/** The zone classifier: maps an exposure value in stops (relative to 18%
    gray, offset already applied) to a palette index in 0..16. */
module ZoneClassifier {

  /** The 15 zone centres in stops, darkest first. */
  const ZoneCenters: seq<real> := [-6.0, -5.0, -4.0, -3.0, -2.0, -1.0, -0.5, 0.0, 0.5, 1.0, 2.0, 3.0, 4.0, 5.0, 6.0]

  /** The 14 boundaries between consecutive zone centres. */
  const Boundaries: seq<real> := [-5.5, -4.5, -3.5, -2.5, -1.5, -0.75, -0.25, 0.25, 0.75, 1.5, 2.5, 3.5, 4.5, 5.5]

  /** Hard clip thresholds, independent of the outermost centres (+-6). */
  const BlackClip: real := -7.0
  const WhiteClip: real := 7.0

  /** b[i] is the midpoint of c[i] and c[i + 1], for every i. */
  ghost predicate IsMidpointsOf(b: seq<real>, c: seq<real>) {
    |c| >= 1 && |b| == |c| - 1 &&
    forall i :: 0 <= i < |b| ==> b[i] == (c[i] + c[i + 1]) / 2.0
  }

  predicate Increasing(s: seq<real>) {
    forall i :: 0 <= i < |s| - 1 ==> s[i] < s[i + 1]
  }

  /** Builds the boundary list by appending the midpoint of each pair of
      consecutive zone centres. */
  method ZoneBoundaries() returns (b: seq<real>)
    ensures IsMidpointsOf(b, ZoneCenters)
  {
    b := [];
    var i := 0;
    while i < |ZoneCenters| - 1
      invariant 0 <= i <= |ZoneCenters| - 1
      invariant |b| == i
      invariant forall j :: 0 <= j < i ==> b[j] == (ZoneCenters[j] + ZoneCenters[j + 1]) / 2.0
    {
      b := b + [(ZoneCenters[i] + ZoneCenters[i + 1]) / 2.0];
      i := i + 1;
    }
  }

  /** The boundary table is exactly the midpoint list of the centres; each
      boundary lies strictly between the two centres it separates, and the
      boundaries increase strictly. */
  lemma BoundariesAreMidpoints(b: seq<real>)
    ensures IsMidpointsOf(b, ZoneCenters) <==> b == Boundaries
    ensures Increasing(Boundaries)
    ensures forall i :: 0 <= i < |Boundaries| ==> ZoneCenters[i] < Boundaries[i] < ZoneCenters[i + 1]
  {
    assert IsMidpointsOf(Boundaries, ZoneCenters);
    if IsMidpointsOf(b, ZoneCenters) {
      forall i | 0 <= i < |b| ensures b[i] == Boundaries[i] {
        assert b[i] == (ZoneCenters[i] + ZoneCenters[i + 1]) / 2.0 == Boundaries[i];
      }
    }
  }

  /** Number of entries of s that are at most x. */
  function CountAtOrBelow(s: seq<real>, x: real): (n: nat)
    ensures n <= |s|
  {
    if s == [] then 0
    else (if s[0] <= x then 1 else 0) + CountAtOrBelow(s[1..], x)
  }

  /** In an increasing list, n entries are at most x exactly when x lies in
      [s[n - 1], s[n]) (with the missing end unbounded). */
  lemma {:induction false} CountOfIncreasing(s: seq<real>, x: real, n: nat)
    requires Increasing(s)
    requires n <= |s|
    requires n > 0 ==> s[n - 1] <= x
    requires n < |s| ==> x < s[n]
    ensures CountAtOrBelow(s, x) == n
  {
    if s != [] {
      var t := s[1..];
      assert Increasing(t) by {
        forall i | 0 <= i < |t| - 1 ensures t[i] < t[i + 1] {
          assert t[i] == s[i + 1] && t[i + 1] == s[i + 2];
        }
      }
      if n == 0 {
        assert x < s[0];
        if |t| > 0 { assert t[0] == s[1] && s[0] < s[1]; }
        CountOfIncreasing(t, x, 0);
      } else {
        IncreasingLe(s, 0, n - 1);
        CountOfIncreasing(t, x, n - 1);
      }
    }
  }

  lemma {:induction false} IncreasingLe(s: seq<real>, i: nat, j: nat)
    requires Increasing(s)
    requires i <= j < |s|
    ensures s[i] <= s[j]
    decreases j - i
  {
    if i < j {
      IncreasingLe(s, i + 1, j);
    }
  }

  /** The count of entries at most x does not decrease as x grows. */
  lemma {:induction false} CountMonotone(s: seq<real>, x: real, y: real)
    requires x <= y
    ensures CountAtOrBelow(s, x) <= CountAtOrBelow(s, y)
  {
    if s != [] {
      CountMonotone(s[1..], x, y);
    }
  }

  /** The classification, in the order the checks are made: black clip, white
      clip, the band below the first boundary, the band at or above the last
      boundary, and otherwise the number of boundaries at or below ev. */
  function ZoneIndex(ev: real): (z: nat)
    ensures z <= 16
  {
    if ev <= BlackClip then 0
    else if ev >= WhiteClip then 16
    else if ev < Boundaries[0] then 1
    else if ev >= Boundaries[|Boundaries| - 1] then 15
    else CountAtOrBelow(Boundaries, ev)
  }

  /** For ev with b[i] <= ev < b[i + 1] (i in 0..12) the result is i + 1, and
      conversely every ev in [b[0], b[13]) lies in the bin [b[z - 1], b[z])
      of its result z. */
  lemma ZoneIndexInBin(ev: real, i: nat)
    requires i < |Boundaries| - 1
    requires Boundaries[i] <= ev < Boundaries[i + 1]
    ensures ZoneIndex(ev) == i + 1
  {
    BoundariesAreMidpoints(Boundaries);
    IncreasingLe(Boundaries, 0, i);
    IncreasingLe(Boundaries, i + 1, |Boundaries| - 1);
    CountOfIncreasing(Boundaries, ev, i + 1);
  }

  lemma ZoneIndexInterior(ev: real)
    requires Boundaries[0] <= ev < Boundaries[|Boundaries| - 1]
    ensures 1 <= ZoneIndex(ev) <= 13
    ensures Boundaries[ZoneIndex(ev) - 1] <= ev < Boundaries[ZoneIndex(ev)]
  {
    BoundariesAreMidpoints(Boundaries);
    var z := ZoneIndex(ev);
    assert z == CountAtOrBelow(Boundaries, ev);
    // z - 1 is the last boundary at or below ev
    var i := 0;
    while i + 1 < |Boundaries| - 1 && Boundaries[i + 1] <= ev
      invariant 0 <= i < |Boundaries| - 1
      invariant Boundaries[i] <= ev
    {
      i := i + 1;
    }
    ZoneIndexInBin(ev, i);
  }

  /** Anything at or beyond the clip thresholds is clipped, before any bin
      is consulted; between the clip and the outermost boundary lie the
      "and under" and "and over" bands. */
  lemma ZoneIndexClipsAndOuterBands(ev: real)
    ensures ev <= -7.0 ==> ZoneIndex(ev) == 0
    ensures ev >= 7.0 ==> ZoneIndex(ev) == 16
    ensures -7.0 < ev < -5.5 ==> ZoneIndex(ev) == 1
    ensures 5.5 <= ev < 7.0 ==> ZoneIndex(ev) == 15
  {
  }

  /** Every result is a palette index, and index 14 ("+5") is never produced. */
  lemma ZoneIndexRange(ev: real)
    ensures 0 <= ZoneIndex(ev) <= 16
    ensures ZoneIndex(ev) != 14
  {
    if Boundaries[0] <= ev < Boundaries[|Boundaries| - 1] {
      ZoneIndexInterior(ev);
    }
  }

  /** Bins are half-open: a boundary belongs to the bin above it, and a value
      just below boundary i (1 <= i <= 13) belongs to the bin below. */
  lemma ZoneIndexAtBoundary(i: nat)
    requires i < |Boundaries| - 1
    ensures ZoneIndex(Boundaries[i]) == i + 1
  {
    ZoneIndexInBin(Boundaries[i], i);
  }

  lemma ZoneIndexJustBelowBoundary(i: nat, eps: real)
    requires 1 <= i < |Boundaries|
    requires 0.0 < eps <= Boundaries[i] - Boundaries[i - 1]
    ensures ZoneIndex(Boundaries[i] - eps) == i
  {
    ZoneIndexInBin(Boundaries[i] - eps, i - 1);
  }

  /** A brighter exposure never gets a lower index. */
  lemma ZoneIndexMonotone(ev1: real, ev2: real)
    requires ev1 <= ev2
    ensures ZoneIndex(ev1) <= ZoneIndex(ev2)
  {
    var last := |Boundaries| - 1;
    if Boundaries[0] <= ev1 < Boundaries[last] {
      if ev2 < Boundaries[last] {
        CountMonotone(Boundaries, ev1, ev2);
      } else {
        ZoneIndexInterior(ev1);
      }
    }
  }

  /** The stop value each palette slot 1..15 is labelled with: slot p stands
      for the zone centred on ZoneCenters[p - 1]. */
  function PaletteStops(p: int): real
    requires 1 <= p <= |ZoneCenters|
  {
    ZoneCenters[p - 1]
  }

  /** The code's bins are shifted by one slot from the palette labels: for
      every ev between the outermost boundaries, the centre of the bin that
      holds ev is the label of slot ZoneIndex(ev) + 1, not of ZoneIndex(ev). */
  lemma ZoneIndexOneBelowLabel(ev: real)
    requires Boundaries[0] <= ev < Boundaries[|Boundaries| - 1]
    ensures var z := ZoneIndex(ev);
      1 <= z <= 13 &&
      Boundaries[z - 1] <= PaletteStops(z + 1) < Boundaries[z] &&
      !(Boundaries[z - 1] <= PaletteStops(z) < Boundaries[z])
  {
    ZoneIndexInterior(ev);
    BoundariesAreMidpoints(Boundaries);
  }

  /** As written, an exposure of exactly 18% gray (0 stops) gets index 7,
      the "-1/2" slot, and not index 8, the slot labelled "0 (18% gray)";
      -1.7 stops gets index 4, the slot labelled "-3". */
  lemma GrayGetsMinusHalfSlot()
    ensures ZoneIndex(0.0) == 7 && PaletteStops(8) == 0.0
    ensures ZoneIndex(-1.7) == 4 && PaletteStops(4) == -3.0
  {
    ZoneIndexInBin(0.0, 6);
    ZoneIndexInBin(-1.7, 3);
  }

  /** Classifies ev: builds the boundaries, applies the clips and the outer
      bands, then scans the bins in order and returns at the first one that
      holds ev. The trailing fallback is unreachable for every real ev. */
  method StopsToZoneIndex(ev: real) returns (idx: int)
    ensures idx == ZoneIndex(ev)
  {
    var boundaries := ZoneBoundaries();
    BoundariesAreMidpoints(boundaries);

    if ev <= BlackClip {
      return 0;
    }
    if ev >= WhiteClip {
      return 16;
    }
    if ev < boundaries[0] {
      return 1;
    }
    if ev >= boundaries[|boundaries| - 1] {
      return 15;
    }

    var i := 0;
    while i < |boundaries| - 1
      invariant 0 <= i <= |boundaries| - 1
      invariant boundaries[i] <= ev
    {
      if boundaries[i] <= ev < boundaries[i + 1] {
        ZoneIndexInBin(ev, i);
        return i + 1;
      }
      i := i + 1;
    }
    assert false;
    idx := 8;
  }
}
