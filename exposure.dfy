/** The front end of the transform: per-channel S-Log3 decode, Rec. 709
    luma, and exposure in stops relative to 18% gray. The two
    transcendental pieces (the S-Log3 curve, which raises 10 to a power,
    and the base-2 logarithm) are supplied as functions; the luma weights,
    the gray reference and the logarithm floor are modelled as exact reals. */
module Exposure {

  /** The transcendental functions the front end relies on. */
  datatype FrontEnd = FrontEnd(slog3ToReflection: real -> real, log2: real -> real)

  /** 18% gray reflectance: the 0-stop reference. */
  const ReflectanceGray: real := 0.18

  /** The smallest argument passed to the logarithm (1e-12). */
  const LogFloor: real := 0.000000000001

  /** Luma from linear RGB with the Rec. ITU-R BT.709 weights; the weights
      sum to one, so a neutral input keeps its level. */
  function Luma709(r: real, g: real, b: real): (y: real)
    ensures r == g == b ==> y == r
  {
    0.2126 * r + 0.7152 * g + 0.0722 * b
  }

  /** The weights sum to one and are positive: a neutral input keeps its
      level, and luma never falls when a channel rises. */
  lemma Luma709Properties(r: real, g: real, b: real, r': real, g': real, b': real)
    ensures r == g == b ==> Luma709(r, g, b) == r
    ensures r <= r' && g <= g' && b <= b' ==> Luma709(r, g, b) <= Luma709(r', g', b')
  {
  }

  /** The argument actually given to the logarithm: x itself above the
      floor, the floor otherwise; so it is the larger of the two. */
  function LogArgument(x: real): (y: real)
    ensures y > 0.0
    ensures y >= x && y >= LogFloor && (y == x || y == LogFloor)
  {
    if x > LogFloor then x else LogFloor
  }

  /** Base-2 logarithm guarded against non-positive arguments: above the
      floor it is the logarithm itself, and every argument at or below the
      floor gives the logarithm of the floor. */
  function SafeLog2(fe: FrontEnd, x: real): (l: real)
    ensures x > LogFloor ==> l == fe.log2(x)
    ensures x <= LogFloor ==> l == fe.log2(LogFloor)
  {
    fe.log2(LogArgument(x))
  }

  /** Stops relative to 18% gray. The floor applies to luma / 0.18, after
      the division, so in terms of luma the cut-off is 0.18 * 1e-12. */
  function StopsRelativeToGray(fe: FrontEnd, luma: real): (ev: real)
    ensures luma > ReflectanceGray * LogFloor ==> ev == fe.log2(luma / ReflectanceGray)
    ensures luma <= ReflectanceGray * LogFloor ==> ev == fe.log2(LogFloor)
  {
    SafeLog2(fe, luma / ReflectanceGray)
  }

  /** Exposure of one S-Log3 input triple in stops relative to 18% gray:
      decode each channel, take Rec. 709 luma, then SafeLog2(luma / 0.18).
      A triple whose channels decode to one level v is measured by v alone. */
  function Ev(fe: FrontEnd, r: real, g: real, b: real): (ev: real)
    ensures var v := fe.slog3ToReflection(r);
      v == fe.slog3ToReflection(g) == fe.slog3ToReflection(b) ==> ev == StopsRelativeToGray(fe, v)
  {
    StopsRelativeToGray(fe, Luma709(fe.slog3ToReflection(r), fe.slog3ToReflection(g), fe.slog3ToReflection(b)))
  }

  /** An input whose three channels decode to 18% gray is at 0 stops,
      whenever the logarithm maps 1 to 0. */
  lemma EvOfGray(fe: FrontEnd, r: real, g: real, b: real)
    requires fe.slog3ToReflection(r) == ReflectanceGray
    requires fe.slog3ToReflection(g) == ReflectanceGray
    requires fe.slog3ToReflection(b) == ReflectanceGray
    requires fe.log2(1.0) == 0.0
    ensures Ev(fe, r, g, b) == 0.0
  {
    Luma709Properties(ReflectanceGray, ReflectanceGray, ReflectanceGray, 0.0, 0.0, 0.0);
    assert LogArgument(ReflectanceGray / ReflectanceGray) == 1.0;
  }
}
