/** Baking the transform into a 3D cube LUT: a title line, a size line, and
    one output colour per lattice point of a size x size x size grid over
    [0, 1]^3, red index outermost, green middle, blue innermost. */
module CubeLut {
  import opened ElZonePalette
  import opened Exposure
  import opened FalseColor

  /** One line of the document; numbers are kept as values, not text. */
  datatype CubeLine = Title(title: string) | LutSize(size: int) | Row(rgb: Rgb)

  /** Normalised input coordinate of lattice index i on an axis of size points. */
  function LatticeCoord(size: nat, i: nat): (x: real)
    requires size >= 2 && i < size
    ensures 0.0 <= x <= 1.0
    ensures x == 0.0 <==> i == 0
    ensures x == 1.0 <==> i == size - 1
  {
    RatioFacts(i as real, (size - 1) as real);
    i as real / (size - 1) as real
  }

  lemma RatioFacts(n: real, d: real)
    requires 0.0 <= n <= d && d > 0.0
    ensures 0.0 <= n / d <= 1.0
    ensures n / d == 0.0 <==> n == 0.0
    ensures n / d == 1.0 <==> n == d
  {
    var x := n / d;
    assert x * d == n;
  }

  /** Row number of lattice point (ri, gi, bi) when blue varies fastest. */
  function RowNumber(size: nat, ri: nat, gi: nat, bi: nat): nat {
    (ri * size + gi) * size + bi
  }

  /** Lattice point of row k: (k div size^2, (k div size) mod size, k mod size). */
  function LatticePoint(size: nat, k: nat): (nat, nat, nat)
    requires size >= 2
  {
    MulMono(1, size, size);
    (k / (size * size), (k / size) % size, k % size)
  }

  lemma DivModUnique(n: int, d: int, q: int, r: int)
    requires d > 0 && 0 <= r < d && n == q * d + r
    ensures n / d == q && n % d == r
  {
    var q', r' := n / d, n % d;
    assert (q - q') * d == r' - r;
    if q > q' {
      MulMono(1, q - q', d);
      assert false;
    } else if q < q' {
      MulMono(1, q' - q, d);
      assert false;
    }
  }

  lemma MulMono(a: int, b: int, c: int)
    requires 0 <= a <= b && c >= 0
    ensures a * c <= b * c
  {
    assert (b - a) * c >= 0;
  }

  /** Row numbers and lattice points correspond one to one: every point of
      the grid has a row below size^3, and every such row has a point of the
      grid. */
  lemma LatticePointOfRowNumber(size: nat, ri: nat, gi: nat, bi: nat)
    requires size >= 2 && ri < size && gi < size && bi < size
    ensures RowNumber(size, ri, gi, bi) < size * size * size
    ensures LatticePoint(size, RowNumber(size, ri, gi, bi)) == (ri, gi, bi)
  {
    Compose(size, ri, gi, bi, RowNumber(size, ri, gi, bi));
  }

  lemma Compose(s: int, ri: int, gi: int, bi: int, k: int)
    requires s >= 2 && 0 <= ri < s && 0 <= gi < s && 0 <= bi < s
    requires k == (ri * s + gi) * s + bi
    ensures k < s * s * s
    ensures k / (s * s) == ri && (k / s) % s == gi && k % s == bi
  {
    var q := ri * s + gi;
    DivModUnique(k, s, q, bi);
    DivModUnique(q, s, ri, gi);
    Regroup(s, k, q, bi, ri, gi);
    LowDigitsBound(s, gi, bi);
    DivModUnique(k, s * s, ri, gi * s + bi);
    LeadingDigitBound(s, ri, gi * s + bi);
  }

  lemma LeadingDigitBound(s: int, hi: int, rest: int)
    requires 0 <= hi < s && 0 <= rest < s * s
    ensures hi * (s * s) + rest < s * s * s
  {
    MulMono(hi + 1, s, s * s);
  }

  lemma RowNumberOfLatticePoint(size: nat, k: nat)
    requires size >= 2 && k < size * size * size
    ensures var p := LatticePoint(size, k);
      p.0 < size && p.1 < size && p.2 < size && RowNumber(size, p.0, p.1, p.2) == k
  {
    Digits(size, k);
  }

  lemma Digits(s: nat, k: nat)
    requires s >= 2 && k < s * s * s
    ensures k / (s * s) < s
    ensures ((k / (s * s)) * s + (k / s) % s) * s + k % s == k
  {
    var q, lo := k / s, k % s;
    var hi, mid := q / s, q % s;
    DivMod(k, s);
    DivMod(q, s);
    Regroup(s, k, q, lo, hi, mid);
    LowDigitsBound(s, mid, lo);
    DivModUnique(k, s * s, hi, mid * s + lo);
    HighBound(s, k, hi, mid * s + lo);
  }

  lemma LowDigitsBound(s: int, mid: int, lo: int)
    requires 0 <= mid < s && 0 <= lo < s
    ensures 0 <= mid * s + lo < s * s
  {
    MulMono(mid, s - 1, s);
  }

  lemma HighBound(s: int, k: int, hi: int, r: int)
    requires s > 0 && 0 <= r && 0 <= hi && k == hi * (s * s) + r && k < s * s * s
    ensures hi < s
  {
    if hi >= s {
      MulMono(s, hi, s * s);
      assert false;
    }
  }

  lemma DivMod(n: nat, d: nat)
    requires d > 0
    ensures n == (n / d) * d + n % d && 0 <= n % d < d
  {
  }

  lemma Regroup(s: int, k: int, q: int, lo: int, hi: int, mid: int)
    requires k == q * s + lo && q == hi * s + mid
    ensures k == hi * (s * s) + (mid * s + lo)
    ensures k == (hi * s + mid) * s + lo
  {
  }

  /** Red index is most significant and blue least: rows come in
      lexicographic order of (red, green, blue). */
  predicate LexLess(p: (nat, nat, nat), p': (nat, nat, nat)) {
    p.0 < p'.0 || (p.0 == p'.0 && (p.1 < p'.1 || (p.1 == p'.1 && p.2 < p'.2)))
  }

  lemma RowOrderIsLexicographic(size: nat, p: (nat, nat, nat), p': (nat, nat, nat))
    requires size >= 2
    requires p.0 < size && p.1 < size && p.2 < size
    requires p'.0 < size && p'.1 < size && p'.2 < size
    ensures RowNumber(size, p.0, p.1, p.2) < RowNumber(size, p'.0, p'.1, p'.2) <==> LexLess(p, p')
  {
    if LexLess(p, p') {
      RowNumberIncreases(size, p, p');
    } else if p != p' {
      RowNumberIncreases(size, p', p);
    }
  }

  lemma RowNumberIncreases(s: nat, a: (nat, nat, nat), c: (nat, nat, nat))
    requires s >= 2
    requires a.0 < s && a.1 < s && a.2 < s && c.0 < s && c.1 < s && c.2 < s
    requires LexLess(a, c)
    ensures RowNumber(s, a.0, a.1, a.2) < RowNumber(s, c.0, c.1, c.2)
  {
    if a.0 < c.0 {
      RedDigitDominates(s, a.0, a.1, a.2, c.0, c.1, c.2);
    } else if a.1 < c.1 {
      OuterDigitDominates(s, a.0 * s + a.1, a.2, a.0 * s + c.1, c.2);
    }
  }

  lemma RedDigitDominates(s: int, r: int, g: int, b: int, r': int, g': int, b': int)
    requires s >= 2 && 0 <= r < r' && 0 <= g < s && 0 <= b < s && 0 <= g' && 0 <= b'
    ensures (r * s + g) * s + b < (r' * s + g') * s + b'
  {
    var k, k' := (r * s + g) * s + b, (r' * s + g') * s + b';
    Regroup(s, k, r * s + g, b, r, g);
    Regroup(s, k', r' * s + g', b', r', g');
    MulMono(g, s - 1, s);
    MulMono(0, g', s);
    OuterDigitDominates(s * s, r, g * s + b, r', g' * s + b');
  }

  /** With digits below the base, a smaller leading digit wins. */
  lemma OuterDigitDominates(base: int, x: int, lo: int, y: int, lo': int)
    requires 0 <= x < y && 0 <= lo < base && 0 <= lo'
    ensures x * base + lo < y * base + lo'
  {
    MulMono(x + 1, y, base);
  }

  /** The first rows step the blue index, then green, then red. */
  lemma BlueVariesFastest(size: nat)
    requires size >= 2
    ensures LatticePoint(size, 1) == (0, 0, 1)
    ensures LatticePoint(size, size) == (0, 1, 0)
    ensures LatticePoint(size, size * size) == (1, 0, 0)
  {
    LatticePointOfRowNumber(size, 0, 0, 1);
    LatticePointOfRowNumber(size, 0, 1, 0);
    LatticePointOfRowNumber(size, 1, 0, 0);
  }

  /** Stepping past the last blue index moves to the next green index,
      past the last green index to the next red index, and past the last
      red index to the end of the table. */
  lemma RowNumberCarries(s: nat, ri: nat, gi: nat)
    ensures RowNumber(s, ri, gi, s) == RowNumber(s, ri, gi + 1, 0)
    ensures RowNumber(s, ri, s, 0) == RowNumber(s, ri + 1, 0, 0)
    ensures RowNumber(s, s, 0, 0) == s * s * s
  {
  }

  /** The colour of row k of a LUT of the given size. */
  function CubeRow(fe: FrontEnd, size: nat, offsetEv: real, makePlus6White: bool, k: nat): (c: Rgb)
    requires size >= 2 && k < size * size * size
    ensures InUnitCube(c)
  {
    RowNumberOfLatticePoint(size, k);
    var (ri, gi, bi) := LatticePoint(size, k);
    ApplyElZoneFalseColor(fe, LatticeCoord(size, ri), LatticeCoord(size, gi), LatticeCoord(size, bi),
                          offsetEv, makePlus6White)
  }

  /** Every row emitted after the two header lines is the colour of its
      lattice point, and no more than size^3 rows have been emitted. */
  ghost predicate RowsSoFar(fe: FrontEnd, size: nat, offsetEv: real, makePlus6White: bool, lines: seq<CubeLine>)
    requires size >= 2
  {
    2 <= |lines| <= 2 + size * size * size &&
    forall k :: 0 <= k < |lines| - 2 ==> lines[2 + k] == Row(CubeRow(fe, size, offsetEv, makePlus6White, k))
  }

  lemma RowsSoFarExtend(fe: FrontEnd, size: nat, offsetEv: real, makePlus6White: bool, lines: seq<CubeLine>, out: Rgb)
    requires size >= 2 && RowsSoFar(fe, size, offsetEv, makePlus6White, lines)
    requires |lines| - 2 < size * size * size
    requires out == CubeRow(fe, size, offsetEv, makePlus6White, |lines| - 2)
    ensures RowsSoFar(fe, size, offsetEv, makePlus6White, lines + [Row(out)])
  {
  }

  /** Emits the title line, the size line, and then one row per lattice
      point through three nested loops (red, green, blue). A size of 1
      fails with a division by zero once the header is out (the axis
      step is 1 / (size - 1)); a size of 0 or less leaves the header alone. */
  method WriteCube3d(fe: FrontEnd, size: int, offsetEv: real, title: string, makePlus6White: bool)
    returns (lines: seq<CubeLine>, divisionByZero: bool)
    ensures divisionByZero <==> size == 1
    ensures |lines| >= 2 && lines[0] == Title(title) && lines[1] == LutSize(size)
    ensures size < 2 ==> |lines| == 2
    ensures size >= 2 ==> |lines| == 2 + size * size * size
    ensures size >= 2 ==> forall k :: 0 <= k < size * size * size ==>
              lines[2 + k] == Row(CubeRow(fe, size, offsetEv, makePlus6White, k))
  {
    lines := [Title(title), LutSize(size)];
    divisionByZero := false;
    if size < 2 {
      // no red index for size <= 0; for size == 1 the first coordinate is 0 / 0
      divisionByZero := size == 1;
      return;
    }
    var ri := 0;
    while ri < size
      invariant 0 <= ri <= size
      invariant |lines| == 2 + RowNumber(size, ri, 0, 0)
      invariant lines[0] == Title(title) && lines[1] == LutSize(size)
      invariant RowsSoFar(fe, size, offsetEv, makePlus6White, lines)
    {
      var r := LatticeCoord(size, ri);
      var gi := 0;
      while gi < size
        invariant 0 <= gi <= size
        invariant |lines| == 2 + RowNumber(size, ri, gi, 0)
        invariant lines[0] == Title(title) && lines[1] == LutSize(size)
        invariant RowsSoFar(fe, size, offsetEv, makePlus6White, lines)
      {
        var g := LatticeCoord(size, gi);
        var bi := 0;
        while bi < size
          invariant 0 <= bi <= size
          invariant |lines| == 2 + RowNumber(size, ri, gi, bi)
          invariant lines[0] == Title(title) && lines[1] == LutSize(size)
          invariant RowsSoFar(fe, size, offsetEv, makePlus6White, lines)
        {
          var b := LatticeCoord(size, bi);
          var out := ApplyElZoneFalseColor(fe, r, g, b, offsetEv, makePlus6White);
          LatticePointOfRowNumber(size, ri, gi, bi);
          assert out == CubeRow(fe, size, offsetEv, makePlus6White, RowNumber(size, ri, gi, bi));
          RowsSoFarExtend(fe, size, offsetEv, makePlus6White, lines, out);
          lines := lines + [Row(out)];
          bi := bi + 1;
        }
        RowNumberCarries(size, ri, gi);
        gi := gi + 1;
      }
      RowNumberCarries(size, ri, size);
      ri := ri + 1;
    }
    RowNumberCarries(size, size, size);
  }
}
