/** One smoothed layer of a field at a given octave (`generateSmoothNoise`). */
module Smoothing {
  import opened Grids
  import opened Interpolation

  /** `Math.pow(2, octave)`: the sample period, in cells, of an octave. */
  function Pow2(octave: nat): (period: nat)
    ensures period >= 1
  {
    if octave == 0 then 1 else 2 * Pow2(octave - 1)
  }

  /** A positive multiple of a period is at least the period. */
  lemma MultipleAtLeast(k: int, period: nat)
    requires k >= 1 && period >= 1
    ensures k * period >= period
  {
    assert k * period == (k - 1) * period + period;
  }

  /** Euclidean division is determined by its quotient and remainder. */
  lemma DivModUnique(i: nat, period: nat, q: nat, rem: nat)
    requires period >= 1 && rem < period && i == q * period + rem
    ensures i / period == q && i % period == rem
  {
    var d, m := i / period, i % period;
    assert i == d * period + m;
    assert (d - q) * period == rem - m;
    if d > q {
      MultipleAtLeast(d - q, period);
    } else if d < q {
      MultipleAtLeast(q - d, period);
    }
  }

  /**
   * `Math.floor(i / samplePeriod) * samplePeriod`: the anchor at or before i;
   * i lies in the period-wide span that starts there.
   */
  function SampleAnchor(i: nat, period: nat): (anchor: nat)
    requires period >= 1
    ensures anchor <= i < anchor + period
  {
    assert (i / period) * period + i % period == i;
    (i / period) * period
  }

  /** The anchor is a multiple of the period, so it is the largest multiple not above i. */
  lemma SampleAnchorIsMultiple(i: nat, period: nat)
    requires period >= 1
    ensures SampleAnchor(i, period) % period == 0
    ensures forall m: nat :: m <= i && m % period == 0 ==> m <= SampleAnchor(i, period)
  {
    var q := i / period;
    DivModUnique(q * period, period, q, 0);
    forall m: nat | m <= i && m % period == 0
      ensures m <= SampleAnchor(i, period)
    {
      var k := m / period;
      assert m == k * period;
      if k > q {
        MultipleAtLeast(k - q, period);
      }
      assert k <= q;
      assert k * period <= q * period;
    }
  }

  /**
   * `(anchor + samplePeriod) % extent`: the next anchor, wrapped around the
   * edge of the field; it is always a valid index.
   */
  function NextAnchor(anchor: nat, period: nat, extent: nat): (next: nat)
    requires extent >= 1
    ensures next < extent
    ensures anchor + period < extent ==> next == anchor + period
  {
    (anchor + period) % extent
  }

  /**
   * `(i - anchor) * sampleFrequency` with `sampleFrequency = 1 / samplePeriod`: how far
   * i lies along the way from its anchor to the next one, as a fraction in [0, 1).
   */
  function Blend(i: nat, anchor: nat, period: nat): (b: real)
    requires period >= 1 && anchor <= i < anchor + period
    ensures 0.0 <= b < 1.0
    ensures b * period as real == (i - anchor) as real
    ensures period == 1 ==> b == 0.0
  {
    (i - anchor) as real * (1.0 / period as real)
  }

  /** The four anchor indices the smoother reads for one cell, and the two blend fractions. */
  datatype Anchors = Anchors(x0: nat, x1: nat, y0: nat, y1: nat, horizontal: real, vertical: real)

  /**
   * The anchors of cell (x, y) at an octave: all four indices lie inside the
   * width-by-height field, wrap-around and periods wider than the field included.
   */
  function CellAnchors(width: nat, height: nat, octave: nat, x: nat, y: nat): (a: Anchors)
    requires x < width && y < height
    ensures a.x0 < width && a.x1 < width && a.y0 < height && a.y1 < height
    ensures a.x0 <= x < a.x0 + Pow2(octave) && a.y0 <= y < a.y0 + Pow2(octave)
    ensures 0.0 <= a.horizontal < 1.0 && 0.0 <= a.vertical < 1.0
  {
    var period := Pow2(octave);
    var x0 := SampleAnchor(x, period);
    var y0 := SampleAnchor(y, period);
    Anchors(x0, NextAnchor(x0, period, width), y0, NextAnchor(y0, period, height),
            Blend(x, x0, period), Blend(y, y0, period))
  }

  /** Both near anchors of a cell are multiples of the octave's sample period. */
  lemma AnchorsAreMultiples(width: nat, height: nat, octave: nat, x: nat, y: nat)
    requires x < width && y < height
    ensures var a := CellAnchors(width, height, octave, x, y);
      a.x0 % Pow2(octave) == 0 && a.y0 % Pow2(octave) == 0
  {
    SampleAnchorIsMultiple(x, Pow2(octave));
    SampleAnchorIsMultiple(y, Pow2(octave));
  }

  /** At octave 0 every cell is its own anchor and both blends vanish. */
  lemma AnchorsAtOctaveZero(width: nat, height: nat, x: nat, y: nat)
    requires x < width && y < height
    ensures var a := CellAnchors(width, height, 0, x, y);
      a.x0 == x && a.y0 == y && a.horizontal == 0.0 && a.vertical == 0.0
  {
  }

  /**
   * When the period is at least the width, every column anchors at column 0 and
   * its far anchor is the period reduced modulo the width.
   */
  lemma AnchorsOfWidePeriod(width: nat, height: nat, octave: nat, x: nat, y: nat)
    requires x < width <= Pow2(octave) && y < height
    ensures var a := CellAnchors(width, height, octave, x, y);
      a.x0 == 0 && a.x1 == Pow2(octave) % width
  {
    DivModUnique(x, Pow2(octave), 0, x);
  }

  /** A far anchor need not wrap to column 0: a 3-wide field at octave 2 wraps to column 1. */
  lemma WidePeriodNeedNotWrapToZero()
    ensures CellAnchors(3, 1, 2, 0, 0).x1 == 1
  {
  }

  function Min4(a: real, b: real, c: real, d: real): real {
    Min(Min(a, b), Min(c, d))
  }

  function Max4(a: real, b: real, c: real, d: real): real {
    Max(Max(a, b), Max(c, d))
  }

  /**
   * The smoothed value of cell (x, y): two horizontal blends of the anchor cells
   * (top row y0, bottom row y1), then a vertical blend of those.
   */
  function SmoothCell(g: Grid, octave: nat, x: nat, y: nat, cos: Cosine): real
    requires IsRect(g) && x < Width(g) && y < Height(g)
  {
    var a := CellAnchors(Width(g), Height(g), octave, x, y);
    var top := Interpolate(g[a.x0][a.y0], g[a.x1][a.y0], a.horizontal, cos);
    var bottom := Interpolate(g[a.x0][a.y1], g[a.x1][a.y1], a.horizontal, cos);
    Interpolate(top, bottom, a.vertical, cos)
  }

  /** A smoothed cell never leaves the range spanned by its four anchor cells. */
  lemma SmoothCellBetweenAnchors(g: Grid, octave: nat, x: nat, y: nat, cos: Cosine)
    requires IsRect(g) && x < Width(g) && y < Height(g) && IsCosine(cos)
    ensures var a := CellAnchors(Width(g), Height(g), octave, x, y);
      Min4(g[a.x0][a.y0], g[a.x1][a.y0], g[a.x0][a.y1], g[a.x1][a.y1]) <= SmoothCell(g, octave, x, y, cos)
      <= Max4(g[a.x0][a.y0], g[a.x1][a.y0], g[a.x0][a.y1], g[a.x1][a.y1])
  {
    var a := CellAnchors(Width(g), Height(g), octave, x, y);
    var top := Interpolate(g[a.x0][a.y0], g[a.x1][a.y0], a.horizontal, cos);
    var bottom := Interpolate(g[a.x0][a.y1], g[a.x1][a.y1], a.horizontal, cos);
    InterpolateBetween(g[a.x0][a.y0], g[a.x1][a.y0], a.horizontal, cos);
    InterpolateBetween(g[a.x0][a.y1], g[a.x1][a.y1], a.horizontal, cos);
    InterpolateBetween(top, bottom, a.vertical, cos);
  }

  /** At octave 0 the smoother returns its input, cell by cell. */
  lemma SmoothAtOctaveZero(g: Grid, x: nat, y: nat, cos: Cosine)
    requires IsRect(g) && x < Width(g) && y < Height(g) && IsCosine(cos)
    ensures SmoothCell(g, 0, x, y, cos) == g[x][y]
  {
    AnchorsAtOctaveZero(Width(g), Height(g), x, y);
    var a := CellAnchors(Width(g), Height(g), 0, x, y);
    var top := Interpolate(g[x][y], g[a.x1][y], 0.0, cos);
    InterpolateBetween(g[x][y], g[a.x1][y], 0.0, cos);
    InterpolateBetween(g[x][a.y1], g[a.x1][a.y1], 0.0, cos);
    InterpolateBetween(top, Interpolate(g[x][a.y1], g[a.x1][a.y1], 0.0, cos), 0.0, cos);
  }

  /** A field whose cells lie in [lo, hi) smooths to values in [lo, hi), at every octave. */
  lemma SmoothWithinBounds(g: Grid, octave: nat, x: nat, y: nat, cos: Cosine, lo: real, hi: real)
    requires IsRect(g) && x < Width(g) && y < Height(g) && Bounded(g, lo, hi) && IsCosine(cos)
    ensures lo <= SmoothCell(g, octave, x, y, cos) < hi
  {
    SmoothCellBetweenAnchors(g, octave, x, y, cos);
    var a := CellAnchors(Width(g), Height(g), octave, x, y);
    assert lo <= g[a.x0][a.y0] < hi && lo <= g[a.x1][a.y0] < hi;
    assert lo <= g[a.x0][a.y1] < hi && lo <= g[a.x1][a.y1] < hi;
  }

  /** A constant field smooths to the same constant, at every octave. */
  lemma SmoothOfConstant(g: Grid, octave: nat, x: nat, y: nat, cos: Cosine, c: real)
    requires IsRect(g) && x < Width(g) && y < Height(g) && Constant(g, c)
    ensures SmoothCell(g, octave, x, y, cos) == c
  {
    var a := CellAnchors(Width(g), Height(g), octave, x, y);
    InterpolateSame(c, a.horizontal, cos);
    InterpolateSame(c, a.vertical, cos);
    assert g[a.x0][a.y0] == c && g[a.x1][a.y0] == c;
    assert g[a.x0][a.y1] == c && g[a.x1][a.y1] == c;
  }

  /**
   * One pass of the outer loop of `generateSmoothNoise` (lines 25-40): fills column x
   * of `smooth` with the smoothed cells and leaves every other column as it was.
   */
  method SmoothColumn(noise: array2<real>, octave: nat, cos: Cosine, smooth: array2<real>, x: nat)
    requires noise.Length0 > 0 && x < noise.Length0 && smooth != noise
    requires smooth.Length0 == noise.Length0 && smooth.Length1 == noise.Length1
    modifies smooth
    ensures forall y :: 0 <= y < smooth.Length1 ==> smooth[x, y] == SmoothCell(Cells(noise), octave, x, y, cos)
    ensures forall x', y :: 0 <= x' < smooth.Length0 && x' != x && 0 <= y < smooth.Length1 ==>
      smooth[x', y] == old(smooth[x', y])
  {
    var width := noise.Length0;
    var height := noise.Length1;
    ghost var g := Cells(noise);
    assert IsRect(g) && Width(g) == width && Height(g) == height;
    var samplePeriod := Pow2(octave);
    var sampleX0 := SampleAnchor(x, samplePeriod);
    var sampleX1 := NextAnchor(sampleX0, samplePeriod, width);
    var horizontalBlend := Blend(x, sampleX0, samplePeriod);
    for y := 0 to height
      invariant forall y' :: 0 <= y' < y ==> smooth[x, y'] == SmoothCell(g, octave, x, y', cos)
      invariant forall x', y' :: 0 <= x' < width && x' != x && 0 <= y' < height ==>
        smooth[x', y'] == old(smooth[x', y'])
    {
      var sampleY0 := SampleAnchor(y, samplePeriod);
      var sampleY1 := NextAnchor(sampleY0, samplePeriod, height);
      var verticalBlend := Blend(y, sampleY0, samplePeriod);
      var top := Interpolate(noise[sampleX0, sampleY0], noise[sampleX1, sampleY0], horizontalBlend, cos);
      var bottom := Interpolate(noise[sampleX0, sampleY1], noise[sampleX1, sampleY1], horizontalBlend, cos);
      smooth[x, y] := Interpolate(top, bottom, verticalBlend, cos);
    }
  }

  /**
   * `generateSmoothNoise(noise, octave)`: a fresh field of the input's dimensions
   * whose every cell is the smoothed cell; the input is not changed.
   */
  method GenerateSmoothNoise(noise: array2<real>, octave: nat, cos: Cosine) returns (smooth: array2<real>)
    requires noise.Length0 > 0
    ensures fresh(smooth)
    ensures smooth.Length0 == noise.Length0 && smooth.Length1 == noise.Length1
    ensures forall x, y :: 0 <= x < smooth.Length0 && 0 <= y < smooth.Length1 ==>
      smooth[x, y] == SmoothCell(Cells(noise), octave, x, y, cos)
  {
    var width := noise.Length0;
    var height := noise.Length1;
    ghost var g := Cells(noise);
    assert IsRect(g) && Width(g) == width && Height(g) == height;
    smooth := new real[width, height];
    for x := 0 to width
      invariant forall x', y :: 0 <= x' < x && 0 <= y < height ==> smooth[x', y] == SmoothCell(g, octave, x', y, cos)
    {
      SmoothColumn(noise, octave, cos, smooth, x);
    }
  }
}
