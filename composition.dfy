/** Weighted accumulation of the smoothed layers into one normalised field (`generatePerlinNoise`). */
module Composition {
  import opened Grids
  import opened Interpolation
  import opened Smoothing

  /** `persistence` to the k-th power, built the way the loop builds `amplitude`. */
  function Power(persistence: real, k: nat): real {
    if k == 0 then 1.0 else Power(persistence, k - 1) * persistence
  }

  /** `totalAmplitude` after k passes of the countdown loop: the sum of persistence^j for j = 1..k. */
  function TotalAmplitude(persistence: real, k: nat): real {
    if k == 0 then 0.0 else TotalAmplitude(persistence, k - 1) + Power(persistence, k)
  }

  /**
   * The accumulator after k passes of the countdown loop, for one cell whose layer
   * values (one per octave) are `values`: pass j adds the value of octave
   * |values| - j weighted by persistence^j.
   */
  function WeightedSum(values: seq<real>, persistence: real, k: nat): real
    requires k < |values|
  {
    if k == 0 then 0.0
    else WeightedSum(values, persistence, k - 1) + values[|values| - k] * Power(persistence, k)
  }

  /** The values of cell (x, y) in the smoothed layers of octaves 0 .. octaveCount - 1. */
  ghost function CellLayers(g: Grid, octaveCount: nat, cos: Cosine, x: nat, y: nat): (values: seq<real>)
    requires IsRect(g) && x < Width(g) && y < Height(g)
    ensures |values| == octaveCount
  {
    seq(octaveCount, o requires 0 <= o < octaveCount => SmoothCell(g, o, x, y, cos))
  }

  /**
   * Output cell (x, y): the accumulated octaves 1 .. octaveCount - 1 divided by their
   * total weight. Octave 0 takes no part.
   */
  ghost function PerlinCell(g: Grid, octaveCount: nat, persistence: real, cos: Cosine, x: nat, y: nat): real
    requires IsRect(g) && x < Width(g) && y < Height(g)
    requires octaveCount >= 2 && TotalAmplitude(persistence, octaveCount - 1) != 0.0
  {
    WeightedSum(CellLayers(g, octaveCount, cos, x, y), persistence, octaveCount - 1)
      / TotalAmplitude(persistence, octaveCount - 1)
  }

  /** The amplitudes form a geometric series: (1 - p) * (p + ... + p^k) == p - p^(k+1). */
  lemma {:induction false} GeometricTotal(persistence: real, k: nat)
    ensures TotalAmplitude(persistence, k) * (1.0 - persistence) == persistence - Power(persistence, k + 1)
  {
    if k > 0 {
      GeometricTotal(persistence, k - 1);
      var t, w := TotalAmplitude(persistence, k - 1), Power(persistence, k);
      assert TotalAmplitude(persistence, k) == t + w;
      assert Power(persistence, k + 1) == w * persistence;
      assert (t + w) * (1.0 - persistence) == t * (1.0 - persistence) + w - w * persistence;
    }
  }

  /** A positive persistence gives positive amplitudes. */
  lemma {:induction false} PowerPositive(persistence: real, k: nat)
    requires persistence > 0.0
    ensures Power(persistence, k) > 0.0
  {
    if k > 0 {
      PowerPositive(persistence, k - 1);
      assert Power(persistence, k) == Power(persistence, k - 1) * persistence;
    }
  }

  /** A positive persistence and at least one pass give a positive total amplitude. */
  lemma {:induction false} TotalAmplitudePositive(persistence: real, k: nat)
    requires persistence > 0.0 && k >= 1
    ensures TotalAmplitude(persistence, k) > 0.0
  {
    PowerPositive(persistence, k);
    if k > 1 {
      TotalAmplitudePositive(persistence, k - 1);
    }
  }

  /** Every value read by the first k passes (octaves |values| - k .. |values| - 1) lies in [lo, hi). */
  ghost predicate PassesBounded(values: seq<real>, k: nat, lo: real, hi: real)
    requires k < |values|
  {
    forall o :: |values| - k <= o < |values| ==> lo <= values[o] < hi
  }

  /** The accumulator lies between lo and hi times the total weight. */
  ghost predicate SumWithin(values: seq<real>, persistence: real, k: nat, lo: real, hi: real)
    requires k < |values|
  {
    lo * TotalAmplitude(persistence, k) <= WeightedSum(values, persistence, k) < hi * TotalAmplitude(persistence, k)
  }

  /**
   * With positive weights and values in [lo, hi), the accumulator lies between lo and
   * hi times the total weight.
   */
  lemma {:induction false} WeightedSumBounds(values: seq<real>, persistence: real, k: nat, lo: real, hi: real)
    requires 1 <= k < |values| && persistence > 0.0 && PassesBounded(values, k, lo, hi)
    ensures SumWithin(values, persistence, k, lo, hi)
  {
    if k > 1 {
      WeightedSumBounds(values, persistence, k - 1, lo, hi);
    }
    PassStep(values, persistence, k, lo, hi);
  }

  /** One pass keeps the accumulator within the bounds, starting from an empty one. */
  lemma PassStep(values: seq<real>, persistence: real, k: nat, lo: real, hi: real)
    requires 1 <= k < |values| && persistence > 0.0 && lo <= values[|values| - k] < hi
    requires k > 1 ==> SumWithin(values, persistence, k - 1, lo, hi)
    ensures SumWithin(values, persistence, k, lo, hi)
  {
    var v, w := values[|values| - k], Power(persistence, k);
    var s, t := WeightedSum(values, persistence, k - 1), TotalAmplitude(persistence, k - 1);
    var sum, total := WeightedSum(values, persistence, k), TotalAmplitude(persistence, k);
    assert sum == s + v * w;
    assert total == t + w;
    PowerPositive(persistence, k);
    ScaledStep(s, t, v, w, sum, total, lo, hi);
    assert lo * total <= sum;
    assert sum < hi * total;
  }

  /**
   * One pass keeps the bounds: if s lies in [lo * t, hi * t] (or both are 0) and v in
   * [lo, hi), then s + v * w lies in [lo * (t + w), hi * (t + w)).
   */
  lemma ScaledStep(s: real, t: real, v: real, w: real, sum: real, total: real, lo: real, hi: real)
    requires w > 0.0 && lo <= v < hi
    requires (s == 0.0 && t == 0.0) || (lo * t <= s <= hi * t)
    requires sum == s + v * w && total == t + w
    ensures lo * total <= sum < hi * total
  {
    assert lo * w <= v * w < hi * w;
    assert lo * total == lo * t + lo * w;
    assert hi * total == hi * t + hi * w;
  }

  /** When every value read is c, the accumulator is c times the total weight. */
  lemma {:induction false} WeightedSumOfConstant(values: seq<real>, persistence: real, k: nat, c: real)
    requires k < |values| && forall o :: |values| - k <= o < |values| ==> values[o] == c
    ensures WeightedSum(values, persistence, k) == c * TotalAmplitude(persistence, k)
  {
    if k > 0 {
      WeightedSumOfConstant(values, persistence, k - 1, c);
      var w, t := Power(persistence, k), TotalAmplitude(persistence, k - 1);
      assert values[|values| - k] == c;
      assert c * (t + w) == c * t + c * w;
    }
  }

  /** A quotient of an amount in [lo * total, hi * total) by a positive total lies in [lo, hi). */
  lemma QuotientWithin(amount: real, total: real, lo: real, hi: real)
    requires total > 0.0 && lo * total <= amount < hi * total
    ensures lo <= amount / total < hi
  {
    assert (amount / total) * total == amount;
  }

  /**
   * Dividing by the total weight gives a weighted average of the values read, so it
   * stays in [lo, hi).
   */
  lemma AverageWithin(values: seq<real>, persistence: real, k: nat, lo: real, hi: real)
    requires 1 <= k < |values| && persistence > 0.0 && PassesBounded(values, k, lo, hi)
    ensures TotalAmplitude(persistence, k) > 0.0
    ensures lo <= WeightedSum(values, persistence, k) / TotalAmplitude(persistence, k) < hi
  {
    TotalAmplitudePositive(persistence, k);
    WeightedSumBounds(values, persistence, k, lo, hi);
    QuotientWithin(WeightedSum(values, persistence, k), TotalAmplitude(persistence, k), lo, hi);
  }

  /** The weighted average of values that are all c is c. */
  lemma AverageOfConstant(values: seq<real>, persistence: real, k: nat, c: real)
    requires k < |values| && forall o :: |values| - k <= o < |values| ==> values[o] == c
    requires TotalAmplitude(persistence, k) != 0.0
    ensures WeightedSum(values, persistence, k) / TotalAmplitude(persistence, k) == c
  {
    WeightedSumOfConstant(values, persistence, k, c);
    ScaledQuotient(c, TotalAmplitude(persistence, k));
  }

  /** Scaling by a non-zero total and dividing by it again gives the value back. */
  lemma ScaledQuotient(c: real, total: real)
    requires total != 0.0
    ensures (c * total) / total == c
  {
  }

  /**
   * The output is a weighted average of the layers: for persistence > 0 and a field in
   * [lo, hi), every output cell lies in [lo, hi) (so in [0, 1) for random noise).
   */
  lemma PerlinWithinBounds(g: Grid, octaveCount: nat, persistence: real, cos: Cosine,
                           x: nat, y: nat, lo: real, hi: real)
    requires IsRect(g) && x < Width(g) && y < Height(g) && octaveCount >= 2
    requires persistence > 0.0 && Bounded(g, lo, hi) && IsCosine(cos)
    ensures TotalAmplitude(persistence, octaveCount - 1) > 0.0
    ensures lo <= PerlinCell(g, octaveCount, persistence, cos, x, y) < hi
  {
    var values := CellLayers(g, octaveCount, cos, x, y);
    var k := octaveCount - 1;
    forall o | 1 <= o < octaveCount
      ensures lo <= values[o] < hi
    {
      SmoothWithinBounds(g, o, x, y, cos, lo, hi);
    }
    AverageWithin(values, persistence, k, lo, hi);
  }

  /** A constant field composes to the same constant, for every persistence the division allows. */
  lemma PerlinOfConstant(g: Grid, octaveCount: nat, persistence: real, cos: Cosine, x: nat, y: nat, c: real)
    requires IsRect(g) && x < Width(g) && y < Height(g) && Constant(g, c)
    requires octaveCount >= 2 && TotalAmplitude(persistence, octaveCount - 1) != 0.0
    ensures PerlinCell(g, octaveCount, persistence, cos, x, y) == c
  {
    var values := CellLayers(g, octaveCount, cos, x, y);
    var k := octaveCount - 1;
    forall o | 1 <= o < octaveCount
      ensures values[o] == c
    {
      SmoothOfConstant(g, o, x, y, cos, c);
    }
    AverageOfConstant(values, persistence, k, c);
  }

  /** With two octaves only octave 1 is summed, so the output is that layer alone. */
  lemma PerlinOfTwoOctaves(g: Grid, persistence: real, cos: Cosine, x: nat, y: nat)
    requires IsRect(g) && x < Width(g) && y < Height(g) && persistence != 0.0
    ensures TotalAmplitude(persistence, 1) == persistence
    ensures PerlinCell(g, 2, persistence, cos, x, y) == SmoothCell(g, 1, x, y, cos)
  {
    var values := CellLayers(g, 2, cos, x, y);
    assert Power(persistence, 1) == persistence;
    assert WeightedSum(values, persistence, 1) == values[1] * persistence;
  }

  /** Lines 69-73: adds amplitude times the layer into every accumulator cell, in place. */
  method AddScaledLayer(perlin: array2<real>, layer: array2<real>, amplitude: real)
    requires perlin != layer && layer.Length0 == perlin.Length0 && layer.Length1 == perlin.Length1
    modifies perlin
    ensures forall x, y :: 0 <= x < perlin.Length0 && 0 <= y < perlin.Length1 ==>
      perlin[x, y] == old(perlin[x, y]) + layer[x, y] * amplitude
  {
    for x := 0 to perlin.Length0
      invariant forall x', y :: 0 <= x' < x && 0 <= y < perlin.Length1 ==>
        perlin[x', y] == old(perlin[x', y]) + layer[x', y] * amplitude
      invariant forall x', y :: x <= x' < perlin.Length0 && 0 <= y < perlin.Length1 ==>
        perlin[x', y] == old(perlin[x', y])
    {
      for y := 0 to perlin.Length1
        invariant forall x', y' :: 0 <= x' < x && 0 <= y' < perlin.Length1 ==>
          perlin[x', y'] == old(perlin[x', y']) + layer[x', y'] * amplitude
        invariant forall y' :: 0 <= y' < y ==> perlin[x, y'] == old(perlin[x, y']) + layer[x, y'] * amplitude
        invariant forall x', y' :: x <= x' < perlin.Length0 && (x' > x || y' >= y) && 0 <= y' < perlin.Length1 ==>
          perlin[x', y'] == old(perlin[x', y'])
      {
        perlin[x, y] := perlin[x, y] + layer[x, y] * amplitude;
      }
    }
  }

  /** Lines 76-80: divides every cell by the total amplitude, in place. */
  method DivideCells(perlin: array2<real>, totalAmplitude: real)
    requires totalAmplitude != 0.0
    modifies perlin
    ensures forall x, y :: 0 <= x < perlin.Length0 && 0 <= y < perlin.Length1 ==>
      perlin[x, y] == old(perlin[x, y]) / totalAmplitude
  {
    for x := 0 to perlin.Length0
      invariant forall x', y :: 0 <= x' < x && 0 <= y < perlin.Length1 ==>
        perlin[x', y] == old(perlin[x', y]) / totalAmplitude
      invariant forall x', y :: x <= x' < perlin.Length0 && 0 <= y < perlin.Length1 ==>
        perlin[x', y] == old(perlin[x', y])
    {
      for y := 0 to perlin.Length1
        invariant forall x', y' :: 0 <= x' < x && 0 <= y' < perlin.Length1 ==>
          perlin[x', y'] == old(perlin[x', y']) / totalAmplitude
        invariant forall y' :: 0 <= y' < y ==> perlin[x, y'] == old(perlin[x, y']) / totalAmplitude
        invariant forall x', y' :: x <= x' < perlin.Length0 && (x' > x || y' >= y) && 0 <= y' < perlin.Length1 ==>
          perlin[x', y'] == old(perlin[x', y'])
      {
        perlin[x, y] := perlin[x, y] / totalAmplitude;
      }
    }
  }

  /** Lines 54-60: a fresh width-by-height accumulator of zeros. */
  method ZeroField(width: nat, height: nat) returns (field: array2<real>)
    ensures fresh(field) && field.Length0 == width && field.Length1 == height
    ensures forall x, y :: 0 <= x < width && 0 <= y < height ==> field[x, y] == 0.0
  {
    field := new real[width, height];
    for x := 0 to width
      invariant forall x', y :: 0 <= x' < x && 0 <= y < height ==> field[x', y] == 0.0
    {
      for y := 0 to height
        invariant forall x', y' :: 0 <= x' < x && 0 <= y' < height ==> field[x', y'] == 0.0
        invariant forall y' :: 0 <= y' < y ==> field[x, y'] == 0.0
      {
        field[x, y] := 0.0;
      }
    }
  }

  /** Lines 48-52: one fresh smoothed layer per octave 0 .. octaveCount - 1. */
  method SmoothLayers(noise: array2<real>, octaveCount: nat, cos: Cosine) returns (layers: seq<array2<real>>)
    requires noise.Length0 > 0
    ensures |layers| == octaveCount
    ensures forall j :: 0 <= j < octaveCount ==> fresh(layers[j])
    ensures forall j :: 0 <= j < octaveCount ==>
      layers[j].Length0 == noise.Length0 && layers[j].Length1 == noise.Length1
    ensures forall j, x, y :: 0 <= j < octaveCount && 0 <= x < noise.Length0 && 0 <= y < noise.Length1 ==>
      layers[j][x, y] == SmoothCell(Cells(noise), j, x, y, cos)
  {
    layers := [];
    for i := 0 to octaveCount
      invariant |layers| == i
      invariant forall j :: 0 <= j < i ==> fresh(layers[j])
      invariant forall j :: 0 <= j < i ==> layers[j].Length0 == noise.Length0 && layers[j].Length1 == noise.Length1
      invariant forall j, x, y :: 0 <= j < i && 0 <= x < noise.Length0 && 0 <= y < noise.Length1 ==>
        layers[j][x, y] == SmoothCell(Cells(noise), j, x, y, cos)
    {
      var layer := GenerateSmoothNoise(noise, i, cos);
      layers := layers + [layer];
    }
  }

  /**
   * Lines 62-74: the countdown loop. Starting from a zero accumulator it adds layer
   * octave times persistence^(|layers| - octave) for octave = |layers| - 1 down to 1,
   * and returns the total weight added. `values(x, y)` names the layer values of
   * cell (x, y), one per octave.
   */
  method AccumulateOctaves(perlin: array2<real>, layers: seq<array2<real>>, persistence: real,
                           ghost values: (nat, nat) -> seq<real>)
    returns (totalAmplitude: real)
    requires |layers| >= 1
    requires forall j :: 0 <= j < |layers| ==>
      layers[j] != perlin && layers[j].Length0 == perlin.Length0 && layers[j].Length1 == perlin.Length1
    requires forall x, y :: 0 <= x < perlin.Length0 && 0 <= y < perlin.Length1 ==>
      |values(x, y)| == |layers|
    requires forall j, x, y :: 0 <= j < |layers| && 0 <= x < perlin.Length0 && 0 <= y < perlin.Length1 ==>
      layers[j][x, y] == values(x, y)[j]
    requires forall x, y :: 0 <= x < perlin.Length0 && 0 <= y < perlin.Length1 ==> perlin[x, y] == 0.0
    modifies perlin
    ensures totalAmplitude == TotalAmplitude(persistence, |layers| - 1)
    ensures forall x, y :: 0 <= x < perlin.Length0 && 0 <= y < perlin.Length1 ==>
      perlin[x, y] == WeightedSum(values(x, y), persistence, |layers| - 1)
  {
    var amplitude := 1.0;
    totalAmplitude := 0.0;
    var octave := |layers| - 1;
    while octave > 0
      invariant 0 <= octave <= |layers| - 1
      invariant amplitude == Power(persistence, |layers| - 1 - octave)
      invariant totalAmplitude == TotalAmplitude(persistence, |layers| - 1 - octave)
      invariant forall x, y :: 0 <= x < perlin.Length0 && 0 <= y < perlin.Length1 ==>
        perlin[x, y] == WeightedSum(values(x, y), persistence, |layers| - 1 - octave)
    {
      amplitude := amplitude * persistence;
      totalAmplitude := totalAmplitude + amplitude;
      AddScaledLayer(perlin, layers[octave], amplitude);
      octave := octave - 1;
    }
  }

  /**
   * `generatePerlinNoise(noise, octaveCount, persistence)`: smooths the field at octaves
   * 0 .. octaveCount - 1, sums octaves octaveCount - 1 down to 1 with weights
   * persistence, persistence^2, ..., and divides by the total weight. The division
   * needs a non-zero total, which in particular needs octaveCount >= 2.
   */
  method GeneratePerlinNoise(noise: array2<real>, octaveCount: nat, persistence: real, cos: Cosine)
    returns (perlin: array2<real>)
    requires noise.Length0 > 0
    requires octaveCount >= 2 && TotalAmplitude(persistence, octaveCount - 1) != 0.0
    ensures fresh(perlin)
    ensures perlin.Length0 == noise.Length0 && perlin.Length1 == noise.Length1
    ensures forall x, y :: 0 <= x < perlin.Length0 && 0 <= y < perlin.Length1 ==>
      perlin[x, y] == PerlinCell(Cells(noise), octaveCount, persistence, cos, x, y)
  {
    var width := noise.Length0;
    var height := noise.Length1;
    ghost var g := Cells(noise);
    assert IsRect(g) && Width(g) == width && Height(g) == height;

    var smoothNoise := SmoothLayers(noise, octaveCount, cos);
    perlin := ZeroField(width, height);
    ghost var values := (x: nat, y: nat) =>
      if x < width && y < height then CellLayers(g, octaveCount, cos, x, y) else [];
    var totalAmplitude := AccumulateOctaves(perlin, smoothNoise, persistence, values);
    DivideCells(perlin, totalAmplitude);
  }
}
