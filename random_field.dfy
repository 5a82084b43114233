/** The base field of independent random samples (`generateNoise`). */
module RandomField {
  import opened Grids

  /** The values successive calls of `Math.random` return; each lies in [0, 1). */
  type Draws = f: nat -> real | forall n :: 0.0 <= f(n) < 1.0
    witness (n: nat) => 0.0

  /** `Math.random` with its hidden state: `drawn` counts the values handed out so far. */
  class RandomSource {
    const draws: Draws
    var drawn: nat

    constructor (draws: Draws)
      ensures this.draws == draws && drawn == 0
    {
      this.draws := draws;
      drawn := 0;
    }

    /** `Math.random()`: the next value of the sequence, in [0, 1). */
    method Next() returns (r: real)
      modifies this
      ensures drawn == old(drawn) + 1
      ensures r == draws(old(drawn))
      ensures 0.0 <= r < 1.0
    {
      r := draws(drawn);
      drawn := drawn + 1;
    }
  }

  /** The index of the draw that fills cell (x, y) when each column holds `rows` cells. */
  function DrawIndex(start: nat, rows: nat, x: nat, y: nat): nat {
    start + x * rows + y
  }

  /** The field that consumes draws start, start + 1, ... column by column, `rows` cells per column. */
  ghost function DrawnGrid(draws: Draws, start: nat, columns: nat, rows: nat): (g: Grid)
    ensures |g| == columns
    ensures forall x :: 0 <= x < columns ==> |g[x]| == rows
  {
    seq(columns, x requires 0 <= x < columns => seq(rows, y requires 0 <= y < rows => draws(DrawIndex(start, rows, x, y))))
  }

  /**
   * Every cell gets a draw of its own: the draws read lie in start .. start + columns * rows - 1,
   * and two cells share a draw only when they are the same cell.
   */
  lemma CellsUseDistinctDraws(start: nat, columns: nat, rows: nat, x: nat, y: nat, x': nat, y': nat)
    requires x < columns && y < rows && x' < columns && y' < rows
    ensures start <= DrawIndex(start, rows, x, y) < start + columns * rows
    ensures DrawIndex(start, rows, x, y) == DrawIndex(start, rows, x', y') <==> x == x' && y == y'
  {
    ColumnsApart(rows, x, columns);
    if x < x' {
      ColumnsApart(rows, x, x');
    } else if x' < x {
      ColumnsApart(rows, x', x);
    }
  }

  /** All of column x, which holds `rows` cells, comes before column x' > x. */
  lemma ColumnsApart(rows: nat, x: nat, x': nat)
    requires x < x'
    ensures x * rows + rows <= x' * rows
  {
    var gap: nat := x' - x - 1;
    assert x' * rows == x * rows + rows + gap * rows;
  }

  /** Every cell of a drawn field lies in [0, 1). */
  lemma DrawnGridInUnitRange(draws: Draws, start: nat, columns: nat, rows: nat)
    requires columns > 0
    ensures IsRect(DrawnGrid(draws, start, columns, rows))
    ensures Bounded(DrawnGrid(draws, start, columns, rows), 0.0, 1.0)
  {
    var g := DrawnGrid(draws, start, columns, rows);
    forall x, y | 0 <= x < Width(g) && 0 <= y < Height(g)
      ensures 0.0 <= g[x][y] < 1.0
    {
      assert g[x][y] == draws(DrawIndex(start, rows, x, y));
    }
  }

  /** The inner loop of `generateNoise`: fills column x from the random source, top to bottom. */
  method FillColumn(noise: array2<real>, x: nat, rng: RandomSource)
    requires x < noise.Length0
    modifies noise, rng
    ensures rng.drawn == old(rng.drawn) + noise.Length1
    ensures forall y :: 0 <= y < noise.Length1 ==> noise[x, y] == rng.draws(old(rng.drawn) + y)
    ensures forall x', y :: 0 <= x' < noise.Length0 && x' != x && 0 <= y < noise.Length1 ==>
      noise[x', y] == old(noise[x', y])
  {
    for y := 0 to noise.Length1
      invariant rng.drawn == old(rng.drawn) + y
      invariant forall y' :: 0 <= y' < y ==> noise[x, y'] == rng.draws(old(rng.drawn) + y')
      invariant forall x', y' :: 0 <= x' < noise.Length0 && x' != x && 0 <= y' < noise.Length1 ==>
        noise[x', y'] == old(noise[x', y'])
    {
      var r := rng.Next();
      noise[x, y] := r;
    }
  }

  /**
   * The nested loops of `generateNoise`: a fresh columns-by-rows field filled column
   * by column from the random source.
   */
  method FillNoise(columns: nat, rows: nat, rng: RandomSource) returns (noise: array2<real>)
    modifies rng
    ensures fresh(noise) && noise.Length0 == columns && noise.Length1 == rows
    ensures rng.drawn == old(rng.drawn) + columns * rows
    ensures Cells(noise) == DrawnGrid(rng.draws, old(rng.drawn), columns, rows)
  {
    ghost var start := rng.drawn;
    ghost var target := DrawnGrid(rng.draws, start, columns, rows);
    noise := new real[columns, rows];
    for x := 0 to columns
      invariant rng.drawn == start + x * rows
      invariant forall x', y :: 0 <= x' < x && 0 <= y < rows ==> noise[x', y] == target[x'][y]
    {
      ghost var before := rng.drawn;
      FillColumn(noise, x, rng);
      forall y | 0 <= y < rows
        ensures target[x][y] == rng.draws(before + y)
      {
        assert DrawIndex(start, rows, x, y) == before + y;
      }
      assert rng.drawn == start + (x + 1) * rows;
    }
    CellsEqual(Cells(noise), target);
  }

  /**
   * `generateNoise(width, height)` as written: the inner loop is bounded by width, so
   * the field is width-by-width whatever the height.
   */
  method GenerateNoise(width: nat, height: nat, rng: RandomSource) returns (noise: array2<real>)
    modifies rng
    ensures fresh(noise) && noise.Length0 == width && noise.Length1 == width
    ensures rng.drawn == old(rng.drawn) + width * width
    ensures Cells(noise) == DrawnGrid(rng.draws, old(rng.drawn), width, width)
  {
    noise := FillNoise(width, width, rng);
  }

  /** `generateNoise` with the inner loop bounded by height, as the caller evidently expects. */
  method GenerateNoiseIntended(width: nat, height: nat, rng: RandomSource) returns (noise: array2<real>)
    modifies rng
    ensures fresh(noise) && noise.Length0 == width && noise.Length1 == height
    ensures rng.drawn == old(rng.drawn) + width * height
    ensures Cells(noise) == DrawnGrid(rng.draws, old(rng.drawn), width, height)
  {
    noise := FillNoise(width, height, rng);
  }

  /**
   * The two shapes side by side, for width < height: the width-by-width shape
   * `GenerateNoise` returns (its `ensures noise.Length1 == width`) lacks rows
   * width .. height - 1, which the shape `GenerateNoiseIntended` returns has.
   * A restatement of `DrawnGrid`'s lengths, kept for the record.
   */
  lemma AsWrittenNoiseMissesRows(draws: Draws, start: nat, width: nat, height: nat)
    requires 0 < width < height
    ensures Height(DrawnGrid(draws, start, width, width)) < height
    ensures Height(DrawnGrid(draws, start, width, height)) == height
  {
  }
}
