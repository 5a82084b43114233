# Perlin noise synthesis, modelled in Dafny

The demo builds a field of random samples (`generateNoise`). It then smooths that
field at each octave by sampling a coarser lattice of anchor cells and blending
them with a cosine ease (`generateSmoothNoise`, `interpolate`). Finally it layers
the octaves into one field (`generatePerlinNoise`): a countdown loop adds octaves
`octaveCount - 1` down to `1`, weighted by `persistance`, `persistance^2`, …, into a
zeroed accumulator, and every cell is then divided by the total weight.

The model has five modules:

- **Grids** (`grids.dfy`) holds the value view of a field: `Grid = seq<seq<real>>`
  indexed `[x][y]` as the JavaScript arrays are. `Cells` turns an `array2<real>`
  into a grid, and `CellsEqual` is grid extensionality.
- **Interpolation** (`interpolation.dfy`) models `interpolate`. `Math.cos` is a
  parameter `cos`. The lemmas assume only what `IsCosine` states about it: values
  in [-1, 1] and `cos(0) == 1`. The exception is `InterpolateAtOne`, which assumes
  `cos(pi) == -1` instead.
- **Smoothing** (`smoothing.dfy`) covers anchor arithmetic, the bilinear blend of
  one cell (`SmoothCell`) and the method `GenerateSmoothNoise`. The method fills
  a fresh `array2` column by column and is proved equal to `SmoothCell` on every
  cell.
- **RandomField** (`random_field.dfy`) models `Math.random` as a `RandomSource`
  object. Its fixed function `draws: nat -> real` gives the n-th value
  returned, each in [0, 1), and a counter `drawn` says how many draws have been taken. `GenerateNoise` fills the field from it.
- **Composition** (`composition.dfy`) models `generatePerlinNoise`:
  - `SmoothLayers` builds one layer per octave.
  - `ZeroField` creates the accumulator.
  - `AccumulateOctaves` runs the countdown loop, using the in-place `AddScaledLayer`.
  - `DivideCells` does the in-place division.
  - Spec functions `Power`, `TotalAmplitude`, `WeightedSum` and `PerlinCell` give
    the value every cell ends with.

Values are `real`. Indices are `nat`, and `Math.pow(2, octave)` is the integer
`Pow2(octave)`. `Math.floor(x / p) * p` is `(x / p) * p` on naturals.

A far anchor does not simply wrap to index 0 once the period reaches the width.
The code computes `(sample_x0 + samplePeriod) % width`, which is
`period % width` there, and the model follows the code. `AnchorsOfWidePeriod`
states the general case and `WidePeriodNeedNotWrapToZero` gives the instance
width 3, octave 2, where the far anchor is column 1.

## Model

| member | source | states |
|---|---|---|
| `Interpolation.EaseWeight` | demos/perlin-noise/perlin_javascript.js:13 | Defines `alpha2`, the cosine-eased weight `(1 - cos(alpha * pi)) / 2`. A definition without a contract; `EaseWeightRange` states its range. |
| `Interpolation.Interpolate` | demos/perlin-noise/perlin_javascript.js:12-15 | Defines `interpolate(x0, x1, alpha)` as `x0 * (1 - alpha2) + x1 * alpha2`. A definition without a contract; `InterpolateBetween`, `InterpolateAtOne` and `InterpolateSame` are proved about it. |
| `Interpolation.EaseWeightRange` | demos/perlin-noise/perlin_javascript.js:13 | The eased weight `(1 - cos(alpha * pi)) / 2` lies in [0, 1] and is 0 at alpha 0. |
| `Interpolation.InterpolateBetween` | demos/perlin-noise/perlin_javascript.js:12-15 | The blend lies between the smaller and the larger of its two ends, and is `x0` when alpha is 0. |
| `Interpolation.InterpolateAtOne` | demos/perlin-noise/perlin_javascript.js:12-15 | If `cos(pi) == -1`, alpha 1 gives exactly `x1`. |
| `Interpolation.InterpolateSame` | demos/perlin-noise/perlin_javascript.js:12-15 | Blending a value with itself gives that value, whatever alpha and cos are. |
| `Smoothing.Pow2` | demos/perlin-noise/perlin_javascript.js:22 | The sample period `2^octave` is at least 1, so the divisions at lines 23 and 25 are defined. |
| `Smoothing.DivModUnique` | demos/perlin-noise/perlin_javascript.js:25 | If `i == q * p + r` with `0 <= r < p`, then `q` and `r` are the quotient and remainder of `i` by `p`. The floor step of line 25 rests on this. |
| `Smoothing.SampleAnchor` | demos/perlin-noise/perlin_javascript.js:25 | The near anchor `floor(i / p) * p` satisfies `anchor <= i < anchor + p`. |
| `Smoothing.SampleAnchorIsMultiple` | demos/perlin-noise/perlin_javascript.js:25 | The near anchor is a multiple of the period and is the largest multiple not above `i`. |
| `Smoothing.NextAnchor` | demos/perlin-noise/perlin_javascript.js:26 | The far anchor `(anchor + p) % extent` is inside the field, and equals `anchor + p` when that is already inside. |
| `Smoothing.Blend` | demos/perlin-noise/perlin_javascript.js:28 | The blend `(i - anchor) * (1 / p)` lies in [0, 1), times `p` gives `i - anchor`, and is 0 when the period is 1. |
| `Smoothing.CellAnchors` | demos/perlin-noise/perlin_javascript.js:22-33 | All four anchor indices of a cell are inside the field, with or without wrap-around. The cell lies within one period of its near anchors, and both blends are in [0, 1). |
| `Smoothing.AnchorsAreMultiples` | demos/perlin-noise/perlin_javascript.js:25-31 | Both near anchors are multiples of `2^octave`. |
| `Smoothing.AnchorsAtOctaveZero` | demos/perlin-noise/perlin_javascript.js:22-33 | At octave 0 each cell anchors at itself and both blends are 0. |
| `Smoothing.AnchorsOfWidePeriod` | demos/perlin-noise/perlin_javascript.js:25-26 | Once `2^octave >= width`, every column anchors at column 0 and its far anchor is `2^octave % width`. |
| `Smoothing.WidePeriodNeedNotWrapToZero` | demos/perlin-noise/perlin_javascript.js:26 | For a 3-wide field at octave 2 the far anchor is column 1, not 0. |
| `Smoothing.SmoothCell` | demos/perlin-noise/perlin_javascript.js:25-38 | Defines the value lines 35-38 store in cell (x, y): the vertical blend of the two horizontal blends of the four anchor cells. A definition without a contract; `GenerateSmoothNoise` is proved equal to it and the four lemmas below are about it. |
| `Smoothing.SmoothCellBetweenAnchors` | demos/perlin-noise/perlin_javascript.js:35-38 | A smoothed cell lies between the least and the greatest of its four anchor cells. |
| `Smoothing.SmoothAtOctaveZero` | demos/perlin-noise/perlin_javascript.js:22-38 | At octave 0 a smoothed cell equals the input cell. |
| `Smoothing.SmoothWithinBounds` | demos/perlin-noise/perlin_javascript.js:17-42 | If every input cell lies in [lo, hi), so does every smoothed cell (in [0, 1) for random input). |
| `Smoothing.SmoothOfConstant` | demos/perlin-noise/perlin_javascript.js:35-38 | A constant field smooths to the same constant. |
| `Smoothing.SmoothColumn` | demos/perlin-noise/perlin_javascript.js:25-40 | One pass of the outer loop computes the horizontal anchors and blend of column x, sets column x of the output to the smoothed values and leaves every other column as it was. |
| `Smoothing.GenerateSmoothNoise` | demos/perlin-noise/perlin_javascript.js:16-43 | Returns a fresh field with the input's dimensions whose every cell is the bilinear cosine blend of its four anchor cells. |
| `RandomField.RandomSource.Next` | demos/perlin-noise/perlin_javascript.js:7 | Returns the next draw, which lies in [0, 1), and advances the count by one. |
| `RandomField.DrawIndex` | demos/perlin-noise/perlin_javascript.js:4-8 | Defines which draw fills cell (x, y): the one taken after x whole columns and y cells of column x. A definition without a contract; `CellsUseDistinctDraws` is about it. |
| `RandomField.DrawnGrid` | demos/perlin-noise/perlin_javascript.js:4-9 | Defines the field the nested loops build from the draws; its contract gives its dimensions, and `FillNoise` is proved equal to it. |
| `RandomField.CellsUseDistinctDraws` | demos/perlin-noise/perlin_javascript.js:4-8 | Each cell reads one of the `columns * rows` draws the fill consumes, and two cells read the same draw only if they are the same cell: every cell is drawn independently. |
| `RandomField.ColumnsApart` | demos/perlin-noise/perlin_javascript.js:4-6 | All cells of column x are drawn before any cell of a later column. |
| `RandomField.DrawnGridInUnitRange` | demos/perlin-noise/perlin_javascript.js:7 | Every cell of a field filled from the source lies in [0, 1). |
| `RandomField.FillColumn` | demos/perlin-noise/perlin_javascript.js:6-8 | The inner loop fills column x with the next draws in order, consumes one draw per cell and leaves the other columns alone. |
| `RandomField.FillNoise` | demos/perlin-noise/perlin_javascript.js:3-10 | Returns a fresh columns-by-rows field holding the next `columns * rows` draws, column by column. |
| `RandomField.GenerateNoise` | demos/perlin-noise/perlin_javascript.js:2-11 | The field has `width` columns of `width` cells each, whatever the height, and consumes `width * width` draws. |
| `RandomField.GenerateNoiseIntended` | demos/perlin-noise/perlin_javascript.js:2-11 | With the inner bound corrected to `height`, the field is width-by-height. |
| `RandomField.AsWrittenNoiseMissesRows` | demos/perlin-noise/perlin_javascript.js:6 | Documents the two shapes side by side: for every width below the height, the width-by-width shape has fewer rows than asked for and the corrected shape has exactly `height` rows. It follows from the lengths `DrawnGrid` guarantees; the proof of the as-written behaviour is `GenerateNoise`'s `ensures noise.Length1 == width`. |
| `Composition.Power` | demos/perlin-noise/perlin_javascript.js:62-66 | Defines `amplitude` after k passes, `persistance^k`. A definition without a contract; `PowerPositive` is about it and `AccumulateOctaves` keeps it as an invariant. |
| `Composition.TotalAmplitude` | demos/perlin-noise/perlin_javascript.js:63-67 | Defines `totalAmplitude` after k passes, the sum of `persistance^j` for j = 1..k. A definition without a contract; `GeometricTotal` and `TotalAmplitudePositive` are about it. |
| `Composition.WeightedSum` | demos/perlin-noise/perlin_javascript.js:65-74 | Defines an accumulator cell after k passes: pass j adds the cell of layer `octaveCount - j` times `persistance^j`. A definition without a contract; `WeightedSumBounds` and `WeightedSumOfConstant` are about it. |
| `Composition.CellLayers` | demos/perlin-noise/perlin_javascript.js:50-52 | Defines the values of cell (x, y) in the smoothed layers of octaves 0 .. octaveCount - 1; its contract gives one value per octave. |
| `Composition.PerlinCell` | demos/perlin-noise/perlin_javascript.js:62-80 | Defines the final value of cell (x, y): its accumulator divided by `totalAmplitude`. A definition without a contract; `GeneratePerlinNoise` is proved equal to it and `PerlinWithinBounds`, `PerlinOfConstant` and `PerlinOfTwoOctaves` are about it. |
| `Composition.GeometricTotal` | demos/perlin-noise/perlin_javascript.js:62-67 | The total amplitude after k passes is the geometric sum: `(1 - p) * total == p - p^(k+1)`. |
| `Composition.PowerPositive` | demos/perlin-noise/perlin_javascript.js:66 | A positive persistence keeps every amplitude positive. |
| `Composition.TotalAmplitudePositive` | demos/perlin-noise/perlin_javascript.js:67 | With positive persistence and at least one pass the total amplitude is positive, so the division at line 78 is defined. |
| `Composition.WeightedSumBounds` | demos/perlin-noise/perlin_javascript.js:65-74 | If the values read lie in [lo, hi), the accumulator lies between lo and hi times the total amplitude. |
| `Composition.PassStep` | demos/perlin-noise/perlin_javascript.js:66-71 | One pass of the countdown loop keeps those bounds. |
| `Composition.ScaledStep` | demos/perlin-noise/perlin_javascript.js:71 | Adding a value in [lo, hi) with a positive weight keeps a running sum between lo and hi times its running weight. |
| `Composition.WeightedSumOfConstant` | demos/perlin-noise/perlin_javascript.js:65-74 | If every value read is c, the accumulator is c times the total amplitude. |
| `Composition.QuotientWithin` | demos/perlin-noise/perlin_javascript.js:78 | An amount between lo and hi times a positive total, divided by that total, lies in [lo, hi). |
| `Composition.ScaledQuotient` | demos/perlin-noise/perlin_javascript.js:78 | Dividing `c` times a non-zero total by that total gives back `c`. |
| `Composition.AverageWithin` | demos/perlin-noise/perlin_javascript.js:62-80 | The normalised accumulator is a weighted average, so it lies in [lo, hi) when the values read do. |
| `Composition.AverageOfConstant` | demos/perlin-noise/perlin_javascript.js:62-80 | The normalised accumulator of all-c values is c. |
| `Composition.PerlinWithinBounds` | demos/perlin-noise/perlin_javascript.js:44-83 | For `octaveCount >= 2`, persistence > 0 and input in [lo, hi), the total amplitude is positive and every output cell lies in [lo, hi) (so in [0, 1) for random input). |
| `Composition.PerlinOfConstant` | demos/perlin-noise/perlin_javascript.js:44-83 | A constant input gives the same constant everywhere, for every persistence with a non-zero total. |
| `Composition.PerlinOfTwoOctaves` | demos/perlin-noise/perlin_javascript.js:65-80 | With two octaves the total amplitude is the persistence and the output is the octave-1 layer alone: octave 0 is never read. |
| `Composition.AddScaledLayer` | demos/perlin-noise/perlin_javascript.js:69-73 | Adds the layer times the amplitude into every accumulator cell, in place. |
| `Composition.DivideCells` | demos/perlin-noise/perlin_javascript.js:76-80 | Divides every cell by the total amplitude, in place. |
| `Composition.ZeroField` | demos/perlin-noise/perlin_javascript.js:54-60 | Returns a fresh width-by-height field of zeros. |
| `Composition.SmoothLayers` | demos/perlin-noise/perlin_javascript.js:48-52 | Returns one fresh layer per octave 0 .. octaveCount - 1, each the smoothing of the input at that octave. |
| `Composition.AccumulateOctaves` | demos/perlin-noise/perlin_javascript.js:62-74 | After the countdown loop the total amplitude is `p + … + p^(octaveCount-1)`. Each accumulator cell is the sum over passes j of `p^j` times the cell of layer `octaveCount - j`. The loop invariant also keeps `amplitude == p^j`. |
| `Composition.GeneratePerlinNoise` | demos/perlin-noise/perlin_javascript.js:44-83 | Returns a fresh field with the input's dimensions. Every cell is the weighted sum of octaves `octaveCount - 1` down to 1 divided by the total amplitude. |

## Left out

- The canvas and DOM tail (lines 84-116) is browser I/O and is not modelled. This includes the getElementById and getContext calls, pixel painting with fillRect, and colour strings.
- The colour-banding thresholds (lines 97-113) are not modelled.
- IEEE-754 rounding is not modelled: values are exact reals. Claims that hold only for exact reals, such as a constant field giving exactly that constant, need not hold in doubles.
- `Math.cos` is known only through `IsCosine`: values in [-1, 1] and `cos(0) == 1`. `InterpolateAtOne` further assumes `cos(pi) == -1`. The real cosine, and claims such as "alpha 0.5 gives the exact midpoint", are not modelled.
- The distribution of `Math.random` is not modelled. The model knows only that each draw lies in [0, 1).
- `Pow2` is exact, so it does not model `Math.pow(2, octave)` overflowing to Infinity once the octave reaches 1024.
- Ragged input arrays are not modelled: the field is an `array2`, so every column has the same height. Non-integer widths are not modelled either: indices are `nat`.
- `GenerateSmoothNoise` and `GeneratePerlinNoise` require a non-empty field. The source reads `noise[0].length`, which throws for an empty array.
- `GeneratePerlinNoise` requires `octaveCount >= 2` and a non-zero total amplitude. Otherwise line 78 divides by zero and JavaScript produces NaN or Infinity cells. Those values are not modelled.
- `PerlinWithinBounds`: the range claim is stated only for persistence > 0. A negative persistence can give negative weights, so no average bound is claimed then.

## Findings

| source | as written | input that shows it | evidently intended | confidence | as-written member | corrected member |
|---|---|---|---|---|---|---|
| demos/perlin-noise/perlin_javascript.js:6 | the inner loop runs `y < width`, so each column holds `width` cells | width 4, height 6: columns have 4 cells. Smoothing and layering take the height from `noise[0].length` (lines 18 and 46), so they work on a 4-by-4 field and never read rows 4 and 5. Only the canvas loop (lines 94-96) reads `data[x][4]` and `data[x][5]`, which are `undefined`, so those pixels fall through to the `else` branch at lines 107-112. `GenerateNoise`'s ensures `noise.Length1 == width` shows the mismatch for every width different from the height. | `y < height`, giving a width-by-height field | high, not executed | `RandomField.GenerateNoise` (with `RandomField.AsWrittenNoiseMissesRows`) | `RandomField.GenerateNoiseIntended` |
