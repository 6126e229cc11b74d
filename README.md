# Wavelet image fusion: a Dafny model

The system fuses two registered images, typically a visible (RGB) frame and
an infrared (IR) frame. It runs in four steps:

1. Both images are decomposed with a 2-D discrete wavelet transform at depth
   4.
2. At every level the corresponding coefficient bands are combined by one of
   seven fusion strategies. The approximation band is fused once; each
   detail triple (H, V, D) is fused band by band.
3. The result is reconstructed.
4. It is stretched to 0..255 and stored as 8-bit pixels.

The strategies are:
- `Mean`, `Min`, `Max`;
- an entropy-weighted blend (`Entropy`);
- the activity/match/decision scheme `MACD`;
- an edge-entropy blend (`Edge`);
- a tile-wise standard-deviation blend (`Deviation`).

Three families of strategy code exist:
- loop-based single-band versions;
- loop-based three-channel versions;
- the vectorised versions the pipeline calls.

Quality metrics score the results:
- spatial frequency of one image, and its reference form over two images;
- the ratio of spatial-frequency error;
- Shannon entropy;
- the image quality index.

The model works over `real`. Coefficient bands are `seq<seq<real>>` values
(`Matrix`) and three-channel bands are `seq<seq<seq<real>>>` (`Volume`).
8-bit images for the metrics are `seq<seq<int>>`.

Several library routines become values passed in as parameters:
- `log2` and `sqrt` (`Numerics.Maths`);
- the Sobel filter and `shannon_entropy` (`Matrices.Imaging`);
- `wavelist`, `wavedec2` and `waverec2` (`Fuse.Wavelets`).

Each comes with a ghost predicate stating the few laws the proofs use:
- `log2` is monotone with `log2(1) == 0`;
- `sqrt` gives the non-negative root;
- entropies are non-negative;
- the Sobel filter keeps the shape of a rectangular band;
- decompositions of two same-shape images match entry by entry (the
  approximation first, then detail triples of equal shapes) and have depth + 1
  entries, and a reconstruction is rectangular.

Results that numpy would turn into NaN or infinity are modelled as errors:
- division by zero is `Err(ZeroDivision)`;
- `min` of an empty array is `Err(EmptyArray)`;
- the dispatch's fall-through `None` is `Err(UnknownStrategy)`;
- an empty wavelet family, where `wavelist(...)[0]` raises, is
  `Err(InvalidWavelet)`.

A loop that fills a fresh `np.zeros`/`np.empty` array is a method. It writes
an `array2`/`array3` and returns a ghost write log, and its postcondition
states that every cell was assigned exactly once (`WrittenOnce`). Three
helpers hold the shared loops:
- `Matrices.FillCells` for the row-major double loop;
- `ColourStrategies.FillVolume` for the triple loop;
- `Tiles.FuseByTiles` for the clipped tile loop.

Files:
- `numerics.dfy`: errors, `Result`, min/max/abs, `Eps` (2^-23, the float32
  machine epsilon), the maths library and its laws.
- `matrices.dfy`: bands, zipping, zero-padded window sums, flattening,
  `np.mean`/`np.min`/`np.max`, and the write logs.
- `cell_rules.dfy`: the per-cell weighted minimum/maximum rules, the blends,
  and `Activity`.
- `tiles.dfy`: the tile grid of the deviation strategies and the tile loop.
- `gray_strategies.dfy`: `fusionStrategysGray.py`.
- `colour_strategies.dfy`: `fusionStrategys.py`.
- `strategies.dfy`: `fusionStrategies.py`.
- `fuse.py`'s dispatch, level loop, normalisation and pipeline are in
  `fuse.dfy`.
- `metrics.dfy`: `metrics.py`.

## Model

| member | source | states |
|---|---|---|
| CellRules.MinimCell | fusionStrategysGray.py:28-39 | The weighted-minimum cell is 0 when both coefficients are 0. It is `min(a, b)` when exactly one is 0 (the `isclose` tests against 0.0 are exact-zero tests). |
| CellRules.MinimCellBetween | fusionStrategysGray.py:30-39 | Every branch of the weighted minimum lies between `min(a, b)` and `max(a, b)`. |
| CellRules.MaximCell | fusionStrategysGray.py:65-76 | The weighted-maximum cell is 0 when both coefficients are 0, and `max(a, b)` when exactly one is 0. |
| CellRules.MaximCellBetween | fusionStrategysGray.py:67-76 | Every branch of the weighted maximum lies between `min(a, b)` and `max(a, b)`. |
| CellRules.CellRulesCommute | fusionStrategys.py:34-41 | Both cell rules give the same result with the coefficients swapped. This includes the same-sign formula (abs(b)·a + abs(a)·b)/(abs(a)+abs(b)). |
| CellRules.MinimMaximOrder | fusionStrategys.py:72-79 | The maximum cell is at least the minimum cell unless both coefficients are negative. For two negatives the order reverses. |
| CellRules.Average | fusionStrategysGray.py:111-112 | `(a + b)/2` lies between the inputs and is equally far from both. |
| CellRules.ShareBlendBetween | fusionStrategysGray.py:114 | A blend with non-negative weights wa/(wa+wb), wb/(wa+wb) lies between the inputs. |
| CellRules.ShareBlendSwap | fusionStrategysGray.py:114 | Swapping the inputs together with their weights leaves the blend unchanged. |
| CellRules.Activity | fusionStrategies.py:36 | The activity is the cell-wise absolute value: same shape, never negative. |
| CellRules.NormalisedProductBound | fusionStrategies.py:48 | a·b/(a²+b²+e) has magnitude at most 1/2 for e >= 0. |
| Tiles.TilesPartition | fusionStrategies.py:137-140 | Every cell of a w×h array lies in exactly one visited tile: the tile of its row and column origins. No tile holds a cell outside the array. |
| Tiles.FuseByTiles | fusionStrategies.py:134-146 | The two tile loops over a fresh array assign every cell exactly once. Each cell gets the value computed from its own (clipped) tile. |
| Tiles.TileStd | fusionStrategies.py:142-143 | The standard deviation of a tile is never negative when `sqrt` is lawful. |
| Matrices.FillCells | fusionStrategysGray.py:23-26 | The row-major double loop over a fresh w×h array assigns each cell once, with the value of its rule. |
| Matrices.RowBoxBound | fusionStrategies.py:53 | A window row of cells of magnitude at most `bound` sums to at most (columns)·bound in magnitude. |
| Matrices.BoxSumBound | fusionStrategies.py:53 | A block of rows, each of magnitude at most `rowBound`, sums to at most (rows)·rowBound in magnitude. |
| GrayStrategies.MinimGray | fusionStrategysGray.py:16-41 | Each cell of a fresh array shaped like `coeff1` is written once with the weighted minimum, which lies between the two coefficients. |
| GrayStrategies.MaximGray | fusionStrategysGray.py:54-78 | Each cell is written once with the weighted maximum, which lies between the two coefficients. |
| GrayStrategies.WeightedOrAverageBetween | fusionStrategysGray.py:109-114 | With non-negative weights every cell lies between the inputs. When the weights add to 0, every cell is the midpoint. |
| GrayStrategies.CoeffsEntropyGrayBetween | fusionStrategysGray.py:98-114 | Entropies, computed from the flattened bands, are never negative, so every fused cell lies between the input cells. |
| GrayStrategies.CoeffsEntropyGray | fusionStrategysGray.py:81-114 | The entropy-weighted fusion of two single bands keeps their shape; its cells are bounded by `CoeffsEntropyGrayBetween`. |
| GrayStrategies.CoeffsEntropyGrayFallback | fusionStrategysGray.py:98-112 | Bands with no positive cell have entropy 0, so the fusion is the cell-wise midpoint. |
| GrayStrategies.NonPositiveCells | fusionStrategysGray.py:98 | Flattening keeps every cell, so a band with no positive cell flattens to a list with no positive entry. |
| GrayStrategies.EdgeDetectionGrayBetween | fusionStrategysGray.py:237-248 | The edge-entropy blend of the single-band code lies between the inputs in every cell. |
| GrayStrategies.EdgeDetectionGray | fusionStrategysGray.py:229-248 | The Sobel-entropy fusion of two single bands keeps their shape; its cells are bounded by `EdgeDetectionGrayBetween`. |
| GrayStrategies.NormalisedProductGray | fusionStrategysGray.py:169 | The guarded normalised product has magnitude at most 1/2. |
| GrayStrategies.Window | fusionStrategysGray.py:220-227 | The double loop returns the sum of `mult` over rows a−size..a+size−1 and columns b−size..b+size−1, skipping indices outside the array. |
| GrayStrategies.WindowOfZeros | fusionStrategysGray.py:222-225 | An all-zero `mult` gives a window sum of 0. |
| GrayStrategies.MatchRow | fusionStrategysGray.py:172-173 | One pass of the inner loop sets row i to its 10×10 window sums and leaves every other cell unchanged. The write log grows by exactly row i. |
| GrayStrategies.MatchGridCells | fusionStrategysGray.py:171-173 | An array whose cells are the window sums of the normalised products is the match grid. |
| GrayStrategies.MatchGray | fusionStrategysGray.py:163-175 | The match array equals the window-sum grid of the normalised products, with each cell written once. |
| GrayStrategies.DecisionCellGray | fusionStrategysGray.py:197-204 | For non-negative activities a decision lies in [0, 1]. |
| GrayStrategies.DecisionCellGrayZero | fusionStrategysGray.py:197-204 | A decision is 0 exactly when the activity sum is 0, the match is at most 1e-5, or the first activity is 0 and the match is not above fract·mean. |
| GrayStrategies.DecisionGray | fusionStrategysGray.py:190-206 | The double loop yields the decision grid, with each cell written once. |
| GrayStrategies.MacdGray | fusionStrategysGray.py:134-148 | The double loop yields the MACD grid, with each cell written once. |
| GrayStrategies.MacdCellGrayBetween | fusionStrategysGray.py:140-146 | For a decision in [0, 1] a MACD cell lies between its inputs. |
| GrayStrategies.MacdCellGray | fusionStrategysGray.py:140-146 | Equal coefficients come back unchanged. A decision of 1 takes the first coefficient; a decision of 0 takes the first when its activity is strictly larger and the second otherwise. |
| GrayStrategies.MacdGridBetween | fusionStrategysGray.py:126-148 | Every MACD cell lies between the two input coefficients. |
| GrayStrategies.MacdCellGrayPicksActive | fusionStrategysGray.py:140-144 | Where the decision is 0 the cell is the coefficient of larger magnitude. On a tie it is the second coefficient. |
| GrayStrategies.DeviationGray | fusionStrategysGray.py:258-280 | The 8×8 tiles are each written once. Each cell is its tile's std-weighted blend and lies between the two inputs. |
| GrayStrategies.DeviationCellGrayBetween | fusionStrategysGray.py:273-278 | A deviation cell lies between its inputs. In a tile whose two deviations are 0 it is their midpoint. |
| GrayStrategies.DeviationCellGray | fusionStrategysGray.py:273-278 | Where the two input cells are equal, the deviation cell equals them, whatever the tile deviations. |
| ColourStrategies.FillVolume | fusionStrategys.py:19-28 | The triple loop over a fresh w×h×c array assigns every cell exactly once. |
| ColourStrategies.Minim | fusionStrategys.py:17-43 | Each (i, j, k) cell is written once with the weighted minimum, which lies between the inputs. |
| ColourStrategies.Maxim | fusionStrategys.py:56-81 | Each (i, j, k) cell is written once with the weighted maximum, which lies between the inputs. |
| ColourStrategies.CoeffsEntropyBlend | fusionStrategys.py:118-123 | The two weights entropy/delt are non-negative and sum to 1. With a zero entropy sum every cell is (a+b)/2. Every cell lies between its inputs. |
| ColourStrategies.CoeffsEntropy | fusionStrategys.py:84-123 | The three-channel entropy fusion keeps the rows, columns and channels of its inputs. |
| Strategies.NormalisedProduct | fusionStrategies.py:48 | c1·c2/(c1²+c2²+eps) has magnitude at most 1/2, and is 0 when either coefficient is 0. |
| Strategies.NormalisedProductSymmetric | fusionStrategies.py:48 | The normalised product is symmetric. |
| Strategies.Mult | fusionStrategies.py:48 | The product array has the band's shape and cells of magnitude at most 1/2. |
| Strategies.Match | fusionStrategies.py:48-53 | Convolving with the all-ones 5×5 kernel under zero padding keeps the shape, and every cell has magnitude at most 12.5. |
| Strategies.MatchCellBound | fusionStrategies.py:49-53 | A clipped 5×5 window of cells of magnitude at most 1/2 sums to at most 12.5 in magnitude. |
| Strategies.MatchSymmetric | fusionStrategies.py:48-53 | The match does not depend on the order of the bands. |
| Strategies.DecisionCell | fusionStrategies.py:67-69 | For non-negative activities a decision lies in [0, 1). |
| Strategies.DecisionCellZero | fusionStrategies.py:69 | A decision is 0 exactly when the first activity is 0, the second is not, and the match is not above fract·mean. |
| Strategies.Decision | fusionStrategies.py:67-69 | The decision array has the activities' shape and cells in [0, 1). |
| Strategies.MacdCellBetween | fusionStrategies.py:25 | For a decision in [0, 1) a MACD cell lies between its inputs. |
| Strategies.Macd | fusionStrategies.py:11-25 | The MACD fusion keeps the band's shape; its cells are described by `MacdCells`. |
| Strategies.MacdCells | fusionStrategies.py:21-25 | Every MACD cell lies between the two coefficients. The decision is 0 exactly where c1 is 0, c2 is not, and the match is not above half its mean. There the cell is `max(0, c2)`. |
| Strategies.Shifted | fusionStrategies.py:81 | `coeff - coeff.min()` keeps the shape and is never negative. |
| Strategies.ShiftedEntropy | fusionStrategies.py:81-82 | The entropy of a shifted band is never negative when the entropy routine is lawful. |
| Strategies.WeightedMean | fusionStrategies.py:84 | (e1·a + e2·b)/(e1+e2) is the share blend with weights e1/(e1+e2) and e2/(e1+e2). |
| Strategies.CoeffsEntropy | fusionStrategies.py:81-84 | It fails with `EmptyArray` exactly when the band is empty, and with `ZeroDivision` exactly when the two entropies add to 0. Otherwise the result keeps the band's shape. |
| Strategies.CoeffsEntropyBetween | fusionStrategies.py:81-84 | A successful entropy fusion lies between the inputs in every cell. |
| Strategies.CoeffsEntropySymmetric | fusionStrategies.py:81-84 | The entropy fusion gives the same result, or the same error, with the two bands swapped. |
| Strategies.EpsBlend | fusionStrategies.py:103-105 | An eps-guarded blend with two zero weights is 0, not the mean. |
| Strategies.EpsBlendBounds | fusionStrategies.py:103-105 | An eps-guarded blend with non-negative weights lies between min(a, b, 0) and max(a, b, 0). |
| Strategies.EdgeDetection | fusionStrategies.py:97-105 | The result keeps the band's shape. With a lawful filter and entropy it fails exactly when the band is empty. |
| Strategies.EdgeDetectionCells | fusionStrategies.py:100-105 | Every cell lies between min(a, b, 0) and max(a, b, 0). When both edge entropies are 0 every cell is 0. |
| Strategies.DeviationCellBounds | fusionStrategies.py:142-144 | A deviation cell lies between min(a, b, 0) and max(a, b, 0). In a tile whose two deviations are 0 it is 0. |
| Strategies.DeviationCell | fusionStrategies.py:142-144 | With a lawful `sqrt` the deviation cell is exactly the eps-blend (stdr·a + stdi·b)/(stdr + stdi + eps): the zero-sum guard never fires. |
| Strategies.Deviation | fusionStrategies.py:134-146 | The 4×4 tiles are written once each. Each cell is its tile's (stdr·a + stdi·b)/(stdr+stdi+eps), within min(a, b, 0) .. max(a, b, 0). |
| Fuse.Fused | fuse.py:56-69 | A strategy name outside the seven fails with `UnknownStrategy`, and only such a name does. Every successful fusion keeps the band's shape. |
| Fuse.FuseCoeff | fuse.py:45-69 | The dispatch returns what the named strategy computes; its "Deviation" branch runs the tile loop, proved equal to the tile-wise grid. |
| Fuse.MeanMinMaxOrder | fuse.py:56-61 | Mean, Min and Max are commutative, and Min is at most Max cell by cell. |
| Fuse.FusedBounds | fuse.py:56-69 | With lawful libraries every successful fusion lies cell by cell between the inputs. `Edge` and `Deviation` are the exception: they lie between min(a, b, 0) and max(a, b, 0). |
| Fuse.DeviationGridBounds | fuse.py:68-69 | The deviation grid the dispatch returns lies between min(a, b, 0) and max(a, b, 0). |
| Fuse.FuseLevel | fuse.py:26-35 | Fusing a level keeps its kind and band shapes. It fails with `UnknownStrategy` exactly for an unknown name. |
| Fuse.FusedLevelsShape | fuse.py:23-35 | A successful level loop returns as many entries as the decomposition. Entry 0 is the approximation band, later entries are triples, and every band keeps its shape. |
| Fuse.FusedLevels | fuse.py:23-35 | A successful level loop returns as many entries as the decomposition has. |
| Fuse.FusedLevelsEntries | fuse.py:23-35 | The level loop succeeds exactly when every level fuses, and entry k of the result is the fusion of entry k of both decompositions (H, V, D in order, by `FuseLevel`). |
| Fuse.FusedLevelsFirstError | fuse.py:23-35 | A failed level loop reports the error of the first level whose fusion fails. |
| Fuse.FusedLevelsUnknown | fuse.py:24-35 | An unknown strategy name fails the level loop with `UnknownStrategy`. |
| Fuse.FuseLevelStep | fuse.py:26-35 | One iteration of the level loop computes the fused level. |
| Fuse.FuseLevels | fuse.py:23-35 | The appending loop returns `FusedLevels`: entry by entry the fused levels (`FusedLevelsEntries`), with their structure preserved (`FusedLevelsShape`). |
| Fuse.Normalise | fuse.py:40 | It fails with `EmptyArray` for an empty array, and with `ZeroDivision` exactly when min equals max. Otherwise every value lies in [0, 255], the minimum maps to 0 and the maximum to 255. |
| Fuse.Stretch | fuse.py:40 | The stretch sends the minimum to 0 and the maximum to 255. |
| Fuse.StretchRange | fuse.py:40 | Values between the minimum and the maximum stretch into [0, 255]. |
| Fuse.StretchMonotone | fuse.py:40 | The stretch preserves order. |
| Fuse.ToByte | fuse.py:41 | The uint8 cast of a value in [0, 255] gives the largest integer not above it (3.0 gives 3, 3.7 gives 3). |
| Fuse.ToBytes | fuse.py:41 | The cast keeps the shape and truncates every cell to 0..255. |
| Fuse.PipelineInvalidWavelet | fuse.py:16 | The pipeline fails with `InvalidWavelet` exactly when the wavelet family is empty. |
| Fuse.Pipeline | fuse.py:5-43 | Every pixel of a successful result is in 0..255, as `astype(np.uint8)` after the stretch promises. |
| Fuse.PipelineUnknown | fuse.py:27-35 | With a valid family, an unknown strategy name fails the pipeline with `UnknownStrategy`. |
| Fuse.FusedImage | fuse.py:5-43 | The method computes the pipeline in five steps: pick the first wavelet, decompose both images at depth 4, fuse level by level, reconstruct, then normalise and cast. |
| Metrics.Positives | metrics.py:73 | Every entry is strictly positive. A value occurs exactly as often as in the input if it is positive, and not at all otherwise. |
| Metrics.Entr | metrics.py:73-77 | With no positive entry the entropy is 0. |
| Metrics.EntrNonNegative | metrics.py:73-77 | The entropy −Σ p·log2 p over the normalised positive entries is never negative. |
| Metrics.LineSum | metrics.py:95-96 | The inner loop accumulates the sum of its terms. |
| Metrics.Accumulate | metrics.py:93-120 | The nested loops of one direction accumulate that direction's sum of squared differences. |
| Metrics.Scale | metrics.py:97-120 | A non-negative total gives a non-negative frequency. For rows and columns the frequency times w·h is the total; for both diagonals the frequency times sqrt(2) times w·h is the total. |
| Metrics.Spatial | metrics.py:80-124 | The method computes the spatial frequency: sqrt of the product of the four directional terms. |
| Metrics.SpatialReference | metrics.py:126-176 | The method computes the reference spatial frequency from the per-pair maxima. |
| Metrics.SpatialFrequency | metrics.py:80-124 | `spatial` fails with `ZeroDivision` exactly when w·h = 0. Otherwise the score is never negative, the part of the docstring's "SF > 0" that holds. |
| Metrics.SpatialReferenceFrequency | metrics.py:126-176 | `spatial_reference` fails with `ZeroDivision` exactly when w·h = 0. Otherwise the score is never negative. |
| Metrics.FrequencyMono | metrics.py:97-120 | A directional term is non-negative and monotone in its total. |
| Metrics.DirectionSumMono | metrics.py:141-171 | A directional sum is monotone in its terms. |
| Metrics.RefDirectionDominates | metrics.py:143-145 | Each reference directional term is at least the term of X and at least the term of Y. |
| Metrics.SpatialReferenceDominates | metrics.py:126-176 | `spatial_reference(X, Y)` is at least `spatial(X)` and at least `spatial(Y)`. |
| Metrics.SpatialReferenceSelf | metrics.py:139-176 | `spatial_reference(X, X)` equals `spatial(X)`. |
| Metrics.RootOfProductSwap | metrics.py:176 | Swapping the two diagonal factors does not change the root of the product. |
| Metrics.ConstantImageScoresZero | metrics.py:93-124 | A constant image has spatial frequency 0. |
| Metrics.FlatColumnsScoreZero | metrics.py:99-124 | An image whose columns are constant scores 0, whatever its rows do. |
| Metrics.StripesScoreZero | metrics.py:124 | The image [[0, 255], [0, 255]] has a sharp horizontal edge, yet it scores 0 under the product. |
| Metrics.SumScoresRowEdges | metrics.py:122 | Under the sum the comment gives, any horizontal edge makes the score positive. |
| Metrics.StripesScorePositiveOfSum | metrics.py:122 | The striped image scores above 0 under the sum. |
| Metrics.RSFe | metrics.py:191 | It is undefined exactly when SF_ref is 0. For SF_ref > 0 it is positive, zero or negative exactly as SF_input is above, equal to or below SF_ref. |
| Metrics.AddRow | metrics.py:29-31 | One row of the IQI loop adds that row's squared deviations and cross products to the three running sums. |
| Metrics.ImageQualityIndex | metrics.py:18-49 | The IQI loop computes the image quality index, with the sums divided by (w + h − 1). |
| Metrics.QualityIndex | metrics.py:40-49 | The three factors are defined exactly when the means are not both 0 and the two squared-deviation sums do not add to 0; otherwise `ZeroDivision`. |
| Metrics.Iqi | metrics.py:6-49 | `IQI` is defined exactly when the images are non-empty, their means are not both 0 and they are not both flat; every failure is `ZeroDivision`. |
| Metrics.IqiSelf | metrics.py:41-47 | An image with non-zero mean and non-zero variance has quality index 1 against itself. |
| Metrics.IqiFlat | metrics.py:41 | When either image has zero variance the correlation factor, and so the index, is 0. |
| Metrics.IqiSymmetric | metrics.py:18-49 | The index is symmetric in X and Y. |

## Left out

- SSIM (`compare_ssim`) is a foreign routine with no logic of its own here.
- The GUI, the command-line driver, image file I/O, colour conversion, timing and threads are outside the model.
- The channel accumulation at fusionStrategys.py:98-103 is left out. It sums `coeff1[c]` into uninitialised `np.empty` memory, so its result is unspecified. `ColourStrategies.CoeffsEntropy` takes the two accumulated lists as parameters.
- `wavelist`, `wavedec2`, `waverec2`, the Sobel filter, `shannon_entropy`, `log2` and `sqrt` are parameters. Only the laws named above are assumed of them; their numerics are not modelled.
- IEEE floating point is not modelled: rounding, NaN and infinity. Numbers are exact reals, and a NaN/inf-producing division is an error result. `Eps` has the float32 value 2^-23 but is added exactly, not in float64.
- `Strategies.Match` and the other vectorised strategies are modelled on single bands only. The 5×5×3 kernel that `Match` uses for three-channel arrays is not modelled, nor is the per-channel `np.std(..., axis=(0, 1))` of `deviation`.
- `Strategies.Decision`: requires non-negative activities. Its only caller passes `Activity` arrays, which always are non-negative.
- `Strategies.DeviationCell`: has a guard for stdr + stdi + eps == 0, which cannot happen because standard deviations are non-negative. The guard only keeps the function total.
- `Metrics.ImageQualityIndex`: the stated range [-1, 1] of the docstring is not proved, because it needs the Cauchy–Schwarz inequality over sums and the abstract `sqrt`, whose laws give only non-negative roots.
- `Fuse.Pipeline`, `Fuse.FusedImage`, `Fuse.Fused`, `Fuse.FuseCoeff` and the strategies: bands of different shapes are excluded by the precondition `SameShape`. `fuse.py` checks nothing, and `main.py:47-48` crops only the width of the first image. For such inputs numpy raises a broadcast `ValueError`, or silently broadcasts when one side has size 1; the model promises nothing about that crash or that broadcast.
- `Matrices.Mean`: `np.mean` of an empty array is NaN, but here it is 0. Only non-empty bands reach it in the strategies.
- `Matrices.MatrixMin`: states that the result is at most every cell, not that it is attained. `Matrices.MatrixMax` is the same with at least.
- Errors propagate as the first error result. numpy would instead carry NaN arrays on through the later levels and return `None` from the dispatch.
- `Fuse.FusedImage`: images are single-band arrays; the `axes=(0, 1)` transform of three-channel images is not modelled.
- `GrayStrategies.EdgeDetectionGray`: the Sobel filter and `entr` are parameters; only the blend and its fallback are modelled.

## Findings

| source | as written | input that shows it | evidently intended | confidence | as-written member | corrected member |
|---|---|---|---|---|---|---|
| metrics.py:124 | `spatial` returns the square root of the product row·column·diagonal_m·diagonal_s, so an image with variation in only one direction scores 0 | the 2×2 image [[0, 255], [0, 255]]: its row term is positive, but its column term is 0 | the square root of the sum of the four terms, as the comment at metrics.py:122 says | not executed | Metrics.StripesScoreZero | Metrics.StripesScorePositiveOfSum |
