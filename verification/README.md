# Heatmap-to-keypoint decoding of a Convolutional Pose Machine demo

This project models the part of the pose-estimation demo script
`test/cpm_test.py` that is pure array logic:

- `get_kpts` turns the network's last-stage output into keypoints. It reads
  the first stack of the batch and skips map 0, the background. For every
  other map it finds the arg-max cell the way NumPy does: flat `argmax`
  (first occurrence of the maximum) followed by `unravel_index` (row-major).
  It rescales the cell to image coordinates with `int(w * img_w / W)` and
  `int(h * img_h / H)`, and records `np.amax` of the map as the confidence.
- The joint-array assembly `np.r_[np.array(kpts).T, np.array(conf).T]` builds
  a 3 x K array: row 0 holds x, row 1 holds y, row 2 holds the confidence.
- The center-map clamp sets values above 1 to 1, then sets values below
  0.0099 to 0.

Modules follow the steps of the decoder:

- `Grids` (`grids.dfy`): maps as rectangular `seq<seq<real>>`, row-major
  flattening, and `Ravel`/`Unravel` (the flat index / `unravel_index` pair).
- `ArgMax` (`argmax.dfy`): the flat arg-max, `np.amax`, and the first
  maximal cell in row-major order. It also has a nested row/column scan that
  is proved to find the same cell.
- `Scaling` (`scaling.dfy`): Python's `int()` as truncation toward zero, and
  the rescale from map cells to image pixels.
- `Decoder` (`decoder.dfy`): one map's decode, the loop over the keypoint
  maps, and `get_kpts` itself, with its error cases.
- `Joints` (`joints.dfy`): the 3 x K joint array and its inverse, read
  column by column.
- `CenterMap` (`centermap.dfy`): the two masked assignments on the center map.

Exceptions become `Err` values of a `Result`:

- `maps[0]` on an empty batch raises `IndexError`; this is `EmptyBatch`.
- `argmax` of a map with no cells raises `ValueError`; this is `EmptyMap`.
  This check comes first, so the rescale never divides by zero.
- `np.r_` of arrays with different column counts raises; this is `ShapeMismatch`.
  The decoder always returns equally long lists, so the per-image estimate never
  reaches this error.

The source truncates the rescaled coordinate with `int`; it does not round.
For the shipped sizes (368-pixel images, 46 x 46 maps, stride 8) the rescale
is exactly `8 * c` (`Scaling.RescaleShipped`).

## Model

| member | source | states |
|---|---|---|
| `Grids.Unravel` | test/cpm_test.py:40 | `unravel_index` gives a column below the width, and re-ravelling it gives back the flat index |
| `Grids.UnravelRavel` | test/cpm_test.py:40 | `unravel_index` inverts the row-major flat index of every in-bounds cell |
| `Grids.RavelBelowArea` | test/cpm_test.py:40 | every in-bounds cell has a flat index below the map's size |
| `Grids.UnravelInBounds` | test/cpm_test.py:40 | every flat index below the map's size unravels to an in-bounds cell |
| `Grids.RavelOrder` | test/cpm_test.py:40 | flat-index order is row-major cell order: earlier row, or same row and earlier column |
| `Grids.Flatten` | test/cpm_test.py:40 | `argmax` reads the map flattened in row-major order: the flat sequence has exactly one entry per cell (H x W entries); where each cell lands is `Grids.FlattenCell` |
| `Grids.FlattenCell` | test/cpm_test.py:40 | the flattened map holds cell (h, w) at flat index h * W + w |
| `ArgMax.FirstMaxUnique` | test/cpm_test.py:40 | a sequence has at most one first-occurrence maximum |
| `ArgMax.FlatArgMax` | test/cpm_test.py:40 | flat `argmax` returns an index holding the maximum, and every earlier index holds a strictly smaller value (first occurrence wins) |
| `ArgMax.SeqMax` | test/cpm_test.py:44 | `np.amax` is at least every element and is one of the elements |
| `ArgMax.SeqMaxAtArgMax` | test/cpm_test.py:40-44 | the value `np.amax` reports is the value at the `argmax` index |
| `ArgMax.FirstMaxCellUnique` | test/cpm_test.py:40 | a map has at most one first maximal cell in row-major order |
| `ArgMax.FlatFirstMaxIsFirstMaxCell` | test/cpm_test.py:40 | unravelling the first maximum of the flattened map gives the first maximal cell of the map |
| `ArgMax.ArgMaxCell` | test/cpm_test.py:40 | `unravel_index(argmax)` gives the first maximal cell in row-major order: (h, w) is in bounds, no cell is strictly greater, and every cell in an earlier row or earlier in the same row is strictly smaller |
| `ArgMax.ArgMaxCellFindsFirstMax` | test/cpm_test.py:40 | any first maximal cell, such as a planted peak, is exactly the cell decoded |
| `ArgMax.Amax` | test/cpm_test.py:40-44 | `np.amax(m)` is at least every cell and equals the value stored at the cell `unravel_index(argmax)` decodes |
| `ArgMax.ScanArgMax` | test/cpm_test.py:40 | a row-by-row, column-by-column scan that moves only on a strictly larger value ends on the first maximal cell, the same cell as `unravel_index(argmax)` |
| `Scaling.Trunc` | test/cpm_test.py:41-42 | `int()` truncates toward zero: floor for non-negative values, ceiling for negative ones |
| `Scaling.ScaledBounds` | test/cpm_test.py:41-42 | the exact quotient c * img / dim is non-negative, and it lies below img when c lies below dim |
| `Scaling.Rescale` | test/cpm_test.py:41-42 | for a non-negative extent the image coordinate is the truncated quotient: it is non-negative and r * dim <= c * img < (r + 1) * dim; it also lies below the image extent whenever the map coordinate lies below the map extent |
| `Scaling.FloorOfQuotient` | test/cpm_test.py:41-42 | flooring an exact quotient of naturals is natural-number division |
| `Scaling.RescaleIsNatDivision` | test/cpm_test.py:41-42 | for whole-number image extents the rescale equals (c * img) / dim in natural numbers |
| `Scaling.RescaleShipped` | test/cpm_test.py:41-42 | with 368-pixel images and 46-cell maps the rescale is c times the stride 8 of line 9 |
| `Decoder.DecodeMap` | test/cpm_test.py:39-44 | one map decodes if and only if it has cells; the keypoint lies inside the image: 0 <= x < img_w and 0 <= y < img_h |
| `Decoder.DecodeMapFindsFirstMaxCell` | test/cpm_test.py:40-44 | the decoded keypoint is the first maximal cell in row-major order, rescaled with x from the column and y from the row; the confidence is the value at that cell, and no cell exceeds it |
| `Decoder.DecodeAll` | test/cpm_test.py:37-45 | decoding succeeds if and only if every map has cells; it gives exactly one keypoint and one confidence per map, and entry j is the decode of map j |
| `Decoder.KeypointMaps` | test/cpm_test.py:39 | `map_6[1:]` has one map fewer than the stack, and its map j is the stack's map j + 1; an empty stack gives no maps |
| `Decoder.GetKpts` | test/cpm_test.py:31-45 | the result is `EmptyBatch` exactly when the batch is empty; a non-empty batch can fail only with `EmptyMap` (argmax's `ValueError`); otherwise decoding succeeds if and only if maps 1.. have cells; keypoint j and confidence j are the decode of map j + 1, so 15 maps give 14 keypoints |
| `Decoder.OnlyKeypointMapsMatter` | test/cpm_test.py:35-39 | the background map and the later images of the batch never affect the output |
| `Decoder.MapsDecodedIndependently` | test/cpm_test.py:39-44 | when every keypoint map has cells, replacing keypoint map j by another map with cells changes only keypoint j and confidence j, which become the decode of the new map |
| `Decoder.PlantedPeak` | test/cpm_test.py:40-44 | a map with a strict peak at (h, w) decodes to that cell, rescaled, with the peak value as confidence |
| `Decoder.PlantedMapExample` | test/cpm_test.py:40-44 | a 4 x 4 map with a single 1.0 at row 1, column 2, decoded for an 8 x 8 image, gives keypoint (4, 2) with confidence 1.0 |
| `Decoder.PlantedStackExample` | test/cpm_test.py:31-45 | any background map followed by that planted map decodes to the single keypoint (4, 2) with confidence 1.0 |
| `Joints.JointArray` | test/cpm_test.py:136 | stacking succeeds if and only if the two lists have equal length; the result has shape (3, K); row 0 holds x_j, row 1 holds y_j and row 2 holds conf_j exactly, so column j is (x_j, y_j, conf_j) |
| `Joints.UnpackJointArray` | test/cpm_test.py:136 | reading the assembled array back gives the decoder's keypoints and confidences unchanged |
| `Joints.JointArrayOfUnpack` | test/cpm_test.py:136 | an array with whole-number coordinate rows is the assembly of its own columns |
| `Joints.EstimateJoints` | test/cpm_test.py:132-136 | the estimate is `EmptyBatch` exactly when the batch is empty; a non-empty batch fails only when some keypoint map has no cells, and then with `EmptyMap`; on success it is a 3 x K array whose rows 0, 1 and 2 at column j hold exactly the x, the y and the confidence decoded from keypoint map j + 1 |
| `Joints.ShippedJointArrayShape` | test/cpm_test.py:89-92 | fifteen decodable maps give the (3, 14) slice that the batch loop stores |
| `CenterMap.ClipAbove` | test/cpm_test.py:113 | after `center_map[center_map > 1] = 1` a cell is at most 1 and at most its old value; it is unchanged exactly when it was at most 1, and otherwise it becomes 1 |
| `CenterMap.ZeroBelow` | test/cpm_test.py:114 | after `center_map[center_map < 0.0099] = 0` a cell is 0 or at least 0.0099; it is unchanged exactly when it was at least 0.0099 or already 0, and otherwise it becomes 0 |
| `CenterMap.Threshold` | test/cpm_test.py:113-114 | a clamped value is 0 or lies in [0.0099, 1]; values in [0.0099, 1] are kept, values above 1 become 1, and values below 0.0099 become 0 |
| `CenterMap.ThresholdMap` | test/cpm_test.py:113-114 | the clamped map keeps its shape, every cell is 0 or in [0.0099, 1], cells in that band are unchanged, cells above 1 become 1, and cells below 0.0099 become 0 |
| `CenterMap.ThresholdMapFixedPoints` | test/cpm_test.py:113-114 | the clamp leaves a map unchanged if and only if every cell is already 0 or in [0.0099, 1] |
| `CenterMap.ThresholdMapIdempotent` | test/cpm_test.py:113-114 | clamping twice gives the same map as clamping once |
| `CenterMap.ThresholdOrderIrrelevant` | test/cpm_test.py:113-114 | running the two masked assignments in the other order gives the same map |

## Left out

- `construct_model` and the forward pass (test/cpm_test.py:13-28, 123-129): checkpoint loading and network inference are calls into PyTorch. The heatmaps are a parameter.
- `gaussian_kernel` (test/cpm_test.py:80-83) and the image normalisation (test/cpm_test.py:105-108): these are floating-point `exp` and division. The clamp is stated for any map of reals.
- `draw_paint` (test/cpm_test.py:48-78): OpenCV drawing, trigonometry, alpha blending and GUI display.
- `test_loop` (test/cpm_test.py:85-94), `cv2.imread`, `np.savez` and the `print` calls: file-system and console I/O. The (3, 14) slice that `test_loop` stores is covered by `Joints.ShippedJointArrayShape`.
- The tensor-to-NumPy conversion `maps.clone().cpu().data.numpy()` (test/cpm_test.py:34): it copies values without changing them, so the model starts from the array.
- Scaling.Rescale: computes `w * img_w / W` as an exact real quotient. Python computes it in double precision before `int`. For the shipped sizes the quotient is a whole number (8 * w), so the two agree.
- CenterMap.Threshold: compares exact reals with 0.0099. The source compares 64-bit floats, and then stores the map as float32 (test/cpm_test.py:111, 115).
- NaN: NumPy's `argmax` and `amax` report the first NaN. Reals have no NaN, so this case is not modelled.
- Decoder.DecodeMap: the confidence is a plain real. The source wraps it in a one-element list, which `.T` turns into the 1 x K row that `Joints.JointArray` models directly.
- Joints.JointArray: with zero keypoint maps the model gives three empty rows. NumPy gives a one-dimensional empty array instead, because `np.array([])` has no second axis.
- Determinism (decoding the same stack twice gives the same result) is not stated as a lemma: every member is a pure function, so it holds by construction.
