# rambunctionVision contour pipeline, modelled in Dafny

This project models the decision logic of the rambunctionVision library.
It covers the robot vision code that turns image contours into target and
ball matches, and those matches into poses. Three pieces are modelled:

- **Contour processing** (`contourProcessing.cpp`):
  - `approximateNGon`, the increasing-tolerance search for an n-vertex approximation;
  - `findTargets`, an area filter followed by a best-score selection over a target library;
  - `findCircles`, an area filter followed by a fill-ratio test;
  - `Ball::points`, `Circle::points` and `Circle::area`;
  - `estimateTargetPose` and `estimateBallPose`, one pose per match.
- **The HSV `Threshold` struct** (`imageProcessing.hpp`): two integer scalars with six clamping setters.
- **`getChessboardPoints`** of the camera-calibration tool: the nested-loop generator of chessboard corners.

The OpenCV algorithms are parameters of the model, as total functions with no
properties assumed: `approxPolyDP`, `contourArea`, `matchShapes`,
`minEnclosingCircle` and `solvePnP`. So every result holds for any
implementation of them. Coordinates, scores and tolerances are reals.

Modules, one per source component:

- `Wrappers` (`wrappers.dfy`): `Option`.
- `Seqs` (`seqs.dfy`): `FilterMap`/`Kept`. These capture the shared loop shape "for each contour, push back at most one entry".
- `ContourTypes` (`contour_types.dfy`): the structs of `contourProcessing.hpp`, `Circle::area`, `Circle::points`, `Ball::points`, and the point conversions.
- `PolygonApproximation` (`polygon_approximation.dfy`): `approximateNGon`.
- `Classification` (`classification.dfy`): `findTargets` and `findCircles`.
- `PoseEstimation` (`pose_estimation.dfy`): `estimateTargetPose` and `estimateBallPose`.
- `ImageProcessing` (`image_processing.dfy`): `rv::Threshold` as a class over two arrays, plus a value-level model of its setters.
- `CameraCalibration` (`camera_calibration.dfy`): `getChessboardPoints`.

Modelling choices that follow the code:

- `approximateNGon` is modelled from its definition in `contourProcessing.cpp`.
  - That definition updates its by-reference `points` in place. The declaration in `contourProcessing.hpp:96` has a different signature, with separate `src` and `dst`.
  - The method takes the value of `points` and returns its new value.
  - The tolerance of iteration k is `Tol(start, step, k)`: `start`, then `+ step` each time, as the loop does. `TolClosedForm` proves that it equals `start + k * step`.
  - The comparisons `aprox.size() < n` and `aprox.size() == n` convert the `int` n to the unsigned `size_t` before comparing. `AsSize` models that conversion, so a negative n acts as 2^64 + n.
- `findTargets` starts from a value-initialised `rv::Target` (empty shape) and emits a match only when the chosen target's shape is non-empty. The model keeps that test as it is. A library entry with an empty shape that wins the selection therefore suppresses the match.
- The pose functions discard the `bool` that `solvePnP` returns, so a caller cannot tell a failed solve from a converged one. The model, like the code, emits one pose per match.
- The pose structs also have a `match` member (`TargetPose`), or `circleMatch` and `ball` members (`BallPose`). The pose functions never assign them. `Field.Unset` marks such a default-constructed member.
- `rv::Threshold`'s members are `cv::Scalar_<int>`, which hold four entries. The fourth entry is 0 and no setter touches it.

## Model

| member | source | states |
|---|---|---|
| `Seqs.FilterMapAppend` | src/rambunctionVision/contourProcessing.cpp:56-76 | The per-contour loop handles each contour on its own: the output for a concatenation of contour lists is the concatenation of the outputs |
| `Seqs.FilterMapOrder` | src/rambunctionVision/contourProcessing.cpp:93-107 | At most one entry per input element, in strictly increasing input position; each entry is the value produced for its element, and every element that produces a value is kept |
| `ContourTypes.CircleArea` | src/rambunctionVision/contourProcessing.cpp:22-24 | The area is never negative and is zero exactly when the radius is zero |
| `ContourTypes.DiscAreaSign` | src/rambunctionVision/contourProcessing.cpp:22-24 | radius * radius * pi is non-negative for every radius, and zero iff the radius is zero |
| `ContourTypes.CirclePoints` | src/rambunctionVision/contourProcessing.cpp:26-34 | Five points: the center first, then the points one radius away along +x, +y, -x, -y, each at squared distance radius^2 from the center |
| `ContourTypes.BallPoints` | src/rambunctionVision/contourProcessing.cpp:12-20 | Five points: the center first, then one radius away along +x, +y, -x, -y, all at the center's z |
| `ContourTypes.BallPointsOverCirclePoints` | src/rambunctionVision/contourProcessing.cpp:12-34 | For equal radius and equal center x/y, dropping z from the i-th ball point gives the i-th circle point |
| `ContourTypes.ToPoint2s` | include/rambunctionVision/conversions.hpp:9-15 | The conversion keeps length and order and converts each coordinate to a real |
| `ContourTypes.Lift` | include/rambunctionVision/conversions.hpp:26-33 | The lift to 3D keeps length and order, keeps x and y, and puts every point at z = 0 |
| `PolygonApproximation.AsSize` | src/rambunctionVision/contourProcessing.cpp:41-45 | n as compared against `aprox.size()`: itself when non-negative, exactly 2^64 + n (so at least 2^63) when negative |
| `PolygonApproximation.TolClosedForm` | src/rambunctionVision/contourProcessing.cpp:38 | The tolerance of iteration k is start + k * step |
| `PolygonApproximation.TolIncreasing` | src/rambunctionVision/contourProcessing.cpp:38 | With step > 0 the tried tolerances strictly increase |
| `PolygonApproximation.SearchOutcome` | src/rambunctionVision/contourProcessing.cpp:38-51 | The search decides at one iteration K. Every earlier tolerance is below end and gives more than n vertices. At K: success iff exactly n vertices (and the result is that approximation), abort iff fewer than n, exhausted iff the tolerance reached end |
| `PolygonApproximation.SearchTriesNoLaterTolerance` | src/rambunctionVision/contourProcessing.cpp:41-43 | Fail-fast: approximations at tolerances after the deciding one never influence the outcome |
| `PolygonApproximation.NegativeCountAbortsAtFirstTolerance` | src/rambunctionVision/contourProcessing.cpp:41-43 | For a negative n and approximations with fewer than 2^63 vertices, a non-empty range aborts at the first tolerance, and the search never succeeds |
| `PolygonApproximation.ApproximateNGon` | src/rambunctionVision/contourProcessing.cpp:36-52 | Returns the search's verdict. On success the points are the first exact-n approximation (size n); on every failure they are unchanged; start >= end always fails |
| `Classification.SelectIsEarliestMinimum` | src/rambunctionVision/contourProcessing.cpp:62-71 | The inner loop returns a minimal score that is at most minMatch. It keeps the initial target and minMatch iff no score is strictly below minMatch. Otherwise it picks the earliest target of minimal score |
| `Classification.TargetEntrySpec` | src/rambunctionVision/contourProcessing.cpp:57-75 | Area below minArea gives nothing. A match has area >= minArea, the converted contour, a non-empty target shape and a score below minMatch that is the earliest minimum. Conversely, the earliest minimum below minMatch with a non-empty shape is emitted |
| `Classification.TargetThresholdIsStrict` | src/rambunctionVision/contourProcessing.cpp:63-67 | When no target scores strictly below minMatch (a score equal to it included), nothing is emitted |
| `Classification.FindTargetsSpec` | src/rambunctionVision/contourProcessing.cpp:54-79 | Matches come in increasing contour position, one per kept contour, each with area >= minArea, its converted points, and a library target of minimal score below minMatch; every contour whose entry is a match is kept |
| `Classification.FindTargets` | src/rambunctionVision/contourProcessing.cpp:54-79 | The nested loops compute the per-contour filter over the contours in order |
| `Classification.CircleEntrySpec` | src/rambunctionVision/contourProcessing.cpp:95-106 | A contour is accepted iff area >= minArea and area / (r^2 pi) > minMatch (strict, with a non-zero circle area); the entry stores the contour, its circle and that ratio |
| `Classification.FindCirclesSpec` | src/rambunctionVision/contourProcessing.cpp:91-109 | Matches come from circular contours only, in increasing input position, one per contour, each with its circle and fill ratio; every circular contour is matched |
| `Classification.FindCircles` | src/rambunctionVision/contourProcessing.cpp:91-109 | The loop computes the per-contour circle filter over the contours in order |
| `PoseEstimation.EstimateTargetPose` | src/rambunctionVision/contourProcessing.cpp:81-89 | Exactly one pose per match, in order, solved from the target shape lifted to z = 0 and the matched points; the pose's match member is left unset |
| `PoseEstimation.EstimateBallPose` | src/rambunctionVision/contourProcessing.cpp:111-119 | Exactly one pose per circle match, in order, solved from the ball's and the circle's five points; circleMatch and ball are left unset, so the published match is an indeterminate value, not the fill ratio |
| `PoseEstimation.EstimateBallPoseRecorded` | src/vision/ballDetection/main.cpp:283 | Corrected: the same poses, also recording their circle match and ball, so the published match is the circle's fill ratio |
| `ImageProcessing.ApplyChangesOneEntry` | include/rambunctionVision/imageProcessing.hpp:17-22 | Each setter stores the clamped value in one entry of one array and changes nothing else; the S setters store into index 2 (V) |
| `ImageProcessing.HueValueSettersKeepOrder` | include/rambunctionVision/imageProcessing.hpp:17-22 | From ordered levels, the H and V setters are defined (std::clamp's lo <= hi holds) and keep 0 <= low < high <= 180 / 255 on every channel |
| `ImageProcessing.ApplyIdempotent` | include/rambunctionVision/imageProcessing.hpp:17-22 | Calling any setter twice with the same value gives the state of calling it once |
| `ImageProcessing.HueValueScriptKeepsOrder` | include/rambunctionVision/imageProcessing.hpp:17-22 | Any sequence of H and V setter calls from ordered levels is defined at every step and ends ordered |
| `ImageProcessing.HighSBreaksValueOrder` | include/rambunctionVision/imageProcessing.hpp:19-20 | As written, setLowV(200) then setHighS(50) from the defaults leaves high[2] = 50 below low[2] = 200 |
| `ImageProcessing.IntendedSettersKeepOrder` | include/rambunctionVision/imageProcessing.hpp:19-20 | Corrected setters, each writing its own channel, keep every channel ordered |
| `ImageProcessing.IntendedScriptKeepsOrder` | include/rambunctionVision/imageProcessing.hpp:17-22 | With corrected setters any sequence of calls from ordered levels is defined and ends ordered |
| `ImageProcessing.DefaultIsOrdered` | include/rambunctionVision/imageProcessing.hpp:7-8 | The default levels are ordered on every channel |
| `ImageProcessing.Threshold.constructor` | include/rambunctionVision/imageProcessing.hpp:7-8 | high = (180, 255, 255), low = (0, 0, 0), fourth entries 0, and the levels are ordered |
| `ImageProcessing.Threshold.HighH` | include/rambunctionVision/imageProcessing.hpp:10 | Entry 0 of `high`; on ordered levels it lies in (lowH, 180] |
| `ImageProcessing.Threshold.LowH` | include/rambunctionVision/imageProcessing.hpp:11 | Entry 0 of `low`; on ordered levels it lies in [0, highH) |
| `ImageProcessing.Threshold.HighS` | include/rambunctionVision/imageProcessing.hpp:12 | Entry 1 of `high`; on ordered levels it lies in (lowS, 255] |
| `ImageProcessing.Threshold.LowS` | include/rambunctionVision/imageProcessing.hpp:13 | Entry 1 of `low`; on ordered levels it lies in [0, highS) |
| `ImageProcessing.Threshold.HighV` | include/rambunctionVision/imageProcessing.hpp:14 | Entry 2 of `high`; on ordered levels it lies in (lowV, 255] |
| `ImageProcessing.Threshold.LowV` | include/rambunctionVision/imageProcessing.hpp:15 | Entry 2 of `low`; on ordered levels it lies in [0, highV) |
| `ImageProcessing.Threshold.SetHighH` | include/rambunctionVision/imageProcessing.hpp:17 | high[0] := clamp(v, low[0] + 1, 180), nothing else changes, order is preserved |
| `ImageProcessing.Threshold.SetLowH` | include/rambunctionVision/imageProcessing.hpp:18 | low[0] := clamp(v, 0, high[0] - 1), nothing else changes, order is preserved |
| `ImageProcessing.Threshold.SetHighS` | include/rambunctionVision/imageProcessing.hpp:19 | As written: high[2] := clamp(v, low[1] + 1, 255); high[1] is unchanged |
| `ImageProcessing.Threshold.SetLowS` | include/rambunctionVision/imageProcessing.hpp:20 | As written: low[2] := clamp(v, 0, high[1] - 1); low[1] is unchanged |
| `ImageProcessing.Threshold.SetHighV` | include/rambunctionVision/imageProcessing.hpp:21 | high[2] := clamp(v, low[2] + 1, 255), nothing else changes, order is preserved |
| `ImageProcessing.Threshold.SetLowV` | include/rambunctionVision/imageProcessing.hpp:22 | low[2] := clamp(v, 0, high[2] - 1), nothing else changes, order is preserved |
| `CameraCalibration.RowsAreChessboard` | src/tools/cameraCalibration/main.cpp:239-244 | The rows laid out by the nested loops hold width * height points, row h column w at index h * width + w being (squareSize * h, squareSize * w, 0) |
| `CameraCalibration.ChessboardIndex` | src/tools/cameraCalibration/main.cpp:240-242 | Every index k of a grid is row k / width, column k % width, so every grid point has z = 0 |
| `CameraCalibration.ChessboardUnique` | src/tools/cameraCalibration/main.cpp:246 | Two grids of the same dimensions and square size are identical |
| `CameraCalibration.GetChessboardPoints` | src/tools/cameraCalibration/main.cpp:237-247 | Exactly n grids (none for n = 0), all identical, each a row-major chessboard of width * height corners |

## Left out

- The OpenCV algorithms are parameters without properties: `approxPolyDP` (Douglas-Peucker), `matchShapes` (Hu moments), `contourArea`, `minEnclosingCircle` and `solvePnP`. So is `RQDecomp3x3`, used by the caller. Their internals are foreign code.
- Floating point: `float`/`double` rounding, the drift of repeated `epsilon += step`, and `M_PI` precision are not modelled. All arithmetic is on reals, and `M_PI` is its decimal value.
- `ApproximateNGon`: requires step > 0. The source has no guard, and for step <= 0 with start < end its loop need not terminate.
- `CircleEntry`: when the enclosing circle's area is zero, the source divides by zero. 0/0 gives NaN, which is rejected, and the model rejects that case. A positive area would give +infinity and be accepted. But a contour with positive area cannot have a zero-radius enclosing circle, so the model rejects that case as well. `CircleArea` proves that the guard fires exactly for a zero radius.
- `convertToPoints` and `convertToPoints3` (`conversions.hpp`, `conversions.cpp`) are modelled as the element-wise maps they evidently intend (`ToPoint2s`, `Lift`). As written, `std::transform` writes through `begin()` of an empty vector, which is undefined behaviour. The `.cpp` copies also return nothing. Undefined behaviour cannot be modelled, so this is noted rather than reproduced.
- `Threshold.SetHighH` and the other five setters: require that the clamp's lower bound is not above its upper bound (`Clampable`). For `std::clamp` that case is undefined behaviour, so the model does not give it a value. `HueValueScriptKeepsOrder` and `IntendedScriptKeepsOrder` prove that the requirement always holds from ordered levels.
- `Threshold.HighH` and the other five accessors: in the source they return `int&` references, through which the setters assign. The model reads them as functions, and the setters assign the array entries directly. Writing through a reference held outside the struct is not modelled.
- `GetChessboardPoints`: the chessboard width, height and n are naturals, so negative values are excluded. In the source, `cv::Size::area()` is the `int` product width * height. When a dimension is negative and that product is not (for example width -1 and height 0, or width -2 and height -3), `reserve` does not throw, both loops run zero times, and the source returns n empty grids. Only a negative product (through `reserve`) or a negative n (through the vector constructor) throws.
- The pose members that stay default-constructed contain uninitialised `float`/`double` fields. The model records only that the member was never assigned, not its indeterminate contents.
- Exceptions that OpenCV raises, for example `solvePnP` with too few points, are not modelled.
- `reorderPoints`, `normalizedContourImage` and `matchTargetPoints` are declared in `contourProcessing.hpp:98-102`, but their definitions are not part of this model. So the fine-alignment stage (canonical rasterizer, orientation search, correspondence ordering) is not modelled.
- Left out as image processing, I/O or user interface:
  - `thresholdImage`: blur, colour conversion and morphology.
  - `extractImagesFromDirectory`: filesystem access. Note that its `exists` check at `imageProcessing.cpp:25` is inverted.
  - The drawing helpers and the `FileStorage` `read`/`write` helpers.
  - Camera capture and NetworkTables publishing in the ball-detection program.
  - The interactive tuning, target-builder and calibration front ends, including the duplicate circle filter inline in the HSV tuning tool.

## Findings

| source | as written | input that shows it | evidently intended | confidence | as-written member | corrected member |
|---|---|---|---|---|---|---|
| include/rambunctionVision/imageProcessing.hpp:19-20 | `setHighS` and `setLowS` store into `highV()`/`lowV()` (index 2) while clamping against the S bounds | from the defaults, `setLowV(200)` then `setHighS(50)` gives high[2] = 50 < low[2] = 200, and S is never changed | each S setter stores into `highS()`/`lowS()` (index 1), which keeps low < high on every channel | high (not executed) | `ImageProcessing.HighSBreaksValueOrder` | `ImageProcessing.IntendedScriptKeepsOrder` |
| src/rambunctionVision/contourProcessing.cpp:111-119 | `estimateBallPose` assigns only `rvec` and `tvec`; `circleMatch` and `ball` stay default-constructed, yet src/vision/ballDetection/main.cpp:283 publishes `positions[i].circleMatch.match` | any non-empty list of circle matches: every pose's `circleMatch` is unset, so the published match is not the circle's fill ratio | each pose records the circle match and ball it was solved from | medium (not executed) | `PoseEstimation.EstimateBallPose` | `PoseEstimation.EstimateBallPoseRecorded` |
