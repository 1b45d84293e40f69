# Energy-meter reader: a Dafny model

This project models the part of the OCR energy-meter logger that turns a
photograph of an electricity meter into a number. It covers
`app/reader/meter_reader.py` and the distance helper in `app/reader/geometry.py`.
The pipeline runs in this order:

1. Find the contours in a resized, blurred and edge-detected grey copy of the photo.
2. Keep the ones whose approximated hull is a quadrilateral.
3. Scale them back to the photo's resolution.
4. Order each quadrilateral's vertices against its minimum-area box.
5. Measure each quadrilateral.
6. Take the candidate whose aspect ratio is closest to the display bezel's 1.72.
7. Rectify the display.
8. Cut the digit row out of it at fixed proportions and pad it with a white border.
9. Read the digits, divide them by 1000, and reject readings below 0.1.

The OpenCV and Tesseract calls are fields of a `Vision` value, so they stay uninterpreted. Everything the reader decides for itself is modelled and proved.

Modules:

- `Numbers` (`numbers.dfy`): Python's `int()` on a float, which truncates toward zero, and `min`/`max`/`abs`.
- `Geometry` (`geometry.dfy`): `get_euler_distance`. It is modelled as an exact integer squared distance together with its integer square root. Lemmas tie both to any real number whose square is the squared distance.
- `Ordering` (`ordering.dfy`): Python's `min(key=…)` and the head of a stable `sorted(key=…)`. Both are "the first element with the least key".
- `Raster` (`raster.dfy`): a single-channel image as a rectangular grid. It covers numpy's clamped `img[a:b, c:d]` slicing and `cv2.copyMakeBorder` with a constant border.
- `Text` (`text.dfy`): `str.strip()`, and `float()` on the digit strings the recogniser produces.
- `MeterReader` (`meter_reader.dfy`): the reader itself, with a typed `Result`. The outcome is a `Reading(raw, value)` or one of three failures:
  - `NoDisplayFound` stands for the `ReaderError` "Unable to find display contour".
  - `ImplausibleReading(value)` stands for the `ReaderError` "Incorrect readings…".
  - `NotANumber(text)` stands for the `ValueError` that `float()` raises.

Two behaviours of the selection step are easy to misread, and the model keeps both as the code has them:

- A candidate of height zero scores a fixed 100, so it is not always ranked last: it is chosen over any candidate whose aspect ratio is off by more than 100. `ZeroHeightBeatsVeryElongated` exhibits this case, and `ZeroHeightLosesToScoreBelowPenalty` states what does hold.
- The code reports that no display was found only when there are no quadrilaterals at all. It does not also fail when every candidate scores the penalty. `NoDisplayFoundIffNoQuadrilateral` states this.

## Model

| member | source | states |
|---|---|---|
| Geometry.FloorSqrt | app/reader/geometry.py:5-7 | the integer square root: `r*r <= n < (r+1)*(r+1)` |
| Geometry.Distance | app/reader/geometry.py:5-7 | `int()` of the distance: its square is at most the squared distance, and the next integer's square exceeds it |
| Geometry.EuclideanUnique | app/reader/geometry.py:7 | the exact distance is a function of the points: two non-negative reals whose squares are the squared distance are equal |
| Geometry.DistanceSymmetric | app/reader/geometry.py:7 | d(p,q) = d(q,p), for both the squared and the integer distance |
| Geometry.DistanceZeroIffEqual | app/reader/geometry.py:7 | the distance is zero if and only if the points are equal |
| Geometry.DistanceTranslationInvariant | app/reader/geometry.py:7 | shifting both points by the same offset leaves the distance unchanged; the squared distance is dx²+dy² |
| Geometry.FloorOfEuclidean | app/reader/geometry.py:7 | for any real d ≥ 0 whose square is the squared distance, `floor(d)` is `Distance` |
| Geometry.NearerIffSquaredNearer | app/reader/geometry.py:7 | comparing exact distances to a target (≤ and <) gives the same answer as comparing squared distances |
| Geometry.FloorSqrtUnique | app/reader/geometry.py:7 | any r with r² ≤ n < (r+1)² is the integer square root |
| Geometry.FloorSqrtMonotone | app/reader/geometry.py:7 | the integer square root is monotone |
| Geometry.FloorSqrtOfMax | app/reader/geometry.py:7 | the integer square root of a maximum is the maximum of the integer square roots |
| Ordering.FirstMinIndex | app/reader/meter_reader.py:91-94 | `min(s, key)` returns the first element whose key is least: no key is smaller, and every earlier key is strictly larger |
| Ordering.FirstMinUnique | app/reader/meter_reader.py:91-94 | that position is unique |
| Ordering.StableSortHeadIsFirstMin | app/reader/meter_reader.py:185-191 | the head of any stable ascending sort by the key is the element `min` would return |
| Raster.SliceStart | app/reader/meter_reader.py:128-130 | a slice start is clamped to the length and kept when in range |
| Raster.SliceStop | app/reader/meter_reader.py:128-130 | a slice stop is clamped to between the start and the length, and kept when in range |
| Raster.Crop | app/reader/meter_reader.py:128-130 | `img[top:bottom, left:right]` never exceeds the image; within bounds it is exactly `(bottom-top) x (right-left)`, and pixel (i,j) is `img[top+i][left+j]` |
| Raster.Pad | app/reader/meter_reader.py:133-135 | `copyMakeBorder`: each dimension grows by twice the border; the original sits at offset (border, border); every other pixel is the border value |
| Raster.CropUndoesPad | app/reader/meter_reader.py:133-135 | cropping the border off a padded image gives the image back |
| Text.StripLeft | app/reader/meter_reader.py:216 | the longest suffix not starting with white space; everything removed is white space |
| Text.StripRight | app/reader/meter_reader.py:216 | the longest prefix not ending with white space; everything removed is white space |
| Text.Strip | app/reader/meter_reader.py:216 | the result is a slice `s[a..b]` with only white space outside it; it neither starts nor ends with white space, and it is empty if and only if the text is all white space |
| Text.StripIdempotent | app/reader/meter_reader.py:216 | stripping twice is stripping once |
| Text.ParseNumber | app/reader/meter_reader.py:217 | `float()` of the stripped text succeeds exactly on non-empty strings of decimal digits |
| Text.Digits | app/reader/meter_reader.py:217 | the decimal digits of a number: non-empty, all digits, no leading zero |
| Text.ParseDigitsRoundTrip | app/reader/meter_reader.py:217 | parsing the decimal digits of n gives n back |
| MeterReader.QuadHulls | app/reader/meter_reader.py:20-29 | the four-vertex hulls: no more of them than contours, and each has four vertices |
| MeterReader.QuadPositions | app/reader/meter_reader.py:20-29 | the positions whose hull has four vertices: strictly ascending, each such hull has four vertices, and every such position is listed |
| MeterReader.QuadHullsAreFourVertexHullsInOrder | app/reader/meter_reader.py:20-29 | the filter returns exactly the hulls with four vertices, in input order: its k-th result is the hull of the k-th such contour |
| MeterReader.RectangularContours | app/reader/meter_reader.py:20-29 | the loop collects exactly `QuadHulls` of the contours, and every element has four vertices |
| MeterReader.ScaleCoordinate | app/reader/meter_reader.py:32-34 | `floor(c / ratio)`: the greatest s with s·ratio ≤ c |
| MeterReader.ScaleContour | app/reader/meter_reader.py:32-34 | the vertex count is kept, and each coordinate becomes `floor(c / ratio)` |
| MeterReader.ScaleBackIsIntegerDivision | app/reader/meter_reader.py:32-34 | with the pipeline's ratio 900/height, scaling back is `(c * height) div 900` |
| MeterReader.EdgeDetectionThresholds | app/reader/meter_reader.py:71-77 | lower ≥ 0 and upper ≤ 255 for any median; for a median m in [0,255], lower = floor(0.7m) ≤ upper = floor(min(255, 1.3m)) |
| Numbers.Trunc | app/reader/meter_reader.py:75-76 | Python's `int()` of a float: same sign as x, and less than one closer to zero |
| MeterReader.BoxCorner | app/reader/meter_reader.py:88 | `np.int32(box)[i]`: each coordinate of box corner i cut toward zero |
| MeterReader.Nearest | app/reader/meter_reader.py:15-17 | `min(contour, key=distance to target)`: a vertex of the contour with no other vertex nearer, and none as near before it |
| MeterReader.NearestByExactDistance | app/reader/meter_reader.py:91-94 | with the exact Euclidean distance as the key, `min` picks the same vertex as `Nearest` |
| MeterReader.NormalizedVertices | app/reader/meter_reader.py:85-100 | four vertices, each a vertex of the input contour |
| MeterReader.NormalizedVerticesFollowBoxCorners | app/reader/meter_reader.py:91-100 | vertex k is the contour vertex nearest box corner `(c + k) mod 4`, with c = 2 (`[tl,tr,br,bl]`) when the angle is at least 45 and c = 3 (`[tr,br,bl,tl]`) otherwise |
| MeterReader.WidthEstimate | app/reader/meter_reader.py:104-105 | the longer of the top and bottom edges: at least each of them, and equal to one |
| MeterReader.HeightEstimate | app/reader/meter_reader.py:106-107 | the longer of the left and right edges: at least each of them, and equal to one |
| MeterReader.Dimensions | app/reader/meter_reader.py:108-111 | width ≥ height, and {width, height} equals {width estimate, height estimate} |
| MeterReader.EstimateIsFloorOfLongerEdge | app/reader/meter_reader.py:104-109 | each estimate equals `int(max(d1, d2))` of the exact edge lengths |
| MeterReader.NormalizeContour | app/reader/meter_reader.py:80-113 | four vertices from the contour in box order, width ≥ height, and {width, height} = {the two estimates} |
| MeterReader.Score | app/reader/meter_reader.py:189 | the sort key is non-negative, and exactly the penalty 100 when the height is zero |
| MeterReader.SelectDisplay | app/reader/meter_reader.py:185-194 | fails with `NoDisplayFound` if and only if there are no candidates; otherwise returns the first candidate with the least score |
| MeterReader.SelectDisplayIsSortedHead | app/reader/meter_reader.py:185-191 | the chosen candidate is the head of any stable sort of the candidates by score |
| MeterReader.ZeroHeightLosesToScoreBelowPenalty | app/reader/meter_reader.py:189 | while some candidate scores below 100, a candidate of height zero is not chosen |
| MeterReader.ZeroHeightBeatsVeryElongated | app/reader/meter_reader.py:189 | a 5 x 0 candidate is chosen over a 200 x 1 one, which scores 198.28 |
| MeterReader.CloserAspectRatioWins | app/reader/meter_reader.py:185-191 | aspect ratio 1.70 wins over 1.90 in either order |
| MeterReader.DestinationCorners | app/reader/meter_reader.py:198-206 | the corners (w,h), (0,h), (0,0), (w,0) of an axis-aligned rectangle, whose top and bottom edges measure w and whose sides measure h |
| MeterReader.AxisDistance | app/reader/meter_reader.py:198-206 | two points that differ by `len` along one axis are `len` apart |
| MeterReader.DestinationKeepsDimensions | app/reader/meter_reader.py:198-211 | measuring the destination rectangle gives back the display's width and height |
| MeterReader.ReadingsBounds | app/reader/meter_reader.py:124-127 | 0 ≤ left ≤ right ≤ w and 0 ≤ top ≤ bottom ≤ h, each bound the floor of the dimension times its fraction (0.144, 0.965, 0.367, 0.650) |
| MeterReader.ReadingsRoiShape | app/reader/meter_reader.py:124-135 | the padded digit row is (bottom−top+40) x (right−left+40), its 20-pixel border is all 255, and its interior is the binarised display's digit row |
| MeterReader.PaddedDigitRowShape | app/reader/meter_reader.py:128-135 | for bounds inside an image, the cut and padded row is (bottom−top+40) x (right−left+40), white on its 20-pixel border, and the image's pixels at the bounds' offset inside |
| MeterReader.BinarizedReadingsRoi | app/reader/meter_reader.py:116-137 | the stage-by-stage binarise, crop and pad yields `ReadingsRoi` |
| MeterReader.ReadingsRoiUnpads | app/reader/meter_reader.py:128-135 | removing the border from the padded digit row gives the crop back |
| MeterReader.ValidateReadings | app/reader/meter_reader.py:216-225 | `NotANumber` if and only if the text does not parse; otherwise, for the number n, the value is n/1000, `ImplausibleReading` holds if and only if n < 100, and on success the raw text is returned unchanged with a value ≥ 0.1 |
| MeterReader.ValidateExample | tests/reader/test_meter_reader.py:14 | "92469" is the reading 92.469 |
| MeterReader.PlausibilityFloorExample | app/reader/meter_reader.py:219-223 | "99" is rejected as 0.099, and "100" is accepted as 0.1 |
| MeterReader.Candidate | app/reader/meter_reader.py:178-181 | one candidate: four vertices, all vertices of the scaled quadrilateral, width ≥ height, and {width, height} = {the two estimates} |
| MeterReader.Candidates | app/reader/meter_reader.py:178-181 | one candidate per quadrilateral, the k-th being a candidate of the k-th quadrilateral in that sense |
| MeterReader.RealQuotientFloor | app/reader/meter_reader.py:155 | on naturals, the floor of the exact quotient is integer division |
| MeterReader.WorkingWidth | app/reader/meter_reader.py:153-155 | `int(width * ratio)` is `(width * 900) div height` |
| MeterReader.Ratio | app/reader/meter_reader.py:153-154 | the scaling ratio 900/height is positive |
| MeterReader.QuadContours | app/reader/meter_reader.py:149-170 | every contour the detection stage keeps has four vertices |
| MeterReader.DisplayCandidates | app/reader/meter_reader.py:178-181 | one candidate per quadrilateral found; each has four vertices taken from its quadrilateral scaled back by 900/height, width ≥ height, and {width, height} = {the two estimates} |
| MeterReader.PaddedDigitRow | app/reader/meter_reader.py:128-135 | whatever the bounds, the cut and padded row has a 20-pixel frame, all white |
| MeterReader.DisplayRoi | app/reader/meter_reader.py:198-215 | whatever the warp and the binarisation return, the image handed to the recogniser has a white 20-pixel frame |
| MeterReader.ReadMeter | app/reader/meter_reader.py:140-225 | `get_readings_from_meter_image` as a function: a returned reading is a non-empty digit string worth at least 0.1 |
| MeterReader.NoDisplayFoundIffNoQuadrilateral | app/reader/meter_reader.py:191-194 | the pipeline fails with `NoDisplayFound` if and only if no contour has a four-vertex hull |
| MeterReader.ReadingIsPlausible | app/reader/meter_reader.py:216-225 | a returned reading's text is non-empty digits, its value is that number over 1000 and at least 0.1, and the number is at least 100 |
| MeterReader.ReadingComesFromBestCandidate | app/reader/meter_reader.py:185-217 | whenever a display is found, the outcome is the validation of the text read from the first candidate with the least score |
| MeterReader.GetReadingsFromMeterImage | app/reader/meter_reader.py:140-225 | the stage-by-stage pipeline computes `ReadMeter`, stops at the first failure, and any reading it returns is at least 0.1 |

## Left out

- OpenCV calls are fields of `Vision` with no stated behaviour. This covers `cvtColor`, `resize`, `GaussianBlur`, `Canny`, `dilate`, `findContours`, `approxPolyDP` with `convexHull`, `minAreaRect` with `boxPoints`, `getPerspectiveTransform` with `warpPerspective`, and the threshold, morphology and `bitwise_or` steps of the binarisation. Their pixel semantics belong to the library.
- Tesseract recognition (`__recognize`) is the field `recognize`. It is an external engine reading model data from the file system.
- `np.median` is the field `median`, so its result is any real value. `EdgeDetectionThresholds` states its exact formulas only for a median in [0,255].
- `logging` calls are left out. They have no effect on the result.
- Floating point is left out. All arithmetic is exact: rationals for the constants, exact integer square roots for `int(distance)`, and exact division. This idealises float32 corner and vertex coordinates, the float32 rounding of `np.sqrt` (which can round `sqrt(k²−1)` up to k), and float64 rounding of the products and of `float(readings)`. It also leaves out overflow to infinity on very long digit strings.
- EdgeDetectionThresholds: the formulas are exact, while the source multiplies in float64. So `int((1.0 - 0.3) * 90.0)` is 62 in the source where the model gives 63; the medians 170 and 180 differ the same way.
- ReadingsBounds: the bounds are exact floors, while the source multiplies in float64. So `int(375 * 0.144)` is 53 in the source where the model gives 54; other widths (750, 875, 1375, …) differ the same way.
- Text.ParseNumber: only ASCII decimal digit strings parse. Python's `float()` also accepts signs, a decimal point, exponents, underscores, `inf`/`nan` and non-ASCII digits. The recogniser's whitelist lets only the digits 0-9 through.
- Error message texts are left out. The failures are told apart by constructor.
- Colour channels and the 8-bit sample range are left out. An image is one grid of integer samples, and the colour border value (255, 255, 255) is the single value 255.
- The model does not state what OpenCV does on an empty crop or a zero-size warp. These are whatever the `Vision` fields return.
- The model does not prove that the candidate list is unchanged when the photograph is rotated. That depends on `minAreaRect`, whose behaviour is not modelled.
- MeterReader.GetReadingsFromMeterImage: requires a grey image of non-zero height. The source divides by that height, and raises `ZeroDivisionError` otherwise.
- MeterReader.ReadingsRoi: has no contract of its own. Its shape is stated by `ReadingsRoiShape`, under the condition that the binarised display has the size the crop bounds were computed from. The binarisation is not modelled, so that size cannot be derived.
- `app/energy_logger.py` is not part of this model: camera capture, LED control, sleeping and file writes.
- `app/last_run.py` is not part of this model: cloud-storage upload.
- `app/publisher/sheets.py` is not part of this model: spreadsheet append.
