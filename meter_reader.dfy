/** The decision logic of the meter-reading pipeline: from a photograph of
    the meter to a validated reading or a typed failure.

    The pixel work (colour conversion, resizing, blurring, edge detection,
    dilation, contour extraction, polygon approximation, minimum-area
    rectangles, perspective warping, binarisation and character
    recognition) is done by library calls whose behaviour is not part of
    this model; they are the fields of a `Vision` value handed to the
    pipeline.  What is modelled is everything the reader decides itself:
    which contours count as quadrilaterals, how they are scaled back, how
    their vertices are ordered and measured, which one is taken for the
    display, where the digits are cut out of it, and whether the number
    read is plausible. */
module MeterReader {
  import opened Numbers
  import opened Geometry
  import opened Ordering
  import opened Raster
  import opened Text

  /** A polygon, as its vertices in order. */
  type Contour = seq<Point>

  /** Height, in pixels, of the image edges are looked for in. */
  const FindEdgesImageHeight: nat := 900
  /** Relative spread of the edge-detection thresholds around the median. */
  const EdgeSigma: real := 0.3
  /** Width over height of the display bezel. */
  const TargetAspectRatio: real := 1.72
  /** Score of a candidate of height zero. */
  const ZeroHeightPenalty: real := 100.0
  /** Where the digit row lies in the rectified display, as fractions of its
      width (left, right) and height (top, bottom). */
  const ReadingsLeftEdge: real := 0.144
  const ReadingsRightEdge: real := 0.965
  const ReadingsTopEdge: real := 0.367
  const ReadingsBottomEdge: real := 0.650
  /** Width of the white border put around the digit row. */
  const ReadingsBorder: nat := 20
  const White: int := 255
  /** The displayed number is a thousand times the reading. */
  const ReadingsScale: real := 1000.0
  /** Readings below this are taken for a misplaced display. */
  const MinimumReading: real := 0.1

  datatype RealPoint = RealPoint(x: real, y: real)

  /** The corners `cv2.boxPoints` gives for `cv2.minAreaRect(contour)`, in
      its order, and the rectangle's angle in degrees. */
  datatype RotatedBox = RotatedBox(c0: RealPoint, c1: RealPoint, c2: RealPoint, c3: RealPoint, angle: real)

  /** A quadrilateral with its vertices in canonical order, and its measured
      width and height. */
  datatype NormalizedContour = NormalizedContour(vertices: seq<Point>, width: nat, height: nat)

  /** The recognised text and the reading it stands for. */
  datatype Reading = Reading(raw: string, value: real)

  datatype ReaderError =
    /** `ReaderError("Unable to find display contour")` */
    | NoDisplayFound
    /** `ReaderError("Incorrect readings: ...")` for a reading below the minimum */
    | ImplausibleReading(value: real)
    /** the `ValueError` `float()` raises on text that is not a number */
    | NotANumber(text: string)

  datatype Result<T> = Success(value: T) | Failure(error: ReaderError)

  /** The library operations the pipeline calls, whose results it takes as
      given. */
  datatype Vision = Vision(
    /** `cv2.cvtColor(img, cv2.COLOR_BGR2GRAY)` */
    toGray: Image -> Image,
    /** `cv2.resize(img, (width, height), interpolation=cv2.INTER_AREA)` */
    resize: (Image, int, int) -> Image,
    /** `cv2.GaussianBlur(img, (3, 3), 0)` */
    blur: Image -> Image,
    /** `np.median(img)` */
    median: Image -> real,
    /** `cv2.Canny(img, lower, upper)` */
    canny: (Image, int, int) -> Image,
    /** `cv2.dilate` with a 5x5 elliptic kernel, twice */
    dilate: Image -> Image,
    /** `cv2.findContours(img, cv2.RETR_LIST, cv2.CHAIN_APPROX_SIMPLE)` */
    findContours: Image -> seq<Contour>,
    /** `cv2.convexHull(cv2.approxPolyDP(c, 0.04 * cv2.arcLength(c, True), True))` */
    approxHull: Contour -> Contour,
    /** `cv2.minAreaRect` followed by `cv2.boxPoints` */
    minAreaBox: Contour -> RotatedBox,
    /** `cv2.getPerspectiveTransform(src, dst)` then `cv2.warpPerspective`
        of the image into a `width` x `height` image */
    warp: (Image, seq<Point>, seq<Point>, nat, nat) -> Image,
    /** grey conversion, then the adaptive-threshold, opening and closing
        pass OR-ed with the fixed and Otsu threshold pass */
    binarize: Image -> Image,
    /** Tesseract restricted to the digits, single-word mode */
    recognize: Image -> string)

  // ---------------------------------------------------------------------
  // Quadrilateral filter

  /** The approximated hulls of `contours` that have exactly four vertices,
      in the order of `contours`. */
  function QuadHulls(contours: seq<Contour>, approxHull: Contour -> Contour): (quads: seq<Contour>)
    ensures |quads| <= |contours|
    ensures forall k :: 0 <= k < |quads| ==> |quads[k]| == 4
  {
    if contours == [] then []
    else
      var hull := approxHull(contours[|contours| - 1]);
      QuadHulls(contours[..|contours| - 1], approxHull) + (if |hull| == 4 then [hull] else [])
  }

  /** The positions in `contours` whose hull has four vertices, ascending. */
  function QuadPositions(contours: seq<Contour>, approxHull: Contour -> Contour): (ps: seq<nat>)
    ensures forall k :: 0 <= k < |ps| ==> ps[k] < |contours| && |approxHull(contours[ps[k]])| == 4
    ensures forall k, l :: 0 <= k < l < |ps| ==> ps[k] < ps[l]
    ensures forall i :: 0 <= i < |contours| && |approxHull(contours[i])| == 4 ==> i in ps
  {
    if contours == [] then []
    else
      var n := |contours| - 1;
      var prefix := contours[..n];
      var ps := QuadPositions(prefix, approxHull);
      assert forall k :: 0 <= k < |ps| ==> contours[ps[k]] == prefix[ps[k]];
      assert forall i :: 0 <= i < n ==> contours[i] == prefix[i];
      ps + (if |approxHull(contours[n])| == 4 then [n] else [])
  }

  /** The filter keeps exactly the four-vertex hulls, in input order: its
      `k`-th result is the hull of the `k`-th contour whose hull has four
      vertices. */
  lemma {:induction false} QuadHullsAreFourVertexHullsInOrder(contours: seq<Contour>, approxHull: Contour -> Contour)
    ensures |QuadHulls(contours, approxHull)| == |QuadPositions(contours, approxHull)|
    ensures forall k :: 0 <= k < |QuadHulls(contours, approxHull)| ==>
      QuadHulls(contours, approxHull)[k] == approxHull(contours[QuadPositions(contours, approxHull)[k]])
  {
    if contours != [] {
      var n := |contours| - 1;
      var prefix := contours[..n];
      QuadHullsAreFourVertexHullsInOrder(prefix, approxHull);
      var qs, ps := QuadHulls(prefix, approxHull), QuadPositions(prefix, approxHull);
      var hull := approxHull(contours[n]);
      var all, allPs := QuadHulls(contours, approxHull), QuadPositions(contours, approxHull);
      assert all == qs + (if |hull| == 4 then [hull] else []);
      assert allPs == ps + (if |hull| == 4 then [n] else []);
      forall k | 0 <= k < |all|
        ensures all[k] == approxHull(contours[allPs[k]])
      {
        if k < |qs| {
          assert contours[ps[k]] == prefix[ps[k]];
        }
      }
    }
  }

  /** `__get_rectangular_contours`: walks the contours and collects each
      approximated hull that has four vertices. */
  method RectangularContours(contours: seq<Contour>, approxHull: Contour -> Contour) returns (res: seq<Contour>)
    ensures res == QuadHulls(contours, approxHull)
    ensures forall k :: 0 <= k < |res| ==> |res[k]| == 4
  {
    res := [];
    for i := 0 to |contours|
      invariant res == QuadHulls(contours[..i], approxHull)
    {
      var hull := approxHull(contours[i]);
      if |hull| == 4 {
        res := res + [hull];
      }
      assert contours[..i + 1][..i] == contours[..i];
    }
    assert contours[..|contours|] == contours;
  }

  // ---------------------------------------------------------------------
  // Scaling back to the original resolution

  lemma FloorDivisionBounds(c: int, ratio: real)
    requires ratio > 0.0
    ensures (c as real / ratio).Floor as real * ratio <= c as real
    ensures c as real < ((c as real / ratio).Floor + 1) as real * ratio
  {
    var q := c as real / ratio;
    var s := q.Floor;
    assert q * ratio == c as real;
    RealScaleMonotone(ratio, s as real, q);
    RealProductPositive(ratio, (s + 1) as real - q);
    calc {
      c as real;
      == q * ratio;
      < q * ratio + ratio * ((s + 1) as real - q);
      == (s + 1) as real * ratio;
    }
  }

  /** One coordinate of `np.floor_divide(contour, ratio)`: the greatest
      integer whose multiple of `ratio` does not exceed `c`. */
  function ScaleCoordinate(c: int, ratio: real): (s: int)
    requires ratio > 0.0
    ensures s as real * ratio <= c as real < (s + 1) as real * ratio
  {
    FloorDivisionBounds(c, ratio);
    (c as real / ratio).Floor
  }

  function ScalePoint(p: Point, ratio: real): Point
    requires ratio > 0.0
  {
    Point(ScaleCoordinate(p.x, ratio), ScaleCoordinate(p.y, ratio))
  }

  /** `__get_scaled_contour`: every vertex divided by `ratio`, rounded down. */
  function ScaleContour(contour: Contour, ratio: real): (scaled: Contour)
    requires ratio > 0.0
    ensures |scaled| == |contour|
    ensures forall i :: 0 <= i < |scaled| ==>
      && scaled[i].x as real * ratio <= contour[i].x as real < (scaled[i].x + 1) as real * ratio
      && scaled[i].y as real * ratio <= contour[i].y as real < (scaled[i].y + 1) as real * ratio
  {
    seq(|contour|, i requires 0 <= i < |contour| => ScalePoint(contour[i], ratio))
  }

  /** With the ratio the pipeline uses, `FindEdgesImageHeight / height`,
      scaling back is integer floor division of `c * height` by 900. */
  lemma ScaleBackIsIntegerDivision(c: int, height: nat)
    requires height > 0
    ensures ScaleCoordinate(c, FindEdgesImageHeight as real / height as real) == (c * height) / 900
  {
    var ratio := FindEdgesImageHeight as real / height as real;
    var s := ScaleCoordinate(c, ratio);
    var h := height as real;
    assert ratio * h == 900.0;
    RealScaleMonotone(h, s as real * ratio, c as real);
    RealProductPositive(h, (s + 1) as real * ratio - c as real);
    assert s as real * ratio * h == (s * 900) as real;
    assert (s + 1) as real * ratio * h == ((s + 1) * 900) as real;
    assert c as real * h == (c * height) as real;
    assert s * 900 <= c * height < (s + 1) * 900;
  }

  // ---------------------------------------------------------------------
  // Edge-detection thresholds

  /** `__get_edge_detection_thresholds` from the image's median intensity:
      the lower threshold 70% and the upper 130% of the median, clamped to
      0 and 255 and truncated. */
  function EdgeDetectionThresholds(median: real): (t: (int, int))
    ensures 0 <= t.0 && t.1 <= 255
    ensures 0.0 <= median <= 255.0 ==>
      && t.0 == ((1.0 - EdgeSigma) * median).Floor
      && t.1 == MinReal(255.0, (1.0 + EdgeSigma) * median).Floor
      && 0 <= t.0 <= t.1 <= 255
  {
    var lower := Trunc(MaxReal(0.0, (1.0 - EdgeSigma) * median));
    var upper := Trunc(MinReal(255.0, (1.0 + EdgeSigma) * median));
    (lower, upper)
  }

  // ---------------------------------------------------------------------
  // Vertex normalisation and measurement

  /** The key `min` uses to find the contour vertex nearest to `target`.
      Squared distances order vertices as distances do
      (`Geometry.NearerIffSquaredNearer`). */
  function DistanceKey(target: Point): Point -> real
  {
    p => SquaredDistance(p, target) as real
  }

  /** Every vertex before position `i` is farther from `target` than the
      vertex at `i`. */
  ghost predicate NoneNearerBefore(contour: Contour, target: Point, i: int)
    requires 0 <= i < |contour|
  {
    forall j :: 0 <= j < i ==> SquaredDistance(contour[i], target) < SquaredDistance(contour[j], target)
  }

  /** `min(contour, key=distance to target)`: the first vertex of the
      contour at the least distance from `target`. */
  function Nearest(contour: Contour, target: Point): (v: Point)
    requires |contour| > 0
    ensures v in contour
    ensures forall u :: u in contour ==> SquaredDistance(v, target) <= SquaredDistance(u, target)
    ensures exists i :: 0 <= i < |contour| && contour[i] == v && NoneNearerBefore(contour, target, i)
  {
    var k := FirstMinIndex(contour, DistanceKey(target));
    assert forall j :: 0 <= j < |contour| ==> DistanceKey(target)(contour[j]) == SquaredDistance(contour[j], target) as real;
    contour[k]
  }

  /** Taking the exact Euclidean distance as the key, as the source does,
      picks the same vertex as `Nearest`. */
  lemma NearestByExactDistance(contour: Contour, target: Point, distance: Point -> real)
    requires |contour| > 0
    requires forall p :: IsEuclidean(distance(p), p, target)
    ensures contour[FirstMinIndex(contour, distance)] == Nearest(contour, target)
  {
    var k := FirstMinIndex(contour, distance);
    forall j | 0 <= j < |contour|
      ensures SquaredDistance(contour[k], target) <= SquaredDistance(contour[j], target)
      ensures j < k ==> SquaredDistance(contour[k], target) < SquaredDistance(contour[j], target)
    {
      NearerIffSquaredNearer(distance(contour[k]), distance(contour[j]), contour[k], contour[j], target);
    }
    assert IsFirstMin(contour, DistanceKey(target), k);
    FirstMinUnique(contour, DistanceKey(target), k);
  }

  /** Corner `i` of the box, as `cv2.boxPoints` gives it. */
  function RealCorner(box: RotatedBox, i: int): RealPoint
    requires 0 <= i < 4
  {
    if i == 0 then box.c0 else if i == 1 then box.c1 else if i == 2 then box.c2 else box.c3
  }

  /** Corner `i` of the box, as `np.int32(box)[i]`: each coordinate cut to
      its integer part, toward zero. */
  function BoxCorner(box: RotatedBox, i: int): (c: Point)
    requires 0 <= i < 4
    ensures TowardZero(c.x, RealCorner(box, i).x) && TowardZero(c.y, RealCorner(box, i).y)
  {
    var p := RealCorner(box, i);
    Point(Trunc(p.x), Trunc(p.y))
  }

  /** `n` is `x` with its fractional part dropped: same sign, and less than
      one closer to zero. */
  predicate TowardZero(n: int, x: real)
  {
    && (0.0 <= x ==> 0 <= n && n as real <= x < n as real + 1.0)
    && (x < 0.0 ==> n <= 0 && n as real - 1.0 < x <= n as real)
  }

  /** The box corner the canonical order starts from: corner 2 (top-left)
      when the box is turned by 45 degrees or more, corner 3 (top-right)
      otherwise. */
  function FirstCorner(angle: real): nat
  {
    if angle >= 45.0 then 2 else 3
  }

  /** The contour's vertices, each the one nearest to a box corner, taken in
      the order `[tl, tr, br, bl]` (box corners 2, 3, 0, 1) when the angle is
      at least 45 degrees and `[tr, br, bl, tl]` (corners 3, 0, 1, 2)
      otherwise: in both cases the box's own corner cycle, started at
      `FirstCorner`. */
  function NormalizedVertices(contour: Contour, box: RotatedBox): (vs: seq<Point>)
    requires |contour| == 4
    ensures |vs| == 4
    ensures forall k :: 0 <= k < 4 ==> vs[k] in contour
  {
    var tl := Nearest(contour, BoxCorner(box, 2));
    var tr := Nearest(contour, BoxCorner(box, 3));
    var bl := Nearest(contour, BoxCorner(box, 1));
    var br := Nearest(contour, BoxCorner(box, 0));
    if box.angle >= 45.0 then [tl, tr, br, bl] else [tr, br, bl, tl]
  }

  /** The normalised vertices follow the box's own corner cycle, started at
      `FirstCorner`: vertex `k` is the contour vertex nearest to box corner
      `(FirstCorner + k) % 4`. */
  lemma NormalizedVerticesFollowBoxCorners(contour: Contour, box: RotatedBox, k: nat)
    requires |contour| == 4 && k < 4
    ensures NormalizedVertices(contour, box)[k] == Nearest(contour, BoxCorner(box, (FirstCorner(box.angle) + k) % 4))
  {
    var corner := (FirstCorner(box.angle) + k) % 4;
    if box.angle >= 45.0 {
      assert corner == [2, 3, 0, 1][k];
    } else {
      assert corner == [3, 0, 1, 2][k];
    }
  }

  /** The width estimate: the longer of the top and bottom edges. */
  function WidthEstimate(vs: seq<Point>): (w: nat)
    requires |vs| == 4
    ensures Distance(vs[0], vs[1]) <= w && Distance(vs[3], vs[2]) <= w
    ensures w == Distance(vs[0], vs[1]) || w == Distance(vs[3], vs[2])
  {
    Max(Distance(vs[0], vs[1]), Distance(vs[3], vs[2]))
  }

  /** The height estimate: the longer of the left and right edges. */
  function HeightEstimate(vs: seq<Point>): (h: nat)
    requires |vs| == 4
    ensures Distance(vs[0], vs[3]) <= h && Distance(vs[1], vs[2]) <= h
    ensures h == Distance(vs[0], vs[3]) || h == Distance(vs[1], vs[2])
  {
    Max(Distance(vs[0], vs[3]), Distance(vs[1], vs[2]))
  }

  /** The dimensions of an ordered quadrilateral: the two estimates, the
      larger as width and the smaller as height. */
  function Dimensions(vs: seq<Point>): (wh: (nat, nat))
    requires |vs| == 4
    ensures wh.1 <= wh.0
    ensures multiset{wh.0, wh.1} == multiset{WidthEstimate(vs), HeightEstimate(vs)}
  {
    var w, h := WidthEstimate(vs), HeightEstimate(vs);
    (Max(w, h), Min(w, h))
  }

  /** Each estimate is `int(max(d1, d2))` of the exact lengths `d1`, `d2` of
      the two edges it compares. */
  lemma EstimateIsFloorOfLongerEdge(d1: real, d2: real, p1: Point, q1: Point, p2: Point, q2: Point)
    requires IsEuclidean(d1, p1, q1) && IsEuclidean(d2, p2, q2)
    ensures Max(Distance(p1, q1), Distance(p2, q2)) == MaxReal(d1, d2).Floor
  {
    FloorOfEuclidean(d1, p1, q1);
    FloorOfEuclidean(d2, p2, q2);
  }

  /** `__get_normalized_contour_with_dimentions`. */
  function NormalizeContour(contour: Contour, box: RotatedBox): (n: NormalizedContour)
    requires |contour| == 4
    ensures |n.vertices| == 4
    ensures forall k :: 0 <= k < 4 ==> n.vertices[k] in contour
    ensures n.vertices == NormalizedVertices(contour, box)
    ensures n.height <= n.width
    ensures multiset{n.width, n.height} == multiset{WidthEstimate(n.vertices), HeightEstimate(n.vertices)}
  {
    var vs := NormalizedVertices(contour, box);
    var wh := Dimensions(vs);
    NormalizedContour(vs, wh.0, wh.1)
  }

  /** One entry of `scaled_normalized_contours`: the quadrilateral scaled
      back, its vertices put in box order and measured. */
  function Candidate(quad: Contour, ratio: real, minAreaBox: Contour -> RotatedBox): (n: NormalizedContour)
    requires ratio > 0.0 && |quad| == 4
    ensures IsCandidateOf(n, quad, ratio)
  {
    var scaled := ScaleContour(quad, ratio);
    NormalizeContour(scaled, minAreaBox(scaled))
  }

  /** `n` has four vertices, all taken from `quad` scaled back by `ratio`,
      and its width and height are the two edge estimates, larger first. */
  ghost predicate IsCandidateOf(n: NormalizedContour, quad: Contour, ratio: real)
    requires ratio > 0.0
  {
    && |n.vertices| == 4
    && (forall v :: v in n.vertices ==> v in ScaleContour(quad, ratio))
    && n.height <= n.width
    && multiset{n.width, n.height} == multiset{WidthEstimate(n.vertices), HeightEstimate(n.vertices)}
  }

  /** `scaled_normalized_contours`: one candidate per quadrilateral, in
      order. */
  function Candidates(quads: seq<Contour>, ratio: real, minAreaBox: Contour -> RotatedBox): (cs: seq<NormalizedContour>)
    requires ratio > 0.0
    requires forall k :: 0 <= k < |quads| ==> |quads[k]| == 4
    ensures |cs| == |quads|
    ensures forall k :: 0 <= k < |cs| ==> IsCandidateOf(cs[k], quads[k], ratio)
  {
    seq(|quads|, k requires 0 <= k < |quads| => Candidate(quads[k], ratio, minAreaBox))
  }

  // ---------------------------------------------------------------------
  // Display selection

  /** The sort key: how far the aspect ratio is from the bezel's, or the
      fixed penalty when the height is zero. */
  function Score(n: NormalizedContour): (s: real)
    ensures 0.0 <= s
    ensures n.height == 0 ==> s == ZeroHeightPenalty
  {
    if n.height != 0 then Abs(TargetAspectRatio - n.width as real / n.height as real)
    else ZeroHeightPenalty
  }

  /** `next(iter(sorted(candidates, key=Score)), None)`, failing on `None`:
      the first candidate with the least score, and `NoDisplayFound` exactly
      when there is no candidate. */
  function SelectDisplay(candidates: seq<NormalizedContour>): (r: Result<NormalizedContour>)
    ensures r.Failure? <==> candidates == []
    ensures r.Failure? ==> r.error == NoDisplayFound
    ensures r.Success? ==> exists k :: IsFirstMin(candidates, Score, k) && r.value == candidates[k]
  {
    if candidates == [] then Failure(NoDisplayFound)
    else Success(candidates[FirstMinIndex(candidates, Score)])
  }

  /** The candidate chosen is the head of any stable sort of the candidates
      by score. */
  lemma SelectDisplayIsSortedHead(candidates: seq<NormalizedContour>, perm: seq<nat>)
    requires candidates != []
    requires IsStableSortOrder(candidates, Score, perm)
    ensures SelectDisplay(candidates) == Success(candidates[perm[0]])
  {
    StableSortHeadIsFirstMin(candidates, Score, perm);
  }

  /** A candidate of height zero is not chosen while some candidate scores
      below the penalty. */
  lemma ZeroHeightLosesToScoreBelowPenalty(candidates: seq<NormalizedContour>, k: nat)
    requires k < |candidates| && Score(candidates[k]) < ZeroHeightPenalty
    ensures SelectDisplay(candidates).Success?
    ensures SelectDisplay(candidates).value.height != 0
  {
    var r := SelectDisplay(candidates);
    var m :| IsFirstMin(candidates, Score, m) && r.value == candidates[m];
    assert Score(candidates[m]) <= Score(candidates[k]);
  }

  /** A candidate of height zero can still be chosen over one of nonzero
      height whose aspect ratio is off by more than the penalty: here a
      200 x 1 candidate scores 198.28. */
  lemma ZeroHeightBeatsVeryElongated()
    ensures var flat := NormalizedContour([], 5, 0);
            SelectDisplay([flat, NormalizedContour([], 200, 1)]) == Success(flat)
  {
    var flat := NormalizedContour([], 5, 0);
    var thin := NormalizedContour([], 200, 1);
    assert Score(thin) == 198.28;
    assert FirstMinIndex([flat, thin], Score) == 0;
  }

  /** Aspect ratios 1.70 and 1.90 score 0.02 and 0.18: the first is chosen
      whichever comes first. */
  lemma CloserAspectRatioWins()
    ensures var a, b := NormalizedContour([], 170, 100), NormalizedContour([], 190, 100);
            SelectDisplay([b, a]) == Success(a) && SelectDisplay([a, b]) == Success(a)
  {
    var a, b := NormalizedContour([], 170, 100), NormalizedContour([], 190, 100);
    assert Score(a) == 0.02 && Score(b) == 0.18;
    assert FirstMinIndex([b, a], Score) == 1;
    assert FirstMinIndex([a, b], Score) == 0;
  }

  // ---------------------------------------------------------------------
  // Rectification target

  /** `display_dst_pts`: the corners `(w, h), (0, h), (0, 0), (w, 0)` of an
      axis-aligned rectangle, whose edges, measured as `Dimensions` measures
      a quadrilateral, are `width` and `height` long. */
  function DestinationCorners(width: nat, height: nat): (d: seq<Point>)
    ensures |d| == 4 && d[2] == Point(0, 0)
    ensures d[0].y == d[1].y && d[2].y == d[3].y && d[1].x == d[2].x && d[0].x == d[3].x
    ensures Distance(d[0], d[1]) == width && Distance(d[3], d[2]) == width
    ensures Distance(d[0], d[3]) == height && Distance(d[1], d[2]) == height
  {
    var d := [Point(width, height), Point(0, height), Point(0, 0), Point(width, 0)];
    AxisDistance(d[0], d[1], width);
    AxisDistance(d[3], d[2], width);
    AxisDistance(d[0], d[3], height);
    AxisDistance(d[1], d[2], height);
    d
  }

  /** Two points differing in one coordinate by `len` are `len` apart. */
  lemma AxisDistance(p: Point, q: Point, len: nat)
    requires (p.y == q.y && p.x - q.x == len) || (p.x == q.x && p.y - q.y == len)
    ensures Distance(p, q) == len
  {
    if p.y == q.y && p.x - q.x == len {
      assert Square(p.y - q.y) == 0;
      assert Square(p.x - q.x) == len * len;
    } else {
      assert Square(p.x - q.x) == 0;
      assert Square(p.y - q.y) == len * len;
    }
    FloorSqrtOfSquare(len);
  }

  /** The destination rectangle measures exactly as the display it is built
      from: the rectified display keeps the candidate's width and height. */
  lemma DestinationKeepsDimensions(n: NormalizedContour)
    requires n.height <= n.width
    ensures Dimensions(DestinationCorners(n.width, n.height)) == (n.width, n.height)
  {
  }

  // ---------------------------------------------------------------------
  // Digit-row crop and pad

  datatype Bounds = Bounds(top: nat, bottom: nat, left: nat, right: nat)

  /** The digit row's bounds inside a `width` x `height` display: each edge
      the truncated product of the dimension and its fraction. */
  function ReadingsBounds(width: nat, height: nat): (b: Bounds)
    ensures b.left <= b.right <= width && b.top <= b.bottom <= height
    ensures b.left == (width as real * ReadingsLeftEdge).Floor
    ensures b.right == (width as real * ReadingsRightEdge).Floor
    ensures b.top == (height as real * ReadingsTopEdge).Floor
    ensures b.bottom == (height as real * ReadingsBottomEdge).Floor
  {
    var w, h := width as real, height as real;
    TruncMonotone(w * ReadingsLeftEdge, w * ReadingsRightEdge);
    TruncMonotone(h * ReadingsTopEdge, h * ReadingsBottomEdge);
    Bounds(Trunc(h * ReadingsTopEdge), Trunc(h * ReadingsBottomEdge),
           Trunc(w * ReadingsLeftEdge), Trunc(w * ReadingsRightEdge))
  }

  /** The padded digit row of a display: binarised, cut to `ReadingsBounds`,
      and given a white border of `ReadingsBorder` pixels. */
  function ReadingsRoi(display: Image, width: nat, height: nat, binarize: Image -> Image): Image
  {
    PaddedDigitRow(binarize(display), ReadingsBounds(width, height))
  }

  /** `ocr` cut to `b` and given a white border of `ReadingsBorder` pixels. */
  function PaddedDigitRow(ocr: Image, b: Bounds): (roi: Image)
    ensures WhiteFrame(roi)
  {
    Pad(Crop(ocr, b.top, b.bottom, b.left, b.right), ReadingsBorder, White)
  }

  /** When the binarised display is `width` x `height`, the padded digit row
      is the crop's size plus twice the border, white on the border, and the
      binarised display's digit row inside. */
  lemma ReadingsRoiShape(display: Image, width: nat, height: nat, binarize: Image -> Image)
    requires binarize(display).height == height && binarize(display).width == width
    ensures var ocr, b, roi := binarize(display), ReadingsBounds(width, height), ReadingsRoi(display, width, height, binarize);
      && roi.height == b.bottom - b.top + 2 * ReadingsBorder
      && roi.width == b.right - b.left + 2 * ReadingsBorder
      && (forall i, j :: 0 <= i < roi.height && 0 <= j < roi.width && !InDigitRow(i, j, b) ==>
            roi.rows[i][j] == White)
      && (forall i, j :: 0 <= i < roi.height && 0 <= j < roi.width && InDigitRow(i, j, b) ==>
            roi.rows[i][j] == ocr.rows[b.top + i - ReadingsBorder][b.left + j - ReadingsBorder])
  {
    PaddedDigitRowShape(binarize(display), ReadingsBounds(width, height));
  }

  /** The padded digit row of `ocr` at bounds inside it: the bounds' size
      plus twice the border, white on the border, `ocr`'s pixels inside. */
  lemma PaddedDigitRowShape(ocr: Image, b: Bounds)
    requires b.top <= b.bottom <= ocr.height && b.left <= b.right <= ocr.width
    ensures var roi := PaddedDigitRow(ocr, b);
      && roi.height == b.bottom - b.top + 2 * ReadingsBorder
      && roi.width == b.right - b.left + 2 * ReadingsBorder
      && (forall i, j :: 0 <= i < roi.height && 0 <= j < roi.width && !InDigitRow(i, j, b) ==>
            roi.rows[i][j] == White)
      && (forall i, j :: 0 <= i < roi.height && 0 <= j < roi.width && InDigitRow(i, j, b) ==>
            roi.rows[i][j] == ocr.rows[b.top + i - ReadingsBorder][b.left + j - ReadingsBorder])
  {
    var crop := Crop(ocr, b.top, b.bottom, b.left, b.right);
    PaddedDigitRowBorder(ocr, b, crop);
    PaddedDigitRowInterior(ocr, b, crop);
  }

  lemma PaddedDigitRowBorder(ocr: Image, b: Bounds, crop: Image)
    requires crop.height == b.bottom - b.top && crop.width == b.right - b.left
    ensures var roi := Pad(crop, ReadingsBorder, White);
      forall i, j :: 0 <= i < roi.height && 0 <= j < roi.width && !InDigitRow(i, j, b) ==> roi.rows[i][j] == White
  {
    var roi := Pad(crop, ReadingsBorder, White);
    forall i, j | 0 <= i < roi.height && 0 <= j < roi.width && !InDigitRow(i, j, b)
      ensures roi.rows[i][j] == White
    {
      assert !Inside(i, j, ReadingsBorder, crop);
    }
  }

  lemma PaddedDigitRowInterior(ocr: Image, b: Bounds, crop: Image)
    requires b.top <= b.bottom <= ocr.height && b.left <= b.right <= ocr.width
    requires crop.height == b.bottom - b.top && crop.width == b.right - b.left
    requires forall i, j :: 0 <= i < crop.height && 0 <= j < crop.width ==> crop.rows[i][j] == ocr.rows[b.top + i][b.left + j]
    ensures var roi := Pad(crop, ReadingsBorder, White);
      forall i, j :: 0 <= i < roi.height && 0 <= j < roi.width && InDigitRow(i, j, b) ==>
        roi.rows[i][j] == ocr.rows[b.top + i - ReadingsBorder][b.left + j - ReadingsBorder]
  {
    var roi := Pad(crop, ReadingsBorder, White);
    forall i, j | 0 <= i < roi.height && 0 <= j < roi.width && InDigitRow(i, j, b)
      ensures roi.rows[i][j] == ocr.rows[b.top + i - ReadingsBorder][b.left + j - ReadingsBorder]
    {
      var i', j' := i - ReadingsBorder, j - ReadingsBorder;
      assert roi.rows[ReadingsBorder + i'][ReadingsBorder + j'] == crop.rows[i'][j'];
    }
  }

  /** Position `(i, j)` of the padded digit row shows the display, not the
      border. */
  predicate InDigitRow(i: int, j: int, b: Bounds)
  {
    ReadingsBorder <= i < ReadingsBorder + b.bottom - b.top && ReadingsBorder <= j < ReadingsBorder + b.right - b.left
  }

  /** `__get_binarized_readings_roi`: the working image goes through the
      binarisation, the crop and the padding in turn. */
  method BinarizedReadingsRoi(display: Image, width: nat, height: nat, binarize: Image -> Image) returns (roi: Image)
    ensures roi == ReadingsRoi(display, width, height, binarize)
  {
    var ocrImage := binarize(display);
    var b := ReadingsBounds(width, height);
    roi := Crop(ocrImage, b.top, b.bottom, b.left, b.right);
    roi := Pad(roi, ReadingsBorder, White);
  }

  /** Removing the border from the padded digit row gives the crop back. */
  lemma ReadingsRoiUnpads(display: Image, width: nat, height: nat, binarize: Image -> Image)
    ensures var b := ReadingsBounds(width, height);
            var crop := Crop(binarize(display), b.top, b.bottom, b.left, b.right);
            Crop(ReadingsRoi(display, width, height, binarize),
                 ReadingsBorder, ReadingsBorder + crop.height, ReadingsBorder, ReadingsBorder + crop.width) == crop
  {
    var b := ReadingsBounds(width, height);
    var crop := Crop(binarize(display), b.top, b.bottom, b.left, b.right);
    CropUndoesPad(crop, ReadingsBorder, White);
  }

  // ---------------------------------------------------------------------
  // Validation

  /** `float(readings) / 1000`, rejected below `MinimumReading`.  On a
      number `n` the reading is `n / 1000`, and it is rejected exactly when
      `n < 100`; the raw text is returned unchanged. */
  function ValidateReadings(readings: string): (r: Result<Reading>)
    ensures ParseNumber(readings).None? <==> r == Failure(NotANumber(readings))
    ensures ParseNumber(readings).Some? ==>
      var n := ParseNumber(readings).value;
      && (r.Failure? <==> n < 100)
      && (r.Failure? ==> r.error == ImplausibleReading(n as real / 1000.0))
      && (r.Success? ==> r.value == Reading(readings, n as real / 1000.0))
    ensures r.Success? ==> r.value.value >= MinimumReading
  {
    match ParseNumber(readings)
    case None => Failure(NotANumber(readings))
    case Some(n) =>
      var value := n as real / ReadingsScale;
      if value < MinimumReading then Failure(ImplausibleReading(value))
      else Success(Reading(readings, value))
  }

  /** The text "92469" is the reading 92.469. */
  lemma ValidateExample()
    ensures ValidateReadings("92469") == Success(Reading("92469", 92.469))
  {
    assert AllDigits("92469");
    assert DigitsValue("9") == 9 by { assert "9"[..0] == ""; }
    assert DigitsValue("92") == 92 by { assert "92"[..1] == "9"; }
    assert DigitsValue("924") == 924 by { assert "924"[..2] == "92"; }
    assert DigitsValue("9246") == 9246 by { assert "9246"[..3] == "924"; }
    assert DigitsValue("92469") == 92469 by { assert "92469"[..4] == "9246"; }
  }

  /** The floor sits between the readings 0.099 and 0.100. */
  lemma PlausibilityFloorExample()
    ensures ValidateReadings("99") == Failure(ImplausibleReading(0.099))
    ensures ValidateReadings("100") == Success(Reading("100", 0.1))
  {
    assert AllDigits("99") && AllDigits("100");
    assert "99"[..1] == "9";
    assert "100"[..2] == "10" && "100"[..2][..1] == "1";
    assert DigitsValue("99") == 99;
    assert DigitsValue("100") == 100;
  }

  // ---------------------------------------------------------------------
  // The pipeline

  /** The ratio between the working height and the grey image's height. */
  function Ratio(gray: Image): (ratio: real)
    requires gray.height > 0
    ensures ratio > 0.0
  {
    FindEdgesImageHeight as real / gray.height as real
  }

  /** `int(width * ratio)`: the width that keeps the aspect ratio at the
      working height. */
  function WorkingWidth(gray: Image): (w: int)
    requires gray.height > 0
    ensures w == (gray.width * FindEdgesImageHeight) / gray.height
  {
    var a, b := gray.width * FindEdgesImageHeight, gray.height;
    assert gray.width as real * Ratio(gray) == a as real / b as real;
    RealQuotientFloor(a, b);
    Trunc(gray.width as real * Ratio(gray))
  }

  /** On naturals, the floor of the exact quotient is integer division. */
  lemma RealQuotientFloor(a: nat, b: nat)
    requires b > 0
    ensures (a as real / b as real).Floor == a / b
  {
    var q, r := a / b, a % b;
    assert a == q * b + r;
    assert a as real / b as real == q as real + r as real / b as real;
    assert 0.0 <= r as real / b as real < 1.0;
  }

  /** The four-vertex contours found in the image, at working resolution. */
  function QuadContours(img: Image, vision: Vision): (quads: seq<Contour>)
    requires vision.toGray(img).height > 0
    ensures forall k :: 0 <= k < |quads| ==> |quads[k]| == 4
  {
    var gray := vision.toGray(img);
    var resized := vision.resize(gray, WorkingWidth(gray), FindEdgesImageHeight);
    var blurred := vision.blur(resized);
    var thresholds := EdgeDetectionThresholds(vision.median(blurred));
    var edged := vision.canny(blurred, thresholds.0, thresholds.1);
    QuadHulls(vision.findContours(vision.dilate(edged)), vision.approxHull)
  }

  /** The candidates for the display, at the original resolution. */
  function DisplayCandidates(img: Image, vision: Vision): (cs: seq<NormalizedContour>)
    requires vision.toGray(img).height > 0
    ensures |cs| == |QuadContours(img, vision)|
    ensures forall k :: 0 <= k < |cs| ==> IsCandidateOf(cs[k], QuadContours(img, vision)[k], Ratio(vision.toGray(img)))
  {
    Candidates(QuadContours(img, vision), Ratio(vision.toGray(img)), vision.minAreaBox)
  }

  /** The image has room for a `ReadingsBorder`-wide frame, and every pixel
      of that frame is white. */
  predicate WhiteFrame(roi: Image)
  {
    && 2 * ReadingsBorder <= roi.height && 2 * ReadingsBorder <= roi.width
    && forall i, j :: 0 <= i < roi.height && 0 <= j < roi.width && InFrame(i, j, roi) ==> roi.rows[i][j] == White
  }

  predicate InFrame(i: int, j: int, roi: Image)
  {
    i < ReadingsBorder || j < ReadingsBorder || roi.height - ReadingsBorder <= i || roi.width - ReadingsBorder <= j
  }

  /** The digit row cut out of the rectified display: whatever the warp and
      the binarisation return, the recogniser gets an image with a white
      frame. */
  function DisplayRoi(img: Image, vision: Vision, display: NormalizedContour): (roi: Image)
    ensures WhiteFrame(roi)
  {
    var dst := DestinationCorners(display.width, display.height);
    var warped := vision.warp(img, display.vertices, dst, display.width, display.height);
    ReadingsRoi(warped, display.width, display.height, vision.binarize)
  }

  /** `get_readings_from_meter_image` as a function of the image: a
      reading it returns is a non-empty digit string worth at least 0.1. */
  function ReadMeter(img: Image, vision: Vision): (r: Result<Reading>)
    requires vision.toGray(img).height > 0
    ensures r.Success? ==> r.value.raw != [] && AllDigits(r.value.raw) && r.value.value >= MinimumReading
  {
    match SelectDisplay(DisplayCandidates(img, vision))
    case Failure(e) => Failure(e)
    case Success(display) =>
      ValidateReadings(Strip(vision.recognize(DisplayRoi(img, vision, display))))
  }

  /** The pipeline fails with `NoDisplayFound` exactly when no contour has a
      four-vertex hull. */
  lemma NoDisplayFoundIffNoQuadrilateral(img: Image, vision: Vision)
    requires vision.toGray(img).height > 0
    ensures ReadMeter(img, vision) == Failure(NoDisplayFound) <==> QuadContours(img, vision) == []
  {
  }

  /** A reading the pipeline returns is the stripped recognised text, all
      decimal digits, and its value is that number over 1000, at least 0.1. */
  lemma ReadingIsPlausible(img: Image, vision: Vision)
    requires vision.toGray(img).height > 0
    requires ReadMeter(img, vision).Success?
    ensures var reading := ReadMeter(img, vision).value;
      && reading.raw != [] && AllDigits(reading.raw)
      && reading.value == DigitsValue(reading.raw) as real / 1000.0
      && reading.value >= MinimumReading
      && DigitsValue(reading.raw) >= 100
  {
  }

  /** When a display was found, the failure or reading comes from the
      candidate with the least score, the first such one. */
  lemma ReadingComesFromBestCandidate(img: Image, vision: Vision)
    requires vision.toGray(img).height > 0
    requires ReadMeter(img, vision) != Failure(NoDisplayFound)
    ensures var cs := DisplayCandidates(img, vision);
      exists k :: IsFirstMin(cs, Score, k) &&
        ReadMeter(img, vision) == ValidateReadings(Strip(vision.recognize(DisplayRoi(img, vision, cs[k]))))
  {
    var cs := DisplayCandidates(img, vision);
    var r := SelectDisplay(cs);
    var k :| IsFirstMin(cs, Score, k) && r.value == cs[k];
  }

  /** `get_readings_from_meter_image`: the working image goes through each
      stage in turn; the pipeline stops at the first failure. */
  method GetReadingsFromMeterImage(img: Image, vision: Vision) returns (r: Result<Reading>)
    requires vision.toGray(img).height > 0
    ensures r == ReadMeter(img, vision)
    ensures r.Success? ==> r.value.value >= MinimumReading
  {
    var findDisplayImage := vision.toGray(img);
    var ratio := Ratio(findDisplayImage);
    findDisplayImage := vision.resize(findDisplayImage, WorkingWidth(findDisplayImage), FindEdgesImageHeight);
    findDisplayImage := vision.blur(findDisplayImage);
    var thresholds := EdgeDetectionThresholds(vision.median(findDisplayImage));
    var edged := vision.canny(findDisplayImage, thresholds.0, thresholds.1);
    var dilated := vision.dilate(edged);
    var contours := vision.findContours(dilated);
    var rectangularContours := RectangularContours(contours, vision.approxHull);
    assert rectangularContours == QuadContours(img, vision);
    var candidates := Candidates(rectangularContours, ratio, vision.minAreaBox);
    assert candidates == DisplayCandidates(img, vision);

    var selected := SelectDisplay(candidates);
    if selected.Failure? {
      return Failure(selected.error);
    }
    var display := selected.value;
    var dst := DestinationCorners(display.width, display.height);
    var warp := vision.warp(img, display.vertices, dst, display.width, display.height);
    var readingsRoi := BinarizedReadingsRoi(warp, display.width, display.height, vision.binarize);
    var readings := Strip(vision.recognize(readingsRoi));
    r := ValidateReadings(readings);
  }
}
