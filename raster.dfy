/** Single-channel images as the reader handles them: a rectangular grid of
    samples, numpy's `img[top:bottom, left:right]` slicing, and OpenCV's
    `copyMakeBorder` with a constant border. */
module Raster {
  import opened Numbers

  datatype Grid = Grid(height: nat, width: nat, rows: seq<seq<int>>)

  predicate WellFormed(g: Grid)
  {
    |g.rows| == g.height && forall i :: 0 <= i < |g.rows| ==> |g.rows[i]| == g.width
  }

  /** An image: `height` rows of `width` samples each. */
  type Image = g: Grid | WellFormed(g) witness Grid(0, 0, [])

  /** The start and stop a Python slice `[a:b]` with non-negative bounds
      selects in a sequence of length `n`: both clamped to `n`, and an
      empty range when `b` falls before `a`. */
  function SliceStart(n: nat, a: nat): (start: nat)
    ensures start <= n
    ensures a <= n ==> start == a
  {
    Min(a, n)
  }

  function SliceStop(n: nat, a: nat, b: nat): (stop: nat)
    ensures SliceStart(n, a) <= stop <= n
    ensures a <= b <= n ==> stop == b
  {
    Max(SliceStart(n, a), Min(b, n))
  }

  /** `img[top:bottom, left:right]`. */
  function Crop(img: Image, top: nat, bottom: nat, left: nat, right: nat): (r: Image)
    ensures r.height <= img.height && r.width <= img.width
    ensures top <= bottom <= img.height && left <= right <= img.width ==>
      && r.height == bottom - top
      && r.width == right - left
      && forall i, j :: 0 <= i < r.height && 0 <= j < r.width ==> r.rows[i][j] == img.rows[top + i][left + j]
  {
    var t, b := SliceStart(img.height, top), SliceStop(img.height, top, bottom);
    var l, rt := SliceStart(img.width, left), SliceStop(img.width, left, right);
    Grid(b - t, rt - l, seq(b - t, i requires 0 <= i < b - t => img.rows[t + i][l..rt]))
  }

  /** `cv2.copyMakeBorder(img, border, border, border, border,
      cv2.BORDER_CONSTANT, value=value)`. */
  function Pad(img: Image, border: nat, value: int): (r: Image)
    ensures r.height == img.height + 2 * border && r.width == img.width + 2 * border
    ensures forall i, j :: 0 <= i < img.height && 0 <= j < img.width ==>
      r.rows[border + i][border + j] == img.rows[i][j]
    ensures forall i, j :: 0 <= i < r.height && 0 <= j < r.width && !Inside(i, j, border, img) ==>
      r.rows[i][j] == value
  {
    var h, w := img.height + 2 * border, img.width + 2 * border;
    Grid(h, w, seq(h, i requires 0 <= i < h =>
      seq(w, j requires 0 <= j < w =>
        if border <= i < border + img.height && border <= j < border + img.width
        then img.rows[i - border][j - border]
        else value)))
  }

  /** Position `(i, j)` of the padded image lies inside the original. */
  predicate Inside(i: int, j: int, border: nat, img: Image)
  {
    border <= i < border + img.height && border <= j < border + img.width
  }

  /** Cropping the border back off a padded image gives the image back. */
  lemma CropUndoesPad(img: Image, border: nat, value: int)
    ensures Crop(Pad(img, border, value), border, border + img.height, border, border + img.width) == img
  {
    var p := Pad(img, border, value);
    var c := Crop(p, border, border + img.height, border, border + img.width);
    assert c.height == img.height && c.width == img.width;
    forall i | 0 <= i < img.height
      ensures c.rows[i] == img.rows[i]
    {
      forall j | 0 <= j < img.width
        ensures c.rows[i][j] == img.rows[i][j]
      {
        assert c.rows[i][j] == p.rows[border + i][border + j];
      }
    }
  }
}
