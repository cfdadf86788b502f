/** Two-dimensional rasters as sequences of rows, with the Python slicing the
    source applies to them and the counting it does with numpy. */
module Images {

  /** One pixel of a three-channel capture. */
  datatype Rgb = Rgb(r: int, g: int, b: int)

  type Image = seq<seq<Rgb>>

  /** A single-channel raster: region masks and thresholded images. */
  type Mask = seq<seq<int>>

  /** `g` has `h` rows of `w` cells each, like a numpy array of shape (h, w). */
  predicate IsGrid<T>(g: seq<seq<T>>, h: nat, w: nat)
  {
    |g| == h && forall i :: 0 <= i < |g| ==> |g[i]| == w
  }

  /** The column count of a grid (`shape[1]`). */
  function Cols<T>(g: seq<seq<T>>): nat
  {
    if |g| == 0 then 0 else |g[0]|
  }

  /** Every row has the same length, as in a numpy array. */
  predicate Rect<T>(g: seq<seq<T>>)
  {
    IsGrid(g, |g|, Cols(g))
  }

  /** Python's normalisation of a slice bound `i` against a length `n`:
      negative bounds count from the end, then the bound is clipped to [0, n]. */
  function SliceBound(i: int, n: nat): (r: nat)
    ensures r <= n
    ensures 0 <= i <= n ==> r == i
    ensures i < 0 && 0 <= i + n ==> r == i + n
  {
    if i < 0 then (if i + n < 0 then 0 else i + n)
    else if i > n then n
    else i
  }

  /** `s[start:stop]` with Python semantics. */
  function PySlice<T>(s: seq<T>, start: int, stop: int): (r: seq<T>)
    ensures |r| <= |s|
    ensures 0 <= start <= stop <= |s| ==> r == s[start..stop]
    ensures |r| == if SliceBound(start, |s|) < SliceBound(stop, |s|)
                   then SliceBound(stop, |s|) - SliceBound(start, |s|) else 0
    ensures forall k :: 0 <= k < |r| ==> SliceBound(start, |s|) + k < |s| && r[k] == s[SliceBound(start, |s|) + k]
  {
    var a, b := SliceBound(start, |s|), SliceBound(stop, |s|);
    if a < b then s[a..b] else []
  }

  /** `g[top:bottom, left:right]` with Python semantics. */
  function Crop<T>(g: seq<seq<T>>, top: int, bottom: int, left: int, right: int): (r: seq<seq<T>>)
    ensures |r| == |PySlice(g, top, bottom)|
    ensures forall i :: 0 <= i < |r| ==>
              SliceBound(top, |g|) + i < |g| && r[i] == PySlice(g[SliceBound(top, |g|) + i], left, right)
  {
    var rows := PySlice(g, top, bottom);
    seq(|rows|, i requires 0 <= i < |rows| => PySlice(rows[i], left, right))
  }

  /** Cropping a grid to a window that lies inside it gives exactly that window. */
  lemma CropInside<T>(g: seq<seq<T>>, h: nat, w: nat, top: nat, bottom: nat, left: nat, right: nat)
    requires IsGrid(g, h, w) && top <= bottom <= h && left <= right <= w
    ensures IsGrid(Crop(g, top, bottom, left, right), bottom - top, right - left)
    ensures forall i, j :: 0 <= i < bottom - top && 0 <= j < right - left ==>
              Crop(g, top, bottom, left, right)[i][j] == g[top + i][left + j]
  {
  }

  /** Number of cells of `s` equal to `v` (`(s == v).sum()`). */
  function CountOf(s: seq<int>, v: int): (n: nat)
    ensures n <= |s|
    ensures n == 0 <==> forall k :: 0 <= k < |s| ==> s[k] != v
  {
    if |s| == 0 then 0
    else (if s[|s| - 1] == v then 1 else 0) + CountOf(s[..|s| - 1], v)
  }

  /** Cell (i, j) lies in the `w` by `h` rectangle whose top-left corner is (x, y). */
  predicate InRect(x: int, y: int, w: int, h: int, i: int, j: int)
  {
    x <= j < x + w && y <= i < y + h
  }

  /** `cv2.rectangle(zeros, [x, y, w, h], color=1, thickness=-1)`: a filled
      rectangle of ones, clipped to the raster. */
  function FillRect(height: nat, width: nat, x: int, y: int, w: int, h: int): (r: Mask)
    ensures IsGrid(r, height, width)
    ensures forall i, j :: 0 <= i < height && 0 <= j < width ==>
              (r[i][j] == 1 <==> x <= j < x + w && y <= i < y + h) && (r[i][j] == 0 || r[i][j] == 1)
  {
    seq(height, i requires 0 <= i < height =>
      seq(width, j requires 0 <= j < width => if InRect(x, y, w, h, i, j) then 1 else 0))
  }
}
