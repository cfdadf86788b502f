/** The region extractor of `board.py`: colour-band thresholding, the chroma
    colour cached on first use, the four edge scans that find the background
    frame, the 10 % border zeroing of each region mask, and the 3x3 dilation. */
module Board {
  import opened Wrappers
  import opened Images

  /** The exceptions `crop_background` raises. */
  datatype Error = NoBackground | StrictModeNotImplemented

  /** The mutable part of a `Board` source: the chroma colour, unset until the
      first crop computes it (`self.chroma is False`). */
  datatype BoardState = BoardState(chroma: Option<Rgb>)

  /** The initial state of a freshly constructed board. */
  const Fresh := BoardState(None)

  /** The value `cv2.inRange` writes for a pixel inside the band. */
  const Marked := 255

  /** The default mark colour of `get_binary_screen`. */
  const White := Rgb(255, 255, 255)

  predicate IsByte(v: int) { 0 <= v <= 255 }

  predicate IsColour(p: Rgb) { IsByte(p.r) && IsByte(p.g) && IsByte(p.b) }

  /** `np.maximum(c - 20, 0)` for one channel. */
  function Lower(c: int): int { if c - 20 > 0 then c - 20 else 0 }

  /** `np.minimum(c + 10, 255)` for one channel. */
  function Upper(c: int): int { if c + 10 < 255 then c + 10 else 255 }

  /** For a byte channel the band is a byte interval that contains the channel. */
  lemma BandIsByteInterval(c: int)
    requires IsByte(c)
    ensures 0 <= Lower(c) <= c <= Upper(c) <= 255
  {
  }

  predicate InBand(p: Rgb, c: Rgb)
  {
    && Lower(c.r) <= p.r <= Upper(c.r)
    && Lower(c.g) <= p.g <= Upper(c.g)
    && Lower(c.b) <= p.b <= Upper(c.b)
  }

  /** `get_in_range`: a pixel becomes `Marked` exactly when every channel lies in
      its band, and 0 otherwise. */
  function InRange(screen: Image, c: Rgb): (b: Mask)
    ensures |b| == |screen|
    ensures forall i :: 0 <= i < |b| ==> |b[i]| == |screen[i]|
    ensures forall i, j :: 0 <= i < |b| && 0 <= j < |b[i]| ==>
              (b[i][j] == Marked <==> InBand(screen[i][j], c)) && (b[i][j] == 0 || b[i][j] == Marked)
  {
    seq(|screen|, i requires 0 <= i < |screen| =>
      seq(|screen[i]|, j requires 0 <= j < |screen[i]| => if InBand(screen[i][j], c) then Marked else 0))
  }

  /** `get_binary_screen` with its default colour: the white strokes. */
  function BinaryScreen(screen: Image): (b: Mask)
    ensures |b| == |screen| && forall i :: 0 <= i < |b| ==> |b[i]| == |screen[i]|
    ensures forall i, j :: 0 <= i < |b| && 0 <= j < |b[i]| && IsColour(screen[i][j]) ==>
              (b[i][j] == Marked <==> 235 <= screen[i][j].r && 235 <= screen[i][j].g && 235 <= screen[i][j].b)
  {
    InRange(screen, White)
  }

  /** The chroma colour is computed only while none is cached. */
  function CacheChroma(board: BoardState, estimate: Rgb): (r: BoardState)
    ensures r.chroma.Some?
    ensures board.chroma.Some? ==> r == board
    ensures board.chroma.None? ==> r.chroma == Some(estimate)
  {
    if board.chroma.None? then BoardState(Some(estimate)) else board
  }

  /** Once set, the chroma colour is reused whatever a later estimate says. */
  lemma ChromaComputedOnce(board: BoardState, first: Rgb, later: Rgb)
    ensures CacheChroma(CacheChroma(board, first), later) == CacheChroma(board, first)
    ensures CacheChroma(CacheChroma(board, first), later).chroma == Some(if board.chroma.Some? then board.chroma.value else first)
  {
  }

  /** Per row, the number of `Marked` cells. */
  function RowCounts(b: Mask): (r: seq<nat>)
    ensures |r| == |b|
  {
    seq(|b|, i requires 0 <= i < |b| => CountOf(b[i], Marked))
  }

  /** Column `j` of a grid, top to bottom. */
  function Column(b: Mask, j: nat): (r: seq<int>)
    requires forall i :: 0 <= i < |b| ==> j < |b[i]|
    ensures |r| == |b|
  {
    seq(|b|, i requires 0 <= i < |b| => b[i][j])
  }

  /** Per column, the number of `Marked` cells. */
  function ColCounts(b: Mask, w: nat): (r: seq<nat>)
    requires IsGrid(b, |b|, w)
    ensures |r| == w
  {
    seq(w, j requires 0 <= j < w => CountOf(Column(b, j), Marked))
  }

  /** No count in [lo, hi) exceeds `thr`. */
  predicate Clear(counts: seq<int>, lo: int, hi: int, thr: int)
  {
    forall k :: lo <= k < hi && 0 <= k < |counts| ==> counts[k] <= thr
  }

  /** `for i in range(i, n): if counts[i] > thr: break`: the first hit scanning up. */
  function FirstOver(counts: seq<int>, i: nat, n: nat, thr: int): (r: Option<nat>)
    requires n <= |counts|
    ensures r.Some? ==> i <= r.value < n && counts[r.value] > thr && Clear(counts, i, r.value, thr)
    ensures r.None? <==> Clear(counts, i, n, thr)
    decreases n - i
  {
    if i >= n then None
    else if counts[i] > thr then Some(i)
    else FirstOver(counts, i + 1, n, thr)
  }

  /** `for i in range(i, stop, -1): if counts[i] > thr: break`: the first hit scanning down. */
  function LastOver(counts: seq<int>, i: int, stop: nat, thr: int): (r: Option<nat>)
    requires i < |counts|
    ensures r.Some? ==> stop < r.value <= i && counts[r.value] > thr && Clear(counts, r.value + 1, i + 1, thr)
    ensures r.None? <==> Clear(counts, stop + 1, i + 1, thr)
    decreases i - stop
  {
    if i <= stop then None
    else if counts[i] > thr then Some(i)
    else LastOver(counts, i - 1, stop, thr)
  }

  /** The crop rectangle `[top, bottom) x [left, right)` found by the scans. */
  datatype Frame = Frame(top: nat, bottom: nat, left: nat, right: nat)

  /** `f` is what the four scans find on the row counts `rows` (of a row width
      `w`) and the column counts `cols` (of a column height `h`): each side is the
      first line, scanning inward from that edge, whose count exceeds half the
      other dimension. */
  predicate FrameIn(rows: seq<nat>, cols: seq<nat>, h: nat, w: nat, f: Frame)
    requires |rows| == h && |cols| == w
  {
    && f.top < h / 2 < f.bottom < h
    && f.left < w / 2 < f.right < w
    && rows[f.top] > w / 2 && Clear(rows, 0, f.top, w / 2)
    && rows[f.bottom] > w / 2 && Clear(rows, f.bottom + 1, h, w / 2)
    && cols[f.left] > h / 2 && Clear(cols, 0, f.left, h / 2)
    && cols[f.right] > h / 2 && Clear(cols, f.right + 1, w, h / 2)
  }

  /** Some side has no line with a large enough count. */
  predicate NoFrameIn(rows: seq<nat>, cols: seq<nat>, h: nat, w: nat)
  {
    || Clear(rows, 0, h / 2, w / 2)
    || Clear(rows, h / 2 + 1, h, w / 2)
    || Clear(cols, 0, w / 2, h / 2)
    || Clear(cols, w / 2 + 1, w, h / 2)
  }

  /** The four scans on the counts, in the source's order. */
  function Scans(rows: seq<nat>, cols: seq<nat>, h: nat, w: nat): (r: Result<Frame, Error>)
    requires |rows| == h && |cols| == w
    ensures r.Ok? ==> FrameIn(rows, cols, h, w, r.value)
    ensures r.Err? ==> r.error == NoBackground
    ensures r.Err? <==> NoFrameIn(rows, cols, h, w)
  {
    var top := FirstOver(rows, 0, h / 2, w / 2);
    if top.None? then Err(NoBackground) else
    var bottom := LastOver(rows, h - 1, h / 2, w / 2);
    if bottom.None? then Err(NoBackground) else
    var left := FirstOver(cols, 0, w / 2, h / 2);
    if left.None? then Err(NoBackground) else
    var right := LastOver(cols, w - 1, w / 2, h / 2);
    if right.None? then Err(NoBackground) else
    Ok(Frame(top.value, bottom.value, left.value, right.value))
  }

  /** `f` is the frame of the background mask `b`, `w` cells wide. */
  predicate IsFrame(b: Mask, w: nat, f: Frame)
    requires IsGrid(b, |b|, w)
  {
    FrameIn(RowCounts(b), ColCounts(b, w), |b|, w, f)
  }

  /** The background mask `b` has no frame. */
  predicate NoFrame(b: Mask, w: nat)
    requires IsGrid(b, |b|, w)
  {
    NoFrameIn(RowCounts(b), ColCounts(b, w), |b|, w)
  }

  /** The edge scans of `crop_background`, failing with "no background found". */
  function FrameOf(b: Mask, w: nat): (r: Result<Frame, Error>)
    requires IsGrid(b, |b|, w)
    ensures r.Ok? ==> IsFrame(b, w, r.value)
    ensures r.Err? ==> r.error == NoBackground
    ensures r.Err? <==> NoFrame(b, w)
  {
    Scans(RowCounts(b), ColCounts(b, w), |b|, w)
  }

  /** One upward scan, as the source's `for ... else` loop. */
  method ScanUp(counts: seq<nat>, n: nat, thr: int) returns (r: Option<nat>)
    requires n <= |counts|
    ensures r == FirstOver(counts, 0, n, thr)
  {
    var i := 0;
    while i < n
      invariant 0 <= i <= n
      invariant FirstOver(counts, i, n, thr) == FirstOver(counts, 0, n, thr)
    {
      if counts[i] > thr {
        return Some(i);
      }
      i := i + 1;
    }
    return None;
  }

  /** One downward scan, as the source's `for ... else` loop over `range(start, stop, -1)`. */
  method ScanDown(counts: seq<nat>, start: int, stop: nat, thr: int) returns (r: Option<nat>)
    requires start < |counts|
    ensures r == LastOver(counts, start, stop, thr)
  {
    var i := start;
    while i > stop
      invariant i <= start
      invariant LastOver(counts, i, stop, thr) == LastOver(counts, start, stop, thr)
      decreases i - stop
    {
      if counts[i] > thr {
        return Some(i);
      }
      i := i - 1;
    }
    return None;
  }

  /** The four loops on the counts, stopping at the first that finds nothing. */
  method ScanAll(rows: seq<nat>, cols: seq<nat>, h: nat, w: nat) returns (r: Result<Frame, Error>)
    requires |rows| == h && |cols| == w
    ensures r == Scans(rows, cols, h, w)
  {
    var top := ScanUp(rows, h / 2, w / 2);
    if top.None? { return Err(NoBackground); }
    var bottom := ScanDown(rows, h - 1, h / 2, w / 2);
    if bottom.None? { return Err(NoBackground); }
    var left := ScanUp(cols, w / 2, h / 2);
    if left.None? { return Err(NoBackground); }
    var right := ScanDown(cols, w - 1, w / 2, h / 2);
    if right.None? { return Err(NoBackground); }
    return Ok(Frame(top.value, bottom.value, left.value, right.value));
  }

  /** The scans of `crop_background` on a background mask. */
  method FindFrame(b: Mask, w: nat) returns (r: Result<Frame, Error>)
    requires IsGrid(b, |b|, w)
    ensures r == FrameOf(b, w)
  {
    r := ScanAll(RowCounts(b), ColCounts(b, w), |b|, w);
  }

  /** The background mask `crop_background` scans, under the cached chroma colour. */
  function Background(screen: Image, board: BoardState): (b: Mask)
    requires Rect(screen) && board.chroma.Some?
    ensures IsGrid(b, |screen|, Cols(screen))
    ensures forall i, j :: 0 <= i < |b| && 0 <= j < |b[i]| ==>
              (b[i][j] == Marked <==> InBand(screen[i][j], board.chroma.value)) && (b[i][j] == 0 || b[i][j] == Marked)
  {
    InRange(screen, board.chroma.value)
  }

  /** `screen[top:bottom, left:right]` for a frame inside the screen: a non-empty
      window that drops the bottom row and the right column the scans found. */
  function CropToFrame(screen: Image, f: Frame): (r: Image)
    requires Rect(screen) && f.top < f.bottom < |screen| && f.left < f.right < Cols(screen)
    ensures IsGrid(r, f.bottom - f.top, f.right - f.left)
    ensures forall i, j :: 0 <= i < f.bottom - f.top && 0 <= j < f.right - f.left ==>
              r[i][j] == screen[f.top + i][f.left + j]
  {
    CropInside(screen, |screen|, Cols(screen), f.top, f.bottom, f.left, f.right);
    Crop(screen, f.top, f.bottom, f.left, f.right)
  }

  /** A successful crop is at least two rows by two columns. */
  lemma CroppedNonEmpty(board: BoardState, screen: Image, estimate: Rgb)
    requires Rect(screen)
    requires CropBackground(board, screen, estimate, false).1.Ok?
    ensures |CropBackground(board, screen, estimate, false).1.value| >= 2
    ensures Cols(CropBackground(board, screen, estimate, false).1.value) >= 2
  {
  }

  /** `crop_background(screen, strict=strict)`: the chroma colour is cached first
      (even when the scans then fail); the crop keeps rows [top, bottom) and
      columns [left, right), so it drops the bottom row and right column found. */
  function CropBackground(board: BoardState, screen: Image, estimate: Rgb, strict: bool): (r: (BoardState, Result<Image, Error>))
    requires Rect(screen)
    ensures r.0 == CacheChroma(board, estimate)
    ensures r.1.Err? && r.1.error == NoBackground <==> NoFrame(Background(screen, r.0), Cols(screen))
    ensures strict ==> r.1.Err?
    ensures !strict && r.1.Err? ==> r.1.error == NoBackground
    ensures r.1.Ok? ==>
              && !strict
              && FrameOf(Background(screen, r.0), Cols(screen)).Ok?
              && r.1.value == CropToFrame(screen, FrameOf(Background(screen, r.0), Cols(screen)).value)
  {
    var board' := CacheChroma(board, estimate);
    var w := Cols(screen);
    match FrameOf(Background(screen, board'), w)
    case Err(e) => (board', Err(e))
    case Ok(f) =>
      if strict then (board', Err(StrictModeNotImplemented))
      else (board', Ok(CropToFrame(screen, f)))
  }

  /** Cell (i, j) of an h x w mask lies in the zeroed border: the first h/10 rows,
      the last ceil(h/10) rows, the first w/10 columns or the last ceil(w/10) columns. */
  predicate InBorder(h: nat, w: nat, i: int, j: int)
  {
    i < h / 10 || h - (h + 9) / 10 <= i || j < w / 10 || w - (w + 9) / 10 <= j
  }

  /** `z` is `m` with its border zeroed and every other cell unchanged. */
  predicate BorderZeroed(m: Mask, z: Mask)
  {
    && IsGrid(z, |m|, Cols(m))
    && Rect(m)
    && forall i, j :: 0 <= i < |m| && 0 <= j < Cols(m) ==>
         z[i][j] == if InBorder(|m|, Cols(m), i, j) then 0 else m[i][j]
  }

  /** `m[lo:hi, :] = 0`. */
  function ZeroRows(m: Mask, lo: int, hi: int): (r: Mask)
  {
    seq(|m|, i requires 0 <= i < |m| => if lo <= i < hi then seq(|m[i]|, _ => 0) else m[i])
  }

  /** `m[:, lo:hi] = 0`. */
  function ZeroCols(m: Mask, lo: int, hi: int): (r: Mask)
  {
    seq(|m|, i requires 0 <= i < |m| =>
      seq(|m[i]|, j requires 0 <= j < |m[i]| => if lo <= j < hi then 0 else m[i][j]))
  }

  /** Python's `-n // 10` as a slice start is `n - ceil(n / 10)`. */
  lemma NegativeTenthStart(n: nat)
    ensures SliceBound((-(n as int)) / 10, n) == n - (n + 9) / 10
  {
  }

  /** The four slice assignments of `get_roi`, in the source's order. */
  function ZeroBorder(m: Mask): (r: Mask)
    requires Rect(m)
    ensures BorderZeroed(m, r)
  {
    var h, w := |m|, Cols(m);
    NegativeTenthStart(h);
    NegativeTenthStart(w);
    var top := ZeroRows(m, 0, SliceBound(h / 10, h));
    var bottom := ZeroRows(top, SliceBound((-(h as int)) / 10, h), h);
    var left := ZeroCols(bottom, 0, SliceBound(w / 10, w));
    ZeroCols(left, SliceBound((-(w as int)) / 10, w), w)
  }

  predicate AllRect(ms: seq<Mask>)
  {
    forall k :: 0 <= k < |ms| ==> Rect(ms[k])
  }

  /** `get_roi`: crop the background, threshold the white strokes, then one mask
      per contour, in contour order, each with its border zeroed. `contours`
      stands for `findContours` + `fillPoly` + `resize`. */
  function GetRoi(board: BoardState, screen: Image, estimate: Rgb, contours: Mask -> seq<Mask>): (r: (BoardState, Result<seq<Mask>, Error>))
    requires Rect(screen)
    requires forall b :: AllRect(contours(b))
    ensures r.0 == CacheChroma(board, estimate)
    ensures r.1.Err? <==> CropBackground(board, screen, estimate, false).1.Err?
    ensures r.1.Err? ==> r.1.error == NoBackground
    ensures r.1.Ok? ==>
              var masks := contours(BinaryScreen(CropBackground(board, screen, estimate, false).1.value));
              && |r.1.value| == |masks|
              && forall k :: 0 <= k < |masks| ==> BorderZeroed(masks[k], r.1.value[k])
  {
    var (board', cropped) := CropBackground(board, screen, estimate, false);
    match cropped
    case Err(e) => (board', Err(e))
    case Ok(img) =>
      var masks := contours(BinaryScreen(img));
      assert AllRect(masks);
      (board', Ok(seq(|masks|, k requires 0 <= k < |masks| => ZeroBorder(masks[k]))))
  }

  predicate Near(i: int, a: int)
  {
    i - 1 <= a <= i + 1
  }

  function Clamp(i: int, n: nat): (r: nat)
    requires n > 0
    ensures r < n && (0 <= i < n ==> r == i)
    ensures i < 0 ==> r == 0
    ensures n <= i ==> r == n - 1
  {
    if i < 0 then 0 else if i >= n then n - 1 else i
  }

  /** The largest element of a non-empty sequence. */
  function SeqMax(s: seq<int>): (r: int)
    requires |s| > 0
    ensures forall k :: 0 <= k < |s| ==> s[k] <= r
    ensures exists k :: 0 <= k < |s| && r == s[k]
  {
    if |s| == 1 then s[0]
    else
      var rest := SeqMax(s[1..]);
      assert forall k :: 1 <= k < |s| ==> s[k] == s[1..][k - 1];
      if s[0] >= rest then s[0] else rest
  }

  /** The nine cells of the 3x3 window around (i, j), clamped at the edges. */
  function Window(m: Mask, i: nat, j: nat): (r: seq<int>)
    requires Rect(m) && i < |m| && j < Cols(m)
    ensures |r| == 9 && r[4] == m[i][j]
  {
    var h, w := |m|, Cols(m);
    var u, d, l, r := Clamp(i - 1, h), Clamp(i + 1, h), Clamp(j - 1, w), Clamp(j + 1, w);
    [m[u][l], m[u][j], m[u][r], m[i][l], m[i][j], m[i][r], m[d][l], m[d][j], m[d][r]]
  }

  /** `expand_roi`: `cv2.dilate` with a 3x3 kernel of ones, once; cells outside
      the raster do not take part. It never clears a cell. */
  function ExpandRoi(m: Mask): (r: Mask)
    requires Rect(m)
    ensures IsGrid(r, |m|, Cols(m))
    ensures forall i, j :: 0 <= i < |m| && 0 <= j < Cols(m) ==> m[i][j] <= r[i][j]
  {
    seq(|m|, i requires 0 <= i < |m| => seq(Cols(m), j requires 0 <= j < Cols(m) => SeqMax(Window(m, i, j))))
  }

  /** Every in-raster neighbour of (i, j) is one of the nine window cells. */
  lemma NeighbourInWindow(m: Mask, i: nat, j: nat, a: int, b: int)
    requires Rect(m) && i < |m| && j < Cols(m)
    requires 0 <= a < |m| && 0 <= b < Cols(m) && Near(i, a) && Near(j, b)
    ensures m[a][b] in Window(m, i, j)
  {
    var h, w := |m|, Cols(m);
    var u, d, l, r := Clamp(i - 1, h), Clamp(i + 1, h), Clamp(j - 1, w), Clamp(j + 1, w);
    var win := Window(m, i, j);
    assert win == [m[u][l], m[u][j], m[u][r], m[i][l], m[i][j], m[i][r], m[d][l], m[d][j], m[d][r]];
    assert a == u || a == i || a == d;
    assert b == l || b == j || b == r;
  }

  /** Every window cell is an in-raster neighbour of (i, j). */
  lemma WindowCellIsNeighbour(m: Mask, i: nat, j: nat, k: nat)
    requires Rect(m) && i < |m| && j < Cols(m) && k < 9
    ensures exists a, b :: 0 <= a < |m| && 0 <= b < Cols(m) && Near(i, a) && Near(j, b) && Window(m, i, j)[k] == m[a][b]
  {
    var h, w := |m|, Cols(m);
    var u, d, l, r := Clamp(i - 1, h), Clamp(i + 1, h), Clamp(j - 1, w), Clamp(j + 1, w);
    var win := Window(m, i, j);
    assert win == [m[u][l], m[u][j], m[u][r], m[i][l], m[i][j], m[i][r], m[d][l], m[d][j], m[d][r]];
    var a := if k < 3 then u else if k < 6 then i else d;
    var b := if k % 3 == 0 then l else if k % 3 == 1 then j else r;
    assert Near(i, u) && Near(i, d) && Near(j, l) && Near(j, r);
    assert 0 <= a < h && 0 <= b < w && Near(i, a) && Near(j, b) && win[k] == m[a][b];
  }

  /** Each dilated cell is the maximum of the in-raster cells of its 3x3 window. */
  lemma ExpandIsWindowMax(m: Mask, i: nat, j: nat)
    requires Rect(m) && i < |m| && j < Cols(m)
    ensures forall a, b :: 0 <= a < |m| && 0 <= b < Cols(m) && Near(i, a) && Near(j, b) ==> m[a][b] <= ExpandRoi(m)[i][j]
    ensures exists a, b :: 0 <= a < |m| && 0 <= b < Cols(m) && Near(i, a) && Near(j, b) && ExpandRoi(m)[i][j] == m[a][b]
  {
    var win := Window(m, i, j);
    var v := ExpandRoi(m)[i][j];
    assert v == SeqMax(win);
    forall a, b | 0 <= a < |m| && 0 <= b < Cols(m) && Near(i, a) && Near(j, b)
      ensures m[a][b] <= v
    {
      NeighbourInWindow(m, i, j, a, b);
    }
    var k :| 0 <= k < 9 && v == win[k];
    WindowCellIsNeighbour(m, i, j, k);
  }
}
