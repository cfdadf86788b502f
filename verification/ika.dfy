/** The entity record of `ika.py`: one tracked marker, its name-label snapshot,
    its miss counter, its search window and its overlay colour. The search
    window `IkaRoi` and its lemmas describe the mask itself; the re-localisation
    of `update_ika` takes the outcome of the masked search as an input, so they
    are documentation of `get_roi` and not premises of `View.Relocalise`. */
module Ika {
  import opened Geometry
  import opened Images

  /** One tracked marker. `nameCoord` is `(name_x, name_y)`; the overlay client,
      the file path and the line thickness are not modelled. */
  datatype Ika = Ika(name: string, triangle: Coord, trackerImg: Image, nameImg: Image, nameCoord: Coord, missing: nat)

  /** Rows between the bottom of the name label and the top of the triangle's box. */
  const NameGap := 7

  /** The name-label window inside a tracker image: rows [NameTop, NameBottom),
      columns [NameLeft, NameRight). */
  function NameTop(s: Size): int { Tracker(s).h - Triangle(s).h - Name(s).h - NameGap }
  function NameBottom(s: Size): int { Tracker(s).h - Triangle(s).h - NameGap }
  function NameLeft(s: Size): nat { Tracker(s).w / 4 }
  function NameRight(s: Size): nat { Tracker(s).w / 4 * 3 }

  /** `get_name_img`: a Python slice of the tracker image. */
  function NameImg(s: Size, tracker: Image): (r: Image)
    ensures |r| <= |tracker|
    ensures 0 <= NameTop(s) && NameBottom(s) <= |tracker| ==> |r| == Name(s).h
  {
    Crop(tracker, NameTop(s), NameBottom(s), NameLeft(s), NameRight(s))
  }

  /** On a full-size tracker image whose label window starts inside it, the name
      image is exactly `name.h` rows by `2 * (tracker.w / 4)` columns of it. */
  lemma NameImgWindow(s: Size, tracker: Image)
    requires IsGrid(tracker, Tracker(s).h, Tracker(s).w)
    requires 0 <= NameTop(s)
    ensures IsGrid(NameImg(s, tracker), Name(s).h, 2 * NameLeft(s))
    ensures forall i, j :: 0 <= i < Name(s).h && 0 <= j < 2 * NameLeft(s) ==>
              NameImg(s, tracker)[i][j] == tracker[NameTop(s) + i][NameLeft(s) + j]
  {
    CropInside(tracker, Tracker(s).h, Tracker(s).w, NameTop(s), NameBottom(s), NameLeft(s), NameRight(s));
  }

  /** At 1080x1920 the label is rows 63..91 and columns 32..96 of the 110x130 tracker image. */
  lemma ReferenceNameWindow()
    ensures NameTop(Size(RefHeight, RefWidth)) == 63 && NameBottom(Size(RefHeight, RefWidth)) == 91
    ensures NameLeft(Size(RefHeight, RefWidth)) == 32 && NameRight(Size(RefHeight, RefWidth)) == 96
  {
  }

  /** `Ika.__init__`: the label snapshot is cut from the tracker image, the label
      corner is derived from the triangle, and the miss counter starts at 0. */
  function NewIka(s: Size, name: string, triangle: Coord, trackerImg: Image): (r: Ika)
    requires InBounds(s, triangle)
    ensures r.missing == 0
    ensures r.name == name && r.triangle == triangle && r.trackerImg == trackerImg
    ensures r.nameImg == NameImg(s, trackerImg)
    ensures r.nameCoord.x <= triangle.x && r.nameCoord.y <= triangle.y
    ensures r.nameCoord == TriangleToName(s, triangle)
    ensures InBounds(s, r.nameCoord) ==> NameToTriangle(s, r.nameCoord) == triangle
  {
    Ika(name, triangle, trackerImg, NameImg(s, trackerImg), TriangleToName(s, triangle), 0)
  }

  /** `get_roi(expand=expand)`: a capture-sized 0/1 mask that is 1 exactly on the
      tracker box scaled by `expand` and centred on the triangle, clipped to the capture.
      Resizing it to the game capture is the identity, both being height x width. */
  function IkaRoi(s: Size, ika: Ika, expand: int): (r: Mask)
    ensures IsGrid(r, s.height, s.width)
    ensures forall i, j :: 0 <= i < s.height && 0 <= j < s.width ==>
              var w, h := Tracker(s).w * expand, Tracker(s).h * expand;
              (r[i][j] == 1 <==> ika.triangle.x - w / 2 <= j < ika.triangle.x - w / 2 + w
                                 && ika.triangle.y - h / 2 <= i < ika.triangle.y - h / 2 + h)
              && (r[i][j] == 0 || r[i][j] == 1)
  {
    var h := Tracker(s).h * expand;
    var w := Tracker(s).w * expand;
    FillRect(s.height, s.width, ika.triangle.x - w / 2, ika.triangle.y - h / 2, w, h)
  }

  /** The search window covers the marker's own pixel whenever the box is not empty. */
  lemma RoiCoversAnchor(s: Size, ika: Ika)
    requires 0 <= ika.triangle.x < s.width && 0 <= ika.triangle.y < s.height
    requires 0 < Tracker(s).w && 0 < Tracker(s).h
    ensures IkaRoi(s, ika, 1)[ika.triangle.y][ika.triangle.x] == 1
  {
  }

  /** Python's `True` as an integer factor. */
  function AsInt(b: bool): int { if b then 1 else 0 }

  /** `expand=True` multiplies the box by one. */
  lemma ExpandTrueIsOne(s: Size, ika: Ika)
    ensures IkaRoi(s, ika, AsInt(true)) == IkaRoi(s, ika, 1)
  {
  }

  /** A colour in OpenCV's (blue, green, red, alpha) order. */
  datatype Bgra = Bgra(b: int, g: int, r: int, a: int)

  const Green := Bgra(0, 255, 0, 255)
  const Yellow := Bgra(0, 255, 255, 255)
  const Red := Bgra(0, 0, 255, 255)
  const Black := Bgra(0, 0, 0, 255)

  /** `get_color`: total in the miss count, always opaque. */
  function GetColor(missing: int): (c: Bgra)
    ensures c.a == 255
    ensures c == Green <==> missing == 0
    ensures c == Yellow <==> missing == 1
    ensures c == Red <==> missing == 2
    ensures c == Black <==> (missing < 0 || 2 < missing)
  {
    if missing == 0 then Green
    else if missing == 1 then Yellow
    else if missing == 2 then Red
    else Black
  }

  /** `set_coord`: only the triangle moves; the images, the label corner and the
      miss counter keep their values. */
  function SetCoord(ika: Ika, x: int, y: int): (r: Ika)
    ensures r.triangle == Coord(x, y)
    ensures r.name == ika.name && r.trackerImg == ika.trackerImg && r.nameImg == ika.nameImg
    ensures r.nameCoord == ika.nameCoord && r.missing == ika.missing
  {
    ika.(triangle := Coord(x, y))
  }

  /** `update`: `set_coord`, then the overlay is redrawn (not modelled). */
  function Update(ika: Ika, x: int, y: int): (r: Ika)
    ensures r.triangle == Coord(x, y)
    ensures r.name == ika.name && r.trackerImg == ika.trackerImg && r.nameImg == ika.nameImg
    ensures r.nameCoord == ika.nameCoord && r.missing == ika.missing
  {
    SetCoord(ika, x, y)
  }

  /** Updating a record to its own triangle leaves it unchanged. */
  lemma UpdateInPlace(ika: Ika)
    ensures Update(ika, ika.triangle.x, ika.triangle.y) == ika
  {
  }
}
