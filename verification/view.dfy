/** The tracking steps of `view.py`: template search over given similarity maps,
    the duplicate check, the three-way re-localisation of one entity, insertion
    and deletion in the tracked map, detection of new entities and the choice of
    capture output. */
module View {
  import opened Wrappers
  import opened Geometry
  import opened Images
  import opened Ika

  /** Threshold for a first detection inside a drawn region. */
  const DetectThreshold: real := 0.5

  /** Threshold for re-finding the label and the triangle near the last position. */
  const TrackThreshold: real := 0.9

  /** A candidate duplicates a tracked entity above this similarity (strictly). */
  const DuplicateThreshold: real := 0.9

  /** A similarity map as `cv2.matchTemplate` returns it: row-major scores. */
  type Scores = seq<seq<real>>

  /** The tracked entities, keyed by name (`OBSView.ika`). */
  type Tracked = map<string, Ika>

  /** Every entry is stored under its own name. */
  predicate Keyed(t: Tracked)
  {
    forall k :: k in t ==> t[k].name == k
  }

  /** Every map is `h` rows of `w` scores, as `np.stack` needs. */
  predicate SameShape(maps: seq<Scores>, h: nat, w: nat)
  {
    forall k :: 0 <= k < |maps| ==> |maps[k]| == h && forall i :: 0 <= i < h ==> |maps[k][i]| == w
  }

  /** `np.stack(maps).max(axis=0)`: the cellwise maximum over the templates' maps. */
  function ElementwiseMax(maps: seq<Scores>, h: nat, w: nat): (r: Scores)
    requires |maps| > 0 && SameShape(maps, h, w)
    ensures IsGrid(r, h, w)
    ensures forall k, i, j :: 0 <= k < |maps| && 0 <= i < h && 0 <= j < w ==> maps[k][i][j] <= r[i][j]
    ensures forall i, j :: 0 <= i < h && 0 <= j < w ==> exists k :: 0 <= k < |maps| && r[i][j] == maps[k][i][j]
    decreases |maps|
  {
    if |maps| == 1 then maps[0]
    else
      var rest := ElementwiseMax(maps[1..], h, w);
      assert forall k :: 1 <= k < |maps| ==> maps[k] == maps[1..][k - 1];
      assert IsGrid(maps[0], h, w);
      seq(h, i requires 0 <= i < h =>
        seq(w, j requires 0 <= j < w => if maps[0][i][j] >= rest[i][j] then maps[0][i][j] else rest[i][j]))
  }

  /** The maximum over one template is that template's own map. */
  lemma ElementwiseMaxOfOne(m: Scores, h: nat, w: nat)
    requires IsGrid(m, h, w)
    ensures ElementwiseMax([m], h, w) == m
  {
  }

  /** `cv2.minMaxLoc`'s maximum: the best score and a location (column, row) holding it. */
  method MaxLoc(m: Scores, h: nat, w: nat) returns (best: real, loc: Coord)
    requires 0 < h && 0 < w && IsGrid(m, h, w)
    ensures 0 <= loc.y < h && 0 <= loc.x < w && best == m[loc.y][loc.x]
    ensures forall i, j :: 0 <= i < h && 0 <= j < w ==> m[i][j] <= best
  {
    best, loc := m[0][0], Coord(0, 0);
    var i := 0;
    while i < h
      invariant 0 <= i <= h
      invariant 0 <= loc.y < h && 0 <= loc.x < w && best == m[loc.y][loc.x]
      invariant forall a, b :: 0 <= a < i && 0 <= b < w ==> m[a][b] <= best
    {
      var j := 0;
      while j < w
        invariant 0 <= j <= w
        invariant 0 <= loc.y < h && 0 <= loc.x < w && best == m[loc.y][loc.x]
        invariant forall a, b :: 0 <= a < i && 0 <= b < w ==> m[a][b] <= best
        invariant forall b :: 0 <= b < j ==> m[i][b] <= best
      {
        if m[i][j] > best {
          best, loc := m[i][j], Coord(j, i);
        }
        j := j + 1;
      }
      i := i + 1;
    }
  }

  /** `search_ika` with a single template: not found exactly when every score is
      below the threshold (a score equal to it counts as found); otherwise the
      location of a best score. */
  method SearchOne(m: Scores, h: nat, w: nat, thresh: real) returns (r: Option<Coord>)
    requires 0 < h && 0 < w && IsGrid(m, h, w)
    ensures r.None? <==> forall i, j :: 0 <= i < h && 0 <= j < w ==> m[i][j] < thresh
    ensures r.Some? ==> 0 <= r.value.y < h && 0 <= r.value.x < w && thresh <= m[r.value.y][r.value.x]
    ensures r.Some? ==> forall i, j :: 0 <= i < h && 0 <= j < w ==> m[i][j] <= m[r.value.y][r.value.x]
  {
    var best, loc := MaxLoc(m, h, w);
    if best < thresh {
      return None;
    }
    return Some(loc);
  }

  /** `search_ika` with a list of templates: the same test on the cellwise maximum
      of their maps, so it fails exactly when every template scores below the
      threshold everywhere. */
  method SearchBest(maps: seq<Scores>, h: nat, w: nat, thresh: real) returns (r: Option<Coord>)
    requires 0 < h && 0 < w && |maps| > 0 && SameShape(maps, h, w)
    ensures r.None? <==> forall k, i, j :: 0 <= k < |maps| && 0 <= i < h && 0 <= j < w ==> maps[k][i][j] < thresh
    ensures r.Some? ==> 0 <= r.value.y < h && 0 <= r.value.x < w
    ensures r.Some? ==> exists k :: 0 <= k < |maps| && thresh <= maps[k][r.value.y][r.value.x]
                                    && forall k', i, j :: 0 <= k' < |maps| && 0 <= i < h && 0 <= j < w ==>
                                         maps[k'][i][j] <= maps[k][r.value.y][r.value.x]
  {
    var found := ElementwiseMax(maps, h, w);
    r := SearchOne(found, h, w, thresh);
    if r.None? {
      forall k, i, j | 0 <= k < |maps| && 0 <= i < h && 0 <= j < w
        ensures maps[k][i][j] < thresh
      {
        assert maps[k][i][j] <= found[i][j];
      }
    } else {
      var y, x := r.value.y, r.value.x;
      var k :| 0 <= k < |maps| && found[y][x] == maps[k][y][x];
      forall k', i, j | 0 <= k' < |maps| && 0 <= i < h && 0 <= j < w
        ensures maps[k'][i][j] <= maps[k][y][x]
      {
        assert maps[k'][i][j] <= found[i][j] <= found[y][x];
      }
      assert thresh <= maps[k][y][x];
    }
  }

  /** `get_marked_ika`'s search inside one drawn region: the triangle templates at
      the detection threshold. */
  method DetectInRegion(maps: seq<Scores>, h: nat, w: nat) returns (hit: Option<Coord>)
    requires 0 < h && 0 < w && |maps| > 0 && SameShape(maps, h, w)
    ensures hit.None? <==> forall k, i, j :: 0 <= k < |maps| && 0 <= i < h && 0 <= j < w ==> maps[k][i][j] < DetectThreshold
    ensures hit.Some? ==> 0 <= hit.value.y < h && 0 <= hit.value.x < w
    ensures hit.Some? ==> exists k :: 0 <= k < |maps| && DetectThreshold <= maps[k][hit.value.y][hit.value.x]
                                      && forall k', i, j :: 0 <= k' < |maps| && 0 <= i < h && 0 <= j < w ==>
                                           maps[k'][i][j] <= maps[k][hit.value.y][hit.value.x]
  {
    hit := SearchBest(maps, h, w, DetectThreshold);
  }

  /** `update_ika`'s two searches in the entity's window, both at the tracking
      threshold: the label snapshot first, and the triangle templates only when
      the label was found. */
  method ObserveEntity(labelScores: Scores, lh: nat, lw: nat, triangles: seq<Scores>, th: nat, tw: nat, game: Image)
    returns (o: Observation)
    requires 0 < lh && 0 < lw && IsGrid(labelScores, lh, lw)
    requires 0 < th && 0 < tw && |triangles| > 0 && SameShape(triangles, th, tw)
    ensures o.game == game
    ensures o.nameFound <==> exists i, j :: 0 <= i < lh && 0 <= j < lw && TrackThreshold <= labelScores[i][j]
    ensures o.triangle.None? <==>
              !o.nameFound || forall k, i, j :: 0 <= k < |triangles| && 0 <= i < th && 0 <= j < tw ==> triangles[k][i][j] < TrackThreshold
    ensures o.triangle.Some? ==> 0 <= o.triangle.value.y < th && 0 <= o.triangle.value.x < tw
    ensures o.triangle.Some? ==>
              exists k :: 0 <= k < |triangles| && TrackThreshold <= triangles[k][o.triangle.value.y][o.triangle.value.x]
                          && forall k', i, j :: 0 <= k' < |triangles| && 0 <= i < th && 0 <= j < tw ==>
                               triangles[k'][i][j] <= triangles[k][o.triangle.value.y][o.triangle.value.x]
  {
    var name := SearchOne(labelScores, lh, lw, TrackThreshold);
    if name.None? {
      return Observation(false, None, game);
    }
    var triangle := SearchBest(triangles, th, tw, TrackThreshold);
    return Observation(true, triangle, game);
  }

  /** `cand` is already tracked: some tracked entity's tracker image contains the
      candidate's name image with a similarity strictly above 0.9. `sim` stands
      for `minMaxLoc(matchTemplate(haystack, needle))`'s maximum. */
  predicate Duplicate(t: Tracked, cand: Ika, sim: (Image, Image) -> real)
  {
    exists k :: k in t && sim(t[k].trackerImg, cand.nameImg) > DuplicateThreshold
  }

  /** `is_tracking`: the loop over the tracked entities, returning at the first match. */
  method IsTracking(t: Tracked, cand: Ika, sim: (Image, Image) -> real) returns (found: bool)
    ensures found <==> Duplicate(t, cand, sim)
    ensures t == map[] ==> !found
  {
    var rest := t.Keys;
    while rest != {}
      invariant rest <= t.Keys
      invariant forall k :: k in t && k !in rest ==> sim(t[k].trackerImg, cand.nameImg) <= DuplicateThreshold
      decreases rest
    {
      var k :| k in rest;
      if sim(t[k].trackerImg, cand.nameImg) > DuplicateThreshold {
        return true;
      }
      rest := rest - {k};
    }
    return false;
  }

  /** `start_tracking`: insert under the entity's own name. */
  function StartTracking(t: Tracked, ika: Ika): (r: Tracked)
    ensures r.Keys == t.Keys + {ika.name}
    ensures r[ika.name] == ika
    ensures forall k :: k in t && k != ika.name ==> r[k] == t[k]
    ensures Keyed(t) ==> Keyed(r)
  {
    t[ika.name := ika]
  }

  /** The exception `stop_tracking` raises for a name that is not tracked. */
  datatype ViewError = MissingKey(key: string)

  /** `stop_tracking`: delete exactly the entity's own key, or fail with `KeyError`. */
  function StopTracking(t: Tracked, ika: Ika): (r: Result<Tracked, ViewError>)
    ensures r.Ok? <==> ika.name in t
    ensures r.Ok? ==> r.value.Keys == t.Keys - {ika.name}
    ensures r.Ok? ==> forall k :: k in r.value ==> r.value[k] == t[k]
    ensures r.Err? ==> r.error == MissingKey(ika.name)
  {
    if ika.name in t then Ok(t - {ika.name}) else Err(MissingKey(ika.name))
  }

  /** What one `update_ika` call sees in its own capture: whether the name image
      was found (at 0.9), where the triangle was found (at 0.9) if at all, and the
      capture itself. */
  datatype Observation = Observation(nameFound: bool, triangle: Option<Coord>, game: Image)

  /** A search location lies inside the capture, as `minMaxLoc` guarantees. */
  predicate Locatable(s: Size, o: Observation)
  {
    o.triangle.Some? ==> InBounds(s, o.triangle.value)
  }

  /** `game[tracker.y : tracker.y + tracker.h, tracker.x : tracker.x + tracker.w]`. */
  function TrackerCrop(s: Size, game: Image, c: Coord): (r: Image)
    requires InBounds(s, c)
    ensures |r| <= |game|
  {
    var corner := TriangleToTracker(s, c);
    Crop(game, corner.y, corner.y + Tracker(s).h, corner.x, corner.x + Tracker(s).w)
  }

  /** When the tracker box lies inside the capture the crop is exactly that box. */
  lemma TrackerCropInside(s: Size, game: Image, c: Coord)
    requires InBounds(s, c) && IsGrid(game, s.height, s.width)
    requires var corner := TriangleToTracker(s, c);
             0 <= corner.x && corner.x + Tracker(s).w <= s.width && 0 <= corner.y && corner.y + Tracker(s).h <= s.height
    ensures IsGrid(TrackerCrop(s, game, c), Tracker(s).h, Tracker(s).w)
  {
    var corner := TriangleToTracker(s, c);
    CropInside(game, s.height, s.width, corner.y, corner.y + Tracker(s).h, corner.x, corner.x + Tracker(s).w);
  }

  /** Near the top edge the negative slice start wraps to the other end of the
      capture and the crop comes out empty rather than clipped. */
  lemma TrackerCropEmptyNearTop(game: Image, x: int)
    requires |game| == 1080 && 0 <= x <= 1920
    ensures TrackerCrop(Size(1080, 1920), game, Coord(x, 50)) == []
  {
  }

  /** The entity-level effect of `update_ika`: untouched when the label is not
      found, one more miss when the label is found but the triangle is not, and a
      fresh record with the new triangle and a re-cut snapshot on a hit. */
  function Relocalise(s: Size, ika: Ika, o: Observation): (r: Ika)
    requires Locatable(s, o)
    ensures r.name == ika.name
    ensures !o.nameFound ==> r == ika
    ensures o.nameFound && o.triangle.None? ==> r == ika.(missing := ika.missing + 1)
    ensures o.nameFound && o.triangle.Some? ==>
              && r.missing == 0
              && r.triangle == o.triangle.value
              && r.trackerImg == TrackerCrop(s, o.game, o.triangle.value)
              && r.nameImg == NameImg(s, r.trackerImg)
              && r.nameCoord == TriangleToName(s, r.triangle)
              && r.nameCoord.x <= r.triangle.x && r.nameCoord.y <= r.triangle.y
  {
    if !o.nameFound then ika
    else match o.triangle
      case None => ika.(missing := ika.missing + 1)
      case Some(c) => NewIka(s, ika.name, c, TrackerCrop(s, o.game, c))
  }

  /** `update_ika` on the tracked map: only the entity's own entry changes. */
  function UpdateIka(s: Size, t: Tracked, name: string, o: Observation): (r: Tracked)
    requires name in t && Locatable(s, o)
    ensures r.Keys == t.Keys
    ensures r[name] == Relocalise(s, t[name], o)
    ensures forall k :: k in t && k != name ==> r[k] == t[k]
    ensures Keyed(t) ==> Keyed(r)
  {
    t[name := Relocalise(s, t[name], o)]
  }

  /** `update_tracking`: `update_ika`, then `update` of the stored record to its
      own triangle, which changes nothing further. */
  function UpdateTracking(s: Size, t: Tracked, name: string, o: Observation): (r: Tracked)
    requires name in t && Locatable(s, o)
    ensures r == UpdateIka(s, t, name, o)
  {
    var t' := UpdateIka(s, t, name, o);
    UpdateInPlace(t'[name]);
    t'[name := Update(t'[name], t'[name].triangle.x, t'[name].triangle.y)]
  }

  /** Number of regions in which a triangle was found. */
  function Hits(hits: seq<Option<Coord>>): (n: nat)
    ensures n <= |hits|
  {
    if |hits| == 0 then 0 else Hits(hits[..|hits| - 1]) + (if hits[|hits| - 1].Some? then 1 else 0)
  }

  /** The indices of the regions in which a triangle was found, in region order. */
  function HitPositions(hits: seq<Option<Coord>>): (p: seq<nat>)
    ensures |p| == Hits(hits)
    ensures forall k :: 0 <= k < |p| ==> p[k] < |hits| && hits[p[k]].Some?
    ensures forall k, l :: 0 <= k < l < |p| ==> p[k] < p[l]
    ensures forall i :: 0 <= i < |hits| && hits[i].Some? ==> i in p
  {
    if |hits| == 0 then []
    else
      var n := |hits| - 1;
      assert forall i :: 0 <= i < n ==> hits[..n][i] == hits[i];
      HitPositions(hits[..n]) + (if hits[n].Some? then [n] else [])
  }

  /** What `get_marked_ika` returns: one fresh record per region whose search (at
      0.5) found a triangle, in region order, named by that region's generated
      name, with its tracker image cut from the capture at the hit. */
  function MarkedIka(s: Size, hits: seq<Option<Coord>>, names: seq<string>, game: Image): (r: seq<Ika>)
    requires |names| == |hits|
    requires forall i :: 0 <= i < |hits| && hits[i].Some? ==> InBounds(s, hits[i].value)
    ensures |r| == Hits(hits)
    ensures forall k :: 0 <= k < |r| ==>
              && r[k].missing == 0
              && InBounds(s, r[k].triangle)
              && r[k].trackerImg == TrackerCrop(s, game, r[k].triangle)
              && r[k].nameImg == NameImg(s, r[k].trackerImg)
              && r[k].nameCoord == TriangleToName(s, r[k].triangle)
              && var i := HitPositions(hits)[k];
                 hits[i] == Some(r[k].triangle) && names[i] == r[k].name
  {
    Build(s, hits, names, game, HitPositions(hits))
  }

  /** The fresh records of the regions at positions `p`, in the order of `p`. */
  function Build(s: Size, hits: seq<Option<Coord>>, names: seq<string>, game: Image, p: seq<nat>): seq<Ika>
    requires |names| == |hits|
    requires forall k :: 0 <= k < |p| ==> p[k] < |hits| && hits[p[k]].Some? && InBounds(s, hits[p[k]].value)
  {
    seq(|p|, k requires 0 <= k < |p| => NewIka(s, names[p[k]], hits[p[k]].value, TrackerCrop(s, game, hits[p[k]].value)))
  }

  /** Looking at one more region adds its index at the end when it is a hit. */
  lemma HitPositionsSnoc(hits: seq<Option<Coord>>, i: nat)
    requires i < |hits|
    ensures HitPositions(hits[..i + 1]) == HitPositions(hits[..i]) + if hits[i].Some? then [i] else []
  {
    assert hits[..i + 1][..i] == hits[..i];
  }

  /** A record appended to the positions is appended to the records. */
  lemma BuildSnoc(s: Size, hits: seq<Option<Coord>>, names: seq<string>, game: Image, p: seq<nat>, i: nat)
    requires |names| == |hits| && i < |hits| && hits[i].Some? && InBounds(s, hits[i].value)
    requires forall k :: 0 <= k < |p| ==> p[k] < |hits| && hits[p[k]].Some? && InBounds(s, hits[p[k]].value)
    ensures Build(s, hits, names, game, p + [i]) ==
              Build(s, hits, names, game, p) + [NewIka(s, names[i], hits[i].value, TrackerCrop(s, game, hits[i].value))]
  {
    var q := p + [i];
    assert forall k :: 0 <= k < |p| ==> q[k] == p[k];
  }

  /** The hit positions among the first `i` regions, as positions in all regions. */
  lemma HitPositionsPrefix(s: Size, hits: seq<Option<Coord>>, i: nat)
    requires i <= |hits|
    requires forall j :: 0 <= j < |hits| && hits[j].Some? ==> InBounds(s, hits[j].value)
    ensures forall k :: 0 <= k < |HitPositions(hits[..i])| ==>
              var j := HitPositions(hits[..i])[k];
              j < |hits| && hits[j].Some? && InBounds(s, hits[j].value)
  {
    var p := HitPositions(hits[..i]);
    forall k | 0 <= k < |p|
      ensures p[k] < |hits| && hits[p[k]].Some? && InBounds(s, hits[p[k]].value)
    {
      assert hits[..i][p[k]] == hits[p[k]];
    }
  }

  /** `get_marked_ika`'s loop over the regions, appending a fresh record at each hit. */
  method GetMarkedIka(s: Size, hits: seq<Option<Coord>>, names: seq<string>, game: Image) returns (ikas: seq<Ika>)
    requires |names| == |hits|
    requires forall i :: 0 <= i < |hits| && hits[i].Some? ==> InBounds(s, hits[i].value)
    ensures ikas == MarkedIka(s, hits, names, game)
  {
    ikas := [];
    HitPositionsPrefix(s, hits, 0);
    for i := 0 to |hits|
      invariant forall k :: 0 <= k < |HitPositions(hits[..i])| ==>
                  var j := HitPositions(hits[..i])[k];
                  j < |hits| && hits[j].Some? && InBounds(s, hits[j].value)
      invariant ikas == Build(s, hits, names, game, HitPositions(hits[..i]))
    {
      HitPositionsSnoc(hits, i);
      HitPositionsPrefix(s, hits, i + 1);
      match hits[i] {
        case None =>
        case Some(c) =>
          BuildSnoc(s, hits, names, game, HitPositions(hits[..i]), i);
          ikas := ikas + [NewIka(s, names[i], c, TrackerCrop(s, game, c))];
      }
    }
    assert hits[..|hits|] == hits;
  }

  /** One capture output as the compositor lists it. */
  datatype Output = Output(outputName: string, outputWidth: int, outputHeight: int)

  /** The exception `load_settings` raises when no output qualifies. */
  datatype SettingsError = NoOutput

  /** Python truthiness of the optional output name (`False` or `""` are false). */
  predicate Named(name: Option<string>)
  {
    name.Some? && name.value != ""
  }

  /** The output `load_settings` accepts: the named one, or without a name the first with positive width. */
  predicate Accepts(name: Option<string>, o: Output)
  {
    if Named(name) then o.outputName == name.value else o.outputWidth > 0
  }

  /** `load_settings`: the (width, height) of the first accepted output, or `ValueError`. */
  method LoadSettings(outputs: seq<Output>, name: Option<string>) returns (r: Result<(int, int), SettingsError>)
    ensures r.Err? <==> forall i :: 0 <= i < |outputs| ==> !Accepts(name, outputs[i])
    ensures r.Ok? ==> exists i :: 0 <= i < |outputs| && Accepts(name, outputs[i])
                        && r.value == (outputs[i].outputWidth, outputs[i].outputHeight)
                        && forall j :: 0 <= j < i ==> !Accepts(name, outputs[j])
  {
    var i := 0;
    while i < |outputs|
      invariant 0 <= i <= |outputs|
      invariant forall j :: 0 <= j < i ==> !Accepts(name, outputs[j])
    {
      var o := outputs[i];
      if Named(name) && o.outputName == name.value {
        return Ok((o.outputWidth, o.outputHeight));
      } else if !Named(name) {
        if o.outputWidth > 0 {
          return Ok((o.outputWidth, o.outputHeight));
        }
      }
      i := i + 1;
    }
    return Err(NoOutput);
  }
}
