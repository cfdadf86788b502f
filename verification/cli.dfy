/** The poll cycle of `cli.py`'s `main`, as a step function on the tracked map:
    when the board changed, detect, admit non-duplicates and drop the entities
    that missed too often; then re-localise every tracked entity. A board
    capture without a background ends the loop. */
module Cli {
  import opened Wrappers
  import opened Geometry
  import opened Images
  import opened Ika
  import opened View
  import Board

  /** The default of `--missed`. */
  const DefaultMissed := 3

  /** What one poll cycle sees:
      - the board capture `board_is_updated()` passes to `get_roi`, with the
        chroma estimate of that capture's histogram;
      - whether `board_is_updated()` held (the region-list comparison is an input);
      - the board capture of `get_marked_ika`'s own `get_roi`, with its estimate;
      - the detection result of each drawn region with the name generated for it,
        and the capture used for detection;
      - what each entity's own `update_ika` capture shows. */
  datatype Cycle = Cycle(checkShot: Image, checkEstimate: Rgb, boardUpdated: bool,
                         markShot: Image, markEstimate: Rgb,
                         hits: seq<Option<Coord>>, names: seq<string>, game: Image,
                         observe: string -> Observation)

  /** Board captures are rectangular, search locations lie inside the game
      capture and each region has a name. */
  ghost predicate Sound(s: Size, c: Cycle)
  {
    && Rect(c.checkShot) && Rect(c.markShot)
    && |c.names| == |c.hits|
    && (forall i :: 0 <= i < |c.hits| && c.hits[i].Some? ==> InBounds(s, c.hits[i].value))
    && forall k :: Locatable(s, c.observe(k))
  }

  /** The records `get_marked_ika` builds in this cycle. */
  function Candidates(s: Size, c: Cycle): seq<Ika>
    requires Sound(s, c)
  {
    MarkedIka(s, c.hits, c.names, c.game)
  }

  /** The names of the first `m` candidates. */
  function NamesBefore(cands: seq<Ika>, m: nat): set<string>
    requires m <= |cands|
  {
    set j | 0 <= j < m :: cands[j].name
  }

  /** The admission loop after its first `m` turns: each candidate in turn is
      started unless `is_tracking` finds it among the entities tracked at that
      moment. Starting is `StartTracking`'s insertion under the candidate's name,
      written out here (`AdmitTurnStarts`) to keep the unfoldings small. */
  function AdmitFirst(t: Tracked, cands: seq<Ika>, m: nat, sim: (Image, Image) -> real): (r: Tracked)
    requires m <= |cands|
    ensures t.Keys <= r.Keys
  {
    if m == 0 then t
    else
      var prev := AdmitFirst(t, cands, m - 1, sim);
      if Duplicate(prev, cands[m - 1], sim) then prev else prev[cands[m - 1].name := cands[m - 1]]
  }

  /** Each turn of the admission loop is `StartTracking` of the candidate unless it
      duplicates an entity tracked at that moment. */
  lemma AdmitTurnStarts(t: Tracked, cands: seq<Ika>, m: nat, sim: (Image, Image) -> real)
    requires 0 < m <= |cands|
    ensures var prev := AdmitFirst(t, cands, m - 1, sim);
            AdmitFirst(t, cands, m, sim) == if Duplicate(prev, cands[m - 1], sim) then prev else StartTracking(prev, cands[m - 1])
  {
  }

  /** The whole admission loop over this cycle's candidates. */
  function Admit(t: Tracked, cands: seq<Ika>, sim: (Image, Image) -> real): (r: Tracked)
  {
    AdmitFirst(t, cands, |cands|, sim)
  }

  /** Randomly generated names are distinct from each other and from the tracked ones. */
  predicate FreshNames(t: Tracked, cands: seq<Ika>)
  {
    && (forall i :: 0 <= i < |cands| ==> cands[i].name !in t)
    && forall i, j :: 0 <= i < j < |cands| ==> cands[i].name != cands[j].name
  }

  /** With fresh names, admission never touches an entity that was already tracked. */
  lemma {:induction false} AdmitKeepsTracked(t: Tracked, cands: seq<Ika>, m: nat, sim: (Image, Image) -> real)
    requires FreshNames(t, cands) && m <= |cands|
    ensures forall k :: k in t ==> AdmitFirst(t, cands, m, sim)[k] == t[k]
  {
    if m > 0 {
      AdmitKeepsTracked(t, cands, m - 1, sim);
    }
  }

  /** With fresh names, candidate `i` is tracked after any later turn exactly when
      it duplicated nothing tracked when its own turn came, and then it is stored
      as it was built. */
  lemma AdmittedIffNotDuplicate(t: Tracked, cands: seq<Ika>, sim: (Image, Image) -> real, i: nat, m: nat)
    requires FreshNames(t, cands) && i < m <= |cands|
    ensures cands[i].name in AdmitFirst(t, cands, m, sim) <==> !Duplicate(AdmitFirst(t, cands, i, sim), cands[i], sim)
    ensures cands[i].name in AdmitFirst(t, cands, m, sim) ==> AdmitFirst(t, cands, m, sim)[cands[i].name] == cands[i]
  {
    NotAmongNames(t, cands, i, sim, cands[i].name);
    AdmittedAfter(t, cands, sim, i, m);
  }

  /** The induction behind `AdmittedIffNotDuplicate`: once candidate `i` has had its
      turn, later turns by other names leave its entry alone. */
  lemma {:induction false} AdmittedAfter(t: Tracked, cands: seq<Ika>, sim: (Image, Image) -> real, i: nat, m: nat)
    requires i < m <= |cands| && cands[i].name !in AdmitFirst(t, cands, i, sim)
    requires forall j :: i < j < m ==> cands[j].name != cands[i].name
    ensures cands[i].name in AdmitFirst(t, cands, m, sim) <==> !Duplicate(AdmitFirst(t, cands, i, sim), cands[i], sim)
    ensures cands[i].name in AdmitFirst(t, cands, m, sim) ==> AdmitFirst(t, cands, m, sim)[cands[i].name] == cands[i]
  {
    if m == i + 1 {
      OwnTurn(t, cands, i, sim);
    } else {
      AdmittedAfter(t, cands, sim, i, m - 1);
      LaterTurn(t, cands, m, sim, cands[i].name);
    }
  }

  /** A candidate's own turn, when its name is not yet tracked: it is added exactly
      when it is not a duplicate, and then stored as built. */
  lemma OwnTurn(t: Tracked, cands: seq<Ika>, i: nat, sim: (Image, Image) -> real)
    requires i < |cands| && cands[i].name !in AdmitFirst(t, cands, i, sim)
    ensures cands[i].name in AdmitFirst(t, cands, i + 1, sim) <==> !Duplicate(AdmitFirst(t, cands, i, sim), cands[i], sim)
    ensures cands[i].name in AdmitFirst(t, cands, i + 1, sim) ==> AdmitFirst(t, cands, i + 1, sim)[cands[i].name] == cands[i]
  {
  }

  /** A turn leaves every name but the candidate's own as it was. */
  lemma LaterTurn(t: Tracked, cands: seq<Ika>, m: nat, sim: (Image, Image) -> real, name: string)
    requires 0 < m <= |cands| && cands[m - 1].name != name
    ensures name in AdmitFirst(t, cands, m, sim) <==> name in AdmitFirst(t, cands, m - 1, sim)
    ensures name in AdmitFirst(t, cands, m - 1, sim) ==> AdmitFirst(t, cands, m, sim)[name] == AdmitFirst(t, cands, m - 1, sim)[name]
  {
  }

  /** Admission keeps every entry under its own name. */
  lemma {:induction false} AdmitKeyed(t: Tracked, cands: seq<Ika>, m: nat, sim: (Image, Image) -> real)
    requires m <= |cands|
    ensures Keyed(t) ==> Keyed(AdmitFirst(t, cands, m, sim))
  {
    if m > 0 {
      AdmitKeyed(t, cands, m - 1, sim);
    }
  }

  /** Admission adds no name but the candidates'. */
  lemma {:induction false} AdmitOnlyCandidates(t: Tracked, cands: seq<Ika>, m: nat, sim: (Image, Image) -> real)
    requires m <= |cands|
    ensures AdmitFirst(t, cands, m, sim).Keys <= t.Keys + NamesBefore(cands, m)
  {
    if m > 0 {
      AdmitOnlyCandidates(t, cands, m - 1, sim);
      assert NamesBefore(cands, m) == NamesBefore(cands, m - 1) + {cands[m - 1].name};
    }
  }

  /** A name carried by none of the first `m` candidates and not tracked is not
      added by their turns. */
  lemma {:induction false} NotAmongNames(t: Tracked, cands: seq<Ika>, m: nat, sim: (Image, Image) -> real, name: string)
    requires m <= |cands| && name !in t && forall j :: 0 <= j < m ==> cands[j].name != name
    ensures name !in AdmitFirst(t, cands, m, sim)
  {
    if m > 0 {
      NotAmongNames(t, cands, m - 1, sim, name);
    }
  }

  /** `main`'s removal step as a filter: keep exactly the entities whose miss
      count is below `missed`. The count grows in each search that sees the name
      label but not the triangle, survives searches that miss the label, and is
      reset only when the triangle is found again. */
  function RemoveMissing(t: Tracked, missed: int): (r: Tracked)
    ensures r.Keys == set k | k in t && t[k].missing < missed
    ensures forall k :: k in r ==> r[k] == t[k]
  {
    map k | k in t && t[k].missing < missed :: t[k]
  }

  /** The names, in iteration order, of the entities with `missing >= missed`. */
  function MissingKeys(t: Tracked, order: seq<string>, missed: int): (r: seq<string>)
    requires forall i :: 0 <= i < |order| ==> order[i] in t
    decreases |order|
  {
    if |order| == 0 then []
    else
      var n := |order| - 1;
      var prefix := MissingKeys(t, order[..n], missed);
      if t[order[n]].missing >= missed then prefix + [order[n]] else prefix
  }

  /** No name is listed twice. */
  predicate Distinct(s: seq<string>)
  {
    forall a, b :: 0 <= a < b < |s| ==> s[a] != s[b]
  }

  /** `MissingKeys` keeps exactly the listed names that missed too often, each once. */
  lemma {:induction false} MissingKeysFilter(t: Tracked, order: seq<string>, missed: int)
    requires forall i :: 0 <= i < |order| ==> order[i] in t
    requires Distinct(order)
    ensures forall x :: x in MissingKeys(t, order, missed) <==> x in order && t[x].missing >= missed
    ensures Distinct(MissingKeys(t, order, missed))
    decreases |order|
  {
    if |order| > 0 {
      var n := |order| - 1;
      var prefix := order[..n];
      MissingKeysFilter(t, prefix, missed);
      assert order == prefix + [order[n]];
      assert order[n] !in prefix;
      var rp := MissingKeys(t, prefix, missed);
      assert order[n] !in rp;
      if t[order[n]].missing >= missed {
        var r := rp + [order[n]];
        assert MissingKeys(t, order, missed) == r;
        forall a, b | 0 <= a < b < |r| ensures r[a] != r[b] {
          if b == |rp| { assert r[a] == rp[a] && rp[a] in rp; }
          else { assert r[a] == rp[a] && r[b] == rp[b]; }
        }
      }
    }
  }

  /** `to_stop`: the entities with `missing >= missed`, in the map's iteration order. */
  function Collect(t: Tracked, order: seq<string>, missed: int): (r: seq<Ika>)
    requires forall i :: 0 <= i < |order| ==> order[i] in t
    ensures |r| == |MissingKeys(t, order, missed)|
    ensures forall j :: 0 <= j < |r| ==>
              MissingKeys(t, order, missed)[j] in t && r[j] == t[MissingKeys(t, order, missed)[j]] && r[j].missing >= missed
  {
    var keys := MissingKeys(t, order, missed);
    MissingKeysIn(t, order, missed);
    seq(|keys|, j requires 0 <= j < |keys| => t[keys[j]])
  }

  lemma {:induction false} MissingKeysIn(t: Tracked, order: seq<string>, missed: int)
    requires forall i :: 0 <= i < |order| ==> order[i] in t
    ensures forall j :: 0 <= j < |MissingKeys(t, order, missed)| ==>
              MissingKeys(t, order, missed)[j] in t && t[MissingKeys(t, order, missed)[j]].missing >= missed
    decreases |order|
  {
    if |order| > 0 {
      MissingKeysIn(t, order[..|order| - 1], missed);
    }
  }

  /** The names of a sequence of records. */
  function NamesOf(s: seq<Ika>): set<string>
  {
    set j | 0 <= j < |s| :: s[j].name
  }

  /** The pop loop: stop the entries of `to_stop` from the last to the first. */
  function StopEach(t: Tracked, toStop: seq<Ika>): (r: Result<Tracked, ViewError>)
    ensures r.Ok? ==> r.value == t - NamesOf(toStop)
    ensures r.Err? ==> exists j :: 0 <= j < |toStop| && r.error == MissingKey(toStop[j].name)
    decreases |toStop|
  {
    if |toStop| == 0 then Ok(t)
    else
      match StopTracking(t, toStop[|toStop| - 1])
      case Err(e) => Err(e)
      case Ok(t') => StopEach(t', toStop[..|toStop| - 1])
  }

  /** Stopping distinctly named tracked entities, each once, never fails and
      removes exactly their names. */
  lemma {:induction false} StopEachRemoves(t: Tracked, toStop: seq<Ika>)
    requires forall j :: 0 <= j < |toStop| ==> toStop[j].name in t
    requires forall a, b :: 0 <= a < b < |toStop| ==> toStop[a].name != toStop[b].name
    ensures StopEach(t, toStop) == Ok(t - NamesOf(toStop))
    decreases |toStop|
  {
    if |toStop| > 0 {
      var n := |toStop| - 1;
      var rest := toStop[..n];
      var last := toStop[n].name;
      var t' := t - {last};
      assert StopTracking(t, toStop[n]) == Ok(t');
      forall j | 0 <= j < n
        ensures rest[j].name in t'
      {
        assert rest[j] == toStop[j];
      }
      assert StopEach(t, toStop) == StopEach(t', rest);
      StopEachRemoves(t', rest);
      assert NamesOf(toStop) == NamesOf(rest) + {last} by {
        forall x | x in NamesOf(toStop) ensures x in NamesOf(rest) + {last} {
          var j :| 0 <= j < |toStop| && toStop[j].name == x;
          if j < n { assert rest[j] == toStop[j]; }
        }
        forall x | x in NamesOf(rest) ensures x in NamesOf(toStop) {
          var j :| 0 <= j < n && rest[j].name == x;
          assert rest[j] == toStop[j];
        }
      }
      assert (t' - NamesOf(rest)).Keys == (t - NamesOf(toStop)).Keys;
      assert t' - NamesOf(rest) == t - NamesOf(toStop);
    } else {
      assert NamesOf(toStop) == {};
      assert t - NamesOf(toStop) == t;
    }
  }

  /** A duplicate-free listing of exactly the tracked names: a dict's iteration order. */
  predicate Enumerates(t: Tracked, order: seq<string>)
  {
    && (forall i :: 0 <= i < |order| ==> order[i] in t)
    && (forall k :: k in t ==> k in order)
    && Distinct(order)
  }

  /** The collect-then-pop removal of `main`, in whatever order the map is iterated,
      never hits a missing key and leaves exactly `RemoveMissing`. */
  lemma RemovalLoopIsFilter(t: Tracked, order: seq<string>, missed: int)
    requires Keyed(t) && Enumerates(t, order)
    ensures StopEach(t, Collect(t, order, missed)) == Ok(RemoveMissing(t, missed))
  {
    var toStop := Collect(t, order, missed);
    CollectedNames(t, order, missed);
    StopEachRemoves(t, toStop);
    assert t - NamesOf(toStop) == RemoveMissing(t, missed);
  }

  /** `to_stop` names, without repetition, exactly the entries of the map with
      `missing >= missed`. */
  lemma CollectedNames(t: Tracked, order: seq<string>, missed: int)
    requires Keyed(t) && Enumerates(t, order)
    ensures var toStop := Collect(t, order, missed);
            && (forall j :: 0 <= j < |toStop| ==> toStop[j].name in t)
            && (forall a, b :: 0 <= a < b < |toStop| ==> toStop[a].name != toStop[b].name)
            && NamesOf(toStop) == set k | k in t && t[k].missing >= missed
  {
    var keys := MissingKeys(t, order, missed);
    MissingKeysFilter(t, order, missed);
    MissingKeysIn(t, order, missed);
    var toStop := Collect(t, order, missed);
    assert forall j :: 0 <= j < |toStop| ==> toStop[j].name == keys[j];
    forall x | x in NamesOf(toStop) ensures x in t && t[x].missing >= missed {
      var j :| 0 <= j < |toStop| && toStop[j].name == x;
      assert keys[j] in keys;
    }
    forall x | x in t && t[x].missing >= missed ensures x in NamesOf(toStop) {
      assert x in keys;
      var j :| 0 <= j < |keys| && keys[j] == x;
      assert toStop[j].name == x;
    }
  }

  /** Every tracked entity re-localised against its own observation. */
  function UpdateAll(s: Size, t: Tracked, observe: string -> Observation): (r: Tracked)
    requires forall k :: Locatable(s, observe(k))
    ensures r.Keys == t.Keys
    ensures forall k :: k in t ==> r[k] == Relocalise(s, t[k], observe(k))
  {
    map k | k in t :: Relocalise(s, t[k], observe(k))
  }

  /** `for ika in ikas: view.update_tracking(ika)` over a given iteration order. */
  function UpdateInOrder(s: Size, t: Tracked, order: seq<string>, observe: string -> Observation): (r: Tracked)
    requires forall k :: Locatable(s, observe(k))
    requires forall i :: 0 <= i < |order| ==> order[i] in t
    ensures r.Keys == t.Keys
    decreases |order|
  {
    if |order| == 0 then t
    else
      var n := |order| - 1;
      var prev := UpdateInOrder(s, t, order[..n], observe);
      UpdateTracking(s, prev, order[n], observe(order[n]))
  }

  /** Each key visited by the loop is updated once from its value before the loop;
      the rest are untouched. */
  lemma {:induction false} UpdateInOrderVisitsOnce(s: Size, t: Tracked, order: seq<string>, observe: string -> Observation)
    requires forall k :: Locatable(s, observe(k))
    requires forall i :: 0 <= i < |order| ==> order[i] in t
    requires forall i, j :: 0 <= i < j < |order| ==> order[i] != order[j]
    ensures forall k :: k in t ==>
              UpdateInOrder(s, t, order, observe)[k] == if k in order then Relocalise(s, t[k], observe(k)) else t[k]
    decreases |order|
  {
    if |order| > 0 {
      var n := |order| - 1;
      var prefix := order[..n];
      UpdateInOrderVisitsOnce(s, t, prefix, observe);
      var prev := UpdateInOrder(s, t, prefix, observe);
      var last := order[n];
      assert last !in prefix;
      assert UpdateInOrder(s, t, order, observe) == UpdateIka(s, prev, last, observe(last));
      forall k | k in t
        ensures UpdateInOrder(s, t, order, observe)[k] == if k in order then Relocalise(s, t[k], observe(k)) else t[k]
      {
        if k != last {
          if k in order {
            var i :| 0 <= i < |order| && order[i] == k;
            assert prefix[i] == k;
          }
          assert k in order <==> k in prefix;
        }
      }
    }
  }

  /** The update loop over the live view of the map, in any iteration order, gives
      every tracked entity exactly one `update_tracking`. */
  lemma UpdateOrderIrrelevant(s: Size, t: Tracked, order: seq<string>, observe: string -> Observation)
    requires forall k :: Locatable(s, observe(k))
    requires Enumerates(t, order)
    ensures UpdateInOrder(s, t, order, observe) == UpdateAll(s, t, observe)
  {
    UpdateInOrderVisitsOnce(s, t, order, observe);
  }

  /** The tracked map after the detection part of a cycle. */
  function Detect(s: Size, t: Tracked, c: Cycle, missed: int, sim: (Image, Image) -> real): Tracked
    requires Sound(s, c)
  {
    if c.boardUpdated then RemoveMissing(Admit(t, Candidates(s, c), sim), missed) else t
  }

  /** One iteration of `main`'s loop. */
  function Step(s: Size, t: Tracked, c: Cycle, missed: int, sim: (Image, Image) -> real): (r: Tracked)
    requires Sound(s, c)
    ensures Keyed(t) ==> Keyed(r)
    ensures !c.boardUpdated ==> r.Keys == t.Keys
  {
    var after := Detect(s, t, c, missed, sim);
    AdmitKeyed(t, Candidates(s, c), |Candidates(s, c)|, sim);
    assert Keyed(t) ==> Keyed(after);
    UpdateAll(s, after, c.observe)
  }

  /** A board capture that has no frame in the cached chroma colour: `get_roi`
      raises "no background found" on it. */
  predicate NoBackgroundIn(board: Board.BoardState, shot: Image)
    requires board.chroma.Some?
  {
    Rect(shot) && Board.NoFrame(Board.Background(shot, board), Cols(shot))
  }

  /** `get_roi` on a board capture caches the chroma colour and raises exactly when
      the capture has no frame in the cached colour. */
  lemma RoiFailsWithoutBackground(board: Board.BoardState, shot: Image, estimate: Rgb, contours: Mask -> seq<Mask>)
    requires Rect(shot) && forall b :: Board.AllRect(contours(b))
    ensures Board.GetRoi(board, shot, estimate, contours).0 == Board.CacheChroma(board, estimate)
    ensures Board.GetRoi(board, shot, estimate, contours).1.Err? <==> NoBackgroundIn(Board.CacheChroma(board, estimate), shot)
  {
  }

  /** One of the cycle's `get_roi` calls raises: the one in `board_is_updated()`
      always runs, the one in `get_marked_ika` only on a board change. */
  predicate Aborts(board: Board.BoardState, c: Cycle)
    requires board.chroma.Some?
  {
    NoBackgroundIn(board, c.checkShot) || (c.boardUpdated && NoBackgroundIn(board, c.markShot))
  }

  /** One iteration of `main`'s loop with its two `get_roi` calls on the board
      source. The first call caches the chroma colour and the second reuses it; a
      call that finds no background raises, which leaves the loop with the map as
      it was at the start of the cycle, since both calls come before any change.
      `contours` stands for `findContours` + `fillPoly` + `resize`. */
  function Run(s: Size, board: Board.BoardState, t: Tracked, c: Cycle, missed: int, sim: (Image, Image) -> real,
               contours: Mask -> seq<Mask>): (r: (Board.BoardState, Result<Tracked, Board.Error>))
    requires Sound(s, c) && forall b :: Board.AllRect(contours(b))
    ensures r.0 == Board.CacheChroma(board, c.checkEstimate)
    ensures r.1.Err? <==> Aborts(r.0, c)
    ensures r.1.Err? ==> r.1.error == Board.NoBackground
    ensures r.1.Ok? ==> r.1.value == Step(s, t, c, missed, sim)
  {
    RoiFailsWithoutBackground(board, c.checkShot, c.checkEstimate, contours);
    var (b1, rois) := Board.GetRoi(board, c.checkShot, c.checkEstimate, contours);
    if rois.Err? then (b1, Err(Board.NoBackground))
    else if !c.boardUpdated then (b1, Ok(Step(s, t, c, missed, sim)))
    else
      RoiFailsWithoutBackground(b1, c.markShot, c.markEstimate, contours);
      Board.ChromaComputedOnce(board, c.checkEstimate, c.markEstimate);
      var (b2, marks) := Board.GetRoi(b1, c.markShot, c.markEstimate, contours);
      if marks.Err? then (b2, Err(Board.NoBackground)) else (b2, Ok(Step(s, t, c, missed, sim)))
  }

  /** A cycle of `main`'s loop is `Run`: the board state after it is the one with
      the chroma cached, and it fails exactly on `Aborts`, otherwise giving `Step`. */
  lemma LoopStepIsRun(s: Size, board: Board.BoardState, t: Tracked, c: Cycle, missed: int, sim: (Image, Image) -> real,
                      contours: Mask -> seq<Mask>)
    requires Sound(s, c) && forall b :: Board.AllRect(contours(b))
    ensures var b1 := Board.CacheChroma(board, c.checkEstimate);
            Run(s, board, t, c, missed, sim, contours) ==
              (b1, if Aborts(b1, c) then Err(Board.NoBackground) else Ok(Step(s, t, c, missed, sim)))
  {
  }

  /** `step` folded over the cycles `cs`, one after another. */
  function Fold<S(!new)>(step: (S, Cycle) --> S, t: S, cs: seq<Cycle>): S
    requires forall u, j :: 0 <= j < |cs| ==> step.requires(u, cs[j])
    decreases |cs|
  {
    if |cs| == 0 then t
    else
      assert forall j :: 0 <= j < |cs| - 1 ==> cs[1..][j] == cs[j + 1];
      Fold(step, step(t, cs[0]), cs[1..])
  }

  /** A property every step keeps holds after the fold. */
  lemma {:induction false} FoldKeeps<S(!new)>(step: (S, Cycle) --> S, inv: S -> bool, t: S, cs: seq<Cycle>)
    requires forall u, j :: 0 <= j < |cs| ==> step.requires(u, cs[j])
    requires forall u, j :: 0 <= j < |cs| && inv(u) ==> inv(step(u, cs[j]))
    ensures inv(t) ==> inv(Fold(step, t, cs))
    decreases |cs|
  {
    if |cs| > 0 {
      assert forall j :: 0 <= j < |cs| - 1 ==> cs[1..][j] == cs[j + 1];
      FoldKeeps(step, inv, step(t, cs[0]), cs[1..]);
    }
  }

  /** `main`'s `while True` loop with the cycle body left as `step` and the test
      for a raising cycle left as `raises`: it steps through the cycles until the
      first one that raises. The result is the value left and the number of
      cycles that completed. */
  function Cycles<S(!new)>(raises: Cycle -> bool, step: (S, Cycle) --> S, t: S, cs: seq<Cycle>): (r: (S, nat))
    requires forall u, j :: 0 <= j < |cs| ==> step.requires(u, cs[j])
    ensures r.1 <= |cs|
    ensures forall j :: 0 <= j < r.1 ==> !raises(cs[j])
    ensures r.1 < |cs| ==> raises(cs[r.1])
    ensures r.0 == Fold(step, t, cs[..r.1])
    decreases |cs|
  {
    if |cs| == 0 || raises(cs[0]) then (t, 0)
    else
      assert forall j :: 0 <= j < |cs| - 1 ==> cs[1..][j] == cs[j + 1];
      var rest := Cycles(raises, step, step(t, cs[0]), cs[1..]);
      assert cs[..rest.1 + 1][1..] == cs[1..][..rest.1];
      (rest.0, rest.1 + 1)
  }

  /** One cycle's step on the map, as a function value. */
  function StepOf(s: Size, missed: int, sim: (Image, Image) -> real): (Tracked, Cycle) --> Tracked
  {
    (u: Tracked, c: Cycle) requires Sound(s, c) => Step(s, u, c, missed, sim)
  }

  /** The map after the steps of the cycles `cs`, one after another. */
  function Steps(s: Size, t: Tracked, cs: seq<Cycle>, missed: int, sim: (Image, Image) -> real): Tracked
    requires forall j :: 0 <= j < |cs| ==> Sound(s, cs[j])
  {
    Fold(StepOf(s, missed, sim), t, cs)
  }

  /** Every step keeps each entity stored under its own name, so the steps of
      any sequence of cycles do too. */
  lemma StepsKeyed(s: Size, t: Tracked, cs: seq<Cycle>, missed: int, sim: (Image, Image) -> real)
    requires forall j :: 0 <= j < |cs| ==> Sound(s, cs[j])
    ensures Keyed(t) ==> Keyed(Steps(s, t, cs, missed, sim))
  {
    var step := StepOf(s, missed, sim);
    forall u, j | 0 <= j < |cs| && Keyed(u) ensures Keyed(step(u, cs[j])) {
      assert step(u, cs[j]) == Step(s, u, cs[j], missed, sim);
    }
    FoldKeeps(step, Keyed, t, cs);
  }

  /** Where `main`'s loop stopped: the board source's state, the map that
      `clean_tracking` then sweeps, and the number of cycles that completed. */
  datatype Outcome = Outcome(board: Board.BoardState, tracked: Tracked, completed: nat)

  /** `main`'s loop over a sequence of cycles, each cycle being `Run`
      (`LoopStepIsRun`). The first cycle's board capture fixes the chroma colour,
      and every later `get_roi` reuses it. So the loop completes exactly the cycles
      before the first one with a capture that has no frame in that colour, runs
      through every cycle when there is none, and leaves the map the completed
      steps produce (`LoopStopsAtFirstAbort`). */
  function Loop(s: Size, board: Board.BoardState, t: Tracked, cs: seq<Cycle>, missed: int, sim: (Image, Image) -> real): (r: Outcome)
    requires forall j :: 0 <= j < |cs| ==> Sound(s, cs[j])
    ensures r.completed <= |cs|
    ensures r.board == if |cs| == 0 then board else Board.CacheChroma(board, cs[0].checkEstimate)
    ensures r.tracked == Steps(s, t, cs[..r.completed], missed, sim)
    ensures Keyed(t) ==> Keyed(r.tracked)
  {
    if |cs| == 0 then Outcome(board, t, 0)
    else
      var b1 := Board.CacheChroma(board, cs[0].checkEstimate);
      var r := Cycles(c => Aborts(b1, c), StepOf(s, missed, sim), t, cs);
      StepsKeyed(s, t, cs[..r.1], missed, sim);
      Outcome(b1, r.0, r.1)
  }

  /** The loop completes exactly the cycles before the first one with a board
      capture that has no frame in the cached chroma colour, and runs through
      every cycle when there is none. */
  lemma LoopStopsAtFirstAbort(s: Size, board: Board.BoardState, t: Tracked, cs: seq<Cycle>, missed: int,
                              sim: (Image, Image) -> real)
    requires forall j :: 0 <= j < |cs| ==> Sound(s, cs[j])
    ensures var r := Loop(s, board, t, cs, missed, sim);
            (forall j :: 0 <= j < r.completed ==> !Aborts(r.board, cs[j])) &&
            (r.completed < |cs| ==> Aborts(r.board, cs[r.completed]))
  {
    if |cs| > 0 {
      var b1 := Board.CacheChroma(board, cs[0].checkEstimate);
      var raises := c => Aborts(b1, c);
      var r := Cycles(raises, StepOf(s, missed, sim), t, cs);
      assert Loop(s, board, t, cs, missed, sim) == Outcome(b1, r.0, r.1);
    }
  }

  /** Without a board change nothing is admitted or removed; every entity is re-localised. */
  lemma StepWithoutBoardChange(s: Size, t: Tracked, c: Cycle, missed: int, sim: (Image, Image) -> real)
    requires Sound(s, c) && !c.boardUpdated
    ensures Step(s, t, c, missed, sim).Keys == t.Keys
    ensures forall k :: k in t ==> Step(s, t, c, missed, sim)[k] == Relocalise(s, t[k], c.observe(k))
  {
  }

  /** On a board change an entity tracked at the start survives exactly when its
      miss count is below the threshold, and then it is re-localised once. */
  lemma StepRemovesExactlyMissing(s: Size, t: Tracked, c: Cycle, missed: int, sim: (Image, Image) -> real, k: string)
    requires Sound(s, c) && c.boardUpdated && FreshNames(t, Candidates(s, c))
    requires k in t
    ensures k in Step(s, t, c, missed, sim) <==> t[k].missing < missed
    ensures k in Step(s, t, c, missed, sim) ==> Step(s, t, c, missed, sim)[k] == Relocalise(s, t[k], c.observe(k))
  {
    AdmitKeepsTracked(t, Candidates(s, c), |Candidates(s, c)|, sim);
  }

  /** On a board change a candidate is tracked after the cycle exactly when it was
      admitted and its fresh count is below the threshold; it is then re-localised
      in the same cycle. */
  lemma StepAdmitsNonDuplicates(s: Size, t: Tracked, c: Cycle, missed: int, sim: (Image, Image) -> real, i: nat)
    requires Sound(s, c) && c.boardUpdated && FreshNames(t, Candidates(s, c))
    requires i < |Candidates(s, c)|
    ensures var cand := Candidates(s, c)[i];
            cand.name in Step(s, t, c, missed, sim) <==>
              !Duplicate(AdmitFirst(t, Candidates(s, c), i, sim), cand, sim) && 0 < missed
    ensures var cand := Candidates(s, c)[i];
            cand.name in Step(s, t, c, missed, sim) ==>
              Step(s, t, c, missed, sim)[cand.name] == Relocalise(s, cand, c.observe(cand.name))
  {
    AdmittedIffNotDuplicate(t, Candidates(s, c), sim, i, |Candidates(s, c)|);
  }

  /** A cycle adds no key beyond the names of the entities `get_marked_ika` built. */
  lemma StepAddsOnlyCandidates(s: Size, t: Tracked, c: Cycle, missed: int, sim: (Image, Image) -> real)
    requires Sound(s, c)
    ensures Step(s, t, c, missed, sim).Keys <= t.Keys + NamesOf(Candidates(s, c))
  {
    var cands := Candidates(s, c);
    AdmitOnlyCandidates(t, cands, |cands|, sim);
    assert NamesBefore(cands, |cands|) == NamesOf(cands);
  }

  /** An entity whose label is seen but whose triangle is not gains exactly one miss
      if it stays tracked; it stays unless the board changed and it had already
      missed `missed` times. */
  lemma MissCountsOneMiss(s: Size, t: Tracked, c: Cycle, missed: int, sim: (Image, Image) -> real, k: string)
    requires Sound(s, c) && k in t
    requires c.boardUpdated ==> FreshNames(t, Candidates(s, c))
    requires c.observe(k).nameFound && c.observe(k).triangle.None?
    ensures k in Step(s, t, c, missed, sim) <==> !c.boardUpdated || t[k].missing < missed
    ensures k in Step(s, t, c, missed, sim) ==> Step(s, t, c, missed, sim)[k].missing == t[k].missing + 1
  {
    if c.boardUpdated {
      StepRemovesExactlyMissing(s, t, c, missed, sim, k);
    }
  }

  /** The removal check only runs when the board changed, so with the default
      threshold an entity can reach three misses, stay tracked and be drawn in the
      "stale" colour. */
  lemma StaleColourReachable(s: Size, t: Tracked, c: Cycle, sim: (Image, Image) -> real, k: string)
    requires Sound(s, c) && !c.boardUpdated && k in t && t[k].missing == DefaultMissed - 1
    requires c.observe(k).nameFound && c.observe(k).triangle.None?
    ensures k in Step(s, t, c, DefaultMissed, sim)
    ensures Step(s, t, c, DefaultMissed, sim)[k].missing == DefaultMissed
    ensures GetColor(Step(s, t, c, DefaultMissed, sim)[k].missing) == Black
  {
  }
}
