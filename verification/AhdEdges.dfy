/** What the choice of direction is for: stripes and edges come out without colour fringes. */
module AhdEdges {
  import opened Prelude
  import opened Mosaic
  import opened AhdPicture

  function Turned(d: Dir): Dir {
    if d == Across then Down else Across
  }

  /** The sum of nine scores by which direction d is judged at (x, y). */
  function NineSum(d: Dir, f: Picture, w: int, h: int, tile: int, x: int, y: int): int
    requires w >= 2 && h >= 2
  {
    Homogeneity(ScoresOf(d, Reconstructions(f, w, h, tile), w), x, y)
  }

  /** Where a picture of stripes scores higher along the stripes, the result is the grey of the stripe. */
  lemma StripesKept(d: Dir, f: Picture, w: int, h: int, tile: int, g: int -> Byte, x: int, y: int, c: int)
    requires w >= 2 && h >= 2 && InRange(x, y, w, h) && 0 <= c < 3 && Striped(d, f, w, h, tile, g)
    requires NineSum(d, f, w, h, tile, x, y) > NineSum(Turned(d), f, w, h, tile, x, y)
    ensures Ahd(f, w, h, tile)(x, y, c) == g(LineOf(d, x, y))
  {
    hide Homogeneity, ScoresOf, Filled;
    StripedFilled(d, f, w, h, tile, g, x, y, c);
  }

  /** Where neither direction scores higher, the result is the mean of both, rounded down. */
  lemma TieIsMean(f: Picture, w: int, h: int, tile: int, x: int, y: int, c: int)
    requires w >= 2 && h >= 2
    requires NineSum(Across, f, w, h, tile, x, y) == NineSum(Down, f, w, h, tile, x, y)
    ensures var v := Ahd(f, w, h, tile)(x, y, c);
      2 * v <= Filled(Across, f, w, h, tile)(x, y, c) + Filled(Down, f, w, h, tile)(x, y, c) <= 2 * v + 1
  {
    hide Homogeneity, ScoresOf, Filled;
  }

  /** In a picture of two columns no pixel is scored, so that every pixel is the mean of both reconstructions. */
  lemma TwoColumnsTie(f: Picture, h: int, tile: int, x: int, y: int)
    requires h >= 2
    ensures NineSum(Across, f, 2, h, tile, x, y) == NineSum(Down, f, 2, h, tile, x, y) == 0
  {
  }

  // ------------------------------------------------------------------
  // A step from black to white, reconstructed across the edge
  // ------------------------------------------------------------------

  /** Black on one side of the edge before line e, and white on the other. */
  function Step(e: int, dark: bool): int -> Byte {
    t => if (t < e) == dark then 0 else 255
  }

  /** The lines on the two sides of the edge. */
  predicate AtEdge(e: int, t: int) {
    t == e - 1 || t == e
  }

  /** How many lines of direction d a picture has. */
  function Lines(d: Dir, w: int, h: int): int {
    if d == Across then h else w
  }

  /** Green estimated across the stripes, at line t of n. */
  function AcrossStripes(n: int, t: int, g: int -> Byte): Byte
    requires n >= 2 && 0 <= t < n
  {
    Clamp(Quotient(LineValue(n, t, g(t), g(t + 1), g(t + 2), g(t - 1), g(t - 2)), LineWeight(n, t)))
  }

  /** Only the neighbours that exist weigh in. */
  lemma LineOfStripes(n: int, t: int, g: int -> Byte, next: Byte, next2: Byte, previous: Byte, previous2: Byte)
    requires n >= 2 && 0 <= t < n
    requires (t < n - 1 ==> next == g(t + 1)) && (t < n - 2 ==> next2 == g(t + 2))
    requires (t > 0 ==> previous == g(t - 1)) && (t > 1 ==> previous2 == g(t - 2))
    ensures LineValue(n, t, g(t), next, next2, previous, previous2)
         == LineValue(n, t, g(t), g(t + 1), g(t + 2), g(t - 1), g(t - 2))
  {
  }

  lemma GreenAcrossStripes(d: Dir, f: Picture, w: int, h: int, tile: int, g: int -> Byte, x: int, y: int)
    requires w >= 2 && h >= 2 && InRange(x, y, w, h) && Striped(d, f, w, h, tile, g)
    ensures var t := LineOf(d, x, y);
      && 0 <= t < Lines(d, w, h)
      && GreenAt(Turned(d), f, w, h, tile, x, y)
         == if Sensed(tile, x, y) == GREEN then g(t) else AcrossStripes(Lines(d, w, h), t, g)
  {
    hide Clamp, Quotient, LineWeight, LineValue, Sensed;
    var c, t := Sensed(tile, x, y), LineOf(d, x, y);
    assert f(x, y, c) == g(t);
    if c != GREEN {
      LineColours(tile, x, y);
      if d == Across {
        LineOfStripes(h, y, g, f(x, y + 1, GREEN), f(x, y + 2, c), f(x, y - 1, GREEN), f(x, y - 2, c));
      } else {
        LineOfStripes(w, x, g, f(x + 1, y, GREEN), f(x + 2, y, c), f(x - 1, y, GREEN), f(x - 2, y, c));
      }
    }
  }

  /** Across the edge, green is clamped to the truth except next to the edge, where it is grey. */
  lemma StepAcross(n: int, t: int, e: int, dark: bool)
    requires n >= 3 && 1 <= e < n && 0 <= t < n
    ensures var green := AcrossStripes(n, t, Step(e, dark));
      if AtEdge(e, t) then 2 <= green <= 253 else green == Step(e, dark)(t)
  {
    var g := Step(e, dark);
    var value, weight := LineValue(n, t, g(t), g(t + 1), g(t + 2), g(t - 1), g(t - 2)), LineWeight(n, t);
    if AtEdge(e, t) {
      assert 2 * weight <= value < 254 * weight;
      assert weight == 3 || weight == 4 || weight == 5 || weight == 6;
    } else if g(t) == 0 {
      assert value <= 0;
    } else {
      assert value >= 255 * weight;
      assert weight == 3 || weight == 4 || weight == 5 || weight == 6;
    }
  }

  /** A picture with one straight edge between black and white. */
  ghost predicate Edged(d: Dir, f: Picture, w: int, h: int, tile: int, e: int, dark: bool) {
    && w >= 3 && h >= 3
    && 1 <= e < Lines(d, w, h)
    && Striped(d, f, w, h, tile, Step(e, dark))
  }

  /** Green of the reconstruction across the edge: true away from the edge and at green sites, grey elsewhere. */
  lemma GreenAcrossEdge(d: Dir, f: Picture, w: int, h: int, tile: int, e: int, dark: bool, x: int, y: int)
    requires Edged(d, f, w, h, tile, e, dark) && InRange(x, y, w, h)
    ensures var t := LineOf(d, x, y);
      var green := Filled(Turned(d), f, w, h, tile)(x, y, GREEN);
      if AtEdge(e, t) && Sensed(tile, x, y) != GREEN then 2 <= green <= 253 else green == Step(e, dark)(t)
  {
    hide AcrossStripes, Step;
    GreenAcrossStripes(d, f, w, h, tile, Step(e, dark), x, y);
    StepAcross(Lines(d, w, h), LineOf(d, x, y), e, dark);
  }

  /** Green of the reconstruction across the edge never overshoots the truth on its side of the edge. */
  lemma SideExcess(d: Dir, f: Picture, w: int, h: int, tile: int, e: int, dark: bool, x: int, y: int, c: int)
    requires Edged(d, f, w, h, tile, e, dark)
    requires c != GREEN && Sensed(tile, x, y) == c
    ensures var excess := Excess(Greened(Turned(d), f, w, h, tile), w, h, x, y, c);
      && (Step(e, dark)(LineOf(d, x, y)) == 0 ==> excess <= 0)
      && (Step(e, dark)(LineOf(d, x, y)) == 255 ==> excess >= 0)
      && (InRange(x, y, w, h) && !AtEdge(e, LineOf(d, x, y)) ==> excess == 0)
      && (InRange(x, y, w, h) && AtEdge(e, LineOf(d, x, y)) ==> excess <= -2 || excess >= 2)
  {
    if InRange(x, y, w, h) {
      assert f(x, y, c) == Step(e, dark)(LineOf(d, x, y));
      GreenAcrossEdge(d, f, w, h, tile, e, dark, x, y);
    }
  }

  /** Neighbours of a pixel away from the edge lie on its side of the edge. */
  lemma SideExcessNear(d: Dir, f: Picture, w: int, h: int, tile: int, e: int, dark: bool,
                       t: int, x: int, y: int, c: int)
    requires Edged(d, f, w, h, tile, e, dark) && !AtEdge(e, t) && t - 1 <= LineOf(d, x, y) <= t + 1
    requires c != GREEN && Sensed(tile, x, y) == c
    ensures var excess := Excess(Greened(Turned(d), f, w, h, tile), w, h, x, y, c);
      if Step(e, dark)(t) == 0 then excess <= 0 else excess >= 0
  {
    hide Greened, Excess, Sensed;
    SideExcess(d, f, w, h, tile, e, dark, x, y, c);
  }

  lemma SideExcessSum(d: Dir, f: Picture, w: int, h: int, tile: int, e: int, dark: bool, x: int, y: int, c: int)
    requires Edged(d, f, w, h, tile, e, dark) && InRange(x, y, w, h) && !AtEdge(e, LineOf(d, x, y))
    requires c == RED || c == BLUE
    requires c != Sensed(tile, x, y)
    ensures var sum := ExcessSum(Greened(Turned(d), f, w, h, tile), w, h, SiteAt(tile, x, y), x, y, c);
      if Step(e, dark)(LineOf(d, x, y)) == 0 then sum <= 0 else sum >= 0
  {
    hide Greened, Excess, Step, Sensed, SiteAt;
    var t := LineOf(d, x, y);
    ExcessColours(tile, x, y, c);
    if SiteAt(tile, x, y) in {RedSite, BlueSite} {
      SideExcessNear(d, f, w, h, tile, e, dark, t, x - 1, y - 1, c);
      SideExcessNear(d, f, w, h, tile, e, dark, t, x - 1, y + 1, c);
      SideExcessNear(d, f, w, h, tile, e, dark, t, x + 1, y - 1, c);
      SideExcessNear(d, f, w, h, tile, e, dark, t, x + 1, y + 1, c);
    } else if (SiteAt(tile, x, y) == GreenInRedRow) == (c == RED) {
      SideExcessNear(d, f, w, h, tile, e, dark, t, x - 1, y, c);
      SideExcessNear(d, f, w, h, tile, e, dark, t, x + 1, y, c);
    } else {
      SideExcessNear(d, f, w, h, tile, e, dark, t, x, y - 1, c);
      SideExcessNear(d, f, w, h, tile, e, dark, t, x, y + 1, c);
    }
  }

  lemma ClampedBelow(a: int, n: int)
    requires n > 0 && a <= 0
    ensures Clamp(Quotient(a, n)) == 0
  {
  }

  lemma ClampedAbove(a: int, n: int)
    requires n > 0 && a >= 0
    ensures Clamp(255 + Quotient(a, n)) == 255
  {
  }

  /** Away from the edge both reconstructions are exact. */
  lemma AwayFromEdge(d: Dir, f: Picture, w: int, h: int, tile: int, e: int, dark: bool, x: int, y: int, c: int)
    requires Edged(d, f, w, h, tile, e, dark) && InRange(x, y, w, h) && 0 <= c < 3
    requires !AtEdge(e, LineOf(d, x, y))
    ensures Filled(Turned(d), f, w, h, tile)(x, y, c) == Step(e, dark)(LineOf(d, x, y))
  {
    hide Clamp, Quotient, ExcessSum, ExcessCount, Sensed, SiteAt;
    GreenAcrossEdge(d, f, w, h, tile, e, dark, x, y);
    if c != GREEN && c != Sensed(tile, x, y) {
      SideExcessSum(d, f, w, h, tile, e, dark, x, y, c);
      var site := SiteAt(tile, x, y);
      var sum := ExcessSum(Greened(Turned(d), f, w, h, tile), w, h, site, x, y, c);
      if Step(e, dark)(LineOf(d, x, y)) == 0 {
        ClampedBelow(sum, ExcessCount(w, h, site, x, y, c));
      } else {
        ClampedAbove(sum, ExcessCount(w, h, site, x, y, c));
      }
    }
  }

  /** Two pixels that share a side. */
  predicate Adjacent(x: int, y: int, x': int, y': int) {
    || (y == y' && (x' == x - 1 || x' == x + 1))
    || (x == x' && (y' == y - 1 || y' == y + 1))
  }

  /** Across the edge, adjacent pixels next to the edge come out different. */
  lemma FringeWithin(d: Dir, f: Picture, w: int, h: int, tile: int, e: int, dark: bool,
                     x: int, y: int, x': int, y': int)
    requires Edged(d, f, w, h, tile, e, dark) && InRange(x, y, w, h) && InRange(x', y', w, h)
    requires Adjacent(x, y, x', y') && AtEdge(e, LineOf(d, x, y)) && AtEdge(e, LineOf(d, x', y'))
    ensures var p := Filled(Turned(d), f, w, h, tile);
      PixelOf(p, x, y) != PixelOf(p, x', y')
  {
    hide Filled;
    GreenAcrossEdge(d, f, w, h, tile, e, dark, x, y);
    GreenAcrossEdge(d, f, w, h, tile, e, dark, x', y');
    assert (Sensed(tile, x, y) == GREEN) != (Sensed(tile, x', y') == GREEN);
  }

  // ------------------------------------------------------------------
  // Scores on and near the edge
  // ------------------------------------------------------------------

  /** With no distance permitted, equal neighbours are counted. */
  lemma EqualNeighbours(p: Picture, x: int, y: int)
    ensures Score(p, 0, x, y)
         == One(PixelOf(p, x, y) == PixelOf(p, x - 1, y)) + One(PixelOf(p, x, y) == PixelOf(p, x + 1, y))
            + One(PixelOf(p, x, y) == PixelOf(p, x, y - 1)) + One(PixelOf(p, x, y) == PixelOf(p, x, y + 1))
  {
    hide Apart, PixelOf;
    ApartIsZero(PixelOf(p, x, y), PixelOf(p, x - 1, y));
    ApartIsZero(PixelOf(p, x, y), PixelOf(p, x + 1, y));
    ApartIsZero(PixelOf(p, x, y), PixelOf(p, x, y - 1));
    ApartIsZero(PixelOf(p, x, y), PixelOf(p, x, y + 1));
  }

  /** No distance is permitted where one reconstruction does not change along its direction. */
  lemma NoRadius(ph: Picture, pv: Picture, x: int, y: int)
    ensures Radius(ph, pv, x, y) >= 0
    ensures PixelOf(ph, x, y) == PixelOf(ph, x - 1, y) == PixelOf(ph, x + 1, y) ==> Radius(ph, pv, x, y) == 0
    ensures PixelOf(pv, x, y) == PixelOf(pv, x, y - 1) == PixelOf(pv, x, y + 1) ==> Radius(ph, pv, x, y) == 0
  {
    hide Apart, PixelOf;
    ApartIsZero(PixelOf(ph, x, y), PixelOf(ph, x - 1, y));
    ApartIsZero(PixelOf(ph, x, y), PixelOf(ph, x + 1, y));
    ApartIsZero(PixelOf(pv, x, y), PixelOf(pv, x, y - 1));
    ApartIsZero(PixelOf(pv, x, y), PixelOf(pv, x, y + 1));
  }

  function Grey(v: Byte): Rgb {
    Rgb(v, v, v)
  }

  /** Along the edge the reconstruction is exact. */
  lemma PixelAlong(d: Dir, f: Picture, w: int, h: int, tile: int, e: int, dark: bool, x: int, y: int)
    requires Edged(d, f, w, h, tile, e, dark) && InRange(x, y, w, h)
    ensures PixelOf(Filled(d, f, w, h, tile), x, y) == Grey(Step(e, dark)(LineOf(d, x, y)))
  {
    hide Filled, Step;
    StripedFilled(d, f, w, h, tile, Step(e, dark), x, y, RED);
    StripedFilled(d, f, w, h, tile, Step(e, dark), x, y, GREEN);
    StripedFilled(d, f, w, h, tile, Step(e, dark), x, y, BLUE);
  }

  lemma PixelAway(d: Dir, f: Picture, w: int, h: int, tile: int, e: int, dark: bool, x: int, y: int)
    requires Edged(d, f, w, h, tile, e, dark) && InRange(x, y, w, h) && !AtEdge(e, LineOf(d, x, y))
    ensures PixelOf(Filled(Turned(d), f, w, h, tile), x, y) == Grey(Step(e, dark)(LineOf(d, x, y)))
  {
    hide Filled, Step;
    AwayFromEdge(d, f, w, h, tile, e, dark, x, y, RED);
    AwayFromEdge(d, f, w, h, tile, e, dark, x, y, GREEN);
    AwayFromEdge(d, f, w, h, tile, e, dark, x, y, BLUE);
  }

  /** A white line is not black in any reconstruction. */
  lemma WhiteIsNotBlack(d: Dir, f: Picture, w: int, h: int, tile: int, e: int, dark: bool, x: int, y: int)
    requires Edged(d, f, w, h, tile, e, dark) && InRange(x, y, w, h) && Step(e, dark)(LineOf(d, x, y)) == 255
    ensures !Black(Filled(Turned(d), f, w, h, tile), x, y)
  {
    hide Filled;
    FilledKeepsSample(Turned(d), f, w, h, tile, x, y);
    assert f(x, y, Sensed(tile, x, y)) == 255;
  }

  /** In the row below the picture, the direction along the edge scores at least as high. */
  lemma EdgeBelow(d: Dir, f: Picture, w: int, h: int, tile: int, e: int, dark: bool, x: int)
    requires Edged(d, f, w, h, tile, e, dark) && 1 <= x < w - 1
    ensures var r := Reconstructions(f, w, h, tile);
      ScoreAt(d, r, w, x, h) >= ScoreAt(Turned(d), r, w, x, h)
  {
    hide Filled, ScoreAt, Step;
    RowBelowIsScored(d, f, w, h, tile, x);
    RowBelowIsScored(Turned(d), f, w, h, tile, x);
    PixelAlong(d, f, w, h, tile, e, dark, x, h - 1);
    assert Step(e, dark)(LineOf(d, x, h - 1)) in {0, 255} by {
      StepIsBlackOrWhite(e, dark, LineOf(d, x, h - 1));
    }
    if Step(e, dark)(LineOf(d, x, h - 1)) == 255 {
      WhiteIsNotBlack(d, f, w, h, tile, e, dark, x, h - 1);
    }
  }

  lemma StepIsBlackOrWhite(e: int, dark: bool, t: int)
    ensures Step(e, dark)(t) == 0 || Step(e, dark)(t) == 255
    ensures Step(e, dark)(t) == Step(e, dark)(t - 1) <==> t != e
  {
  }

  /** Over a horizontal edge, every pixel of the picture scores at least as high across, and higher at the edge. */
  lemma RowScored(f: Picture, w: int, h: int, tile: int, e: int, dark: bool, x: int, y: int)
    requires Edged(Across, f, w, h, tile, e, dark) && 1 <= x < w - 1 && 1 <= y < h
    ensures var r := Reconstructions(f, w, h, tile);
      && ScoreAt(Across, r, w, x, y) >= ScoreAt(Down, r, w, x, y)
      && (AtEdge(e, y) ==> ScoreAt(Across, r, w, x, y) > ScoreAt(Down, r, w, x, y))
  {
    hide Filled, Step, Score, Radius, PixelOf;
    var r := Reconstructions(f, w, h, tile);
    PixelAlong(Across, f, w, h, tile, e, dark, x - 1, y);
    PixelAlong(Across, f, w, h, tile, e, dark, x, y);
    PixelAlong(Across, f, w, h, tile, e, dark, x + 1, y);
    PixelAlong(Across, f, w, h, tile, e, dark, x, y - 1);
    NoRadius(r.across, r.down, x, y);
    EqualNeighbours(r.across, x, y);
    EqualNeighbours(r.down, x, y);
    if AtEdge(e, y) {
      FringeWithin(Across, f, w, h, tile, e, dark, x, y, x - 1, y);
      FringeWithin(Across, f, w, h, tile, e, dark, x, y, x + 1, y);
      FringeWithin(Across, f, w, h, tile, e, dark, x, y, x, if y == e then e - 1 else e);
    } else {
      PixelAway(Across, f, w, h, tile, e, dark, x, y);
      StepIsBlackOrWhite(e, dark, y);
      StepIsBlackOrWhite(e, dark, y + 1);
      if y + 1 < h {
        PixelAlong(Across, f, w, h, tile, e, dark, x, y + 1);
      } else {
        OutsideIsBlack(f, w, h, tile, x, h);
      }
    }
  }

  lemma OutsideIsBlack(f: Picture, w: int, h: int, tile: int, x: int, y: int)
    requires w >= 2 && h >= 2 && !InRange(x, y, w, h)
    ensures forall d :: PixelOf(Filled(d, f, w, h, tile), x, y) == BLACK
  {
  }

  /** At a green site at a vertical edge, the colour taken from left and right is wrong across the edge. */
  lemma FringeOfGreen(f: Picture, w: int, h: int, tile: int, e: int, dark: bool, x: int, y: int)
    requires Edged(Down, f, w, h, tile, e, dark) && 1 <= x < w - 1 && 0 <= y < h && AtEdge(e, x)
    requires Sensed(tile, x, y) == GREEN
    ensures var c := if SiteAt(tile, x, y) == GreenInRedRow then RED else BLUE;
      Filled(Across, f, w, h, tile)(x, y, c) != Step(e, dark)(x)
  {
    hide Greened, Excess, Step;
    var c := if SiteAt(tile, x, y) == GreenInRedRow then RED else BLUE;
    ExcessColours(tile, x, y, c);
    SideExcess(Down, f, w, h, tile, e, dark, x - 1, y, c);
    SideExcess(Down, f, w, h, tile, e, dark, x + 1, y, c);
    GreenAcrossEdge(Down, f, w, h, tile, e, dark, x, y);
    StepIsBlackOrWhite(e, dark, e - 1);
    StepIsBlackOrWhite(e, dark, e);
    StepIsBlackOrWhite(e, dark, e + 1);
    var sum := ExcessSum(Greened(Across, f, w, h, tile), w, h, SiteAt(tile, x, y), x, y, c);
    assert if Step(e, dark)(x) == 0 then sum >= 2 else sum <= -2;
    assert ExcessCount(w, h, SiteAt(tile, x, y), x, y, c) == 2;
  }

  /** Across a vertical edge, a pixel at the edge differs from its neighbour away from the edge. */
  lemma FringeBeside(f: Picture, w: int, h: int, tile: int, e: int, dark: bool, x: int, y: int)
    requires Edged(Down, f, w, h, tile, e, dark) && 1 <= x < w - 1 && 0 <= y < h && AtEdge(e, x)
    ensures var p := Filled(Across, f, w, h, tile);
      PixelOf(p, x, y) != PixelOf(p, if x == e then x + 1 else x - 1, y)
  {
    hide Step, Filled, Sensed;
    var outer := if x == e then x + 1 else x - 1;
    PixelAway(Down, f, w, h, tile, e, dark, outer, y);
    StepIsBlackOrWhite(e, dark, e - 1);
    StepIsBlackOrWhite(e, dark, e + 1);
    if Sensed(tile, x, y) == GREEN {
      FringeOfGreen(f, w, h, tile, e, dark, x, y);
    } else {
      StepIsBlackOrWhite(e, dark, outer);
      GreenAcrossEdge(Down, f, w, h, tile, e, dark, x, y);
    }
  }

  lemma ColumnAlong(f: Picture, w: int, h: int, tile: int, e: int, dark: bool, x: int, y: int)
    requires Edged(Down, f, w, h, tile, e, dark) && 1 <= x < w - 1 && 1 <= y < h
    ensures var p, v := Filled(Down, f, w, h, tile), Grey(Step(e, dark)(x));
      && PixelOf(p, x, y) == PixelOf(p, x, y - 1) == v
      && (x != e ==> PixelOf(p, x - 1, y) == v)
      && (x != e - 1 ==> PixelOf(p, x + 1, y) == v)
      && PixelOf(p, x, y + 1) == if y + 1 < h then v else BLACK
  {
    hide Filled, Step, PixelOf;
    PixelAlong(Down, f, w, h, tile, e, dark, x - 1, y);
    PixelAlong(Down, f, w, h, tile, e, dark, x, y);
    PixelAlong(Down, f, w, h, tile, e, dark, x + 1, y);
    PixelAlong(Down, f, w, h, tile, e, dark, x, y - 1);
    StepIsBlackOrWhite(e, dark, x);
    StepIsBlackOrWhite(e, dark, x + 1);
    if y + 1 < h {
      PixelAlong(Down, f, w, h, tile, e, dark, x, y + 1);
    } else {
      OutsideIsBlack(f, w, h, tile, x, y + 1);
    }
  }

  /** Away from a vertical edge, the direction down scores at least as high. */
  lemma ColumnScored(f: Picture, w: int, h: int, tile: int, e: int, dark: bool, x: int, y: int)
    requires Edged(Down, f, w, h, tile, e, dark) && 1 <= x < w - 1 && 1 <= y < h && !AtEdge(e, x)
    ensures var r := Reconstructions(f, w, h, tile);
      ScoreAt(Down, r, w, x, y) >= ScoreAt(Across, r, w, x, y)
  {
    hide Filled, Step, PixelOf, Radius, Apart;
    var r := Reconstructions(f, w, h, tile);
    ColumnAlong(f, w, h, tile, e, dark, x, y);
    PixelAway(Down, f, w, h, tile, e, dark, x, y);
    PixelAway(Down, f, w, h, tile, e, dark, x, y - 1);
    if y + 1 < h {
      PixelAway(Down, f, w, h, tile, e, dark, x, y + 1);
    } else {
      OutsideIsBlack(f, w, h, tile, x, y + 1);
    }
    NoRadius(r.across, r.down, x, y);
    ApartIsZero(PixelOf(r.down, x, y), PixelOf(r.down, x, y));
  }

  /** At a vertical edge, above the last row, the direction down scores three and the other nothing. */
  lemma EdgeColumnScored(f: Picture, w: int, h: int, tile: int, e: int, dark: bool, x: int, y: int)
    requires Edged(Down, f, w, h, tile, e, dark) && 1 <= x < w - 1 && 1 <= y < h - 1 && AtEdge(e, x)
    ensures var r := Reconstructions(f, w, h, tile);
      ScoreAt(Down, r, w, x, y) >= 3 && ScoreAt(Across, r, w, x, y) == 0
  {
    hide Filled, Step, PixelOf, Radius, Score;
    var r := Reconstructions(f, w, h, tile);
    ColumnAlong(f, w, h, tile, e, dark, x, y);
    NoRadius(r.across, r.down, x, y);
    EqualNeighbours(r.across, x, y);
    EqualNeighbours(r.down, x, y);
    FringeBeside(f, w, h, tile, e, dark, x, y);
    FringeWithin(Down, f, w, h, tile, e, dark, x, y, if x == e then e - 1 else e, y);
    FringeWithin(Down, f, w, h, tile, e, dark, x, y, x, y - 1);
    FringeWithin(Down, f, w, h, tile, e, dark, x, y, x, y + 1);
  }

  /** In the last row, below which all is black, only the white side of the edge may lose, and two points at most. */
  lemma LastRowScored(f: Picture, w: int, h: int, tile: int, e: int, dark: bool, x: int)
    requires Edged(Down, f, w, h, tile, e, dark) && 1 <= x < w - 1 && AtEdge(e, x)
    ensures var r := Reconstructions(f, w, h, tile);
      ScoreAt(Down, r, w, x, h - 1) + (if Step(e, dark)(x) == 0 then 0 else 2) >= ScoreAt(Across, r, w, x, h - 1)
  {
    hide Filled, Step, PixelOf, Radius, Apart;
    var r := Reconstructions(f, w, h, tile);
    ColumnAlong(f, w, h, tile, e, dark, x, h - 1);
    NoRadius(r.across, r.down, x, h - 1);
    ApartIsZero(PixelOf(r.down, x, h - 1), PixelOf(r.down, x, h - 1));
    if Step(e, dark)(x) == 0 {
      var inner := if x == e then e - 1 else e;
      FringeWithin(Down, f, w, h, tile, e, dark, x, h - 1, inner, h - 1);
      ApartIsZero(PixelOf(r.across, x, h - 1), PixelOf(r.across, inner, h - 1));
    }
  }

  // ------------------------------------------------------------------
  // The sums of nine
  // ------------------------------------------------------------------

  /** A lead at (p, q) outweighs a smaller loss at (u, v). */
  lemma LeadDecides(t: Scores, s: Scores, x: int, y: int, p: int, q: int, lead: nat, u: int, v: int, loss: nat)
    requires x - 1 <= p <= x + 1 && y - 1 <= q <= y + 1 && (p, q) != (u, v) && loss < lead
    requires forall i, j :: x - 1 <= i <= x + 1 && y - 1 <= j <= y + 1 ==>
      t(i, j) + (if (i, j) == (u, v) then loss else 0) >= s(i, j)
    requires t(p, q) >= s(p, q) + lead
    ensures Homogeneity(t, x, y) > Homogeneity(s, x, y)
  {
  }

  /** At a horizontal edge the sum of nine is higher across than down. */
  lemma RowDecides(f: Picture, w: int, h: int, tile: int, e: int, dark: bool, x: int, y: int)
    requires Edged(Across, f, w, h, tile, e, dark) && InRange(x, y, w, h) && AtEdge(e, y)
    ensures NineSum(Across, f, w, h, tile, x, y) > NineSum(Down, f, w, h, tile, x, y)
  {
    hide Homogeneity, Step, Filled;
    var r := Reconstructions(f, w, h, tile);
    var t, s := ScoresOf(Across, r, w), ScoresOf(Down, r, w);
    forall i, j | x - 1 <= i <= x + 1 && y - 1 <= j <= y + 1
      ensures t(i, j) >= s(i, j)
    {
      if 1 <= i < w - 1 && j == h {
        EdgeBelow(Across, f, w, h, tile, e, dark, i);
      } else if 1 <= i < w - 1 && j >= 1 {
        RowScored(f, w, h, tile, e, dark, i, j);
      }
    }
    var p := if x == 0 then 1 else if x == w - 1 then w - 2 else x;
    RowScored(f, w, h, tile, e, dark, p, e);
    LeadDecides(t, s, x, y, p, e, 1, p + 1, e, 0);
  }

  /** The white line next to the edge. */
  function WhiteSide(e: int, dark: bool): int {
    if dark then e else e - 1
  }

  /** Over a vertical edge, a pixel scores as high down at least, but for two points at the white side's last pixel. */
  lemma ColumnKeepsUp(f: Picture, w: int, h: int, tile: int, e: int, dark: bool, x: int, y: int)
    requires Edged(Down, f, w, h, tile, e, dark) && 1 <= x < w - 1 && 1 <= y <= h
    ensures var r := Reconstructions(f, w, h, tile);
      ScoreAt(Down, r, w, x, y) + (if (x, y) == (WhiteSide(e, dark), h - 1) then 2 else 0)
      >= ScoreAt(Across, r, w, x, y)
  {
    hide Filled, ScoreAt;
    if y == h {
      EdgeBelow(Down, f, w, h, tile, e, dark, x);
    } else if !AtEdge(e, x) {
      ColumnScored(f, w, h, tile, e, dark, x, y);
    } else if y < h - 1 {
      EdgeColumnScored(f, w, h, tile, e, dark, x, y);
    } else {
      LastRowScored(f, w, h, tile, e, dark, x);
    }
  }

  /** At a vertical edge the sum of nine is higher down than across. */
  lemma ColumnDecides(f: Picture, w: int, h: int, tile: int, e: int, dark: bool, x: int, y: int)
    requires Edged(Down, f, w, h, tile, e, dark) && InRange(x, y, w, h) && AtEdge(e, x)
    ensures NineSum(Down, f, w, h, tile, x, y) > NineSum(Across, f, w, h, tile, x, y)
  {
    hide Homogeneity, Step, Filled, Score, Radius, WhiteSide;
    var r := Reconstructions(f, w, h, tile);
    var t, s := ScoresOf(Down, r, w), ScoresOf(Across, r, w);
    var white := WhiteSide(e, dark);
    forall i, j | x - 1 <= i <= x + 1 && y - 1 <= j <= y + 1
      ensures t(i, j) + (if (i, j) == (white, h - 1) then 2 else 0) >= s(i, j)
    {
      if 1 <= i < w - 1 && j >= 1 {
        ColumnKeepsUp(f, w, h, tile, e, dark, i, j);
      }
    }
    var p := if e == w - 1 then e - 1 else e;
    var q := if y == 0 then 1 else if y == h - 1 then h - 2 else y;
    EdgeColumnScored(f, w, h, tile, e, dark, p, q);
    LeadDecides(t, s, x, y, p, q, 3, white, h - 1, 2);
  }

  /**
   * A straight edge between black and white, horizontal or vertical and wherever it lies, comes out as that edge:
   * grey in all three channels of every pixel.
   */
  lemma EdgeKept(d: Dir, f: Picture, w: int, h: int, tile: int, e: int, dark: bool, x: int, y: int, c: int)
    requires w >= 3 && h >= 3 && InRange(x, y, w, h) && 0 <= c < 3
    requires Striped(d, f, w, h, tile, Step(e, dark))
    ensures Ahd(f, w, h, tile)(x, y, c) == Step(e, dark)(LineOf(d, x, y))
  {
    hide NineSum, Filled, Homogeneity, ScoresOf;
    if !(1 <= e < Lines(d, w, h)) {
      AhdFlat(f, w, h, tile, x, y, c, Step(e, dark)(0));
    } else if AtEdge(e, LineOf(d, x, y)) {
      if d == Across {
        RowDecides(f, w, h, tile, e, dark, x, y);
      } else {
        ColumnDecides(f, w, h, tile, e, dark, x, y);
      }
      StripesKept(d, f, w, h, tile, Step(e, dark), x, y, c);
    } else {
      StripedFilled(d, f, w, h, tile, Step(e, dark), x, y, c);
      AwayFromEdge(d, f, w, h, tile, e, dark, x, y, c);
    }
  }
}
