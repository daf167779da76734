/**
 * Adaptive homogeneity-directed demosaicing as a computation on whole pictures: two complete
 * reconstructions, one interpolating green across and one down, and a choice at every pixel.
 */
module AhdPicture {
  import opened Prelude
  import opened Mosaic

  /** The direction in which green is interpolated. */
  datatype Dir = Across | Down

  function Clamp(v: int): Byte {
    if v > 255 then 255 else if v < 0 then 0 else v
  }

  /** Division that truncates toward zero. */
  function Quotient(a: int, b: int): int
    requires b > 0
  {
    if a >= 0 then a / b else -(-a / b)
  }

  /** Weighted sum of the sample at position t of a line of n and its neighbours on that line. */
  function LineValue(n: int, t: int, own: int, next: int, next2: int, previous: int, previous2: int): int {
    2 * own
    + (if t < n - 1 then 2 * next else 0)
    - (if t < n - 2 then next2 else 0)
    + (if t > 0 then 2 * previous else 0)
    - (if t > 1 then previous2 else 0)
  }

  function LineWeight(n: int, t: int): (weight: int)
    requires n >= 2 && 0 <= t < n
    ensures 3 <= weight <= 6
  {
    2 + (if t < n - 1 then 2 else 0) - (if t < n - 2 then 1 else 0)
      + (if t > 0 then 2 else 0) - (if t > 1 then 1 else 0)
  }

  /** Green at (x, y): sensed, or estimated along the line through it. */
  function GreenAt(d: Dir, f: Picture, w: int, h: int, tile: int, x: int, y: int): Byte
    requires w >= 2 && h >= 2 && InRange(x, y, w, h)
  {
    var c := Sensed(tile, x, y);
    if c == GREEN then f(x, y, GREEN)
    else if d == Across then
      Clamp(Quotient(LineValue(w, x, f(x, y, c), f(x + 1, y, GREEN), f(x + 2, y, c),
                               f(x - 1, y, GREEN), f(x - 2, y, c)), LineWeight(w, x)))
    else
      Clamp(Quotient(LineValue(h, y, f(x, y, c), f(x, y + 1, GREEN), f(x, y + 2, c),
                               f(x, y - 1, GREEN), f(x, y - 2, c)), LineWeight(h, y)))
  }

  /** The picture with green completed, black outside. */
  function Greened(d: Dir, f: Picture, w: int, h: int, tile: int): Picture
    requires w >= 2 && h >= 2
  {
    (x: int, y: int, c: int) =>
      if InRange(x, y, w, h) then if c == GREEN then GreenAt(d, f, w, h, tile, x, y) else f(x, y, c)
      else 0
  }

  /** How much channel c exceeds green at a position that exists. */
  function Excess(g: Picture, w: int, h: int, x: int, y: int, c: int): int {
    if InRange(x, y, w, h) then g(x, y, c) - g(x, y, GREEN) else 0
  }

  function Exists(x: int, y: int, w: int, h: int): (n: nat) {
    if InRange(x, y, w, h) then 1 else 0
  }

  /** Total excess of c over green at the nearest sites that sensed c. */
  function ExcessSum(g: Picture, w: int, h: int, site: Site, x: int, y: int, c: int): int {
    if site == RedSite || site == BlueSite then
      Excess(g, w, h, x - 1, y - 1, c) + Excess(g, w, h, x - 1, y + 1, c)
      + Excess(g, w, h, x + 1, y - 1, c) + Excess(g, w, h, x + 1, y + 1, c)
    else if (site == GreenInRedRow) == (c == RED) then
      Excess(g, w, h, x - 1, y, c) + Excess(g, w, h, x + 1, y, c)
    else
      Excess(g, w, h, x, y - 1, c) + Excess(g, w, h, x, y + 1, c)
  }

  /** How many of those sites exist. */
  function ExcessCount(w: int, h: int, site: Site, x: int, y: int, c: int): (n: nat)
    requires w >= 2 && h >= 2 && InRange(x, y, w, h)
    ensures n > 0
  {
    if site == RedSite || site == BlueSite then
      Exists(x - 1, y - 1, w, h) + Exists(x - 1, y + 1, w, h)
      + Exists(x + 1, y - 1, w, h) + Exists(x + 1, y + 1, w, h)
    else if (site == GreenInRedRow) == (c == RED) then
      Exists(x - 1, y, w, h) + Exists(x + 1, y, w, h)
    else
      Exists(x, y - 1, w, h) + Exists(x, y + 1, w, h)
  }

  /** One channel of the complete reconstruction in direction d. */
  function FilledAt(d: Dir, f: Picture, w: int, h: int, tile: int, x: int, y: int, c: int): Byte
    requires w >= 2 && h >= 2 && InRange(x, y, w, h)
  {
    var g := Greened(d, f, w, h, tile);
    if c == GREEN || c == Sensed(tile, x, y) then g(x, y, c)
    else 
      var site := SiteAt(tile, x, y);
      Clamp(g(x, y, GREEN) + Quotient(ExcessSum(g, w, h, site, x, y, c), ExcessCount(w, h, site, x, y, c)))
  }

  /** The complete reconstruction in direction d, black outside. */
  function Filled(d: Dir, f: Picture, w: int, h: int, tile: int): Picture
    requires w >= 2 && h >= 2
  {
    (x: int, y: int, c: int) => if InRange(x, y, w, h) then FilledAt(d, f, w, h, tile, x, y, c) else 0
  }

  // ------------------------------------------------------------------
  // Homogeneity scores
  // ------------------------------------------------------------------

  datatype Rgb = Rgb(r: Byte, g: Byte, b: Byte)

  function Sq(d: int): int {
    d * d
  }

  /** Squared distance between two colours. */
  function Apart(p: Rgb, q: Rgb): int {
    Sq(p.r - q.r) + Sq(p.g - q.g) + Sq(p.b - q.b)
  }

  function PixelOf(p: Picture, x: int, y: int): Rgb {
    Rgb(p(x, y, RED), p(x, y, GREEN), p(x, y, BLUE))
  }

  function Distance(p: Picture, x: int, y: int, x': int, y': int): int {
    Apart(PixelOf(p, x, y), PixelOf(p, x', y'))
  }

  function Max(a: int, b: int): int {
    if a < b then b else a
  }

  function Min(a: int, b: int): int {
    if a > b then b else a
  }

  function One(b: bool): (n: nat)
    ensures n <= 1
  {
    if b then 1 else 0
  }

  /** The permitted distance: the smaller of the larger changes along each direction. */
  function Radius(ph: Picture, pv: Picture, x: int, y: int): int {
    Min(Max(Distance(ph, x, y, x - 1, y), Distance(ph, x, y, x + 1, y)),
        Max(Distance(pv, x, y, x, y - 1), Distance(pv, x, y, x, y + 1)))
  }

  /** How many of the four neighbours of (x, y) in p lie within the permitted distance. */
  function Score(p: Picture, radius: int, x: int, y: int): (n: nat)
    ensures n <= 4
  {
    One(Distance(p, x, y, x - 1, y) <= radius) + One(Distance(p, x, y, x + 1, y) <= radius)
    + One(Distance(p, x, y, x, y - 1) <= radius) + One(Distance(p, x, y, x, y + 1) <= radius)
  }

  /** The two reconstructions of one picture. */
  datatype Pair = Pair(across: Picture, down: Picture) {
    function In(d: Dir): Picture {
      if d == Across then across else down
    }
  }

  function Reconstructions(f: Picture, w: int, h: int, tile: int): Pair
    requires w >= 2 && h >= 2
  {
    Pair(Filled(Across, f, w, h, tile), Filled(Down, f, w, h, tile))
  }

  /** The score table: the outer columns and row 0 are never scored. */
  function ScoreAt(d: Dir, r: Pair, w: int, x: int, y: int): (n: nat)
    ensures n <= 4
  {
    if 1 <= x < w - 1 && y >= 1 then Score(r.In(d), Radius(r.across, r.down, x, y), x, y) else 0
  }

  /** A score table as a total function of column and row. */
  type Scores = (int, int) -> Byte

  function ScoresOf(d: Dir, r: Pair, w: int): Scores {
    (x: int, y: int) => ScoreAt(d, r, w, x, y)
  }

  /** Scores of three pixels in a row. */
  function ScoreLine(t: Scores, x: int, y: int): int {
    t(x - 1, y) + t(x, y) + t(x + 1, y)
  }

  /** Scores of the pixel and its eight nearest neighbours. */
  function Homogeneity(t: Scores, x: int, y: int): int {
    ScoreLine(t, x, y - 1) + ScoreLine(t, x, y) + ScoreLine(t, x, y + 1)
  }

  function Chosen(across: int, down: int, h: Byte, v: Byte): Byte {
    if across > down then h else if across < down then v else (v + h) / 2
  }

  /** The demosaiced picture. */
  function Ahd(f: Picture, w: int, h: int, tile: int): Picture
    requires w >= 2 && h >= 2
  {
    var r := Reconstructions(f, w, h, tile);
    (x: int, y: int, c: int) =>
      Chosen(Homogeneity(ScoresOf(Across, r, w), x, y), Homogeneity(ScoresOf(Down, r, w), x, y), r.across(x, y, c),
        r.down(x, y, c))
  }

  // ------------------------------------------------------------------
  // What the demosaicer guarantees
  // ------------------------------------------------------------------

  lemma FilledKeepsSample(d: Dir, f: Picture, w: int, h: int, tile: int, x: int, y: int)
    requires w >= 2 && h >= 2 && InRange(x, y, w, h)
    ensures Filled(d, f, w, h, tile)(x, y, Sensed(tile, x, y)) == f(x, y, Sensed(tile, x, y))
  {
  }

  /** Every pixel keeps the sample the sensor took there. */
  lemma AhdKeepsSamples(f: Picture, w: int, h: int, tile: int)
    requires w >= 2 && h >= 2
    ensures KeepsSamples(Ahd(f, w, h, tile), f, w, h, tile)
  {
    forall x, y | InRange(x, y, w, h)
      ensures Ahd(f, w, h, tile)(x, y, Sensed(tile, x, y)) == f(x, y, Sensed(tile, x, y))
    {
      FilledKeepsSample(Across, f, w, h, tile, x, y);
      FilledKeepsSample(Down, f, w, h, tile, x, y);
    }
  }

  /** Around a red or blue site green lies at distance one and its own colour at distance two. */
  lemma LineColours(tile: int, x: int, y: int)
    ensures var c := Sensed(tile, x, y);
            c != GREEN ==>
              && Sensed(tile, x - 1, y) == Sensed(tile, x + 1, y) == GREEN
              && Sensed(tile, x, y - 1) == Sensed(tile, x, y + 1) == GREEN
              && Sensed(tile, x - 2, y) == Sensed(tile, x + 2, y) == c
              && Sensed(tile, x, y - 2) == Sensed(tile, x, y + 2) == c
  {
  }

  /**
   * Away from the border, green is the mean of the two green neighbours along the line, corrected by how far the
   * site's own colour exceeds that of its next neighbours there, rounded down and clamped.
   */
  lemma GreenIsCorrectedMean(d: Dir, f: Picture, w: int, h: int, tile: int, x: int, y: int)
    requires w >= 2 && h >= 2 && InRange(x, y, w, h) && Sensed(tile, x, y) != GREEN
    requires if d == Across then 2 <= x < w - 2 else 2 <= y < h - 2
    ensures var c, r := Sensed(tile, x, y), GreenAt(d, f, w, h, tile, x, y);
      var four :=
        if d == Across then
          2 * (f(x - 1, y, GREEN) + f(x + 1, y, GREEN)) + (2 * f(x, y, c) - f(x - 2, y, c) - f(x + 2, y, c))
        else
          2 * (f(x, y - 1, GREEN) + f(x, y + 1, GREEN)) + (2 * f(x, y, c) - f(x, y - 2, c) - f(x, y + 2, c));
      if four < 0 then r == 0 else if four < 4 * 255 then 4 * r <= four < 4 * r + 4 else r == 255
  {
  }

  /** The excess of a missing colour is taken where that colour was sensed. */
  lemma ExcessColours(tile: int, x: int, y: int, c: int)
    requires c == RED || c == BLUE
    requires c != Sensed(tile, x, y)
    ensures var site := SiteAt(tile, x, y);
            if site == RedSite || site == BlueSite then
              && Sensed(tile, x - 1, y - 1) == Sensed(tile, x - 1, y + 1) == c
              && Sensed(tile, x + 1, y - 1) == Sensed(tile, x + 1, y + 1) == c
            else if (site == GreenInRedRow) == (c == RED) then
              Sensed(tile, x - 1, y) == Sensed(tile, x + 1, y) == c
            else
              Sensed(tile, x, y - 1) == Sensed(tile, x, y + 1) == c
  {
  }

  /** On a flat line the weights cancel. */
  lemma FlatLine(n: int, t: int, next: Byte, next2: Byte, previous: Byte, previous2: Byte, v: Byte)
    requires n >= 2 && 0 <= t < n
    requires (t < n - 1 ==> next == v) && (t < n - 2 ==> next2 == v)
    requires (t > 0 ==> previous == v) && (t > 1 ==> previous2 == v)
    ensures Quotient(LineValue(n, t, v, next, next2, previous, previous2), LineWeight(n, t)) == v
  {
    var weight := LineWeight(n, t);
    assert LineValue(n, t, v, next, next2, previous, previous2) == v * weight;
    assert v * weight == 3 * v || v * weight == 4 * v || v * weight == 5 * v || v * weight == 6 * v;
  }

  /** The number of the line of direction d that pixel (x, y) lies on. */
  function LineOf(d: Dir, x: int, y: int): int {
    if d == Across then y else x
  }

  /** Every sample the sensor took on line t of direction d is g(t). */
  ghost predicate Striped(d: Dir, f: Picture, w: int, h: int, tile: int, g: int -> Byte) {
    forall x, y :: InRange(x, y, w, h) ==> f(x, y, Sensed(tile, x, y)) == g(LineOf(d, x, y))
  }

  lemma StripedGreen(d: Dir, f: Picture, w: int, h: int, tile: int, g: int -> Byte, x: int, y: int)
    requires w >= 2 && h >= 2 && InRange(x, y, w, h) && Striped(d, f, w, h, tile, g)
    ensures GreenAt(d, f, w, h, tile, x, y) == g(LineOf(d, x, y))
  {
    var c, v := Sensed(tile, x, y), g(LineOf(d, x, y));
    assert f(x, y, c) == v;
    if c != GREEN {
      LineColours(tile, x, y);
      if d == Across {
        FlatLine(w, x, f(x + 1, y, GREEN), f(x + 2, y, c), f(x - 1, y, GREEN), f(x - 2, y, c), v);
      } else {
        FlatLine(h, y, f(x, y + 1, GREEN), f(x, y + 2, c), f(x, y - 1, GREEN), f(x, y - 2, c), v);
      }
    }
  }

  lemma StripedExcess(d: Dir, f: Picture, w: int, h: int, tile: int, g: int -> Byte, x: int, y: int, c: int)
    requires w >= 2 && h >= 2 && Striped(d, f, w, h, tile, g)
    requires c != GREEN && Sensed(tile, x, y) == c
    ensures Excess(Greened(d, f, w, h, tile), w, h, x, y, c) == 0
  {
    if InRange(x, y, w, h) {
      StripedGreen(d, f, w, h, tile, g, x, y);
    }
  }

  lemma StripedExcessSum(d: Dir, f: Picture, w: int, h: int, tile: int, g: int -> Byte, x: int, y: int, c: int)
    requires w >= 2 && h >= 2 && InRange(x, y, w, h) && Striped(d, f, w, h, tile, g)
    requires c == RED || c == BLUE
    requires c != Sensed(tile, x, y)
    ensures ExcessSum(Greened(d, f, w, h, tile), w, h, SiteAt(tile, x, y), x, y, c) == 0
  {
    hide Greened, Excess;
    ExcessColours(tile, x, y, c);
    if SiteAt(tile, x, y) in {RedSite, BlueSite} {
      StripedExcess(d, f, w, h, tile, g, x - 1, y - 1, c);
      StripedExcess(d, f, w, h, tile, g, x - 1, y + 1, c);
      StripedExcess(d, f, w, h, tile, g, x + 1, y - 1, c);
      StripedExcess(d, f, w, h, tile, g, x + 1, y + 1, c);
    } else if (SiteAt(tile, x, y) == GreenInRedRow) == (c == RED) {
      StripedExcess(d, f, w, h, tile, g, x - 1, y, c);
      StripedExcess(d, f, w, h, tile, g, x + 1, y, c);
    } else {
      StripedExcess(d, f, w, h, tile, g, x, y - 1, c);
      StripedExcess(d, f, w, h, tile, g, x, y + 1, c);
    }
  }

  /** The reconstruction along the stripes is exact: the grey of its line in every channel. */
  lemma StripedFilled(d: Dir, f: Picture, w: int, h: int, tile: int, g: int -> Byte, x: int, y: int, c: int)
    requires w >= 2 && h >= 2 && InRange(x, y, w, h) && 0 <= c < 3 && Striped(d, f, w, h, tile, g)
    ensures Filled(d, f, w, h, tile)(x, y, c) == g(LineOf(d, x, y))
  {
    StripedGreen(d, f, w, h, tile, g, x, y);
    if c != GREEN && c != Sensed(tile, x, y) {
      StripedExcessSum(d, f, w, h, tile, g, x, y, c);
    }
  }

  /** A flat field decodes to the same grey in all three channels of every pixel. */
  lemma AhdFlat(f: Picture, w: int, h: int, tile: int, x: int, y: int, c: int, v: Byte)
    requires w >= 2 && h >= 2 && InRange(x, y, w, h) && 0 <= c < 3 && FlatField(f, w, h, tile, v)
    ensures Ahd(f, w, h, tile)(x, y, c) == v
  {
    StripedFilled(Across, f, w, h, tile, t => v, x, y, c);
    StripedFilled(Down, f, w, h, tile, t => v, x, y, c);
    var r := Reconstructions(f, w, h, tile);
    assert Ahd(f, w, h, tile)(x, y, c)
        == Chosen(Homogeneity(ScoresOf(Across, r, w), x, y), Homogeneity(ScoresOf(Down, r, w), x, y), v, v);
  }

  // ------------------------------------------------------------------
  // Only the samples matter
  // ------------------------------------------------------------------

  ghost predicate Same(p: Picture, q: Picture) {
    forall x, y, c :: 0 <= c < 3 ==> p(x, y, c) == q(x, y, c)
  }

  lemma GreenAcrossDependsOnSamples(f: Picture, g: Picture, w: int, h: int, tile: int, x: int, y: int)
    requires w >= 2 && h >= 2 && InRange(x, y, w, h) && KeepsSamples(f, g, w, h, tile)
    ensures GreenAt(Across, f, w, h, tile, x, y) == GreenAt(Across, g, w, h, tile, x, y)
  {
    LineColours(tile, x, y);
    var c := Sensed(tile, x, y);
    assert f(x, y, c) == g(x, y, c);
    if c != GREEN {
      assert x + 1 < w ==> f(x + 1, y, GREEN) == g(x + 1, y, GREEN);
      assert x + 2 < w ==> f(x + 2, y, c) == g(x + 2, y, c);
      assert x - 1 >= 0 ==> f(x - 1, y, GREEN) == g(x - 1, y, GREEN);
      assert x - 2 >= 0 ==> f(x - 2, y, c) == g(x - 2, y, c);
    }
  }

  lemma GreenDownDependsOnSamples(f: Picture, g: Picture, w: int, h: int, tile: int, x: int, y: int)
    requires w >= 2 && h >= 2 && InRange(x, y, w, h) && KeepsSamples(f, g, w, h, tile)
    ensures GreenAt(Down, f, w, h, tile, x, y) == GreenAt(Down, g, w, h, tile, x, y)
  {
    LineColours(tile, x, y);
    var c := Sensed(tile, x, y);
    assert f(x, y, c) == g(x, y, c);
    if c != GREEN {
      assert y + 1 < h ==> f(x, y + 1, GREEN) == g(x, y + 1, GREEN);
      assert y + 2 < h ==> f(x, y + 2, c) == g(x, y + 2, c);
      assert y - 1 >= 0 ==> f(x, y - 1, GREEN) == g(x, y - 1, GREEN);
      assert y - 2 >= 0 ==> f(x, y - 2, c) == g(x, y - 2, c);
    }
  }

  lemma GreenDependsOnSamples(d: Dir, f: Picture, g: Picture, w: int, h: int, tile: int, x: int, y: int)
    requires w >= 2 && h >= 2 && InRange(x, y, w, h) && KeepsSamples(f, g, w, h, tile)
    ensures GreenAt(d, f, w, h, tile, x, y) == GreenAt(d, g, w, h, tile, x, y)
  {
    if d == Across {
      GreenAcrossDependsOnSamples(f, g, w, h, tile, x, y);
    } else {
      GreenDownDependsOnSamples(f, g, w, h, tile, x, y);
    }
  }

  lemma ExcessDependsOnSamples(d: Dir, f: Picture, g: Picture, w: int, h: int, tile: int, x: int, y: int, c: int)
    requires w >= 2 && h >= 2 && KeepsSamples(f, g, w, h, tile)
    requires Sensed(tile, x, y) == c && c != GREEN
    ensures Excess(Greened(d, f, w, h, tile), w, h, x, y, c) == Excess(Greened(d, g, w, h, tile), w, h, x, y, c)
  {
    if InRange(x, y, w, h) {
      GreenDependsOnSamples(d, f, g, w, h, tile, x, y);
    }
  }

  lemma ExcessSumDependsOnSamples(d: Dir, f: Picture, g: Picture, w: int, h: int, tile: int, x: int, y: int, c: int)
    requires w >= 2 && h >= 2 && InRange(x, y, w, h) && KeepsSamples(f, g, w, h, tile)
    requires c == RED || c == BLUE
    requires c != Sensed(tile, x, y)
    ensures ExcessSum(Greened(d, f, w, h, tile), w, h, SiteAt(tile, x, y), x, y, c)
         == ExcessSum(Greened(d, g, w, h, tile), w, h, SiteAt(tile, x, y), x, y, c)
  {
    hide Greened, Excess;
    ExcessColours(tile, x, y, c);
    if SiteAt(tile, x, y) in {RedSite, BlueSite} {
      ExcessDependsOnSamples(d, f, g, w, h, tile, x - 1, y - 1, c);
      ExcessDependsOnSamples(d, f, g, w, h, tile, x - 1, y + 1, c);
      ExcessDependsOnSamples(d, f, g, w, h, tile, x + 1, y - 1, c);
      ExcessDependsOnSamples(d, f, g, w, h, tile, x + 1, y + 1, c);
    } else if (SiteAt(tile, x, y) == GreenInRedRow) == (c == RED) {
      ExcessDependsOnSamples(d, f, g, w, h, tile, x - 1, y, c);
      ExcessDependsOnSamples(d, f, g, w, h, tile, x + 1, y, c);
    } else {
      ExcessDependsOnSamples(d, f, g, w, h, tile, x, y - 1, c);
      ExcessDependsOnSamples(d, f, g, w, h, tile, x, y + 1, c);
    }
  }

  lemma FilledDependsOnSamples(d: Dir, f: Picture, g: Picture, w: int, h: int, tile: int)
    requires w >= 2 && h >= 2 && KeepsSamples(f, g, w, h, tile)
    ensures Same(Filled(d, f, w, h, tile), Filled(d, g, w, h, tile))
  {
    forall x, y, c | 0 <= c < 3
      ensures Filled(d, f, w, h, tile)(x, y, c) == Filled(d, g, w, h, tile)(x, y, c)
    {
      if InRange(x, y, w, h) {
        GreenDependsOnSamples(d, f, g, w, h, tile, x, y);
        if c != GREEN && c != Sensed(tile, x, y) {
          ExcessSumDependsOnSamples(d, f, g, w, h, tile, x, y, c);
        }
      }
    }
  }

  lemma ScoreDependsOnPixels(d: Dir, r: Pair, s: Pair, w: int, x: int, y: int)
    requires Same(r.across, s.across) && Same(r.down, s.down)
    ensures ScoresOf(d, r, w)(x, y) == ScoresOf(d, s, w)(x, y)
  {
    forall p, q
      ensures PixelOf(r.across, p, q) == PixelOf(s.across, p, q)
      ensures PixelOf(r.down, p, q) == PixelOf(s.down, p, q)
    {
    }
  }

  lemma HomogeneityOfEqualScores(t: Scores, u: Scores, x: int, y: int)
    requires forall p, q :: t(p, q) == u(p, q)
    ensures Homogeneity(t, x, y) == Homogeneity(u, x, y)
  {
  }

  lemma HomogeneityDependsOnPixels(d: Dir, r: Pair, s: Pair, w: int, x: int, y: int)
    requires Same(r.across, s.across) && Same(r.down, s.down)
    ensures Homogeneity(ScoresOf(d, r, w), x, y) == Homogeneity(ScoresOf(d, s, w), x, y)
  {
    forall p, q
      ensures ScoresOf(d, r, w)(p, q) == ScoresOf(d, s, w)(p, q)
    {
      ScoreDependsOnPixels(d, r, s, w, p, q);
    }
    HomogeneityOfEqualScores(ScoresOf(d, r, w), ScoresOf(d, s, w), x, y);
  }

  /** The demosaiced picture depends on the sensed channels of its source only. */
  lemma AhdDependsOnSamplesOnly(f: Picture, g: Picture, w: int, h: int, tile: int)
    requires w >= 2 && h >= 2 && KeepsSamples(f, g, w, h, tile)
    ensures Same(Ahd(f, w, h, tile), Ahd(g, w, h, tile))
  {
    var r, s := Reconstructions(f, w, h, tile), Reconstructions(g, w, h, tile);
    FilledDependsOnSamples(Across, f, g, w, h, tile);
    FilledDependsOnSamples(Down, f, g, w, h, tile);
    forall x, y, c | 0 <= c < 3
      ensures Ahd(f, w, h, tile)(x, y, c) == Ahd(g, w, h, tile)(x, y, c)
    {
      HomogeneityDependsOnPixels(Across, r, s, w, x, y);
      HomogeneityDependsOnPixels(Down, r, s, w, x, y);
      assert r.across(x, y, c) == s.across(x, y, c) && r.down(x, y, c) == s.down(x, y, c);
    }
  }

  // ------------------------------------------------------------------
  // The last row
  // ------------------------------------------------------------------

  const BLACK := Rgb(0, 0, 0)

  predicate Black(p: Picture, x: int, y: int) {
    PixelOf(p, x, y) == BLACK
  }

  lemma SquareIsZero(d: int)
    ensures Sq(d) >= 0
    ensures Sq(d) <= 0 <==> d == 0
  {
  }

  lemma ApartIsZero(p: Rgb, q: Rgb)
    ensures Apart(p, q) >= 0
    ensures Apart(p, q) <= 0 <==> p == q
  {
    hide Sq;
    SquareIsZero(p.r - q.r);
    SquareIsZero(p.g - q.g);
    SquareIsZero(p.b - q.b);
  }

  /**
   * The row below the picture is scored too, as if it were black: three points in both directions,
   * and a fourth exactly where the reconstruction is black in the last row.
   */
  lemma RowBelowIsScored(d: Dir, f: Picture, w: int, h: int, tile: int, x: int)
    requires w >= 2 && h >= 2 && 1 <= x < w - 1
    ensures ScoreAt(d, Reconstructions(f, w, h, tile), w, x, h)
         == 3 + One(Black(Filled(d, f, w, h, tile), x, h - 1))
  {
    hide Apart;
    var r := Reconstructions(f, w, h, tile);
    BlackScored(r.across, x, h);
    BlackScored(r.down, x, h);
    assert Radius(r.across, r.down, x, h) == 0;
  }

  /** A black pixel with black neighbours left, right and below. */
  lemma BlackScored(p: Picture, x: int, y: int)
    requires Black(p, x, y) && Black(p, x - 1, y) && Black(p, x + 1, y) && Black(p, x, y + 1)
    ensures Distance(p, x, y, x - 1, y) == Distance(p, x, y, x + 1, y) == Distance(p, x, y, x, y + 1) == 0
    ensures Distance(p, x, y, x, y - 1) >= 0
    ensures Score(p, 0, x, y) == 3 + One(Black(p, x, y - 1))
  {
    hide Apart;
    ApartIsZero(BLACK, BLACK);
    ApartIsZero(BLACK, PixelOf(p, x, y - 1));
  }

  /** How many of the scored pixels left of, at and right of column x are black in row y. */
  function BlackNear(p: Picture, w: int, x: int, y: int): nat {
    BlackScore(p, w, x - 1, y) + BlackScore(p, w, x, y) + BlackScore(p, w, x + 1, y)
  }

  function BlackScore(p: Picture, w: int, x: int, y: int): nat {
    if 1 <= x < w - 1 then One(Black(p, x, y)) else 0
  }

  /** How many of the columns left of, at and right of x are scored. */
  function ScoredNear(w: int, x: int): nat {
    One(1 <= x - 1 < w - 1) + One(1 <= x < w - 1) + One(1 <= x + 1 < w - 1)
  }

  lemma ColumnBelow(d: Dir, f: Picture, w: int, h: int, tile: int, x: int)
    requires w >= 2 && h >= 2
    ensures ScoreAt(d, Reconstructions(f, w, h, tile), w, x, h)
         == 3 * One(1 <= x < w - 1) + BlackScore(Filled(d, f, w, h, tile), w, x, h - 1)
  {
    hide Filled, Black;
    if 1 <= x < w - 1 {
      RowBelowIsScored(d, f, w, h, tile, x);
    }
  }

  /** The line of scores in the row below: three for each scored column, and one for each black pixel above it. */
  lemma LineBelow(d: Dir, f: Picture, w: int, h: int, tile: int, x: int)
    requires w >= 2 && h >= 2
    ensures ScoreLine(ScoresOf(d, Reconstructions(f, w, h, tile), w), x, h)
         == 3 * ScoredNear(w, x) + BlackNear(Filled(d, f, w, h, tile), w, x, h - 1)
  {
    hide Filled, Reconstructions, ScoreAt, BlackScore;
    ColumnBelow(d, f, w, h, tile, x - 1);
    ColumnBelow(d, f, w, h, tile, x);
    ColumnBelow(d, f, w, h, tile, x + 1);
  }

  /**
   * So the row below tips no choice in the last row exactly if both reconstructions have equally many black
   * pixels nearby, and otherwise it tips the choice towards the one that has more.
   */
  lemma RowBelowTipsNoChoice(f: Picture, w: int, h: int, tile: int, x: int)
    requires w >= 2 && h >= 2
    ensures var r := Reconstructions(f, w, h, tile);
      ScoreLine(ScoresOf(Across, r, w), x, h) - ScoreLine(ScoresOf(Down, r, w), x, h)
      == BlackNear(r.across, w, x, h - 1) - BlackNear(r.down, w, x, h - 1)
  {
    hide Filled, ScoreLine, ScoresOf, BlackNear;
    LineBelow(Across, f, w, h, tile, x);
    LineBelow(Down, f, w, h, tile, x);
  }
}
