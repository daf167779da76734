/** Demosaicing has no preferred side: the reconstructions commute with every reflection. */
module AhdSymmetry {
  import opened Prelude
  import opened Mosaic
  import opened Reflection
  import opened AhdPicture

  /** The estimate along a line does not depend on the sense in which the line is read. */
  lemma LineTurned(n: int, t: int, own: int, next: int, next2: int, previous: int, previous2: int)
    requires n >= 2 && 0 <= t < n
    ensures LineValue(n, n - 1 - t, own, previous, previous2, next, next2)
         == LineValue(n, t, own, next, next2, previous, previous2)
    ensures LineWeight(n, n - 1 - t) == LineWeight(n, t)
  {
  }

  lemma GreenOfMirror(s: Sides, d: Dir, f: Picture, w: int, h: int, tile: int, x: int, y: int)
    requires w >= 2 && h >= 2 && InRange(x, y, w, h)
    ensures var x', y' := MirrorX(s, w, x), MirrorY(s, h, y);
      && InRange(x', y', w, h)
      && GreenAt(d, Mirror(s, w, h, f), w, h, MirrorTile(s, w, h, tile), x, y) == GreenAt(d, f, w, h, tile, x', y')
  {
    hide SiteAt, MirrorTile, LineValue, LineWeight, Clamp, Quotient, Mirror;
    MirrorInRange(s, w, h, x, y);
    SiteOfMirror(s, w, h, tile, x, y);
    var x', y', c := MirrorX(s, w, x), MirrorY(s, h, y), Sensed(tile, MirrorX(s, w, x), MirrorY(s, h, y));
    AtMirror(s, f, w, h, x, y, x', y', c);
    AtMirror(s, f, w, h, x, y, x', y', GREEN);
    if d == Across {
      var a := if s == LeftRight then -1 else 1;
      AtMirror(s, f, w, h, x + 1, y, x' + a, y', GREEN);
      AtMirror(s, f, w, h, x + 2, y, x' + 2 * a, y', c);
      AtMirror(s, f, w, h, x - 1, y, x' - a, y', GREEN);
      AtMirror(s, f, w, h, x - 2, y, x' - 2 * a, y', c);
      LineTurned(w, x, f(x', y', c), f(x' + a, y', GREEN), f(x' + 2 * a, y', c), f(x' - a, y', GREEN),
                 f(x' - 2 * a, y', c));
    } else {
      var a := if s == TopBottom then -1 else 1;
      AtMirror(s, f, w, h, x, y + 1, x', y' + a, GREEN);
      AtMirror(s, f, w, h, x, y + 2, x', y' + 2 * a, c);
      AtMirror(s, f, w, h, x, y - 1, x', y' - a, GREEN);
      AtMirror(s, f, w, h, x, y - 2, x', y' - 2 * a, c);
      LineTurned(h, y, f(x', y', c), f(x', y' + a, GREEN), f(x', y' + 2 * a, c), f(x', y' - a, GREEN),
                 f(x', y' - 2 * a, c));
    }
  }

  lemma ExcessOfMirror(s: Sides, d: Dir, f: Picture, w: int, h: int, tile: int, x: int, y: int, x': int, y': int,
                       c: int)
    requires w >= 2 && h >= 2 && x' == MirrorX(s, w, x) && y' == MirrorY(s, h, y)
    ensures Excess(Greened(d, Mirror(s, w, h, f), w, h, MirrorTile(s, w, h, tile)), w, h, x, y, c)
         == Excess(Greened(d, f, w, h, tile), w, h, x', y', c)
    ensures Exists(x, y, w, h) == Exists(x', y', w, h)
  {
    hide GreenAt;
    MirrorInRange(s, w, h, x, y);
    if InRange(x, y, w, h) {
      GreenOfMirror(s, d, f, w, h, tile, x, y);
    }
  }

  lemma ExcessSumOfMirror(s: Sides, d: Dir, f: Picture, w: int, h: int, tile: int, site: Site, x: int, y: int, c: int)
    requires w >= 2 && h >= 2 && InRange(x, y, w, h)
    ensures var x', y' := MirrorX(s, w, x), MirrorY(s, h, y);
      && InRange(x', y', w, h)
      && ExcessSum(Greened(d, Mirror(s, w, h, f), w, h, MirrorTile(s, w, h, tile)), w, h, site, x, y, c)
         == ExcessSum(Greened(d, f, w, h, tile), w, h, site, x', y', c)
      && ExcessCount(w, h, site, x, y, c) == ExcessCount(w, h, site, x', y', c)
  {
    hide Greened, Excess, Exists, MirrorTile;
    MirrorInRange(s, w, h, x, y);
    var x', y' := MirrorX(s, w, x), MirrorY(s, h, y);
    var a, b := if s == LeftRight then -1 else 1, if s == TopBottom then -1 else 1;
    ExcessOfMirror(s, d, f, w, h, tile, x - 1, y - 1, x' - a, y' - b, c);
    ExcessOfMirror(s, d, f, w, h, tile, x - 1, y + 1, x' - a, y' + b, c);
    ExcessOfMirror(s, d, f, w, h, tile, x + 1, y - 1, x' + a, y' - b, c);
    ExcessOfMirror(s, d, f, w, h, tile, x + 1, y + 1, x' + a, y' + b, c);
    ExcessOfMirror(s, d, f, w, h, tile, x - 1, y, x' - a, y', c);
    ExcessOfMirror(s, d, f, w, h, tile, x + 1, y, x' + a, y', c);
    ExcessOfMirror(s, d, f, w, h, tile, x, y - 1, x', y' - b, c);
    ExcessOfMirror(s, d, f, w, h, tile, x, y + 1, x', y' + b, c);
  }

  /** Reconstructing the reflected picture, in either direction, gives the reflected reconstruction. */
  lemma FilledOfMirror(s: Sides, d: Dir, f: Picture, w: int, h: int, tile: int, x: int, y: int, c: int)
    requires w >= 2 && h >= 2 && 0 <= c < 3
    ensures Filled(d, Mirror(s, w, h, f), w, h, MirrorTile(s, w, h, tile))(x, y, c)
         == Filled(d, f, w, h, tile)(MirrorX(s, w, x), MirrorY(s, h, y), c)
  {
    hide SiteAt, MirrorTile, GreenAt, ExcessSum, ExcessCount, Clamp, Quotient;
    MirrorInRange(s, w, h, x, y);
    if InRange(x, y, w, h) {
      SiteOfMirror(s, w, h, tile, x, y);
      GreenOfMirror(s, d, f, w, h, tile, x, y);
      ExcessSumOfMirror(s, d, f, w, h, tile, SiteAt(MirrorTile(s, w, h, tile), x, y), x, y, c);
    }
  }

  /** One picture of the pair is the other, reflected left to right. */
  ghost predicate Turned(p: Picture, q: Picture, w: int) {
    forall x, y, c :: 0 <= c < 3 ==> p(x, y, c) == q(w - 1 - x, y, c)
  }

  lemma PixelTurned(p: Picture, q: Picture, w: int, x: int, x': int, y: int)
    requires Turned(p, q, w) && x' == w - 1 - x
    ensures PixelOf(p, x, y) == PixelOf(q, x', y)
  {
  }

  lemma ScoreTurned(d: Dir, r: Pair, s: Pair, w: int, x: int, x': int, y: int)
    requires Turned(r.across, s.across, w) && Turned(r.down, s.down, w) && x' == w - 1 - x
    ensures ScoreAt(d, r, w, x, y) == ScoreAt(d, s, w, x', y)
  {
    hide PixelOf, Apart, Turned;
    FiveTurned(r.across, s.across, w, x, x', y);
    FiveTurned(r.down, s.down, w, x, x', y);
  }

  lemma FiveTurned(p: Picture, q: Picture, w: int, x: int, x': int, y: int)
    requires Turned(p, q, w) && x' == w - 1 - x
    ensures PixelOf(p, x, y) == PixelOf(q, x', y)
    ensures PixelOf(p, x - 1, y) == PixelOf(q, x' + 1, y) && PixelOf(p, x + 1, y) == PixelOf(q, x' - 1, y)
    ensures PixelOf(p, x, y - 1) == PixelOf(q, x', y - 1) && PixelOf(p, x, y + 1) == PixelOf(q, x', y + 1)
  {
    hide PixelOf, Turned;
    PixelTurned(p, q, w, x, x', y);
    PixelTurned(p, q, w, x - 1, x' + 1, y);
    PixelTurned(p, q, w, x + 1, x' - 1, y);
    PixelTurned(p, q, w, x, x', y - 1);
    PixelTurned(p, q, w, x, x', y + 1);
  }

  lemma LineOfScoresTurned(d: Dir, r: Pair, s: Pair, w: int, x: int, y: int)
    requires Turned(r.across, s.across, w) && Turned(r.down, s.down, w)
    ensures ScoreLine(ScoresOf(d, r, w), x, y) == ScoreLine(ScoresOf(d, s, w), w - 1 - x, y)
  {
    hide ScoreAt, Turned;
    ScoreTurned(d, r, s, w, x - 1, w - 1 - x + 1, y);
    ScoreTurned(d, r, s, w, x, w - 1 - x, y);
    ScoreTurned(d, r, s, w, x + 1, w - 1 - x - 1, y);
  }

  /**
   * Demosaicing the picture reflected left to right gives the demosaiced picture, reflected. There is no such law
   * for top and bottom: the first row is never scored, and the row below the last one is.
   */
  lemma AhdOfMirror(f: Picture, w: int, h: int, tile: int, x: int, y: int, c: int)
    requires w >= 2 && h >= 2 && 0 <= c < 3
    ensures Ahd(Mirror(LeftRight, w, h, f), w, h, MirrorTile(LeftRight, w, h, tile))(x, y, c)
         == Ahd(f, w, h, tile)(w - 1 - x, y, c)
  {
    hide Filled, Mirror, MirrorTile, ScoreLine, ScoresOf;
    var r := Reconstructions(Mirror(LeftRight, w, h, f), w, h, MirrorTile(LeftRight, w, h, tile));
    var s := Reconstructions(f, w, h, tile);
    forall x, y, c | 0 <= c < 3
      ensures r.across(x, y, c) == s.across(w - 1 - x, y, c) && r.down(x, y, c) == s.down(w - 1 - x, y, c)
    {
      FilledOfMirror(LeftRight, Across, f, w, h, tile, x, y, c);
      FilledOfMirror(LeftRight, Down, f, w, h, tile, x, y, c);
    }
    forall d, j
      ensures ScoreLine(ScoresOf(d, r, w), x, j) == ScoreLine(ScoresOf(d, s, w), w - 1 - x, j)
    {
      LineOfScoresTurned(d, r, s, w, x, j);
    }
  }
}
