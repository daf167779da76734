/**
 * The homogeneity-directed demosaicer as it runs: six-row windows slide down the image, rows of
 * scores slide with them, and finished rows overwrite the image the windows are filled from.
 */
module AhdScan {
  import opened Prelude
  import opened Mosaic
  import opened AhdPicture
  import opened AhdWindow

  // ------------------------------------------------------------------
  // Scores
  // ------------------------------------------------------------------

  function PixelIn(s: seq<Byte>, i: nat): Rgb
    requires i + 3 <= |s|
  {
    Rgb(s[i + RED], s[i + GREEN], s[i + BLUE])
  }

  /** The window row at index a holds row y of picture p. */
  ghost predicate HoldsRow(s: seq<Byte>, w: nat, a: nat, p: Picture, y: int) {
    a + 3 * w <= |s| && s[a..a + 3 * w] == Row(w, p, y)
  }

  lemma PixelInRow(s: seq<Byte>, w: nat, a: nat, p: Picture, y: int, x: int, i: nat)
    requires HoldsRow(s, w, a, p, y) && 0 <= x < w && i == a + 3 * x
    ensures 0 <= i && i + 3 <= |s| && PixelIn(s, i) == PixelOf(p, x, y)
  {
    var row := s[a..a + 3 * w];
    assert row[3 * x + RED] == p(x, y, RED) && row[3 * x + GREEN] == p(x, y, GREEN);
    assert row[3 * x + BLUE] == p(x, y, BLUE);
  }

  /** Distances to the four neighbours of the pixel in column x of window row 3. */
  datatype Distances = Distances(left: int, right: int, up: int, down: int)

  function DistancesFrom(c: Rgb, left: Rgb, right: Rgb, up: Rgb, down: Rgb): Distances {
    Distances(Apart(c, left), Apart(c, right), Apart(c, up), Apart(c, down))
  }

  function DistancesIn(s: seq<Byte>, w: nat, x: int): Distances
    requires 1 <= x < w - 1 && 15 * w <= |s|
  {
    var i := 3 * x + 9 * w;
    DistancesFrom(PixelIn(s, i), PixelIn(s, i - 3), PixelIn(s, i + 3), PixelIn(s, i - 3 * w), PixelIn(s, i + 3 * w))
  }

  function DistancesAt(p: Picture, x: int, y: int): (t: Distances) {
    DistancesFrom(PixelOf(p, x, y), PixelOf(p, x - 1, y), PixelOf(p, x + 1, y),
                  PixelOf(p, x, y - 1), PixelOf(p, x, y + 1))
  }

  lemma DistancesAgree(s: seq<Byte>, w: nat, p: Picture, x: int, y: int)
    requires 1 <= x < w - 1 && 15 * w <= |s|
    requires HoldsRow(s, w, 6 * w, p, y - 1) && HoldsRow(s, w, 9 * w, p, y) && HoldsRow(s, w, 12 * w, p, y + 1)
    ensures DistancesIn(s, w, x) == DistancesAt(p, x, y)
  {
    hide Apart, HoldsRow, PixelIn, PixelOf;
    var i := 3 * x + 9 * w;
    PixelInRow(s, w, 9 * w, p, y, x, i);
    PixelInRow(s, w, 9 * w, p, y, x - 1, i - 3);
    PixelInRow(s, w, 9 * w, p, y, x + 1, i + 3);
    PixelInRow(s, w, 6 * w, p, y - 1, x, i - 3 * w);
    PixelInRow(s, w, 12 * w, p, y + 1, x, i + 3 * w);
  }

  /** One row of a score table. */
  function ScoreRow(t: Scores, w: nat, y: int): (row: seq<Byte>)
    ensures |row| == w
  {
    seq(w, x requires 0 <= x < w => t(x, y))
  }

  /** A score table whose outer columns are empty and whose entries are at most 4. */
  ghost predicate Bordered(t: Scores, w: int) {
    forall x, y :: t(x, y) <= 4 && (x < 1 || x >= w - 1 ==> t(x, y) == 0)
  }

  lemma ScoresBordered(d: Dir, r: Pair, w: int)
    ensures Bordered(ScoresOf(d, r, w), w)
  {
  }

  function CountWithin(t: Distances, radius: int): (n: nat)
    ensures n <= 4
  {
    One(t.left <= radius) + One(t.right <= radius) + One(t.up <= radius) + One(t.down <= radius)
  }

  /** Window rows 2, 3 and 4 hold the rows of p around row y. */
  ghost predicate Surrounds(s: seq<Byte>, w: nat, p: Picture, y: int) {
    && |s| == 18 * w
    && HoldsRow(s, w, 6 * w, p, y - 1)
    && HoldsRow(s, w, 9 * w, p, y)
    && HoldsRow(s, w, 12 * w, p, y + 1)
  }

  /** The scores of one pixel in both directions. */
  method PixelScores(windowH: array<Byte>, windowV: array<Byte>, w: nat, j: int, ghost r: Pair, ghost y: int)
    returns (across: Byte, down: Byte)
    requires 1 <= j < w - 1 && y >= 1
    requires Surrounds(windowH[..], w, r.across, y) && Surrounds(windowV[..], w, r.down, y)
    ensures across == ScoresOf(Across, r, w)(j, y) && down == ScoresOf(Down, r, w)(j, y)
  {
    var h, v := DistancesIn(windowH[..], w, j), DistancesIn(windowV[..], w, j);
    DistancesAgree(windowH[..], w, r.across, j, y);
    DistancesAgree(windowV[..], w, r.down, j, y);
    var radius := Min(Max(h.left, h.right), Max(v.up, v.down));
    return CountWithin(h, radius), CountWithin(v, radius);
  }

  lemma BlendNext(done: seq<Byte>, todo: seq<Byte>, n: nat)
    requires |done| == |todo| && n < |done|
    ensures Blend(done, todo, n + 1) == Blend(done, todo, n)[n := done[n]]
    ensures done[n] == todo[n] ==> Blend(done, todo, n + 1) == Blend(done, todo, n)
  {
  }

  /** The elements a..b of an array being overwritten, from the front, with those of `done`. */
  ghost predicate Filling(s: seq<Byte>, was: seq<Byte>, a: nat, b: nat, done: seq<Byte>, n: nat) {
    && a <= b <= |was| && n <= |done| == b - a
    && Between(s, was, a, b, Blend(done, was[a..b], n))
  }

  lemma FillStart(s: seq<Byte>, a: nat, b: nat, done: seq<Byte>)
    requires a < b <= |s| && |done| == b - a && done[0] == s[a]
    ensures Filling(s, s, a, b, done, 1)
  {
    BlendNext(done, s[a..b], 0);
    assert Blend(done, s[a..b], 0) == s[a..b];
  }

  lemma FillEnd(s: seq<Byte>, was: seq<Byte>, a: nat, b: nat, done: seq<Byte>)
    requires 0 < |done| && Filling(s, was, a, b, done, |done| - 1) && done[|done| - 1] == was[b - 1]
    ensures Between(s, was, a, b, done)
  {
    BlendNext(done, was[a..b], |done| - 1);
    assert Blend(done, was[a..b], |done|) == done;
  }

  /** Overwrites one more element. */
  method Fill(t: array<Byte>, a: nat, b: nat, n: nat, v: Byte, ghost was: seq<Byte>, ghost done: seq<Byte>)
    requires Filling(t[..], was, a, b, done, n) && n < |done| && v == done[n]
    modifies t
    ensures Filling(t[..], was, a, b, done, n + 1)
  {
    BlendNext(done, was[a..b], n);
    BetweenWrite(t[..], was, a, b, Blend(done, was[a..b], n), n, v);
    t[a + n] := v;
  }

  /** Scores the pixels of window row 3 into row 2 of the score tables; the outer columns are not written. */
  method GetDiffsRow2(homH: array<Byte>, homV: array<Byte>, windowH: array<Byte>, windowV: array<Byte>, w: nat,
                      ghost r: Pair, ghost y: int)
    requires w >= 2 && y >= 1 && homH != homV && homH.Length == homV.Length == 3 * w
    requires homH !in {windowH, windowV} && homV !in {windowH, windowV}
    requires Surrounds(windowH[..], w, r.across, y) && Surrounds(windowV[..], w, r.down, y)
    requires homH[2 * w] == homH[3 * w - 1] == homV[2 * w] == homV[3 * w - 1] == 0
    modifies homH, homV
    ensures Between(homH[..], old(homH[..]), 2 * w, 3 * w, ScoreRow(ScoresOf(Across, r, w), w, y))
    ensures Between(homV[..], old(homV[..]), 2 * w, 3 * w, ScoreRow(ScoresOf(Down, r, w), w, y))
  {
    ghost var wasH, wasV := homH[..], homV[..];
    ghost var rowH, rowV := ScoreRow(ScoresOf(Across, r, w), w, y), ScoreRow(ScoresOf(Down, r, w), w, y);
    FillStart(homH[..], 2 * w, 3 * w, rowH);
    FillStart(homV[..], 2 * w, 3 * w, rowV);
    for j := 1 to w - 1
      invariant Filling(homH[..], wasH, 2 * w, 3 * w, rowH, j)
      invariant Filling(homV[..], wasV, 2 * w, 3 * w, rowV, j)
    {
      var across, down := PixelScores(windowH, windowV, w, j, r, y);
      Fill(homH, 2 * w, 3 * w, j, across, wasH, rowH);
      Fill(homV, 2 * w, 3 * w, j, down, wasV, rowV);
    }
    FillEnd(homH[..], wasH, 2 * w, 3 * w, rowH);
    FillEnd(homV[..], wasV, 2 * w, 3 * w, rowV);
  }

  // ------------------------------------------------------------------
  // The flat nine-point sum
  // ------------------------------------------------------------------

  /** The entry at a flat index of a three-row table, or 0 outside the table. */
  function Entry(s: seq<Byte>, w: nat, j: int): (e: Byte)
    requires |s| == 3 * w
  {
    if 0 <= j < 3 * w then s[j] else 0
  }

  /** The three entries a column offset i from x, over the three rows of the table. */
  function ColumnSum(s: seq<Byte>, w: nat, j: int): int
    requires |s| == 3 * w
  {
    Entry(s, w, j) + Entry(s, w, j + w) + Entry(s, w, j + 2 * w)
  }

  function NineSum(s: seq<Byte>, w: nat, x: int): int
    requires |s| == 3 * w
  {
    ColumnSum(s, w, x - 1) + ColumnSum(s, w, x) + ColumnSum(s, w, x + 1)
  }

  /** Three rows of scores, one after the other. */
  ghost function ScoreTable(t: Scores, w: nat, y: int): (s: seq<Byte>)
    ensures |s| == 3 * w
  {
    ScoreRow(t, w, y - 1) + ScoreRow(t, w, y) + ScoreRow(t, w, y + 1)
  }

  lemma ColumnOfTable(t: Scores, w: nat, y: int, x: int)
    requires w >= 2 && -1 <= x <= w && Bordered(t, w)
    ensures ColumnSum(ScoreTable(t, w, y), w, x) == t(x, y - 1) + t(x, y) + t(x, y + 1)
  {
  }

  /**
   * The sum over flat indices is the sum over the pixel and its neighbours: an index that runs off
   * one end of a row lands in an outer column of another row, and those hold 0.
   */
  lemma NineSumIsHomogeneity(t: Scores, w: nat, y: int, x: int)
    requires w >= 2 && 0 <= x < w && Bordered(t, w)
    ensures NineSum(ScoreTable(t, w, y), w, x) == Homogeneity(t, x, y)
  {
    ColumnOfTable(t, w, y, x - 1);
    ColumnOfTable(t, w, y, x);
    ColumnOfTable(t, w, y, x + 1);
  }

  /** The first k entries of a column of the table. */
  ghost function PartColumn(s: seq<Byte>, w: nat, j: int, k: nat): int
    requires |s| == 3 * w
  {
    if k == 0 then 0 else PartColumn(s, w, j, k - 1) + Entry(s, w, j + w * (k - 1))
  }

  /** The first i columns around x. */
  ghost function PartNine(s: seq<Byte>, w: nat, x: int, i: int): int
    requires |s| == 3 * w && -1 <= i
    decreases i
  {
    if i == -1 then 0 else PartNine(s, w, x, i - 1) + PartColumn(s, w, x + i - 1, 3)
  }

  lemma PartNineIsNineSum(s: seq<Byte>, w: nat, x: int)
    requires |s| == 3 * w
    ensures PartNine(s, w, x, 2) == NineSum(s, w, x)
  {
    PartColumnIsColumnSum(s, w, x - 1);
    PartColumnIsColumnSum(s, w, x);
    PartColumnIsColumnSum(s, w, x + 1);
    assert PartNine(s, w, x, 0) == ColumnSum(s, w, x - 1);
    assert PartNine(s, w, x, 1) == PartNine(s, w, x, 0) + ColumnSum(s, w, x);
  }

  lemma PartColumnIsColumnSum(s: seq<Byte>, w: nat, j: int)
    requires |s| == 3 * w
    ensures PartColumn(s, w, j, 3) == ColumnSum(s, w, j)
  {
    assert PartColumn(s, w, j, 1) == Entry(s, w, j);
    assert PartColumn(s, w, j, 2) == PartColumn(s, w, j, 1) + Entry(s, w, j + w);
  }

  /** The nine-point sum in a byte: entries of at most 4 never make it wrap. */
  method SumNine(hom: array<Byte>, w: nat, x: int) returns (sum: Byte)
    requires hom.Length == 3 * w && forall j :: 0 <= j < 3 * w ==> hom[j] <= 4
    ensures sum == NineSum(hom[..], w, x)
  {
    sum := 0;
    for i := -1 to 2
      invariant sum == PartNine(hom[..], w, x, i) <= 12 * (i + 1)
    {
      ghost var before := sum;
      for k := 0 to 3
        invariant sum == before + PartColumn(hom[..], w, x + i, k) <= 12 * (i + 1) + 4 * k
      {
        var j := i + x + w * k;
        if 0 <= j < 3 * w {
          sum := sum + hom[j];
        }
      }
    }
    PartNineIsNineSum(hom[..], w, x);
  }

  // ------------------------------------------------------------------
  // Choosing one row
  // ------------------------------------------------------------------

  /** The raster is final before index n and as it was from n on. */
  ghost predicate Progress(now: seq<Byte>, raw: seq<Byte>, goal: seq<Byte>, n: int) {
    && |now| == |raw| == |goal|
    && 0 <= n <= |now|
    && now[..n] == goal[..n]
    && now[n..] == raw[n..]
  }

  /** Writes the three channels of the pixel at index n. */
  method StorePixel(image: array<Byte>, n: nat, r: Byte, g: Byte, b: Byte, ghost raw: seq<Byte>, ghost goal: seq<Byte>)
    requires Progress(image[..], raw, goal, n) && n + 3 <= |goal|
    requires goal[n..n + 3] == [r, g, b]
    modifies image
    ensures Progress(image[..], raw, goal, n + 3)
  {
    ghost var was := image[..];
    image[n + RED] := r;
    image[n + GREEN] := g;
    image[n + BLUE] := b;
    assert image[..n] == was[..n];
    assert image[n..n + 3] == goal[n..n + 3];
    assert image[n + 3..] == was[n + 3..] == was[n..][3..];
    ExtendPrefix(image[..], goal, n);
    assert image[..][..n + 3] == image[..n + 3];
  }

  /** The two score tables hold the three rows around row y. */
  ghost predicate Scored(hom: array<Byte>, t: Scores, w: nat, y: int)
    reads hom
  {
    Bordered(t, w) && hom[..] == ScoreTable(t, w, y)
  }

  lemma ScoredIsSmall(hom: array<Byte>, t: Scores, w: nat, y: int)
    requires Scored(hom, t, w, y)
    ensures hom.Length == 3 * w && forall j :: 0 <= j < 3 * w ==> hom[j] <= 4
  {
    assert forall j :: 0 <= j < 3 * w ==> hom[j] == hom[..][j];
  }

  /** Chooses one pixel between row 2 of the two windows. */
  method ChoosePixel(windowH: array<Byte>, windowV: array<Byte>, homH: array<Byte>, homV: array<Byte>,
                     w: nat, h: nat, x: int, y: int, ghost f: Picture, ghost tile: int)
    returns (red: Byte, green: Byte, blue: Byte)
    requires w >= 2 && h >= 2 && InRange(x, y, w, h)
    requires HoldsRow(windowH[..], w, 6 * w, Filled(Across, f, w, h, tile), y)
    requires HoldsRow(windowV[..], w, 6 * w, Filled(Down, f, w, h, tile), y)
    requires Scored(homH, ScoresOf(Across, Reconstructions(f, w, h, tile), w), w, y)
    requires Scored(homV, ScoresOf(Down, Reconstructions(f, w, h, tile), w), w, y)
    ensures Rgb(red, green, blue) == PixelOf(Ahd(f, w, h, tile), x, y)
  {
    hide Filled, Ahd, ScoresOf, Homogeneity, Chosen, Render, HoldsRow, ScoreTable, NineSum, Bordered;
    ghost var r := Reconstructions(f, w, h, tile);
    ghost var s, t := ScoresOf(Across, r, w), ScoresOf(Down, r, w);
    ScoredIsSmall(homH, s, w, y);
    ScoredIsSmall(homV, t, w, y);
    var across := SumNine(homH, w, x);
    var down := SumNine(homV, w, x);
    NineSumIsHomogeneity(s, w, y, x);
    NineSumIsHomogeneity(t, w, y, x);
    PixelInRow(windowH[..], w, 6 * w, r.across, y, x, 6 * w + 3 * x);
    PixelInRow(windowV[..], w, 6 * w, r.down, y, x, 6 * w + 3 * x);
    ChosenPixel(f, w, h, tile, x, y);
    var i := 3 * x + 6 * w;
    red := Chosen(across, down, windowH[i + RED], windowV[i + RED]);
    green := Chosen(across, down, windowH[i + GREEN], windowV[i + GREEN]);
    blue := Chosen(across, down, windowH[i + BLUE], windowV[i + BLUE]);
  }

  /** Overwrites row y of the image with the pixels chosen between row 2 of the two windows. */
  method ChooseRow(image: array<Byte>, windowH: array<Byte>, windowV: array<Byte>, homH: array<Byte>, homV: array<Byte>,
                   w: nat, h: nat, y: int, ghost f: Picture, ghost tile: int,
                   ghost raw: seq<Byte>, ghost goal: seq<Byte>)
    requires w >= 2 && h >= 2 && 0 <= y < h && image.Length == h * w * 3
    requires image !in {windowH, windowV, homH, homV}
    requires HoldsRow(windowH[..], w, 6 * w, Filled(Across, f, w, h, tile), y)
    requires HoldsRow(windowV[..], w, 6 * w, Filled(Down, f, w, h, tile), y)
    requires Scored(homH, ScoresOf(Across, Reconstructions(f, w, h, tile), w), w, y)
    requires Scored(homV, ScoresOf(Down, Reconstructions(f, w, h, tile), w), w, y)
    requires goal == Render(w, h, Ahd(f, w, h, tile)) && Progress(image[..], raw, goal, Ad(0, y, w))
    modifies image
    ensures Progress(image[..], raw, goal, Ad(0, y + 1, w))
  {
    hide Filled, Ahd, ScoresOf, Render, HoldsRow, Scored, Progress, Reconstructions, Ad;
    for x := 0 to w
      invariant Progress(image[..], raw, goal, Ad(x, y, w))
    {
      var red, green, blue := ChoosePixel(windowH, windowV, homH, homV, w, h, x, y, f, tile);
      RenderPixel(w, h, Ahd(f, w, h, tile), x, y);
      var n := 3 * y * w + 3 * x;
      NextPixel(x, y, w);
      StorePixel(image, n, red, green, blue, raw, goal);
    }
    AdNextRow(0, y, w);
  }

  lemma NextPixel(x: int, y: int, w: int)
    ensures 3 * y * w + 3 * x == Ad(x, y, w) && Ad(x + 1, y, w) == Ad(x, y, w) + 3
  {
  }

  lemma ChosenPixel(f: Picture, w: int, h: int, tile: int, x: int, y: int)
    requires w >= 2 && h >= 2
    ensures var r := Reconstructions(f, w, h, tile);
            var s, t := Homogeneity(ScoresOf(Across, r, w), x, y), Homogeneity(ScoresOf(Down, r, w), x, y);
            var p, q := PixelOf(Filled(Across, f, w, h, tile), x, y), PixelOf(Filled(Down, f, w, h, tile), x, y);
            PixelOf(Ahd(f, w, h, tile), x, y)
              == Rgb(Chosen(s, t, p.r, q.r), Chosen(s, t, p.g, q.g), Chosen(s, t, p.b, q.b))
  {
    hide Filled, ScoresOf, Homogeneity, Chosen;
  }

  // ------------------------------------------------------------------
  // Sliding
  // ------------------------------------------------------------------

  /** Moves n elements from index `from` down to the front. */
  method MoveDown(a: array<Byte>, from: nat, n: nat)
    requires from + n <= a.Length
    modifies a
    ensures a[..n] == old(a[from..from + n]) && a[n..] == old(a[n..])
  {
    forall i | 0 <= i < n {
      a[i] := a[from + i];
    }
  }

  /** Window rows 2 to 4 as the loop finds them: two complete rows and one with green complete. */
  ghost predicate Primed(s: seq<Byte>, d: Dir, f: Picture, w: nat, h: nat, tile: int, y: int)
    requires w >= 2 && h >= 2
  {
    && |s| == 18 * w
    && HoldsRow(s, w, 6 * w, Filled(d, f, w, h, tile), y)
    && HoldsRow(s, w, 9 * w, Filled(d, f, w, h, tile), y + 1)
    && HoldsRow(s, w, 12 * w, Greened(d, f, w, h, tile), y + 2)
  }

  /** Window rows 2 to 5 once row y + 2 is complete and row y + 3 has its greens. */
  ghost predicate Completed(s: seq<Byte>, d: Dir, f: Picture, w: nat, h: nat, tile: int, y: int)
    requires w >= 2 && h >= 2
  {
    && |s| == 18 * w
    && HoldsRow(s, w, 6 * w, Filled(d, f, w, h, tile), y)
    && HoldsRow(s, w, 9 * w, Filled(d, f, w, h, tile), y + 1)
    && HoldsRow(s, w, 12 * w, Filled(d, f, w, h, tile), y + 2)
    && HoldsRow(s, w, 15 * w, Greened(d, f, w, h, tile), y + 3)
  }

  /** The score rows as the loop finds them: those of rows y - 1 and y, and empty outer columns in the third. */
  ghost predicate Waiting(s: seq<Byte>, t: Scores, w: nat, y: int) {
    && w >= 2 && |s| == 3 * w
    && s[..2 * w] == ScoreRow(t, w, y - 1) + ScoreRow(t, w, y)
    && s[2 * w] == s[3 * w - 1] == 0
  }

  lemma Shifted(s: seq<Byte>, s': seq<Byte>, off: nat, n: nat, a: nat, b: nat)
    requires a <= b <= n && off + n <= |s| && n <= |s'| && s'[..n] == s[off..off + n]
    ensures s'[a..b] == s[off + a..off + b]
  {
    forall k | a <= k < b
      ensures s'[k] == s[off + k]
    {
      assert s'[k] == s'[..n][k] == s[off..off + n][k];
    }
  }

  lemma SlideWindow(s: seq<Byte>, s': seq<Byte>, d: Dir, f: Picture, w: nat, h: nat, tile: int, y: int)
    requires w >= 2 && h >= 2 && Completed(s, d, f, w, h, tile, y)
    requires |s'| == 18 * w && s'[..15 * w] == s[3 * w..18 * w]
    ensures Primed(s', d, f, w, h, tile, y + 1)
  {
    hide Filled, Greened, Row;
    Shifted(s, s', 3 * w, 15 * w, 6 * w, 9 * w);
    Shifted(s, s', 3 * w, 15 * w, 9 * w, 12 * w);
    Shifted(s, s', 3 * w, 15 * w, 12 * w, 15 * w);
  }

  lemma SlideScores(s: seq<Byte>, s': seq<Byte>, t: Scores, w: nat, y: int)
    requires w >= 2 && Bordered(t, w) && s == ScoreTable(t, w, y)
    requires |s'| == 3 * w && s'[..2 * w] == s[w..3 * w] && s'[2 * w..] == s[2 * w..]
    ensures Waiting(s', t, w, y + 1)
  {
    Shifted(s, s', w, 2 * w, 0, 2 * w);
    assert s[w..3 * w] == ScoreRow(t, w, y) + ScoreRow(t, w, y + 1);
    assert s'[2 * w] == s'[2 * w..][0] == s[2 * w..][0] == ScoreRow(t, w, y + 1)[0];
    assert s'[3 * w - 1] == s'[2 * w..][w - 1] == s[2 * w..][w - 1] == ScoreRow(t, w, y + 1)[w - 1];
  }

  // ------------------------------------------------------------------
  // One turn of the loop
  // ------------------------------------------------------------------

  /** Below the picture every row is black, complete or not. */
  lemma BlackBelow(d: Dir, raw: seq<Byte>, w: nat, h: nat, tile: int, y: int)
    requires w >= 2 && h >= 2 && |raw| == h * w * 3 && y >= h
    ensures var f := View(raw, w, h);
            Row(w, f, y) == Row(w, Greened(d, f, w, h, tile), y) == Row(w, Filled(d, f, w, h, tile), y)
            == seq(3 * w, _ => 0)
  {
    var f := View(raw, w, h);
    forall x, c
      ensures f(x, y, c) == 0
    {
      assert !InRange(x, y, w, h);
    }
    BlackRow(w, f, y);
    BlackRow(w, Greened(d, f, w, h, tile), y);
    BlackRow(w, Filled(d, f, w, h, tile), y);
  }

  lemma BlackRow(w: nat, p: Picture, y: int)
    requires forall x, c :: p(x, y, c) == 0
    ensures Row(w, p, y) == seq(3 * w, _ => 0)
  {
    var black: seq<Byte> := seq(3 * w, _ => 0);
    forall k | 0 <= k < 3 * w
      ensures Row(w, p, y)[k] == black[k]
    {
      assert p(k / 3, y, k % 3) == 0;
    }
  }

  /** A row of the image that still shows picture f. */
  lemma RowShown(now: seq<Byte>, f: Picture, w: nat, h: nat, y: int)
    requires w >= 2 && 0 <= y < h && |now| == h * w * 3 && ShowsFrom(now, f, w, h, y)
    ensures 0 <= Ad(0, y, w) && Ad(0, y, w) + 3 * w <= h * w * 3
    ensures now[Ad(0, y, w)..Ad(0, y, w) + 3 * w] == Row(w, f, y)
  {
    AdInRange(0, y, w, h);
    AdInRange(w - 1, y, w, h);
    var n := Ad(0, y, w);
    assert Ad(w - 1, y, w) == n + 3 * (w - 1);
    forall k | 0 <= k < 3 * w
      ensures now[n..n + 3 * w][k] == Row(w, f, y)[k]
    {
      var x, c := k / 3, k % 3;
      AdInRange(x, y, w, h);
      assert Ad(x, y, w) + c == n + k;
      assert View(now, w, h)(x, y, c) == f(x, y, c);
    }
  }

  /** Copies n elements from one array into another. */
  method CopyInto(to: array<Byte>, at: nat, from: array<Byte>, start: nat, n: nat)
    requires to != from && at + n <= to.Length && start + n <= from.Length
    modifies to
    ensures Between(to[..], old(to[..]), at, at + n, from[start..start + n])
  {
    forall k | 0 <= k < n {
      to[at + k] := from[start + k];
    }
  }

  method BlackOut(to: array<Byte>, at: nat, n: nat)
    requires at + n <= to.Length
    modifies to
    ensures Between(to[..], old(to[..]), at, at + n, seq(n, _ => 0))
  {
    forall k | 0 <= k < n {
      to[at + k] := 0;
    }
  }

  /** Copies image row y into row 5 of both windows, or blacks it out below the picture. */
  method LoadRow(image: array<Byte>, windowH: array<Byte>, windowV: array<Byte>, w: nat, h: nat, y: int,
                 ghost raw: seq<Byte>)
    requires w >= 2 && h >= 2 && y >= 0 && image.Length == |raw| == h * w * 3
    requires windowH.Length == windowV.Length == 18 * w
    requires image != windowH && image != windowV && windowH != windowV
    requires ShowsFrom(image[..], View(raw, w, h), w, h, y)
    modifies windowH, windowV
    ensures Between(windowH[..], old(windowH[..]), 15 * w, 18 * w, Row(w, View(raw, w, h), y))
    ensures Between(windowV[..], old(windowV[..]), 15 * w, 18 * w, Row(w, View(raw, w, h), y))
  {
    hide View, ShowsFrom, Row, Between;
    if y < h {
      RowShown(image[..], View(raw, w, h), w, h, y);
      var start := 3 * y * w;
      assert start == Ad(0, y, w);
      assert image[start..start + 3 * w] == image[..][start..start + 3 * w];
      CopyInto(windowV, 15 * w, image, start, 3 * w);
      CopyInto(windowH, 15 * w, image, start, 3 * w);
    } else {
      BlackBelow(Across, raw, w, h, 0, y);
      BlackOut(windowV, 15 * w, 3 * w);
      BlackOut(windowH, 15 * w, 3 * w);
    }
  }

  /** Writing a row twice is writing it once. */
  lemma BetweenTwice(s: seq<Byte>, t: seq<Byte>, was: seq<Byte>, a: nat, b: nat, row: seq<Byte>, row': seq<Byte>)
    requires Between(t, was, a, b, row) && Between(s, t, a, b, row')
    ensures Between(s, was, a, b, row')
  {
  }

  /** Loads image row y into row 5 of both windows and completes its greens. */
  method LoadGreenRow(image: array<Byte>, windowH: array<Byte>, windowV: array<Byte>, w: nat, h: nat, y: int,
                      p: seq<int>, ghost raw: seq<Byte>, ghost tile: int)
    requires w >= 2 && h >= 2 && y >= 2 && image.Length == |raw| == h * w * 3 && p == PosCode(tile)
    requires windowH.Length == windowV.Length == 18 * w
    requires image != windowH && image != windowV && windowH != windowV
    requires ShowsFrom(image[..], View(raw, w, h), w, h, y - 2)
    modifies windowH, windowV
    ensures Between(windowH[..], old(windowH[..]), 15 * w, 18 * w,
      Row(w, Greened(Across, View(raw, w, h), w, h, tile), y))
    ensures Between(windowV[..], old(windowV[..]), 15 * w, 18 * w,
      Row(w, Greened(Down, View(raw, w, h), w, h, tile), y))
  {
    hide View, Row, Greened;
    ghost var f, wasH, wasV := View(raw, w, h), windowH[..], windowV[..];
    LoadRow(image, windowH, windowV, w, h, y, raw);
    if y < h {
      ghost var nowH, nowV := windowH[..], windowV[..];
      assert windowH[12 * w + 3 * w..12 * w + 6 * w] == nowH[15 * w..18 * w];
      assert windowV[12 * w + 3 * w..12 * w + 6 * w] == nowV[15 * w..18 * w];
      DoGreenCtrRow(image, windowH, windowV, 12 * w, w, h, y, p, f, tile);
      BetweenTwice(windowH[..], nowH, wasH, 15 * w, 18 * w, Row(w, f, y), Row(w, Greened(Across, f, w, h, tile), y));
      BetweenTwice(windowV[..], nowV, wasV, 15 * w, 18 * w, Row(w, f, y), Row(w, Greened(Down, f, w, h, tile), y));
    } else {
      BlackBelow(Across, raw, w, h, tile, y);
      BlackBelow(Down, raw, w, h, tile, y);
    }
  }

  lemma PrimedAndLoaded(s: seq<Byte>, s': seq<Byte>, d: Dir, f: Picture, w: nat, h: nat, tile: int, y: int)
    requires w >= 2 && h >= 2 && Primed(s, d, f, w, h, tile, y)
    requires Between(s', s, 15 * w, 18 * w, Row(w, Greened(d, f, w, h, tile), y + 3))
    ensures Primed(s', d, f, w, h, tile, y)
    ensures HoldsRow(s', w, 15 * w, Greened(d, f, w, h, tile), y + 3)
  {
    hide Row, Filled, Greened;
    assert s[..15 * w] == s[0..0 + 15 * w];
    Shifted(s, s', 0, 15 * w, 6 * w, 9 * w);
    Shifted(s, s', 0, 15 * w, 9 * w, 12 * w);
    Shifted(s, s', 0, 15 * w, 12 * w, 15 * w);
  }

  /** The rows around window row 4, which is about to be completed. */
  lemma PrimedIsFlanked(s: seq<Byte>, d: Dir, f: Picture, w: nat, h: nat, tile: int, y: int)
    requires w >= 2 && h >= 2 && 0 <= y + 2 < h && Primed(s, d, f, w, h, tile, y)
    requires HoldsRow(s, w, 15 * w, Greened(d, f, w, h, tile), y + 3)
    ensures Flanked(s, 9 * w, d, f, w, h, tile, y + 2)
    ensures s[9 * w + 3 * w..9 * w + 6 * w] == Row(w, Greened(d, f, w, h, tile), y + 2)
  {
    hide Row, Filled, Greened;
  }

  /** Completing window row 4 turns a primed window into a completed one. */
  lemma RowFourCompleted(s: seq<Byte>, s': seq<Byte>, d: Dir, f: Picture, w: nat, h: nat, tile: int, y: int)
    requires w >= 2 && h >= 2 && Primed(s, d, f, w, h, tile, y)
    requires HoldsRow(s, w, 15 * w, Greened(d, f, w, h, tile), y + 3)
    requires Between(s', s, 12 * w, 15 * w, Row(w, Filled(d, f, w, h, tile), y + 2))
    ensures Completed(s', d, f, w, h, tile, y)
  {
    hide Row, Filled, Greened;
    assert s[..12 * w] == s[0..0 + 12 * w];
    Shifted(s, s', 0, 12 * w, 6 * w, 9 * w);
    Shifted(s, s', 0, 12 * w, 9 * w, 12 * w);
    assert s'[15 * w..18 * w] == s'[15 * w..] == s[15 * w..] == s[15 * w..18 * w];
  }

  /** A raster that still has its rows from y on shows the original picture there. */
  lemma ShowsTail(now: seq<Byte>, raw: seq<Byte>, w: nat, h: nat, y: int)
    requires w >= 2 && |now| == |raw| == h * w * 3 && 0 <= y < h
    requires 0 <= Ad(0, y, w) <= |raw| && now[Ad(0, y, w)..] == raw[Ad(0, y, w)..]
    ensures ShowsFrom(now, View(raw, w, h), w, h, y)
  {
    forall p, q, c | InRange(p, q, w, h) && y <= q && 0 <= c < 3
      ensures View(now, w, h)(p, q, c) == View(raw, w, h)(p, q, c)
    {
      AdInRange(p, q, w, h);
      BelowStart(p, q, w, y);
      TailElement(now, raw, Ad(0, y, w), Ad(p, q, w) + c);
    }
  }

  lemma BelowStart(x: int, y: int, w: nat, y0: int)
    requires 0 <= x && y0 <= y
    ensures Ad(0, y0, w) <= Ad(x, y, w)
  {
    assert y0 * w <= y * w;
  }

  lemma TailElement(now: seq<Byte>, raw: seq<Byte>, n: int, k: int)
    requires |now| == |raw| && 0 <= n <= k < |now| && now[n..] == raw[n..]
    ensures now[k] == raw[k]
  {
    assert now[k] == now[n..][k - n] && raw[k] == raw[n..][k - n];
  }

  lemma ShowsFromLater(now: seq<Byte>, f: Picture, w: nat, h: nat, y: int, y': int)
    requires |now| == h * w * 3 && y <= y' && ShowsFrom(now, f, w, h, y)
    ensures ShowsFrom(now, f, w, h, y')
  {
  }

  /** Steps 1 to 3 of the loop: load row y + 3, complete its greens, complete row y + 2. */
  method CompleteWindows(image: array<Byte>, windowH: array<Byte>, windowV: array<Byte>, w: nat, h: nat, y: int,
                         p: seq<int>, ghost raw: seq<Byte>, ghost tile: int)
    requires w >= 2 && h >= 2 && 0 <= y < h && image.Length == |raw| == h * w * 3 && p == PosCode(tile)
    requires windowH.Length == windowV.Length == 18 * w
    requires image != windowH && image != windowV && windowH != windowV
    requires ShowsFrom(image[..], View(raw, w, h), w, h, y)
    requires Primed(windowH[..], Across, View(raw, w, h), w, h, tile, y)
    requires Primed(windowV[..], Down, View(raw, w, h), w, h, tile, y)
    modifies windowH, windowV
    ensures Completed(windowH[..], Across, View(raw, w, h), w, h, tile, y)
    ensures Completed(windowV[..], Down, View(raw, w, h), w, h, tile, y)
  {
    hide Row, Filled, Greened, View, ShowsFrom, HoldsRow, Between;
    ghost var f := View(raw, w, h);
    ghost var wasH, wasV := windowH[..], windowV[..];
    ShowsFromLater(image[..], f, w, h, y, y + 1);
    LoadGreenRow(image, windowH, windowV, w, h, y + 3, p, raw, tile);
    PrimedAndLoaded(wasH, windowH[..], Across, f, w, h, tile, y);
    PrimedAndLoaded(wasV, windowV[..], Down, f, w, h, tile, y);
    if y < h - 2 {
      PrimedIsFlanked(windowH[..], Across, f, w, h, tile, y);
      PrimedIsFlanked(windowV[..], Down, f, w, h, tile, y);
      ghost var nowH, nowV := windowH[..], windowV[..];
      assert windowH[9 * w + 3 * w..9 * w + 6 * w] == nowH[9 * w + 3 * w..9 * w + 6 * w];
      assert windowV[9 * w + 3 * w..9 * w + 6 * w] == nowV[9 * w + 3 * w..9 * w + 6 * w];
      DoRbCtrRow(windowH, windowV, 9 * w, w, h, y + 2, p, f, tile);
      RowFourCompleted(nowH, windowH[..], Across, f, w, h, tile, y);
      RowFourCompleted(nowV, windowV[..], Down, f, w, h, tile, y);
    } else {
      BlackBelow(Across, raw, w, h, tile, y + 2);
      BlackBelow(Down, raw, w, h, tile, y + 2);
      RowFourBlack(windowH[..], Across, f, w, h, tile, y);
      RowFourBlack(windowV[..], Down, f, w, h, tile, y);
    }
  }

  lemma RowFourBlack(s: seq<Byte>, d: Dir, f: Picture, w: nat, h: nat, tile: int, y: int)
    requires w >= 2 && h >= 2 && Primed(s, d, f, w, h, tile, y)
    requires HoldsRow(s, w, 15 * w, Greened(d, f, w, h, tile), y + 3)
    requires Row(w, Greened(d, f, w, h, tile), y + 2) == Row(w, Filled(d, f, w, h, tile), y + 2)
    ensures Completed(s, d, f, w, h, tile, y)
  {
    hide Row, Filled, Greened;
  }

  // ------------------------------------------------------------------
  // The whole run
  // ------------------------------------------------------------------

  /** Slides both windows down by one row. */
  method SlideWindows(windowH: array<Byte>, windowV: array<Byte>, w: nat, h: nat, y: int,
                      ghost f: Picture, ghost tile: int)
    requires w >= 2 && h >= 2 && windowH != windowV
    requires Completed(windowH[..], Across, f, w, h, tile, y) && Completed(windowV[..], Down, f, w, h, tile, y)
    modifies windowH, windowV
    ensures Primed(windowH[..], Across, f, w, h, tile, y + 1) && Primed(windowV[..], Down, f, w, h, tile, y + 1)
  {
    hide Row, Filled, Greened, HoldsRow;
    ghost var nowH, nowV := windowH[..], windowV[..];
    MoveDown(windowV, 3 * w, 15 * w);
    MoveDown(windowH, 3 * w, 15 * w);
    assert nowH[3 * w..18 * w] == windowH[..][..15 * w] && nowV[3 * w..18 * w] == windowV[..][..15 * w];
    SlideWindow(nowH, windowH[..], Across, f, w, h, tile, y);
    SlideWindow(nowV, windowV[..], Down, f, w, h, tile, y);
  }

  /** Slides one score table down by one row. */
  method SlideTable(hom: array<Byte>, w: nat, y: int, ghost t: Scores)
    requires w >= 2 && Scored(hom, t, w, y)
    modifies hom
    ensures Waiting(hom[..], t, w, y + 1)
  {
    hide ScoreTable, Bordered;
    ghost var now := hom[..];
    MoveDown(hom, w, 2 * w);
    assert hom[..][..2 * w] == now[w..3 * w] && hom[..][2 * w..] == now[2 * w..];
    SlideScores(now, hom[..], t, w, y);
  }

  /** Adding the scores of row y + 1 to a waiting table. */
  lemma TableScored(s: seq<Byte>, s': seq<Byte>, t: Scores, w: nat, y: int)
    requires Waiting(s, t, w, y) && Between(s', s, 2 * w, 3 * w, ScoreRow(t, w, y + 1))
    ensures s' == ScoreTable(t, w, y)
  {
    hide ScoreRow;
    assert s' == s'[..2 * w] + s'[2 * w..3 * w];
  }

  lemma CompletedSurrounds(s: seq<Byte>, d: Dir, f: Picture, w: nat, h: nat, tile: int, y: int)
    requires w >= 2 && h >= 2 && Completed(s, d, f, w, h, tile, y)
    ensures Surrounds(s, w, Filled(d, f, w, h, tile), y + 1)
    ensures HoldsRow(s, w, 6 * w, Filled(d, f, w, h, tile), y)
  {
    hide HoldsRow, Filled, Greened;
  }

  /** The score tables while row y waits to be chosen. */
  ghost predicate TablesWait(homH: array<Byte>, homV: array<Byte>, f: Picture, w: nat, h: nat, tile: int, y: int)
    requires w >= 2 && h >= 2
    reads homH, homV
  {
    var r := Reconstructions(f, w, h, tile);
    Waiting(homH[..], ScoresOf(Across, r, w), w, y) && Waiting(homV[..], ScoresOf(Down, r, w), w, y)
  }

  /** Scores row y + 1, chooses row y and slides the tables. */
  method ScoreAndChoose(image: array<Byte>, windowH: array<Byte>, windowV: array<Byte>,
                        homH: array<Byte>, homV: array<Byte>, w: nat, h: nat, y: int,
                        ghost f: Picture, ghost tile: int, ghost raw: seq<Byte>, ghost goal: seq<Byte>)
    requires w >= 2 && h >= 2 && 0 <= y < h && image.Length == h * w * 3
    requires image !in {windowH, windowV, homH, homV} && homH !in {windowH, windowV, homV}
    requires homV !in {windowH, windowV}
    requires Completed(windowH[..], Across, f, w, h, tile, y) && Completed(windowV[..], Down, f, w, h, tile, y)
    requires TablesWait(homH, homV, f, w, h, tile, y)
    requires goal == Render(w, h, Ahd(f, w, h, tile)) && Progress(image[..], raw, goal, Ad(0, y, w))
    modifies image, homH, homV
    ensures TablesWait(homH, homV, f, w, h, tile, y + 1)
    ensures Progress(image[..], raw, goal, Ad(0, y + 1, w))
  {
    hide Filled, Greened, Ahd, Render, HoldsRow, Progress, Completed, ScoresOf, ScoreRow, ScoreTable, Bordered;
    ghost var r := Reconstructions(f, w, h, tile);
    ghost var s, t := ScoresOf(Across, r, w), ScoresOf(Down, r, w);
    CompletedSurrounds(windowH[..], Across, f, w, h, tile, y);
    CompletedSurrounds(windowV[..], Down, f, w, h, tile, y);
    ScoresBordered(Across, r, w);
    ScoresBordered(Down, r, w);
    ghost var wasH, wasV := homH[..], homV[..];
    GetDiffsRow2(homH, homV, windowH, windowV, w, r, y + 1);
    TableScored(wasH, homH[..], s, w, y);
    TableScored(wasV, homV[..], t, w, y);
    ChooseRow(image, windowH, windowV, homH, homV, w, h, y, f, tile, raw, goal);
    SlideTable(homH, w, y, s);
    SlideTable(homV, w, y, t);
  }

  /** One turn of the loop: the image gains its final row y and the windows move on to row y + 1. */
  method Turn(image: array<Byte>, windowH: array<Byte>, windowV: array<Byte>, homH: array<Byte>, homV: array<Byte>,
              w: nat, h: nat, y: int, p: seq<int>, ghost tile: int, ghost raw: seq<Byte>, ghost goal: seq<Byte>)
    requires w >= 2 && h >= 3 && 0 <= y < h && image.Length == |raw| == h * w * 3 && p == PosCode(tile)
    requires windowH.Length == windowV.Length == 18 * w && windowH != windowV
    requires image !in {windowH, windowV, homH, homV} && homH !in {windowH, windowV, homV}
    requires homV !in {windowH, windowV}
    requires Primed(windowH[..], Across, View(raw, w, h), w, h, tile, y)
    requires Primed(windowV[..], Down, View(raw, w, h), w, h, tile, y)
    requires TablesWait(homH, homV, View(raw, w, h), w, h, tile, y)
    requires goal == Render(w, h, Ahd(View(raw, w, h), w, h, tile)) && Progress(image[..], raw, goal, Ad(0, y, w))
    modifies image, windowH, windowV, homH, homV
    ensures Primed(windowH[..], Across, View(raw, w, h), w, h, tile, y + 1)
    ensures Primed(windowV[..], Down, View(raw, w, h), w, h, tile, y + 1)
    ensures TablesWait(homH, homV, View(raw, w, h), w, h, tile, y + 1)
    ensures Progress(image[..], raw, goal, Ad(0, y + 1, w))
  {
    hide Primed, Completed, TablesWait, Ahd, Render, View;
    ghost var f := View(raw, w, h);
    ShowsTail(image[..], raw, w, h, y);
    ghost var tablesH, tablesV := homH[..], homV[..];
    CompleteWindows(image, windowH, windowV, w, h, y, p, raw, tile);
    ScoreAndChoose(image, windowH, windowV, homH, homV, w, h, y, f, tile, raw, goal);
    SlideWindows(windowH, windowV, w, h, y, f, tile);
  }
}
