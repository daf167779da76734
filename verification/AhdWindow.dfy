/**
 * The row-by-row steps of the homogeneity-directed demosaicer. Six rows of each reconstruction are
 * kept in a window; a step completes one row of the window in place.
 */
module AhdWindow {
  import opened Prelude
  import opened Mosaic
  import opened AhdPicture

  /** Row y of a picture as it lies in memory. */
  function Row(w: nat, p: Picture, y: int): (row: seq<Byte>)
    ensures |row| == 3 * w
  {
    seq(3 * w, k requires 0 <= k < 3 * w => p(k / 3, y, k % 3))
  }

  lemma RowAt(w: nat, p: Picture, y: int, x: int, c: int)
    requires 0 <= x < w && 0 <= c < 3
    ensures Row(w, p, y)[3 * x + c] == p(x, y, c)
  {
  }

  /** The first n elements of one row followed by the rest of another. */
  function Blend(done: seq<Byte>, todo: seq<Byte>, n: nat): (s: seq<Byte>)
    requires n <= |done| == |todo|
    ensures |s| == |done|
  {
    done[..n] + todo[n..]
  }

  // ------------------------------------------------------------------
  // Green
  // ------------------------------------------------------------------

  function Read(image: array<Byte>, w: nat, h: nat, x: int, y: int, c: int): (v: Byte)
    requires image.Length == h * w * 3 && InRange(x, y, w, h) && 0 <= c < 3
    reads image
    ensures v == View(image[..], w, h)(x, y, c)
  {
    AdInRange(x, y, w, h);
    image[Ad(x, y, w) + c]
  }

  /** From row y0 on, the raster still shows picture f. */
  ghost predicate ShowsFrom(raster: seq<Byte>, f: Picture, w: nat, h: nat, y0: int)
    requires |raster| == h * w * 3
  {
    forall x, y, c :: InRange(x, y, w, h) && y0 <= y && 0 <= c < 3 ==> View(raster, w, h)(x, y, c) == f(x, y, c)
  }

  method GreenAcross(image: array<Byte>, w: nat, h: nat, x: int, y: int, c: int, ghost f: Picture, ghost tile: int)
    returns (g: Byte)
    requires image.Length == h * w * 3 && w >= 2 && h >= 2 && InRange(x, y, w, h)
    requires c == Sensed(tile, x, y) && c != GREEN
    requires ShowsFrom(image[..], f, w, h, y - 2)
    ensures g == GreenAt(Across, f, w, h, tile, x, y)
  {
    assert 0 <= c < 3;
    hide Clamp, Quotient, Sensed;
    var value: int, div: int := 2 * Read(image, w, h, x, y, c), 2;
    if x < w - 1 {
      value, div := value + 2 * Read(image, w, h, x + 1, y, GREEN), div + 2;
    }
    if x < w - 2 {
      value, div := value - Read(image, w, h, x + 2, y, c), div - 1;
    }
    if x > 0 {
      value, div := value + 2 * Read(image, w, h, x - 1, y, GREEN), div + 2;
    }
    if x > 1 {
      value, div := value - Read(image, w, h, x - 2, y, c), div - 1;
    }
    return Clamp(Quotient(value, div));
  }

  method GreenDown(image: array<Byte>, w: nat, h: nat, x: int, y: int, c: int, ghost f: Picture, ghost tile: int)
    returns (g: Byte)
    requires image.Length == h * w * 3 && w >= 2 && h >= 2 && InRange(x, y, w, h)
    requires c == Sensed(tile, x, y) && c != GREEN
    requires ShowsFrom(image[..], f, w, h, y - 2)
    ensures g == GreenAt(Down, f, w, h, tile, x, y)
  {
    assert 0 <= c < 3;
    hide Clamp, Quotient, Sensed;
    var value: int, div: int := 2 * Read(image, w, h, x, y, c), 2;
    if y < h - 1 {
      value, div := value + 2 * Read(image, w, h, x, y + 1, GREEN), div + 2;
    }
    if y < h - 2 {
      value, div := value - Read(image, w, h, x, y + 2, c), div - 1;
    }
    if y > 0 {
      value, div := value + 2 * Read(image, w, h, x, y - 1, GREEN), div + 2;
    }
    if y > 1 {
      value, div := value - Read(image, w, h, x, y - 2, c), div - 1;
    }
    return Clamp(Quotient(value, div));
  }

  /** Row y of the image with green completed in its first n pixels. */
  ghost function Greening(d: Dir, f: Picture, w: nat, h: nat, tile: int, y: int, n: nat): (row: seq<Byte>)
    requires w >= 2 && h >= 2 && n <= w
    ensures |row| == 3 * w
    ensures n == 0 ==> row == Row(w, f, y)
    ensures n == w ==> row == Row(w, Greened(d, f, w, h, tile), y)
  {
    Blend(Row(w, Greened(d, f, w, h, tile), y), Row(w, f, y), 3 * n)
  }

  /** Completing green at one more pixel of a row. */
  lemma GreenStep(d: Dir, f: Picture, w: nat, h: nat, tile: int, x: nat, y: int)
    requires w >= 2 && h >= 2 && InRange(x, y, w, h)
    ensures var row := Greening(d, f, w, h, tile, y, x);
            Greening(d, f, w, h, tile, y, x + 1)
              == if Sensed(tile, x, y) == GREEN then row else row[3 * x + GREEN := GreenAt(d, f, w, h, tile, x, y)]
  {
    var g := Greened(d, f, w, h, tile);
    RowAt(w, g, y, x, RED);
    RowAt(w, g, y, x, GREEN);
    RowAt(w, g, y, x, BLUE);
    RowAt(w, f, y, x, RED);
    RowAt(w, f, y, x, GREEN);
    RowAt(w, f, y, x, BLUE);
    BlendStep(Row(w, g, y), Row(w, f, y), 3 * x);
  }

  lemma BlendStep(done: seq<Byte>, todo: seq<Byte>, n: nat)
    requires |done| == |todo| && n + 3 <= |done|
    requires done[n + RED] == todo[n + RED] && done[n + BLUE] == todo[n + BLUE]
    ensures Blend(done, todo, n + 3) == Blend(done, todo, n)[n + GREEN := done[n + GREEN]]
    ensures done[n + GREEN] == todo[n + GREEN] ==> Blend(done, todo, n + 3) == Blend(done, todo, n)
  {
  }

  /** Completes green at one pixel of the row at a, in both directions. */
  method GreenPixel(image: array<Byte>, windowH: array<Byte>, windowV: array<Byte>, a: nat,
                    w: nat, h: nat, x: nat, y: int, p: seq<int>, ghost f: Picture, ghost tile: int)
    requires image.Length == h * w * 3 && w >= 2 && h >= 2 && InRange(x, y, w, h) && p == PosCode(tile)
    requires a + 3 * w <= windowH.Length == windowV.Length
    requires image != windowH && image != windowV && windowH != windowV
    requires ShowsFrom(image[..], f, w, h, y - 2)
    modifies windowH, windowV
    ensures Sensed(tile, x, y) == GREEN ==> windowH[..] == old(windowH[..]) && windowV[..] == old(windowV[..])
    ensures Sensed(tile, x, y) != GREEN ==>
      && windowH[..] == old(windowH[..])[a + 3 * x + GREEN := GreenAt(Across, f, w, h, tile, x, y)]
      && windowV[..] == old(windowV[..])[a + 3 * x + GREEN := GreenAt(Down, f, w, h, tile, x, y)]
  {
    PosCodeIsSite(tile, x, y);
    var bayer := Bayer(x, y);
    if bayer == p[0] || bayer == p[3] {
      var c := if bayer == p[0] then RED else BLUE;
      var across := GreenAcross(image, w, h, x, y, c, f, tile);
      windowH[a + 3 * x + GREEN] := across;
      var down := GreenDown(image, w, h, x, y, c, f, tile);
      windowV[a + 3 * x + GREEN] := down;
    }
  }

  lemma SliceUpdate(s: seq<Byte>, a: nat, b: nat, j: nat, v: Byte)
    requires a + j < b <= |s|
    ensures s[a + j := v][a..b] == s[a..b][j := v]
    ensures s[a + j := v][..a] == s[..a] && s[a + j := v][b..] == s[b..]
  {
  }

  /** Between the rows before a and after b the two windows hold what the two directions make of row y. */
  ghost predicate Between(s: seq<Byte>, was: seq<Byte>, a: nat, b: nat, row: seq<Byte>) {
    a <= b <= |s| == |was| && s[a..b] == row && s[..a] == was[..a] && s[b..] == was[b..]
  }

  lemma BetweenWrite(s: seq<Byte>, was: seq<Byte>, a: nat, b: nat, row: seq<Byte>, j: nat, v: Byte)
    requires Between(s, was, a, b, row) && a + j < b
    ensures Between(s[a + j := v], was, a, b, row[j := v])
  {
    SliceUpdate(s, a, b, j, v);
  }

  /** Completes green in the middle row of a window, which held row y of the image, in both directions. */
  method DoGreenCtrRow(image: array<Byte>, windowH: array<Byte>, windowV: array<Byte>, o: nat,
                       w: nat, h: nat, y: int, p: seq<int>, ghost f: Picture, ghost tile: int)
    requires image.Length == h * w * 3 && w >= 2 && h >= 2 && 0 <= y < h && p == PosCode(tile)
    requires o + 6 * w <= windowH.Length == windowV.Length
    requires image != windowH && image != windowV && windowH != windowV
    requires ShowsFrom(image[..], f, w, h, y - 2)
    requires windowH[o + 3 * w..o + 6 * w] == windowV[o + 3 * w..o + 6 * w] == Row(w, f, y)
    modifies windowH, windowV
    ensures Between(windowH[..], old(windowH[..]), o + 3 * w, o + 6 * w, Row(w, Greened(Across, f, w, h, tile), y))
    ensures Between(windowV[..], old(windowV[..]), o + 3 * w, o + 6 * w, Row(w, Greened(Down, f, w, h, tile), y))
  {
    var a, b := o + 3 * w, o + 6 * w;
    ghost var wasH, wasV := windowH[..], windowV[..];
    for x := 0 to w
      invariant Between(windowH[..], wasH, a, b, Greening(Across, f, w, h, tile, y, x))
      invariant Between(windowV[..], wasV, a, b, Greening(Down, f, w, h, tile, y, x))
    {
      GreenStep(Across, f, w, h, tile, x, y);
      GreenStep(Down, f, w, h, tile, x, y);
      ghost var nowH, nowV := windowH[..], windowV[..];
      BetweenWrite(nowH, wasH, a, b, Greening(Across, f, w, h, tile, y, x), 3 * x + GREEN,
                   GreenAt(Across, f, w, h, tile, x, y));
      BetweenWrite(nowV, wasV, a, b, Greening(Down, f, w, h, tile, y, x), 3 * x + GREEN,
                   GreenAt(Down, f, w, h, tile, x, y));
      GreenPixel(image, windowH, windowV, a, w, h, x, y, p, f, tile);
    }
  }

  // ------------------------------------------------------------------
  // Red and blue
  // ------------------------------------------------------------------

  /** The channel sensed at each position. */
  type Sensors = (int, int) -> int

  function SensorsOf(tile: int): Sensors {
    (x: int, y: int) => Sensed(tile, x, y)
  }

  /** The row holds green everywhere, and every sample, of row y of picture g. */
  ghost predicate HoldsSamples(row: seq<Byte>, g: Picture, w: nat, sensed: Sensors, y: int)
    requires |row| == 3 * w
  {
    forall x :: 0 <= x < w ==>
      && row[3 * x + GREEN] == g(x, y, GREEN)
      && 0 <= sensed(x, y) < 3 && row[3 * x + sensed(x, y)] == g(x, y, sensed(x, y))
  }

  lemma RowHolds(w: nat, p: Picture, g: Picture, sensed: Sensors, y: int)
    requires forall x :: 0 <= x < w ==>
               p(x, y, GREEN) == g(x, y, GREEN) && 0 <= sensed(x, y) < 3
               && p(x, y, sensed(x, y)) == g(x, y, sensed(x, y))
    ensures HoldsSamples(Row(w, p, y), g, w, sensed, y)
  {
    forall x | 0 <= x < w
      ensures Row(w, p, y)[3 * x + GREEN] == p(x, y, GREEN)
      ensures Row(w, p, y)[3 * x + sensed(x, y)] == p(x, y, sensed(x, y))
    {
      assert 0 <= sensed(x, y) < 3;
      RowAt(w, p, y, x, sensed(x, y));
      RowAt(w, p, y, x, GREEN);
    }
  }

  lemma RowHoldsSamples(d: Dir, f: Picture, w: nat, h: nat, tile: int, y: int)
    requires w >= 2 && h >= 2 && 0 <= y < h
    ensures var g := Greened(d, f, w, h, tile); HoldsSamples(Row(w, g, y), g, w, SensorsOf(tile), y)
    ensures HoldsSamples(Row(w, Filled(d, f, w, h, tile), y), Greened(d, f, w, h, tile), w, SensorsOf(tile), y)
  {
    RowHolds(w, Greened(d, f, w, h, tile), Greened(d, f, w, h, tile), SensorsOf(tile), y);
    RowHolds(w, Filled(d, f, w, h, tile), Greened(d, f, w, h, tile), SensorsOf(tile), y);
  }

  /** A row blended from two that hold the samples holds them too. */
  lemma BlendHoldsSamples(done: seq<Byte>, todo: seq<Byte>, n: nat, g: Picture, w: nat, sensed: Sensors, y: int)
    requires |done| == |todo| == 3 * w && n <= w
    requires HoldsSamples(done, g, w, sensed, y) && HoldsSamples(todo, g, w, sensed, y)
    ensures HoldsSamples(Blend(done, todo, 3 * n), g, w, sensed, y)
  {
    var s := Blend(done, todo, 3 * n);
    forall x | 0 <= x < w
      ensures var c := sensed(x, y); s[3 * x + GREEN] == g(x, y, GREEN) && s[3 * x + c] == g(x, y, c)
    {
      assert s[3 * x..3 * x + 3] == if x < n then done[3 * x..3 * x + 3] else todo[3 * x..3 * x + 3];
    }
  }

  /** Excess over green of the pixel x of the row at a. */
  method ReadExcess(window: array<Byte>, a: nat, w: nat, h: nat, x: int, y: int, c: int,
                    ghost g: Picture, ghost sensed: Sensors) returns (e: int)
    requires a + 3 * w <= window.Length && 0 <= c < 3
    requires InRange(x, y, w, h) && sensed(x, y) == c
    requires HoldsSamples(window[..][a..a + 3 * w], g, w, sensed, y)
    ensures e == Excess(g, w, h, x, y, c)
  {
    assert window[..][a..a + 3 * w][3 * x + c] == window[a + 3 * x + c];
    assert window[..][a..a + 3 * w][3 * x + GREEN] == window[a + 3 * x + GREEN];
    var colour: int, green: int := window[a + 3 * x + c], window[a + 3 * x + GREEN];
    return colour - green;
  }

  /** The three rows of a window around row y hold the samples of g, where such rows exist. */
  ghost predicate Ready(s: seq<Byte>, o: nat, g: Picture, w: nat, h: nat, sensed: Sensors, y: int) {
    && o + 9 * w <= |s|
    && 0 <= y < h
    && (y > 0 ==> HoldsSamples(s[o..o + 3 * w], g, w, sensed, y - 1))
    && HoldsSamples(s[o + 3 * w..o + 6 * w], g, w, sensed, y)
    && (y < h - 1 ==> HoldsSamples(s[o + 6 * w..o + 9 * w], g, w, sensed, y + 1))
  }

  /** Adds the excess at one neighbour, if that neighbour exists. */
  method AddExcess(window: array<Byte>, a: nat, w: nat, h: nat, x: int, y: int, c: int, value: int, div: nat,
                   ghost g: Picture, ghost sensed: Sensors) returns (value': int, div': nat)
    requires a + 3 * w <= window.Length && 0 <= c < 3 && sensed(x, y) == c
    requires InRange(x, y, w, h) ==> HoldsSamples(window[..][a..a + 3 * w], g, w, sensed, y)
    ensures value' == value + Excess(g, w, h, x, y, c)
    ensures div' == div + Exists(x, y, w, h)
  {
    value', div' := value, div;
    if InRange(x, y, w, h) {
      var e := ReadExcess(window, a, w, h, x, y, c, g, sensed);
      value', div' := value + e, div + 1;
    }
  }

  /** Adds the excess at the two neighbours beside column x in the row at a. */
  method AddPair(window: array<Byte>, a: nat, w: nat, h: nat, x: int, y: int, c: int, value: int, div: nat,
                 ghost g: Picture, ghost sensed: Sensors) returns (value': int, div': nat)
    requires a + 3 * w <= window.Length && 0 <= c < 3 && sensed(x - 1, y) == sensed(x + 1, y) == c
    requires 0 <= y < h ==> HoldsSamples(window[..][a..a + 3 * w], g, w, sensed, y)
    ensures value' == value + Excess(g, w, h, x - 1, y, c) + Excess(g, w, h, x + 1, y, c)
    ensures div' == div + Exists(x - 1, y, w, h) + Exists(x + 1, y, w, h)
  {
    value', div' := AddExcess(window, a, w, h, x - 1, y, c, value, div, g, sensed);
    value', div' := AddExcess(window, a, w, h, x + 1, y, c, value', div', g, sensed);
  }

  method FromCorners(window: array<Byte>, o: nat, w: nat, h: nat, x: int, y: int, c: int,
                     ghost g: Picture, ghost sensed: Sensors) returns (value: int, div: nat)
    requires InRange(x, y, w, h) && Ready(window[..], o, g, w, h, sensed, y) && 0 <= c < 3
    requires sensed(x - 1, y - 1) == sensed(x + 1, y - 1) == c
    requires sensed(x - 1, y + 1) == sensed(x + 1, y + 1) == c
    ensures value == Excess(g, w, h, x - 1, y - 1, c) + Excess(g, w, h, x + 1, y - 1, c)
                     + Excess(g, w, h, x - 1, y + 1, c) + Excess(g, w, h, x + 1, y + 1, c)
    ensures div == Exists(x - 1, y - 1, w, h) + Exists(x + 1, y - 1, w, h)
                   + Exists(x - 1, y + 1, w, h) + Exists(x + 1, y + 1, w, h)
  {
    value, div := AddPair(window, o, w, h, x, y - 1, c, 0, 0, g, sensed);
    value, div := AddPair(window, o + 6 * w, w, h, x, y + 1, c, value, div, g, sensed);
  }

  method FromColumn(window: array<Byte>, o: nat, w: nat, h: nat, x: int, y: int, c: int,
                    ghost g: Picture, ghost sensed: Sensors) returns (value: int, div: nat)
    requires InRange(x, y, w, h) && Ready(window[..], o, g, w, h, sensed, y) && 0 <= c < 3
    requires sensed(x, y - 1) == sensed(x, y + 1) == c
    ensures value == Excess(g, w, h, x, y - 1, c) + Excess(g, w, h, x, y + 1, c)
    ensures div == Exists(x, y - 1, w, h) + Exists(x, y + 1, w, h)
  {
    value, div := AddExcess(window, o, w, h, x, y - 1, c, 0, 0, g, sensed);
    value, div := AddExcess(window, o + 6 * w, w, h, x, y + 1, c, value, div, g, sensed);
  }

  method FromRow(window: array<Byte>, o: nat, w: nat, h: nat, x: int, y: int, c: int,
                 ghost g: Picture, ghost sensed: Sensors) returns (value: int, div: nat)
    requires InRange(x, y, w, h) && Ready(window[..], o, g, w, h, sensed, y) && 0 <= c < 3
    requires sensed(x - 1, y) == sensed(x + 1, y) == c
    ensures value == Excess(g, w, h, x - 1, y, c) + Excess(g, w, h, x + 1, y, c)
    ensures div == Exists(x - 1, y, w, h) + Exists(x + 1, y, w, h)
  {
    value, div := AddPair(window, o + 3 * w, w, h, x, y, c, 0, 0, g, sensed);
  }

  /** Total excess, and number of sites, behind the missing channel c at (x, y); none if c was sensed. */
  method MissingExcess(window: array<Byte>, o: nat, w: nat, h: nat, x: int, y: int, c: int, p: seq<int>,
                       ghost g: Picture, ghost tile: int) returns (value: int, div: nat)
    requires w >= 2 && h >= 2 && InRange(x, y, w, h) && p == PosCode(tile) && (c == RED || c == BLUE)
    requires Ready(window[..], o, g, w, h, SensorsOf(tile), y)
    ensures div == 0 <==> c == Sensed(tile, x, y)
    ensures div > 0 ==> value == ExcessSum(g, w, h, SiteAt(tile, x, y), x, y, c)
    ensures div > 0 ==> div == ExcessCount(w, h, SiteAt(tile, x, y), x, y, c)
  {
    hide Ready, Excess;
    PosCodeIsSite(tile, x, y);
    if c != Sensed(tile, x, y) {
      ExcessColours(tile, x, y, c);
    }
    var bayer := Bayer(x, y);
    if (c == RED && bayer == p[3]) || (c == BLUE && bayer == p[0]) {
      value, div := FromCorners(window, o, w, h, x, y, c, g, SensorsOf(tile));
    } else if (c == RED && bayer == p[2]) || (c == BLUE && bayer == p[1]) {
      value, div := FromColumn(window, o, w, h, x, y, c, g, SensorsOf(tile));
    } else if (c == RED && bayer == p[1]) || (c == BLUE && bayer == p[2]) {
      value, div := FromRow(window, o, w, h, x, y, c, g, SensorsOf(tile));
    } else {
      value, div := 0, 0;
    }
  }

  lemma WriteKeepsSamples(row: seq<Byte>, g: Picture, w: nat, sensed: Sensors, x: int, y: int, c: int, v: Byte)
    requires |row| == 3 * w && 0 <= x < w && 0 <= c < 3 && c != GREEN && c != sensed(x, y)
    requires HoldsSamples(row, g, w, sensed, y)
    ensures HoldsSamples(row[3 * x + c := v], g, w, sensed, y)
  {
    forall k | 0 <= k < w
      ensures row[3 * x + c := v][3 * k + GREEN] == row[3 * k + GREEN]
      ensures 0 <= sensed(k, y) < 3 && row[3 * x + c := v][3 * k + sensed(k, y)] == row[3 * k + sensed(k, y)]
    {
      assert row[3 * k + GREEN] == g(k, y, GREEN);
    }
  }

  lemma WriteKeepsReady(s: seq<Byte>, o: nat, g: Picture, w: nat, h: nat, sensed: Sensors, x: int, y: int, c: int,
                         v: Byte)
    requires Ready(s, o, g, w, h, sensed, y) && InRange(x, y, w, h)
    requires 0 <= c < 3 && c != GREEN && c != sensed(x, y)
    ensures Ready(s[o + 3 * w + 3 * x + c := v], o, g, w, h, sensed, y)
  {
    var t := s[o + 3 * w + 3 * x + c := v];
    WriteKeepsSamples(s[o + 3 * w..o + 6 * w], g, w, sensed, x, y, c, v);
    assert t[o..o + 3 * w] == s[o..o + 3 * w];
    assert t[o + 3 * w..o + 6 * w] == s[o + 3 * w..o + 6 * w][3 * x + c := v];
    assert t[o + 6 * w..o + 9 * w] == s[o + 6 * w..o + 9 * w];
  }

  /** What a sensed or green channel of the middle row holds. */
  lemma MiddleHolds(s: seq<Byte>, o: nat, g: Picture, w: nat, h: nat, tile: int, x: int, y: int)
    requires Ready(s, o, g, w, h, SensorsOf(tile), y) && InRange(x, y, w, h)
    ensures s[o + 3 * w + 3 * x + GREEN] == g(x, y, GREEN)
    ensures s[o + 3 * w + 3 * x + Sensed(tile, x, y)] == g(x, y, Sensed(tile, x, y))
  {
    var row := s[o + 3 * w..o + 6 * w];
    assert row[3 * x + GREEN] == g(x, y, GREEN);
    assert SensorsOf(tile)(x, y) == Sensed(tile, x, y);
    assert row[3 * x + Sensed(tile, x, y)] == g(x, y, Sensed(tile, x, y));
  }

  /** What channel c of (x, y) becomes when it is completed from picture g. */
  ghost predicate Completes(want: Byte, g: Picture, w: nat, h: nat, tile: int, x: int, y: int, c: int)
    requires w >= 2 && h >= 2 && InRange(x, y, w, h)
  {
    var site := SiteAt(tile, x, y);
    if c == Sensed(tile, x, y) then want == g(x, y, c)
    else want == Clamp(g(x, y, GREEN) + Quotient(ExcessSum(g, w, h, site, x, y, c), ExcessCount(w, h, site, x, y, c)))
  }

  lemma FilledCompletes(d: Dir, f: Picture, w: nat, h: nat, tile: int, x: int, y: int, c: int)
    requires w >= 2 && h >= 2 && InRange(x, y, w, h) && (c == RED || c == BLUE)
    ensures Completes(FilledAt(d, f, w, h, tile, x, y, c), Greened(d, f, w, h, tile), w, h, tile, x, y, c)
  {
  }

  /** Completing a channel leaves the window ready for the next one. */
  lemma StaysReady(s: seq<Byte>, o: nat, g: Picture, w: nat, h: nat, tile: int, x: int, y: int, c: int, want: Byte)
    requires w >= 2 && h >= 2 && InRange(x, y, w, h) && (c == RED || c == BLUE)
    requires Ready(s, o, g, w, h, SensorsOf(tile), y) && Completes(want, g, w, h, tile, x, y, c)
    ensures Ready(s[o + 3 * w + 3 * x + c := want], o, g, w, h, SensorsOf(tile), y)
    ensures c == Sensed(tile, x, y) ==> s[o + 3 * w + 3 * x + c := want] == s
    ensures s[o + 3 * w + 3 * x + GREEN] == g(x, y, GREEN)
  {
    MiddleHolds(s, o, g, w, h, tile, x, y);
    if c != Sensed(tile, x, y) {
      WriteKeepsReady(s, o, g, w, h, SensorsOf(tile), x, y, c, want);
    } else {
      assert s[o + 3 * w + 3 * x + c := want] == s;
    }
  }

  /** The value of channel c of one pixel of the middle row, unless it was sensed. */
  method ChannelValue(window: array<Byte>, o: nat, w: nat, h: nat, x: int, y: int, c: int, p: seq<int>,
                      ghost g: Picture, ghost tile: int, ghost want: Byte) returns (missing: bool, v: Byte)
    requires w >= 2 && h >= 2 && InRange(x, y, w, h) && p == PosCode(tile) && (c == RED || c == BLUE)
    requires Ready(window[..], o, g, w, h, SensorsOf(tile), y)
    requires Completes(want, g, w, h, tile, x, y, c)
    ensures missing == (c != Sensed(tile, x, y))
    ensures missing ==> v == want
  {
    MiddleHolds(window[..], o, g, w, h, tile, x, y);
    var value, div := MissingExcess(window, o, w, h, x, y, c, p, g, tile);
    if div > 0 {
      var green: int := window[o + 3 * w + 3 * x + GREEN];
      return true, Clamp(green + Quotient(value, div));
    }
    return false, 0;
  }

  /** Completes channel c of one pixel of the middle row, unless it was sensed. */
  method CompleteChannel(window: array<Byte>, o: nat, w: nat, h: nat, x: int, y: int, c: int, p: seq<int>,
                         ghost g: Picture, ghost tile: int, ghost want: Byte)
    requires w >= 2 && h >= 2 && InRange(x, y, w, h) && p == PosCode(tile) && (c == RED || c == BLUE)
    requires Ready(window[..], o, g, w, h, SensorsOf(tile), y)
    requires Completes(want, g, w, h, tile, x, y, c)
    modifies window
    ensures window[..] == old(window[..])[o + 3 * w + 3 * x + c := want]
  {
    StaysReady(window[..], o, g, w, h, tile, x, y, c, want);
    var missing, v := ChannelValue(window, o, w, h, x, y, c, p, g, tile, want);
    if missing {
      window[o + 3 * w + 3 * x + c] := v;
    }
  }

  /** Row y of a picture with red and blue completed in its first n pixels. */
  ghost function Partly(d: Dir, f: Picture, w: nat, h: nat, tile: int, y: int, n: nat): (row: seq<Byte>)
    requires w >= 2 && h >= 2 && n <= w
    ensures |row| == 3 * w
    ensures n == 0 ==> row == Row(w, Greened(d, f, w, h, tile), y)
    ensures n == w ==> row == Row(w, Filled(d, f, w, h, tile), y)
  {
    Blend(Row(w, Filled(d, f, w, h, tile), y), Row(w, Greened(d, f, w, h, tile), y), 3 * n)
  }

  lemma PartlyStep(d: Dir, f: Picture, w: nat, h: nat, tile: int, x: nat, y: int)
    requires w >= 2 && h >= 2 && InRange(x, y, w, h)
    ensures Partly(d, f, w, h, tile, y, x + 1)
         == Partly(d, f, w, h, tile, y, x)[3 * x + RED := FilledAt(d, f, w, h, tile, x, y, RED)]
                                          [3 * x + BLUE := FilledAt(d, f, w, h, tile, x, y, BLUE)]
  {
    hide Row, Filled, Greened, FilledAt;
    var p, g := Filled(d, f, w, h, tile), Greened(d, f, w, h, tile);
    RowAt(w, p, y, x, RED);
    RowAt(w, p, y, x, GREEN);
    RowAt(w, p, y, x, BLUE);
    RowAt(w, g, y, x, GREEN);
    FilledPixel(d, f, w, h, tile, x, y);
    ColourStep(Row(w, p, y), Row(w, g, y), 3 * x);
  }

  /** Filling a pixel keeps its green. */
  lemma FilledPixel(d: Dir, f: Picture, w: nat, h: nat, tile: int, x: nat, y: int)
    requires w >= 2 && h >= 2 && InRange(x, y, w, h)
    ensures var p := Filled(d, f, w, h, tile);
      && p(x, y, GREEN) == Greened(d, f, w, h, tile)(x, y, GREEN)
      && p(x, y, RED) == FilledAt(d, f, w, h, tile, x, y, RED)
      && p(x, y, BLUE) == FilledAt(d, f, w, h, tile, x, y, BLUE)
  {
  }

  lemma ColourStep(done: seq<Byte>, todo: seq<Byte>, n: nat)
    requires |done| == |todo| && n + 3 <= |done| && done[n + GREEN] == todo[n + GREEN]
    ensures Blend(done, todo, n + 3) == Blend(done, todo, n)[n + RED := done[n + RED]][n + BLUE := done[n + BLUE]]
  {
  }

  lemma PartlyHolds(d: Dir, f: Picture, w: nat, h: nat, tile: int, x: nat, y: int)
    requires w >= 2 && h >= 2 && InRange(x, y, w, h)
    ensures HoldsSamples(Partly(d, f, w, h, tile, y, x), Greened(d, f, w, h, tile), w, SensorsOf(tile), y)
  {
    var g := Greened(d, f, w, h, tile);
    RowHoldsSamples(d, f, w, h, tile, y);
    BlendHoldsSamples(Row(w, Filled(d, f, w, h, tile), y), Row(w, g, y), x, g, w, SensorsOf(tile), y);
  }

  /** The window around row y: the row above complete, the row below with green complete. */
  ghost predicate Flanked(s: seq<Byte>, o: nat, d: Dir, f: Picture, w: nat, h: nat, tile: int, y: int)
    requires w >= 2 && h >= 2
  {
    && o + 9 * w <= |s|
    && 0 <= y < h
    && (y > 0 ==> s[o..o + 3 * w] == Row(w, Filled(d, f, w, h, tile), y - 1))
    && (y < h - 1 ==> s[o + 6 * w..o + 9 * w] == Row(w, Greened(d, f, w, h, tile), y + 1))
  }

  lemma FlankedReady(s: seq<Byte>, o: nat, d: Dir, f: Picture, w: nat, h: nat, tile: int, x: nat, y: int)
    requires w >= 2 && h >= 2 && InRange(x, y, w, h)
    requires Flanked(s, o, d, f, w, h, tile, y)
    requires s[o + 3 * w..o + 6 * w] == Partly(d, f, w, h, tile, y, x)
    ensures Ready(s, o, Greened(d, f, w, h, tile), w, h, SensorsOf(tile), y)
  {
    PartlyHolds(d, f, w, h, tile, x, y);
    RowsAroundHold(d, f, w, h, tile, y);
  }

  lemma RowsAroundHold(d: Dir, f: Picture, w: nat, h: nat, tile: int, y: int)
    requires w >= 2 && h >= 2 && 0 <= y < h
    ensures var p, g := Filled(d, f, w, h, tile), Greened(d, f, w, h, tile);
            && (y > 0 ==> HoldsSamples(Row(w, p, y - 1), g, w, SensorsOf(tile), y - 1))
            && (y < h - 1 ==> HoldsSamples(Row(w, g, y + 1), g, w, SensorsOf(tile), y + 1))
  {
    if y > 0 { RowHoldsSamples(d, f, w, h, tile, y - 1); }
    if y < h - 1 { RowHoldsSamples(d, f, w, h, tile, y + 1); }
  }

  /** The rows around the middle one do not change while it is completed. */
  lemma BetweenFlanked(s: seq<Byte>, was: seq<Byte>, o: nat, d: Dir, f: Picture, w: nat, h: nat, tile: int, y: int,
                       row: seq<Byte>)
    requires w >= 2 && h >= 2 && Flanked(was, o, d, f, w, h, tile, y)
    requires Between(s, was, o + 3 * w, o + 6 * w, row)
    ensures Flanked(s, o, d, f, w, h, tile, y)
  {
    assert s[o..o + 3 * w] == s[..o + 3 * w][o..] == was[o..o + 3 * w];
    assert s[o + 6 * w..o + 9 * w] == s[o + 6 * w..][..3 * w] == was[o + 6 * w..o + 9 * w];
  }

  /** Both writes together complete one more pixel of the middle row. */
  lemma PixelCompleted(s: seq<Byte>, was: seq<Byte>, o: nat, d: Dir, f: Picture, w: nat, h: nat, tile: int, x: nat,
                        y: int)
    requires w >= 2 && h >= 2 && InRange(x, y, w, h)
    requires Between(s, was, o + 3 * w, o + 6 * w, Partly(d, f, w, h, tile, y, x))
    ensures Between(s[o + 3 * w + 3 * x + RED := FilledAt(d, f, w, h, tile, x, y, RED)]
                     [o + 3 * w + 3 * x + BLUE := FilledAt(d, f, w, h, tile, x, y, BLUE)],
                    was, o + 3 * w, o + 6 * w, Partly(d, f, w, h, tile, y, x + 1))
  {
    var a, b := o + 3 * w, o + 6 * w;
    var row := Partly(d, f, w, h, tile, y, x);
    var red, blue := FilledAt(d, f, w, h, tile, x, y, RED), FilledAt(d, f, w, h, tile, x, y, BLUE);
    PartlyStep(d, f, w, h, tile, x, y);
    BetweenWrite(s, was, a, b, row, 3 * x + RED, red);
    BetweenWrite(s[a + 3 * x + RED := red], was, a, b, row[3 * x + RED := red], 3 * x + BLUE, blue);
  }

  /** Completes both missing channels of one pixel in one window. */
  method CompletePixel(window: array<Byte>, o: nat, w: nat, h: nat, x: nat, y: int, p: seq<int>,
                       ghost g: Picture, ghost tile: int, ghost red: Byte, ghost blue: Byte)
    requires w >= 2 && h >= 2 && InRange(x, y, w, h) && p == PosCode(tile)
    requires Ready(window[..], o, g, w, h, SensorsOf(tile), y)
    requires Completes(red, g, w, h, tile, x, y, RED) && Completes(blue, g, w, h, tile, x, y, BLUE)
    modifies window
    ensures window[..] == old(window[..])[o + 3 * w + 3 * x + RED := red][o + 3 * w + 3 * x + BLUE := blue]
  {
    StaysReady(window[..], o, g, w, h, tile, x, y, RED, red);
    CompleteChannel(window, o, w, h, x, y, RED, p, g, tile, red);
    CompleteChannel(window, o, w, h, x, y, BLUE, p, g, tile, blue);
  }

  /** Completes both missing channels of one pixel as the window's direction reconstructs them. */
  method CompletePixelIn(window: array<Byte>, o: nat, w: nat, h: nat, x: nat, y: int, p: seq<int>,
                         ghost d: Dir, ghost f: Picture, ghost tile: int, ghost was: seq<Byte>)
    requires w >= 2 && h >= 2 && InRange(x, y, w, h) && p == PosCode(tile)
    requires Flanked(was, o, d, f, w, h, tile, y)
    requires Between(window[..], was, o + 3 * w, o + 6 * w, Partly(d, f, w, h, tile, y, x))
    modifies window
    ensures Between(window[..], was, o + 3 * w, o + 6 * w, Partly(d, f, w, h, tile, y, x + 1))
  {
    BetweenFlanked(window[..], was, o, d, f, w, h, tile, y, Partly(d, f, w, h, tile, y, x));
    FlankedReady(window[..], o, d, f, w, h, tile, x, y);
    FilledCompletes(d, f, w, h, tile, x, y, RED);
    FilledCompletes(d, f, w, h, tile, x, y, BLUE);
    PixelCompleted(window[..], was, o, d, f, w, h, tile, x, y);
    CompletePixel(window, o, w, h, x, y, p, Greened(d, f, w, h, tile), tile,
                  FilledAt(d, f, w, h, tile, x, y, RED), FilledAt(d, f, w, h, tile, x, y, BLUE));
  }

  /** Completes red and blue in the middle row of both windows. */
  method DoRbCtrRow(windowH: array<Byte>, windowV: array<Byte>, o: nat, w: nat, h: nat, y: int, p: seq<int>,
                    ghost f: Picture, ghost tile: int)
    requires w >= 2 && h >= 2 && p == PosCode(tile) && windowH != windowV
    requires Flanked(windowH[..], o, Across, f, w, h, tile, y) && Flanked(windowV[..], o, Down, f, w, h, tile, y)
    requires windowH[o + 3 * w..o + 6 * w] == Row(w, Greened(Across, f, w, h, tile), y)
    requires windowV[o + 3 * w..o + 6 * w] == Row(w, Greened(Down, f, w, h, tile), y)
    modifies windowH, windowV
    ensures Between(windowH[..], old(windowH[..]), o + 3 * w, o + 6 * w, Row(w, Filled(Across, f, w, h, tile), y))
    ensures Between(windowV[..], old(windowV[..]), o + 3 * w, o + 6 * w, Row(w, Filled(Down, f, w, h, tile), y))
  {
    ghost var wasH, wasV := windowH[..], windowV[..];
    for x := 0 to w
      invariant Between(windowH[..], wasH, o + 3 * w, o + 6 * w, Partly(Across, f, w, h, tile, y, x))
      invariant Between(windowV[..], wasV, o + 3 * w, o + 6 * w, Partly(Down, f, w, h, tile, y, x))
    {
      CompletePixelIn(windowH, o, w, h, x, y, p, Across, f, tile, wasH);
      CompletePixelIn(windowV, o, w, h, x, y, p, Down, f, tile, wasV);
    }
  }
}
