/** Expansion of a sensor raster and edge-aware bilinear demosaicing, both into a flat RGB raster. */
module BayerArray {
  import opened Prelude
  import opened Mosaic
  import opened Accrue

  const GP_OK := 0
  const GP_ERROR := -1

  // ------------------------------------------------------------------
  // Expansion
  // ------------------------------------------------------------------

  predicate Interlaced(tile: int) {
    4 <= tile < 8
  }

  /** Where in its sensor row the sample of column x is stored. */
  function Column(tile: int, w: nat, x: nat): nat {
    if !Interlaced(tile) then x
    else if x % 2 == 1 then x / 2 else w / 2 + x / 2
  }

  /** Which column the k-th stored sample of a sensor row belongs to. */
  function ColumnOfStored(tile: int, w: nat, k: nat): nat {
    if !Interlaced(tile) then k
    else if k < w / 2 then 2 * k + 1 else 2 * (k - w / 2)
  }

  /** For odd and even widths alike the storage order is a permutation of the columns. */
  lemma StorageIsPermutation(tile: int, w: nat, x: nat)
    requires x < w
    ensures Column(tile, w, x) < w && ColumnOfStored(tile, w, Column(tile, w, x)) == x
    ensures ColumnOfStored(tile, w, x) < w && Column(tile, w, ColumnOfStored(tile, w, x)) == x
  {
  }

  function SampleIndex(tile: int, w: nat, x: nat, y: nat): int {
    y * w + Column(tile, w, x)
  }

  lemma SampleIndexInRange(tile: int, w: nat, h: nat, x: nat, y: nat)
    requires x < w && y < h
    ensures 0 <= SampleIndex(tile, w, x, y) < h * w
  {
    hide Column;
    StorageIsPermutation(tile, w, x);
    RowInRange(y, h, w);
  }

  lemma RowInRange(y: nat, h: nat, w: nat)
    requires y < h
    ensures y * w + w <= h * w
  {
    assert (y + 1) * w <= h * w;
  }

  /** The expanded picture: each pixel carries its sample in the sensed channel and 0 elsewhere. */
  function Expanded(input: seq<Byte>, w: nat, h: nat, tile: int): Picture
    requires |input| == h * w
  {
    (x: int, y: int, c: int) =>
      if InRange(x, y, w, h) && c == Sensed(tile, x, y) then
        SampleIndexInRange(tile, w, h, x, y);
        input[SampleIndex(tile, w, x, y)]
      else 0
  }

  /** The sensor raster a picture was expanded from. */
  function Collected(f: Picture, w: nat, h: nat, tile: int): seq<Byte> {
    if w == 0 then [] else
    seq(h * w, k requires 0 <= k < h * w =>
      var x := ColumnOfStored(tile, w, k % w);
      f(x, k / w, Sensed(tile, x, k / w)))
  }

  lemma StoredAt(tile: int, w: nat, h: nat, k: nat)
    requires w > 0 && k < h * w
    ensures InRange(ColumnOfStored(tile, w, k % w), k / w, w, h)
    ensures SampleIndex(tile, w, ColumnOfStored(tile, w, k % w), k / w) == k
  {
    RowColumn(k, w, h);
    StorageIsPermutation(tile, w, k % w);
  }

  function Sum(s: seq<Byte>): nat {
    if s == [] then 0 else Sum(s[..|s| - 1]) + s[|s| - 1]
  }

  /** The sum of those of the first elements whose indices are in a set. */
  ghost function SumAt(s: seq<Byte>, indices: set<int>, n: nat): nat
    requires n <= |s|
  {
    if n == 0 then 0 else SumAt(s, indices, n - 1) + if n - 1 in indices then s[n - 1] else 0
  }

  lemma {:induction false} SumAtOneMore(s: seq<Byte>, indices: set<int>, k: nat, n: nat)
    requires n <= |s| && k < |s| && k !in indices
    ensures SumAt(s, indices + {k}, n) == SumAt(s, indices, n) + if k < n then s[k] else 0
  {
    if n > 0 {
      SumAtOneMore(s, indices, k, n - 1);
    }
  }

  lemma {:induction false} SumAtAll(s: seq<Byte>, indices: set<int>, n: nat)
    requires n <= |s| && forall k :: 0 <= k < n ==> k in indices
    ensures SumAt(s, indices, n) == Sum(s[..n])
  {
    if n > 0 {
      SumAtAll(s, indices, n - 1);
      SumOfNext(s, n - 1);
    }
  }

  lemma {:induction false} SumAtNone(s: seq<Byte>, n: nat)
    requires n <= |s|
    ensures SumAt(s, {}, n) == 0
  {
    if n > 0 {
      SumAtNone(s, n - 1);
    }
  }

  lemma SumOfNext(s: seq<Byte>, m: nat)
    requires m < |s|
    ensures Sum(s[..m + 1]) == Sum(s[..m]) + s[m]
  {
    assert s[..m + 1][..m] == s[..m];
  }

  /** The first elements of a sequence of indices. */
  ghost function Among(at: seq<int>, n: nat): (indices: set<int>)
    requires n <= |at|
    ensures forall i :: 0 <= i < n ==> at[i] in indices
    ensures forall k :: k in indices ==> exists i :: 0 <= i < n && at[i] == k
  {
    if n == 0 then {} else Among(at, n - 1) + {at[n - 1]}
  }

  /** Along distinct indices a sequence adds up to the sum at these indices. */
  lemma {:induction false} SumAlong(a: seq<Byte>, b: seq<Byte>, at: seq<int>, n: nat)
    requires n <= |a| == |at| && forall i :: 0 <= i < |at| ==> 0 <= at[i] < |b| && a[i] == b[at[i]]
    requires forall i, j :: 0 <= i < j < |at| ==> at[i] != at[j]
    ensures Sum(a[..n]) == SumAt(b, Among(at, n), |b|)
  {
    hide SumAt;
    if n == 0 {
      SumAtNone(b, |b|);
    } else {
      SumAlong(a, b, at, n - 1);
      assert at[n - 1] !in Among(at, n - 1);
      SumAtOneMore(b, Among(at, n - 1), at[n - 1], |b|);
      SumOfNext(a, n - 1);
    }
  }

  /** Elements rearranged along a permutation have the same sum. */
  lemma SumOfPermuted(a: seq<Byte>, b: seq<Byte>, at: seq<int>, back: seq<int>)
    requires |a| == |b| == |at| == |back|
    requires forall i :: 0 <= i < |at| ==> 0 <= at[i] < |b| && a[i] == b[at[i]] && back[at[i]] == i
    requires forall i :: 0 <= i < |at| ==> 0 <= back[i] < |a| && at[back[i]] == i
    ensures Sum(a) == Sum(b)
  {
    hide Sum, SumAt, Among;
    var n := |a|;
    SumAlong(a, b, at, n);
    forall k | 0 <= k < n
      ensures k in Among(at, n)
    {
      assert at[back[k]] in Among(at, n);
    }
    SumAtAll(b, Among(at, n), n);
    assert a[..n] == a && b[..n] == b;
  }

  /** Where the sample of the k-th pixel is stored. */
  function SampleOf(tile: int, w: nat, h: nat, k: nat): (i: nat)
    requires w > 0 && k < h * w
    ensures i < h * w
  {
    RowColumn(k, w, h);
    SampleIndexInRange(tile, w, h, k % w, k / w);
    SampleIndex(tile, w, k % w, k / w)
  }

  /** Which pixel the k-th stored sample belongs to. */
  function PixelOf(tile: int, w: nat, h: nat, k: nat): (i: nat)
    requires w > 0 && k < h * w
    ensures i < h * w
  {
    RowColumn(k, w, h);
    StorageIsPermutation(tile, w, k % w);
    RowInRange(k / w, h, w);
    k / w * w + ColumnOfStored(tile, w, k % w)
  }

  lemma OrdersAreInverse(tile: int, w: nat, h: nat, k: nat)
    requires w > 0 && k < h * w
    ensures PixelOf(tile, w, h, SampleOf(tile, w, h, k)) == k && SampleOf(tile, w, h, PixelOf(tile, w, h, k)) == k
  {
    hide Column, ColumnOfStored;
    RowColumn(k, w, h);
    var x, y := k % w, k / w;
    StorageIsPermutation(tile, w, x);
    DivModUnique(y, Column(tile, w, x), w);
    DivModUnique(y, ColumnOfStored(tile, w, x), w);
  }

  /** The samples in the order of the pixels. */
  function Samples(input: seq<Byte>, w: nat, h: nat, tile: int): (s: seq<Byte>)
    requires |input| == h * w && w > 0
    ensures |s| == h * w && forall k :: 0 <= k < h * w ==> s[k] == input[SampleOf(tile, w, h, k)]
  {
    seq(h * w, k requires 0 <= k < h * w => input[SampleOf(tile, w, h, k)])
  }

  /** Each pixel adds its sample, and no more, to the sum of an expanded raster. */
  lemma {:induction false} SumOfExpanded(input: seq<Byte>, w: nat, h: nat, tile: int, n: nat)
    requires |input| == h * w && w > 0 && n <= h * w
    ensures Sum(Render(w, h, Expanded(input, w, h, tile))[..3 * n]) == Sum(Samples(input, w, h, tile)[..n])
  {
    hide Render, Samples, Expanded;
    var raster, samples := Render(w, h, Expanded(input, w, h, tile)), Samples(input, w, h, tile);
    if n == 0 {
      assert raster[..0] == [] && samples[..0] == [];
    } else {
      SumOfExpanded(input, w, h, tile, n - 1);
      PixelAdds(input, w, h, tile, n - 1);
      SumOfThree(raster, 3 * (n - 1));
      assert samples[..n][..n - 1] == samples[..n - 1];
    }
  }

  lemma SumOfThree(s: seq<Byte>, m: nat)
    requires m + 3 <= |s|
    ensures Sum(s[..m + 3]) == Sum(s[..m]) + s[m] + s[m + 1] + s[m + 2]
  {
    SumOfNext(s, m);
    SumOfNext(s, m + 1);
    SumOfNext(s, m + 2);
  }

  lemma PixelAdds(input: seq<Byte>, w: nat, h: nat, tile: int, k: nat)
    requires |input| == h * w && w > 0 && k < h * w
    ensures var raster := Render(w, h, Expanded(input, w, h, tile));
      |raster| == h * w * 3 && raster[3 * k] + raster[3 * k + 1] + raster[3 * k + 2] == Samples(input, w, h, tile)[k]
  {
    hide Sensed, SampleIndex, Render;
    RowColumn(k, w, h);
    var f, x, y := Expanded(input, w, h, tile), k % w, k / w;
    var raster := Render(w, h, f);
    RenderPixel(w, h, f, x, y);
    assert Ad(x, y, w) == 3 * k;
    var three := raster[3 * k..3 * k + 3];
    assert three == [f(x, y, RED), f(x, y, GREEN), f(x, y, BLUE)];
    assert raster[3 * k] == three[0] && raster[3 * k + 1] == three[1] && raster[3 * k + 2] == three[2];
    SensedIsChannel(tile, x, y);
    SampleIndexInRange(tile, w, h, x, y);
    var sample := input[SampleIndex(tile, w, x, y)];
    assert f(x, y, RED) == if Sensed(tile, x, y) == RED then sample else 0;
    assert f(x, y, GREEN) == if Sensed(tile, x, y) == GREEN then sample else 0;
    assert f(x, y, BLUE) == if Sensed(tile, x, y) == BLUE then sample else 0;
    assert SampleOf(tile, w, h, k) == SampleIndex(tile, w, x, y);
  }

  lemma SensedIsChannel(tile: int, x: int, y: int)
    ensures Sensed(tile, x, y) == RED || Sensed(tile, x, y) == GREEN || Sensed(tile, x, y) == BLUE
  {
  }

  /**
   * Expansion loses and adds nothing: the sensor raster can be read back off the expanded picture, and the
   * expanded raster has the same sum.
   */
  lemma ExpandLosesNothing(input: seq<Byte>, w: nat, h: nat, tile: int)
    requires |input| == h * w
    ensures Collected(Expanded(input, w, h, tile), w, h, tile) == input
    ensures Sum(Render(w, h, Expanded(input, w, h, tile))) == Sum(input)
  {
    if w > 0 {
      forall k | 0 <= k < h * w
        ensures Collected(Expanded(input, w, h, tile), w, h, tile)[k] == input[k]
      {
        StoredAt(tile, w, h, k);
      }
      SumIsKept(input, w, h, tile);
    }
  }

  lemma SumIsKept(input: seq<Byte>, w: nat, h: nat, tile: int)
    requires |input| == h * w && w > 0
    ensures Sum(Render(w, h, Expanded(input, w, h, tile))) == Sum(input)
  {
    hide Sum, Render, Expanded, SampleOf, PixelOf;
    var raster, samples := Render(w, h, Expanded(input, w, h, tile)), Samples(input, w, h, tile);
    var n := h * w;
    SumOfExpanded(input, w, h, tile, n);
    assert raster[..3 * n] == raster && samples[..n] == samples;
    var at := seq(n, k requires 0 <= k < n => SampleOf(tile, w, h, k));
    var back := seq(n, k requires 0 <= k < n => PixelOf(tile, w, h, k));
    forall k | 0 <= k < n
      ensures back[at[k]] == k && at[back[k]] == k
    {
      OrdersAreInverse(tile, w, h, k);
    }
    SumOfPermuted(samples, input, at, back);
  }

  /** Blacks out one pixel and stores its sample. */
  method StoreSample(output: array<Byte>, i: nat, colour: nat, sample: Byte)
    requires i + 3 <= output.Length && colour < 3
    modifies output
    ensures forall k :: 0 <= k < output.Length && !(i <= k < i + 3) ==> output[k] == old(output[k])
    ensures output[i..i + 3] == [0, 0, 0][colour := sample]
  {
    output[i + RED] := 0;
    output[i + GREEN] := 0;
    output[i + BLUE] := 0;
    output[i + colour] := sample;
  }

  /** Overwrites the output; a tiling outside the enumeration leaves it as it was. */
  method GpBayerExpand(input: array<Byte>, w: nat, h: nat, output: array<Byte>, tile: int) returns (result: int)
    requires input.Length == h * w && output.Length == h * w * 3 && input != output
    modifies output
    ensures result == GP_OK
    ensures output[..] == if 0 <= tile < 8 then Render(w, h, Expanded(input[..], w, h, tile)) else old(output[..])
  {
    result := GP_OK;
    if 0 <= tile < 8 {
      ghost var f := Expanded(input[..], w, h, tile);
      ghost var goal := Render(w, h, f);
      for y := 0 to h
        invariant Ad(0, y, w) <= h * w * 3
        invariant output[..Ad(0, y, w)] == goal[..Ad(0, y, w)]
      {
        AdNextRow(0, y, w);
        ExpandRow(input, w, h, output, tile, y, f, goal);
      }
      assert Ad(0, h, w) == h * w * 3;
    }
  }

  method ExpandRow(input: array<Byte>, w: nat, h: nat, output: array<Byte>, tile: int, y: nat,
                   ghost f: Picture, ghost goal: seq<Byte>)
    requires input.Length == h * w && output.Length == h * w * 3 && input != output
    requires 0 <= tile < 8 && y < h && Ad(0, y, w) <= h * w * 3
    requires f == Expanded(input[..], w, h, tile) && goal == Render(w, h, f)
    requires output[..Ad(0, y, w)] == goal[..Ad(0, y, w)]
    modifies output
    ensures Ad(0, y + 1, w) <= h * w * 3
    ensures output[..Ad(0, y + 1, w)] == goal[..Ad(0, y + 1, w)]
  {
    for x := 0 to w
      invariant Ad(x, y, w) <= h * w * 3
      invariant output[..Ad(x, y, w)] == goal[..Ad(x, y, w)]
    {
      RenderPixel(w, h, f, x, y);
      TablesAgree(tile, x, y);
      SampleIndexInRange(tile, w, h, x, y);
      var i := (y * w + x) * 3;
      assert i == Ad(x, y, w);
      StoreSample(output, i, TileColours(tile)[Bayer(x, y)], input[SampleIndex(tile, w, x, y)]);
      ExtendPrefix(output[..], goal, i);
    }
    AdNextRow(0, y, w);
  }

  // ------------------------------------------------------------------
  // Interpolation
  // ------------------------------------------------------------------

  function Plus(x: int, y: int): (at: seq<Pos>)
    ensures |at| == 4
  {
    [Pos(x - 1, y), Pos(x + 1, y), Pos(x, y - 1), Pos(x, y + 1)]
  }

  function Cross(x: int, y: int): (at: seq<Pos>)
    ensures |at| == 4
  {
    [Pos(x + 1, y + 1), Pos(x - 1, y - 1), Pos(x - 1, y + 1), Pos(x + 1, y - 1)]
  }

  lemma HasNeighbours(x: int, y: int, w: int, h: int)
    requires InRange(x, y, w, h) && w >= 2 && h >= 2
    ensures exists i :: 0 <= i < 4 && Inside(Plus(x, y)[i], w, h)
    ensures exists i :: 0 <= i < 4 && Inside(Cross(x, y)[i], w, h)
  {
    assert if x > 0 then Inside(Plus(x, y)[0], w, h) else Inside(Plus(x, y)[1], w, h);
    assert if x > 0 then if y > 0 then Inside(Cross(x, y)[1], w, h) else Inside(Cross(x, y)[2], w, h)
           else if y > 0 then Inside(Cross(x, y)[3], w, h) else Inside(Cross(x, y)[0], w, h);
  }

  /** Mean of the next and the previous value along a line of n, at position t. */
  function LineMean(n: int, t: int, next: Byte, previous: Byte): (r: Byte)
    requires n >= 2 && 0 <= t < n
  {
    if t == 0 then next else if t == n - 1 then previous else (next + previous) / 2
  }

  /** The interpolated picture, every neighbour read from the untouched picture f. */
  function BilinearAt(f: Picture, w: int, h: int, tile: int, x: int, y: int, c: int): Byte
    requires w >= 2 && h >= 2 && InRange(x, y, w, h) && 0 <= c < 3
  {
    HasNeighbours(x, y, w, h);
    var site := SiteAt(tile, x, y);
    if c == Sensed(tile, x, y) then f(x, y, c)
    else if site == RedSite || site == BlueSite then
      EstimateAt(f, w, h, if c == GREEN then Plus(x, y) else Cross(x, y), c)
    else if (site == GreenInRedRow) == (c == RED) then
      LineMean(w, x, f(x + 1, y, c), f(x - 1, y, c))
    else
      LineMean(h, y, f(x, y + 1, c), f(x, y - 1, c))
  }

  function Bilinear(f: Picture, w: int, h: int, tile: int): Picture
    requires w >= 2 && h >= 2
  {
    (x: int, y: int, c: int) => if InRange(x, y, w, h) && 0 <= c < 3 then BilinearAt(f, w, h, tile, x, y, c) else 0
  }

  /** Every neighbour that an estimate for channel c at (x, y) reads was sensed in that channel. */
  lemma ReadsOnlySensed(tile: int, x: int, y: int, c: int)
    requires 0 <= c < 3 && c != Sensed(tile, x, y)
    ensures SiteAt(tile, x, y) in {RedSite, BlueSite} ==>
      var at := if c == GREEN then Plus(x, y) else Cross(x, y);
      forall i :: 0 <= i < 4 ==> Sensed(tile, at[i].x, at[i].y) == c
    ensures SiteAt(tile, x, y) !in {RedSite, BlueSite} ==>
      if (SiteAt(tile, x, y) == GreenInRedRow) == (c == RED)
      then Sensed(tile, x + 1, y) == Sensed(tile, x - 1, y) == c
      else Sensed(tile, x, y + 1) == Sensed(tile, x, y - 1) == c
  {
  }

  /**
   * A colour missing at a green site is the mean, rounded down, of the two neighbours that sensed it, which lie
   * left and right or above and below; at the border it is the value of the only one.
   */
  lemma GreenSiteIsMean(f: Picture, w: int, h: int, tile: int, x: int, y: int, c: int)
    requires w >= 2 && h >= 2 && InRange(x, y, w, h) && Sensed(tile, x, y) == GREEN && (c == RED || c == BLUE)
    ensures var r := BilinearAt(f, w, h, tile, x, y, c);
      if Sensed(tile, x + 1, y) == c then
        && (0 < x < w - 1 ==> 2 * r <= f(x - 1, y, c) + f(x + 1, y, c) <= 2 * r + 1)
        && (x == 0 ==> r == f(1, y, c))
        && (x == w - 1 ==> r == f(w - 2, y, c))
      else
        && Sensed(tile, x, y + 1) == c
        && (0 < y < h - 1 ==> 2 * r <= f(x, y - 1, c) + f(x, y + 1, c) <= 2 * r + 1)
        && (y == 0 ==> r == f(x, 1, c))
        && (y == h - 1 ==> r == f(x, h - 2, c))
  {
  }

  /** The interpolated picture depends on the sensed channels of its source only. */
  lemma DependsOnSamplesOnly(f: Picture, g: Picture, w: int, h: int, tile: int, x: int, y: int, c: int)
    requires w >= 2 && h >= 2 && InRange(x, y, w, h) && 0 <= c < 3
    requires KeepsSamples(f, g, w, h, tile)
    ensures BilinearAt(f, w, h, tile, x, y, c) == BilinearAt(g, w, h, tile, x, y, c)
  {
    if c != Sensed(tile, x, y) {
      ReadsOnlySensed(tile, x, y, c);
      HasNeighbours(x, y, w, h);
      if SiteAt(tile, x, y) in {RedSite, BlueSite} {
        EstimateAtAgree(f, g, w, h, if c == GREEN then Plus(x, y) else Cross(x, y), c);
      }
    }
  }

  // ------------------------------------------------------------------
  // Interpolating in place
  // ------------------------------------------------------------------

  lemma AdOrder(x: int, y: int, x': int, y': int, w: int)
    requires 0 <= x < w && 0 <= x' < w && (y' < y || (y' == y && x' < x))
    ensures Ad(x', y', w) + 3 <= Ad(x, y, w)
  {
    if y' < y {
      assert (y' + 1) * w <= y * w;
    }
  }

  /** The raster while pixel (x, y) is being written: done before it, untouched behind it. */
  ghost predicate Halfway(now: seq<Byte>, raw: seq<Byte>, w: nat, h: nat, tile: int, x: int, y: int)
    requires w >= 2 && h >= 2 && InRange(x, y, w, h)
  {
    && |now| == |raw| == h * w * 3
    && var n := Ad(x, y, w);
       var goal := Render(w, h, Bilinear(View(raw, w, h), w, h, tile));
       && 0 <= n && n + 3 <= h * w * 3
       && now[..n] == goal[..n]
       && now[n + 3..] == raw[n + 3..]
  }

  /** Any other pixel still shows the sample it was sensed with, done or not. */
  lemma SampleSurvives(now: seq<Byte>, raw: seq<Byte>, w: nat, h: nat, tile: int, x: int, y: int, x': int, y': int)
    requires w >= 2 && h >= 2 && InRange(x, y, w, h) && InRange(x', y', w, h) && (x, y) != (x', y')
    requires Halfway(now, raw, w, h, tile, x, y)
    ensures var c := Sensed(tile, x', y'); View(now, w, h)(x', y', c) == View(raw, w, h)(x', y', c)
  {
    var c := Sensed(tile, x', y');
    var n, k := Ad(x, y, w), Ad(x', y', w) + c;
    AdInRange(x', y', w, h);
    if y' < y || (y' == y && x' < x) {
      AdOrder(x, y, x', y', w);
      var f := Bilinear(View(raw, w, h), w, h, tile);
      RenderAt(w, h, f, x', y', c);
      assert now[k] == now[..n][k] == Render(w, h, f)[k];
    } else {
      AdOrder(x', y', x, y, w);
      assert now[k] == now[n + 3..][k - n - 3] == raw[k];
    }
  }

  /** What an estimate reads off the half-done raster is what it would read off the untouched one. */
  lemma EstimateInPlace(now: seq<Byte>, raw: seq<Byte>, w: nat, h: nat, tile: int, x: int, y: int, c: int)
    requires w >= 2 && h >= 2 && InRange(x, y, w, h) && 0 <= c < 3 && c != Sensed(tile, x, y)
    requires Halfway(now, raw, w, h, tile, x, y)
    requires SiteAt(tile, x, y) in {RedSite, BlueSite}
    ensures var at := if c == GREEN then Plus(x, y) else Cross(x, y);
            && (exists i :: 0 <= i < 4 && Inside(at[i], w, h))
            && EstimateAt(View(now, w, h), w, h, at, c) == BilinearAt(View(raw, w, h), w, h, tile, x, y, c)
  {
    var at := if c == GREEN then Plus(x, y) else Cross(x, y);
    HasNeighbours(x, y, w, h);
    ReadsOnlySensed(tile, x, y, c);
    forall i | 0 <= i < 4 && Inside(at[i], w, h)
      ensures View(now, w, h)(at[i].x, at[i].y, c) == View(raw, w, h)(at[i].x, at[i].y, c)
    {
      SampleSurvives(now, raw, w, h, tile, x, y, at[i].x, at[i].y);
    }
    EstimateAtAgree(View(now, w, h), View(raw, w, h), w, h, at, c);
  }

  /** Mean of the left and right neighbours that exist. */
  method MeanAcross(image: array<Byte>, w: nat, h: nat, x: int, y: int, c: int) returns (r: Byte)
    requires w >= 2 && InRange(x, y, w, h) && 0 <= c < 3 && image.Length == h * w * 3
    ensures var f := View(image[..], w, h); r == LineMean(w, x, f(x + 1, y, c), f(x - 1, y, c))
  {
    var div: int, value: int := 0, 0;
    if x < w - 1 {
      AdInRange(x + 1, y, w, h);
      value := value + image[Ad(x + 1, y, w) + c];
      div := div + 1;
    }
    if x > 0 {
      AdInRange(x - 1, y, w, h);
      value := value + image[Ad(x - 1, y, w) + c];
      div := div + 1;
    }
    r := value / div;
  }

  /** Mean of the upper and lower neighbours that exist. */
  method MeanDown(image: array<Byte>, w: nat, h: nat, x: int, y: int, c: int) returns (r: Byte)
    requires h >= 2 && InRange(x, y, w, h) && 0 <= c < 3 && image.Length == h * w * 3
    ensures var f := View(image[..], w, h); r == LineMean(h, y, f(x, y + 1, c), f(x, y - 1, c))
  {
    var div: int, value: int := 0, 0;
    if y < h - 1 {
      AdInRange(x, y + 1, w, h);
      value := value + image[Ad(x, y + 1, w) + c];
      div := div + 1;
    }
    if y > 0 {
      AdInRange(x, y - 1, w, h);
      value := value + image[Ad(x, y - 1, w) + c];
      div := div + 1;
    }
    r := value / div;
  }

  /** The means, too, are those of the untouched raster. */
  lemma MeanInPlace(now: seq<Byte>, raw: seq<Byte>, w: nat, h: nat, tile: int, x: int, y: int, c: int)
    requires w >= 2 && h >= 2 && InRange(x, y, w, h) && 0 <= c < 3 && c != Sensed(tile, x, y)
    requires Halfway(now, raw, w, h, tile, x, y)
    requires SiteAt(tile, x, y) !in {RedSite, BlueSite}
    ensures var f := View(now, w, h);
            BilinearAt(View(raw, w, h), w, h, tile, x, y, c) ==
              if (SiteAt(tile, x, y) == GreenInRedRow) == (c == RED)
              then LineMean(w, x, f(x + 1, y, c), f(x - 1, y, c))
              else LineMean(h, y, f(x, y + 1, c), f(x, y - 1, c))
  {
    ReadsOnlySensed(tile, x, y, c);
    if (SiteAt(tile, x, y) == GreenInRedRow) == (c == RED) {
      if x + 1 < w { SampleSurvives(now, raw, w, h, tile, x, y, x + 1, y); }
      if x > 0 { SampleSurvives(now, raw, w, h, tile, x, y, x - 1, y); }
    } else {
      if y + 1 < h { SampleSurvives(now, raw, w, h, tile, x, y, x, y + 1); }
      if y > 0 { SampleSurvives(now, raw, w, h, tile, x, y, x, y - 1); }
    }
  }

  /** Writing inside pixel (x, y) leaves the rest of the raster half done as it was. */
  lemma HalfwayWrite(now: seq<Byte>, raw: seq<Byte>, w: nat, h: nat, tile: int, x: int, y: int, c: int, v: Byte)
    requires w >= 2 && h >= 2 && InRange(x, y, w, h) && 0 <= c < 3
    requires Halfway(now, raw, w, h, tile, x, y)
    ensures Halfway(now[Ad(x, y, w) + c := v], raw, w, h, tile, x, y)
  {
    var n := Ad(x, y, w);
    assert now[n + c := v][..n] == now[..n];
    assert now[n + c := v][n + 3..] == now[n + 3..];
  }

  /** Writes the edge-aware estimate of channel c at (x, y). */
  method FillEstimate(image: array<Byte>, w: nat, h: nat, tile: int, x: int, y: int, at: seq<Pos>, c: int,
                      ghost want: Byte, ghost raw: seq<Byte>)
    requires w >= 2 && h >= 2 && InRange(x, y, w, h) && image.Length == h * w * 3
    requires 0 <= c < 3 && c != Sensed(tile, x, y) && SiteAt(tile, x, y) in {RedSite, BlueSite}
    requires at == if c == GREEN then Plus(x, y) else Cross(x, y)
    requires Halfway(image[..], raw, w, h, tile, x, y)
    requires want == BilinearAt(View(raw, w, h), w, h, tile, x, y, c)
    modifies image
    ensures Halfway(image[..], raw, w, h, tile, x, y)
    ensures 0 <= Ad(x, y, w) <= h * w * 3 - 3
    ensures image[..] == old(image[..])[Ad(x, y, w) + c := want]
  {
    EstimateInPlace(image[..], raw, w, h, tile, x, y, c);
    var v := GpBayerAccrue(image, w, h, at, c);
    AdInRange(x, y, w, h);
    HalfwayWrite(image[..], raw, w, h, tile, x, y, c, v);
    image[Ad(x, y, w) + c] := v;
  }

  /** Writes the mean of the neighbours in the same row, or in the same column, at (x, y). */
  method FillMean(image: array<Byte>, w: nat, h: nat, tile: int, x: int, y: int, across: bool, c: int,
                  ghost want: Byte, ghost raw: seq<Byte>)
    requires w >= 2 && h >= 2 && InRange(x, y, w, h) && image.Length == h * w * 3
    requires 0 <= c < 3 && c != Sensed(tile, x, y) && SiteAt(tile, x, y) !in {RedSite, BlueSite}
    requires across == ((SiteAt(tile, x, y) == GreenInRedRow) == (c == RED))
    requires Halfway(image[..], raw, w, h, tile, x, y)
    requires want == BilinearAt(View(raw, w, h), w, h, tile, x, y, c)
    modifies image
    ensures Halfway(image[..], raw, w, h, tile, x, y)
    ensures 0 <= Ad(x, y, w) <= h * w * 3 - 3
    ensures image[..] == old(image[..])[Ad(x, y, w) + c := want]
  {
    MeanInPlace(image[..], raw, w, h, tile, x, y, c);
    var v;
    if across {
      v := MeanAcross(image, w, h, x, y, c);
    } else {
      v := MeanDown(image, w, h, x, y, c);
    }
    AdInRange(x, y, w, h);
    HalfwayWrite(image[..], raw, w, h, tile, x, y, c, v);
    image[Ad(x, y, w) + c] := v;
  }

  /** One pixel of the goal, channel by channel. */
  ghost function GoalPixel(raw: seq<Byte>, w: nat, h: nat, tile: int, x: int, y: int): (g: seq<Byte>)
    requires w >= 2 && h >= 2 && InRange(x, y, w, h) && |raw| == h * w * 3
    ensures |g| == 3
  {
    var f := View(raw, w, h);
    [BilinearAt(f, w, h, tile, x, y, RED), BilinearAt(f, w, h, tile, x, y, GREEN),
     BilinearAt(f, w, h, tile, x, y, BLUE)]
  }

  /** Two writes complete a pixel whose third channel was right already. */
  lemma TwoWrites(s: seq<Byte>, n: nat, g: seq<Byte>, a: int, b: int)
    requires n + 3 <= |s| && |g| == 3 && 0 <= a < 3 && 0 <= b < 3
    requires forall c :: 0 <= c < 3 && c != a && c != b ==> s[n..n + 3][c] == g[c]
    ensures s[n + a := g[a]][n + b := g[b]][n..n + 3] == g
  {
    var t := s[n + a := g[a]][n + b := g[b]];
    forall c | 0 <= c < 3
      ensures t[n..n + 3][c] == g[c]
    {
      if c != a && c != b {
        assert t[n + c] == s[n + c] == s[n..n + 3][c];
      }
    }
  }

  /** Fills in the two channels that were not sensed at (x, y). */
  method InterpolatePixel(image: array<Byte>, w: nat, h: nat, tile: int, x: int, y: int, p: seq<int>,
                          ghost raw: seq<Byte>)
    requires w >= 2 && h >= 2 && InRange(x, y, w, h) && image.Length == h * w * 3
    requires p == PosCode(tile)
    requires Halfway(image[..], raw, w, h, tile, x, y)
    requires 0 <= Ad(x, y, w) <= h * w * 3 - 3
    requires image[Ad(x, y, w)..Ad(x, y, w) + 3] == raw[Ad(x, y, w)..Ad(x, y, w) + 3]
    modifies image
    ensures Halfway(image[..], raw, w, h, tile, x, y)
    ensures image[Ad(x, y, w)..Ad(x, y, w) + 3] == GoalPixel(raw, w, h, tile, x, y)
  {
    PosCodeIsSite(tile, x, y);
    SampleKept(image[..], raw, w, h, tile, x, y);
    var bayer := Bayer(x, y);
    if bayer == p[0] || bayer == p[3] {
      InterpolateColourSite(image, w, h, tile, x, y, if bayer == p[0] then BLUE else RED, raw);
    } else {
      InterpolateGreenSite(image, w, h, tile, x, y, bayer == p[1], raw);
    }
  }

  /** A red or blue site: green from the sides, the opposite colour from the corners. */
  method InterpolateColourSite(image: array<Byte>, w: nat, h: nat, tile: int, x: int, y: int, opposite: int,
                               ghost raw: seq<Byte>)
    requires w >= 2 && h >= 2 && InRange(x, y, w, h) && image.Length == h * w * 3
    requires SiteAt(tile, x, y) == if opposite == BLUE then RedSite else BlueSite
    requires opposite == BLUE || opposite == RED
    requires Halfway(image[..], raw, w, h, tile, x, y)
    requires 0 <= Ad(x, y, w) <= h * w * 3 - 3
    requires var c := Sensed(tile, x, y);
             image[Ad(x, y, w)..Ad(x, y, w) + 3][c] == GoalPixel(raw, w, h, tile, x, y)[c]
    modifies image
    ensures Halfway(image[..], raw, w, h, tile, x, y)
    ensures image[Ad(x, y, w)..Ad(x, y, w) + 3] == GoalPixel(raw, w, h, tile, x, y)
  {
    ghost var g := GoalPixel(raw, w, h, tile, x, y);
    TwoWrites(image[..], Ad(x, y, w), g, GREEN, opposite);
    FillEstimate(image, w, h, tile, x, y, Plus(x, y), GREEN, g[GREEN], raw);
    FillEstimate(image, w, h, tile, x, y, Cross(x, y), opposite, g[opposite], raw);
  }

  /** A green site: one colour from its row, the other from its column. */
  method InterpolateGreenSite(image: array<Byte>, w: nat, h: nat, tile: int, x: int, y: int, redRow: bool,
                              ghost raw: seq<Byte>)
    requires w >= 2 && h >= 2 && InRange(x, y, w, h) && image.Length == h * w * 3
    requires SiteAt(tile, x, y) == if redRow then GreenInRedRow else GreenInBlueRow
    requires Halfway(image[..], raw, w, h, tile, x, y)
    requires 0 <= Ad(x, y, w) <= h * w * 3 - 3
    requires image[Ad(x, y, w)..Ad(x, y, w) + 3][GREEN] == GoalPixel(raw, w, h, tile, x, y)[GREEN]
    modifies image
    ensures Halfway(image[..], raw, w, h, tile, x, y)
    ensures image[Ad(x, y, w)..Ad(x, y, w) + 3] == GoalPixel(raw, w, h, tile, x, y)
  {
    ghost var g := GoalPixel(raw, w, h, tile, x, y);
    var inRow, inColumn := if redRow then RED else BLUE, if redRow then BLUE else RED;
    TwoWrites(image[..], Ad(x, y, w), g, inRow, inColumn);
    FillMean(image, w, h, tile, x, y, true, inRow, g[inRow], raw);
    FillMean(image, w, h, tile, x, y, false, inColumn, g[inColumn], raw);
  }

  lemma SampleKept(now: seq<Byte>, raw: seq<Byte>, w: nat, h: nat, tile: int, x: int, y: int)
    requires w >= 2 && h >= 2 && InRange(x, y, w, h) && |now| == |raw| == h * w * 3
    requires 0 <= Ad(x, y, w) <= h * w * 3 - 3
    requires now[Ad(x, y, w)..Ad(x, y, w) + 3] == raw[Ad(x, y, w)..Ad(x, y, w) + 3]
    ensures var c := Sensed(tile, x, y);
            now[Ad(x, y, w)..Ad(x, y, w) + 3][c] == GoalPixel(raw, w, h, tile, x, y)[c]
  {
    var c, n := Sensed(tile, x, y), Ad(x, y, w);
    assert now[n + c] == now[n..n + 3][c];
    assert raw[n + c] == raw[n..n + 3][c];
  }

  /**
   * Interpolates in place, row by row, and yields the picture interpolated out of place. A raster
   * narrower or lower than two pixels is refused and left alone.
   */
  method GpBayerInterpolate(image: array<Byte>, w: nat, h: nat, tile: int) returns (result: int)
    requires image.Length == h * w * 3
    modifies image
    ensures result == if w < 2 || h < 2 then GP_ERROR else GP_OK
    ensures image[..] == if w < 2 || h < 2 then old(image[..])
                         else Render(w, h, Bilinear(View(old(image[..]), w, h), w, h, tile))
  {
    if w < 2 || h < 2 {
      return GP_ERROR;
    }
    ghost var raw := image[..];
    ghost var goal := Render(w, h, Bilinear(View(raw, w, h), w, h, tile));
    for y := 0 to h
      invariant 0 <= Ad(0, y, w) <= h * w * 3
      invariant image[..Ad(0, y, w)] == goal[..Ad(0, y, w)]
      invariant image[Ad(0, y, w)..] == raw[Ad(0, y, w)..]
    {
      InterpolateRow(image, w, h, tile, y, raw, goal);
    }
    assert Ad(0, h, w) == h * w * 3;
    return GP_OK;
  }

  method InterpolateRow(image: array<Byte>, w: nat, h: nat, tile: int, y: int, ghost raw: seq<Byte>,
                        ghost goal: seq<Byte>)
    requires w >= 2 && h >= 2 && 0 <= y < h && image.Length == |raw| == h * w * 3
    requires goal == Render(w, h, Bilinear(View(raw, w, h), w, h, tile))
    requires 0 <= Ad(0, y, w) <= h * w * 3
    requires image[..Ad(0, y, w)] == goal[..Ad(0, y, w)] && image[Ad(0, y, w)..] == raw[Ad(0, y, w)..]
    modifies image
    ensures 0 <= Ad(0, y + 1, w) <= h * w * 3
    ensures image[..Ad(0, y + 1, w)] == goal[..Ad(0, y + 1, w)]
    ensures image[Ad(0, y + 1, w)..] == raw[Ad(0, y + 1, w)..]
  {
    for x := 0 to w
      invariant 0 <= Ad(x, y, w) <= h * w * 3
      invariant image[..Ad(x, y, w)] == goal[..Ad(x, y, w)]
      invariant image[Ad(x, y, w)..] == raw[Ad(x, y, w)..]
    {
      StartPixel(image[..], raw, goal, w, h, tile, x, y);
      InterpolatePixel(image, w, h, tile, x, y, PosCode(tile), raw);
      FinishPixel(image[..], raw, goal, w, h, tile, x, y);
    }
    AdNextRow(0, y, w);
  }

  lemma StartPixel(now: seq<Byte>, raw: seq<Byte>, goal: seq<Byte>, w: nat, h: nat, tile: int, x: int, y: int)
    requires w >= 2 && h >= 2 && InRange(x, y, w, h) && |now| == |raw| == h * w * 3
    requires goal == Render(w, h, Bilinear(View(raw, w, h), w, h, tile))
    requires 0 <= Ad(x, y, w) <= h * w * 3
    requires now[..Ad(x, y, w)] == goal[..Ad(x, y, w)] && now[Ad(x, y, w)..] == raw[Ad(x, y, w)..]
    ensures Ad(x, y, w) <= h * w * 3 - 3
    ensures Halfway(now, raw, w, h, tile, x, y)
    ensures now[Ad(x, y, w)..Ad(x, y, w) + 3] == raw[Ad(x, y, w)..Ad(x, y, w) + 3]
  {
    var n := Ad(x, y, w);
    AdInRange(x, y, w, h);
    assert now[n..][3..] == now[n + 3..] && raw[n..][3..] == raw[n + 3..];
    assert now[n..][..3] == now[n..n + 3] && raw[n..][..3] == raw[n..n + 3];
  }

  lemma FinishPixel(now: seq<Byte>, raw: seq<Byte>, goal: seq<Byte>, w: nat, h: nat, tile: int, x: int, y: int)
    requires w >= 2 && h >= 2 && InRange(x, y, w, h)
    requires Halfway(now, raw, w, h, tile, x, y)
    requires goal == Render(w, h, Bilinear(View(raw, w, h), w, h, tile))
    requires now[Ad(x, y, w)..Ad(x, y, w) + 3] == GoalPixel(raw, w, h, tile, x, y)
    ensures 0 <= Ad(x + 1, y, w) <= h * w * 3
    ensures now[..Ad(x + 1, y, w)] == goal[..Ad(x + 1, y, w)]
    ensures now[Ad(x + 1, y, w)..] == raw[Ad(x + 1, y, w)..]
  {
    RenderPixel(w, h, Bilinear(View(raw, w, h), w, h, tile), x, y);
    ExtendPrefix(now, goal, Ad(x, y, w));
    assert Ad(x + 1, y, w) == Ad(x, y, w) + 3;
  }

  // ------------------------------------------------------------------
  // What the decoder guarantees
  // ------------------------------------------------------------------

  ghost predicate SamplesBetween(f: Picture, w: int, h: int, tile: int, lo: int, hi: int) {
    forall x, y :: InRange(x, y, w, h) ==> lo <= f(x, y, Sensed(tile, x, y)) <= hi
  }

  /** Interpolation invents no value outside the range of the samples, whatever the other channels held. */
  lemma BilinearStaysInRange(f: Picture, w: int, h: int, tile: int, x: int, y: int, c: int, lo: int, hi: int)
    requires w >= 2 && h >= 2 && InRange(x, y, w, h) && 0 <= c < 3
    requires SamplesBetween(f, w, h, tile, lo, hi)
    ensures lo <= BilinearAt(f, w, h, tile, x, y, c) <= hi
  {
    if c != Sensed(tile, x, y) {
      ReadsOnlySensed(tile, x, y, c);
      if SiteAt(tile, x, y) in {RedSite, BlueSite} {
        var at := if c == GREEN then Plus(x, y) else Cross(x, y);
        HasNeighbours(x, y, w, h);
        SomeInside(at, w, h);
        EstimateBounds(Values(f, at, c), Flags(at, w, h), c == GREEN, lo, hi);
      } else {
        forall p, q | InRange(p, q, w, h) && Sensed(tile, p, q) == c
          ensures lo <= f(p, q, c) <= hi
        {
        }
      }
    }
  }

  /** A flat field decodes to the same grey-level in all three channels of every pixel. */
  lemma BilinearFlat(f: Picture, w: int, h: int, tile: int, x: int, y: int, c: int, v: int)
    requires w >= 2 && h >= 2 && InRange(x, y, w, h) && 0 <= c < 3
    requires FlatField(f, w, h, tile, v)
    ensures BilinearAt(f, w, h, tile, x, y, c) == v
  {
    BilinearStaysInRange(f, w, h, tile, x, y, c, v, v);
  }

  /** The sensor raster can still be read back off the decoded picture. */
  lemma DecodeKeepsSamples(input: seq<Byte>, w: nat, h: nat, tile: int)
    requires |input| == h * w && w >= 2 && h >= 2
    ensures Collected(Bilinear(Expanded(input, w, h, tile), w, h, tile), w, h, tile) == input
  {
    var f := Expanded(input, w, h, tile);
    ExpandLosesNothing(input, w, h, tile);
    forall k | 0 <= k < h * w
      ensures Collected(Bilinear(f, w, h, tile), w, h, tile)[k] == Collected(f, w, h, tile)[k]
    {
      StoredAt(tile, w, h, k);
      var x, y := ColumnOfStored(tile, w, k % w), k / w;
      assert Bilinear(f, w, h, tile)(x, y, Sensed(tile, x, y)) == f(x, y, Sensed(tile, x, y));
    }
  }

  /** Rendering a picture and viewing it again changes no pixel of it. */
  lemma ViewRender(w: nat, h: nat, f: Picture, x: int, y: int, c: int)
    requires InRange(x, y, w, h) && 0 <= c < 3
    ensures View(Render(w, h, f), w, h)(x, y, c) == f(x, y, c)
  {
    RenderAt(w, h, f, x, y, c);
  }

  lemma BilinearOfRendered(w: nat, h: nat, f: Picture, tile: int)
    requires w >= 2 && h >= 2
    ensures Render(w, h, Bilinear(View(Render(w, h, f), w, h), w, h, tile)) == Render(w, h, Bilinear(f, w, h, tile))
  {
    var g := View(Render(w, h, f), w, h);
    assert KeepsSamples(g, f, w, h, tile) by {
      forall x, y | InRange(x, y, w, h)
        ensures g(x, y, Sensed(tile, x, y)) == f(x, y, Sensed(tile, x, y))
      {
        ViewRender(w, h, f, x, y, Sensed(tile, x, y));
      }
    }
    forall k | 0 <= k < h * w * 3
      ensures Render(w, h, Bilinear(g, w, h, tile))[k] == Render(w, h, Bilinear(f, w, h, tile))[k]
    {
      PixelOfIndex(k, w, h);
      DependsOnSamplesOnly(g, f, w, h, tile, k / 3 % w, k / 3 / w, k % 3);
    }
  }

  /**
   * Expands and interpolates; reports success even where the interpolation was refused. With a tiling outside
   * the enumeration nothing is expanded, and what the output held is interpolated.
   */
  method GpBayerDecode(input: array<Byte>, w: nat, h: nat, output: array<Byte>, tile: int) returns (result: int)
    requires input.Length == h * w && output.Length == h * w * 3 && input != output
    modifies output
    ensures result == GP_OK
    ensures 0 <= tile < 8 ==> var f := Expanded(input[..], w, h, tile);
      output[..] == Render(w, h, if w < 2 || h < 2 then f else Bilinear(f, w, h, tile))
    ensures !(0 <= tile < 8) ==> var raw := old(output[..]);
      output[..] == if w < 2 || h < 2 then raw else Render(w, h, Bilinear(View(raw, w, h), w, h, tile))
  {
    var _ := GpBayerExpand(input, w, h, output, tile);
    var _ := GpBayerInterpolate(output, w, h, tile);
    if w >= 2 && h >= 2 {
      BilinearOfRendered(w, h, Expanded(input[..], w, h, tile), tile);
    }
    result := GP_OK;
  }
}
