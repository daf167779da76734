/** The whole run of the homogeneity-directed demosaicer: start-up, the loop over the rows, and the decoder. */
module AhdRun {
  import opened Prelude
  import opened Mosaic
  import opened AhdPicture
  import opened AhdWindow
  import opened AhdScan
  import BayerArray

  /** A write elsewhere in the window leaves a row as it was. */
  lemma HoldsAfterWrite(s: seq<Byte>, s': seq<Byte>, w: nat, a: nat, b: nat, row: seq<Byte>, at: nat, p: Picture,
                        y: int)
    requires Between(s', s, a, b, row) && HoldsRow(s, w, at, p, y)
    requires at + 3 * w <= a || b <= at
    ensures HoldsRow(s', w, at, p, y)
  {
    hide Row;
    SliceOutside(s, s', a, b, at, 3 * w);
  }

  lemma SliceOutside(s: seq<Byte>, s': seq<Byte>, a: nat, b: nat, at: nat, n: nat)
    requires a <= b <= |s| == |s'| && s'[..a] == s[..a] && s'[b..] == s[b..] && at + n <= |s|
    requires at + n <= a || b <= at
    ensures s'[at..at + n] == s[at..at + n]
  {
    forall k | at <= k < at + n
      ensures s'[k] == s[k]
    {
      assert if k < a then s'[k] == s'[..a][k] else s'[k] == s'[b..][k - b];
    }
  }

  /** Sliding the window moves every row up by one. */
  lemma HoldsAfterSlide(s: seq<Byte>, s': seq<Byte>, w: nat, at: nat, p: Picture, y: int)
    requires |s| == |s'| == 18 * w && s'[..15 * w] == s[3 * w..18 * w]
    requires at + 3 * w <= 15 * w && HoldsRow(s, w, at + 3 * w, p, y)
    ensures HoldsRow(s', w, at, p, y)
  {
    hide Row;
    Shifted(s, s', 3 * w, 15 * w, at, at + 3 * w);
  }

  /** Window rows 4 and 5 hold rows y and y + 1: the first complete, the second with green complete. */
  ghost predicate TwoRows(s: seq<Byte>, d: Dir, f: Picture, w: nat, h: nat, tile: int, y: int)
    requires w >= 2 && h >= 2
  {
    && |s| == 18 * w
    && HoldsRow(s, w, 12 * w, Filled(d, f, w, h, tile), y)
    && HoldsRow(s, w, 15 * w, Greened(d, f, w, h, tile), y + 1)
  }

  lemma FirstTwoRows(raw: seq<Byte>, w: nat, h: nat)
    requires w >= 2 && h >= 3 && |raw| == h * w * 3
    ensures 6 * w <= |raw|
    ensures raw[0..3 * w] == Row(w, View(raw, w, h), 0) && raw[3 * w..6 * w] == Row(w, View(raw, w, h), 1)
  {
    hide View, Row;
    assert ShowsFrom(raw, View(raw, w, h), w, h, 0);
    assert ShowsFrom(raw, View(raw, w, h), w, h, 1);
    RowShown(raw, View(raw, w, h), w, h, 0);
    RowShown(raw, View(raw, w, h), w, h, 1);
    assert Ad(0, 0, w) == 0 && Ad(0, 1, w) == 3 * w;
  }

  /** Copies the first two image rows into window rows 4 and 5. */
  method LoadTwoRows(image: array<Byte>, window: array<Byte>, w: nat, h: nat, ghost raw: seq<Byte>)
    requires w >= 2 && h >= 3 && image.Length == |raw| == h * w * 3 && image[..] == raw
    requires window.Length == 18 * w && image != window
    modifies window
    ensures HoldsRow(window[..], w, 12 * w, View(raw, w, h), 0) && HoldsRow(window[..], w, 15 * w, View(raw, w, h), 1)
  {
    hide View, Row;
    FirstTwoRows(raw, w, h);
    CopyInto(window, 12 * w, image, 0, 6 * w);
    SplitRows(window[..], raw, w);
  }

  lemma SplitRows(s: seq<Byte>, raw: seq<Byte>, w: nat)
    requires |s| == 18 * w && 6 * w <= |raw| && s[12 * w..18 * w] == raw[0..6 * w]
    ensures s[12 * w..15 * w] == raw[0..3 * w] && s[15 * w..18 * w] == raw[3 * w..6 * w]
  {
    assert s[12 * w..15 * w] == s[12 * w..18 * w][..3 * w];
    assert s[15 * w..18 * w] == s[12 * w..18 * w][3 * w..];
    assert raw[0..6 * w][..3 * w] == raw[0..3 * w] && raw[0..6 * w][3 * w..] == raw[3 * w..6 * w];
  }

  /** Completes greens in window row 4, which holds image row y and has a row below it. */
  method GreenRow(image: array<Byte>, windowH: array<Byte>, windowV: array<Byte>, o: nat, w: nat, h: nat, y: int,
                  p: seq<int>, ghost raw: seq<Byte>, ghost tile: int)
    requires w >= 2 && h >= 2 && 0 <= y < h && image.Length == |raw| == h * w * 3 && p == PosCode(tile)
    requires windowH.Length == windowV.Length == 18 * w && o + 6 * w <= 18 * w && image[..] == raw
    requires image != windowH && image != windowV && windowH != windowV
    requires HoldsRow(windowH[..], w, o + 3 * w, View(raw, w, h), y)
    requires HoldsRow(windowV[..], w, o + 3 * w, View(raw, w, h), y)
    modifies windowH, windowV
    ensures Between(windowH[..], old(windowH[..]), o + 3 * w, o + 6 * w,
      Row(w, Greened(Across, View(raw, w, h), w, h, tile), y))
    ensures Between(windowV[..], old(windowV[..]), o + 3 * w, o + 6 * w,
      Row(w, Greened(Down, View(raw, w, h), w, h, tile), y))
  {
    hide View, Row, Greened;
    assert ShowsFrom(image[..], View(raw, w, h), w, h, y - 2);
    ghost var nowH, nowV := windowH[..], windowV[..];
    assert windowH[o + 3 * w..o + 6 * w] == nowH[o + 3 * w..o + 6 * w];
    assert windowV[o + 3 * w..o + 6 * w] == nowV[o + 3 * w..o + 6 * w];
    DoGreenCtrRow(image, windowH, windowV, o, w, h, y, p, View(raw, w, h), tile);
  }

  /** Completes window row 4, given complete greens there and below, and the complete row above if there is one. */
  method FillRow(windowH: array<Byte>, windowV: array<Byte>, w: nat, h: nat, y: int, p: seq<int>,
                 ghost f: Picture, ghost tile: int)
    requires w >= 2 && h >= 3 && 0 <= y < h - 1 && p == PosCode(tile)
    requires windowH.Length == windowV.Length == 18 * w && windowH != windowV
    requires HoldsRow(windowH[..], w, 12 * w, Greened(Across, f, w, h, tile), y)
    requires HoldsRow(windowV[..], w, 12 * w, Greened(Down, f, w, h, tile), y)
    requires HoldsRow(windowH[..], w, 15 * w, Greened(Across, f, w, h, tile), y + 1)
    requires HoldsRow(windowV[..], w, 15 * w, Greened(Down, f, w, h, tile), y + 1)
    requires y > 0 ==> HoldsRow(windowH[..], w, 9 * w, Filled(Across, f, w, h, tile), y - 1)
    requires y > 0 ==> HoldsRow(windowV[..], w, 9 * w, Filled(Down, f, w, h, tile), y - 1)
    modifies windowH, windowV
    ensures TwoRows(windowH[..], Across, f, w, h, tile, y) && TwoRows(windowV[..], Down, f, w, h, tile, y)
    ensures y > 0 ==> HoldsRow(windowH[..], w, 9 * w, Filled(Across, f, w, h, tile), y - 1)
    ensures y > 0 ==> HoldsRow(windowV[..], w, 9 * w, Filled(Down, f, w, h, tile), y - 1)
  {
    hide Row, Filled, Greened;
    ghost var nowH, nowV := windowH[..], windowV[..];
    assert windowH[9 * w + 3 * w..9 * w + 6 * w] == nowH[12 * w..12 * w + 3 * w];
    assert windowV[9 * w + 3 * w..9 * w + 6 * w] == nowV[12 * w..12 * w + 3 * w];
    DoRbCtrRow(windowH, windowV, 9 * w, w, h, y, p, f, tile);
    RowsAfterFill(nowH, windowH[..], Across, f, w, h, tile, y);
    RowsAfterFill(nowV, windowV[..], Down, f, w, h, tile, y);
  }

  lemma RowsAfterFill(s: seq<Byte>, s': seq<Byte>, d: Dir, f: Picture, w: nat, h: nat, tile: int, y: int)
    requires w >= 2 && h >= 2 && |s| == 18 * w
    requires Between(s', s, 12 * w, 15 * w, Row(w, Filled(d, f, w, h, tile), y))
    requires HoldsRow(s, w, 15 * w, Greened(d, f, w, h, tile), y + 1)
    requires y > 0 ==> HoldsRow(s, w, 9 * w, Filled(d, f, w, h, tile), y - 1)
    ensures TwoRows(s', d, f, w, h, tile, y)
    ensures y > 0 ==> HoldsRow(s', w, 9 * w, Filled(d, f, w, h, tile), y - 1)
  {
    hide Row, Filled, Greened;
    var p, g := Filled(d, f, w, h, tile), Greened(d, f, w, h, tile);
    HoldsAfterWrite(s, s', w, 12 * w, 15 * w, Row(w, p, y), 15 * w, g, y + 1);
    if y > 0 {
      HoldsAfterWrite(s, s', w, 12 * w, 15 * w, Row(w, p, y), 9 * w, p, y - 1);
    }
  }

  /** Start-up, first half: row 0 complete in window row 4, row 1 with its greens in window row 5. */
  method PrimeTwo(image: array<Byte>, windowH: array<Byte>, windowV: array<Byte>, w: nat, h: nat, p: seq<int>,
                  ghost raw: seq<Byte>, ghost tile: int)
    requires w >= 2 && h >= 3 && image.Length == |raw| == h * w * 3 && image[..] == raw && p == PosCode(tile)
    requires windowH.Length == windowV.Length == 18 * w
    requires image != windowH && image != windowV && windowH != windowV
    modifies windowH, windowV
    ensures TwoRows(windowH[..], Across, View(raw, w, h), w, h, tile, 0)
    ensures TwoRows(windowV[..], Down, View(raw, w, h), w, h, tile, 0)
  {
    hide Row, Filled, Greened, View, HoldsRow, Between;
    ghost var f := View(raw, w, h);
    ghost var gh, gv := Greened(Across, f, w, h, tile), Greened(Down, f, w, h, tile);
    LoadTwoRows(image, windowH, w, h, raw);
    LoadTwoRows(image, windowV, w, h, raw);
    ghost var h0, v0 := windowH[..], windowV[..];
    GreenRow(image, windowH, windowV, 9 * w, w, h, 0, p, raw, tile);
    ghost var h1, v1 := windowH[..], windowV[..];
    HoldsAfterWrite(h0, h1, w, 12 * w, 15 * w, Row(w, gh, 0), 15 * w, f, 1);
    HoldsAfterWrite(v0, v1, w, 12 * w, 15 * w, Row(w, gv, 0), 15 * w, f, 1);
    HoldsWritten(h0, h1, w, 12 * w, gh, 0);
    HoldsWritten(v0, v1, w, 12 * w, gv, 0);
    GreenRow(image, windowH, windowV, 12 * w, w, h, 1, p, raw, tile);
    HoldsAfterWrite(h1, windowH[..], w, 15 * w, 18 * w, Row(w, gh, 1), 12 * w, gh, 0);
    HoldsAfterWrite(v1, windowV[..], w, 15 * w, 18 * w, Row(w, gv, 1), 12 * w, gv, 0);
    HoldsWritten(h1, windowH[..], w, 15 * w, gh, 1);
    HoldsWritten(v1, windowV[..], w, 15 * w, gv, 1);
    FillRow(windowH, windowV, w, h, 0, p, f, tile);
  }

  lemma HoldsWritten(s: seq<Byte>, s': seq<Byte>, w: nat, a: nat, p: Picture, y: int)
    requires Between(s', s, a, a + 3 * w, Row(w, p, y))
    ensures HoldsRow(s', w, a, p, y)
  {
  }

  /** Start-up: windows and tables as the first turn of the loop expects them. */
  method Prime(image: array<Byte>, windowH: array<Byte>, windowV: array<Byte>, w: nat, h: nat, p: seq<int>,
               ghost raw: seq<Byte>, ghost tile: int)
    requires w >= 2 && h >= 3 && image.Length == |raw| == h * w * 3 && image[..] == raw && p == PosCode(tile)
    requires windowH.Length == windowV.Length == 18 * w
    requires image != windowH && image != windowV && windowH != windowV
    modifies windowH, windowV
    ensures Primed(windowH[..], Across, View(raw, w, h), w, h, tile, 0)
    ensures Primed(windowV[..], Down, View(raw, w, h), w, h, tile, 0)
  {
    hide Row, Filled, Greened, View, HoldsRow, Between;
    ghost var f := View(raw, w, h);
    ghost var gh, gv := Greened(Across, f, w, h, tile), Greened(Down, f, w, h, tile);
    ghost var fh, fv := Filled(Across, f, w, h, tile), Filled(Down, f, w, h, tile);
    PrimeTwo(image, windowH, windowV, w, h, p, raw, tile);
    SlideTwo(windowH, w, h, 0, Across, f, tile);
    SlideTwo(windowV, w, h, 0, Down, f, tile);
    ghost var h0, v0 := windowH[..], windowV[..];
    assert ShowsFrom(image[..], f, w, h, 0);
    LoadGreenRow(image, windowH, windowV, w, h, 2, p, raw, tile);
    HoldsAfterWrite(h0, windowH[..], w, 15 * w, 18 * w, Row(w, gh, 2), 9 * w, fh, 0);
    HoldsAfterWrite(v0, windowV[..], w, 15 * w, 18 * w, Row(w, gv, 2), 9 * w, fv, 0);
    HoldsAfterWrite(h0, windowH[..], w, 15 * w, 18 * w, Row(w, gh, 2), 12 * w, gh, 1);
    HoldsAfterWrite(v0, windowV[..], w, 15 * w, 18 * w, Row(w, gv, 2), 12 * w, gv, 1);
    HoldsWritten(h0, windowH[..], w, 15 * w, gh, 2);
    HoldsWritten(v0, windowV[..], w, 15 * w, gv, 2);
    FillRow(windowH, windowV, w, h, 1, p, f, tile);
    SlideThree(windowH, w, h, Across, f, tile);
    SlideThree(windowV, w, h, Down, f, tile);
  }

  method SlideTwo(window: array<Byte>, w: nat, h: nat, y: int, ghost d: Dir, ghost f: Picture, ghost tile: int)
    requires w >= 2 && h >= 2 && TwoRows(window[..], d, f, w, h, tile, y)
    modifies window
    ensures window.Length == 18 * w
    ensures HoldsRow(window[..], w, 9 * w, Filled(d, f, w, h, tile), y)
    ensures HoldsRow(window[..], w, 12 * w, Greened(d, f, w, h, tile), y + 1)
  {
    hide Row, Filled, Greened, HoldsRow;
    ghost var now := window[..];
    MoveDown(window, 3 * w, 15 * w);
    assert window[..][..15 * w] == now[3 * w..18 * w];
    HoldsAfterSlide(now, window[..], w, 9 * w, Filled(d, f, w, h, tile), y);
    HoldsAfterSlide(now, window[..], w, 12 * w, Greened(d, f, w, h, tile), y + 1);
  }

  method SlideThree(window: array<Byte>, w: nat, h: nat, ghost d: Dir, ghost f: Picture, ghost tile: int)
    requires w >= 2 && h >= 2 && TwoRows(window[..], d, f, w, h, tile, 1)
    requires HoldsRow(window[..], w, 9 * w, Filled(d, f, w, h, tile), 0)
    modifies window
    ensures Primed(window[..], d, f, w, h, tile, 0)
  {
    hide Row, Filled, Greened, HoldsRow;
    ghost var now := window[..];
    MoveDown(window, 3 * w, 15 * w);
    assert window[..][..15 * w] == now[3 * w..18 * w];
    HoldsAfterSlide(now, window[..], w, 6 * w, Filled(d, f, w, h, tile), 0);
    HoldsAfterSlide(now, window[..], w, 9 * w, Filled(d, f, w, h, tile), 1);
    HoldsAfterSlide(now, window[..], w, 12 * w, Greened(d, f, w, h, tile), 2);
  }

  /** Zeroed tables are those waiting for row 0: nothing is scored above row 1. */
  lemma ZeroTablesWait(s: seq<Byte>, d: Dir, r: Pair, w: nat)
    requires w >= 2 && s == seq(3 * w, _ => 0)
    ensures Waiting(s, ScoresOf(d, r, w), w, 0)
  {
    assert s[..2 * w] == ScoreRow(ScoresOf(d, r, w), w, -1) + ScoreRow(ScoresOf(d, r, w), w, 0);
  }

  /**
   * Demosaics in place and yields the picture computed from two complete reconstructions of the
   * original image. Three rows and two columns are the least the start-up reads.
   */
  method GpAhdInterpolate(image: array<Byte>, w: nat, h: nat, tile: int) returns (result: int)
    requires w >= 2 && h >= 3 && image.Length == h * w * 3
    modifies image
    ensures result == BayerArray.GP_OK
    ensures image[..] == Render(w, h, Ahd(View(old(image[..]), w, h), w, h, tile))
  {
    hide Ahd, Render, View, Primed, Waiting, ScoresOf, Progress;
    ghost var raw := image[..];
    ghost var f := View(raw, w, h);
    ghost var goal := Render(w, h, Ahd(f, w, h, tile));
    var windowH := new Byte[18 * w](_ => 0);
    var windowV := new Byte[18 * w](_ => 0);
    var homH := new Byte[3 * w](_ => 0);
    var homV := new Byte[3 * w](_ => 0);
    var p := PosCode(tile);
    Prime(image, windowH, windowV, w, h, p, raw, tile);
    assert homH[..] == seq(3 * w, _ => 0) && homV[..] == seq(3 * w, _ => 0);
    ZeroTablesWait(homH[..], Across, Reconstructions(f, w, h, tile), w);
    ZeroTablesWait(homV[..], Down, Reconstructions(f, w, h, tile), w);
    NothingDone(raw, goal, w);
    for y := 0 to h
      invariant Primed(windowH[..], Across, f, w, h, tile, y)
      invariant Primed(windowV[..], Down, f, w, h, tile, y)
      invariant TablesWait(homH, homV, f, w, h, tile, y)
      invariant Progress(image[..], raw, goal, Ad(0, y, w))
    {
      Turn(image, windowH, windowV, homH, homV, w, h, y, p, tile, raw, goal);
    }
    AllDone(image[..], raw, goal, w, h);
    return BayerArray.GP_OK;
  }

  lemma NothingDone(raw: seq<Byte>, goal: seq<Byte>, w: nat)
    requires |raw| == |goal|
    ensures Progress(raw, raw, goal, Ad(0, 0, w))
  {
  }

  lemma AllDone(now: seq<Byte>, raw: seq<Byte>, goal: seq<Byte>, w: nat, h: nat)
    requires |goal| == h * w * 3 && Progress(now, raw, goal, Ad(0, h, w))
    ensures now == goal
  {
    assert Ad(0, h, w) == h * w * 3;
  }

  // ------------------------------------------------------------------
  // The decoder
  // ------------------------------------------------------------------

  /** The sensor raster can still be read back off the demosaiced picture. */
  lemma AhdDecodeKeepsSamples(input: seq<Byte>, w: nat, h: nat, tile: int)
    requires |input| == h * w && w >= 2 && h >= 2
    ensures BayerArray.Collected(Ahd(BayerArray.Expanded(input, w, h, tile), w, h, tile), w, h, tile) == input
  {
    var f := BayerArray.Expanded(input, w, h, tile);
    AhdKeepsSamples(f, w, h, tile);
    CollectedDependsOnSamples(Ahd(f, w, h, tile), f, w, h, tile);
    BayerArray.ExpandLosesNothing(input, w, h, tile);
  }

  lemma CollectedDependsOnSamples(f: Picture, g: Picture, w: nat, h: nat, tile: int)
    requires KeepsSamples(f, g, w, h, tile)
    ensures BayerArray.Collected(f, w, h, tile) == BayerArray.Collected(g, w, h, tile)
  {
    if w > 0 {
      forall k | 0 <= k < h * w
        ensures BayerArray.Collected(f, w, h, tile)[k] == BayerArray.Collected(g, w, h, tile)[k]
      {
        BayerArray.StoredAt(tile, w, h, k);
        var x, y := BayerArray.ColumnOfStored(tile, w, k % w), k / w;
        assert f(x, y, Sensed(tile, x, y)) == g(x, y, Sensed(tile, x, y));
      }
    }
  }

  lemma AhdOfRendered(w: nat, h: nat, f: Picture, tile: int)
    requires w >= 2 && h >= 2
    ensures Render(w, h, Ahd(View(Render(w, h, f), w, h), w, h, tile)) == Render(w, h, Ahd(f, w, h, tile))
  {
    hide Ahd;
    var g := View(Render(w, h, f), w, h);
    forall x, y | InRange(x, y, w, h)
      ensures g(x, y, Sensed(tile, x, y)) == f(x, y, Sensed(tile, x, y))
    {
      BayerArray.ViewRender(w, h, f, x, y, Sensed(tile, x, y));
    }
    AhdDependsOnSamplesOnly(g, f, w, h, tile);
    forall k | 0 <= k < h * w * 3
      ensures Render(w, h, Ahd(g, w, h, tile))[k] == Render(w, h, Ahd(f, w, h, tile))[k]
    {
      PixelOfIndex(k, w, h);
    }
  }

  /** Expands a sensor raster, if the tiling is one of the enumeration, and demosaics the output. */
  method GpAhdDecode(input: array<Byte>, w: nat, h: nat, output: array<Byte>, tile: int) returns (result: int)
    requires input.Length == h * w && output.Length == h * w * 3 && input != output
    requires w >= 2 && h >= 3
    modifies output
    ensures result == BayerArray.GP_OK
    ensures 0 <= tile < 8 ==>
      output[..] == Render(w, h, Ahd(BayerArray.Expanded(input[..], w, h, tile), w, h, tile))
    ensures !(0 <= tile < 8) ==> output[..] == Render(w, h, Ahd(View(old(output[..]), w, h), w, h, tile))
  {
    hide Ahd, Render, View;
    var _ := BayerArray.GpBayerExpand(input, w, h, output, tile);
    result := GpAhdInterpolate(output, w, h, tile);
    AhdOfRendered(w, h, BayerArray.Expanded(input[..], w, h, tile), tile);
  }
}
