/** Bayer mosaics: sites, tilings and the flat RGB layout shared by both demosaicers. */
module Mosaic {
  import opened Prelude

  /** A picture as a total function of column, row and channel. */
  type Picture = (int, int, int) -> Byte

  const RED := 0
  const GREEN := 1
  const BLUE := 2

  /** Index of channel 0 of pixel (x, y) in a flat raster of width w. */
  function Ad(x: int, y: int, w: int): int {
    y * w * 3 + 3 * x
  }

  function InRange(x: int, y: int, w: int, h: int): bool {
    0 <= x < w && 0 <= y < h
  }

  lemma AdInRange(x: int, y: int, w: int, h: int)
    requires InRange(x, y, w, h)
    ensures 0 <= Ad(x, y, w) <= Ad(x, y, w) + 3 <= h * w * 3
  {
    assert (y + 1) * w <= h * w;
  }

  lemma AdNextRow(x: int, y: int, w: int)
    ensures Ad(x, y + 1, w) == Ad(x, y, w) + 3 * w
    ensures Ad(x, y + 2, w) == Ad(x, y, w) + 6 * w
    ensures Ad(w, y, w) == Ad(0, y + 1, w)
  {
  }

  /** The picture a flat raster shows; black outside. */
  function View(raster: seq<Byte>, w: nat, h: nat): Picture
    requires |raster| == h * w * 3
  {
    (x: int, y: int, c: int) =>
      if InRange(x, y, w, h) && 0 <= c < 3 then
        AdInRange(x, y, w, h);
        raster[Ad(x, y, w) + c]
      else 0
  }

  /** The flat raster of a picture. */
  function Render(w: nat, h: nat, f: Picture): (raster: seq<Byte>)
    ensures |raster| == h * w * 3
  {
    if w == 0 then [] else
    seq(h * w * 3, k requires 0 <= k < h * w * 3 => f(k / 3 % w, k / 3 / w, k % 3))
  }

  lemma DivModUnique(q: int, r: int, w: int)
    requires 0 <= r < w
    ensures (q * w + r) / w == q
    ensures (q * w + r) % w == r
  {
    var n := q * w + r;
    var d := n / w - q;
    assert d * w == r - n % w;
    assert d >= 1 ==> d * w >= w;
    assert d <= -1 ==> d * w <= -w;
  }

  lemma RenderAt(w: nat, h: nat, f: Picture, x: int, y: int, c: int)
    requires InRange(x, y, w, h) && 0 <= c < 3
    ensures 0 <= Ad(x, y, w) + c < h * w * 3
    ensures Render(w, h, f)[Ad(x, y, w) + c] == f(x, y, c)
  {
    AdInRange(x, y, w, h);
    var k := Ad(x, y, w) + c;
    assert k / 3 == y * w + x && k % 3 == c;
    DivModUnique(y, x, w);
  }

  /** The three channels of one pixel of a rendered picture. */
  lemma RenderPixel(w: nat, h: nat, f: Picture, x: int, y: int)
    requires InRange(x, y, w, h)
    ensures 0 <= Ad(x, y, w) && Ad(x, y, w) + 3 <= h * w * 3
    ensures Render(w, h, f)[Ad(x, y, w)..Ad(x, y, w) + 3] == [f(x, y, RED), f(x, y, GREEN), f(x, y, BLUE)]
  {
    AdInRange(x, y, w, h);
    RenderAt(w, h, f, x, y, RED);
    RenderAt(w, h, f, x, y, GREEN);
    RenderAt(w, h, f, x, y, BLUE);
  }

  /** Three more equal elements lengthen a common prefix by three. */
  lemma ExtendPrefix(s: seq<Byte>, t: seq<Byte>, n: nat)
    requires n + 3 <= |s| == |t| && s[..n] == t[..n] && s[n..n + 3] == t[n..n + 3]
    ensures s[..n + 3] == t[..n + 3]
  {
    assert s[..n + 3] == s[..n] + s[n..n + 3];
    assert t[..n + 3] == t[..n] + t[n..n + 3];
  }

  lemma RowColumn(k: int, w: nat, h: nat)
    requires w > 0 && 0 <= k < h * w
    ensures 0 <= k / w < h && 0 <= k % w < w
    ensures k / w * w + k % w == k
  {
    var y := k / w;
    assert y >= h ==> y * w >= h * w;
  }

  /** Every flat index is the index of one pixel and channel. */
  lemma PixelOfIndex(k: int, w: nat, h: nat)
    requires w > 0 && 0 <= k < h * w * 3
    ensures InRange(k / 3 % w, k / 3 / w, w, h)
    ensures Ad(k / 3 % w, k / 3 / w, w) + k % 3 == k
  {
    RowColumn(k / 3, w, h);
  }

  // ------------------------------------------------------------------
  // Tilings
  // ------------------------------------------------------------------

  /** Position of a pixel inside its 2x2 tile. */
  function Bayer(x: int, y: int): int {
    (if x % 2 == 1 then 0 else 1) + (if y % 2 == 1 then 0 else 2)
  }

  /** Tile position of the red site; anything outside the enumeration counts as RGGB. */
  function RedCode(tile: int): int {
    if tile == 1 || tile == 5 then 1
    else if tile == 2 || tile == 6 then 3
    else if tile == 3 || tile == 7 then 2
    else 0
  }

  /** The four kinds of site, named by the colour sensed and, for green, by its row. */
  datatype Site = RedSite | GreenInRedRow | GreenInBlueRow | BlueSite

  /** Which site pixel (x, y) is: red where both parities agree with the red code. */
  function SiteAt(tile: int, x: int, y: int): Site {
    var sameColumn := x % 2 == (if RedCode(tile) % 2 == 0 then 1 else 0);
    var sameRow := y % 2 == (if RedCode(tile) < 2 then 1 else 0);
    if sameRow then if sameColumn then RedSite else GreenInRedRow
    else if sameColumn then GreenInBlueRow else BlueSite
  }

  function ColourOf(s: Site): int {
    match s
    case RedSite => RED
    case BlueSite => BLUE
    case _ => GREEN
  }

  /** The channel the sensor measured at (x, y). */
  function Sensed(tile: int, x: int, y: int): int {
    ColourOf(SiteAt(tile, x, y))
  }

  /** The position codes of the four sites, in the order red, green, green, blue. */
  function PosCode(tile: int): seq<int> {
    if tile == 1 || tile == 5 then [1, 0, 3, 2]
    else if tile == 2 || tile == 6 then [3, 2, 1, 0]
    else if tile == 3 || tile == 7 then [2, 3, 0, 1]
    else [0, 1, 2, 3]
  }

  /** The colour table indexed by tile and tile position. */
  function TileColours(tile: int): seq<int>
    requires 0 <= tile < 8
  {
    if tile % 4 == 0 then [0, 1, 1, 2]
    else if tile % 4 == 1 then [1, 0, 2, 1]
    else if tile % 4 == 2 then [2, 1, 1, 0]
    else [1, 2, 0, 1]
  }

  /** The colour table and the position codes describe the same tiling. */
  lemma TablesAgree(tile: int, x: int, y: int)
    requires 0 <= tile < 8
    ensures TileColours(tile)[Bayer(x, y)] == Sensed(tile, x, y)
  {
  }

  lemma PosCodeIsSite(tile: int, x: int, y: int)
    ensures Bayer(x, y) == PosCode(tile)[0] <==> SiteAt(tile, x, y) == RedSite
    ensures Bayer(x, y) == PosCode(tile)[1] <==> SiteAt(tile, x, y) == GreenInRedRow
    ensures Bayer(x, y) == PosCode(tile)[2] <==> SiteAt(tile, x, y) == GreenInBlueRow
    ensures Bayer(x, y) == PosCode(tile)[3] <==> SiteAt(tile, x, y) == BlueSite
  {
  }

  /** The pixels of picture f agree with g wherever the sensor measured. */
  ghost predicate KeepsSamples(f: Picture, g: Picture, w: int, h: int, tile: int) {
    forall x, y :: InRange(x, y, w, h) ==> f(x, y, Sensed(tile, x, y)) == g(x, y, Sensed(tile, x, y))
  }

  /** Every sample the sensor took is v. */
  ghost predicate FlatField(f: Picture, w: int, h: int, tile: int, v: int) {
    forall x, y :: InRange(x, y, w, h) ==> f(x, y, Sensed(tile, x, y)) == v
  }
}
