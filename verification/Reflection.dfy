/** Reflecting a mosaic picture left to right or top to bottom. */
module Reflection {
  import opened Prelude
  import opened Mosaic

  /** Which sides a reflection exchanges. */
  datatype Sides = LeftRight | TopBottom

  function MirrorX(s: Sides, w: int, x: int): int {
    if s == LeftRight then w - 1 - x else x
  }

  function MirrorY(s: Sides, h: int, y: int): int {
    if s == TopBottom then h - 1 - y else y
  }

  function Mirror(s: Sides, w: int, h: int, f: Picture): Picture {
    (x: int, y: int, c: int) => f(MirrorX(s, w, x), MirrorY(s, h, y), c)
  }

  /** The tiling with a given red code. */
  function TileOf(code: int): int {
    if code == 2 then 3 else if code == 3 then 2 else code
  }

  /** The tiling of the reflected picture: an odd number of columns or rows reflects to the same tiling. */
  function MirrorTile(s: Sides, w: int, h: int, tile: int): int {
    var code := RedCode(tile);
    if s == LeftRight then
      if w % 2 == 1 then tile else TileOf(if code % 2 == 0 then code + 1 else code - 1)
    else
      if h % 2 == 1 then tile else TileOf(if code < 2 then code + 2 else code - 2)
  }

  lemma ParityOfMirror(n: int, t: int)
    ensures (n - 1 - t) % 2 == if n % 2 == 1 then t % 2 else 1 - t % 2
  {
    assert n - 1 - t == n % 2 - 1 + t % 2 + 2 * (n / 2 - t / 2 - t % 2);
  }

  /** What was sensed at a pixel of the reflected picture is what was sensed at the pixel it shows. */
  lemma SiteOfMirror(s: Sides, w: int, h: int, tile: int, x: int, y: int)
    ensures SiteAt(MirrorTile(s, w, h, tile), x, y) == SiteAt(tile, MirrorX(s, w, x), MirrorY(s, h, y))
  {
    ParityOfMirror(w, x);
    ParityOfMirror(h, y);
  }

  lemma MirrorInRange(s: Sides, w: int, h: int, x: int, y: int)
    ensures InRange(MirrorX(s, w, x), MirrorY(s, h, y), w, h) == InRange(x, y, w, h)
  {
  }

  lemma AtMirror(s: Sides, f: Picture, w: int, h: int, x: int, y: int, x': int, y': int, c: int)
    requires MirrorX(s, w, x) == x' && MirrorY(s, h, y) == y'
    ensures Mirror(s, w, h, f)(x, y, c) == f(x', y', c)
  {
  }
}
