/** Interpolation has no preferred side: it commutes with reflecting the picture. */
module BayerSymmetry {
  import opened Prelude
  import opened Mosaic
  import opened Reflection
  import opened Accrue
  import opened BayerArray

  function Reflected(s: Sides, w: int, h: int, p: Pos): Pos {
    Pos(MirrorX(s, w, p.x), MirrorY(s, h, p.y))
  }

  /** The neighbours of a reflected pixel are the reflected neighbours, in another order. */
  lemma NeighboursOfMirror(s: Sides, w: int, h: int, x: int, y: int)
    ensures var p := Reflected(s, w, h, Pos(x, y));
      && (forall k :: 0 <= k < 4 ==>
            Reflected(s, w, h, Plus(x, y)[k])
            == if s == LeftRight then Swap(Plus(p.x, p.y), 0, 1)[k] else Swap(Plus(p.x, p.y), 2, 3)[k])
      && (forall k :: 0 <= k < 4 ==>
            Reflected(s, w, h, Cross(x, y)[k])
            == if s == LeftRight then Swap(Swap(Cross(p.x, p.y), 0, 2), 1, 3)[k]
               else Swap(Swap(Cross(p.x, p.y), 0, 3), 1, 2)[k])
  {
  }

  /** Reading a reflected picture at some places is reading the picture at their reflections. */
  lemma ValuesOfMirror(s: Sides, f: Picture, w: int, h: int, at: seq<Pos>, to: seq<Pos>, c: int)
    requires |at| == |to|
    requires forall k :: 0 <= k < |at| ==> Reflected(s, w, h, at[k]) == to[k]
    ensures Values(Mirror(s, w, h, f), at, c) == Values(f, to, c)
    ensures Flags(at, w, h) == Flags(to, w, h)
  {
    forall k | 0 <= k < |at|
      ensures Values(Mirror(s, w, h, f), at, c)[k] == Values(f, to, c)[k]
      ensures Flags(at, w, h)[k] == Flags(to, w, h)[k]
    {
      assert Reflected(s, w, h, at[k]) == to[k];
    }
  }

  lemma ValuesOfSwap(f: Picture, w: int, h: int, at: seq<Pos>, c: int, i: nat, j: nat)
    requires i < j < |at|
    ensures Values(f, Swap(at, i, j), c) == Swap(Values(f, at, c), i, j)
    ensures Flags(Swap(at, i, j), w, h) == Swap(Flags(at, w, h), i, j)
  {
  }

  /** The estimate at a reflected pixel. */
  lemma EstimateOfMirror(s: Sides, f: Picture, w: int, h: int, x: int, y: int, c: int)
    requires w >= 2 && h >= 2 && InRange(x, y, w, h)
    ensures var at := if c == GREEN then Plus(x, y) else Cross(x, y);
      var p := Reflected(s, w, h, Pos(x, y));
      var to := if c == GREEN then Plus(p.x, p.y) else Cross(p.x, p.y);
      && (exists i :: 0 <= i < 4 && Inside(at[i], w, h))
      && (exists i :: 0 <= i < 4 && Inside(to[i], w, h))
      && EstimateAt(Mirror(s, w, h, f), w, h, at, c) == EstimateAt(f, w, h, to, c)
  {
    hide Estimate, Values, Flags, Swap, MirrorX, MirrorY, Plus, Cross;
    var p := Reflected(s, w, h, Pos(x, y));
    MirrorInRange(s, w, h, x, y);
    HasNeighbours(x, y, w, h);
    HasNeighbours(p.x, p.y, w, h);
    NeighboursOfMirror(s, w, h, x, y);
    if c == GREEN {
      var to := Plus(p.x, p.y);
      var i, j := if s == LeftRight then 0 else 2, if s == LeftRight then 1 else 3;
      SomeInside(to, w, h);
      ValuesOfMirror(s, f, w, h, Plus(x, y), Swap(to, i, j), c);
      ValuesOfSwap(f, w, h, to, c, i, j);
      EstimateOfSwap(Values(f, to, c), Flags(to, w, h), true, i, j);
    } else {
      var to := Cross(p.x, p.y);
      var i, j := if s == LeftRight then 2 else 3, if s == LeftRight then 3 else 2;
      var half := Swap(to, 0, i);
      SomeInside(to, w, h);
      ValuesOfMirror(s, f, w, h, Cross(x, y), Swap(half, 1, j), c);
      ValuesOfSwap(f, w, h, to, c, 0, i);
      ValuesOfSwap(f, w, h, half, c, 1, j);
      EstimateOfSwap(Values(f, to, c), Flags(to, w, h), false, 0, i);
      EstimateOfSwap(Values(f, half, c), Flags(half, w, h), false, 1, j);
    }
  }

  lemma LineMeanTurned(n: int, t: int, next: Byte, previous: Byte)
    requires n >= 2 && 0 <= t < n
    ensures LineMean(n, n - 1 - t, previous, next) == LineMean(n, t, next, previous)
  {
  }

  /** A line and its reflection have the same mean. */
  lemma MeanOfMirror(s: Sides, f: Picture, w: int, h: int, x: int, y: int, c: int)
    requires w >= 2 && h >= 2 && InRange(x, y, w, h)
    ensures var p, g := Reflected(s, w, h, Pos(x, y)), Mirror(s, w, h, f);
      && 0 <= p.x < w && 0 <= p.y < h
      && LineMean(w, x, g(x + 1, y, c), g(x - 1, y, c)) == LineMean(w, p.x, f(p.x + 1, p.y, c), f(p.x - 1, p.y, c))
      && LineMean(h, y, g(x, y + 1, c), g(x, y - 1, c)) == LineMean(h, p.y, f(p.x, p.y + 1, c), f(p.x, p.y - 1, c))
  {
    hide LineMean, Mirror;
    var p := Reflected(s, w, h, Pos(x, y));
    var a := if s == LeftRight then -1 else 1;
    AtMirror(s, f, w, h, x + 1, y, p.x + a, p.y, c);
    AtMirror(s, f, w, h, x - 1, y, p.x - a, p.y, c);
    AtMirror(s, f, w, h, x, y + 1, p.x, p.y - a, c);
    AtMirror(s, f, w, h, x, y - 1, p.x, p.y + a, c);
    LineMeanTurned(w, x, f(p.x + a, p.y, c), f(p.x - a, p.y, c));
    LineMeanTurned(h, y, f(p.x, p.y - a, c), f(p.x, p.y + a, c));
  }

  /** Interpolating the reflected picture gives the reflection of the interpolated picture, at every pixel. */
  lemma BilinearOfMirror(s: Sides, f: Picture, w: int, h: int, tile: int, x: int, y: int, c: int)
    requires w >= 2 && h >= 2 && InRange(x, y, w, h) && 0 <= c < 3
    ensures var x', y' := MirrorX(s, w, x), MirrorY(s, h, y);
      && InRange(x', y', w, h)
      && BilinearAt(Mirror(s, w, h, f), w, h, MirrorTile(s, w, h, tile), x, y, c)
         == BilinearAt(f, w, h, tile, x', y', c)
  {
    hide EstimateAt, MirrorTile, SiteAt;
    MirrorInRange(s, w, h, x, y);
    SiteOfMirror(s, w, h, tile, x, y);
    EstimateOfMirror(s, f, w, h, x, y, c);
    MeanOfMirror(s, f, w, h, x, y, c);
  }
}
