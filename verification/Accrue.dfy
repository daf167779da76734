/** The four-neighbour estimator of the edge-aware demosaicer. */
module Accrue {
  import opened Prelude
  import opened Mosaic

  /** A neighbour position, which may lie outside the picture. */
  datatype Pos = Pos(x: int, y: int)

  function Inside(p: Pos, w: int, h: int): bool {
    InRange(p.x, p.y, w, h)
  }

  /** Sum of the first n values whose flag is set. */
  function SumWhere(v: seq<int>, m: seq<bool>, n: nat): int
    requires n <= |v| == |m|
  {
    if n == 0 then 0 else SumWhere(v, m, n - 1) + (if m[n-1] then v[n-1] else 0)
  }

  function CountWhere(m: seq<bool>, n: nat): (count: nat)
    requires n <= |m|
    ensures count <= n
  {
    if n == 0 then 0 else CountWhere(m, n - 1) + (if m[n-1] then 1 else 0)
  }

  function Square(d: int): int {
    d * d
  }

  /** Flags of the values above a threshold. */
  function Above(v: seq<int>, t: int): seq<bool> {
    seq(|v|, i requires 0 <= i < |v| => v[i] > t)
  }

  function Not(m: seq<bool>): seq<bool> {
    seq(|m|, i requires 0 <= i < |m| => !m[i])
  }

  /** The mean of four values, ignoring the odd one out if three lie on one side of the mean. */
  function WithoutOutlier(v: seq<int>): int
    requires |v| == 4
  {
    var mean := (v[0] + v[1] + v[2] + v[3]) / 4;
    var above := Above(v, mean);
    var count := CountWhere(above, 4);
    if count == 2 || count == 0 then mean
    else if count == 3 then SumWhere(v, above, 4) / 3
    else SumWhere(v, Not(above), 4) / 3
  }

  /** The estimate from four values of which those flagged in `ok` exist. */
  function Estimate(v: seq<int>, ok: seq<bool>, green: bool): int
    requires |v| == |ok| == 4 && CountWhere(ok, 4) > 0
  {
    var count := CountWhere(ok, 4);
    var hdiff, vdiff := Square(v[1] - v[0]), Square(v[3] - v[2]);
    if green && count == 4 && hdiff > 2 * vdiff then (v[3] + v[2]) / 2
    else if green && count == 4 && vdiff > 2 * hdiff then (v[1] + v[0]) / 2
    else if count < 4 then SumWhere(v, ok, 4) / count
    else WithoutOutlier(v)
  }

  lemma {:induction false} SumWhereBounds(v: seq<int>, m: seq<bool>, n: nat, lo: int, hi: int)
    requires n <= |v| == |m|
    requires forall i :: 0 <= i < n && m[i] ==> lo <= v[i] <= hi
    ensures lo * CountWhere(m, n) <= SumWhere(v, m, n) <= hi * CountWhere(m, n)
  {
    if n > 0 {
      SumWhereBounds(v, m, n - 1, lo, hi);
      var c := CountWhere(m, n - 1);
      assert lo * (c + 1) == lo * c + lo && hi * (c + 1) == hi * c + hi;
    }
  }

  lemma CountNot(m: seq<bool>, n: nat)
    requires n <= |m|
    ensures CountWhere(Not(m), n) == n - CountWhere(m, n)
  {
  }

  lemma CountAll(m: seq<bool>, n: nat)
    requires n <= |m|
    ensures CountWhere(m, n) == n <==> forall i :: 0 <= i < n ==> m[i]
    ensures CountWhere(m, n) == 0 <==> forall i :: 0 <= i < n ==> !m[i]
  {
  }

  lemma DivBetween(s: int, n: int, lo: int, hi: int)
    requires n > 0 && lo * n <= s <= hi * n
    ensures lo <= s / n <= hi
  {
    var q := s / n;
    assert q * n <= s < q * n + n;
    assert q < lo ==> (q + 1) * n <= lo * n;
    assert q > hi ==> q * n >= (hi + 1) * n;
  }

  /** Four values never all exceed the floor of their mean; none does only if all are equal. */
  lemma AboveCount(v: seq<int>)
    requires |v| == 4
    ensures var mean := (v[0] + v[1] + v[2] + v[3]) / 4;
            && CountWhere(Above(v, mean), 4) <= 3
            && (CountWhere(Above(v, mean), 4) == 0 ==> v[0] == v[1] == v[2] == v[3] == mean)
  {
    var mean := (v[0] + v[1] + v[2] + v[3]) / 4;
    var m := Above(v, mean);
    CountAll(m, 4);
    assert m[0] == (v[0] > mean) && m[1] == (v[1] > mean) && m[2] == (v[2] > mean) && m[3] == (v[3] > mean);
  }

  /** Dropping the outlier keeps the mean of four values inside their range. */
  lemma WithoutOutlierBounds(v: seq<int>, lo: int, hi: int)
    requires |v| == 4 && forall i :: 0 <= i < 4 ==> lo <= v[i] <= hi
    ensures lo <= WithoutOutlier(v) <= hi
  {
    var mean := (v[0] + v[1] + v[2] + v[3]) / 4;
    var m := Above(v, mean);
    AboveCount(v);
    assert lo <= v[0] <= hi && lo <= v[1] <= hi && lo <= v[2] <= hi && lo <= v[3] <= hi;
    assert lo <= mean <= hi;
    CountNot(m, 4);
    if CountWhere(m, 4) == 3 {
      ThreeBetween(v, m, lo, hi);
    } else if CountWhere(m, 4) == 1 {
      ThreeBetween(v, Not(m), lo, hi);
    }
  }

  lemma ThreeBetween(v: seq<int>, m: seq<bool>, lo: int, hi: int)
    requires |v| == |m| == 4 && CountWhere(m, 4) == 3
    requires forall i :: 0 <= i < 4 ==> lo <= v[i] <= hi
    ensures lo <= SumWhere(v, m, 4) / 3 <= hi
  {
    SumWhereBounds(v, m, 4, lo, hi);
    DivBetween(SumWhere(v, m, 4), 3, lo, hi);
  }

  /** The estimate lies between the least and the greatest neighbour that exists. */
  lemma EstimateBounds(v: seq<int>, ok: seq<bool>, green: bool, lo: int, hi: int)
    requires |v| == |ok| == 4 && CountWhere(ok, 4) > 0
    requires forall i :: 0 <= i < 4 && ok[i] ==> lo <= v[i] <= hi
    ensures lo <= Estimate(v, ok, green) <= hi
  {
    CountAll(ok, 4);
    if CountWhere(ok, 4) == 4 {
      assert forall i :: 0 <= i < 4 ==> ok[i];
      WithoutOutlierBounds(v, lo, hi);
    } else {
      SumWhereBounds(v, ok, 4, lo, hi);
      DivBetween(SumWhere(v, ok, 4), CountWhere(ok, 4), lo, hi);
    }
  }

  /** Values that are flagged as missing do not matter. */
  lemma EstimateIgnoresMissing(v: seq<int>, u: seq<int>, ok: seq<bool>, green: bool)
    requires |v| == |u| == |ok| == 4 && CountWhere(ok, 4) > 0
    requires forall i :: 0 <= i < 4 && ok[i] ==> v[i] == u[i]
    ensures Estimate(v, ok, green) == Estimate(u, ok, green)
  {
    SumWhereAgree(v, u, ok, 4);
    CountAll(ok, 4);
    if CountWhere(ok, 4) == 4 {
      assert v == u;
    }
  }

  lemma SumWhereAgree(v: seq<int>, u: seq<int>, m: seq<bool>, n: nat)
    requires n <= |v| == |u| == |m|
    requires forall i :: 0 <= i < n && m[i] ==> v[i] == u[i]
    ensures SumWhere(v, m, n) == SumWhere(u, m, n)
  {
  }

  /** A one-pixel green line survives: equal values along it win over differing ones across it. */
  lemma LineSurvives(v: seq<int>, ok: seq<bool>)
    requires |v| == |ok| == 4 && ok == [true, true, true, true]
    ensures CountWhere(ok, 4) == 4
    ensures v[2] == v[3] && v[0] != v[1] ==> Estimate(v, ok, true) == v[2]
    ensures v[0] == v[1] && v[2] != v[3] ==> Estimate(v, ok, true) == v[0]
  {
    CountAll(ok, 4);
    SquarePositive(v[1] - v[0]);
    SquarePositive(v[3] - v[2]);
  }

  /**
   * The edge test: green is taken along one direction, as the mean rounded down, where the squared difference
   * across exceeds twice the one along; everywhere else it is estimated the way red and blue are.
   */
  lemma EdgeTest(v: seq<int>, ok: seq<bool>)
    requires |v| == |ok| == 4 && ok == [true, true, true, true]
    ensures CountWhere(ok, 4) == 4
    ensures var r, p, q := Estimate(v, ok, true), v[1] - v[0], v[3] - v[2];
      && (p * p > 2 * q * q ==> 2 * r <= v[2] + v[3] <= 2 * r + 1)
      && (q * q > 2 * p * p ==> 2 * r <= v[0] + v[1] <= 2 * r + 1)
      && (p * p <= 2 * q * q && q * q <= 2 * p * p ==> r == Estimate(v, ok, false))
  {
    CountAll(ok, 4);
    SquarePositive(v[1] - v[0]);
    SquarePositive(v[3] - v[2]);
    assert 2 * (v[3] - v[2]) * (v[3] - v[2]) == 2 * Square(v[3] - v[2]);
    assert 2 * (v[1] - v[0]) * (v[1] - v[0]) == 2 * Square(v[1] - v[0]);
  }

  lemma SquarePositive(d: int)
    ensures Square(d) >= 0 && (Square(d) == 0 <==> d == 0)
  {
  }

  /** A value alone on its side of the mean is dropped and the other three are averaged. */
  lemma OutlierDropped(v: seq<int>, i: nat)
    requires |v| == 4 && i < 4
    requires var mean := (v[0] + v[1] + v[2] + v[3]) / 4;
             (forall k :: 0 <= k < 4 ==> (v[k] > mean <==> k == i))
             || (forall k :: 0 <= k < 4 ==> (v[k] > mean <==> k != i))
    ensures WithoutOutlier(v) == (v[0] + v[1] + v[2] + v[3] - v[i]) / 3
  {
    var mean := (v[0] + v[1] + v[2] + v[3]) / 4;
    var m := Above(v, mean);
    assert m[0] == (v[0] > mean) && m[1] == (v[1] > mean) && m[2] == (v[2] > mean) && m[3] == (v[3] > mean);
    CountFour(m);
    SumFour(v, m);
    SumFour(v, Not(m));
  }

  /** Where a neighbour is missing, the estimate is the mean of those that exist, rounded down. */
  lemma MeanOfExisting(v: seq<int>, ok: seq<bool>, green: bool)
    requires |v| == |ok| == 4 && ok != [true, true, true, true] && CountWhere(ok, 4) > 0
    ensures var r := Estimate(v, ok, green);
      var n := (if ok[0] then 1 else 0) + (if ok[1] then 1 else 0) + (if ok[2] then 1 else 0) + if ok[3] then 1 else 0;
      var sum := (if ok[0] then v[0] else 0) + (if ok[1] then v[1] else 0) + (if ok[2] then v[2] else 0)
                 + if ok[3] then v[3] else 0;
      n * r <= sum < n * r + n
  {
    CountFour(ok);
    SumFour(v, ok);
    assert ok == [ok[0], ok[1], ok[2], ok[3]];
  }

  /** Where two values exceed the mean of four and two do not, none is dropped. */
  lemma NoOutlier(v: seq<int>)
    requires |v| == 4
    requires var mean := (v[0] + v[1] + v[2] + v[3]) / 4;
      (if v[0] > mean then 1 else 0) + (if v[1] > mean then 1 else 0)
      + (if v[2] > mean then 1 else 0) + (if v[3] > mean then 1 else 0) == 2
    ensures 4 * WithoutOutlier(v) <= v[0] + v[1] + v[2] + v[3] <= 4 * WithoutOutlier(v) + 3
  {
    CountFour(Above(v, (v[0] + v[1] + v[2] + v[3]) / 4));
  }

  lemma CountFour(m: seq<bool>)
    requires |m| == 4
    ensures CountWhere(m, 4) == (if m[0] then 1 else 0) + (if m[1] then 1 else 0)
                                + (if m[2] then 1 else 0) + (if m[3] then 1 else 0)
  {
    assert CountWhere(m, 2) == (if m[0] then 1 else 0) + (if m[1] then 1 else 0) by {
      assert CountWhere(m, 1) == if m[0] then 1 else 0;
    }
    assert CountWhere(m, 3) == CountWhere(m, 2) + if m[2] then 1 else 0;
  }

  lemma SumFour(v: seq<int>, m: seq<bool>)
    requires |v| == |m| == 4
    ensures SumWhere(v, m, 4) == (if m[0] then v[0] else 0) + (if m[1] then v[1] else 0)
                                 + (if m[2] then v[2] else 0) + (if m[3] then v[3] else 0)
  {
    assert SumWhere(v, m, 1) == if m[0] then v[0] else 0;
    assert SumWhere(v, m, 2) == SumWhere(v, m, 1) + if m[1] then v[1] else 0;
    assert SumWhere(v, m, 3) == SumWhere(v, m, 2) + if m[2] then v[2] else 0;
  }

  lemma SumOfFour(v: seq<int>, m: seq<bool>)
    requires |v| == |m| == 4 && CountWhere(m, 4) == 4
    ensures SumWhere(v, m, 4) == v[0] + v[1] + v[2] + v[3]
  {
    CountAll(m, 4);
    SumFour(v, m);
  }

  // ------------------------------------------------------------------
  // Exchanging neighbours
  // ------------------------------------------------------------------

  function Swap<T>(s: seq<T>, i: nat, j: nat): (t: seq<T>)
    requires i < |s| && j < |s|
    ensures |t| == |s|
  {
    s[i := s[j]][j := s[i]]
  }

  lemma SumOfSwap(v: seq<int>, m: seq<bool>, i: nat, j: nat)
    requires |v| == |m| == 4 && i < j < 4
    ensures SumWhere(Swap(v, i, j), Swap(m, i, j), 4) == SumWhere(v, m, 4)
    ensures CountWhere(Swap(m, i, j), 4) == CountWhere(m, 4)
  {
    SumFour(v, m);
    SumFour(Swap(v, i, j), Swap(m, i, j));
    CountFour(m);
    CountFour(Swap(m, i, j));
  }

  lemma WithoutOutlierOfSwap(v: seq<int>, i: nat, j: nat)
    requires |v| == 4 && i < j < 4
    ensures WithoutOutlier(Swap(v, i, j)) == WithoutOutlier(v)
  {
    var mean := (v[0] + v[1] + v[2] + v[3]) / 4;
    var u, m := Swap(v, i, j), Above(v, mean);
    assert u[0] + u[1] + u[2] + u[3] == v[0] + v[1] + v[2] + v[3];
    assert Above(u, mean) == Swap(m, i, j);
    assert Not(Above(u, mean)) == Swap(Not(m), i, j);
    SumOfSwap(v, m, i, j);
    SumOfSwap(v, Not(m), i, j);
  }

  /** The estimate does not care which neighbour is which; for green, not within the row and within the column. */
  lemma EstimateOfSwap(v: seq<int>, ok: seq<bool>, green: bool, i: nat, j: nat)
    requires |v| == |ok| == 4 && CountWhere(ok, 4) > 0
    requires i < j < 4 && (green ==> (i, j) == (0, 1) || (i, j) == (2, 3))
    ensures CountWhere(Swap(ok, i, j), 4) == CountWhere(ok, 4)
    ensures Estimate(Swap(v, i, j), Swap(ok, i, j), green) == Estimate(v, ok, green)
  {
    hide WithoutOutlier, Square, SumWhere, CountWhere;
    SumOfSwap(v, ok, i, j);
    WithoutOutlierOfSwap(v, i, j);
    SquareOfSwap(v[0], v[1]);
    SquareOfSwap(v[2], v[3]);
  }

  lemma SquareOfSwap(a: int, b: int)
    ensures Square(a - b) == Square(b - a)
  {
  }

  // ------------------------------------------------------------------
  // Reading the neighbours off a picture
  // ------------------------------------------------------------------

  function Flags(at: seq<Pos>, w: int, h: int): (m: seq<bool>)
    ensures |m| == |at|
  {
    seq(|at|, i requires 0 <= i < |at| => Inside(at[i], w, h))
  }

  lemma SomeInside(at: seq<Pos>, w: int, h: int)
    requires |at| == 4
    requires exists i :: 0 <= i < 4 && Inside(at[i], w, h)
    ensures CountWhere(Flags(at, w, h), 4) > 0
  {
    var i :| 0 <= i < 4 && Inside(at[i], w, h);
    assert Flags(at, w, h)[i];
    CountAll(Flags(at, w, h), 4);
  }

  function Values(f: Picture, at: seq<Pos>, c: int): (v: seq<int>)
    ensures |v| == |at|
  {
    seq(|at|, i requires 0 <= i < |at| => f(at[i].x, at[i].y, c))
  }

  /** The estimate of channel c from the four positions in `at`. */
  function EstimateAt(f: Picture, w: int, h: int, at: seq<Pos>, c: int): (r: Byte)
    requires |at| == 4
    requires exists i :: 0 <= i < 4 && Inside(at[i], w, h)
  {
    SomeInside(at, w, h);
    EstimateBounds(Values(f, at, c), Flags(at, w, h), c == GREEN, 0, 255);
    Estimate(Values(f, at, c), Flags(at, w, h), c == GREEN)
  }

  lemma EstimateAtAgree(f: Picture, g: Picture, w: int, h: int, at: seq<Pos>, c: int)
    requires |at| == 4
    requires exists i :: 0 <= i < 4 && Inside(at[i], w, h)
    requires forall i :: 0 <= i < 4 && Inside(at[i], w, h) ==> f(at[i].x, at[i].y, c) == g(at[i].x, at[i].y, c)
    ensures EstimateAt(f, w, h, at, c) == EstimateAt(g, w, h, at, c)
  {
    SomeInside(at, w, h);
    EstimateIgnoresMissing(Values(f, at, c), Values(g, at, c), Flags(at, w, h), c == GREEN);
  }

  /** The neighbour values as they are gathered, the number gathered and their sum. */
  method Gather(image: array<Byte>, w: nat, h: nat, at: seq<Pos>, colour: int)
    returns (value: seq<int>, counter: nat, sum: int)
    requires image.Length == h * w * 3 && 0 <= colour < 3
    requires |at| == 4
    ensures |value| == 4
    ensures var f := View(image[..], w, h);
            && (forall i :: 0 <= i < 4 && Inside(at[i], w, h) ==> value[i] == f(at[i].x, at[i].y, colour))
            && counter == CountWhere(Flags(at, w, h), 4)
            && sum == SumWhere(Values(f, at, colour), Flags(at, w, h), 4)
  {
    ghost var f := View(image[..], w, h);
    value, counter, sum := [-1, -1, -1, -1], 0, 0;
    for i := 0 to 4
      invariant |value| == 4
      invariant counter == CountWhere(Flags(at, w, h), i)
      invariant forall k :: 0 <= k < i && Inside(at[k], w, h) ==> value[k] == f(at[k].x, at[k].y, colour)
      invariant sum == SumWhere(Values(f, at, colour), Flags(at, w, h), i)
    {
      if Inside(at[i], w, h) {
        AdInRange(at[i].x, at[i].y, w, h);
        value := value[i := image[Ad(at[i].x, at[i].y, w) + colour]];
        sum := sum + value[i];
        counter := counter + 1;
      }
    }
  }

  /** Averages four values, leaving out the one that is alone on its side of their mean. */
  method AverageWithoutOutlier(value: seq<int>, average: int) returns (r: int)
    requires |value| == 4 && average == (value[0] + value[1] + value[2] + value[3]) / 4
    ensures r == WithoutOutlier(value)
  {
    var above := [false, false, false, false];
    var counter := 0;
    ghost var m := Above(value, average);
    for i := 0 to 4
      invariant |above| == 4 && counter == CountWhere(m, i)
      invariant forall k :: 0 <= k < i ==> above[k] == m[k]
    {
      above := above[i := value[i] > average];
      if above[i] {
        counter := counter + 1;
      }
    }
    if counter == 2 || counter == 0 {
      return average;
    }
    ghost var side := if counter == 3 then m else Not(m);
    var sum := 0;
    for i := 0 to 4
      invariant sum == SumWhere(value, side, i)
    {
      if (counter == 3) == above[i] {
        sum := sum + value[i];
      }
    }
    return sum / 3;
  }

  /** The estimator as it runs: an edge test for green, then the mean, then the outlier test. */
  method GpBayerAccrue(image: array<Byte>, w: nat, h: nat, at: seq<Pos>, colour: int) returns (r: Byte)
    requires image.Length == h * w * 3 && 0 <= colour < 3
    requires |at| == 4
    requires exists i :: 0 <= i < 4 && Inside(at[i], w, h)
    ensures r == EstimateAt(View(image[..], w, h), w, h, at, colour)
  {
    ghost var f := View(image[..], w, h);
    ghost var v, ok := Values(f, at, colour), Flags(at, w, h);
    SomeInside(at, w, h);
    EstimateBounds(v, ok, colour == GREEN, 0, 255);
    var value, counter, sum := Gather(image, w, h, at, colour);
    CountAll(ok, 4);
    if counter == 4 {
      forall i | 0 <= i < 4
        ensures value[i] == v[i]
      {
        assert ok[i];
      }
      assert value == v;
      if colour == GREEN {
        var hdiff := Square(value[1] - value[0]);
        var vdiff := Square(value[3] - value[2]);
        if hdiff > 2 * vdiff {
          return (value[3] + value[2]) / 2;
        }
        if vdiff > 2 * hdiff {
          return (value[1] + value[0]) / 2;
        }
      }
    }
    var average := sum / counter;
    if counter < 4 {
      return average;
    }
    SumOfFour(v, ok);
    r := AverageWithoutOutlier(value, average);
  }
}
