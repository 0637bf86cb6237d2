// The pixel grid of scripts/build-widget-logo.ts: row-major indices, the
// Chebyshev distance an 8-neighbour search measures, and each pixel's distance
// to the solid pixels.
module LogoGrid {
  const SOLID_INK: int := 150

  function Min(a: int, b: int): int { if a < b then a else b }
  function Max(a: int, b: int): int { if a > b then a else b }
  function Abs(a: int): int { if a < 0 then -a else a }

  // The decoded file: three bytes a pixel, no alpha.
  datatype Image = Image(width: nat, height: nat, data: seq<nat>) {
    function Count(): nat { width * height }
    predicate Valid() {
      |data| == Count() * 3 && forall k :: 0 <= k < |data| ==> data[k] <= 255
    }
    predicate Pixel(i: int) { 0 <= i < Count() }

    function Channel(i: nat, c: nat): (r: nat)
      requires Valid() && Pixel(i) && c < 3
      ensures r <= 255
    {
      data[i * 3 + c]
    }

    function Ink(i: nat): (r: int)
      requires Valid() && Pixel(i)
      ensures 0 <= r <= 255
    {
      255 - Min(Min(Channel(i, 0), Channel(i, 1)), Channel(i, 2))
    }

    predicate Solid(i: int)
      requires Valid()
    {
      Pixel(i) && Ink(i) >= SOLID_INK
    }

    function X(i: nat): (x: nat)
      requires Pixel(i)
      ensures x < width
    {
      i % width
    }

    function Y(i: nat): (y: nat)
      requires Pixel(i)
      ensures y < height
    {
      RowInRange(i, width, height);
      i / width
    }

    predicate InGrid(x: int, y: int) {
      0 <= x < width && 0 <= y < height
    }

    function At(x: int, y: int): (i: nat)
      requires InGrid(x, y)
      ensures Pixel(i) && X(i) == x && Y(i) == y
    {
      IndexInRange(x, y, width, height);
      DivModOfIndex(x, y, width);
      y * width + x
    }

    lemma {:induction false} AtCoordinates(i: nat)
      requires Pixel(i)
      ensures At(X(i), Y(i)) == i
    {
    }

    function Distance(i: nat, j: nat): nat
      requires Pixel(i) && Pixel(j)
    {
      Max(Abs(X(i) - X(j)), Abs(Y(i) - Y(j)))
    }

    lemma {:induction false} ZeroDistance(i: nat, j: nat)
      requires Pixel(i) && Pixel(j)
      ensures Distance(i, j) == 0 <==> i == j
    {
      AtCoordinates(i);
      AtCoordinates(j);
    }

    lemma {:induction false} Triangle(i: nat, j: nat, k: nat)
      requires Pixel(i) && Pixel(j) && Pixel(k)
      ensures Distance(i, k) <= Distance(i, j) + Distance(j, k)
    {
    }

    // The least distance from j to a solid pixel below n; past every distance
    // there is when none of them is solid.
    function LeastBelow(j: nat, n: nat): nat
      requires Valid() && Pixel(j) && n <= Count()
    {
      if n == 0 then width + height
      else
        var rest := LeastBelow(j, n - 1);
        if Solid(n - 1) && Distance(j, n - 1) < rest then Distance(j, n - 1) else rest
    }

    lemma {:induction false} LeastBelowIsLeast(j: nat, n: nat)
      requires Valid() && Pixel(j) && n <= Count()
      ensures forall t :: 0 <= t < n && Solid(t) ==> LeastBelow(j, n) <= Distance(j, t)
      ensures LeastBelow(j, n) == width + height
           || (exists t :: 0 <= t < n && Solid(t) && Distance(j, t) == LeastBelow(j, n))
    {
      if n > 0 {
        LeastBelowIsLeast(j, n - 1);
        var least := LeastBelow(j, n);
        forall t | 0 <= t < n && Solid(t) ensures least <= Distance(j, t) {
        }
        if Solid(n - 1) && Distance(j, n - 1) < LeastBelow(j, n - 1) {
          assert Solid(n - 1) && Distance(j, n - 1) == least;
        }
      }
    }

    lemma {:induction false} DistanceBelowSides(i: nat, j: nat)
      requires Pixel(i) && Pixel(j)
      ensures Distance(i, j) < width + height
    {
    }

    ghost predicate HasSolid()
      requires Valid()
    {
      exists t :: Solid(t)
    }

    // The distance from j to its nearest solid pixel.
    function ToSolid(j: nat): nat
      requires Valid() && Pixel(j)
    {
      LeastBelow(j, Count())
    }

    // s is a solid pixel, and no solid pixel is nearer to j.
    ghost predicate Nearest(j: nat, s: int)
      requires Valid() && Pixel(j)
    {
      Solid(s) && forall t :: Solid(t) ==> Distance(j, s) <= Distance(j, t)
    }

    lemma {:induction false} NearestExists(j: nat) returns (s: nat)
      requires Valid() && HasSolid() && Pixel(j)
      ensures Nearest(j, s) && Distance(j, s) == ToSolid(j)
    {
      LeastBelowIsLeast(j, Count());
      var t :| Solid(t);
      DistanceBelowSides(j, t);
      s :| 0 <= s < Count() && Solid(s) && Distance(j, s) == LeastBelow(j, Count());
    }

    lemma {:induction false} NearestIffDistance(j: nat, s: int)
      requires Valid() && HasSolid() && Pixel(j) && Solid(s)
      ensures ToSolid(j) <= Distance(j, s)
      ensures Nearest(j, s) <==> Distance(j, s) == ToSolid(j)
    {
      var best := NearestExists(j);
    }

    lemma {:induction false} SolidIffZero(j: nat)
      requires Valid() && HasSolid() && Pixel(j)
      ensures ToSolid(j) == 0 <==> Solid(j)
    {
      var s := NearestExists(j);
      ZeroDistance(j, s);
      if Solid(j) {
        NearestIffDistance(j, j);
        ZeroDistance(j, j);
      }
    }

    predicate Adjacent(i: nat, j: nat)
      requires Pixel(i) && Pixel(j)
    {
      Distance(i, j) <= 1
    }

    lemma {:induction false} AdjacentDiffersByOne(i: nat, j: nat)
      requires Valid() && HasSolid() && Pixel(i) && Pixel(j) && Adjacent(i, j)
      ensures ToSolid(j) <= ToSolid(i) + 1
    {
      var s := NearestExists(i);
      Triangle(j, i, s);
      NearestIffDistance(j, s);
    }

    function Toward(a: int, b: int): int {
      if a < b then a + 1 else if a > b then a - 1 else a
    }

    // Every pixel that is not solid has a neighbour one step nearer.
    lemma {:induction false} StepNearer(j: nat) returns (k: nat)
      requires Valid() && HasSolid() && Pixel(j) && !Solid(j)
      ensures Pixel(k) && Adjacent(j, k) && Adjacent(k, j) && ToSolid(k) + 1 == ToSolid(j)
    {
      SolidIffZero(j);
      var s := NearestExists(j);
      k := At(Toward(X(j), X(s)), Toward(Y(j), Y(s)));
      assert Distance(k, s) + 1 == Distance(j, s);
      NearestIffDistance(k, s);
      AdjacentDiffersByOne(k, j);
    }
  }

  // Each pixel's entry is a solid pixel, none nearer.
  ghost predicate References(img: Image, nearest: seq<int>)
    requires img.Valid()
  {
    |nearest| == img.Count() && forall i :: 0 <= i < |nearest| ==> img.Nearest(i, nearest[i])
  }

  lemma {:induction false} RowInRange(i: nat, width: nat, height: nat)
    requires i < width * height
    ensures width > 0 && 0 <= i / width < height
  {
    assert width == 0 ==> width * height == 0;
    var row := i / width;
    assert row >= height ==> row * width >= height * width;
  }

  lemma {:induction false} IndexInRange(x: nat, y: nat, width: nat, height: nat)
    requires x < width && y < height
    ensures 0 <= y * width + x < width * height
  {
    assert (y + 1) * width <= height * width;
  }

  lemma {:induction false} DivModOfIndex(x: nat, y: nat, width: nat)
    requires x < width
    ensures (y * width + x) % width == x && (y * width + x) / width == y
  {
    var i := y * width + x;
    var q := i / width;
    assert i == q * width + i % width;
    assert q > y ==> q * width >= (y + 1) * width;
    assert q < y ==> (q + 1) * width <= y * width;
  }
}
