// What follows the search in scripts/build-widget-logo.ts: colours and alpha,
// the trim box, the lifted blues and the copy into the output buffer. Colours
// and alpha are reals.
module LogoRaster {
  import opened LogoGrid

  const NOISE_INK := 6
  const TRIM_ALPHA := 0.03
  const TRIM_PAD := 2
  const DARK_BLUE_LIFT := 0.34

  // ---- Alpha ----------------------------------------------------------------

  function ChannelInk(img: Image, i: nat, c: nat): int
    requires img.Valid() && img.Pixel(i) && c < 3
  {
    255 - img.Channel(i, c)
  }

  // The sums over the first n channels.
  function Dot(img: Image, i: nat, s: nat, n: nat): int
    requires img.Valid() && img.Pixel(i) && img.Pixel(s) && n <= 3
  {
    if n == 0 then 0 else Dot(img, i, s, n - 1) + ChannelInk(img, i, n - 1) * ChannelInk(img, s, n - 1)
  }

  function Norm(img: Image, s: nat, n: nat): int
    requires img.Valid() && img.Pixel(s) && n <= 3
  {
    Dot(img, s, s, n)
  }

  lemma {:induction false} SquareAtLeast(a: int, b: int)
    requires a >= b >= 0
    ensures a * a >= b * b
  {
  }

  lemma {:induction false} ProductOfInks(a: int, b: int)
    requires a >= 0 && b >= 0
    ensures a * b >= 0
  {
  }

  lemma {:induction false} DotNotNegative(img: Image, i: nat, s: nat, n: nat)
    requires img.Valid() && img.Pixel(i) && img.Pixel(s) && n <= 3
    ensures Dot(img, i, s, n) >= 0
  {
    if n > 0 {
      DotNotNegative(img, i, s, n - 1);
      ProductOfInks(ChannelInk(img, i, n - 1), ChannelInk(img, s, n - 1));
    }
  }

  lemma {:induction false} ThreeChannels(img: Image, i: nat, s: nat)
    requires img.Valid() && img.Pixel(i) && img.Pixel(s)
    ensures Dot(img, i, s, 3) == ChannelInk(img, i, 0) * ChannelInk(img, s, 0)
      + ChannelInk(img, i, 1) * ChannelInk(img, s, 1) + ChannelInk(img, i, 2) * ChannelInk(img, s, 2)
  {
    assert Dot(img, i, s, 0) == 0;
    assert Dot(img, i, s, 1) == ChannelInk(img, i, 0) * ChannelInk(img, s, 0);
    assert Dot(img, i, s, 2) == Dot(img, i, s, 1) + ChannelInk(img, i, 1) * ChannelInk(img, s, 1);
  }

  // The division is by a solid pixel's norm, so never by zero.
  lemma {:induction false} NormOfSolid(img: Image, s: nat)
    requires img.Valid() && img.Solid(s)
    ensures Norm(img, s, 3) >= SOLID_INK * SOLID_INK
  {
    var a, b, c := ChannelInk(img, s, 0), ChannelInk(img, s, 1), ChannelInk(img, s, 2);
    ThreeChannels(img, s, s);
    ProductOfInks(a, a);
    ProductOfInks(b, b);
    ProductOfInks(c, c);
    if a >= SOLID_INK { SquareAtLeast(a, SOLID_INK); }
    else if b >= SOLID_INK { SquareAtLeast(b, SOLID_INK); }
    else { SquareAtLeast(c, SOLID_INK); }
  }

  function MinR(a: real, b: real): real { if a < b then a else b }
  function MaxR(a: real, b: real): real { if a > b then a else b }

  function Alpha(img: Image, i: nat, s: nat): (a: real)
    requires img.Valid() && img.Pixel(i) && img.Solid(s)
    ensures 0.0 <= a <= 1.0
  {
    NormOfSolid(img, s);
    if s == i then 1.0
    else if img.Ink(i) < NOISE_INK then 0.0
    else MinR(1.0, MaxR(0.0, Dot(img, i, s, 3) as real / Norm(img, s, 3) as real))
  }

  datatype Colour = Colour(r: real, g: real, b: real)

  function Inks(img: Image, i: nat): Colour
    requires img.Valid() && img.Pixel(i)
  {
    Colour(ChannelInk(img, i, 0) as real, ChannelInk(img, i, 1) as real, ChannelInk(img, i, 2) as real)
  }

  function Inner(p: Colour, q: Colour): real {
    p.r * q.r + p.g * q.g + p.b * q.b
  }

  // How far, in squared ink, p is from the blend t of white toward q.
  function BlendError(p: Colour, q: Colour, t: real): real {
    (p.r - t * q.r) * (p.r - t * q.r) + (p.g - t * q.g) * (p.g - t * q.g) + (p.b - t * q.b) * (p.b - t * q.b)
  }

  lemma {:induction false} SquaredDifference(p: real, r: real, t: real)
    ensures (p - t * r) * (p - t * r) == p * p - 2.0 * t * (p * r) + t * t * (r * r)
  {
    assert (p - t * r) * (p - t * r) == p * (p - t * r) - (t * r) * (p - t * r);
    assert p * (t * r) == t * (p * r);
    assert (t * r) * (t * r) == t * t * (r * r);
  }

  lemma {:induction false} Distribute(k: real, a: real, b: real, c: real)
    ensures k * (a + b + c) == k * a + k * b + k * c
  {
  }

  lemma {:induction false} BlendErrorExpands(p: Colour, q: Colour, t: real)
    ensures BlendError(p, q, t) == Inner(p, p) - 2.0 * t * Inner(p, q) + t * t * Inner(q, q)
  {
    SquaredDifference(p.r, q.r, t);
    SquaredDifference(p.g, q.g, t);
    SquaredDifference(p.b, q.b, t);
    Distribute(2.0 * t, p.r * q.r, p.g * q.g, p.b * q.b);
    Distribute(t * t, q.r * q.r, q.g * q.g, q.b * q.b);
  }

  lemma {:induction false} ClosestBlend(p: Colour, q: Colour, a: real, t: real, d: real, n: real)
    requires d == Inner(p, q) && n == Inner(q, q) && d >= 0.0 && n > 0.0
    requires a == MinR(1.0, d / n) && 0.0 <= t <= 1.0
    ensures BlendError(p, q, a) <= BlendError(p, q, t)
  {
    var c, ea, et := Inner(p, p), BlendError(p, q, a), BlendError(p, q, t);
    assert ea == c - 2.0 * a * d + a * a * n by { BlendErrorExpands(p, q, a); }
    assert et == c - 2.0 * t * d + t * t * n by { BlendErrorExpands(p, q, t); }
    QuadraticLeastAtClamp(n, d, a, t);
    Compare(c, a, t, d, n, ea, et);
  }

  lemma {:induction false} Compare(c: real, a: real, t: real, d: real, n: real, ea: real, et: real)
    requires a * a * n - 2.0 * a * d <= t * t * n - 2.0 * t * d
    requires ea == c - 2.0 * a * d + a * a * n && et == c - 2.0 * t * d + t * t * n
    ensures ea <= et
  {
  }

  lemma {:induction false} DotInReals(img: Image, i: nat, s: nat)
    requires img.Valid() && img.Pixel(i) && img.Pixel(s)
    ensures Dot(img, i, s, 3) as real == Inner(Inks(img, i), Inks(img, s))
  {
    ThreeChannels(img, i, s);
    ProductInReals(ChannelInk(img, i, 0), ChannelInk(img, s, 0));
    ProductInReals(ChannelInk(img, i, 1), ChannelInk(img, s, 1));
    ProductInReals(ChannelInk(img, i, 2), ChannelInk(img, s, 2));
  }

  lemma {:induction false} ProductInReals(a: int, b: int)
    ensures (a * b) as real == a as real * b as real
  {
  }

  lemma {:induction false} QuadraticLeastAtClamp(n: real, d: real, a: real, t: real)
    requires n > 0.0 && d >= 0.0 && 0.0 <= t <= 1.0
    requires a == MinR(1.0, d / n)
    ensures a * a * n - 2.0 * a * d <= t * t * n - 2.0 * t * d
  {
    var q := d / n;
    assert d == q * n;
    var gap := (t - a) * (t + a - 2.0 * q);
    assert gap >= 0.0 by {
      if a == q {
        assert gap == (t - a) * (t - a);
      } else {
        assert t - a <= 0.0 && t + a - 2.0 * q <= 0.0;
      }
    }
    assert n * gap >= 0.0;
    assert (t - a) * (t + a) == t * t - a * a;
    assert n * gap == n * (t * t - a * a) - 2.0 * (t - a) * (q * n);
  }

  lemma {:induction false} NonNegativeQuotient(d: real, n: real)
    requires d >= 0.0 && n > 0.0
    ensures d / n >= 0.0
    ensures d == n ==> d / n == 1.0
  {
  }

  // The lower clamp never acts: ink is never negative.
  lemma {:induction false} AlphaOfVisible(img: Image, i: nat, s: nat)
    requires img.Valid() && img.Pixel(i) && img.Solid(s) && img.Ink(i) >= NOISE_INK
    ensures Norm(img, s, 3) > 0
    ensures Alpha(img, i, s) == MinR(1.0, Dot(img, i, s, 3) as real / Norm(img, s, 3) as real)
  {
    NormOfSolid(img, s);
    DotNotNegative(img, i, s, 3);
    NonNegativeQuotient(Dot(img, i, s, 3) as real, Norm(img, s, 3) as real);
  }

  // A visible pixel's alpha is the blend of white toward its reference colour
  // that comes closest to the pixel, of all the blends there are.
  lemma {:induction false} AlphaIsTheClosestBlend(img: Image, i: nat, s: nat, t: real)
    requires img.Valid() && img.Pixel(i) && img.Solid(s)
    requires img.Ink(i) >= NOISE_INK && 0.0 <= t <= 1.0
    ensures BlendError(Inks(img, i), Inks(img, s), Alpha(img, i, s)) <= BlendError(Inks(img, i), Inks(img, s), t)
  {
    AlphaOfVisible(img, i, s);
    DotNotNegative(img, i, s, 3);
    DotInReals(img, i, s);
    DotInReals(img, s, s);
    ClosestBlend(Inks(img, i), Inks(img, s), Alpha(img, i, s), t, Dot(img, i, s, 3) as real, Norm(img, s, 3) as real);
  }

  // A solid pixel keeps its own colour, fully opaque.
  lemma {:induction false} SolidKeepsItsColour(img: Image, i: nat, s: int)
    requires img.Valid() && img.HasSolid() && img.Solid(i) && img.Nearest(i, s)
    ensures s == i && Alpha(img, i, s) == 1.0
  {
    img.SolidIffZero(i);
    img.NearestIffDistance(i, s);
    img.ZeroDistance(i, s);
  }

  // ---- Colour and alpha of every pixel ---------------------------------------

  ghost predicate Shaded(img: Image, nearest: seq<int>, color: seq<real>, alpha: seq<real>, n: nat)
    requires img.Valid() && References(img, nearest) && n <= img.Count()
  {
    && |color| == img.Count() * 3 && |alpha| == img.Count()
    && (forall k :: 0 <= k < n * 3 ==> color[k] == img.Channel(nearest[k / 3], k % 3) as real)
    && (forall i :: 0 <= i < n ==> alpha[i] == Alpha(img, i, nearest[i]))
  }

  // The loop over the channels of one pixel.
  method SumChannels(img: Image, s: nat, i: nat, color: array<real>) returns (dot: int, norm: int)
    requires img.Valid() && img.Pixel(i) && img.Pixel(s) && color.Length == img.Count() * 3
    modifies color
    ensures dot == Dot(img, i, s, 3) && norm == Norm(img, s, 3)
    ensures forall k :: 0 <= k < color.Length && k / 3 != i ==> color[k] == old(color[k])
    ensures forall c :: 0 <= c < 3 ==> color[i * 3 + c] == img.Channel(s, c) as real
  {
    dot, norm := 0, 0;
    for c := 0 to 3
      invariant dot == Dot(img, i, s, c) && norm == Norm(img, s, c)
      invariant forall k :: 0 <= k < color.Length && k / 3 != i ==> color[k] == old(color[k])
      invariant forall d :: 0 <= d < c ==> color[i * 3 + d] == img.Channel(s, d) as real
    {
      var pixelInk := ChannelInk(img, i, c);
      var refInk := ChannelInk(img, s, c);
      dot := dot + pixelInk * refInk;
      norm := norm + refInk * refInk;
      color[i * 3 + c] := img.data[s * 3 + c] as real;
    }
  }

  // One pixel of the last loop of makeTransparent; `ink` is the pixel's ink.
  method ShadePixel(img: Image, ink: int, s: nat, i: nat, color: array<real>, alpha: array<real>)
    requires img.Valid() && img.Pixel(i) && img.Solid(s) && ink == img.Ink(i)
    requires color.Length == img.Count() * 3 && alpha.Length == img.Count() && color != alpha
    modifies color, alpha
    ensures forall k :: 0 <= k < color.Length && k / 3 != i ==> color[k] == old(color[k])
    ensures forall c :: 0 <= c < 3 ==> color[i * 3 + c] == img.Channel(s, c) as real
    ensures alpha[..] == old(alpha[..])[i := Alpha(img, i, s)]
  {
    var dot, norm := SumChannels(img, s, i, color);
    assert norm > 0 by { NormOfSolid(img, s); }
    if s == i { alpha[i] := 1.0; }
    else if ink < NOISE_INK { alpha[i] := 0.0; }
    else { alpha[i] := MinR(1.0, MaxR(0.0, dot as real / norm as real)); }
  }

  lemma {:induction false} ShadedOneMore(img: Image, nearest: seq<int>, c0: seq<real>, a0: seq<real>, c1: seq<real>,
        a1: seq<real>, i: nat)
    requires img.Valid() && References(img, nearest) && img.Pixel(i) && Shaded(img, nearest, c0, a0, i)
    requires |c1| == |c0| && forall k :: 0 <= k < |c0| && k / 3 != i ==> c1[k] == c0[k]
    requires forall c :: 0 <= c < 3 ==> c1[i * 3 + c] == img.Channel(nearest[i], c) as real
    requires a1 == a0[i := Alpha(img, i, nearest[i])]
    ensures Shaded(img, nearest, c1, a1, i + 1)
  {
    forall k | 0 <= k < (i + 1) * 3 ensures c1[k] == img.Channel(nearest[k / 3], k % 3) as real {
      if k / 3 == i { assert k == i * 3 + k % 3; }
    }
  }

  method Shade(img: Image, ink: array<int>, nearest: array<int>) returns (color: array<real>, alpha: array<real>)
    requires img.Valid() && ink.Length == img.Count() && References(img, nearest[..])
    requires forall i :: 0 <= i < ink.Length ==> ink[i] == img.Ink(i)
    ensures fresh(color) && fresh(alpha)
    ensures Shaded(img, nearest[..], color[..], alpha[..], img.Count())
  {
    color := new real[img.Count() * 3];
    alpha := new real[img.Count()];
    ghost var near := nearest[..];
    for i := 0 to img.Count()
      invariant near == nearest[..] && Shaded(img, near, color[..], alpha[..], i)
    {
      ghost var c0, a0 := color[..], alpha[..];
      assert img.Nearest(i, near[i]);
      ShadePixel(img, ink[i], nearest[i], i, color, alpha);
      ShadedOneMore(img, near, c0, a0, color[..], alpha[..], i);
    }
  }

  // ---- The trim box ----------------------------------------------------------

  datatype Box = Box(left: int, top: int, right: int, bottom: int)

  predicate Shows(img: Image, alpha: seq<real>, i: int)
    requires |alpha| == img.Count()
  {
    img.Pixel(i) && alpha[i] > TRIM_ALPHA
  }

  // Every pixel that shows lies in the closed rectangle.
  ghost predicate Covers(img: Image, alpha: seq<real>, x0: int, y0: int, x1: int, y1: int)
    requires |alpha| == img.Count()
  {
    forall i :: Shows(img, alpha, i) ==> x0 <= img.X(i) <= x1 && y0 <= img.Y(i) <= y1
  }

  // The smallest rectangle that covers what shows.
  ghost predicate Tight(img: Image, alpha: seq<real>, x0: int, y0: int, x1: int, y1: int)
    requires |alpha| == img.Count()
  {
    && Covers(img, alpha, x0, y0, x1, y1)
    && (forall u0, v0, u1, v1 :: Covers(img, alpha, u0, v0, u1, v1) ==> u0 <= x0 && v0 <= y0 && x1 <= u1 && y1 <= v1)
  }

  // Each pixel's column, row and visibility, in index order.
  datatype Cells = Cells(xs: seq<int>, ys: seq<int>, shows: seq<bool>)

  ghost predicate CellsOf(img: Image, alpha: seq<real>, c: Cells)
    requires |alpha| == img.Count()
  {
    && |c.xs| == |c.ys| == |c.shows| == img.Count()
    && (forall i :: img.Pixel(i) ==> c.xs[i] == img.X(i) && c.ys[i] == img.Y(i))
    && (forall i :: img.Pixel(i) ==> (c.shows[i] <==> alpha[i] > TRIM_ALPHA))
  }

  lemma {:induction false} CellsExist(img: Image, alpha: seq<real>) returns (c: Cells)
    requires |alpha| == img.Count()
    ensures CellsOf(img, alpha, c)
  {
    c := Cells(
      seq(img.Count(), i requires 0 <= i < img.Count() => img.X(i) as int),
      seq(img.Count(), i requires 0 <= i < img.Count() => img.Y(i) as int),
      seq(img.Count(), i requires 0 <= i < |alpha| => alpha[i] > TRIM_ALPHA));
  }

  lemma {:induction false} CoordinatesInRow(img: Image, y: nat, start: nat, i: nat)
    requires y < img.height && start == y * img.width && start <= i < start + img.width
    ensures img.Pixel(i) && img.X(i) == i - start && img.Y(i) == y
  {
    IndexInRange(i - start, y, img.width, img.height);
    DivModOfIndex(i - start, y, img.width);
  }

  // Row y is the run of cells from `start`.
  ghost predicate IsRow(c: Cells, width: nat, y: int, start: nat) {
    && start + width <= |c.xs| == |c.ys|
    && forall i :: start <= i < start + width ==> c.xs[i] == i - start && c.ys[i] == y
  }

  lemma {:induction false} RowOfCells(img: Image, alpha: seq<real>, c: Cells, y: nat, start: nat)
    requires |alpha| == img.Count() && CellsOf(img, alpha, c) && y < img.height && start == y * img.width
    ensures IsRow(c, img.width, y, start)
  {
    forall i | start <= i < start + img.width ensures img.Pixel(i) && img.X(i) == i - start && img.Y(i) == y {
      CoordinatesInRow(img, y, start, i);
    }
    if img.width > 0 { CoordinatesInRow(img, y, start, start + img.width - 1); }
  }

  function RowAt(y: nat, width: nat): nat { y * width }

  ghost predicate HasRows(c: Cells, width: nat, height: nat) {
    |c.xs| == RowAt(height, width) && forall y :: 0 <= y < height ==> IsRow(c, width, y, RowAt(y, width))
  }

  lemma {:induction false} CellsHaveRows(img: Image, alpha: seq<real>, c: Cells)
    requires |alpha| == img.Count() && CellsOf(img, alpha, c)
    ensures HasRows(c, img.width, img.height)
  {
    forall y | 0 <= y < img.height ensures IsRow(c, img.width, y, RowAt(y, img.width)) {
      RowOfCells(img, alpha, c, y, RowAt(y, img.width));
    }
  }

  lemma {:induction false} NextRow(y: nat, width: nat)
    ensures RowAt(y + 1, width) == RowAt(y, width) + width
  {
  }

  // What the loops have seen before cell p, and one cell on each side.
  ghost predicate SeenBefore(c: Cells, width: int, height: int, p: int, x0: int, y0: int, x1: int, y1: int) {
    && |c.xs| == |c.ys| == |c.shows| && 0 <= p <= |c.xs|
    && (forall i :: 0 <= i < p && c.shows[i] ==> x0 <= c.xs[i] <= x1 && y0 <= c.ys[i] <= y1)
    && ((x0, y0, x1, y1) == (width, height, -1, -1) || Reached(c, x0, y0, x1, y1))
  }

  ghost predicate Reached(c: Cells, x0: int, y0: int, x1: int, y1: int)
    requires |c.xs| == |c.ys| == |c.shows|
  {
    && (exists i :: 0 <= i < |c.xs| && c.shows[i] && c.xs[i] == x0)
    && (exists i :: 0 <= i < |c.xs| && c.shows[i] && c.xs[i] == x1)
    && (exists i :: 0 <= i < |c.xs| && c.shows[i] && c.ys[i] == y0)
    && (exists i :: 0 <= i < |c.xs| && c.shows[i] && c.ys[i] == y1)
  }

  lemma {:induction false} AllSeenIsTight(img: Image, alpha: seq<real>, c: Cells, x0: int, y0: int, x1: int,
        y1: int, some: nat)
    requires |alpha| == img.Count() && CellsOf(img, alpha, c) && Shows(img, alpha, some)
    requires SeenBefore(c, img.width, img.height, img.Count(), x0, y0, x1, y1)
    ensures Tight(img, alpha, x0, y0, x1, y1)
    ensures 0 <= x0 <= x1 < img.width && 0 <= y0 <= y1 < img.height
  {
    assert c.shows[some];
    forall i | Shows(img, alpha, i) ensures x0 <= img.X(i) <= x1 && y0 <= img.Y(i) <= y1 {
      assert c.shows[i];
    }
    assert forall i :: 0 <= i < |c.xs| && c.shows[i] ==> Shows(img, alpha, i);
  }

  // The inner loop of trimBox, over one row.
  method ScanRow(alpha: array<real>, ghost c: Cells, width: nat, ghost height: nat, y: nat, start: nat,
        x0: int, y0: int, x1: int, y1: int)
    returns (r0: int, s0: int, r1: int, s1: int)
    requires |c.shows| == alpha.Length && forall i :: 0 <= i < alpha.Length ==> (c.shows[i] <==> alpha[i] > TRIM_ALPHA)
    requires IsRow(c, width, y, start) && y < height && SeenBefore(c, width, height, start, x0, y0, x1, y1)
    ensures SeenBefore(c, width, height, start + width, r0, s0, r1, s1)
  {
    r0, s0, r1, s1 := x0, y0, x1, y1;
    for x := 0 to width
      invariant SeenBefore(c, width, height, start + x, r0, s0, r1, s1)
    {
      if alpha[start + x] > TRIM_ALPHA {
        SeenOneMore(c, width, height, start + x, r0, s0, r1, s1);
        r0, s0, r1, s1 := Min(r0, x), Min(s0, y), Max(r1, x), Max(s1, y);
      }
    }
  }

  lemma {:induction false} SeenOneMore(c: Cells, width: int, height: int, p: nat, x0: int, y0: int, x1: int, y1: int)
    requires SeenBefore(c, width, height, p, x0, y0, x1, y1) && p < |c.xs| && c.shows[p]
    requires 0 <= c.xs[p] < width && 0 <= c.ys[p] < height
    ensures SeenBefore(c, width, height, p + 1, Min(x0, c.xs[p]), Min(y0, c.ys[p]), Max(x1, c.xs[p]), Max(y1, c.ys[p]))
  {
  }

  // The outer loop of trimBox.
  method ScanRows(width: nat, height: nat, alpha: array<real>, ghost c: Cells)
    returns (x0: int, y0: int, x1: int, y1: int)
    requires |c.shows| == |c.ys| == |c.xs| == alpha.Length && HasRows(c, width, height)
    requires forall i :: 0 <= i < alpha.Length ==> (c.shows[i] <==> alpha[i] > TRIM_ALPHA)
    ensures SeenBefore(c, width, height, |c.xs|, x0, y0, x1, y1)
  {
    x0, y0, x1, y1 := width as int, height as int, -1, -1;
    for y := 0 to height
      invariant SeenBefore(c, width, height, RowAt(y, width), x0, y0, x1, y1)
    {
      assert IsRow(c, width, y, RowAt(y, width));
      x0, y0, x1, y1 := ScanRow(alpha, c, width, height, y, RowAt(y, width), x0, y0, x1, y1);
      NextRow(y, width);
    }
  }

  // The padded, clamped box; `some` is any pixel that shows.
  method TrimBox(img: Image, alpha: array<real>, ghost some: nat) returns (box: Box)
    requires alpha.Length == img.Count() && Shows(img, alpha[..], some)
    ensures IsTrimBox(img, alpha[..], box)
    ensures 0 <= box.left < box.right <= img.width && 0 <= box.top < box.bottom <= img.height
  {
    ghost var c := CellsExist(img, alpha[..]);
    CellsHaveRows(img, alpha[..], c);
    var x0, y0, x1, y1 := ScanRows(img.width, img.height, alpha, c);
    AllSeenIsTight(img, alpha[..], c, x0, y0, x1, y1, some);
    box := Padded(img, x0, y0, x1, y1);
  }

  // The smallest rectangle of visible pixels, padded and clamped to the image.
  ghost predicate IsTrimBox(img: Image, alpha: seq<real>, box: Box)
    requires |alpha| == img.Count()
  {
    exists x0, y0, x1, y1 :: Tight(img, alpha, x0, y0, x1, y1) && box == Padded(img, x0, y0, x1, y1)
  }

  function Padded(img: Image, x0: int, y0: int, x1: int, y1: int): Box {
    Box(Max(0, x0 - TRIM_PAD), Max(0, y0 - TRIM_PAD),
        Min(img.width, x1 + 1 + TRIM_PAD), Min(img.height, y1 + 1 + TRIM_PAD))
  }

  // An image with a solid pixel has something to show.
  lemma {:induction false} SolidShows(img: Image, nearest: seq<int>, color: seq<real>, alpha: seq<real>, i: nat)
    requires img.Valid() && References(img, nearest) && Shaded(img, nearest, color, alpha, img.Count())
    requires img.Solid(i)
    ensures Shows(img, alpha, i)
  {
    assert img.Nearest(i, nearest[i]);
    SolidKeepsItsColour(img, i, nearest[i]);
  }

  // ---- The dark variant ------------------------------------------------------

  predicate IsColour(color: seq<real>) {
    |color| % 3 == 0 && forall k :: 0 <= k < |color| ==> 0.0 <= color[k] <= 255.0
  }

  // Blue means more blue than red; the rest of the colours are left alone.
  predicate IsBlue(color: seq<real>, k: nat)
    requires |color| % 3 == 0 && k < |color|
  {
    color[k / 3 * 3 + 2] > color[k / 3 * 3]
  }

  function Lifted(color: seq<real>, k: nat): real
    requires |color| % 3 == 0 && k < |color|
  {
    if IsBlue(color, k) then color[k] + (255.0 - color[k]) * DARK_BLUE_LIFT else color[k]
  }

  // A lift moves a channel 34% of its way to white and never past it.
  lemma {:induction false} LiftStaysAColour(color: seq<real>, k: nat)
    requires IsColour(color) && k < |color|
    ensures color[k] <= Lifted(color, k) <= 255.0
    ensures IsBlue(color, k) ==> 255.0 - Lifted(color, k) == (1.0 - DARK_BLUE_LIFT) * (255.0 - color[k])
    ensures !IsBlue(color, k) ==> Lifted(color, k) == color[k]
  {
  }

  // One pixel of the loop of liftBlues.
  method LiftPixel(color: array<real>, out: array<real>, i: nat)
    requires color.Length % 3 == 0 && out.Length == color.Length && color != out && i % 3 == 0 && i < color.Length
    requires forall k :: i <= k < out.Length ==> out[k] == color[k]
    modifies out
    ensures forall k :: 0 <= k < i ==> out[k] == old(out[k])
    ensures forall k :: i <= k < i + 3 ==> out[k] == Lifted(color[..], k)
    ensures forall k :: i + 3 <= k < out.Length ==> out[k] == color[k]
  {
    assert forall k :: i <= k < i + 3 ==> k / 3 * 3 == i;
    if color[i + 2] > color[i] {
      for c := 0 to 3
        invariant forall k :: 0 <= k < i ==> out[k] == old(out[k])
        invariant forall k :: i <= k < i + c ==> out[k] == Lifted(color[..], k)
        invariant forall k :: i + c <= k < out.Length ==> out[k] == color[k]
      {
        assert (i + c) / 3 * 3 == i;
        out[i + c] := color[i + c] + (255.0 - color[i + c]) * DARK_BLUE_LIFT;
      }
    }
  }

  method LiftBlues(color: array<real>) returns (out: array<real>)
    requires IsColour(color[..])
    ensures fresh(out) && out.Length == color.Length && IsColour(out[..])
    ensures forall k :: 0 <= k < out.Length ==> out[k] == Lifted(color[..], k)
  {
    out := new real[color.Length](i requires 0 <= i < color.Length reads color => color[i]);
    var i := 0;
    while i < out.Length
      invariant 0 <= i <= out.Length && i % 3 == 0
      invariant forall k :: 0 <= k < i ==> out[k] == Lifted(color[..], k)
      invariant forall k :: i <= k < out.Length ==> out[k] == color[k]
    {
      LiftPixel(color, out, i);
      i := i + 3;
    }
    forall k | 0 <= k < out.Length ensures 0.0 <= out[k] <= 255.0 {
      LiftStaysAColour(color[..], k);
    }
  }

  // ---- The copy into the output buffer ---------------------------------------

  // Math.round on the values here, which are never negative.
  function Round(v: real): int { (v + 0.5).Floor }

  lemma {:induction false} RoundIsAByte(v: real)
    requires 0.0 <= v <= 255.0
    ensures 0 <= Round(v) <= 255
  {
  }

  function Window(img: Image, box: Box): Image
    requires 0 <= box.left <= box.right <= img.width && 0 <= box.top <= box.bottom <= img.height
  {
    Image(box.right - box.left, box.bottom - box.top, [])
  }

  // The pixel of the image that output pixel p shows.
  function SourceOf(img: Image, box: Box, p: nat): (i: nat)
    requires 0 <= box.left <= box.right <= img.width && 0 <= box.top <= box.bottom <= img.height
    requires Window(img, box).Pixel(p)
    ensures img.Pixel(i) && img.X(i) == Window(img, box).X(p) + box.left && img.Y(i) == Window(img, box).Y(p) + box.top
  {
    img.At(Window(img, box).X(p) + box.left, Window(img, box).Y(p) + box.top)
  }

  predicate Copied(rgba: seq<int>, p: nat, color: seq<real>, alpha: seq<real>, i: nat)
    requires p * 4 + 3 < |rgba| && i * 3 + 2 < |color| && i < |alpha|
  {
    && rgba[p * 4] == Round(color[i * 3]) && rgba[p * 4 + 1] == Round(color[i * 3 + 1])
    && rgba[p * 4 + 2] == Round(color[i * 3 + 2]) && rgba[p * 4 + 3] == Round(alpha[i] * 255.0)
  }

  // The body of the copy's inner loop, for output pixel p and image pixel i.
  method CopyPixel(rgba: array<int>, p: nat, color: array<real>, alpha: array<real>, i: nat)
    requires p * 4 + 3 < rgba.Length && i * 3 + 2 < color.Length && i < alpha.Length
    modifies rgba
    ensures Copied(rgba[..], p, color[..], alpha[..], i)
    ensures forall k :: 0 <= k < rgba.Length && k / 4 != p ==> rgba[k] == old(rgba[k])
  {
    for c := 0 to 3
      invariant forall k :: p * 4 <= k < p * 4 + c ==> rgba[k] == Round(color[i * 3 + (k - p * 4)])
      invariant forall k :: 0 <= k < rgba.Length && k / 4 != p ==> rgba[k] == old(rgba[k])
    {
      rgba[p * 4 + c] := Round(color[i * 3 + c]);
    }
    rgba[p * 4 + 3] := Round(alpha[i] * 255.0);
  }

  // The first n output pixels are what the sources say.
  ghost predicate CopiedBefore(sources: seq<nat>, rgba: seq<int>, color: seq<real>, alpha: seq<real>, n: nat) {
    && n <= |sources| && |rgba| == |sources| * 4 && |color| == |alpha| * 3
    && (forall p :: 0 <= p < |sources| ==> sources[p] < |alpha|)
    && (forall p :: 0 <= p < n ==> Copied(rgba, p, color, alpha, sources[p]))
  }

  lemma {:induction false} CopiedOneMore(sources: seq<nat>, before: seq<int>, after: seq<int>, color: seq<real>,
        alpha: seq<real>, n: nat)
    requires CopiedBefore(sources, before, color, alpha, n) && n < |sources| && |after| == |before|
    requires Copied(after, n, color, alpha, sources[n])
    requires forall k :: 0 <= k < |after| && k / 4 != n ==> after[k] == before[k]
    ensures CopiedBefore(sources, after, color, alpha, n + 1)
  {
    forall p | 0 <= p < n ensures Copied(after, p, color, alpha, sources[p]) {
      assert (p * 4) / 4 == p && (p * 4 + 1) / 4 == p && (p * 4 + 2) / 4 == p && (p * 4 + 3) / 4 == p;
    }
  }

  ghost predicate SourcesOf(img: Image, box: Box, sources: seq<nat>)
    requires 0 <= box.left <= box.right <= img.width && 0 <= box.top <= box.bottom <= img.height
  {
    && |sources| == Window(img, box).Count()
    && forall p :: Window(img, box).Pixel(p) ==> sources[p] == SourceOf(img, box, p)
  }

  lemma {:induction false} SourcesExist(img: Image, box: Box) returns (sources: seq<nat>)
    requires 0 <= box.left <= box.right <= img.width && 0 <= box.top <= box.bottom <= img.height
    ensures SourcesOf(img, box, sources) && forall p :: 0 <= p < |sources| ==> sources[p] < img.Count()
  {
    sources := seq(Window(img, box).Count(), p requires 0 <= p < Window(img, box).Count() => SourceOf(img, box, p));
  }

  // The `width` output pixels from `start` on read the image from `from` on.
  ghost predicate ReadsRun(sources: seq<nat>, start: nat, from: nat, width: nat) {
    start + width <= |sources| && forall p :: start <= p < start + width ==> sources[p] == from + (p - start)
  }

  // One output row reads a run of one image row.
  lemma {:induction false} RowOfSources(img: Image, box: Box, sources: seq<nat>, y: nat, start: nat, from: nat)
    requires 0 <= box.left <= box.right <= img.width && 0 <= box.top <= box.bottom <= img.height
    requires SourcesOf(img, box, sources) && y < Window(img, box).height
    requires start == RowAt(y, Window(img, box).width) && from == RowAt(y + box.top, img.width) + box.left
    ensures ReadsRun(sources, start, from, Window(img, box).width)
  {
    var out := Window(img, box);
    forall p | start <= p < start + out.width ensures out.Pixel(p) && SourceOf(img, box, p) == from + (p - start) {
      CoordinatesInRow(out, y, start, p);
    }
    if out.width > 0 { CoordinatesInRow(out, y, start, start + out.width - 1); }
    else { assert out.height * out.width == 0; }
  }

  // The inner loop of the copy: output pixels from `start` on, read from `from` on.
  method CopyRow(rgba: array<int>, ghost sources: seq<nat>, color: array<real>, alpha: array<real>, start: nat,
        from: nat, width: nat)
    requires CopiedBefore(sources, rgba[..], color[..], alpha[..], start)
    requires ReadsRun(sources, start, from, width)
    modifies rgba
    ensures CopiedBefore(sources, rgba[..], color[..], alpha[..], start + width)
  {
    for x := 0 to width
      invariant CopiedBefore(sources, rgba[..], color[..], alpha[..], start + x)
    {
      ghost var before := rgba[..];
      assert sources[start + x] == from + x;
      CopyPixel(rgba, start + x, color, alpha, from + x);
      CopiedOneMore(sources, before, rgba[..], color[..], alpha[..], start + x);
    }
  }

  // The outer loop of the copy: row y reads the run of image pixels after the
  // box's left edge in image row y + top.
  method CopyRows(rgba: array<int>, ghost sources: seq<nat>, color: array<real>, alpha: array<real>,
        width: nat, height: nat, imageWidth: nat, left: nat, top: nat)
    requires CopiedBefore(sources, rgba[..], color[..], alpha[..], 0) && RowAt(height, width) == |sources|
    requires forall y :: 0 <= y < height ==>
      ReadsRun(sources, RowAt(y, width), RowAt(y + top, imageWidth) + left, width)
    modifies rgba
    ensures CopiedBefore(sources, rgba[..], color[..], alpha[..], |sources|)
  {
    for y := 0 to height
      invariant CopiedBefore(sources, rgba[..], color[..], alpha[..], RowAt(y, width))
    {
      assert ReadsRun(sources, RowAt(y, width), RowAt(y + top, imageWidth) + left, width);
      CopyRow(rgba, sources, color, alpha, RowAt(y, width), RowAt(y + top, imageWidth) + left, width);
      NextRow(y, width);
    }
  }

  // The copy of renderPng: every output pixel is the rounded pixel the box puts
  // there, and no read or write leaves its array.
  method CopyBox(img: Image, box: Box, color: array<real>, alpha: array<real>)
    returns (rgba: array<int>, ghost sources: seq<nat>)
    requires 0 <= box.left <= box.right <= img.width && 0 <= box.top <= box.bottom <= img.height
    requires color.Length == img.Count() * 3 && alpha.Length == img.Count()
    ensures fresh(rgba) && SourcesOf(img, box, sources)
    ensures CopiedBefore(sources, rgba[..], color[..], alpha[..], |sources|)
  {
    sources := SourcesExist(img, box);
    var width, height := box.right - box.left, box.bottom - box.top;
    rgba := new int[width * height * 4];
    forall y | 0 <= y < height
      ensures ReadsRun(sources, RowAt(y, width), RowAt(y + box.top, img.width) + box.left, width)
    {
      RowOfSources(img, box, sources, y, RowAt(y, width), RowAt(y + box.top, img.width) + box.left);
    }
    CopyRows(rgba, sources, color, alpha, width, height, img.width, box.left, box.top);
  }

  ghost predicate Bytes(rgba: seq<int>) {
    forall k :: 0 <= k < |rgba| ==> 0 <= rgba[k] <= 255
  }

  lemma {:induction false} CopiedAreBytes(sources: seq<nat>, rgba: seq<int>, color: seq<real>, alpha: seq<real>)
    requires CopiedBefore(sources, rgba, color, alpha, |sources|) && IsColour(color)
    requires forall i :: 0 <= i < |alpha| ==> 0.0 <= alpha[i] <= 1.0
    ensures Bytes(rgba)
  {
    forall k | 0 <= k < |rgba| ensures 0 <= rgba[k] <= 255 {
      var p := k / 4;
      var i := sources[p];
      assert Copied(rgba, p, color, alpha, i);
      RoundIsAByte(alpha[i] * 255.0);
      RoundIsAByte(color[i * 3]);
      RoundIsAByte(color[i * 3 + 1]);
      RoundIsAByte(color[i * 3 + 2]);
      assert k == p * 4 || k == p * 4 + 1 || k == p * 4 + 2 || k == p * 4 + 3;
    }
  }

  lemma {:induction false} ShadedInRange(img: Image, nearest: seq<int>, color: seq<real>, alpha: seq<real>)
    requires img.Valid() && References(img, nearest) && Shaded(img, nearest, color, alpha, img.Count())
    ensures IsColour(color) && forall i :: 0 <= i < |alpha| ==> 0.0 <= alpha[i] <= 1.0
  {
    forall i | 0 <= i < |alpha| ensures 0.0 <= alpha[i] <= 1.0 {
      assert img.Nearest(i, nearest[i]);
      assert alpha[i] == Alpha(img, i, nearest[i]);
    }
    forall k | 0 <= k < |color| ensures 0.0 <= color[k] <= 255.0 {
      assert img.Nearest(k / 3, nearest[k / 3]);
      assert color[k] == img.Channel(nearest[k / 3], k % 3) as real;
    }
  }

  // renderPng, up to the codec.
  method Render(img: Image, color: array<real>, alpha: array<real>, ghost some: nat)
    returns (box: Box, rgba: array<int>, ghost sources: seq<nat>)
    requires color.Length == img.Count() * 3 && alpha.Length == img.Count() && Shows(img, alpha[..], some)
    requires IsColour(color[..]) && forall i :: 0 <= i < alpha.Length ==> 0.0 <= alpha[i] <= 1.0
    ensures IsTrimBox(img, alpha[..], box)
    ensures 0 <= box.left < box.right <= img.width && 0 <= box.top < box.bottom <= img.height
    ensures SourcesOf(img, box, sources) && CopiedBefore(sources, rgba[..], color[..], alpha[..], |sources|)
    ensures Bytes(rgba[..])
  {
    box := TrimBox(img, alpha, some);
    rgba, sources := CopyBox(img, box, color, alpha);
    CopiedAreBytes(sources, rgba[..], color[..], alpha[..]);
  }
}
