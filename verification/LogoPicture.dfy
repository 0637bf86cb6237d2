// What the drawn logo looks like, told from the decoded file: each pixel's colour
// and alpha, the box around what shows, and the bytes of the two variants
// (scripts/build-widget-logo.ts).
module LogoPicture {
  import opened LogoGrid
  import opened LogoRaster

  // ---- One pixel's alpha -------------------------------------------------------------

  // Some channel is 150 or more away from white.
  predicate HasSolidInk(img: Image, i: nat)
    requires img.Valid() && img.Pixel(i)
  {
    img.Channel(i, 0) <= 105 || img.Channel(i, 1) <= 105 || img.Channel(i, 2) <= 105
  }

  // Every channel is less than 6 away from white.
  predicate AlmostWhite(img: Image, i: nat)
    requires img.Valid() && img.Pixel(i)
  {
    img.Channel(i, 0) > 249 && img.Channel(i, 1) > 249 && img.Channel(i, 2) > 249
  }

  // A channel drawn with this alpha over white.
  function OverWhite(channel: nat, a: real): real {
    255.0 - a * (255.0 - channel as real)
  }

  function SquaredGap(x: real, y: real): real {
    (x - y) * (x - y)
  }

  // How far, squared, pixel i is from the colour of pixel s drawn with this alpha.
  function Miss(img: Image, i: nat, s: nat, a: real): real
    requires img.Valid() && img.Pixel(i) && img.Pixel(s)
  {
    SquaredGap(img.Channel(i, 0) as real, OverWhite(img.Channel(s, 0), a))
    + SquaredGap(img.Channel(i, 1) as real, OverWhite(img.Channel(s, 1), a))
    + SquaredGap(img.Channel(i, 2) as real, OverWhite(img.Channel(s, 2), a))
  }

  // A solid pixel stands for itself, opaque; the background is clear; any other pixel
  // is drawn as close to itself as the colour allows.
  ghost predicate IsAlphaOf(img: Image, i: nat, s: nat, a: real)
    requires img.Valid() && img.Pixel(i) && img.Pixel(s)
  {
    && 0.0 <= a <= 1.0
    && (HasSolidInk(img, i) ==> s == i && a == 1.0)
    && (AlmostWhite(img, i) ==> a == 0.0)
    && (!AlmostWhite(img, i) ==> forall t :: 0.0 <= t <= 1.0 ==> Miss(img, i, s, a) <= Miss(img, i, s, t))
  }

  lemma {:induction false} SolidExactly(img: Image, i: nat)
    requires img.Valid() && img.Pixel(i)
    ensures img.Solid(i) <==> HasSolidInk(img, i)
    ensures img.Ink(i) < NOISE_INK <==> AlmostWhite(img, i)
  {
  }

  lemma {:induction false} GapIsInkGap(p: nat, r: nat, t: real)
    ensures SquaredGap(p as real, OverWhite(r, t))
         == ((255 - p) as real - t * (255 - r) as real) * ((255 - p) as real - t * (255 - r) as real)
  {
    var x, y := p as real - OverWhite(r, t), (255 - p) as real - t * (255 - r) as real;
    assert y == -x;
    assert x * x == (-x) * (-x);
  }

  lemma {:induction false} MissIsBlendError(img: Image, i: nat, s: nat, t: real)
    requires img.Valid() && img.Pixel(i) && img.Pixel(s)
    ensures Miss(img, i, s, t) == BlendError(Inks(img, i), Inks(img, s), t)
  {
    GapIsInkGap(img.Channel(i, 0), img.Channel(s, 0), t);
    GapIsInkGap(img.Channel(i, 1), img.Channel(s, 1), t);
    GapIsInkGap(img.Channel(i, 2), img.Channel(s, 2), t);
  }

  lemma {:induction false} AlphaComesClosest(img: Image, i: nat, s: nat, t: real)
    requires img.Valid() && img.Pixel(i) && img.Solid(s) && img.Ink(i) >= NOISE_INK && 0.0 <= t <= 1.0
    ensures Miss(img, i, s, Alpha(img, i, s)) <= Miss(img, i, s, t)
  {
    MissIsBlendError(img, i, s, t);
    MissIsBlendError(img, i, s, Alpha(img, i, s));
    AlphaIsTheClosestBlend(img, i, s, t);
  }

  lemma {:induction false} BackgroundIsClear(img: Image, i: nat, s: nat)
    requires img.Valid() && img.Pixel(i) && img.Solid(s) && AlmostWhite(img, i)
    ensures Alpha(img, i, s) == 0.0
  {
    SolidExactly(img, i);
    SolidExactly(img, s);
  }

  lemma {:induction false} AlphaIsRight(img: Image, i: nat, s: nat)
    requires img.Valid() && img.Pixel(i) && img.Nearest(i, s)
    ensures IsAlphaOf(img, i, s, Alpha(img, i, s))
  {
    SolidExactly(img, i);
    SolidExactly(img, s);
    if img.Solid(i) { SolidKeepsItsColour(img, i, s); }
    if AlmostWhite(img, i) {
      BackgroundIsClear(img, i, s);
    } else {
      forall t | 0.0 <= t <= 1.0 ensures Miss(img, i, s, Alpha(img, i, s)) <= Miss(img, i, s, t) {
        AlphaComesClosest(img, i, s, t);
      }
    }
  }

  // ---- The box -------------------------------------------------------------------------

  // Two pixels of room on each side of everything that shows, where the image has
  // them, and not more.
  ghost predicate Frames(img: Image, alpha: seq<real>, box: Box)
    requires |alpha| == img.Count()
  {
    && (forall i :: img.Pixel(i) && alpha[i] > 0.03 ==> Surrounds(img, box, i))
    && (exists i :: img.Pixel(i) && alpha[i] > 0.03 && (box.left == 0 || box.left == img.X(i) - 2))
    && (exists i :: img.Pixel(i) && alpha[i] > 0.03 && (box.top == 0 || box.top == img.Y(i) - 2))
    && (exists i :: img.Pixel(i) && alpha[i] > 0.03 && (box.right == img.width || box.right == img.X(i) + 3))
    && (exists i :: img.Pixel(i) && alpha[i] > 0.03 && (box.bottom == img.height || box.bottom == img.Y(i) + 3))
  }

  predicate Surrounds(img: Image, box: Box, i: nat)
    requires img.Pixel(i)
  {
    && (box.left == 0 || box.left <= img.X(i) - 2) && (box.top == 0 || box.top <= img.Y(i) - 2)
    && (box.right == img.width || box.right >= img.X(i) + 3)
    && (box.bottom == img.height || box.bottom >= img.Y(i) + 3)
  }

  // A side of a tight rectangle meets something that shows.
  lemma {:induction false} SidesAreMet(img: Image, alpha: seq<real>, x0: int, y0: int, x1: int, y1: int)
    requires |alpha| == img.Count() && Tight(img, alpha, x0, y0, x1, y1)
    ensures exists i :: Shows(img, alpha, i) && img.X(i) == x0
    ensures exists i :: Shows(img, alpha, i) && img.Y(i) == y0
    ensures exists i :: Shows(img, alpha, i) && img.X(i) == x1
    ensures exists i :: Shows(img, alpha, i) && img.Y(i) == y1
  {
    assert !Covers(img, alpha, x0 + 1, y0, x1, y1);
    assert !Covers(img, alpha, x0, y0 + 1, x1, y1);
    assert !Covers(img, alpha, x0, y0, x1 - 1, y1);
    assert !Covers(img, alpha, x0, y0, x1, y1 - 1);
  }

  lemma {:induction false} TrimBoxFrames(img: Image, alpha: seq<real>, box: Box)
    requires |alpha| == img.Count() && IsTrimBox(img, alpha, box)
    ensures Frames(img, alpha, box)
  {
    var x0, y0, x1, y1 :| Tight(img, alpha, x0, y0, x1, y1) && box == Padded(img, x0, y0, x1, y1);
    SidesAreMet(img, alpha, x0, y0, x1, y1);
    forall i | img.Pixel(i) && alpha[i] > 0.03 ensures Surrounds(img, box, i) { assert Shows(img, alpha, i); }
    var l :| Shows(img, alpha, l) && img.X(l) == x0;
    var t :| Shows(img, alpha, t) && img.Y(t) == y0;
    var r :| Shows(img, alpha, r) && img.X(r) == x1;
    var b :| Shows(img, alpha, b) && img.Y(b) == y1;
  }

  // ---- The bytes -----------------------------------------------------------------------

  predicate NearestByte(b: int, v: real) {
    b as real - 0.5 <= v < b as real + 0.5
  }

  // A byte of the dark variant: where blue exceeds red, 34% of the way to white.
  predicate Darkened(img: Image, s: nat, c: nat, b: int)
    requires img.Valid() && img.Pixel(s) && c < 3
  {
    if img.Channel(s, 2) > img.Channel(s, 0)
    then NearestByte(b, 0.66 * img.Channel(s, c) as real + 0.34 * 255.0)
    else b == img.Channel(s, c)
  }

  // A pixel of the light variant has its reference's colour, one of the dark variant
  // that colour darkened; their alpha is one.
  ghost predicate Painted(img: Image, s: nat, a: real, light: seq<int>, dark: seq<int>, o: nat)
    requires img.Valid() && img.Pixel(s) && o + 3 < |light| == |dark|
  {
    && light[o] == img.Channel(s, 0) && Darkened(img, s, 0, dark[o])
    && light[o + 1] == img.Channel(s, 1) && Darkened(img, s, 1, dark[o + 1])
    && light[o + 2] == img.Channel(s, 2) && Darkened(img, s, 2, dark[o + 2])
    && NearestByte(light[o + 3], a * 255.0) && dark[o + 3] == light[o + 3]
  }

  lemma {:induction false} RoundIsNearest(v: real, n: int)
    ensures NearestByte(Round(v), v)
    ensures Round(n as real) == n
  {
  }

  lemma {:induction false} InPixel(i: nat, c: nat)
    requires c < 3
    ensures (i * 3 + c) / 3 == i && (i * 3 + c) % 3 == c
  {
  }

  // Pixel i has the colour of pixel s.
  predicate HasColourOf(img: Image, s: nat, color: seq<real>, i: nat)
    requires img.Valid() && img.Pixel(s) && i * 3 + 2 < |color|
  {
    && color[i * 3] == img.Channel(s, 0) as real && color[i * 3 + 1] == img.Channel(s, 1) as real
    && color[i * 3 + 2] == img.Channel(s, 2) as real
  }

  lemma {:induction false} LiftIsDarkened(img: Image, s: nat, color: seq<real>, i: nat, c: nat)
    requires img.Valid() && img.Pixel(s) && i * 3 + 2 < |color| && |color| % 3 == 0 && c < 3
    requires HasColourOf(img, s, color, i)
    ensures Round(color[i * 3 + c]) == img.Channel(s, c)
    ensures Darkened(img, s, c, Round(Lifted(color, i * 3 + c)))
  {
    InPixel(i, c);
    RoundIsNearest(Lifted(color, i * 3 + c), img.Channel(s, c));
  }

  ghost predicate IsLift(color: seq<real>, lifted: seq<real>) {
    |color| % 3 == 0 && |lifted| == |color|
    && forall k {:trigger lifted[k]} :: 0 <= k < |color| ==> lifted[k] == Lifted(color, k)
  }

  lemma {:induction false} CopiesArePainted(img: Image, s: nat, color: seq<real>, alpha: seq<real>,
        lifted: seq<real>, light: seq<int>, dark: seq<int>, p: nat, i: nat)
    requires img.Valid() && img.Pixel(s) && i * 3 + 2 < |color| && |color| % 3 == 0 && i < |alpha|
    requires HasColourOf(img, s, color, i)
    requires IsLift(color, lifted)
    requires p * 4 + 3 < |light| == |dark|
    requires Copied(light, p, color, alpha, i) && Copied(dark, p, lifted, alpha, i)
    ensures Painted(img, s, alpha[i], light, dark, p * 4)
  {
    RoundIsNearest(alpha[i] * 255.0, 0);
    LiftIsDarkened(img, s, color, i, 0);
    LiftIsDarkened(img, s, color, i, 1);
    LiftIsDarkened(img, s, color, i, 2);
  }

  // Each pixel has the colour of its reference.
  ghost predicate Coloured(img: Image, nearest: seq<int>, color: seq<real>)
    requires img.Valid()
  {
    && |nearest| == img.Count() && (forall i :: 0 <= i < |nearest| ==> img.Pixel(nearest[i]))
    && |color| == img.Count() * 3
    && (forall i :: 0 <= i < |nearest| ==> HasColourOf(img, nearest[i], color, i))
  }

  lemma {:induction false} ShadedIsColoured(img: Image, nearest: seq<int>, color: seq<real>, alpha: seq<real>)
    requires img.Valid() && References(img, nearest) && Shaded(img, nearest, color, alpha, img.Count())
    ensures Coloured(img, nearest, color)
  {
    forall i | 0 <= i < |nearest| ensures img.Pixel(nearest[i]) && HasColourOf(img, nearest[i], color, i) {
      assert img.Nearest(i, nearest[i]);
      InPixel(i, 0);
      InPixel(i, 1);
      InPixel(i, 2);
    }
  }

  lemma {:induction false} AlphasAreRight(img: Image, nearest: seq<int>, color: seq<real>, alpha: seq<real>)
    requires img.Valid() && References(img, nearest) && Shaded(img, nearest, color, alpha, img.Count())
    requires Coloured(img, nearest, color)
    ensures forall i :: 0 <= i < |alpha| ==> IsAlphaOf(img, i, nearest[i], alpha[i])
  {
    forall i | 0 <= i < |alpha| ensures IsAlphaOf(img, i, nearest[i], alpha[i]) {
      AlphaIsRight(img, i, nearest[i]);
    }
  }
}
