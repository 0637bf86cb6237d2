// The whole of scripts/build-widget-logo.ts between the decoder and the codec.
module LogoBuild {
  import opened LogoGrid
  import opened LogoRaster
  import opened LogoPicture
  import LogoNearest

  // The buffer is the box cut out of the picture: each of its pixels is the rounded
  // one that lies there.
  ghost predicate CutOut(img: Image, box: Box, rgba: seq<int>, color: seq<real>, alpha: seq<real>)
    requires 0 <= box.left <= box.right <= img.width && 0 <= box.top <= box.bottom <= img.height
  {
    && |rgba| == (box.right - box.left) * (box.bottom - box.top) * 4
    && |color| == img.Count() * 3 && |alpha| == img.Count()
    && forall p :: Window(img, box).Pixel(p) ==>
         p * 4 + 3 < |rgba| && Copied(rgba, p, color, alpha, SourceOf(img, box, p))
  }

  lemma {:induction false} CopiedIsCutOut(img: Image, box: Box, sources: seq<nat>, rgba: seq<int>, color: seq<real>,
        alpha: seq<real>)
    requires 0 <= box.left <= box.right <= img.width && 0 <= box.top <= box.bottom <= img.height
    requires |color| == img.Count() * 3 && |alpha| == img.Count()
    requires SourcesOf(img, box, sources) && CopiedBefore(sources, rgba, color, alpha, |sources|)
    ensures CutOut(img, box, rgba, color, alpha)
  {
    forall p | Window(img, box).Pixel(p)
      ensures p * 4 + 3 < |rgba| && Copied(rgba, p, color, alpha, SourceOf(img, box, p))
    {
      assert Copied(rgba, p, color, alpha, sources[p]);
    }
  }

  function LiftedColour(color: seq<real>): seq<real>
    requires |color| % 3 == 0
  {
    seq(|color|, k requires 0 <= k < |color| => Lifted(color, k))
  }

  // The picture: every pixel has a solid pixel's colour, one of those nearest to
  // it, and the alpha that comes closest to it over white. The light variant is
  // the trim box cut out of it; the dark one, with the blues lifted.
  ghost predicate Drawn(img: Image, nearest: seq<int>, color: seq<real>, alpha: seq<real>, box: Box, light: seq<int>,
        dark: seq<int>)
    requires img.Valid()
  {
    && References(img, nearest) && Shaded(img, nearest, color, alpha, img.Count())
    && 0 <= box.left < box.right <= img.width && 0 <= box.top < box.bottom <= img.height
    && IsTrimBox(img, alpha, box)
    && CutOut(img, box, light, color, alpha) && Bytes(light)
    && CutOut(img, box, dark, LiftedColour(color), alpha) && Bytes(dark)
  }

  // The picture, told from the file: every pixel has a nearest solid pixel and the
  // alpha to go with it, the box frames what shows, and each pixel of the two
  // variants is the one of the image that lies there, painted with that.
  ghost predicate Pictured(img: Image, nearest: seq<int>, alpha: seq<real>, box: Box, light: seq<int>, dark: seq<int>)
    requires img.Valid()
  {
    && References(img, nearest) && |alpha| == img.Count()
    && (forall i :: 0 <= i < |nearest| ==> img.Pixel(nearest[i]) && IsAlphaOf(img, i, nearest[i], alpha[i]))
    && 0 <= box.left < box.right <= img.width && 0 <= box.top < box.bottom <= img.height
    && Frames(img, alpha, box)
    && |light| == |dark| == (box.right - box.left) * (box.bottom - box.top) * 4
    && PaintedFrom(img, nearest, alpha, box, light, dark)
  }

  ghost predicate PaintedFrom(img: Image, nearest: seq<int>, alpha: seq<real>, box: Box, light: seq<int>,
        dark: seq<int>)
    requires img.Valid() && |nearest| == |alpha| == img.Count() && |light| == |dark|
    requires forall i :: 0 <= i < |nearest| ==> img.Pixel(nearest[i])
    requires 0 <= box.left <= box.right <= img.width && 0 <= box.top <= box.bottom <= img.height
  {
    forall p :: Window(img, box).Pixel(p) ==>
      && p * 4 + 3 < |light| && img.Pixel(nearest[SourceOf(img, box, p)])
      && Painted(img, nearest[SourceOf(img, box, p)], alpha[SourceOf(img, box, p)], light, dark, p * 4)
  }

  lemma {:induction false} CutOutIsPainted(img: Image, nearest: seq<int>, color: seq<real>, alpha: seq<real>,
        lifted: seq<real>, box: Box, light: seq<int>, dark: seq<int>)
    requires img.Valid() && Coloured(img, nearest, color) && |alpha| == img.Count()
    requires 0 <= box.left <= box.right <= img.width && 0 <= box.top <= box.bottom <= img.height
    requires CutOut(img, box, light, color, alpha) && CutOut(img, box, dark, lifted, alpha)
    requires IsLift(color, lifted)
    ensures PaintedFrom(img, nearest, alpha, box, light, dark)
  {
    forall p | Window(img, box).Pixel(p)
      ensures p * 4 + 3 < |light| && img.Pixel(nearest[SourceOf(img, box, p)])
      ensures Painted(img, nearest[SourceOf(img, box, p)], alpha[SourceOf(img, box, p)], light, dark, p * 4)
    {
      var i := SourceOf(img, box, p);
      CopiesArePainted(img, nearest[i], color, alpha, lifted, light, dark, p, i);
    }
  }

  lemma {:induction false} LiftedIsLift(color: seq<real>)
    requires |color| % 3 == 0
    ensures IsLift(color, LiftedColour(color))
  {
  }

  lemma {:induction false} DrawnIsPictured(img: Image, nearest: seq<int>, color: seq<real>, alpha: seq<real>, box: Box,
        light: seq<int>, dark: seq<int>)
    requires img.Valid() && Drawn(img, nearest, color, alpha, box, light, dark)
    ensures Pictured(img, nearest, alpha, box, light, dark)
  {
    TrimBoxFrames(img, alpha, box);
    ShadedIsColoured(img, nearest, color, alpha);
    AlphasAreRight(img, nearest, color, alpha);
    ShadedInRange(img, nearest, color, alpha);
    LiftedIsLift(color);
    CutOutIsPainted(img, nearest, color, alpha, LiftedColour(color), box, light, dark);
  }

  // Colours, alpha and the two variants, from the answers of the search.
  method Draw(img: Image, ink: array<int>, nearest: array<int>, ghost some: nat)
    returns (box: Box, light: array<int>, dark: array<int>, ghost color: seq<real>, ghost alpha: seq<real>)
    requires img.Valid() && img.Solid(some) && ink.Length == img.Count()
    requires LogoNearest.Inked(img, ink[..], img.Count()) && References(img, nearest[..])
    ensures Drawn(img, nearest[..], color, alpha, box, light[..], dark[..])
  {
    var colors, alphas := Shade(img, ink, nearest);
    color, alpha := colors[..], alphas[..];
    ShadedInRange(img, nearest[..], color, alpha);
    SolidShows(img, nearest[..], color, alpha, some);
    ghost var sources, sources2;
    box, light, sources := Render(img, colors, alphas, some);
    CopiedIsCutOut(img, box, sources, light[..], color, alpha);
    var lifted := LiftBlues(colors);
    assert lifted[..] == LiftedColour(color);
    var box2;
    box2, dark, sources2 := Render(img, lifted, alphas, some);
    SameBox(img, alpha, box, box2);
    CopiedIsCutOut(img, box, sources2, dark[..], lifted[..], alpha);
  }

  // Any decoded file either has no solid pixel, and nothing is rendered, or gives
  // the two variants of its picture.
  method Build(img: Image)
    returns (ok: bool, box: Box, light: array<int>, dark: array<int>,
             ghost references: seq<int>, ghost color: seq<real>, ghost alpha: seq<real>)
    requires img.Valid()
    ensures ok <==> exists i: nat :: img.Pixel(i) && HasSolidInk(img, i)
    ensures ok ==> Drawn(img, references, color, alpha, box, light[..], dark[..])
    ensures ok ==> Pictured(img, references, alpha, box, light[..], dark[..])
  {
    var ink, nearest, queue;
    ok, ink, nearest, queue := LogoNearest.FindNearest(img);
    forall i: nat | img.Pixel(i) ensures img.Solid(i) <==> HasSolidInk(img, i) { SolidExactly(img, i); }
    box, light, dark := Box(0, 0, 0, 0), new int[0], new int[0];
    references, color, alpha := nearest[..], [], [];
    if ok {
      ghost var some :| img.Solid(some);
      box, light, dark, color, alpha := Draw(img, ink, nearest, some);
      DrawnIsPictured(img, references, color, alpha, box, light[..], dark[..]);
    }
  }

  lemma {:induction false} SameBox(img: Image, alpha: seq<real>, a: Box, b: Box)
    requires |alpha| == img.Count() && IsTrimBox(img, alpha, a) && IsTrimBox(img, alpha, b)
    ensures a == b
  {
    var x0, y0, x1, y1 :| Tight(img, alpha, x0, y0, x1, y1) && a == Padded(img, x0, y0, x1, y1);
    var u0, v0, u1, v1 :| Tight(img, alpha, u0, v0, u1, v1) && b == Padded(img, u0, v0, u1, v1);
  }
}
