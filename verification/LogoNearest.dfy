// The search of makeTransparent (scripts/build-widget-logo.ts), over the arrays
// it fills in place.
module LogoNearest {
  import opened LogoGrid
  import LevelSearch
  import GridSearch

  type Field = LevelSearch.Field

  // The pixel grid as a graph: levels are distances to the solid pixels.
  ghost function GridField(img: Image): Field
    requires img.Valid()
  {
    LevelSearch.Field(
      img.Count(),
      j => img.Solid(j),
      j => if img.Pixel(j) then img.ToSolid(j) else 0,
      (i, j) => img.Pixel(i) && img.Pixel(j) && img.Adjacent(i, j),
      (j, s) => img.Pixel(j) && img.Nearest(j, s))
  }

  lemma {:induction false} GridNearestPassesOn(img: Image, i: nat, j: nat, s: int)
    requires img.Valid() && img.HasSolid() && img.Pixel(i) && img.Pixel(j)
    requires img.Nearest(i, s) && img.Adjacent(i, j) && img.ToSolid(j) == img.ToSolid(i) + 1
    ensures img.Nearest(j, s)
  {
    img.NearestIffDistance(i, s);
    img.Triangle(j, i, s);
    img.NearestIffDistance(j, s);
  }

  lemma {:induction false} GridStepsNearer(img: Image, j: nat)
    requires img.Valid() && img.HasSolid() && img.Pixel(j) && img.ToSolid(j) > 0
    ensures exists k :: GridField(img).StepsTo(j, k)
  {
    img.SolidIffZero(j);
    var k := img.StepNearer(j);
    assert GridField(img).StepsTo(j, k);
  }

  lemma {:induction false} GridObeysLaws(img: Image)
    requires img.Valid() && img.HasSolid()
    ensures GridField(img).Laws()
  {
    var f := GridField(img);
    forall j | f.source(j) ensures f.Has(j) && f.nearest(j, j) {
      img.SolidIffZero(j);
      img.ZeroDistance(j, j);
      img.NearestIffDistance(j, j);
    }
    forall j | f.Has(j) ensures f.source(j) <==> f.level(j) == 0 {
      img.SolidIffZero(j);
    }
    forall i, j | f.Has(i) && f.Has(j) && f.adjacent(i, j) ensures f.level(j) <= f.level(i) + 1 {
      img.AdjacentDiffersByOne(i, j);
    }
    forall j | f.Has(j) && f.level(j) > 0 ensures exists k :: f.StepsTo(j, k) {
      GridStepsNearer(img, j);
    }
    forall i, j, s | f.Has(i) && f.Has(j) && f.nearest(i, s) && f.adjacent(i, j) && f.level(j) == f.level(i) + 1
      ensures f.nearest(j, s)
    {
      GridNearestPassesOn(img, i, j, s);
    }
  }

  // The neighbours of a pixel are the pixels of the squares around it.
  lemma {:induction false} PixelSits(img: Image, i: nat)
    requires img.Valid() && img.Pixel(i)
    ensures GridSearch.SitsAt(GridField(img), img.width, img.height, i, img.X(i), img.Y(i))
  {
    var f := GridField(img);
    var x, y := img.X(i), img.Y(i);
    img.AtCoordinates(i);
    forall nx, ny | GridSearch.InGrid(nx, ny, img.width, img.height) && GridSearch.Close(x, y, nx, ny)
      ensures f.Has(GridSearch.Index(nx, ny, img.width)) && f.adjacent(i, GridSearch.Index(nx, ny, img.width))
    {
      assert GridSearch.Index(nx, ny, img.width) == img.At(nx, ny);
    }
    forall j | f.Has(j) && f.adjacent(i, j)
      ensures exists nx, ny :: GridSearch.InGrid(nx, ny, img.width, img.height) && GridSearch.Close(x, y, nx, ny)
                               && j == GridSearch.Index(nx, ny, img.width)
    {
      img.AtCoordinates(j);
      assert GridSearch.Close(x, y, img.X(j), img.Y(j)) && j == GridSearch.Index(img.X(j), img.Y(j), img.width);
    }
  }

  lemma {:induction false} RowOfPixel(img: Image, i: nat)
    requires img.Pixel(i)
    ensures img.width > 0 && i % img.width == img.X(i) && (i - i % img.width) / img.width == img.Y(i)
  {
    RowInRange(i, img.width, img.height);
    DivModOfIndex(0, img.Y(i), img.width);
    assert i - i % img.width == img.Y(i) * img.width;
  }

  lemma {:induction false} ImageIsGrid(img: Image)
    requires img.Valid()
    ensures GridSearch.IsGrid(GridField(img), img.width, img.height)
  {
    forall i | GridField(img).Has(i)
      ensures img.width > 0
      ensures var x := GridSearch.Column(i, img.width);
        GridSearch.SitsAt(GridField(img), img.width, img.height, i, x, GridSearch.Row(i, x, img.width))
    {
      RowOfPixel(img, i);
      PixelSits(img, i);
    }
  }

  ghost predicate Inked(img: Image, ink: seq<int>, n: nat)
    requires img.Valid()
  {
    |ink| == img.Count() && forall j :: 0 <= j < n && j < |ink| ==> ink[j] == img.Ink(j)
  }

  // The first loop: every pixel's ink, and every solid pixel queued in order.
  method Seed(img: Image, ink: array<int>, nearest: array<int>, queue: array<int>) returns (tail: nat)
    requires img.Valid() && nearest != queue && ink != nearest && ink != queue
    requires ink.Length == nearest.Length == queue.Length == img.Count()
    requires LevelSearch.Seeded(GridField(img), nearest[..], [], 0)
    modifies ink, nearest, queue
    ensures tail <= queue.Length
    ensures Inked(img, ink[..], img.Count())
    ensures LevelSearch.Seeded(GridField(img), nearest[..], queue[..tail], img.Count())
  {
    tail := 0;
    assert queue[..tail] == [];
    for i := 0 to img.Count()
      invariant tail <= queue.Length
      invariant Inked(img, ink[..], i)
      invariant LevelSearch.Seeded(GridField(img), nearest[..], queue[..tail], i)
    {
      ink[i] := img.Ink(i);
      if ink[i] >= SOLID_INK {
        assert img.Solid(i);
        GridObeysLaws(img);
        tail := LevelSearch.Seed(GridField(img), nearest, queue, tail, i);
      }
    }
  }

  lemma {:induction false} NothingSeeded(img: Image, nearest: seq<int>)
    requires img.Valid() && |nearest| == img.Count() && forall j :: 0 <= j < |nearest| ==> nearest[j] == -1
    ensures LevelSearch.Seeded(GridField(img), nearest, [], 0)
  {
  }

  lemma {:induction false} QueueTellsWhetherSolid(img: Image, nearest: seq<int>, queue: seq<int>)
    requires img.Valid() && LevelSearch.Seeded(GridField(img), nearest, queue, img.Count())
    ensures queue != [] <==> img.HasSolid()
  {
    if queue != [] {
      assert GridField(img).source(queue[0]);
    } else {
      assert forall t :: img.Solid(t) ==> GridField(img).source(t);
    }
  }

  lemma {:induction false} SearchCanStart(img: Image, nearest: seq<int>, queue: seq<int>)
    requires img.Valid() && LevelSearch.Seeded(GridField(img), nearest, queue, img.Count()) && |queue| <= img.Count()
    ensures queue != [] <==> img.HasSolid()
    ensures queue != [] ==> LevelSearch.Search(GridField(img), nearest, queue, 0)
  {
    QueueTellsWhetherSolid(img, nearest, queue);
    if queue != [] {
      GridObeysLaws(img);
      LevelSearch.SeededStartsSearch(GridField(img), nearest, queue);
    }
  }

  // Every pixel was queued exactly once and knows a nearest solid pixel.
  ghost predicate Answered(img: Image, nearest: seq<int>, queue: seq<int>)
    requires img.Valid()
  {
    && References(img, nearest)
    && |queue| == img.Count() && forall j :: img.Pixel(j) ==> multiset(queue)[j] == 1
  }

  lemma {:induction false} AnswersAreNearest(img: Image, nearest: seq<int>, queue: seq<int>)
    requires img.Valid() && LevelSearch.Answered(GridField(img), nearest, queue)
    ensures Answered(img, nearest, queue)
  {
    var f := GridField(img);
    assert forall j :: img.Pixel(j) ==> f.Has(j) && f.nearest(j, nearest[j]) && multiset(queue)[j] == 1;
  }

  // The seeding and the search, over the arrays the program allocates.
  method Fill(img: Image, ink: array<int>, nearest: array<int>, queue: array<int>) returns (found: bool)
    requires img.Valid() && nearest != queue && ink != nearest && ink != queue
    requires ink.Length == nearest.Length == queue.Length == img.Count()
    requires LevelSearch.Seeded(GridField(img), nearest[..], [], 0)
    modifies ink, nearest, queue
    ensures found <==> img.HasSolid()
    ensures Inked(img, ink[..], img.Count())
    ensures found ==> LevelSearch.Answered(GridField(img), nearest[..], queue[..])
  {
    var tail := Seed(img, ink, nearest, queue);
    SearchCanStart(img, nearest[..], queue[..tail]);
    found := tail > 0;
    if found {
      ImageIsGrid(img);
      GridSearch.Solve(GridField(img), img.width, img.height, nearest, queue, tail);
    }
  }

  // Everything up to the dry queue. `found` is false when the program throws
  // because the file has no solid pixels.
  method FindNearest(img: Image) returns (found: bool, ink: array<int>, nearest: array<int>, queue: array<int>)
    requires img.Valid()
    ensures fresh(ink) && fresh(nearest) && fresh(queue)
    ensures found <==> img.HasSolid()
    ensures Inked(img, ink[..], img.Count())
    ensures found ==> Answered(img, nearest[..], queue[..])
  {
    ink := new int[img.Count()];
    nearest := new int[img.Count()](_ => -1);
    queue := new int[img.Count()];
    NothingSeeded(img, nearest[..]);
    found := Fill(img, ink, nearest, queue);
    if found { AnswersAreNearest(img, nearest[..], queue[..]); }
  }
}
