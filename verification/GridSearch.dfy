// The queue loop of makeTransparent (scripts/build-widget-logo.ts): the search
// of LevelSearch over the 8-neighbour graph of a row-major grid.
module GridSearch {
  import opened LevelSearch

  function Index(x: int, y: int, width: int): int { y * width + x }

  predicate InGrid(x: int, y: int, width: nat, height: nat) {
    0 <= x < width && 0 <= y < height
  }

  predicate Close(x: int, y: int, nx: int, ny: int) {
    -1 <= nx - x <= 1 && -1 <= ny - y <= 1
  }

  // Vertex i sits at (x, y), and its neighbours are the squares around it.
  ghost predicate SitsAt(f: Field, width: nat, height: nat, i: int, x: int, y: int) {
    && InGrid(x, y, width, height) && i == Index(x, y, width)
    && (forall nx, ny :: InGrid(nx, ny, width, height) && Close(x, y, nx, ny) ==>
          f.Has(Index(nx, ny, width)) && f.adjacent(i, Index(nx, ny, width)))
    && (forall j :: f.Has(j) && f.adjacent(i, j) ==>
          exists nx, ny :: InGrid(nx, ny, width, height) && Close(x, y, nx, ny) && j == Index(nx, ny, width))
  }

  function Column(i: int, width: nat): int
    requires width > 0
  {
    i % width
  }

  function Row(i: int, x: int, width: nat): int
    requires width > 0
  {
    (i - x) / width
  }

  ghost predicate IsGrid(f: Field, width: nat, height: nat) {
    && (f.count > 0 ==> width > 0)
    && forall i {:trigger Column(i, width)} :: f.Has(i) ==>
         SitsAt(f, width, height, i, Column(i, width), Row(i, Column(i, width), width))
  }

  // The squares around (x, y) that come before (dy, dx) in the nested loops.
  ghost predicate VisitedBefore(queue: seq<int>, width: nat, height: nat, x: int, y: int, dy: int, dx: int) {
    forall nx, ny ::
      InGrid(nx, ny, width, height) && Close(x, y, nx, ny) && (ny - y < dy || (ny - y == dy && nx - x < dx))
      ==> Index(nx, ny, width) in queue
  }

  lemma {:induction false} VisitedOneMore(queue: seq<int>, longer: seq<int>, width: nat, height: nat, x: int,
        y: int, dy: int, dx: int, nx: int, ny: int)
    requires VisitedBefore(queue, width, height, x, y, dy, dx) && queue <= longer
    requires nx == x + dx && ny == y + dy && (InGrid(nx, ny, width, height) ==> Index(nx, ny, width) in longer)
    ensures VisitedBefore(longer, width, height, x, y, dy, dx + 1)
  {
    assert forall k :: k in queue ==> k in longer;
  }

  lemma {:induction false} SkippedOneMore(f: Field, queue: seq<int>, width: nat, height: nat, i: int, x: int, y: int,
        dy: int, dx: int)
    requires SitsAt(f, width, height, i, x, y) && i in queue
    requires VisitedBefore(queue, width, height, x, y, dy, dx)
    requires (dx == 0 && dy == 0) || !InGrid(x + dx, y + dy, width, height)
    ensures VisitedBefore(queue, width, height, x, y, dy, dx + 1)
  {
    VisitedOneMore(queue, queue, width, height, x, y, dy, dx, x + dx, y + dy);
  }

  lemma {:induction false} SquareIsNeighbour(f: Field, width: nat, height: nat, i: int, x: int, y: int, nx: int,
        ny: int)
    requires SitsAt(f, width, height, i, x, y) && InGrid(nx, ny, width, height) && Close(x, y, nx, ny)
    ensures f.Has(Index(nx, ny, width)) && f.adjacent(i, Index(nx, ny, width))
  {
  }

  // One square around the one taken off.
  method VisitSquare(ghost f: Field, width: nat, ghost height: nat, nearest: array<int>, queue: array<int>, head: nat,
        tail0: nat, i: int, ghost x: int, ghost y: int, nx: int, ny: int) returns (tail: nat)
    requires nearest != queue && nearest.Length == queue.Length == f.count
    requires tail0 <= queue.Length && Expanding(f, nearest[..], queue[..tail0], head)
    requires queue[head] == i && SitsAt(f, width, height, i, x, y)
    requires InGrid(nx, ny, width, height) && Close(x, y, nx, ny)
    modifies nearest, queue
    ensures tail0 <= tail <= queue.Length && old(queue[..tail0]) <= queue[..tail]
    ensures Expanding(f, nearest[..], queue[..tail], head) && queue[head] == i
    ensures Index(nx, ny, width) in queue[..tail]
  {
    assert queue[..tail0][head] == i;
    SquareIsNeighbour(f, width, height, i, x, y, nx, ny);
    tail := Learn(f, nearest, queue, head, tail0, i, Index(nx, ny, width));
    assert queue[..tail][head] == i;
  }

  // The body of the inner loop: the square at (dx, dy) of the one taken off
  // learns what that one knows, unless it is outside or knows already.
  method Visit(ghost f: Field, width: nat, height: nat, nearest: array<int>, queue: array<int>, head: nat, tail0: nat,
        i: int, x: int, y: int, dx: int, dy: int) returns (tail: nat)
    requires nearest != queue && nearest.Length == queue.Length == f.count
    requires tail0 <= queue.Length && Expanding(f, nearest[..], queue[..tail0], head)
    requires queue[head] == i && SitsAt(f, width, height, i, x, y) && -1 <= dx <= 1 && -1 <= dy <= 1
    requires VisitedBefore(queue[..tail0], width, height, x, y, dy, dx)
    modifies nearest, queue
    ensures tail0 <= tail <= queue.Length && queue[head] == i
    ensures Expanding(f, nearest[..], queue[..tail], head)
    ensures VisitedBefore(queue[..tail], width, height, x, y, dy, dx + 1)
  {
    tail := tail0;
    var nx := x + dx;
    var ny := y + dy;
    var skipped := (dx == 0 && dy == 0) || nx < 0 || ny < 0 || nx >= width || ny >= height;
    ghost var q := queue[..tail0];
    assert q[head] == i;
    if skipped {
      SkippedOneMore(f, q, width, height, i, x, y, dy, dx);
    } else {
      tail := VisitSquare(f, width, height, nearest, queue, head, tail, i, x, y, nx, ny);
      VisitedOneMore(q, queue[..tail], width, height, x, y, dy, dx, nx, ny);
    }
  }

  // The inner loop, over dx.
  method ExpandRow(ghost f: Field, width: nat, height: nat, nearest: array<int>, queue: array<int>, head: nat,
        tail0: nat, i: int, x: int, y: int, dy: int) returns (tail: nat)
    requires nearest != queue && nearest.Length == queue.Length == f.count
    requires tail0 <= queue.Length && Expanding(f, nearest[..], queue[..tail0], head)
    requires queue[head] == i && SitsAt(f, width, height, i, x, y) && -1 <= dy <= 1
    requires VisitedBefore(queue[..tail0], width, height, x, y, dy, -1)
    modifies nearest, queue
    ensures tail0 <= tail <= queue.Length && queue[head] == i
    ensures Expanding(f, nearest[..], queue[..tail], head)
    ensures VisitedBefore(queue[..tail], width, height, x, y, dy + 1, -1)
  {
    tail := tail0;
    for dx := -1 to 2
      invariant tail0 <= tail <= queue.Length && queue[head] == i
      invariant Expanding(f, nearest[..], queue[..tail], head)
      invariant VisitedBefore(queue[..tail], width, height, x, y, dy, dx)
    {
      tail := Visit(f, width, height, nearest, queue, head, tail, i, x, y, dx, dy);
    }
  }

  // The nested loops over dy and dx for the square just taken off the queue.
  method Expand(ghost f: Field, width: nat, height: nat, nearest: array<int>, queue: array<int>, head: nat, tail0: nat,
        i: int, x: int, y: int) returns (tail: nat)
    requires nearest != queue && nearest.Length == queue.Length == f.count
    requires tail0 <= queue.Length && Expanding(f, nearest[..], queue[..tail0], head)
    requires queue[head] == i && SitsAt(f, width, height, i, x, y)
    modifies nearest, queue
    ensures tail0 <= tail <= queue.Length && head < tail
    ensures Search(f, nearest[..], queue[..tail], head + 1)
  {
    tail := tail0;
    for dy := -1 to 2
      invariant tail0 <= tail <= queue.Length && queue[head] == i
      invariant Expanding(f, nearest[..], queue[..tail], head)
      invariant VisitedBefore(queue[..tail], width, height, x, y, dy, -1)
    {
      tail := ExpandRow(f, width, height, nearest, queue, head, tail, i, x, y, dy);
    }
    AllNeighboursVisited(f, width, height, queue[..tail], i, x, y);
    HeadIsDone(f, nearest[..], queue[..tail], head);
  }

  lemma {:induction false} AllNeighboursVisited(f: Field, width: nat, height: nat, queue: seq<int>, i: int, x: int,
        y: int)
    requires SitsAt(f, width, height, i, x, y) && VisitedBefore(queue, width, height, x, y, 2, -1)
    ensures forall j :: f.Has(j) && f.adjacent(i, j) ==> j in queue
  {
  }

  // The queue loop, until the queue runs dry.
  method RunSearch(ghost f: Field, width: nat, height: nat, nearest: array<int>, queue: array<int>, tail0: nat)
    returns (tail: nat)
    requires nearest != queue && nearest.Length == queue.Length == f.count && IsGrid(f, width, height)
    requires tail0 <= queue.Length && Search(f, nearest[..], queue[..tail0], 0)
    modifies nearest, queue
    ensures tail <= queue.Length && Search(f, nearest[..], queue[..tail], tail)
  {
    tail := tail0;
    var head := 0;
    while head < tail
      invariant 0 <= head <= tail <= queue.Length
      invariant Search(f, nearest[..], queue[..tail], head)
      decreases queue.Length - head
    {
      var i := queue[head];
      assert f.Has(queue[..tail][head]);
      var x := Column(i, width);
      var y := Row(i, x, width);
      tail := Expand(f, width, height, nearest, queue, head, tail, i, x, y);
      head := head + 1;
    }
  }

  // The whole search: every vertex was queued once and knows a right answer.
  method Solve(ghost f: Field, width: nat, height: nat, nearest: array<int>, queue: array<int>, tail0: nat)
    requires nearest != queue && nearest.Length == queue.Length == f.count && IsGrid(f, width, height)
    requires tail0 <= queue.Length && Search(f, nearest[..], queue[..tail0], 0)
    modifies nearest, queue
    ensures Answered(f, nearest[..], queue[..])
  {
    var tail := RunSearch(f, width, height, nearest, queue, tail0);
    ghost var q := queue[..tail];
    DryQueueAnswers(f, nearest[..], q, tail);
    assert queue[..] == q;
  }
}
