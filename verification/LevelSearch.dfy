// A breadth-first search from many sources at once, over any graph whose
// vertices know their level: what the queue of such a search keeps.
module LevelSearch {
  import opened Collections

  // `nearest(j, s)` says that s is a right answer for j.
  datatype Field = Field(
    count: nat,
    source: int -> bool,
    level: int -> nat,
    adjacent: (int, int) -> bool,
    nearest: (int, int) -> bool)
  {
    predicate Has(j: int) { 0 <= j < count }

    ghost predicate Laws() {
      && (forall j :: source(j) ==> Has(j) && nearest(j, j))
      && (forall j :: Has(j) ==> (source(j) <==> level(j) == 0))
      && (forall i, j :: Has(i) && Has(j) && adjacent(i, j) ==> level(j) <= level(i) + 1)
      && (forall j :: Has(j) && level(j) > 0 ==> exists k :: StepsTo(j, k))
      && (forall i, j, s ::
            Has(i) && Has(j) && nearest(i, s) && adjacent(i, j) && level(j) == level(i) + 1 ==> nearest(j, s))
      && (forall i, s :: nearest(i, s) ==> s >= 0)
    }

    // k is next to j and one level nearer.
    predicate StepsTo(j: int, k: int) {
      Has(k) && adjacent(j, k) && adjacent(k, j) && level(k) + 1 == level(j)
    }
  }

  ghost predicate Queued(f: Field, queue: seq<int>) {
    && (forall a :: 0 <= a < |queue| ==> f.Has(queue[a]))
    && NoDuplicates(queue)
  }

  ghost predicate Learnt(f: Field, nearest: seq<int>, queue: seq<int>)
    requires Queued(f, queue)
  {
    && |nearest| == f.count
    && (forall j :: f.Has(j) ==> (nearest[j] >= 0 <==> j in queue))
    && (forall a :: 0 <= a < |queue| ==> f.nearest(queue[a], nearest[queue[a]]))
  }

  ghost predicate SourcesQueued(f: Field, queue: seq<int>) {
    forall j :: f.source(j) ==> j in queue
  }

  // Taken off in order of level, and never more than one level ahead.
  ghost predicate Levelled(f: Field, queue: seq<int>, level: int) {
    && (forall a, b :: 0 <= a <= b < |queue| ==> f.level(queue[a]) <= f.level(queue[b]))
    && (forall a :: 0 <= a < |queue| ==> f.level(queue[a]) <= level + 1)
  }

  // The neighbours of everything taken off are queued.
  ghost predicate Explored(f: Field, queue: seq<int>, head: nat)
    requires head <= |queue|
  {
    forall a, j :: 0 <= a < head && f.Has(j) && f.adjacent(queue[a], j) ==> j in queue
  }

  // The search with `head` vertices taken off.
  ghost predicate Search(f: Field, nearest: seq<int>, queue: seq<int>, head: nat) {
    && f.Laws()
    && Queued(f, queue) && SourcesQueued(f, queue) && Learnt(f, nearest, queue)
    && head <= |queue| <= f.count
    && Explored(f, queue, head)
    && (head < |queue| ==> Levelled(f, queue, f.level(queue[head])))
  }

  // The same while queue[head] is being expanded.
  ghost predicate Expanding(f: Field, nearest: seq<int>, queue: seq<int>, head: nat) {
    Search(f, nearest, queue, head) && head < |queue|
  }

  // Everything nearer than the vertex now taken off was taken off before it.
  lemma {:induction false} NearerIsTaken(f: Field, nearest: seq<int>, queue: seq<int>, head: nat, k: int)
    requires Expanding(f, nearest, queue, head) && f.Has(k) && f.level(k) < f.level(queue[head])
    ensures k in queue[..head]
    decreases f.level(k)
  {
    if f.level(k) > 0 {
      var nearer :| f.StepsTo(k, nearer);
      NearerIsTaken(f, nearest, queue, head, nearer);
      var a :| 0 <= a < head && queue[a] == nearer;
    }
    var p :| 0 <= p < |queue| && queue[p] == k;
    assert queue[..head][p] == k;
  }

  lemma {:induction false} TakenReaches(f: Field, queue: seq<int>, head: nat, k: int, j: int)
    requires head <= |queue| && Explored(f, queue, head)
    requires k in queue[..head] && f.Has(j) && f.adjacent(k, j)
    ensures j in queue
  {
    var a :| 0 <= a < head && queue[a] == k;
  }

  // A neighbour that is not queued yet is exactly one level further out.
  lemma {:induction false} NewNeighbourIsOneFurther(f: Field, nearest: seq<int>, queue: seq<int>, head: nat, j: int)
    requires Expanding(f, nearest, queue, head)
    requires f.Has(j) && f.adjacent(queue[head], j) && j !in queue
    ensures f.level(j) == f.level(queue[head]) + 1
  {
    if f.level(j) <= f.level(queue[head]) {
      var k :| f.StepsTo(j, k);
      NearerIsTaken(f, nearest, queue, head, k);
      TakenReaches(f, queue, head, k, j);
    }
  }

  function Below(n: nat): (r: set<int>)
    ensures |r| == n
    ensures forall x :: x in r <==> 0 <= x < n
  {
    if n == 0 then {} else Below(n - 1) + {n - 1}
  }

  function Elements(s: seq<int>): set<int> {
    set x | x in s
  }

  // A queue of distinct vertices that misses one has room for it.
  lemma {:induction false} QueueHasRoom(f: Field, queue: seq<int>, j: int)
    requires Queued(f, queue) && f.Has(j) && j !in queue
    ensures |queue| < f.count
  {
    DistinctByCount(queue);
    SubsetIsNoLarger(Elements(queue) + {j}, Below(f.count));
  }

  lemma {:induction false} AppendKeepsLearnt(f: Field, nearest: seq<int>, queue: seq<int>, j: int, s: nat)
    requires Queued(f, queue) && Learnt(f, nearest, queue)
    requires f.Has(j) && j !in queue && f.nearest(j, s)
    ensures Queued(f, queue + [j]) && Learnt(f, nearest[j := s], queue + [j])
  {
    var longer := queue + [j];
    forall x | f.Has(x) ensures x in longer <==> x in queue || x == j {
      assert x in queue ==> x in longer;
    }
  }

  lemma {:induction false} AppendKeepsLevels(f: Field, queue: seq<int>, head: nat, j: int)
    requires Queued(f, queue) && head < |queue| && f.level(j) == f.level(queue[head]) + 1
    requires Levelled(f, queue, f.level(queue[head])) && Explored(f, queue, head)
    ensures Levelled(f, queue + [j], f.level(queue[head])) && Explored(f, queue + [j], head)
  {
    assert forall x :: x in queue ==> x in queue + [j];
  }

  lemma {:induction false} VisitKeepsExpanding(f: Field, nearest: seq<int>, queue: seq<int>, head: nat, j: int)
    requires Expanding(f, nearest, queue, head)
    requires f.Has(j) && f.adjacent(queue[head], j) && j !in queue
    ensures |queue| < f.count
    ensures Expanding(f, nearest[j := nearest[queue[head]]], queue + [j], head)
  {
    QueueHasRoom(f, queue, j);
    NewNeighbourIsOneFurther(f, nearest, queue, head, j);
    AppendKeepsLearnt(f, nearest, queue, j, nearest[queue[head]]);
    AppendKeepsLevels(f, queue, head, j);
    assert forall x :: x in queue ==> x in queue + [j];
  }

  // queue[head] is done once its neighbours are queued.
  lemma {:induction false} HeadIsDone(f: Field, nearest: seq<int>, queue: seq<int>, head: nat)
    requires Expanding(f, nearest, queue, head)
    requires forall j :: f.Has(j) && f.adjacent(queue[head], j) ==> j in queue
    ensures Search(f, nearest, queue, head + 1)
  {
  }

  // The queue before the search starts: the sources below i, and nothing else.
  ghost predicate Seeded(f: Field, nearest: seq<int>, queue: seq<int>, i: int) {
    && Queued(f, queue) && Learnt(f, nearest, queue)
    && (forall a :: 0 <= a < |queue| ==> f.source(queue[a]) && queue[a] < i)
    && (forall j :: j < i && f.source(j) ==> j in queue)
  }

  lemma {:induction false} SeedOneMore(f: Field, nearest: seq<int>, queue: seq<int>, i: int)
    requires f.Laws() && Seeded(f, nearest, queue, i) && f.source(i)
    ensures |queue| < f.count && Seeded(f, nearest[i := i], queue + [i], i + 1)
  {
    QueueHasRoom(f, queue, i);
    AppendKeepsLearnt(f, nearest, queue, i, i);
    assert forall j :: j in queue ==> j in queue + [i];
  }

  lemma {:induction false} SeededStartsSearch(f: Field, nearest: seq<int>, queue: seq<int>)
    requires f.Laws() && Seeded(f, nearest, queue, f.count) && |queue| <= f.count
    ensures Search(f, nearest, queue, 0)
  {
  }

  lemma {:induction false} EveryVertexQueued(f: Field, nearest: seq<int>, queue: seq<int>, j: int)
    requires Search(f, nearest, queue, |queue|) && f.Has(j)
    ensures j in queue
    decreases f.level(j)
  {
    if f.level(j) > 0 {
      var k :| f.StepsTo(j, k);
      EveryVertexQueued(f, nearest, queue, k);
      var a :| 0 <= a < |queue| && queue[a] == k;
    }
  }

  ghost predicate Answered(f: Field, nearest: seq<int>, queue: seq<int>) {
    && |nearest| == |queue| == f.count
    && (forall j :: f.Has(j) ==> f.nearest(j, nearest[j]))
    && (forall j :: f.Has(j) ==> multiset(queue)[j] == 1)
  }

  // When the queue runs dry every vertex has been queued once and knows a
  // right answer.
  lemma {:induction false} DryQueueAnswers(f: Field, nearest: seq<int>, queue: seq<int>, head: nat)
    requires head == |queue| && Search(f, nearest, queue, head)
    ensures Answered(f, nearest, queue)
  {
    forall j | f.Has(j) ensures j in queue && f.nearest(j, nearest[j]) && multiset(queue)[j] == 1 {
      EveryVertexQueued(f, nearest, queue, j);
      var a :| 0 <= a < |queue| && queue[a] == j;
      CountOfEach(queue, j);
    }
    DistinctByCount(queue);
    assert Elements(queue) == Below(f.count);
  }

  // What vertex j learns from vertex i: nothing if it knows already, and else what i
  // knows, as j joins the queue.
  predicate Learns(near: seq<int>, queue: seq<int>, near2: seq<int>, queue2: seq<int>, i: int, j: int) {
    0 <= i < |near| && 0 <= j < |near| &&
    if near[j] >= 0 then near2 == near && queue2 == queue
    else near2 == near[j := near[i]] && queue2 == queue + [j]
  }

  // The array step of the search: j learns what queue[head] knows, once.
  method Learn(ghost f: Field, nearest: array<int>, queue: array<int>, head: nat, tail0: nat, i: int, j: int)
    returns (tail: nat)
    requires nearest != queue && nearest.Length == queue.Length == f.count
    requires tail0 <= queue.Length && Expanding(f, nearest[..], queue[..tail0], head)
    requires queue[head] == i && f.Has(j) && f.adjacent(i, j)
    modifies nearest, queue
    ensures tail0 <= tail <= queue.Length && old(queue[..tail0]) <= queue[..tail]
    ensures Expanding(f, nearest[..], queue[..tail], head)
    ensures j in queue[..tail]
    ensures Learns(old(nearest[..]), old(queue[..tail0]), nearest[..], queue[..tail], i, j)
  {
    tail := tail0;
    if nearest[j] >= 0 {
      return;
    }
    ghost var near, q := nearest[..], queue[..tail];
    assert q[head] == i;
    VisitKeepsExpanding(f, near, q, head, j);
    nearest[j] := nearest[i];
    queue[tail] := j;
    tail := tail + 1;
    assert nearest[..] == near[j := near[i]];
    assert queue[..tail] == q + [j];
  }

  method Seed(ghost f: Field, nearest: array<int>, queue: array<int>, tail0: nat, i: int) returns (tail: nat)
    requires nearest != queue && nearest.Length == queue.Length == f.count
    requires tail0 <= queue.Length && Seeded(f, nearest[..], queue[..tail0], i)
    requires f.Laws() && f.source(i)
    modifies nearest, queue
    ensures tail0 < tail <= queue.Length
    ensures Seeded(f, nearest[..], queue[..tail], i + 1)
  {
    ghost var near, q := nearest[..], queue[..tail0];
    SeedOneMore(f, near, q, i);
    nearest[i] := i;
    queue[tail0] := i;
    tail := tail0 + 1;
    assert nearest[..] == near[i := i];
    assert queue[..tail] == q + [i];
  }
}
