// JavaScript's Map: a map that iterates in the order its keys were inserted.
module InsertionOrder {
  import opened Collections

  function Without<K(==)>(s: seq<K>, k: K): seq<K> {
    if s == [] then [] else if s[0] == k then Without(s[1..], k) else [s[0]] + Without(s[1..], k)
  }

  predicate Sorted<K(==)>(s: seq<K>, rank: map<K, int>) {
    s == [] ||
    (s[0] in rank && (forall x :: x in s[1..] ==> x in rank && rank[s[0]] <= rank[x]) && Sorted(s[1..], rank))
  }

  lemma {:induction false} WithoutHolds<K>(s: seq<K>, k: K)
    ensures forall x :: x in Without(s, k) ==> x in s && x != k
    ensures forall x :: x in s && x != k ==> x in Without(s, k)
    ensures NoDuplicates(s) ==> NoDuplicates(Without(s, k))
    ensures NoDuplicates(s) ==> |Without(s, k)| == if k in s then |s| - 1 else |s|
  {
    if s != [] {
      var rest := s[1..];
      WithoutHolds(rest, k);
      assert s == [s[0]] + rest;
      OneMoreInFront(s[0], rest);
      OneMoreInFront(s[0], Without(rest, k));
    }
  }

  lemma {:induction false} WithoutKeepsSorted<K>(s: seq<K>, k: K, rank: map<K, int>)
    requires Sorted(s, rank)
    ensures Sorted(Without(s, k), rank)
  {
    if s != [] {
      WithoutKeepsSorted(s[1..], k, rank);
      WithoutHolds(s[1..], k);
      if s[0] != k { assert Without(s, k)[1..] == Without(s[1..], k); }
    }
  }

  lemma {:induction false} WithoutAbsent<K>(s: seq<K>, k: K)
    requires k !in s
    ensures Without(s, k) == s
  {
    if s != [] { WithoutAbsent(s[1..], k); }
  }

  lemma {:induction false} WithoutOldest<K>(s: seq<K>)
    requires s != [] && NoDuplicates(s)
    ensures Without(s, s[0]) == s[1..]
  {
    RestHasNoDuplicates(s);
    WithoutAbsent(s[1..], s[0]);
  }

  lemma {:induction false} SortedByAnother<K>(s: seq<K>, rank: map<K, int>, other: map<K, int>)
    requires Sorted(s, rank) && forall x :: x in s ==> x in rank && x in other && rank[x] == other[x]
    ensures Sorted(s, other)
  {
    if s != [] { SortedByAnother(s[1..], rank, other); }
  }

  lemma {:induction false} AppendKeepsSorted<K>(s: seq<K>, last: K, rank: map<K, int>)
    requires last in rank && Sorted(s, rank) && forall x :: x in s ==> x in rank && rank[x] <= rank[last]
    ensures Sorted(s + [last], rank)
  {
    if s != [] {
      AppendKeepsSorted(s[1..], last, rank);
      assert (s + [last])[1..] == s[1..] + [last];
    }
  }

  datatype OrderedMap<K(==), +V> = OrderedMap(order: seq<K>, entries: map<K, V>) {
    ghost predicate Valid() {
      NoDuplicates(order) && (forall k :: k in order ==> k in entries) && (forall k :: k in entries ==> k in order)
    }

    function Delete(k: K): OrderedMap<K, V> {
      OrderedMap(Without(order, k), entries - {k})
    }

    // A key that is there keeps its place.
    function Set(k: K, v: V): OrderedMap<K, V> {
      OrderedMap(if k in entries then order else order + [k], entries[k := v])
    }

    lemma {:induction false} DeleteHolds(k: K)
      requires Valid()
      ensures Delete(k).Valid()
      ensures |Delete(k).order| == if k in entries then |order| - 1 else |order|
      ensures forall x :: x in Delete(k).order ==> x in order && x != k
      ensures forall x :: x in order && x != k ==> x in Delete(k).order
    {
      WithoutHolds(order, k);
      assert Delete(k).order == Without(order, k);
    }

    // A new key goes last.
    lemma {:induction false} SetHolds(k: K, v: V)
      requires Valid() && k !in entries
      ensures Set(k, v) == OrderedMap(order + [k], entries[k := v]) && Set(k, v).Valid()
    {
      assert k !in order;
      OneMoreIsNoDuplicate(order, k);
      assert forall x :: x in order + [k] <==> x in order || x == k;
    }

    lemma {:induction false} MoveToEnd(k: K, v: V)
      requires Valid()
      ensures Delete(k).Set(k, v) == OrderedMap(Without(order, k) + [k], entries[k := v])
      ensures Delete(k).Set(k, v).Valid()
      ensures |Without(order, k)| <= |order|
    {
      DeleteHolds(k);
      Delete(k).SetHolds(k, v);
      assert (entries - {k})[k := v] == entries[k := v];
    }
  }
}
