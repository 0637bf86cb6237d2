// Sequences without repetition, and their sizes.
module Collections {
  predicate NoDuplicates<T(==)>(s: seq<T>) {
    forall i, j :: 0 <= i < j < |s| ==> s[i] != s[j]
  }

  lemma {:induction false} SubsetIsNoLarger<T>(few: set<T>, many: set<T>)
    requires few <= many
    ensures |few| <= |many|
  {
    assert many == few + (many - few);
  }

  lemma {:induction false} OneMoreElement<T>(s: seq<T>, x: T)
    ensures (set y | y in s + [x]) == (set y | y in s) + {x}
  {
  }

  lemma {:induction false} OneMoreIsNoDuplicate<T>(s: seq<T>, x: T)
    ensures NoDuplicates(s + [x]) <==> NoDuplicates(s) && x !in s
  {
    var longer := s + [x];
    assert forall i :: 0 <= i < |s| ==> longer[i] == s[i];
    if NoDuplicates(longer) {
      assert forall i :: 0 <= i < |s| ==> s[i] == longer[i] != longer[|s|];
    }
  }

  lemma {:induction false} OneMoreInFront<T>(x: T, s: seq<T>)
    ensures NoDuplicates([x] + s) <==> NoDuplicates(s) && x !in s
  {
    var longer := [x] + s;
    if NoDuplicates(longer) {
      forall i, j | 0 <= i < j < |s| ensures s[i] != s[j] {
        assert longer[i + 1] != longer[j + 1];
      }
      forall i | 0 <= i < |s| ensures x != s[i] {
        assert longer[0] != longer[i + 1];
      }
    }
    if NoDuplicates(s) && x !in s {
      forall i, j | 0 <= i < j < |longer| ensures longer[i] != longer[j] {
        assert longer[j] == s[j - 1];
      }
    }
  }

  lemma {:induction false} RestHasNoDuplicates<T>(s: seq<T>)
    requires NoDuplicates(s) && s != []
    ensures NoDuplicates(s[1..]) && s[0] !in s[1..]
  {
    assert s == [s[0]] + s[1..];
    OneMoreInFront(s[0], s[1..]);
  }

  // The elements are as many as the places exactly when none repeats.
  lemma {:induction false} DistinctByCount<T>(s: seq<T>)
    ensures |set x | x in s| <= |s|
    ensures |set x | x in s| == |s| <==> NoDuplicates(s)
  {
    if s != [] {
      var front, last := s[..|s| - 1], s[|s| - 1];
      DistinctByCount(front);
      assert s == front + [last];
      OneMoreElement(front, last);
      OneMoreIsNoDuplicate(front, last);
    }
  }

  lemma {:induction false} CountOfEach<T>(s: seq<T>, x: T)
    requires NoDuplicates(s)
    ensures multiset(s)[x] == if x in s then 1 else 0
  {
    if s != [] {
      CountOfEach(s[..|s| - 1], x);
      assert s == s[..|s| - 1] + [s[|s| - 1]];
    }
  }
}
