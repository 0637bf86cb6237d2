// The order in which Array.prototype.sort puts file names, and the sorted,
// filtered directory listing that a migration run works through.
module Names {
  import opened Collections

  type Name = string

  predicate Less(a: Name, b: Name) {
    if b == [] then false
    else if a == [] then true
    else a[0] < b[0] || (a[0] == b[0] && Less(a[1..], b[1..]))
  }

  lemma {:induction false} LessIsTotal(a: Name, b: Name)
    ensures a != b ==> Less(a, b) || Less(b, a)
  {
    if a != [] && b != [] && a[0] == b[0] {
      LessIsTotal(a[1..], b[1..]);
      assert a == [a[0]] + a[1..] && b == [b[0]] + b[1..];
    }
  }

  lemma {:induction false} LessIsTransitive(a: Name, b: Name, c: Name)
    requires Less(a, b) && Less(b, c)
    ensures Less(a, c)
  {
    if a != [] && a[0] == b[0] && b[0] == c[0] {
      LessIsTransitive(a[1..], b[1..], c[1..]);
    }
  }

  // The two names agree as far as k, where a ends or has the smaller character code.
  predicate PartAt(a: Name, b: Name, k: nat) {
    k <= |a| && k < |b| && a[..k] == b[..k] && (k == |a| || a[k] as int < b[k] as int)
  }

  // Array.prototype.sort: the first place where they differ decides.
  ghost predicate ComesFirst(a: Name, b: Name) {
    exists k: nat :: PartAt(a, b, k)
  }

  lemma {:induction false} LessParts(a: Name, b: Name) returns (k: nat)
    requires Less(a, b)
    ensures PartAt(a, b, k)
  {
    k := 0;
    if a != [] && a[0] == b[0] {
      var rest := LessParts(a[1..], b[1..]);
      k := rest + 1;
      assert a[..k] == [a[0]] + a[1..][..rest] && b[..k] == [b[0]] + b[1..][..rest];
    }
  }

  lemma {:induction false} PartingIsLess(a: Name, b: Name, k: nat)
    requires PartAt(a, b, k)
    ensures Less(a, b)
  {
    if k > 0 {
      assert a[0] == a[..k][0] == b[..k][0] == b[0];
      assert a[1..][..k - 1] == a[..k][1..] && b[1..][..k - 1] == b[..k][1..];
      PartingIsLess(a[1..], b[1..], k - 1);
    }
  }

  lemma {:induction false} LessIsCodeOrder(a: Name, b: Name)
    ensures Less(a, b) <==> ComesFirst(a, b)
  {
    if Less(a, b) {
      var k := LessParts(a, b);
    } else {
      forall k: nat ensures !PartAt(a, b, k) {
        if PartAt(a, b, k) { PartingIsLess(a, b, k); }
      }
    }
  }

  predicate Ascending(s: seq<Name>) {
    forall i, j :: 0 <= i < j < |s| ==> Less(s[i], s[j])
  }

  // A directory never lists one name twice.
  type Directory = s: seq<Name> | NoDuplicates(s) witness []

  predicate IsMigration(name: Name) {
    |name| >= 4 && name[|name| - 4..] == ".sql"
  }

  function Insert(x: Name, s: seq<Name>): (r: seq<Name>)
    requires Ascending(s) && x !in s
    ensures Ascending(r)
    ensures forall y :: y in r <==> y == x || y in s
  {
    if s == [] then [x]
    else if Less(x, s[0]) then
      assert forall j :: 0 <= j < |s| ==> Less(x, s[j]) by {
        forall j | 0 <= j < |s| ensures Less(x, s[j]) {
          if j > 0 { LessIsTransitive(x, s[0], s[j]); }
        }
      }
      [x] + s
    else
      LessIsTotal(x, s[0]);
      var rest := Insert(x, s[1..]);
      assert forall y :: y in rest ==> Less(s[0], y);
      assert s == [s[0]] + s[1..];
      [s[0]] + rest
  }

  // readdir(...).filter(file => file.endsWith('.sql')).sort()
  function MigrationFiles(listing: Directory): (r: seq<Name>)
    ensures Ascending(r)
    ensures forall y :: y in r <==> y in listing && IsMigration(y)
  {
    if listing == [] then []
    else
      assert listing == [listing[0]] + listing[1..];
      var rest := MigrationFiles(listing[1..]);
      if IsMigration(listing[0]) then Insert(listing[0], rest) else rest
  }

  ghost predicate InCodeOrder(s: seq<Name>) {
    forall i, j :: 0 <= i < j < |s| ==> ComesFirst(s[i], s[j])
  }

  lemma {:induction false} AscendingIsCodeOrder(s: seq<Name>)
    ensures Ascending(s) <==> InCodeOrder(s)
  {
    forall i, j | 0 <= i < j < |s| ensures Less(s[i], s[j]) <==> ComesFirst(s[i], s[j]) {
      LessIsCodeOrder(s[i], s[j]);
    }
  }

  lemma {:induction false} MigrationsEndInSql(name: Name)
    ensures IsMigration(name) <==> exists stem: Name :: name == stem + ".sql"
  {
    if IsMigration(name) {
      assert name == name[..|name| - 4] + ".sql";
    }
    forall stem: Name | name == stem + ".sql" ensures IsMigration(name) {
      assert name[|stem|..] == ".sql";
    }
  }

  lemma {:induction false} AscendingHasNoDuplicates(s: seq<Name>)
    requires Ascending(s)
    ensures NoDuplicates(s)
  {
    forall i, j | 0 <= i < j < |s| ensures s[i] != s[j] {
      LessIsIrreflexive(s[i]);
    }
  }

  lemma {:induction false} LessIsIrreflexive(a: Name)
    ensures !Less(a, a)
  {
    if a != [] { LessIsIrreflexive(a[1..]); }
  }
}
