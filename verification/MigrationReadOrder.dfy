// Why the ledger is read after the lock: with the lock but a snapshot taken
// before waiting for it, one file's body commits twice, although ON CONFLICT
// keeps its ledger row single.
module MigrationReadOrder {
  import opened Names
  import opened Wrappers
  import opened MigrationProtocol

  // An image with one file.
  function Image(f: Name): Directory {
    [f]
  }

  ghost predicate Reaches(w: World) {
    exists es :: Exec(ReadThenLock, Initial([]), es) == w
  }

  lemma {:induction false} ReachNext(w: World, e: Event)
    requires Reaches(w)
    ensures Reaches(Next(ReadThenLock, w, e))
  {
    var es :| Exec(ReadThenLock, Initial([]), es) == w;
    assert (es + [e])[..|es|] == es;
    assert Exec(ReadThenLock, Initial([]), es + [e]) == Next(ReadThenLock, w, e);
  }

  lemma {:induction false} OneFile(f: Name)
    requires IsMigration(f)
    ensures MigrationFiles(Image(f)) == [f]
  {
    assert Image(f)[1..] == [];
  }

  // Two migrators of the same image, on backends 0 and 1; the second has done nothing.
  function Early(f: Name, lock: Option<Backend>, txn: Txn, p0: Phase, p1: Phase): World {
    World([], [], [], lock, map[0 := txn, 1 := Active([], [])], map[0 := 0, 1 := 1],
          map[0 := Migrator(Image(f), p0), 1 := Migrator(Image(f), p1)])
  }

  // The first has committed the file; the second's transaction, and where it stands.
  function Late(f: Name, lock: Option<Backend>, txn: Txn, p1: Phase): World {
    World([f], [f], [Committed(0, Image(f))], lock, map[1 := txn], map[1 := 1],
          map[0 := Migrator(Image(f), Succeeded([f])), 1 := Migrator(Image(f), p1)])
  }

  function BothStarted(f: Name): World {
    World([], [], [], None, map[], map[], map[0 := Migrator(Image(f), Connecting), 1 := Migrator(Image(f), Connecting)])
  }

  function BothBegun(f: Name): World {
    Early(f, None, Active([], []), Begun, Begun)
  }

  function FirstPeeked(f: Name): World {
    Early(f, None, Active([], []), Peeked({}), Begun)
  }

  function BothPeeked(f: Name): World {
    Early(f, None, Active([], []), Peeked({}), Peeked({}))
  }

  function FirstLocked(f: Name): World {
    Early(f, Some(0), Active([], []), Applying({}, [f], 0, false, []), Peeked({}))
  }

  function FirstRan(f: Name): World {
    Early(f, Some(0), Active([], [f]), Applying({}, [f], 0, true, []), Peeked({}))
  }

  function FirstRecorded(f: Name): World {
    Early(f, Some(0), Active([f], [f]), Applying({}, [f], 1, false, [f]), Peeked({}))
  }

  function FirstDone(f: Name): World {
    Late(f, None, Active([], []), Peeked({}))
  }

  // The second waited with its old snapshot, so the file still looks pending.
  function SecondLocked(f: Name): World {
    Late(f, Some(1), Active([], []), Applying({}, [f], 0, false, []))
  }

  function SecondRan(f: Name): World {
    Late(f, Some(1), Active([], [f]), Applying({}, [f], 0, true, []))
  }

  function SecondRecorded(f: Name): World {
    Late(f, Some(1), Active([], [f]), Applying({}, [f], 1, false, [f]))
  }

  lemma {:induction false} AddsOne(f: Name)
    ensures [] + [f] == [f]
  {}

  function Go(w: World, e: Event): World {
    Next(ReadThenLock, w, e)
  }

  lemma {:induction false} Starting(f: Name)
    ensures Go(Go(Initial([]), Start(0, Image(f))), Start(1, Image(f))) == BothStarted(f)
  {}

  lemma {:induction false} Beginning(f: Name)
    ensures Go(Go(BothStarted(f), Begin(0, 0)), Begin(1, 1)) == BothBegun(f)
  {}

  lemma {:induction false} Peeking(f: Name)
    ensures Go(BothBegun(f), ReadLedger(0)) == FirstPeeked(f) && Go(FirstPeeked(f), ReadLedger(1)) == BothPeeked(f)
  {
    assert NamesOf([] + []) == {};
  }

  lemma {:induction false} FirstLocks(f: Name)
    requires IsMigration(f)
    ensures Go(BothPeeked(f), TakeLock(0)) == FirstLocked(f)
  {
    OneFile(f);
  }

  lemma {:induction false} FirstRunsBody(f: Name)
    ensures Go(FirstLocked(f), RunBody(0)) == FirstRan(f)
  {
    AddsOne(f);
  }

  lemma {:induction false} FirstRecords(f: Name)
    ensures Go(FirstRan(f), RecordRow(0)) == FirstRecorded(f)
  {
    AddsOne(f);
    assert TxnOf(FirstRan(f), 0) == Active([], [f]);
    assert f !in VisibleNames(FirstRan(f), 0);
  }

  lemma {:induction false} FirstEnds(f: Name)
    ensures var w := EndTxn(FirstRecorded(f), 0);
      w.lock == None && w.txns == map[1 := Active([], [])] && w.bound == map[1 := 1]
  {
  }

  lemma {:induction false} FirstCommits(f: Name)
    ensures Go(FirstRecorded(f), Commit(0, true)) == FirstDone(f)
  {
    FirstEnds(f);
    assert CanCommit(FirstRecorded(f), 0) && TxnOf(FirstRecorded(f), 0) == Active([f], [f]);
    assert Go(FirstRecorded(f), Commit(0, true)).clients == FirstDone(f).clients;
  }

  lemma {:induction false} SecondLocks(f: Name)
    requires IsMigration(f)
    ensures Go(FirstDone(f), TakeLock(1)) == SecondLocked(f)
  {
    OneFile(f);
  }

  lemma {:induction false} SecondRunsBody(f: Name)
    ensures Go(SecondLocked(f), RunBody(1)) == SecondRan(f)
  {
    AddsOne(f);
  }

  lemma {:induction false} SecondRecords(f: Name)
    ensures Go(SecondRan(f), RecordRow(1)) == SecondRecorded(f)
  {
    AddsOne(f);
    assert TxnOf(SecondRan(f), 1) == Active([], [f]);
    assert f in VisibleNames(SecondRan(f), 1);
  }

  lemma {:induction false} SecondCommits(f: Name)
    ensures var w := Go(SecondRecorded(f), Commit(1, true)); w.bodies == [f, f] && w.ledger == [f]
  {}

  lemma {:induction false} Reach(w: World, e: Event, v: World)
    requires Reaches(w) && Go(w, e) == v
    ensures Reaches(v)
  {
    ReachNext(w, e);
  }

  lemma {:induction false} Reach2(w: World, e1: Event, e2: Event, v: World)
    requires Reaches(w) && Go(Go(w, e1), e2) == v
    ensures Reaches(v)
  {
    ReachNext(w, e1);
    ReachNext(Go(w, e1), e2);
  }

  lemma {:induction false} FirstRuns(f: Name)
    requires IsMigration(f)
    ensures Reaches(FirstDone(f))
  {
    assert Exec(ReadThenLock, Initial([]), []) == Initial([]);
    Starting(f);
    Reach2(Initial([]), Start(0, Image(f)), Start(1, Image(f)), BothStarted(f));
    Beginning(f);
    Reach2(BothStarted(f), Begin(0, 0), Begin(1, 1), BothBegun(f));
    Peeking(f);
    Reach2(BothBegun(f), ReadLedger(0), ReadLedger(1), BothPeeked(f));
    FirstLocks(f);
    Reach(BothPeeked(f), TakeLock(0), FirstLocked(f));
    FirstRunsBody(f);
    FirstRecords(f);
    Reach2(FirstLocked(f), RunBody(0), RecordRow(0), FirstRecorded(f));
    FirstCommits(f);
    Reach(FirstRecorded(f), Commit(0, true), FirstDone(f));
  }

  // In the other order the at-most-once claim is false of any migration, lock and all.
  lemma {:induction false} ReadingBeforeTheLockRunsABodyTwice(f: Name)
    requires IsMigration(f)
    ensures exists w :: Reaches(w) && w.bodies == [f, f] && w.ledger == [f]
  {
    FirstRuns(f);
    SecondLocks(f);
    Reach(FirstDone(f), TakeLock(1), SecondLocked(f));
    SecondRunsBody(f);
    SecondRecords(f);
    Reach2(SecondLocked(f), RunBody(1), RecordRow(1), SecondRecorded(f));
    SecondCommits(f);
    Reach(SecondRecorded(f), Commit(1, true), Go(SecondRecorded(f), Commit(1, true)));
  }
}
