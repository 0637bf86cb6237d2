// Safety of the migration protocol over every run: the committed state is the
// one that the committed runs would leave if each had run alone, in commit order.
module MigrationSafety {
  import opened Collections
  import opened Names
  import opened Wrappers
  import opened MigrationProtocol

  function Pending(files: seq<Name>, done: set<Name>): seq<Name> {
    if files == [] then []
    else
      var before, last := Pending(files[..|files| - 1], done), files[|files| - 1];
      if last in done then before else before + [last]
  }

  lemma {:induction false} PendingAre(files: seq<Name>, done: set<Name>)
    ensures forall x :: x in Pending(files, done) <==> x in files && x !in done
  {
    if files != [] {
      PendingAre(files[..|files| - 1], done);
      assert files == files[..|files| - 1] + [files[|files| - 1]];
    }
  }

  lemma {:induction false} PendingAscend(files: seq<Name>, done: set<Name>)
    requires Ascending(files)
    ensures Ascending(Pending(files, done))
  {
    if files != [] {
      var before, last := files[..|files| - 1], files[|files| - 1];
      PendingAscend(before, done);
      PendingAre(before, done);
      assert forall x :: x in before ==> Less(x, last);
    }
  }

  // Exactly the files of the directory that are named in .sql and not in the ledger,
  // in the order of their character codes.
  ghost predicate ArePending(ledger: seq<Name>, listing: Directory, files: seq<Name>) {
    && InCodeOrder(files)
    && (forall f :: f in files <==> f in listing && f !in ledger && exists stem: Name :: f == stem + ".sql")
  }

  lemma {:induction false} PendingArePending(ledger: seq<Name>, listing: Directory)
    ensures ArePending(ledger, listing, Pending(MigrationFiles(listing), NamesOf(ledger)))
  {
    var files := Pending(MigrationFiles(listing), NamesOf(ledger));
    PendingAscend(MigrationFiles(listing), NamesOf(ledger));
    AscendingIsCodeOrder(files);
    PendingAre(MigrationFiles(listing), NamesOf(ledger));
    forall f ensures f in files <==> f in listing && f !in ledger && exists stem: Name :: f == stem + ".sql" {
      MigrationsEndInSql(f);
    }
  }

  function MigrateAlone(ledger: seq<Name>, listing: Directory): seq<Name> {
    ledger + Pending(MigrationFiles(listing), NamesOf(ledger))
  }

  function Serial(ledger: seq<Name>, runs: seq<Committed>): seq<Name> {
    if runs == [] then ledger
    else MigrateAlone(Serial(ledger, runs[..|runs| - 1]), runs[|runs| - 1].listing)
  }

  ghost predicate ServerOk(w: World) {
    && (w.lock.Some? ==> w.lock.value in w.txns && w.txns[w.lock.value].Active?)
    && (forall c :: c in w.bound ==> c in w.clients && w.bound[c] in w.txns)
    && (forall c, d :: c in w.bound && d in w.bound && w.bound[c] == w.bound[d] ==> c == d)
  }

  predicate HoldsLock(w: World, c: Client) {
    c in w.bound && w.lock == Some(w.bound[c])
  }

  // The files passed so far that the snapshot did not name.
  function PendingBefore(p: Phase): seq<Name>
    requires p.Applying? && p.next <= |p.files|
  {
    Pending(p.files[..p.next], p.executed)
  }

  // The snapshot is the committed ledger and the uncommitted work is exactly the
  // pending files up to the current one.
  ghost predicate WorkOk(ledger: seq<Name>, listing: Directory, p: Phase, t: Txn)
    requires p.Applying? && t.Active?
  {
    && p.executed == NamesOf(ledger)
    && p.files == MigrationFiles(listing)
    && p.next <= |p.files|
    && p.applied == PendingBefore(p) && t.rows == p.applied
    && (p.bodyDone ==> p.next < |p.files| && p.files[p.next] !in p.executed)
    && t.bodies == if p.bodyDone then p.applied + [p.files[p.next]] else p.applied
  }

  ghost predicate ApplyingOk(w: World, c: Client)
    requires InTxn(w, c) && w.clients[c].phase.Applying?
  {
    HoldsLock(w, c) && WorkOk(w.ledger, w.clients[c].listing, w.clients[c].phase, TxnOf(w, c))
  }

  ghost predicate OpenOk(w: World, c: Client)
    requires InTxn(w, c)
  {
    var p := w.clients[c].phase;
    && !p.Peeked?
    && (p.Begun? || p.Locked? ==> TxnOf(w, c) == Active([], []))
    && (p.Locked? ==> HoldsLock(w, c))
    && (p.Applying? ==> ApplyingOk(w, c))
  }

  ghost predicate HistoryOk(initial: seq<Name>, ledger: seq<Name>, bodies: seq<Name>, commits: seq<Committed>) {
    && NoDuplicates(ledger)
    && ledger == initial + bodies
    && ledger == Serial(initial, commits)
  }

  ghost predicate CommittersOk(w: World) {
    && (forall i, j :: 0 <= i < j < |w.commits| ==> w.commits[i].client != w.commits[j].client)
    && (forall i :: 0 <= i < |w.commits| ==>
          w.commits[i].client in w.clients && w.commits[i].listing == w.clients[w.commits[i].client].listing)
  }

  ghost predicate CommitsOk(initial: seq<Name>, w: World) {
    HistoryOk(initial, w.ledger, w.bodies, w.commits) && CommittersOk(w)
  }

  ghost predicate CommittedAs(initial: seq<Name>, w: World, c: Client, report: seq<Name>, i: int) {
    && 0 <= i < |w.commits|
    && w.commits[i].client == c
    && report == Pending(MigrationFiles(w.commits[i].listing), NamesOf(Serial(initial, w.commits[..i])))
  }

  predicate HasCommitted(w: World, c: Client) {
    exists i :: 0 <= i < |w.commits| && w.commits[i].client == c
  }

  predicate ReplyLost(p: Phase) {
    (p.RollingBack? && p.cause.CommitReplyLost?) || (p.Failed? && p.reason.CommitReplyLost?)
  }

  // What a client's own outcome says about the committed state.
  ghost predicate OutcomeOk(initial: seq<Name>, w: World, c: Client)
    requires c in w.clients
  {
    var p := w.clients[c].phase;
    && (p.Succeeded? ==> exists i :: CommittedAs(initial, w, c, p.report, i))
    && (HasCommitted(w, c) ==> p.Succeeded? || ReplyLost(p) || p.Crashed?)
    && (ReplyLost(p) ==> HasCommitted(w, c))
  }

  ghost predicate Inv(initial: seq<Name>, w: World) {
    && ServerOk(w)
    && CommitsOk(initial, w)
    && (forall c :: InTxn(w, c) ==> OpenOk(w, c))
    && (forall c :: c in w.clients ==> OutcomeOk(initial, w, c))
  }

  predicate EndsTxn(e: Event) {
    e.Commit? || e.CommitFails? || e.Rollback? || e.ServerEnds?
  }

  lemma {:induction false} EndKeepsServer(w: World, b: Backend)
    requires ServerOk(w)
    ensures ServerOk(EndTxn(w, b))
  {
  }

  lemma {:induction false} EndingKeepsServer(w: World, e: Event)
    requires ServerOk(w) && EndsTxn(e)
    ensures ServerOk(Next(LockThenRead, w, e))
  {
    match e
    case Commit(c, _) => if CanCommit(w, c) { EndKeepsServer(w, w.bound[c]); }
    case CommitFails(c) => if CanCommit(w, c) { EndKeepsServer(w, w.bound[c]); }
    case Rollback(c) => if c in w.bound { EndKeepsServer(w, w.bound[c]); }
    case ServerEnds(b) => EndKeepsServer(w, b);
  }

  lemma {:induction false} OtherKeepsServer(w: World, e: Event)
    requires ServerOk(w) && !EndsTxn(e)
    ensures ServerOk(Next(LockThenRead, w, e))
  {
  }

  lemma {:induction false} StepKeepsServer(w: World, e: Event)
    requires ServerOk(w)
    ensures ServerOk(Next(LockThenRead, w, e))
  {
    if EndsTxn(e) { EndingKeepsServer(w, e); } else { OtherKeepsServer(w, e); }
  }

  // One more file considered: skipped when it is in the ledger, else pending.
  lemma {:induction false} PendingStep(files: seq<Name>, next: nat, done: set<Name>)
    requires next < |files|
    ensures Pending(files[..next + 1], done)
         == if files[next] in done then Pending(files[..next], done) else Pending(files[..next], done) + [files[next]]
  {
    assert files[..next + 1][..next] == files[..next];
  }

  lemma {:induction false} NoDuplicatesInOrder(files: seq<Name>, next: nat)
    requires next < |files| && Ascending(files)
    ensures files[next] !in files[..next]
  {
    AscendingHasNoDuplicates(files);
  }

  // The client a step belongs to; the server's own step belongs to nobody.
  predicate By(e: Event, c: Client) {
    !e.ServerEnds? && e.c == c
  }

  lemma {:induction false} OthersKeepClient(w: World, e: Event, c: Client)
    requires !By(e, c)
    ensures var v := Next(LockThenRead, w, e);
      && (c in w.clients ==> c in v.clients && v.clients[c] == w.clients[c])
      && (c in v.clients ==> c in w.clients)
  {
  }

  ghost predicate KeepsTxn(w: World, v: World, c: Client) {
    InTxn(v, c) ==> InTxn(w, c) && TxnOf(v, c) == TxnOf(w, c) && v.bound[c] == w.bound[c]
  }

  lemma {:induction false} OthersEndKeepsTxn(w: World, e: Event, c: Client)
    requires ServerOk(w) && !By(e, c) && EndsTxn(e)
    ensures KeepsTxn(w, Next(LockThenRead, w, e), c)
  {
  }

  lemma {:induction false} OthersKeepTxn(w: World, e: Event, c: Client)
    requires ServerOk(w) && !By(e, c)
    ensures KeepsTxn(w, Next(LockThenRead, w, e), c)
  {
    if EndsTxn(e) { OthersEndKeepsTxn(w, e, c); }
  }

  lemma {:induction false} OthersKeepLock(w: World, e: Event, c: Client)
    requires ServerOk(w) && !By(e, c) && InTxn(w, c) && HoldsLock(w, c)
    requires forall d :: InTxn(w, d) ==> OpenOk(w, d)
    ensures var v := Next(LockThenRead, w, e);
      InTxn(v, c) ==> HoldsLock(v, c) && v.ledger == w.ledger
  {
  }

  // A step of someone else takes a client out of its transaction at most, and
  // never takes its lock while the transaction is open.
  lemma {:induction false} OthersLeaveAlone(w: World, e: Event, c: Client)
    requires ServerOk(w) && !By(e, c)
    requires forall d :: InTxn(w, d) ==> OpenOk(w, d)
    ensures var v := Next(LockThenRead, w, e);
      && (c in w.clients ==> c in v.clients && v.clients[c] == w.clients[c])
      && (InTxn(v, c) ==> InTxn(w, c) && TxnOf(v, c) == TxnOf(w, c) && v.bound[c] == w.bound[c])
      && (InTxn(v, c) && HoldsLock(w, c) ==> HoldsLock(v, c) && v.ledger == w.ledger)
      && (c in v.clients ==> c in w.clients)
  {
    OthersKeepClient(w, e, c);
    OthersKeepTxn(w, e, c);
    if InTxn(w, c) && HoldsLock(w, c) { OthersKeepLock(w, e, c); }
  }

  lemma {:induction false} SkipKeepsWork(ledger: seq<Name>, listing: Directory, p: Phase, t: Txn)
    requires p.Applying? && t.Active? && WorkOk(ledger, listing, p, t)
    requires !p.bodyDone && p.next < |p.files| && p.files[p.next] in p.executed
    ensures WorkOk(ledger, listing, p.(next := p.next + 1), t)
  {
    PendingOneFurther(p, p.(next := p.next + 1));
  }

  lemma {:induction false} SkipKeepsOpen(w: World, c: Client)
    requires ServerOk(w) && InTxn(w, c) && OpenOk(w, c)
    ensures InTxn(DoSkip(w, c), c) && OpenOk(DoSkip(w, c), c)
  {
    if AtFile(w, c) {
      var p := w.clients[c].phase;
      if !p.bodyDone && p.files[p.next] in p.executed {
        SkipKeepsWork(w.ledger, w.clients[c].listing, p, TxnOf(w, c));
      }
    }
  }

  lemma {:induction false} RunBodyKeepsOpen(w: World, c: Client)
    requires ServerOk(w) && InTxn(w, c) && OpenOk(w, c)
    ensures InTxn(DoRunBody(w, c), c) && OpenOk(DoRunBody(w, c), c)
  {
  }

  lemma {:induction false} FileIsNotRecorded(ledger: seq<Name>, listing: Directory, p: Phase, t: Txn)
    requires p.Applying? && t.Active? && WorkOk(ledger, listing, p, t) && p.bodyDone
    ensures p.files[p.next] !in NamesOf(ledger + t.rows)
  {
    NoDuplicatesInOrder(p.files, p.next);
    PendingAre(p.files[..p.next], p.executed);
  }

  lemma {:induction false} PendingOneFurther(p: Phase, q: Phase)
    requires p.Applying? && p.next < |p.files| && q.Applying? && q.next == p.next + 1
    requires q.files == p.files && q.executed == p.executed
    ensures PendingBefore(q)
         == if p.files[p.next] in p.executed then PendingBefore(p) else PendingBefore(p) + [p.files[p.next]]
  {
    PendingStep(p.files, p.next, p.executed);
  }

  lemma {:induction false} RecordRowKeepsWork(ledger: seq<Name>, listing: Directory, p: Phase, t: Txn)
    requires p.Applying? && t.Active? && WorkOk(ledger, listing, p, t) && p.bodyDone
    ensures var file := p.files[p.next];
      WorkOk(ledger, listing, p.(next := p.next + 1, bodyDone := false, applied := p.applied + [file]),
             t.(rows := t.rows + [file]))
  {
    var file := p.files[p.next];
    PendingOneFurther(p, p.(next := p.next + 1, bodyDone := false, applied := p.applied + [file]));
  }

  lemma {:induction false} RecordRowKeepsApplying(w: World, c: Client)
    requires InTxn(w, c) && AtFile(w, c) && ApplyingOk(w, c) && w.clients[c].phase.bodyDone
    ensures InTxn(DoRecordRow(w, c), c) && DoRecordRow(w, c).clients[c].phase.Applying?
    ensures ApplyingOk(DoRecordRow(w, c), c)
  {
    FileIsNotRecorded(w.ledger, w.clients[c].listing, w.clients[c].phase, TxnOf(w, c));
    RecordRowKeepsWork(w.ledger, w.clients[c].listing, w.clients[c].phase, TxnOf(w, c));
  }

  lemma {:induction false} RecordRowKeepsOpen(w: World, c: Client)
    requires ServerOk(w) && InTxn(w, c) && OpenOk(w, c)
    ensures InTxn(DoRecordRow(w, c), c) && OpenOk(DoRecordRow(w, c), c)
  {
    if AtFile(w, c) && w.clients[c].phase.bodyDone { RecordRowKeepsApplying(w, c); }
  }

  lemma {:induction false} ReadKeepsOpen(w: World, c: Client)
    requires ServerOk(w) && InTxn(w, c) && OpenOk(w, c)
    ensures InTxn(DoReadLedger(LockThenRead, w, c), c) && OpenOk(DoReadLedger(LockThenRead, w, c), c)
  {
    if w.clients[c].phase.Locked? {
      assert w.ledger + TxnOf(w, c).rows == w.ledger;
    }
  }

  lemma {:induction false} OwnStepKeepsOpen(w: World, e: Event, c: Client)
    requires ServerOk(w) && By(e, c) && !e.Commit?
    requires InTxn(w, c) ==> OpenOk(w, c)
    requires InTxn(Next(LockThenRead, w, e), c)
    ensures OpenOk(Next(LockThenRead, w, e), c)
  {
    match e
    case Skip(_) => SkipKeepsOpen(w, c);
    case RunBody(_) => RunBodyKeepsOpen(w, c);
    case RecordRow(_) => RecordRowKeepsOpen(w, c);
    case ReadLedger(_) => if InTxn(w, c) { ReadKeepsOpen(w, c); }
    case _ =>
  }

  lemma {:induction false} StepKeepsOpen(w: World, e: Event, c: Client)
    requires ServerOk(w)
    requires forall d :: InTxn(w, d) ==> OpenOk(w, d)
    requires InTxn(Next(LockThenRead, w, e), c)
    ensures OpenOk(Next(LockThenRead, w, e), c)
  {
    if By(e, c) {
      if !e.Commit? { OwnStepKeepsOpen(w, e, c); }
    } else {
      OthersLeaveAlone(w, e, c);
      assert OpenOk(w, c);
    }
  }

  // An ending stays what it was, but for a crash that follows it.
  predicate StaysEnded(p: Phase, q: Phase) {
    && (p.Succeeded? || p.Crashed? ==> q.Succeeded? || q.Crashed?) && (q.Succeeded? ==> q == p)
    && (ReplyLost(p) ==> ReplyLost(q) || q.Crashed?) && (ReplyLost(q) ==> ReplyLost(p))
  }

  // A step of its own, COMMIT apart, leaves a client that ended as it ended.
  lemma {:induction false} OwnStepKeepsEnd(w: World, e: Event, c: Client)
    requires By(e, c) && !e.Commit? && c in Next(LockThenRead, w, e).clients
    ensures var v := Next(LockThenRead, w, e);
      var q := v.clients[c].phase;
      && v.commits == w.commits
      && (c in w.clients ==> StaysEnded(w.clients[c].phase, q))
      && (c !in w.clients ==> !q.Succeeded? && !ReplyLost(q))
  {
  }

  lemma {:induction false} OwnStepKeepsOutcome(initial: seq<Name>, w: World, e: Event, c: Client)
    requires ServerOk(w) && CommitsOk(initial, w)
    requires By(e, c) && !e.Commit?
    requires c in w.clients ==> OutcomeOk(initial, w, c)
    requires c in Next(LockThenRead, w, e).clients
    ensures OutcomeOk(initial, Next(LockThenRead, w, e), c)
  {
    var v := Next(LockThenRead, w, e);
    OwnStepKeepsEnd(w, e, c);
    SameCommits(initial, w, v, c);
  }

  // With no new commit of its own, a client that ended as it had ended is as it was.
  lemma {:induction false} SameCommits(initial: seq<Name>, w: World, v: World, c: Client)
    requires CommittersOk(w) && c in v.clients && (c in w.clients ==> OutcomeOk(initial, w, c))
    requires w.commits <= v.commits && forall i :: |w.commits| <= i < |v.commits| ==> v.commits[i].client != c
    requires c in w.clients ==> StaysEnded(w.clients[c].phase, v.clients[c].phase)
    requires c !in w.clients ==> !v.clients[c].phase.Succeeded? && !ReplyLost(v.clients[c].phase)
    ensures OutcomeOk(initial, v, c)
  {
    if HasCommitted(v, c) {
      var i :| 0 <= i < |v.commits| && v.commits[i].client == c;
      assert w.commits[i].client == c;
    }
    if c in w.clients && HasCommitted(w, c) {
      var i :| 0 <= i < |w.commits| && w.commits[i].client == c;
      assert v.commits[i].client == c;
    }
    if v.clients[c].phase.Succeeded? {
      var i :| CommittedAs(initial, w, c, w.clients[c].phase.report, i);
      assert v.commits[..i] == w.commits[..i];
      assert CommittedAs(initial, v, c, w.clients[c].phase.report, i);
    }
  }

  lemma {:induction false} OthersCommitTheirs(w: World, e: Event, c: Client)
    requires !By(e, c)
    ensures var v := Next(LockThenRead, w, e);
      w.commits <= v.commits && forall i :: |w.commits| <= i < |v.commits| ==> v.commits[i].client != c
  {
  }

  lemma {:induction false} OthersKeepOutcome(initial: seq<Name>, w: World, e: Event, c: Client)
    requires CommittersOk(w) && !By(e, c) && c in w.clients && OutcomeOk(initial, w, c)
    ensures c in Next(LockThenRead, w, e).clients && OutcomeOk(initial, Next(LockThenRead, w, e), c)
  {
    OthersKeepClient(w, e, c);
    OthersCommitTheirs(w, e, c);
    SameCommits(initial, w, Next(LockThenRead, w, e), c);
  }

  lemma {:induction false} SerialAppends(ledger: seq<Name>, runs: seq<Committed>, run: Committed)
    ensures Serial(ledger, runs + [run]) == MigrateAlone(Serial(ledger, runs), run.listing)
  {
    assert (runs + [run])[..|runs|] == runs;
  }

  lemma {:induction false} MigrateAloneKeepsDistinct(ledger: seq<Name>, listing: Directory)
    requires NoDuplicates(ledger)
    ensures NoDuplicates(MigrateAlone(ledger, listing))
  {
    var p := Pending(MigrationFiles(listing), NamesOf(ledger));
    PendingAscend(MigrationFiles(listing), NamesOf(ledger));
    PendingAre(MigrationFiles(listing), NamesOf(ledger));
    AscendingHasNoDuplicates(p);
    forall i, j | 0 <= i < j < |ledger + p| ensures (ledger + p)[i] != (ledger + p)[j] {
      if i < |ledger| <= j { assert p[j - |ledger|] in p && ledger[i] in ledger; }
    }
  }

  // The work a committing transaction adds is what its image had pending.
  lemma {:induction false} CommitAddsPending(w: World, c: Client)
    requires InTxn(w, c) && OpenOk(w, c) && CanCommit(w, c)
    ensures var listing := w.clients[c].listing;
      && TxnOf(w, c).rows == TxnOf(w, c).bodies == w.clients[c].phase.applied
      && TxnOf(w, c).rows == Pending(MigrationFiles(listing), NamesOf(w.ledger))
      && w.ledger + TxnOf(w, c).rows == MigrateAlone(w.ledger, listing)
  {
    var p := w.clients[c].phase;
    assert p.files[..p.next] == p.files;
  }

  // A commit by the lock holder is one serial run appended.
  lemma {:induction false} CommitKeepsHistory(initial: seq<Name>, ledger: seq<Name>, bodies: seq<Name>,
        commits: seq<Committed>, run: Committed, rows: seq<Name>)
    requires HistoryOk(initial, ledger, bodies, commits)
    requires ledger + rows == MigrateAlone(ledger, run.listing)
    ensures HistoryOk(initial, ledger + rows, bodies + rows, commits + [run])
  {
    SerialAppends(initial, commits, run);
    MigrateAloneKeepsDistinct(ledger, run.listing);
    assert initial + (bodies + rows) == (initial + bodies) + rows;
  }

  lemma {:induction false} CommitKeepsCommitters(initial: seq<Name>, w: World, c: Client, replyArrives: bool)
    requires CommittersOk(w) && CanCommit(w, c) && OutcomeOk(initial, w, c)
    ensures CommittersOk(DoCommit(w, c, replyArrives))
  {
  }

  lemma {:induction false} OtherStepsKeepHistory(w: World, e: Event)
    requires e.Commit? ==> !CanCommit(w, e.c)
    ensures var v := Next(LockThenRead, w, e);
      v.ledger == w.ledger && v.bodies == w.bodies && v.commits == w.commits
  {
  }

  lemma {:induction false} StepsKeepListings(w: World, e: Event)
    ensures forall c :: c in w.clients ==>
      c in Next(LockThenRead, w, e).clients && Next(LockThenRead, w, e).clients[c].listing == w.clients[c].listing
  {
  }

  lemma {:induction false} CommitKeepsOutcome(initial: seq<Name>, w: World, c: Client, replyArrives: bool)
    requires CommitsOk(initial, w) && InTxn(w, c) && OpenOk(w, c) && CanCommit(w, c)
    ensures OutcomeOk(initial, DoCommit(w, c, replyArrives), c)
  {
    var v := DoCommit(w, c, replyArrives);
    CommitAddsPending(w, c);
    assert v.commits[..|w.commits|] == w.commits;
    assert v.commits[|w.commits|].client == c;
    assert replyArrives ==> CommittedAs(initial, v, c, w.clients[c].phase.applied, |w.commits|);
  }

  lemma {:induction false} StepKeepsCommits(initial: seq<Name>, w: World, e: Event)
    requires Inv(initial, w)
    ensures CommitsOk(initial, Next(LockThenRead, w, e))
  {
    if e.Commit? && CanCommit(w, e.c) {
      assert OpenOk(w, e.c) && OutcomeOk(initial, w, e.c);
      CommitAddsPending(w, e.c);
      CommitKeepsHistory(
        initial, w.ledger, w.bodies, w.commits, Committed(e.c, w.clients[e.c].listing), TxnOf(w, e.c).rows);
      CommitKeepsCommitters(initial, w, e.c, e.replyArrives);
    } else {
      OtherStepsKeepHistory(w, e);
      StepsKeepListings(w, e);
    }
  }

  lemma {:induction false} StepKeepsOutcome(initial: seq<Name>, w: World, e: Event, c: Client)
    requires Inv(initial, w) && c in Next(LockThenRead, w, e).clients
    ensures OutcomeOk(initial, Next(LockThenRead, w, e), c)
  {
    if !By(e, c) {
      OthersLeaveAlone(w, e, c);
      OthersKeepOutcome(initial, w, e, c);
    } else if !e.Commit? {
      OwnStepKeepsOutcome(initial, w, e, c);
    } else if CanCommit(w, c) {
      CommitKeepsOutcome(initial, w, c, e.replyArrives);
    }
  }

  lemma {:induction false} StepKeepsInv(initial: seq<Name>, w: World, e: Event)
    requires Inv(initial, w)
    ensures Inv(initial, Next(LockThenRead, w, e))
  {
    var v := Next(LockThenRead, w, e);
    StepKeepsServer(w, e);
    StepKeepsCommits(initial, w, e);
    forall c | InTxn(v, c) ensures OpenOk(v, c) {
      StepKeepsOpen(w, e, c);
    }
    forall c | c in v.clients ensures OutcomeOk(initial, v, c) {
      StepKeepsOutcome(initial, w, e, c);
    }
  }

  lemma {:induction false} RunKeepsInv(initial: seq<Name>, w: World, es: seq<Event>)
    requires Inv(initial, w)
    ensures Inv(initial, Exec(LockThenRead, w, es))
  {
    if es != [] {
      RunKeepsInv(initial, w, es[..|es| - 1]);
      StepKeepsInv(initial, Exec(LockThenRead, w, es[..|es| - 1]), es[|es| - 1]);
    }
  }

  // ---- What holds after every run ------------------------------------------

  ghost predicate Reachable(initial: seq<Name>, w: World) {
    exists es :: w == Exec(LockThenRead, Initial(initial), es)
  }

  lemma {:induction false} ReachableHasInv(initial: seq<Name>, w: World)
    requires NoDuplicates(initial) && Reachable(initial, w)
    ensures Inv(initial, w)
  {
    var es :| w == Exec(LockThenRead, Initial(initial), es);
    assert initial + [] == initial;
    RunKeepsInv(initial, Initial(initial), es);
  }

  // Every run commits what its committed runs would have committed one after
  // the other, and the ledger is its initial content plus exactly those bodies.
  lemma {:induction false} RunsAreSerializable(initial: seq<Name>, w: World)
    requires NoDuplicates(initial) && Reachable(initial, w)
    ensures w.ledger == Serial(initial, w.commits)
    ensures w.ledger == initial + w.bodies
  {
    ReachableHasInv(initial, w);
  }

  // No file's body is ever committed twice, nor when it was there at the start.
  lemma {:induction false} BodiesCommitAtMostOnce(initial: seq<Name>, w: World, file: Name)
    requires NoDuplicates(initial) && Reachable(initial, w)
    ensures multiset(w.bodies)[file] <= 1
    ensures file in initial ==> file !in w.bodies
  {
    ReachableHasInv(initial, w);
    assert NoDuplicates(w.bodies) by {
      forall i, j | 0 <= i < j < |w.bodies| ensures w.bodies[i] != w.bodies[j] {
        assert w.ledger[|initial| + i] != w.ledger[|initial| + j];
      }
    }
    CountOfEach(w.bodies, file);
    forall i, j | 0 <= i < |initial| && 0 <= j < |w.bodies| ensures initial[i] != w.bodies[j] {
      assert w.ledger[i] == initial[i] && w.ledger[|initial| + j] == w.bodies[j];
    }
  }

  lemma {:induction false} SerialOnlyGrows(ledger: seq<Name>, runs: seq<Committed>, i: nat)
    requires i <= |runs|
    ensures Serial(ledger, runs[..i]) <= Serial(ledger, runs)
    decreases |runs| - i
  {
    if i < |runs| {
      SerialOnlyGrows(ledger, runs, i + 1);
      assert runs[..i + 1][..i] == runs[..i];
      assert Serial(ledger, runs[..i + 1]) == MigrateAlone(Serial(ledger, runs[..i]), runs[i].listing);
    } else {
      assert runs[..i] == runs;
    }
  }

  lemma {:induction false} AloneRecords(ledger: seq<Name>, listing: Directory, f: Name)
    requires f in listing && IsMigration(f)
    ensures f in MigrateAlone(ledger, listing)
  {
    PendingAre(MigrationFiles(listing), NamesOf(ledger));
  }

  lemma {:induction false} CommittedLeavesRecorded(initial: seq<Name>, runs: seq<Committed>, i: nat, f: Name)
    requires i < |runs| && f in runs[i].listing && IsMigration(f)
    ensures f in Serial(initial, runs)
  {
    assert runs[..i + 1] == runs[..i] + [runs[i]];
    SerialAppends(initial, runs[..i], runs[i]);
    AloneRecords(Serial(initial, runs[..i]), runs[i].listing, f);
    SerialOnlyGrows(initial, runs, i + 1);
  }

  ghost predicate IsOnlyCommit(w: World, c: Client, i: int) {
    forall j :: 0 <= j < |w.commits| && w.commits[j].client == c ==> j == i
  }

  // A run that reports success committed once, applied exactly the files that
  // were pending, in ascending order, and left its whole directory recorded.
  lemma {:induction false} SuccessMeansRecorded(initial: seq<Name>, w: World, c: Client)
    requires NoDuplicates(initial) && Reachable(initial, w)
    requires c in w.clients && w.clients[c].phase.Succeeded?
    ensures exists i ::
      && CommittedAs(initial, w, c, w.clients[c].phase.report, i) && IsOnlyCommit(w, c, i)
      && ArePending(Serial(initial, w.commits[..i]), w.clients[c].listing, w.clients[c].phase.report)
    ensures InCodeOrder(w.clients[c].phase.report)
    ensures forall stem: Name :: stem + ".sql" in w.clients[c].listing ==> stem + ".sql" in w.ledger
  {
    ReachableHasInv(initial, w);
    assert OutcomeOk(initial, w, c);
    var i :| CommittedAs(initial, w, c, w.clients[c].phase.report, i);
    assert IsOnlyCommit(w, c, i);
    PendingArePending(Serial(initial, w.commits[..i]), w.commits[i].listing);
    forall stem: Name | stem + ".sql" in w.clients[c].listing ensures stem + ".sql" in w.ledger {
      MigrationsEndInSql(stem + ".sql");
      CommittedLeavesRecorded(initial, w.commits, i, stem + ".sql");
    }
  }

  // A run that fails has committed nothing, unless only the reply to its COMMIT
  // was lost: then it has committed, and a rerun finds its work in the ledger.
  lemma {:induction false} FailureMeansNothingCommitted(initial: seq<Name>, w: World, c: Client)
    requires NoDuplicates(initial) && Reachable(initial, w)
    requires c in w.clients && w.clients[c].phase.Failed?
    ensures HasCommitted(w, c) <==> w.clients[c].phase.reason == CommitReplyLost
  {
    ReachableHasInv(initial, w);
    assert OutcomeOk(initial, w, c);
  }

  lemma {:induction false} CommittedUnlessItFailed(initial: seq<Name>, w: World, c: Client)
    requires NoDuplicates(initial) && Reachable(initial, w)
    requires c in w.clients && w.clients[c].phase.RollingBack?
    ensures HasCommitted(w, c) <==> w.clients[c].phase.cause.CommitReplyLost?
  {
    ReachableHasInv(initial, w);
    assert OutcomeOk(initial, w, c);
  }

  // Whichever backend served it, the lock is held only inside an open
  // transaction, by the one client bound to that backend.
  lemma {:induction false} LockLivesInATransaction(initial: seq<Name>, w: World)
    requires NoDuplicates(initial) && Reachable(initial, w)
    ensures w.lock.Some? ==> w.lock.value in w.txns && w.txns[w.lock.value].Active?
    ensures w.txns == map[] ==> w.lock.None?
    ensures forall c, d ::
      InTxn(w, c) && InTxn(w, d) && w.clients[c].phase.Applying? && w.clients[d].phase.Applying? ==> c == d
  {
    ReachableHasInv(initial, w);
    forall c, d | InTxn(w, c) && InTxn(w, d) && w.clients[c].phase.Applying? && w.clients[d].phase.Applying?
      ensures c == d
    {
      assert OpenOk(w, c) && OpenOk(w, d);
    }
  }

  lemma {:induction false} NothingPending(files: seq<Name>, done: set<Name>)
    requires forall x :: x in files ==> x in done
    ensures Pending(files, done) == []
  {
    if files != [] {
      assert files[|files| - 1] in files;
      NothingPending(files[..|files| - 1], done);
    }
  }

  // Running the same image again commits nothing.
  lemma {:induction false} RerunIsIdle(ledger: seq<Name>, listing: Directory)
    ensures MigrateAlone(MigrateAlone(ledger, listing), listing) == MigrateAlone(ledger, listing)
  {
    var once := MigrateAlone(ledger, listing);
    PendingAre(MigrationFiles(listing), NamesOf(ledger));
    assert forall x :: x in MigrationFiles(listing) ==> x in NamesOf(once);
    NothingPending(MigrationFiles(listing), NamesOf(once));
  }
}
