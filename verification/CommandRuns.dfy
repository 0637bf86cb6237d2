// The command runs of src/admin/auditService.ts: rows of admin_command_runs, under
// any number of callers in transactions. Statements are atomic; each sees what is
// committed and its own transaction's writes (READ COMMITTED), and waits for a row
// that another transaction has written.
module CommandRuns {
  import opened Wrappers

  type Client = nat
  type Id = nat
  datatype Key = Key(environment: string, idempotencyKey: string)

  datatype Identity = Identity(
    actorId: string, action: string, targetType: string, targetId: Option<string>,
    previewDigest: string, expectedVersion: Option<string>)

  datatype Command = Command(key: Key, identity: Identity)
  datatype Status = Pending | Running | Succeeded | Failed | Rejected
  datatype Run = Run(key: Key, identity: Identity, status: Status, errorCode: Option<string>)
  datatype Completion = Completion(status: Status, errorCode: Option<string>)

  // What a caller was told, once its transaction committed.
  datatype Fact = Began(id: Id) | Replayed(id: Id, asked: Identity) | Marked(id: Id) | Completed(id: Id)

  datatype Draft = Draft(owner: Client, run: Run)

  datatype World = World(
    rows: map<Id, Run>, drafts: map<Id, Draft>, facts: seq<Fact>, open: map<Client, seq<Fact>>)

  datatype Event =
    | Open(c: Client)
    | Insert(c: Client, command: Command, id: Id)
    | Select(c: Client, command: Command, id: Id)
    | Mark(c: Client, id: Id)
    | Complete(c: Client, id: Id, completion: Completion)
    | Commit(c: Client)
    | Rollback(c: Client)

  predicate Terminal(s: Status) {
    s.Succeeded? || s.Failed? || s.Rejected?
  }

  // AdminCommandCompletionSchema
  predicate Acceptable(completion: Completion) {
    Terminal(completion.status) && (completion.status.Succeeded? <==> completion.errorCode.None?)
  }

  predicate CommandIdentityMatches(existing: Identity, requested: Identity) {
    && existing.actorId == requested.actorId
    && existing.action == requested.action
    && existing.targetType == requested.targetType
    && existing.targetId == requested.targetId
    && existing.previewDigest == requested.previewDigest
    && existing.expectedVersion == requested.expectedVersion
  }

  // ---- The statements ------------------------------------------------------------

  predicate Mine(w: World, c: Client, id: Id) {
    id in w.drafts && w.drafts[id].owner == c
  }

  // The row as a statement of `c` sees it.
  function View(w: World, c: Client, id: Id): Option<Run> {
    if Mine(w, c, id) then Some(w.drafts[id].run) else if id in w.rows then Some(w.rows[id]) else None
  }

  // Another transaction has written the row and not ended.
  predicate Waits(w: World, c: Client, id: Id) {
    id in w.drafts && w.drafts[id].owner != c
  }

  predicate KeyTaken(w: World, key: Key) {
    (exists id :: id in w.rows && w.rows[id].key == key) || (exists id :: id in w.drafts && w.drafts[id].run.key == key)
  }

  function Wrote(w: World, c: Client, id: Id, run: Run, fact: Fact): World
    requires c in w.open
  {
    w.(drafts := w.drafts[id := Draft(c, run)], open := w.open[c := w.open[c] + [fact]])
  }

  function DoInsert(w: World, c: Client, command: Command, id: Id): World {
    if c in w.open && id !in w.rows && id !in w.drafts && !KeyTaken(w, command.key)
    then Wrote(w, c, id, Run(command.key, command.identity, Pending, None), Began(id))
    else w
  }

  function DoSelect(w: World, c: Client, command: Command, id: Id): World {
    var run := View(w, c, id);
    if c in w.open && run.Some? && run.value.key == command.key
       && CommandIdentityMatches(run.value.identity, command.identity)
    then w.(open := w.open[c := w.open[c] + [Replayed(id, command.identity)]])
    else w
  }

  function DoMark(w: World, c: Client, id: Id): World {
    var run := View(w, c, id);
    if c in w.open && !Waits(w, c, id) && run.Some? && run.value.status.Pending?
    then Wrote(w, c, id, run.value.(status := Running), Marked(id))
    else w
  }

  function DoComplete(w: World, c: Client, id: Id, completion: Completion): World {
    var run := View(w, c, id);
    if c in w.open && !Waits(w, c, id) && Acceptable(completion)
       && run.Some? && (run.value.status.Pending? || run.value.status.Running?)
    then Wrote(w, c, id, run.value.(status := completion.status, errorCode := completion.errorCode), Completed(id))
    else w
  }

  function DraftsOf(w: World, c: Client): map<Id, Run> {
    map id | id in w.drafts && w.drafts[id].owner == c :: w.drafts[id].run
  }

  function DraftsBut(w: World, c: Client): map<Id, Draft> {
    map id | id in w.drafts && w.drafts[id].owner != c :: w.drafts[id]
  }

  function DoCommit(w: World, c: Client): World {
    if c in w.open
    then World(w.rows + DraftsOf(w, c), DraftsBut(w, c), w.facts + w.open[c], w.open - {c})
    else w
  }

  function DoRollback(w: World, c: Client): World {
    if c in w.open then w.(drafts := DraftsBut(w, c), open := w.open - {c}) else w
  }

  function Next(w: World, e: Event): World {
    match e
    case Open(c) => if c in w.open then w else w.(open := w.open[c := []])
    case Insert(c, command, id) => DoInsert(w, c, command, id)
    case Select(c, command, id) => DoSelect(w, c, command, id)
    case Mark(c, id) => DoMark(w, c, id)
    case Complete(c, id, completion) => DoComplete(w, c, id, completion)
    case Commit(c) => DoCommit(w, c)
    case Rollback(c) => DoRollback(w, c)
  }

  function Exec(w: World, es: seq<Event>): World {
    if es == [] then w else Next(Exec(w, es[..|es| - 1]), es[|es| - 1])
  }

  // A transaction's end leaves nothing of it open, and no one else's writes touched: its
  // own become the table's when it commits, and are gone when it rolls back.
  lemma {:induction false} TransactionsEnd(w: World, c: Client, id: Id)
    requires c in w.open
    ensures var done := Next(w, Commit(c));
      && c !in done.open && !Mine(done, c, id) && done.facts == w.facts + w.open[c]
      && (id in done.rows <==> id in w.rows || Mine(w, c, id))
      && (Mine(w, c, id) ==> done.rows[id] == w.drafts[id].run)
      && (!Mine(w, c, id) && id in w.rows ==> done.rows[id] == w.rows[id])
    ensures var undone := Next(w, Rollback(c));
      && c !in undone.open && !Mine(undone, c, id) && undone.facts == w.facts && undone.rows == w.rows
    ensures forall d :: d != c ==>
      && (Mine(Next(w, Commit(c)), d, id) <==> Mine(w, d, id))
      && (Mine(Next(w, Rollback(c)), d, id) <==> Mine(w, d, id))
  {
  }

  const EMPTY: World := World(map[], map[], [], map[])

  // ---- The invariant --------------------------------------------------------------

  // One row to a key, drafts included.
  ghost predicate KeysUnique(w: World) {
    && (forall i, j :: i in w.rows && j in w.rows && w.rows[i].key == w.rows[j].key ==> i == j)
    && (forall i, j :: i in w.rows && j in w.drafts && w.rows[i].key == w.drafts[j].run.key ==> i == j)
    && (forall i, j :: i in w.drafts && j in w.drafts && w.drafts[i].run.key == w.drafts[j].run.key ==> i == j)
  }

  // pending to running to terminal, or pending to terminal.
  predicate Advances(before: Run, after: Run) {
    && after.key == before.key && after.identity == before.identity
    && (before.status.Pending? || after == before || (before.status.Running? && Terminal(after.status)))
  }

  predicate ErrorOk(run: Run) {
    run.status.Failed? || run.status.Rejected? <==> run.errorCode.Some?
  }

  ghost predicate DraftsOk(w: World) {
    && (forall id :: id in w.drafts ==> w.drafts[id].owner in w.open && ErrorOk(w.drafts[id].run))
    && (forall id :: id in w.drafts && id in w.rows ==> Advances(w.rows[id], w.drafts[id].run))
    && (forall id :: id in w.rows ==> ErrorOk(w.rows[id]))
  }

  // How often each thing was told of a row, given the row.
  ghost predicate Tallies(told: multiset<Fact>, id: Id, run: Option<Run>) {
    if run.None? then told[Began(id)] == told[Marked(id)] == told[Completed(id)] == 0
    else
      && told[Began(id)] == 1
      && (run.value.status.Pending? ==> told[Marked(id)] == 0)
      && (run.value.status.Running? ==> told[Marked(id)] == 1)
      && told[Marked(id)] <= 1
      && told[Completed(id)] == if Terminal(run.value.status) then 1 else 0
  }

  ghost predicate FactsOk(w: World) {
    forall id: Id :: Tallies(multiset(w.facts), id, if id in w.rows then Some(w.rows[id]) else None)
  }

  // A transaction's facts are about the rows it wrote.
  ghost predicate OwnFacts(w: World) {
    forall c, f :: c in w.open && f in w.open[c] && !f.Replayed? ==> Mine(w, c, f.id)
  }

  ghost predicate OpenFactsOk(w: World) {
    forall id :: id in w.drafts ==>
      && w.drafts[id].owner in w.open
      && Tallies(multiset(w.facts) + multiset(w.open[w.drafts[id].owner]), id, Some(w.drafts[id].run))
  }

  ghost predicate ReplaysOk(w: World) {
    && (forall f :: f in w.facts && f.Replayed? ==> f.id in w.rows && w.rows[f.id].identity == f.asked)
    && (forall c, f :: c in w.open && f in w.open[c] && f.Replayed? ==>
          View(w, c, f.id).Some? && View(w, c, f.id).value.identity == f.asked)
  }

  ghost predicate Inv(w: World) {
    KeysUnique(w) && DraftsOk(w) && FactsOk(w) && OwnFacts(w) && OpenFactsOk(w) && ReplaysOk(w)
  }

  lemma {:induction false} InsertKeepsKeys(w: World, c: Client, command: Command, id: Id)
    requires KeysUnique(w)
    ensures KeysUnique(DoInsert(w, c, command, id))
  {
  }

  // A write to a row keeps its key.
  lemma {:induction false} WriteKeepsKeys(w: World, c: Client, id: Id, run: Run, fact: Fact)
    requires KeysUnique(w) && DraftsOk(w) && c in w.open && !Waits(w, c, id)
    requires View(w, c, id).Some? && run.key == View(w, c, id).value.key
    ensures KeysUnique(Wrote(w, c, id, run, fact))
  {
  }

  lemma {:induction false} EndKeepsKeys(w: World, c: Client)
    requires KeysUnique(w)
    ensures KeysUnique(DoCommit(w, c)) && KeysUnique(DoRollback(w, c))
  {
  }

  lemma {:induction false} StepKeepsKeys(w: World, e: Event)
    requires KeysUnique(w) && DraftsOk(w)
    ensures KeysUnique(Next(w, e))
  {
    match e
    case Open(_) =>
    case Insert(c, command, id) => InsertKeepsKeys(w, c, command, id);
    case Select(_, _, _) =>
    case Mark(c, id) =>
      if Next(w, e) != w { WriteKeepsKeys(w, c, id, View(w, c, id).value.(status := Running), Marked(id)); }
    case Complete(c, id, done) =>
      if Next(w, e) != w {
        var run := View(w, c, id).value;
        WriteKeepsKeys(w, c, id, run.(status := done.status, errorCode := done.errorCode), Completed(id));
      }
    case Commit(c) => EndKeepsKeys(w, c);
    case Rollback(c) => EndKeepsKeys(w, c);
  }

  lemma {:induction false} StepKeepsDrafts(w: World, e: Event)
    requires DraftsOk(w)
    ensures DraftsOk(Next(w, e))
  {
  }

  lemma {:induction false} StepKeepsOwnFacts(w: World, e: Event)
    requires OwnFacts(w) && DraftsOk(w)
    ensures OwnFacts(Next(w, e))
  {
  }

  lemma {:induction false} CommitKeepsReplays(w: World, c: Client)
    requires ReplaysOk(w) && DraftsOk(w)
    ensures ReplaysOk(DoCommit(w, c))
  {
  }

  lemma {:induction false} RollbackKeepsReplays(w: World, c: Client)
    requires ReplaysOk(w) && DraftsOk(w)
    ensures ReplaysOk(DoRollback(w, c))
  {
  }

  lemma {:induction false} WriteKeepsReplays(w: World, c: Client, id: Id, run: Run, fact: Fact)
    requires ReplaysOk(w) && c in w.open && !Waits(w, c, id) && !fact.Replayed?
    requires View(w, c, id).Some? ==> run.identity == View(w, c, id).value.identity
    ensures ReplaysOk(Wrote(w, c, id, run, fact))
  {
  }

  lemma {:induction false} StepKeepsReplays(w: World, e: Event)
    requires ReplaysOk(w) && DraftsOk(w)
    ensures ReplaysOk(Next(w, e))
  {
    match e
    case Open(_) =>
    case Insert(c, command, id) =>
      if Next(w, e) != w {
        WriteKeepsReplays(w, c, id, Run(command.key, command.identity, Pending, None), Began(id));
      }
    case Select(_, _, _) =>
    case Mark(c, id) =>
      if Next(w, e) != w { WriteKeepsReplays(w, c, id, View(w, c, id).value.(status := Running), Marked(id)); }
    case Complete(c, id, done) =>
      if Next(w, e) != w {
        var run := View(w, c, id).value;
        WriteKeepsReplays(w, c, id, run.(status := done.status, errorCode := done.errorCode), Completed(id));
      }
    case Commit(c) => CommitKeepsReplays(w, c);
    case Rollback(c) => RollbackKeepsReplays(w, c);
  }

  // What `c` has told, as far as its transaction goes.
  function ToldTo(w: World, c: Client): multiset<Fact>
    requires c in w.open
  {
    multiset(w.facts) + multiset(w.open[c])
  }

  // Its own facts included, a caller's counts fit the row it sees.
  lemma {:induction false} ViewTallies(w: World, c: Client, id: Id)
    requires FactsOk(w) && OwnFacts(w) && OpenFactsOk(w) && c in w.open
    ensures Tallies(ToldTo(w, c), id, View(w, c, id))
  {
    if !Mine(w, c, id) {
      assert Began(id) !in w.open[c] && Marked(id) !in w.open[c] && Completed(id) !in w.open[c];
    }
  }

  lemma {:induction false} CommitShowsView(w: World, c: Client, id: Id)
    requires c in w.open
    ensures View(w, c, id) == if id in DoCommit(w, c).rows then Some(DoCommit(w, c).rows[id]) else None
  {
  }

  lemma {:induction false} CommitTellsAll(w: World, c: Client)
    requires c in w.open
    ensures multiset(DoCommit(w, c).facts) == ToldTo(w, c)
  {
  }

  lemma {:induction false} CommitKeepsFacts(w: World, c: Client)
    requires FactsOk(w) && OwnFacts(w) && OpenFactsOk(w) && c in w.open
    ensures FactsOk(DoCommit(w, c))
  {
    var v := DoCommit(w, c);
    CommitTellsAll(w, c);
    forall id: Id ensures Tallies(multiset(v.facts), id, if id in v.rows then Some(v.rows[id]) else None) {
      ViewTallies(w, c, id);
      CommitShowsView(w, c, id);
    }
  }

  lemma {:induction false} OnlyCommitsShow(w: World, e: Event)
    requires !(e.Commit? && e.c in w.open)
    ensures Next(w, e).rows == w.rows && Next(w, e).facts == w.facts
  {
  }

  lemma {:induction false} StepKeepsFacts(w: World, e: Event)
    requires FactsOk(w) && OwnFacts(w) && OpenFactsOk(w)
    ensures FactsOk(Next(w, e))
  {
    if e.Commit? && e.c in w.open {
      CommitKeepsFacts(w, e.c);
    } else {
      OnlyCommitsShow(w, e);
    }
  }

  lemma {:induction false} WriteKeepsOpenFacts(w: World, c: Client, id: Id, run: Run, fact: Fact)
    requires OpenFactsOk(w) && c in w.open && !Waits(w, c, id) && !fact.Replayed? && fact.id == id
    requires Tallies(ToldTo(w, c) + multiset{fact}, id, Some(run))
    ensures OpenFactsOk(Wrote(w, c, id, run, fact))
  {
    var v := Wrote(w, c, id, run, fact);
    assert ToldTo(v, c) == ToldTo(w, c) + multiset{fact};
    forall i | i in v.drafts && i != id
      ensures v.drafts[i].owner in v.open
      ensures Tallies(ToldTo(v, v.drafts[i].owner), i, Some(v.drafts[i].run))
    {
      assert Tallies(ToldTo(w, w.drafts[i].owner), i, Some(w.drafts[i].run));
    }
  }

  lemma {:induction false} NotTold(told: seq<Fact>, id: Id)
    requires forall f :: f in told && !f.Replayed? ==> f.id != id
    ensures multiset(told)[Began(id)] == multiset(told)[Marked(id)] == multiset(told)[Completed(id)] == 0
  {
    assert Began(id) !in told && Marked(id) !in told && Completed(id) !in told;
  }

  lemma {:induction false} MoreTallies(told: multiset<Fact>, more: multiset<Fact>, id: Id, run: Option<Run>)
    requires Tallies(told, id, run) && more[Began(id)] == more[Marked(id)] == more[Completed(id)] == 0
    ensures Tallies(told + more, id, run)
  {
  }

  lemma {:induction false} CommitKeepsTally(w: World, c: Client, d: Client, id: Id, run: Run)
    requires OwnFacts(w) && c in w.open && d in w.open && c != d && !Mine(w, c, id)
    requires Tallies(ToldTo(w, d), id, Some(run))
    ensures Tallies(ToldTo(DoCommit(w, c), d), id, Some(run))
  {
    NotTold(w.open[c], id);
    MoreTallies(ToldTo(w, d), multiset(w.open[c]), id, Some(run));
    assert ToldTo(DoCommit(w, c), d) == ToldTo(w, d) + multiset(w.open[c]);
  }

  lemma {:induction false} CommitKeepsOpenFacts(w: World, c: Client)
    requires OwnFacts(w) && OpenFactsOk(w) && c in w.open
    ensures OpenFactsOk(DoCommit(w, c))
  {
    var v := DoCommit(w, c);
    forall id | id in v.drafts
      ensures v.drafts[id].owner in v.open && Tallies(ToldTo(v, v.drafts[id].owner), id, Some(v.drafts[id].run))
    {
      CommitKeepsTally(w, c, w.drafts[id].owner, id, w.drafts[id].run);
    }
  }

  lemma {:induction false} RollbackKeepsOpenFacts(w: World, c: Client)
    requires OpenFactsOk(w)
    ensures OpenFactsOk(DoRollback(w, c))
  {
  }

  lemma {:induction false} OpeningKeepsOpenFacts(w: World, c: Client)
    requires OpenFactsOk(w)
    ensures OpenFactsOk(Next(w, Open(c)))
  {
  }

  lemma {:induction false} SelectKeepsOpenFacts(w: World, c: Client, command: Command, id: Id)
    requires OpenFactsOk(w)
    ensures OpenFactsOk(DoSelect(w, c, command, id))
  {
    var v := DoSelect(w, c, command, id);
    forall i | i in v.drafts
      ensures v.drafts[i].owner in v.open && Tallies(ToldTo(v, v.drafts[i].owner), i, Some(v.drafts[i].run))
    {
      assert Tallies(ToldTo(w, w.drafts[i].owner), i, Some(w.drafts[i].run));
    }
  }

  // One fact more, as the row moves on.
  lemma {:induction false} BeginTallies(told: multiset<Fact>, id: Id, run: Run)
    requires Tallies(told, id, None) && run.status.Pending?
    ensures Tallies(told + multiset{Began(id)}, id, Some(run))
  {
  }

  lemma {:induction false} MarkTallies(told: multiset<Fact>, id: Id, run: Run, marked: Run)
    requires Tallies(told, id, Some(run)) && run.status.Pending? && marked.status.Running?
    ensures Tallies(told + multiset{Marked(id)}, id, Some(marked))
  {
  }

  lemma {:induction false} CompletionTallies(told: multiset<Fact>, id: Id, run: Run, completed: Run)
    requires Tallies(told, id, Some(run)) && !Terminal(run.status) && Terminal(completed.status)
    ensures Tallies(told + multiset{Completed(id)}, id, Some(completed))
  {
  }

  lemma {:induction false} InsertKeepsOpenFacts(w: World, c: Client, command: Command, id: Id)
    requires FactsOk(w) && OwnFacts(w) && OpenFactsOk(w)
    ensures OpenFactsOk(DoInsert(w, c, command, id))
  {
    if DoInsert(w, c, command, id) != w {
      var run := Run(command.key, command.identity, Pending, None);
      ViewTallies(w, c, id);
      BeginTallies(ToldTo(w, c), id, run);
      WriteKeepsOpenFacts(w, c, id, run, Began(id));
    }
  }

  lemma {:induction false} MarkKeepsOpenFacts(w: World, c: Client, id: Id)
    requires FactsOk(w) && OwnFacts(w) && OpenFactsOk(w)
    ensures OpenFactsOk(DoMark(w, c, id))
  {
    if DoMark(w, c, id) != w {
      var run := View(w, c, id).value;
      ViewTallies(w, c, id);
      MarkTallies(ToldTo(w, c), id, run, run.(status := Running));
      WriteKeepsOpenFacts(w, c, id, run.(status := Running), Marked(id));
    }
  }

  lemma {:induction false} CompleteKeepsOpenFacts(w: World, c: Client, id: Id, done: Completion)
    requires FactsOk(w) && OwnFacts(w) && OpenFactsOk(w)
    ensures OpenFactsOk(DoComplete(w, c, id, done))
  {
    if DoComplete(w, c, id, done) != w {
      var run := View(w, c, id).value;
      var completed := run.(status := done.status, errorCode := done.errorCode);
      ViewTallies(w, c, id);
      CompletionTallies(ToldTo(w, c), id, run, completed);
      WriteKeepsOpenFacts(w, c, id, completed, Completed(id));
    }
  }

  lemma {:induction false} StepKeepsOpenFacts(w: World, e: Event)
    requires FactsOk(w) && OwnFacts(w) && OpenFactsOk(w)
    ensures OpenFactsOk(Next(w, e))
  {
    match e
    case Open(_) => OpeningKeepsOpenFacts(w, e.c);
    case Insert(c, command, id) => InsertKeepsOpenFacts(w, c, command, id);
    case Select(c, command, id) => SelectKeepsOpenFacts(w, c, command, id);
    case Mark(c, id) => MarkKeepsOpenFacts(w, c, id);
    case Complete(c, id, done) => CompleteKeepsOpenFacts(w, c, id, done);
    case Commit(c) => if c in w.open { CommitKeepsOpenFacts(w, c); }
    case Rollback(c) => RollbackKeepsOpenFacts(w, c);
  }

  lemma {:induction false} StepKeepsInv(w: World, e: Event)
    requires Inv(w)
    ensures Inv(Next(w, e))
  {
    StepKeepsKeys(w, e);
    StepKeepsDrafts(w, e);
    StepKeepsFacts(w, e);
    StepKeepsOwnFacts(w, e);
    StepKeepsOpenFacts(w, e);
    StepKeepsReplays(w, e);
  }

  lemma {:induction false} RunKeepsInv(es: seq<Event>)
    ensures Inv(Exec(EMPTY, es))
  {
    if es != [] {
      RunKeepsInv(es[..|es| - 1]);
      StepKeepsInv(Exec(EMPTY, es[..|es| - 1]), es[|es| - 1]);
    }
  }

  // ---- Over every run ----------------------------------------------------------------

  ghost predicate Reachable(w: World) {
    exists es :: w == Exec(EMPTY, es)
  }

  lemma {:induction false} ReachableHasInv(w: World)
    requires Reachable(w)
    ensures Inv(w)
  {
    var es :| w == Exec(EMPTY, es);
    RunKeepsInv(es);
  }

  lemma {:induction false} ToldTwice(s: seq<Fact>, f: Fact, i: nat, j: nat)
    requires i < j < |s| && s[i] == f && s[j] == f
    ensures multiset(s)[f] >= 2
  {
    assert s == s[..j] + s[j..];
    assert f in s[..j] && f in s[j..];
  }

  // For each key there is one run, and exactly one begin was told it is new.
  lemma {:induction false} OneBeginIsNew(w: World, id: Id)
    requires Reachable(w) && id in w.rows
    ensures forall other :: other in w.rows && w.rows[other].key == w.rows[id].key ==> other == id
    ensures exists i :: 0 <= i < |w.facts| && w.facts[i] == Began(id)
    ensures forall i, j :: 0 <= i < |w.facts| && 0 <= j < |w.facts| && w.facts[i] == w.facts[j] == Began(id) ==> i == j
  {
    ReachableHasInv(w);
    assert Tallies(multiset(w.facts), id, Some(w.rows[id]));
    assert Began(id) in multiset(w.facts);
    forall i, j | 0 <= i < |w.facts| && 0 <= j < |w.facts| && w.facts[i] == w.facts[j] == Began(id) ensures i == j {
      if i < j { ToldTwice(w.facts, Began(id), i, j); }
      if j < i { ToldTwice(w.facts, Began(id), j, i); }
    }
  }

  // At most one mark and one completion succeed, and a run is terminal exactly
  // when its completion did.
  lemma {:induction false} OneMarkOneCompletion(w: World, id: Id)
    requires Reachable(w)
    ensures multiset(w.facts)[Marked(id)] <= 1 && multiset(w.facts)[Completed(id)] <= 1
    ensures Completed(id) in w.facts <==> id in w.rows && Terminal(w.rows[id].status)
    ensures id in w.rows ==> (w.rows[id].errorCode.Some? <==> w.rows[id].status in {Failed, Rejected})
  {
    ReachableHasInv(w);
    assert Tallies(multiset(w.facts), id, if id in w.rows then Some(w.rows[id]) else None);
    assert Completed(id) in w.facts <==> Completed(id) in multiset(w.facts);
  }

  // A begin that was told it is a replay asked for exactly the run it was given.
  lemma {:induction false} ReplaysAreTheSameCommand(w: World, id: Id, asked: Identity)
    requires Reachable(w) && Replayed(id, asked) in w.facts
    ensures id in w.rows && w.rows[id].identity == asked
  {
    ReachableHasInv(w);
  }

  lemma {:induction false} StepAdvances(w: World, e: Event, id: Id)
    requires DraftsOk(w) && id in w.rows
    ensures id in Next(w, e).rows && Advances(w.rows[id], Next(w, e).rows[id])
  {
  }

  // Whatever happens next, a run keeps its key and its identity, and its status
  // only moves on; once terminal it never changes.
  lemma {:induction false} RunsOnlyAdvance(w: World, es: seq<Event>, id: Id)
    requires Inv(w) && id in w.rows
    ensures Inv(Exec(w, es)) && id in Exec(w, es).rows && Advances(w.rows[id], Exec(w, es).rows[id])
    ensures Terminal(w.rows[id].status) ==> Exec(w, es).rows[id] == w.rows[id]
  {
    if es != [] {
      RunsOnlyAdvance(w, es[..|es| - 1], id);
      StepKeepsInv(Exec(w, es[..|es| - 1]), es[|es| - 1]);
      StepAdvances(Exec(w, es[..|es| - 1]), es[|es| - 1], id);
    }
  }

  // ---- The writer's methods, others running between statements ----------------------

  datatype Result = Ok(id: Id, run: Run, replayed: bool) | IdempotencyConflict | InternalError | InvalidInput

  // What others do before a statement, and whether it fails.
  datatype Turn = Turn(others: seq<Event>, fails: bool)

  predicate By(e: Event, c: Client) {
    e.c == c
  }

  lemma {:induction false} OthersKeepView(w: World, e: Event, c: Client, id: Id)
    requires DraftsOk(w) && !By(e, c) && c in w.open && View(w, c, id).Some?
    ensures c in Next(w, e).open && View(Next(w, e), c, id).Some?
    ensures Advances(View(w, c, id).value, View(Next(w, e), c, id).value)
  {
  }

  // The transaction of `c` is as it was; rows that it saw are still there, and no
  // further back.
  ghost predicate Ahead(before: World, after: World, c: Client) {
    && c in before.open && c in after.open && after.open[c] == before.open[c]
    && DraftsOf(after, c) == DraftsOf(before, c)
    && forall id :: View(before, c, id).Some? ==>
      View(after, c, id).Some? && Advances(View(before, c, id).value, View(after, c, id).value)
  }

  lemma {:induction false} OthersKeepAhead(start: World, w: World, e: Event, c: Client)
    requires DraftsOk(w) && !By(e, c) && c in w.open && Ahead(start, w, c)
    ensures c in Next(w, e).open && Ahead(start, Next(w, e), c)
  {
    OthersKeepOpen(w, e, c);
    OthersKeepDrafts(w, e, c);
    forall id | View(start, c, id).Some?
      ensures View(Next(w, e), c, id).Some?
      ensures Advances(View(start, c, id).value, View(Next(w, e), c, id).value)
    {
      OthersKeepView(w, e, c, id);
    }
  }

  lemma {:induction false} OthersKeepOpen(w: World, e: Event, c: Client)
    requires !By(e, c) && c in w.open
    ensures c in Next(w, e).open && Next(w, e).open[c] == w.open[c]
    ensures forall id :: Mine(Next(w, e), c, id) <==> Mine(w, c, id)
    ensures forall id :: Mine(w, c, id) ==> Next(w, e).drafts[id] == w.drafts[id]
  {
  }

  lemma {:induction false} OthersKeepDrafts(w: World, e: Event, c: Client)
    requires !By(e, c) && c in w.open
    ensures DraftsOf(Next(w, e), c) == DraftsOf(w, c)
  {
    OthersKeepOpen(w, e, c);
    assert DraftsOf(Next(w, e), c).Keys == DraftsOf(w, c).Keys by {
      assert forall id :: id in DraftsOf(w, c) <==> Mine(w, c, id);
      assert forall id :: id in DraftsOf(Next(w, e), c) <==> Mine(Next(w, e), c, id);
    }
  }

  predicate Sees(w: World, c: Client, id: Id, key: Key) {
    var run := View(w, c, id);
    run.Some? && run.value.key == key
  }

  // Another transaction has inserted the key and not ended.
  predicate WaitsForKey(w: World, c: Client, key: Key) {
    exists id :: id in w.drafts && Waits(w, c, id) && w.drafts[id].run.key == key
  }

  ghost predicate HoldsAnother(w: World, c: Client, command: Command) {
    exists id :: Sees(w, c, id, command.key) && View(w, c, id).value.identity != command.identity
  }

  // A taken key that nothing waits for is one the caller sees.
  lemma {:induction false} KeyIsSeen(w: World, c: Client, key: Key) returns (id: Id)
    requires Inv(w) && KeyTaken(w, key) && !WaitsForKey(w, c, key)
    ensures Sees(w, c, id, key)
  {
    if i :| i in w.drafts && w.drafts[i].run.key == key {
      assert !Waits(w, c, i);
      id := i;
    } else {
      id :| id in w.rows && w.rows[id].key == key;
    }
  }

  // What a call did to its own transaction: one row written and one fact told, a
  // fact told, or nothing.
  ghost predicate DidWrite(before: World, after: World, c: Client, id: Id, run: Run, fact: Fact) {
    && c in before.open && c in after.open && after.open[c] == before.open[c] + [fact]
    && DraftsOf(after, c) == DraftsOf(before, c)[id := run]
  }

  ghost predicate OnlyTold(before: World, after: World, c: Client, fact: Fact) {
    && c in before.open && c in after.open && after.open[c] == before.open[c] + [fact]
    && DraftsOf(after, c) == DraftsOf(before, c)
  }

  ghost predicate DidNothing(before: World, after: World, c: Client) {
    && c in before.open && c in after.open && after.open[c] == before.open[c]
    && DraftsOf(after, c) == DraftsOf(before, c)
  }

  class Table {
    var world: World
    ghost var trace: seq<Event>

    ghost predicate Valid()
      reads this
    {
      world == Exec(EMPTY, trace)
    }

    method Step(e: Event)
      requires Valid()
      modifies this
      ensures Valid() && world == Next(old(world), e) && trace == old(trace) + [e]
    {
      world := Next(world, e);
      trace := trace + [e];
      assert trace[..|trace| - 1] == old(trace);
    }

    method OtherStep(e: Event, me: Client, ghost start: World)
      requires Valid() && me in world.open && !By(e, me) && Ahead(start, world, me)
      modifies this
      ensures Valid() && old(trace) <= trace && me in world.open && Ahead(start, world, me)
    {
      RunKeepsInv(trace);
      OthersKeepAhead(start, world, e, me);
      Step(e);
    }

    // Everyone but `me` runs.
    method Interfere(others: seq<Event>, me: Client)
      requires Valid() && me in world.open
      modifies this
      ensures Valid() && old(trace) <= trace && me in world.open && Ahead(old(world), world, me)
    {
      for i := 0 to |others|
        invariant Valid() && old(trace) <= trace && me in world.open && Ahead(old(world), world, me)
      {
        if !By(others[i], me) {
          OtherStep(others[i], me, old(world));
        }
      }
    }

    // INSERT ... ON CONFLICT DO NOTHING, then the row that was there. The second
    // statement always finds one.
    method BeginCommandRun(me: Client, command: Command, id: Id, insertTurn: Turn, selectTurn: Turn)
      returns (r: Result, waited: bool)
      requires Valid() && me in world.open
      modifies this
      ensures Valid() && old(trace) <= trace && me in world.open
      ensures r.Ok? ==> View(world, me, r.id) == Some(r.run)
      ensures r.Ok? ==> r.run.key == command.key && r.run.identity == command.identity
      ensures r.Ok? && !r.replayed ==>
        r.id == id && r.run.status.Pending? && DidWrite(old(world), world, me, id, r.run, Began(id))
      ensures r.Ok? && r.replayed ==> OnlyTold(old(world), world, me, Replayed(r.id, command.identity))
      ensures !r.Ok? ==> DidNothing(old(world), world, me)
      ensures r.IdempotencyConflict? ==> HoldsAnother(world, me, command)
      ensures r.InternalError? ==> insertTurn.fails || selectTurn.fails || waited
      ensures insertTurn.fails || waited ==> r.InternalError?
      ensures selectTurn.fails ==> r.InternalError? || (r.Ok? && !r.replayed)
      ensures waited ==> id in world.rows || id in world.drafts || WaitsForKey(world, me, command.key)
      ensures !r.InvalidInput?
    {
      waited := false;
      Interfere(insertTurn.others, me);
      if insertTurn.fails { return InternalError, false; }
      if id in world.rows || id in world.drafts || WaitsForKey(world, me, command.key) { return InternalError, true; }
      if !KeyTaken(world, command.key) {
        Step(Insert(me, command, id));
        return Ok(id, world.drafts[id].run, false), false;
      }
      RunKeepsInv(trace);
      ghost var there := KeyIsSeen(world, me, command.key);
      ghost var seen := world;
      Interfere(selectTurn.others, me);
      if selectTurn.fails { return InternalError, false; }
      assert Sees(seen, me, there, command.key) && Sees(world, me, there, command.key);
      r := SelectRun(me, command);
    }

    // The SELECT of beginCommandRun, and the comparison after it.
    method SelectRun(me: Client, command: Command) returns (r: Result)
      requires Valid() && me in world.open
      modifies this
      ensures Valid() && old(trace) <= trace && me in world.open
      ensures r.Ok? ==> r.replayed && View(world, me, r.id) == Some(r.run)
      ensures r.Ok? ==> r.run.key == command.key && r.run.identity == command.identity
      ensures r.Ok? ==> OnlyTold(old(world), world, me, Replayed(r.id, command.identity))
      ensures !r.Ok? ==> DidNothing(old(world), world, me)
      ensures r.IdempotencyConflict? ==> HoldsAnother(world, me, command)
      ensures r.InternalError? ==> !exists i :: Sees(old(world), me, i, command.key)
      ensures !r.InvalidInput?
    {
      if !exists i :: i in world.rows.Keys + world.drafts.Keys && Sees(world, me, i, command.key) {
        return InternalError;
      }
      var i :| i in world.rows.Keys + world.drafts.Keys && Sees(world, me, i, command.key);
      var run := View(world, me, i).value;
      if !CommandIdentityMatches(run.identity, command.identity) {
        return IdempotencyConflict;
      }
      Step(Select(me, command, i));
      return Ok(i, run, true);
    }

    // `before` is the table the statement met.
    method MarkCommandRunning(me: Client, id: Id, turn: Turn) returns (r: Result, ghost before: World)
      requires Valid() && me in world.open
      modifies this
      ensures Valid() && old(trace) <= trace && me in world.open && Ahead(old(world), before, me)
      ensures r.Ok? ==> View(before, me, id).Some? && View(before, me, id).value.status.Pending?
                        && world == Next(before, Mark(me, id))
      ensures r.Ok? ==> r.id == id && !r.replayed && View(world, me, id) == Some(r.run) && r.run.status.Running?
      ensures turn.fails ==> r.InternalError?
      ensures r.Ok? ==> DidWrite(old(world), world, me, id, r.run, Marked(id))
      ensures !r.Ok? ==> DidNothing(old(world), world, me)
      ensures r.IdempotencyConflict? ==> View(world, me, id).None? || !View(world, me, id).value.status.Pending?
      ensures r.InternalError? ==> turn.fails || Waits(world, me, id)
      ensures !r.InvalidInput?
    {
      Interfere(turn.others, me);
      before := world;
      if turn.fails || Waits(world, me, id) { return InternalError, before; }
      var run := View(world, me, id);
      if run.None? || !run.value.status.Pending? { return IdempotencyConflict, before; }
      Step(Mark(me, id));
      return Ok(id, world.drafts[id].run, false), before;
    }

    method CompleteCommandRun(me: Client, id: Id, completion: Completion, turn: Turn)
      returns (r: Result, ghost before: World)
      requires Valid() && me in world.open
      modifies this
      ensures Valid() && old(trace) <= trace && me in world.open && Ahead(old(world), before, me)
      ensures r.Ok? ==> View(before, me, id).Some? && !Terminal(View(before, me, id).value.status)
                        && world == Next(before, Complete(me, id, completion))
      ensures r.InvalidInput? <==>
        || completion.status !in {Succeeded, Failed, Rejected}
        || (completion.status == Succeeded <==> completion.errorCode.Some?)
      ensures r.Ok? ==> r.id == id && !r.replayed && View(world, me, id) == Some(r.run)
      ensures turn.fails ==> r.InternalError? || r.InvalidInput?
      ensures r.Ok? ==> DidWrite(old(world), world, me, id, r.run, Completed(id))
      ensures !r.Ok? ==> DidNothing(old(world), world, me)
      ensures r.Ok? ==> r.run.status == completion.status && r.run.errorCode == completion.errorCode
      ensures r.IdempotencyConflict? ==> View(world, me, id).None? || Terminal(View(world, me, id).value.status)
      ensures r.InternalError? ==> turn.fails || Waits(world, me, id)
    {
      if !Acceptable(completion) { return InvalidInput, world; }
      Interfere(turn.others, me);
      before := world;
      if turn.fails || Waits(world, me, id) { return InternalError, before; }
      var run := View(world, me, id);
      if run.None? || !(run.value.status.Pending? || run.value.status.Running?) { return IdempotencyConflict, before; }
      Step(Complete(me, id, completion));
      return Ok(id, world.drafts[id].run, false), before;
    }
  }
}
