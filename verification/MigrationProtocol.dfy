// The migration run of src/cli/migrate.ts as a state machine: any number of
// migrators, each with its own directory, against one database behind a
// transaction-mode pooler. An event is one atomic server or client step; an
// event that cannot happen in a state leaves the state as it is, so every
// sequence of events is a run.
module MigrationProtocol {
  import opened Names
  import opened Wrappers

  type Client = nat
  type Backend = nat

  // Whether the ledger is read after the advisory lock is held (the program),
  // or before it (the order the program's comments warn against).
  datatype ReadOrder = LockThenRead | ReadThenLock

  datatype Cause = ConnectFailed | LockTimeout | StatementFailed | CommitRefused | CommitReplyLost

  datatype Phase =
    | Connecting
    | Begun
    | Peeked(snapshot: set<Name>)
    | Locked
    | Applying(executed: set<Name>, files: seq<Name>, next: nat, bodyDone: bool, applied: seq<Name>)
    | Succeeded(report: seq<Name>)
    | RollingBack(cause: Cause)
    | Failed(reason: Cause, clean: bool)
    | Crashed

  datatype Migrator = Migrator(listing: Directory, phase: Phase)

  // A server transaction: the ledger rows and the migration bodies it has
  // executed and not committed, or the aborted state a failed statement leaves.
  datatype Txn = Active(rows: seq<Name>, bodies: seq<Name>) | Aborted

  // A committed run and the directory it worked through, in commit order.
  datatype Committed = Committed(client: Client, listing: Directory)

  datatype World = World(
    ledger: seq<Name>,
    bodies: seq<Name>,
    commits: seq<Committed>,
    lock: Option<Backend>,
    txns: map<Backend, Txn>,
    bound: map<Client, Backend>,
    clients: map<Client, Migrator>)

  datatype Event =
    | Start(c: Client, listing: Directory)
    | ConnectFails(c: Client)
    | Begin(c: Client, b: Backend)
    | TakeLock(c: Client)
    | LockTimesOut(c: Client)
    | ReadLedger(c: Client)
    | Skip(c: Client)
    | RunBody(c: Client)
    | RecordRow(c: Client)
    | Fails(c: Client, onServer: bool)
    | Commit(c: Client, replyArrives: bool)
    | CommitFails(c: Client)
    | Rollback(c: Client)
    | RollbackFails(c: Client)
    | Crash(c: Client)
    | ServerEnds(b: Backend)

  function NamesOf(ledger: seq<Name>): set<Name> {
    set x | x in ledger
  }

  // The client's transaction is open on the backend the pooler bound to it.
  predicate InTxn(w: World, c: Client) {
    c in w.clients && c in w.bound && w.bound[c] in w.txns && w.txns[w.bound[c]].Active?
  }

  function At(w: World, c: Client, phase: Phase): World
    requires c in w.clients
  {
    w.(clients := w.clients[c := w.clients[c].(phase := phase)])
  }

  function Unlock(w: World, b: Backend): World {
    if w.lock == Some(b) then w.(lock := None) else w
  }

  // COMMIT, ROLLBACK or the end of a connection: the backend goes back to the
  // pool, and the transaction-scoped lock goes with the transaction.
  function EndTxn(w: World, b: Backend): World {
    Unlock(w, b).(
      txns := map x | x in w.txns && x != b :: w.txns[x],
      bound := map c | c in w.bound && w.bound[c] != b :: w.bound[c])
  }

  function AbortTxn(w: World, b: Backend): World
    requires b in w.txns
  {
    Unlock(w, b).(txns := w.txns[b := Aborted])
  }

  function TxnOf(w: World, c: Client): Txn
    requires InTxn(w, c)
  {
    w.txns[w.bound[c]]
  }

  function WithTxn(w: World, c: Client, t: Txn): World
    requires InTxn(w, c)
  {
    w.(txns := w.txns[w.bound[c] := t])
  }

  predicate InProgress(p: Phase) {
    p.Begun? || p.Peeked? || p.Locked? || p.Applying?
  }

  // `SELECT name FROM migrations` under READ COMMITTED: what is committed now,
  // with the transaction's own rows.
  function VisibleNames(w: World, c: Client): set<Name>
    requires InTxn(w, c)
  {
    NamesOf(w.ledger + TxnOf(w, c).rows)
  }

  function DoTakeLock(order: ReadOrder, w: World, c: Client): World {
    if InTxn(w, c) && w.lock.None? then
      var m := w.clients[c];
      if order.LockThenRead? && m.phase.Begun? then
        At(w, c, Locked).(lock := Some(w.bound[c]))
      else if order.ReadThenLock? && m.phase.Peeked? then
        At(w, c, Applying(m.phase.snapshot, MigrationFiles(m.listing), 0, false, [])).(lock := Some(w.bound[c]))
      else w
    else w
  }

  function DoReadLedger(order: ReadOrder, w: World, c: Client): World {
    if InTxn(w, c) then
      var m := w.clients[c];
      if order.LockThenRead? && m.phase.Locked? then
        At(w, c, Applying(VisibleNames(w, c), MigrationFiles(m.listing), 0, false, []))
      else if order.ReadThenLock? && m.phase.Begun? then
        At(w, c, Peeked(VisibleNames(w, c)))
      else w
    else w
  }

  predicate AtFile(w: World, c: Client) {
    c in w.clients && w.clients[c].phase.Applying? && w.clients[c].phase.next < |w.clients[c].phase.files|
  }

  function DoSkip(w: World, c: Client): World {
    if AtFile(w, c) then
      var p := w.clients[c].phase;
      if !p.bodyDone && p.files[p.next] in p.executed then At(w, c, p.(next := p.next + 1)) else w
    else w
  }

  function DoRunBody(w: World, c: Client): World {
    if InTxn(w, c) && AtFile(w, c) then
      var p := w.clients[c].phase;
      var file := p.files[p.next];
      if !p.bodyDone && file !in p.executed then
        var t := TxnOf(w, c);
        At(WithTxn(w, c, t.(bodies := t.bodies + [file])), c, p.(bodyDone := true))
      else w
    else w
  }

  // INSERT ... ON CONFLICT (name) DO NOTHING, then applied.push(file).
  function DoRecordRow(w: World, c: Client): World {
    if InTxn(w, c) && AtFile(w, c) then
      var p := w.clients[c].phase;
      var file := p.files[p.next];
      if p.bodyDone then
        var t := TxnOf(w, c);
        var rows := if file in VisibleNames(w, c) then t.rows else t.rows + [file];
        At(WithTxn(w, c, t.(rows := rows)), c,
           p.(next := p.next + 1, bodyDone := false, applied := p.applied + [file]))
      else w
    else w
  }

  predicate CanCommit(w: World, c: Client) {
    InTxn(w, c) && w.clients[c].phase.Applying? && !w.clients[c].phase.bodyDone
    && w.clients[c].phase.next == |w.clients[c].phase.files|
  }

  function DoCommit(w: World, c: Client, replyArrives: bool): World {
    if CanCommit(w, c) then
      var t := TxnOf(w, c);
      var next := if replyArrives then Succeeded(w.clients[c].phase.applied) else RollingBack(CommitReplyLost);
      At(EndTxn(w, w.bound[c]), c, next).(
        ledger := w.ledger + t.rows,
        bodies := w.bodies + t.bodies,
        commits := w.commits + [Committed(c, w.clients[c].listing)])
    else w
  }

  function EndClientTxn(w: World, c: Client): World {
    if c in w.bound then EndTxn(w, w.bound[c]) else w
  }

  function Next(order: ReadOrder, w: World, e: Event): World {
    match e
    case Start(c, listing) =>
      if c in w.clients then w else w.(clients := w.clients[c := Migrator(listing, Connecting)])
    case ConnectFails(c) =>
      if c in w.clients && w.clients[c].phase.Connecting? then At(w, c, Failed(ConnectFailed, true)) else w
    case Begin(c, b) =>
      if c in w.clients && w.clients[c].phase.Connecting? && c !in w.bound && b !in w.txns then
        At(w, c, Begun).(txns := w.txns[b := Active([], [])], bound := w.bound[c := b])
      else w
    case TakeLock(c) => DoTakeLock(order, w, c)
    case LockTimesOut(c) =>
      if InTxn(w, c) && (w.clients[c].phase.Begun? || w.clients[c].phase.Peeked?) then
        At(AbortTxn(w, w.bound[c]), c, RollingBack(LockTimeout))
      else w
    case ReadLedger(c) => DoReadLedger(order, w, c)
    case Skip(c) => DoSkip(w, c)
    case RunBody(c) => DoRunBody(w, c)
    case RecordRow(c) => DoRecordRow(w, c)
    case Fails(c, onServer) =>
      if c in w.clients && InProgress(w.clients[c].phase) then
        if onServer && InTxn(w, c) then At(AbortTxn(w, w.bound[c]), c, RollingBack(StatementFailed))
        else At(w, c, RollingBack(StatementFailed))
      else w
    case Commit(c, replyArrives) => DoCommit(w, c, replyArrives)
    case CommitFails(c) =>
      if CanCommit(w, c) then At(EndTxn(w, w.bound[c]), c, RollingBack(CommitRefused)) else w
    case Rollback(c) =>
      if c in w.clients && w.clients[c].phase.RollingBack? then
        At(EndClientTxn(w, c), c, Failed(w.clients[c].phase.cause, true))
      else w
    case RollbackFails(c) =>
      if c in w.clients && w.clients[c].phase.RollingBack? then
        At(w, c, Failed(w.clients[c].phase.cause, false))
      else w
    case Crash(c) =>
      if c in w.clients && !w.clients[c].phase.Failed? && !w.clients[c].phase.Succeeded? then At(w, c, Crashed) else w
    case ServerEnds(b) => EndTxn(w, b)
  }

  function Exec(order: ReadOrder, w: World, es: seq<Event>): World {
    if es == [] then w else Next(order, Exec(order, w, es[..|es| - 1]), es[|es| - 1])
  }

  function Initial(ledger: seq<Name>): World {
    World(ledger, [], [], None, map[], map[], map[])
  }
}
