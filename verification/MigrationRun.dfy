// One migrate() call, statement by statement, while other migrators and the
// server do anything in between. The oracle says, for each query, what the
// others do before it and how it comes back.
module MigrationRun {
  import opened Collections
  import opened Names
  import opened MigrationProtocol
  import opened MigrationSafety

  datatype Outcome = Ok | ServerError | ConnectionLost | ReplyLost

  // What happens around one query; `backend` is the pooler's choice for BEGIN.
  datatype Turn = Turn(others: seq<Event>, outcome: Outcome, backend: Backend)

  datatype Result =
    | Done(applied: seq<Name>)
    | Threw(cause: Cause, destroyConnection: bool)

  lemma {:induction false} ExecAppends(order: ReadOrder, w: World, es: seq<Event>, e: Event)
    ensures Exec(order, w, es + [e]) == Next(order, Exec(order, w, es), e)
  {
    assert (es + [e])[..|es|] == es;
  }

  lemma {:induction false} OthersDoNotBind(w: World, e: Event, c: Client)
    requires !By(e, c)
    ensures c !in w.bound ==> c !in Next(LockThenRead, w, e).bound
  {
  }

  class Database {
    var world: World
    ghost var initial: seq<Name>
    ghost var trace: seq<Event>

    ghost predicate Valid()
      reads this
    {
      NoDuplicates(initial) && world == Exec(LockThenRead, Initial(initial), trace)
    }

    ghost predicate Extends(before: seq<Event>, start: seq<Name>)
      reads this
    {
      before <= trace && initial == start
    }

    method Step(e: Event)
      requires Valid()
      modifies this
      ensures Valid() && world == Next(LockThenRead, old(world), e)
      ensures Extends(old(trace), old(initial))
    {
      ExecAppends(LockThenRead, Initial(initial), trace, e);
      world := Next(LockThenRead, world, e);
      trace := trace + [e];
    }

    method OtherStep(e: Event, me: Client)
      requires Valid() && me in world.clients && !By(e, me)
      modifies this
      ensures Valid() && Extends(old(trace), old(initial))
      ensures me in world.clients && world.clients[me] == old(world.clients[me])
      ensures me !in old(world.bound) ==> me !in world.bound
    {
      ReachableHasInv(initial, world);
      OthersLeaveAlone(world, e, me);
      OthersDoNotBind(world, e, me);
      Step(e);
    }

    // Everyone but `me` runs; what `me` believes stays as it was.
    method Interfere(others: seq<Event>, me: Client)
      requires Valid() && me in world.clients
      modifies this
      ensures Valid() && Extends(old(trace), old(initial))
      ensures me in world.clients && world.clients[me] == old(world.clients[me])
      ensures me !in old(world.bound) ==> me !in world.bound
    {
      for i := 0 to |others|
        invariant Valid() && Extends(old(trace), old(initial))
        invariant me in world.clients && world.clients[me] == old(world.clients[me])
        invariant me !in old(world.bound) ==> me !in world.bound
      {
        if !By(others[i], me) {
          OtherStep(others[i], me);
        }
      }
    }

    // The statement throws.
    method Fail(me: Client, lockTimedOut: bool, onServer: bool)
      requires Valid() && me in world.clients && InProgress(world.clients[me].phase)
      requires lockTimedOut ==> InTxn(world, me) && world.clients[me].phase.Begun?
      modifies this
      ensures Valid() && Extends(old(trace), old(initial))
      ensures me in world.clients && world.clients[me].listing == old(world.clients[me].listing)
      ensures world.clients[me].phase == RollingBack(if lockTimedOut then LockTimeout else StatementFailed)
    {
      Step(if lockTimedOut then LockTimesOut(me) else Fails(me, onServer));
    }

    // client.query: sends the statement whose effect is `e`, or throws.
    method Query(me: Client, e: Event, turn: Turn) returns (ok: bool, ghost before: World)
      requires Valid() && me in world.clients
      requires By(e, me) && (e.TakeLock? || e.ReadLedger? || e.RunBody? || e.RecordRow?)
      requires InProgress(world.clients[me].phase)
      modifies this
      ensures Valid() && Extends(old(trace), old(initial))
      ensures me in world.clients && world.clients[me].listing == old(world.clients[me].listing)
      ensures ok ==> me in before.clients && before.clients[me] == old(world.clients[me])
                     && InTxn(before, me) && (e.TakeLock? ==> before.lock.None?)
                     && world == Next(LockThenRead, before, e)
      ensures !ok ==> world.clients[me].phase.RollingBack?
                      && world.clients[me].phase.cause in {LockTimeout, StatementFailed}
    {
      Interfere(turn.others, me);
      ReachableHasInv(initial, world);
      ok := turn.outcome.Ok? && InTxn(world, me) && (e.TakeLock? ==> world.lock.None?);
      before := world;
      if ok {
        Step(e);
      } else {
        var serverError := turn.outcome.ServerError?;
        Fail(me, e.TakeLock? && serverError && InTxn(world, me) && world.clients[me].phase.Begun?, serverError);
      }
    }

    // One pass of the loop over the files: skip, or read, execute and record.
    method ApplyFile(me: Client, k: nat, bodyTurn: Turn, rowTurn: Turn, readable: Name -> bool)
      returns (ok: bool, ran: bool)
      requires Valid() && AtFile(world, me) && world.clients[me].phase.next == k && !world.clients[me].phase.bodyDone
      modifies this
      ensures Valid() && Extends(old(trace), old(initial))
      ensures me in world.clients && world.clients[me].listing == old(world.clients[me].listing)
      ensures ok ==> var p := old(world.clients[me].phase);
        && ran == (p.files[k] !in p.executed) && (ran ==> readable(p.files[k]))
        && world.clients[me].phase
           == p.(next := k + 1, applied := if ran then p.applied + [p.files[k]] else p.applied)
      ensures !ok ==> world.clients[me].phase.RollingBack?
                      && world.clients[me].phase.cause in {LockTimeout, StatementFailed}
    {
      var p := world.clients[me].phase;
      ok, ran := true, p.files[k] !in p.executed;
      if !ran {
        Step(Skip(me));
        return;
      }
      if !readable(p.files[k]) {
        Step(Fails(me, false));
        return false, false;
      }
      ok := RunAndRecord(me, bodyTurn, rowTurn);
    }

    // Executes the file's body, then records its row.
    method RunAndRecord(me: Client, bodyTurn: Turn, rowTurn: Turn) returns (ok: bool)
      requires Valid() && AtFile(world, me) && !world.clients[me].phase.bodyDone
      requires world.clients[me].phase.files[world.clients[me].phase.next] !in world.clients[me].phase.executed
      modifies this
      ensures Valid() && Extends(old(trace), old(initial))
      ensures me in world.clients && world.clients[me].listing == old(world.clients[me].listing)
      ensures ok ==> var p := old(world.clients[me].phase);
        world.clients[me].phase == p.(next := p.next + 1, applied := p.applied + [p.files[p.next]])
      ensures !ok ==> world.clients[me].phase.RollingBack?
                      && world.clients[me].phase.cause in {LockTimeout, StatementFailed}
    {
      var p := world.clients[me].phase;
      ghost var before;
      ok, before := Query(me, RunBody(me), bodyTurn);
      if !ok { return; }
      assert world.clients[me].phase == p.(bodyDone := true);
      ok, before := Query(me, RecordRow(me), rowTurn);
    }

    method ApplyFiles(me: Client, listing: Directory, executedNames: set<Name>, files: seq<Name>,
          turns: nat -> Turn, readable: Name -> bool)
      returns (ok: bool, applied: seq<Name>)
      requires Valid() && me in world.clients && world.clients[me].listing == listing
      requires world.clients[me].phase == Applying(executedNames, files, 0, false, [])
      modifies this
      ensures Valid() && Extends(old(trace), old(initial))
      ensures me in world.clients && world.clients[me].listing == listing
      ensures ok ==> world.clients[me].phase == Applying(executedNames, files, |files|, false, applied)
      ensures forall f :: f in applied ==> readable(f)
      ensures !ok ==> world.clients[me].phase.RollingBack?
    {
      applied := [];
      for k := 0 to |files|
        invariant Valid() && Extends(old(trace), old(initial))
        invariant me in world.clients && world.clients[me].listing == listing
        invariant world.clients[me].phase == Applying(executedNames, files, k, false, applied)
        invariant forall f :: f in applied ==> readable(f)
      {
        var ran;
        ok, ran := ApplyFile(me, k, turns(3 + 2 * k), turns(4 + 2 * k), readable);
        if !ok { return; }
        applied := if ran then applied + [files[k]] else applied;
      }
      ok := true;
    }

    method SendCommit(me: Client, turn: Turn) returns (ok: bool)
      requires Valid() && me in world.clients && world.clients[me].phase.Applying? && !world.clients[me].phase.bodyDone
      requires world.clients[me].phase.next == |world.clients[me].phase.files|
      modifies this
      ensures Valid() && Extends(old(trace), old(initial))
      ensures me in world.clients && world.clients[me].listing == old(world.clients[me].listing)
      ensures ok ==> world.clients[me].phase == Succeeded(old(world.clients[me].phase.applied)) && me !in world.bound
      ensures !ok ==> world.clients[me].phase.RollingBack?
                      && (HasCommitted(world, me) <==> world.clients[me].phase.cause.CommitReplyLost?)
    {
      Interfere(turn.others, me);
      ok := false;
      if turn.outcome.Ok? && InTxn(world, me) {
        Step(Commit(me, true));
        ok := true;
      } else if turn.outcome.ReplyLost? && InTxn(world, me) {
        Step(Commit(me, false));
      } else if turn.outcome.ServerError? && InTxn(world, me) {
        Step(CommitFails(me));
      } else {
        Step(Fails(me, false));
      }
      if !ok { CommittedUnlessItFailed(initial, world, me); }
    }

    // Connecting and BEGIN.
    method Connect(me: Client, turn: Turn) returns (ok: bool)
      requires Valid() && me in world.clients && world.clients[me].phase.Connecting? && me !in world.bound
      modifies this
      ensures Valid() && Extends(old(trace), old(initial))
      ensures me in world.clients && world.clients[me].listing == old(world.clients[me].listing)
      ensures ok ==> world.clients[me].phase.Begun?
      ensures !ok ==> world.clients[me].phase == Failed(ConnectFailed, true) && me !in world.bound
    {
      Interfere(turn.others, me);
      ok := turn.outcome.Ok? && turn.backend !in world.txns;
      Step(if ok then Begin(me, turn.backend) else ConnectFails(me));
    }

    // The lock, then the ledger, and what the directory has pending.
    method LockAndRead(me: Client, lockTurn: Turn, readTurn: Turn) returns (ok: bool)
      requires Valid() && me in world.clients && world.clients[me].phase.Begun?
      modifies this
      ensures Valid() && Extends(old(trace), old(initial))
      ensures me in world.clients && world.clients[me].listing == old(world.clients[me].listing)
      ensures var m := world.clients[me];
        ok ==> m.phase.Applying? && m.phase == Applying(m.phase.executed, MigrationFiles(m.listing), 0, false, [])
      ensures !ok ==> world.clients[me].phase.RollingBack?
    {
      ghost var before;
      ok, before := Query(me, TakeLock(me), lockTurn);
      if !ok { return; }
      ok, before := Query(me, ReadLedger(me), readTurn);
    }

    // The body of the try block. `ok` is false when something threw; the flag
    // `inTransaction` is what the catch block finds.
    method RunInTransaction(me: Client, listing: Directory, turns: nat -> Turn, readable: Name -> bool)
      returns (ok: bool, inTransaction: bool, applied: seq<Name>)
      requires Valid() && me in world.clients && world.clients[me] == Migrator(listing, Connecting)
      requires me !in world.bound
      modifies this
      ensures Valid() && Extends(old(trace), old(initial))
      ensures me in world.clients && world.clients[me].listing == listing
      ensures ok ==> world.clients[me].phase == Succeeded(applied) && me !in world.bound
      ensures forall f :: f in applied ==> readable(f)
      ensures !ok && inTransaction ==> world.clients[me].phase.RollingBack?
      ensures !ok && !inTransaction ==> world.clients[me].phase == Failed(ConnectFailed, true) && me !in world.bound
    {
      inTransaction, applied := false, [];
      ok := Connect(me, turns(0));
      if !ok { return; }
      inTransaction := true;
      ok := LockAndRead(me, turns(1), turns(2));
      if !ok { return; }
      var files := MigrationFiles(listing);
      ok, applied := ApplyFiles(me, listing, world.clients[me].phase.executed, files, turns, readable);
      if !ok { return; }
      ok := SendCommit(me, turns(3 + 2 * |files|));
      inTransaction := !ok;
    }

    // The catch block's ROLLBACK. A connection it failed on is destroyed.
    method RollBack(me: Client, turn: Turn) returns (cause: Cause, rolledBackCleanly: bool)
      requires Valid() && me in world.clients && world.clients[me].phase.RollingBack?
      modifies this
      ensures Valid() && Extends(old(trace), old(initial))
      ensures me in world.clients && world.clients[me].listing == old(world.clients[me].listing)
      ensures world.clients[me].phase == Failed(cause, rolledBackCleanly)
      ensures rolledBackCleanly ==> me !in world.bound
    {
      cause := world.clients[me].phase.cause;
      Interfere(turn.others, me);
      rolledBackCleanly := turn.outcome.Ok?;
      Step(if rolledBackCleanly then Rollback(me) else RollbackFails(me));
    }

    // migrate(): a run that returns has committed its whole directory; a run
    // that throws has committed nothing, unless only COMMIT's reply was lost;
    // and a connection handed back to the pool has no transaction open on it.
    method Migrate(me: Client, listing: Directory, turns: nat -> Turn, readable: Name -> bool, rollbackTurn: Turn)
      returns (r: Result)
      requires Valid() && me !in world.clients
      modifies this
      ensures Valid() && Extends(old(trace), old(initial))
      ensures me in world.clients && world.clients[me].listing == listing
      ensures r.Done? ==> world.clients[me].phase == Succeeded(r.applied)
      ensures r.Done? ==> InCodeOrder(r.applied) && HasCommitted(world, me)
      ensures r.Done? ==> forall f :: f in r.applied ==> readable(f)
      ensures r.Done? ==> forall stem: Name :: stem + ".sql" in listing ==> stem + ".sql" in world.ledger
      ensures r.Threw? ==> world.clients[me].phase == Failed(r.cause, !r.destroyConnection)
      ensures r.Threw? ==> (HasCommitted(world, me) <==> r.cause == CommitReplyLost)
      ensures me !in world.bound || (r.Threw? && r.destroyConnection)
    {
      ReachableHasInv(initial, world);
      Step(Start(me, listing));
      var rolledBackCleanly := true;
      var ok, inTransaction, applied := RunInTransaction(me, listing, turns, readable);
      if ok {
        r := Done(applied);
        SuccessMeansRecorded(initial, world, me);
        return;
      }
      var cause := ConnectFailed;
      if inTransaction {
        cause, rolledBackCleanly := RollBack(me, rollbackTurn);
      }
      r := Threw(cause, !rolledBackCleanly);
      FailureMeansNothingCommitted(initial, world, me);
    }
  }
}
