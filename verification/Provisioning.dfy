// The admin roles' grants (src/admin/provisioning.ts): the declared lists, the
// statements built from them, and the privileges PostgreSQL holds after running
// them, on what exists and on functions created later. All grants are by one grantor
// and in one schema, and the named tables exist.
module Provisioning {
  import opened Wrappers

  datatype Role = Reader | Operator | Everyone | OtherRole(name: string)
  datatype Privilege = SELECT | INSERT | UPDATE | DELETE | TRUNCATE | USAGE | EXECUTE | OTHER
  datatype Target = Table(name: string) | Sequence(name: string) | Function(name: string) | Schema

  // One privilege of one role, on a whole object or on one column of a table.
  datatype Grant = Grant(role: Role, target: Target, privilege: Privilege, column: Option<string>)

  // A role that may execute the functions another will create.
  datatype Default = Default(creator: Role, grantee: Role)

  // The defaults stand apart: those for every schema, PostgreSQL's own among them,
  // and those a schema adds. `current` is the role that runs the statements.
  datatype State = State(
    grants: iset<Grant>, everywhere: iset<Default>, inSchema: iset<Default>, current: Role)

  datatype Statement =
    | RevokeAllOnTables(roles: set<Role>)
    | RevokeAllOnSequences(roles: set<Role>)
    | RevokeAllOnFunctions(roles: set<Role>)
    | RevokeAllOnSchema(roles: set<Role>)
    | GrantUsageOnSchema(roles: set<Role>)
    | GrantOnTables(privileges: set<Privilege>, tables: seq<string>, roles: set<Role>)
    | GrantOnColumns(privilege: Privilege, columns: seq<string>, table: string, roles: set<Role>)
    | GrantOnSequences(privileges: set<Privilege>, roles: set<Role>)
    | RevokeOnTable(privileges: set<Privilege>, table: string, roles: set<Role>)
    | RevokeExecuteOnFunctions(roles: set<Role>)
    | RevokeDefaultExecute

  // ---- The lists -------------------------------------------------------------------

  datatype Scope = Absent | WholeTable | Columns(columns: seq<string>)
  datatype Writes = Writes(insert: Scope, update: Scope, delete: bool)

  datatype Lists = Lists(
    readerTables: seq<string>,
    readerColumns: seq<(string, seq<string>)>,
    operatorFull: seq<string>,
    operatorWrites: seq<(string, Writes)>)

  const BOTH: set<Role> := {Reader, Operator}

  // The statements written out in buildAdminGrantStatements itself.
  const COMMAND_RUN_UPDATES := ["status", "started_at", "completed_at", "sanitized_result_json", "error_code"]
  const OPERATION_UPDATES :=
    ["status", "attempts", "locked_at", "locked_by", "completed_at", "sanitized_result_json", "error_code"]
  const TOTP_UPDATES := ["last_counter", "updated_at"]
  const ADDRESS_REQUEST_READS := ["request_id", "token_hash", "status", "created_at"]

  const REVOKES: seq<Statement> :=
    [RevokeAllOnTables(BOTH), RevokeAllOnSequences(BOTH), RevokeAllOnFunctions(BOTH), RevokeAllOnSchema(BOTH)]

  function TableReads(lists: Lists): seq<Statement> {
    [GrantUsageOnSchema(BOTH), GrantOnTables({SELECT}, lists.readerTables, BOTH)]
  }

  function ColumnReads(columns: seq<(string, seq<string>)>): seq<Statement> {
    if columns == [] then []
    else ColumnReads(columns[..|columns| - 1])
         + [GrantOnColumns(SELECT, columns[|columns| - 1].1, columns[|columns| - 1].0, BOTH)]
  }

  function FullReads(tables: seq<string>): seq<Statement> {
    if tables == [] then []
    else FullReads(tables[..|tables| - 1]) + [GrantOnTables({SELECT}, [tables[|tables| - 1]], {Operator})]
  }

  const FIXED: seq<Statement> := [
    GrantOnTables({INSERT}, ["admin_audit_events"], BOTH),
    GrantOnTables({INSERT}, ["admin_command_runs"], {Operator}),
    GrantOnColumns(UPDATE, COMMAND_RUN_UPDATES, "admin_command_runs", {Operator}),
    GrantOnColumns(UPDATE, OPERATION_UPDATES, "admin_operations", {Operator}),
    GrantOnTables({SELECT, INSERT}, ["admin_totp_counters"], {Operator}),
    GrantOnColumns(UPDATE, TOTP_UPDATES, "admin_totp_counters", {Operator}),
    GrantOnColumns(SELECT, ADDRESS_REQUEST_READS, "address_requests", {Operator}),
    GrantOnTables({DELETE}, ["address_requests"], {Operator})
  ]

  function WriteGrant(privilege: Privilege, scope: Scope, table: string): seq<Statement> {
    match scope
    case Absent => []
    case WholeTable => [GrantOnTables({privilege}, [table], {Operator})]
    case Columns(columns) => [GrantOnColumns(privilege, columns, table, {Operator})]
  }

  function WriteGrants(table: string, writes: Writes): seq<Statement> {
    WriteGrant(INSERT, writes.insert, table) + WriteGrant(UPDATE, writes.update, table)
    + WriteGrant(DELETE, if writes.delete then WholeTable else Absent, table)
  }

  function AllWriteGrants(writes: seq<(string, Writes)>): seq<Statement> {
    if writes == [] then []
    else AllWriteGrants(writes[..|writes| - 1]) + WriteGrants(writes[|writes| - 1].0, writes[|writes| - 1].1)
  }

  const SEQUENCES: seq<Statement> := [GrantOnSequences({USAGE, SELECT}, {Operator})]

  const CLOSING: seq<Statement> := [
    RevokeOnTable({UPDATE, DELETE, TRUNCATE}, "admin_audit_events", BOTH),
    RevokeExecuteOnFunctions({Everyone}),
    RevokeDefaultExecute
  ]

  function Built(lists: Lists): seq<Statement> {
    REVOKES + TableReads(lists) + ColumnReads(lists.readerColumns) + FullReads(lists.operatorFull)
    + FIXED + AllWriteGrants(lists.operatorWrites) + SEQUENCES + CLOSING
  }

  method PushColumnReads(before: seq<Statement>, entries: seq<(string, seq<string>)>)
    returns (statements: seq<Statement>)
    ensures statements == before + ColumnReads(entries)
  {
    statements := before;
    for i := 0 to |entries|
      invariant statements == before + ColumnReads(entries[..i])
    {
      assert entries[..i + 1][..i] == entries[..i];
      statements := statements + [GrantOnColumns(SELECT, entries[i].1, entries[i].0, BOTH)];
    }
    assert entries[..|entries|] == entries;
  }

  method PushFullReads(before: seq<Statement>, tables: seq<string>) returns (statements: seq<Statement>)
    ensures statements == before + FullReads(tables)
  {
    statements := before;
    for i := 0 to |tables|
      invariant statements == before + FullReads(tables[..i])
    {
      assert tables[..i + 1][..i] == tables[..i];
      statements := statements + [GrantOnTables({SELECT}, [tables[i]], {Operator})];
    }
    assert tables[..|tables|] == tables;
  }

  method PushTableWrites(before: seq<Statement>, name: string, w: Writes) returns (statements: seq<Statement>)
    ensures statements == before + WriteGrants(name, w)
  {
    statements := before;
    if w.insert.WholeTable? {
      statements := statements + [GrantOnTables({INSERT}, [name], {Operator})];
    } else if w.insert.Columns? {
      statements := statements + [GrantOnColumns(INSERT, w.insert.columns, name, {Operator})];
    }
    if w.update.WholeTable? {
      statements := statements + [GrantOnTables({UPDATE}, [name], {Operator})];
    } else if w.update.Columns? {
      statements := statements + [GrantOnColumns(UPDATE, w.update.columns, name, {Operator})];
    }
    if w.delete {
      statements := statements + [GrantOnTables({DELETE}, [name], {Operator})];
    }
  }

  method PushWrites(before: seq<Statement>, writes: seq<(string, Writes)>) returns (statements: seq<Statement>)
    ensures statements == before + AllWriteGrants(writes)
  {
    statements := before;
    for i := 0 to |writes|
      invariant statements == before + AllWriteGrants(writes[..i])
    {
      assert writes[..i + 1][..i] == writes[..i];
      statements := PushTableWrites(statements, writes[i].0, writes[i].1);
    }
    assert writes[..|writes|] == writes;
  }

  method BuildAdminGrantStatements(lists: Lists) returns (statements: seq<Statement>)
    ensures statements == Built(lists)
  {
    statements := PushColumnReads(REVOKES + TableReads(lists), lists.readerColumns);
    statements := PushFullReads(statements, lists.operatorFull);
    statements := PushWrites(statements + FIXED, lists.operatorWrites);
    statements := statements + SEQUENCES + CLOSING;
  }

  // ---- What PostgreSQL makes of them ---------------------------------------------

  // A privilege on a table, revoked, goes with that privilege on its columns.
  ghost predicate Revokes(st: Statement, g: Grant) {
    match st
    case RevokeAllOnTables(roles) => g.role in roles && g.target.Table?
    case RevokeAllOnSequences(roles) => g.role in roles && g.target.Sequence?
    case RevokeAllOnFunctions(roles) => g.role in roles && g.target.Function?
    case RevokeAllOnSchema(roles) => g.role in roles && g.target.Schema?
    case RevokeOnTable(privileges, table, roles) =>
      g.role in roles && g.target == Table(table) && g.privilege in privileges
    case RevokeExecuteOnFunctions(roles) => g.role in roles && g.target.Function? && g.privilege == EXECUTE
    case _ => false
  }

  ghost predicate Grants(st: Statement, sequences: set<string>, g: Grant) {
    match st
    case GrantUsageOnSchema(roles) => g.role in roles && g.target == Schema && g.privilege == USAGE && g.column.None?
    case GrantOnTables(privileges, tables, roles) =>
      g.role in roles && g.target.Table? && g.target.name in tables && g.privilege in privileges && g.column.None?
    case GrantOnColumns(privilege, columns, table, roles) =>
      g.role in roles && g.target == Table(table) && g.privilege == privilege
      && g.column.Some? && g.column.value in columns
    case GrantOnSequences(privileges, roles) =>
      g.role in roles && g.target.Sequence? && g.target.name in sequences && g.privilege in privileges && g.column.None?
    case _ => false
  }

  // ALTER DEFAULT PRIVILEGES ... IN SCHEMA, without FOR ROLE, changes what the schema
  // adds for the functions of the current role. It cannot take away what holds in
  // every schema.
  ghost function Run(s: State, sequences: set<string>, st: Statement): State {
    s.(grants := (iset g: Grant | Grants(st, sequences, g) || (g in s.grants && !Revokes(st, g))),
       inSchema := if st.RevokeDefaultExecute? then s.inSchema - iset{Default(s.current, Everyone)} else s.inSchema)
  }

  // CREATE FUNCTION: whoever a default of its creator names may execute it.
  ghost function Create(s: State, creator: Role, name: string): State {
    s.(grants := iset g: Grant |
         if g.target == Function(name)
         then g.privilege == EXECUTE && g.column.None? && Default(creator, g.role) in s.everywhere + s.inSchema
         else g in s.grants)
  }

  ghost function RunAll(s: State, sequences: set<string>, sts: seq<Statement>): State {
    if sts == [] then s else Run(RunAll(s, sequences, sts[..|sts| - 1]), sequences, sts[|sts| - 1])
  }

  lemma {:induction false} RunSplits(s: State, q: set<string>, a: seq<Statement>, b: seq<Statement>)
    ensures RunAll(s, q, a + b) == RunAll(RunAll(s, q, a), q, b)
  {
    if b == [] {
      assert a + b == a;
    } else {
      RunSplits(s, q, a, b[..|b| - 1]);
      assert (a + b)[..|a + b| - 1] == a + b[..|b| - 1];
    }
  }

  ghost predicate SameDefaults(s: State, t: State) {
    t.everywhere == s.everywhere && t.inSchema == s.inSchema && t.current == s.current
  }

  // What a statement list adds when none of it revokes.
  ghost predicate Gives(sts: seq<Statement>, q: set<string>, g: Grant) {
    exists i :: 0 <= i < |sts| && Grants(sts[i], q, g)
  }

  predicate OnlyGrants(sts: seq<Statement>) {
    forall i :: 0 <= i < |sts| ==>
      sts[i].GrantUsageOnSchema? || sts[i].GrantOnTables? || sts[i].GrantOnColumns? || sts[i].GrantOnSequences?
  }

  lemma {:induction false} GivesSplits(a: seq<Statement>, b: seq<Statement>, q: set<string>, g: Grant)
    ensures Gives(a + b, q, g) <==> Gives(a, q, g) || Gives(b, q, g)
    ensures OnlyGrants(a + b) <==> OnlyGrants(a) && OnlyGrants(b)
  {
    assert forall i :: 0 <= i < |a| ==> (a + b)[i] == a[i];
    assert forall i :: 0 <= i < |b| ==> (a + b)[|a| + i] == b[i];
  }

  lemma {:induction false} OneGives(st: Statement, q: set<string>, g: Grant)
    ensures Gives([st], q, g) <==> Grants(st, q, g)
    ensures !Gives([], q, g)
  {
    assert [st][0] == st;
  }

  lemma {:induction false} GrantsOnlyAdd(s: State, q: set<string>, sts: seq<Statement>, g: Grant)
    requires OnlyGrants(sts)
    ensures g in RunAll(s, q, sts).grants <==> g in s.grants || Gives(sts, q, g)
    ensures SameDefaults(s, RunAll(s, q, sts))
  {
    if sts != [] {
      var n := |sts| - 1;
      GrantsOnlyAdd(s, q, sts[..n], g);
      GivesSplits(sts[..n], [sts[n]], q, g);
      OneGives(sts[n], q, g);
      assert sts == sts[..n] + [sts[n]];
    }
  }

  // ---- What the lists declare ------------------------------------------------------

  predicate ColumnListed(columns: seq<(string, seq<string>)>, table: string, column: string) {
    exists i :: 0 <= i < |columns| && columns[i].0 == table && column in columns[i].1
  }

  predicate Covers(scope: Scope, column: Option<string>) {
    match scope
    case Absent => false
    case WholeTable => column.None?
    case Columns(columns) => column.Some? && column.value in columns
  }

  predicate WriteListed(writes: Writes, privilege: Privilege, column: Option<string>) {
    match privilege
    case INSERT => Covers(writes.insert, column)
    case UPDATE => Covers(writes.update, column)
    case DELETE => writes.delete && column.None?
    case _ => false
  }

  predicate AnyWriteListed(writes: seq<(string, Writes)>, table: string, privilege: Privilege, column: Option<string>) {
    exists i :: 0 <= i < |writes| && writes[i].0 == table && WriteListed(writes[i].1, privilege, column)
  }

  predicate ReadDeclared(lists: Lists, role: Role, table: string, column: Option<string>) {
    match column
    case None =>
      || table in lists.readerTables
      || (role.Operator? && (table in lists.operatorFull || table == "admin_totp_counters"))
    case Some(c) =>
      || ColumnListed(lists.readerColumns, table, c)
      || (role.Operator? && table == "address_requests" && c in ADDRESS_REQUEST_READS)
  }

  predicate FixedWrite(role: Role, table: string, privilege: Privilege, column: Option<string>) {
    match privilege
    case INSERT =>
      column.None? && (table == "admin_audit_events"
                       || (role.Operator? && table in {"admin_command_runs", "admin_totp_counters"}))
    case UPDATE =>
      role.Operator? && column.Some?
      && ((table == "admin_command_runs" && column.value in COMMAND_RUN_UPDATES)
          || (table == "admin_operations" && column.value in OPERATION_UPDATES)
          || (table == "admin_totp_counters" && column.value in TOTP_UPDATES))
    case DELETE => role.Operator? && column.None? && table == "address_requests"
    case _ => false
  }

  // What the lists and the fixed statements grant the two roles.
  predicate Granted(lists: Lists, q: set<string>, g: Grant) {
    match g.target
    case Schema => g.privilege == USAGE && g.column.None?
    case Sequence(name) => g.role.Operator? && name in q && g.privilege in {USAGE, SELECT} && g.column.None?
    case Function(_) => false
    case Table(t) =>
      if g.privilege == SELECT then ReadDeclared(lists, g.role, t, g.column)
      else
        || FixedWrite(g.role, t, g.privilege, g.column)
        || (g.role.Operator? && AnyWriteListed(lists.operatorWrites, t, g.privilege, g.column))
  }

  // The audit events may never be rewritten, whatever a list says.
  predicate RewritesAudit(g: Grant) {
    g.target == Table("admin_audit_events") && g.privilege in {UPDATE, DELETE, TRUNCATE}
  }

  // What the two roles are meant to hold, and nothing more.
  predicate Declared(lists: Lists, q: set<string>, g: Grant) {
    Granted(lists, q, g) && !RewritesAudit(g)
  }

  lemma {:induction false} ColumnReadsGive(columns: seq<(string, seq<string>)>, q: set<string>, g: Grant)
    ensures OnlyGrants(ColumnReads(columns))
    ensures Gives(ColumnReads(columns), q, g)
       <==> (g.role in BOTH && g.target.Table? && g.privilege == SELECT && g.column.Some?
             && ColumnListed(columns, g.target.name, g.column.value))
  {
    if columns != [] {
      var n := |columns| - 1;
      ColumnReadsGive(columns[..n], q, g);
      var last := GrantOnColumns(SELECT, columns[n].1, columns[n].0, BOTH);
      GivesSplits(ColumnReads(columns[..n]), [last], q, g);
      OneGives(last, q, g);
      if g.target.Table? && g.column.Some? {
        var t, c := g.target.name, g.column.value;
        assert ColumnListed(columns, t, c)
          <==> (ColumnListed(columns[..n], t, c) || (columns[n].0 == t && c in columns[n].1));
      }
    }
  }

  lemma {:induction false} FullReadsGive(tables: seq<string>, q: set<string>, g: Grant)
    ensures OnlyGrants(FullReads(tables))
    ensures Gives(FullReads(tables), q, g)
       <==> (g.role.Operator? && g.target.Table? && g.privilege == SELECT && g.column.None? && g.target.name in tables)
  {
    if tables != [] {
      var n := |tables| - 1;
      FullReadsGive(tables[..n], q, g);
      var last := GrantOnTables({SELECT}, [tables[n]], {Operator});
      GivesSplits(FullReads(tables[..n]), [last], q, g);
      OneGives(last, q, g);
      assert forall t :: t in tables <==> t in tables[..n] || t == tables[n];
    }
  }

  lemma {:induction false} WriteGrantGives(p: Privilege, scope: Scope, table: string, q: set<string>, g: Grant)
    ensures OnlyGrants(WriteGrant(p, scope, table))
    ensures Gives(WriteGrant(p, scope, table), q, g)
       <==> (g.role.Operator? && g.target == Table(table) && g.privilege == p && Covers(scope, g.column))
  {
    if !scope.Absent? { OneGives(WriteGrant(p, scope, table)[0], q, g); }
  }

  lemma {:induction false} TableWritesGive(table: string, writes: Writes, q: set<string>, g: Grant)
    ensures OnlyGrants(WriteGrants(table, writes))
    ensures Gives(WriteGrants(table, writes), q, g)
       <==> (g.role.Operator? && g.target == Table(table) && WriteListed(writes, g.privilege, g.column))
  {
    var deletes := if writes.delete then WholeTable else Absent;
    WriteGrantGives(INSERT, writes.insert, table, q, g);
    WriteGrantGives(UPDATE, writes.update, table, q, g);
    WriteGrantGives(DELETE, deletes, table, q, g);
    GivesSplits(WriteGrant(INSERT, writes.insert, table), WriteGrant(UPDATE, writes.update, table), q, g);
    GivesSplits(WriteGrant(INSERT, writes.insert, table) + WriteGrant(UPDATE, writes.update, table),
                WriteGrant(DELETE, deletes, table), q, g);
  }

  lemma {:induction false} AllWritesGive(writes: seq<(string, Writes)>, q: set<string>, g: Grant)
    ensures OnlyGrants(AllWriteGrants(writes))
    ensures Gives(AllWriteGrants(writes), q, g)
       <==> (g.role.Operator? && g.target.Table? && AnyWriteListed(writes, g.target.name, g.privilege, g.column))
  {
    if writes != [] {
      var n := |writes| - 1;
      AllWritesGive(writes[..n], q, g);
      TableWritesGive(writes[n].0, writes[n].1, q, g);
      GivesSplits(AllWriteGrants(writes[..n]), WriteGrants(writes[n].0, writes[n].1), q, g);
      if g.target.Table? {
        var t := g.target.name;
        assert AnyWriteListed(writes, t, g.privilege, g.column)
          <==> (AnyWriteListed(writes[..n], t, g.privilege, g.column)
                || (writes[n].0 == t && WriteListed(writes[n].1, g.privilege, g.column)));
      }
    }
  }

  lemma {:induction false} FixedGives(q: set<string>, g: Grant)
    ensures OnlyGrants(FIXED)
    ensures Gives(FIXED, q, g) <==>
      g.role in BOTH && g.target.Table? &&
      if g.privilege == SELECT then
        && g.role.Operator?
        && ((g.target.name == "admin_totp_counters" && g.column.None?)
            || (g.target.name == "address_requests" && g.column.Some? && g.column.value in ADDRESS_REQUEST_READS))
      else FixedWrite(g.role, g.target.name, g.privilege, g.column)
  {
    assert Gives(FIXED, q, g) <==>
      || Grants(FIXED[0], q, g) || Grants(FIXED[1], q, g) || Grants(FIXED[2], q, g) || Grants(FIXED[3], q, g)
      || Grants(FIXED[4], q, g) || Grants(FIXED[5], q, g) || Grants(FIXED[6], q, g) || Grants(FIXED[7], q, g);
  }

  lemma {:induction false} RunOne(s: State, q: set<string>, st: Statement)
    ensures RunAll(s, q, [st]) == Run(s, q, st)
  {
    assert [st][..0] == [];
  }

  lemma {:induction false} RevokesClear(s: State, q: set<string>, g: Grant)
    ensures g in RunAll(s, q, REVOKES).grants <==> g in s.grants && g.role !in BOTH
    ensures SameDefaults(s, RunAll(s, q, REVOKES))
  {
    var r := REVOKES;
    assert r == [r[0]] + [r[1]] + [r[2]] + [r[3]];
    RunSplits(s, q, [r[0]] + [r[1]] + [r[2]], [r[3]]);
    RunSplits(s, q, [r[0]] + [r[1]], [r[2]]);
    RunSplits(s, q, [r[0]], [r[1]]);
    RunOne(s, q, r[0]);
    RunOne(Run(s, q, r[0]), q, r[1]);
    RunOne(Run(Run(s, q, r[0]), q, r[1]), q, r[2]);
    RunOne(Run(Run(Run(s, q, r[0]), q, r[1]), q, r[2]), q, r[3]);
  }

  // The three closing statements, one after another.
  lemma {:induction false} ClosingRuns(s: State, q: set<string>)
    ensures RunAll(s, q, CLOSING) == Run(Run(Run(s, q, CLOSING[0]), q, CLOSING[1]), q, CLOSING[2])
  {
    var r := CLOSING;
    assert r == [r[0]] + [r[1]] + [r[2]];
    RunSplits(s, q, [r[0]] + [r[1]], [r[2]]);
    RunSplits(s, q, [r[0]], [r[1]]);
    RunOne(s, q, r[0]);
    RunOne(Run(s, q, r[0]), q, r[1]);
    RunOne(Run(Run(s, q, r[0]), q, r[1]), q, r[2]);
  }

  lemma {:induction false} ClosingTakes(s: State, q: set<string>, g: Grant)
    ensures g in RunAll(s, q, CLOSING).grants
       <==> (g in s.grants && !(g.role in BOTH && RewritesAudit(g))
             && !(g.role.Everyone? && g.target.Function? && g.privilege == EXECUTE))
  {
    ClosingRuns(s, q);
  }

  // All the last statement does: the schema adds nothing for PUBLIC to the functions
  // of the current role.
  ghost predicate DefaultsAfter(s: State, t: State) {
    && t.everywhere == s.everywhere && t.current == s.current
    && t.inSchema == s.inSchema - iset{Default(s.current, Everyone)}
  }

  lemma {:induction false} ClosingLeaves(s: State, q: set<string>)
    ensures DefaultsAfter(s, RunAll(s, q, CLOSING))
  {
    ClosingRuns(s, q);
  }

  // The grants between the revokes, one part after another.
  ghost function Granting(s: State, q: set<string>, lists: Lists): State {
    var s1 := RunAll(s, q, TableReads(lists));
    var s2 := RunAll(s1, q, ColumnReads(lists.readerColumns));
    var s3 := RunAll(s2, q, FullReads(lists.operatorFull));
    var s4 := RunAll(s3, q, FIXED);
    var s5 := RunAll(s4, q, AllWriteGrants(lists.operatorWrites));
    RunAll(s5, q, SEQUENCES)
  }

  lemma {:induction false} TableReadsGive(lists: Lists, q: set<string>, g: Grant)
    ensures OnlyGrants(TableReads(lists)) && OnlyGrants(SEQUENCES)
    ensures Gives(TableReads(lists), q, g) <==>
      || (g.role in BOTH && g.target == Schema && g.privilege == USAGE && g.column.None?)
      || (g.role in BOTH && g.target.Table? && g.privilege == SELECT && g.column.None?
          && g.target.name in lists.readerTables)
    ensures Gives(SEQUENCES, q, g) <==>
      g.role.Operator? && g.target.Sequence? && g.target.name in q && g.privilege in {USAGE, SELECT} && g.column.None?
  {
    var r := TableReads(lists);
    assert Gives(r, q, g) <==> Grants(r[0], q, g) || Grants(r[1], q, g);
    OneGives(SEQUENCES[0], q, g);
  }

  lemma {:induction false} GrantingGrants(s: State, q: set<string>, lists: Lists, g: Grant)
    ensures g in Granting(s, q, lists).grants <==> g in s.grants || (g.role in BOTH && Granted(lists, q, g))
    ensures SameDefaults(s, Granting(s, q, lists))
  {
    TableReadsGive(lists, q, g);
    ColumnReadsGive(lists.readerColumns, q, g);
    FullReadsGive(lists.operatorFull, q, g);
    FixedGives(q, g);
    AllWritesGive(lists.operatorWrites, q, g);
    var s1 := RunAll(s, q, TableReads(lists));
    var s2 := RunAll(s1, q, ColumnReads(lists.readerColumns));
    var s3 := RunAll(s2, q, FullReads(lists.operatorFull));
    var s4 := RunAll(s3, q, FIXED);
    var s5 := RunAll(s4, q, AllWriteGrants(lists.operatorWrites));
    GrantsOnlyAdd(s, q, TableReads(lists), g);
    GrantsOnlyAdd(s1, q, ColumnReads(lists.readerColumns), g);
    GrantsOnlyAdd(s2, q, FullReads(lists.operatorFull), g);
    GrantsOnlyAdd(s3, q, FIXED, g);
    GrantsOnlyAdd(s4, q, AllWriteGrants(lists.operatorWrites), g);
    GrantsOnlyAdd(s5, q, SEQUENCES, g);
  }

  lemma {:induction false} BuiltRuns(s: State, q: set<string>, lists: Lists)
    ensures RunAll(s, q, Built(lists)) == RunAll(Granting(RunAll(s, q, REVOKES), q, lists), q, CLOSING)
  {
    var p1 := REVOKES + TableReads(lists);
    var p2 := p1 + ColumnReads(lists.readerColumns);
    var p3 := p2 + FullReads(lists.operatorFull);
    var p4 := p3 + FIXED;
    var p5 := p4 + AllWriteGrants(lists.operatorWrites);
    RunSplits(s, q, p5 + SEQUENCES, CLOSING);
    RunSplits(s, q, p5, SEQUENCES);
    RunSplits(s, q, p4, AllWriteGrants(lists.operatorWrites));
    RunSplits(s, q, p3, FIXED);
    RunSplits(s, q, p2, FullReads(lists.operatorFull));
    RunSplits(s, q, p1, ColumnReads(lists.readerColumns));
    RunSplits(s, q, REVOKES, TableReads(lists));
  }

  // From any privileges held before, each of the two roles ends with exactly what
  // is declared.
  lemma {:induction false} ProvisionsExactly(s: State, q: set<string>, lists: Lists, g: Grant)
    requires g.role in BOTH
    ensures g in RunAll(s, q, Built(lists)).grants <==> Declared(lists, q, g)
  {
    BuiltRuns(s, q, lists);
    RevokesClear(s, q, g);
    GrantingGrants(RunAll(s, q, REVOKES), q, lists, g);
    ClosingTakes(Granting(RunAll(s, q, REVOKES), q, lists), q, g);
  }

  // No other role is touched, but that nobody may run the functions there are
  // through PUBLIC.
  lemma {:induction false} OthersKeepTheirs(s: State, q: set<string>, lists: Lists, g: Grant)
    requires g.role !in BOTH
    ensures g in RunAll(s, q, Built(lists)).grants
       <==> (g in s.grants && !(g.role.Everyone? && g.target.Function? && g.privilege == EXECUTE))
    ensures DefaultsAfter(s, RunAll(s, q, Built(lists)))
  {
    BuiltRuns(s, q, lists);
    RevokesClear(s, q, g);
    GrantingGrants(RunAll(s, q, REVOKES), q, lists, g);
    ClosingTakes(Granting(RunAll(s, q, REVOKES), q, lists), q, g);
    ClosingLeaves(Granting(RunAll(s, q, REVOKES), q, lists), q);
  }

  // Running the statements twice is running them once.
  lemma {:induction false} ProvisioningIsIdempotent(s: State, q: set<string>, lists: Lists)
    ensures RunAll(RunAll(s, q, Built(lists)), q, Built(lists)) == RunAll(s, q, Built(lists))
  {
    var once := RunAll(s, q, Built(lists));
    var twice := RunAll(once, q, Built(lists));
    forall g: Grant ensures g in twice.grants <==> g in once.grants {
      if g.role in BOTH {
        ProvisionsExactly(s, q, lists, g);
        ProvisionsExactly(once, q, lists, g);
      } else {
        OthersKeepTheirs(s, q, lists, g);
        OthersKeepTheirs(once, q, lists, g);
      }
    }
    var some := Grant(Everyone, Schema, USAGE, None);
    OthersKeepTheirs(s, q, lists, some);
    OthersKeepTheirs(once, q, lists, some);
    assert twice.grants == once.grants;
  }

  // ---- Functions created later ---------------------------------------------------

  // Whether a role may execute a function, by its own grants or everyone's.
  ghost predicate CanExecute(s: State, role: Role, name: string) {
    Grant(role, Function(name), EXECUTE, None) in s.grants || Grant(Everyone, Function(name), EXECUTE, None) in s.grants
  }

  // The defaults left for a grantee: all but the schema's own for PUBLIC, on the
  // functions of the role that provisioned.
  ghost predicate DefaultRemains(s: State, creator: Role, grantee: Role) {
    || Default(creator, grantee) in s.everywhere
    || (Default(creator, grantee) in s.inSchema && !(creator == s.current && grantee.Everyone?))
  }

  // Who may execute a function created after the statements: whom a default names
  // that they leave, or everyone when one names PUBLIC.
  lemma {:induction false} NewFunctionsRunExactly(s: State, q: set<string>, lists: Lists, creator: Role, name: string,
        role: Role)
    ensures CanExecute(Create(RunAll(s, q, Built(lists)), creator, name), role, name)
       <==> DefaultRemains(s, creator, role) || DefaultRemains(s, creator, Everyone)
  {
    OthersKeepTheirs(s, q, lists, Grant(Everyone, Schema, USAGE, None));
  }

  // PUBLIC may execute a function that the provisioning role creates later if and
  // only if the default for every schema says so: the statements do not matter.
  lemma {:induction false} NewFunctionsArePublicExactly(s: State, q: set<string>, lists: Lists, name: string)
    ensures CanExecute(Create(RunAll(s, q, Built(lists)), s.current, name), Everyone, name)
       <==> Default(s.current, Everyone) in s.everywhere
  {
    NewFunctionsRunExactly(s, q, lists, s.current, name, Everyone);
  }

  // PostgreSQL's own defaults: PUBLIC may execute every function.
  ghost const BUILT_IN: iset<Default> := iset d: Default | d.grantee.Everyone?

  // With the defaults as PostgreSQL has them, the reader may execute each function
  // created after provisioning, whoever creates it, and none that was there before.
  lemma {:induction false} ReaderRunsNewFunctions(grants: iset<Grant>, current: Role, q: set<string>, lists: Lists,
        creator: Role, name: string)
    ensures var after := RunAll(State(grants, BUILT_IN, iset{}, current), q, Built(lists));
      !CanExecute(after, Reader, name) && CanExecute(Create(after, creator, name), Reader, name)
  {
    var s := State(grants, BUILT_IN, iset{}, current);
    NewFunctionsRunExactly(s, q, lists, creator, name, Reader);
    ProvisionsExactly(s, q, lists, Grant(Reader, Function(name), EXECUTE, None));
    OthersKeepTheirs(s, q, lists, Grant(Everyone, Function(name), EXECUTE, None));
  }

  // ---- What the roles may do -------------------------------------------------------

  // Whether a role can read a column, through its own grants or everyone's.
  ghost predicate CanRead(s: State, role: Role, table: string, column: string) {
    exists r: Role, c: Option<string> ::
      (r == role || r.Everyone?) && (c.None? || c == Some(column)) && Grant(r, Table(table), SELECT, c) in s.grants
  }

  // The reader can select exactly the columns of its lists.
  lemma {:induction false} ReaderReadsItsListsOnly(s: State, q: set<string>, lists: Lists, table: string,
        column: string)
    requires forall c :: Grant(Everyone, Table(table), SELECT, c) !in s.grants
    ensures CanRead(RunAll(s, q, Built(lists)), Reader, table, column)
       <==> (table in lists.readerTables || ColumnListed(lists.readerColumns, table, column))
  {
    var after := RunAll(s, q, Built(lists));
    ProvisionsExactly(s, q, lists, Grant(Reader, Table(table), SELECT, None));
    ProvisionsExactly(s, q, lists, Grant(Reader, Table(table), SELECT, Some(column)));
    OthersKeepTheirs(s, q, lists, Grant(Everyone, Table(table), SELECT, None));
    OthersKeepTheirs(s, q, lists, Grant(Everyone, Table(table), SELECT, Some(column)));
    assert Grant(Reader, Table(table), SELECT, None) in after.grants ==> CanRead(after, Reader, table, column);
    assert Grant(Reader, Table(table), SELECT, Some(column)) in after.grants ==> CanRead(after, Reader, table, column);
  }

  // The reader writes nothing but audit events, and neither role can change one.
  lemma {:induction false} ReaderOnlyAppends(s: State, q: set<string>, lists: Lists, g: Grant)
    requires g in RunAll(s, q, Built(lists)).grants && g.role in BOTH && g.target.Table?
    ensures g.role.Reader? && g.privilege != SELECT ==> g == Grant(Reader, Table("admin_audit_events"), INSERT, None)
    ensures !RewritesAudit(g)
  {
    ProvisionsExactly(s, q, lists, g);
  }
}
