// The account table under every sign-in: prepareAuthenticatedUser (src/auth/identity.ts)
// over getOrCreateUser (src/services/userService.ts), statement by statement, with
// other sign-ins, account erasures and the rows that grants, promotions and gifts
// open (ensureAccountRowWithClient) in between. The table has a unique index on
// lower(email) and the constraint users_erased_tombstone.
module Identity {
  import opened Wrappers
  import opened Settings
  import opened EmailClaims

  type Subject = string
  type Client = nat
  datatype User = User(email: string, erased: bool)
  type Users = map<Subject, User>

  datatype Outcome = SignedIn(address: string) | AccountErased | EmailAlreadyLinked | VerifiedEmailRequired | Failed

  // Where a sign-in stands: the statement it sends next.
  datatype Phase =
    | Reading(u: Subject, claim: Option<EmailClaim>)
    | Updating(u: Subject, a: string)
    | Inserting(u: Subject, a: string)
    | FindingWinner(u: Subject, a: string)
    | FindingHolder(u: Subject, a: string)
    | InConflict(u: Subject, a: string)
    | Done(u: Subject, outcome: Outcome)

  // `confirmed` are the addresses tokens presented, confirmed; `passed` are those that
  // ensureAccountRowWithClient was called with.
  datatype World = World(
    users: Users, clients: map<Client, Phase>, confirmed: set<(Subject, string)>, passed: set<(Subject, string)>)

  datatype Event =
    | Arrive(c: Client, u: Subject, claim: Option<EmailClaim>)
    | Proceed(c: Client)
    | StatementFails(c: Client)
    | Erase(u: Subject, placeholder: string)
    | EnsureRow(u: Subject, email: Option<string>)

  // email LIKE 'erased-%@erased.invalid'
  predicate TombstoneShaped(email: string) {
    && |email| >= |"erased-"| + |"@erased.invalid"|
    && email[..|"erased-"|] == "erased-"
    && email[|email| - |"@erased.invalid"|..] == "@erased.invalid"
  }

  lemma {:induction false} TombstonesAreWrapped(email: string)
    ensures TombstoneShaped(email) <==> exists name: string :: email == "erased-" + name + "@erased.invalid"
  {
    if TombstoneShaped(email) {
      var name := email[|"erased-"|..|email| - |"@erased.invalid"|];
      assert email == email[..|"erased-"|] + name + email[|email| - |"@erased.invalid"|..];
    }
    forall name: string | email == "erased-" + name + "@erased.invalid" ensures TombstoneShaped(email) {
      assert email[|email| - |"@erased.invalid"|..] == "@erased.invalid";
    }
  }

  predicate Held(users: Users, a: string) {
    exists u :: u in users && Lower(users[u].email) == Lower(a)
  }

  predicate HeldByOther(users: Users, u: Subject, a: string) {
    exists v :: v in users && v != u && Lower(users[v].email) == Lower(a)
  }

  predicate Confirmed(claim: Option<EmailClaim>) {
    claim.Some? && claim.value.verdict == Some(true)
  }

  function ExistingOutcome(user: User): Outcome {
    if user.erased then AccountErased else SignedIn(user.email)
  }

  function AfterRead(users: Users, u: Subject, claim: Option<EmailClaim>): Phase {
    if Confirmed(claim) then
      var a := claim.value.address;
      if u !in users then Inserting(u, a)
      else if users[u].erased then Done(u, AccountErased)
      else if users[u].email != a then Updating(u, a)
      else Done(u, SignedIn(a))
    else if u in users then Done(u, ExistingOutcome(users[u]))
    else Done(u, VerifiedEmailRequired)
  }

  // The next statement of a sign-in: the table and the phase after it.
  function Statement(users: Users, p: Phase): (Users, Phase) {
    match p
    case Reading(u, claim) => (users, AfterRead(users, u, claim))
    case Updating(u, a) =>
      if u !in users || (users[u].erased && !TombstoneShaped(a)) then (users, Done(u, Failed))
      else if HeldByOther(users, u, a) then (users, InConflict(u, a))
      else (users[u := users[u].(email := a)], Done(u, SignedIn(a)))
    case Inserting(u, a) =>
      if u in users || Held(users, a) then (users, FindingWinner(u, a))
      else (users[u := User(a, false)], Done(u, SignedIn(a)))
    case FindingWinner(u, a) => (users, if u in users then Done(u, SignedIn(a)) else FindingHolder(u, a))
    case FindingHolder(u, a) => (users, if Held(users, a) then InConflict(u, a) else Done(u, Failed))
    case InConflict(u, a) =>
      (users, Done(u, if u in users then ExistingOutcome(users[u]) else EmailAlreadyLinked))
    case Done(_, _) => (users, p)
  }

  // The address a caller of ensureAccountRowWithClient passes, if it is one.
  function PassedAddress(email: Option<string>): string {
    if email.Some? then Trim(email.value) else ""
  }

  // ensureAccountRowWithClient, as far as the address goes: a row that is there keeps
  // its own, and an address another subject holds raises.
  function DoEnsureRow(w: World, u: Subject, a: string): World {
    if a == "" then w
    else w.(users := if u in w.users || Held(w.users, a) then w.users else w.users[u := User(a, false)],
            passed := w.passed + {(u, a)})
  }

  function Next(w: World, e: Event): World {
    match e
    case Arrive(c, u, claim) =>
      if c in w.clients then w
      else w.(clients := w.clients[c := Reading(u, claim)],
              confirmed := if Confirmed(claim) then w.confirmed + {(u, claim.value.address)} else w.confirmed)
    case Proceed(c) =>
      if c !in w.clients then w
      else
        var (users, p) := Statement(w.users, w.clients[c]);
        w.(users := users, clients := w.clients[c := p])
    case StatementFails(c) =>
      if c in w.clients && !w.clients[c].Done? then w.(clients := w.clients[c := Done(w.clients[c].u, Failed)]) else w
    case Erase(u, placeholder) =>
      if u in w.users && !w.users[u].erased && TombstoneShaped(placeholder) && !Held(w.users, placeholder)
      then w.(users := w.users[u := User(placeholder, true)])
      else w
    case EnsureRow(u, email) => DoEnsureRow(w, u, PassedAddress(email))
  }

  function Exec(w: World, es: seq<Event>): World {
    if es == [] then w else Next(Exec(w, es[..|es| - 1]), es[|es| - 1])
  }

  const EMPTY: World := World(map[], map[], {}, {})

  // ---- The invariant --------------------------------------------------------------

  ghost predicate Unique(users: Users) {
    forall u, v :: u in users && v in users && Lower(users[u].email) == Lower(users[v].email) ==> u == v
  }

  // The addresses given for each subject, by its tokens or in its name.
  function Given(w: World): set<(Subject, string)> {
    w.confirmed + w.passed
  }

  // Every address stored was given for its own subject.
  ghost predicate Provenance(w: World) {
    forall u :: u in w.users ==>
      if w.users[u].erased then TombstoneShaped(w.users[u].email) else (u, w.users[u].email) in Given(w)
  }

  ghost predicate PhasesOk(w: World) {
    forall c :: c in w.clients ==>
      match w.clients[c]
      case Reading(u, claim) => Confirmed(claim) ==> (u, claim.value.address) in w.confirmed
      case Updating(u, a) => (u, a) in w.confirmed && u in w.users
      case Inserting(u, a) => (u, a) in w.confirmed
      case FindingWinner(u, a) => (u, a) in w.confirmed
      case FindingHolder(u, a) => (u, a) in w.confirmed
      case InConflict(u, a) => (u, a) in w.confirmed
      case Done(_, _) => true
  }

  ghost predicate Inv(w: World) {
    Unique(w.users) && Provenance(w) && PhasesOk(w)
  }

  lemma {:induction false} StepKeepsUnique(w: World, e: Event)
    requires Unique(w.users)
    ensures Unique(Next(w, e).users)
  {
  }

  lemma {:induction false} StepKeepsPhases(w: World, e: Event)
    requires PhasesOk(w)
    ensures PhasesOk(Next(w, e))
  {
  }

  lemma {:induction false} StepKeepsProvenance(w: World, e: Event)
    requires Provenance(w) && PhasesOk(w)
    ensures Provenance(Next(w, e))
  {
  }

  lemma {:induction false} RunKeepsInv(es: seq<Event>)
    ensures Inv(Exec(EMPTY, es))
  {
    if es != [] {
      var before, e := Exec(EMPTY, es[..|es| - 1]), es[|es| - 1];
      RunKeepsInv(es[..|es| - 1]);
      StepKeepsUnique(before, e);
      StepKeepsPhases(before, e);
      StepKeepsProvenance(before, e);
    }
  }

  // ---- Over every run ----------------------------------------------------------------

  // No address is held twice, and each is one its own subject's token confirmed, one
  // passed in its name for a grant, a promotion or a gift, or a tombstone's placeholder.
  lemma {:induction false} StoredAddressesAreConfirmed(es: seq<Event>, u: Subject)
    requires u in Exec(EMPTY, es).users
    ensures var w := Exec(EMPTY, es);
      && (forall v :: v in w.users && v != u ==> Lower(w.users[v].email) != Lower(w.users[u].email))
      && if w.users[u].erased then TombstoneShaped(w.users[u].email) else (u, w.users[u].email) in Given(w)
  {
    RunKeepsInv(es);
  }

  // A row is created only by its own subject's sign-in, from an address its token
  // confirmed, or in its name with the address passed; and only when nobody holds it.
  lemma {:induction false} NewRowsAreConfirmed(w: World, e: Event, u: Subject)
    requires Inv(w) && u !in w.users && u in Next(w, e).users
    ensures var a := Next(w, e).users[u].email;
      && !Next(w, e).users[u].erased && !Held(w.users, a)
      && if e.EnsureRow? then e.u == u && e.email.Some? && a == Trim(e.email.value) && a != ""
         else e.Proceed? && e.c in w.clients && w.clients[e.c] == Inserting(u, a) && (u, a) in w.confirmed
  {
  }

  // An erased row changes exactly when a sign-in that read it before the erasure
  // writes a confirmed address shaped like a placeholder: the constraint refuses
  // any other.
  ghost predicate Rewrites(w: World, e: Event, u: Subject)
    requires u in w.users
  {
    && e.Proceed? && e.c in w.clients
    && w.clients[e.c].Updating? && w.clients[e.c].u == u
    && w.clients[e.c].a != w.users[u].email
    && TombstoneShaped(w.clients[e.c].a) && !HeldByOther(w.users, u, w.clients[e.c].a)
  }

  lemma {:induction false} ErasedRowChangesExactly(w: World, e: Event, u: Subject)
    requires u in w.users && w.users[u].erased
    ensures u in Next(w, e).users && Next(w, e).users[u].erased
    ensures Next(w, e).users[u] != w.users[u] <==> Rewrites(w, e, u)
  {
  }

  lemma {:induction false} ConfirmedOnlyGrows(w: World, es: seq<Event>)
    ensures w.confirmed <= Exec(w, es).confirmed
  {
    if es != [] { ConfirmedOnlyGrows(w, es[..|es| - 1]); }
  }

  lemma {:induction false} RunKeepsInvFrom(w: World, es: seq<Event>)
    requires Inv(w)
    ensures Inv(Exec(w, es))
  {
    if es != [] {
      var before, e := Exec(w, es[..|es| - 1]), es[|es| - 1];
      RunKeepsInvFrom(w, es[..|es| - 1]);
      StepKeepsUnique(before, e);
      StepKeepsPhases(before, e);
      StepKeepsProvenance(before, e);
    }
  }

  // No token confirms an address on the reserved domain: then an erased row
  // never changes again, whatever was under way when it was erased.
  lemma {:induction false} ErasedRowsNeverChange(w: World, es: seq<Event>, u: Subject)
    requires Inv(w) && u in w.users && w.users[u].erased
    requires forall a :: (u, a) in Exec(w, es).confirmed ==> !TombstoneShaped(a)
    ensures u in Exec(w, es).users && Exec(w, es).users[u] == w.users[u]
  {
    if es != [] {
      var before, e := Exec(w, es[..|es| - 1]), es[|es| - 1];
      assert before.confirmed <= Exec(w, es).confirmed;
      ErasedRowsNeverChange(w, es[..|es| - 1], u);
      RunKeepsInvFrom(w, es[..|es| - 1]);
      ErasedRowChangesExactly(before, e, u);
    }
  }

  function Row(w: World, u: Subject): Option<User> {
    if u in w.users then Some(w.users[u]) else None
  }

  // Without that, it can: a sign-in reads its row, the row is erased, and the
  // sign-in's update moves the tombstone to the address it brought.
  lemma {:induction false} PlaceholderCanRewriteATombstone(w: World, u: Subject, a: string, b: string, c: Client)
    requires u in w.users && !w.users[u].erased && c !in w.clients
    requires TombstoneShaped(a) && TombstoneShaped(b) && Lower(a) != Lower(b) && !Held(w.users, a) && !Held(w.users, b)
    ensures var es := [Arrive(c, u, Some(EmailClaim(a, Some(true)))), Proceed(c), Erase(u, b), Proceed(c)];
      && Row(Exec(w, es[..3]), u) == Some(User(b, true))
      && Row(Exec(w, es), u) == Some(User(a, true))
  {
    var e0, e1, e2, e3 := Arrive(c, u, Some(EmailClaim(a, Some(true)))), Proceed(c), Erase(u, b), Proceed(c);
    var es := [e0, e1, e2, e3];
    assert w.users[u].email != a;
    assert es[..3] == [e0, e1, e2] && es[..3][..2] == [e0, e1] && es[..3][..2][..1] == [e0] && [e0][..0] == [];
    assert [e0, e1][..1] == [e0] && [e0, e1, e2][..2] == [e0, e1];
    assert Exec(w, [e0]) == Next(w, e0);
    assert Exec(w, [e0, e1]) == Next(Next(w, e0), e1);
    assert Exec(w, [e0, e1, e2]) == Next(Next(Next(w, e0), e1), e2);
  }

  // ---- One sign-in, others running between its statements --------------------------

  datatype Turn = Turn(others: seq<Event>, fails: bool)

  // A statement of the sign-in's fails, its connection say.
  ghost predicate SomeFails(turns: seq<Turn>) {
    exists i :: 0 <= i < |turns| && turns[i].fails
  }

  datatype Upsert = Stored | Erased | Linked | Threw

  predicate By(e: Event, c: Client) {
    (e.Arrive? || e.Proceed? || e.StatementFails?) && e.c == c
  }

  // Rows stay, and stay erased.
  ghost predicate Kept(before: Users, after: Users) {
    forall u :: u in before ==> u in after && (before[u].erased ==> after[u].erased)
  }

  lemma {:induction false} StepKeepsRows(start: Users, w: World, e: Event)
    requires Kept(start, w.users)
    ensures Kept(start, Next(w, e).users)
  {
  }

  // Where each answer of getOrCreateUser leaves the sign-in.
  predicate Reached(p: Phase, u: Subject, a: string, r: Upsert) {
    match r
    case Stored => p == Done(u, SignedIn(a))
    case Erased => p == Done(u, AccountErased)
    case Linked => p == InConflict(u, a)
    case Threw => p == Done(u, Failed)
  }

  // What the row holds when getOrCreateUser gives it: the address, unless this
  // sign-in found no row at first and another of the same subject created it, or
  // another part of the program in its name.
  ghost predicate Holds(before: Users, w: World, u: Subject, a: string) {
    && u in w.users && (u, a) in w.confirmed
    && (u in before ==> w.users[u].email == a && (w.users[u].erased ==> TombstoneShaped(a)))
    && (w.users[u].erased || (u, w.users[u].email) in Given(w))
  }

  lemma {:induction false} StoredIsConfirmed(es: seq<Event>, u: Subject)
    requires u in Exec(EMPTY, es).users
    ensures var w := Exec(EMPTY, es);
      w.users[u].erased || (u, w.users[u].email) in Given(w)
  {
    RunKeepsInv(es);
  }

  lemma {:induction false} OpensExactly(claims: Claims, env: Env)
    ensures Confirmed(ReadEmailClaim(claims, env)) <==> exists a :: Confirms(claims, env, a)
  {
    var claim := ReadEmailClaim(claims, env);
    if Confirmed(claim) { ConfirmedIsRead(claims, env, claim.value.address); }
    forall a | Confirms(claims, env, a) ensures Confirmed(claim) { ConfirmedIsRead(claims, env, a); }
  }

  class Accounts {
    var world: World
    ghost var trace: seq<Event>

    ghost predicate Valid()
      reads this
    {
      world == Exec(EMPTY, trace)
    }

    method Step(e: Event)
      requires Valid()
      modifies this
      ensures Valid() && world == Next(old(world), e) && old(trace) <= trace
      ensures old(world).confirmed <= world.confirmed
    {
      assert (trace + [e])[..|trace|] == trace;
      world := Next(world, e);
      trace := trace + [e];
    }

    method Interfere(others: seq<Event>, me: Client)
      requires Valid() && me in world.clients
      modifies this
      ensures Valid() && old(trace) <= trace && Kept(old(world).users, world.users)
      ensures old(world).confirmed <= world.confirmed
      ensures me in world.clients && world.clients[me] == old(world).clients[me]
    {
      for i := 0 to |others|
        invariant Valid() && old(trace) <= trace && Kept(old(world).users, world.users)
        invariant old(world).confirmed <= world.confirmed
        invariant me in world.clients && world.clients[me] == old(world).clients[me]
      {
        if !By(others[i], me) {
          StepKeepsRows(old(world).users, world, others[i]);
          Step(others[i]);
        }
      }
    }

    // Sends the sign-in's next statement. `seen` is the table it found.
    method Send(me: Client, turn: Turn) returns (ok: bool, seen: Users)
      requires Valid() && me in world.clients && !world.clients[me].Done?
      modifies this
      ensures Valid() && old(trace) <= trace && me in world.clients && old(world).confirmed <= world.confirmed
      ensures Kept(old(world).users, seen) && Kept(seen, world.users)
      ensures ok ==> (world.users, world.clients[me]) == Statement(seen, old(world).clients[me])
      ensures !ok ==> turn.fails && world.clients[me] == Done(old(world).clients[me].u, Failed)
    {
      Interfere(turn.others, me);
      seen := world.users;
      ok := !turn.fails;
      StepKeepsRows(seen, world, if ok then Proceed(me) else StatementFails(me));
      Step(if ok then Proceed(me) else StatementFails(me));
    }

    // getOrCreateUser: the row with this address, or why not.
    method GetOrCreateUser(me: Client, u: Subject, a: string, turns: seq<Turn>) returns (r: Upsert, threw: bool)
      requires Valid() && me in world.clients && |turns| == 4
      requires world.clients[me] == Reading(u, Some(EmailClaim(a, Some(true))))
      modifies this
      ensures Valid() && old(trace) <= trace && me in world.clients && Kept(old(world).users, world.users)
      ensures old(world).confirmed <= world.confirmed
      ensures Reached(world.clients[me], u, a, r)
      ensures r.Stored? ==> Holds(old(world).users, world, u, a)
      ensures r.Linked? ==> Held(world.users, a)
      ensures u in old(world).users && old(world).users[u].erased ==> r.Erased? || threw
      ensures r.Erased? ==> u in world.users && world.users[u].erased
      ensures r.Threw? && u in old(world).users ==> threw || world.users[u].erased
      ensures threw ==> r.Threw? && SomeFails(turns)
    {
      RunKeepsInv(trace);
      assert (u, a) in world.confirmed;
      var ok, existing := Send(me, turns[0]);
      if !ok { return Threw, true; }
      if u !in existing {
        r, threw := CreateUser(me, u, a, turns[1..]);
        return;
      }
      if existing[u].erased { return Erased, false; }
      if existing[u].email == a {
        StoredIsConfirmed(trace, u);
        return Stored, false;
      }
      var seen;
      ok, seen := Send(me, turns[1]);
      if !ok { return Threw, true; }
      if seen[u].erased && !TombstoneShaped(a) { return Threw, false; }
      StoredIsConfirmed(trace, u);
      return if HeldByOther(seen, u, a) then Linked else Stored, false;
    }

    // createUser: INSERT ... ON CONFLICT DO NOTHING, then what the conflict was.
    method CreateUser(me: Client, u: Subject, a: string, turns: seq<Turn>) returns (r: Upsert, threw: bool)
      requires Valid() && me in world.clients && |turns| == 3 && world.clients[me] == Inserting(u, a)
      modifies this
      ensures Valid() && old(trace) <= trace && me in world.clients && Kept(old(world).users, world.users)
      ensures old(world).confirmed <= world.confirmed
      ensures Reached(world.clients[me], u, a, r) && !r.Erased?
      ensures r.Stored? ==>
        u in world.users && (world.users[u].erased || (u, world.users[u].email) in Given(world))
      ensures r.Linked? ==> Held(world.users, a)
      ensures r.Threw? && !threw ==> !Held(world.users, a)
      ensures threw ==> r.Threw? && SomeFails(turns)
    {
      var ok, seen := Send(me, turns[0]);
      if !ok { return Threw, true; }
      if u !in seen && !Held(seen, a) {
        StoredIsConfirmed(trace, u);
        return Stored, false;
      }
      ok, seen := Send(me, turns[1]);
      if !ok { return Threw, true; }
      if u in seen {
        StoredIsConfirmed(trace, u);
        return Stored, false;
      }
      ok, seen := Send(me, turns[2]);
      if !ok { return Threw, true; }
      return if Held(seen, a) then Linked else Threw, false;
    }

    // An account that exists and is not erased is never refused; one erased
    // before the sign-in began always is; without a confirmed address nothing
    // is opened.
    method PrepareAuthenticatedUser(me: Client, u: Subject, claims: Claims, env: Env, turns: seq<Turn>)
      returns (r: Outcome, threw: bool)
      requires Valid() && me !in world.clients && |turns| == 5
      modifies this
      ensures Valid() && old(trace) <= trace && me in world.clients && world.clients[me] == Done(u, r)
      ensures Kept(old(world).users, world.users)
      ensures threw ==> r.Failed? && SomeFails(turns)
      ensures u in old(world).users && !world.users[u].erased && !threw ==> r.SignedIn?
      ensures u in old(world).users && old(world).users[u].erased && !threw ==> r.AccountErased?
      ensures r.SignedIn? ==> u in world.users && (u, r.address) in Given(world)
      ensures r.SignedIn? && world.users[u].erased ==> u !in old(world).users || TombstoneShaped(r.address)
      ensures r.SignedIn? && u in old(world).users ==> world.users[u].email == r.address
      ensures r.AccountErased? ==> u in world.users && world.users[u].erased
      ensures r.EmailAlreadyLinked? || r.VerifiedEmailRequired? ==> u !in old(world).users
      ensures r.VerifiedEmailRequired? ==> forall a :: !Confirms(claims, env, a)
      ensures u !in world.users && !threw && (forall a :: !Confirms(claims, env, a)) ==> r.VerifiedEmailRequired?
    {
      var claim := ReadEmailClaim(claims, env);
      OpensExactly(claims, env);
      StepKeepsRows(world.users, world, Arrive(me, u, claim));
      Step(Arrive(me, u, claim));
      var ok, existing;
      if Confirmed(claim) {
        var upsert;
        upsert, threw := GetOrCreateUser(me, u, claim.value.address, turns[..4]);
        match upsert
        case Stored => return SignedIn(claim.value.address), false;
        case Erased => return AccountErased, false;
        case Threw => return Failed, threw;
        case Linked =>
          ok, existing := Send(me, turns[4]);
          if !ok { return Failed, true; }
          if u !in existing { return EmailAlreadyLinked, false; }
          RunKeepsInv(trace);
          return ExistingOutcome(existing[u]), false;
      }
      ok, existing := Send(me, turns[0]);
      if !ok { return Failed, true; }
      RunKeepsInv(trace);
      if u in existing { return ExistingOutcome(existing[u]), false; }
      return VerifiedEmailRequired, false;
    }
  }
}
