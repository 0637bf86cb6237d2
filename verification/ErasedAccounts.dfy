// What an erased account can still be answered (src/auth/identity.ts,
// refuseErasedAccount): a sign-in that lost its insert, and one that updates the
// tombstone to an address shaped like a placeholder.
module ErasedAccounts {
  import opened Wrappers
  import opened Settings
  import opened Identity
  import opened IdentityRaces

  ghost predicate Answered(w: World, c: Client, u: Subject) {
    c in w.clients && w.clients[c].Done? && w.clients[c].u == u && w.clients[c].outcome.SignedIn?
  }

  // The loser's insert meets the winner's row, which is erased meanwhile: the
  // account is erased and the sign-in is answered.
  lemma {:induction false} ErasedAccountIsAnswered(w: World, c: Client, d: Client, u: Subject, a: string, b: string,
        placeholder: string)
    requires c !in w.clients && d !in w.clients && c != d && u !in w.users && !Held(w.users, b)
    requires TombstoneShaped(placeholder) && !Held(w.users, placeholder) && Lower(placeholder) != Lower(b)
    ensures var after := Exec(w, Race(c, d, u, a, b) + [Erase(u, placeholder)] + [Proceed(c), Proceed(c)]);
      && u in after.users && after.users[u] == User(placeholder, true)
      && c in after.clients && after.clients[c] == Done(u, SignedIn(a))
  {
    var won := Exec(w, Race(c, d, u, a, b));
    SecondWins(w, c, d, u, a, b);
    ExecOneMore(w, Race(c, d, u, a, b), Erase(u, placeholder));
    var erased := Next(won, Erase(u, placeholder));
    assert erased == won.(users := won.users[u := User(placeholder, true)]);
    ExecBoth(w, Race(c, d, u, a, b) + [Erase(u, placeholder)], [Proceed(c), Proceed(c)]);
    LoserIsAnswered(erased, c);
  }

  // The statement that answers a sign-in whose row is erased: the read of a lost
  // insert, or the update of an address shaped like a placeholder.
  lemma {:induction false} ErasedRowAnswersExactly(w: World, c: Client)
    requires c in w.clients && !w.clients[c].Done? && w.clients[c].u in w.users && w.users[w.clients[c].u].erased
    ensures Answered(Next(w, Proceed(c)), c, w.clients[c].u)
       <==> (w.clients[c].FindingWinner?
             || (w.clients[c].Updating? && TombstoneShaped(w.clients[c].a)
                 && !HeldByOther(w.users, w.clients[c].u, w.clients[c].a)))
  {
  }

  // Found no row for its subject, and has yet to hear of its insert.
  predicate Losing(p: Phase) {
    p.Inserting? || p.FindingWinner?
  }

  predicate BringsPlaceholder(p: Phase) {
    p.Updating? && TombstoneShaped(p.a)
  }

  // ---- Who makes way for a placeholder ------------------------------------------------

  ghost predicate HeldByErased(users: Users, x: string) {
    exists v :: v in users && users[v].erased && Lower(users[v].email) == Lower(x)
  }

  // A sign-in under way that will move the tombstone at x to another address.
  predicate Leaves(w: World, d: Client, x: string) {
    && d in w.clients && BringsPlaceholder(w.clients[d])
    && w.clients[d].u in w.users && w.users[w.clients[d].u].erased
    && Lower(w.users[w.clients[d].u].email) == Lower(x) && Lower(w.clients[d].a) != Lower(x)
  }

  // The tombstone at x can be moved by the first of these sign-ins, once the one in
  // its way is moved by the second, and so on; the last finds no tombstone.
  ghost predicate FreedBy(w: World, x: string, movers: seq<Client>)
    decreases |movers|
  {
    if movers == [] then !HeldByErased(w.users, x)
    else Leaves(w, movers[0], x) && FreedBy(w, w.clients[movers[0]].a, movers[1..])
  }

  ghost predicate CanTake(w: World, u: Subject, a: string) {
    !HeldByOther(w.users, u, a) || exists movers :: FreedBy(w, a, movers)
  }

  // No step makes way that was not there to be made.
  lemma {:induction false} StepFreesNothing(w: World, e: Event, x: string, movers: seq<Client>)
    returns (before: seq<Client>)
    requires FreedBy(Next(w, e), x, movers)
    ensures FreedBy(w, x, before)
    decreases |movers|
  {
    before := [];
    if HeldByErased(w.users, x) {
      if movers == [] {
        before := MovedBy(w, e, x);
      } else {
        var rest := StepFreesNothing(w, e, Next(w, e).clients[movers[0]].a, movers[1..]);
        StillLeaves(w, e, movers[0], x);
        before := [movers[0]] + rest;
      }
    }
  }

  lemma {:induction false} MovedBy(w: World, e: Event, x: string) returns (before: seq<Client>)
    requires HeldByErased(w.users, x) && !HeldByErased(Next(w, e).users, x)
    ensures FreedBy(w, x, before)
  {
    var h :| h in w.users && w.users[h].erased && Lower(w.users[h].email) == Lower(x);
    ErasedRowChangesExactly(w, e, h);
    assert Rewrites(w, e, h);
    assert Next(w, e).users[h].email == w.clients[e.c].a;
    before := [e.c];
    assert FreedBy(w, w.clients[e.c].a, []);
  }

  lemma {:induction false} StillLeaves(w: World, e: Event, d: Client, x: string)
    requires HeldByErased(w.users, x) && Leaves(Next(w, e), d, x)
    ensures Leaves(w, d, x) && w.clients[d] == Next(w, e).clients[d]
  {
    var v := Next(w, e);
    var s := v.clients[d].u;
    var h :| h in w.users && w.users[h].erased && Lower(w.users[h].email) == Lower(x);
    assert d in w.clients && w.clients[d] == v.clients[d];
    if s in w.users && w.users[s].erased {
      ErasedRowChangesExactly(w, e, s);
    }
  }

  // ---- Making way ---------------------------------------------------------------------

  // A sign-in of this subject is among them.
  ghost predicate Moves(w: World, v: Subject, movers: seq<Client>) {
    exists d :: d in movers && d in w.clients && w.clients[d].u == v
  }

  // No two of them are sign-ins of one subject.
  ghost predicate Apart(w: World, movers: seq<Client>)
    decreases |movers|
  {
    movers == []
      || (movers[0] in w.clients && !Moves(w, w.clients[movers[0]].u, movers[1..]) && Apart(w, movers[1..]))
  }

  // From the mover of this subject's tombstone on, the movers make way for its address.
  lemma {:induction false} FromMoverOn(w: World, x: string, movers: seq<Client>, v: Subject, z: string)
    returns (rest: seq<Client>)
    requires FreedBy(w, x, movers) && Apart(w, movers) && Moves(w, v, movers)
    requires v in w.users && Lower(w.users[v].email) == Lower(z)
    ensures FreedBy(w, z, rest) && Apart(w, rest)
    decreases |movers|
  {
    if w.clients[movers[0]].u == v {
      rest := movers;
    } else {
      rest := FromMoverOn(w, w.clients[movers[0]].a, movers[1..], v, z);
    }
  }

  lemma {:induction false} AfterMover(w: World, x: string, movers: seq<Client>, c: Client)
    returns (rest: seq<Client>)
    requires FreedBy(w, x, movers) && Apart(w, movers) && c in movers && c in w.clients && w.clients[c].Updating?
    ensures FreedBy(w, w.clients[c].a, rest) && Apart(w, rest) && c !in rest
    decreases |movers|
  {
    if movers[0] == c {
      rest := movers[1..];
    } else {
      rest := AfterMover(w, w.clients[movers[0]].a, movers[1..], c);
    }
  }

  lemma {:induction false} OneMoverEach(w: World, x: string, movers: seq<Client>) returns (fewer: seq<Client>)
    requires FreedBy(w, x, movers)
    ensures FreedBy(w, x, fewer) && Apart(w, fewer)
    decreases |movers|
  {
    fewer := movers;
    if movers != [] {
      var v := w.clients[movers[0]].u;
      var rest := OneMoverEach(w, w.clients[movers[0]].a, movers[1..]);
      if Moves(w, v, rest) {
        fewer := FromMoverOn(w, w.clients[movers[0]].a, rest, v, x);
      } else {
        fewer := [movers[0]] + rest;
      }
    }
  }

  // Longer than every address stored.
  lemma {:induction false} LongEnough(users: Users) returns (n: nat)
    ensures forall v :: v in users ==> |users[v].email| < n
    decreases |users|
  {
    n := 0;
    if users != map[] {
      var u :| u in users;
      var m := LongEnough(users - {u});
      n := if |users[u].email| < m then m else |users[u].email| + 1;
      forall v | v in users ensures |users[v].email| < n {
        if v != u { assert v in users - {u}; }
      }
    }
  }

  lemma {:induction false} FreshPlaceholder(users: Users) returns (placeholder: string)
    ensures TombstoneShaped(placeholder) && !Held(users, placeholder)
  {
    var n := LongEnough(users);
    placeholder := "erased-" + seq(n, _ => '0') + "@erased.invalid";
    forall v | v in users ensures Lower(users[v].email) != Lower(placeholder) {
      assert |Lower(users[v].email)| < |Lower(placeholder)|;
    }
  }

  // Whoever holds an address that no tombstone holds is erased.
  lemma {:induction false} Vacate(w: World, x: string) returns (es: seq<Event>)
    requires Unique(w.users) && !HeldByErased(w.users, x)
    ensures !Held(Exec(w, es).users, x) && Unique(Exec(w, es).users) && Exec(w, es).clients == w.clients
    ensures forall v :: v in w.users && w.users[v].erased ==>
      v in Exec(w, es).users && Exec(w, es).users[v] == w.users[v]
  {
    es := [];
    if Held(w.users, x) {
      var h :| h in w.users && Lower(w.users[h].email) == Lower(x);
      var placeholder := FreshPlaceholder(w.users);
      es := [Erase(h, placeholder)];
      ExecOneMore(w, [], Erase(h, placeholder));
      StepKeepsUnique(w, Erase(h, placeholder));
      assert es == [] + es;
    }
  }

  // Nobody but the movers has moved.
  ghost predicate Spared(w: World, after: World, movers: seq<Client>) {
    && (forall d :: d in w.clients && d !in movers ==> d in after.clients && after.clients[d] == w.clients[d])
    && (forall v :: v in w.users && w.users[v].erased ==>
          && v in after.users && after.users[v].erased
          && (after.users[v] == w.users[v] || Moves(w, v, movers)))
  }

  lemma {:induction false} MakeWay(w: World, x: string, movers: seq<Client>) returns (es: seq<Event>)
    requires Unique(w.users) && FreedBy(w, x, movers) && Apart(w, movers)
    ensures Unique(Exec(w, es).users) && !HeldByErased(Exec(w, es).users, x) && Spared(w, Exec(w, es), movers)
    decreases |movers|
  {
    es := [];
    if movers != [] {
      var d := movers[0];
      var way := MakeWay(w, w.clients[d].a, movers[1..]);
      var cleared := Exec(w, way);
      var room := Vacate(cleared, w.clients[d].a);
      MoverLeaves(w, Exec(cleared, room), x, movers);
      ExecBoth(w, way, room);
      ExecOneMore(w, way + room, Proceed(d));
      es := way + room + [Proceed(d)];
    }
  }

  // The first mover moves, once its way is clear.
  lemma {:induction false} MoverLeaves(w: World, cleared: World, x: string, movers: seq<Client>)
    requires movers != [] && Leaves(w, movers[0], x) && Apart(w, movers)
    requires Unique(cleared.users) && !Held(cleared.users, w.clients[movers[0]].a)
    requires Spared(w, cleared, movers[1..])
    ensures var after := Next(cleared, Proceed(movers[0]));
      Unique(after.users) && !HeldByErased(after.users, x) && Spared(w, after, movers)
  {
    var d := movers[0];
    var s := w.clients[d].u;
    assert d !in movers[1..];
    assert cleared.clients[d] == w.clients[d] && cleared.users[s] == w.users[s];
    StepKeepsUnique(cleared, Proceed(d));
    assert Next(cleared, Proceed(d)).users == cleared.users[s := User(w.clients[d].a, true)];
    forall v | v in w.users && w.users[v].erased && Moves(w, v, movers[1..]) ensures Moves(w, v, movers) {
      var m :| m in movers[1..] && m in w.clients && w.clients[m].u == v;
      assert m in movers;
    }
  }

  // An erased account's sign-in takes the place it can take.
  lemma {:induction false} TakesItsPlace(w: World, c: Client, u: Subject) returns (es: seq<Event>)
    requires Unique(w.users) && u in w.users && w.users[u].erased
    requires c in w.clients && w.clients[c].u == u && BringsPlaceholder(w.clients[c])
    requires CanTake(w, u, w.clients[c].a)
    ensures Answered(Exec(w, es), c, u)
  {
    var a := w.clients[c].a;
    if !HeldByOther(w.users, u, a) {
      es := [Proceed(c)];
      ExecOneMore(w, [], Proceed(c));
      assert es == [] + es;
    } else {
      var movers :| FreedBy(w, a, movers);
      var fewer := OneMoverEach(w, a, movers);
      if c in fewer { fewer := AfterMover(w, a, fewer, c); }
      var way := MakeWay(w, a, fewer);
      var cleared := Exec(w, way);
      var room := Vacate(cleared, a);
      ExecBoth(w, way, room);
      ExecOneMore(w, way + room, Proceed(c));
      es := way + room + [Proceed(c)];
    }
  }

  // ---- Exactly which sign-ins are answered -----------------------------------------------

  // A sign-in of an erased account is answered, is losing a first arrival, or has
  // read the row before and brings an address shaped like a placeholder that nobody
  // else holds or everybody else can leave: a holder that is not erased by being
  // erased, a tombstone by a sign-in that moves it.
  ghost predicate Answerable(w: World, c: Client, u: Subject) {
    && c in w.clients && w.clients[c].u == u
    && (Answered(w, c, u) || Losing(w.clients[c])
        || (BringsPlaceholder(w.clients[c]) && CanTake(w, u, w.clients[c].a)))
  }

  lemma {:induction false} StepKeepsTaken(w: World, u: Subject, a: string, e: Event)
    requires Unique(w.users) && u in w.users && w.users[u].erased && !CanTake(w, u, a)
    ensures !CanTake(Next(w, e), u, a)
  {
    forall movers ensures !FreedBy(Next(w, e), a, movers) {
      if FreedBy(Next(w, e), a, movers) {
        var before := StepFreesNothing(w, e, a, movers);
      }
    }
    assert !FreedBy(Next(w, e), a, []);
    ErasedRowChangesExactly(w, e, u);
  }

  lemma {:induction false} StepKeepsUnanswerable(w: World, c: Client, u: Subject, e: Event)
    requires Unique(w.users) && u in w.users && w.users[u].erased && !Answerable(w, c, u)
    ensures u in Next(w, e).users && Next(w, e).users[u].erased && !Answerable(Next(w, e), c, u)
  {
    ErasedRowChangesExactly(w, e, u);
    if c in w.clients && w.clients[c].u == u && BringsPlaceholder(w.clients[c]) {
      StepKeepsTaken(w, u, w.clients[c].a, e);
    }
  }

  lemma {:induction false} UnanswerableForGood(w: World, c: Client, u: Subject, es: seq<Event>)
    requires Unique(w.users) && u in w.users && w.users[u].erased && !Answerable(w, c, u)
    ensures Unique(Exec(w, es).users) && !Answerable(Exec(w, es), c, u)
    ensures u in Exec(w, es).users && Exec(w, es).users[u].erased
  {
    if es != [] {
      UnanswerableForGood(w, c, u, es[..|es| - 1]);
      StepKeepsUnique(Exec(w, es[..|es| - 1]), es[|es| - 1]);
      StepKeepsUnanswerable(Exec(w, es[..|es| - 1]), c, u, es[|es| - 1]);
    }
  }

  // Once an account is erased, a sign-in of it is answered in some continuation if
  // and only if it is answerable now: one that comes later never is.
  lemma {:induction false} AnsweredAfterErasureExactly(w: World, c: Client, u: Subject)
    requires Unique(w.users) && u in w.users && w.users[u].erased
    ensures (exists es :: Answered(Exec(w, es), c, u)) <==> Answerable(w, c, u)
  {
    if !Answerable(w, c, u) {
      forall es ensures !Answered(Exec(w, es), c, u) { UnanswerableForGood(w, c, u, es); }
    } else if Answered(w, c, u) {
      assert Exec(w, []) == w;
    } else if Losing(w.clients[c]) {
      var es := [Proceed(c), Proceed(c)];
      if w.clients[c].Inserting? {
        LoserIsAnswered(w, c);
      } else {
        ExecTwo(w, Proceed(c), Proceed(c));
      }
      assert Answered(Exec(w, es), c, u);
    } else {
      var es := TakesItsPlace(w, c, u);
      assert Answered(Exec(w, es), c, u);
      assert exists es :: Answered(Exec(w, es), c, u);
    }
  }
}
