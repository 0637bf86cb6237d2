// The race of two first arrivals (src/services/userService.ts, createUser): a sign-in
// that lost its insert is answered with the address it brought, whatever the
// winner's row holds by then.
module IdentityRaces {
  import opened Wrappers
  import opened Settings
  import opened EmailClaims
  import opened Identity

  lemma {:induction false} ExecOneMore(w: World, es: seq<Event>, e: Event)
    ensures Exec(w, es + [e]) == Next(Exec(w, es), e)
  {
    assert (es + [e])[..|es|] == es;
  }

  lemma {:induction false} ExecBoth(w: World, xs: seq<Event>, ys: seq<Event>)
    ensures Exec(w, xs + ys) == Exec(Exec(w, xs), ys)
  {
    if ys == [] {
      assert xs + ys == xs;
    } else {
      var n := |ys| - 1;
      ExecBoth(w, xs, ys[..n]);
      assert (xs + ys)[..|xs| + n] == xs + ys[..n];
    }
  }

  lemma {:induction false} ExecTwo(w: World, d: Event, e: Event)
    ensures Exec(w, [d, e]) == Next(Next(w, d), e)
  {
    assert [d, e] == [d] + [e] && [d] == [] + [d];
    ExecOneMore(w, [d], e);
    ExecOneMore(w, [], d);
  }

  function Claim(a: string): Option<EmailClaim> {
    Some(EmailClaim(a, Some(true)))
  }

  // A token presented, and the first statement sent.
  function Opening(c: Client, u: Subject, a: string): seq<Event> {
    [Arrive(c, u, Claim(a)), Proceed(c)]
  }

  lemma {:induction false} OpeningFindsNoRow(w: World, c: Client, u: Subject, a: string)
    requires c !in w.clients && u !in w.users
    ensures Exec(w, Opening(c, u, a))
         == w.(clients := w.clients[c := Inserting(u, a)], confirmed := w.confirmed + {(u, a)})
  {
    var e0, e1 := Arrive(c, u, Claim(a)), Proceed(c);
    ExecTwo(w, e0, e1);
    assert Next(w, e0) == w.(clients := w.clients[c := Reading(u, Claim(a))], confirmed := w.confirmed + {(u, a)});
    assert Next(Next(w, e0), e1).clients == w.clients[c := Inserting(u, a)];
  }

  // Two tokens of a subject without a row: the second one's insert goes first.
  function Race(c: Client, d: Client, u: Subject, a: string, b: string): seq<Event> {
    Opening(c, u, a) + Opening(d, u, b) + [Proceed(d)]
  }

  lemma {:induction false} SecondWins(w: World, c: Client, d: Client, u: Subject, a: string, b: string)
    requires c !in w.clients && d !in w.clients && c != d && u !in w.users && !Held(w.users, b)
    ensures Exec(w, Race(c, d, u, a, b))
         == World(w.users[u := User(b, false)], w.clients[c := Inserting(u, a)][d := Done(u, SignedIn(b))],
                  w.confirmed + {(u, a), (u, b)}, w.passed)
  {
    var w0 := Exec(w, Opening(c, u, a));
    var w1 := Exec(w0, Opening(d, u, b));
    OpeningFindsNoRow(w, c, u, a);
    OpeningFindsNoRow(w0, d, u, b);
    ExecBoth(w, Opening(c, u, a), Opening(d, u, b));
    ExecOneMore(w, Opening(c, u, a) + Opening(d, u, b), Proceed(d));
    assert w1.clients == w.clients[c := Inserting(u, a)][d := Inserting(u, b)];
    assert Next(w1, Proceed(d)).clients == w.clients[c := Inserting(u, a)][d := Done(u, SignedIn(b))];
    assert w1.confirmed == w.confirmed + {(u, a), (u, b)};
  }

  // A sign-in that finds a row where it would insert one is answered with the
  // address it brought.
  lemma {:induction false} LoserIsAnswered(w: World, c: Client)
    requires c in w.clients && w.clients[c].Inserting? && w.clients[c].u in w.users
    ensures var u, a := w.clients[c].u, w.clients[c].a;
      Exec(w, [Proceed(c), Proceed(c)]) == w.(clients := w.clients[c := Done(u, SignedIn(a))])
  {
    var u, a := w.clients[c].u, w.clients[c].a;
    ExecTwo(w, Proceed(c), Proceed(c));
    assert Next(w, Proceed(c)) == w.(clients := w.clients[c := FindingWinner(u, a)]);
  }

  // ---- The address answered with --------------------------------------------------------

  // The last event answered c's sign-in of this subject with this address.
  ghost predicate Answers(es: seq<Event>, c: Client, u: Subject, address: string) {
    && es != [] && es[|es| - 1] == Proceed(c)
    && var before, after := Exec(EMPTY, es[..|es| - 1]), Exec(EMPTY, es);
    && c in before.clients && !before.clients[c].Done?
    && c in after.clients && after.clients[c] == Done(u, SignedIn(address))
  }

  // Every address given for this subject is one of these.
  ghost predicate Within(es: seq<Event>, u: Subject, addresses: set<string>) {
    forall a :: (u, a) in Given(Exec(EMPTY, es)) ==> a in addresses
  }

  ghost predicate Stores(w: World, u: Subject, address: string) {
    u in w.users && (w.users[u].erased || w.users[u].email == address)
  }

  // Of a row not erased, only the loser of a race is told another address than it
  // holds: the one it brought itself.
  lemma {:induction false} OnlyTheLoserIsToldAnother(w: World, c: Client, address: string)
    requires c in w.clients && !w.clients[c].Done?
    requires Next(w, Proceed(c)).clients[c] == Done(w.clients[c].u, SignedIn(address))
    ensures var u := w.clients[c].u;
      Stores(Next(w, Proceed(c)), u, address)
        || (w.clients[c] == FindingWinner(u, address) && u in w.users && Next(w, Proceed(c)).users == w.users)
  {
  }

  lemma {:induction false} OneAddressIsTold(es: seq<Event>, c: Client, u: Subject, address: string,
        addresses: set<string>)
    requires Answers(es, c, u, address) && Within(es, u, addresses)
    requires forall a, b :: a in addresses && b in addresses ==> a == b
    ensures Stores(Exec(EMPTY, es), u, address)
  {
    var before, w := Exec(EMPTY, es[..|es| - 1]), Exec(EMPTY, es);
    RunKeepsInv(es[..|es| - 1]);
    RunKeepsInv(es);
    OnlyTheLoserIsToldAnother(before, c, address);
    if before.clients[c] == FindingWinner(u, address) && u in w.users && !w.users[u].erased {
      assert (u, address) in Given(w) && (u, w.users[u].email) in Given(w);
    }
  }

  // Two first arrivals with two addresses: the loser is told its own, and the row
  // holds the winner's.
  lemma {:induction false} LoserIsToldAnother(c: Client, d: Client, u: Subject, a: string, b: string)
    requires c != d && a != b
    ensures var es := Race(c, d, u, a, b) + [Proceed(c), Proceed(c)];
      && Answers(es, c, u, a) && Within(es, u, {a, b}) && Row(Exec(EMPTY, es), u) == Some(User(b, false))
  {
    var es := Race(c, d, u, a, b) + [Proceed(c), Proceed(c)];
    var w := Exec(EMPTY, Race(c, d, u, a, b));
    SecondWins(EMPTY, c, d, u, a, b);
    ExecBoth(EMPTY, Race(c, d, u, a, b), [Proceed(c), Proceed(c)]);
    LoserIsAnswered(w, c);
    assert es[..|es| - 1] == Race(c, d, u, a, b) + [Proceed(c)];
    ExecOneMore(EMPTY, Race(c, d, u, a, b), Proceed(c));
    assert Next(w, Proceed(c)) == w.(clients := w.clients[c := FindingWinner(u, a)]);
  }

  ghost predicate AlwaysToldWhatIsStored(u: Subject, addresses: set<string>) {
    forall es, c, address :: (Answers(es, c, u, address) && Within(es, u, addresses)) ==>
      Stores(Exec(EMPTY, es), u, address)
  }

  // A subject for whom addresses of this set only are given, by its tokens or in its
  // name, is always told the address its row holds, or has been erased, if and only
  // if the set does not hold two addresses.
  lemma {:induction false} AnswerIsTheStoredAddress(u: Subject, addresses: set<string>)
    ensures AlwaysToldWhatIsStored(u, addresses)
       <==> (forall a, b :: a in addresses && b in addresses ==> a == b)
  {
    if forall a, b :: a in addresses && b in addresses ==> a == b {
      forall es, c, address | Answers(es, c, u, address) && Within(es, u, addresses)
        ensures Stores(Exec(EMPTY, es), u, address)
      {
        OneAddressIsTold(es, c, u, address, addresses);
      }
    } else {
      var a, b :| a in addresses && b in addresses && a != b;
      LoserIsToldAnother(0, 1, u, a, b);
      var es := Race(0, 1, u, a, b) + [Proceed(0), Proceed(0)];
      assert Answers(es, 0, u, a) && Within(es, u, addresses) && !Stores(Exec(EMPTY, es), u, a);
    }
  }
}
