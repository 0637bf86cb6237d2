// The two bounded maps of src/auth/signInPool.ts. A token stands for its
// digest, taken to be injective; tokens are already trimmed.
module SignInPool {
  import opened Wrappers
  import opened FixedWindow
  import opened Collections
  import opened InsertionOrder

  const VERIFIED_FOR_MS := 600_000
  const MAX_VERIFIED := 20_000
  const EXEMPT_PER_ACCOUNT_PER_MINUTE := 120
  const WINDOW_MS := 60_000
  const EXEMPTION := Rule(WINDOW_MS, EXEMPT_PER_ACCOUNT_PER_MINUTE)

  type Token = string
  type Account = string
  datatype Verified = Verified(until: int, userId: Account)

  // ---- The unbounded history of verified tokens -------------------------------

  function Until(now: int, expires: Option<int>): int {
    if expires.Some? && expires.value < now + VERIFIED_FOR_MS then expires.value else now + VERIFIED_FOR_MS
  }

  // A remember that took effect, one whose token had not yet expired: when it was,
  // and when the token expires.
  datatype Remembered = Remembered(token: Token, account: Account, at: int, expires: Option<int>) {
    // What is held for it.
    function Held(): Verified {
      Verified(Until(at, expires), account)
    }

    // Before the token expires, and less than ten minutes after the remember.
    predicate Lasts(now: int) {
      now < at + 600_000 && (expires.Some? ==> now < expires.value)
    }
  }

  // Where the token was last remembered, or -1.
  function Latest(history: seq<Remembered>, token: Token): (i: int)
    ensures -1 <= i < |history|
    ensures i >= 0 ==> history[i].token == token
    ensures forall j :: i < j < |history| ==> history[j].token != token
  {
    if history == [] then -1
    else if history[|history| - 1].token == token then |history| - 1
    else Latest(history[..|history| - 1], token)
  }

  function OthersAfter(history: seq<Remembered>, i: int): set<Token>
    requires -1 <= i < |history|
  {
    set j | i < j < |history| :: history[j].token
  }

  lemma {:induction false} OneMoreRemember(history: seq<Remembered>, r: Remembered, token: Token)
    ensures Latest(history + [r], token) == if r.token == token then |history| else Latest(history, token)
    ensures token != r.token ==>
      OthersAfter(history + [r], Latest(history + [r], token))
      == OthersAfter(history, Latest(history, token)) + {r.token}
  {
    assert (history + [r])[..|history|] == history;
  }

  // ---- The tokens that are held ------------------------------------------------

  type Tokens = OrderedMap<Token, Verified>

  function Ranks(verified: Tokens, history: seq<Remembered>): map<Token, int> {
    map t | t in verified.entries :: Latest(history, t)
  }

  ghost predicate Faithful(verified: Tokens, history: seq<Remembered>) {
    forall t :: t in verified.entries ==>
      Latest(history, t) >= 0 && verified.entries[t] == history[Latest(history, t)].Held()
  }

  // A token that is not held has expired, or gave way to newer ones.
  ghost predicate Complete(verified: Tokens, history: seq<Remembered>, now: int) {
    forall t :: Latest(history, t) >= 0 && t !in verified.entries ==>
      || history[Latest(history, t)].Held().until <= now
      || |OthersAfter(history, Latest(history, t))| >= MAX_VERIFIED
  }

  ghost predicate Holds(verified: Tokens, history: seq<Remembered>, now: int) {
    && verified.Valid()
    && Faithful(verified, history)
    && Complete(verified, history, now)
    && Sorted(verified.order, Ranks(verified, history))
  }

  lemma {:induction false} TimePasses(verified: Tokens, history: seq<Remembered>, before: int, now: int)
    requires Holds(verified, history, before) && before <= now
    ensures Holds(verified, history, now)
  {
  }

  lemma {:induction false} RememberKeepsFaith(verified: Tokens, history: seq<Remembered>, r: Remembered, now: int)
    requires verified.Valid() && Faithful(verified, history) && Complete(verified, history, now)
    ensures Faithful(verified.Delete(r.token).Set(r.token, r.Held()), history + [r])
    ensures Complete(verified.Delete(r.token).Set(r.token, r.Held()), history + [r], now)
  {
    var after := verified.Delete(r.token).Set(r.token, r.Held());
    var longer := history + [r];
    forall t ensures t in after.entries ==>
      Latest(longer, t) >= 0 && after.entries[t] == longer[Latest(longer, t)].Held()
    {
      OneMoreRemember(history, r, t);
    }
    forall t | Latest(longer, t) >= 0 && t !in after.entries
      ensures longer[Latest(longer, t)].Held().until <= now || |OthersAfter(longer, Latest(longer, t))| >= MAX_VERIFIED
    {
      OneMoreRemember(history, r, t);
      SubsetIsNoLarger(OthersAfter(history, Latest(history, t)), OthersAfter(longer, Latest(longer, t)));
    }
  }

  lemma {:induction false} RememberKeepsOrder(verified: Tokens, history: seq<Remembered>, r: Remembered)
    requires verified.Valid() && Sorted(verified.order, Ranks(verified, history))
    ensures var after := verified.Delete(r.token).Set(r.token, r.Held());
      Sorted(after.order, Ranks(after, history + [r]))
  {
    var kept := Without(verified.order, r.token);
    verified.MoveToEnd(r.token, r.Held());
    var after := OrderedMap(kept + [r.token], verified.entries[r.token := r.Held()]);
    WithoutHolds(verified.order, r.token);
    WithoutKeepsSorted(verified.order, r.token, Ranks(verified, history));
    var ranks := Ranks(after, history + [r]);
    forall t | t in after.entries ensures ranks[t] == if t == r.token then |history| else Latest(history, t) {
      OneMoreRemember(history, r, t);
    }
    SortedByAnother(kept, Ranks(verified, history), ranks);
    AppendKeepsSorted(kept, r.token, ranks);
  }

  lemma {:induction false} RememberKeepsHold(verified: Tokens, history: seq<Remembered>, r: Remembered, now: int)
    requires Holds(verified, history, now)
    ensures Holds(verified.Delete(r.token).Set(r.token, r.Held()), history + [r], now)
    ensures |verified.Delete(r.token).Set(r.token, r.Held()).order| <= |verified.order| + 1
  {
    verified.MoveToEnd(r.token, r.Held());
    RememberKeepsFaith(verified, history, r, now);
    RememberKeepsOrder(verified, history, r);
  }

  // Everything held was remembered after the oldest.
  lemma {:induction false} OthersOutrankOldest(verified: Tokens, history: seq<Remembered>)
    requires verified.Valid() && Faithful(verified, history) && Sorted(verified.order, Ranks(verified, history))
    requires |verified.order| > MAX_VERIFIED
    ensures |OthersAfter(history, Latest(history, verified.order[0]))| >= MAX_VERIFIED
  {
    var order := verified.order;
    var rest := order[1..];
    RestHasNoDuplicates(order);
    DistinctByCount(rest);
    forall t | t in rest ensures t in OthersAfter(history, Latest(history, order[0])) {
      assert t in order;
      assert Ranks(verified, history)[order[0]] <= Ranks(verified, history)[t];
      assert history[Latest(history, t)].token == t;
    }
    SubsetIsNoLarger((set t | t in rest), OthersAfter(history, Latest(history, order[0])));
  }

  // Dropping a token that expired, or that MAX_VERIFIED others outrank.
  lemma {:induction false} DropKeepsHold(verified: Tokens, history: seq<Remembered>, now: int, t: Token)
    requires Holds(verified, history, now) && t in verified.entries
    requires verified.entries[t].until <= now || |OthersAfter(history, Latest(history, t))| >= MAX_VERIFIED
    ensures Holds(verified.Delete(t), history, now)
    ensures |verified.Delete(t).order| == |verified.order| - 1
  {
    verified.DeleteHolds(t);
    WithoutKeepsSorted(verified.order, t, Ranks(verified, history));
    SortedByAnother(verified.Delete(t).order, Ranks(verified, history), Ranks(verified.Delete(t), history));
  }

  // The account of the token's latest remember, which still lasts.
  ghost predicate Names(history: seq<Remembered>, t: Token, account: Account, now: int) {
    var i := Latest(history, t);
    i >= 0 && history[i].account == account && history[i].Lasts(now)
  }

  ghost predicate MustAnswer(history: seq<Remembered>, t: Token, now: int) {
    var i := Latest(history, t);
    i >= 0 && history[i].Lasts(now) && |OthersAfter(history, i)| < 20_000
  }

  // ---- The exemption windows ---------------------------------------------------

  type Windows = OrderedMap<Account, Entry>

  predicate IsOpen(e: Entry, now: int) {
    now - e.since < WINDOW_MS
  }

  function Starts(exemptions: Windows): map<Account, int> {
    map a | a in exemptions.entries :: exemptions.entries[a].since
  }

  ghost predicate OldestFirst(exemptions: Windows, now: int) {
    && exemptions.Valid()
    && (forall a :: a in exemptions.entries ==> exemptions.entries[a].since <= now)
    && Sorted(exemptions.order, Starts(exemptions))
  }

  // For every account outside `lost`: what is held is the truth, and what is
  // not held no longer matters.
  ghost predicate Agrees(exemptions: Windows, table: Table<Account>, now: int, lost: set<Account>) {
    && (forall a :: a in exemptions.entries && a !in lost ==> a in table && exemptions.entries[a] == table[a])
    && (forall a :: a in table && a !in exemptions.entries && a !in lost ==> now - table[a].since >= WINDOW_MS)
  }

  lemma {:induction false} ReopenKeepsOrder(exemptions: Windows, a: Account, now: int)
    requires OldestFirst(exemptions, now)
    ensures var after := exemptions.Delete(a).Set(a, Entry(0, now));
      && OldestFirst(after, now)
      && after.order != [] && after.order[|after.order| - 1] == a
      && |after.order| <= |exemptions.order| + 1
  {
    exemptions.MoveToEnd(a, Entry(0, now));
    var kept := Without(exemptions.order, a);
    var after := OrderedMap(kept + [a], exemptions.entries[a := Entry(0, now)]);
    WithoutHolds(exemptions.order, a);
    WithoutKeepsSorted(exemptions.order, a, Starts(exemptions));
    SortedByAnother(kept, Starts(exemptions), Starts(after));
    AppendKeepsSorted(kept, a, Starts(after));
  }

  lemma {:induction false} DropKeepsOrder(exemptions: Windows, now: int)
    requires OldestFirst(exemptions, now) && exemptions.order != []
    ensures OldestFirst(exemptions.Delete(exemptions.order[0]), now)
    ensures var after := exemptions.Delete(exemptions.order[0]).order;
      && after == exemptions.order[1..] && |after| == |exemptions.order| - 1
      && (after != [] ==> after[|after| - 1] == exemptions.order[|exemptions.order| - 1])
  {
    var after := exemptions.Delete(exemptions.order[0]);
    exemptions.DeleteHolds(exemptions.order[0]);
    WithoutOldest(exemptions.order);
    SortedByAnother(after.order, Starts(exemptions), Starts(after));
  }

  // If even the oldest window is open, so is every other.
  lemma {:induction false} OldestOpensAll(exemptions: Windows, now: int)
    requires OldestFirst(exemptions, now) && exemptions.order != []
    requires IsOpen(exemptions.entries[exemptions.order[0]], now)
    ensures forall a :: a in exemptions.entries ==> IsOpen(exemptions.entries[a], now)
  {
    forall a | a in exemptions.entries ensures IsOpen(exemptions.entries[a], now) {
      assert exemptions.order == [exemptions.order[0]] + exemptions.order[1..];
      if a != exemptions.order[0] {
        assert a in exemptions.order[1..];
        assert Starts(exemptions)[exemptions.order[0]] <= Starts(exemptions)[a];
      }
    }
  }

  function OnlyOf(log: seq<Take<Account>>, a: Account): seq<Take<Account>> {
    if log == [] then []
    else
      var rest := OnlyOf(log[..|log| - 1], a);
      if log[|log| - 1].key == a then rest + [log[|log| - 1]] else rest
  }

  lemma {:induction false} OneMoreTake(log: seq<Take<Account>>, t: Take<Account>, a: Account)
    ensures OnlyOf(log + [t], a) == OnlyOf(log, a) + if t.key == a then [t] else []
  {
    assert (log + [t])[..|log|] == log;
  }

  lemma {:induction false} CountsOnlyOwn(log: seq<Take<Account>>, a: Account, since: int, lo: int, hi: int)
    ensures CountWindow(log, a, since) == CountWindow(OnlyOf(log, a), a, since)
    ensures CountSpan(log, a, lo, hi) == CountSpan(OnlyOf(log, a), a, lo, hi)
  {
    if log != [] {
      var shorter, t := log[..|log| - 1], log[|log| - 1];
      CountsOnlyOwn(shorter, a, since, lo, hi);
      assert (OnlyOf(shorter, a) + [t])[..|OnlyOf(shorter, a)|] == OnlyOf(shorter, a);
    }
  }

  lemma {:induction false} OwnTakes(log: seq<Take<Account>>, a: Account, t: Take<Account>)
    ensures t in OnlyOf(log, a) <==> t in log && t.key == a
  {
    if log != [] {
      OwnTakes(log[..|log| - 1], a, t);
      assert log == log[..|log| - 1] + [log[|log| - 1]];
    }
  }

  lemma {:induction false} OwnTakesSpend(log: seq<Take<Account>>, other: seq<Take<Account>>, a: Account, now: int)
    requires OnlyOf(log, a) == OnlyOf(other, a) && Spent(log, a, now, 60_000, 120)
    ensures Spent(other, a, now, 60_000, 120)
  {
    var t :| t in log && OpensWindow(t, a, now, 60_000) && CountWindow(log, a, t.at) >= 120;
    OwnTakes(log, a, t);
    OwnTakes(other, a, t);
    CountsOnlyOwn(log, a, t.at, 0, 0);
    CountsOnlyOwn(other, a, t.at, 0, 0);
  }

  // What was taken is what a table that never forgets would admit.
  ghost predicate TookAsAdmitted(taken: seq<Take<Account>>, admitted: seq<Take<Account>>, lost: set<Account>) {
    forall a :: a !in lost ==> OnlyOf(taken, a) == OnlyOf(admitted, a)
  }

  // `a`'s entry, just before it is counted.
  ghost predicate Current(exemptions: Windows, table: Table<Account>, c: Call<Account>) {
    c.key in exemptions.entries
    && exemptions.entries[c.key] == if Open(EXEMPTION, table, c) then table[c.key] else Entry(0, c.now)
  }

  function Counted(exemptions: Windows, a: Account): Windows
    requires a in exemptions.entries
  {
    var e := exemptions.entries[a];
    if e.count < EXEMPT_PER_ACCOUNT_PER_MINUTE then exemptions.Set(a, e.(count := e.count + 1)) else exemptions
  }

  lemma {:induction false} CountKeepsOrder(exemptions: Windows, a: Account, now: int)
    requires OldestFirst(exemptions, now) && a in exemptions.entries
    ensures OldestFirst(Counted(exemptions, a), now) && Counted(exemptions, a).order == exemptions.order
  {
    SortedByAnother(exemptions.order, Starts(exemptions), Starts(Counted(exemptions, a)));
  }

  lemma {:induction false} CountKeepsAgreement(exemptions: Windows, table: Table<Account>, c: Call<Account>,
        lost: set<Account>)
    requires c.key in exemptions.entries
    requires Agrees(exemptions, table, c.now, lost + {c.key})
    requires c.key !in lost ==> Current(exemptions, table, c)
    ensures Agrees(Counted(exemptions, c.key), After(EXEMPTION, table, c), c.now, lost)
  {
  }

  function AdmittedNext(admitted: seq<Take<Account>>, table: Table<Account>, c: Call<Account>): seq<Take<Account>> {
    if Admits(EXEMPTION, table, c) then admitted + [Take(c.key, c.now, WindowOf(EXEMPTION, table, c))] else admitted
  }

  lemma {:induction false} TakeAgrees(taken: seq<Take<Account>>, admitted: seq<Take<Account>>, lost: set<Account>,
        exemptions: Windows, table: Table<Account>, c: Call<Account>)
    requires TookAsAdmitted(taken, admitted, lost)
    requires c.key in exemptions.entries && (c.key !in lost ==> Current(exemptions, table, c))
    ensures var e := exemptions.entries[c.key];
      TookAsAdmitted(if e.count < EXEMPT_PER_ACCOUNT_PER_MINUTE then taken + [Take(c.key, c.now, e.since)] else taken,
                     AdmittedNext(admitted, table, c), lost)
  {
    var e := exemptions.entries[c.key];
    forall a | a !in lost
      ensures OnlyOf(
                if e.count < EXEMPT_PER_ACCOUNT_PER_MINUTE then taken + [Take(c.key, c.now, e.since)] else taken, a)
           == OnlyOf(AdmittedNext(admitted, table, c), a)
    {
      OneMoreTake(taken, Take(c.key, c.now, e.since), a);
      OneMoreTake(admitted, Take(c.key, c.now, WindowOf(EXEMPTION, table, c)), a);
    }
  }

  ghost predicate Fits(exemptions: Windows, table: Table<Account>, now: int, lost: set<Account>) {
    OldestFirst(exemptions, now) && |exemptions.order| <= MAX_VERIFIED && Agrees(exemptions, table, now, lost)
  }

  lemma {:induction false} CountKeepsFit(exemptions: Windows, table: Table<Account>, c: Call<Account>,
        lost: set<Account>)
    requires c.key in exemptions.entries
    requires Fits(exemptions, table, c.now, lost + {c.key})
    requires c.key !in lost ==> Current(exemptions, table, c)
    ensures Fits(Counted(exemptions, c.key), After(EXEMPTION, table, c), c.now, lost)
  {
    CountKeepsAgreement(exemptions, table, c, lost);
    CountKeepsOrder(exemptions, c.key, c.now);
  }

  // What a table that never forgets makes of the calls.
  ghost predicate Ideal(calls: seq<Call<Account>>, table: Table<Account>, admitted: seq<Take<Account>>, now: int) {
    && Ordered(calls) && (calls != [] ==> calls[|calls| - 1].now <= now)
    && table == TableOf(EXEMPTION, calls) && admitted == Admitted(EXEMPTION, calls)
  }

  lemma {:induction false} CallKeepsIdeal(calls: seq<Call<Account>>, table: Table<Account>,
        admitted: seq<Take<Account>>, c: Call<Account>)
    requires Ideal(calls, table, admitted, c.now)
    ensures Ideal(calls + [c], After(EXEMPTION, table, c), AdmittedNext(admitted, table, c), c.now)
  {
    OneMoreCall(EXEMPTION, calls, c);
  }

  ghost predicate Sound(exemptions: Windows, calls: seq<Call<Account>>, table: Table<Account>,
        admitted: seq<Take<Account>>, taken: seq<Take<Account>>, lost: set<Account>, now: int) {
    Ideal(calls, table, admitted, now) && Fits(exemptions, table, now, lost) && TookAsAdmitted(taken, admitted, lost)
  }

  lemma {:induction false} SoundOutlasts(exemptions: Windows, calls: seq<Call<Account>>, table: Table<Account>,
        admitted: seq<Take<Account>>, taken: seq<Take<Account>>, lost: set<Account>, before: int, now: int)
    requires Sound(exemptions, calls, table, admitted, taken, lost, before) && before <= now
    ensures Sound(exemptions, calls, table, admitted, taken, lost, now)
  {
  }

  // An exemption is given unless the account has taken 120 in a window it opened less
  // than a minute ago.
  lemma {:induction false} AdmitsUnlessSpent(calls: seq<Call<Account>>, table: Table<Account>,
        admitted: seq<Take<Account>>, taken: seq<Take<Account>>, c: Call<Account>, lost: set<Account>)
    requires Ideal(calls, table, admitted, c.now) && TookAsAdmitted(taken, admitted, lost) && c.key !in lost
    ensures Admits(EXEMPTION, table, c) <==> !Spent(taken, c.key, c.now, 60_000, 120)
  {
    RefusesExactly(EXEMPTION, calls, c);
    if Spent(admitted, c.key, c.now, 60_000, 120) { OwnTakesSpend(admitted, taken, c.key, c.now); }
    if Spent(taken, c.key, c.now, 60_000, 120) { OwnTakesSpend(taken, admitted, c.key, c.now); }
  }

  lemma {:induction false} ChargeKeepsSound(exemptions: Windows, calls: seq<Call<Account>>, table: Table<Account>,
        admitted: seq<Take<Account>>, taken: seq<Take<Account>>, lost: set<Account>, c: Call<Account>, exempt: bool)
    requires Ideal(calls, table, admitted, c.now) && Fits(exemptions, table, c.now, lost + {c.key})
    requires TookAsAdmitted(taken, admitted, lost)
    requires c.key in exemptions.entries && (c.key !in lost ==> Current(exemptions, table, c))
    requires exempt <==> exemptions.entries[c.key].count < EXEMPT_PER_ACCOUNT_PER_MINUTE
    ensures Sound(Counted(exemptions, c.key), calls + [c], After(EXEMPTION, table, c), AdmittedNext(admitted, table, c),
                  if exempt then taken + [Take(c.key, c.now, exemptions.entries[c.key].since)] else taken, lost, c.now)
    ensures c.key !in lost ==> (exempt <==> !Spent(taken, c.key, c.now, 60_000, 120))
  {
    if c.key !in lost { AdmitsUnlessSpent(calls, table, admitted, taken, c, lost); }
    CountKeepsFit(exemptions, table, c, lost);
    TakeAgrees(taken, admitted, lost, exemptions, table, c);
    CallKeepsIdeal(calls, table, admitted, c);
  }

  // What eviction may do: drop windows that are over, or count as lost those
  // that are open.
  ghost predicate Evicted(before: Windows, after: Windows, lost: set<Account>, now: int) {
    && (forall a :: a in after.entries ==> a in before.entries && after.entries[a] == before.entries[a])
    && (forall a :: a in before.entries && a !in after.entries && a !in lost ==> !IsOpen(before.entries[a], now))
  }

  // The map with a new window for the account, begun now, at its end.
  function Reopened(exemptions: Windows, a: Account, now: int): Windows {
    OrderedMap(Without(exemptions.order, a) + [a], exemptions.entries[a := Entry(0, now)])
  }

  // What is left of a list that lost keys from its front only.
  ghost predicate IsTail<K>(all: seq<K>, tail: seq<K>) {
    tail == all || (all != [] && IsTail(all[1..], tail))
  }

  lemma {:induction false} TailOfTail<K>(all: seq<K>, tail: seq<K>)
    requires IsTail(all, tail) && tail != []
    ensures IsTail(all, tail[1..])
  {
    if tail == all {
      assert IsTail(all[1..], tail[1..]);
    } else {
      TailOfTail(all[1..], tail);
    }
  }

  // No more is gone than was over the bound.
  ghost predicate Kept<K>(all: seq<K>, tail: seq<K>) {
    IsTail(all, tail) && (tail == all || |tail| >= MAX_VERIFIED)
  }

  lemma {:induction false} DropKeepsKept<K>(all: seq<K>, tail: seq<K>)
    requires Kept(all, tail) && |tail| > MAX_VERIFIED
    ensures Kept(all, tail[1..])
  {
    TailOfTail(all, tail);
  }

  // A tail is the keys that came last.
  lemma {:induction false} TailIsTheLatest<K>(all: seq<K>, tail: seq<K>)
    requires IsTail(all, tail)
    ensures |tail| <= |all| && tail == all[|all| - |tail|..]
  {
    if tail != all { TailIsTheLatest(all[1..], tail); }
  }

  lemma {:induction false} ReopenAgrees(exemptions: Windows, table: Table<Account>, c: Call<Account>,
        lost: set<Account>, after: Windows, more: set<Account>)
    requires Agrees(exemptions, table, c.now, lost) && lost <= more
    requires c.key in exemptions.entries ==> !IsOpen(exemptions.entries[c.key], c.now)
    requires Evicted(Reopened(exemptions, c.key, c.now), after, more, c.now)
    requires c.key in after.entries
    ensures Agrees(after, table, c.now, more + {c.key})
    ensures c.key !in lost ==> Current(after, table, c)
    ensures IsOpen(after.entries[c.key], c.now)
  {
  }

  lemma {:induction false} OpenIsCurrent(exemptions: Windows, table: Table<Account>, c: Call<Account>,
        lost: set<Account>)
    requires Agrees(exemptions, table, c.now, lost)
    requires c.key in exemptions.entries && IsOpen(exemptions.entries[c.key], c.now)
    ensures Agrees(exemptions, table, c.now, lost + {c.key})
    ensures c.key !in lost ==> Current(exemptions, table, c)
  {
  }

  // As many windows as are kept, every one of them open.
  ghost predicate AllOpen(exemptions: Windows, now: int) {
    && |exemptions.order| == 20_000
    && forall a :: a in exemptions.entries ==> now - exemptions.entries[a].since < 60_000
  }

  // Part of the way through an eviction that began with `before` and `spared`.
  ghost predicate Evicting(before: Windows, spared: set<Account>, exemptions: Windows, lost: set<Account>,
        newest: Account, now: int) {
    && OldestFirst(exemptions, now) && 0 < |exemptions.order| <= MAX_VERIFIED + 1
    && exemptions.order[|exemptions.order| - 1] == newest
    && (newest in lost ==> newest in spared) && spared <= lost
    && Evicted(before, exemptions, lost, now) && Kept(before.order, exemptions.order)
    && (lost != spared ==> AllOpen(exemptions, now))
  }

  lemma {:induction false} OneMoreEvicted(before: Windows, exemptions: Windows, lost: set<Account>, a: Account,
        now: int)
    requires Evicted(before, exemptions, lost, now) && a in exemptions.entries
    ensures Evicted(before, exemptions.Delete(a), if IsOpen(exemptions.entries[a], now) then lost + {a} else lost, now)
  {
  }

  lemma {:induction false} EvictOne(before: Windows, spared: set<Account>, exemptions: Windows, lost: set<Account>,
        newest: Account, now: int)
    requires Evicting(before, spared, exemptions, lost, newest, now) && |exemptions.order| > MAX_VERIFIED
    ensures var oldest := exemptions.order[0];
      && oldest in exemptions.entries && |exemptions.Delete(oldest).order| < |exemptions.order|
      && Evicting(before, spared, exemptions.Delete(oldest),
                  if IsOpen(exemptions.entries[oldest], now) then lost + {oldest} else lost, newest, now)
  {
    var oldest := exemptions.order[0];
    DropKeepsOrder(exemptions, now);
    DropKeepsKept(before.order, exemptions.order);
    RestHasNoDuplicates(exemptions.order);
    OneMoreEvicted(before, exemptions, lost, oldest, now);
    if IsOpen(exemptions.entries[oldest], now) { OldestOpensAll(exemptions, now); }
  }

  lemma {:induction false} OldestGoes(verified: Tokens, history: seq<Remembered>, clock: int)
    requires Holds(verified, history, clock) && |verified.order| > MAX_VERIFIED
    ensures Holds(verified.Delete(verified.order[0]), history, clock)
    ensures verified.Delete(verified.order[0]).order == verified.order[1..]
  {
    OthersOutrankOldest(verified, history);
    DropKeepsHold(verified, history, clock, verified.order[0]);
    WithoutOldest(verified.order);
  }

  class TokenPool {
    var verified: Tokens
    ghost var clock: int
    ghost var history: seq<Remembered>

    ghost predicate Valid()
      reads this
    {
      Holds(verified, history, clock) && |verified.order| <= MAX_VERIFIED
    }

    constructor ()
      ensures Valid() && history == []
    {
      verified, clock, history := OrderedMap([], map[]), 0, [];
    }

    method RememberVerifiedToken(token: Token, userId: Account, expires: Option<int>, now: int)
      requires Valid() && clock <= now
      modifies this
      ensures Valid() && clock == now
      ensures history == old(history)
        + if expires.Some? && expires.value <= now then [] else [Remembered(token, userId, now, expires)]
      ensures |verified.order| <= 20_000
    {
      TimePasses(verified, history, clock, now);
      clock := now;
      var until := Until(now, expires);
      if until <= now { return; }
      ghost var r := Remembered(token, userId, now, expires);
      RememberKeepsHold(verified, history, r, now);
      history := history + [r];
      verified := verified.Delete(token).Set(token, Verified(until, userId));
      EvictTokens();
    }

    // Evicts the tokens remembered longest ago.
    method EvictTokens()
      requires Holds(verified, history, clock)
      modifies `verified
      ensures Valid() && Kept(old(verified).order, verified.order)
    {
      ghost var before := verified.order;
      while |verified.order| > MAX_VERIFIED
        invariant Holds(verified, history, clock)
        invariant Kept(before, verified.order)
        decreases |verified.order|
      {
        var oldest := verified.order[0];
        OldestGoes(verified, history, clock);
        DropKeepsKept(before, verified.order);
        verified := verified.Delete(oldest);
      }
    }

    // An account named is the one of the token's latest remember, unexpired; a
    // token with fewer than MAX_VERIFIED others remembered after it is answered
    // until it expires.
    method VerifiedAccount(bearer: Option<Token>, now: int) returns (account: Option<Account>)
      requires Valid() && clock <= now
      modifies `verified, `clock
      ensures Valid() && clock == now
      ensures account.Some? ==> bearer.Some? && Names(history, bearer.value, account.value, now)
      ensures bearer.Some? && MustAnswer(history, bearer.value, now) ==> account.Some?
    {
      TimePasses(verified, history, clock, now);
      clock := now;
      if bearer.None? { return None; }
      var key := bearer.value;
      if key !in verified.entries { return None; }
      var entry := verified.entries[key];
      if entry.until <= now {
        DropKeepsHold(verified, history, now, key);
        verified := verified.Delete(key);
        return None;
      }
      return Some(entry.userId);
    }
  }

  class ExemptionPool {
    var exemptions: Windows
    ghost var clock: int
    ghost var calls: seq<Call<Account>>
    ghost var table: Table<Account>
    ghost var admitted: seq<Take<Account>>
    ghost var taken: seq<Take<Account>>
    ghost var lost: set<Account>

    ghost predicate Valid()
      reads this
    {
      Sound(exemptions, calls, table, admitted, taken, lost, clock)
    }

    ghost predicate FullHouse()
      reads `exemptions, `clock
    {
      AllOpen(exemptions, clock)
    }

    constructor ()
      ensures Valid() && calls == [] && taken == [] && lost == {}
    {
      exemptions, clock := OrderedMap([], map[]), 0;
      calls, table, admitted, taken, lost := [], map[], [], [], {};
    }

    // Deletes the window that started longest ago, and counts it lost if it is open.
    method EvictOldest(ghost before: Windows, ghost spared: set<Account>, ghost newest: Account)
      requires Evicting(before, spared, exemptions, lost, newest, clock) && |exemptions.order| > MAX_VERIFIED
      modifies `exemptions, `lost
      ensures Evicting(before, spared, exemptions, lost, newest, clock)
      ensures |exemptions.order| < |old(exemptions).order|
      ensures var oldest := old(exemptions).order[0];
        && exemptions == old(exemptions).Delete(oldest)
        && lost == old(lost) + if IsOpen(old(exemptions).entries[oldest], clock) then {oldest} else {}
    {
      EvictOne(before, spared, exemptions, lost, newest, clock);
      var oldest := exemptions.order[0];
      if IsOpen(exemptions.entries[oldest], clock) { lost := lost + {oldest}; }
      exemptions := exemptions.Delete(oldest);
    }

    // Evicts the windows that started longest ago. An open one is lost only when
    // all the others are open too.
    method EvictWindows(ghost newest: Account)
      requires OldestFirst(exemptions, clock) && exemptions.order != []
      requires exemptions.order[|exemptions.order| - 1] == newest && |exemptions.order| <= MAX_VERIFIED + 1
      modifies `exemptions, `lost
      ensures OldestFirst(exemptions, clock) && |exemptions.order| <= MAX_VERIFIED
      ensures newest in exemptions.entries && (newest in lost ==> newest in old(lost)) && old(lost) <= lost
      ensures Evicted(old(exemptions), exemptions, lost, clock)
      ensures Kept(old(exemptions).order, exemptions.order)
      ensures lost != old(lost) ==> FullHouse()
    {
      ghost var before, spared := exemptions, lost;
      while |exemptions.order| > MAX_VERIFIED
        invariant Evicting(before, spared, exemptions, lost, newest, clock)
        decreases |exemptions.order|
      {
        EvictOldest(before, spared, newest);
      }
    }

    method Reopen(userId: Account, now: int)
      requires OldestFirst(exemptions, now) && |exemptions.order| <= MAX_VERIFIED && clock == now
      modifies `exemptions, `lost
      ensures OldestFirst(exemptions, now) && |exemptions.order| <= MAX_VERIFIED
      ensures userId in exemptions.entries
      ensures Evicted(Reopened(old(exemptions), userId, now), exemptions, lost, now)
      ensures Kept(Reopened(old(exemptions), userId, now).order, exemptions.order)
      ensures old(lost) <= lost && (userId in lost ==> userId in old(lost)) && (lost != old(lost) ==> FullHouse())
    {
      ReopenKeepsOrder(exemptions, userId, now);
      exemptions.MoveToEnd(userId, Entry(0, now));
      exemptions := exemptions.Delete(userId).Set(userId, Entry(0, now));
      EvictWindows(userId);
    }

    // The account's entry, in a window that is open.
    method OpenWindow(userId: Account, now: int)
      requires Fits(exemptions, table, now, lost) && clock == now
      modifies `exemptions, `lost
      ensures Fits(exemptions, table, now, lost + {userId})
      ensures userId in exemptions.entries && IsOpen(exemptions.entries[userId], now)
      ensures userId !in lost ==> Current(exemptions, table, Call(userId, now))
      ensures old(lost) <= lost && (userId in lost ==> userId in old(lost)) && (lost != old(lost) ==> FullHouse())
    {
      if userId !in exemptions.entries || now - exemptions.entries[userId].since >= WINDOW_MS {
        ghost var before := exemptions;
        Reopen(userId, now);
        ReopenAgrees(before, table, Call(userId, now), old(lost), exemptions, lost);
      } else {
        OpenIsCurrent(exemptions, table, Call(userId, now), lost);
      }
    }

    // Counts one exemption, unless the window's are spent.
    method Charge(userId: Account) returns (exempt: bool)
      requires userId in exemptions.entries
      modifies `exemptions
      ensures exemptions == Counted(old(exemptions), userId)
      ensures exempt <==> old(exemptions).entries[userId].count < EXEMPT_PER_ACCOUNT_PER_MINUTE
      ensures old(FullHouse()) ==> FullHouse()
    {
      var entry := exemptions.entries[userId];
      if entry.count >= EXEMPT_PER_ACCOUNT_PER_MINUTE { return false; }
      exemptions := exemptions.Set(userId, entry.(count := entry.count + 1));
      return true;
    }

    method Settle(userId: Account, now: int) returns (exempt: bool, ghost since: int)
      requires Ideal(calls, table, admitted, now) && Fits(exemptions, table, now, lost + {userId}) && clock == now
      requires TookAsAdmitted(taken, admitted, lost) && userId in exemptions.entries
      requires userId !in lost ==> Current(exemptions, table, Call(userId, now))
      modifies `exemptions, `calls, `table, `admitted, `taken
      ensures Valid() && (old(FullHouse()) ==> FullHouse())
      ensures calls == old(calls) + [Call(userId, now)]
      ensures taken == if exempt then old(taken) + [Take(userId, now, since)] else old(taken)
      ensures userId !in lost ==> (exempt <==> !Spent(old(taken), userId, now, 60_000, 120))
    {
      ghost var c := Call(userId, now);
      since := exemptions.entries[userId].since;
      ChargeKeepsSound(exemptions, calls, table, admitted, taken, lost, c,
                       exemptions.entries[userId].count < EXEMPT_PER_ACCOUNT_PER_MINUTE);
      exempt := Charge(userId);
      calls, table, admitted, taken :=
        calls + [c], After(EXEMPTION, table, c), AdmittedNext(admitted, table, c),
        if exempt then taken + [Take(userId, now, since)] else taken;
    }

    method TakeFor(userId: Account, now: int) returns (exempt: bool, ghost since: int)
      requires Valid() && clock <= now
      modifies this
      ensures Valid() && clock == now && old(lost) <= lost && (lost != old(lost) ==> FullHouse())
      ensures calls == old(calls) + [Call(userId, now)]
      ensures taken == if exempt then old(taken) + [Take(userId, now, since)] else old(taken)
      ensures userId !in lost ==> (exempt <==> !Spent(old(taken), userId, now, 60_000, 120))
    {
      SoundOutlasts(exemptions, calls, table, admitted, taken, lost, clock, now);
      clock := now;
      OpenWindow(userId, now);
      exempt, since := Settle(userId, now);
    }

    // Any run, as long as the account's open window is never evicted.
    lemma {:induction false} AccountStaysWithinLimit(account: Account, since: int, lo: int)
      requires Valid() && account !in lost
      ensures CountWindow(taken, account, since) <= 120
      ensures CountSpan(taken, account, lo, lo + 60_000) <= 240
    {
      CallsStayWithinLimit(EXEMPTION, calls, account, since, lo);
      CountsOnlyOwn(taken, account, since, lo, lo + WINDOW_MS);
      CountsOnlyOwn(Admitted(EXEMPTION, calls), account, since, lo, lo + WINDOW_MS);
    }
  }

  // Answers as a table that never forgets, for every account whose open window
  // was never evicted; and that happens only in a full house of open windows.
  method TakeExemption(tokens: TokenPool, windows: ExemptionPool, bearer: Option<Token>, now: int)
    returns (exempt: bool, account: Option<Account>, ghost since: int)
    requires tokens.Valid() && windows.Valid() && tokens.clock <= now && windows.clock <= now
    modifies tokens`verified, tokens`clock, windows
    ensures tokens.Valid() && windows.Valid() && tokens.clock == now && windows.clock <= now
    ensures account.Some? ==> bearer.Some? && Names(tokens.history, bearer.value, account.value, now)
    ensures bearer.Some? && MustAnswer(tokens.history, bearer.value, now) ==> account.Some?
    ensures account.None? ==> !exempt && windows.calls == old(windows.calls) && windows.lost == old(windows.lost)
    ensures account.Some? ==> windows.calls == old(windows.calls) + [Call(account.value, now)]
    ensures account.Some? && account.value !in windows.lost ==>
      (exempt <==> !Spent(old(windows.taken), account.value, now, 60_000, 120))
    ensures exempt ==> account.Some?
    ensures windows.taken == old(windows.taken) + if exempt then [Take(account.value, now, since)] else []
    ensures old(windows.lost) <= windows.lost && (windows.lost != old(windows.lost) ==> windows.FullHouse())
  {
    account := tokens.VerifiedAccount(bearer, now);
    if account.None? {
      assert windows.taken + [] == windows.taken;
      return false, account, now;
    }
    exempt, since := windows.TakeFor(account.value, now);
  }
}
