// verificationWait of src/api/addressRequestApi.ts: a budget of paid checks per
// link and day, in a table that sweeps stale entries when it is large.
// Links are named by their digest, taken to be injective.
module VerificationBudget {
  import opened FixedWindow

  const VERIFICATIONS_PER_LINK := 10
  const VERIFICATION_WINDOW_MS := 86_400_000
  const SWEEP_ABOVE := 10_000
  const BUDGET := Rule(VERIFICATION_WINDOW_MS, VERIFICATIONS_PER_LINK)

  type Link = string

  function CeilSeconds(ms: int): int { (ms + 999) / 1000 }

  // What a table that never forgets answers: seconds to wait, 0 to go ahead.
  function Answer(table: Table<Link>, c: Call<Link>): int {
    if Admits(BUDGET, table, c) then 0
    else CeilSeconds(table[c.key].since + VERIFICATION_WINDOW_MS - c.now)
  }

  lemma {:induction false} CeilPositive(ms: int)
    requires ms > 0
    ensures CeilSeconds(ms) > 0
    ensures forall n :: CeilSeconds(ms) <= n <==> ms <= 1000 * n
  {
  }

  lemma {:induction false} ZeroIsAdmission(table: Table<Link>, c: Call<Link>)
    ensures Answer(table, c) == 0 <==> Admits(BUDGET, table, c)
    ensures Answer(table, c) >= 0
  {
    if !Admits(BUDGET, table, c) { CeilPositive(table[c.key].since + VERIFICATION_WINDOW_MS - c.now); }
  }

  // Over every sequence of calls, a link spends at most 10 checks in a window
  // and at most 20 in any 24 hours.
  lemma {:induction false} LinkStaysWithinBudget(calls: seq<Call<Link>>, link: Link, since: int, lo: int)
    requires Ordered(calls)
    ensures CountWindow(Admitted(BUDGET, calls), link, since) <= 10
    ensures CountSpan(Admitted(BUDGET, calls), link, lo, lo + 86_400_000) <= 20
  {
    CallsStayWithinLimit(BUDGET, calls, link, since, lo);
  }

  // And it gets them: a call waits exactly when its link has spent 10 checks in a
  // window it opened less than 24 hours ago.
  lemma {:induction false} LinkGetsItsBudget(calls: seq<Call<Link>>, c: Call<Link>)
    requires Ordered(calls + [c])
    ensures Answer(TableOf(BUDGET, calls), c) > 0 <==> Spent(Admitted(BUDGET, calls), c.key, c.now, 86_400_000, 10)
  {
    RefusesExactly(BUDGET, calls, c);
    ZeroIsAdmission(TableOf(BUDGET, calls), c);
  }

  // A non-zero answer is the least number of whole seconds after which the
  // link's next call succeeds, whatever other links do meanwhile.
  lemma {:induction false} WaitIsLeast(calls: seq<Call<Link>>, c: Call<Link>, others: seq<Call<Link>>, seconds: nat)
    requires forall i :: 0 <= i < |others| ==> others[i].key != c.key
    requires Answer(TableOf(BUDGET, calls), c) > 0
    ensures Answer(TableOf(BUDGET, calls + [c] + others), Call(c.key, c.now + 1000 * seconds)) == 0
       <==> Answer(TableOf(BUDGET, calls), c) <= seconds
  {
    OneMoreCall(BUDGET, calls, c);
    assert TableOf(BUDGET, calls + [c]) == TableOf(BUDGET, calls);
    OthersLeaveEntry(BUDGET, calls + [c], others, c.key);
    var left := TableOf(BUDGET, calls)[c.key].since + VERIFICATION_WINDOW_MS - c.now;
    CeilPositive(left);
    if left - 1000 * seconds > 0 { CeilPositive(left - 1000 * seconds); }
  }

  // What was swept can no longer matter; what was kept is the truth.
  ghost predicate Kept(kept: Table<Link>, whole: Table<Link>, calls: seq<Call<Link>>) {
    && (forall k :: k in kept ==> k in whole && kept[k] == whole[k])
    && (forall k :: k in whole && k !in kept ==>
          calls != [] && calls[|calls| - 1].now - whole[k].since >= VERIFICATION_WINDOW_MS)
  }

  lemma {:induction false} CallKeeps(kept: Table<Link>, whole: Table<Link>, calls: seq<Call<Link>>, c: Call<Link>)
    requires Kept(kept, whole, calls) && (calls != [] ==> calls[|calls| - 1].now <= c.now)
    requires c.key in kept && c.now - kept[c.key].since < VERIFICATION_WINDOW_MS
    ensures Open(BUDGET, whole, c) && whole[c.key] == kept[c.key]
    ensures kept[c.key].count >= VERIFICATIONS_PER_LINK ==> Kept(kept, After(BUDGET, whole, c), calls + [c])
    ensures kept[c.key].count < VERIFICATIONS_PER_LINK ==>
      Kept(kept[c.key := kept[c.key].(count := kept[c.key].count + 1)], After(BUDGET, whole, c), calls + [c])
  {
  }

  // A new window, after a sweep that took only entries that are over.
  lemma {:induction false} WindowKeeps(kept: Table<Link>, swept: Table<Link>, whole: Table<Link>,
        calls: seq<Call<Link>>, c: Call<Link>)
    requires Kept(kept, whole, calls) && (calls != [] ==> calls[|calls| - 1].now <= c.now)
    requires c.key in kept ==> c.now - kept[c.key].since >= VERIFICATION_WINDOW_MS
    requires forall k :: k in swept ==> k in kept && swept[k] == kept[k]
    requires forall k :: k in kept && k !in swept ==> c.now - kept[k].since >= VERIFICATION_WINDOW_MS
    ensures Admits(BUDGET, whole, c)
    ensures Kept(swept[c.key := Entry(1, c.now)], After(BUDGET, whole, c), calls + [c])
  {
  }

  class Budget {
    var verificationsByLink: Table<Link>
    ghost var calls: seq<Call<Link>>

    ghost predicate Valid()
      reads this
    {
      Ordered(calls) && Kept(verificationsByLink, TableOf(BUDGET, calls), calls)
    }

    constructor ()
      ensures Valid() && calls == []
    {
      verificationsByLink := map[];
      calls := [];
    }

    // Deletes stale entries, in whatever order the table gives them.
    method Sweep(now: int)
      modifies this`verificationsByLink
      ensures forall k :: k in verificationsByLink <==>
        k in old(verificationsByLink) && now - old(verificationsByLink)[k].since < VERIFICATION_WINDOW_MS
      ensures forall k :: k in verificationsByLink ==> verificationsByLink[k] == old(verificationsByLink)[k]
    {
      var keys := verificationsByLink.Keys;
      while keys != {}
        invariant keys <= verificationsByLink.Keys <= old(verificationsByLink).Keys
        invariant forall k :: k in verificationsByLink ==> verificationsByLink[k] == old(verificationsByLink)[k]
        invariant forall k :: k in old(verificationsByLink) && k !in keys ==>
          (k in verificationsByLink <==> now - old(verificationsByLink)[k].since < VERIFICATION_WINDOW_MS)
        decreases keys
      {
        var stale :| stale in keys;
        if now - verificationsByLink[stale].since >= VERIFICATION_WINDOW_MS {
          verificationsByLink := verificationsByLink - {stale};
        }
        keys := keys - {stale};
      }
    }

    // Answers exactly as a table that never forgets.
    method VerificationWait(link: Link, now: int) returns (wait: int)
      requires Valid() && Ordered(calls + [Call(link, now)])
      modifies this
      ensures Valid() && calls == old(calls) + [Call(link, now)]
      ensures |old(verificationsByLink)| <= 10_000 ==> old(verificationsByLink).Keys <= verificationsByLink.Keys
      ensures verificationsByLink.Keys <= old(verificationsByLink).Keys
        || |old(verificationsByLink)| <= 10_000
        || forall k :: k in verificationsByLink ==> now - verificationsByLink[k].since < 86_400_000
      ensures wait == Answer(TableOf(BUDGET, old(calls)), Call(link, now))
      ensures wait >= 0 && (wait > 0 <==> Spent(Admitted(BUDGET, old(calls)), link, now, 86_400_000, 10))
    {
      ZeroIsAdmission(TableOf(BUDGET, calls), Call(link, now));
      LinkGetsItsBudget(calls, Call(link, now));
      ghost var c, kept, before := Call(link, now), verificationsByLink, calls;
      ghost var whole := TableOf(BUDGET, calls);
      OneMoreCall(BUDGET, calls, c);
      calls := calls + [c];
      assert before != [] ==> calls[|before| - 1].now <= calls[|before|].now;
      if link in verificationsByLink {
        var entry := verificationsByLink[link];
        if now - entry.since < VERIFICATION_WINDOW_MS {
          CallKeeps(kept, whole, before, c);
          if entry.count >= VERIFICATIONS_PER_LINK {
            return CeilSeconds(entry.since + VERIFICATION_WINDOW_MS - now);
          }
          verificationsByLink := verificationsByLink[link := entry.(count := entry.count + 1)];
          return 0;
        }
      }
      if |verificationsByLink| > SWEEP_ABOVE {
        Sweep(now);
      }
      WindowKeeps(kept, verificationsByLink, whole, before, c);
      verificationsByLink := verificationsByLink[link := Entry(1, now)];
      return 0;
    }
  }
}
