// Fixed-window counters: a table that never forgets an entry, and what it allows
// over a sliding span. A take belongs to the window that was open when it
// happened; windows of one key never overlap.
module FixedWindow {
  datatype Rule = Rule(window: int, limit: nat)
  datatype Entry = Entry(count: nat, since: int)
  datatype Call<K(==)> = Call(key: K, now: int)
  type Table<K(==)> = map<K, Entry>
  datatype Take<K(==)> = Take(key: K, at: int, since: int)

  function CountWindow<K>(log: seq<Take<K>>, key: K, since: int): nat {
    if log == [] then 0
    else
      var last := log[|log| - 1];
      CountWindow(log[..|log| - 1], key, since) + if last.key == key && last.since == since then 1 else 0
  }

  function CountSpan<K>(log: seq<Take<K>>, key: K, lo: int, hi: int): nat {
    if log == [] then 0
    else
      var last := log[|log| - 1];
      CountSpan(log[..|log| - 1], key, lo, hi) + if last.key == key && lo <= last.at <= hi then 1 else 0
  }

  ghost predicate Inside<K>(log: seq<Take<K>>, window: int) {
    forall i :: 0 <= i < |log| ==> log[i].since <= log[i].at < log[i].since + window
  }

  ghost predicate Apart<K>(log: seq<Take<K>>, window: int) {
    forall i, j :: 0 <= i < |log| && 0 <= j < |log| && log[i].key == log[j].key && log[i].since < log[j].since
      ==> log[i].since + window <= log[j].since
  }

  ghost predicate Limited<K>(log: seq<Take<K>>, limit: nat) {
    forall i :: 0 <= i < |log| ==> CountWindow(log, log[i].key, log[i].since) <= limit
  }

  ghost predicate WellWindowed<K>(log: seq<Take<K>>, window: int, limit: nat) {
    Inside(log, window) && Apart(log, window) && Limited(log, limit)
  }

  lemma {:induction false} AbsentWindowIsEmpty<K>(log: seq<Take<K>>, key: K, since: int)
    requires forall i :: 0 <= i < |log| ==> log[i].key != key || log[i].since != since
    ensures CountWindow(log, key, since) == 0
  {
    if log != [] { AbsentWindowIsEmpty(log[..|log| - 1], key, since); }
  }

  lemma {:induction false} SpanInTwoWindows<K>(log: seq<Take<K>>, key: K, lo: int, hi: int, a: int, b: int)
    requires a != b
    requires forall i :: 0 <= i < |log| && log[i].key == key && lo <= log[i].at <= hi ==> log[i].since in {a, b}
    ensures CountSpan(log, key, lo, hi) <= CountWindow(log, key, a) + CountWindow(log, key, b)
  {
    if log != [] { SpanInTwoWindows(log[..|log| - 1], key, lo, hi, a, b); }
  }

  predicate InSpan<K(==)>(t: Take<K>, key: K, lo: int, hi: int) {
    t.key == key && lo <= t.at <= hi
  }

  lemma {:induction false} WindowWithinLimit<K>(log: seq<Take<K>>, window: int, limit: nat, key: K, since: int)
    requires WellWindowed(log, window, limit)
    ensures CountWindow(log, key, since) <= limit
  {
    if i :| 0 <= i < |log| && log[i].key == key && log[i].since == since {
    } else {
      AbsentWindowIsEmpty(log, key, since);
    }
  }

  // No span as long as a window, ends included, holds more than two windows' worth.
  lemma {:induction false} SpanHoldsTwoWindows<K>(log: seq<Take<K>>, window: int, limit: nat, key: K, lo: int, hi: int)
    requires WellWindowed(log, window, limit) && window > 0 && hi - lo <= window
    ensures CountSpan(log, key, lo, hi) <= 2 * limit
  {
    var a, b := 0, 1;
    if i :| 0 <= i < |log| && InSpan(log[i], key, lo, hi) {
      a := log[i].since;
      b := a + 1;
      if j :| 0 <= j < |log| && InSpan(log[j], key, lo, hi) && log[j].since != a {
        b := log[j].since;
      }
    }
    WindowWithinLimit(log, window, limit, key, a);
    WindowWithinLimit(log, window, limit, key, b);
    SpanInTwoWindows(log, key, lo, hi, a, b);
  }

  lemma {:induction false} CountAfterTake<K>(log: seq<Take<K>>, t: Take<K>, key: K, since: int)
    ensures CountWindow(log + [t], key, since)
         == CountWindow(log, key, since) + if t.key == key && t.since == since then 1 else 0
  {
    assert (log + [t])[..|log|] == log;
  }

  lemma {:induction false} TakeKeepsLimit<K>(log: seq<Take<K>>, limit: nat, t: Take<K>)
    requires Limited(log, limit) && CountWindow(log, t.key, t.since) < limit
    ensures Limited(log + [t], limit)
  {
    var longer := log + [t];
    forall i | 0 <= i < |longer| ensures CountWindow(longer, longer[i].key, longer[i].since) <= limit {
      CountAfterTake(log, t, longer[i].key, longer[i].since);
      if i < |log| { assert CountWindow(log, log[i].key, log[i].since) <= limit; }
    }
  }

  lemma {:induction false} TakeKeepsApart<K>(log: seq<Take<K>>, window: int, t: Take<K>)
    requires Apart(log, window)
    requires forall i :: 0 <= i < |log| && log[i].key == t.key ==>
      log[i].since == t.since || log[i].since + window <= t.since
    requires window > 0
    ensures Apart(log + [t], window)
  {
  }

  lemma {:induction false} TakeKeepsInside<K>(log: seq<Take<K>>, window: int, t: Take<K>)
    requires Inside(log, window) && t.since <= t.at < t.since + window
    ensures Inside(log + [t], window)
  {
  }

  // A take in the key's open window, or in a new one after its windows are over.
  lemma {:induction false} TakeKeepsWindows<K>(log: seq<Take<K>>, window: int, limit: nat, t: Take<K>)
    requires WellWindowed(log, window, limit) && t.since <= t.at < t.since + window
    requires forall i :: 0 <= i < |log| && log[i].key == t.key ==>
      log[i].since == t.since || log[i].since + window <= t.since
    requires CountWindow(log, t.key, t.since) < limit
    ensures WellWindowed(log + [t], window, limit)
  {
    TakeKeepsInside(log, window, t);
    TakeKeepsApart(log, window, t);
    TakeKeepsLimit(log, limit, t);
  }

  // ---- The table that never forgets -------------------------------------------

  predicate Sensible(rule: Rule) {
    rule.window > 0 && rule.limit > 0
  }

  predicate Open<K>(rule: Rule, table: Table<K>, c: Call<K>) {
    c.key in table && c.now - table[c.key].since < rule.window
  }

  predicate Admits<K>(rule: Rule, table: Table<K>, c: Call<K>) {
    Open(rule, table, c) ==> table[c.key].count < rule.limit
  }

  function After<K>(rule: Rule, table: Table<K>, c: Call<K>): Table<K> {
    if !Admits(rule, table, c) then table
    else if Open(rule, table, c) then table[c.key := table[c.key].(count := table[c.key].count + 1)]
    else table[c.key := Entry(1, c.now)]
  }

  function WindowOf<K>(rule: Rule, table: Table<K>, c: Call<K>): int {
    if Open(rule, table, c) then table[c.key].since else c.now
  }

  function TableOf<K>(rule: Rule, calls: seq<Call<K>>): Table<K> {
    if calls == [] then map[] else After(rule, TableOf(rule, calls[..|calls| - 1]), calls[|calls| - 1])
  }

  // The calls that were admitted, each with its window.
  function Admitted<K>(rule: Rule, calls: seq<Call<K>>): seq<Take<K>> {
    if calls == [] then []
    else
      var before, c := calls[..|calls| - 1], calls[|calls| - 1];
      var table := TableOf(rule, before);
      if Admits(rule, table, c) then Admitted(rule, before) + [Take(c.key, c.now, WindowOf(rule, table, c))]
      else Admitted(rule, before)
  }

  predicate Ordered<K>(calls: seq<Call<K>>) {
    forall i, j :: 0 <= i <= j < |calls| ==> calls[i].now <= calls[j].now
  }

  lemma {:induction false} OneMoreCall<K>(rule: Rule, calls: seq<Call<K>>, c: Call<K>)
    ensures TableOf(rule, calls + [c]) == After(rule, TableOf(rule, calls), c)
    ensures Admitted(rule, calls + [c])
         == Admitted(rule, calls)
          + if Admits(rule, TableOf(rule, calls), c)
            then [Take(c.key, c.now, WindowOf(rule, TableOf(rule, calls), c))] else []
  {
    assert (calls + [c])[..|calls|] == calls;
  }

  // Each entry is the key's newest window, with the number of takes in it.
  ghost predicate Counts<K(!new)>(rule: Rule, table: Table<K>, log: seq<Take<K>>, now: int) {
    forall k :: k in table ==>
      table[k].count == CountWindow(log, k, table[k].since) <= rule.limit && table[k].since <= now
  }

  ghost predicate Newest<K>(rule: Rule, table: Table<K>, log: seq<Take<K>>) {
    forall i :: 0 <= i < |log| ==>
      && log[i].key in table
      && (log[i].since == table[log[i].key].since || log[i].since + rule.window <= table[log[i].key].since)
  }

  ghost predicate Balanced<K(!new)>(rule: Rule, table: Table<K>, log: seq<Take<K>>, now: int) {
    WellWindowed(log, rule.window, rule.limit) && Counts(rule, table, log, now) && Newest(rule, table, log)
  }

  lemma {:induction false} TakeKeepsCounts<K(!new)>(rule: Rule, table: Table<K>, log: seq<Take<K>>, now: int,
        c: Call<K>)
    requires Counts(rule, table, log, now) && now <= c.now && Sensible(rule)
    requires if Open(rule, table, c) then table[c.key].count < rule.limit else CountWindow(log, c.key, c.now) == 0
    ensures Counts(rule, After(rule, table, c), log + [Take(c.key, c.now, WindowOf(rule, table, c))], c.now)
  {
    var t := Take(c.key, c.now, WindowOf(rule, table, c));
    var after := After(rule, table, c);
    forall k | k in after
      ensures after[k].count == CountWindow(log + [t], k, after[k].since) <= rule.limit && after[k].since <= c.now
    {
      CountAfterTake(log, t, k, after[k].since);
    }
  }

  lemma {:induction false} TakeKeepsNewest<K>(rule: Rule, table: Table<K>, log: seq<Take<K>>, c: Call<K>)
    requires Newest(rule, table, log) && Admits(rule, table, c) && Sensible(rule)
    ensures Newest(rule, After(rule, table, c), log + [Take(c.key, c.now, WindowOf(rule, table, c))])
  {
  }

  lemma {:induction false} NewWindowIsEmpty<K>(rule: Rule, log: seq<Take<K>>, table: Table<K>, c: Call<K>)
    requires !Open(rule, table, c) && Sensible(rule)
    requires forall i :: 0 <= i < |log| ==> log[i].key in table
    requires forall i :: 0 <= i < |log| ==> log[i].since <= table[log[i].key].since
    ensures forall i :: 0 <= i < |log| && log[i].key == c.key ==> log[i].since + rule.window <= c.now
    ensures CountWindow(log, c.key, c.now) == 0
  {
    AbsentWindowIsEmpty(log, c.key, c.now);
  }

  lemma {:induction false} TakeKeepsBalance<K(!new)>(rule: Rule, table: Table<K>, log: seq<Take<K>>, now: int,
        c: Call<K>)
    requires Balanced(rule, table, log, now) && now <= c.now && Admits(rule, table, c) && Sensible(rule)
    ensures Balanced(rule, After(rule, table, c), log + [Take(c.key, c.now, WindowOf(rule, table, c))], c.now)
  {
    if !Open(rule, table, c) { NewWindowIsEmpty(rule, log, table, c); }
    TakeKeepsCounts(rule, table, log, now, c);
    TakeKeepsNewest(rule, table, log, c);
    TakeKeepsWindows(log, rule.window, rule.limit, Take(c.key, c.now, WindowOf(rule, table, c)));
  }

  lemma {:induction false} CallsBalance<K(!new)>(rule: Rule, calls: seq<Call<K>>, now: int)
    requires Ordered(calls) && Sensible(rule) && (calls == [] || calls[|calls| - 1].now <= now)
    ensures Balanced(rule, TableOf(rule, calls), Admitted(rule, calls), now)
  {
    if calls != [] {
      var before, c := calls[..|calls| - 1], calls[|calls| - 1];
      CallsBalance(rule, before, c.now);
      if Admits(rule, TableOf(rule, before), c) {
        TakeKeepsBalance(rule, TableOf(rule, before), Admitted(rule, before), c.now, c);
      }
    }
  }

  // Over every sequence of calls: at most the limit in a window, and at most
  // twice the limit in any span as long as a window.
  lemma {:induction false} CallsStayWithinLimit<K(!new)>(rule: Rule, calls: seq<Call<K>>, key: K, since: int, lo: int)
    requires Ordered(calls) && Sensible(rule)
    ensures CountWindow(Admitted(rule, calls), key, since) <= rule.limit
    ensures CountSpan(Admitted(rule, calls), key, lo, lo + rule.window) <= 2 * rule.limit
  {
    CallsBalance(rule, calls, if calls == [] then 0 else calls[|calls| - 1].now);
    WindowWithinLimit(Admitted(rule, calls), rule.window, rule.limit, key, since);
    SpanHoldsTwoWindows(Admitted(rule, calls), rule.window, rule.limit, key, lo, lo + rule.window);
  }

  // The key has opened a window, not over yet, and taken the limit in it.
  ghost predicate Spent<K(!new)>(log: seq<Take<K>>, key: K, now: int, window: int, limit: nat) {
    exists t :: t in log && OpensWindow(t, key, now, window) && CountWindow(log, key, t.at) >= limit
  }

  predicate OpensWindow<K(==)>(t: Take<K>, key: K, now: int, window: int) {
    t.key == key && t.since == t.at && now < t.at + window
  }

  // Each entry's window was opened by a take.
  ghost predicate Opened<K(!new)>(table: Table<K>, log: seq<Take<K>>) {
    forall k :: k in table ==> Take(k, table[k].since, table[k].since) in log
  }

  lemma {:induction false} CallsOpen<K(!new)>(rule: Rule, calls: seq<Call<K>>)
    requires Sensible(rule)
    ensures Opened(TableOf(rule, calls), Admitted(rule, calls))
  {
    if calls != [] {
      var before, c := calls[..|calls| - 1], calls[|calls| - 1];
      CallsOpen(rule, before);
      OneMoreCall(rule, before, c);
      var log, longer := Admitted(rule, before), Admitted(rule, calls);
      assert calls == before + [c];
      assert forall t :: t in log ==> t in longer;
      assert Admits(rule, TableOf(rule, before), c) ==> longer[|longer| - 1].key == c.key;
    }
  }

  // A call is refused exactly when its key has spent a window that is still open: a
  // key gets its whole limit in every window.
  lemma {:induction false} RefusesExactly<K(!new)>(rule: Rule, calls: seq<Call<K>>, c: Call<K>)
    requires Ordered(calls + [c]) && Sensible(rule)
    ensures Admits(rule, TableOf(rule, calls), c)
       <==> !Spent(Admitted(rule, calls), c.key, c.now, rule.window, rule.limit)
  {
    var table, log := TableOf(rule, calls), Admitted(rule, calls);
    assert forall i :: 0 <= i < |calls| ==> (calls + [c])[i] == calls[i];
    assert calls != [] ==> calls[|calls| - 1].now <= (calls + [c])[|calls|].now;
    CallsBalance(rule, calls, c.now);
    CallsOpen(rule, calls);
    if !Admits(rule, table, c) {
      var first := Take(c.key, table[c.key].since, table[c.key].since);
      assert first in log && OpensWindow(first, c.key, c.now, rule.window);
    }
    forall t | t in log && OpensWindow(t, c.key, c.now, rule.window) && CountWindow(log, c.key, t.at) >= rule.limit
      ensures !Admits(rule, table, c)
    {
      var i :| 0 <= i < |log| && log[i] == t;
    }
  }

  lemma {:induction false} OthersLeaveEntry<K>(rule: Rule, calls: seq<Call<K>>, others: seq<Call<K>>, key: K)
    requires forall i :: 0 <= i < |others| ==> others[i].key != key
    ensures key in TableOf(rule, calls + others) <==> key in TableOf(rule, calls)
    ensures key in TableOf(rule, calls) ==> TableOf(rule, calls + others)[key] == TableOf(rule, calls)[key]
  {
    if others == [] {
      assert calls + others == calls;
    } else {
      var shorter := others[..|others| - 1];
      OthersLeaveEntry(rule, calls, shorter, key);
      assert (calls + others)[..|calls + others| - 1] == calls + shorter;
    }
  }
}
