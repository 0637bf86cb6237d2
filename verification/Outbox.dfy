// dispatchDueMail of src/cli/runMaintenance.ts, over the claim loop of
// processDueLetterJobs (src/services/letterJobService.ts). The letters, the
// clock and the pause switch are whatever they turn out to be.
module Outbox {
  import opened Wrappers

  // How a claimed letter comes out.
  datatype Outcome = Completed | RetryScheduled | LeftForOperator | Failed

  datatype Tally = Tally(processed: nat, completed: nat, retryScheduled: nat, failed: nat)

  datatype Summary = Summary(batches: nat, total: Tally, waiting: Option<nat>)

  const NOTHING := Tally(0, 0, 0, 0)

  function With(t: Tally, o: Outcome): Tally {
    Tally(
      t.processed + 1,
      if o.Completed? then t.completed + 1 else t.completed,
      if o.RetryScheduled? then t.retryScheduled + 1 else t.retryScheduled,
      if o.Failed? then t.failed + 1 else t.failed)
  }

  predicate IsSum(sum: Tally, a: Tally, b: Tally) {
    && sum.processed == a.processed + b.processed && sum.completed == a.completed + b.completed
    && sum.retryScheduled == a.retryScheduled + b.retryScheduled && sum.failed == a.failed + b.failed
  }

  // The tally of letters[start..end].
  function TallyOf(letters: seq<Outcome>, start: nat, end: nat): (t: Tally)
    requires start <= end <= |letters|
    ensures t.processed == end - start && t.completed + t.retryScheduled + t.failed <= end - start
    decreases end
  {
    if start == end then NOTHING else With(TallyOf(letters, start, end - 1), letters[end - 1])
  }

  lemma {:induction false} TallyOneMore(letters: seq<Outcome>, start: nat, end: nat)
    requires start <= end < |letters|
    ensures TallyOf(letters, start, end + 1) == With(TallyOf(letters, start, end), letters[end])
  {
  }

  lemma {:induction false} TallySplits(letters: seq<Outcome>, a: nat, b: nat, c: nat)
    requires a <= b <= c <= |letters|
    ensures IsSum(TallyOf(letters, a, c), TallyOf(letters, a, b), TallyOf(letters, b, c))
    decreases c
  {
    if b < c { TallySplits(letters, a, b, c - 1); }
  }

  // A batch after which the run takes another, if time is left: full, no
  // retry, more letters sent than failed, and fewer failures in all than a
  // batch holds.
  predicate Carries(batch: Tally, failedSoFar: nat, limit: nat) {
    && batch.processed == limit && batch.retryScheduled == 0
    && (batch.failed == 0 || batch.failed < batch.completed)
    && failedSoFar < limit
  }

  // Batch i is letters[cuts[i]..cuts[i + 1]]; every one of them carries.
  ghost predicate AllCarry(letters: seq<Outcome>, cuts: seq<nat>, limit: nat)
    requires cuts != []
  {
    var n := |cuts| - 1;
    n == 0 ||
    (&& AllCarry(letters, cuts[..n], limit)
     && cuts[0] <= cuts[n - 1] <= cuts[n] <= |letters|
     && Carries(TallyOf(letters, cuts[n - 1], cuts[n]), TallyOf(letters, cuts[0], cuts[n]).failed, limit))
  }

  function Last(cuts: seq<nat>): nat
    requires cuts != []
  {
    cuts[|cuts| - 1]
  }

  // One batch more, up to `end`.
  ghost predicate Extends(letters: seq<Outcome>, cuts: seq<nat>, longer: seq<nat>, end: nat, limit: nat)
    requires cuts != []
  {
    && |longer| == |cuts| + 1 && longer[0] == cuts[0] && Last(longer) == end
    && AllCarry(letters, longer, limit)
  }

  lemma {:induction false} OneMoreCut(letters: seq<Outcome>, cuts: seq<nat>, end: nat, limit: nat)
    returns (longer: seq<nat>)
    requires cuts != [] && AllCarry(letters, cuts, limit) && cuts[0] <= Last(cuts) <= end <= |letters|
    requires Carries(TallyOf(letters, Last(cuts), end), TallyOf(letters, cuts[0], end).failed, limit)
    ensures Extends(letters, cuts, longer, end, limit)
  {
    longer := cuts + [end];
    assert longer[..|cuts|] == cuts;
  }

  lemma {:induction false} CarriersAreFull(letters: seq<Outcome>, cuts: seq<nat>, limit: nat)
    requires cuts != [] && AllCarry(letters, cuts, limit) && limit > 0 && cuts[0] <= |letters|
    ensures cuts[0] <= Last(cuts) <= |letters|
    ensures TallyOf(letters, cuts[0], Last(cuts)).retryScheduled == 0
    ensures TallyOf(letters, cuts[0], Last(cuts)).failed < limit
    decreases |cuts|
  {
    var n := |cuts| - 1;
    if n > 0 {
      CarriersAreFull(letters, cuts[..n], limit);
      TallySplits(letters, cuts[0], cuts[n - 1], cuts[n]);
    }
  }

  predicate Bounded(total: Tally, limit: nat) {
    total.retryScheduled <= limit && total.failed + total.retryScheduled <= 2 * limit - 1
  }

  // The damage bound: after any batches that carry, and one more, the run has
  // at most one batch of retries, and less than two of failures and retries.
  lemma {:induction false} DamageIsBounded(letters: seq<Outcome>, cuts: seq<nat>, end: nat, limit: nat)
    requires cuts != [] && AllCarry(letters, cuts, limit) && limit > 0 && cuts[0] <= |letters|
    requires Last(cuts) <= end <= |letters| && end - Last(cuts) <= limit
    ensures cuts[0] <= Last(cuts)
    ensures IsSum(TallyOf(letters, cuts[0], end), TallyOf(letters, cuts[0], Last(cuts)),
                  TallyOf(letters, Last(cuts), end))
    ensures Bounded(TallyOf(letters, cuts[0], end), limit)
  {
    CarriersAreFull(letters, cuts, limit);
    TallySplits(letters, cuts[0], Last(cuts), end);
  }

  lemma {:induction false} TallyOfSent(letters: seq<Outcome>, start: nat, end: nat)
    requires start <= end <= |letters| && forall i :: start <= i < end ==> letters[i] == Completed
    ensures TallyOf(letters, start, end) == Tally(end - start, end - start, 0, 0)
    decreases end
  {
    if start < end { TallyOfSent(letters, start, end - 1); }
  }

  // One letter the provider rejects, among letters it takes, does not stop the mail: a
  // full batch of three or more with one failure carries, unless the run has failed as
  // many as a batch holds.
  lemma {:induction false} OneRejectionCarries(letters: seq<Outcome>, start: nat, k: nat, limit: nat, failedSoFar: nat)
    requires limit >= 3 && start <= k < start + limit <= |letters| && failedSoFar < limit
    requires forall i :: start <= i < start + limit ==> letters[i] == if i == k then Failed else Completed
    ensures Carries(TallyOf(letters, start, start + limit), failedSoFar, limit)
  {
    TallySplits(letters, start, k, start + limit);
    TallySplits(letters, k, k + 1, start + limit);
    TallyOfSent(letters, start, k);
    TallyOfSent(letters, k + 1, start + limit);
    TallyOneMore(letters, k, k);
  }

  // From letter p on the provider takes nothing: each letter fails or is retried.
  ghost predicate Outage(letters: seq<Outcome>, p: nat) {
    forall i :: p <= i < |letters| ==> letters[i] in {RetryScheduled, Failed}
  }

  lemma {:induction false} OutageSendsNothing(letters: seq<Outcome>, p: nat, start: nat, end: nat)
    requires Outage(letters, p) && p <= start <= end <= |letters|
    ensures var t := TallyOf(letters, start, end);
      t.completed == 0 && t.failed + t.retryScheduled == end - start
    decreases end
  {
    if start < end { OutageSendsNothing(letters, p, start, end - 1); }
  }

  // An outage ends the run's mail: the batch it begins in can still carry, with more
  // letters sent than the outage failed, and the next one is the last.
  lemma {:induction false} OutageIsBounded(letters: seq<Outcome>, cuts: seq<nat>, end: nat, limit: nat, p: nat)
    requires cuts != [] && AllCarry(letters, cuts, limit) && limit > 0 && cuts[0] <= p <= end <= |letters|
    requires Last(cuts) <= end && end - Last(cuts) <= limit && Outage(letters, p)
    ensures Last(cuts) <= p || 2 * (Last(cuts) - p) < limit
    ensures 2 * (end - p) < 3 * limit || Last(cuts) <= p
    ensures Last(cuts) <= p ==> end - p <= limit
  {
    var n := |cuts| - 1;
    if n > 0 && Last(cuts) > p {
      var from, upTo := cuts[n - 1], cuts[n];
      if from >= p {
        OutageSendsNothing(letters, p, from, upTo);
      } else {
        TallySplits(letters, from, p, upTo);
        OutageSendsNothing(letters, p, p, upTo);
      }
    }
  }

  // It can take more than a batch: with three to a batch, an outage from the third
  // letter on fails that one, in a batch that carries, and three more.
  lemma {:induction false} OutageTakesMoreThanABatch()
    ensures var letters := [Completed, Completed, Failed, Failed, Failed, Failed];
      && AllCarry(letters, [0, 3], 3) && Outage(letters, 2)
      && TallyOf(letters, 3, 6) == Tally(3, 0, 0, 3) && TallyOf(letters, 2, 6).failed == 4 > 3
  {
    var letters := [Completed, Completed, Failed, Failed, Failed, Failed];
    var cuts := [0, 3];
    assert cuts[..1] == [0];
    assert AllCarry(letters, [0], 3);
    assert TallyOf(letters, 0, 1) == Tally(1, 1, 0, 0) && TallyOf(letters, 0, 2) == Tally(2, 2, 0, 0);
    assert TallyOf(letters, 0, 3) == Tally(3, 2, 0, 1);
    assert TallyOf(letters, 3, 4) == Tally(1, 0, 0, 1) && TallyOf(letters, 3, 5) == Tally(2, 0, 0, 2);
    assert TallyOf(letters, 2, 3) == Tally(1, 0, 0, 1) && TallyOf(letters, 2, 4) == Tally(2, 0, 0, 2);
    assert TallyOf(letters, 2, 5) == Tally(3, 0, 0, 3);
  }

  lemma {:induction false} OneBatchMore(n: nat, limit: nat)
    ensures (n + 1) * limit == n * limit + limit
  {
  }

  lemma {:induction false} MoreBatches(few: nat, many: nat, limit: nat)
    requires few <= many
    ensures few * limit <= many * limit
  {
    assert (many - few) * limit >= 0;
  }

  lemma {:induction false} QuotientIsAtLeast(n: nat, limit: nat, all: nat)
    requires limit > 0 && n * limit <= all
    ensures n <= all / limit
  {
    var q := all / limit;
    OneBatchMore(q, limit);
    if n > q { MoreBatches(q + 1, n, limit); }
  }

  lemma {:induction false} CarriersFill(letters: seq<Outcome>, cuts: seq<nat>, limit: nat)
    requires cuts != [] && AllCarry(letters, cuts, limit)
    ensures Last(cuts) == cuts[0] + (|cuts| - 1) * limit
  {
    var n := |cuts| - 1;
    if n > 0 {
      CarriersFill(letters, cuts[..n], limit);
      OneBatchMore(n - 1, limit);
    }
  }

  // With finitely many letters due the run is over within due / limit + 1 batches.
  lemma {:induction false} BatchesAreFew(letters: seq<Outcome>, cuts: seq<nat>, limit: nat)
    requires cuts != [] && AllCarry(letters, cuts, limit) && limit > 0 && cuts[0] <= |letters|
    ensures |cuts| - 1 <= (|letters| - cuts[0]) / limit
  {
    CarriersAreFull(letters, cuts, limit);
    CarriersFill(letters, cuts, limit);
    QuotientIsAtLeast(|cuts| - 1, limit, |letters| - cuts[0]);
  }

  // The run's totals with a batch more, and whether it may go on.
  lemma {:induction false} BatchAdds(letters: seq<Outcome>, cuts: seq<nat>, end: nat, limit: nat, before: Tally,
        batch: Tally, total: Tally)
    requires cuts != [] && AllCarry(letters, cuts, limit) && limit > 0 && cuts[0] <= |letters|
    requires Last(cuts) <= end <= |letters| && end - Last(cuts) <= limit
    requires cuts[0] <= Last(cuts) && before == TallyOf(letters, cuts[0], Last(cuts))
    requires batch == TallyOf(letters, Last(cuts), end) && IsSum(total, before, batch)
    ensures total == TallyOf(letters, cuts[0], end) && Bounded(total, limit)
    ensures Carries(batch, total.failed, limit)
       <==> !(batch.processed < limit || batch.retryScheduled > 0
              || (batch.failed > 0 && batch.failed >= batch.completed) || total.failed >= limit)
  {
    DamageIsBounded(letters, cuts, end, limit);
  }

  // The claims of n more letters, each before this time.
  ghost predicate InTime(before: seq<int>, after: seq<int>, n: int, stopAt: int) {
    before <= after && |after| == |before| + n && forall k :: |before| <= k < |after| ==> after[k] < stopAt
  }

  lemma {:induction false} InTimeAdds(a: seq<int>, b: seq<int>, c: seq<int>, m: int, n: int, stopAt: int)
    requires InTime(a, b, m, stopAt) && InTime(b, c, n, stopAt)
    ensures InTime(a, c, m + n, stopAt)
  {
    forall k | |a| <= k < |c| ensures c[k] < stopAt {
      if k < |b| { assert c[k] == b[k]; }
    }
  }

  class Service {
    // The letters in the order they will be claimed, and how each comes out.
    const letters: seq<Outcome>
    const clock: nat -> int
    const dispatchEnabled: nat -> bool
    var next: nat
    var readings: nat
    // The time read before each letter was claimed.
    ghost var claimed: seq<int>

    constructor (letters: seq<Outcome>, clock: nat -> int, dispatchEnabled: nat -> bool)
      ensures this.letters == letters && next == 0 && readings == 0
      ensures this.clock == clock && this.dispatchEnabled == dispatchEnabled && claimed == []
    {
      this.letters, this.clock, this.dispatchEnabled := letters, clock, dispatchEnabled;
      next, readings, claimed := 0, 0, [];
    }

    method Now() returns (t: int)
      modifies `readings
      ensures readings == old(readings) + 1 && t == clock(old(readings))
    {
      t := clock(readings);
      readings := readings + 1;
    }

    // The claim loop: it stops at the limit, when no letter is left, or when
    // time is up.
    method ProcessDueLetterJobs(limit: nat, stopAt: int) returns (batch: Tally)
      requires next <= |letters|
      modifies this
      ensures old(next) <= next <= |letters| && next - old(next) <= limit && batch == TallyOf(letters, old(next), next)
      ensures old(readings) <= readings
      ensures batch.processed < limit && next < |letters| ==> old(readings) < readings && clock(readings - 1) >= stopAt
      ensures InTime(old(claimed), claimed, next - old(next), stopAt)
    {
      batch := NOTHING;
      ghost var start := next;
      while batch.processed < limit
        invariant start <= next <= |letters| && next - start <= limit
        invariant batch == TallyOf(letters, start, next) && old(readings) <= readings
        invariant InTime(old(claimed), claimed, next - start, stopAt)
        decreases limit - batch.processed
      {
        var t := Now();
        if t >= stopAt || next == |letters| { break; }
        var outcome := letters[next];
        TallyOneMore(letters, start, next);
        next := next + 1;
        claimed := claimed + [t];
        batch := Tally(
          batch.processed + 1,
          if outcome.Completed? then batch.completed + 1 else batch.completed,
          if outcome.RetryScheduled? then batch.retryScheduled + 1 else batch.retryScheduled,
          if outcome.Failed? then batch.failed + 1 else batch.failed);
      }
    }

    // One batch, and whether another may follow.
    method RunBatch(batchLimit: nat, stopAt: int, before: Tally, ghost start: nat, ghost cuts: seq<nat>)
      returns (total: Tally, more: bool)
      requires batchLimit > 0 && cuts != [] && cuts[0] == start <= |letters| && Last(cuts) == next <= |letters|
      requires AllCarry(letters, cuts, batchLimit) && start <= next && before == TallyOf(letters, start, next)
      modifies this
      ensures old(next) <= next <= |letters| && next - old(next) <= batchLimit
      ensures total == TallyOf(letters, start, next)
      ensures Bounded(total, batchLimit) && old(readings) <= readings
      ensures InTime(old(claimed), claimed, next - old(next), stopAt)
      ensures more ==> old(readings) < readings && clock(readings - 1) < stopAt
      ensures more ==> Carries(TallyOf(letters, old(next), next), total.failed, batchLimit)
      ensures !more && Carries(TallyOf(letters, old(next), next), total.failed, batchLimit) ==>
        old(readings) < readings && clock(readings - 1) >= stopAt
    {
      more := false;
      var batch := ProcessDueLetterJobs(batchLimit, stopAt);
      total := Tally(before.processed + batch.processed, before.completed + batch.completed,
                     before.retryScheduled + batch.retryScheduled, before.failed + batch.failed);
      BatchAdds(letters, cuts, next, batchLimit, before, batch, total);
      var trouble := batch.retryScheduled > 0
        || (batch.failed > 0 && batch.failed >= batch.completed) || total.failed >= batchLimit;
      if batch.processed < batchLimit || trouble { return; }
      var t := Now();
      more := t < stopAt;
    }

    // A batch, unless the switch is off.
    method TakeBatch(batchLimit: nat, stopAt: int, count: nat, before: Tally, ghost cuts: seq<nat>,
        ghost claims: seq<int>)
      returns (total: Tally, paused: bool, more: bool, ghost longer: seq<nat>)
      requires batchLimit > 0 && cuts != [] && cuts[0] <= |letters| && Last(cuts) == next <= |letters|
      requires AllCarry(letters, cuts, batchLimit) && cuts[0] <= next && before == TallyOf(letters, cuts[0], next)
      requires InTime(claims, claimed, next - cuts[0], stopAt)
      modifies this
      ensures old(next) <= next <= |letters| && next - old(next) <= batchLimit
      ensures total == TallyOf(letters, cuts[0], next)
      ensures Bounded(total, batchLimit) && old(readings) <= readings
      ensures InTime(claims, claimed, next - cuts[0], stopAt)
      ensures paused ==> !more && next == old(next) && !dispatchEnabled(count)
      ensures more ==> Extends(letters, cuts, longer, next, batchLimit) && next - old(next) == batchLimit
      ensures !more && !paused && Carries(TallyOf(letters, old(next), next), total.failed, batchLimit) ==>
        old(readings) < readings && clock(readings - 1) >= stopAt
    {
      more, total, longer := false, before, cuts;
      paused := !dispatchEnabled(count);
      if paused {
        CarriersAreFull(letters, cuts, batchLimit);
        return;
      }
      ghost var from, sofar := next, claimed;
      total, more := RunBatch(batchLimit, stopAt, before, cuts[0], cuts);
      InTimeAdds(claims, sofar, claimed, from - cuts[0], next - from, stopAt);
      if more { longer := OneMoreCut(letters, cuts, next, batchLimit); }
    }

    // The totals are the tally of the letters taken. Every batch but the last
    // carries, and it ends paused, or short, or in trouble, or out of time.
    method DispatchDueMail(batchLimit: nat, budgetMs: int) returns (summary: Summary, ghost cuts: seq<nat>)
      requires batchLimit > 0 && next <= |letters|
      modifies this
      ensures old(next) <= next <= |letters| && summary.total == TallyOf(letters, old(next), next)
      ensures cuts != [] && cuts[0] == old(next) && cuts[0] <= |letters| && AllCarry(letters, cuts, batchLimit)
      ensures summary.batches == |cuts|
      ensures Last(cuts) <= next && next - Last(cuts) <= batchLimit && Bounded(summary.total, batchLimit)
      ensures summary.waiting.Some? ==>
        next == Last(cuts) && summary.waiting == Some(|letters| - next) && !dispatchEnabled(|cuts| - 1)
      ensures summary.waiting.None? && Carries(TallyOf(letters, Last(cuts), next), summary.total.failed, batchLimit) ==>
        old(readings) < readings && clock(readings - 1) >= clock(old(readings)) + budgetMs
      ensures InTime(old(claimed), claimed, next - old(next), clock(old(readings)) + budgetMs)
    {
      ghost var first, claims := next, claimed;
      var start := Now();
      var stopAt := start + budgetMs;
      var total := NOTHING;
      cuts := [next];
      summary := Summary(0, total, None);
      ghost var started := readings;
      while true
        invariant first <= next <= |letters| && total == TallyOf(letters, first, next)
        invariant cuts != [] && cuts[0] == first && Last(cuts) == next && summary.batches == |cuts| - 1
        invariant AllCarry(letters, cuts, batchLimit) && started <= readings
        invariant InTime(claims, claimed, next - first, stopAt)
        decreases |letters| - next
      {
        var paused, more;
        ghost var longer;
        total, paused, more, longer := TakeBatch(batchLimit, stopAt, summary.batches, total, cuts, claims);
        summary := Summary(summary.batches + 1, total, if paused then Some(|letters| - next) else None);
        if !more { return; }
        cuts := longer;
      }
    }
  }
}
