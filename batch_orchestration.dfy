/**
 * The service wrapper's batch orchestration: splitting the roster into chunks,
 * the per-account retry loops, sorting a batch's outcomes into completed and
 * failed accounts, and one cycle of the service loop with its inter-batch
 * sleeps and its choice of the next cycle's delay.
 */
module Orchestration {
  import opened Common

  // ---------------------------------------------------------------------------
  // chunk_accounts

  /** Python's `s[lo:hi]` for `0 <= lo <= hi`: the upper bound is clipped to the length. */
  function Slice<T>(s: seq<T>, lo: nat, hi: nat): (r: seq<T>)
    requires lo <= |s| && lo <= hi
    ensures |r| == MinInt(hi, |s|) - lo
  {
    s[lo..MinInt(hi, |s|)]
  }

  /** The chunks `accounts[i:i + min(size, len(accounts))]` for `i` in `range(start, len(accounts), size)`. */
  function ChunksFrom<T>(accounts: seq<T>, size: nat, start: nat): seq<seq<T>>
    requires size > 0
    decreases |accounts| - start
  {
    if start >= |accounts| then []
    else [Slice(accounts, start, start + MinInt(size, |accounts|))] + ChunksFrom(accounts, size, start + size)
  }

  /** The chunk size `chunk_accounts` uses: the given one, or the `randint(2, 4)` draw when none is given. */
  function ChunkSize(size: Option<int>, draw: int): int {
    size.GetOr(draw)
  }

  /**
   * `list(chunk_accounts(accounts, size))`; `None` is the `ValueError` that
   * `range` raises for a step of zero. A negative step yields nothing.
   */
  function ChunkAccounts<T>(accounts: seq<T>, size: Option<int>, draw: int): (r: Option<seq<seq<T>>>)
    ensures r.None? <==> ChunkSize(size, draw) == 0
    ensures ChunkSize(size, draw) < 0 ==> r == Some([])
  {
    var step := ChunkSize(size, draw);
    if step == 0 then None
    else if step < 0 then Some([])
    else Some(ChunksFrom(accounts, step, 0))
  }

  function Flatten<T>(chunks: seq<seq<T>>): seq<T> {
    if chunks == [] then [] else chunks[0] + Flatten(chunks[1..])
  }

  lemma {:induction false} FlattenAppend<T>(a: seq<seq<T>>, b: seq<seq<T>>)
    ensures Flatten(a + b) == Flatten(a) + Flatten(b)
    decreases |a|
  {
    if a == [] {
      assert a + b == b;
    } else {
      assert (a + b)[1..] == a[1..] + b;
      FlattenAppend(a[1..], b);
    }
  }

  /** The chunks from `start` on, put back together, are the rest of the roster. */
  lemma {:induction false} ChunksFromFlatten<T>(accounts: seq<T>, size: nat, start: nat)
    requires size > 0 && start <= |accounts|
    ensures Flatten(ChunksFrom(accounts, size, start)) == accounts[start..]
    decreases |accounts| - start
  {
    if start < |accounts| {
      var hi := MinInt(start + MinInt(size, |accounts|), |accounts|);
      var next := start + size;
      if next <= |accounts| {
        ChunksFromFlatten(accounts, size, next);
        assert hi == next;
        assert accounts[start..] == accounts[start..next] + accounts[next..];
      } else {
        assert ChunksFrom(accounts, size, next) == [];
        assert hi == |accounts|;
      }
    }
  }

  /** A quotient of one: the count for a last, possibly partial chunk. */
  lemma QuotientOne(x: int, size: int)
    requires 0 < size <= x < 2 * size
    ensures x / size == 1
  {
    var q, r := x / size, x % size;
    assert x == size * q + r && 0 <= r < size;
    if q < 1 {
      MulLeftInt(size, q, 0);
      assert false;
    } else if q > 1 {
      MulLeftInt(size, 2, q);
      assert false;
    }
  }

  /** Adding one step to the dividend adds one to the quotient. */
  lemma QuotientShift(x: int, size: int)
    requires x >= 0 && size > 0
    ensures (x + size) / size == x / size + 1
  {
    var q, r := x / size, x % size;
    var q', r' := (x + size) / size, (x + size) % size;
    assert x == size * q + r && 0 <= r < size;
    assert x + size == size * q' + r' && 0 <= r' < size;
    assert size * (q + 1) + r == size * q' + r';
    if q' > q + 1 {
      MulLeftInt(size, q + 2, q');
      assert false;
    } else if q' < q + 1 {
      MulLeftInt(size, q', q);
      assert false;
    }
  }

  /** Every chunk from `start` on is non-empty and holds at most `size` accounts. */
  lemma {:induction false} ChunksFromShape<T>(accounts: seq<T>, size: nat, start: nat)
    requires size > 0
    ensures forall c :: c in ChunksFrom(accounts, size, start) ==> 0 < |c| <= size
    ensures |ChunksFrom(accounts, size, start)| == if start >= |accounts| then 0 else (|accounts| - start + size - 1) / size
    decreases |accounts| - start
  {
    if start < |accounts| {
      ChunksFromShape(accounts, size, start + size);
      var n := |accounts| - start;
      if start + size >= |accounts| {
        QuotientOne(n + size - 1, size);
      } else {
        QuotientShift(n - size + size - 1, size);
      }
    }
  }

  /**
   * For a positive step the chunks partition the roster in order: put back
   * together they are the roster, each is non-empty and at most the step long,
   * and there are `ceil(len(accounts) / step)` of them.
   */
  lemma ChunkAccountsPartition<T>(accounts: seq<T>, size: Option<int>, draw: int)
    requires ChunkSize(size, draw) > 0
    ensures var chunks := ChunkAccounts(accounts, size, draw).value;
            var step := ChunkSize(size, draw);
            && Flatten(chunks) == accounts
            && (forall c :: c in chunks ==> 0 < |c| <= step)
            && |chunks| == (|accounts| + step - 1) / step
  {
    var step := ChunkSize(size, draw);
    ChunksFromFlatten(accounts, step, 0);
    ChunksFromShape(accounts, step, 0);
    assert accounts[0..] == accounts;
  }

  /** Without an explicit size, chunks hold between one and four accounts. */
  lemma DefaultChunksAtMostFour<T>(accounts: seq<T>, draw: int)
    requires 2 <= draw <= 4
    ensures ChunkAccounts(accounts, None, draw).Some?
    ensures forall c :: c in ChunkAccounts(accounts, None, draw).value ==> 0 < |c| <= 4
  {
    ChunkAccountsPartition(accounts, None, draw);
  }

  // ---------------------------------------------------------------------------
  // is_time_between

  /** `is_time_between` on times of day, written as seconds since midnight. */
  function IsTimeBetween(check: int, start: int, end: int): (r: bool)
    ensures start <= end ==> (r <==> start <= check <= end)
    ensures start > end ==> (r <==> !(end < check < start))
  {
    if start <= end then start <= check <= end else check >= start || check <= end
  }

  /** A window that wraps midnight is exactly the complement of the open window from its end to its start. */
  lemma WrappedWindowIsComplement(check: int, start: int, end: int)
    requires start > end + 1
    ensures IsTimeBetween(check, start, end) <==> !IsTimeBetween(check, end + 1, start - 1)
  {
  }

  // ---------------------------------------------------------------------------
  // Per-account retry loops

  /** `run_account`: `raises(k)` says whether the k-th call of `main` raised; returns the calls made and whether all were used up. */
  method RunAccount(raises: nat -> bool, maxAttempts: int) returns (calls: nat, exhausted: bool)
    ensures calls <= MaxInt(maxAttempts, 0)
    ensures forall k :: 0 <= k < calls - 1 ==> raises(k)
    ensures exhausted <==> calls == MaxInt(maxAttempts, 0) && forall k :: 0 <= k < calls ==> raises(k)
    ensures !exhausted ==> calls >= 1 && !raises(calls - 1)
  {
    var attempt := 1;
    calls := 0;
    while attempt <= maxAttempts
      invariant calls == attempt - 1
      invariant attempt <= MaxInt(maxAttempts, 0) + 1
      invariant forall k :: 0 <= k < calls ==> raises(k)
      decreases maxAttempts - attempt
    {
      calls := calls + 1;
      if !raises(attempt - 1) {
        break;
      }
      attempt := attempt + 1;
    }
    exhausted := attempt > maxAttempts;
  }

  const MaxAccountAttempts: nat := 3

  /** What one call of `main(user)` did, seen from `process_single_account`. */
  datatype MainOutcome = Returned(isTrue: bool) | Raised(message: string)

  datatype AccountStatus = Success | Failed

  /** A call that ends the loop with "SUCCESS": it returned `True`, or raised about an already enabled toggle. */
  predicate Succeeds(o: MainOutcome) {
    o == Returned(true) || (o.Raised? && Contains(o.message, "Toggle already enabled"))
  }

  /** `process_single_account`: `outcomes(k)` is what the k-th call of `main` does; returns the status, the calls made and the sleeps. */
  method ProcessSingleAccount(outcomes: nat -> MainOutcome) returns (status: AccountStatus, calls: nat, sleeps: seq<int>)
    ensures 1 <= calls <= MaxAccountAttempts
    ensures status == Success <==> exists k :: 0 <= k < MaxAccountAttempts && Succeeds(outcomes(k))
    ensures status == Success ==> Succeeds(outcomes(calls - 1))
    ensures forall k :: 0 <= k < calls - 1 ==> !Succeeds(outcomes(k))
    ensures status == Failed ==> calls == MaxAccountAttempts
    ensures |sleeps| == calls - 1 && forall i :: 0 <= i < |sleeps| ==> sleeps[i] == 5 * (i + 1)
  {
    var attempts := 0;
    sleeps := [];
    while attempts < MaxAccountAttempts
      invariant 0 <= attempts < MaxAccountAttempts
      invariant forall k :: 0 <= k < attempts ==> !Succeeds(outcomes(k))
      invariant |sleeps| == attempts && forall i :: 0 <= i < |sleeps| ==> sleeps[i] == 5 * (i + 1)
      decreases MaxAccountAttempts - attempts
    {
      var outcome := outcomes(attempts);
      if outcome == Returned(true) {
        return Success, attempts + 1, sleeps;
      }
      if outcome.Raised? && Contains(outcome.message, "Toggle already enabled") {
        return Success, attempts + 1, sleeps;
      }
      attempts := attempts + 1;
      if attempts < MaxAccountAttempts {
        sleeps := sleeps + [5 * attempts];
      } else {
        return Failed, attempts, sleeps;
      }
    }
    assert false;
  }

  // ---------------------------------------------------------------------------
  // process_batch

  /** What `result.get(timeout)` gave for one account: a status, a timeout, or another exception. */
  datatype PoolOutcome = Finished(status: AccountStatus) | GetTimedOut | GetRaised

  /** The users whose pool result was "SUCCESS", in order. */
  function Completed<U>(results: seq<(U, PoolOutcome)>): (r: seq<U>)
    ensures |r| <= |results|
  {
    if results == [] then []
    else
      var init := Completed(results[..|results| - 1]);
      var last := results[|results| - 1];
      if last.1 == Finished(Success) then init + [last.0] else init
  }

  /** The users whose pool result was anything else, in order. */
  function FailedUsers<U>(results: seq<(U, PoolOutcome)>): (r: seq<U>)
    ensures |r| <= |results|
  {
    if results == [] then []
    else
      var init := FailedUsers(results[..|results| - 1]);
      var last := results[|results| - 1];
      if last.1 == Finished(Success) then init else init + [last.0]
  }

  function Users<U>(results: seq<(U, PoolOutcome)>): seq<U> {
    seq(|results|, i requires 0 <= i < |results| => results[i].0)
  }

  /** Every user of the batch lands in exactly one of the two lists. */
  lemma {:induction false} BatchPartition<U>(results: seq<(U, PoolOutcome)>)
    ensures |Completed(results)| + |FailedUsers(results)| == |results|
    ensures multiset(Completed(results)) + multiset(FailedUsers(results)) == multiset(Users(results))
    decreases |results|
  {
    if results != [] {
      var init := results[..|results| - 1];
      BatchPartition(init);
      assert Users(results) == Users(init) + [results[|results| - 1].0];
    }
  }

  lemma {:induction false} CompletedAppend<U>(a: seq<(U, PoolOutcome)>, b: seq<(U, PoolOutcome)>)
    ensures Completed(a + b) == Completed(a) + Completed(b)
    ensures FailedUsers(a + b) == FailedUsers(a) + FailedUsers(b)
    decreases |b|
  {
    if b == [] {
      assert a + b == a;
    } else {
      var init, last := b[..|b| - 1], b[|b| - 1];
      CompletedAppend(a, init);
      assert (a + b)[..|a + b| - 1] == a + init;
      assert (a + b)[|a + b| - 1] == last;
      AppendAssociative(Completed(a), Completed(init), [last.0]);
      AppendAssociative(FailedUsers(a), FailedUsers(init), [last.0]);
    }
  }

  /** `process_batch` on its normal path: `results` pairs each user with what its pool result gave. */
  method ProcessBatch<U>(results: seq<(U, PoolOutcome)>) returns (completed: seq<U>, failed: seq<U>)
    ensures completed == Completed(results) && failed == FailedUsers(results)
  {
    completed, failed := [], [];
    var i := 0;
    while i < |results|
      invariant 0 <= i <= |results|
      invariant completed == Completed(results[..i]) && failed == FailedUsers(results[..i])
    {
      assert results[..i + 1][..i] == results[..i];
      var (user, outcome) := results[i];
      if outcome == Finished(Success) {
        completed := completed + [user];
      } else {
        failed := failed + [user];
      }
      i := i + 1;
    }
    assert results[..i] == results;
  }

  // ---------------------------------------------------------------------------
  // run_service, one cycle

  const BatchSize: nat := 3
  const InterBatchSleep: int := 30

  /** Each user of a batch with the result the pool gives for it in this cycle. */
  function Paired<U>(users: seq<U>, outcome: U -> PoolOutcome): (r: seq<(U, PoolOutcome)>)
    ensures |r| == |users|
    ensures forall i :: 0 <= i < |users| ==> r[i] == (users[i], outcome(users[i]))
  {
    seq(|users|, i requires 0 <= i < |users| => (users[i], outcome(users[i])))
  }

  lemma PairedAppend<U>(a: seq<U>, b: seq<U>, outcome: U -> PoolOutcome)
    ensures Paired(a + b, outcome) == Paired(a, outcome) + Paired(b, outcome)
  {
  }

  /** The sleeps after the first `n` batches: 30 seconds after each one with failures that is not the last. */
  function InterBatchSleeps<U>(batches: seq<seq<U>>, outcome: U -> PoolOutcome, n: nat): (r: seq<int>)
    requires n <= |batches|
    ensures |r| <= n
    ensures forall i :: 0 <= i < |r| ==> r[i] == InterBatchSleep
  {
    if n == 0 then []
    else
      var earlier := InterBatchSleeps(batches, outcome, n - 1);
      if FailedUsers(Paired(batches[n - 1], outcome)) != [] && n - 1 < |batches| - 1 then earlier + [InterBatchSleep]
      else earlier
  }

  /** When every account completes, no batch is followed by a sleep. */
  lemma {:induction false} NoSleepWithoutFailures<U>(batches: seq<seq<U>>, outcome: U -> PoolOutcome, n: nat)
    requires n <= |batches|
    requires forall b :: 0 <= b < n ==> FailedUsers(Paired(batches[b], outcome)) == []
    ensures InterBatchSleeps(batches, outcome, n) == []
  {
    if n > 0 {
      NoSleepWithoutFailures(batches, outcome, n - 1);
    }
  }

  /** The last batch is never followed by a sleep, so there are fewer sleeps than batches. */
  lemma {:induction false} FewerSleepsThanBatches<U>(batches: seq<seq<U>>, outcome: U -> PoolOutcome)
    requires batches != []
    ensures |InterBatchSleeps(batches, outcome, |batches|)| <= |batches| - 1
  {
    assert InterBatchSleeps(batches, outcome, |batches|) == InterBatchSleeps(batches, outcome, |batches| - 1);
  }

  /** The next cycle's delay from the cycle's success rate `completed / total`. */
  function NextDelay(completed: nat, total: nat): (d: int)
    requires total > 0
    ensures d == 300 <==> completed == total
    ensures d == 900 <==> completed == 0
    ensures d in {300, 600, 900}
  {
    var successRate := completed as real / total as real;
    if successRate == 1.0 then 300 else if successRate == 0.0 then 900 else 600
  }

  /** Taking one more batch adds that batch's completed and failed users at the end. */
  lemma OneMoreBatch<U>(batches: seq<seq<U>>, outcome: U -> PoolOutcome, b: nat)
    requires b < |batches|
    ensures Completed(Paired(Flatten(batches[..b + 1]), outcome))
            == Completed(Paired(Flatten(batches[..b]), outcome)) + Completed(Paired(batches[b], outcome))
    ensures FailedUsers(Paired(Flatten(batches[..b + 1]), outcome))
            == FailedUsers(Paired(Flatten(batches[..b]), outcome)) + FailedUsers(Paired(batches[b], outcome))
  {
    assert batches[..b + 1] == batches[..b] + [batches[b]];
    FlattenAppend(batches[..b], [batches[b]]);
    assert Flatten([batches[b]]) == batches[b] + Flatten([]);
    assert Flatten(batches[..b + 1]) == Flatten(batches[..b]) + batches[b];
    PairedAppend(Flatten(batches[..b]), batches[b], outcome);
    CompletedAppend(Paired(Flatten(batches[..b]), outcome), Paired(batches[b], outcome));
  }

  /** How one cycle of `run_service` ends: the next delay, or the exit status of the outer handler. */
  datatype CycleEnd = Sleep(nextDelay: int) | Exit(code: int)

  /**
   * One cycle of `run_service`: batches of three, each processed, a 30-second
   * sleep after a failing batch that is not the last, then the next delay from
   * the success rate. An empty roster divides by zero, which the outer handler
   * turns into exit status 1.
   */
  method RunServiceCycle<U>(accounts: seq<U>, outcome: U -> PoolOutcome)
    returns (completed: seq<U>, failed: seq<U>, sleeps: seq<int>, end: CycleEnd)
    ensures completed == Completed(Paired(accounts, outcome))
    ensures failed == FailedUsers(Paired(accounts, outcome))
    ensures sleeps == InterBatchSleeps(ChunkAccounts(accounts, Some(BatchSize), 0).value, outcome,
                                       |ChunkAccounts(accounts, Some(BatchSize), 0).value|)
    ensures accounts == [] ==> end == Exit(1)
    ensures accounts != [] ==> end == Sleep(NextDelay(|completed|, |accounts|))
  {
    var batches := ChunkAccounts(accounts, Some(BatchSize), 0).value;
    ChunkAccountsPartition(accounts, Some(BatchSize), 0);
    completed, failed, sleeps := [], [], [];
    var b := 0;
    while b < |batches|
      invariant 0 <= b <= |batches|
      invariant completed == Completed(Paired(Flatten(batches[..b]), outcome))
      invariant failed == FailedUsers(Paired(Flatten(batches[..b]), outcome))
      invariant sleeps == InterBatchSleeps(batches, outcome, b)
    {
      var batchCompleted, batchFailed := ProcessBatch(Paired(batches[b], outcome));
      completed := completed + batchCompleted;
      failed := failed + batchFailed;
      if batchFailed != [] && b < |batches| - 1 {
        sleeps := sleeps + [InterBatchSleep];
      }
      OneMoreBatch(batches, outcome, b);
      b := b + 1;
    }
    assert batches[..b] == batches;
    if |accounts| == 0 {
      return completed, failed, sleeps, Exit(1);
    }
    end := Sleep(NextDelay(|completed|, |accounts|));
  }
}
