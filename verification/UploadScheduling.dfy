/**
 Which directories the upload thread takes up and when, include/upload_worker.hpp:103-135, 177-204 and 434-479:
 candidates, the retry schedule, and what a lease is worth among several threads.
 */
module UploadScheduling {
  import opened Prelude

  type Name = string

  /** Times in nanoseconds; retryBackoff, too. maxRetries and failedRescan of 0 or less switch a limit off. */
  datatype Config = Config(maxRetries: int, retryBackoff: nat, leaseTimeout: int, failedRescan: int)

  /** .uploading: absent, without a readable start time, or started at a time. */
  datatype Lease = NoLease | Unreadable | Since(startedAt: int)

  /** The markers the upload thread goes by; failedAt is when .upload_failed was written. */
  datatype Entry = Entry(complete: bool, uploaded: bool, failedAt: Option<int>, lease: Lease,
                         transferId: Option<string>)

  // ---- leases and candidates ----

  predicate Active(lease: Lease, now: int, timeout: int) { lease.Since? && 0 <= now - lease.startedAt < timeout }

  predicate LeaseActive(e: Entry, now: int, config: Config) { Active(e.lease, now, config.leaseTimeout) }

  /** Looking at a lease removes one that is not active. */
  function LeaseChecked(e: Entry, now: int, config: Config, removable: bool): Entry
  {
    if LeaseActive(e, now, config) || !removable then e else e.(lease := NoLease)
  }

  /** Whether an entry is taken up, and what looking at it leaves behind. removable: its markers can be removed. */
  function Examined(e: Entry, now: int, config: Config, removable: bool): (Entry, bool)
  {
    var checked := LeaseChecked(e, now, config, removable);
    if LeaseActive(e, now, config) || e.uploaded || !e.complete then (checked, false)
    else if e.failedAt.None? then (checked, true)
    else if config.failedRescan <= 0 || now - e.failedAt.value < config.failedRescan || !removable then (checked, false)
    else (checked.(failedAt := None), true)
  }

  // ---- the retry schedule ----

  datatype Retry = Retry(attempts: nat, nextAttempt: int)

  function Power2(n: nat): nat { if n == 0 then 1 else 2 * Power2(n - 1) }

  /** Exponential, at most 64 times the first wait. */
  function Delay(attempts: nat, config: Config): nat
    requires attempts > 0
  {
    config.retryBackoff * Power2(if attempts - 1 < 6 then attempts - 1 else 6)
  }

  predicate MayTry(state: Option<Retry>, scanNow: int) { state.Some? ==> scanNow >= state.value.nextAttempt }

  /** After a failed try that ended at now: the next state, and whether .upload_failed was written. */
  function AfterFailure(state: Option<Retry>, now: int, config: Config, persisted: bool): (Option<Retry>, bool)
  {
    var attempts := 1 + if state.Some? then state.value.attempts else 0;
    if config.maxRetries > 0 && attempts >= config.maxRetries && persisted then (None, true)
    else (Some(Retry(attempts, now + Delay(attempts, config))), false)
  }

  /** One try of a directory: when the scan began, when it ended, how it went, and whether a failure marker could
      have been written. */
  datatype Try = Try(scanNow: int, endedAt: int, ok: bool, persisted: bool)

  function StateAfter(tries: seq<Try>, config: Config): Option<Retry>
  {
    if tries == [] then None
    else
      var last := tries[|tries| - 1];
      if last.ok then None
      else AfterFailure(StateAfter(tries[..|tries| - 1], config), last.endedAt, config, last.persisted).0
  }

  /** The schedule let every try happen. */
  ghost predicate Scheduled(tries: seq<Try>, config: Config)
  {
    tries != [] ==>
      var front := tries[..|tries| - 1];
      Scheduled(front, config) && MayTry(StateAfter(front, config), tries[|tries| - 1].scanNow)
  }

  /** Failed tries at the end of the history since the last success or failure marker. */
  function Failures(tries: seq<Try>, config: Config): nat
  {
    if tries == [] || tries[|tries| - 1].ok then 0
    else
      var n := 1 + Failures(tries[..|tries| - 1], config);
      if config.maxRetries > 0 && n >= config.maxRetries && tries[|tries| - 1].persisted then 0 else n
  }

  /** The counter is the number of failures in a row, and its time is the end of the last one plus its delay. */
  lemma {:induction false} CounterIsFailures(tries: seq<Try>, config: Config)
    ensures var n := Failures(tries, config);
            StateAfter(tries, config) == if n == 0 then None
                                         else Some(Retry(n, tries[|tries| - 1].endedAt + Delay(n, config)))
    ensures tries == [] ==> Failures(tries, config) == 0
  {
    if tries != [] { CounterIsFailures(tries[..|tries| - 1], config); }
  }

  /** After n failures in a row a directory may be tried again exactly when the n-th delay has passed since the last of
      them ended: the first delay is retryBackoff, it doubles, and from the seventh on it is 64 times the first. */
  lemma RetriesAreSpaced(tries: seq<Try>, config: Config, scanNow: int)
    ensures var n := Failures(tries, config);
            && (MayTry(StateAfter(tries, config), scanNow)
                <==> n == 0 || scanNow >= tries[|tries| - 1].endedAt + Delay(n, config))
            && (n == 1 ==> Delay(n, config) == config.retryBackoff)
            && (n >= 7 ==> Delay(n, config) == 64 * config.retryBackoff)
            && (0 < n < 7 ==> Delay(n + 1, config) == 2 * Delay(n, config))
  {
    CounterIsFailures(tries, config);
    if Failures(tries, config) > 0 { DelayDoubles(Failures(tries, config), config); }
  }

  lemma DelayDoubles(n: nat, config: Config)
    requires n > 0
    ensures n == 1 ==> Delay(n, config) == config.retryBackoff
    ensures n >= 7 ==> Delay(n, config) == 64 * config.retryBackoff
    ensures n < 7 ==> Delay(n + 1, config) == 2 * Delay(n, config)
  {
    var k := if n - 1 < 6 then n - 1 else 6;
    assert Power2(6) == 64 by { assert Power2(3) == 8; }
    if n < 7 { assert config.retryBackoff * (2 * Power2(k)) == 2 * (config.retryBackoff * Power2(k)); }
  }

  /** The k-th try ended with a failure marker. */
  predicate Marks(tries: seq<Try>, config: Config, k: nat)
    requires k < |tries|
  {
    !tries[k].ok && AfterFailure(StateAfter(tries[..k], config), tries[k].endedAt, config, tries[k].persisted).1
  }

  /** Tries from i on that failed and could have been marked. */
  ghost predicate Failing(tries: seq<Try>, i: nat, n: nat)
  {
    i + n <= |tries| && forall k :: i <= k < i + n ==> !tries[k].ok && tries[k].persisted
  }

  /** Without a marker the counter keeps pace with the failures. */
  lemma {:induction false} CounterKeepsPace(tries: seq<Try>, config: Config, i: nat, n: nat)
    requires Failing(tries, i, n) && forall k :: i <= k < i + n ==> !Marks(tries, config, k)
    ensures n > 0 ==> var state := StateAfter(tries[..i + n], config); state.Some? && state.value.attempts >= n
  {
    if n > 0 {
      CounterKeepsPace(tries, config, i, n - 1);
      assert tries[..i + n][..i + n - 1] == tries[..i + n - 1];
      assert !Marks(tries, config, i + n - 1);
    }
  }

  /** Among as many failures in a row as the limit allows, one is marked. */
  lemma FailureIsMarked(tries: seq<Try>, config: Config, i: nat) returns (k: nat)
    requires config.maxRetries > 0 && Failing(tries, i, config.maxRetries)
    ensures i <= k < i + config.maxRetries && Marks(tries, config, k)
  {
    var n := config.maxRetries;
    if m :| i <= m < i + n - 1 && Marks(tries, config, m) {
      k := m;
    } else {
      CounterKeepsPace(tries, config, i, n - 1);
      k := i + n - 1;
    }
  }

  /** The counter never runs ahead of the failures: the last tries it counts all failed, and none of them was marked. */
  lemma {:induction false} CounterKeepsBack(tries: seq<Try>, config: Config, k: nat)
    requires k <= |tries|
    ensures var state := StateAfter(tries[..k], config);
            state.Some? ==>
              && 0 < state.value.attempts <= k
              && forall i :: k - state.value.attempts <= i < k ==> !tries[i].ok && !Marks(tries, config, i)
  {
    if k > 0 {
      CounterKeepsBack(tries, config, k - 1);
      assert tries[..k][..k - 1] == tries[..k - 1];
    }
  }

  /** And it is marked for nothing less: the try that is marked ends a row of failures as long as the limit, of which no
      other was marked. */
  lemma MarkedForEnoughFailures(tries: seq<Try>, config: Config, k: nat)
    requires k < |tries| && Marks(tries, config, k)
    ensures 0 < config.maxRetries <= k + 1 && tries[k].persisted
    ensures forall i :: k + 1 - config.maxRetries <= i <= k ==> !tries[i].ok && (i < k ==> !Marks(tries, config, i))
  {
    CounterKeepsBack(tries, config, k);
  }

  /** The scan took up every try: a directory marked as failed only after its marker had become old enough. Time does
      not run backwards. */
  ghost predicate TakenUp(tries: seq<Try>, config: Config)
  {
    && (forall k :: 0 <= k < |tries| ==> tries[k].scanNow <= tries[k].endedAt)
    && (forall k :: 0 < k < |tries| ==> tries[k - 1].endedAt <= tries[k].scanNow)
    && forall k :: 0 < k < |tries| && Marks(tries, config, k - 1) ==>
         Examined(Entry(true, false, Some(tries[k - 1].endedAt), NoLease, None), tries[k].scanNow, config, true).1
  }

  lemma {:induction false} TimeAdvances(tries: seq<Try>, config: Config, i: nat, j: nat)
    requires TakenUp(tries, config) && i <= j < |tries|
    ensures tries[i].endedAt <= tries[j].endedAt
  {
    if i < j { TimeAdvances(tries, config, i, j - 1); }
  }

  /** A directory that keeps failing is tried at most maxRetries times in any period of failedRescan - and never again
      when failedRescan is off. */
  lemma RetriesAreRationed(tries: seq<Try>, config: Config, i: nat)
    requires config.maxRetries > 0 && TakenUp(tries, config) && Failing(tries, i, config.maxRetries)
    requires i + config.maxRetries < |tries|
    ensures config.failedRescan > 0 && tries[i + config.maxRetries].scanNow >= tries[i].endedAt + config.failedRescan
  {
    var k := FailureIsMarked(tries, config, i);
    TimeAdvances(tries, config, i, k);
    assert Marks(tries, config, k + 1 - 1);
    assert tries[k].endedAt + config.failedRescan <= tries[k + 1].scanNow <= tries[k + 1].endedAt;
    if k + 1 < i + config.maxRetries { TimeAdvances(tries, config, k + 1, i + config.maxRetries - 1); }
  }

  // ---- several upload threads and one lease ----

  /** A worker has nothing to do with the directory, has found no active lease, or has written its own. */
  datatype Turn = Resting | Cleared | Sending(since: int)

  datatype Race = Race(lease: Lease, turns: seq<Turn>, now: int)

  datatype Move = Looks(i: nat) | Takes(i: nat, written: bool) | Leaves(i: nat) | Waits(later: int)

  /** One step: leaseActive, the write of .uploading, the guard's removal of it - whosever it is -, or time passing.
      atomic: nobody looks between another's look and its write. punctual: every upload ends before its lease runs
      out. */
  ghost predicate Moves(a: Race, m: Move, b: Race, timeout: int, atomic: bool, punctual: bool)
  {
    match m
    case Looks(i) =>
      && i < |a.turns| && a.turns[i].Resting? && (atomic ==> forall t :: t in a.turns ==> !t.Cleared?)
      && b == if Active(a.lease, a.now, timeout) then a else a.(lease := NoLease, turns := a.turns[i := Cleared])
    case Takes(i, written) =>
      && i < |a.turns| && a.turns[i].Cleared?
      && b == if written then a.(lease := Since(a.now), turns := a.turns[i := Sending(a.now)])
        else a.(turns := a.turns[i := Resting])
    case Leaves(i) => i < |a.turns| && a.turns[i].Sending? && b == a.(lease := NoLease, turns := a.turns[i := Resting])
    case Waits(later) =>
      && a.now <= later && (punctual ==> forall t :: t in a.turns && t.Sending? ==> later < t.since + timeout)
      && b == a.(now := later)
  }

  ghost predicate RaceRun(run: seq<Race>, timeout: int, atomic: bool, punctual: bool)
  {
    && run != [] && run[0].lease == NoLease && (forall t :: t in run[0].turns ==> t == Resting)
    && forall k :: 0 < k < |run| ==> MovesTo(run[k - 1], run[k], timeout, atomic, punctual)
  }

  ghost predicate MovesTo(a: Race, b: Race, timeout: int, atomic: bool, punctual: bool)
  {
    exists m :: Moves(a, m, b, timeout, atomic, punctual)
  }

  /** Two workers send under leases that have not run out. */
  ghost predicate Clash(r: Race, timeout: int)
  {
    exists i, j :: 0 <= i < j < |r.turns| && Live(r, i, timeout) && Live(r, j, timeout)
  }

  ghost predicate Live(r: Race, i: int, timeout: int)
    requires 0 <= i < |r.turns|
  {
    r.turns[i].Sending? && r.now < r.turns[i].since + timeout
  }

  /** At most one worker is past its look, and a sender's lease is there and active. */
  ghost predicate Orderly(r: Race, timeout: int)
  {
    && (forall i, j :: 0 <= i < j < |r.turns| ==> r.turns[i].Resting? || r.turns[j].Resting?)
    && forall t :: t in r.turns && t.Sending? ==> r.lease == Since(t.since) && Active(r.lease, r.now, timeout)
  }

  lemma MoveKeepsOrder(a: Race, m: Move, b: Race, timeout: int)
    requires timeout > 0 && Orderly(a, timeout) && Moves(a, m, b, timeout, true, true)
    ensures Orderly(b, timeout)
  {}

  lemma {:induction false} RunKeepsOrder(run: seq<Race>, n: nat, timeout: int)
    requires timeout > 0 && RaceRun(run, timeout, true, true) && n < |run|
    ensures Orderly(run[n], timeout)
  {
    if n > 0 {
      RunKeepsOrder(run, n - 1, timeout);
      assert MovesTo(run[n - 1], run[n], timeout, true, true);
      var m :| Moves(run[n - 1], m, run[n], timeout, true, true);
      hide Moves, Orderly;
      MoveKeepsOrder(run[n - 1], m, run[n], timeout);
    } else {
      assert forall i :: 0 <= i < |run[0].turns| ==> run[0].turns[i] in run[0].turns;
    }
  }

  ghost predicate NeverClash(timeout: int, atomic: bool, punctual: bool)
  {
    forall run: seq<Race>, n: nat :: RaceRun(run, timeout, atomic, punctual) && n < |run| ==> !Clash(run[n], timeout)
  }

  /** However many upload threads there are: no two ever send under live leases, in any interleaving, exactly when
      acquiring is atomic and every upload ends before its lease runs out. */
  lemma LeasesExcludeExactly(timeout: int, atomic: bool, punctual: bool)
    requires timeout > 0
    ensures NeverClash(timeout, atomic, punctual) <==> atomic && punctual
  {
    if atomic && punctual {
      forall run: seq<Race>, n: nat | RaceRun(run, timeout, true, true) && n < |run| ensures !Clash(run[n], timeout) {
        RunKeepsOrder(run, n, timeout);
      }
    } else if !atomic {
      var run := BothLook(timeout, punctual);
      var last := run[|run| - 1];
      assert Live(last, 0, timeout) && Live(last, 1, timeout);
    } else {
      var run := LateLeave(timeout);
      var last := run[|run| - 1];
      assert Live(last, 0, timeout) && Live(last, 1, timeout);
    }
  }

  lemma RunGrows(run: seq<Race>, m: Move, r: Race, timeout: int, atomic: bool, punctual: bool)
    returns (longer: seq<Race>)
    requires RaceRun(run, timeout, atomic, punctual) && Moves(run[|run| - 1], m, r, timeout, atomic, punctual)
    ensures RaceRun(longer, timeout, atomic, punctual) && longer[|longer| - 1] == r
  {
    hide Moves;
    longer := run + [r];
  }

  /** Both look before either writes. */
  lemma BothLook(timeout: int, punctual: bool) returns (run: seq<Race>)
    requires timeout > 0
    ensures RaceRun(run, timeout, false, punctual) && run[|run| - 1] == Race(Since(0), [Sending(0), Sending(0)], 0)
  {
    hide RaceRun;
    run := StartLine(timeout, false, punctual);
    run := RunGrows(run, Looks(0), Race(NoLease, [Cleared, Resting], 0), timeout, false, punctual);
    run := RunGrows(run, Looks(1), Race(NoLease, [Cleared, Cleared], 0), timeout, false, punctual);
    run := RunGrows(run, Takes(0, true), Race(Since(0), [Sending(0), Cleared], 0), timeout, false, punctual);
    run := RunGrows(run, Takes(1, true), Race(Since(0), [Sending(0), Sending(0)], 0), timeout, false, punctual);
  }

  /** A worker that overstays its lease removes, when it leaves, the lease of the next one, and comes back. */
  lemma LateLeave(timeout: int) returns (run: seq<Race>)
    requires timeout > 0
    ensures RaceRun(run, timeout, true, false)
    ensures run[|run| - 1] == Race(Since(timeout), [Sending(timeout), Sending(timeout)], timeout)
  {
    hide RaceRun;
    run := StartLine(timeout, true, false);
    run := RunGrows(run, Looks(0), Race(NoLease, [Cleared, Resting], 0), timeout, true, false);
    run := RunGrows(run, Takes(0, true), Race(Since(0), [Sending(0), Resting], 0), timeout, true, false);
    run := RunGrows(run, Waits(timeout), Race(Since(0), [Sending(0), Resting], timeout), timeout, true, false);
    run := RunGrows(run, Looks(1), Race(NoLease, [Sending(0), Cleared], timeout), timeout, true, false);
    run := RunGrows(run, Takes(1, true), Race(Since(timeout), [Sending(0), Sending(timeout)], timeout), timeout, true,
                    false);
    run := RunGrows(run, Leaves(0), Race(NoLease, [Resting, Sending(timeout)], timeout), timeout, true, false);
    run := RunGrows(run, Looks(0), Race(NoLease, [Cleared, Sending(timeout)], timeout), timeout, true, false);
    run := RunGrows(run, Takes(0, true), Race(Since(timeout), [Sending(timeout), Sending(timeout)], timeout), timeout,
                    true, false);
  }

  lemma StartLine(timeout: int, atomic: bool, punctual: bool) returns (run: seq<Race>)
    ensures RaceRun(run, timeout, atomic, punctual) && run[|run| - 1] == Race(NoLease, [Resting, Resting], 0)
  {
    run := [Race(NoLease, [Resting, Resting], 0)];
  }
}
