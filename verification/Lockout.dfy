/**
 The counters that slow down password guessing and reset mail: kept per address, restarted by a long enough gap
 rather than by a fixed window, and in the case of logins cleared by a success. Attempts come one at a time.
 */
module Lockout {
  import opened Prelude

  type Time = int

  const MINUTE: int := 60

  const MAX_LOGIN_FAILURES: int := 8
  const LOGIN_LOCKOUT_WINDOW: int := 15 * MINUTE
  const MAX_PASSWORD_RESET_REQUESTS: int := 3
  const PASSWORD_RESET_REQUEST_WINDOW: int := 60 * MINUTE

  /** How many in the current burst, when it began, and the latest. */
  datatype Burst = Burst(count: nat, first: Time, last: Time)

  type Bursts = map<string, Burst>

  // ----- the specification -----

  /** One more of the same: a burst whose latest member is older than the window starts over. */
  function Another(bursts: Bursts, email: string, window: int, now: Time): Bursts {
    bursts[email :=
      if email in bursts && !(bursts[email].last < now - window)
      then Burst(bursts[email].count + 1, bursts[email].first, now)
      else Burst(1, now, now)]
  }

  /** Locked out: at least the maximum in a burst that is still live. */
  predicate Locked(failures: Bursts, email: string, now: Time) {
    && email in failures
    && !(now - failures[email].last > LOGIN_LOCKOUT_WINDOW)
    && failures[email].count >= MAX_LOGIN_FAILURES
  }

  datatype LoginResult = LoggedIn | InvalidCredentials | AccountLocked

  /** One login attempt, for a password that is right or wrong. */
  function Attempt(failures: Bursts, email: string, right: bool, now: Time): (Bursts, LoginResult) {
    if Locked(failures, email, now) then (failures, AccountLocked)
    else if right then (failures - {email}, LoggedIn)
    else (Another(failures, email, LOGIN_LOCKOUT_WINDOW, now), InvalidCredentials)
  }

  /** One reset request: always counted, and mailed while the count is within the cap. */
  function ResetRequest(requests: Bursts, email: string, now: Time): (Bursts, bool) {
    var requests' := Another(requests, email, PASSWORD_RESET_REQUEST_WINDOW, now);
    (requests', requests'[email].count <= MAX_PASSWORD_RESET_REQUESTS)
  }

  // ----- the implementation -----

  class Guard {
    var failures: Bursts
    var resets: Bursts

    constructor ()
      ensures failures == map[] && resets == map[]
    {
      failures, resets := map[], map[];
    }

    method CheckLockout(email: string, now: Time) returns (locked: bool)
      ensures locked == Locked(failures, email, now)
    {
      if email !in failures {
        return false;
      }
      if now - failures[email].last > LOGIN_LOCKOUT_WINDOW {
        return false;
      }
      return failures[email].count >= MAX_LOGIN_FAILURES;
    }

    method RecordLoginFailure(email: string, now: Time)
      modifies this`failures
      ensures failures == Another(old(failures), email, LOGIN_LOCKOUT_WINDOW, now)
    {
      var cutoff := now - LOGIN_LOCKOUT_WINDOW;
      if email !in failures {
        failures := failures[email := Burst(1, now, now)];
      } else {
        var row := failures[email];
        failures := failures[email := Burst(if row.last < cutoff then 1 else row.count + 1,
                                            if row.last < cutoff then now else row.first, now)];
      }
    }

    method ClearLoginFailures(email: string)
      modifies this`failures
      ensures failures == old(failures) - {email}
    {
      failures := failures - {email};
    }

    /** Checks the lockout first, then the password, and records or clears accordingly. */
    method Authenticate(email: string, right: bool, now: Time) returns (r: LoginResult)
      modifies this`failures
      ensures (failures, r) == Attempt(old(failures), email, right, now)
    {
      var locked := CheckLockout(email, now);
      if locked {
        return AccountLocked;
      }
      if !right {
        RecordLoginFailure(email, now);
        return InvalidCredentials;
      }
      ClearLoginFailures(email);
      return LoggedIn;
    }

    method RecordAndCheckPasswordResetRequest(email: string, now: Time) returns (allowed: bool)
      modifies this`resets
      ensures (resets, allowed) == ResetRequest(old(resets), email, now)
    {
      var cutoff := now - PASSWORD_RESET_REQUEST_WINDOW;
      var count: nat := 1;
      if email !in resets || resets[email].last < cutoff {
        resets := resets[email := Burst(1, now, now)];
      } else {
        count := resets[email].count + 1;
        resets := resets[email := Burst(count, resets[email].first, now)];
      }
      return count <= MAX_PASSWORD_RESET_REQUESTS;
    }
  }

  // ----- runs of login attempts -----

  datatype Try = Try(email: string, right: bool, now: Time)

  /** The table and the results after a run of attempts from an empty table. */
  function RunTries(tries: seq<Try>): (r: (Bursts, seq<LoginResult>))
    ensures |r.1| == |tries|
  {
    if tries == [] then (map[], [])
    else
      var (failures, results) := RunTries(tries[..|tries| - 1]);
      var last := tries[|tries| - 1];
      var (failures', result) := Attempt(failures, last.email, last.right, last.now);
      (failures', results + [result])
  }

  ghost predicate InOrder(tries: seq<Try>) {
    forall i, j :: 0 <= i < j < |tries| ==> tries[i].now <= tries[j].now
  }

  predicate Concerns(x: Try, email: string, from: Time, to: Time) {
    x.email == email && from <= x.now <= to
  }

  /** How many attempts for an address in [from, to] had their password checked and found wrong. */
  function FailedChecks(tries: seq<Try>, email: string, from: Time, to: Time): nat {
    if tries == [] then 0
    else
      var n := |tries| - 1;
      FailedChecks(tries[..n], email, from, to)
      + if Concerns(tries[n], email, from, to) && RunTries(tries).1[n] == InvalidCredentials then 1 else 0
  }

  ghost predicate NoLogin(tries: seq<Try>, email: string, from: Time, to: Time) {
    forall i :: 0 <= i < |tries| && Concerns(tries[i], email, from, to) ==> RunTries(tries).1[i] != LoggedIn
  }

  lemma ResultsKept(tries: seq<Try>)
    requires tries != []
    ensures var n := |tries| - 1;
            && RunTries(tries).1[..n] == RunTries(tries[..n]).1
            && RunTries(tries).0 == Attempt(RunTries(tries[..n]).0, tries[n].email, tries[n].right, tries[n].now).0
            && RunTries(tries).1[n] == Attempt(RunTries(tries[..n]).0, tries[n].email, tries[n].right, tries[n].now).1
  {
  }

  lemma NoLoginBefore(tries: seq<Try>, email: string, from: Time, to: Time)
    requires tries != [] && NoLogin(tries, email, from, to)
    ensures NoLogin(tries[..|tries| - 1], email, from, to)
  {
    hide Attempt, Concerns;
    var n := |tries| - 1;
    ResultsKept(tries);
    assert forall i :: 0 <= i < n ==> RunTries(tries).1[i] == RunTries(tries).1[..n][i];
  }

  /**
   Between two failures of a stretch no longer than the window there is no gap to restart the count and no login
   to clear it, so the burst is at least as large as the number of failures in the stretch.
   */
  ghost predicate BurstCounts(failures: Bursts, email: string, from: Time, k: nat) {
    k > 0 ==> email in failures && failures[email].count >= k && failures[email].last >= from
  }

  lemma FailureCounts(failures: Bursts, email: string, from: Time, to: Time, k: nat, x: Try)
    requires to == from + LOGIN_LOCKOUT_WINDOW && x.now <= to
    requires BurstCounts(failures, email, from, k) && k <= MAX_LOGIN_FAILURES && (x.now < from ==> k == 0)
    requires Concerns(x, email, from, to) ==> Attempt(failures, x.email, x.right, x.now).1 != LoggedIn
    ensures var (failures', r) := Attempt(failures, x.email, x.right, x.now);
            var k' := if Concerns(x, email, from, to) && r == InvalidCredentials then k + 1 else k;
            BurstCounts(failures', email, from, k') && k' <= MAX_LOGIN_FAILURES
  {
  }

  lemma {:induction false} RunCounts(tries: seq<Try>, email: string, from: Time)
    requires InOrder(tries) && NoLogin(tries, email, from, from + LOGIN_LOCKOUT_WINDOW)
    ensures var k := FailedChecks(tries, email, from, from + LOGIN_LOCKOUT_WINDOW);
            && k <= MAX_LOGIN_FAILURES
            && (tries != [] && tries[|tries| - 1].now <= from + LOGIN_LOCKOUT_WINDOW ==>
                  BurstCounts(RunTries(tries).0, email, from, k))
            && (tries != [] && tries[|tries| - 1].now < from ==> k == 0)
    decreases |tries|
  {
    hide Attempt, BurstCounts, RunTries;
    if tries != [] {
      var n, to := |tries| - 1, from + LOGIN_LOCKOUT_WINDOW;
      var front, x := tries[..n], tries[n];
      ResultsKept(tries);
      NoLoginBefore(tries, email, from, to);
      RunCounts(front, email, from);
      if x.now <= to {
        assert BurstCounts(RunTries(front).0, email, from, FailedChecks(front, email, from, to)) by {
          if front == [] {
            NothingCounts(RunTries(front).0, email, from);
          }
        }
        FailureCounts(RunTries(front).0, email, from, to, FailedChecks(front, email, from, to), x);
      }
    }
  }

  lemma NothingCounts(failures: Bursts, email: string, from: Time)
    ensures BurstCounts(failures, email, from, 0)
  {
  }

  /**
   Any stretch of 15 minutes, ends included, without a successful login sees at most 8 failed password checks for
   one address, although the count restarts by gap and not by window.
   */
  lemma GuessingIsBounded(tries: seq<Try>, email: string, from: Time)
    requires InOrder(tries) && NoLogin(tries, email, from, from + LOGIN_LOCKOUT_WINDOW)
    ensures FailedChecks(tries, email, from, from + LOGIN_LOCKOUT_WINDOW) <= MAX_LOGIN_FAILURES
  {
    hide FailedChecks, BurstCounts, RunTries, NoLogin, InOrder;
    RunCounts(tries, email, from);
  }

  /** A burst holds no more than the failed checks since it began. */
  ghost predicate BurstIsFailures(failures: Bursts, tries: seq<Try>, email: string, now: Time) {
    email in failures ==>
      && failures[email].first <= failures[email].last <= now
      && failures[email].count <= FailedChecks(tries, email, failures[email].first, now)
  }

  lemma {:induction false} ChecksWiden(tries: seq<Try>, email: string, from: Time, to: Time, to': Time)
    requires to <= to'
    ensures FailedChecks(tries, email, from, to) <= FailedChecks(tries, email, from, to')
  {
    hide RunTries;
    if tries != [] {
      ChecksWiden(tries[..|tries| - 1], email, from, to, to');
    }
  }

  lemma {:induction false} RunBursts(tries: seq<Try>, email: string)
    requires InOrder(tries)
    ensures tries != [] ==> BurstIsFailures(RunTries(tries).0, tries, email, tries[|tries| - 1].now)
    decreases |tries|
  {
    hide RunTries, FailedChecks;
    if tries != [] {
      var n := |tries| - 1;
      var front, x := tries[..n], tries[n];
      ResultsKept(tries);
      RunBursts(front, email);
      if front == [] {
        NoTries();
      }
      BurstStep(tries, email, if front == [] then x.now else front[n - 1].now);
    }
  }

  lemma {:induction false} BurstStep(tries: seq<Try>, email: string, before: Time)
    requires tries != [] && before <= tries[|tries| - 1].now
    requires BurstIsFailures(RunTries(tries[..|tries| - 1]).0, tries[..|tries| - 1], email, before)
    ensures BurstIsFailures(RunTries(tries).0, tries, email, tries[|tries| - 1].now)
  {
    hide RunTries;
    var n := |tries| - 1;
    ResultsKept(tries);
    var failures, x := RunTries(tries[..n]).0, tries[n];
    if email in failures {
      ChecksWiden(tries[..n], email, failures[email].first, before, x.now);
    }
  }

  lemma NoTries()
    ensures RunTries([]).0 == map[]
  {
  }

  /** An address is locked out only after 8 failed password checks since its burst began. */
  lemma LockedOnlyAfterFailures(tries: seq<Try>, email: string, now: Time)
    requires InOrder(tries) && tries != [] && Locked(RunTries(tries).0, email, now)
    ensures var first := RunTries(tries).0[email].first;
            FailedChecks(tries, email, first, tries[|tries| - 1].now) >= MAX_LOGIN_FAILURES
  {
    hide RunTries, FailedChecks;
    RunBursts(tries, email);
  }

  /** A lockout ends exactly when the window has passed since the last failure. */
  lemma LockoutEnds(failures: Bursts, email: string, now: Time)
    requires email in failures && failures[email].count >= MAX_LOGIN_FAILURES
    ensures Attempt(failures, email, true, now).1 == LoggedIn <==> now > failures[email].last + LOGIN_LOCKOUT_WINDOW
    ensures Attempt(failures, email, false, now).1 == AccountLocked ==> Attempt(failures, email, false, now).0 == failures
  {
  }

  // ----- runs of reset requests -----

  datatype Ask = Ask(email: string, now: Time)

  function RunAsks(asks: seq<Ask>): (r: (Bursts, seq<bool>))
    ensures |r.1| == |asks|
  {
    if asks == [] then (map[], [])
    else
      var (requests, results) := RunAsks(asks[..|asks| - 1]);
      var last := asks[|asks| - 1];
      var (requests', allowed) := ResetRequest(requests, last.email, last.now);
      (requests', results + [allowed])
  }

  ghost predicate AsksInOrder(asks: seq<Ask>) {
    forall i, j :: 0 <= i < j < |asks| ==> asks[i].now <= asks[j].now
  }

  /** How many requests for an address came in [from, to], and how many of those were mailed. */
  function Asked(asks: seq<Ask>, email: string, from: Time, to: Time): (nat, nat) {
    if asks == [] then (0, 0)
    else
      var n := |asks| - 1;
      var (all, mailed) := Asked(asks[..n], email, from, to);
      if asks[n].email == email && from <= asks[n].now <= to
      then (all + 1, mailed + if RunAsks(asks).1[n] then 1 else 0) else (all, mailed)
  }

  lemma AskCounts(requests: Bursts, email: string, from: Time, k: nat, mailed: nat, x: Ask)
    requires x.now <= from + PASSWORD_RESET_REQUEST_WINDOW
    requires BurstCounts(requests, email, from, k) && mailed <= k && mailed <= MAX_PASSWORD_RESET_REQUESTS
    requires x.now < from ==> k == 0
    ensures var (requests', allowed) := ResetRequest(requests, x.email, x.now);
            var now := x.email == email && from <= x.now;
            var k', mailed' := if now then k + 1 else k, if now && allowed then mailed + 1 else mailed;
            BurstCounts(requests', email, from, k') && mailed' <= k' && mailed' <= MAX_PASSWORD_RESET_REQUESTS
  {
  }

  lemma {:induction false} RunAskCounts(asks: seq<Ask>, email: string, from: Time)
    requires AsksInOrder(asks)
    ensures var (k, mailed) := Asked(asks, email, from, from + PASSWORD_RESET_REQUEST_WINDOW);
            && mailed <= k && mailed <= MAX_PASSWORD_RESET_REQUESTS
            && (asks != [] && asks[|asks| - 1].now <= from + PASSWORD_RESET_REQUEST_WINDOW ==>
                  BurstCounts(RunAsks(asks).0, email, from, k))
            && (asks != [] && asks[|asks| - 1].now < from ==> k == 0)
    decreases |asks|
  {
    hide ResetRequest, BurstCounts;
    if asks != [] {
      var n, to := |asks| - 1, from + PASSWORD_RESET_REQUEST_WINDOW;
      var front, x := asks[..n], asks[n];
      RunAskCounts(front, email, from);
      var (k, mailed) := Asked(front, email, from, to);
      if x.now <= to {
        if front == [] {
          NothingCounts(RunAsks(front).0, email, from);
        }
        AskCounts(RunAsks(front).0, email, from, k, mailed, x);
      }
    }
  }

  /** Any stretch of an hour, ends included, sees at most 3 reset mails for one address. */
  lemma ResetMailIsBounded(asks: seq<Ask>, email: string, from: Time)
    requires AsksInOrder(asks)
    ensures Asked(asks, email, from, from + PASSWORD_RESET_REQUEST_WINDOW).1 <= MAX_PASSWORD_RESET_REQUESTS
  {
    hide Asked, BurstCounts, RunAsks, AsksInOrder;
    RunAskCounts(asks, email, from);
  }

  // ----- the counters in terms of what happened -----

  /** How many of the latest moments follow each other without a gap longer than the window. */
  function Streak(times: seq<Time>, window: int): nat {
    if times == [] then 0
    else
      var n := |times| - 1;
      if n > 0 && times[n] - times[n - 1] <= window then Streak(times[..n], window) + 1 else 1
  }

  /** The burst on record for an address is the streak its latest moments form. */
  ghost predicate Records(bursts: Bursts, email: string, times: seq<Time>, window: int) {
    && (email in bursts <==> times != [])
    && (email in bursts ==> bursts[email].count == Streak(times, window) && bursts[email].last == times[|times| - 1])
  }

  lemma AnotherRecords(bursts: Bursts, email: string, times: seq<Time>, window: int, now: Time)
    requires Records(bursts, email, times, window)
    ensures Records(Another(bursts, email, window, now), email, times + [now], window)
  {
    assert (times + [now])[..|times|] == times;
  }

  /** When reset mail was asked for, for one address. */
  function AskTimes(asks: seq<Ask>, email: string): seq<Time> {
    if asks == [] then []
    else
      var n := |asks| - 1;
      AskTimes(asks[..n], email) + if asks[n].email == email then [asks[n].now] else []
  }

  lemma {:induction false} AsksAreRecorded(asks: seq<Ask>, email: string)
    ensures Records(RunAsks(asks).0, email, AskTimes(asks, email), PASSWORD_RESET_REQUEST_WINDOW)
    decreases |asks|
  {
    hide Streak, Records, Another;
    if asks == [] {
      NothingRecorded(email, PASSWORD_RESET_REQUEST_WINDOW);
    } else {
      var n := |asks| - 1;
      AsksAreRecorded(asks[..n], email);
      var before := RunAsks(asks[..n]).0;
      if asks[n].email == email {
        AnotherRecords(before, email, AskTimes(asks[..n], email), PASSWORD_RESET_REQUEST_WINDOW, asks[n].now);
      } else {
        OthersRecorded(before, asks[n].email, PASSWORD_RESET_REQUEST_WINDOW, asks[n].now, email, AskTimes(asks[..n], email));
        assert AskTimes(asks, email) == AskTimes(asks[..n], email);
      }
    }
  }

  lemma NothingRecorded(email: string, window: int)
    ensures Records(map[], email, [], window)
  {
  }

  lemma OthersRecorded(bursts: Bursts, other: string, window: int, now: Time, email: string, times: seq<Time>)
    requires Records(bursts, email, times, window) && other != email
    ensures Records(Another(bursts, other, window, now), email, times, window)
  {
  }

  /** A reset request is mailed exactly when it is at most the third since the last gap of more than an hour. */
  lemma MailedIff(asks: seq<Ask>)
    requires asks != []
    ensures var n := |asks| - 1;
            RunAsks(asks).1[n] <==> Streak(AskTimes(asks, asks[n].email), 60 * 60) <= 3
  {
    hide Streak;
    AsksAreRecorded(asks, asks[|asks| - 1].email);
  }

  /** When password checks failed for an address since it last logged in. */
  function FailureTimes(tries: seq<Try>, email: string): seq<Time> {
    if tries == [] then []
    else
      var n := |tries| - 1;
      var times := FailureTimes(tries[..n], email);
      if tries[n].email != email then times
      else
        match RunTries(tries).1[n]
        case LoggedIn => []
        case InvalidCredentials => times + [tries[n].now]
        case AccountLocked => times
  }

  lemma {:induction false} FailuresAreRecorded(tries: seq<Try>, email: string)
    ensures Records(RunTries(tries).0, email, FailureTimes(tries, email), LOGIN_LOCKOUT_WINDOW)
    decreases |tries|
  {
    hide Streak, Records, Another, Locked, RunTries;
    if tries == [] {
      NoTries();
      NothingRecorded(email, LOGIN_LOCKOUT_WINDOW);
    } else {
      var n := |tries| - 1;
      var x, before, times := tries[n], RunTries(tries[..n]).0, FailureTimes(tries[..n], email);
      ResultsKept(tries);
      FailuresAreRecorded(tries[..n], email);
      if x.email == email {
        AnotherRecords(before, email, times, LOGIN_LOCKOUT_WINDOW, x.now);
        ClearedRecords(before, email, times);
      } else {
        OthersRecorded(before, x.email, LOGIN_LOCKOUT_WINDOW, x.now, email, times);
        OthersCleared(before, x.email, email, times);
      }
    }
  }

  lemma ClearedRecords(bursts: Bursts, email: string, times: seq<Time>)
    ensures Records(bursts - {email}, email, [], LOGIN_LOCKOUT_WINDOW)
  {
  }

  lemma OthersCleared(bursts: Bursts, other: string, email: string, times: seq<Time>)
    requires Records(bursts, email, times, LOGIN_LOCKOUT_WINDOW) && other != email
    ensures Records(bursts - {other}, email, times, LOGIN_LOCKOUT_WINDOW)
  {
  }

  /** Eight failed checks in a row without a gap of more than 15 minutes, the last of them no longer ago than that. */
  predicate Barred(times: seq<Time>, now: Time) {
    times != [] && now <= times[|times| - 1] + 15 * 60 && Streak(times, 15 * 60) >= 8
  }

  /** What becomes of an attempt, by what came before it: barred, or else let in exactly with the right password. */
  lemma AttemptOutcome(tries: seq<Try>)
    requires tries != []
    ensures var n := |tries| - 1;
            RunTries(tries).1[n] == if Barred(FailureTimes(tries[..n], tries[n].email), tries[n].now) then AccountLocked
                                    else if tries[n].right then LoggedIn else InvalidCredentials
  {
    hide Streak, RunTries, Another;
    var n := |tries| - 1;
    ResultsKept(tries);
    FailuresAreRecorded(tries[..n], tries[n].email);
  }
}
