/** The statement-by-statement transaction and the decision it implements agree, refusals included. */
module ApprovalAlone {
  import opened Prelude
  import opened Ledger
  import opened LedgerInvariants
  import opened Approval
  import opened ApprovalLocking

  function Alone(b: Books, job: Job, at: Progress): Sys {
    Sys(b, [Thread(job, at)], [])
  }

  function Steps(n: nat): seq<Action> {
    seq(n, _ => Action(0, false))
  }

  lemma {:induction false} RunSysCons(sys: Sys, a: Action, rest: seq<Action>)
    ensures RunSys(sys, [a] + rest) == RunSys(Step(sys, a.thread, a.cutOff), rest)
    decreases |rest|
  {
    hide Step;
    var all := [a] + rest;
    if rest == [] {
      assert all[..0] == [] && RunSys(sys, []) == sys;
      assert all == [a];
    } else {
      var n := |rest| - 1;
      assert all[..|all| - 1] == [a] + rest[..n];
      RunSysCons(sys, a, rest[..n]);
    }
  }

  lemma OneStep(sys: Sys, n: nat)
    requires n > 0
    ensures RunSys(sys, Steps(n)) == RunSys(Step(sys, 0, false), Steps(n - 1))
  {
    hide Step, RunSys;
    assert Steps(n) == [Action(0, false)] + Steps(n - 1);
    RunSysCons(sys, Action(0, false), Steps(n - 1));
  }

  /** Nobody is in the way of a transaction that runs alone. */
  lemma AloneMoves(b: Books, job: Job, at: Progress)
    requires !at.Done? && !at.Flipped?
    ensures Step(Alone(b, job, at), 0, false) == Alone(b, job, NextProgress(b, Thread(job, at)))
  {
    hide AfterClaim, AfterLock, AfterCheck, Needs;
    var sys := Alone(b, job, at);
    assert !exists r :: HeldByOther(sys, 0, r);
  }

  lemma {:induction false} AloneStays(b: Books, job: Job, e: Ending, n: nat)
    ensures RunSys(Alone(b, job, Done(e)), Steps(n)) == Alone(b, job, Done(e))
    decreases n
  {
    if n > 0 {
      OneStep(Alone(b, job, Done(e)), n);
      AloneStays(b, job, e, n - 1);
    }
  }

  /** What is left to find, once the first k accounts have been checked. */
  lemma {:induction false} AloneFromLock(b: Books, job: Job, k: nat, n: nat)
    requires Decidable(b, job.req, job.unit) && k <= |Keys(b, job)|
    requires n == 2 * (|Keys(b, job)| - k) + 2
    requires DebitsProblem(b, DebitRows(b, job), Keys(b, job)[..k]).None?
    ensures var sys := RunSys(Alone(b, job, Locking(k)), Steps(n));
            match DebitsProblem(b, DebitRows(b, job), Keys(b, job))
            case Some(e) => sys == Alone(b, job, Done(Refused(e)))
            case None => && |sys.threads| == 1 && sys.threads[0].at == Done(Committed)
                         && sys.books == DecisionEffect(b, job.req, job.approve)
    decreases n
  {
    hide Keys, DebitRows, DebitsProblem, DecisionEffect, RunSys, DebitTotal, Balance, Decidable;
    var keys, rows := Keys(b, job), DebitRows(b, job);
    OneStep(Alone(b, job, Locking(k)), n);
    AloneMoves(b, job, Locking(k));
    if k == |keys| {
      assert keys[..k] == keys;
      OneStep(Alone(b, job, Flipped), 1);
      AloneCommits(b, job);
      NoSteps(Step(Alone(b, job, Flipped), 0, false));
    } else {
      PrefixProblem(b, rows, keys, k);
      match DebitProblem(b, rows, keys[k])
      case Some(e) =>
        if AfterLock(b, job, k) == Checking(k) {
          OneStep(Alone(b, job, Checking(k)), n - 1);
          AloneMoves(b, job, Checking(k));
          AloneStays(b, job, Refused(e), n - 2);
        } else {
          AloneStays(b, job, Refused(e), n - 1);
        }
      case None =>
        OneStep(Alone(b, job, Checking(k)), n - 1);
        AloneMoves(b, job, Checking(k));
        AloneFromLock(b, job, k + 1, n - 2);
    }
  }

  lemma NoSteps(sys: Sys)
    ensures RunSys(sys, Steps(0)) == sys
  {
  }

  lemma AloneCommits(b: Books, job: Job)
    requires Decidable(b, job.req, job.unit)
    ensures var sys := Step(Alone(b, job, Flipped), 0, false);
            && |sys.threads| == 1 && sys.threads[0].at == Done(Committed)
            && sys.books == DecisionEffect(b, job.req, job.approve)
  {
    hide DecisionEffect;
  }

  /** The first problem decides, and checking goes account by account. */
  lemma PrefixProblem(b: Books, rows: seq<Row>, keys: seq<AccountId>, k: nat)
    requires k < |keys| && DebitsProblem(b, rows, keys[..k]).None?
    ensures DebitsProblem(b, rows, keys[..k + 1]) == DebitProblem(b, rows, keys[k])
    ensures DebitProblem(b, rows, keys[k]).Some? ==> DebitsProblem(b, rows, keys) == DebitProblem(b, rows, keys[k])
  {
    hide DebitProblem;
    DebitsProblemStep(b, rows, keys, k);
    if DebitProblem(b, rows, keys[k]).Some? {
      DebitsProblemStops(b, rows, keys, k + 1);
    }
  }

  /** Statement by statement, a transaction that runs alone does what the decision says, errors included. */
  lemma AloneIsDecide(b: Books, job: Job)
    ensures var sys := RunSys(Start(b, [job]), Steps(2 * |Keys(b, job)| + 3));
            var (b', r) := Decide(b, job.req, job.unit, job.approve);
            && |sys.threads| == 1 && sys.books == b'
            && sys.threads[0].at == match r case Ok(_) => Done(Committed) case Err(e) => Done(Refused(e))
  {
    hide Keys, DebitsProblem, DecisionEffect, RunSys, DebitTotal, DebitedAccounts, AfterLock, AfterCheck;
    var n := 2 * |Keys(b, job)| + 3;
    assert Start(b, [job]).threads == [Thread(job, Begin)];
    OneStep(Alone(b, job, Begin), n);
    AloneMoves(b, job, Begin);
    if job.req < |b.requests| {
      AloneProblem(b, job);
    }
    if AfterClaim(b, job).Done? {
      AloneStays(b, job, AfterClaim(b, job).ending, n - 1);
    } else {
      assert Keys(b, job)[..0] == [];
      NothingToCheck(b, DebitRows(b, job));
      AloneFromLock(b, job, 0, n - 1);
    }
  }

  lemma NothingToCheck(b: Books, rows: seq<Row>)
    ensures DebitsProblem(b, rows, []).None?
  {
  }

  /** The sequential check in terms of the accounts a transaction locks. */
  lemma AloneProblem(b: Books, job: Job)
    requires job.req < |b.requests|
    ensures ApprovalProblem(b, job.req, job.approve) ==
            var keys, rows := Keys(b, job), DebitRows(b, job);
            if exists k :: 0 <= k < |keys| && !Fits(DebitTotal(rows, keys[k])) then Some(AmountOutOfRange)
            else DebitsProblem(b, rows, keys)
  {
  }
}
