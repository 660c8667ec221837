/**
 What concurrent approvals do to the money. An account is only debited by a transaction that has locked it and read
 its balance, so in every interleaving a committed approval leaves it at zero or more, unless a comparison with its
 balance at the start would already wrap below the 64-bit range. If in addition all that could still come in keeps
 the debited accounts within that range, the committed decisions have the same outcome as if they had been taken one
 after another.
 */
module ApprovalSafety {
  import opened Prelude
  import opened Ledger
  import opened LedgerInvariants
  import opened LedgerTheorems
  import opened Approval
  import opened ApprovalLocking

  // ----- the 64-bit range -----

  /** What a decision would take out of account a: zero or less. */
  function JobDebit(b: Books, job: Job, a: AccountId): int {
    DebitTotal(DebitRows(b, job), a)
  }

  /** From a balance of x, account a compared with the debits of a decision does not wrap below the range. */
  predicate NoWrapFrom(x: int, b: Books, job: Job, a: AccountId) {
    Fits(JobDebit(b, job, a)) ==> x + JobDebit(b, job, a) >= -TWO_63
  }

  /** As the books stand, no comparison of account a with the debits of one of the decisions wraps. */
  ghost predicate NoWrap(b: Books, jobs: seq<Job>, a: AccountId) {
    forall k :: 0 <= k < |jobs| ==> NoWrapFrom(Balance(b, a), b, jobs[k], a)
  }

  /** An account that is not overdrawn cannot wrap. */
  lemma NotOverdrawnNoWrap(b: Books, jobs: seq<Job>, a: AccountId)
    requires Balance(b, a) >= 0
    ensures NoWrap(b, jobs, a)
  {
    hide Balance, DebitTotal, DebitRows;
  }

  // ----- the money invariant -----

  /** The accounts a transaction has locked and checked. */
  function Checked(b: Books, t: Thread): seq<AccountId> {
    var keys := Keys(b, t.job);
    match t.at
    case Locking(n) => if n <= |keys| then keys[..n] else keys
    case Checking(n) => if n <= |keys| then keys[..n] else keys
    case Flipped => keys
    case _ => []
  }

  /** If a transaction has checked account a, it is open and can still bear the debits. */
  predicate Bears(b: Books, t: Thread, a: AccountId) {
    a in Checked(b, t) ==>
      && a < |b.accounts| && b.accounts[a].open && Fits(JobDebit(b, t.job, a))
      && Balance(b, a) + JobDebit(b, t.job, a) >= 0
  }

  /** Account a is at the given floor or more, from where no comparison wraps, and bears all that has been checked. */
  ghost predicate MoneyOk(sys: Sys, a: AccountId, floor: int) {
    && floor <= 0 && floor <= Balance(sys.books, a)
    && (forall i :: 0 <= i < |sys.threads| ==> NoWrapFrom(floor, sys.books, sys.threads[i].job, a))
    && (forall i :: 0 <= i < |sys.threads| ==> Bears(sys.books, sys.threads[i], a))
  }

  /** A statement adds at most one checked account: the one whose balance it has just read. */
  lemma NextChecked(b: Books, t: Thread, a: AccountId)
    requires ThreadOk(b, t) && !t.at.Flipped?
    requires a in Checked(b, t.(at := NextProgress(b, t))) && a !in Checked(b, t)
    ensures DebitProblem(b, DebitRows(b, t.job), a).None?
  {
    hide SortedKeys, DebitRows, DebitProblem, DebitTotal, Decidable;
    var keys := Keys(b, t.job);
    if t.at.Checking? {
      assert keys[..t.at.n + 1] == keys[..t.at.n] + [keys[t.at.n]];
    }
  }

  /** Above the floor the comparison is exact, so what passes the check can be borne. */
  lemma NextBears(b: Books, t: Thread, a: AccountId, floor: int)
    requires ThreadOk(b, t) && !t.at.Flipped? && Bears(b, t, a)
    requires floor <= Balance(b, a) && NoWrapFrom(floor, b, t.job, a)
    ensures Bears(b, t.(at := NextProgress(b, t)), a)
  {
    hide Balance, DebitTotal, DebitRows, Checked, NextProgress, Decidable, DebitProblem;
    if a in Checked(b, t.(at := NextProgress(b, t))) && a !in Checked(b, t) {
      NextChecked(b, t, a);
      MayDebitIsNoProblem(b, DebitRows(b, t.job), a);
    }
  }

  lemma NextKeepsMoney(sys: Sys, i: nat, a: AccountId, floor: int)
    requires LocksOk(sys) && MoneyOk(sys, a, floor) && Enabled(sys, i) && !sys.threads[i].at.Flipped?
    ensures MoneyOk(Step(sys, i, false), a, floor)
  {
    hide Exclusive, LogOk, HeldByOther, Needs, Balance, NoWrapFrom, Bears, AfterClaim, AfterLock, AfterCheck;
    NextIsOk(sys, i);
    assert ThreadOk(sys.books, sys.threads[i]);
    NextBears(sys.books, sys.threads[i], a, floor);
  }

  lemma CutOffKeepsMoney(sys: Sys, i: nat, a: AccountId, floor: int)
    requires MoneyOk(sys, a, floor) && Running(sys, i)
    ensures MoneyOk(Move(sys, i, Done(CutOff)), a, floor)
  {
    hide Balance, NoWrapFrom, JobDebit;
  }

  // ----- commits -----

  /** A committing transaction decides a request, and what it debits is a pending entry. */
  lemma AboutPendingEntry(b: Books, job: Job)
    requires RequestsOk(b) && Decidable(b, job.req, job.unit)
    ensures b.requests[job.req].subject.LedgerTransaction? ==>
              var t := b.requests[job.req].subject.tx;
              && t < |b.txs| && b.txs[t].status == PendingApproval
              && DebitRows(b, job) == if job.approve then b.txs[t].rows else []
    ensures !b.requests[job.req].subject.LedgerTransaction? ==> DebitRows(b, job) == []
  {
    assert RequestOk(b, job.req);
  }

  lemma SameTxsSameBalance(b: Books, b': Books, a: AccountId)
    requires b'.txs == b.txs
    ensures Balance(b', a) == Balance(b, a)
  {
  }

  /** A commit leaves an account that it does not debit with no less. */
  lemma UndebitedKeepsMoney(sys: Sys, i: nat, a: AccountId)
    requires LocksOk(sys) && RequestsOk(sys.books) && Running(sys, i) && sys.threads[i].at.Flipped?
    requires a !in DebitedAccounts(DebitRows(sys.books, sys.threads[i].job))
    ensures Balance(Commit(sys, i).books, a) >= Balance(sys.books, a)
  {
    hide Exclusive, LogOk, Balance, DebitedAccounts, RowsTotal, DebitRows, RequestsOk;
    var b, job := sys.books, sys.threads[i].job;
    assert ThreadOk(b, sys.threads[i]);
    AboutPendingEntry(b, job);
    match b.requests[job.req].subject
    case LedgerTransaction(t) =>
      DecisionBalance(b, job.req, job.approve, t, a);
      if job.approve {
        RowsTotalWithoutDebit(b.txs[t].rows, a);
      }
    case _ =>
      SameTxsSameBalance(b, Commit(sys, i).books, a);
  }

  /** A commit leaves every account it debits, and so has checked, at zero or more. */
  lemma DebitedStaysPositive(sys: Sys, i: nat, a: AccountId)
    requires LocksOk(sys) && RequestsOk(sys.books) && Running(sys, i) && sys.threads[i].at.Flipped?
    requires a in DebitedAccounts(DebitRows(sys.books, sys.threads[i].job)) && Bears(sys.books, sys.threads[i], a)
    ensures Balance(Commit(sys, i).books, a) >= 0
  {
    hide Exclusive, LogOk, Balance, DebitTotal, RowsTotal, DebitRows, RequestsOk, DebitedAccounts;
    var b, job := sys.books, sys.threads[i].job;
    assert ThreadOk(b, sys.threads[i]);
    AboutPendingEntry(b, job);
    NothingDebited(a);
    var t := b.requests[job.req].subject.tx;
    DecisionBalance(b, job.req, true, t, a);
    DebitsBoundRows(b.txs[t].rows, a);
  }

  lemma NothingDebited(a: AccountId)
    ensures a !in DebitedAccounts([])
  {
  }

  /** An account that another transaction has locked does not lose money when this one commits. */
  lemma LockedKeepsMoney(sys: Sys, i: nat, j: nat, a: AccountId)
    requires LocksOk(sys) && RequestsOk(sys.books)
    requires Running(sys, i) && sys.threads[i].at.Flipped? && j < |sys.threads| && j != i
    requires AccountRow(a) in Holds(sys.books, sys.threads[j])
    ensures Balance(Commit(sys, i).books, a) >= Balance(sys.books, a)
  {
    hide Holds, Keys, LogOk, Balance, DebitedAccounts, RequestsOk, DebitRows, Commit;
    var low, high := if i < j then i else j, if i < j then j else i;
    assert Holds(sys.books, sys.threads[low]) !! Holds(sys.books, sys.threads[high]);
    FlippedHoldsDebited(sys.books, sys.threads[i], a);
    UndebitedKeepsMoney(sys, i, a);
  }

  lemma FlippedHoldsDebited(b: Books, t: Thread, a: AccountId)
    requires t.at.Flipped?
    ensures a in DebitedAccounts(DebitRows(b, t.job)) ==> AccountRow(a) in Holds(b, t)
  {
    hide DebitedAccounts, DebitRows, EntityRow;
  }

  lemma CheckedAreHeld(b: Books, t: Thread, a: AccountId)
    requires ThreadOk(b, t) && a in Checked(b, t)
    ensures AccountRow(a) in Holds(b, t)
  {
    hide Keys, EntityRow, Decidable;
    var keys := Keys(b, t.job);
    if t.at.Checking? {
      assert keys[..t.at.n + 1] == keys[..t.at.n] + [keys[t.at.n]];
    }
  }

  lemma SameTablesSameChecked(b: Books, b': Books, t: Thread)
    requires SameTables(b, b')
    ensures Checked(b', t) == Checked(b, t) && DebitRows(b', t.job) == DebitRows(b, t.job)
  {
    hide Keys, SameTables, DebitRows;
    SameTablesSameRows(b, b', t.job);
  }

  lemma OthersStillBear(sys: Sys, i: nat, j: nat, a: AccountId)
    requires LocksOk(sys) && RequestsOk(sys.books)
    requires Running(sys, i) && sys.threads[i].at.Flipped? && j < |sys.threads| && j != i
    requires Bears(sys.books, sys.threads[j], a)
    ensures Bears(Commit(sys, i).books, sys.threads[j], a)
  {
    hide Exclusive, LogOk, Holds, Balance, DebitTotal, RequestsOk, Commit, Checked, DebitRows;
    CommitKeepsThreads(sys, i);
    SameTablesSameChecked(sys.books, Commit(sys, i).books, sys.threads[j]);
    if a in Checked(sys.books, sys.threads[j]) {
      assert ThreadOk(sys.books, sys.threads[j]);
      CheckedAreHeld(sys.books, sys.threads[j], a);
      LockedKeepsMoney(sys, i, j, a);
    }
  }

  lemma CommitKeepsThreadList(sys: Sys, i: nat)
    requires LocksOk(sys) && Running(sys, i) && sys.threads[i].at.Flipped?
    ensures Commit(sys, i).threads == sys.threads[i := sys.threads[i].(at := Done(Committed))]
  {
    hide DecisionEffect, Exclusive, LogOk;
    assert ThreadOk(sys.books, sys.threads[i]);
  }

  lemma CommitKeepsMoney(sys: Sys, i: nat, a: AccountId, floor: int)
    requires LocksOk(sys) && RequestsOk(sys.books) && MoneyOk(sys, a, floor)
    requires Running(sys, i) && sys.threads[i].at.Flipped?
    ensures MoneyOk(Commit(sys, i), a, floor)
  {
    hide LocksOk, Balance, DebitTotal, RequestsOk, Commit, Checked, DebitRows, DebitedAccounts, SameTables, Bears;
    var sys' := Commit(sys, i);
    CommitKeepsThreadList(sys, i);
    CommitKeepsThreads(sys, i);
    if a in DebitedAccounts(DebitRows(sys.books, sys.threads[i].job)) {
      DebitedStaysPositive(sys, i, a);
    } else {
      UndebitedKeepsMoney(sys, i, a);
    }
    forall j | 0 <= j < |sys'.threads|
      ensures NoWrapFrom(floor, sys'.books, sys'.threads[j].job, a) && Bears(sys'.books, sys'.threads[j], a)
    {
      SameTablesSameChecked(sys.books, sys'.books, sys.threads[j]);
      if j != i {
        OthersStillBear(sys, i, j, a);
      } else {
        DoneBears(sys'.books, sys'.threads[i], a);
      }
      assert NoWrapFrom(floor, sys.books, sys.threads[j].job, a);
    }
  }

  lemma DoneBears(b: Books, t: Thread, a: AccountId)
    requires t.at.Done?
    ensures Bears(b, t, a)
  {
  }

  /** Requests and entries agree on their outcome after a commit, whatever was checked. */
  lemma CommitKeepsRequests(sys: Sys, i: nat)
    requires LocksOk(sys) && RequestsOk(sys.books) && Running(sys, i) && sys.threads[i].at.Flipped?
    ensures RequestsOk(Commit(sys, i).books)
  {
    hide Exclusive, LogOk;
    var b, b', job := sys.books, Commit(sys, i).books, sys.threads[i].job;
    assert ThreadOk(b, sys.threads[i]);
    if b.requests[job.req].subject.LedgerTransaction? {
      DecisionKeepsRequests(b, job.req, job.approve, b.requests[job.req].subject.tx);
    } else {
      forall r | 0 <= r < |b'.requests|
        ensures RequestOk(b', r)
      {
        assert RequestOk(b, r);
      }
    }
  }

  // ----- what may still come in -----

  /** What a transaction has put into account a, or may yet put there. */
  function CeilingLine(tx: Transaction, a: AccountId): int {
    match tx.status
    case Posted => RowsTotal(tx.rows, a, AnyStamp)
    case PendingApproval => if RowsTotal(tx.rows, a, AnyStamp) > 0 then RowsTotal(tx.rows, a, AnyStamp) else 0
    case Rejected => 0
  }

  function CeilingLines(txs: seq<Transaction>, a: AccountId): (xs: seq<int>)
    ensures |xs| == |txs|
  {
    seq(|txs|, t requires 0 <= t < |txs| => CeilingLine(txs[t], a))
  }

  /** The balance account a would have if every pending entry that adds to it were approved. */
  function Ceiling(b: Books, a: AccountId): int {
    Sum(CeilingLines(b.txs, a))
  }

  lemma BalanceUnderCeiling(b: Books, a: AccountId)
    ensures Balance(b, a) <= Ceiling(b, a)
  {
    hide Sum, RowsTotal;
    SumAtMost(TxLines(b.txs, a, AnyStamp, Always), CeilingLines(b.txs, a));
  }

  lemma CommitKeepsCeiling(sys: Sys, i: nat, a: AccountId)
    requires LocksOk(sys) && RequestsOk(sys.books) && Running(sys, i) && sys.threads[i].at.Flipped?
    ensures Ceiling(Commit(sys, i).books, a) <= Ceiling(sys.books, a)
  {
    hide Exclusive, LogOk, Sum, RowsTotal, RequestsOk, DebitRows;
    var b, b', job := sys.books, Commit(sys, i).books, sys.threads[i].job;
    assert ThreadOk(b, sys.threads[i]);
    AboutPendingEntry(b, job);
    SumAtMost(CeilingLines(b'.txs, a), CeilingLines(b.txs, a));
  }

  // ----- whole interleavings -----

  lemma StepKeepsMoney(sys: Sys, i: nat, cutOff: bool, a: AccountId, floor: int)
    requires LocksOk(sys) && RequestsOk(sys.books) && MoneyOk(sys, a, floor)
    ensures var sys' := Step(sys, i, cutOff);
            LocksOk(sys') && RequestsOk(sys'.books) && MoneyOk(sys', a, floor) && Ceiling(sys'.books, a) <= Ceiling(sys.books, a)
  {
    hide LocksOk, RequestsOk, MoneyOk, Commit, AfterClaim, AfterLock, AfterCheck, HeldByOther, Needs, Ceiling;
    StepIsOk(sys, i, cutOff);
    if Running(sys, i) {
      if cutOff {
        CutOffKeepsMoney(sys, i, a, floor);
      } else if Enabled(sys, i) {
        if sys.threads[i].at.Flipped? {
          CommitKeepsMoney(sys, i, a, floor);
          CommitKeepsRequests(sys, i);
          CommitKeepsCeiling(sys, i, a);
        } else {
          NextKeepsMoney(sys, i, a, floor);
        }
      }
    }
  }

  lemma {:induction false} RunSysKeepsMoney(sys: Sys, schedule: seq<Action>, a: AccountId, floor: int)
    requires LocksOk(sys) && RequestsOk(sys.books) && MoneyOk(sys, a, floor)
    ensures var sys' := RunSys(sys, schedule);
            LocksOk(sys') && RequestsOk(sys'.books) && MoneyOk(sys', a, floor) && Ceiling(sys'.books, a) <= Ceiling(sys.books, a)
    decreases |schedule|
  {
    hide LocksOk, RequestsOk, MoneyOk, Step, Ceiling;
    if schedule != [] {
      var last := schedule[|schedule| - 1];
      RunSysKeepsMoney(sys, schedule[..|schedule| - 1], a, floor);
      StepKeepsMoney(RunSys(sys, schedule[..|schedule| - 1]), last.thread, last.cutOff, a, floor);
    }
  }

  function Floor(b: Books, a: AccountId): int {
    if Balance(b, a) < 0 then Balance(b, a) else 0
  }

  lemma StartKeepsMoney(b: Books, jobs: seq<Job>, a: AccountId)
    requires NoWrap(b, jobs, a)
    ensures LocksOk(Start(b, jobs)) && MoneyOk(Start(b, jobs), a, Floor(b, a))
  {
    hide Balance, JobDebit, LocksOk;
    StartIsOk(b, jobs);
  }

  /**
   In every interleaving, whenever an approval commits, an account it debits is left at zero or more, provided no
   comparison of that account with one of the decisions wraps on the books they all start from.
   */
  lemma ConcurrentApprovalsNeverOverdraw(ops: seq<Op>, jobs: seq<Job>, schedule: seq<Action>, i: nat, a: AccountId)
    requires NoWrap(Run(EMPTY_BOOKS, ops), jobs, a)
    requires var sys := RunSys(Start(Run(EMPTY_BOOKS, ops), jobs), schedule);
             && Running(sys, i) && sys.threads[i].at.Flipped?
             && a in DebitedAccounts(DebitRows(sys.books, sys.threads[i].job))
    ensures var sys := RunSys(Start(Run(EMPTY_BOOKS, ops), jobs), schedule);
            Balance(Step(sys, i, false).books, a) >= 0
  {
    hide Run, RunSys, Start, Balance, DebitedAccounts, DebitRows, Commit, NoWrap, LocksOk, RequestsOk, AllBalanced, ReversalsOk,
         AccountsOk, ClosedOk, Bears, Floor;
    var b := Run(EMPTY_BOOKS, ops);
    EveryRunIsSound(ops);
    StartKeepsMoney(b, jobs, a);
    assert Start(b, jobs).books == b by { StartBooks(b, jobs); }
    RunSysKeepsMoney(Start(b, jobs), schedule, a, Floor(b, a));
    DebitedStaysPositive(RunSys(Start(b, jobs), schedule), i, a);
  }

  lemma StartBooks(b: Books, jobs: seq<Job>)
    ensures Start(b, jobs).books == b
  {
  }

  /** So an account that is not overdrawn at the start never is, however large the amounts in the books. */
  lemma ConcurrentAccountsStayPositive(ops: seq<Op>, jobs: seq<Job>, schedule: seq<Action>, a: AccountId)
    requires Balance(Run(EMPTY_BOOKS, ops), a) >= 0
    ensures Balance(RunSys(Start(Run(EMPTY_BOOKS, ops), jobs), schedule).books, a) >= 0
  {
    hide Run, RunSys, Start, Balance, NoWrap, LocksOk, RequestsOk, AllBalanced, ReversalsOk, AccountsOk, ClosedOk, Bears,
         NoWrapFrom;
    var b := Run(EMPTY_BOOKS, ops);
    EveryRunIsSound(ops);
    NotOverdrawnNoWrap(b, jobs, a);
    StartKeepsMoney(b, jobs, a);
    StartBooks(b, jobs);
    RunSysKeepsMoney(Start(b, jobs), schedule, a, Floor(b, a));
  }

  // ----- one after another -----

  /** The committed decisions, in commit order. */
  function LogJobs(sys: Sys): (jobs: seq<Job>)
    ensures |jobs| == |sys.log|
  {
    seq(|sys.log|, k requires 0 <= k < |sys.log| =>
      if sys.log[k] < |sys.threads| then sys.threads[sys.log[k]].job else Job(0, 0, false))
  }

  /** Taking the decisions one after another, and whether every one of them succeeds. */
  function Replay(b: Books, jobs: seq<Job>): (Books, bool) {
    if jobs == [] then (b, true)
    else
      var (front, ok) := Replay(b, jobs[..|jobs| - 1]);
      var last := jobs[|jobs| - 1];
      var (b', r) := Decide(front, last.req, last.unit, last.approve);
      (b', ok && r.Ok?)
  }

  ghost predicate Serial(b: Books, sys: Sys) {
    Replay(b, LogJobs(sys)) == (sys.books, true)
  }

  lemma ReplaySnoc(b: Books, jobs: seq<Job>, job: Job)
    ensures var (front, ok) := Replay(b, jobs);
            var (b', r) := Decide(front, job.req, job.unit, job.approve);
            Replay(b, jobs + [job]) == (b', ok && r.Ok?)
  {
    hide Decide;
    assert (jobs + [job])[..|jobs|] == jobs;
  }

  lemma MoveKeepsLogJobs(sys: Sys, i: nat, at: Progress)
    requires i < |sys.threads|
    ensures LogJobs(Move(sys, i, at)) == LogJobs(sys)
  {
  }

  /** Starting from these books, account a stays within the 64-bit range whatever is decided and in whatever order. */
  ghost predicate AccountInRange(b: Books, jobs: seq<Job>, a: AccountId) {
    NoWrap(b, jobs, a) && Ceiling(b, a) < TWO_63
  }

  predicate DebitedBySome(b: Books, jobs: seq<Job>, a: AccountId) {
    exists k :: 0 <= k < |jobs| && a in DebitedAccounts(DebitRows(b, jobs[k]))
  }

  /** So does every account that one of the decisions debits. */
  ghost predicate InRange(b: Books, jobs: seq<Job>) {
    forall a :: DebitedBySome(b, jobs, a) ==> AccountInRange(b, jobs, a)
  }

  /** Which transactions there are, and the postings each is about, never change. */
  ghost predicate SameJobs(sys: Sys, sys': Sys) {
    && SameTables(sys.books, sys'.books) && |sys'.threads| == |sys.threads|
    && forall i :: 0 <= i < |sys.threads| ==> sys'.threads[i].job == sys.threads[i].job
  }

  lemma StepKeepsJobs(sys: Sys, i: nat, cutOff: bool)
    ensures SameJobs(sys, Step(sys, i, cutOff))
  {
    hide AfterClaim, AfterLock, AfterCheck, HeldByOther, Needs, DecisionEffect, SameTables;
    NothingChanges(sys.books);
    if i < |sys.threads| && sys.threads[i].job.req < |sys.books.requests| {
      DecisionKeepsTables(sys.books, sys.threads[i].job.req, sys.threads[i].job.approve);
    }
  }

  lemma NothingChanges(b: Books)
    ensures SameTables(b, b)
  {
  }

  lemma {:induction false} RunSysKeepsJobs(sys: Sys, schedule: seq<Action>)
    ensures SameJobs(sys, RunSys(sys, schedule))
    decreases |schedule|
  {
    hide Step;
    if schedule != [] {
      var last := schedule[|schedule| - 1];
      RunSysKeepsJobs(sys, schedule[..|schedule| - 1]);
      StepKeepsJobs(RunSys(sys, schedule[..|schedule| - 1]), last.thread, last.cutOff);
    }
  }

  /** A committing transaction that can bear what it has checked passes every comparison again. */
  lemma CommitIsAllowed(sys: Sys, i: nat)
    requires LocksOk(sys) && RequestsOk(sys.books) && Running(sys, i) && sys.threads[i].at.Flipped?
    requires forall a :: a in DebitedAccounts(DebitRows(sys.books, sys.threads[i].job)) ==>
               Bears(sys.books, sys.threads[i], a) && Balance(sys.books, a) < TWO_63
    ensures var job := sys.threads[i].job;
            Decide(sys.books, job.req, job.unit, job.approve) == (Commit(sys, i).books, Ok(()))
  {
    hide Exclusive, LogOk, Balance, DebitTotal, DebitedAccounts, RequestsOk, DebitProblem, EntryProblem, DecisionEffect,
         DebitRows, MayDebit, Bears;
    var b, job := sys.books, sys.threads[i].job;
    assert ThreadOk(b, sys.threads[i]);
    AboutPendingEntry(b, job);
    if b.requests[job.req].subject.LedgerTransaction? && job.approve {
      var rows := DebitRows(b, job);
      forall a | a in DebitedAccounts(rows)
        ensures DebitProblem(b, rows, a).None?
      {
        FlippedHasChecked(b, sys.threads[i], a);
        BearsMayDebit(b, sys.threads[i], a);
        MayDebitIsNoProblem(b, rows, a);
      }
      EntryChecks(b, rows);
    }
  }

  lemma FlippedHasChecked(b: Books, t: Thread, a: AccountId)
    requires t.at.Flipped? && a in DebitedAccounts(DebitRows(b, t.job))
    ensures a in Checked(b, t)
  {
    hide DebitedAccounts, DebitRows;
  }

  lemma BearsMayDebit(b: Books, t: Thread, a: AccountId)
    requires a in Checked(b, t) && Bears(b, t, a) && Balance(b, a) < TWO_63
    ensures MayDebit(b, DebitRows(b, t.job), a)
  {
    hide Balance, DebitTotal, DebitRows, Checked;
    DebitTotalNegative(DebitRows(b, t.job), a);
  }

  /** In range, every account a transaction debits is ready for it when it commits, at any point of any interleaving. */
  lemma ReadyToCommit(b: Books, jobs: seq<Job>, schedule: seq<Action>, i: nat, a: AccountId)
    requires RequestsOk(b) && InRange(b, jobs)
    requires var sys := RunSys(Start(b, jobs), schedule);
             i < |sys.threads| && a in DebitedAccounts(DebitRows(sys.books, sys.threads[i].job))
    ensures var sys := RunSys(Start(b, jobs), schedule); Bears(sys.books, sys.threads[i], a) && Balance(sys.books, a) < TWO_63
  {
    hide RunSys, RequestsOk, Balance, Ceiling, DebitRows, DebitedAccounts, LocksOk, Bears, NoWrap, Floor, NoWrapFrom, SameTables;
    var start, sys := Start(b, jobs), RunSys(Start(b, jobs), schedule);
    RunSysKeepsJobs(start, schedule);
    SameTablesSameRows(b, sys.books, jobs[i]);
    assert DebitedBySome(b, jobs, a);
    StartKeepsMoney(b, jobs, a);
    RunSysKeepsMoney(start, schedule, a, Floor(b, a));
    BalanceUnderCeiling(sys.books, a);
  }

  lemma {:induction false} RunSysStaysSerial(b: Books, jobs: seq<Job>, schedule: seq<Action>)
    requires RequestsOk(b) && InRange(b, jobs)
    ensures var sys := RunSys(Start(b, jobs), schedule); LocksOk(sys) && RequestsOk(sys.books) && Serial(b, sys)
    decreases |schedule|
  {
    hide RequestsOk, InRange, LocksOk, Serial, Step, Bears, Balance, DebitedAccounts, DebitRows;
    if schedule == [] {
      StartIsSerial(b, jobs);
    } else {
      var front, last := schedule[..|schedule| - 1], schedule[|schedule| - 1];
      var sys := RunSys(Start(b, jobs), front);
      RunSysStaysSerial(b, jobs, front);
      if last.thread < |sys.threads| {
        forall a | a in DebitedAccounts(DebitRows(sys.books, sys.threads[last.thread].job))
          ensures Bears(sys.books, sys.threads[last.thread], a) && Balance(sys.books, a) < TWO_63
        {
          ReadyToCommit(b, jobs, front, last.thread, a);
        }
      }
      StepStaysSerial(b, sys, last.thread, last.cutOff);
    }
  }

  lemma StartIsSerial(b: Books, jobs: seq<Job>)
    ensures LocksOk(Start(b, jobs)) && Start(b, jobs).books == b && Serial(b, Start(b, jobs))
  {
    hide LocksOk;
    StartIsOk(b, jobs);
    assert LogJobs(Start(b, jobs)) == [];
  }

  lemma StepStaysSerial(b: Books, sys: Sys, i: nat, cutOff: bool)
    requires LocksOk(sys) && RequestsOk(sys.books) && Serial(b, sys)
    requires i < |sys.threads| ==> forall a :: a in DebitedAccounts(DebitRows(sys.books, sys.threads[i].job)) ==>
               Bears(sys.books, sys.threads[i], a) && Balance(sys.books, a) < TWO_63
    ensures LocksOk(Step(sys, i, cutOff)) && RequestsOk(Step(sys, i, cutOff).books) && Serial(b, Step(sys, i, cutOff))
  {
    hide LocksOk, RequestsOk, AfterClaim, AfterLock, AfterCheck, HeldByOther, Needs, Decide, LogJobs, Replay, DecisionEffect,
         Bears, Balance, DebitedAccounts, DebitRows;
    StepIsOk(sys, i, cutOff);
    if Running(sys, i) {
      var t := sys.threads[i];
      MoveKeepsLogJobs(sys, i, Step(sys, i, cutOff).threads[i].at);
      if !cutOff && Enabled(sys, i) && t.at.Flipped? {
        CommitKeepsRequests(sys, i);
        CommitIsAllowed(sys, i);
        ReplaySnoc(b, LogJobs(sys), t.job);
        assert LogJobs(Commit(sys, i)) == LogJobs(sys) + [t.job] by { CommitLogJobs(sys, i); }
      }
    }
  }

  lemma CommitLogJobs(sys: Sys, i: nat)
    requires LocksOk(sys) && Running(sys, i) && sys.threads[i].at.Flipped?
    ensures LogJobs(Commit(sys, i)) == LogJobs(sys) + [sys.threads[i].job]
  {
    hide Exclusive, LogOk, DecisionEffect;
    assert ThreadOk(sys.books, sys.threads[i]);
  }

  lemma {:induction false} ReplayIsSound(b: Books, jobs: seq<Job>)
    requires Sound(b)
    ensures Sound(Replay(b, jobs).0)
    decreases |jobs|
  {
    hide Sound, Decide;
    if jobs != [] {
      var last := jobs[|jobs| - 1];
      ReplayIsSound(b, jobs[..|jobs| - 1]);
      DecideIsSound(Replay(b, jobs[..|jobs| - 1]).0, last.req, last.unit, last.approve);
    }
  }

  /**
   Every interleaving of any decisions, from any reachable books in which the accounts they debit stay in range, is
   serial: taking the committed decisions one after another in commit order succeeds each time and ends in the same
   books.
   */
  lemma ConcurrentDecisionsAreSerial(ops: seq<Op>, jobs: seq<Job>, schedule: seq<Action>)
    requires InRange(Run(EMPTY_BOOKS, ops), jobs)
    ensures var b := Run(EMPTY_BOOKS, ops);
            var sys := RunSys(Start(b, jobs), schedule);
            Replay(b, LogJobs(sys)) == (sys.books, true) && Sound(sys.books)
  {
    hide Run, LocksOk, RunSys, Start, LogJobs, Replay, InRange, RequestsOk, AllBalanced, ReversalsOk, AccountsOk, ClosedOk;
    EveryRunIsSound(ops);
    RunSysStaysSerial(Run(EMPTY_BOOKS, ops), jobs, schedule);
    ReplayIsSound(Run(EMPTY_BOOKS, ops), LogJobs(RunSys(Start(Run(EMPTY_BOOKS, ops), jobs), schedule)));
  }
}
