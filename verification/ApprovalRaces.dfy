/**
 Why concurrent decisions need the accounts to stay in range. An expense is checked; then another approval credits the
 same account, for which it needs no lock on it, and commits; then the expense commits. Taken in that order one after the
 other, the expense is refused when it had passed only because the comparison wrapped, and when the credit lifts the
 balance past the 64-bit range.
 */
module ApprovalRaces {
  import opened Prelude
  import opened Ledger
  import opened LedgerInvariants
  import opened LedgerTheorems
  import opened Approval
  import opened ApprovalLocking
  import opened ApprovalSafety
  import opened ApprovalAlone

  const SPENDING: seq<Posting> := [Posting(0, -2), Posting(2, 2)]
  const TOP_UP: seq<Posting> := [Posting(0, 20), Posting(2, -20)]

  /** The entry that leaves x on the fund (account 0) and 20 cents on the Scout's account (account 2). */
  function Opening(x: int): seq<Posting>
    requires -TWO_63 < x <= TWO_63 - 20
  {
    [Posting(0, x), Posting(2, 20), Posting(1, -x - 20)]
  }

  /** That entry is posted, and an expense and a credit of the fund wait for approval. */
  function RaceRun(x: int): seq<Op>
    requires -TWO_63 < x <= TWO_63 - 20
  {
    [OpenAccountOp(0, UnitGeneral), OpenAccountOp(0, External), OpenAccountOp(0, ScoutIndividual(7)),
     PostOp(0, "expense", 0, Opening(x))] + [SubmitExpenseOp(0, 0, SPENDING)] + [SubmitExpenseOp(0, 0, TOP_UP)]
  }

  const RACE_ACCOUNTS: seq<Account> :=
    [Account(0, UnitGeneral, true), Account(0, External, true), Account(0, ScoutIndividual(7), true)]

  function RaceBooks(x: int): Books
    requires -TWO_63 < x <= TWO_63 - 20
  {
    Books(RACE_ACCOUNTS,
          [Transaction(0, "expense", Posted, RowsOf(Opening(x)), 0, None, None),
           Transaction(0, "expense", PendingApproval, RowsOf(SPENDING), 0, None, Some(0)),
           Transaction(0, "expense", PendingApproval, RowsOf(TOP_UP), 0, None, Some(1))],
          [Request(LedgerTransaction(1), 0, Pending), Request(LedgerTransaction(2), 0, Pending)], map[], map[], 0, 0)
  }

  const EXPENSE: Job := Job(0, 0, true)
  const CREDIT: Job := Job(1, 0, true)

  // ----- the run that leads there -----

  lemma TwoAccepted(b: Books, cents: Cents)
    requires b.accounts == RACE_ACCOUNTS && cents != 0 && cents != -TWO_63
    ensures InsertProblem(b, 0, [Posting(0, cents), Posting(2, -cents)]).None?
  {
    var ps := [Posting(0, cents), Posting(2, -cents)];
    assert CentsOf(ps) == [cents as int] + [-(cents as int)];
    SumSnoc([cents as int], -(cents as int));
    SumSnoc([], cents as int);
    assert [] + [cents as int] == [cents as int];
    assert ps[..1] == [Posting(0, cents)];
  }

  lemma OpeningSum(x: int)
    requires -TWO_63 < x <= TWO_63 - 20
    ensures Sum(CentsOf(Opening(x))) == 0
  {
    assert CentsOf(Opening(x)) == [x, 20] + [-x - 20] && [x, 20] == [x] + [20] && [] + [x] == [x];
    SumSnoc([x, 20], -x - 20);
    SumSnoc([x], 20);
    SumSnoc([], x);
  }

  lemma OpeningAccepted(b: Books, x: int)
    requires b.accounts == RACE_ACCOUNTS && -TWO_63 < x <= TWO_63 - 20 && x != 0 && x != -20
    ensures InsertProblem(b, 0, Opening(x)).None?
  {
    hide Sum, AccountProblem;
    OpeningSum(x);
  }

  lemma SubmittedEntry(b: Books, cents: Cents)
    requires b.accounts == RACE_ACCOUNTS && cents != 0 && cents != -TWO_63
    ensures var ps := [Posting(0, cents), Posting(2, -cents)];
            Apply(b, SubmitExpenseOp(0, 0, ps)) ==
            AddForApproval(b, NewTransaction(0, "expense", PendingApproval, None, 0, ps))
  {
    hide InsertProblem, RowsOf;
    TwoAccepted(b, cents);
  }

  function OpenedBooks(x: int): Books
    requires -TWO_63 < x <= TWO_63 - 20
  {
    EMPTY_BOOKS.(accounts := RACE_ACCOUNTS,
                 txs := [Transaction(0, "expense", Posted, RowsOf(Opening(x)), 0, None, None)])
  }

  lemma OpenedFirst(x: int)
    requires -TWO_63 < x <= TWO_63 - 20 && x != 0 && x != -20
    ensures Run(EMPTY_BOOKS, RaceRun(x)[..4]) == OpenedBooks(x)
  {
    hide InsertProblem, Run, RowsOf, EnsureAccount;
    var ops := RaceRun(x);
    assert ops[..4] == [ops[0], ops[1], ops[2], ops[3]];
    RunFour(EMPTY_BOOKS, ops[0], ops[1], ops[2], ops[3]);
    ThreeAccounts();
    OpeningAccepted(EMPTY_BOOKS.(accounts := RACE_ACCOUNTS), x);
  }

  lemma RaceRunLeads(x: int)
    requires -TWO_63 < x <= TWO_63 - 20 && x != 0 && x != -20
    ensures Run(EMPTY_BOOKS, RaceRun(x)) == RaceBooks(x)
  {
    hide Apply, Run, RowsOf;
    var ops := RaceRun(x);
    assert ops == (ops[..4] + [SubmitExpenseOp(0, 0, SPENDING)]) + [SubmitExpenseOp(0, 0, TOP_UP)];
    RunSnoc(EMPTY_BOOKS, ops[..4], SubmitExpenseOp(0, 0, SPENDING));
    RunSnoc(EMPTY_BOOKS, ops[..4] + [SubmitExpenseOp(0, 0, SPENDING)], SubmitExpenseOp(0, 0, TOP_UP));
    OpenedFirst(x);
    SubmittedEntry(OpenedBooks(x), -2);
    SubmittedEntry(Apply(OpenedBooks(x), SubmitExpenseOp(0, 0, SPENDING)), 20);
  }

  lemma OpensAccount(b: Books, kind: AccountKind)
    requires forall i :: 0 <= i < |b.accounts| ==> b.accounts[i].kind != kind
    ensures Apply(b, OpenAccountOp(0, kind)) == b.(accounts := b.accounts + [Account(0, kind, true)])
  {
    hide FindAccount;
  }

  lemma ThreeAccounts()
    ensures var b := Apply(Apply(Apply(EMPTY_BOOKS, OpenAccountOp(0, UnitGeneral)), OpenAccountOp(0, External)),
                           OpenAccountOp(0, ScoutIndividual(7)));
            b == EMPTY_BOOKS.(accounts := RACE_ACCOUNTS)
  {
    hide Apply;
    OpensAccount(EMPTY_BOOKS, UnitGeneral);
    var b1 := Apply(EMPTY_BOOKS, OpenAccountOp(0, UnitGeneral));
    OpensAccount(b1, External);
    OpensAccount(Apply(b1, OpenAccountOp(0, External)), ScoutIndividual(7));
  }

  // ----- amounts -----

  lemma RaceAmounts(x: int)
    requires -TWO_63 < x <= TWO_63 - 20
    ensures RowsTotal(RowsOf(TOP_UP), 0, AnyStamp) == 20 && RowsTotal(RowsOf(TOP_UP), 2, AnyStamp) == -20
    ensures RowsTotal(RowsOf(SPENDING), 0, AnyStamp) == -2 && RowsTotal(RowsOf(SPENDING), 2, AnyStamp) == 2
    ensures RowsTotal(RowsOf(Opening(x)), 0, AnyStamp) == x && RowsTotal(RowsOf(Opening(x)), 2, AnyStamp) == 20
  {
    hide Sum;
    SumSingle(RowLines(RowsOf(TOP_UP), 0, AnyStamp), 0);
    SumSingle(RowLines(RowsOf(TOP_UP), 2, AnyStamp), 1);
    SumSingle(RowLines(RowsOf(SPENDING), 0, AnyStamp), 0);
    SumSingle(RowLines(RowsOf(SPENDING), 2, AnyStamp), 1);
    SumSingle(RowLines(RowsOf(Opening(x)), 0, AnyStamp), 0);
    SumSingle(RowLines(RowsOf(Opening(x)), 2, AnyStamp), 1);
  }

  lemma RaceDebits()
    ensures DebitTotal(RowsOf(SPENDING), 0) == -2 && DebitTotal(RowsOf(SPENDING), 2) == 0
    ensures DebitTotal(RowsOf(TOP_UP), 0) == 0 && DebitTotal(RowsOf(TOP_UP), 2) == -20
  {
    hide Sum;
    SumSingle(DebitLines(RowsOf(SPENDING), 0), 0);
    SumZero(DebitLines(RowsOf(SPENDING), 2));
    SumZero(DebitLines(RowsOf(TOP_UP), 0));
    SumSingle(DebitLines(RowsOf(TOP_UP), 2), 1);
  }

  lemma ThreeSum(a: int, b: int, c: int)
    ensures Sum([a, b, c]) == a + b + c
  {
    assert [a, b, c] == [a, b] + [c] && [a, b] == [a] + [b] && [] + [a] == [a];
    SumSnoc([a, b], c);
    SumSnoc([a], b);
    SumSnoc([], a);
  }

  lemma RaceBalances(x: int)
    requires -TWO_63 < x <= TWO_63 - 20
    ensures Balance(RaceBooks(x), 0) == x && Balance(RaceBooks(x), 2) == 20
    ensures Ceiling(RaceBooks(x), 0) == x + 20 && Ceiling(RaceBooks(x), 2) == 22
  {
    hide Sum, RowsTotal, RowsOf;
    RaceAmounts(x);
    var txs := RaceBooks(x).txs;
    assert TxLines(txs, 0, AnyStamp, Always) == [x, 0, 0] && TxLines(txs, 2, AnyStamp, Always) == [20, 0, 0];
    assert CeilingLines(txs, 0) == [x, 0, 20] && CeilingLines(txs, 2) == [20, 2, 0];
    ThreeSum(x, 0, 0);
    ThreeSum(20, 0, 0);
    ThreeSum(x, 0, 20);
    ThreeSum(20, 2, 0);
  }

  lemma OneKey(k: nat)
    ensures SortedKeys({k}) == [k]
  {
    var r := SortedKeys({k});
    assert k in r;
    assert forall i :: 0 <= i < |r| ==> r[i] in r;
  }

  lemma DebitedOnce()
    ensures DebitedAccounts(RowsOf(SPENDING)) == {0} && DebitedAccounts(RowsOf(TOP_UP)) == {2}
  {
    DebitedAccountsMembers(RowsOf(SPENDING), 0);
    assert RowsOf(SPENDING)[0] == Row(0, -2, None);
    DebitedAccountsMembers(RowsOf(TOP_UP), 2);
    assert RowsOf(TOP_UP)[1] == Row(2, -20, None);
  }

  lemma RaceKeys(x: int)
    requires -TWO_63 < x <= TWO_63 - 20
    ensures DebitRows(RaceBooks(x), EXPENSE) == RowsOf(SPENDING) && Keys(RaceBooks(x), EXPENSE) == [0]
    ensures DebitRows(RaceBooks(x), CREDIT) == RowsOf(TOP_UP) && Keys(RaceBooks(x), CREDIT) == [2]
  {
    hide SortedKeys, RowsOf, DebitedAccounts;
    DebitedOnce();
    OneKey(0);
    OneKey(2);
  }

  /** The credit passes its check, and the expense exactly when the fund has two cents or wraps. */
  lemma BothPass(x: int)
    requires -TWO_63 < x <= TWO_63 - 20
    ensures DebitProblem(RaceBooks(x), RowsOf(SPENDING), 0).None? <==> x >= 2 || x - 2 < -TWO_63
    ensures DebitProblem(RaceBooks(x), RowsOf(TOP_UP), 2).None?
  {
    hide Balance, DebitTotal, DebitProblem, RowsOf;
    RaceDebits();
    RaceBalances(x);
    MayDebitIsNoProblem(RaceBooks(x), RowsOf(SPENDING), 0);
    MayDebitIsNoProblem(RaceBooks(x), RowsOf(TOP_UP), 2);
  }

  // ----- the interleaving -----

  /** Both transactions under way on the books they started from. */
  function Race(b: Books, x: Progress, y: Progress): Sys {
    Sys(b, [Thread(EXPENSE, x), Thread(CREDIT, y)], [])
  }

  /** What one of them locks, the other never does. */
  ghost predicate Apart(b: Books) {
    && Keys(b, EXPENSE) == [0] && Keys(b, CREDIT) == [2]
    && EntityRow(b, EXPENSE) == Some(TxRow(1)) && EntityRow(b, CREDIT) == Some(TxRow(2))
  }

  /** And both may go ahead. */
  ghost predicate Clear(b: Books) {
    && Apart(b) && |b.accounts| == 3 && b.accounts[0].open && b.accounts[2].open
    && Decidable(b, 0, 0) && Decidable(b, 1, 0)
    && DebitProblem(b, DebitRows(b, EXPENSE), 0).None? && DebitProblem(b, DebitRows(b, CREDIT), 2).None?
  }

  lemma NeverInTheWay(b: Books, x: Progress, y: Progress, i: nat)
    requires Apart(b) && Running(Race(b, x, y), i)
    ensures Enabled(Race(b, x, y), i)
  {
    hide Keys, EntityRow;
  }

  /** A transaction about one open account that may be debited claims, locks, checks and flips. */
  lemma FourStatements(b: Books, job: Job, k: AccountId)
    requires Keys(b, job) == [k] && Decidable(b, job.req, job.unit)
    requires DebitProblem(b, DebitRows(b, job), k).None?
    ensures NextProgress(b, Thread(job, Begin)) == Locking(0)
    ensures NextProgress(b, Thread(job, Locking(0))) == Checking(0)
    ensures NextProgress(b, Thread(job, Checking(0))) == Locking(1)
    ensures NextProgress(b, Thread(job, Locking(1))) == Flipped
  {
    hide Keys, DebitRows, DebitTotal, Balance;
  }

  lemma RaceMoves(b: Books, x: Progress, y: Progress, i: nat)
    requires Apart(b) && Running(Race(b, x, y), i) && !Race(b, x, y).threads[i].at.Flipped?
    ensures var at := NextProgress(b, Race(b, x, y).threads[i]);
            Step(Race(b, x, y), i, false) == if i == 0 then Race(b, at, y) else Race(b, x, at)
  {
    hide AfterClaim, AfterLock, AfterCheck, Needs, HeldByOther, Enabled, Apart;
    NeverInTheWay(b, x, y, i);
  }

  lemma RunFourSteps(s: Sys, i: nat, rest: seq<Action>)
    ensures var a := Action(i, false);
            RunSys(s, [a, a, a, a] + rest) ==
            RunSys(Step(Step(Step(Step(s, i, false), i, false), i, false), i, false), rest)
  {
    hide Step, RunSys;
    var a := Action(i, false);
    assert [a, a, a, a] + rest == [a] + ([a] + ([a] + ([a] + rest)));
    RunSysCons(s, a, [a] + ([a] + ([a] + rest)));
    var s1 := Step(s, i, false);
    RunSysCons(s1, a, [a] + ([a] + rest));
    var s2 := Step(s1, i, false);
    RunSysCons(s2, a, [a] + rest);
    RunSysCons(Step(s2, i, false), a, rest);
  }

  /** The expense is claimed, checked and flipped; then the credit runs from claim to commit; then the expense commits. */
  const RACE: seq<Action> :=
    [Action(0, false), Action(0, false), Action(0, false), Action(0, false)] +
    ([Action(1, false), Action(1, false), Action(1, false), Action(1, false)] + [Action(1, false), Action(0, false)])

  lemma BothFlip(b: Books, rest: seq<Action>)
    requires Clear(b)
    ensures var a, c := Action(0, false), Action(1, false);
            RunSys(Race(b, Begin, Begin), [a, a, a, a] + ([c, c, c, c] + rest)) == RunSys(Race(b, Flipped, Flipped), rest)
  {
    hide Step, RunSys, NextProgress, Keys, DebitRows, DebitProblem, EntityRow, Decidable;
    var c := Action(1, false);
    RunFourSteps(Race(b, Begin, Begin), 0, [c, c, c, c] + rest);
    RunFourSteps(Race(b, Flipped, Begin), 1, rest);
    FourStatements(b, EXPENSE, 0);
    FourStatements(b, CREDIT, 2);
    RaceMoves(b, Begin, Begin, 0);
    RaceMoves(b, Locking(0), Begin, 0);
    RaceMoves(b, Checking(0), Begin, 0);
    RaceMoves(b, Locking(1), Begin, 0);
    RaceMoves(b, Flipped, Begin, 1);
    RaceMoves(b, Flipped, Locking(0), 1);
    RaceMoves(b, Flipped, Checking(0), 1);
    RaceMoves(b, Flipped, Locking(1), 1);
  }

  lemma BothCommit(b: Books)
    requires Apart(b) && |b.requests| == 2
    ensures RunSys(Race(b, Flipped, Flipped), [Action(1, false), Action(0, false)]) ==
            Sys(DecisionEffect(DecisionEffect(b, 1, true), 0, true),
                [Thread(EXPENSE, Done(Committed)), Thread(CREDIT, Done(Committed))], [1, 0])
  {
    hide RunSys, DecisionEffect, Apart, Keys, EntityRow;
    var s1 := Step(Race(b, Flipped, Flipped), 1, false);
    NeverInTheWay(b, Flipped, Flipped, 1);
    DecisionKeepsTables(b, 1, true);
    assert s1.threads == [Thread(EXPENSE, Flipped), Thread(CREDIT, Done(Committed))];
    assert [Action(1, false), Action(0, false)] == [Action(1, false)] + ([Action(0, false)] + []);
    RunSysCons(Race(b, Flipped, Flipped), Action(1, false), [Action(0, false)] + []);
    RunSysCons(s1, Action(0, false), []);
    var s2 := Step(s1, 0, false);
    assert s2.threads == [Thread(EXPENSE, Done(Committed)), Thread(CREDIT, Done(Committed))];
    assert RunSys(s2, []) == s2 by { NoActions(s2); }
  }

  lemma NoActions(s: Sys)
    ensures RunSys(s, []) == s
  {
  }

  // ----- one after the other -----

  /** With the credit in, the fund has 20 cents more, and the expense passes exactly as that balance allows. */
  lemma ExpenseAfterCredit(x: int)
    requires -TWO_63 < x <= TWO_63 - 20
    ensures var after := DecisionEffect(RaceBooks(x), 1, true);
            Decide(after, 0, 0, true).1.Ok? <==> Fits(x + 20) && x + 20 >= 2
  {
    hide Balance, DebitTotal, DebitProblem, RowsOf, RowsTotal, DebitedAccounts, ApprovalProblem;
    var after := DecisionEffect(RaceBooks(x), 1, true);
    RaceAmounts(x);
    RaceDebits();
    RaceBalances(x);
    DebitedOnce();
    DecisionBalance(RaceBooks(x), 1, true, 2, 0);
    ApprovalChecks(after, 0, 1);
    MayDebitIsNoProblem(after, RowsOf(SPENDING), 0);
  }

  lemma CreditIsAccepted(x: int)
    requires -TWO_63 < x <= TWO_63 - 20
    ensures Decide(RaceBooks(x), 1, 0, true) == (DecisionEffect(RaceBooks(x), 1, true), Ok(()))
  {
    hide DebitProblem, RowsOf, DebitedAccounts, EntryProblem;
    BothPass(x);
    DebitedOnce();
    ApprovalChecks(RaceBooks(x), 1, 2);
  }

  lemma ReplayTwo(b: Books)
    ensures var (b1, r1) := Decide(b, 1, 0, true);
            Replay(b, [CREDIT, EXPENSE]).1 == (r1.Ok? && Decide(b1, 0, 0, true).1.Ok?)
  {
    hide Decide, Replay;
    assert [CREDIT, EXPENSE] == ([] + [CREDIT]) + [EXPENSE];
    assert Replay(b, []) == (b, true) by { ReplayNone(b); }
    ReplaySnoc(b, [], CREDIT);
    ReplaySnoc(b, [] + [CREDIT], EXPENSE);
  }

  lemma ReplayNone(b: Books)
    ensures Replay(b, []) == (b, true)
  {
  }

  lemma RaceIsClear(x: int)
    requires -TWO_63 < x <= TWO_63 - 20 && (x >= 2 || x - 2 < -TWO_63)
    ensures Clear(RaceBooks(x))
  {
    hide Keys, DebitRows, DebitProblem, RowsOf;
    RaceKeys(x);
    BothPass(x);
  }

  /**
   The race from a fund of x cents that passes its check: both commit, the credit first, and in that order the decisions
   all succeed exactly when the balance with the credit still fits and covers the expense.
   */
  lemma RaceOutcome(x: int)
    requires -TWO_63 < x <= TWO_63 - 20 && (x >= 2 || x - 2 < -TWO_63)
    ensures var b, jobs := Run(EMPTY_BOOKS, RaceRun(x)), [EXPENSE, CREDIT];
            var sys := RunSys(Start(b, jobs), RACE);
            && sys.threads == [Thread(EXPENSE, Done(Committed)), Thread(CREDIT, Done(Committed))]
            && LogJobs(sys) == [CREDIT, EXPENSE]
            && (Replay(b, LogJobs(sys)).1 <==> Fits(x + 20) && x + 20 >= 2)
  {
    hide Run, RunSys, Replay, Decide, RaceBooks, DecisionEffect, Clear, RaceRun;
    RaceRunLeads(x);
    var b, jobs := RaceBooks(x), [EXPENSE, CREDIT];
    assert Start(b, jobs) == Race(b, Begin, Begin);
    RaceIsClear(x);
    BothFlip(b, [Action(1, false), Action(0, false)]);
    assert Apart(b) && |b.requests| == 2 by { TwoRequests(x); }
    BothCommit(b);
    assert LogJobs(RunSys(Start(b, jobs), RACE)) == [CREDIT, EXPENSE];
    CreditIsAccepted(x);
    ExpenseAfterCredit(x);
    ReplayTwo(b);
  }

  lemma TwoRequests(x: int)
    requires -TWO_63 < x <= TWO_63 - 20 && Clear(RaceBooks(x))
    ensures Apart(RaceBooks(x)) && |RaceBooks(x).requests| == 2
  {
    hide Keys, DebitRows, DebitProblem, RowsOf, Apart;
  }

  /** Which half of the range condition the fund breaks; the Scout's account keeps both. */
  lemma RaceRange(x: int)
    requires -TWO_63 < x <= TWO_63 - 20 && x != 0 && x != -20
    ensures var b, jobs := Run(EMPTY_BOOKS, RaceRun(x)), [EXPENSE, CREDIT];
            && (NoWrap(b, jobs, 0) <==> x - 2 >= -TWO_63) && (Ceiling(b, 0) < TWO_63 <==> x + 20 < TWO_63)
            && AccountInRange(b, jobs, 2)
  {
    hide Run, RaceRun, RaceBooks, Balance, Ceiling, DebitTotal, DebitRows, RowsOf;
    RaceRunLeads(x);
    RaceDebits();
    RaceBalances(x);
    assert DebitRows(RaceBooks(x), EXPENSE) == RowsOf(SPENDING) && DebitRows(RaceBooks(x), CREDIT) == RowsOf(TOP_UP) by {
      RaceKeys(x);
    }
    var b, jobs := RaceBooks(x), [EXPENSE, CREDIT];
    assert jobs[0] == EXPENSE && jobs[1] == CREDIT;
    assert NoWrap(b, jobs, 0) <==> NoWrapFrom(x, b, EXPENSE, 0) && NoWrapFrom(x, b, CREDIT, 0) by {
      if NoWrap(b, jobs, 0) {
        assert NoWrapFrom(Balance(b, 0), b, jobs[0], 0) && NoWrapFrom(Balance(b, 0), b, jobs[1], 0);
      }
    }
  }

  /** A fund overdrawn to the edge: the expense passes by wrapping, and is refused once the credit is in. */
  lemma WrappedCheckIsNotSerial()
    ensures var x := 1 - TWO_63;
            var b, jobs := Run(EMPTY_BOOKS, RaceRun(x)), [EXPENSE, CREDIT];
            !Replay(b, LogJobs(RunSys(Start(b, jobs), RACE))).1 && !NoWrap(b, jobs, 0) && Ceiling(b, 0) < TWO_63
  {
    hide Run, RunSys, Replay, RaceRun, Start, NoWrap, Ceiling, LogJobs;
    RaceOutcome(1 - TWO_63);
    RaceRange(1 - TWO_63);
  }

  /** A fund that is full: the credit lifts it past 64 bits, and its balance can then not be read for the expense. */
  lemma OverfullCheckIsNotSerial()
    ensures var x := TWO_63 - 20;
            var b, jobs := Run(EMPTY_BOOKS, RaceRun(x)), [EXPENSE, CREDIT];
            !Replay(b, LogJobs(RunSys(Start(b, jobs), RACE))).1 && NoWrap(b, jobs, 0) && Ceiling(b, 0) >= TWO_63
  {
    hide Run, RunSys, Replay, RaceRun, Start, NoWrap, Ceiling, LogJobs;
    RaceOutcome(TWO_63 - 20);
    RaceRange(TWO_63 - 20);
  }
}
