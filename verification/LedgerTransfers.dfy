/**
 What a request for approval comes to, by the balances alone: nothing until it is decided, then exactly what was asked,
 whatever happens in between; and a trip fund transfer takes from the Scout what it gives to the fund.
 */
module LedgerTransfers {
  import opened Prelude
  import opened Ledger
  import opened LedgerInvariants
  import opened LedgerTheorems

  // ----- a request keeps its entry -----

  /** Request r is still about entry t. */
  predicate StillAbout(b: Books, r: RequestId, t: TxId) {
    r < |b.requests| && b.requests[r].subject == LedgerTransaction(t)
  }

  lemma ApplyKeepsSubject(b: Books, r: RequestId, t: TxId, op: Op)
    requires StillAbout(b, r, t)
    ensures StillAbout(Apply(b, op), r, t)
  {
    hide InsertProblem, Balance, LatestClosing, Difference, ApprovalProblem, IsReversed, Release, FindAccount, CanTick;
  }

  lemma {:induction false} RunKeepsSubject(b: Books, r: RequestId, t: TxId, more: seq<Op>)
    requires StillAbout(b, r, t)
    ensures StillAbout(Run(b, more), r, t)
    decreases |more|
  {
    hide Apply, StillAbout;
    if more != [] {
      RunKeepsSubject(b, r, t, more[..|more| - 1]);
      ApplyKeepsSubject(Run(b, more[..|more| - 1]), r, t, more[|more| - 1]);
    }
  }

  lemma SameEntrySameTotal(tx: Transaction, tx': Transaction, a: AccountId)
    requires SameEntry(tx, tx')
    ensures RowsTotal(tx'.rows, a, AnyStamp) == RowsTotal(tx.rows, a, AnyStamp)
  {
    hide RowsTotal;
    RowsTotalIgnoresStamps(tx.rows, tx'.rows, a);
  }

  lemma DecisionMoves(b: Books, r: RequestId, unit: UnitId, approve: bool, t: TxId, a: AccountId)
    requires Sound(b) && StillAbout(b, r, t) && Decide(b, r, unit, approve).1.Ok?
    ensures t < |b.txs|
    ensures Balance(Decide(b, r, unit, approve).0, a) ==
            Balance(b, a) + if approve then RowsTotal(b.txs[t].rows, a, AnyStamp) else 0
  {
    hide AllBalanced, ReversalsOk, AccountsOk, ClosedOk, ApprovalProblem, Balance, RowsTotal, DecisionEffect;
    assert RequestOk(b, r);
    DecisionBalance(b, r, approve, t, a);
  }

  lemma PostingsAreRows(postings: seq<Posting>, a: AccountId)
    ensures RowsTotal(RowsOf(postings), a, AnyStamp) == Sum(PostingLines(postings, a))
  {
    hide Sum;
    assert RowLines(RowsOf(postings), a, AnyStamp) == PostingLines(postings, a);
  }

  // ----- from the request to its decision -----

  /** The books with the request in, and after anything else that happens before it is decided. */
  function Later(ops: seq<Op>, unit: UnitId, kind: string, now: int, postings: seq<Posting>, more: seq<Op>): Books {
    Run(PostPending(Run(EMPTY_BOOKS, ops), unit, kind, now, postings).0, more)
  }

  /**
   An entry put up for approval changes no balance. Whatever happens in between, approving it then changes each balance
   by exactly what was asked on that account, and declining it by nothing.
   */
  lemma DecidedAsAsked(ops: seq<Op>, unit: UnitId, kind: string, now: int, postings: seq<Posting>, more: seq<Op>,
                       unit': UnitId, approve: bool, a: AccountId)
    requires PostPending(Run(EMPTY_BOOKS, ops), unit, kind, now, postings).1.Ok?
    ensures var b, later := Run(EMPTY_BOOKS, ops), Later(ops, unit, kind, now, postings, more);
            var (after, r) := Decide(later, |b.requests|, unit', approve);
            && Balance(PostPending(b, unit, kind, now, postings).0, a) == Balance(b, a)
            && (r.Ok? ==> Balance(after, a) == Balance(later, a) + if approve then Sum(PostingLines(postings, a)) else 0)
            && (r.Err? ==> after == later)
  {
    hide Run, Sound, Balance, RowsTotal, Sum, InsertProblem, Decide, PostingLines, RowsOf;
    var b := Run(EMPTY_BOOKS, ops);
    var asked := PostPending(b, unit, kind, now, postings).0;
    EveryRunIsSound(ops);
    PostPendingIsSound(b, unit, kind, now, postings);
    RunIsSound(asked, more);
    PostMovesExactly(b, unit, kind, now, postings, a);
    var later, req, t := Run(asked, more), |b.requests|, |b.txs|;
    RunKeepsSubject(asked, req, t, more);
    if Decide(later, req, unit', approve).1.Ok? {
      DecisionMoves(later, req, unit', approve, t, a);
      assert SameEntry(asked.txs[t], later.txs[t]);
      SameEntrySameTotal(asked.txs[t], later.txs[t], a);
      PostingsAreRows(postings, a);
    } else {
      RefusedDecision(later, req, unit', approve);
    }
  }

  lemma RefusedDecision(b: Books, req: RequestId, unit: UnitId, approve: bool)
    ensures Decide(b, req, unit, approve).1.Err? ==> Decide(b, req, unit, approve).0 == b
  {
    hide ApprovalProblem, DecisionEffect;
  }

  // ----- transfers -----

  predicate OpenInUnit(b: Books, unit: UnitId, a: AccountId) {
    a < |b.accounts| && b.accounts[a].unit == unit && b.accounts[a].open
  }

  /** A transfer can be requested exactly when it is positive, covered, and between open accounts of the unit. */
  lemma TransferAcceptedIff(b: Books, unit: UnitId, now: int, scout: AccountId, fund: AccountId, cents: Cents)
    ensures RequestTransfer(b, unit, now, scout, fund, cents).1.Ok? <==>
              0 < cents <= Balance(b, scout) < TWO_63 && OpenInUnit(b, unit, scout) && OpenInUnit(b, unit, fund)
  {
    hide Sum, Balance, InsertProblem;
    if cents > 0 {
      var ps := [Posting(scout, -cents), Posting(fund, cents)];
      AcceptedIff(b, unit, ps);
      PairCents(scout, fund, cents);
      assert ps[0].account == scout && ps[1].account == fund;
    }
  }

  lemma PairCents(scout: AccountId, fund: AccountId, cents: Cents)
    requires cents > 0
    ensures Sum(CentsOf([Posting(scout, -cents), Posting(fund, cents)])) == 0
  {
    var ps := [Posting(scout, -cents), Posting(fund, cents)];
    assert CentsOf(ps) == [-(cents as int)] + [cents as int] && [] + [-(cents as int)] == [-(cents as int)];
    SumSnoc([-(cents as int)], cents as int);
    SumSnoc([], -(cents as int));
  }

  lemma PairLines(scout: AccountId, fund: AccountId, cents: Cents, a: AccountId)
    requires cents > 0
    ensures Sum(PostingLines([Posting(scout, -cents), Posting(fund, cents)], a)) ==
            (if a == fund then cents as int else 0) - (if a == scout then cents as int else 0)
  {
    var ps := [Posting(scout, -cents), Posting(fund, cents)];
    var x, y := if a == scout then -(cents as int) else 0, if a == fund then cents as int else 0;
    assert PostingLines(ps, a) == [x] + [y] && [] + [x] == [x];
    SumSnoc([x], y);
    SumSnoc([], x);
  }

  /** What leaves one account arrives on the other; between an account and itself nothing moves. */
  function Moved(scout: AccountId, fund: AccountId, cents: Cents, a: AccountId): int {
    if scout == fund then 0 else if a == fund then cents else if a == scout then -(cents as int) else 0
  }

  /**
   A transfer moves nothing when it is asked for. Approved later, whatever happened in between, it takes exactly its
   amount from the Scout and gives it to the fund, and leaves every other account alone; declined, it moves nothing.
   */
  lemma TransferMovesMoney(ops: seq<Op>, unit: UnitId, now: int, scout: AccountId, fund: AccountId, cents: Cents,
                           more: seq<Op>, unit': UnitId, approve: bool, a: AccountId)
    requires RequestTransfer(Run(EMPTY_BOOKS, ops), unit, now, scout, fund, cents).1.Ok?
    ensures var b := Run(EMPTY_BOOKS, ops);
            var asked := RequestTransfer(b, unit, now, scout, fund, cents).0;
            var later := Run(asked, more);
            var (after, r) := Decide(later, |b.requests|, unit', approve);
            && Balance(asked, a) == Balance(b, a)
            && (r.Ok? ==> Balance(after, a) == Balance(later, a) + if approve then Moved(scout, fund, cents, a) else 0)
            && (r.Err? ==> after == later)
  {
    hide Run, Balance, Sum, Decide, PostingLines, PostPending;
    var ps := [Posting(scout, -cents), Posting(fund, cents)];
    DecidedAsAsked(ops, unit, "trip_fund_transfer", now, ps, more, unit', approve, a);
    PairLines(scout, fund, cents, a);
  }

  /** Which refusal comes first: the amount, then an unreadable balance, then cover, then the accounts. */
  lemma TransferRefusals(b: Books, unit: UnitId, now: int, scout: AccountId, fund: AccountId, cents: Cents)
    ensures var r := RequestTransfer(b, unit, now, scout, fund, cents).1;
            && (r == Err(NotPositive) <==> cents <= 0)
            && (r == Err(AmountOutOfRange) <==> cents > 0 && !Fits(Balance(b, scout)))
            && (r == Err(InsufficientFunds) <==> cents > 0 && Fits(Balance(b, scout)) && Balance(b, scout) < cents)
            && (r == Err(AccountNotFound) || r == Err(AccountClosed) <==>
                  0 < cents <= Balance(b, scout) < TWO_63 && !(OpenInUnit(b, unit, scout) && OpenInUnit(b, unit, fund)))
  {
    hide Sum, Balance, AccountProblem;
    if cents > 0 {
      TransferAcceptedIff(b, unit, now, scout, fund, cents);
      PairCents(scout, fund, cents);
      AccountProblemKind(b.accounts, unit, [Posting(scout, -cents), Posting(fund, cents)]);
    }
  }

  lemma {:induction false} AccountProblemKind(accounts: seq<Account>, unit: UnitId, postings: seq<Posting>)
    ensures AccountProblem(accounts, unit, postings) in {None, Some(AccountNotFound), Some(AccountClosed)}
    decreases |postings|
  {
    if postings != [] {
      AccountProblemKind(accounts, unit, postings[..|postings| - 1]);
    }
  }
}
