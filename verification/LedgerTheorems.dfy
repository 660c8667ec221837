/**
 What the books promise: money is conserved within each unit, a reversal cancels what it reverses exactly,
 a closed trip fund is never spent from again, and an approval never overdraws an account.
 */
module LedgerTheorems {
  import opened Prelude
  import opened Ledger
  import opened LedgerInvariants

  // ----- conservation -----

  /** Account by account, the totals of one unit's accounts, with zero for accounts of other units. */
  function UnitTotals(accounts: seq<Account>, txs: seq<Transaction>, unit: UnitId, p: Period): (xs: seq<int>)
    ensures |xs| == |accounts|
  {
    seq(|accounts|, a requires 0 <= a < |accounts| =>
      if accounts[a].unit == unit then Total(txs, a, AnyStamp, p) else 0)
  }

  /** One entry's part in that. */
  function UnitShares(accounts: seq<Account>, tx: Transaction, unit: UnitId, p: Period): (xs: seq<int>)
    ensures |xs| == |accounts|
  {
    seq(|accounts|, a requires 0 <= a < |accounts| =>
      if accounts[a].unit == unit then TxCents(tx, a, AnyStamp, p) else 0)
  }

  function RowShares(accounts: seq<Account>, rows: seq<Row>, unit: UnitId): (xs: seq<int>)
    ensures |xs| == |accounts|
  {
    seq(|accounts|, a requires 0 <= a < |accounts| =>
      if accounts[a].unit == unit then RowsTotal(rows, a, AnyStamp) else 0)
  }

  function OneRowShares(accounts: seq<Account>, row: Row, unit: UnitId): (xs: seq<int>)
    ensures |xs| == |accounts|
  {
    seq(|accounts|, a requires 0 <= a < |accounts| =>
      if accounts[a].unit == unit then RowCents(row, a, AnyStamp) else 0)
  }

  lemma RowsTotalAppend(rows: seq<Row>, row: Row, a: AccountId, s: Stamps)
    ensures RowsTotal(rows + [row], a, s) == RowsTotal(rows, a, s) + RowCents(row, a, s)
  {
    hide Sum, RowCents;
    assert RowLines(rows + [row], a, s) == RowLines(rows, a, s) + [RowCents(row, a, s)];
    SumSnoc(RowLines(rows, a, s), RowCents(row, a, s));
  }

  lemma OneRowShared(accounts: seq<Account>, row: Row, unit: UnitId)
    requires row.account < |accounts|
    ensures Sum(OneRowShares(accounts, row, unit)) == if accounts[row.account].unit == unit then row.cents else 0
  {
    hide Sum;
    SumSingle(OneRowShares(accounts, row, unit), row.account);
  }

  lemma RowSharesAppend(accounts: seq<Account>, rows: seq<Row>, row: Row, unit: UnitId)
    ensures Sum(RowShares(accounts, rows + [row], unit)) ==
            Sum(RowShares(accounts, rows, unit)) + Sum(OneRowShares(accounts, row, unit))
  {
    hide Sum, RowsTotal, RowCents;
    forall a | 0 <= a < |accounts|
      ensures RowShares(accounts, rows + [row], unit)[a] ==
              RowShares(accounts, rows, unit)[a] + OneRowShares(accounts, row, unit)[a]
    {
      RowsTotalAppend(rows, row, a, AnyStamp);
    }
    SumZip(RowShares(accounts, rows, unit), OneRowShares(accounts, row, unit), RowShares(accounts, rows + [row], unit));
  }

  /** Rows inside one unit share out all their cents there and nothing elsewhere. */
  lemma {:induction false} RowsShared(accounts: seq<Account>, rows: seq<Row>, home: UnitId, unit: UnitId)
    requires forall i :: 0 <= i < |rows| ==> rows[i].account < |accounts| && accounts[rows[i].account].unit == home
    ensures Sum(RowShares(accounts, rows, unit)) == if unit == home then Sum(AllCents(rows)) else 0
    decreases |rows|
  {
    hide OneRowShares, RowShares, AllCents, RowsTotal, Sum;
    if rows == [] {
      NoRowsShared(accounts, unit);
    } else {
      var front, last := rows[..|rows| - 1], rows[|rows| - 1];
      assert front + [last] == rows;
      RowsShared(accounts, front, home, unit);
      RowSharesAppend(accounts, front, last, unit);
      OneRowShared(accounts, last, unit);
      AllCentsAppend(front, last);
    }
  }

  lemma NoRowsShared(accounts: seq<Account>, unit: UnitId)
    ensures Sum(RowShares(accounts, [], unit)) == 0 == Sum(AllCents([]))
  {
    SumZero(RowShares(accounts, [], unit));
  }

  lemma AllCentsAppend(rows: seq<Row>, row: Row)
    ensures Sum(AllCents(rows + [row])) == Sum(AllCents(rows)) + row.cents
  {
    hide Sum;
    assert AllCents(rows + [row]) == AllCents(rows) + [row.cents as int];
    SumSnoc(AllCents(rows), row.cents);
  }

  lemma BalancedSharesNothing(accounts: seq<Account>, tx: Transaction, unit: UnitId, p: Period)
    requires Balanced(accounts, tx)
    ensures Sum(UnitShares(accounts, tx, unit, p)) == 0
  {
    hide Sum, RowsTotal;
    if tx.status == Posted && During(p, tx.occurredAt) {
      assert UnitShares(accounts, tx, unit, p) == RowShares(accounts, tx.rows, unit);
      RowsShared(accounts, tx.rows, tx.unit, unit);
    } else {
      SumZero(UnitShares(accounts, tx, unit, p));
    }
  }

  lemma UnitTotalsAppend(accounts: seq<Account>, txs: seq<Transaction>, tx: Transaction, unit: UnitId, p: Period)
    ensures Sum(UnitTotals(accounts, txs + [tx], unit, p)) ==
            Sum(UnitTotals(accounts, txs, unit, p)) + Sum(UnitShares(accounts, tx, unit, p))
  {
    hide Sum, Total, TxCents;
    forall a | 0 <= a < |accounts|
      ensures UnitTotals(accounts, txs + [tx], unit, p)[a] ==
              UnitTotals(accounts, txs, unit, p)[a] + UnitShares(accounts, tx, unit, p)[a]
    {
      TotalAppend(txs, tx, a, AnyStamp, p);
    }
    SumZip(UnitTotals(accounts, txs, unit, p), UnitShares(accounts, tx, unit, p), UnitTotals(accounts, txs + [tx], unit, p));
  }

  /** Balanced entries leave each unit's accounts, the external one included, at zero in total over any period. */
  lemma {:induction false} BalancedEntriesConserve(accounts: seq<Account>, txs: seq<Transaction>, unit: UnitId, p: Period)
    requires forall t :: 0 <= t < |txs| ==> Balanced(accounts, txs[t])
    ensures Sum(UnitTotals(accounts, txs, unit, p)) == 0
    decreases |txs|
  {
    hide Balanced, UnitShares, UnitTotals, Sum;
    if txs == [] {
      NoEntriesConserve(accounts, unit, p);
    } else {
      var front, last := txs[..|txs| - 1], txs[|txs| - 1];
      assert front + [last] == txs;
      BalancedEntriesConserve(accounts, front, unit, p);
      UnitTotalsAppend(accounts, front, last, unit, p);
      BalancedSharesNothing(accounts, last, unit, p);
    }
  }

  lemma NoEntriesConserve(accounts: seq<Account>, unit: UnitId, p: Period)
    ensures Sum(UnitTotals(accounts, [], unit, p)) == 0
  {
    SumZero(UnitTotals(accounts, [], unit, p));
  }

  /** In every reachable state each unit's balances, now or over any period, add up to zero. */
  lemma MoneyIsConserved(ops: seq<Op>, unit: UnitId, p: Period)
    ensures var b := Run(EMPTY_BOOKS, ops); Sum(UnitTotals(b.accounts, b.txs, unit, p)) == 0
  {
    hide Run, Sum, UnitTotals, Balanced;
    EveryRunIsSound(ops);
    var b := Run(EMPTY_BOOKS, ops);
    BalancedEntriesConserve(b.accounts, b.txs, unit, p);
  }

  // ----- posting -----

  function PostingLines(postings: seq<Posting>, a: AccountId): (xs: seq<int>)
    ensures |xs| == |postings|
  {
    seq(|postings|, i requires 0 <= i < |postings| => if postings[i].account == a then postings[i].cents as int else 0)
  }

  /**
   An entry is accepted exactly when it has two or more postings, none of them zero, that add up to zero without
   wrapping and all fall on open accounts of the unit.
   */
  lemma AcceptedIff(b: Books, unit: UnitId, postings: seq<Posting>)
    ensures InsertProblem(b, unit, postings).None? <==>
            && |postings| >= 2
            && Sum(CentsOf(postings)) == 0
            && forall i :: 0 <= i < |postings| ==>
                 var p := postings[i];
                 p.cents != 0 && p.account < |b.accounts| && b.accounts[p.account].unit == unit && b.accounts[p.account].open
  {
    hide Sum, CentsOf;
  }

  /** An accepted entry changes each balance by exactly its postings there; a refused or pending one by nothing. */
  lemma PostMovesExactly(b: Books, unit: UnitId, kind: string, now: int, postings: seq<Posting>, a: AccountId)
    ensures Balance(Post(b, unit, kind, now, postings).0, a) == Balance(b, a) +
            if InsertProblem(b, unit, postings).None? then Sum(PostingLines(postings, a)) else 0
    ensures Balance(PostPending(b, unit, kind, now, postings).0, a) == Balance(b, a)
  {
    hide Sum, InsertProblem, Total;
    assert RowLines(RowsOf(postings), a, AnyStamp) == PostingLines(postings, a);
    TotalAppend(b.txs, NewTransaction(unit, kind, Posted, None, now, postings), a, AnyStamp, Always);
    TotalAppend(b.txs, NewTransaction(unit, kind, PendingApproval, None, now, postings).(request := Some(|b.requests|)),
                a, AnyStamp, Always);
  }

  /** An accepted entry is recorded as it was asked for, behind all others, stamped by nobody. */
  lemma RecordedAsAsked(b: Books, unit: UnitId, kind: string, now: int, postings: seq<Posting>)
    requires InsertProblem(b, unit, postings).None?
    ensures var (b', r) := Post(b, unit, kind, now, postings);
            && r == Ok(|b.txs|) && |b'.txs| == |b.txs| + 1 && b'.txs[..|b.txs|] == b.txs
            && b'.accounts == b.accounts && b'.requests == b.requests && b'.events == b.events && b'.recs == b.recs
            && var tx := b'.txs[|b.txs|];
               && tx.unit == unit && tx.kind == kind && tx.occurredAt == now && tx.status == Posted
               && tx.reverses.None? && tx.request.None? && |tx.rows| == |postings|
               && forall i :: 0 <= i < |postings| ==>
                    tx.rows[i].account == postings[i].account && tx.rows[i].cents == postings[i].cents
                    && tx.rows[i].cleared.None?
  {
    hide InsertProblem;
  }

  /** A unit's account of a kind is opened the first time it is needed, and is the same one ever after. */
  lemma OpenedOnce(b: Books, unit: UnitId, kind: AccountKind)
    ensures var (b', a) := EnsureAccount(b, unit, kind);
            && a < |b'.accounts| && b'.accounts[a].unit == unit && b'.accounts[a].kind == kind
            && EnsureAccount(b', unit, kind) == (b', a) && b'.txs == b.txs
            && (if exists i :: 0 <= i < |b.accounts| && b.accounts[i].unit == unit && b.accounts[i].kind == kind then b' == b
                else b'.accounts == b.accounts + [Account(unit, kind, true)])
  {
    var (b', a) := EnsureAccount(b, unit, kind);
    assert FindAccount(b'.accounts, unit, kind) <= a by { FirstOfKind(b'.accounts, unit, kind, a); }
    if a == |b.accounts| {
      var n := FindAccount(b'.accounts, unit, kind);
      assert n < |b'.accounts|;
    }
  }

  lemma {:induction false} FirstOfKind(accounts: seq<Account>, unit: UnitId, kind: AccountKind, a: AccountId)
    requires a < |accounts| && accounts[a].unit == unit && accounts[a].kind == kind
    ensures FindAccount(accounts, unit, kind) <= a
    decreases |accounts|
  {
    var n := |accounts| - 1;
    if a < n {
      FirstOfKind(accounts[..n], unit, kind, a);
    }
  }

  /** A trip fund for an event is created open, unless the unit has one for it. */
  lemma TripFundCreatedIff(b: Books, unit: UnitId, event: EventId)
    ensures var (b', r) := CreateTripFund(b, unit, event);
            && (r.Ok? <==> forall i :: 0 <= i < |b.accounts| ==>
                             !(b.accounts[i].unit == unit && b.accounts[i].kind == TripFund(event)))
            && (r.Err? ==> b' == b && r.error == TripFundExists)
            && (r.Ok? ==> b' == b.(accounts := b.accounts + [Account(unit, TripFund(event), true)]) && r.value == |b.accounts|)
  {
    hide FindAccount;
  }

  // ----- corrections -----

  /** An entry that still stands: posted, no reversal, and not reversed. */
  predicate Stands(txs: seq<Transaction>, t: TxId)
    requires t < |txs|
  {
    txs[t].status == Posted && txs[t].reverses.None? && !IsReversed(txs, t)
  }

  function StandingLines(txs: seq<Transaction>, a: AccountId): (xs: seq<int>)
    ensures |xs| == |txs|
  {
    seq(|txs|, t requires 0 <= t < |txs| => if Stands(txs, t) then RowsTotal(txs[t].rows, a, AnyStamp) else 0)
  }

  predicate IsReversedBefore(txs: seq<Transaction>, t: TxId, n: nat)
    requires n <= |txs|
  {
    exists i :: 0 <= i < n && txs[i].reverses == Some(t)
  }

  /** What the reversals before n and the entries they reverse contribute. */
  function PairedLines(txs: seq<Transaction>, a: AccountId, n: nat): (xs: seq<int>)
    requires n <= |txs|
    ensures |xs| == |txs|
  {
    seq(|txs|, t requires 0 <= t < |txs| =>
      if (t < n && txs[t].reverses.Some?) || IsReversedBefore(txs, t, n) then TxCents(txs[t], a, AnyStamp, Always) else 0)
  }

  lemma PairedLinesStep(b: Books, a: AccountId, n: nat)
    requires ReversalsOk(b) && n < |b.txs|
    ensures Sum(PairedLines(b.txs, a, n + 1)) == Sum(PairedLines(b.txs, a, n))
  {
    hide Sum, RowsTotal, Opposite;
    var xs, ys := PairedLines(b.txs, a, n), PairedLines(b.txs, a, n + 1);
    assert ReversalOk(b.txs, n);
    forall t | 0 <= t < |b.txs|
      ensures IsReversedBefore(b.txs, t, n + 1) <==> IsReversedBefore(b.txs, t, n) || b.txs[n].reverses == Some(t)
    {
    }
    if b.txs[n].reverses.None? {
      assert ys == xs;
    } else {
      var o := b.txs[n].reverses.value;
      assert !IsReversedBefore(b.txs, n, n) by { NothingReversesLater(b, n); }
      assert !IsReversedBefore(b.txs, o, n);
      RowsTotalOpposite(b.txs[o].rows, b.txs[n].rows, a);
      var x, y := TxCents(b.txs[o], a, AnyStamp, Always), TxCents(b.txs[n], a, AnyStamp, Always);
      assert x + y == 0;
      assert ys == xs[n := y][o := x];
      SumUpdate(xs, n, y);
      SumUpdate(xs[n := y], o, x);
    }
  }

  lemma NothingReversesLater(b: Books, n: nat)
    requires ReversalsOk(b) && n <= |b.txs|
    ensures forall t :: n <= t ==> !IsReversedBefore(b.txs, t, n)
  {
    forall i | 0 <= i < n
      ensures b.txs[i].reverses.Some? ==> b.txs[i].reverses.value < n
    {
      assert ReversalOk(b.txs, i);
    }
  }

  lemma {:induction false} PairsCancel(b: Books, a: AccountId, n: nat)
    requires ReversalsOk(b) && n <= |b.txs|
    ensures Sum(PairedLines(b.txs, a, n)) == 0
    decreases n
  {
    hide Sum, ReversalsOk, TxCents;
    if n == 0 {
      SumZero(PairedLines(b.txs, a, 0));
    } else {
      PairsCancel(b, a, n - 1);
      PairedLinesStep(b, a, n - 1);
    }
  }

  /** A balance counts only the entries that still stand. */
  lemma ReversalsCancel(b: Books, a: AccountId)
    requires ReversalsOk(b)
    ensures Balance(b, a) == Sum(StandingLines(b.txs, a))
  {
    hide Sum, RowsTotal;
    PairsCancel(b, a, |b.txs|);
    var xs, ys, zs := StandingLines(b.txs, a), PairedLines(b.txs, a, |b.txs|), TxLines(b.txs, a, AnyStamp, Always);
    forall t | 0 <= t < |b.txs|
      ensures zs[t] == xs[t] + ys[t]
    {
      assert IsReversed(b.txs, t) <==> IsReversedBefore(b.txs, t, |b.txs|);
    }
    SumZip(xs, ys, zs);
  }

  /** On every run: at most one reversal each, none of a reversal, and balances as if neither had happened. */
  lemma ReversalsCancelExactly(ops: seq<Op>, a: AccountId)
    ensures var b := Run(EMPTY_BOOKS, ops);
            && Balance(b, a) == Sum(StandingLines(b.txs, a))
            && forall t, u :: 0 <= t < |b.txs| && 0 <= u < |b.txs| && b.txs[t].reverses == Some(u) ==>
                 && b.txs[u].reverses.None? && b.txs[u].status == Posted
                 && forall v :: 0 <= v < |b.txs| && b.txs[v].reverses == Some(u) ==> v == t
  {
    hide Run, Sum, Balance, StandingLines, Balanced, Opposite;
    var b := Run(EMPTY_BOOKS, ops);
    EveryRunIsSound(ops);
    ReversalsCancel(b, a);
    forall t, u | 0 <= t < |b.txs| && 0 <= u < |b.txs| && b.txs[t].reverses == Some(u)
      ensures b.txs[u].reverses.None? && b.txs[u].status == Posted
      ensures forall v :: 0 <= v < |b.txs| && b.txs[v].reverses == Some(u) ==> v == t
    {
      assert ReversalOk(b.txs, t);
    }
  }

  /** An accepted reversal takes back from every account exactly what the entry had put there. */
  lemma ReversalTakesBack(b: Books, unit: UnitId, t: TxId, now: int, a: AccountId)
    requires Sound(b) && Reverse(b, unit, t, now).1.Ok?
    ensures t < |b.txs|
    ensures Balance(Reverse(b, unit, t, now).0, a) == Balance(b, a) - RowsTotal(b.txs[t].rows, a, AnyStamp)
  {
    hide RequestsOk, AccountsOk, ClosedOk, ReversalsOk, InsertProblem, OppositePostings, Opposite, Total, RowsTotal, Balanced;
    var postings := OppositePostings(b.txs[t].rows);
    AcceptedReversalIsExact(b, unit, t);
    RowsTotalOpposite(b.txs[t].rows, RowsOf(postings), a);
    TotalAppend(b.txs, NewTransaction(unit, "reversal", Posted, Some(t), now, postings), a, AnyStamp, Always);
  }

  // ----- trip funds -----

  /** A trip fund can be closed exactly when it is open, the unit's own, and empty. */
  lemma ClosesIff(b: Books, unit: UnitId, a: AccountId)
    ensures CloseTripFund(b, unit, a).1.Ok? <==>
            && a < |b.accounts| && b.accounts[a].unit == unit && b.accounts[a].kind.TripFund? && b.accounts[a].open
            && Balance(b, a) == 0
  {
    hide Balance;
  }

  /** A trip fund closes at zero, stays closed, is never debited again and never falls below zero. */
  lemma ClosedFundKeepsItsMoney(ops: seq<Op>, unit: UnitId, a: AccountId, more: seq<Op>)
    requires CloseTripFund(Run(EMPTY_BOOKS, ops), unit, a).1.Ok?
    ensures var atClosing := CloseTripFund(Run(EMPTY_BOOKS, ops), unit, a).0;
            var later := Run(atClosing, more);
            && Balance(atClosing, a) == 0
            && a < |later.accounts| && !later.accounts[a].open
            && Balance(later, a) >= 0
            && NeverDebits(atClosing, later, a)
  {
    hide Run, Total, Sound, NeverDebits;
    EveryRunIsSound(ops);
    CloseTripFundIsSound(Run(EMPTY_BOOKS, ops), unit, a);
    RunIsSound(CloseTripFund(Run(EMPTY_BOOKS, ops), unit, a).0, more);
  }

  // ----- approvals -----

  lemma WrappedSign(x: int)
    requires -TWO_64 <= x < TWO_63
    ensures Wrap64(x) >= 0 <==> x >= 0 || x < -TWO_63
  {
    if x < -TWO_63 {
      DivUnique(x + TWO_63, TWO_64, -1, x + TWO_63 + TWO_64);
    }
  }

  lemma {:induction false} DebitTotalNegative(rows: seq<Row>, a: AccountId)
    ensures DebitTotal(rows, a) <= 0
  {
    var zeros := seq(|rows|, i => 0);
    SumZero(zeros);
    SumAtMost(DebitLines(rows, a), zeros);
  }

  /**
   What account a must satisfy for an approval that debits it: open, and left at zero or more. Because the
   comparison is made in 64 bits, an account overdrawn beyond the 64-bit range passes as well.
   */
  predicate MayDebit(b: Books, rows: seq<Row>, a: AccountId) {
    && a < |b.accounts| && b.accounts[a].open
    && Fits(Balance(b, a)) && Fits(DebitTotal(rows, a))
    && (Balance(b, a) + DebitTotal(rows, a) >= 0 || Balance(b, a) + DebitTotal(rows, a) < -TWO_63)
  }

  lemma MayDebitIsNoProblem(b: Books, rows: seq<Row>, a: AccountId)
    ensures DebitProblem(b, rows, a).None? <==> MayDebit(b, rows, a)
  {
    hide Balance, DebitTotal, Wrap64;
    DebitTotalNegative(rows, a);
    if Fits(Balance(b, a)) && Fits(DebitTotal(rows, a)) {
      WrappedSign(Balance(b, a) + DebitTotal(rows, a));
    }
  }

  /** An approval goes through exactly when every account the entry debits may be debited. */
  lemma ApprovalGoesThroughIff(b: Books, req: RequestId, unit: UnitId, t: TxId)
    requires Sound(b) && Decidable(b, req, unit) && b.requests[req].subject == LedgerTransaction(t)
    ensures t < |b.txs| && b.txs[t].status == PendingApproval
    ensures Decide(b, req, unit, true).1.Ok? <==>
            forall a :: a in DebitedAccounts(b.txs[t].rows) ==> MayDebit(b, b.txs[t].rows, a)
  {
    hide DebitedAccounts, DebitProblem, MayDebit, ApprovalProblem, DecisionEffect, AllBalanced, ReversalsOk, AccountsOk,
         ClosedOk;
    assert RequestOk(b, req);
    ApprovalChecks(b, req, t);
    forall a
      ensures DebitProblem(b, b.txs[t].rows, a).None? <==> MayDebit(b, b.txs[t].rows, a)
    {
      MayDebitIsNoProblem(b, b.txs[t].rows, a);
    }
  }

  /**
   An approval posts the entry's cents on every account. It leaves an account it debits at zero or more when balance
   and debits together are not below the 64-bit range, as they never are unless the account was overdrawn; and the
   debits alone leave it at zero or more exactly then.
   */
  lemma ApprovalNeverOverdraws(b: Books, req: RequestId, unit: UnitId, t: TxId, a: AccountId)
    requires Sound(b) && Decide(b, req, unit, true).1.Ok? && b.requests[req].subject == LedgerTransaction(t)
    ensures t < |b.txs|
    ensures Balance(Decide(b, req, unit, true).0, a) == Balance(b, a) + RowsTotal(b.txs[t].rows, a, AnyStamp)
    ensures a in DebitedAccounts(b.txs[t].rows) && Balance(b, a) >= 0 ==> Balance(Decide(b, req, unit, true).0, a) >= 0
    ensures a in DebitedAccounts(b.txs[t].rows) ==>
              (Balance(b, a) + DebitTotal(b.txs[t].rows, a) >= 0 <==> Balance(b, a) + DebitTotal(b.txs[t].rows, a) >= -TWO_63)
    ensures a in DebitedAccounts(b.txs[t].rows) && Balance(b, a) + DebitTotal(b.txs[t].rows, a) >= -TWO_63 ==>
              Balance(Decide(b, req, unit, true).0, a) >= 0
  {
    hide DebitedAccounts, DebitTotal, RowsTotal, Balance, AllBalanced, ReversalsOk, AccountsOk, ClosedOk;
    ApprovalGoesThroughIff(b, req, unit, t);
    DecisionBalance(b, req, true, t, a);
    DebitsBoundRows(b.txs[t].rows, a);
  }

  const OVERDRAWING: seq<Posting> := [Posting(0, 1 - TWO_63), Posting(1, TWO_63 - 1)]
  const SMALL_EXPENSE: seq<Posting> := [Posting(0, -2), Posting(1, 2)]

  /** A general fund (account 0) and an external account (account 1), the fund overdrawn, and an expense pending. */
  const OVERDRAWN_RUN: seq<Op> := [
    OpenAccountOp(0, UnitGeneral), OpenAccountOp(0, External),
    PostOp(0, "expense", 0, OVERDRAWING), SubmitExpenseOp(0, 0, SMALL_EXPENSE)]

  function OverdrawnBooks(): Books {
    Books([Account(0, UnitGeneral, true), Account(0, External, true)],
          [Transaction(0, "expense", Posted, RowsOf(OVERDRAWING), 0, None, None),
           Transaction(0, "expense", PendingApproval, RowsOf(SMALL_EXPENSE), 0, None, Some(0))],
          [Request(LedgerTransaction(1), 0, Pending)], map[], map[], 0, 0)
  }

  lemma PairAccepted(b: Books, cents: Cents)
    requires b.accounts == OverdrawnBooks().accounts && cents != 0 && cents != -TWO_63
    ensures InsertProblem(b, 0, [Posting(0, cents), Posting(1, -cents)]).None?
  {
    var ps := [Posting(0, cents), Posting(1, -cents)];
    assert CentsOf(ps) == [cents as int] + [-(cents as int)];
    SumSnoc([cents as int], -(cents as int));
    SumSnoc([], cents as int);
    assert [] + [cents as int] == [cents as int];
    assert ps[..1] == [Posting(0, cents)];
  }

  lemma RunSnoc(b: Books, ops: seq<Op>, op: Op)
    ensures Run(b, ops + [op]) == Apply(Run(b, ops), op)
  {
    hide Apply;
    assert (ops + [op])[..|ops|] == ops;
  }

  lemma {:induction false} RunConcat(b: Books, ops: seq<Op>, more: seq<Op>)
    ensures Run(b, ops + more) == Run(Run(b, ops), more)
    decreases |more|
  {
    hide Apply;
    if more == [] {
      assert ops + more == ops;
    } else {
      var front, last := more[..|more| - 1], more[|more| - 1];
      assert ops + more == (ops + front) + [last] && more == front + [last];
      RunConcat(b, ops, front);
      RunSnoc(b, ops + front, last);
      RunSnoc(Run(b, ops), front, last);
    }
  }

  lemma OverdrawnRunLeads()
    ensures Run(EMPTY_BOOKS, OVERDRAWN_RUN) == OverdrawnBooks()
  {
    hide InsertProblem, Run;
    var ops := OVERDRAWN_RUN;
    var b1 := Apply(EMPTY_BOOKS, ops[0]);
    var b2 := Apply(b1, ops[1]);
    var b3 := Apply(b2, ops[2]);
    assert b2.accounts == OverdrawnBooks().accounts;
    PairAccepted(b2, 1 - TWO_63);
    PairAccepted(b3, -2);
    RunFour(EMPTY_BOOKS, ops[0], ops[1], ops[2], ops[3]);
  }

  lemma RunFour(b: Books, o1: Op, o2: Op, o3: Op, o4: Op)
    ensures Run(b, [o1, o2, o3, o4]) == Apply(Apply(Apply(Apply(b, o1), o2), o3), o4)
  {
    hide Apply;
    RunSnoc(b, [], o1);
    RunSnoc(b, [o1], o2);
    RunSnoc(b, [o1, o2], o3);
    RunSnoc(b, [o1, o2, o3], o4);
    assert [] + [o1] == [o1] && [o1] + [o2] == [o1, o2] && [o1, o2] + [o3] == [o1, o2, o3]
        && [o1, o2, o3] + [o4] == [o1, o2, o3, o4];
  }

  lemma PairTotals(cents: Cents)
    requires cents < 0 && cents != -TWO_63
    ensures var rows := RowsOf([Posting(0, cents), Posting(1, -cents)]);
            && RowsTotal(rows, 0, AnyStamp) == cents == DebitTotal(rows, 0)
            && forall a :: a in DebitedAccounts(rows) ==> a == 0
  {
    hide Sum;
    var rows := RowsOf([Posting(0, cents), Posting(1, -cents)]);
    SumSingle(RowLines(rows, 0, AnyStamp), 0);
    SumSingle(DebitLines(rows, 0), 0);
  }

  /** The 64-bit comparison can fail: this approval is accepted and takes the fund from -2^63+1 to -2^63-1. */
  lemma WrappedComparisonOverdraws()
    ensures var b := Run(EMPTY_BOOKS, OVERDRAWN_RUN);
            && Decide(b, 0, 0, true).1.Ok?
            && Balance(Decide(b, 0, 0, true).0, 0) == -TWO_63 - 1
  {
    hide Run, Total, DebitTotal, RowsTotal, DebitedAccounts, RowsOf, ApprovalProblem, Sound;
    var b := OverdrawnBooks();
    OverdrawnRunLeads();
    EveryRunIsSound(OVERDRAWN_RUN);
    PairTotals(1 - TWO_63);
    PairTotals(-2);
    assert b.txs == ([] + [b.txs[0]]) + [b.txs[1]];
    TotalAppend([], b.txs[0], 0, AnyStamp, Always);
    TotalAppend([] + [b.txs[0]], b.txs[1], 0, AnyStamp, Always);
    assert Total([], 0, AnyStamp, Always) == 0 by { NoEntries(0); }
    ApprovalGoesThroughIff(b, 0, 0, 1);
    DecisionBalance(b, 0, true, 1, 0);
  }

  lemma NoEntries(a: AccountId)
    ensures Total([], a, AnyStamp, Always) == 0
  {
  }

  /** However often a request is put to a decision, it is decided at most once. */
  lemma DecidedAtMostOnce(b: Books, req: RequestId, unit: UnitId, approve: bool, more: seq<Op>, unit': UnitId, again: bool)
    requires Decide(b, req, unit, approve).1.Ok?
    ensures Decide(Run(Decide(b, req, unit, approve).0, more), req, unit', again).1 == Err(RequestNotFound)
  {
    hide ApprovalProblem, Run;
    DecidedStaysDecided(Decide(b, req, unit, approve).0, req, more);
  }

  lemma {:induction false} DecidedStaysDecided(b: Books, req: RequestId, more: seq<Op>)
    requires req < |b.requests| && b.requests[req].status != Pending
    ensures var b' := Run(b, more); req < |b'.requests| && b'.requests[req] == b.requests[req]
    decreases |more|
  {
    hide Apply;
    if more != [] {
      DecidedStaysDecided(b, req, more[..|more| - 1]);
      DecidedStays(Run(b, more[..|more| - 1]), req, more[|more| - 1]);
    }
  }

  lemma DecidedStays(b: Books, req: RequestId, op: Op)
    requires req < |b.requests| && b.requests[req].status != Pending
    ensures var b' := Apply(b, op); req < |b'.requests| && b'.requests[req] == b.requests[req]
  {
    hide InsertProblem, Balance, LatestClosing, Difference, ApprovalProblem, IsReversed, Release;
  }

  // ----- when a reversal is accepted -----

  function SmallestAmounts(rows: seq<Row>): nat {
    if rows == [] then 0 else SmallestAmounts(rows[..|rows| - 1]) + if rows[|rows| - 1].cents == -TWO_63 then 1 else 0
  }

  /** Each amount that has no 64-bit opposite throws the exact sum off by 2^64, and the 64-bit sum not at all. */
  lemma {:induction false} OppositeSum(rows: seq<Row>)
    ensures Sum(CentsOf(OppositePostings(rows))) == -Sum(AllCents(rows)) - TWO_64 * SmallestAmounts(rows)
    decreases |rows|
  {
    if rows != [] {
      var front, last := rows[..|rows| - 1], rows[|rows| - 1];
      assert front + [last] == rows;
      OppositeSum(front);
      AllCentsAppend(front, last);
      assert CentsOf(OppositePostings(rows)) == CentsOf(OppositePostings(front)) + [Negate64(last.cents) as int];
      SumSnoc(CentsOf(OppositePostings(front)), Negate64(last.cents));
    }
  }

  lemma WrapMultiple(n: nat)
    ensures Wrap64(-(TWO_64 * n)) == 0
  {
    DivUnique(TWO_63 - TWO_64 * n, TWO_64, -(n as int), TWO_63);
  }

  lemma {:induction false} SmallestAmountsZero(rows: seq<Row>)
    ensures SmallestAmounts(rows) == 0 <==> forall i :: 0 <= i < |rows| ==> rows[i].cents != -TWO_63
  {
    if rows != [] {
      SmallestAmountsZero(rows[..|rows| - 1]);
    }
  }

  /**
   A posted entry that is no reversal and was never reversed can be reversed exactly when all its accounts are
   open and no amount is the smallest 64-bit value, which has no opposite. In that last case the application's
   own check passes and it is the database that refuses the commit.
   */
  lemma ReversalAcceptedIff(b: Books, t: TxId, now: int)
    requires Sound(b) && t < |b.txs| && b.txs[t].status == Posted && b.txs[t].reverses.None? && !IsReversed(b.txs, t)
    ensures var r := Reverse(b, b.txs[t].unit, t, now).1;
            var allOpen := forall i :: 0 <= i < |b.txs[t].rows| ==> b.accounts[b.txs[t].rows[i].account].open;
            var negatable := forall i :: 0 <= i < |b.txs[t].rows| ==> b.txs[t].rows[i].cents != -TWO_63;
            && (r.Ok? <==> allOpen && negatable)
            && (allOpen && !negatable ==> r == Err(RejectedAtCommit))
  {
    hide Sum, IsReversed, ReversalsOk, RequestsOk, AccountsOk, ClosedOk, SmallestAmounts;
    assert Balanced(b.accounts, b.txs[t]);
    var rows := b.txs[t].rows;
    var postings := OppositePostings(rows);
    OppositeSum(rows);
    WrapMultiple(SmallestAmounts(rows));
    SmallestAmountsZero(rows);
    assert forall i :: 0 <= i < |rows| ==> postings[i].account == rows[i].account;
    assert Wrap64(Sum(CentsOf(postings))) == 0;
    assert !HasZero(postings);
  }
}
