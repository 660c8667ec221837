/**
 The ledger's operations as they run: tables updated in place, one SQL transaction at a time. Each method is
 proved to make exactly the change its specification in module Ledger describes.
 */
module LedgerStore {
  import opened Prelude
  import opened Ledger
  import opened LedgerInvariants
  import opened LedgerTheorems
  import opened Reports

  // ----- the loops of insertTransaction -----

  /** The accounts of a list of postings, each once, in the order they first occur. */
  function DistinctAccounts(postings: seq<Posting>): (ids: seq<AccountId>)
    ensures forall i :: 0 <= i < |postings| ==> postings[i].account in ids
  {
    if postings == [] then []
    else
      var front, last := DistinctAccounts(postings[..|postings| - 1]), postings[|postings| - 1];
      assert forall i :: 0 <= i < |postings| - 1 ==> postings[i] == postings[..|postings| - 1][i];
      if last.account in front then front else front + [last.account]
  }

  function IdProblem(accounts: seq<Account>, unit: UnitId, a: AccountId): Option<Error> {
    if a >= |accounts| || accounts[a].unit != unit then Some(AccountNotFound)
    else if !accounts[a].open then Some(AccountClosed)
    else None
  }

  function FirstIdProblem(accounts: seq<Account>, unit: UnitId, ids: seq<AccountId>): (e: Option<Error>)
    ensures e.None? <==> forall i :: 0 <= i < |ids| ==> IdProblem(accounts, unit, ids[i]).None?
  {
    if ids == [] then None
    else
      var front := FirstIdProblem(accounts, unit, ids[..|ids| - 1]);
      if front.Some? then front else IdProblem(accounts, unit, ids[|ids| - 1])
  }

  /** Checking each account once, where it first occurs, finds the same first problem. */
  lemma {:induction false} DistinctProblem(accounts: seq<Account>, unit: UnitId, postings: seq<Posting>)
    ensures FirstIdProblem(accounts, unit, DistinctAccounts(postings)) == AccountProblem(accounts, unit, postings)
    decreases |postings|
  {
    hide IdProblem;
    if postings != [] {
      var front, last := postings[..|postings| - 1], postings[|postings| - 1];
      DistinctProblem(accounts, unit, front);
      var ids := DistinctAccounts(front);
      if last.account !in ids {
        assert (ids + [last.account])[..|ids|] == ids;
        LastProblem(accounts, unit, postings);
      } else {
        LastProblem(accounts, unit, postings);
      }
    }
  }

  lemma LastProblem(accounts: seq<Account>, unit: UnitId, postings: seq<Posting>)
    requires postings != []
    ensures var front := AccountProblem(accounts, unit, postings[..|postings| - 1]);
            AccountProblem(accounts, unit, postings) ==
            if front.Some? then front else IdProblem(accounts, unit, postings[|postings| - 1].account)
  {
  }

  /** What the first loop finds: a zero amount, a sum that is not zero in 64 bits, or the accounts involved. */
  method CheckPostings(postings: seq<Posting>) returns (problem: Option<Error>, ids: seq<AccountId>)
    ensures problem == if |postings| < 2 then Some(TooFewPostings)
                       else if HasZero(postings) then Some(ZeroAmount)
                       else if Wrap64(Sum(CentsOf(postings))) != 0 then Some(Unbalanced)
                       else None
    ensures problem.None? ==> ids == DistinctAccounts(postings)
  {
    hide Sum, CentsOf, Wrap64, DistinctAccounts;
    ids := [];
    if |postings| < 2 {
      return Some(TooFewPostings), ids;
    }
    var sum: Cents := 0;
    var seen := {};
    NoPostings();
    for i := 0 to |postings|
      invariant forall k :: 0 <= k < i ==> postings[k].cents != 0
      invariant sum == Wrap64(Sum(CentsOf(postings[..i])))
      invariant ids == DistinctAccounts(postings[..i])
      invariant forall a :: a in seen <==> a in ids
    {
      var p := postings[i];
      if p.cents == 0 {
        return Some(ZeroAmount), ids;
      }
      PostingsStep(postings, i);
      WrapAdds(Sum(CentsOf(postings[..i])), p.cents);
      sum := Wrap64(sum + p.cents);
      if p.account !in seen {
        ids := ids + [p.account];
        seen := seen + {p.account};
      }
    }
    assert postings[..|postings|] == postings;
    return if sum != 0 then Some(Unbalanced) else None, ids;
  }

  lemma NoPostings()
    ensures Wrap64(Sum(CentsOf([]))) == 0 && DistinctAccounts([]) == []
  {
    assert CentsOf([]) == [];
  }

  lemma PostingsStep(postings: seq<Posting>, i: nat)
    requires i < |postings|
    ensures Sum(CentsOf(postings[..i + 1])) == Sum(CentsOf(postings[..i])) + postings[i].cents
    ensures var ids := DistinctAccounts(postings[..i]);
            DistinctAccounts(postings[..i + 1]) == if postings[i].account in ids then ids else ids + [postings[i].account]
  {
    hide Sum, CentsOf, DistinctAccounts;
    PrefixSnoc(postings, i);
    PostingsAppend(postings[..i], postings[i]);
  }

  lemma PostingsAppend(postings: seq<Posting>, p: Posting)
    ensures Sum(CentsOf(postings + [p])) == Sum(CentsOf(postings)) + p.cents
    ensures var ids := DistinctAccounts(postings);
            DistinctAccounts(postings + [p]) == if p.account in ids then ids else ids + [p.account]
  {
    hide Sum;
    assert (postings + [p])[..|postings|] == postings;
    assert CentsOf(postings + [p]) == CentsOf(postings) + [p.cents as int];
    SumSnoc(CentsOf(postings), p.cents);
  }

  // ----- the loops of Decide -----

  /** What each account is debited, as the rows are read. */
  ghost predicate DebitsOf(debits: map<AccountId, int>, rows: seq<Row>) {
    && debits.Keys == DebitedAccounts(rows)
    && forall a :: a in debits ==> debits[a] == DebitTotal(rows, a)
  }

  method ReadDebits(rows: seq<Row>) returns (debits: map<AccountId, int>)
    ensures DebitsOf(debits, rows)
  {
    hide DebitsOf;
    debits := map[];
    NoDebits();
    for i := 0 to |rows|
      invariant DebitsOf(debits, rows[..i])
    {
      DebitsStep(debits, rows[..i], rows[i]);
      PrefixSnoc(rows, i);
      if rows[i].cents < 0 {
        var a := rows[i].account;
        debits := debits[a := (if a in debits then debits[a] else 0) + rows[i].cents];
      }
    }
    assert rows[..|rows|] == rows;
  }

  lemma NoDebits()
    ensures DebitsOf(map[], [])
  {
  }

  lemma DebitTotalAppend(rows: seq<Row>, row: Row, a: AccountId)
    ensures DebitTotal(rows + [row], a) == DebitTotal(rows, a) + if row.account == a && row.cents < 0 then row.cents else 0
  {
    hide Sum;
    var x: int := if row.account == a && row.cents < 0 then row.cents else 0;
    assert DebitLines(rows + [row], a) == DebitLines(rows, a) + [x];
    SumSnoc(DebitLines(rows, a), x);
  }

  lemma UndebitedTotal(rows: seq<Row>, a: AccountId)
    requires a !in DebitedAccounts(rows)
    ensures DebitTotal(rows, a) == 0
  {
    DebitedAccountsMembers(rows, a);
    SumZero(DebitLines(rows, a));
  }

  lemma DebitedAccountsAppend(rows: seq<Row>, row: Row)
    ensures DebitedAccounts(rows + [row]) == DebitedAccounts(rows) + if row.cents < 0 then {row.account} else {}
  {
    forall a
      ensures a in DebitedAccounts(rows + [row]) <==> a in DebitedAccounts(rows) || (row.cents < 0 && a == row.account)
    {
      DebitedAccountsMembers(rows, a);
      DebitedAccountsMembers(rows + [row], a);
      assert (rows + [row])[|rows|] == row;
      forall i | 0 <= i < |rows|
        ensures (rows + [row])[i] == rows[i]
      {
      }
    }
  }

  lemma DebitsStep(debits: map<AccountId, int>, rows: seq<Row>, row: Row)
    requires DebitsOf(debits, rows)
    ensures row.cents >= 0 ==> DebitsOf(debits, rows + [row])
    ensures row.cents < 0 ==>
              var a := row.account;
              DebitsOf(debits[a := (if a in debits then debits[a] else 0) + row.cents], rows + [row])
  {
    hide DebitTotal, DebitedAccounts;
    DebitedAccountsAppend(rows, row);
    forall a
      ensures DebitTotal(rows + [row], a) == DebitTotal(rows, a) + if row.account == a && row.cents < 0 then row.cents else 0
      ensures a !in DebitedAccounts(rows) ==> DebitTotal(rows, a) == 0
    {
      DebitTotalAppend(rows, row, a);
      if a !in DebitedAccounts(rows) {
        UndebitedTotal(rows, a);
      }
    }
  }

  /** The accounts to debit, checked one by one in ascending order. */
  method CheckDebits(b: Books, rows: seq<Row>) returns (problem: Option<Error>)
    ensures problem == EntryProblem(b, rows)
  {
    hide DebitTotal, DebitedAccounts, Balance, SortedKeys, Wrap64, Fits;
    var debits := ReadDebits(rows);
    var keys := SortedKeys(debits.Keys);
    for i := 0 to |keys|
      invariant forall k :: 0 <= k < i ==> Fits(DebitTotal(rows, keys[k]))
    {
      assert keys[i] in keys;
      if !Fits(debits[keys[i]]) {
        return Some(AmountOutOfRange);
      }
    }
    for i := 0 to |keys|
      invariant DebitsProblem(b, rows, keys[..i]).None?
    {
      var a := keys[i];
      assert a in keys;
      DebitsProblemStep(b, rows, keys, i);
      if a >= |b.accounts| {
        DebitsProblemStops(b, rows, keys, i + 1);
        return Some(AccountNotFound);
      }
      if !b.accounts[a].open {
        DebitsProblemStops(b, rows, keys, i + 1);
        return Some(AccountClosed);
      }
      var balance := Balance(b, a);
      if !Fits(balance) {
        DebitsProblemStops(b, rows, keys, i + 1);
        return Some(AmountOutOfRange);
      }
      if Wrap64(balance + debits[a]) < 0 {
        DebitsProblemStops(b, rows, keys, i + 1);
        return Some(InsufficientFunds);
      }
    }
    assert keys[..|keys|] == keys;
    return None;
  }

  // ----- the database -----

  class Store {
    var accounts: seq<Account>
    var txs: seq<Transaction>
    var requests: seq<Request>
    var events: map<EventId, EventStatus>
    var recs: Records
    var nextRec: RecId
    var signOffs: nat

    constructor ()
      ensures State() == EMPTY_BOOKS
    {
      accounts, txs, requests, events, recs, nextRec, signOffs := [], [], [], map[], map[], 0, 0;
    }

    function State(): Books
      reads this
    {
      Books(accounts, txs, requests, events, recs, nextRec, signOffs)
    }

    /** Reads back the status of each account of the unit and reports the first that cannot be posted to. */
    method CheckAccounts(unit: UnitId, ids: seq<AccountId>) returns (problem: Option<Error>)
      ensures problem == FirstIdProblem(accounts, unit, ids)
    {
      var statusById := map a | a in ids && a < |accounts| && accounts[a].unit == unit :: accounts[a].open;
      for i := 0 to |ids|
        invariant FirstIdProblem(accounts, unit, ids[..i]).None?
      {
        FirstIdProblemStep(accounts, unit, ids, i);
        if ids[i] !in statusById {
          FirstIdProblemStops(accounts, unit, ids, i + 1);
          return Some(AccountNotFound);
        }
        if !statusById[ids[i]] {
          FirstIdProblemStops(accounts, unit, ids, i + 1);
          return Some(AccountClosed);
        }
      }
      assert ids[..|ids|] == ids;
      return None;
    }

    /** Writes a transaction with its postings, or nothing at all. */
    method InsertTransaction(unit: UnitId, kind: string, status: TxStatus, reverses: Option<TxId>, now: int,
                             postings: seq<Posting>) returns (r: Result<TxId, Error>)
      modifies this`txs
      ensures match InsertProblem(old(State()), unit, postings)
              case Some(e) => r == Err(e) && State() == old(State())
              case None =>
                && r == Ok(|old(txs)|)
                && State() == AddTransaction(old(State()), NewTransaction(unit, kind, status, reverses, now, postings))
    {
      hide Sum, CentsOf, Wrap64, DistinctAccounts, AccountProblem, FirstIdProblem;
      var problem, ids := CheckPostings(postings);
      if problem.Some? {
        return Err(problem.value);
      }
      DistinctProblem(accounts, unit, postings);
      problem := CheckAccounts(unit, ids);
      if problem.Some? {
        return Err(problem.value);
      }
      var rows: seq<Row> := [];
      for i := 0 to |postings|
        invariant txs == old(txs)
        invariant rows == RowsOf(postings[..i])
      {
        RowsOfStep(postings, i);
        rows := rows + [Row(postings[i].account, postings[i].cents, None)];
      }
      assert postings[..|postings|] == postings;
      // The database's own balance check runs when the transaction commits.
      CentsOfRows(postings);
      if Sum(AllCents(rows)) != 0 {
        return Err(RejectedAtCommit);
      }
      r := Ok(|txs|);
      txs := txs + [Transaction(unit, kind, status, rows, now, reverses, None)];
    }

    method PostTransaction(unit: UnitId, kind: string, now: int, postings: seq<Posting>) returns (r: Result<TxId, Error>)
      modifies this`txs
      ensures (State(), r) == Post(old(State()), unit, kind, now, postings)
    {
      hide InsertProblem;
      r := InsertTransaction(unit, kind, Posted, None, now, postings);
    }

    /** Creates the pending request that will decide a transaction or an event. */
    method SubmitRequest(subject: Subject, unit: UnitId) returns (id: RequestId)
      modifies this`requests
      ensures id == |old(requests)| && requests == old(requests) + [Request(subject, unit, Pending)]
    {
      id := |requests|;
      requests := requests + [Request(subject, unit, Pending)];
    }

    method SubmitForApproval(unit: UnitId, kind: string, now: int, postings: seq<Posting>) returns (r: Result<TxId, Error>)
      modifies this`txs, this`requests
      ensures (State(), r) == PostPending(old(State()), unit, kind, now, postings)
    {
      hide InsertProblem;
      r := InsertTransaction(unit, kind, PendingApproval, None, now, postings);
      if r.Ok? {
        var req := SubmitRequest(LedgerTransaction(r.value), unit);
        txs := txs[r.value := txs[r.value].(request := Some(req))];
        assert txs == old(txs) + [NewTransaction(unit, kind, PendingApproval, None, now, postings).(request := Some(req))];
      }
    }

    method SubmitExpenseForApproval(unit: UnitId, now: int, postings: seq<Posting>) returns (r: Result<TxId, Error>)
      modifies this`txs, this`requests
      ensures (State(), r) == SubmitExpense(old(State()), unit, now, postings)
    {
      r := SubmitForApproval(unit, "expense", now, postings);
    }

    method RequestTripFundTransfer(unit: UnitId, now: int, scout: AccountId, fund: AccountId, cents: Cents)
      returns (r: Result<TxId, Error>)
      modifies this`txs, this`requests
      ensures (State(), r) == RequestTransfer(old(State()), unit, now, scout, fund, cents)
    {
      hide PostPending, Balance;
      if cents <= 0 {
        return Err(NotPositive);
      }
      var balance := Balance(State(), scout);
      if !Fits(balance) {
        return Err(AmountOutOfRange);
      }
      if balance < cents {
        return Err(InsufficientFunds);
      }
      r := SubmitForApproval(unit, "trip_fund_transfer", now, [Posting(scout, -cents), Posting(fund, cents)]);
    }

    /**
     Decides a pending request in one transaction: claim the request, re-check every account an approval would
     debit, flip what the request is about. Any problem rolls the claim back.
     */
    method Decide(req: RequestId, unit: UnitId, approve: bool) returns (r: Result<(), Error>)
      modifies this`requests, this`events, this`txs
      ensures (State(), r) == Ledger.Decide(old(State()), req, unit, approve)
    {
      hide EntryProblem;
      if req >= |requests| || requests[req].unit != unit || requests[req].status != Pending {
        return Err(RequestNotFound);
      }
      var before := requests;
      requests := requests[req := requests[req].(status := if approve then Approved else Declined)];
      match requests[req].subject {
        case CalendarEvent(e) =>
          if e in events {
            events := events[e := if approve then Published else NotPublished];
          }
        case LedgerTransaction(t) =>
          if t < |txs| {
            if approve {
              var problem := CheckDebits(State(), txs[t].rows);
              EntryProblemOfTables(old(State()), State(), txs[t].rows);
              if problem.Some? {
                requests := before;
                return Err(problem.value);
              }
              txs := txs[t := txs[t].(status := Posted)];
            } else {
              txs := txs[t := txs[t].(status := Rejected)];
            }
          }
        case OtherSubject(_) =>
      }
      return Ok(());
    }

    /** Posts the exact opposite of a posted transaction and links the two. */
    method ReverseTransaction(unit: UnitId, t: TxId, now: int) returns (r: Result<TxId, Error>)
      modifies this`txs
      ensures (State(), r) == Reverse(old(State()), unit, t, now)
    {
      hide InsertProblem, Negate64;
      if t >= |txs| || txs[t].unit != unit {
        return Err(AccountNotFound);
      }
      if txs[t].status != Posted || txs[t].reverses.Some? {
        return Err(NotReversible);
      }
      if IsReversed(txs, t) {
        return Err(NotReversible);
      }
      var rows, reversal: seq<Posting> := txs[t].rows, [];
      for i := 0 to |rows|
        invariant txs == old(txs)
        invariant reversal == OppositePostings(rows[..i])
      {
        OppositePostingsStep(rows, i);
        reversal := reversal + [Posting(rows[i].account, Negate64(rows[i].cents))];
      }
      assert rows[..|rows|] == rows;
      r := InsertTransaction(unit, "reversal", Posted, Some(t), now, reversal);
    }

    /** The unit's account of the given kind, created on first use. */
    method EnsureAccount(unit: UnitId, kind: AccountKind) returns (a: AccountId)
      modifies this`accounts
      ensures (State(), a) == Ledger.EnsureAccount(old(State()), unit, kind)
    {
      a := FindAccount(accounts, unit, kind);
      if a == |accounts| {
        accounts := accounts + [Account(unit, kind, true)];
      }
    }

    method CreateTripFund(unit: UnitId, event: EventId) returns (r: Result<AccountId, Error>)
      modifies this`accounts
      ensures (State(), r) == Ledger.CreateTripFund(old(State()), unit, event)
    {
      if FindAccount(accounts, unit, TripFund(event)) < |accounts| {
        return Err(TripFundExists);
      }
      var a := EnsureAccount(unit, TripFund(event));
      return Ok(a);
    }

    method CloseTripFund(unit: UnitId, a: AccountId) returns (r: Result<(), Error>)
      modifies this`accounts
      ensures (State(), r) == Ledger.CloseTripFund(old(State()), unit, a)
    {
      hide Balance;
      if a >= |accounts| || accounts[a].unit != unit {
        return Err(AccountNotFound);
      }
      if !accounts[a].kind.TripFund? {
        return Err(NotATripFund);
      }
      if !accounts[a].open {
        return Err(AccountClosed);
      }
      var balance := Balance(State(), a);
      if !Fits(balance) {
        return Err(AmountOutOfRange);
      }
      if balance != 0 {
        return Err(BalanceNotZero);
      }
      accounts := accounts[a := accounts[a].(open := false)];
      return Ok(());
    }

    /** Opens a reconciliation from the newest completed closing balance, unless one is open already. */
    method StartReconciliation(unit: UnitId, a: AccountId, date: int, closing: Cents) returns (r: Result<RecId, Error>)
      modifies this`recs, this`nextRec
      ensures (State(), r) == Ledger.StartReconciliation(old(State()), unit, a, date, closing)
    {
      hide LatestClosing;
      if a >= |accounts| || accounts[a].unit != unit {
        return Err(AccountNotFound);
      }
      var opening := LatestClosing(State(), a);
      if exists k :: k in recs && OpenOn(recs, k, a) {
        return Err(ReconciliationOpen);
      }
      r := Ok(nextRec);
      recs := recs[nextRec := Reconciliation(unit, a, date, opening, closing, false, 0)];
      nextRec := nextRec + 1;
    }

    /** Ticks or unticks a posting, if it is in force, on this account and not cleared elsewhere. */
    method SetPostingCleared(unit: UnitId, rec: RecId, t: TxId, i: nat, cleared: bool) returns (r: Result<(), Error>)
      modifies this`txs
      ensures (State(), r) == Ledger.SetPostingCleared(old(State()), unit, rec, t, i, cleared)
    {
      if rec !in recs || recs[rec].unit != unit {
        return Err(ReconciliationNotFound);
      }
      if recs[rec].completed {
        return Err(ReconciliationClosed);
      }
      var target := if cleared then Some(rec) else None;
      if t < |txs| && txs[t].status == Posted && i < |txs[t].rows| && txs[t].rows[i].account == recs[rec].account
         && (txs[t].rows[i].cleared.None? || txs[t].rows[i].cleared == Some(rec)) {
        txs := txs[t := txs[t].(rows := txs[t].rows[i := txs[t].rows[i].(cleared := target)])];
        return Ok(());
      }
      return Err(PostingNotReconcilable);
    }

    method CompleteReconciliation(unit: UnitId, rec: RecId) returns (r: Result<(), Error>)
      modifies this`recs, this`signOffs
      ensures (State(), r) == Ledger.CompleteReconciliation(old(State()), unit, rec)
    {
      hide ClearedTotal, Wrap64;
      if rec !in recs || recs[rec].unit != unit {
        return Err(ReconciliationNotFound);
      }
      if recs[rec].completed {
        return Err(ReconciliationClosed);
      }
      var cleared := ClearedTotal(State(), rec);
      if !Fits(cleared) {
        return Err(AmountOutOfRange);
      }
      var balance := Wrap64(recs[rec].opening as int + cleared);
      if Wrap64(recs[rec].closing as int - balance as int) != 0 {
        return Err(NotBalanced);
      }
      recs := recs[rec := recs[rec].(completed := true, completedAt := signOffs)];
      signOffs := signOffs + 1;
      return Ok(());
    }

    /** What the foreign key of the stamps does when a reconciliation is deleted, row by row. */
    method ReleasePostings(rec: RecId)
      modifies this`txs
      ensures txs == Release(old(txs), rec)
    {
      for t := 0 to |txs|
        invariant |txs| == |old(txs)|
        invariant forall u :: 0 <= u < t ==> txs[u] == Release(old(txs), rec)[u]
        invariant forall u :: t <= u < |txs| ==> txs[u] == old(txs)[u]
      {
        for i := 0 to |txs[t].rows|
          invariant |txs| == |old(txs)| && txs[t] == old(txs)[t].(rows := txs[t].rows)
          invariant |txs[t].rows| == |old(txs)[t].rows|
          invariant forall k :: 0 <= k < i ==> txs[t].rows[k] == ReleaseRow(old(txs)[t].rows[k], rec)
          invariant forall k :: i <= k < |txs[t].rows| ==> txs[t].rows[k] == old(txs)[t].rows[k]
          invariant forall u :: 0 <= u < t ==> txs[u] == Release(old(txs), rec)[u]
          invariant forall u :: t < u < |txs| ==> txs[u] == old(txs)[u]
        {
          if txs[t].rows[i].cleared == Some(rec) {
            txs := txs[t := txs[t].(rows := txs[t].rows[i := txs[t].rows[i].(cleared := None)])];
          }
        }
        assert txs[t].rows == ReleaseRows(old(txs)[t].rows, rec);
      }
      assert txs == Release(old(txs), rec);
    }

    /** Deletes an open reconciliation; the postings it had ticked go back to uncleared. */
    method DeleteReconciliation(unit: UnitId, rec: RecId) returns (r: Result<(), Error>)
      modifies this`recs, this`txs
      ensures (State(), r) == Ledger.DeleteReconciliation(old(State()), unit, rec)
    {
      hide ReleaseRows;
      if rec !in recs || recs[rec].unit != unit {
        return Err(ReconciliationNotFound);
      }
      if recs[rec].completed {
        return Err(ReconciliationClosed);
      }
      recs := recs - {rec};
      ReleasePostings(rec);
      return Ok(());
    }
  }

  /** The check looks at accounts and transactions only. */
  lemma EntryProblemOfTables(b: Books, b': Books, rows: seq<Row>)
    requires b'.accounts == b.accounts && b'.txs == b.txs
    ensures EntryProblem(b', rows) == EntryProblem(b, rows)
  {
    hide DebitTotal, DebitedAccounts, Total, SortedKeys;
    DebitsProblemOfTables(b, b', rows, SortedKeys(DebitedAccounts(rows)));
  }

  lemma {:induction false} DebitsProblemOfTables(b: Books, b': Books, rows: seq<Row>, keys: seq<AccountId>)
    requires b'.accounts == b.accounts && b'.txs == b.txs
    ensures DebitsProblem(b', rows, keys) == DebitsProblem(b, rows, keys)
    decreases |keys|
  {
    hide DebitTotal, Total;
    if keys != [] {
      DebitsProblemOfTables(b, b', rows, keys[..|keys| - 1]);
    }
  }

  lemma {:induction false} FirstIdProblemStops(accounts: seq<Account>, unit: UnitId, ids: seq<AccountId>, i: nat)
    requires i <= |ids| && FirstIdProblem(accounts, unit, ids[..i]).Some?
    ensures FirstIdProblem(accounts, unit, ids) == FirstIdProblem(accounts, unit, ids[..i])
    decreases |ids| - i
  {
    hide IdProblem;
    if i == |ids| {
      assert ids[..i] == ids;
    } else {
      FirstIdProblemStep(accounts, unit, ids, i);
      FirstIdProblemStops(accounts, unit, ids, i + 1);
    }
  }

  lemma FirstIdProblemStep(accounts: seq<Account>, unit: UnitId, ids: seq<AccountId>, i: nat)
    requires i < |ids|
    ensures FirstIdProblem(accounts, unit, ids[..i + 1]) ==
            var front := FirstIdProblem(accounts, unit, ids[..i]);
            if front.Some? then front else IdProblem(accounts, unit, ids[i])
  {
    hide IdProblem;
    assert ids[..i + 1][..i] == ids[..i];
  }

  lemma RowsOfStep(postings: seq<Posting>, i: nat)
    requires i < |postings|
    ensures RowsOf(postings[..i + 1]) == RowsOf(postings[..i]) + [Row(postings[i].account, postings[i].cents, None)]
  {
  }

  lemma CentsOfRows(postings: seq<Posting>)
    ensures AllCents(RowsOf(postings)) == CentsOf(postings)
  {
  }

  lemma OppositePostingsStep(rows: seq<Row>, i: nat)
    requires i < |rows|
    ensures OppositePostings(rows[..i + 1]) ==
            OppositePostings(rows[..i]) + [Posting(rows[i].account, Negate64(rows[i].cents))]
  {
  }
}
