/**
 What every run of ledger operations keeps: balanced transactions inside one unit, each decided at most
 once, reversals that cancel exactly, and closed trip funds that are never debited again.
 */
module LedgerInvariants {
  import opened Prelude
  import opened Ledger

  // ----- the invariant -----

  /** A row's cents, whatever account they are on. */
  function AllCents(rows: seq<Row>): (xs: seq<int>)
    ensures |xs| == |rows|
  {
    seq(|rows|, i requires 0 <= i < |rows| => rows[i].cents)
  }

  /** At least two nonzero postings, all on accounts of the transaction's own unit, summing to zero. */
  ghost predicate Balanced(accounts: seq<Account>, tx: Transaction) {
    && |tx.rows| >= 2
    && Sum(AllCents(tx.rows)) == 0
    && forall i :: 0 <= i < |tx.rows| ==>
         && tx.rows[i].cents != 0
         && tx.rows[i].account < |accounts| && accounts[tx.rows[i].account].unit == tx.unit
  }

  ghost predicate AllBalanced(b: Books) {
    forall t :: 0 <= t < |b.txs| ==> Balanced(b.accounts, b.txs[t])
  }

  /** The rows of a reversal and of what it reverses. */
  ghost predicate Opposite(rows: seq<Row>, rows': seq<Row>) {
    && |rows'| == |rows|
    && forall i :: 0 <= i < |rows| ==> rows'[i].account == rows[i].account && rows'[i].cents == -(rows[i].cents as int)
  }

  /** Transaction t is a posted reversal of an earlier posted transaction that is no reversal itself. */
  ghost predicate ReversalOk(txs: seq<Transaction>, t: TxId)
    requires t < |txs|
  {
    txs[t].reverses.Some? ==>
      var o := txs[t].reverses.value;
      && o < t
      && txs[t].status == Posted && txs[o].status == Posted
      && txs[o].reverses.None?
      && Opposite(txs[o].rows, txs[t].rows)
  }

  ghost predicate ReversalsOk(b: Books) {
    && (forall t :: 0 <= t < |b.txs| ==> ReversalOk(b.txs, t))
    && (forall t, u :: 0 <= t < u < |b.txs| && b.txs[t].reverses.Some? ==> b.txs[t].reverses != b.txs[u].reverses)
  }

  /** A request for a ledger transaction is the one that transaction names, and they agree on the outcome. */
  ghost predicate RequestOk(b: Books, r: RequestId)
    requires r < |b.requests|
  {
    b.requests[r].subject.LedgerTransaction? ==>
      var t := b.requests[r].subject.tx;
      && t < |b.txs| && b.txs[t].request == Some(r) && b.txs[t].unit == b.requests[r].unit
      && (b.requests[r].status == Pending <==> b.txs[t].status == PendingApproval)
      && (b.requests[r].status == Approved <==> b.txs[t].status == Posted)
  }

  ghost predicate RequestsOk(b: Books) {
    forall r :: 0 <= r < |b.requests| ==> RequestOk(b, r)
  }

  /** One account of each kind per unit, and only trip funds are ever closed. */
  ghost predicate AccountsOk(b: Books) {
    && (forall a, c :: 0 <= a < c < |b.accounts| ==>
          !(b.accounts[a].unit == b.accounts[c].unit && b.accounts[a].kind == b.accounts[c].kind))
    && (forall a :: 0 <= a < |b.accounts| && !b.accounts[a].open ==> b.accounts[a].kind.TripFund?)
  }

  ghost predicate ClosedOk(b: Books) {
    forall a :: 0 <= a < |b.accounts| && !b.accounts[a].open ==> Balance(b, a) >= 0
  }

  ghost predicate Sound(b: Books) {
    AllBalanced(b) && ReversalsOk(b) && RequestsOk(b) && AccountsOk(b) && ClosedOk(b)
  }

  // ----- totals under the three ways the table of transactions changes -----

  lemma TotalAppend(txs: seq<Transaction>, tx: Transaction, a: AccountId, s: Stamps, p: Period)
    ensures Total(txs + [tx], a, s, p) == Total(txs, a, s, p) + TxCents(tx, a, s, p)
  {
    hide TxCents, Sum;
    assert TxLines(txs + [tx], a, s, p) == TxLines(txs, a, s, p) + [TxCents(tx, a, s, p)];
    SumSnoc(TxLines(txs, a, s, p), TxCents(tx, a, s, p));
  }

  lemma TotalUpdate(txs: seq<Transaction>, t: TxId, tx: Transaction, a: AccountId, s: Stamps, p: Period)
    requires t < |txs|
    ensures Total(txs[t := tx], a, s, p) == Total(txs, a, s, p) - TxCents(txs[t], a, s, p) + TxCents(tx, a, s, p)
  {
    hide TxCents, Sum;
    assert TxLines(txs[t := tx], a, s, p) == TxLines(txs, a, s, p)[t := TxCents(tx, a, s, p)];
    SumUpdate(TxLines(txs, a, s, p), t, TxCents(tx, a, s, p));
  }

  lemma TotalSame(txs: seq<Transaction>, txs': seq<Transaction>, a: AccountId, s: Stamps, p: Period)
    requires |txs| == |txs'|
    requires forall t :: 0 <= t < |txs| ==> TxCents(txs[t], a, s, p) == TxCents(txs'[t], a, s, p)
    ensures Total(txs, a, s, p) == Total(txs', a, s, p)
  {
    hide TxCents, Sum;
    assert TxLines(txs, a, s, p) == TxLines(txs', a, s, p);
  }

  /** Stamps do not matter to a total that ignores them. */
  lemma RowsTotalIgnoresStamps(rows: seq<Row>, rows': seq<Row>, a: AccountId)
    requires |rows| == |rows'|
    requires forall i :: 0 <= i < |rows| ==> rows[i].account == rows'[i].account && rows[i].cents == rows'[i].cents
    ensures RowsTotal(rows, a, AnyStamp) == RowsTotal(rows', a, AnyStamp)
  {
    assert RowLines(rows, a, AnyStamp) == RowLines(rows', a, AnyStamp);
  }

  lemma {:induction false} RowsTotalOpposite(rows: seq<Row>, rows': seq<Row>, a: AccountId)
    requires Opposite(rows, rows')
    ensures RowsTotal(rows', a, AnyStamp) == -RowsTotal(rows, a, AnyStamp)
  {
    SumNegate(RowLines(rows, a, AnyStamp), RowLines(rows', a, AnyStamp));
  }

  /** A transaction whose rows avoid an account leaves it alone. */
  lemma RowsTotalElsewhere(rows: seq<Row>, a: AccountId, s: Stamps)
    requires forall i :: 0 <= i < |rows| ==> rows[i].account != a
    ensures RowsTotal(rows, a, s) == 0
  {
    SumZero(RowLines(rows, a, s));
  }

  lemma DebitedAccountsMembers(rows: seq<Row>, a: AccountId)
    ensures a in DebitedAccounts(rows) <==> exists i :: 0 <= i < |rows| && rows[i].account == a && rows[i].cents < 0
  {
  }

  /** Without a debit on an account, a transaction only adds to it. */
  lemma RowsTotalWithoutDebit(rows: seq<Row>, a: AccountId)
    requires a !in DebitedAccounts(rows)
    ensures RowsTotal(rows, a, AnyStamp) >= 0
  {
    DebitedAccountsMembers(rows, a);
    var zeros := seq(|rows|, i => 0);
    SumZero(zeros);
    SumAtMost(zeros, RowLines(rows, a, AnyStamp));
  }

  /** The debits alone are at most what the transaction does to the account. */
  lemma DebitsBoundRows(rows: seq<Row>, a: AccountId)
    ensures DebitTotal(rows, a) <= RowsTotal(rows, a, AnyStamp)
  {
    SumAtMost(DebitLines(rows, a), RowLines(rows, a, AnyStamp));
  }

  // ----- what a new transaction is made of -----

  lemma FreshIsBalanced(b: Books, unit: UnitId, kind: string, status: TxStatus, reverses: Option<TxId>, now: int,
                        postings: seq<Posting>)
    requires InsertProblem(b, unit, postings).None?
    ensures Balanced(b.accounts, NewTransaction(unit, kind, status, reverses, now, postings))
    ensures forall i :: 0 <= i < |postings| ==>
              postings[i].account < |b.accounts| && b.accounts[postings[i].account].open
  {
    hide Sum;
    assert AllCents(RowsOf(postings)) == CentsOf(postings);
  }

  // ----- what no operation ever takes back -----

  /** The same entry in the books, up to its reconciliation stamps and a decision that was still pending. */
  ghost predicate SameEntry(tx: Transaction, tx': Transaction) {
    && tx'.unit == tx.unit && tx'.kind == tx.kind && tx'.occurredAt == tx.occurredAt
    && tx'.reverses == tx.reverses && tx'.request == tx.request
    && (tx'.status == tx.status || tx.status == PendingApproval)
    && |tx'.rows| == |tx.rows|
    && forall i :: 0 <= i < |tx.rows| ==>
         tx'.rows[i].account == tx.rows[i].account && tx'.rows[i].cents == tx.rows[i].cents
  }

  ghost predicate SameAccount(x: Account, y: Account) {
    y.unit == x.unit && y.kind == x.kind && (!x.open ==> !y.open)
  }

  /** Accounts and entries only accumulate: a posted or rejected entry stays, and a closed account stays closed. */
  ghost predicate Extends(b: Books, b': Books) {
    && |b.accounts| <= |b'.accounts| && |b.txs| <= |b'.txs|
    && (forall a :: 0 <= a < |b.accounts| ==> SameAccount(b.accounts[a], b'.accounts[a]))
    && (forall t :: 0 <= t < |b.txs| ==> SameEntry(b.txs[t], b'.txs[t]))
  }

  lemma ExtendsTransitive(b: Books, b': Books, b'': Books)
    requires Extends(b, b') && Extends(b', b'')
    ensures Extends(b, b'')
  {
    hide SameAccount;
    forall a | 0 <= a < |b.accounts|
      ensures SameAccount(b.accounts[a], b''.accounts[a])
    {
      SameAccountTransitive(b.accounts[a], b'.accounts[a], b''.accounts[a]);
    }
  }

  lemma SameAccountTransitive(x: Account, y: Account, z: Account)
    requires SameAccount(x, y) && SameAccount(y, z)
    ensures SameAccount(x, z)
  {
  }

  /** Nothing new was posted that debits account a. */
  ghost predicate NeverDebits(b: Books, b': Books, a: AccountId) {
    forall t :: 0 <= t < |b'.txs| && b'.txs[t].status == Posted && (t < |b.txs| ==> b.txs[t].status != Posted) ==>
                a !in DebitedAccounts(b'.txs[t].rows)
  }

  /** What every operation does to the books, apart from the invariant. */
  ghost predicate Advances(b: Books, b': Books) {
    && Extends(b, b')
    && forall a :: 0 <= a < |b.accounts| && !b.accounts[a].open ==>
                   Balance(b', a) >= Balance(b, a) && NeverDebits(b, b', a)
  }

  lemma KeptBalanced(accounts: seq<Account>, accounts': seq<Account>, tx: Transaction, tx': Transaction)
    requires Balanced(accounts, tx) && SameEntry(tx, tx')
    requires |accounts| <= |accounts'|
    requires forall a :: 0 <= a < |accounts| ==> SameAccount(accounts[a], accounts'[a])
    ensures Balanced(accounts', tx')
  {
    hide Sum;
    assert AllCents(tx'.rows) == AllCents(tx.rows);
  }

  /** Entries already in the books stay balanced, so only new ones need checking. */
  lemma AllBalancedKept(b: Books, b': Books)
    requires AllBalanced(b) && Extends(b, b')
    requires forall t :: |b.txs| <= t < |b'.txs| ==> Balanced(b'.accounts, b'.txs[t])
    ensures AllBalanced(b')
  {
    hide Balanced, SameEntry;
    forall t | 0 <= t < |b.txs|
      ensures Balanced(b'.accounts, b'.txs[t])
    {
      KeptBalanced(b.accounts, b'.accounts, b.txs[t], b'.txs[t]);
    }
  }

  lemma OppositeKept(rows: seq<Row>, rows': seq<Row>, o: Transaction, t: Transaction, o': Transaction, t': Transaction)
    requires SameEntry(o, o') && SameEntry(t, t') && Opposite(o.rows, t.rows)
    ensures Opposite(o'.rows, t'.rows)
  {
  }

  lemma ReversalKept(b: Books, b': Books, t: TxId)
    requires Extends(b, b') && t < |b.txs| && ReversalOk(b.txs, t)
    ensures ReversalOk(b'.txs, t)
  {
    hide Opposite, SameAccount;
    if b.txs[t].reverses.Some? {
      var o := b.txs[t].reverses.value;
      OppositeKept(b.txs[o].rows, b.txs[t].rows, b.txs[o], b.txs[t], b'.txs[o], b'.txs[t]);
    }
  }

  /** Reversals already in the books stay in order, and a new one must reverse what nothing reversed before. */
  lemma ReversalsKept(b: Books, b': Books)
    requires ReversalsOk(b) && Extends(b, b') && |b'.txs| <= |b.txs| + 1
    requires |b.txs| < |b'.txs| ==>
               var t := |b.txs|;
               && ReversalOk(b'.txs, t)
               && (b'.txs[t].reverses.Some? ==> !IsReversed(b.txs, b'.txs[t].reverses.value))
    ensures ReversalsOk(b')
  {
    hide ReversalOk, SameAccount;
    forall t | 0 <= t < |b'.txs|
      ensures ReversalOk(b'.txs, t)
    {
      if t < |b.txs| {
        ReversalKept(b, b', t);
      }
    }
  }

  /** Requests already made keep agreeing with their entries, so only new ones need checking. */
  lemma RequestsKept(b: Books, b': Books)
    requires RequestsOk(b) && Extends(b, b')
    requires forall t :: 0 <= t < |b.txs| ==> b'.txs[t].status == b.txs[t].status
    requires |b'.requests| >= |b.requests| && b'.requests[..|b.requests|] == b.requests
    requires forall r :: |b.requests| <= r < |b'.requests| ==> RequestOk(b', r)
    ensures RequestsOk(b')
  {
    hide SameAccount;
    forall r | 0 <= r < |b.requests|
      ensures RequestOk(b', r)
    {
      assert b'.requests[r] == b'.requests[..|b.requests|][r];
      assert RequestOk(b, r);
    }
  }

  // ----- one kind of change at a time -----

  lemma OpenRowsLeaveClosed(b: Books, tx: Transaction, a: AccountId)
    requires a < |b.accounts| && !b.accounts[a].open
    requires forall i :: 0 <= i < |tx.rows| ==> tx.rows[i].account < |b.accounts| && b.accounts[tx.rows[i].account].open
    ensures TxCents(tx, a, AnyStamp, Always) == 0
    ensures a !in DebitedAccounts(tx.rows)
  {
    RowsTotalElsewhere(tx.rows, a, AnyStamp);
  }

  /** A new entry, in force at once, on open accounts only. */
  lemma PostedIsSound(b: Books, tx: Transaction)
    requires Sound(b) && Balanced(b.accounts, tx) && tx.status == Posted
    requires forall i :: 0 <= i < |tx.rows| ==> tx.rows[i].account < |b.accounts| && b.accounts[tx.rows[i].account].open
    requires ReversalOk(b.txs + [tx], |b.txs|)
    requires tx.reverses.Some? ==> !IsReversed(b.txs, tx.reverses.value)
    ensures Sound(AddTransaction(b, tx)) && Advances(b, AddTransaction(b, tx))
  {
    hide Total, TxCents, Balanced, ReversalOk, IsReversed, DebitedAccounts;
    var b' := AddTransaction(b, tx);
    AllBalancedKept(b, b');
    ReversalsKept(b, b');
    RequestsKept(b, b');
    forall a | 0 <= a < |b.accounts| && !b.accounts[a].open
      ensures Balance(b', a) == Balance(b, a) && NeverDebits(b, b', a)
    {
      TotalAppend(b.txs, tx, a, AnyStamp, Always);
      OpenRowsLeaveClosed(b, tx, a);
    }
  }

  /** A new entry that waits for approval moves nothing. */
  lemma PendingIsSound(b: Books, tx: Transaction)
    requires Sound(b) && Balanced(b.accounts, tx) && tx.status == PendingApproval && tx.reverses.None?
    ensures Sound(AddForApproval(b, tx)) && Advances(b, AddForApproval(b, tx))
  {
    hide Total, Balanced, IsReversed, DebitedAccounts, Opposite;
    var b' := AddForApproval(b, tx);
    var tx' := b'.txs[|b.txs|];
    assert Balanced(b.accounts, tx') by { BalancedIgnoresRequest(b.accounts, tx, Some(|b.requests|)); }
    AllBalancedKept(b, b');
    ReversalsKept(b, b');
    RequestsKept(b, b');
    forall a | 0 <= a < |b.accounts| && !b.accounts[a].open
      ensures Balance(b', a) == Balance(b, a) && NeverDebits(b, b', a)
    {
      TotalAppend(b.txs, tx', a, AnyStamp, Always);
    }
  }

  lemma BalancedIgnoresRequest(accounts: seq<Account>, tx: Transaction, request: Option<RequestId>)
    requires Balanced(accounts, tx)
    ensures Balanced(accounts, tx.(request := request))
  {
  }

  /** A change that leaves every entry as it was, apart from stamps. */
  lemma SameEntriesAreSound(b: Books, b': Books)
    requires Sound(b) && Extends(b, b') && |b'.txs| == |b.txs| && b'.accounts == b.accounts
    requires forall t :: 0 <= t < |b.txs| ==> b'.txs[t].status == b.txs[t].status
    requires |b'.requests| >= |b.requests| && b'.requests[..|b.requests|] == b.requests
    requires forall r :: |b.requests| <= r < |b'.requests| ==> !b'.requests[r].subject.LedgerTransaction?
    ensures Sound(b') && Advances(b, b')
  {
    hide Balanced, Opposite, DebitedAccounts, Total, TxCents;
    AllBalancedKept(b, b');
    ReversalsKept(b, b');
    RequestsKept(b, b');
    forall a
      ensures Balance(b', a) == Balance(b, a) && NeverDebits(b, b', a)
    {
      SameEntriesSameBalance(b.txs, b'.txs, a, Always);
    }
  }

  lemma SameEntriesSameBalance(txs: seq<Transaction>, txs': seq<Transaction>, a: AccountId, p: Period)
    requires |txs| == |txs'|
    requires forall t :: 0 <= t < |txs| ==> SameEntry(txs[t], txs'[t]) && txs[t].status == txs'[t].status
    ensures Total(txs, a, AnyStamp, p) == Total(txs', a, AnyStamp, p)
  {
    hide RowsTotal;
    forall t | 0 <= t < |txs|
      ensures TxCents(txs[t], a, AnyStamp, p) == TxCents(txs'[t], a, AnyStamp, p)
    {
      RowsTotalIgnoresStamps(txs[t].rows, txs'[t].rows, a);
    }
    TotalSame(txs, txs', a, AnyStamp, p);
  }

  /** A new account of a kind its unit did not have. */
  lemma AccountAddedIsSound(b: Books, x: Account)
    requires Sound(b) && x.open
    requires forall a :: 0 <= a < |b.accounts| ==> !(b.accounts[a].unit == x.unit && b.accounts[a].kind == x.kind)
    ensures var b' := b.(accounts := b.accounts + [x]); Sound(b') && Advances(b, b')
  {
    hide Balanced, Opposite, DebitedAccounts, Total, ReversalOk;
    var b' := b.(accounts := b.accounts + [x]);
    AllBalancedKept(b, b');
    ReversalsKept(b, b');
    RequestsKept(b, b');
    assert AccountsOk(b');
    assert forall a :: Balance(b', a) == Balance(b, a);
  }

  /** Closing a trip fund that holds nothing. */
  lemma AccountClosedIsSound(b: Books, a: AccountId)
    requires Sound(b) && a < |b.accounts| && b.accounts[a].kind.TripFund? && Balance(b, a) == 0
    ensures var b' := b.(accounts := b.accounts[a := b.accounts[a].(open := false)]); Sound(b') && Advances(b, b')
  {
    hide Balanced, Opposite, DebitedAccounts, Total, ReversalOk;
    var b' := b.(accounts := b.accounts[a := b.accounts[a].(open := false)]);
    AllBalancedKept(b, b');
    ReversalsKept(b, b');
    RequestsKept(b, b');
    assert AccountsOk(b');
    assert forall c :: Balance(b', c) == Balance(b, c);
  }

  /** A decision on something other than a ledger entry. */
  lemma OtherDecisionIsSound(b: Books, req: RequestId, approve: bool)
    requires Sound(b) && req < |b.requests| && !b.requests[req].subject.LedgerTransaction?
    ensures Sound(DecisionEffect(b, req, approve)) && Advances(b, DecisionEffect(b, req, approve))
  {
    hide Balanced, Opposite, DebitedAccounts, Total, ReversalOk;
    var b' := DecisionEffect(b, req, approve);
    AllBalancedKept(b, b');
    ReversalsKept(b, b');
    forall r | 0 <= r < |b'.requests|
      ensures RequestOk(b', r)
    {
      assert RequestOk(b, r);
    }
    assert forall a :: Balance(b', a) == Balance(b, a);
  }

  lemma DebitsProblemStep(b: Books, rows: seq<Row>, keys: seq<AccountId>, i: nat)
    requires i < |keys|
    ensures DebitsProblem(b, rows, keys[..i + 1]) ==
            var front := DebitsProblem(b, rows, keys[..i]); if front.Some? then front else DebitProblem(b, rows, keys[i])
  {
    hide DebitProblem;
    assert keys[..i + 1][..i] == keys[..i];
  }

  /** The first problem is the answer, whatever follows. */
  lemma {:induction false} DebitsProblemStops(b: Books, rows: seq<Row>, keys: seq<AccountId>, i: nat)
    requires i <= |keys| && DebitsProblem(b, rows, keys[..i]).Some?
    ensures DebitsProblem(b, rows, keys) == DebitsProblem(b, rows, keys[..i])
    decreases |keys| - i
  {
    hide DebitProblem;
    if i == |keys| {
      assert keys[..i] == keys;
    } else {
      DebitsProblemStep(b, rows, keys, i);
      DebitsProblemStops(b, rows, keys, i + 1);
    }
  }

  lemma NoProblemFits(b: Books, rows: seq<Row>, a: AccountId)
    ensures DebitProblem(b, rows, a).None? ==> Fits(DebitTotal(rows, a))
  {
  }

  lemma EntryChecks(b: Books, rows: seq<Row>)
    ensures EntryProblem(b, rows).None? <==> forall a :: a in DebitedAccounts(rows) ==> DebitProblem(b, rows, a).None?
  {
    hide DebitedAccounts, DebitProblem, DebitTotal, Fits;
    var keys := SortedKeys(DebitedAccounts(rows));
    if forall a :: a in DebitedAccounts(rows) ==> DebitProblem(b, rows, a).None? {
      forall i | 0 <= i < |keys|
        ensures DebitProblem(b, rows, keys[i]).None? && Fits(DebitTotal(rows, keys[i]))
      {
        assert keys[i] in keys;
        NoProblemFits(b, rows, keys[i]);
      }
    }
    if EntryProblem(b, rows).None? {
      forall a | a in DebitedAccounts(rows)
        ensures DebitProblem(b, rows, a).None?
      {
        assert a in keys;
      }
    }
  }

  /** What the approval of transaction t has checked: every account it debits. */
  lemma ApprovalChecks(b: Books, req: RequestId, t: TxId)
    requires req < |b.requests| && b.requests[req].subject == LedgerTransaction(t) && t < |b.txs|
    ensures ApprovalProblem(b, req, true).None? <==>
            forall a :: a in DebitedAccounts(b.txs[t].rows) ==> DebitProblem(b, b.txs[t].rows, a).None?
  {
    hide DebitedAccounts, DebitProblem, EntryProblem;
    EntryChecks(b, b.txs[t].rows);
  }

  lemma DecisionBalance(b: Books, req: RequestId, approve: bool, t: TxId, a: AccountId)
    requires req < |b.requests| && b.requests[req].subject == LedgerTransaction(t)
    requires t < |b.txs| && b.txs[t].status == PendingApproval
    ensures Balance(DecisionEffect(b, req, approve), a) ==
            Balance(b, a) + if approve then RowsTotal(b.txs[t].rows, a, AnyStamp) else 0
  {
    hide Total;
    TotalUpdate(b.txs, t, b.txs[t].(status := if approve then Posted else Rejected), a, AnyStamp, Always);
  }

  lemma DecisionKeepsRequests(b: Books, req: RequestId, approve: bool, t: TxId)
    requires RequestsOk(b) && req < |b.requests| && b.requests[req].subject == LedgerTransaction(t)
    ensures RequestsOk(DecisionEffect(b, req, approve))
  {
    var b' := DecisionEffect(b, req, approve);
    assert RequestOk(b, req);
    forall r | 0 <= r < |b'.requests|
      ensures RequestOk(b', r)
    {
      assert RequestOk(b, r);
    }
  }

  /** A decision on a pending ledger entry, once the accounts it debits have been checked. */
  lemma EntryDecisionIsSound(b: Books, req: RequestId, approve: bool, t: TxId)
    requires Sound(b) && req < |b.requests| && b.requests[req].status == Pending
    requires b.requests[req].subject == LedgerTransaction(t)
    requires ApprovalProblem(b, req, approve).None?
    ensures Sound(DecisionEffect(b, req, approve)) && Advances(b, DecisionEffect(b, req, approve))
  {
    hide Balanced, Opposite, DebitedAccounts, Balance, ReversalOk, ApprovalProblem, IsReversed, RowsTotal, DebitTotal;
    assert RequestOk(b, req);
    var b' := DecisionEffect(b, req, approve);
    AllBalancedKept(b, b');
    ReversalsKept(b, b');
    DecisionKeepsRequests(b, req, approve, t);
    if approve {
      ApprovalChecks(b, req, t);
    }
    forall a | 0 <= a < |b.accounts| && !b.accounts[a].open
      ensures Balance(b', a) >= Balance(b, a) && NeverDebits(b, b', a)
    {
      DecisionBalance(b, req, approve, t, a);
      if approve {
        RowsTotalWithoutDebit(b.txs[t].rows, a);
      }
    }
  }

  /** Negation that wraps is caught: the database would see a sum that is not zero. */
  lemma {:induction false} NegatedSum(xs: seq<int>, ys: seq<int>)
    requires |xs| == |ys|
    requires forall i :: 0 <= i < |xs| ==> -TWO_63 <= xs[i] < TWO_63 && ys[i] == Negate64(xs[i])
    ensures Sum(ys) <= -Sum(xs)
    ensures Sum(ys) == -Sum(xs) ==> forall i :: 0 <= i < |xs| ==> ys[i] == -xs[i]
  {
    if xs != [] {
      var n := |xs| - 1;
      NegatedSum(xs[..n], ys[..n]);
    }
  }

  // ----- every operation -----

  lemma NothingHappens(b: Books)
    requires Sound(b)
    ensures Advances(b, b)
  {
  }

  lemma PostIsSound(b: Books, unit: UnitId, kind: string, now: int, postings: seq<Posting>)
    requires Sound(b)
    ensures var b' := Post(b, unit, kind, now, postings).0; Sound(b') && Advances(b, b')
  {
    hide Sound, Advances, InsertProblem, Balanced;
    if InsertProblem(b, unit, postings).Some? {
      NothingHappens(b);
    } else {
      FreshIsBalanced(b, unit, kind, Posted, None, now, postings);
      PostedIsSound(b, NewTransaction(unit, kind, Posted, None, now, postings));
    }
  }

  lemma PostPendingIsSound(b: Books, unit: UnitId, kind: string, now: int, postings: seq<Posting>)
    requires Sound(b)
    ensures var b' := PostPending(b, unit, kind, now, postings).0; Sound(b') && Advances(b, b')
  {
    hide Sound, Advances, InsertProblem, Balanced;
    if InsertProblem(b, unit, postings).Some? {
      NothingHappens(b);
    } else {
      FreshIsBalanced(b, unit, kind, PendingApproval, None, now, postings);
      PendingIsSound(b, NewTransaction(unit, kind, PendingApproval, None, now, postings));
    }
  }

  lemma RequestTransferIsSound(b: Books, unit: UnitId, now: int, scout: AccountId, fund: AccountId, cents: Cents)
    requires Sound(b)
    ensures var b' := RequestTransfer(b, unit, now, scout, fund, cents).0; Sound(b') && Advances(b, b')
  {
    hide Sound, Advances, PostPending, Balance;
    NothingHappens(b);
    if cents > 0 {
      PostPendingIsSound(b, unit, "trip_fund_transfer", now, [Posting(scout, -cents), Posting(fund, cents)]);
    }
  }

  lemma DecideIsSound(b: Books, req: RequestId, unit: UnitId, approve: bool)
    requires Sound(b)
    ensures var b' := Decide(b, req, unit, approve).0; Sound(b') && Advances(b, b')
  {
    hide Sound, Advances, ApprovalProblem, DecisionEffect;
    if !Decidable(b, req, unit) || ApprovalProblem(b, req, approve).Some? {
      NothingHappens(b);
    } else if b.requests[req].subject.LedgerTransaction? {
      EntryDecisionIsSound(b, req, approve, b.requests[req].subject.tx);
    } else {
      OtherDecisionIsSound(b, req, approve);
    }
  }

  /** A reversal that is accepted negates every amount exactly, although negation may wrap. */
  lemma AcceptedReversalIsExact(b: Books, unit: UnitId, t: TxId)
    requires AllBalanced(b) && t < |b.txs|
    requires InsertProblem(b, unit, OppositePostings(b.txs[t].rows)).None?
    ensures Opposite(b.txs[t].rows, RowsOf(OppositePostings(b.txs[t].rows)))
  {
    hide Sum, AccountProblem, Negate64;
    assert Balanced(b.accounts, b.txs[t]);
    var xs, ys := AllCents(b.txs[t].rows), CentsOf(OppositePostings(b.txs[t].rows));
    NegatedSum(xs, ys);
    assert forall i :: 0 <= i < |xs| ==> b.txs[t].rows[i].cents == xs[i];
  }

  lemma ReverseIsSound(b: Books, unit: UnitId, t: TxId, now: int)
    requires Sound(b)
    ensures var b' := Reverse(b, unit, t, now).0; Sound(b') && Advances(b, b')
  {
    hide RequestsOk, AccountsOk, ClosedOk, Advances, InsertProblem, Balanced, OppositePostings, Opposite;
    NothingHappens(b);
    if Reverse(b, unit, t, now).1.Ok? {
      var postings := OppositePostings(b.txs[t].rows);
      var tx := NewTransaction(unit, "reversal", Posted, Some(t), now, postings);
      AcceptedReversalIsExact(b, unit, t);
      FreshIsBalanced(b, unit, "reversal", Posted, Some(t), now, postings);
      PostedIsSound(b, tx);
    }
  }

  lemma EnsureAccountIsSound(b: Books, unit: UnitId, kind: AccountKind)
    requires Sound(b)
    ensures var b' := EnsureAccount(b, unit, kind).0; Sound(b') && Advances(b, b')
  {
    hide Sound, Advances;
    NothingHappens(b);
    if FindAccount(b.accounts, unit, kind) == |b.accounts| {
      AccountAddedIsSound(b, Account(unit, kind, true));
    }
  }

  lemma CloseTripFundIsSound(b: Books, unit: UnitId, a: AccountId)
    requires Sound(b)
    ensures var b' := CloseTripFund(b, unit, a).0; Sound(b') && Advances(b, b')
  {
    hide Sound, Advances, Balance;
    NothingHappens(b);
    if CloseTripFund(b, unit, a).1.Ok? {
      AccountClosedIsSound(b, a);
    }
  }

  /** Starting, ticking, signing off and abandoning reconciliations touch nothing but stamps. */
  lemma ReconciliationStepIsSound(b: Books, b': Books)
    requires Sound(b) && b'.accounts == b.accounts && b'.requests == b.requests && |b'.txs| == |b.txs|
    requires forall t :: 0 <= t < |b.txs| ==> SameEntry(b.txs[t], b'.txs[t]) && b'.txs[t].status == b.txs[t].status
    ensures Sound(b') && Advances(b, b')
  {
    hide Sound, SameEntry;
    SameEntriesAreSound(b, b');
  }

  lemma SubmitEventIsSound(b: Books, event: EventId, unit: UnitId)
    requires Sound(b)
    ensures var b' := SubmitEvent(b, event, unit); Sound(b') && Advances(b, b')
  {
    hide Sound, Advances;
    SameEntriesAreSound(b, SubmitEvent(b, event, unit));
  }

  lemma TickIsSound(b: Books, unit: UnitId, r: RecId, t: TxId, i: nat, cleared: bool)
    requires Sound(b)
    ensures var b' := SetPostingCleared(b, unit, r, t, i, cleared).0; Sound(b') && Advances(b, b')
  {
    hide Sound, Advances;
    ReconciliationStepIsSound(b, SetPostingCleared(b, unit, r, t, i, cleared).0);
  }

  lemma ReleaseKeepsEntry(tx: Transaction, r: RecId)
    ensures SameEntry(tx, tx.(rows := ReleaseRows(tx.rows, r)))
  {
  }

  lemma DeleteIsSound(b: Books, unit: UnitId, r: RecId)
    requires Sound(b)
    ensures var b' := DeleteReconciliation(b, unit, r).0; Sound(b') && Advances(b, b')
  {
    hide Sound, Advances, SameEntry, ReleaseRows;
    NothingHappens(b);
    if DeleteReconciliation(b, unit, r).1.Ok? {
      forall t | 0 <= t < |b.txs|
        ensures SameEntry(b.txs[t], Release(b.txs, r)[t])
      {
        ReleaseKeepsEntry(b.txs[t], r);
      }
      ReconciliationStepIsSound(b, DeleteReconciliation(b, unit, r).0);
    }
  }

  lemma StartIsSound(b: Books, unit: UnitId, a: AccountId, date: int, closing: Cents)
    requires Sound(b)
    ensures var b' := StartReconciliation(b, unit, a, date, closing).0; Sound(b') && Advances(b, b')
  {
    hide Sound, Advances, LatestClosing;
    ReconciliationStepIsSound(b, StartReconciliation(b, unit, a, date, closing).0);
  }

  lemma CompleteIsSound(b: Books, unit: UnitId, r: RecId)
    requires Sound(b)
    ensures var b' := CompleteReconciliation(b, unit, r).0; Sound(b') && Advances(b, b')
  {
    hide Sound, Advances, Difference;
    ReconciliationStepIsSound(b, CompleteReconciliation(b, unit, r).0);
  }

  /** Every operation, accepted or refused, keeps the books sound and takes nothing back. */
  lemma ApplyIsSound(b: Books, op: Op)
    requires Sound(b)
    ensures Sound(Apply(b, op)) && Advances(b, Apply(b, op))
  {
    hide Sound, Advances, EnsureAccount, CloseTripFund, Post, PostPending, RequestTransfer, SubmitEvent,
         Decide, Reverse, StartReconciliation, SetPostingCleared, CompleteReconciliation, DeleteReconciliation;
    match op
    case OpenAccountOp(u, k) => EnsureAccountIsSound(b, u, k);
    case CreateTripFundOp(u, e) =>
      NothingHappens(b);
      EnsureAccountIsSound(b, u, TripFund(e));
    case CloseTripFundOp(u, a) => CloseTripFundIsSound(b, u, a);
    case PostOp(u, k, now, ps) => PostIsSound(b, u, k, now, ps);
    case SubmitExpenseOp(u, now, ps) =>
      PostPendingIsSound(b, u, "expense", now, ps);
    case RequestTransferOp(u, now, s, f, c) => RequestTransferIsSound(b, u, now, s, f, c);
    case SubmitEventOp(e, u) => SubmitEventIsSound(b, e, u);
    case DecideOp(r, u, y) => DecideIsSound(b, r, u, y);
    case ReverseOp(u, t, now) => ReverseIsSound(b, u, t, now);
    case StartOp(u, a, d, c) => StartIsSound(b, u, a, d, c);
    case TickOp(u, r, t, i, c) => TickIsSound(b, u, r, t, i, c);
    case CompleteOp(u, r) => CompleteIsSound(b, u, r);
    case DeleteOp(u, r) => DeleteIsSound(b, u, r);
  }

  lemma AdvancesTransitive(b: Books, b': Books, b'': Books)
    requires Advances(b, b') && Advances(b', b'')
    ensures Advances(b, b'')
  {
    hide Balance, DebitedAccounts;
    ExtendsTransitive(b, b', b'');
    forall a | 0 <= a < |b.accounts| && !b.accounts[a].open
      ensures Balance(b'', a) >= Balance(b, a) && NeverDebits(b, b'', a)
    {
      assert SameAccount(b.accounts[a], b'.accounts[a]);
      NeverDebitsTransitive(b, b', b'', a);
    }
  }

  lemma NeverDebitsTransitive(b: Books, b': Books, b'': Books, a: AccountId)
    requires Extends(b, b') && Extends(b', b'') && NeverDebits(b, b', a) && NeverDebits(b', b'', a)
    ensures NeverDebits(b, b'', a)
  {
    hide SameAccount;
    forall t | 0 <= t < |b''.txs| && b''.txs[t].status == Posted && (t < |b.txs| ==> b.txs[t].status != Posted)
      ensures a !in DebitedAccounts(b''.txs[t].rows)
    {
      if t < |b'.txs| && b'.txs[t].status == Posted {
        DebitedAccountsKept(b'.txs[t], b''.txs[t], a);
      }
    }
  }

  lemma DebitedAccountsKept(tx: Transaction, tx': Transaction, a: AccountId)
    requires SameEntry(tx, tx')
    ensures a in DebitedAccounts(tx.rows) <==> a in DebitedAccounts(tx'.rows)
  {
    DebitedAccountsMembers(tx.rows, a);
    DebitedAccountsMembers(tx'.rows, a);
  }

  /** Any run from sound books ends in sound books and takes nothing back. */
  lemma {:induction false} RunIsSound(b: Books, ops: seq<Op>)
    requires Sound(b)
    ensures Sound(Run(b, ops)) && Advances(b, Run(b, ops))
    decreases |ops|
  {
    hide Sound, Advances, Apply;
    if ops == [] {
      NothingHappens(b);
    } else {
      var before := Run(b, ops[..|ops| - 1]);
      RunIsSound(b, ops[..|ops| - 1]);
      ApplyIsSound(before, ops[|ops| - 1]);
      AdvancesTransitive(b, before, Run(b, ops));
    }
  }

  /** Every reachable state of the books is sound. */
  lemma EveryRunIsSound(ops: seq<Op>)
    ensures Sound(Run(EMPTY_BOOKS, ops))
  {
    hide Advances;
    RunIsSound(EMPTY_BOOKS, ops);
  }
}
