/**
 The unit's books: accounts, double-entry transactions, approval requests and bank reconciliations, and
 what each ledger operation does to them. Identifiers are positions in the tables; reconciliations,
 the only rows that are ever deleted, are numbered separately.
 */
module Ledger {
  import opened Prelude

  type UnitId = nat
  type MemberId = nat
  type EventId = nat
  type AccountId = nat
  type TxId = nat
  type RequestId = nat
  type RecId = nat

  // ----- 64-bit amounts -----

  const TWO_63: int := 0x8000_0000_0000_0000
  const TWO_64: int := 0x1_0000_0000_0000_0000

  type Int64 = x: int | -TWO_63 <= x < TWO_63

  /** An amount of money, held in 64 bits. */
  type Cents = Int64

  /** A value as 64-bit arithmetic leaves it. */
  function Wrap64(x: int): (r: Int64)
    ensures -TWO_63 <= x < TWO_63 ==> r == x
  {
    (x + TWO_63) % TWO_64 - TWO_63
  }

  /** Whether a total survives being read back into 64 bits. */
  predicate Fits(x: int) {
    -TWO_63 <= x < TWO_63
  }

  // ----- tables -----

  datatype AccountKind = UnitGeneral | ScoutIndividual(member: MemberId) | TripFund(event: EventId) | External

  datatype Account = Account(unit: UnitId, kind: AccountKind, open: bool)

  /** What a caller asks to post: positive cents credit the account, negative cents debit it. */
  datatype Posting = Posting(account: AccountId, cents: Cents)

  /** A posting in the books, stamped with the reconciliation it was cleared on. */
  datatype Row = Row(account: AccountId, cents: Cents, cleared: Option<RecId>)

  datatype TxStatus = Posted | PendingApproval | Rejected

  datatype Transaction = Transaction(
    unit: UnitId, kind: string, status: TxStatus, rows: seq<Row>, occurredAt: int,
    reverses: Option<TxId>, request: Option<RequestId>)

  datatype Subject = CalendarEvent(event: EventId) | LedgerTransaction(tx: TxId) | OtherSubject(kind: string)

  datatype RequestStatus = Pending | Approved | Declined

  datatype Request = Request(subject: Subject, unit: UnitId, status: RequestStatus)

  datatype EventStatus = AwaitingApproval | Published | NotPublished

  datatype Reconciliation = Reconciliation(
    unit: UnitId, account: AccountId, statementDate: int, opening: Cents, closing: Cents,
    completed: bool, completedAt: nat)

  datatype Books = Books(
    accounts: seq<Account>, txs: seq<Transaction>, requests: seq<Request>, events: map<EventId, EventStatus>,
    recs: Records, nextRec: RecId, signOffs: nat)

  const EMPTY_BOOKS: Books := Books([], [], [], map[], map[], 0, 0)

  datatype Error =
    | TooFewPostings | ZeroAmount | Unbalanced | AccountNotFound | AccountClosed | RejectedAtCommit
    | NotPositive | InsufficientFunds | NotReversible | NotATripFund | BalanceNotZero | TripFundExists
    | RequestNotFound | ReconciliationNotFound | ReconciliationOpen | ReconciliationClosed
    | NotBalanced | PostingNotReconcilable | AmountOutOfRange

  function CentsOf(postings: seq<Posting>): seq<int> {
    seq(|postings|, i requires 0 <= i < |postings| => postings[i].cents)
  }

  // ----- balances -----

  /** Which stamps a total looks at. */
  datatype Stamps = AnyStamp | Unstamped | StampedBy(recs: set<RecId>)

  /** Which moments a total looks at. */
  datatype Period = Always | Before(at: int) | Within(from: int, to: int)

  predicate Selects(s: Stamps, cleared: Option<RecId>) {
    match s
    case AnyStamp => true
    case Unstamped => cleared.None?
    case StampedBy(recs) => cleared.Some? && cleared.value in recs
  }

  predicate During(p: Period, at: int) {
    match p
    case Always => true
    case Before(t) => at < t
    case Within(from, to) => from <= at <= to
  }

  function RowCents(row: Row, a: AccountId, s: Stamps): int {
    if row.account == a && Selects(s, row.cleared) then row.cents else 0
  }

  function RowLines(rows: seq<Row>, a: AccountId, s: Stamps): (xs: seq<int>)
    ensures |xs| == |rows|
  {
    seq(|rows|, i requires 0 <= i < |rows| => RowCents(rows[i], a, s))
  }

  function RowsTotal(rows: seq<Row>, a: AccountId, s: Stamps): int {
    Sum(RowLines(rows, a, s))
  }

  /** What a transaction contributes to account a: nothing until it is posted. */
  function TxCents(tx: Transaction, a: AccountId, s: Stamps, p: Period): int {
    if tx.status == Posted && During(p, tx.occurredAt) then RowsTotal(tx.rows, a, s) else 0
  }

  function TxLines(txs: seq<Transaction>, a: AccountId, s: Stamps, p: Period): (xs: seq<int>)
    ensures |xs| == |txs|
  {
    seq(|txs|, i requires 0 <= i < |txs| => TxCents(txs[i], a, s, p))
  }

  function Total(txs: seq<Transaction>, a: AccountId, s: Stamps, p: Period): int {
    Sum(TxLines(txs, a, s, p))
  }

  /** An account's balance: every posting on it from a posted transaction. */
  function Balance(b: Books, a: AccountId): int {
    Total(b.txs, a, AnyStamp, Always)
  }

  /** The balance from transactions that occurred strictly before the given moment. */
  function BalanceAsOf(b: Books, a: AccountId, at: int): int {
    Total(b.txs, a, AnyStamp, Before(at))
  }

  // ----- posting -----

  /** The first posting, in the order given, on an account of another unit or one that is closed. */
  function AccountProblem(accounts: seq<Account>, unit: UnitId, postings: seq<Posting>): (e: Option<Error>)
    ensures e.None? <==> forall i :: 0 <= i < |postings| ==>
                           var p := postings[i].account;
                           p < |accounts| && accounts[p].unit == unit && accounts[p].open
  {
    if postings == [] then None
    else
      var front, a := AccountProblem(accounts, unit, postings[..|postings| - 1]), postings[|postings| - 1].account;
      if front.Some? then front
      else if a >= |accounts| || accounts[a].unit != unit then Some(AccountNotFound)
      else if !accounts[a].open then Some(AccountClosed)
      else None
  }

  predicate HasZero(postings: seq<Posting>) {
    exists i :: 0 <= i < |postings| && postings[i].cents == 0
  }

  /**
   Why a transaction is refused. The application adds up the cents in 64-bit arithmetic; the database
   adds them up exactly when the transaction commits.
   */
  function InsertProblem(b: Books, unit: UnitId, postings: seq<Posting>): Option<Error> {
    if |postings| < 2 then Some(TooFewPostings)
    else if HasZero(postings) then Some(ZeroAmount)
    else if Wrap64(Sum(CentsOf(postings))) != 0 then Some(Unbalanced)
    else
      var problem := AccountProblem(b.accounts, unit, postings);
      if problem.Some? then problem
      else if Sum(CentsOf(postings)) != 0 then Some(RejectedAtCommit)
      else None
  }

  function RowsOf(postings: seq<Posting>): (rows: seq<Row>)
    ensures |rows| == |postings|
  {
    seq(|postings|, i requires 0 <= i < |postings| => Row(postings[i].account, postings[i].cents, None))
  }

  function NewTransaction(unit: UnitId, kind: string, status: TxStatus, reverses: Option<TxId>, now: int,
                          postings: seq<Posting>): Transaction {
    Transaction(unit, kind, status, RowsOf(postings), now, reverses, None)
  }

  function AddTransaction(b: Books, tx: Transaction): Books {
    b.(txs := b.txs + [tx])
  }

  /** Adds a pending transaction together with the request that will decide it. */
  function AddForApproval(b: Books, tx: Transaction): Books {
    b.(txs := b.txs + [tx.(request := Some(|b.requests|))],
       requests := b.requests + [Request(LedgerTransaction(|b.txs|), tx.unit, Pending)])
  }

  type Outcome<T> = (Books, Result<T, Error>)

  /** PostTransaction: an entry that takes effect at once. */
  function Post(b: Books, unit: UnitId, kind: string, now: int, postings: seq<Posting>): Outcome<TxId> {
    match InsertProblem(b, unit, postings)
    case Some(e) => (b, Err(e))
    case None => (AddTransaction(b, NewTransaction(unit, kind, Posted, None, now, postings)), Ok(|b.txs|))
  }

  /** An entry that waits for somebody else's approval. */
  function PostPending(b: Books, unit: UnitId, kind: string, now: int, postings: seq<Posting>): Outcome<TxId> {
    match InsertProblem(b, unit, postings)
    case Some(e) => (b, Err(e))
    case None => (AddForApproval(b, NewTransaction(unit, kind, PendingApproval, None, now, postings)), Ok(|b.txs|))
  }

  function SubmitExpense(b: Books, unit: UnitId, now: int, postings: seq<Posting>): Outcome<TxId> {
    PostPending(b, unit, "expense", now, postings)
  }

  function RequestTransfer(b: Books, unit: UnitId, now: int, scout: AccountId, fund: AccountId, cents: Cents): Outcome<TxId> {
    if cents <= 0 then (b, Err(NotPositive))
    else if !Fits(Balance(b, scout)) then (b, Err(AmountOutOfRange))
    else if Balance(b, scout) < cents then (b, Err(InsufficientFunds))
    else PostPending(b, unit, "trip_fund_transfer", now, [Posting(scout, -cents), Posting(fund, cents)])
  }

  // ----- approvals -----

  /** The debits of a transaction on one account. */
  function DebitLines(rows: seq<Row>, a: AccountId): (xs: seq<int>)
    ensures |xs| == |rows|
  {
    seq(|rows|, i requires 0 <= i < |rows| => if rows[i].account == a && rows[i].cents < 0 then rows[i].cents else 0)
  }

  function DebitTotal(rows: seq<Row>, a: AccountId): int {
    Sum(DebitLines(rows, a))
  }

  function DebitedAccounts(rows: seq<Row>): set<AccountId> {
    set i | 0 <= i < |rows| && rows[i].cents < 0 :: rows[i].account
  }

  ghost predicate StrictlyAscending(keys: seq<nat>) {
    forall i, j :: 0 <= i < j < |keys| ==> keys[i] < keys[j]
  }

  /** The members of a set in ascending order, the order every approval takes its locks in. */
  function SortedKeys(keys: set<nat>): (r: seq<nat>)
    ensures StrictlyAscending(r)
    ensures forall k :: k in r <==> k in keys
    decreases |keys|
  {
    if keys == {} then []
    else
      LargestExists(keys);
      var m :| m in keys && forall k :: k in keys ==> k <= m;
      SortedKeys(keys - {m}) + [m]
  }

  lemma LargestExists(keys: set<nat>)
    requires keys != {}
    ensures exists m :: m in keys && forall k :: k in keys ==> k <= m
    decreases |keys|
  {
    var x :| x in keys;
    if keys == {x} {
    } else {
      var rest := keys - {x};
      assert rest != {};
      LargestExists(rest);
      var m :| m in rest && forall k :: k in rest ==> k <= m;
      var top := if m < x then x else m;
      forall k | k in keys
        ensures k <= top
      {
        assert k == x || k in rest;
      }
    }
  }

  /** Why account a is not allowed this transaction's debits now; the comparison is made in 64 bits. */
  function DebitProblem(b: Books, rows: seq<Row>, a: AccountId): Option<Error> {
    if a >= |b.accounts| then Some(AccountNotFound)
    else if !b.accounts[a].open then Some(AccountClosed)
    else if !Fits(Balance(b, a)) || !Fits(DebitTotal(rows, a)) then Some(AmountOutOfRange)
    else if Wrap64(Balance(b, a) + DebitTotal(rows, a)) < 0 then Some(InsufficientFunds)
    else None
  }

  /** The first problem among the given accounts. */
  function DebitsProblem(b: Books, rows: seq<Row>, keys: seq<AccountId>): (e: Option<Error>)
    ensures e.None? <==> forall i :: 0 <= i < |keys| ==> DebitProblem(b, rows, keys[i]).None?
  {
    if keys == [] then None
    else
      var front := DebitsProblem(b, rows, keys[..|keys| - 1]);
      if front.Some? then front else DebitProblem(b, rows, keys[|keys| - 1])
  }

  predicate Decidable(b: Books, req: RequestId, unit: UnitId) {
    req < |b.requests| && b.requests[req].unit == unit && b.requests[req].status == Pending
  }

  /** The changes a decision makes once nothing stands in its way. */
  function DecisionEffect(b: Books, req: RequestId, approve: bool): Books
    requires req < |b.requests|
  {
    var b' := b.(requests := b.requests[req := b.requests[req].(status := if approve then Approved else Declined)]);
    match b.requests[req].subject
    case CalendarEvent(e) =>
      if e in b.events then b'.(events := b.events[e := if approve then Published else NotPublished]) else b'
    case LedgerTransaction(t) =>
      if t < |b.txs| then b'.(txs := b.txs[t := b.txs[t].(status := if approve then Posted else Rejected)]) else b'
    case OtherSubject(_) => b'
  }

  /** What an approval must still check: the debits are read first, then each account they fall on. */
  function ApprovalProblem(b: Books, req: RequestId, approve: bool): Option<Error>
    requires req < |b.requests|
  {
    match b.requests[req].subject
    case LedgerTransaction(t) =>
      if approve && t < |b.txs| then EntryProblem(b, b.txs[t].rows) else None
    case _ => None
  }

  function EntryProblem(b: Books, rows: seq<Row>): Option<Error> {
    var keys := SortedKeys(DebitedAccounts(rows));
    if exists i :: 0 <= i < |keys| && !Fits(DebitTotal(rows, keys[i])) then Some(AmountOutOfRange)
    else DebitsProblem(b, rows, keys)
  }

  function Decide(b: Books, req: RequestId, unit: UnitId, approve: bool): Outcome<()> {
    if !Decidable(b, req, unit) then (b, Err(RequestNotFound))
    else
      match ApprovalProblem(b, req, approve)
      case Some(e) => (b, Err(e))
      case None => (DecisionEffect(b, req, approve), Ok(()))
  }

  /** A calendar submission, which the same approval workflow decides. */
  function SubmitEvent(b: Books, event: EventId, unit: UnitId): Books {
    b.(events := b.events[event := AwaitingApproval],
       requests := b.requests + [Request(CalendarEvent(event), unit, Pending)])
  }

  // ----- corrections -----

  /** Changing the sign in 64-bit arithmetic leaves the smallest value as it is. */
  function Negate64(x: Cents): Cents {
    Wrap64(0 - (x as int))
  }

  function OppositePostings(rows: seq<Row>): (ps: seq<Posting>)
    ensures |ps| == |rows|
  {
    seq(|rows|, i requires 0 <= i < |rows| => Posting(rows[i].account, Negate64(rows[i].cents)))
  }

  predicate IsReversed(txs: seq<Transaction>, t: TxId) {
    exists i :: 0 <= i < |txs| && txs[i].reverses == Some(t)
  }

  function Reverse(b: Books, unit: UnitId, t: TxId, now: int): Outcome<TxId> {
    if t >= |b.txs| || b.txs[t].unit != unit then (b, Err(AccountNotFound))
    else if b.txs[t].status != Posted || b.txs[t].reverses.Some? || IsReversed(b.txs, t) then (b, Err(NotReversible))
    else
      var postings := OppositePostings(b.txs[t].rows);
      match InsertProblem(b, unit, postings)
      case Some(e) => (b, Err(e))
      case None =>
        (AddTransaction(b, NewTransaction(unit, "reversal", Posted, Some(t), now, postings)), Ok(|b.txs|))
  }

  // ----- accounts -----

  /** The account of the given kind, or the number of accounts when the unit has none. */
  function FindAccount(accounts: seq<Account>, unit: UnitId, kind: AccountKind): (a: AccountId)
    ensures a <= |accounts|
    ensures a < |accounts| ==> accounts[a].unit == unit && accounts[a].kind == kind
    ensures a == |accounts| ==> forall i :: 0 <= i < |accounts| ==> !(accounts[i].unit == unit && accounts[i].kind == kind)
  {
    if accounts == [] then 0
    else
      var n := |accounts| - 1;
      var front := FindAccount(accounts[..n], unit, kind);
      if front < n then front else if accounts[n].unit == unit && accounts[n].kind == kind then n else n + 1
  }

  /** The account of the given kind, opened on first use. */
  function EnsureAccount(b: Books, unit: UnitId, kind: AccountKind): (r: (Books, AccountId)) {
    var a := FindAccount(b.accounts, unit, kind);
    if a < |b.accounts| then (b, a) else (b.(accounts := b.accounts + [Account(unit, kind, true)]), a)
  }

  function CreateTripFund(b: Books, unit: UnitId, event: EventId): Outcome<AccountId> {
    if FindAccount(b.accounts, unit, TripFund(event)) < |b.accounts| then (b, Err(TripFundExists))
    else
      var (b', a) := EnsureAccount(b, unit, TripFund(event));
      (b', Ok(a))
  }

  function CloseTripFund(b: Books, unit: UnitId, a: AccountId): Outcome<()> {
    if a >= |b.accounts| || b.accounts[a].unit != unit then (b, Err(AccountNotFound))
    else if !b.accounts[a].kind.TripFund? then (b, Err(NotATripFund))
    else if !b.accounts[a].open then (b, Err(AccountClosed))
    else if !Fits(Balance(b, a)) then (b, Err(AmountOutOfRange))
    else if Balance(b, a) != 0 then (b, Err(BalanceNotZero))
    else (b.(accounts := b.accounts[a := b.accounts[a].(open := false)]), Ok(()))
  }

  // ----- bank reconciliation -----

  type Records = map<RecId, Reconciliation>

  predicate CompletedOn(recs: Records, r: RecId, a: AccountId) {
    r in recs && recs[r].completed && recs[r].account == a
  }

  predicate OpenOn(recs: Records, r: RecId, a: AccountId) {
    r in recs && !recs[r].completed && recs[r].account == a
  }

  /** Later statement date first, then later completion. */
  predicate Newer(x: Reconciliation, y: Reconciliation) {
    x.statementDate > y.statementDate || (x.statementDate == y.statementDate && x.completedAt > y.completedAt)
  }

  /** The newest completed reconciliation of account a among those numbered below n. */
  function LatestBelow(recs: Records, a: AccountId, n: nat): (r: Option<RecId>)
    ensures r.Some? ==> r.value < n && CompletedOn(recs, r.value, a)
    ensures r.None? ==> forall k :: 0 <= k < n ==> !CompletedOn(recs, k, a)
  {
    if n == 0 then None
    else
      var best := LatestBelow(recs, a, n - 1);
      if CompletedOn(recs, n - 1, a) && (best.None? || Newer(recs[n - 1], recs[best.value])) then Some(n - 1) else best
  }

  /** Where the next statement of account a starts: the newest completed closing balance, or zero. */
  function LatestClosing(b: Books, a: AccountId): Cents {
    match LatestBelow(b.recs, a, b.nextRec)
    case None => 0
    case Some(r) => b.recs[r].closing
  }

  function StartReconciliation(b: Books, unit: UnitId, a: AccountId, date: int, closing: Cents): Outcome<RecId> {
    if a >= |b.accounts| || b.accounts[a].unit != unit then (b, Err(AccountNotFound))
    else if exists r :: r in b.recs && OpenOn(b.recs, r, a) then (b, Err(ReconciliationOpen))
    else
      var rec := Reconciliation(unit, a, date, LatestClosing(b, a), closing, false, 0);
      (b.(recs := b.recs[b.nextRec := rec], nextRec := b.nextRec + 1), Ok(b.nextRec))
  }

  /** Why a reconciliation cannot be worked on. */
  function WorkProblem(b: Books, unit: UnitId, r: RecId): Option<Error> {
    if r !in b.recs || b.recs[r].unit != unit then Some(ReconciliationNotFound)
    else if b.recs[r].completed then Some(ReconciliationClosed)
    else None
  }

  predicate CanTick(b: Books, r: RecId, t: TxId, i: nat)
    requires r in b.recs
  {
    && t < |b.txs| && i < |b.txs[t].rows|
    && b.txs[t].status == Posted
    && b.txs[t].rows[i].account == b.recs[r].account
    && (b.txs[t].rows[i].cleared.None? || b.txs[t].rows[i].cleared == Some(r))
  }

  function Stamp(b: Books, t: TxId, i: nat, stamp: Option<RecId>): Books
    requires t < |b.txs| && i < |b.txs[t].rows|
  {
    var tx := b.txs[t];
    b.(txs := b.txs[t := tx.(rows := tx.rows[i := tx.rows[i].(cleared := stamp)])])
  }

  /** Ticks or unticks posting i of transaction t. */
  function SetPostingCleared(b: Books, unit: UnitId, r: RecId, t: TxId, i: nat, cleared: bool): Outcome<()> {
    match WorkProblem(b, unit, r)
    case Some(e) => (b, Err(e))
    case None =>
      if !CanTick(b, r, t, i) then (b, Err(PostingNotReconcilable))
      else (Stamp(b, t, i, if cleared then Some(r) else None), Ok(()))
  }

  /** What has been ticked on reconciliation r. */
  function ClearedTotal(b: Books, r: RecId): int
    requires r in b.recs
  {
    Total(b.txs, b.recs[r].account, StampedBy({r}), Always)
  }

  /** The gap between the bank's closing balance and the cleared balance, as 64-bit arithmetic has it. */
  function Difference(b: Books, r: RecId): Cents
    requires r in b.recs
  {
    Wrap64(b.recs[r].closing as int - Wrap64(b.recs[r].opening as int + ClearedTotal(b, r)))
  }

  function CompleteReconciliation(b: Books, unit: UnitId, r: RecId): Outcome<()> {
    match WorkProblem(b, unit, r)
    case Some(e) => (b, Err(e))
    case None =>
      if !Fits(ClearedTotal(b, r)) then (b, Err(AmountOutOfRange))
      else if Difference(b, r) != 0 then (b, Err(NotBalanced))
      else (b.(recs := b.recs[r := b.recs[r].(completed := true, completedAt := b.signOffs)],
               signOffs := b.signOffs + 1), Ok(()))
  }

  function ReleaseRow(row: Row, r: RecId): Row {
    if row.cleared == Some(r) then row.(cleared := None) else row
  }

  function ReleaseRows(rows: seq<Row>, r: RecId): (rows': seq<Row>)
    ensures |rows'| == |rows|
  {
    seq(|rows|, i requires 0 <= i < |rows| => ReleaseRow(rows[i], r))
  }

  function Release(txs: seq<Transaction>, r: RecId): (txs': seq<Transaction>)
    ensures |txs'| == |txs|
  {
    seq(|txs|, i requires 0 <= i < |txs| => txs[i].(rows := ReleaseRows(txs[i].rows, r)))
  }

  /** Abandons a reconciliation and releases what was ticked on it. */
  function DeleteReconciliation(b: Books, unit: UnitId, r: RecId): Outcome<()> {
    match WorkProblem(b, unit, r)
    case Some(e) => (b, Err(e))
    case None => (b.(recs := b.recs - {r}, txs := Release(b.txs, r)), Ok(()))
  }

  // ----- whole runs -----

  datatype Op =
    | OpenAccountOp(unit: UnitId, kind: AccountKind)
    | CreateTripFundOp(unit: UnitId, event: EventId)
    | CloseTripFundOp(unit: UnitId, account: AccountId)
    | PostOp(unit: UnitId, kind_: string, now: int, postings: seq<Posting>)
    | SubmitExpenseOp(unit: UnitId, now: int, postings: seq<Posting>)
    | RequestTransferOp(unit: UnitId, now: int, scout: AccountId, fund: AccountId, cents: Cents)
    | SubmitEventOp(event: EventId, unit: UnitId)
    | DecideOp(req: RequestId, unit: UnitId, approve: bool)
    | ReverseOp(unit: UnitId, tx: TxId, now: int)
    | StartOp(unit: UnitId, account: AccountId, date: int, closing: Cents)
    | TickOp(unit: UnitId, rec: RecId, tx: TxId, row: nat, cleared: bool)
    | CompleteOp(unit: UnitId, rec: RecId)
    | DeleteOp(unit: UnitId, rec: RecId)

  /** The books after one operation, whether it succeeds or is refused. */
  function Apply(b: Books, op: Op): Books {
    match op
    case OpenAccountOp(u, k) => EnsureAccount(b, u, k).0
    case CreateTripFundOp(u, e) => CreateTripFund(b, u, e).0
    case CloseTripFundOp(u, a) => CloseTripFund(b, u, a).0
    case PostOp(u, k, now, ps) => Post(b, u, k, now, ps).0
    case SubmitExpenseOp(u, now, ps) => SubmitExpense(b, u, now, ps).0
    case RequestTransferOp(u, now, s, f, c) => RequestTransfer(b, u, now, s, f, c).0
    case SubmitEventOp(e, u) => SubmitEvent(b, e, u)
    case DecideOp(r, u, y) => Decide(b, r, u, y).0
    case ReverseOp(u, t, now) => Reverse(b, u, t, now).0
    case StartOp(u, a, d, c) => StartReconciliation(b, u, a, d, c).0
    case TickOp(u, r, t, i, c) => SetPostingCleared(b, u, r, t, i, c).0
    case CompleteOp(u, r) => CompleteReconciliation(b, u, r).0
    case DeleteOp(u, r) => DeleteReconciliation(b, u, r).0
  }

  function Run(b: Books, ops: seq<Op>): Books {
    if ops == [] then b else Apply(Run(b, ops[..|ops| - 1]), ops[|ops| - 1])
  }
}
