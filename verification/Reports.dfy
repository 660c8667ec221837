/** The treasurer's reports: income and expense for a period, and an account's dated statement. */
module Reports {
  import opened Prelude
  import opened Ledger
  import opened LedgerInvariants
  import opened LedgerTheorems

  // ----- income and expense -----

  datatype PeriodTotals = PeriodTotals(income: Cents, expense: Cents) {
    function NetCents(): Cents { Wrap64(income as int - expense as int) }
  }

  /** Money that left the external account, or came to it. */
  function Magnitude(cents: int, incoming: bool): int {
    if incoming then if cents < 0 then -cents else 0
    else if cents > 0 then cents else 0
  }

  function MagnitudeLines(rows: seq<Row>, ext: AccountId, incoming: bool): (xs: seq<int>)
    ensures |xs| == |rows|
  {
    seq(|rows|, i requires 0 <= i < |rows| => if rows[i].account == ext then Magnitude(rows[i].cents, incoming) else 0)
  }

  function CrossingLines(txs: seq<Transaction>, ext: AccountId, from: int, to: int, incoming: bool): (xs: seq<int>)
    ensures |xs| == |txs|
  {
    seq(|txs|, t requires 0 <= t < |txs| =>
      if txs[t].status == Posted && from <= txs[t].occurredAt <= to
      then Sum(MagnitudeLines(txs[t].rows, ext, incoming)) else 0)
  }

  /** What crossed a unit's external account in [from, to]; nothing when it has no such account yet. */
  function IncomeExpenseTotals(b: Books, unit: UnitId, from: int, to: int): Result<PeriodTotals, Error> {
    var ext := FindAccount(b.accounts, unit, External);
    if ext == |b.accounts| then Ok(PeriodTotals(0, 0))
    else
      var income := Sum(CrossingLines(b.txs, ext, from, to, true));
      var expense := Sum(CrossingLines(b.txs, ext, from, to, false));
      if Fits(income) && Fits(expense) then Ok(PeriodTotals(income, expense)) else Err(AmountOutOfRange)
  }

  /** The first moment after [from, to], or from itself when the period is empty. */
  function After(from: int, to: int): int {
    if to < from then from else to + 1
  }

  lemma PeriodIsDifference(txs: seq<Transaction>, a: AccountId, s: Stamps, from: int, to: int)
    ensures Total(txs, a, s, Before(After(from, to))) == Total(txs, a, s, Before(from)) + Total(txs, a, s, Within(from, to))
  {
    hide Sum, RowsTotal;
    SumZip(TxLines(txs, a, s, Before(from)), TxLines(txs, a, s, Within(from, to)), TxLines(txs, a, s, Before(After(from, to))));
  }

  lemma RowsNet(rows: seq<Row>, ext: AccountId)
    ensures Sum(MagnitudeLines(rows, ext, false)) == Sum(MagnitudeLines(rows, ext, true)) + RowsTotal(rows, ext, AnyStamp)
  {
    hide Sum;
    SumZip(MagnitudeLines(rows, ext, true), RowLines(rows, ext, AnyStamp), MagnitudeLines(rows, ext, false));
  }

  /** Income less expense is what the external account lost. */
  lemma NetIsExternalLoss(txs: seq<Transaction>, ext: AccountId, from: int, to: int)
    ensures Sum(CrossingLines(txs, ext, from, to, true)) - Sum(CrossingLines(txs, ext, from, to, false)) ==
            -Total(txs, ext, AnyStamp, Within(from, to))
  {
    hide Sum, RowsTotal, MagnitudeLines;
    var income, expense := CrossingLines(txs, ext, from, to, true), CrossingLines(txs, ext, from, to, false);
    var net := TxLines(txs, ext, AnyStamp, Within(from, to));
    forall t | 0 <= t < |txs|
      ensures expense[t] == income[t] + net[t]
    {
      RowsNet(txs[t].rows, ext);
    }
    SumZip(income, net, expense);
  }

  lemma CrossingIsPositive(txs: seq<Transaction>, ext: AccountId, from: int, to: int, incoming: bool)
    ensures Sum(CrossingLines(txs, ext, from, to, incoming)) >= 0
  {
    hide Sum;
    forall t | 0 <= t < |txs|
      ensures CrossingLines(txs, ext, from, to, incoming)[t] >= 0
    {
      SumNotNegative(MagnitudeLines(txs[t].rows, ext, incoming));
    }
    SumNotNegative(CrossingLines(txs, ext, from, to, incoming));
  }

  predicate IsOwn(accounts: seq<Account>, a: AccountId, unit: UnitId) {
    a < |accounts| && accounts[a].unit == unit && accounts[a].kind != External
  }

  /** How much each of the unit's own accounts, the external one left out, changed between two moments. */
  function OwnChanges(b: Books, unit: UnitId, from: int, end: int): (xs: seq<int>)
    ensures |xs| == |b.accounts|
  {
    seq(|b.accounts|, a requires 0 <= a < |b.accounts| =>
      if IsOwn(b.accounts, a, unit) then BalanceAsOf(b, a, end) - BalanceAsOf(b, a, from) else 0)
  }

  function OwnTotals(b: Books, unit: UnitId, p: Period): (xs: seq<int>)
    ensures |xs| == |b.accounts|
  {
    seq(|b.accounts|, a requires 0 <= a < |b.accounts| =>
      if IsOwn(b.accounts, a, unit) then Total(b.txs, a, AnyStamp, p) else 0)
  }

  lemma OwnChangesAreTotals(b: Books, unit: UnitId, from: int, to: int)
    ensures OwnChanges(b, unit, from, After(from, to)) == OwnTotals(b, unit, Within(from, to))
  {
    hide Total;
    forall a | 0 <= a < |b.accounts|
      ensures OwnChanges(b, unit, from, After(from, to))[a] == OwnTotals(b, unit, Within(from, to))[a]
    {
      PeriodIsDifference(b.txs, a, AnyStamp, from, to);
    }
  }

  /** What the unit's own accounts gained is what its external account, if it has one, lost. */
  lemma OwnAgainstExternal(b: Books, unit: UnitId, p: Period)
    requires AccountsOk(b)
    requires Sum(UnitTotals(b.accounts, b.txs, unit, p)) == 0
    ensures var ext := FindAccount(b.accounts, unit, External);
            Sum(OwnTotals(b, unit, p)) == if ext < |b.accounts| then -Total(b.txs, ext, AnyStamp, p) else 0
  {
    hide Sum, Total;
    var ext := FindAccount(b.accounts, unit, External);
    var all, own := UnitTotals(b.accounts, b.txs, unit, p), OwnTotals(b, unit, p);
    if ext < |b.accounts| {
      assert all == own[ext := all[ext]];
      SumUpdate(own, ext, all[ext]);
    } else {
      assert all == own;
    }
  }

  /** A period's net is the total change, over that period, of all the unit's own balances. */
  lemma NetIsOwnChange(ops: seq<Op>, unit: UnitId, from: int, to: int)
    ensures var b := Run(EMPTY_BOOKS, ops);
            var totals := IncomeExpenseTotals(b, unit, from, to);
            totals.Ok? ==> totals.value.NetCents() == Sum(OwnChanges(b, unit, from, After(from, to)))
  {
    hide Run, Sum, Total, UnitTotals, CrossingLines, OwnChanges, OwnTotals;
    var b := Run(EMPTY_BOOKS, ops);
    EveryRunIsSound(ops);
    MoneyIsConserved(ops, unit, Within(from, to));
    OwnAgainstExternal(b, unit, Within(from, to));
    OwnChangesAreTotals(b, unit, from, to);
    var ext := FindAccount(b.accounts, unit, External);
    NetIsExternalLoss(b.txs, ext, from, to);
    CrossingIsPositive(b.txs, ext, from, to, true);
    CrossingIsPositive(b.txs, ext, from, to, false);
  }

  // ----- statements -----

  lemma WrapCongruent(x: int, k: int)
    ensures Wrap64(x + TWO_64 * k) == Wrap64(x)
  {
    var n := x + TWO_63;
    DivUnique(n + TWO_64 * k, TWO_64, n / TWO_64 + k, n % TWO_64);
  }

  /** Wrapping after every addition comes to the same as wrapping once at the end. */
  lemma WrapAdds(x: int, y: int)
    ensures Wrap64(Wrap64(x) + y) == Wrap64(x + y)
  {
    var q := (x + TWO_63) / TWO_64;
    assert x == Wrap64(x) + TWO_64 * q;
    WrapCongruent(Wrap64(x) + y, q);
  }

  /** The signed amount one account's statement shows for a transaction. */
  method AmountForAccount(rows: seq<Row>, a: AccountId) returns (total: Cents)
    ensures total == Wrap64(RowsTotal(rows, a, AnyStamp))
  {
    hide Wrap64, Sum;
    total := 0;
    NoRows(a);
    for i := 0 to |rows|
      invariant total == Wrap64(RowsTotal(rows[..i], a, AnyStamp))
    {
      RowsTotalPrefix(rows, i, a);
      if rows[i].account == a {
        WrapAdds(RowsTotal(rows[..i], a, AnyStamp), rows[i].cents);
        total := Wrap64(total + rows[i].cents);
      }
    }
    assert rows[..|rows|] == rows;
  }

  lemma NoRows(a: AccountId)
    ensures Wrap64(RowsTotal([], a, AnyStamp)) == 0
  {
  }

  lemma RowsTotalPrefix(rows: seq<Row>, i: nat, a: AccountId)
    requires i < |rows|
    ensures RowsTotal(rows[..i + 1], a, AnyStamp) == RowsTotal(rows[..i], a, AnyStamp) + RowCents(rows[i], a, AnyStamp)
  {
    hide RowsTotal, RowCents;
    assert rows[..i + 1] == rows[..i] + [rows[i]];
    RowsTotalAppend(rows[..i], rows[i], a, AnyStamp);
  }

  predicate Touches(tx: Transaction, a: AccountId) {
    exists i :: 0 <= i < |tx.rows| && tx.rows[i].account == a
  }

  /** What the statement's query returns: each transaction in the range that touches the account, oldest first. */
  ghost predicate InRange(b: Books, a: AccountId, from: int, to: int, list: seq<TxId>) {
    && (forall k :: 0 <= k < |list| ==> list[k] < |b.txs|)
    && (forall j, k :: 0 <= j < k < |list| ==>
          list[j] != list[k] && b.txs[list[j]].occurredAt <= b.txs[list[k]].occurredAt)
    && (forall t :: 0 <= t < |b.txs| ==> (t in list <==> Touches(b.txs[t], a) && from <= b.txs[t].occurredAt <= to))
  }

  datatype StatementRow = StatementRow(tx: TxId, amount: Cents, running: Cents)

  /** The transactions of a list that are posted. */
  function PostedOf(txs: seq<Transaction>, list: seq<TxId>): (r: seq<TxId>)
    requires forall k :: 0 <= k < |list| ==> list[k] < |txs|
    ensures forall k :: 0 <= k < |r| ==> r[k] < |txs|
  {
    if list == [] then []
    else
      var front, t := PostedOf(txs, list[..|list| - 1]), list[|list| - 1];
      if txs[t].status == Posted then front + [t] else front
  }

  /** What the listed transactions contribute to the account when they are posted. */
  function ListedLines(txs: seq<Transaction>, a: AccountId, list: seq<TxId>): (xs: seq<int>)
    requires forall k :: 0 <= k < |list| ==> list[k] < |txs|
    ensures |xs| == |list|
  {
    seq(|list|, k requires 0 <= k < |list| => TxCents(txs[list[k]], a, AnyStamp, Always))
  }

  function Entries(rows: seq<StatementRow>): seq<TxId> {
    seq(|rows|, k requires 0 <= k < |rows| => rows[k].tx)
  }

  /** The balance before row k. */
  function CarriedInto(opening: Cents, rows: seq<StatementRow>, k: nat): Cents
    requires k <= |rows|
  {
    if k == 0 then opening else rows[k - 1].running
  }

  /** Each row shows its entry's amount for the account and carries the balance on. */
  ghost predicate Carried(txs: seq<Transaction>, a: AccountId, opening: Cents, rows: seq<StatementRow>) {
    forall k :: 0 <= k < |rows| ==> CarriesOn(txs, a, CarriedInto(opening, rows, k), rows[k])
  }

  ghost predicate CarriesOn(txs: seq<Transaction>, a: AccountId, before: Cents, row: StatementRow) {
    && row.tx < |txs|
    && row.amount == Wrap64(RowsTotal(txs[row.tx].rows, a, AnyStamp))
    && row.running == Wrap64(before + row.amount)
  }

  /**
   One account's statement: a row for each posted transaction, in order, with the balance so far.
   Nothing is returned when the opening balance does not fit in 64 bits.
   */
  method StatementSection(b: Books, a: AccountId, from: int, to: int, list: seq<TxId>)
    returns (section: Option<(Cents, Cents, seq<StatementRow>)>)
    requires forall k :: 0 <= k < |list| ==> list[k] < |b.txs|
    ensures section.Some? <==> Fits(BalanceAsOf(b, a, from))
    ensures section.Some? ==>
              var (opening, ending, rows) := section.value;
              && opening == BalanceAsOf(b, a, from)
              && ending == Wrap64(opening + Sum(ListedLines(b.txs, a, list)))
              && Entries(rows) == PostedOf(b.txs, list)
              && Carried(b.txs, a, opening, rows)
              && ending == CarriedInto(opening, rows, |rows|)
    ensures section.Some? && InRange(b, a, from, to, list) ==>
              ShowsBalances(b, a, section.value.2) && section.value.1 == Wrap64(BalanceAsOf(b, a, After(from, to)))
  {
    hide Sum, RowsTotal, Wrap64, Total, PostedOf, ListedLines, Entries, Carried, CarriedInto, TxCents, InRange, ShowsBalances,
         After;
    var starting := BalanceAsOf(b, a, from);
    if !Fits(starting) {
      return None;
    }
    var running: Cents, rows := starting, [];
    NothingListed(b.txs, a, starting);
    for i := 0 to |list|
      invariant running == Wrap64(starting + Sum(ListedLines(b.txs, a, list[..i])))
      invariant Entries(rows) == PostedOf(b.txs, list[..i])
      invariant Carried(b.txs, a, starting, rows) && running == CarriedInto(starting, rows, |rows|)
    {
      ListedStep(b.txs, a, list, i);
      PostedOrNothing(b.txs[list[i]], a);
      if b.txs[list[i]].status == Posted {
        var amount := AmountForAccount(b.txs[list[i]].rows, a);
        AmountCarried(starting + Sum(ListedLines(b.txs, a, list[..i])), RowsTotal(b.txs[list[i]].rows, a, AnyStamp));
        running := Wrap64(running + amount);
        RowCarried(b.txs, a, starting, rows, StatementRow(list[i], amount, running));
        rows := rows + [StatementRow(list[i], amount, running)];
      }
    }
    assert list[..|list|] == list;
    if InRange(b, a, from, to, list) {
      StatementCloses(b, a, from, to, list);
      RowsShowBalances(b, a, from, to, list, rows);
    }
    return Some((starting, running, rows));
  }

  lemma PostedOrNothing(tx: Transaction, a: AccountId)
    ensures TxCents(tx, a, AnyStamp, Always) == if tx.status == Posted then RowsTotal(tx.rows, a, AnyStamp) else 0
  {
  }

  lemma AmountCarried(before: int, cents: int)
    ensures Wrap64(Wrap64(before) + Wrap64(cents)) == Wrap64(before + cents)
  {
    hide Wrap64;
    WrapAdds(before, Wrap64(cents));
    WrapAdds(cents, before);
  }

  lemma RowCarried(txs: seq<Transaction>, a: AccountId, opening: Cents, rows: seq<StatementRow>, row: StatementRow)
    requires Carried(txs, a, opening, rows)
    requires CarriesOn(txs, a, CarriedInto(opening, rows, |rows|), row)
    ensures Carried(txs, a, opening, rows + [row])
    ensures CarriedInto(opening, rows + [row], |rows + [row]|) == row.running
    ensures Entries(rows + [row]) == Entries(rows) + [row.tx]
  {
    hide CarriesOn;
    var more := rows + [row];
    forall k | 0 <= k < |more|
      ensures CarriesOn(txs, a, CarriedInto(opening, more, k), more[k])
    {
      if k < |rows| {
        assert more[k] == rows[k];
        assert CarriedInto(opening, more, k) == CarriedInto(opening, rows, k);
      } else {
        assert CarriedInto(opening, more, k) == CarriedInto(opening, rows, |rows|);
      }
    }
    assert Entries(more) == Entries(rows) + [row.tx];
  }

  lemma NothingListed(txs: seq<Transaction>, a: AccountId, opening: Cents)
    ensures Wrap64(opening + Sum(ListedLines(txs, a, []))) == opening
    ensures PostedOf(txs, []) == Entries([])
    ensures Carried(txs, a, opening, []) && CarriedInto(opening, [], 0) == opening
  {
    assert ListedLines(txs, a, []) == [];
  }

  lemma ListedStep(txs: seq<Transaction>, a: AccountId, list: seq<TxId>, i: nat)
    requires i < |list| && forall k :: 0 <= k < |list| ==> list[k] < |txs|
    ensures Sum(ListedLines(txs, a, list[..i + 1])) ==
            Sum(ListedLines(txs, a, list[..i])) + TxCents(txs[list[i]], a, AnyStamp, Always)
    ensures PostedOf(txs, list[..i + 1]) ==
            PostedOf(txs, list[..i]) + if txs[list[i]].status == Posted then [list[i]] else []
  {
    hide Sum, TxCents, ListedLines, PostedOf;
    PrefixSnoc(list, i);
    ListedAppend(txs, a, list[..i], list[i]);
  }

  lemma PrefixSnoc<T>(xs: seq<T>, i: nat)
    requires i < |xs|
    ensures xs[..i + 1] == xs[..i] + [xs[i]]
  {
  }

  lemma ListedAppend(txs: seq<Transaction>, a: AccountId, list: seq<TxId>, t: TxId)
    requires t < |txs| && forall k :: 0 <= k < |list| ==> list[k] < |txs|
    ensures Sum(ListedLines(txs, a, list + [t])) == Sum(ListedLines(txs, a, list)) + TxCents(txs[t], a, AnyStamp, Always)
    ensures PostedOf(txs, list + [t]) == PostedOf(txs, list) + if txs[t].status == Posted then [t] else []
  {
    hide Sum, TxCents;
    assert (list + [t])[..|list|] == list;
    assert ListedLines(txs, a, list + [t]) == ListedLines(txs, a, list) + [TxCents(txs[t], a, AnyStamp, Always)];
    SumSnoc(ListedLines(txs, a, list), TxCents(txs[t], a, AnyStamp, Always));
  }

  /** Adding up chosen positions once each comes to the whole when everything else is zero. */
  lemma {:induction false} ChosenSum(xs: seq<int>, list: seq<nat>, ys: seq<int>)
    requires |ys| == |list|
    requires forall k :: 0 <= k < |list| ==> list[k] < |xs| && ys[k] == xs[list[k]]
    requires forall j, k :: 0 <= j < k < |list| ==> list[j] != list[k]
    requires forall t :: 0 <= t < |xs| && t !in list ==> xs[t] == 0
    ensures Sum(ys) == Sum(xs)
    decreases |list|
  {
    hide Sum;
    if list == [] {
      SumZero(xs);
      SumZero(ys);
    } else {
      var n, last := |list| - 1, list[|list| - 1];
      var rest := xs[last := 0];
      assert list == list[..n] + [last];
      forall t | 0 <= t < |rest| && t !in list[..n]
        ensures rest[t] == 0
      {
        assert t == last || t !in list;
      }
      ChosenSum(rest, list[..n], ys[..n]);
      SumUpdate(xs, last, 0);
      assert ys == ys[..n] + [ys[n]];
      SumSnoc(ys[..n], ys[n]);
    }
  }

  /** Opening balance plus the statement's posted lines is the balance just after the period. */
  lemma StatementCloses(b: Books, a: AccountId, from: int, to: int, list: seq<TxId>)
    requires InRange(b, a, from, to, list)
    ensures BalanceAsOf(b, a, from) + Sum(ListedLines(b.txs, a, list)) == BalanceAsOf(b, a, After(from, to))
  {
    hide Sum, RowsTotal, After;
    PeriodIsDifference(b.txs, a, AnyStamp, from, to);
    var xs := TxLines(b.txs, a, AnyStamp, Within(from, to));
    forall t | 0 <= t < |b.txs| && t !in list
      ensures xs[t] == 0
    {
      if from <= b.txs[t].occurredAt <= to {
        RowsTotalElsewhere(b.txs[t].rows, a, AnyStamp);
      }
    }
    forall k | 0 <= k < |list|
      ensures list[k] in list
    {
    }
    ChosenSum(xs, list, ListedLines(b.txs, a, list));
  }

  /** The running balance after a row is the account's balance just after that moment, once the day's rows are done. */
  lemma RunningBalanceIsBalance(b: Books, a: AccountId, from: int, to: int, list: seq<TxId>, k: nat)
    requires InRange(b, a, from, to, list) && k < |list|
    requires k + 1 < |list| ==> b.txs[list[k]].occurredAt < b.txs[list[k + 1]].occurredAt
    ensures BalanceAsOf(b, a, from) + Sum(ListedLines(b.txs, a, list[..k + 1])) ==
            BalanceAsOf(b, a, b.txs[list[k]].occurredAt + 1)
  {
    hide Sum, BalanceAsOf, ListedLines, Touches;
    var last := b.txs[list[k]].occurredAt;
    assert list[k] in list;
    forall t | 0 <= t < |b.txs|
      ensures t in list[..k + 1] <==> Touches(b.txs[t], a) && from <= b.txs[t].occurredAt <= last
    {
      PrefixMembers(b, list, k, t);
    }
    StatementCloses(b, a, from, last, list[..k + 1]);
  }

  lemma PrefixMembers(b: Books, list: seq<TxId>, k: nat, t: TxId)
    requires k < |list| && t < |b.txs|
    requires forall i :: 0 <= i < |list| ==> list[i] < |b.txs|
    requires forall i, j :: 0 <= i < j < |list| ==> b.txs[list[i]].occurredAt <= b.txs[list[j]].occurredAt
    requires k + 1 < |list| ==> b.txs[list[k]].occurredAt < b.txs[list[k + 1]].occurredAt
    ensures t in list[..k + 1] <==> t in list && b.txs[t].occurredAt <= b.txs[list[k]].occurredAt
  {
    if t in list {
      var i :| 0 <= i < |list| && list[i] == t;
      if i <= k {
        assert list[..k + 1][i] == t;
      }
    }
  }

  // ----- what a printed row shows -----

  predicate EndsMoment(b: Books, rows: seq<StatementRow>, j: nat) {
    && j < |rows| && rows[j].tx < |b.txs|
    && (j + 1 < |rows| ==> rows[j + 1].tx < |b.txs| && b.txs[rows[j].tx].occurredAt < b.txs[rows[j + 1].tx].occurredAt)
  }

  /** The last row of each moment shows the account's balance just after it, as 64 bits hold it. */
  ghost predicate ShowsBalances(b: Books, a: AccountId, rows: seq<StatementRow>) {
    forall j :: 0 <= j < |rows| && EndsMoment(b, rows, j) ==>
                  rows[j].running == Wrap64(BalanceAsOf(b, a, b.txs[rows[j].tx].occurredAt + 1))
  }

  ghost predicate OldestFirst(b: Books, list: seq<TxId>) {
    && (forall k :: 0 <= k < |list| ==> list[k] < |b.txs|)
    && forall j, k :: 0 <= j < k < |list| ==>
         list[j] != list[k] && b.txs[list[j]].occurredAt <= b.txs[list[k]].occurredAt
  }

  lemma {:induction false} PostedOfLaws(b: Books, list: seq<TxId>)
    requires OldestFirst(b, list)
    ensures OldestFirst(b, PostedOf(b.txs, list))
    ensures forall t :: t in PostedOf(b.txs, list) <==> t in list && b.txs[t].status == Posted
    decreases |list|
  {
    if list != [] {
      var front, last := list[..|list| - 1], list[|list| - 1];
      PostedOfLaws(b, front);
      var posted := PostedOf(b.txs, front);
      forall j | 0 <= j < |posted|
        ensures posted[j] != last && b.txs[posted[j]].occurredAt <= b.txs[last].occurredAt
      {
        assert posted[j] in posted;
        var i :| 0 <= i < |front| && front[i] == posted[j];
        assert list[i] == posted[j];
      }
      assert forall t :: t in list <==> t in front || t == last;
    }
  }

  /** The posted entries up to a moment, each once, come to what the balance has changed by then. */
  lemma PostedPrefixCloses(b: Books, a: AccountId, from: int, last: int, list: seq<TxId>)
    requires OldestFirst(b, list)
    requires forall t :: 0 <= t < |b.txs| ==>
               (t in list <==> b.txs[t].status == Posted && Touches(b.txs[t], a) && from <= b.txs[t].occurredAt <= last)
    requires from <= last
    ensures BalanceAsOf(b, a, from) + Sum(ListedLines(b.txs, a, list)) == BalanceAsOf(b, a, last + 1)
  {
    hide Sum, RowsTotal;
    PeriodIsDifference(b.txs, a, AnyStamp, from, last);
    var xs := TxLines(b.txs, a, AnyStamp, Within(from, last));
    forall t | 0 <= t < |b.txs| && t !in list
      ensures xs[t] == 0
    {
      if b.txs[t].status == Posted && from <= b.txs[t].occurredAt <= last {
        RowsTotalElsewhere(b.txs[t].rows, a, AnyStamp);
      }
    }
    forall k | 0 <= k < |list|
      ensures list[k] in list
    {
    }
    ChosenSum(xs, list, ListedLines(b.txs, a, list));
  }

  lemma CarriedStep(txs: seq<Transaction>, a: AccountId, opening: Cents, rows: seq<StatementRow>, n: nat)
    requires n < |rows| && Carried(txs, a, opening, rows) && rows[n].tx < |txs| && txs[rows[n].tx].status == Posted
    ensures CarriedInto(opening, rows, n + 1) ==
            Wrap64(CarriedInto(opening, rows, n) + Wrap64(TxCents(txs[rows[n].tx], a, AnyStamp, Always)))
  {
    hide TxCents, RowsTotal, Wrap64;
    assert CarriesOn(txs, a, CarriedInto(opening, rows, n), rows[n]);
    PostedOrNothing(txs[rows[n].tx], a);
  }

  predicate AllPosted(txs: seq<Transaction>, list: seq<TxId>) {
    forall k :: 0 <= k < |list| ==> list[k] < |txs| && txs[list[k]].status == Posted
  }

  /** The balance carried into row m is the opening balance and the rows before it, as 64 bits hold the sum. */
  lemma {:induction false} CarriedIsSum(
      txs: seq<Transaction>, a: AccountId, opening: Cents, rows: seq<StatementRow>, list: seq<TxId>, m: nat)
    requires list == Entries(rows) && m <= |list| && AllPosted(txs, list) && Carried(txs, a, opening, rows)
    ensures CarriedInto(opening, rows, m) == Wrap64(opening + Sum(ListedLines(txs, a, list[..m])))
    decreases m
  {
    hide Sum, Wrap64, ListedLines, TxCents, Carried, PostedOf;
    if m == 0 {
      NothingListed(txs, a, opening);
      assert list[..0] == [];
    } else {
      var n := m - 1;
      assert list[n] == rows[n].tx;
      CarriedIsSum(txs, a, opening, rows, list, n);
      CarriedStep(txs, a, opening, rows, n);
      AmountCarried(opening + Sum(ListedLines(txs, a, list[..n])), TxCents(txs[list[n]], a, AnyStamp, Always));
      ListedStep(txs, a, list, n);
    }
  }

  /** The posted entries of the range up to position j, when that ends a moment, are all those up to that moment. */
  lemma PostedUpTo(b: Books, a: AccountId, from: int, to: int, list: seq<TxId>, posted: seq<TxId>, j: nat)
    requires InRange(b, a, from, to, list) && posted == PostedOf(b.txs, list) && j < |posted|
    requires j + 1 < |posted| ==> b.txs[posted[j]].occurredAt < b.txs[posted[j + 1]].occurredAt
    ensures OldestFirst(b, posted) && AllPosted(b.txs, posted) && from <= b.txs[posted[j]].occurredAt
    ensures forall t :: 0 <= t < |b.txs| ==>
              (t in posted[..j + 1] <==> b.txs[t].status == Posted && Touches(b.txs[t], a)
                                         && from <= b.txs[t].occurredAt <= b.txs[posted[j]].occurredAt)
  {
    hide Touches, PostedOf;
    PostedOfLaws(b, list);
    assert posted[j] in posted;
    forall k | 0 <= k < |posted|
      ensures b.txs[posted[k]].status == Posted
    {
      assert posted[k] in posted;
    }
    forall t | 0 <= t < |b.txs|
      ensures t in posted[..j + 1] <==> b.txs[t].status == Posted && Touches(b.txs[t], a)
                                        && from <= b.txs[t].occurredAt <= b.txs[posted[j]].occurredAt
    {
      PrefixMembers(b, posted, j, t);
    }
  }

  lemma RowShowsBalance(b: Books, a: AccountId, from: int, to: int, list: seq<TxId>, rows: seq<StatementRow>, j: nat)
    requires InRange(b, a, from, to, list) && Fits(BalanceAsOf(b, a, from))
    requires Entries(rows) == PostedOf(b.txs, list) && Carried(b.txs, a, BalanceAsOf(b, a, from), rows)
    requires EndsMoment(b, rows, j)
    ensures var balance := BalanceAsOf(b, a, b.txs[rows[j].tx].occurredAt + 1);
            rows[j].running == Wrap64(balance) && (Fits(balance) ==> rows[j].running == balance)
  {
    hide Sum, BalanceAsOf, ListedLines, Touches, Carried, Wrap64, PostedOf, InRange;
    var posted := Entries(rows);
    InRangeNumbers(b, a, from, to, list);
    PostedUpTo(b, a, from, to, list, posted, j);
    CarriedIsSum(b.txs, a, BalanceAsOf(b, a, from), rows, posted, j + 1);
    PrefixIsOldestFirst(b, posted, j + 1);
    PostedPrefixCloses(b, a, from, b.txs[posted[j]].occurredAt, posted[..j + 1]);
  }

  lemma InRangeNumbers(b: Books, a: AccountId, from: int, to: int, list: seq<TxId>)
    requires InRange(b, a, from, to, list)
    ensures forall k :: 0 <= k < |list| ==> list[k] < |b.txs|
  {
  }

  lemma PrefixIsOldestFirst(b: Books, list: seq<TxId>, m: nat)
    requires OldestFirst(b, list) && m <= |list|
    ensures OldestFirst(b, list[..m])
  {
  }

  lemma RowsShowBalances(b: Books, a: AccountId, from: int, to: int, list: seq<TxId>, rows: seq<StatementRow>)
    requires InRange(b, a, from, to, list) && Fits(BalanceAsOf(b, a, from))
    requires Entries(rows) == PostedOf(b.txs, list) && Carried(b.txs, a, BalanceAsOf(b, a, from), rows)
    ensures ShowsBalances(b, a, rows)
  {
    hide InRange, Carried, PostedOf, Entries, BalanceAsOf, Wrap64;
    InRangeNumbers(b, a, from, to, list);
    forall j | 0 <= j < |rows| && EndsMoment(b, rows, j)
      ensures rows[j].running == Wrap64(BalanceAsOf(b, a, b.txs[rows[j].tx].occurredAt + 1))
    {
      RowShowsBalance(b, a, from, to, list, rows, j);
    }
  }

  // ----- income and expense, entry by entry -----

  lemma MagnitudesOfOne(rows: seq<Row>, ext: AccountId, i: nat, incoming: bool)
    requires i < |rows| && forall k :: 0 <= k < |rows| ==> (rows[k].account == ext <==> k == i)
    ensures Sum(MagnitudeLines(rows, ext, incoming)) == Magnitude(rows[i].cents, incoming)
  {
    hide Sum;
    SumSingle(MagnitudeLines(rows, ext, incoming), i);
  }

  lemma CrossingAppend(txs: seq<Transaction>, tx: Transaction, ext: AccountId, from: int, to: int, incoming: bool)
    ensures Sum(CrossingLines(txs + [tx], ext, from, to, incoming)) ==
            Sum(CrossingLines(txs, ext, from, to, incoming))
            + if tx.status == Posted && from <= tx.occurredAt <= to then Sum(MagnitudeLines(tx.rows, ext, incoming)) else 0
  {
    hide Sum, MagnitudeLines;
    var x := if tx.status == Posted && from <= tx.occurredAt <= to then Sum(MagnitudeLines(tx.rows, ext, incoming)) else 0;
    assert CrossingLines(txs + [tx], ext, from, to, incoming) == CrossingLines(txs, ext, from, to, incoming) + [x];
    SumSnoc(CrossingLines(txs, ext, from, to, incoming), x);
  }

  /**
   An accepted entry with one posting on the external account counts in the periods that hold its moment and in no other:
   as income when it takes money from that account, as expense when it gives money to it, and never as both.
   */
  lemma EntryCounts(b: Books, unit: UnitId, kind: string, now: int, postings: seq<Posting>, i: nat, from: int, to: int)
    requires InsertProblem(b, unit, postings).None? && i < |postings| && FindAccount(b.accounts, unit, External) < |b.accounts|
    requires forall k :: 0 <= k < |postings| ==>
               (postings[k].account == FindAccount(b.accounts, unit, External) <==> k == i)
    ensures var x, y := IncomeExpenseTotals(b, unit, from, to),
                        IncomeExpenseTotals(Post(b, unit, kind, now, postings).0, unit, from, to);
            var cents, inside := postings[i].cents, from <= now <= to;
            x.Ok? && y.Ok? ==>
              && y.value.income as int == x.value.income as int + (if inside && cents < 0 then -(cents as int) else 0)
              && y.value.expense as int == x.value.expense as int + (if inside && cents > 0 then cents as int else 0)
  {
    hide Sum, InsertProblem, FindAccount, MagnitudeLines, CrossingLines;
    var ext := FindAccount(b.accounts, unit, External);
    var tx := NewTransaction(unit, kind, Posted, None, now, postings);
    MagnitudesOfOne(tx.rows, ext, i, true);
    MagnitudesOfOne(tx.rows, ext, i, false);
    CrossingAppend(b.txs, tx, ext, from, to, true);
    CrossingAppend(b.txs, tx, ext, from, to, false);
  }

  /** And with no entries there is neither. */
  lemma NothingCrossed(b: Books, unit: UnitId, from: int, to: int)
    requires b.txs == []
    ensures IncomeExpenseTotals(b, unit, from, to) == Ok(PeriodTotals(0, 0))
  {
    hide FindAccount;
  }
}
