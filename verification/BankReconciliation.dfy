/**
 Bank reconciliation: on every run, what a completed reconciliation cleared stays cleared, and an account's
 balance is accounted for by the newest statement, what is ticked on the open one and what is not cleared yet.
 Statement arithmetic is 64-bit, so these equalities are between values that differ by a multiple of 2^64.
 */
module BankReconciliation {
  import opened Prelude
  import opened Ledger
  import opened LedgerInvariants
  import opened LedgerTheorems

  // ----- equality up to 64-bit wrap-around -----

  ghost predicate Congruent(x: int, y: int) {
    Wrap64(x) == Wrap64(y)
  }

  lemma CongruentByMultiple(x: int, y: int)
    ensures Congruent(x, y) <==> (x - y) % TWO_64 == 0
  {
    var p, q := (x + TWO_63) / TWO_64, (y + TWO_63) / TWO_64;
    if Congruent(x, y) {
      DivUnique(x - y, TWO_64, p - q, 0);
    }
    if (x - y) % TWO_64 == 0 {
      var k := (x - y) / TWO_64;
      DivUnique(x + TWO_63, TWO_64, q + k, (y + TWO_63) % TWO_64);
    }
  }

  lemma CongruentShift(x: int, y: int, z: int)
    requires Congruent(x, y)
    ensures Congruent(x + z, y + z)
  {
    hide Congruent;
    CongruentByMultiple(x, y);
    CongruentByMultiple(x + z, y + z);
    assert (x + z) - (y + z) == x - y;
  }

  lemma CongruentIsEqual(x: int, y: int)
    requires Congruent(x, y) && Fits(x) && Fits(y)
    ensures x == y
  {
  }

  // ----- completed reconciliations -----

  predicate IsCompleted(recs: Records, r: RecId) {
    r in recs && recs[r].completed
  }

  function CompletedOf(recs: Records, a: AccountId): set<RecId> {
    set r | r in recs && CompletedOn(recs, r, a)
  }

  function OpenOf(recs: Records, a: AccountId): set<RecId> {
    set r | r in recs && OpenOn(recs, r, a)
  }

  /** Completed after a reconciliation of the same account with a later statement date. */
  predicate OutOfOrder(recs: Records, r: RecId)
    requires r in recs
  {
    exists s :: s in recs && CompletedOn(recs, s, recs[r].account)
                && recs[s].completedAt < recs[r].completedAt && recs[s].statementDate > recs[r].statementDate
  }

  function DriftLines(recs: Records, a: AccountId, n: nat): (xs: seq<int>)
    ensures |xs| == n
  {
    seq(n, r requires 0 <= r < n =>
      if CompletedOn(recs, r, a) && OutOfOrder(recs, r) then recs[r].closing as int - recs[r].opening as int else 0)
  }

  /** What statements completed out of date order moved without the next opening balance noticing. */
  function Drift(b: Books, a: AccountId): int {
    Sum(DriftLines(b.recs, a, b.nextRec))
  }

  ghost predicate Numbered(b: Books) {
    && (forall r :: r in b.recs ==> r < b.nextRec && (b.recs[r].completed ==> b.recs[r].completedAt < b.signOffs))
    && (forall r, s :: IsCompleted(b.recs, r) && IsCompleted(b.recs, s) && r != s ==>
          b.recs[r].completedAt != b.recs[s].completedAt)
  }

  ghost predicate OneOpen(b: Books) {
    forall r, s, a :: OpenOn(b.recs, r, a) && OpenOn(b.recs, s, a) ==> r == s
  }

  ghost predicate StampOk(recs: Records, tx: Transaction, row: Row) {
    row.cleared.Some? ==>
      row.cleared.value in recs && recs[row.cleared.value].account == row.account && tx.status == Posted
  }

  /** Only postings in force are stamped, each by a reconciliation of its own account. */
  ghost predicate StampsOk(b: Books) {
    forall t, i :: 0 <= t < |b.txs| && 0 <= i < |b.txs[t].rows| ==> StampOk(b.recs, b.txs[t], b.txs[t].rows[i])
  }

  ghost predicate OpensAtLatest(b: Books) {
    forall r :: r in b.recs && !b.recs[r].completed ==> b.recs[r].opening == LatestClosing(b, b.recs[r].account)
  }

  /** Every completed reconciliation: opening balance plus what it cleared is its closing balance. */
  ghost predicate Signed(b: Books) {
    forall r :: IsCompleted(b.recs, r) ==> Congruent(b.recs[r].opening + ClearedTotal(b, r), b.recs[r].closing)
  }

  ghost predicate Accounted(b: Books, a: AccountId) {
    Congruent(Total(b.txs, a, StampedBy(CompletedOf(b.recs, a)), Always), LatestClosing(b, a) + Drift(b, a))
  }

  ghost predicate RecsOk(b: Books) {
    && Numbered(b) && OneOpen(b) && StampsOk(b) && OpensAtLatest(b) && Signed(b)
    && forall a :: Accounted(b, a)
  }

  // ----- what no operation changes -----

  ghost predicate SameCompleted(recs: Records, recs': Records) {
    forall r :: (IsCompleted(recs, r) <==> IsCompleted(recs', r)) && (IsCompleted(recs, r) ==> recs[r] == recs'[r])
  }

  ghost predicate OnlyCompleted(recs: Records, s: set<RecId>) {
    forall r :: r in s ==> IsCompleted(recs, r)
  }

  /** Completed reconciliations and everything cleared on them stay exactly as they are. */
  ghost predicate KeepsCompleted(b: Books, b': Books) {
    && (forall r :: IsCompleted(b.recs, r) ==> r in b'.recs && b'.recs[r] == b.recs[r])
    && (forall a, s :: OnlyCompleted(b.recs, s) ==>
          Total(b'.txs, a, StampedBy(s), Always) == Total(b.txs, a, StampedBy(s), Always))
  }

  ghost predicate SameCompletedOn(recs: Records, recs': Records, a: AccountId) {
    forall r :: (CompletedOn(recs, r, a) <==> CompletedOn(recs', r, a)) && (CompletedOn(recs, r, a) ==> recs[r] == recs'[r])
  }

  lemma SameOnEach(recs: Records, recs': Records, a: AccountId)
    requires SameCompleted(recs, recs')
    ensures SameCompletedOn(recs, recs', a)
  {
    forall r
      ensures (CompletedOn(recs, r, a) <==> CompletedOn(recs', r, a)) && (CompletedOn(recs, r, a) ==> recs[r] == recs'[r])
    {
      assert IsCompleted(recs, r) <==> IsCompleted(recs', r);
    }
  }

  lemma {:induction false} LatestSame(recs: Records, recs': Records, a: AccountId, n: nat)
    requires SameCompletedOn(recs, recs', a)
    ensures LatestBelow(recs', a, n) == LatestBelow(recs, a, n)
    decreases n
  {
    if n > 0 {
      hide CompletedOn, Newer;
      assert CompletedOn(recs, n - 1, a) <==> CompletedOn(recs', n - 1, a);
      LatestSame(recs, recs', a, n - 1);
      var best := LatestBelow(recs, a, n - 1);
      assert best.Some? ==> CompletedOn(recs, best.value, a);
    }
  }

  lemma DriftSame(recs: Records, recs': Records, a: AccountId, n: nat)
    requires SameCompletedOn(recs, recs', a)
    ensures DriftLines(recs', a, n) == DriftLines(recs, a, n)
  {
    forall r | 0 <= r < n
      ensures DriftLines(recs', a, n)[r] == DriftLines(recs, a, n)[r]
    {
      assert CompletedOn(recs, r, a) <==> CompletedOn(recs', r, a);
    }
  }

  lemma CompletedOfSame(recs: Records, recs': Records, a: AccountId)
    requires SameCompletedOn(recs, recs', a)
    ensures CompletedOf(recs', a) == CompletedOf(recs, a)
  {
    forall r
      ensures r in CompletedOf(recs', a) <==> r in CompletedOf(recs, a)
    {
      assert CompletedOn(recs, r, a) <==> CompletedOn(recs', r, a);
    }
  }

  lemma ClearedTotalKept(b: Books, b': Books, r: RecId)
    requires KeepsCompleted(b, b') && IsCompleted(b.recs, r)
    ensures r in b'.recs && b'.recs[r] == b.recs[r] && ClearedTotal(b', r) == ClearedTotal(b, r)
  {
    hide Total;
    assert OnlyCompleted(b.recs, {r});
  }

  /** The laws of completed reconciliations survive whatever leaves those as they are. */
  lemma LawsKept(b: Books, b': Books)
    requires Signed(b) && (forall a :: Accounted(b, a)) && KeepsCompleted(b, b') && SameCompleted(b.recs, b'.recs)
    requires forall a :: LatestClosing(b', a) == LatestClosing(b, a) && Drift(b', a) == Drift(b, a)
    ensures Signed(b') && forall a :: Accounted(b', a)
  {
    hide Total, LatestClosing, Drift, Congruent, ClearedTotal;
    forall r | IsCompleted(b'.recs, r)
      ensures Congruent(b'.recs[r].opening + ClearedTotal(b', r), b'.recs[r].closing)
    {
      assert IsCompleted(b.recs, r);
      ClearedTotalKept(b, b', r);
    }
    forall a
      ensures Accounted(b', a)
    {
      assert Accounted(b, a);
      SameOnEach(b.recs, b'.recs, a);
      CompletedOfSame(b.recs, b'.recs, a);
      assert OnlyCompleted(b.recs, CompletedOf(b.recs, a));
    }
  }

  // ----- operations that leave reconciliations alone -----

  ghost predicate NoStamps(rows: seq<Row>) {
    forall i :: 0 <= i < |rows| ==> rows[i].cleared.None?
  }

  /** Entries keep their rows, and those that are new or newly in force carry no stamps. */
  ghost predicate StampFree(b: Books, b': Books) {
    && b'.recs == b.recs && b'.nextRec == b.nextRec && b'.signOffs == b.signOffs
    && |b.txs| <= |b'.txs|
    && (forall t :: 0 <= t < |b.txs| ==>
          && b'.txs[t].rows == b.txs[t].rows
          && (b'.txs[t].status == b.txs[t].status || NoStamps(b.txs[t].rows)))
    && (forall t :: |b.txs| <= t < |b'.txs| ==> NoStamps(b'.txs[t].rows))
  }

  lemma UnstampedTotal(rows: seq<Row>, a: AccountId, s: set<RecId>)
    requires NoStamps(rows)
    ensures RowsTotal(rows, a, StampedBy(s)) == 0
  {
    SumZero(RowLines(rows, a, StampedBy(s)));
  }

  lemma StampFreeTotal(b: Books, b': Books, a: AccountId, s: set<RecId>)
    requires StampFree(b, b')
    ensures Total(b'.txs, a, StampedBy(s), Always) == Total(b.txs, a, StampedBy(s), Always)
  {
    hide RowsTotal, Sum;
    var xs, ys := TxLines(b.txs, a, StampedBy(s), Always), TxLines(b'.txs, a, StampedBy(s), Always);
    forall t | 0 <= t < |ys|
      ensures ys[t] == if t < |xs| then xs[t] else 0
    {
      if NoStamps(b'.txs[t].rows) {
        UnstampedTotal(b'.txs[t].rows, a, s);
      }
    }
    var zeros := ys[|xs|..];
    assert ys == xs + zeros;
    SumConcat(xs, zeros);
    SumZero(zeros);
  }

  lemma StampFreeKeepsRecs(b: Books, b': Books)
    requires RecsOk(b) && StampFree(b, b')
    ensures RecsOk(b') && KeepsCompleted(b, b')
  {
    hide Total, Congruent, Drift, LatestBelow;
    forall a, s
      ensures Total(b'.txs, a, StampedBy(s), Always) == Total(b.txs, a, StampedBy(s), Always)
    {
      StampFreeTotal(b, b', a, s);
    }
    assert forall a :: Drift(b', a) == Drift(b, a) by { SameRecsSameDrift(b, b'); }
    LawsKept(b, b');
    StampFreeStamps(b, b');
  }

  lemma SameRecsSameDrift(b: Books, b': Books)
    requires b'.recs == b.recs && b'.nextRec == b.nextRec
    ensures forall a :: Drift(b', a) == Drift(b, a)
  {
  }

  lemma StampFreeStamps(b: Books, b': Books)
    requires StampsOk(b) && StampFree(b, b')
    ensures StampsOk(b')
  {
    forall t, i | 0 <= t < |b'.txs| && 0 <= i < |b'.txs[t].rows|
      ensures StampOk(b'.recs, b'.txs[t], b'.txs[t].rows[i])
    {
      if t < |b.txs| {
        assert StampOk(b.recs, b.txs[t], b.txs[t].rows[i]);
      }
    }
  }

  lemma NewEntryIsStampFree(b: Books, unit: UnitId, kind: string, now: int, postings: seq<Posting>)
    ensures StampFree(b, Post(b, unit, kind, now, postings).0)
    ensures StampFree(b, PostPending(b, unit, kind, now, postings).0)
  {
    hide InsertProblem;
  }

  lemma DecideIsStampFree(b: Books, req: RequestId, unit: UnitId, approve: bool)
    requires RequestsOk(b) && StampsOk(b)
    ensures StampFree(b, Decide(b, req, unit, approve).0)
  {
    hide ApprovalProblem;
    if Decidable(b, req, unit) {
      assert RequestOk(b, req);
      match b.requests[req].subject
      case LedgerTransaction(t) =>
        forall i | 0 <= i < |b.txs[t].rows|
          ensures b.txs[t].rows[i].cleared.None?
        {
          assert StampOk(b.recs, b.txs[t], b.txs[t].rows[i]);
        }
      case _ =>
    }
  }

  // ----- ticking -----

  /** Changing the stamp of one row from or to r is invisible to totals that do not look at r. */
  lemma RestampedTotal(rows: seq<Row>, i: nat, stamp: Option<RecId>, a: AccountId, s: set<RecId>)
    requires i < |rows|
    requires rows[i].cleared.Some? ==> rows[i].cleared.value !in s
    requires stamp.Some? ==> stamp.value !in s
    ensures RowsTotal(rows[i := rows[i].(cleared := stamp)], a, StampedBy(s)) == RowsTotal(rows, a, StampedBy(s))
  {
    assert RowLines(rows[i := rows[i].(cleared := stamp)], a, StampedBy(s)) == RowLines(rows, a, StampedBy(s));
  }

  lemma StampTotal(b: Books, t: TxId, i: nat, stamp: Option<RecId>, a: AccountId, s: set<RecId>)
    requires t < |b.txs| && i < |b.txs[t].rows|
    requires b.txs[t].rows[i].cleared.Some? ==> b.txs[t].rows[i].cleared.value !in s
    requires stamp.Some? ==> stamp.value !in s
    ensures Total(Stamp(b, t, i, stamp).txs, a, StampedBy(s), Always) == Total(b.txs, a, StampedBy(s), Always)
  {
    hide Total, RowsTotal;
    var rows := b.txs[t].rows;
    RestampedTotal(rows, i, stamp, a, s);
    TotalUpdate(b.txs, t, b.txs[t].(rows := rows[i := rows[i].(cleared := stamp)]), a, StampedBy(s), Always);
  }

  lemma TickKeepsRecs(b: Books, unit: UnitId, r: RecId, t: TxId, i: nat, cleared: bool)
    requires RecsOk(b)
    ensures var b' := SetPostingCleared(b, unit, r, t, i, cleared).0; RecsOk(b') && KeepsCompleted(b, b')
  {
    hide Total, Congruent, Drift, LatestBelow;
    var b' := SetPostingCleared(b, unit, r, t, i, cleared).0;
    if SetPostingCleared(b, unit, r, t, i, cleared).1.Ok? {
      forall a, s | OnlyCompleted(b.recs, s)
        ensures Total(b'.txs, a, StampedBy(s), Always) == Total(b.txs, a, StampedBy(s), Always)
      {
        StampTotal(b, t, i, if cleared then Some(r) else None, a, s);
      }
      assert forall a :: Drift(b', a) == Drift(b, a) by { SameRecsSameDrift(b, b'); }
      LawsKept(b, b');
      TickStamps(b, r, t, i, if cleared then Some(r) else None);
    }
  }

  lemma TickStamps(b: Books, r: RecId, t: TxId, i: nat, stamp: Option<RecId>)
    requires StampsOk(b) && r in b.recs && CanTick(b, r, t, i) && (stamp.Some? ==> stamp.value == r)
    ensures StampsOk(Stamp(b, t, i, stamp))
  {
    var b' := Stamp(b, t, i, stamp);
    forall u, j | 0 <= u < |b'.txs| && 0 <= j < |b'.txs[u].rows|
      ensures StampOk(b'.recs, b'.txs[u], b'.txs[u].rows[j])
    {
      assert StampOk(b.recs, b.txs[u], b.txs[u].rows[j]);
    }
  }

  // ----- abandoning -----

  lemma ReleasedTotal(rows: seq<Row>, r: RecId, a: AccountId, s: set<RecId>)
    requires r !in s
    ensures RowsTotal(ReleaseRows(rows, r), a, StampedBy(s)) == RowsTotal(rows, a, StampedBy(s))
  {
    assert RowLines(ReleaseRows(rows, r), a, StampedBy(s)) == RowLines(rows, a, StampedBy(s));
  }

  lemma ReleaseTotal(txs: seq<Transaction>, r: RecId, a: AccountId, s: set<RecId>)
    requires r !in s
    ensures Total(Release(txs, r), a, StampedBy(s), Always) == Total(txs, a, StampedBy(s), Always)
  {
    hide RowsTotal, ReleaseRows;
    forall t | 0 <= t < |txs|
      ensures TxCents(txs[t], a, StampedBy(s), Always) == TxCents(Release(txs, r)[t], a, StampedBy(s), Always)
    {
      ReleasedTotal(txs[t].rows, r, a, s);
    }
    TotalSame(txs, Release(txs, r), a, StampedBy(s), Always);
  }

  lemma SameOnSameLatest(b: Books, b': Books, a: AccountId)
    requires SameCompletedOn(b.recs, b'.recs, a) && b'.nextRec == b.nextRec
    ensures LatestClosing(b', a) == LatestClosing(b, a) && Drift(b', a) == Drift(b, a)
  {
    hide Sum, DriftLines, CompletedOn;
    LatestSame(b.recs, b'.recs, a, b.nextRec);
    DriftSame(b.recs, b'.recs, a, b.nextRec);
    var latest := LatestBelow(b.recs, a, b.nextRec);
    assert latest.Some? ==> CompletedOn(b.recs, latest.value, a);
  }

  lemma SameCompletedSameLatest(b: Books, b': Books)
    requires SameCompleted(b.recs, b'.recs) && b'.nextRec == b.nextRec
    ensures forall a :: LatestClosing(b', a) == LatestClosing(b, a) && Drift(b', a) == Drift(b, a)
  {
    hide LatestClosing, Drift, SameCompleted, SameCompletedOn;
    forall a
      ensures LatestClosing(b', a) == LatestClosing(b, a) && Drift(b', a) == Drift(b, a)
    {
      SameOnEach(b.recs, b'.recs, a);
      SameOnSameLatest(b, b', a);
    }
  }

  lemma DeleteKeepsRecs(b: Books, unit: UnitId, r: RecId)
    requires RecsOk(b)
    ensures var b' := DeleteReconciliation(b, unit, r).0; RecsOk(b') && KeepsCompleted(b, b')
  {
    hide Total, Congruent, Drift, LatestClosing, Release;
    var b' := DeleteReconciliation(b, unit, r).0;
    if DeleteReconciliation(b, unit, r).1.Ok? {
      forall a, s | OnlyCompleted(b.recs, s)
        ensures Total(b'.txs, a, StampedBy(s), Always) == Total(b.txs, a, StampedBy(s), Always)
      {
        ReleaseTotal(b.txs, r, a, s);
      }
      SameCompletedSameLatest(b, b');
      LawsKept(b, b');
      ReleasedStamps(b, r);
      FewerOpen(b, b');
    }
  }

  lemma FewerOpen(b: Books, b': Books)
    requires OneOpen(b) && forall r, a :: OpenOn(b'.recs, r, a) ==> OpenOn(b.recs, r, a)
    ensures OneOpen(b')
  {
    hide OpenOn;
  }

  lemma ReleasedStamps(b: Books, r: RecId)
    requires StampsOk(b)
    ensures StampsOk(b.(recs := b.recs - {r}, txs := Release(b.txs, r)))
  {
    var b' := b.(recs := b.recs - {r}, txs := Release(b.txs, r));
    forall u, j | 0 <= u < |b'.txs| && 0 <= j < |b'.txs[u].rows|
      ensures StampOk(b'.recs, b'.txs[u], b'.txs[u].rows[j])
    {
      assert StampOk(b.recs, b.txs[u], b.txs[u].rows[j]);
    }
  }

  // ----- starting -----

  lemma StartKeepsRecs(b: Books, unit: UnitId, a: AccountId, date: int, closing: Cents)
    requires RecsOk(b)
    ensures var b' := StartReconciliation(b, unit, a, date, closing).0; RecsOk(b') && KeepsCompleted(b, b')
  {
    hide Total, Congruent, Drift, LatestClosing;
    var b' := StartReconciliation(b, unit, a, date, closing).0;
    if StartReconciliation(b, unit, a, date, closing).1.Ok? {
      NewNumberChangesNothing(b, b');
      LawsKept(b, b');
      KeptStamps(b, b');
      StartedAlone(b, b', a);
    }
  }

  lemma StartedAlone(b: Books, b': Books, a: AccountId)
    requires OneOpen(b) && forall r :: !OpenOn(b.recs, r, a)
    requires forall r, c :: OpenOn(b'.recs, r, c) ==> OpenOn(b.recs, r, c) || (r == b.nextRec && c == a)
    ensures OneOpen(b')
  {
    hide OpenOn;
  }

  lemma NewNumberChangesNothing(b: Books, b': Books)
    requires Numbered(b) && SameCompleted(b.recs, b'.recs) && b'.nextRec == b.nextRec + 1
    ensures forall a :: LatestClosing(b', a) == LatestClosing(b, a) && Drift(b', a) == Drift(b, a)
  {
    hide Sum;
    assert !IsCompleted(b'.recs, b.nextRec) by { assert !IsCompleted(b.recs, b.nextRec); }
    SameCompletedSameLatest(b, b'.(nextRec := b.nextRec));
    forall a
      ensures LatestClosing(b', a) == LatestClosing(b, a) && Drift(b', a) == Drift(b, a)
    {
      assert LatestClosing(b'.(nextRec := b.nextRec), a) == LatestClosing(b, a);
      assert DriftLines(b'.recs, a, b'.nextRec) == DriftLines(b'.recs, a, b.nextRec) + [0];
      SumSnoc(DriftLines(b'.recs, a, b.nextRec), 0);
    }
  }

  lemma KeptStamps(b: Books, b': Books)
    requires StampsOk(b) && b'.txs == b.txs
    requires forall r :: r in b.recs ==> r in b'.recs && b'.recs[r].account == b.recs[r].account
    ensures StampsOk(b')
  {
    forall u, j | 0 <= u < |b'.txs| && 0 <= j < |b'.txs[u].rows|
      ensures StampOk(b'.recs, b'.txs[u], b'.txs[u].rows[j])
    {
      assert StampOk(b.recs, b.txs[u], b.txs[u].rows[j]);
    }
  }

  // ----- signing off -----

  /** x is the newest completed reconciliation of account a numbered below n. */
  ghost predicate IsLatest(recs: Records, a: AccountId, n: nat, x: Option<RecId>) {
    match x
    case None => forall k :: 0 <= k < n ==> !CompletedOn(recs, k, a)
    case Some(r) =>
      && r < n && CompletedOn(recs, r, a)
      && forall k :: 0 <= k < n && k != r && CompletedOn(recs, k, a) ==> Newer(recs[r], recs[k])
  }

  ghost predicate DistinctSignOffs(recs: Records, a: AccountId) {
    forall r, s :: CompletedOn(recs, r, a) && CompletedOn(recs, s, a) && r != s ==>
                     recs[r].completedAt != recs[s].completedAt
  }

  lemma {:induction false} LatestIsLatest(recs: Records, a: AccountId, n: nat)
    requires DistinctSignOffs(recs, a)
    ensures IsLatest(recs, a, n, LatestBelow(recs, a, n))
    decreases n
  {
    hide CompletedOn;
    if n > 0 {
      LatestIsLatest(recs, a, n - 1);
    }
  }

  lemma LatestUnique(recs: Records, a: AccountId, n: nat, x: Option<RecId>, y: Option<RecId>)
    requires IsLatest(recs, a, n, x) && IsLatest(recs, a, n, y)
    ensures x == y
  {
    hide CompletedOn;
  }

  /** The reconciliation just signed off is the newest, unless a later statement was signed off before it. */
  lemma SignedOffLatest(recs: Records, recs': Records, a: AccountId, n: nat, r: RecId)
    requires DistinctSignOffs(recs, a) && DistinctSignOffs(recs', a)
    requires r < n && !CompletedOn(recs, r, a) && CompletedOn(recs', r, a)
    requires forall k :: k != r ==> (k in recs <==> k in recs') && (k in recs ==> recs'[k] == recs[k])
    requires forall k: RecId :: CompletedOn(recs, k, a) ==> k < n && recs[k].completedAt < recs'[r].completedAt
    ensures LatestBelow(recs', a, n) == if OutOfOrder(recs', r) then LatestBelow(recs, a, n) else Some(r)
  {
    LatestIsLatest(recs, a, n);
    LatestIsLatest(recs', a, n);
    var old_ := LatestBelow(recs, a, n);
    if old_.Some? && recs[old_.value].statementDate > recs'[r].statementDate {
      assert CompletedOn(recs', old_.value, a);
      assert OutOfOrder(recs', r);
      assert IsLatest(recs', a, n, old_);
      LatestUnique(recs', a, n, old_, LatestBelow(recs', a, n));
    } else {
      forall k | CompletedOn(recs', k, a) && k != r
        ensures Newer(recs'[r], recs'[k]) && recs'[k].statementDate <= recs'[r].statementDate
      {
        assert CompletedOn(recs, k, a);
      }
      assert !OutOfOrder(recs', r);
      assert IsLatest(recs', a, n, Some(r));
      LatestUnique(recs', a, n, Some(r), LatestBelow(recs', a, n));
    }
  }

  lemma SignedOffDrift(recs: Records, recs': Records, a: AccountId, n: nat, r: RecId)
    requires r < n && !CompletedOn(recs, r, a) && CompletedOn(recs', r, a)
    requires forall k :: k != r ==> (k in recs <==> k in recs') && (k in recs ==> recs'[k] == recs[k])
    requires forall k :: CompletedOn(recs, k, a) ==> recs[k].completedAt < recs'[r].completedAt
    ensures Sum(DriftLines(recs', a, n)) ==
            Sum(DriftLines(recs, a, n)) + if OutOfOrder(recs', r) then recs'[r].closing as int - recs'[r].opening as int else 0
  {
    hide Sum;
    var xs, ys := DriftLines(recs, a, n), DriftLines(recs', a, n);
    forall k | 0 <= k < n && k != r
      ensures ys[k] == xs[k]
    {
      if CompletedOn(recs, k, a) {
        SameOrderBefore(recs, recs', a, k, r);
      }
    }
    assert ys == xs[r := ys[r]];
    SumUpdate(xs, r, ys[r]);
  }

  lemma SameOrderBefore(recs: Records, recs': Records, a: AccountId, k: RecId, r: RecId)
    requires CompletedOn(recs, k, a) && k != r && !CompletedOn(recs, r, a) && CompletedOn(recs', r, a)
    requires forall k :: k != r ==> (k in recs <==> k in recs') && (k in recs ==> recs'[k] == recs[k])
    requires recs[k].completedAt < recs'[r].completedAt
    ensures k in recs' && (OutOfOrder(recs', k) <==> OutOfOrder(recs, k))
  {
    if OutOfOrder(recs, k) {
      var s :| s in recs && CompletedOn(recs, s, a)
               && recs[s].completedAt < recs[k].completedAt && recs[s].statementDate > recs[k].statementDate;
      assert CompletedOn(recs', s, a);
    }
    if OutOfOrder(recs', k) {
      var s :| s in recs' && CompletedOn(recs', s, a)
               && recs'[s].completedAt < recs'[k].completedAt && recs'[s].statementDate > recs'[k].statementDate;
      assert CompletedOn(recs, s, a);
    }
  }

  lemma StampedUnion(txs: seq<Transaction>, a: AccountId, x: set<RecId>, y: set<RecId>)
    requires x !! y
    ensures Total(txs, a, StampedBy(x + y), Always) ==
            Total(txs, a, StampedBy(x), Always) + Total(txs, a, StampedBy(y), Always)
  {
    hide Sum, RowsTotal;
    forall t | 0 <= t < |txs|
      ensures TxCents(txs[t], a, StampedBy(x + y), Always) ==
              TxCents(txs[t], a, StampedBy(x), Always) + TxCents(txs[t], a, StampedBy(y), Always)
    {
      RowsUnion(txs[t].rows, a, x, y);
    }
    SumZip(TxLines(txs, a, StampedBy(x), Always), TxLines(txs, a, StampedBy(y), Always),
           TxLines(txs, a, StampedBy(x + y), Always));
  }

  lemma RowsUnion(rows: seq<Row>, a: AccountId, x: set<RecId>, y: set<RecId>)
    requires x !! y
    ensures RowsTotal(rows, a, StampedBy(x + y)) == RowsTotal(rows, a, StampedBy(x)) + RowsTotal(rows, a, StampedBy(y))
  {
    hide Sum;
    SumZip(RowLines(rows, a, StampedBy(x)), RowLines(rows, a, StampedBy(y)), RowLines(rows, a, StampedBy(x + y)));
  }

  lemma NoDifferenceIsCongruent(opening: int, cleared: int, closing: int)
    requires Wrap64(closing - Wrap64(opening + cleared)) == 0
    ensures Congruent(opening + cleared, closing)
  {
    hide Wrap64;
    assert Wrap64(0) == 0;
    CongruentByMultiple(closing - Wrap64(opening + cleared), 0);
    CongruentByMultiple(Wrap64(opening + cleared), closing);
  }

  function SignedOff(b: Books, r: RecId): Books
    requires r in b.recs
  {
    b.(recs := b.recs[r := b.recs[r].(completed := true, completedAt := b.signOffs)], signOffs := b.signOffs + 1)
  }

  lemma SignOffArithmetic(total: int, opening: int, drift: int, cleared: int, closing: int)
    requires Congruent(total, opening + drift) && Congruent(opening + cleared, closing)
    ensures Congruent(total + cleared, closing + drift)
  {
    hide Congruent;
    CongruentShift(total, opening + drift, cleared);
    CongruentShift(opening + cleared, closing, drift);
    assert opening + drift + cleared == opening + cleared + drift;
    CongruentChain(total + cleared, opening + cleared + drift, closing + drift);
  }

  lemma SignedOffSet(b: Books, b': Books, r: RecId, a: AccountId)
    requires OpenOn(b.recs, r, a) && b' == SignedOff(b, r)
    ensures CompletedOf(b'.recs, a) == CompletedOf(b.recs, a) + {r} && CompletedOf(b.recs, a) !! {r}
  {
  }

  lemma SignedOffClosing(b: Books, b': Books, r: RecId, a: AccountId)
    requires Numbered(b) && OpenOn(b.recs, r, a) && b' == SignedOff(b, r)
    ensures LatestClosing(b', a) == if OutOfOrder(b'.recs, r) then LatestClosing(b, a) else b.recs[r].closing
    ensures Drift(b', a) == Drift(b, a)
              + if OutOfOrder(b'.recs, r) then b.recs[r].closing as int - b.recs[r].opening as int else 0
  {
    hide Sum, DriftLines, LatestBelow, OutOfOrder, Numbered, DistinctSignOffs;
    SignOffPreconditions(b, b', r, a);
    SignedOffLatest(b.recs, b'.recs, a, b.nextRec, r);
    SignedOffDrift(b.recs, b'.recs, a, b.nextRec, r);
  }

  /** Signing off r on account a keeps that account accounted for. */
  lemma SignOffAccounted(b: Books, b': Books, r: RecId, a: AccountId)
    requires Numbered(b) && OpensAtLatest(b) && Accounted(b, a)
    requires OpenOn(b.recs, r, a) && Difference(b, r) == 0 && b' == SignedOff(b, r)
    ensures Accounted(b', a)
  {
    hide Total, LatestClosing, Drift, Congruent, Wrap64, CompletedOf, Numbered, OutOfOrder;
    var done := CompletedOf(b.recs, a);
    SignedOffSet(b, b', r, a);
    StampedUnion(b.txs, a, done, {r});
    SignedOffClosing(b, b', r, a);
    NoDifferenceIsCongruent(b.recs[r].opening, ClearedTotal(b, r), b.recs[r].closing);
    SignOffArithmetic(Total(b.txs, a, StampedBy(done), Always), b.recs[r].opening, Drift(b, a), ClearedTotal(b, r),
                      b.recs[r].closing);
  }

  lemma CongruentChain(x: int, y: int, z: int)
    requires Congruent(x, y) && Congruent(y, z)
    ensures Congruent(x, z)
  {
  }

  lemma SignOffPreconditions(b: Books, b': Books, r: RecId, a: AccountId)
    requires Numbered(b) && OpenOn(b.recs, r, a)
    requires b' == SignedOff(b, r)
    ensures DistinctSignOffs(b.recs, a) && DistinctSignOffs(b'.recs, a) && Numbered(b')
    ensures forall k: RecId :: CompletedOn(b.recs, k, a) ==> k < b.nextRec && b.recs[k].completedAt < b'.recs[r].completedAt
    ensures r < b.nextRec
  {
    assert forall k :: CompletedOn(b.recs, k, a) ==> IsCompleted(b.recs, k);
    assert forall k :: CompletedOn(b'.recs, k, a) ==> IsCompleted(b'.recs, k);
    assert forall k :: IsCompleted(b'.recs, k) ==> k == r || IsCompleted(b.recs, k);
  }

  lemma SignOffElsewhere(b: Books, b': Books, r: RecId, c: AccountId)
    requires r in b.recs && !b.recs[r].completed && b.recs[r].account != c && Accounted(b, c)
    requires b' == SignedOff(b, r)
    ensures Accounted(b', c) && LatestClosing(b', c) == LatestClosing(b, c)
  {
    hide Total, LatestClosing, Drift, Congruent;
    assert SameCompletedOn(b.recs, b'.recs, c);
    SameOnSameLatest(b, b', c);
    CompletedOfSame(b.recs, b'.recs, c);
  }

  lemma CompleteKeepsRecs(b: Books, unit: UnitId, r: RecId)
    requires RecsOk(b)
    ensures var b' := CompleteReconciliation(b, unit, r).0; RecsOk(b') && KeepsCompleted(b, b')
  {
    hide Total, Congruent, Drift, LatestClosing, Difference, Accounted, ClearedTotal;
    var b' := CompleteReconciliation(b, unit, r).0;
    if CompleteReconciliation(b, unit, r).1.Ok? {
      var a := b.recs[r].account;
      SignOffPreconditions(b, b', r, a);
      SignOffAccounted(b, b', r, a);
      forall c | c != a
        ensures Accounted(b', c) && LatestClosing(b', c) == LatestClosing(b, c)
      {
        SignOffElsewhere(b, b', r, c);
      }
      FewerOpen(b, b');
      KeptStamps(b, b');
      SignOffSigned(b, b', r);
      SignOffOpens(b, b', r);
    }
  }

  lemma SignOffSigned(b: Books, b': Books, r: RecId)
    requires Signed(b) && r in b.recs && Difference(b, r) == 0
    requires b' == SignedOff(b, r)
    ensures Signed(b')
  {
    hide Total, Congruent, Wrap64;
    NoDifferenceIsCongruent(b.recs[r].opening, ClearedTotal(b, r), b.recs[r].closing);
    forall s | IsCompleted(b'.recs, s)
      ensures Congruent(b'.recs[s].opening + ClearedTotal(b', s), b'.recs[s].closing)
    {
      if s != r {
        assert IsCompleted(b.recs, s);
      }
    }
  }

  lemma SignOffOpens(b: Books, b': Books, r: RecId)
    requires OpensAtLatest(b) && OneOpen(b) && r in b.recs && !b.recs[r].completed
    requires b' == SignedOff(b, r)
    requires forall c :: c != b.recs[r].account ==> LatestClosing(b', c) == LatestClosing(b, c)
    ensures OpensAtLatest(b')
  {
    hide LatestClosing;
    assert OpenOn(b.recs, r, b.recs[r].account);
    forall s | s in b'.recs && !b'.recs[s].completed
      ensures b'.recs[s].opening == LatestClosing(b', b'.recs[s].account)
    {
      assert OpenOn(b.recs, s, b.recs[s].account);
    }
  }

  // ----- whole runs -----

  lemma ApplyKeepsRecs(b: Books, op: Op)
    requires Sound(b) && RecsOk(b)
    ensures RecsOk(Apply(b, op)) && KeepsCompleted(b, Apply(b, op))
  {
    hide RecsOk, KeepsCompleted, StampFree, EnsureAccount, CloseTripFund, Post, PostPending, RequestTransfer, SubmitEvent,
         Decide, Reverse, StartReconciliation, SetPostingCleared, CompleteReconciliation, DeleteReconciliation,
         CreateTripFund, AllBalanced, ReversalsOk, RequestsOk, AccountsOk, ClosedOk;
    match op
    case StartOp(u, a, d, c) => StartKeepsRecs(b, u, a, d, c);
    case TickOp(u, r, t, i, c) => TickKeepsRecs(b, u, r, t, i, c);
    case CompleteOp(u, r) => CompleteKeepsRecs(b, u, r);
    case DeleteOp(u, r) => DeleteKeepsRecs(b, u, r);
    case _ =>
      OtherOpsAreStampFree(b, op);
      StampFreeKeepsRecs(b, Apply(b, op));
  }

  predicate OnReconciliations(op: Op) {
    op.StartOp? || op.TickOp? || op.CompleteOp? || op.DeleteOp?
  }

  lemma OtherOpsAreStampFree(b: Books, op: Op)
    requires Sound(b) && RecsOk(b) && !OnReconciliations(op)
    ensures StampFree(b, Apply(b, op))
  {
    hide Balance, Post, PostPending, Decide, InsertProblem, IsReversed, FindAccount, AllBalanced, ReversalsOk, AccountsOk, ClosedOk,
         Signed, Accounted, Numbered, OneOpen, OpensAtLatest, RequestsOk, StampsOk;
    match op
    case PostOp(u, k, now, ps) => NewEntryIsStampFree(b, u, k, now, ps);
    case SubmitExpenseOp(u, now, ps) => NewEntryIsStampFree(b, u, "expense", now, ps);
    case RequestTransferOp(u, now, s, f, c) =>
      if c > 0 {
        NewEntryIsStampFree(b, u, "trip_fund_transfer", now, [Posting(s, -c), Posting(f, c)]);
      }
    case DecideOp(r, u, y) => DecideIsStampFree(b, r, u, y);
    case _ =>
  }

  lemma KeepsCompletedTransitive(b: Books, b': Books, b'': Books)
    requires KeepsCompleted(b, b') && KeepsCompleted(b', b'')
    ensures KeepsCompleted(b, b'')
  {
    hide Total;
    forall a, s | OnlyCompleted(b.recs, s)
      ensures Total(b''.txs, a, StampedBy(s), Always) == Total(b.txs, a, StampedBy(s), Always)
    {
      assert OnlyCompleted(b'.recs, s);
    }
  }

  lemma {:induction false} RunKeepsRecs(b: Books, ops: seq<Op>)
    requires Sound(b) && RecsOk(b)
    ensures RecsOk(Run(b, ops)) && KeepsCompleted(b, Run(b, ops))
    decreases |ops|
  {
    hide Sound, RecsOk, KeepsCompleted, Apply, Advances;
    if ops == [] {
      NothingKeepsCompleted(b);
    } else {
      var front := ops[..|ops| - 1];
      RunKeepsRecs(b, front);
      RunIsSound(b, front);
      ApplyKeepsRecs(Run(b, front), ops[|ops| - 1]);
      KeepsCompletedTransitive(b, Run(b, front), Run(b, ops));
    }
  }

  lemma NothingKeepsCompleted(b: Books)
    ensures KeepsCompleted(b, b)
  {
  }

  lemma EmptyBooksAreReconciled()
    ensures RecsOk(EMPTY_BOOKS)
  {
    hide Wrap64;
    forall a
      ensures Accounted(EMPTY_BOOKS, a)
    {
      assert DriftLines(map[], a, 0) == [];
    }
  }

  lemma EveryRunIsReconciled(ops: seq<Op>)
    ensures RecsOk(Run(EMPTY_BOOKS, ops)) && Sound(Run(EMPTY_BOOKS, ops))
  {
    hide RecsOk, Run, Sound, KeepsCompleted;
    EmptyBooksAreReconciled();
    EveryRunIsSound([]);
    assert Run(EMPTY_BOOKS, []) == EMPTY_BOOKS by { NoOps(EMPTY_BOOKS); }
    RunKeepsRecs(EMPTY_BOOKS, ops);
    EveryRunIsSound(ops);
  }

  lemma NoOps(b: Books)
    ensures Run(b, []) == b
  {
  }

  // ----- what an account's balance is made of -----

  function Ticked(b: Books, a: AccountId): int {
    Total(b.txs, a, StampedBy(OpenOf(b.recs, a)), Always)
  }

  function Uncleared(b: Books, a: AccountId): int {
    Total(b.txs, a, Unstamped, Always)
  }

  /** At most one reconciliation of an account is open, so what is ticked is what that one has cleared. */
  lemma TickedOnOpen(b: Books, r: RecId, a: AccountId)
    requires OneOpen(b) && OpenOn(b.recs, r, a)
    ensures Ticked(b, a) == ClearedTotal(b, r)
  {
    hide Total;
    assert OpenOf(b.recs, a) == {r};
  }

  lemma RowsByStamp(b: Books, t: TxId, a: AccountId)
    requires StampsOk(b) && t < |b.txs|
    ensures var rows := b.txs[t].rows;
            RowsTotal(rows, a, AnyStamp) == RowsTotal(rows, a, Unstamped)
                                            + RowsTotal(rows, a, StampedBy(CompletedOf(b.recs, a) + OpenOf(b.recs, a)))
  {
    hide Sum;
    var rows, s := b.txs[t].rows, StampedBy(CompletedOf(b.recs, a) + OpenOf(b.recs, a));
    forall i | 0 <= i < |rows|
      ensures RowLines(rows, a, AnyStamp)[i] == RowLines(rows, a, Unstamped)[i] + RowLines(rows, a, s)[i]
    {
      assert StampOk(b.recs, b.txs[t], rows[i]);
    }
    SumZip(RowLines(rows, a, Unstamped), RowLines(rows, a, s), RowLines(rows, a, AnyStamp));
  }

  lemma BalanceByStamp(b: Books, a: AccountId)
    requires StampsOk(b)
    ensures Balance(b, a) == Uncleared(b, a) + Total(b.txs, a, StampedBy(CompletedOf(b.recs, a)), Always) + Ticked(b, a)
  {
    hide Sum, RowsTotal, CompletedOf, OpenOf;
    var s := StampedBy(CompletedOf(b.recs, a) + OpenOf(b.recs, a));
    forall t | 0 <= t < |b.txs|
      ensures TxCents(b.txs[t], a, AnyStamp, Always) ==
              TxCents(b.txs[t], a, Unstamped, Always) + TxCents(b.txs[t], a, s, Always)
    {
      RowsByStamp(b, t, a);
    }
    SumZip(TxLines(b.txs, a, Unstamped, Always), TxLines(b.txs, a, s, Always), TxLines(b.txs, a, AnyStamp, Always));
    OpenOrCompleted(b.recs, a);
    StampedUnion(b.txs, a, CompletedOf(b.recs, a), OpenOf(b.recs, a));
  }

  lemma OpenOrCompleted(recs: Records, a: AccountId)
    ensures CompletedOf(recs, a) !! OpenOf(recs, a)
  {
  }

  /**
   On every run an account's balance is the newest statement's closing balance, plus what is ticked on the open
   reconciliation, plus what nobody has cleared, plus the drift of statements completed out of date order.
   */
  lemma BalanceIsAccountedFor(ops: seq<Op>, a: AccountId)
    ensures var b := Run(EMPTY_BOOKS, ops);
            Congruent(Balance(b, a), LatestClosing(b, a) + Ticked(b, a) + Uncleared(b, a) + Drift(b, a))
  {
    hide Run, Sound, Balance, Total, LatestClosing, Ticked, Uncleared, Drift, Congruent, Signed, Numbered, OneOpen, OpensAtLatest;
    EveryRunIsReconciled(ops);
    var b := Run(EMPTY_BOOKS, ops);
    BalanceByStamp(b, a);
    assert Accounted(b, a);
    CongruentShift(Total(b.txs, a, StampedBy(CompletedOf(b.recs, a)), Always), LatestClosing(b, a) + Drift(b, a),
                   Ticked(b, a) + Uncleared(b, a));
  }

  /** So the newest statement accounts for the balance on its own exactly when that drift vanishes. */
  lemma StatementsTelescopeIff(ops: seq<Op>, a: AccountId)
    ensures var b := Run(EMPTY_BOOKS, ops);
            Congruent(Balance(b, a), LatestClosing(b, a) + Ticked(b, a) + Uncleared(b, a)) <==> Congruent(Drift(b, a), 0)
  {
    hide Run, Balance, LatestClosing, Ticked, Uncleared, Drift, Congruent;
    BalanceIsAccountedFor(ops, a);
    var b := Run(EMPTY_BOOKS, ops);
    var x := LatestClosing(b, a) + Ticked(b, a) + Uncleared(b, a);
    CongruentByMultiple(Balance(b, a), x + Drift(b, a));
    CongruentByMultiple(Balance(b, a), x);
    CongruentByMultiple(Drift(b, a), 0);
    MultiplesAdd(Balance(b, a) - x, Drift(b, a));
  }

  lemma MultiplesAdd(x: int, y: int)
    requires (x - y) % TWO_64 == 0
    ensures x % TWO_64 == 0 <==> y % TWO_64 == 0
  {
    var k := (x - y) / TWO_64;
    DivUnique(y + TWO_64 * k, TWO_64, y / TWO_64 + k, y % TWO_64);
  }

  /** A completed reconciliation keeps balancing whatever is ticked, posted, reversed or abandoned later. */
  lemma CompletedStaysBalanced(ops: seq<Op>, r: RecId, more: seq<Op>)
    requires IsCompleted(Run(EMPTY_BOOKS, ops).recs, r)
    ensures var b := Run(EMPTY_BOOKS, ops);
            var later := Run(b, more);
            && r in later.recs && later.recs[r] == b.recs[r]
            && ClearedTotal(later, r) == ClearedTotal(b, r)
            && Congruent(b.recs[r].opening + ClearedTotal(later, r), b.recs[r].closing)
            && (Fits(b.recs[r].opening + ClearedTotal(later, r)) ==>
                  b.recs[r].opening + ClearedTotal(later, r) == b.recs[r].closing)
  {
    hide Run, Sound, KeepsCompleted, ClearedTotal, Congruent, Numbered, OneOpen, StampsOk, OpensAtLatest, Accounted;
    EveryRunIsReconciled(ops);
    RunKeepsRecs(Run(EMPTY_BOOKS, ops), more);
    ClearedTotalKept(Run(EMPTY_BOOKS, ops), Run(Run(EMPTY_BOOKS, ops), more), r);
    var rec, cleared := Run(EMPTY_BOOKS, ops).recs[r], ClearedTotal(Run(Run(EMPTY_BOOKS, ops), more), r);
    if Fits(rec.opening + cleared) {
      CongruentIsEqual(rec.opening + cleared, rec.closing);
    }
  }

  // ----- statements taken in date order -----

  /** Every reconciliation of account a is started with a date no earlier than those completed before it. */
  ghost predicate InDateOrder(b: Books, ops: seq<Op>, a: AccountId) {
    forall i, s :: 0 <= i < |ops| && ops[i].StartOp? && ops[i].account == a && CompletedOn(Run(b, ops[..i]).recs, s, a) ==>
                     Run(b, ops[..i]).recs[s].statementDate <= ops[i].date
  }

  ghost predicate Ordered(recs: Records, a: AccountId) {
    && (forall r, s :: OpenOn(recs, r, a) && CompletedOn(recs, s, a) ==> recs[s].statementDate <= recs[r].statementDate)
    && (forall r :: CompletedOn(recs, r, a) ==> !OutOfOrder(recs, r))
  }

  lemma OrderedKept(recs: Records, recs': Records, a: AccountId)
    requires Ordered(recs, a) && SameCompletedOn(recs, recs', a)
    requires forall r :: OpenOn(recs', r, a) ==>
                           (OpenOn(recs, r, a) && recs'[r] == recs[r])
                           || forall s :: CompletedOn(recs, s, a) ==> recs[s].statementDate <= recs'[r].statementDate
    ensures Ordered(recs', a)
  {
    hide OpenOn;
    forall r | CompletedOn(recs', r, a)
      ensures !OutOfOrder(recs', r)
    {
      assert CompletedOn(recs, r, a);
    }
  }

  lemma OrderedSignOff(b: Books, r: RecId, a: AccountId)
    requires Numbered(b) && OneOpen(b) && Ordered(b.recs, a) && OpenOn(b.recs, r, a)
    ensures Ordered(SignedOff(b, r).recs, a)
  {
    hide OutOfOrder;
    var b' := SignedOff(b, r);
    SignOffPreconditions(b, b', r, a);
    NotOutOfOrder(b, r, a);
    forall k | CompletedOn(b'.recs, k, a)
      ensures !OutOfOrder(b'.recs, k)
    {
      if k != r {
        SameOrderBefore(b.recs, b'.recs, a, k, r);
      }
    }
    forall k
      ensures !OpenOn(b'.recs, k, a)
    {
      assert OpenOn(b'.recs, k, a) ==> OpenOn(b.recs, k, a);
    }
  }

  lemma NotOutOfOrder(b: Books, r: RecId, a: AccountId)
    requires Ordered(b.recs, a) && OpenOn(b.recs, r, a)
    ensures !OutOfOrder(SignedOff(b, r).recs, r)
  {
    forall s | CompletedOn(SignedOff(b, r).recs, s, a) && s != r
      ensures CompletedOn(b.recs, s, a)
    {
    }
  }

  lemma ApplyKeepsOrder(b: Books, op: Op, a: AccountId)
    requires Sound(b) && RecsOk(b) && Ordered(b.recs, a)
    requires op.StartOp? && op.account == a ==>
               forall s :: CompletedOn(b.recs, s, a) ==> b.recs[s].statementDate <= op.date
    ensures Ordered(Apply(b, op).recs, a)
  {
    hide Sound, Balance, Post, PostPending, Decide, InsertProblem, IsReversed, FindAccount, Signed, Accounted, OpensAtLatest,
         Ordered, StampsOk, Difference, LatestClosing, ClearedTotal, Numbered, OneOpen, Release, CanTick;
    if !OnReconciliations(op) {
      OtherOpsAreStampFree(b, op);
    } else {
      match op
      case StartOp(u, c, d, k) =>
        NewIsOpen(b, u, c, d, k);
        OrderedKept(b.recs, Apply(b, op).recs, a);
      case TickOp(u, r, t, i, c) =>
      case CompleteOp(u, r) =>
        if CompleteReconciliation(b, u, r).1.Ok? {
          if b.recs[r].account == a {
            OrderedSignOff(b, r, a);
          } else {
            OrderedKept(b.recs, Apply(b, op).recs, a);
          }
        }
      case DeleteOp(u, r) => OrderedKept(b.recs, Apply(b, op).recs, a);
    }
  }

  lemma NewIsOpen(b: Books, unit: UnitId, a: AccountId, date: int, closing: Cents)
    requires Numbered(b)
    ensures var b' := StartReconciliation(b, unit, a, date, closing).0;
            && (forall c :: SameCompletedOn(b.recs, b'.recs, c))
            && forall r, c :: OpenOn(b'.recs, r, c) ==>
                 (OpenOn(b.recs, r, c) && b'.recs[r] == b.recs[r]) || (c == a && b'.recs[r].statementDate == date)
  {
    hide LatestClosing;
  }

  lemma {:induction false} RunKeepsOrder(ops: seq<Op>, a: AccountId)
    requires InDateOrder(EMPTY_BOOKS, ops, a)
    ensures Ordered(Run(EMPTY_BOOKS, ops).recs, a)
    decreases |ops|
  {
    hide Sound, RecsOk, Apply, Ordered;
    if ops == [] {
      NothingOrdered(a);
    } else {
      var front := ops[..|ops| - 1];
      assert forall i :: 0 <= i < |front| ==> front[..i] == ops[..i];
      RunKeepsOrder(front, a);
      EveryRunIsReconciled(front);
      ApplyKeepsOrder(Run(EMPTY_BOOKS, front), ops[|ops| - 1], a);
    }
  }

  lemma NothingOrdered(a: AccountId)
    ensures Ordered(map[], a)
  {
  }

  /** Statements taken in date order telescope: the newest one accounts for the balance. */
  lemma StatementsTelescope(ops: seq<Op>, a: AccountId)
    requires InDateOrder(EMPTY_BOOKS, ops, a)
    ensures var b := Run(EMPTY_BOOKS, ops);
            Congruent(Balance(b, a), LatestClosing(b, a) + Ticked(b, a) + Uncleared(b, a))
  {
    hide Run, Balance, LatestClosing, Ticked, Uncleared, Congruent, InDateOrder, OutOfOrder;
    var b := Run(EMPTY_BOOKS, ops);
    RunKeepsOrder(ops, a);
    StatementsTelescopeIff(ops, a);
    SumZero(DriftLines(b.recs, a, b.nextRec));
    assert Drift(b, a) == 0;
    CongruentByMultiple(0, 0);
  }

  /**
   On the statement being worked on: as long as the sums stay within 64 bits, its opening balance, what is ticked on
   it and what nobody has cleared are exactly the account's balance.
   */
  lemma OpenStatementAccountsForBalance(ops: seq<Op>, r: RecId, a: AccountId)
    requires InDateOrder(EMPTY_BOOKS, ops, a) && OpenOn(Run(EMPTY_BOOKS, ops).recs, r, a)
    ensures var b := Run(EMPTY_BOOKS, ops);
            Fits(Balance(b, a)) && Fits(b.recs[r].opening + ClearedTotal(b, r) + Uncleared(b, a)) ==>
              Balance(b, a) == b.recs[r].opening + ClearedTotal(b, r) + Uncleared(b, a)
  {
    hide Run, Sound, Balance, LatestClosing, Ticked, Uncleared, ClearedTotal, Congruent, InDateOrder, Numbered, StampsOk,
         Signed, Accounted;
    var b := Run(EMPTY_BOOKS, ops);
    EveryRunIsReconciled(ops);
    TickedOnOpen(b, r, a);
    StatementsTelescope(ops, a);
    var sum := b.recs[r].opening + ClearedTotal(b, r) + Uncleared(b, a);
    if Fits(Balance(b, a)) && Fits(sum) {
      CongruentIsEqual(Balance(b, a), sum);
    }
  }

  // ----- statements taken out of date order -----

  const FIRST_STATEMENT: seq<Op> := [
    OpenAccountOp(0, UnitGeneral), OpenAccountOp(0, External), StartOp(0, 0, 10, 0), CompleteOp(0, 0)]

  const BACKDATED_STATEMENT: seq<Op> := [
    PostOp(0, "deposit", 0, [Posting(0, 50), Posting(1, -50)]), StartOp(0, 0, 5, 50), TickOp(0, 1, 0, 0, true),
    CompleteOp(0, 1)]

  function AfterFirst(): Books {
    Books([Account(0, UnitGeneral, true), Account(0, External, true)], [], [], map[],
          map[0 := Reconciliation(0, 0, 10, 0, 0, true, 0)], 1, 1)
  }

  /** The backdated statement open, its one posting ticked or not yet. */
  function DuringSecond(ticked: bool): Books {
    var rows := [Row(0, 50, if ticked then Some(1) else None), Row(1, -50, None)];
    AfterFirst().(
      txs := [Transaction(0, "deposit", Posted, rows, 0, None, None)],
      recs := map[0 := Reconciliation(0, 0, 10, 0, 0, true, 0), 1 := Reconciliation(0, 0, 5, 0, 50, false, 0)],
      nextRec := 2)
  }

  lemma FirstLeads()
    ensures Run(EMPTY_BOOKS, FIRST_STATEMENT) == AfterFirst()
  {
    hide Run;
    var ops := FIRST_STATEMENT;
    var b1 := Apply(EMPTY_BOOKS, ops[0]);
    var b2 := Apply(b1, ops[1]);
    var b3 := Apply(b2, ops[2]);
    assert b3.recs == map[0 := Reconciliation(0, 0, 10, 0, 0, false, 0)];
    assert Total(b3.txs, 0, StampedBy({0}), Always) == 0;
    assert Apply(b3, ops[3]) == AfterFirst();
    RunFour(EMPTY_BOOKS, ops[0], ops[1], ops[2], ops[3]);
  }

  lemma TickedFifty()
    ensures ClearedTotal(DuringSecond(true), 1) == 50
  {
    hide Sum;
    var b := DuringSecond(true);
    SumSingle(RowLines(b.txs[0].rows, 0, StampedBy({1})), 0);
    assert TxLines(b.txs, 0, StampedBy({1}), Always)[0] == 50;
    SumSingle(TxLines(b.txs, 0, StampedBy({1}), Always), 0);
  }

  lemma DepositMade()
    ensures Apply(AfterFirst(), BACKDATED_STATEMENT[0]) == AfterFirst().(txs := DuringSecond(false).txs)
  {
    hide InsertProblem;
    PairAccepted(AfterFirst(), 50);
    assert RowsOf([Posting(0, 50), Posting(1, -50)]) == DuringSecond(false).txs[0].rows;
  }

  lemma SecondStarted()
    ensures Apply(AfterFirst().(txs := DuringSecond(false).txs), BACKDATED_STATEMENT[1]) == DuringSecond(false)
  {
    var b := AfterFirst().(txs := DuringSecond(false).txs);
    assert CompletedOn(b.recs, 0, 0);
    assert LatestBelow(b.recs, 0, 1) == Some(0);
    assert Apply(b, BACKDATED_STATEMENT[1]).recs == DuringSecond(false).recs;
  }

  lemma DepositTicked()
    ensures Apply(DuringSecond(false), BACKDATED_STATEMENT[2]) == DuringSecond(true)
  {
    var b := DuringSecond(false);
    assert b.txs[0].rows[0 := b.txs[0].rows[0].(cleared := Some(1))] == DuringSecond(true).txs[0].rows;
    assert Stamp(b, 0, 0, Some(1)).txs == DuringSecond(true).txs;
  }

  lemma SecondLeads()
    ensures Run(AfterFirst(), BACKDATED_STATEMENT) == SignedOff(DuringSecond(true), 1)
  {
    hide Run, Total, StartReconciliation, SetPostingCleared, Post;
    var ops := BACKDATED_STATEMENT;
    DepositMade();
    SecondStarted();
    DepositTicked();
    TickedFifty();
    assert Apply(DuringSecond(true), ops[3]) == SignedOff(DuringSecond(true), 1);
    RunFour(AfterFirst(), ops[0], ops[1], ops[2], ops[3]);
  }

  /** Completing a day-5 statement after a day-10 one drifts: the day-10 closing balance misses its 50 cents. */
  lemma BackdatedStatementDrifts()
    ensures var b := Run(EMPTY_BOOKS, FIRST_STATEMENT + BACKDATED_STATEMENT);
            && Drift(b, 0) == 50
            && !Congruent(Balance(b, 0), LatestClosing(b, 0) + Ticked(b, 0) + Uncleared(b, 0))
  {
    hide Run, Sum, Balance, LatestClosing, Ticked, Uncleared;
    RunConcat(EMPTY_BOOKS, FIRST_STATEMENT, BACKDATED_STATEMENT);
    FirstLeads();
    SecondLeads();
    var b := SignedOff(DuringSecond(true), 1);
    assert CompletedOn(b.recs, 0, b.recs[1].account);
    assert OutOfOrder(b.recs, 1);
    SumSingle(DriftLines(b.recs, 0, 2), 1);
    StatementsTelescopeIff(FIRST_STATEMENT + BACKDATED_STATEMENT, 0);
  }

  // ----- what ticking does -----

  lemma StampedRow(rows: seq<Row>, i: nat, stamp: Option<RecId>, a: AccountId, r: RecId)
    requires i < |rows|
    ensures RowsTotal(rows[i := rows[i].(cleared := stamp)], a, StampedBy({r})) ==
            RowsTotal(rows, a, StampedBy({r})) - RowCents(rows[i], a, StampedBy({r}))
            + RowCents(rows[i].(cleared := stamp), a, StampedBy({r}))
  {
    hide Sum;
    var rows' := rows[i := rows[i].(cleared := stamp)];
    assert RowLines(rows', a, StampedBy({r})) == RowLines(rows, a, StampedBy({r}))[i := RowCents(rows'[i], a, StampedBy({r}))];
    SumUpdate(RowLines(rows, a, StampedBy({r})), i, RowCents(rows'[i], a, StampedBy({r})));
  }

  /** Ticking counts a posting as cleared, once however often, and unticking takes it back out; nothing else is touched. */
  lemma TickMovesCleared(b: Books, unit: UnitId, r: RecId, t: TxId, i: nat, cleared: bool)
    requires SetPostingCleared(b, unit, r, t, i, cleared).1.Ok?
    ensures var b' := SetPostingCleared(b, unit, r, t, i, cleared).0;
            var row := b.txs[t].rows[i];
            && b'.txs[t].rows[i].cleared == (if cleared then Some(r) else None)
            && b'.recs == b.recs
            && ClearedTotal(b', r) == ClearedTotal(b, r) + (if cleared then row.cents else 0)
                                      - (if row.cleared == Some(r) then row.cents else 0)
            && forall a :: Balance(b', a) == Balance(b, a)
  {
    hide Total, RowsTotal;
    var stamp := if cleared then Some(r) else None;
    var rows := b.txs[t].rows;
    var rows' := rows[i := rows[i].(cleared := stamp)];
    StampedRow(rows, i, stamp, b.recs[r].account, r);
    TotalUpdate(b.txs, t, b.txs[t].(rows := rows'), b.recs[r].account, StampedBy({r}), Always);
    forall a
      ensures Balance(SetPostingCleared(b, unit, r, t, i, cleared).0, a) == Balance(b, a)
    {
      RowsTotalIgnoresStamps(rows, rows', a);
      TotalUpdate(b.txs, t, b.txs[t].(rows := rows'), a, AnyStamp, Always);
    }
  }

  /** A posting can be ticked exactly on an open reconciliation of the unit, when it is in force, there and not cleared elsewhere. */
  lemma TickAcceptedIff(b: Books, unit: UnitId, r: RecId, t: TxId, i: nat, cleared: bool)
    ensures SetPostingCleared(b, unit, r, t, i, cleared).1.Ok? <==>
              && r in b.recs && b.recs[r].unit == unit && !b.recs[r].completed
              && t < |b.txs| && i < |b.txs[t].rows| && b.txs[t].status == Posted
              && b.txs[t].rows[i].account == b.recs[r].account && b.txs[t].rows[i].cleared in {None, Some(r)}
  {
  }

  /** A reconciliation starts as it was asked for, from the newest completed closing balance, and alone on its account. */
  lemma StartedAsAsked(b: Books, unit: UnitId, a: AccountId, date: int, closing: Cents)
    ensures var (b', r) := StartReconciliation(b, unit, a, date, closing);
            && (r.Ok? <==> a < |b.accounts| && b.accounts[a].unit == unit && forall k :: !OpenOn(b.recs, k, a))
            && (r.Ok? ==>
                  && b'.recs.Keys == b.recs.Keys + {r.value} && (forall k :: k in b.recs && k != r.value ==> b'.recs[k] == b.recs[k])
                  && b'.recs[r.value].unit == unit && b'.recs[r.value].account == a && b'.recs[r.value].statementDate == date
                  && b'.recs[r.value].closing == closing && b'.recs[r.value].opening == LatestClosing(b, a)
                  && !b'.recs[r.value].completed && b'.txs == b.txs)
  {
    hide LatestClosing;
  }
}
