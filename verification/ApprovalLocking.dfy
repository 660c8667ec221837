/** What row locking guarantees in every interleaving, whatever the amounts: single decisions and no deadlock. */
module ApprovalLocking {
  import opened Prelude
  import opened Ledger
  import opened LedgerInvariants
  import opened Approval

  // ----- locks stay exclusive -----

  lemma AccountRowsSnoc(keys: seq<AccountId>, n: nat)
    requires n < |keys|
    ensures AccountRows(keys[..n + 1]) == AccountRows(keys[..n]) + {AccountRow(keys[n])}
  {
    assert keys[..n + 1] == keys[..n] + [keys[n]];
    forall k
      ensures k in keys[..n + 1] <==> k in keys[..n] || k == keys[n]
    {
    }
    forall r
      ensures r in AccountRows(keys[..n + 1]) <==> r in AccountRows(keys[..n]) || r == AccountRow(keys[n])
    {
      assert r.AccountRow? ==> (r in AccountRows(keys[..n + 1]) <==> r.account in keys[..n + 1]);
    }
  }

  /** The next statement of a transaction, when it does not commit. */
  function NextProgress(b: Books, t: Thread): Progress {
    match t.at
    case Begin => AfterClaim(b, t.job)
    case Locking(n) => AfterLock(b, t.job, n)
    case Checking(n) => AfterCheck(b, t.job, n)
    case _ => t.at
  }

  function NeededSet(b: Books, t: Thread): set<Resource> {
    var needs := Needs(b, t);
    if needs.Some? then {needs.value} else {}
  }

  /** A statement adds at most the row it needs to the locks held. */
  lemma NextHolds(b: Books, t: Thread)
    requires ThreadOk(b, t)
    ensures var t' := t.(at := NextProgress(b, t));
            && ThreadOk(b, t') && Holds(b, t') <= Holds(b, t) + NeededSet(b, t)
            && (!t.at.Done? ==> t'.at != Done(Committed))
  {
    hide SortedKeys, DebitedAccounts, DebitRows, EntityRow, DebitProblem, DebitTotal, AccountRows;
    var keys := Keys(b, t.job);
    match t.at
    case Begin =>
      assert keys[..0] == [];
      assert AccountRows(keys[..0]) == {} by { NoAccountRows(); }
    case Locking(n) =>
      if n < |keys| {
        AccountRowsSnoc(keys, n);
      } else {
        assert keys[..n] == keys;
      }
    case Checking(n) =>
    case _ =>
  }

  lemma NoAccountRows()
    ensures AccountRows([]) == {}
  {
  }

  /** Transaction i moves on, holding at most what it held and what nobody else does. */
  lemma MoveIsOk(sys: Sys, i: nat, at: Progress)
    requires LocksOk(sys) && Running(sys, i) && at != Done(Committed)
    requires var t' := sys.threads[i].(at := at);
             && ThreadOk(sys.books, t')
             && forall r :: r in Holds(sys.books, t') ==> r in Holds(sys.books, sys.threads[i]) || !HeldByOther(sys, i, r)
    ensures LocksOk(Move(sys, i, at))
  {
    hide Holds, ThreadOk;
    var sys' := Move(sys, i, at);
    forall j, k | 0 <= j < k < |sys'.threads|
      ensures Holds(sys'.books, sys'.threads[j]) !! Holds(sys'.books, sys'.threads[k])
    {
      assert Holds(sys.books, sys.threads[j]) !! Holds(sys.books, sys.threads[k]);
    }
  }

  lemma NextIsOk(sys: Sys, i: nat)
    requires LocksOk(sys) && Enabled(sys, i) && !sys.threads[i].at.Flipped?
    ensures Step(sys, i, false) == Move(sys, i, NextProgress(sys.books, sys.threads[i]))
    ensures LocksOk(Step(sys, i, false))
  {
    hide Holds, AfterClaim, AfterLock, AfterCheck, Exclusive, LogOk, HeldByOther, Needs;
    NextHolds(sys.books, sys.threads[i]);
    var at := NextProgress(sys.books, sys.threads[i]);
    forall r | r in Holds(sys.books, sys.threads[i].(at := at))
      ensures r in Holds(sys.books, sys.threads[i]) || !HeldByOther(sys, i, r)
    {
      assert r in Holds(sys.books, sys.threads[i]) + NeededSet(sys.books, sys.threads[i]);
    }
    MoveIsOk(sys, i, at);
  }

  lemma CutOffIsOk(sys: Sys, i: nat)
    requires LocksOk(sys) && Running(sys, i)
    ensures LocksOk(Step(sys, i, true))
  {
    hide Exclusive, LogOk;
    MoveIsOk(sys, i, Done(CutOff));
  }

  // ----- commits -----

  lemma HoldsRequest(b: Books, t: Thread)
    requires Active(t)
    ensures RequestRow(t.job.req) in Holds(b, t)
  {
    hide Keys, AccountRows, EntityRow;
  }

  lemma CommitKeepsThreads(sys: Sys, i: nat)
    requires LocksOk(sys) && Running(sys, i) && sys.threads[i].at.Flipped?
    ensures var sys' := Commit(sys, i);
            && SameTables(sys.books, sys'.books)
            && (forall j :: 0 <= j < |sys'.threads| ==> ThreadOk(sys'.books, sys'.threads[j]))
            && Exclusive(sys')
  {
    hide Keys, EntityRow, LogOk, Holds, Needs, SameTables;
    var sys', job := Commit(sys, i), sys.threads[i].job;
    assert ThreadOk(sys.books, sys.threads[i]);
    DecisionKeepsTables(sys.books, job.req, job.approve);
    HoldsRequest(sys.books, sys.threads[i]);
    forall j | 0 <= j < |sys'.threads|
      ensures ThreadOk(sys'.books, sys'.threads[j])
      ensures j != i ==> Holds(sys'.books, sys'.threads[j]) == Holds(sys.books, sys.threads[j])
    {
      assert ThreadOk(sys.books, sys.threads[j]);
      SameTablesSameLocks(sys.books, sys'.books, sys'.threads[j]);
      SameTablesSameRows(sys.books, sys'.books, sys.threads[j].job);
      if j != i && Active(sys.threads[j]) {
        HoldsRequest(sys.books, sys.threads[j]);
        DifferentRequests(sys, i, j);
        OtherStaysDecidable(sys.books, job, sys.threads[j].job);
      }
    }
    assert Holds(sys'.books, sys'.threads[i]) == {} by { NothingHeld(sys'.books, sys'.threads[i]); }
    forall j, k | 0 <= j < k < |sys'.threads|
      ensures Holds(sys'.books, sys'.threads[j]) !! Holds(sys'.books, sys'.threads[k])
    {
      assert Holds(sys.books, sys.threads[j]) !! Holds(sys.books, sys.threads[k]);
    }
  }

  lemma NothingHeld(b: Books, t: Thread)
    requires t.at.Done?
    ensures Holds(b, t) == {}
  {
  }

  lemma DifferentRequests(sys: Sys, i: nat, j: nat)
    requires Exclusive(sys) && i != j && i < |sys.threads| && j < |sys.threads|
    requires RequestRow(sys.threads[i].job.req) in Holds(sys.books, sys.threads[i])
    requires RequestRow(sys.threads[j].job.req) in Holds(sys.books, sys.threads[j])
    ensures sys.threads[i].job.req != sys.threads[j].job.req
  {
    hide Holds;
    var low, high := if i < j then i else j, if i < j then j else i;
    assert Holds(sys.books, sys.threads[low]) !! Holds(sys.books, sys.threads[high]);
  }

  lemma OtherStaysDecidable(b: Books, job: Job, other: Job)
    requires job.req < |b.requests| && job.req != other.req && Decidable(b, other.req, other.unit)
    ensures Decidable(DecisionEffect(b, job.req, job.approve), other.req, other.unit)
  {
  }

  lemma DecisionStatuses(b: Books, req: RequestId, approve: bool)
    requires req < |b.requests|
    ensures var b' := DecisionEffect(b, req, approve);
            && |b'.requests| == |b.requests|
            && forall r :: 0 <= r < |b.requests| ==>
                 b'.requests[r].status == if r == req then (if approve then Approved else Declined) else b.requests[r].status
  {
  }

  lemma CommitKeepsLog(sys: Sys, i: nat)
    requires LocksOk(sys) && Running(sys, i) && sys.threads[i].at.Flipped?
    ensures LogOk(Commit(sys, i))
  {
    hide Exclusive, DecisionEffect;
    var sys', job := Commit(sys, i), sys.threads[i].job;
    assert ThreadOk(sys.books, sys.threads[i]);
    DecisionStatuses(sys.books, job.req, job.approve);
    assert sys'.log[|sys.log|] == i;
    assert forall k :: 0 <= k < |sys.log| ==> sys'.log[k] == sys.log[k];
    forall k | 0 <= k < |sys.log|
      ensures sys.log[k] != i && sys.threads[sys.log[k]].job.req != job.req
    {
    }
  }

  lemma StepIsOk(sys: Sys, i: nat, cutOff: bool)
    requires LocksOk(sys)
    ensures LocksOk(Step(sys, i, cutOff))
  {
    hide Exclusive, LogOk, Commit, LocksOk, HeldByOther;
    if Running(sys, i) {
      if cutOff {
        CutOffIsOk(sys, i);
      } else if Enabled(sys, i) {
        if sys.threads[i].at.Flipped? {
          CommitIsOk(sys, i);
        } else {
          NextIsOk(sys, i);
        }
      }
    }
  }

  lemma CommitIsOk(sys: Sys, i: nat)
    requires LocksOk(sys) && Running(sys, i) && sys.threads[i].at.Flipped?
    ensures LocksOk(Commit(sys, i))
  {
    hide Exclusive, LogOk, Commit, ThreadOk;
    CommitKeepsThreads(sys, i);
    CommitKeepsLog(sys, i);
  }

  lemma StartIsOk(b: Books, jobs: seq<Job>)
    ensures LocksOk(Start(b, jobs))
  {
  }

  lemma {:induction false} RunSysIsOk(sys: Sys, schedule: seq<Action>)
    requires LocksOk(sys)
    ensures LocksOk(RunSys(sys, schedule))
    decreases |schedule|
  {
    hide LocksOk, Step;
    if schedule != [] {
      var last := schedule[|schedule| - 1];
      RunSysIsOk(sys, schedule[..|schedule| - 1]);
      StepIsOk(RunSys(sys, schedule[..|schedule| - 1]), last.thread, last.cutOff);
    }
  }

  /** In every interleaving, two transactions that committed decided different requests. */
  lemma EachRequestDecidedOnce(b: Books, jobs: seq<Job>, schedule: seq<Action>, i: nat, j: nat)
    requires var sys := RunSys(Start(b, jobs), schedule);
             && i < |sys.threads| && j < |sys.threads| && i != j
             && sys.threads[i].at == Done(Committed) && sys.threads[j].at == Done(Committed)
    ensures var sys := RunSys(Start(b, jobs), schedule);
            sys.threads[i].job.req != sys.threads[j].job.req
  {
    hide RunSys, Start, Exclusive, ThreadOk;
    StartIsOk(b, jobs);
    RunSysIsOk(Start(b, jobs), schedule);
  }

  /** Only a commit changes the books, by exactly that decision; refused and cut-off transactions change nothing. */
  lemma OnlyCommitsChangeBooks(sys: Sys, i: nat, cutOff: bool)
    requires LocksOk(sys)
    ensures var sys' := Step(sys, i, cutOff);
            || (sys'.books == sys.books && sys'.log == sys.log)
            || (&& i < |sys.threads| && sys.threads[i].at.Flipped? && sys'.threads[i].at == Done(Committed)
                && sys.threads[i].job.req < |sys.books.requests|
                && sys'.books == DecisionEffect(sys.books, sys.threads[i].job.req, sys.threads[i].job.approve)
                && sys'.log == sys.log + [i])
  {
    hide Exclusive, LogOk, ThreadOk, AfterClaim, AfterLock, AfterCheck, HeldByOther, Needs, DecisionEffect;
  }

  /** A transaction that fails after claiming its request leaves that request pending, for somebody else to decide. */
  lemma FailureLeavesPending(sys: Sys, i: nat, cutOff: bool)
    requires LocksOk(sys) && i < |sys.threads| && Active(sys.threads[i])
    requires var at := Step(sys, i, cutOff).threads[i].at; at.Done? && at != Done(Committed)
    ensures Decidable(Step(sys, i, cutOff).books, sys.threads[i].job.req, sys.threads[i].job.unit)
  {
    hide Exclusive, LogOk, AfterClaim, AfterLock, AfterCheck, HeldByOther, Needs, DecisionEffect;
    assert ThreadOk(sys.books, sys.threads[i]);
  }

  // ----- no deadlock -----

  function Class(r: Resource): int {
    match r
    case RequestRow(_) => 0
    case AccountRow(_) => 1
    case EventRow(_) => 2
    case TxRow(_) => 2
  }

  function Place(r: Resource): int {
    if r.AccountRow? then r.account else 0
  }

  /** Request rows come first, then accounts in ascending order, then the row to flip. */
  predicate Before(x: Resource, y: Resource) {
    Class(x) < Class(y) || (Class(x) == Class(y) && Place(x) < Place(y))
  }

  /** A transaction only ever waits for a row that comes after all those it holds. */
  lemma HoldsBeforeNeeds(b: Books, t: Thread, h: Resource)
    requires ThreadOk(b, t) && h in Holds(b, t) && Needs(b, t).Some?
    ensures Before(h, Needs(b, t).value)
  {
    hide SortedKeys, DebitedAccounts, DebitRows;
    if t.at.Locking? && h.AccountRow? {
      var keys, n := Keys(b, t.job), t.at.n;
      assert h.account in keys[..n];
      var k :| 0 <= k < n && keys[k] == h.account;
      if n < |keys| {
        assert StrictlyAscending(keys);
      }
    }
  }

  /** Among blocked transactions, one waits for a row that none of the others' rows comes after. */
  lemma LastWaiting(sys: Sys, n: nat) returns (m: nat)
    requires n <= |sys.threads|
    requires exists i :: 0 <= i < n && Running(sys, i)
    requires forall i :: 0 <= i < |sys.threads| && Running(sys, i) ==> Needs(sys.books, sys.threads[i]).Some?
    ensures m < n && Running(sys, m)
    ensures forall i :: 0 <= i < n && Running(sys, i) ==>
                        !Before(Needs(sys.books, sys.threads[m]).value, Needs(sys.books, sys.threads[i]).value)
    decreases n
  {
    hide Needs;
    if exists i :: 0 <= i < n - 1 && Running(sys, i) {
      m := LastWaiting(sys, n - 1);
      if Running(sys, n - 1)
         && Before(Needs(sys.books, sys.threads[m]).value, Needs(sys.books, sys.threads[n - 1]).value) {
        m := n - 1;
      }
    } else {
      m := n - 1;
    }
  }

  /** As long as a transaction is unfinished, some transaction can run. */
  lemma NeverDeadlocked(sys: Sys)
    requires LocksOk(sys) && exists i :: Running(sys, i)
    ensures exists i :: Enabled(sys, i)
  {
    hide Holds, Needs, Before, Exclusive, LogOk, ThreadOk;
    if forall i :: !Enabled(sys, i) {
      forall i | 0 <= i < |sys.threads| && Running(sys, i)
        ensures Needs(sys.books, sys.threads[i]).Some?
      {
        assert !Enabled(sys, i);
      }
      var m := LastWaiting(sys, |sys.threads|);
      assert !Enabled(sys, m);
      var w := Needs(sys.books, sys.threads[m]).value;
      var j :| 0 <= j < |sys.threads| && j != m && w in Holds(sys.books, sys.threads[j]);
      assert Running(sys, j) by {
        if sys.threads[j].at.Done? {
          NothingHeld(sys.books, sys.threads[j]);
        }
      }
      HoldsBeforeNeeds(sys.books, sys.threads[j], w);
    }
  }

  // ----- everything finishes -----

  /** How many more statements a transaction runs at most. */
  function Work(b: Books, t: Thread): int {
    var n := |Keys(b, t.job)|;
    match t.at
    case Begin => 2 * n + 3
    case Locking(k) => if k <= n then 2 * (n - k) + 2 else 2
    case Checking(k) => if k < n then 2 * (n - k) + 1 else 2
    case Flipped => 1
    case Done(_) => 0
  }

  function WorkLines(sys: Sys): (xs: seq<int>)
    ensures |xs| == |sys.threads|
  {
    seq(|sys.threads|, i requires 0 <= i < |sys.threads| => Work(sys.books, sys.threads[i]))
  }

  function WorkLeft(sys: Sys): int {
    Sum(WorkLines(sys))
  }

  /** A step that does something: its transaction is unfinished and not waiting, or is cut off. */
  predicate Effective(sys: Sys, a: Action) {
    Running(sys, a.thread) && (a.cutOff || Enabled(sys, a.thread))
  }

  lemma MoveWork(sys: Sys, i: nat, at: Progress)
    requires i < |sys.threads|
    ensures WorkLeft(Move(sys, i, at)) ==
            WorkLeft(sys) - Work(sys.books, sys.threads[i]) + Work(sys.books, sys.threads[i].(at := at))
  {
    hide Sum, Work;
    var x := Work(sys.books, sys.threads[i].(at := at));
    assert WorkLines(Move(sys, i, at)) == WorkLines(sys)[i := x];
    SumUpdate(WorkLines(sys), i, x);
  }

  lemma NextWork(b: Books, t: Thread)
    requires ThreadOk(b, t) && !t.at.Done? && !t.at.Flipped?
    ensures Work(b, t.(at := NextProgress(b, t))) < Work(b, t)
  {
    hide Keys, DebitRows, DebitProblem, DebitTotal;
  }

  lemma SameTablesSameWork(sys: Sys, b': Books)
    requires SameTables(sys.books, b')
    ensures WorkLines(sys.(books := b')) == WorkLines(sys)
  {
    hide Keys, SameTables;
    forall i | 0 <= i < |sys.threads|
      ensures Work(b', sys.threads[i]) == Work(sys.books, sys.threads[i])
    {
      SameTablesSameRows(sys.books, b', sys.threads[i].job);
    }
  }

  lemma CommitWork(sys: Sys, i: nat)
    requires LocksOk(sys) && Running(sys, i) && sys.threads[i].at.Flipped?
    ensures WorkLeft(Commit(sys, i)) < WorkLeft(sys)
  {
    hide Sum, SameTables, DecisionEffect, Keys, Exclusive, LogOk;
    CommitKeepsThreads(sys, i);
    assert ThreadOk(sys.books, sys.threads[i]);
    var moved := Move(sys, i, Done(Committed));
    MoveWork(sys, i, Done(Committed));
    SameTablesSameWork(moved, Commit(sys, i).books);
    assert WorkLines(Commit(sys, i)) == WorkLines(moved.(books := Commit(sys, i).books));
  }

  lemma EffectiveStepsWork(sys: Sys, a: Action)
    requires LocksOk(sys) && Effective(sys, a)
    ensures WorkLeft(Step(sys, a.thread, a.cutOff)) < WorkLeft(sys)
  {
    hide WorkLeft, Work, Commit, AfterClaim, AfterLock, AfterCheck, HeldByOther, Needs, Exclusive, LogOk;
    var i := a.thread;
    assert ThreadOk(sys.books, sys.threads[i]);
    if a.cutOff {
      MoveWork(sys, i, Done(CutOff));
      SomeWork(sys.books, sys.threads[i]);
      SomeWork(sys.books, sys.threads[i].(at := Done(CutOff)));
    } else if sys.threads[i].at.Flipped? {
      CommitWork(sys, i);
    } else {
      NextIsOk(sys, i);
      MoveWork(sys, i, NextProgress(sys.books, sys.threads[i]));
      NextWork(sys.books, sys.threads[i]);
    }
  }

  lemma SomeWork(b: Books, t: Thread)
    ensures !t.at.Done? ==> Work(b, t) > 0
    ensures t.at.Done? ==> Work(b, t) == 0
  {
    hide Keys;
  }

  lemma WorkLeftIsPositive(sys: Sys)
    ensures WorkLeft(sys) >= 0
  {
    hide Sum, Work;
    forall i | 0 <= i < |sys.threads|
      ensures WorkLines(sys)[i] >= 0
    {
      SomeWork(sys.books, sys.threads[i]);
    }
    SumNotNegative(WorkLines(sys));
  }

  ghost predicate AllEffective(sys: Sys, schedule: seq<Action>) {
    forall k :: 0 <= k < |schedule| ==> Effective(RunSys(sys, schedule[..k]), schedule[k])
  }

  /** No schedule can keep doing something for longer than the work there was. */
  lemma {:induction false} SchedulesAreBounded(sys: Sys, schedule: seq<Action>)
    requires LocksOk(sys) && AllEffective(sys, schedule)
    ensures |schedule| + WorkLeft(RunSys(sys, schedule)) <= WorkLeft(sys)
    decreases |schedule|
  {
    hide LocksOk, Step, Effective, WorkLeft;
    if schedule != [] {
      var front, last := schedule[..|schedule| - 1], schedule[|schedule| - 1];
      assert forall k :: 0 <= k < |front| ==> front[..k] == schedule[..k] && front[k] == schedule[k];
      SchedulesAreBounded(sys, front);
      RunSysIsOk(sys, front);
      EffectiveStepsWork(RunSys(sys, front), last);
    }
  }

  /**
   Every interleaving ends: a schedule in which every step does something is no longer than the work there was at
   the start, and one that cannot be extended leaves every transaction finished.
   */
  lemma EverythingFinishes(b: Books, jobs: seq<Job>, schedule: seq<Action>)
    requires AllEffective(Start(b, jobs), schedule)
    ensures var sys := RunSys(Start(b, jobs), schedule);
            && |schedule| <= WorkLeft(Start(b, jobs))
            && ((forall a :: !Effective(sys, a)) ==> forall i :: 0 <= i < |sys.threads| ==> sys.threads[i].at.Done?)
  {
    hide LocksOk, WorkLeft, RunSys, Enabled, Start, AllEffective;
    StartIsOk(b, jobs);
    SchedulesAreBounded(Start(b, jobs), schedule);
    var sys := RunSys(Start(b, jobs), schedule);
    WorkLeftIsPositive(sys);
    if i :| 0 <= i < |sys.threads| && !sys.threads[i].at.Done? {
      assert Running(sys, i);
      RunSysIsOk(Start(b, jobs), schedule);
      NeverDeadlocked(sys);
      var j :| Enabled(sys, j);
      assert Effective(sys, Action(j, false)) by { EnabledIsEffective(sys, j); }
    }
  }

  lemma EnabledIsEffective(sys: Sys, j: nat)
    requires Enabled(sys, j)
    ensures Effective(sys, Action(j, false))
  {
    hide Needs, HeldByOther;
  }
}
