/**
 Concurrent decisions. Any number of database transactions decide requests at the same time: each claims its
 request row, locks the accounts it debits in ascending order, checks each balance once the lock is held, flips
 what was asked for, and commits. A transaction may also be cut off at any point. Reads see committed data.
 */
module Approval {
  import opened Prelude
  import opened Ledger
  import opened LedgerInvariants

  // ----- transactions and rows -----

  datatype Job = Job(req: RequestId, unit: UnitId, approve: bool)

  datatype Ending = Committed | Refused(error: Error) | CutOff

  /**
   Where a transaction is: Locking(n) is about to lock its account number n, having checked those before it, or,
   past the last one, about to flip; Checking(n) holds the lock on account n and has yet to read its balance.
   */
  datatype Progress = Begin | Locking(n: nat) | Checking(n: nat) | Flipped | Done(ending: Ending)

  datatype Thread = Thread(job: Job, at: Progress)

  /** The committed books, the transactions, and which of them committed, in commit order. */
  datatype Sys = Sys(books: Books, threads: seq<Thread>, log: seq<nat>)

  datatype Resource = RequestRow(req: RequestId) | AccountRow(account: AccountId) | EventRow(event: EventId) | TxRow(tx: TxId)

  /** The postings an approval would bring into force. */
  function DebitRows(b: Books, job: Job): seq<Row> {
    if job.req < |b.requests| && b.requests[job.req].subject.LedgerTransaction? && job.approve
       && b.requests[job.req].subject.tx < |b.txs|
    then b.txs[b.requests[job.req].subject.tx].rows else []
  }

  /** The accounts to lock, in locking order. */
  function Keys(b: Books, job: Job): seq<AccountId> {
    SortedKeys(DebitedAccounts(DebitRows(b, job)))
  }

  /** The row the decision finally flips. */
  function EntityRow(b: Books, job: Job): Option<Resource> {
    if job.req >= |b.requests| then None
    else
      match b.requests[job.req].subject
      case CalendarEvent(e) => if e in b.events then Some(EventRow(e)) else None
      case LedgerTransaction(t) => if t < |b.txs| then Some(TxRow(t)) else None
      case OtherSubject(_) => None
  }

  // ----- locks -----

  function AccountRows(keys: seq<AccountId>): set<Resource> {
    set k | k in keys :: AccountRow(k)
  }

  /** The row locks a transaction holds. */
  function Holds(b: Books, t: Thread): set<Resource> {
    var keys := Keys(b, t.job);
    match t.at
    case Begin => {}
    case Locking(n) => {RequestRow(t.job.req)} + AccountRows(if n <= |keys| then keys[..n] else keys)
    case Checking(n) => {RequestRow(t.job.req)} + AccountRows(if n < |keys| then keys[..n + 1] else keys)
    case Flipped =>
      var entity := EntityRow(b, t.job);
      {RequestRow(t.job.req)} + AccountRows(keys) + if entity.Some? then {entity.value} else {}
    case Done(_) => {}
  }

  /** The row lock its next statement needs. */
  function Needs(b: Books, t: Thread): Option<Resource> {
    match t.at
    case Begin => Some(RequestRow(t.job.req))
    case Locking(n) => if n < |Keys(b, t.job)| then Some(AccountRow(Keys(b, t.job)[n])) else EntityRow(b, t.job)
    case _ => None
  }

  predicate HeldByOther(sys: Sys, i: nat, r: Resource) {
    exists j :: 0 <= j < |sys.threads| && j != i && r in Holds(sys.books, sys.threads[j])
  }

  predicate Running(sys: Sys, i: nat) {
    i < |sys.threads| && !sys.threads[i].at.Done?
  }

  /** Transaction i can run its next statement: nobody else holds the row it needs. */
  predicate Enabled(sys: Sys, i: nat) {
    && Running(sys, i)
    && var needs := Needs(sys.books, sys.threads[i]); needs.Some? ==> !HeldByOther(sys, i, needs.value)
  }

  // ----- one statement at a time -----

  function Move(sys: Sys, i: nat, at: Progress): Sys
    requires i < |sys.threads|
  {
    sys.(threads := sys.threads[i := sys.threads[i].(at := at)])
  }

  /** Claiming the request row and reading the debits. */
  function AfterClaim(b: Books, job: Job): Progress {
    if !Decidable(b, job.req, job.unit) then Done(Refused(RequestNotFound))
    else if exists k :: 0 <= k < |Keys(b, job)| && !Fits(DebitTotal(DebitRows(b, job), Keys(b, job)[k]))
    then Done(Refused(AmountOutOfRange))
    else Locking(0)
  }

  /** Locking account n and reading its status, or flipping once there is no account left. */
  function AfterLock(b: Books, job: Job, n: nat): Progress {
    if n >= |Keys(b, job)| then Flipped
    else
      var a := Keys(b, job)[n];
      if a >= |b.accounts| then Done(Refused(AccountNotFound))
      else if !b.accounts[a].open then Done(Refused(AccountClosed))
      else Checking(n)
  }

  /** Reading the committed balance of account n and comparing. */
  function AfterCheck(b: Books, job: Job, n: nat): Progress {
    if n >= |Keys(b, job)| then Done(Refused(AccountNotFound))
    else
      match DebitProblem(b, DebitRows(b, job), Keys(b, job)[n])
      case Some(e) => Done(Refused(e))
      case None => Locking(n + 1)
  }

  function Commit(sys: Sys, i: nat): Sys
    requires i < |sys.threads|
  {
    var job := sys.threads[i].job;
    if job.req >= |sys.books.requests| then Move(sys, i, Done(CutOff))
    else Move(sys, i, Done(Committed)).(books := DecisionEffect(sys.books, job.req, job.approve), log := sys.log + [i])
  }

  /** Transaction i runs its next statement, waits if it cannot, or is cut off and rolled back. */
  function Step(sys: Sys, i: nat, cutOff: bool): Sys {
    if !Running(sys, i) then sys
    else if cutOff then Move(sys, i, Done(CutOff))
    else if !Enabled(sys, i) then sys
    else
      var t := sys.threads[i];
      match t.at
      case Begin => Move(sys, i, AfterClaim(sys.books, t.job))
      case Locking(n) => Move(sys, i, AfterLock(sys.books, t.job, n))
      case Checking(n) => Move(sys, i, AfterCheck(sys.books, t.job, n))
      case Flipped => Commit(sys, i)
      case Done(_) => sys
  }

  datatype Action = Action(thread: nat, cutOff: bool)

  function RunSys(sys: Sys, schedule: seq<Action>): Sys {
    if schedule == [] then sys
    else
      var last := schedule[|schedule| - 1];
      Step(RunSys(sys, schedule[..|schedule| - 1]), last.thread, last.cutOff)
  }

  function Start(b: Books, jobs: seq<Job>): Sys {
    Sys(b, seq(|jobs|, i requires 0 <= i < |jobs| => Thread(jobs[i], Begin)), [])
  }

  // ----- what decisions leave alone -----

  /** Everything locking looks at: who owns which rows and which postings, but not statuses. */
  ghost predicate SameTables(b: Books, b': Books) {
    && b'.accounts == b.accounts && b'.events.Keys == b.events.Keys
    && |b'.txs| == |b.txs| && (forall t :: 0 <= t < |b.txs| ==> b'.txs[t].rows == b.txs[t].rows)
    && |b'.requests| == |b.requests|
    && forall r :: 0 <= r < |b.requests| ==>
         b'.requests[r].subject == b.requests[r].subject && b'.requests[r].unit == b.requests[r].unit
  }

  lemma DecisionKeepsTables(b: Books, req: RequestId, approve: bool)
    requires req < |b.requests|
    ensures SameTables(b, DecisionEffect(b, req, approve))
  {
  }

  lemma SameTablesSameRows(b: Books, b': Books, job: Job)
    requires SameTables(b, b')
    ensures DebitRows(b', job) == DebitRows(b, job) && Keys(b', job) == Keys(b, job) && EntityRow(b', job) == EntityRow(b, job)
  {
    hide SortedKeys, DebitedAccounts;
  }

  lemma SameTablesSameLocks(b: Books, b': Books, t: Thread)
    requires SameTables(b, b')
    ensures Holds(b', t) == Holds(b, t) && Needs(b', t) == Needs(b, t)
  {
    hide Keys, EntityRow, SameTables;
    SameTablesSameRows(b, b', t.job);
  }

  // ----- the locking invariant -----

  predicate Active(t: Thread) {
    t.at.Locking? || t.at.Checking? || t.at.Flipped?
  }

  /** A transaction under way holds an undecided request and stands within its list of accounts. */
  ghost predicate ThreadOk(b: Books, t: Thread) {
    && (Active(t) ==> Decidable(b, t.job.req, t.job.unit))
    && (t.at.Locking? ==> t.at.n <= |Keys(b, t.job)|)
    && (t.at.Checking? ==> t.at.n < |Keys(b, t.job)|)
  }

  ghost predicate Exclusive(sys: Sys) {
    forall i, j :: 0 <= i < j < |sys.threads| ==> Holds(sys.books, sys.threads[i]) !! Holds(sys.books, sys.threads[j])
  }

  /** The log lists each committed transaction once, and each decided a request of its own. */
  ghost predicate LogOk(sys: Sys) {
    && (forall k :: 0 <= k < |sys.log| ==>
          && sys.log[k] < |sys.threads| && sys.threads[sys.log[k]].at == Done(Committed)
          && sys.threads[sys.log[k]].job.req < |sys.books.requests|
          && sys.books.requests[sys.threads[sys.log[k]].job.req].status ==
             if sys.threads[sys.log[k]].job.approve then Approved else Declined)
    && (forall i :: 0 <= i < |sys.threads| && sys.threads[i].at == Done(Committed) ==> i in sys.log)
    && (forall j, k :: 0 <= j < k < |sys.log| ==>
          sys.threads[sys.log[j]].job.req != sys.threads[sys.log[k]].job.req)
  }

  ghost predicate LocksOk(sys: Sys) {
    && (forall i :: 0 <= i < |sys.threads| ==> ThreadOk(sys.books, sys.threads[i]))
    && Exclusive(sys) && LogOk(sys)
  }
}
