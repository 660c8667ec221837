/**
 Calendar submissions: on every run, and in every interleaving of decisions, an event that one request is about shows what
 became of that request, and nothing but its own submissions and decisions ever changes it.
 */
module LedgerEvents {
  import opened Prelude
  import opened Ledger
  import opened LedgerInvariants
  import opened Approval
  import opened ApprovalLocking
  import opened ApprovalSafety

  // ----- an event and its request -----

  predicate About(b: Books, r: RequestId, e: EventId) {
    r < |b.requests| && b.requests[r].subject == CalendarEvent(e)
  }

  /** Request r is the one request there is about event e. */
  ghost predicate OnlyAbout(b: Books, r: RequestId, e: EventId) {
    About(b, r, e) && forall s :: About(b, s, e) ==> s == r
  }

  /** Waiting while the request is pending, published once it is approved, and not published once it is declined. */
  predicate ShowsOutcome(b: Books, r: RequestId, e: EventId) {
    && r < |b.requests| && e in b.events
    && (b.requests[r].status == Pending <==> b.events[e] == AwaitingApproval)
    && (b.requests[r].status == Approved <==> b.events[e] == Published)
    && (b.requests[r].status == Declined <==> b.events[e] == NotPublished)
  }

  ghost predicate EventsOk(b: Books) {
    forall r, e :: OnlyAbout(b, r, e) ==> ShowsOutcome(b, r, e)
  }

  // ----- one operation -----

  lemma DecisionKeepsEvents(b: Books, req: RequestId, approve: bool)
    requires EventsOk(b) && req < |b.requests|
    ensures EventsOk(DecisionEffect(b, req, approve))
  {
    var b' := DecisionEffect(b, req, approve);
    forall r, e | OnlyAbout(b', r, e)
      ensures ShowsOutcome(b', r, e)
    {
      forall s
        ensures About(b', s, e) <==> About(b, s, e)
      {
      }
      assert OnlyAbout(b, r, e);
      assert ShowsOutcome(b, r, e);
      assert r != req ==> !About(b, req, e);
    }
  }

  /** The requests are as before, and at most one for a ledger entry is new; the events are untouched. */
  ghost predicate LeavesEvents(b: Books, b': Books) {
    && b'.events == b.events && |b.requests| <= |b'.requests|
    && (forall r :: 0 <= r < |b.requests| ==> b'.requests[r] == b.requests[r])
    && (forall r :: |b.requests| <= r < |b'.requests| ==> b'.requests[r].subject.LedgerTransaction?)
  }

  lemma LeavesEventsKeeps(b: Books, b': Books)
    requires EventsOk(b) && LeavesEvents(b, b')
    ensures EventsOk(b')
  {
    forall r, e | OnlyAbout(b', r, e)
      ensures ShowsOutcome(b', r, e)
    {
      forall s
        ensures About(b', s, e) <==> About(b, s, e)
      {
      }
      assert OnlyAbout(b, r, e);
    }
  }

  lemma OtherOpsLeaveEvents(b: Books, op: Op)
    requires !op.SubmitEventOp? && !op.DecideOp?
    ensures LeavesEvents(b, Apply(b, op))
  {
    hide InsertProblem, FindAccount, Balance, IsReversed, LatestClosing, ClearedTotal, Difference, OppositePostings, Release,
      CanTick;
  }

  lemma SubmissionKeepsEvents(b: Books, event: EventId, unit: UnitId)
    requires EventsOk(b)
    ensures EventsOk(SubmitEvent(b, event, unit))
  {
    var b' := SubmitEvent(b, event, unit);
    assert About(b', |b.requests|, event);
    forall r, e | OnlyAbout(b', r, e)
      ensures ShowsOutcome(b', r, e)
    {
      if e == event {
        assert r == |b.requests|;
      } else {
        forall s
          ensures About(b', s, e) <==> About(b, s, e)
        {
        }
        assert OnlyAbout(b, r, e);
      }
    }
  }

  lemma ApplyKeepsEvents(b: Books, op: Op)
    requires EventsOk(b)
    ensures EventsOk(Apply(b, op))
  {
    hide EventsOk, DecisionEffect, ApprovalProblem, LeavesEvents, SubmitEvent;
    match op
    case SubmitEventOp(e, u) => SubmissionKeepsEvents(b, e, u);
    case DecideOp(r, u, approve) =>
      if Decidable(b, r, u) {
        DecisionKeepsEvents(b, r, approve);
      }
    case _ =>
      OtherOpsLeaveEvents(b, op);
      LeavesEventsKeeps(b, Apply(b, op));
  }

  /** On every run an event that one request is about shows what became of it. */
  lemma {:induction false} EveryEventShowsItsOutcome(ops: seq<Op>)
    ensures EventsOk(Run(EMPTY_BOOKS, ops))
    decreases |ops|
  {
    hide Apply, EventsOk;
    if ops == [] {
      NoEvents();
    } else {
      EveryEventShowsItsOutcome(ops[..|ops| - 1]);
      ApplyKeepsEvents(Run(EMPTY_BOOKS, ops[..|ops| - 1]), ops[|ops| - 1]);
    }
  }

  lemma NoEvents()
    ensures EventsOk(EMPTY_BOOKS)
  {
  }

  /** The operation is a submission of event e, or a decision of a request about it. */
  predicate Concerns(b: Books, op: Op, e: EventId) {
    match op
    case SubmitEventOp(event, _) => event == e
    case DecideOp(r, _, _) => About(b, r, e)
    case _ => false
  }

  /** Whatever else happens, an event stays as it is. */
  lemma OthersLeaveEvent(b: Books, op: Op, e: EventId)
    requires !Concerns(b, op, e)
    ensures e in Apply(b, op).events <==> e in b.events
    ensures e in b.events ==> Apply(b, op).events[e] == b.events[e]
  {
    hide LeavesEvents, ApprovalProblem, InsertProblem;
    match op
    case SubmitEventOp(_, _) =>
    case DecideOp(_, _, _) =>
    case _ =>
      OtherOpsLeaveEvents(b, op);
      assert Apply(b, op).events == b.events by { LeftEvents(b, Apply(b, op)); }
  }

  lemma LeftEvents(b: Books, b': Books)
    requires LeavesEvents(b, b')
    ensures b'.events == b.events
  {
  }

  /** A submitted event waits for a request of its unit, which is pending and new. */
  lemma SubmittedEvent(b: Books, event: EventId, unit: UnitId)
    ensures var b' := SubmitEvent(b, event, unit);
            && Decidable(b', |b.requests|, unit) && About(b', |b.requests|, event)
            && event in b'.events && b'.events[event] == AwaitingApproval
            && |b'.requests| == |b.requests| + 1 && b'.requests[..|b.requests|] == b.requests
            && forall x :: x != event ==> (x in b'.events <==> x in b.events) && (x in b.events ==> b'.events[x] == b.events[x])
  {
  }

  /** Deciding about an event always succeeds, and touches nothing but that event and its request. */
  lemma EventDecision(b: Books, req: RequestId, unit: UnitId, approve: bool, e: EventId)
    requires Decidable(b, req, unit) && About(b, req, e) && e in b.events
    ensures var (b', r) := Decide(b, req, unit, approve);
            && r.Ok? && b'.accounts == b.accounts && b'.txs == b.txs && b'.recs == b.recs
            && b'.events.Keys == b.events.Keys && (forall x :: x in b.events && x != e ==> b'.events[x] == b.events[x])
            && (forall s :: 0 <= s < |b.requests| && s != req ==> b'.requests[s] == b.requests[s])
            && |b'.requests| == |b.requests| && ShowsOutcome(b', req, e)
  {
  }

  // ----- every interleaving -----

  lemma StepKeepsEvents(sys: Sys, i: nat, cutOff: bool)
    requires EventsOk(sys.books)
    ensures EventsOk(Step(sys, i, cutOff).books)
  {
    hide EventsOk, AfterClaim, AfterLock, AfterCheck, HeldByOther, Needs, DecisionEffect;
    if i < |sys.threads| && sys.threads[i].job.req < |sys.books.requests| {
      DecisionKeepsEvents(sys.books, sys.threads[i].job.req, sys.threads[i].job.approve);
    }
  }

  lemma {:induction false} RunSysKeepsEvents(sys: Sys, schedule: seq<Action>)
    requires EventsOk(sys.books)
    ensures EventsOk(RunSys(sys, schedule).books)
    decreases |schedule|
  {
    hide EventsOk, Step;
    if schedule != [] {
      var last := schedule[|schedule| - 1];
      RunSysKeepsEvents(sys, schedule[..|schedule| - 1]);
      StepKeepsEvents(RunSys(sys, schedule[..|schedule| - 1]), last.thread, last.cutOff);
    }
  }

  lemma SameTablesSameAbout(b: Books, b': Books, r: RequestId, e: EventId)
    requires SameTables(b, b')
    ensures OnlyAbout(b', r, e) <==> OnlyAbout(b, r, e)
  {
    assert forall s :: About(b', s, e) <==> About(b, s, e);
  }

  /**
   In every interleaving an event that one request is about shows what became of it, and in particular what each
   transaction that committed has decided.
   */
  lemma ConcurrentEventsShowOutcomes(ops: seq<Op>, jobs: seq<Job>, schedule: seq<Action>)
    ensures var b := Run(EMPTY_BOOKS, ops);
            var sys := RunSys(Start(b, jobs), schedule);
            && EventsOk(sys.books)
            && forall i, e :: 0 <= i < |sys.threads| && sys.threads[i].at == Done(Committed)
                              && OnlyAbout(b, sys.threads[i].job.req, e) ==>
                 e in sys.books.events
                 && sys.books.events[e] == if sys.threads[i].job.approve then Published else NotPublished
  {
    hide Run, RunSys, EventsOk, SameTables, OnlyAbout, Exclusive, ThreadOk;
    var b := Run(EMPTY_BOOKS, ops);
    var start, sys := Start(b, jobs), RunSys(Start(b, jobs), schedule);
    EveryEventShowsItsOutcome(ops);
    RunSysKeepsEvents(start, schedule);
    StartIsOk(b, jobs);
    RunSysIsOk(start, schedule);
    RunSysKeepsJobs(start, schedule);
    forall i, e | 0 <= i < |sys.threads| && sys.threads[i].at == Done(Committed) && OnlyAbout(b, sys.threads[i].job.req, e)
      ensures e in sys.books.events
      ensures sys.books.events[e] == if sys.threads[i].job.approve then Published else NotPublished
    {
      SameTablesSameAbout(b, sys.books, sys.threads[i].job.req, e);
      OutcomeOf(sys.books, sys.threads[i].job.req, e);
      var k :| 0 <= k < |sys.log| && sys.log[k] == i;
    }
  }

  lemma OutcomeOf(b: Books, r: RequestId, e: EventId)
    requires EventsOk(b) && OnlyAbout(b, r, e)
    ensures ShowsOutcome(b, r, e)
  {
  }
}
