/** Leaders' decisions: what each one does, and that a refusal is never asked about or overridden again. */
module FeedSyncDecisions {
  import opened Prelude
  import opened Text
  import opened CivilTime
  import opened ICalendar
  import opened FeedSync
  import opened FeedSyncLaws
  import opened FeedSyncStability

  // ----- one decision -----

  lemma ResolveIsOk(c: Calendar, k: Key, unit: UnitId, decision: Resolution)
    requires CalendarOk(c)
    ensures CalendarOk(Resolve(c, k, unit, decision))
  {
    hide CalendarOk, Import, DeleteEntries, Grows;
    if Resolvable(c, k, unit) {
      var held := c.conflicts[k];
      match decision
      case Skip => SkipIsOk(c, k);
      case KeepBoth =>
        ImportIsOk(c, k, held.content);
        FewerConflictsIsOk(Import(c, k, held.content), ClearConflict(Import(c, k, held.content), k));
      case Replace =>
        var without := DeleteEntries(c, {held.existing});
        DeleteEntriesIsOk(c, {held.existing});
        DeleteKeepsFeeds(c, {held.existing});
        ImportIsOk(c, k, held.content);
        FewerConflictsIsOk(Import(c, k, held.content), ClearConflict(Import(c, k, held.content), k));
        ImportIsOk(without, k, held.content);
        FewerConflictsIsOk(Import(without, k, held.content), ClearConflict(Import(without, k, held.content), k));
    }
  }

  lemma DeleteKeepsFeeds(c: Calendar, ids: set<EntryId>)
    ensures DeleteEntries(c, ids).feeds == c.feeds
  {
  }

  lemma SkipIsOk(c: Calendar, k: Key)
    requires CalendarOk(c)
    ensures CalendarOk(ClearConflict(c.(ignores := c.ignores + {k}), k))
  {
    var c' := ClearConflict(c.(ignores := c.ignores + {k}), k);
    forall j | j in c'.conflicts
      ensures ConflictOk(c', j)
    {
      assert ConflictOk(c, j);
    }
  }

  /** Keeping both imports the held event beside what it clashed with; every other event stays as it is. */
  lemma KeepBothEffect(c: Calendar, k: Key, unit: UnitId)
    requires CalendarOk(c) && Resolvable(c, k, unit)
    ensures var r := Resolve(c, k, unit, KeepBoth);
            && IsOwned(r, k) && r.conflicts == c.conflicts - {k} && r.ignores == c.ignores
            && (forall id :: id in c.events ==> id in r.events && r.events[id] == c.events[id])
            && (forall id :: id in r.events && id !in c.events ==>
                  r.events[id] == Entry(unit, c.conflicts[k].content, c.feeds[k.feed].visibility, Some(k)))
  {
    hide UniqueSources, OneToOne, ConflictsOk, IgnoredNotHeld;
    ImportIsOk(c, k, c.conflicts[k].content);
    OwnedAfterClearing(Import(c, k, c.conflicts[k].content), k, k);
  }

  lemma OwnedAfterClearing(c: Calendar, k: Key, j: Key)
    ensures IsOwned(ClearConflict(c, k), j) == IsOwned(c, j)
  {
  }

  /** Replacing leaves the old event gone, the incoming one on the calendar and the conflict cleared. */
  lemma ReplaceEffect(c: Calendar, k: Key, unit: UnitId)
    requires CalendarOk(c) && Resolvable(c, k, unit)
    ensures var r, old_ := Resolve(c, k, unit, Replace), c.conflicts[k].existing;
            && old_ in c.events && old_ !in r.events
            && IsOwned(r, k) && r.ignores == c.ignores
            && (forall j :: j in r.conflicts <==> j in c.conflicts && j != k && c.conflicts[j].existing != old_)
            && (forall j :: j in r.conflicts ==> r.conflicts[j] == c.conflicts[j])
            && (forall id :: id in c.events && id != old_ ==> id in r.events && r.events[id] == c.events[id])
            && (forall id :: id in r.events && id !in c.events ==>
                  r.events[id] == Entry(unit, c.conflicts[k].content, c.feeds[k.feed].visibility, Some(k)))
  {
    hide UniqueSources, OneToOne, IgnoredNotHeld;
    assert ConflictOk(c, k);
    var old_ := c.conflicts[k].existing;
    var without := DeleteEntries(c, {old_});
    DeleteEntriesIsOk(c, {old_});
    ImportIsOk(without, k, c.conflicts[k].content);
    OwnedAfterClearing(Import(without, k, c.conflicts[k].content), k, k);
  }

  // ----- refusals stick -----

  /** Refused by a leader and not on the calendar. */
  ghost predicate RuledOut(c: Calendar, k: Key) {
    k in c.ignores && !IsOwned(c, k)
  }

  /** Skipping a held event that is not on the calendar rules it out, and changes nothing else. */
  lemma SkipRulesOut(c: Calendar, k: Key, unit: UnitId)
    requires Resolvable(c, k, unit) && !IsOwned(c, k)
    ensures var r := Resolve(c, k, unit, Skip);
            && RuledOut(r, k) && r.events == c.events && r.ignores == c.ignores + {k} && r.conflicts == c.conflicts - {k}
  {
    OwnedAfterClearing(c.(ignores := c.ignores + {k}), k, k);
    assert IsOwned(c.(ignores := c.ignores + {k}), k) == IsOwned(c, k);
  }

  lemma TakeKeepsRuledOut(c: Calendar, n: Counts, f: FeedId, existing: map<string, EntryId>, o: Offer, k: Key)
    requires CalendarOk(c) && f in c.feeds && ExistingOk(c, f, existing) && RuledOut(c, k)
    ensures RuledOut(Take(c, n, f, existing, o).0, k)
  {
    hide ContentOf, Overwrite, Import, Hold, UniqueSources, OneToOne, ConflictsOk, IgnoredNotHeld;
    var e, j := o.event, Key(f, o.event.uid);
    if !e.cancelled && j !in c.ignores {
      if e.uid in existing {
        ExistingIsOwned(c, f, existing, e.uid);
        OverwriteLeaves(c, existing[e.uid], ContentOf(e), k);
      } else {
        match FindConflict(c, f, e, o.tie)
        case Some(x) => HoldLeaves(c, j, ContentOf(e), x, k);
        case None => ImportLeaves(c, j, ContentOf(e), k);
      }
    }
  }

  lemma {:induction false} TakeAllKeepsRuledOut(c: Calendar, f: FeedId, existing: map<string, EntryId>, offers: seq<Offer>,
                                                k: Key)
    requires CalendarOk(c) && f in c.feeds && ExistingOk(c, f, existing) && RuledOut(c, k)
    ensures RuledOut(TakeAll(c, f, existing, offers).0, k)
    decreases |offers|
  {
    hide CalendarOk, Grows, OnlyOffered, Take, ExistingOk, Covered, SeenUids, RuledOut;
    if offers != [] {
      var front := offers[..|offers| - 1];
      TakeAllKeepsRuledOut(c, f, existing, front, k);
      TakeAllIsOk(c, f, existing, front);
      var (before, n) := TakeAll(c, f, existing, front);
      ExistingKept(c, before, f, existing);
      TakeKeepsRuledOut(before, n, f, existing, offers[|offers| - 1], k);
    }
  }

  lemma FewerEventsFewerOwned(c: Calendar, c': Calendar, k: Key)
    requires RuledOut(c, k) && c'.ignores >= c.ignores
    requires forall id :: id in c'.events && c'.events[id].source.Some? ==> id in c.events && c'.events[id].source == c.events[id].source
    ensures RuledOut(c', k)
  {
  }

  lemma ReconcileKeepsRuledOut(c: Calendar, f: FeedId, offers: seq<Offer>, k: Key)
    requires CalendarOk(c) && RuledOut(c, k)
    ensures RuledOut(Reconcile(c, f, offers).0, k)
  {
    hide CalendarOk, Existing, ExistingOk, TakeAll, SeenUids, RuledOut, Withdrawn;
    if f in c.feeds {
      ExistingIsOk(c, f);
      TakeAllKeepsRuledOut(c, f, Existing(c, f), offers, k);
      var t := Taken(c, f, offers);
      FewerEventsFewerOwned(t, Reconcile(c, f, offers).0, k);
    }
  }

  lemma ResolveKeepsRuledOut(c: Calendar, j: Key, unit: UnitId, decision: Resolution, k: Key)
    requires CalendarOk(c) && RuledOut(c, k)
    ensures RuledOut(Resolve(c, j, unit, decision), k)
  {
    hide UniqueSources, OneToOne, ConflictsOk, Import, DeleteEntries;
    if Resolvable(c, j, unit) {
      assert j != k;
      var held := c.conflicts[j];
      match decision
      case Skip =>
      case KeepBoth =>
        ImportLeaves(c, j, held.content, k);
      case Replace =>
        var without := DeleteEntries(c, {held.existing});
        DeleteEntriesIsOk(c, {held.existing});
        DeleteKeepsRuledOut(c, {held.existing}, k);
        ImportLeaves(c, j, held.content, k);
        ImportLeaves(without, j, held.content, k);
    }
  }

  lemma DeleteKeepsRuledOut(c: Calendar, ids: set<EntryId>, k: Key)
    requires RuledOut(c, k)
    ensures RuledOut(DeleteEntries(c, ids), k) && DeleteEntries(c, ids).feeds == c.feeds
  {
  }

  // ----- whole histories -----

  lemma AddIsOk(c: Calendar, unit: UnitId, content: Content, visibility: string)
    requires CalendarOk(c)
    ensures CalendarOk(AddEntry(c, unit, content, visibility))
    ensures forall k :: RuledOut(c, k) ==> RuledOut(AddEntry(c, unit, content, visibility), k)
  {
    var c' := AddEntry(c, unit, content, visibility);
    forall k | k in c'.conflicts
      ensures ConflictOk(c', k)
    {
      assert ConflictOk(c, k);
    }
  }

  lemma EditIsOk(c: Calendar, id: EntryId, content: Content)
    requires CalendarOk(c)
    ensures CalendarOk(Overwrite(c, id, content))
    ensures forall k :: RuledOut(c, k) ==> RuledOut(Overwrite(c, id, content), k)
  {
    hide BelongsTo;
    var c' := Overwrite(c, id, content);
    forall k | k in c'.conflicts
      ensures ConflictOk(c', k)
    {
      assert ConflictOk(c, k);
      var x := c.conflicts[k].existing;
      SameOwnerBelongs(c.events[x], c'.events[x], k.feed);
    }
  }

  lemma ApplyCalendarIsOk(c: Calendar, op: CalendarOp)
    requires CalendarOk(c)
    ensures CalendarOk(ApplyCalendar(c, op))
    ensures forall k :: RuledOut(c, k) ==> RuledOut(ApplyCalendar(c, op), k)
  {
    hide CalendarOk, RuledOut, Reconcile, Resolve, AddEntry, Overwrite, DeleteEntries;
    match op
    case RefreshOp(f, offers) =>
      ReconcileIsOk(c, f, offers);
      forall k | RuledOut(c, k)
        ensures RuledOut(Reconcile(c, f, offers).0, k)
      {
        ReconcileKeepsRuledOut(c, f, offers, k);
      }
    case ResolveOp(j, u, d) =>
      ResolveIsOk(c, j, u, d);
      forall k | RuledOut(c, k)
        ensures RuledOut(Resolve(c, j, u, d), k)
      {
        ResolveKeepsRuledOut(c, j, u, d, k);
      }
    case AddOp(u, content, v) => AddIsOk(c, u, content, v);
    case EditOp(id, content) => EditIsOk(c, id, content);
    case DeleteOp(id) =>
      DeleteEntriesIsOk(c, {id});
      forall k | RuledOut(c, k)
        ensures RuledOut(DeleteEntries(c, {id}), k)
      {
        DeleteKeepsRuledOut(c, {id}, k);
      }
  }

  lemma {:induction false} RunCalendarIsOk(c: Calendar, ops: seq<CalendarOp>)
    requires CalendarOk(c)
    ensures CalendarOk(RunCalendar(c, ops))
    ensures forall k :: RuledOut(c, k) ==> RuledOut(RunCalendar(c, ops), k)
    decreases |ops|
  {
    hide CalendarOk, RuledOut, ApplyCalendar;
    if ops != [] {
      RunCalendarIsOk(c, ops[..|ops| - 1]);
      ApplyCalendarIsOk(RunCalendar(c, ops[..|ops| - 1]), ops[|ops| - 1]);
    }
  }

  function EmptyCalendar(feeds: map<FeedId, Feed>): Calendar {
    Calendar(feeds, map[], map[], {}, 0)
  }

  /** In every reachable calendar imports are unique by feed and UID, and holding is one to one within a feed. */
  lemma EveryCalendarIsOk(feeds: map<FeedId, Feed>, ops: seq<CalendarOp>)
    ensures CalendarOk(RunCalendar(EmptyCalendar(feeds), ops))
  {
    hide RunCalendar;
    RunCalendarIsOk(EmptyCalendar(feeds), ops);
  }

  /** Over any later refreshes, decisions and edits a refused event is never held and never imported again. */
  lemma RefusalsStick(feeds: map<FeedId, Feed>, ops: seq<CalendarOp>, k: Key, more: seq<CalendarOp>)
    requires RuledOut(RunCalendar(EmptyCalendar(feeds), ops), k)
    ensures var later := RunCalendar(RunCalendar(EmptyCalendar(feeds), ops), more);
            k in later.ignores && !IsOwned(later, k) && k !in later.conflicts
  {
    hide RunCalendar, IsOwned, NumberedEntries, UniqueSources, ConflictsOk, OneToOne;
    EveryCalendarIsOk(feeds, ops);
    RunCalendarIsOk(RunCalendar(EmptyCalendar(feeds), ops), more);
  }
}
