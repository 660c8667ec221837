/** Refreshing again from the same offers changes nothing: no import, no removal, the same events held. */
module FeedSyncStability {
  import opened Prelude
  import opened Text
  import opened CivilTime
  import opened ICalendar
  import opened FeedSync
  import opened FeedSyncLaws

  // ----- offers -----

  predicate Live(offers: seq<Offer>, i: int) {
    0 <= i < |offers| && !offers[i].event.cancelled
  }

  /** A UID that is listed more than once, cancelled listings aside, is listed with the same content each time. */
  ghost predicate OneContent(offers: seq<Offer>) {
    forall i, j :: Live(offers, i) && Live(offers, j) && offers[i].event.uid == offers[j].event.uid ==>
                     ContentOf(offers[i].event) == ContentOf(offers[j].event)
  }

  ghost predicate Offers(offers: seq<Offer>, e: Event) {
    exists i :: Live(offers, i) && offers[i].event == e
  }

  /** The same events, cancelled ones aside, in any order. */
  ghost predicate SameEvents(x: seq<Offer>, y: seq<Offer>) {
    forall e :: Offers(x, e) <==> Offers(y, e)
  }

  lemma OfferedIsSeen(offers: seq<Offer>, u: string)
    ensures u in SeenUids(offers) <==> exists e :: Offers(offers, e) && e.uid == u
  {
    SeenUidsMembers(offers, u);
    if i :| 0 <= i < |offers| && !offers[i].event.cancelled && offers[i].event.uid == u {
      assert Live(offers, i);
      assert Offers(offers, offers[i].event);
    }
    if e :| Offers(offers, e) && e.uid == u {
      var i :| Live(offers, i) && offers[i].event == e;
    }
  }

  lemma SameEventsSameUids(x: seq<Offer>, y: seq<Offer>)
    requires SameEvents(x, y)
    ensures SeenUids(x) == SeenUids(y)
  {
    hide SeenUids, Offers;
    forall u
      ensures u in SeenUids(x) <==> u in SeenUids(y)
    {
      OfferedIsSeen(x, u);
      OfferedIsSeen(y, u);
    }
  }

  // ----- settled events -----

  /** Nothing more to do for an offered event: ruled out, on the calendar as offered, or held as offered against a clash. */
  ghost predicate Settled(c: Calendar, f: FeedId, e: Event) {
    var k := Key(f, e.uid);
    || k in c.ignores
    || (IsOwned(c, k) && forall id :: id in c.events && c.events[id].source == Some(k) ==> c.events[id].content == ContentOf(e))
    || (&& !IsOwned(c, k) && f in c.feeds && k in c.conflicts && c.conflicts[k].existing in c.events
        && c.conflicts[k].content == ContentOf(e) && Clashes(c.events[c.conflicts[k].existing], c.feeds[f].unit, f, e))
  }

  /** Taking an offer that its UID does not appear on yet settles it. */
  lemma TakeSettles(c: Calendar, n: Counts, f: FeedId, existing: map<string, EntryId>, o: Offer)
    requires CalendarOk(c) && f in c.feeds && ExistingOk(c, f, existing) && !o.event.cancelled
    requires o.event.uid !in existing ==> !IsOwned(c, Key(f, o.event.uid))
    ensures Settled(Take(c, n, f, existing, o).0, f, o.event)
  {
    hide ContentOf, EndOrAssumed, NumberedEntries, ConflictsOk, OneToOne, IgnoredNotHeld;
    var e, k := o.event, Key(f, o.event.uid);
    var c' := Take(c, n, f, existing, o).0;
    if k !in c.ignores {
      if e.uid in existing {
        assert c'.events[existing[e.uid]].source == Some(k);
      } else {
        match FindConflict(c, f, e, o.tie)
        case Some(x) =>
        case None => assert c'.events[c.next].source == Some(k);
      }
    }
  }

  /** Being settled is a matter of the UID and the content alone. */
  lemma SameContentSettled(c: Calendar, f: FeedId, e: Event, e': Event)
    requires Settled(c, f, e) && e'.uid == e.uid && ContentOf(e') == ContentOf(e)
    ensures Settled(c, f, e')
  {
    hide EndOrAssumed;
    assert e.start == ContentOf(e).starts && e'.start == ContentOf(e').starts;
  }

  /** Taking a settled offer once more leaves it settled: nothing is imported twice, and a clash is found again. */
  lemma TakeKeepsOwn(c: Calendar, n: Counts, f: FeedId, existing: map<string, EntryId>, o: Offer)
    requires CalendarOk(c) && f in c.feeds && ExistingOk(c, f, existing)
    requires !o.event.cancelled && Settled(c, f, o.event)
    ensures Settled(Take(c, n, f, existing, o).0, f, o.event)
  {
    hide ContentOf, Candidates, ConflictsOk, OneToOne, IgnoredNotHeld, NumberedEntries;
    var e, k := o.event, Key(f, o.event.uid);
    var c' := Take(c, n, f, existing, o).0;
    if k !in c.ignores {
      if e.uid in existing {
        assert c'.events[existing[e.uid]].source == Some(k);
      } else if IsOwned(c, k) {
        SameOwned(c, c', k);
      } else {
        StillClashes(c, f, e, o.tie);
        HoldsClash(c, f, e, o.tie);
        SameOwned(c, c', k);
      }
    }
  }

  /** Taking an offer does not unsettle an event with another UID. */
  lemma TakeKeepsSettled(c: Calendar, n: Counts, f: FeedId, existing: map<string, EntryId>, o: Offer, e: Event)
    requires CalendarOk(c) && f in c.feeds && ExistingOk(c, f, existing)
    requires Settled(c, f, e) && (!o.event.cancelled ==> o.event.uid != e.uid)
    ensures Settled(Take(c, n, f, existing, o).0, f, e)
  {
    hide ContentOf, EndOrAssumed, CalendarOk, Grows, Candidates, Take;
    TakeIsOk(c, n, f, existing, o);
    var k, c' := Key(f, e.uid), Take(c, n, f, existing, o).0;
    OthersUntouched(c, n, f, existing, o, k);
    if k !in c.ignores && !IsOwned(c, k) {
      ClashStays(c, c', f, k);
    }
  }

  lemma ClashStays(c: Calendar, c': Calendar, f: FeedId, k: Key)
    requires CalendarOk(c) && Grows(c, c', f) && k.feed == f && k in c.conflicts
    ensures c'.events[c.conflicts[k].existing] == c.events[c.conflicts[k].existing]
  {
    assert ConflictOk(c, k);
  }

  /** Everything filed under key k is the same before and after. */
  ghost predicate Leaves(c: Calendar, c': Calendar, k: Key) {
    && c'.ignores == c.ignores && c'.feeds == c.feeds
    && (IsOwned(c', k) <==> IsOwned(c, k))
    && (forall id :: id in c'.events && c'.events[id].source == Some(k) ==>
          id in c.events && c'.events[id] == c.events[id])
    && (k in c.conflicts ==> k in c'.conflicts && c'.conflicts[k] == c.conflicts[k])
    && (k in c.conflicts && c.conflicts[k].existing in c.events ==> c.conflicts[k].existing in c'.events)
  }

  lemma OverwriteLeaves(c: Calendar, id: EntryId, content: Content, k: Key)
    requires id in c.events && c.events[id].source != Some(k)
    ensures Leaves(c, Overwrite(c, id, content), k)
  {
    var c' := Overwrite(c, id, content);
    if i :| i in c.events && c.events[i].source == Some(k) {
      assert c'.events[i].source == Some(k);
    }
  }

  lemma ImportLeaves(c: Calendar, j: Key, content: Content, k: Key)
    requires NumberedEntries(c) && j.feed in c.feeds && j != k
    ensures Leaves(c, Import(c, j, content), k)
  {
    var c' := Import(c, j, content);
    if i :| i in c.events && c.events[i].source == Some(k) {
      assert c'.events[i].source == Some(k);
    }
  }

  lemma HoldLeaves(c: Calendar, j: Key, content: Content, x: EntryId, k: Key)
    requires j != k
    ensures Leaves(c, Hold(c, j, content, x), k)
  {
  }

  lemma NothingLeaves(c: Calendar, k: Key)
    ensures Leaves(c, c, k)
  {
  }

  lemma OthersUntouched(c: Calendar, n: Counts, f: FeedId, existing: map<string, EntryId>, o: Offer, k: Key)
    requires CalendarOk(c) && f in c.feeds && ExistingOk(c, f, existing)
    requires k.feed == f && (!o.event.cancelled ==> o.event.uid != k.uid)
    ensures Leaves(c, Take(c, n, f, existing, o).0, k)
  {
    hide ContentOf, Leaves, Overwrite, Import, Hold, UniqueSources, OneToOne, ConflictsOk, IgnoredNotHeld;
    var e := o.event;
    NothingLeaves(c, k);
    if !e.cancelled && Key(f, e.uid) !in c.ignores {
      if e.uid in existing {
        OverwriteLeaves(c, existing[e.uid], ContentOf(e), k);
      } else {
        match FindConflict(c, f, e, o.tie)
        case Some(x) => HoldLeaves(c, Key(f, e.uid), ContentOf(e), x, k);
        case None => ImportLeaves(c, Key(f, e.uid), ContentOf(e), k);
      }
    }
  }

  ghost predicate AllSettled(c: Calendar, f: FeedId, offers: seq<Offer>) {
    forall i :: Live(offers, i) ==> Settled(c, f, offers[i].event)
  }

  lemma OneContentFront(offers: seq<Offer>)
    requires offers != [] && OneContent(offers)
    ensures OneContent(offers[..|offers| - 1])
  {
    hide ContentOf;
    var front := offers[..|offers| - 1];
    assert forall i :: Live(front, i) ==> Live(offers, i) && front[i] == offers[i];
  }

  lemma {:induction false} TakeAllSettles(c: Calendar, f: FeedId, offers: seq<Offer>)
    requires CalendarOk(c) && f in c.feeds && OneContent(offers)
    ensures AllSettled(TakeAll(c, f, Existing(c, f), offers).0, f, offers)
    decreases |offers|
  {
    hide CalendarOk, Grows, OnlyOffered, Take, ExistingOk, Covered, SeenUids, Settled, Existing, IsOwned, ContentOf, OneContent;
    if offers != [] {
      var front, o, existing := offers[..|offers| - 1], offers[|offers| - 1], Existing(c, f);
      assert forall i :: 0 <= i < |front| ==> front[i] == offers[i];
      OneContentFront(offers);
      TakeAllSettles(c, f, front);
      ExistingIsOk(c, f);
      TakeAllIsOk(c, f, existing, front);
      var (before, n) := TakeAll(c, f, existing, front);
      ExistingKept(c, before, f, existing);
      if !o.event.cancelled {
        assert front + [o] == offers;
        LastSettles(c, before, n, f, front, o);
      }
      forall i | Live(offers, i)
        ensures Settled(Take(before, n, f, existing, o).0, f, offers[i].event)
      {
        if i < |front| {
          assert Live(front, i);
          OthersStaySettled(before, n, f, existing, o, offers, i);
        }
      }
    }
  }

  /** The offer taken last settles, whether its UID was taken before in this refresh or not. */
  lemma LastSettles(c: Calendar, before: Calendar, n: Counts, f: FeedId, front: seq<Offer>, o: Offer)
    requires CalendarOk(before) && f in before.feeds && ExistingOk(before, f, Existing(c, f)) && !o.event.cancelled
    requires Grows(c, before, f) && OnlyOffered(c, before, SeenUids(front))
    requires AllSettled(before, f, front) && OneContent(front + [o])
    ensures Settled(Take(before, n, f, Existing(c, f), o).0, f, o.event)
  {
    hide CalendarOk, Grows, OnlyOffered, Take, ExistingOk, SeenUids, Settled, Existing, IsOwned, ContentOf;
    if i :| Live(front, i) && front[i].event.uid == o.event.uid {
      assert Live(front + [o], i) && Live(front + [o], |front|);
      SameContentSettled(before, f, front[i].event, o.event);
      TakeKeepsOwn(before, n, f, Existing(c, f), o);
    } else {
      NewUidNotOwned(c, before, f, front, o.event.uid);
      TakeSettles(before, n, f, Existing(c, f), o);
    }
  }

  /** Taking one of the offers keeps every other one settled. */
  lemma OthersStaySettled(c: Calendar, n: Counts, f: FeedId, existing: map<string, EntryId>, o: Offer, all: seq<Offer>, i: int)
    requires CalendarOk(c) && f in c.feeds && ExistingOk(c, f, existing)
    requires Live(all, i) && o in all && OneContent(all) && Settled(c, f, all[i].event)
    requires !o.event.cancelled ==> Settled(Take(c, n, f, existing, o).0, f, o.event)
    ensures Settled(Take(c, n, f, existing, o).0, f, all[i].event)
  {
    hide CalendarOk, Take, ExistingOk, Settled, ContentOf;
    if !o.event.cancelled && o.event.uid == all[i].event.uid {
      var j :| 0 <= j < |all| && all[j] == o;
      assert Live(all, j);
      SameContentSettled(Take(c, n, f, existing, o).0, f, o.event, all[i].event);
    } else {
      TakeKeepsSettled(c, n, f, existing, o, all[i].event);
    }
  }

  lemma NewUidNotOwned(c: Calendar, before: Calendar, f: FeedId, front: seq<Offer>, u: string)
    requires Grows(c, before, f) && OnlyOffered(c, before, SeenUids(front))
    requires forall i :: Live(front, i) ==> front[i].event.uid != u
    ensures u !in Existing(c, f) ==> !IsOwned(before, Key(f, u))
  {
    SeenUidsMembers(front, u);
    forall i | 0 <= i < |front| && !front[i].event.cancelled
      ensures front[i].event.uid != u
    {
      assert Live(front, i);
    }
    if IsOwned(before, Key(f, u)) {
      OwnedBeforeOrOffered(c, before, f, SeenUids(front), u);
    }
  }

  /** A refresh that lists each UID with one content leaves every offered event settled, and nothing else of the feed's behind. */
  lemma RefreshSettles(c: Calendar, f: FeedId, offers: seq<Offer>)
    requires CalendarOk(c) && f in c.feeds && OneContent(offers)
    ensures AllSettled(Reconcile(c, f, offers).0, f, offers)
  {
    hide CalendarOk, Reconcile, Existing, OneContent, Settled, Grows, OnlyOffered, Covered, SeenUids, ExistingOk, IsOwned;
    TakeAllSettles(c, f, offers);
    TakenIsOk(c, f, offers);
    ReconciledShape(c, f, offers);
    var t, r := Taken(c, f, offers), Reconcile(c, f, offers).0;
    GrowsKeepsRest(c, t, f);
    forall i | Live(offers, i)
      ensures Settled(r, f, offers[i].event)
    {
      LiveIsSeen(offers, i);
      SettledAfterCleanup(t, r, f, SeenUids(offers), offers[i].event);
    }
  }

  lemma LiveIsSeen(offers: seq<Offer>, i: int)
    requires Live(offers, i)
    ensures offers[i].event.uid in SeenUids(offers)
  {
  }

  lemma SettledAfterCleanup(t: Calendar, r: Calendar, f: FeedId, seen: set<string>, e: Event)
    requires Settled(t, f, e) && e.uid in seen && CalendarOk(t)
    requires r.ignores == t.ignores && r.feeds == t.feeds
    requires forall id :: id in r.events <==>
               id in t.events && !(BelongsTo(t.events[id], f) && t.events[id].source.value.uid !in seen)
    requires forall id :: id in r.events ==> r.events[id] == t.events[id]
    requires forall k :: k in r.conflicts <==>
               k in t.conflicts && (k.feed == f ==> k.uid in seen) && t.conflicts[k].existing in r.events
    requires forall k :: k in r.conflicts ==> r.conflicts[k] == t.conflicts[k]
    ensures Settled(r, f, e)
  {
    hide ContentOf, Clashes, NumberedEntries, UniqueSources, OneToOne, IgnoredNotHeld;
    var k := Key(f, e.uid);
    if k !in t.ignores {
      if IsOwned(t, k) {
        var id :| id in t.events && t.events[id].source == Some(k);
        assert id in r.events && r.events[id].source == Some(k);
      } else {
        assert ConflictOk(t, k);
      }
    }
  }

  // ----- refreshing again -----

  /** The same events, and the same UIDs held with the same content. */
  ghost predicate SameRows(c: Calendar, c': Calendar, f: FeedId) {
    && c'.feeds == c.feeds && c'.events == c.events && c'.ignores == c.ignores && c'.next == c.next
    && c'.conflicts.Keys == c.conflicts.Keys
    && (forall k :: k in c.conflicts ==> c'.conflicts[k].content == c.conflicts[k].content)
    && forall k :: k in c.conflicts && k.feed != f ==> c'.conflicts[k] == c.conflicts[k]
  }

  /**
   The event a held UID is held against cannot be taken by another UID of the feed, so looking for a conflict
   again still finds one.
   */
  lemma StillClashes(c: Calendar, f: FeedId, e: Event, tie: EntryId)
    requires CalendarOk(c) && f in c.feeds && Settled(c, f, e)
    requires Key(f, e.uid) !in c.ignores && !IsOwned(c, Key(f, e.uid))
    ensures FindConflict(c, f, e, tie).Some?
  {
    hide Clashes, NumberedEntries, UniqueSources, ConflictsOk, IgnoredNotHeld, ContentOf;
    assert c.conflicts[Key(f, e.uid)].existing in Candidates(c, f, e);
  }

  /** Taking a settled offer again changes no event and holds no new UID. */
  lemma TakeAgain(c: Calendar, n: Counts, f: FeedId, existing: map<string, EntryId>, o: Offer)
    requires CalendarOk(c) && f in c.feeds && ExistingOk(c, f, existing)
    requires !o.event.cancelled ==> Settled(c, f, o.event)
    requires forall u :: IsOwned(c, Key(f, u)) <==> u in existing
    ensures var (c', n') := Take(c, n, f, existing, o);
            && SameRows(c, c', f) && n'.created == n.created && n'.removed == n.removed
            && (!o.event.cancelled ==> Settled(c', f, o.event))
  {
    hide ContentOf, Candidates, CalendarOk;
    var e, k := o.event, Key(f, o.event.uid);
    if !e.cancelled && k !in c.ignores {
      if e.uid in existing {
        assert Overwrite(c, existing[e.uid], ContentOf(e)).events == c.events;
      } else {
        StillClashes(c, f, e, o.tie);
        HoldsClash(c, f, e, o.tie);
        SameOwned(c, Take(c, n, f, existing, o).0, k);
      }
    }
  }

  lemma SameOwned(c: Calendar, c': Calendar, k: Key)
    requires c'.events == c.events
    ensures IsOwned(c', k) == IsOwned(c, k)
  {
  }

  lemma HoldsClash(c: Calendar, f: FeedId, e: Event, tie: EntryId)
    requires f in c.feeds && FindConflict(c, f, e, tie).Some?
    ensures var x := FindConflict(c, f, e, tie).value; x in c.events && Clashes(c.events[x], c.feeds[f].unit, f, e)
  {
    hide Clashes;
  }

  lemma SameRowsTransitive(c: Calendar, c': Calendar, c'': Calendar, f: FeedId)
    requires SameRows(c, c', f) && SameRows(c', c'', f)
    ensures SameRows(c, c'', f)
  {
  }

  lemma {:induction false} TakeAllAgain(c: Calendar, f: FeedId, existing: map<string, EntryId>, offers: seq<Offer>, all: seq<Offer>)
    requires CalendarOk(c) && f in c.feeds && existing == Existing(c, f)
    requires AllSettled(c, f, all) && OneContent(all) && offers <= all
    ensures var (t, n) := TakeAll(c, f, existing, offers);
            && CalendarOk(t) && SameRows(c, t, f) && AllSettled(t, f, all) && ExistingOk(t, f, existing)
            && n.created == 0 && n.removed == 0
    decreases |offers|
  {
    hide CalendarOk, Grows, Take, ExistingOk, Settled, IsOwned, Existing, Covered, SameRows, OneContent;
    ExistingIsOk(c, f);
    if offers == [] {
      SameRowsHere(c, f);
    } else {
      var front, o := offers[..|offers| - 1], offers[|offers| - 1];
      var at := |offers| - 1;
      assert all[at] == o;
      TakeAllAgain(c, f, existing, front, all);
      var (before, n) := TakeAll(c, f, existing, front);
      forall u
        ensures IsOwned(before, Key(f, u)) <==> u in existing
      {
        SameRowsOwned(c, before, f, Key(f, u));
      }
      assert !o.event.cancelled ==> Live(all, at);
      TakeAgain(before, n, f, existing, o);
      TakeIsOk(before, n, f, existing, o);
      var after := Take(before, n, f, existing, o).0;
      ExistingKept(before, after, f, existing);
      SameRowsTransitive(c, before, after, f);
      forall i | Live(all, i)
        ensures Settled(after, f, all[i].event)
      {
        OthersStaySettled(before, n, f, existing, o, all, i);
      }
    }
  }

  lemma SameRowsHere(c: Calendar, f: FeedId)
    ensures SameRows(c, c, f)
  {
  }

  lemma SameRowsOwned(c: Calendar, c': Calendar, f: FeedId, k: Key)
    requires SameRows(c, c', f)
    ensures IsOwned(c', k) == IsOwned(c, k)
  {
  }

  /** With every UID the feed has still offered, there is nothing to delete. */
  lemma NothingToDelete(c: Calendar, t: Calendar, f: FeedId, existing: map<string, EntryId>, seen: set<string>)
    requires SameRows(c, t, f) && (forall u :: u in existing ==> u in seen)
    requires forall k :: k in c.conflicts && k.feed == f ==> k.uid in seen
    ensures Withdrawn(existing, seen) == {}
    ensures SameRows(c, DeleteEntries(DropStale(t, f, seen), Withdrawn(existing, seen)), f)
  {
    var r := DeleteEntries(DropStale(t, f, seen), {});
    assert forall k :: k in c.conflicts <==> k in t.conflicts;
    forall k
      ensures k in r.conflicts <==> k in c.conflicts
    {
    }
  }

  lemma SameEventsStaySettled(c: Calendar, f: FeedId, x: seq<Offer>, y: seq<Offer>)
    requires AllSettled(c, f, x) && SameEvents(x, y)
    ensures AllSettled(c, f, y)
  {
    hide Settled;
    forall j | Live(y, j)
      ensures Settled(c, f, y[j].event)
    {
      assert Offers(y, y[j].event);
      assert Offers(x, y[j].event);
      var i :| Live(x, i) && x[i].event == y[j].event;
    }
  }

  lemma SameEventsOneContent(x: seq<Offer>, y: seq<Offer>)
    requires OneContent(x) && SameEvents(x, y)
    ensures OneContent(y)
  {
    hide ContentOf;
    forall i, j | Live(y, i) && Live(y, j) && y[i].event.uid == y[j].event.uid
      ensures ContentOf(y[i].event) == ContentOf(y[j].event)
    {
      assert Offers(y, y[i].event) && Offers(y, y[j].event);
      assert Offers(x, y[i].event) && Offers(x, y[j].event);
      var m, n :| Live(x, m) && x[m].event == y[i].event && Live(x, n) && x[n].event == y[j].event;
    }
  }

  /**
   Refreshing again from the same events, in any order and however the database breaks ties, creates nothing,
   removes nothing, and leaves every event and every held and ignored UID as it was.
   */
  lemma RefreshIsStable(c: Calendar, f: FeedId, offers: seq<Offer>, again: seq<Offer>)
    requires CalendarOk(c) && f in c.feeds
    requires OneContent(offers) && SameEvents(offers, again)
    ensures var r := Reconcile(c, f, offers).0;
            var (r', n) := Reconcile(r, f, again);
            SameRows(r, r', f) && n.created == 0 && n.removed == 0
  {
    hide CalendarOk, OneContent, SameEvents, Settled, AllSettled, SeenUids, TakeAll, Existing, SameRows, Withdrawn,
         DeleteEntries, DropStale, Covered, BelongsTo, SameOwner;
    var r := Reconcile(c, f, offers).0;
    RefreshSettles(c, f, offers);
    ReconcileIsOk(c, f, offers);
    RefreshLosesNothing(c, f, offers);
    RefreshTouchesOnlyItsOwn(c, f, offers);
    SameEventsStaySettled(r, f, offers, again);
    SameEventsOneContent(offers, again);
    SameEventsSameUids(offers, again);
    var existing, seen := Existing(r, f), SeenUids(again);
    TakeAllAgain(r, f, existing, again, again);
    forall u | u in existing
      ensures u in seen
    {
      ExistingWasOffered(r, f, seen, u);
    }
    NothingToDelete(r, TakeAll(r, f, existing, again).0, f, existing, seen);
  }

  lemma ExistingWasOffered(r: Calendar, f: FeedId, seen: set<string>, u: string)
    requires forall id :: id in r.events && BelongsTo(r.events[id], f) ==> r.events[id].source.value.uid in seen
    requires u in Existing(r, f)
    ensures u in seen
  {
    assert BelongsTo(r.events[Existing(r, f)[u]], f);
  }
}
