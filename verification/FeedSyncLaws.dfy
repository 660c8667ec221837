/**
 What every refresh and decision keeps: imports are unique by feed and UID, each held event is held against one
 event of its own, nothing offered is lost, and nobody else's events are touched.
 */
module FeedSyncLaws {
  import opened Prelude
  import opened Text
  import opened CivilTime
  import opened ICalendar
  import opened FeedSync

  // ----- the invariant -----

  ghost predicate NumberedEntries(c: Calendar) {
    forall id :: id in c.events ==> id < c.next
  }

  ghost predicate UniqueSources(c: Calendar) {
    forall i, j :: i in c.events && j in c.events && i != j && c.events[i].source.Some? ==>
                     c.events[i].source != c.events[j].source
  }

  /** What an offer is held against: an event of the same unit that some other hand or feed put there. */
  ghost predicate ConflictOk(c: Calendar, k: Key)
    requires k in c.conflicts
  {
    && k.feed in c.feeds
    && c.conflicts[k].existing in c.events
    && c.events[c.conflicts[k].existing].unit == c.feeds[k.feed].unit
    && !BelongsTo(c.events[c.conflicts[k].existing], k.feed)
  }

  ghost predicate ConflictsOk(c: Calendar) {
    forall k :: k in c.conflicts ==> ConflictOk(c, k)
  }

  /** Within one feed, held UIDs and the events they are held against match one to one. */
  ghost predicate OneToOne(c: Calendar) {
    forall j, k :: j in c.conflicts && k in c.conflicts && j.feed == k.feed && j != k ==>
                     c.conflicts[j].existing != c.conflicts[k].existing
  }

  ghost predicate IgnoredNotHeld(c: Calendar) {
    forall k :: k in c.ignores ==> k !in c.conflicts
  }

  ghost predicate CalendarOk(c: Calendar) {
    NumberedEntries(c) && UniqueSources(c) && ConflictsOk(c) && OneToOne(c) && IgnoredNotHeld(c)
  }

  // ----- how a calendar changes while offers are taken -----

  ghost predicate SameOwner(x: Entry, y: Entry) {
    y.unit == x.unit && y.visibility == x.visibility && y.source == x.source
  }

  /** Events stay, unchanged unless they belong to the feed; new ones belong to the feed. */
  ghost predicate EventsGrow(c: Calendar, c': Calendar, f: FeedId) {
    && c.next <= c'.next
    && (forall id :: id in c.events ==> id in c'.events)
    && (forall id :: id in c.events ==> SameOwner(c.events[id], c'.events[id]))
    && (forall id :: id in c.events && !BelongsTo(c.events[id], f) ==> c'.events[id] == c.events[id])
    && (forall id :: id in c'.events && id !in c.events ==>
          id >= c.next && BelongsTo(c'.events[id], f)
          && f in c.feeds && c'.events[id].unit == c.feeds[f].unit && c'.events[id].visibility == c.feeds[f].visibility)
  }

  /** Conflicts stay held, and only the feed's own change. */
  ghost predicate ConflictsGrow(c: Calendar, c': Calendar, f: FeedId) {
    && (forall k :: k in c.conflicts ==> k in c'.conflicts)
    && (forall k :: k in c.conflicts && k.feed != f ==> c'.conflicts[k] == c.conflicts[k])
    && (forall k :: k in c'.conflicts && k !in c.conflicts ==> k.feed == f)
  }

  ghost predicate Grows(c: Calendar, c': Calendar, f: FeedId) {
    c'.feeds == c.feeds && c'.ignores == c.ignores && EventsGrow(c, c', f) && ConflictsGrow(c, c', f)
  }

  lemma GrowsTransitive(c: Calendar, c': Calendar, c'': Calendar, f: FeedId)
    requires Grows(c, c', f) && Grows(c', c'', f)
    ensures Grows(c, c'', f)
  {
    hide EventsGrow;
    EventsGrowTransitive(c, c', c'', f);
  }

  lemma EventsGrowTransitive(c: Calendar, c': Calendar, c'': Calendar, f: FeedId)
    requires EventsGrow(c, c', f) && EventsGrow(c', c'', f) && c'.feeds == c.feeds
    ensures EventsGrow(c, c'', f)
  {
    hide BelongsTo;
    forall id | id in c.events
      ensures BelongsTo(c'.events[id], f) == BelongsTo(c.events[id], f)
    {
      SameOwnerBelongs(c.events[id], c'.events[id], f);
    }
    forall id | id in c''.events && id !in c.events
      ensures id >= c.next && BelongsTo(c''.events[id], f)
      ensures f in c.feeds && c''.events[id].unit == c.feeds[f].unit && c''.events[id].visibility == c.feeds[f].visibility
    {
      if id in c'.events {
        assert SameOwner(c'.events[id], c''.events[id]);
        SameOwnerBelongs(c'.events[id], c''.events[id], f);
      }
    }
  }

  lemma SameOwnerBelongs(x: Entry, y: Entry, f: FeedId)
    requires SameOwner(x, y)
    ensures BelongsTo(x, f) == BelongsTo(y, f)
  {
  }

  /** The events recorded at the start of a refresh are still the feed's. */
  ghost predicate ExistingOk(c: Calendar, f: FeedId, existing: map<string, EntryId>) {
    forall u :: u in existing ==> existing[u] in c.events && c.events[existing[u]].source == Some(Key(f, u))
  }

  lemma ExistingKept(c: Calendar, c': Calendar, f: FeedId, existing: map<string, EntryId>)
    requires ExistingOk(c, f, existing) && Grows(c, c', f)
    ensures ExistingOk(c', f, existing)
  {
  }

  /** A UID of the feed is accounted for: ruled out by a leader, on the calendar, or waiting for a decision. */
  ghost predicate Covered(c: Calendar, k: Key) {
    k in c.ignores || IsOwned(c, k) || k in c.conflicts
  }

  lemma OwnedKept(c: Calendar, c': Calendar, f: FeedId, k: Key)
    requires Grows(c, c', f)
    ensures IsOwned(c, k) ==> IsOwned(c', k)
    ensures Covered(c, k) ==> Covered(c', k)
  {
    if id :| id in c.events && c.events[id].source == Some(k) {
      assert SameOwner(c.events[id], c'.events[id]);
    }
  }

  // ----- one offer -----

  lemma OverwriteIsOk(c: Calendar, f: FeedId, id: EntryId, content: Content)
    requires CalendarOk(c) && id in c.events && BelongsTo(c.events[id], f)
    ensures CalendarOk(Overwrite(c, id, content)) && Grows(c, Overwrite(c, id, content), f)
  {
    var c' := Overwrite(c, id, content);
    forall k | k in c'.conflicts
      ensures ConflictOk(c', k)
    {
      assert ConflictOk(c, k);
    }
  }

  lemma ImportIsOk(c: Calendar, k: Key, content: Content)
    requires CalendarOk(c) && k.feed in c.feeds
    ensures CalendarOk(Import(c, k, content)) && Grows(c, Import(c, k, content), k.feed) && IsOwned(Import(c, k, content), k)
  {
    hide ConflictsOk, OneToOne, Grows;
    ImportKeepsConflicts(c, k, content);
    ImportGrows(c, k, content);
    if !IsOwned(c, k) {
      assert Import(c, k, content).events[c.next].source == Some(k);
    }
  }

  lemma ImportKeepsConflicts(c: Calendar, k: Key, content: Content)
    requires ConflictsOk(c) && OneToOne(c) && NumberedEntries(c) && k.feed in c.feeds
    ensures ConflictsOk(Import(c, k, content)) && OneToOne(Import(c, k, content))
  {
    hide IsOwned;
    var c' := Import(c, k, content);
    forall j | j in c'.conflicts
      ensures ConflictOk(c', j)
    {
      assert ConflictOk(c, j);
    }
  }

  lemma ImportGrows(c: Calendar, k: Key, content: Content)
    requires NumberedEntries(c) && k.feed in c.feeds
    ensures Grows(c, Import(c, k, content), k.feed)
  {
    hide IsOwned;
  }

  lemma HoldIsOk(c: Calendar, f: FeedId, e: Event, x: EntryId)
    requires CalendarOk(c) && f in c.feeds && Key(f, e.uid) !in c.ignores
    requires x in Candidates(c, f, e)
    ensures var c' := Hold(c, Key(f, e.uid), ContentOf(e), x); CalendarOk(c') && Grows(c, c', f)
  {
    hide ContentOf, ConflictsOk, OneToOne;
    HoldKeepsConflicts(c, f, e, x);
    HoldKeepsOneToOne(c, f, e, x);
    HoldGrows(c, f, e, x);
  }

  lemma HoldKeepsConflicts(c: Calendar, f: FeedId, e: Event, x: EntryId)
    requires ConflictsOk(c) && f in c.feeds && x in Candidates(c, f, e)
    ensures ConflictsOk(Hold(c, Key(f, e.uid), ContentOf(e), x))
  {
    hide ContentOf, EndOrAssumed, TakenByOther;
    var c' := Hold(c, Key(f, e.uid), ContentOf(e), x);
    forall j | j in c'.conflicts
      ensures ConflictOk(c', j)
    {
      if j != Key(f, e.uid) {
        assert ConflictOk(c, j);
      }
    }
  }

  lemma HoldKeepsOneToOne(c: Calendar, f: FeedId, e: Event, x: EntryId)
    requires OneToOne(c) && f in c.feeds && x in Candidates(c, f, e)
    ensures OneToOne(Hold(c, Key(f, e.uid), ContentOf(e), x))
  {
    hide ContentOf, Clashes;
    var k := Key(f, e.uid);
    assert !TakenByOther(c.conflicts, f, e.uid, x);
    forall j | j in c.conflicts && j.feed == f && j != k
      ensures c.conflicts[j].existing != x
    {
      assert j.uid != e.uid;
    }
  }

  lemma HoldGrows(c: Calendar, f: FeedId, e: Event, x: EntryId)
    ensures Grows(c, Hold(c, Key(f, e.uid), ContentOf(e), x), f)
  {
    hide ContentOf;
    NothingGrows(c, f);
  }

  lemma TakeIsOk(c: Calendar, n: Counts, f: FeedId, existing: map<string, EntryId>, o: Offer)
    requires CalendarOk(c) && f in c.feeds && ExistingOk(c, f, existing)
    ensures var c' := Take(c, n, f, existing, o).0;
            && CalendarOk(c') && Grows(c, c', f)
            && (!o.event.cancelled ==> Covered(c', Key(f, o.event.uid)))
  {
    hide CalendarOk, Grows, ContentOf, Candidates, Import, Overwrite, IsOwned;
    NothingGrows(c, f);
    var e, k := o.event, Key(f, o.event.uid);
    if !e.cancelled && k !in c.ignores {
      if e.uid in existing {
        OverwriteIsOk(c, f, existing[e.uid], ContentOf(e));
        ExistingIsOwned(c, f, existing, e.uid);
        OwnedKept(c, Overwrite(c, existing[e.uid], ContentOf(e)), f, k);
      } else {
        match FindConflict(c, f, e, o.tie)
        case Some(x) => HoldIsOk(c, f, e, x);
        case None => ImportIsOk(c, k, ContentOf(e));
      }
    }
  }

  lemma NothingGrows(c: Calendar, f: FeedId)
    ensures Grows(c, c, f)
  {
  }

  lemma ExistingIsOwned(c: Calendar, f: FeedId, existing: map<string, EntryId>, uid: string)
    requires ExistingOk(c, f, existing) && uid in existing
    ensures IsOwned(c, Key(f, uid))
  {
  }

  /** Only offered UIDs are newly held or newly imported. */
  ghost predicate OnlyOffered(c: Calendar, c': Calendar, seen: set<string>) {
    && (forall k :: k in c'.conflicts && k !in c.conflicts ==> k.uid in seen)
    && (forall id :: id in c'.events && id !in c.events ==>
                       c'.events[id].source.Some? && c'.events[id].source.value.uid in seen)
  }

  lemma TakeIsOffered(c: Calendar, n: Counts, f: FeedId, existing: map<string, EntryId>, o: Offer, seen: set<string>)
    requires f in c.feeds && (!o.event.cancelled ==> o.event.uid in seen)
    ensures OnlyOffered(c, Take(c, n, f, existing, o).0, seen)
  {
    hide ContentOf, Candidates, IsOwned;
  }

  lemma OnlyOfferedTransitive(c: Calendar, c': Calendar, c'': Calendar, f: FeedId, seen: set<string>)
    requires OnlyOffered(c, c', seen) && OnlyOffered(c', c'', seen) && Grows(c', c'', f)
    ensures OnlyOffered(c, c'', seen)
  {
    forall id | id in c''.events && id !in c.events
      ensures c''.events[id].source.Some? && c''.events[id].source.value.uid in seen
    {
      if id in c'.events {
        assert SameOwner(c'.events[id], c''.events[id]);
      }
    }
  }

  lemma SeenUidsAppend(offers: seq<Offer>, o: Offer)
    ensures SeenUids(offers + [o]) == SeenUids(offers) + if o.event.cancelled then {} else {o.event.uid}
  {
    forall u
      ensures u in SeenUids(offers + [o]) <==> u in SeenUids(offers) || (!o.event.cancelled && u == o.event.uid)
    {
      SeenUidsMembers(offers, u);
      SeenUidsMembers(offers + [o], u);
      assert (offers + [o])[|offers|] == o;
      forall i | 0 <= i < |offers|
        ensures (offers + [o])[i] == offers[i]
      {
      }
    }
  }

  lemma SeenUidsMembers(offers: seq<Offer>, u: string)
    ensures u in SeenUids(offers) <==> exists i :: 0 <= i < |offers| && !offers[i].event.cancelled && offers[i].event.uid == u
  {
  }

  /** After all offers are taken, every one that is not cancelled is accounted for. */
  lemma {:induction false} TakeAllIsOk(c: Calendar, f: FeedId, existing: map<string, EntryId>, offers: seq<Offer>)
    requires CalendarOk(c) && f in c.feeds && ExistingOk(c, f, existing)
    ensures var c' := TakeAll(c, f, existing, offers).0;
            && CalendarOk(c') && Grows(c, c', f) && OnlyOffered(c, c', SeenUids(offers))
            && forall u :: u in SeenUids(offers) ==> Covered(c', Key(f, u))
    decreases |offers|
  {
    hide CalendarOk, Grows, OnlyOffered, Take, ExistingOk, Covered, SeenUids;
    if offers == [] {
      NothingGrows(c, f);
      NothingOffered(c);
    } else {
      var front, o := offers[..|offers| - 1], offers[|offers| - 1];
      assert front + [o] == offers;
      TakeAllIsOk(c, f, existing, front);
      var (before, n) := TakeAll(c, f, existing, front);
      var after := Take(before, n, f, existing, o).0;
      ExistingKept(c, before, f, existing);
      TakeIsOk(before, n, f, existing, o);
      GrowsTransitive(c, before, after, f);
      SeenUidsAppend(front, o);
      MoreOffered(c, before, SeenUids(front), SeenUids(offers));
      TakeIsOffered(before, n, f, existing, o, SeenUids(offers));
      OnlyOfferedTransitive(c, before, after, f, SeenUids(offers));
      forall u | u in SeenUids(offers)
        ensures Covered(after, Key(f, u))
      {
        OwnedKept(before, after, f, Key(f, u));
      }
    }
  }

  lemma NothingOffered(c: Calendar)
    ensures SeenUids([]) == {} && OnlyOffered(c, c, {})
  {
  }

  lemma MoreOffered(c: Calendar, c': Calendar, seen: set<string>, more: set<string>)
    requires OnlyOffered(c, c', seen) && seen <= more
    ensures OnlyOffered(c, c', more)
  {
  }

  // ----- clearing up -----

  lemma FewerConflictsIsOk(c: Calendar, c': Calendar)
    requires CalendarOk(c)
    requires c'.feeds == c.feeds && c'.events == c.events && c'.next == c.next && c'.ignores == c.ignores
    requires forall k :: k in c'.conflicts ==> k in c.conflicts && c'.conflicts[k] == c.conflicts[k]
    ensures CalendarOk(c')
  {
    forall k | k in c'.conflicts
      ensures ConflictOk(c', k)
    {
      assert ConflictOk(c, k);
    }
  }

  lemma DeleteEntriesIsOk(c: Calendar, ids: set<EntryId>)
    requires CalendarOk(c)
    ensures CalendarOk(DeleteEntries(c, ids))
  {
    var c' := DeleteEntries(c, ids);
    forall k | k in c'.conflicts
      ensures ConflictOk(c', k)
    {
      assert ConflictOk(c, k);
    }
  }

  lemma ExistingIsOk(c: Calendar, f: FeedId)
    ensures ExistingOk(c, f, Existing(c, f))
  {
  }

  /** What a refresh deletes: the feed's own events that the source no longer offers. */
  lemma WithdrawnBelong(c: Calendar, f: FeedId, existing: map<string, EntryId>, seen: set<string>, id: EntryId)
    requires UniqueSources(c) && ExistingOk(c, f, existing) && id in c.events
    requires forall u :: IsOwned(c, Key(f, u)) ==> u in existing || u in seen
    ensures id in Withdrawn(existing, seen) <==>
            BelongsTo(c.events[id], f) && c.events[id].source.value.uid !in seen
  {
    if BelongsTo(c.events[id], f) {
      var u := c.events[id].source.value.uid;
      assert c.events[id].source == Some(Key(f, u));
      assert IsOwned(c, Key(f, u));
      if u !in seen {
        assert existing[u] == id;
      }
    }
  }

  // ----- one refresh -----

  /** The calendar once all offers are taken and before anything is deleted. */
  function Taken(c: Calendar, f: FeedId, offers: seq<Offer>): Calendar
    requires f in c.feeds
  {
    TakeAll(c, f, Existing(c, f), offers).0
  }

  lemma TakenIsOk(c: Calendar, f: FeedId, offers: seq<Offer>)
    requires CalendarOk(c) && f in c.feeds
    ensures var t := Taken(c, f, offers);
            && CalendarOk(t) && Grows(c, t, f) && OnlyOffered(c, t, SeenUids(offers))
            && (forall u :: u in SeenUids(offers) ==> Covered(t, Key(f, u)))
            && ExistingOk(t, f, Existing(c, f))
            && (forall u :: IsOwned(t, Key(f, u)) ==> u in Existing(c, f) || u in SeenUids(offers))
  {
    hide CalendarOk, Grows, OnlyOffered, Covered, SeenUids, TakeAll, Existing, ExistingOk;
    ExistingIsOk(c, f);
    TakeAllIsOk(c, f, Existing(c, f), offers);
    ExistingKept(c, Taken(c, f, offers), f, Existing(c, f));
    forall u | IsOwned(Taken(c, f, offers), Key(f, u))
      ensures u in Existing(c, f) || u in SeenUids(offers)
    {
      OwnedBeforeOrOffered(c, Taken(c, f, offers), f, SeenUids(offers), u);
    }
  }

  lemma OwnedBeforeOrOffered(c: Calendar, t: Calendar, f: FeedId, seen: set<string>, u: string)
    requires Grows(c, t, f) && OnlyOffered(c, t, seen) && IsOwned(t, Key(f, u))
    ensures u in Existing(c, f) || u in seen
  {
    var id :| id in t.events && t.events[id].source == Some(Key(f, u));
    if id in c.events {
      assert SameOwner(c.events[id], t.events[id]);
      assert IsOwned(c, Key(f, u));
    }
  }

  /** What a refresh leaves: the taken calendar less the feed's withdrawn events and stale or orphaned conflicts. */
  lemma ReconciledShape(c: Calendar, f: FeedId, offers: seq<Offer>)
    requires CalendarOk(c) && f in c.feeds
    ensures var t, r, seen := Taken(c, f, offers), Reconcile(c, f, offers).0, SeenUids(offers);
            && r.feeds == c.feeds && r.ignores == c.ignores
            && (forall id :: id in r.events <==>
                  id in t.events && !(BelongsTo(t.events[id], f) && t.events[id].source.value.uid !in seen))
            && (forall id :: id in r.events ==> r.events[id] == t.events[id])
            && (forall k :: k in r.conflicts <==>
                  k in t.conflicts && (k.feed == f ==> k.uid in seen) && t.conflicts[k].existing in r.events)
            && (forall k :: k in r.conflicts ==> r.conflicts[k] == t.conflicts[k])
  {
    hide Grows, OnlyOffered, Covered, SeenUids, TakeAll, Existing, NumberedEntries, OneToOne, IgnoredNotHeld, IsOwned,
         Withdrawn, ExistingOk, UniqueSources;
    TakenIsOk(c, f, offers);
    var t, seen, existing := Taken(c, f, offers), SeenUids(offers), Existing(c, f);
    GrowsKeepsRest(c, t, f);
    forall id | id in t.events
      ensures id in Withdrawn(existing, seen) <==> BelongsTo(t.events[id], f) && t.events[id].source.value.uid !in seen
    {
      WithdrawnBelong(t, f, existing, seen, id);
    }
    forall k | k in t.conflicts
      ensures t.conflicts[k].existing in t.events
    {
      assert ConflictOk(t, k);
    }
  }

  lemma GrowsKeepsRest(c: Calendar, c': Calendar, f: FeedId)
    requires Grows(c, c', f)
    ensures c'.feeds == c.feeds && c'.ignores == c.ignores
  {
  }

  lemma ReconcileIsOk(c: Calendar, f: FeedId, offers: seq<Offer>)
    requires CalendarOk(c)
    ensures CalendarOk(Reconcile(c, f, offers).0)
  {
    hide CalendarOk, Grows, OnlyOffered, Covered, SeenUids, Existing, TakeAll, DeleteEntries, Withdrawn;
    if f in c.feeds {
      TakenIsOk(c, f, offers);
      var t := Taken(c, f, offers);
      FewerConflictsIsOk(t, DropStale(t, f, SeenUids(offers)));
      DeleteEntriesIsOk(DropStale(t, f, SeenUids(offers)), Withdrawn(Existing(c, f), SeenUids(offers)));
    }
  }

  /** A refresh loses nothing: every offered UID ends up imported, held or ignored, and every import was offered. */
  lemma RefreshLosesNothing(c: Calendar, f: FeedId, offers: seq<Offer>)
    requires CalendarOk(c) && f in c.feeds
    ensures var r := Reconcile(c, f, offers).0;
            && (forall u :: u in SeenUids(offers) ==> Covered(r, Key(f, u)))
            && (forall id :: id in r.events && BelongsTo(r.events[id], f) ==>
                  r.events[id].source.value.uid in SeenUids(offers))
            && (forall k :: k in r.conflicts && k.feed == f ==> k.uid in SeenUids(offers))
  {
    hide Grows, OnlyOffered, SeenUids, Existing, Reconcile, Taken, BelongsTo, NumberedEntries, UniqueSources, OneToOne,
         IgnoredNotHeld;
    TakenIsOk(c, f, offers);
    ReconciledShape(c, f, offers);
    var t, r := Taken(c, f, offers), Reconcile(c, f, offers).0;
    GrowsKeepsRest(c, t, f);
    forall u | u in SeenUids(offers)
      ensures Covered(r, Key(f, u))
    {
      OfferedStaysCovered(t, r, f, SeenUids(offers), u);
    }
  }

  lemma OfferedStaysCovered(t: Calendar, r: Calendar, f: FeedId, seen: set<string>, u: string)
    requires Covered(t, Key(f, u)) && u in seen && ConflictsOk(t)
    requires r.ignores == t.ignores
    requires forall id :: id in r.events <==>
               id in t.events && !(BelongsTo(t.events[id], f) && t.events[id].source.value.uid !in seen)
    requires forall id :: id in r.events ==> r.events[id] == t.events[id]
    requires forall k :: k in r.conflicts <==>
               k in t.conflicts && (k.feed == f ==> k.uid in seen) && t.conflicts[k].existing in r.events
    ensures Covered(r, Key(f, u))
  {
    var k := Key(f, u);
    if id :| id in t.events && t.events[id].source == Some(k) {
      assert id in r.events;
    } else if k in t.conflicts {
      assert ConflictOk(t, k);
    }
  }

  /**
   A refresh touches only its own rows: events that are not the feed's are the same before and after, the feed's
   keep their visibility, unit and UID, and another feed's conflict disappears only with the event it was about.
   */
  lemma RefreshTouchesOnlyItsOwn(c: Calendar, f: FeedId, offers: seq<Offer>)
    requires CalendarOk(c) && f in c.feeds
    ensures var r := Reconcile(c, f, offers).0;
            && r.ignores == c.ignores && r.feeds == c.feeds
            && (forall id :: id in c.events && !BelongsTo(c.events[id], f) ==> id in r.events && r.events[id] == c.events[id])
            && (forall id :: id in r.events && !BelongsTo(r.events[id], f) ==> id in c.events && c.events[id] == r.events[id])
            && (forall id :: id in c.events && id in r.events ==> SameOwner(c.events[id], r.events[id]))
            && (forall id :: id in r.events && id !in c.events ==> r.events[id].visibility == c.feeds[f].visibility)
            && (forall k: Key :: k.feed != f ==>
                  (k in r.conflicts <==> k in c.conflicts && c.conflicts[k].existing in r.events)
                  && (k in r.conflicts ==> r.conflicts[k] == c.conflicts[k]))
  {
    hide OnlyOffered, SeenUids, Existing, Reconcile, Taken, NumberedEntries, UniqueSources, OneToOne,
         IgnoredNotHeld, Covered, IsOwned, ExistingOk;
    TakenIsOk(c, f, offers);
    ReconciledShape(c, f, offers);
    var t, r := Taken(c, f, offers), Reconcile(c, f, offers).0;
    forall id | id in c.events
      ensures BelongsTo(t.events[id], f) == BelongsTo(c.events[id], f)
    {
      assert SameOwner(c.events[id], t.events[id]);
    }
  }

  /**
   What becomes of an offer whose UID is neither ignored nor imported: held against the earliest event it clashes
   with that no other UID of the feed is held against, or imported with the feed's visibility when there is none.
   */
  lemma NewOfferIsHeldOrImported(c: Calendar, n: Counts, f: FeedId, existing: map<string, EntryId>, o: Offer)
    requires CalendarOk(c) && f in c.feeds && !o.event.cancelled && o.event.uid !in existing
    requires Key(f, o.event.uid) !in c.ignores && !IsOwned(c, Key(f, o.event.uid))
    ensures var (c', n') := Take(c, n, f, existing, o);
            var k, clashes := Key(f, o.event.uid), Candidates(c, f, o.event);
            if clashes != {} then
              && c'.events == c.events && n'.conflicts == n.conflicts + 1
              && k in c'.conflicts && c'.conflicts[k].content == ContentOf(o.event)
              && c'.conflicts[k].existing in clashes
              && forall j :: j in clashes ==>
                   c.events[c'.conflicts[k].existing].content.starts <= c.events[j].content.starts
            else
              && c'.conflicts == c.conflicts && n'.created == n.created + 1
              && c.next in c'.events && c'.events == c.events[c.next := c'.events[c.next]]
              && c'.events[c.next] == Entry(c.feeds[f].unit, ContentOf(o.event), c.feeds[f].visibility, Some(k))
  {
    hide ContentOf, Clashes, CalendarOk, TakenByOther;
  }

  function LiveCount(offers: seq<Offer>): nat {
    if offers == [] then 0
    else LiveCount(offers[..|offers| - 1]) + if offers[|offers| - 1].event.cancelled then 0 else 1
  }

  /** The counts a refresh reports cover every offer that is not cancelled once. */
  lemma {:induction false} CountsAddUp(c: Calendar, f: FeedId, existing: map<string, EntryId>, offers: seq<Offer>)
    requires f in c.feeds
    ensures var n := TakeAll(c, f, existing, offers).1;
            n.created + n.updated + n.conflicts + n.ignored == LiveCount(offers) && n.removed == 0
    decreases |offers|
  {
    hide ContentOf, Candidates, Import, Overwrite;
    if offers != [] {
      CountsAddUp(c, f, existing, offers[..|offers| - 1]);
    }
  }
}
