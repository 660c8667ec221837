/**
 Exactly which feeds refresh to the same rows twice: those that list every UID with one content. A UID listed with
 two can free the event its first listing was held against, which another UID then takes; and where nothing clashes,
 the order of the listings decides which content stays.
 */
module FeedSyncDuplicates {
  import opened Prelude
  import opened Text
  import opened CivilTime
  import opened ICalendar
  import opened FeedSync
  import opened FeedSyncLaws
  import opened FeedSyncStability

  const EARLY: Instant := 100_000
  const LATE: Instant := 1_000_000

  function OfferedAt(uid: string, start: Instant): Event {
    Event(uid, "outing", "", "", "", start, start + 3600, false, 0, false)
  }

  function OursAt(start: Instant): Entry {
    Entry(0, Content("ours", "", "", start, Some(start + 3600)), "members", None)
  }

  /** A unit with one feed and two events of its own, numbered 1 and 2. */
  function TwoEvents(conflicts: map<Key, Held>): Calendar {
    Calendar(map[0 := Feed(0, "members")], map[1 := OursAt(EARLY), 2 := OursAt(LATE)], conflicts, {}, 3)
  }

  /** One UID at both times, and another at the early one. */
  function DuplicateOffers(): seq<Offer> {
    [Offer(OfferedAt("u", EARLY), 0), Offer(OfferedAt("u", LATE), 0), Offer(OfferedAt("v", EARLY), 0)]
  }

  lemma EarlyCandidates(conflicts: map<Key, Held>, uid: string)
    ensures Candidates(TwoEvents(conflicts), 0, OfferedAt(uid, EARLY)) ==
            if TakenByOther(conflicts, 0, uid, 1) then {} else {1}
  {
    hide TrimSpace, TakenByOther;
  }

  lemma LateCandidates(conflicts: map<Key, Held>, uid: string)
    ensures Candidates(TwoEvents(conflicts), 0, OfferedAt(uid, LATE)) ==
            if TakenByOther(conflicts, 0, uid, 2) then {} else {2}
  {
    hide TrimSpace, TakenByOther;
  }

  function HeldAt(uid: string, start: Instant, existing: EntryId): Held {
    Held(ContentOf(OfferedAt(uid, start)), existing)
  }

  lemma TakeEarly(conflicts: map<Key, Held>, n: Counts, uid: string)
    requires !TakenByOther(conflicts, 0, uid, 1)
    ensures Take(TwoEvents(conflicts), n, 0, map[], Offer(OfferedAt(uid, EARLY), 0)) ==
            (TwoEvents(conflicts[Key(0, uid) := HeldAt(uid, EARLY, 1)]), n.(conflicts := n.conflicts + 1))
  {
    hide ContentOf, TakenByOther, Candidates;
    EarlyCandidates(conflicts, uid);
  }

  lemma TakeLate(conflicts: map<Key, Held>, n: Counts, uid: string)
    requires !TakenByOther(conflicts, 0, uid, 2)
    ensures Take(TwoEvents(conflicts), n, 0, map[], Offer(OfferedAt(uid, LATE), 0)) ==
            (TwoEvents(conflicts[Key(0, uid) := HeldAt(uid, LATE, 2)]), n.(conflicts := n.conflicts + 1))
  {
    hide ContentOf, TakenByOther, Candidates;
    LateCandidates(conflicts, uid);
  }

  lemma TakeEarlyTaken(conflicts: map<Key, Held>, n: Counts, uid: string)
    requires TakenByOther(conflicts, 0, uid, 1)
    ensures Take(TwoEvents(conflicts), n, 0, map[], Offer(OfferedAt(uid, EARLY), 0)).1 == n.(created := n.created + 1)
  {
    hide ContentOf, TakenByOther, Candidates;
    EarlyCandidates(conflicts, uid);
  }

  lemma TakeThree(c: Calendar, existing: map<string, EntryId>, x: Offer, y: Offer, z: Offer)
    requires 0 in c.feeds
    ensures var (c1, n1) := Take(c, NO_COUNTS, 0, existing, x);
            var (c2, n2) := Take(c1, n1, 0, existing, y);
            TakeAll(c, 0, existing, [x, y, z]) == Take(c2, n2, 0, existing, z)
  {
    hide TakeAll;
    TakeAllSnoc(c, 0, existing, [], x);
    TakeAllSnoc(c, 0, existing, [x], y);
    TakeAllSnoc(c, 0, existing, [x, y], z);
    assert [] + [x] == [x] && [x] + [y] == [x, y] && [x, y] + [z] == [x, y, z];
    assert TakeAll(c, 0, existing, []) == (c, NO_COUNTS) by { TakeNone(c, 0, existing); }
  }

  /** The counts of created events never fall while offers are taken. */
  lemma CreatedOnlyGrows(c: Calendar, n: Counts, existing: map<string, EntryId>, o: Offer)
    requires 0 in c.feeds
    ensures Take(c, n, 0, existing, o).1.created >= n.created
  {
    hide ContentOf;
    if !o.event.cancelled && Key(0, o.event.uid) !in c.ignores && o.event.uid !in existing {
      match FindConflict(c, 0, o.event, o.tie)
      case Some(_) =>
      case None =>
    }
  }

  lemma NothingExisting(conflicts: map<Key, Held>)
    ensures Existing(TwoEvents(conflicts), 0) == map[]
  {
    assert forall u :: !IsOwned(TwoEvents(conflicts), Key(0, u));
  }

  /** The UIDs end up held against each other's events: "u" against event 2, "v" against event 1. */
  function AfterDuplicates(): map<Key, Held> {
    map[Key(0, "u") := HeldAt("u", LATE, 2), Key(0, "v") := HeldAt("v", EARLY, 1)]
  }

  lemma FirstRefresh()
    ensures Reconcile(TwoEvents(map[]), 0, DuplicateOffers()).0 == TwoEvents(AfterDuplicates())
  {
    hide ContentOf, Take, TakeAll, Existing;
    var c, offers := TwoEvents(map[]), DuplicateOffers();
    NothingExisting(map[]);
    TakeThree(c, map[], offers[0], offers[1], offers[2]);
    TakeEarly(map[], NO_COUNTS, "u");
    TakeLate(map[Key(0, "u") := HeldAt("u", EARLY, 1)], NO_COUNTS.(conflicts := 1), "u");
    TakeEarly(map[Key(0, "u") := HeldAt("u", LATE, 2)], NO_COUNTS.(conflicts := 2), "v");
    var t := TakeAll(c, 0, map[], offers).0;
    var held := map[Key(0, "u") := HeldAt("u", LATE, 2)];
    assert map[Key(0, "u") := HeldAt("u", EARLY, 1)][Key(0, "u") := HeldAt("u", LATE, 2)] == held;
    assert held[Key(0, "v") := HeldAt("v", EARLY, 1)] == AfterDuplicates();
    assert t == TwoEvents(AfterDuplicates());
    SeenUidsMembers(offers, "u");
    SeenUidsMembers(offers, "v");
    assert "u" in SeenUids(offers) && "v" in SeenUids(offers) by {
      assert offers[0].event.uid == "u" && offers[2].event.uid == "v";
    }
    assert Withdrawn(map[], SeenUids(offers)) == {};
    KeepsEverything(t, SeenUids(offers));
  }

  lemma KeepsEverything(t: Calendar, seen: set<string>)
    requires forall k :: k in t.conflicts ==> k.uid in seen
    ensures DeleteEntries(DropStale(t, 0, seen), {}) == t
  {
    assert DropStale(t, 0, seen).conflicts == t.conflicts;
    assert DeleteEntries(DropStale(t, 0, seen), {}).conflicts == t.conflicts;
  }

  /** The same feed refreshed twice in a row: the second refresh imports an event that the first one held. */
  lemma DuplicateUidsAreNotStable()
    ensures var offers, r := DuplicateOffers(), Reconcile(TwoEvents(map[]), 0, DuplicateOffers()).0;
            && CalendarOk(TwoEvents(map[])) && !OneContent(offers)
            && r.conflicts.Keys == {Key(0, "u"), Key(0, "v")} && r.events == TwoEvents(map[]).events
            && Reconcile(r, 0, offers).1.created >= 1
  {
    hide ContentOf, Take, TakeAll, Existing, Reconcile;
    var offers, r := DuplicateOffers(), TwoEvents(AfterDuplicates());
    assert Live(offers, 0) && Live(offers, 1) && offers[0].event.uid == offers[1].event.uid;
    assert ContentOf(offers[0].event) != ContentOf(offers[1].event) by { StartsAreContent(); }
    FirstRefresh();
    SecondRefresh();
  }

  lemma SecondRefresh()
    ensures Reconcile(TwoEvents(AfterDuplicates()), 0, DuplicateOffers()).1.created >= 1
  {
    hide ContentOf, Take, TakeAll, Existing, SeenUids, DeleteEntries, DropStale, Withdrawn;
    var c, offers := TwoEvents(AfterDuplicates()), DuplicateOffers();
    NothingExisting(AfterDuplicates());
    TakeThree(c, map[], offers[0], offers[1], offers[2]);
    assert AfterDuplicates()[Key(0, "v")].existing == 1;
    assert TakenByOther(AfterDuplicates(), 0, "u", 1);
    TakeEarlyTaken(AfterDuplicates(), NO_COUNTS, "u");
    var (c1, n1) := Take(c, NO_COUNTS, 0, map[], offers[0]);
    CreatedOnlyGrows(c1, n1, map[], offers[1]);
    var (c2, n2) := Take(c1, n1, 0, map[], offers[1]);
    CreatedOnlyGrows(c2, n2, map[], offers[2]);
  }

  lemma StartsAreContent()
    ensures ContentOf(OfferedAt("u", EARLY)) != ContentOf(OfferedAt("u", LATE))
  {
    hide TrimSpace;
    assert ContentOf(OfferedAt("u", EARLY)).starts == EARLY;
  }

  // ----- the exact condition -----

  /** Refreshing from some offers and then from others keeps the rows and creates and removes nothing. */
  ghost predicate StableOn(c: Calendar, f: FeedId, offers: seq<Offer>, again: seq<Offer>) {
    var r := Reconcile(c, f, offers).0;
    var (r', n) := Reconcile(r, f, again);
    SameRows(r, r', f) && n.created == 0 && n.removed == 0
  }

  /** So it is on every calendar, whatever the order and the tie-breaking the second time. */
  ghost predicate Stable(offers: seq<Offer>) {
    forall c, f, again :: CalendarOk(c) && f in c.feeds && SameEvents(offers, again) ==> StableOn(c, f, offers, again)
  }

  function EmptyCalendar(): Calendar {
    Calendar(map[0 := Feed(0, "members")], map[], map[], {}, 0)
  }

  /** The offers with one of them moved to the end. */
  function MovedLast(offers: seq<Offer>, a: nat): seq<Offer>
    requires a < |offers|
  {
    offers[..a] + offers[a + 1..] + [offers[a]]
  }

  lemma MovedLastIsSame(offers: seq<Offer>, a: nat)
    requires a < |offers|
    ensures SameEvents(offers, MovedLast(offers, a))
  {
    var moved := MovedLast(offers, a);
    forall e
      ensures Offers(offers, e) <==> Offers(moved, e)
    {
      if i :| Live(offers, i) && offers[i].event == e {
        assert Live(moved, if i < a then i else if i == a then |offers| - 1 else i - 1);
      }
      if i :| Live(moved, i) && moved[i].event == e {
        assert Live(offers, if i < a then i else if i == |offers| - 1 then a else i + 1);
      }
    }
  }

  /** On a calendar of its own a feed has nothing to clash with, so everything offered is imported. */
  lemma AloneIsImported(offers: seq<Offer>, u: string)
    requires u in SeenUids(offers)
    ensures var r := Reconcile(EmptyCalendar(), 0, offers).0;
            CalendarOk(r) && r.feeds == EmptyCalendar().feeds && r.ignores == {} && IsOwned(r, Key(0, u))
  {
    hide Reconcile, SeenUids, NumberedEntries, UniqueSources, OneToOne, IgnoredNotHeld;
    var c, r := EmptyCalendar(), Reconcile(EmptyCalendar(), 0, offers).0;
    assert CalendarOk(c) by { EmptyIsOk(); }
    ReconcileIsOk(c, 0, offers);
    RefreshLosesNothing(c, 0, offers);
    RefreshTouchesOnlyItsOwn(c, 0, offers);
  }

  lemma EmptyIsOk()
    ensures CalendarOk(EmptyCalendar())
  {
  }

  /** An imported event ends a refresh with the content that is listed last for it. */
  lemma LastListingWins(c: Calendar, f: FeedId, front: seq<Offer>, o: Offer)
    requires CalendarOk(c) && f in c.feeds && !o.event.cancelled
    requires Key(f, o.event.uid) !in c.ignores && IsOwned(c, Key(f, o.event.uid))
    ensures var id, r := Existing(c, f)[o.event.uid], Reconcile(c, f, front + [o]).0;
            id in r.events && r.events[id].content == ContentOf(o.event)
  {
    hide ContentOf, CalendarOk, Reconcile, TakeAll, Existing, SeenUids, EventsGrow, ConflictsGrow, Covered, OnlyOffered,
         IsOwned;
    var existing := Existing(c, f);
    ExistingIsOk(c, f);
    TakeAllIsOk(c, f, existing, front);
    var (before, n) := TakeAll(c, f, existing, front);
    ExistingKept(c, before, f, existing);
    TakeAllSnoc(c, f, existing, front, o);
    var offers := front + [o];
    assert offers[|front|] == o;
    LiveIsSeen(offers, |front|);
    ReconciledShape(c, f, offers);
  }

  /** A UID listed with two contents: whichever the first refresh leaves, listing the other last replaces it. */
  lemma TwoContentsUnstable(offers: seq<Offer>, i: int, j: int)
    requires Live(offers, i) && Live(offers, j) && offers[i].event.uid == offers[j].event.uid
    requires ContentOf(offers[i].event) != ContentOf(offers[j].event)
    ensures !Stable(offers)
  {
    hide ContentOf, CalendarOk, Reconcile, Existing, SameEvents, IsOwned;
    var c, u := EmptyCalendar(), offers[i].event.uid;
    EmptyIsOk();
    LiveIsSeen(offers, i);
    AloneIsImported(offers, u);
    var r := Reconcile(c, 0, offers).0;
    var id := Existing(r, 0)[u];
    var a := if ContentOf(offers[i].event) == r.events[id].content then j else i;
    var front := offers[..a] + offers[a + 1..];
    MovedLastIsSame(offers, a);
    assert MovedLast(offers, a) == front + [offers[a]];
    LastListingWins(r, 0, front, offers[a]);
    assert !StableOn(c, 0, offers, MovedLast(offers, a));
  }

  /**
   A feed refreshes to the same rows again, on every calendar and in every order, if and only if it lists each UID
   with one content.
   */
  lemma StableIffOneContent(offers: seq<Offer>)
    ensures Stable(offers) <==> OneContent(offers)
  {
    hide ContentOf, CalendarOk, Reconcile, SameEvents, SameRows;
    if OneContent(offers) {
      forall c, f, again | CalendarOk(c) && f in c.feeds && SameEvents(offers, again)
        ensures StableOn(c, f, offers, again)
      {
        RefreshIsStable(c, f, offers, again);
      }
    } else {
      var i, j :| Live(offers, i) && Live(offers, j) && offers[i].event.uid == offers[j].event.uid
                  && ContentOf(offers[i].event) != ContentOf(offers[j].event);
      TwoContentsUnstable(offers, i, j);
    }
  }
}
