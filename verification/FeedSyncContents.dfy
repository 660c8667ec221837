/**
 What a refresh shows for what was offered, in the offered event's own words: its texts and times on the calendar or on
 the held conflict, when two events clash, and what the counts count.
 */
module FeedSyncContents {
  import opened Prelude
  import opened Text
  import opened CivilTime
  import opened ICalendar
  import opened FeedSync
  import opened FeedSyncLaws
  import opened FeedSyncStability

  // ----- texts and times -----

  predicate Blank(s: string) {
    forall i :: 0 <= i < |s| ==> IsSpace(s[i])
  }

  lemma {:induction false} LeftTrimmed(s: string)
    ensures TrimLeftSpace(s) == "" <==> Blank(s)
    ensures TrimLeftSpace(s) != "" ==> !IsSpace(TrimLeftSpace(s)[0])
  {
    if s != "" && IsSpace(s[0]) {
      LeftTrimmed(s[1..]);
      assert s == [s[0]] + s[1..];
    }
  }

  lemma {:induction false} RightTrimmed(s: string)
    requires s != "" && !IsSpace(s[0])
    ensures TrimRightSpace(s) != ""
  {
    if IsSpace(s[|s| - 1]) {
      RightTrimmed(s[..|s| - 1]);
    }
  }

  lemma TrimmedAwayIffBlank(s: string)
    ensures TrimSpace(s) == "" <==> Blank(s)
  {
    hide Blank, IsSpace;
    LeftTrimmed(s);
    if TrimLeftSpace(s) != "" {
      RightTrimmed(TrimLeftSpace(s));
    }
  }

  /** A calendar's row carries what the event says: a blank title is replaced, and an end is there if one was given. */
  predicate Shows(content: Content, e: Event) {
    && content.description == e.description && content.location == e.location && content.starts == e.start
    && (Blank(e.summary) ==> content.title == "(untitled)") && (!Blank(e.summary) ==> content.title == e.summary)
    && (e.end == 0 ==> content.ends == None) && (e.end != 0 ==> content.ends == Some(e.end))
  }

  lemma ContentShows(e: Event)
    ensures Shows(ContentOf(e), e)
  {
    hide TrimSpace, Blank;
    TrimmedAwayIffBlank(e.summary);
  }

  /** The imported event, or the held one, shows the offer; or the UID is ignored. */
  ghost predicate ShownAs(r: Calendar, f: FeedId, e: Event) {
    var k := Key(f, e.uid);
    || k in r.ignores
    || (IsOwned(r, k) && forall id :: id in r.events && r.events[id].source == Some(k) ==> Shows(r.events[id].content, e))
    || (!IsOwned(r, k) && k in r.conflicts && Shows(r.conflicts[k].content, e) && r.conflicts[k].existing in r.events)
  }

  /**
   After a refresh that lists each UID with one content, every offered event is ignored, or on the calendar, or held,
   and then with the description, location, title, start and end it was offered with.
   */
  lemma RefreshShowsOffers(c: Calendar, f: FeedId, offers: seq<Offer>, i: int)
    requires CalendarOk(c) && f in c.feeds && OneContent(offers) && Live(offers, i)
    ensures ShownAs(Reconcile(c, f, offers).0, f, offers[i].event)
  {
    hide CalendarOk, Reconcile, OneContent, ContentOf, Shows, Clashes, IsOwned;
    RefreshSettles(c, f, offers);
    ContentShows(offers[i].event);
    assert Settled(Reconcile(c, f, offers).0, f, offers[i].event);
  }

  // ----- clashes -----

  /** An instant during [from, to). */
  predicate Inside(t: Instant, from: Instant, to: Instant) {
    from <= t < to
  }

  function LastInstant(starts: Instant, ends: Option<Instant>): Instant {
    match ends
    case Some(t) => t
    case None => starts + 3600
  }

  /**
   Two events clash exactly when some instant lies in the one and, give or take half an hour, in the other; an event
   without an end is taken to last an hour.
   */
  lemma ClashesIffOverlapping(entry: Entry, unit: UnitId, f: FeedId, e: Event)
    requires entry.content.starts < LastInstant(entry.content.starts, entry.content.ends)
    requires e.end != 0 ==> e.start < e.end
    ensures Clashes(entry, unit, f, e) <==>
              && entry.unit == unit && !BelongsTo(entry, f)
              && exists t :: && Inside(t, entry.content.starts, LastInstant(entry.content.starts, entry.content.ends))
                             && Inside(t, e.start - 1800, (if e.end == 0 then e.start + 3600 else e.end) + 1800)
  {
    hide TrimSpace;
    var from := entry.content.starts;
    var t := if from < e.start - 1800 then e.start - 1800 else from;
    if Clashes(entry, unit, f, e) {
      assert Inside(t, from, LastInstant(from, entry.content.ends));
    }
  }

  // ----- counts -----

  /** How many offers that are not cancelled carry one of the given UIDs. */
  function CountUids(offers: seq<Offer>, uids: set<string>): nat {
    if offers == [] then 0
    else
      var e := offers[|offers| - 1].event;
      CountUids(offers[..|offers| - 1], uids) + if !e.cancelled && e.uid in uids then 1 else 0
  }

  function IgnoredUids(c: Calendar, f: FeedId): set<string> {
    set k | k in c.ignores && k.feed == f :: k.uid
  }

  lemma IgnoredUidsMembers(c: Calendar, f: FeedId, uid: string)
    ensures uid in IgnoredUids(c, f) <==> Key(f, uid) in c.ignores
  {
    if Key(f, uid) in c.ignores {
      assert Key(f, uid).uid == uid;
    }
  }

  lemma TakeKeepsIgnores(c: Calendar, n: Counts, f: FeedId, existing: map<string, EntryId>, o: Offer)
    requires f in c.feeds
    ensures Take(c, n, f, existing, o).0.ignores == c.ignores
  {
    hide ContentOf, Candidates;
  }

  lemma {:induction false} TakeAllCounts(c: Calendar, f: FeedId, existing: map<string, EntryId>, offers: seq<Offer>)
    requires f in c.feeds
    ensures var (t, n) := TakeAll(c, f, existing, offers);
            && t.ignores == c.ignores
            && n.ignored == CountUids(offers, IgnoredUids(c, f))
            && n.updated == CountUids(offers, existing.Keys - IgnoredUids(c, f))
    decreases |offers|
  {
    hide ContentOf, Candidates, IgnoredUids, Overwrite, Import;
    if offers != [] {
      var front, o := offers[..|offers| - 1], offers[|offers| - 1];
      TakeAllCounts(c, f, existing, front);
      var (before, n) := TakeAll(c, f, existing, front);
      TakeKeepsIgnores(before, n, f, existing, o);
      IgnoredUidsMembers(c, f, o.event.uid);
    }
  }

  /**
   Each count is of what it is named after: ignored, the offers a leader has ruled out; updated, the others whose UID the
   feed held already; removed, the feed's events that were no longer offered.
   */
  lemma CountsMean(c: Calendar, f: FeedId, offers: seq<Offer>)
    requires CalendarOk(c) && f in c.feeds
    ensures var n := Reconcile(c, f, offers).1;
            && n.ignored == CountUids(offers, IgnoredUids(c, f))
            && n.updated == CountUids(offers, OwnedUids(c, f) - IgnoredUids(c, f))
            && n.removed == |set id | id in c.events && BelongsTo(c.events[id], f)
                                      && c.events[id].source.value.uid !in SeenUids(offers)|
  {
    hide NumberedEntries, ConflictsOk, OneToOne, IgnoredNotHeld, TakeAll, IgnoredUids, SeenUids, Existing, Withdrawn,
      OwnedUids, DropStale, DeleteEntries, ExistingOk;
    var existing, seen := Existing(c, f), SeenUids(offers);
    TakeAllCounts(c, f, existing, offers);
    assert existing.Keys == OwnedUids(c, f) by {
      forall u
        ensures u in existing.Keys <==> u in OwnedUids(c, f)
      {
        OwnedUidsAreOwned(c, f, u);
      }
    }
    ExistingIsOk(c, f);
    var gone := set id | id in c.events && BelongsTo(c.events[id], f) && c.events[id].source.value.uid !in seen;
    forall id
      ensures id in gone <==> id in Withdrawn(existing, seen)
    {
      WithdrawnAre(c, f, existing, seen, id);
    }
    assert gone == Withdrawn(existing, seen);
  }

  lemma WithdrawnAre(c: Calendar, f: FeedId, existing: map<string, EntryId>, seen: set<string>, id: EntryId)
    requires UniqueSources(c) && ExistingOk(c, f, existing) && forall u :: IsOwned(c, Key(f, u)) ==> u in existing
    ensures id in Withdrawn(existing, seen) <==>
            id in c.events && BelongsTo(c.events[id], f) && c.events[id].source.value.uid !in seen
  {
    if id in c.events {
      WithdrawnBelong(c, f, existing, seen, id);
    }
  }
}
