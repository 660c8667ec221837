/**
 Copying an external calendar onto a unit's own: each refresh updates what the feed already owns, imports what is
 new, holds back what clashes until a leader decides, and removes what the source no longer offers.
 */
module FeedSync {
  import opened Prelude
  import opened Text
  import opened CivilTime
  import opened ICalendar

  type UnitId = nat
  type FeedId = nat
  type EntryId = nat

  const CONFLICT_SLACK: int := 30 * 60
  const ASSUMED_DURATION: int := 60 * 60

  /** The source calendar's own name for an event of a feed. */
  datatype Key = Key(feed: FeedId, uid: string)

  datatype Content = Content(title: string, description: string, location: string, starts: Instant, ends: Option<Instant>)

  /** An event on a unit's calendar: typed by hand, or copied from a feed. */
  datatype Entry = Entry(unit: UnitId, content: Content, visibility: string, source: Option<Key>)

  /** An offered event held back because of one already on the calendar. */
  datatype Held = Held(content: Content, existing: EntryId)

  datatype Feed = Feed(unit: UnitId, visibility: string)

  datatype Calendar = Calendar(
    feeds: map<FeedId, Feed>, events: map<EntryId, Entry>, conflicts: map<Key, Held>, ignores: set<Key>, next: EntryId)

  /** An event the source offers, and which of equally early clashes the database would name first. */
  datatype Offer = Offer(event: Event, tie: EntryId)

  datatype Counts = Counts(created: nat, updated: nat, conflicts: nat, ignored: nat, removed: nat)

  const NO_COUNTS: Counts := Counts(0, 0, 0, 0, 0)

  // ----- what is offered -----

  function ContentOf(e: Event): Content {
    Content(if TrimSpace(e.summary) == "" then "(untitled)" else e.summary, e.description, e.location, e.start,
            if e.end == 0 then None else Some(e.end))
  }

  /** The UIDs a list of offers keeps alive. */
  function SeenUids(offers: seq<Offer>): set<string> {
    set i | 0 <= i < |offers| && !offers[i].event.cancelled :: offers[i].event.uid
  }

  // ----- clashes -----

  function EndOrAssumed(content: Content): Instant {
    if content.ends.Some? then content.ends.value else content.starts + ASSUMED_DURATION
  }

  predicate BelongsTo(entry: Entry, f: FeedId) {
    entry.source.Some? && entry.source.value.feed == f
  }

  /** On the feed's unit, not of the feed itself, and overlapping the offered event give or take half an hour. */
  predicate Clashes(entry: Entry, unit: UnitId, f: FeedId, e: Event) {
    && entry.unit == unit
    && !BelongsTo(entry, f)
    && entry.content.starts < EndOrAssumed(ContentOf(e)) + CONFLICT_SLACK
    && EndOrAssumed(entry.content) > e.start - CONFLICT_SLACK
  }

  /** Some other event of the feed is already held against this one. */
  predicate TakenByOther(conflicts: map<Key, Held>, f: FeedId, uid: string, id: EntryId) {
    exists k :: k in conflicts && k.feed == f && k.uid != uid && conflicts[k].existing == id
  }

  function Candidates(c: Calendar, f: FeedId, e: Event): set<EntryId>
    requires f in c.feeds
  {
    set id | id in c.events && Clashes(c.events[id], c.feeds[f].unit, f, e) && !TakenByOther(c.conflicts, f, e.uid, id)
  }

  function Earliest(events: map<EntryId, Entry>, ids: set<EntryId>): set<EntryId>
    requires ids <= events.Keys
  {
    set id | id in ids && forall j :: j in ids ==> events[id].content.starts <= events[j].content.starts
  }

  lemma EarliestExists(events: map<EntryId, Entry>, ids: set<EntryId>)
    requires ids <= events.Keys && ids != {}
    ensures Earliest(events, ids) != {}
    decreases |ids|
  {
    var x :| x in ids;
    var rest := ids - {x};
    if rest == {} {
      assert ids == {x};
      assert x in Earliest(events, ids);
    } else {
      EarliestExists(events, rest);
      var y :| y in Earliest(events, rest);
      var first := if events[x].content.starts < events[y].content.starts then x else y;
      forall j | j in ids
        ensures events[first].content.starts <= events[j].content.starts
      {
        assert j == x || j in rest;
      }
      assert first in Earliest(events, ids);
    }
  }

  predicate IsLeast(ids: set<nat>, m: nat) {
    m in ids && forall k :: k in ids ==> m <= k
  }

  lemma LeastExists(ids: set<nat>)
    requires ids != {}
    ensures exists m :: IsLeast(ids, m)
    decreases |ids|
  {
    var x :| x in ids;
    var rest := ids - {x};
    if rest == {} {
      assert ids == {x};
      assert IsLeast(ids, x);
    } else {
      LeastExists(rest);
      var m :| IsLeast(rest, m);
      var least := if x < m then x else m;
      forall k | k in ids
        ensures least <= k
      {
        assert k == x || k in rest;
      }
      assert IsLeast(ids, least);
    }
  }

  function Least(ids: set<nat>): (m: nat)
    requires ids != {}
    ensures m in ids
  {
    LeastExists(ids);
    var m :| IsLeast(ids, m);
    m
  }

  /** The earliest event an offered one clashes with, among those no other offer of the feed is held against. */
  function FindConflict(c: Calendar, f: FeedId, e: Event, tie: EntryId): (r: Option<EntryId>)
    requires f in c.feeds
    ensures r.None? <==> Candidates(c, f, e) == {}
    ensures r.Some? ==> r.value in Candidates(c, f, e)
    ensures r.Some? ==> forall j :: j in Candidates(c, f, e) ==>
                                      c.events[r.value].content.starts <= c.events[j].content.starts
  {
    var ids := Candidates(c, f, e);
    if ids == {} then None
    else
      EarliestExists(c.events, ids);
      var first := Earliest(c.events, ids);
      Some(if tie in first then tie else Least(first))
  }

  // ----- one refresh -----

  predicate IsOwned(c: Calendar, k: Key) {
    exists id :: id in c.events && c.events[id].source == Some(k)
  }

  /** The event copied from a feed under a UID. */
  function OwnerOf(c: Calendar, k: Key): (id: EntryId)
    requires IsOwned(c, k)
    ensures id in c.events && c.events[id].source == Some(k)
  {
    var ids := set id | id in c.events && c.events[id].source == Some(k);
    var any :| any in c.events && c.events[any].source == Some(k);
    assert any in ids;
    Least(ids)
  }

  function OwnedUids(c: Calendar, f: FeedId): set<string> {
    set id | id in c.events && BelongsTo(c.events[id], f) :: c.events[id].source.value.uid
  }

  lemma OwnedUidsAreOwned(c: Calendar, f: FeedId, uid: string)
    ensures uid in OwnedUids(c, f) <==> IsOwned(c, Key(f, uid))
  {
    if IsOwned(c, Key(f, uid)) {
      var id :| id in c.events && c.events[id].source == Some(Key(f, uid));
      assert BelongsTo(c.events[id], f);
    }
  }

  /** What the feed holds at the start of a refresh, by UID. */
  function Existing(c: Calendar, f: FeedId): (m: map<string, EntryId>)
    ensures forall u :: u in m <==> IsOwned(c, Key(f, u))
    ensures forall u :: u in m ==> m[u] in c.events && c.events[m[u]].source == Some(Key(f, u))
  {
    assert forall u :: u in OwnedUids(c, f) <==> IsOwned(c, Key(f, u)) by {
      forall u
        ensures u in OwnedUids(c, f) <==> IsOwned(c, Key(f, u))
      {
        OwnedUidsAreOwned(c, f, u);
      }
    }
    map u | u in OwnedUids(c, f) :: OwnerOf(c, Key(f, u))
  }

  /** Adds an imported event, unless one with the same feed and UID is there already. */
  function Import(c: Calendar, k: Key, content: Content): Calendar
    requires k.feed in c.feeds
  {
    if IsOwned(c, k) then c
    else
      var feed := c.feeds[k.feed];
      c.(events := c.events[c.next := Entry(feed.unit, content, feed.visibility, Some(k))], next := c.next + 1)
  }

  /** Overwrites what the source owns: not the visibility. */
  function Overwrite(c: Calendar, id: EntryId, content: Content): Calendar {
    if id in c.events then c.(events := c.events[id := c.events[id].(content := content)]) else c
  }

  function Hold(c: Calendar, k: Key, content: Content, existing: EntryId): Calendar {
    c.(conflicts := c.conflicts[k := Held(content, existing)])
  }

  /** One offered event. */
  function Take(c: Calendar, n: Counts, f: FeedId, existing: map<string, EntryId>, o: Offer): (r: (Calendar, Counts))
    requires f in c.feeds
    ensures r.0.feeds == c.feeds
  {
    var e, k := o.event, Key(f, o.event.uid);
    if e.cancelled then (c, n)
    else if k in c.ignores then (c, n.(ignored := n.ignored + 1))
    else if e.uid in existing then (Overwrite(c, existing[e.uid], ContentOf(e)), n.(updated := n.updated + 1))
    else
      match FindConflict(c, f, e, o.tie)
      case Some(x) => (Hold(c, k, ContentOf(e), x), n.(conflicts := n.conflicts + 1))
      case None => (Import(c, k, ContentOf(e)), n.(created := n.created + 1))
  }

  function TakeAll(c: Calendar, f: FeedId, existing: map<string, EntryId>, offers: seq<Offer>): (r: (Calendar, Counts))
    requires f in c.feeds
    ensures r.0.feeds == c.feeds
    decreases |offers|
  {
    if offers == [] then (c, NO_COUNTS)
    else
      var (c', n) := TakeAll(c, f, existing, offers[..|offers| - 1]);
      Take(c', n, f, existing, offers[|offers| - 1])
  }

  lemma TakeNone(c: Calendar, f: FeedId, existing: map<string, EntryId>)
    requires f in c.feeds
    ensures TakeAll(c, f, existing, []) == (c, NO_COUNTS)
  {
  }

  lemma TakeAllSnoc(c: Calendar, f: FeedId, existing: map<string, EntryId>, offers: seq<Offer>, o: Offer)
    requires f in c.feeds
    ensures var (c', n) := TakeAll(c, f, existing, offers);
            TakeAll(c, f, existing, offers + [o]) == Take(c', n, f, existing, o)
  {
    hide Take;
    assert (offers + [o])[..|offers|] == offers;
  }

  /** Conflicts the source has stopped offering need no decision. */
  function DropStale(c: Calendar, f: FeedId, seen: set<string>): Calendar {
    c.(conflicts := map k | k in c.conflicts && (k.feed != f || k.uid in seen) :: c.conflicts[k])
  }

  /** Deletes events, and with them every conflict held against them. */
  function DeleteEntries(c: Calendar, ids: set<EntryId>): Calendar {
    c.(events := c.events - ids,
       conflicts := map k | k in c.conflicts && c.conflicts[k].existing !in ids :: c.conflicts[k])
  }

  function Withdrawn(existing: map<string, EntryId>, seen: set<string>): set<EntryId> {
    set u | u in existing && u !in seen :: existing[u]
  }

  /** One refresh of feed f. */
  function Reconcile(c: Calendar, f: FeedId, offers: seq<Offer>): (Calendar, Counts) {
    if f !in c.feeds then (c, NO_COUNTS)
    else
      var existing, seen := Existing(c, f), SeenUids(offers);
      var (taken, n) := TakeAll(c, f, existing, offers);
      var gone := Withdrawn(existing, seen);
      (DeleteEntries(DropStale(taken, f, seen), gone), n.(removed := |gone|))
  }

  // ----- decisions and edits -----

  datatype Resolution = KeepBoth | Skip | Replace

  predicate Resolvable(c: Calendar, k: Key, unit: UnitId) {
    k in c.conflicts && k.feed in c.feeds && c.feeds[k.feed].unit == unit
  }

  function ClearConflict(c: Calendar, k: Key): Calendar {
    c.(conflicts := c.conflicts - {k})
  }

  /** Carries out a leader's decision about a held event; a conflict that is not the unit's is left alone. */
  function Resolve(c: Calendar, k: Key, unit: UnitId, decision: Resolution): Calendar {
    if !Resolvable(c, k, unit) then c
    else
      var held := c.conflicts[k];
      match decision
      case Skip => ClearConflict(c.(ignores := c.ignores + {k}), k)
      case KeepBoth => ClearConflict(Import(c, k, held.content), k)
      case Replace =>
        var without := if held.existing in c.events && c.events[held.existing].unit == unit
                       then DeleteEntries(c, {held.existing}) else c;
        ClearConflict(Import(without, k, held.content), k)
  }

  function AddEntry(c: Calendar, unit: UnitId, content: Content, visibility: string): Calendar {
    c.(events := c.events[c.next := Entry(unit, content, visibility, None)], next := c.next + 1)
  }

  datatype CalendarOp =
    | RefreshOp(f: FeedId, offers: seq<Offer>)
    | ResolveOp(key: Key, unit: UnitId, decision: Resolution)
    | AddOp(unit: UnitId, content: Content, visibility: string)
    | EditOp(id: EntryId, content: Content)
    | DeleteOp(id: EntryId)

  function ApplyCalendar(c: Calendar, op: CalendarOp): Calendar {
    match op
    case RefreshOp(f, offers) => Reconcile(c, f, offers).0
    case ResolveOp(k, u, d) => Resolve(c, k, u, d)
    case AddOp(u, content, v) => AddEntry(c, u, content, v)
    case EditOp(id, content) => Overwrite(c, id, content)
    case DeleteOp(id) => DeleteEntries(c, {id})
  }

  function RunCalendar(c: Calendar, ops: seq<CalendarOp>): Calendar {
    if ops == [] then c else ApplyCalendar(RunCalendar(c, ops[..|ops| - 1]), ops[|ops| - 1])
  }
}
