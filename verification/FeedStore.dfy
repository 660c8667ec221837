/** The calendar tables and the statements a refresh and a decision run against them, one after another. */
module FeedStore {
  import opened Prelude
  import opened Text
  import opened CivilTime
  import opened ICalendar
  import opened FeedSync
  import opened FeedSyncLaws
  import opened FeedSyncDecisions

  class Store {
    var feeds: map<FeedId, Feed>
    var events: map<EntryId, Entry>
    var conflicts: map<Key, Held>
    var ignores: set<Key>
    var next: EntryId

    constructor (feeds: map<FeedId, Feed>)
      ensures State() == EmptyCalendar(feeds) && Valid()
    {
      this.feeds, events, conflicts, ignores, next := feeds, map[], map[], {}, 0;
    }

    function State(): Calendar
      reads this
    {
      Calendar(feeds, events, conflicts, ignores, next)
    }

    /** What the tables' unique indexes and foreign keys guarantee, and the code adds. */
    ghost predicate Valid()
      reads this
    {
      CalendarOk(State())
    }

    /** Reads the feed's imported events row by row. */
    method LoadExisting(f: FeedId) returns (existing: map<string, EntryId>)
      requires Valid()
      ensures existing == Existing(State(), f)
    {
      hide NumberedEntries, UniqueSources, ConflictsOk, OneToOne, IgnoredNotHeld;
      existing := map[];
      var rest := events.Keys;
      while rest != {}
        invariant rest <= events.Keys
        invariant forall u :: u in existing ==>
                    existing[u] in events && existing[u] !in rest && events[existing[u]].source == Some(Key(f, u))
        invariant forall id :: id in events && id !in rest && BelongsTo(events[id], f) ==>
                    events[id].source.value.uid in existing
      {
        var id :| id in rest;
        rest := rest - {id};
        if BelongsTo(events[id], f) {
          existing := existing[events[id].source.value.uid := id];
        }
      }
      ExistingIsUnique(State(), f, existing);
    }

    /** Refreshes one feed from what its source offers. */
    method Reconcile(f: FeedId, offers: seq<Offer>) returns (n: Counts)
      requires Valid()
      modifies this
      ensures (State(), n) == FeedSync.Reconcile(old(State()), f, offers) && Valid()
    {
      hide CalendarOk, ContentOf, Candidates, TakeAll, Existing, SeenUids;
      n := NO_COUNTS;
      ReconcileIsOk(State(), f, offers);
      if f !in feeds {
        return;
      }
      var existing := LoadExisting(f);
      var ignored := set k | k in ignores && k.feed == f :: k.uid;
      var seen: set<string> := {};
      TakeNone(State(), f, existing);
      NothingOffered(State());
      for i := 0 to |offers|
        invariant f in feeds && f in old(State()).feeds && ignores == old(ignores)
        invariant (State(), n) == TakeAll(old(State()), f, existing, offers[..i])
        invariant seen == SeenUids(offers[..i])
      {
        var e := offers[i].event;
        TakeNext(old(State()), f, existing, offers, i);
        if e.cancelled {
          continue;
        }
        seen := seen + {e.uid};
        IgnoredByUid(ignores, f, e.uid);
        if e.uid in ignored {
          n := n.(ignored := n.ignored + 1);
          continue;
        }
        if e.uid in existing {
          UpdateEntry(existing[e.uid], ContentOf(e));
          n := n.(updated := n.updated + 1);
          continue;
        }
        var clash := FindConflict(State(), f, e, offers[i].tie);
        if clash.Some? {
          conflicts := conflicts[Key(f, e.uid) := Held(ContentOf(e), clash.value)];
          n := n.(conflicts := n.conflicts + 1);
          continue;
        }
        InsertImport(Key(f, e.uid), ContentOf(e));
        n := n.(created := n.created + 1);
      }
      assert offers[..|offers|] == offers;
      conflicts := map k | k in conflicts && (k.feed != f || k.uid in seen) :: conflicts[k];
      var removed := DeleteWithdrawn(existing, seen);
      n := n.(removed := removed);
    }

    method UpdateEntry(id: EntryId, content: Content)
      modifies this`events
      ensures State() == Overwrite(old(State()), id, content)
    {
      if id in events {
        events := events[id := events[id].(content := content)];
      }
    }

    /** Inserts an imported event unless its feed and UID are there already. */
    method InsertImport(k: Key, content: Content)
      requires k.feed in feeds
      modifies this`events, this`next
      ensures State() == Import(old(State()), k, content)
    {
      if !exists id :: id in events && events[id].source == Some(k) {
        events := events[next := Entry(feeds[k.feed].unit, content, feeds[k.feed].visibility, Some(k))];
        next := next + 1;
      }
    }

    /** Deletes one event; conflicts held against it go with it. */
    method DeleteEntry(id: EntryId)
      modifies this`events, this`conflicts
      ensures State() == DeleteEntries(old(State()), {id})
    {
      events := events - {id};
      conflicts := map k | k in conflicts && conflicts[k].existing !in {id} :: conflicts[k];
    }

    /** Deletes and counts, one after another, the feed's events that were not seen this time. */
    method DeleteWithdrawn(existing: map<string, EntryId>, seen: set<string>) returns (removed: nat)
      requires forall u, v :: u in existing && v in existing && u != v ==> existing[u] != existing[v]
      modifies this`events, this`conflicts
      ensures State() == DeleteEntries(old(State()), Withdrawn(existing, seen)) && removed == |Withdrawn(existing, seen)|
    {
      hide DeleteEntries, Withdrawn;
      removed := 0;
      ghost var gone: set<EntryId> := {};
      var rest := existing.Keys;
      DeleteNone(State());
      while rest != {}
        invariant rest <= existing.Keys
        invariant forall id :: id in gone <==> exists u :: u in existing && u !in rest && u !in seen && existing[u] == id
        invariant State() == DeleteEntries(old(State()), gone) && removed == |gone|
      {
        var u :| u in rest;
        rest := rest - {u};
        if u !in seen {
          DeleteMore(old(State()), gone, existing[u]);
          DeleteEntry(existing[u]);
          assert existing[u] !in gone;
          gone := gone + {existing[u]};
          removed := removed + 1;
        }
      }
      AllWithdrawn(existing, seen, gone);
    }

    /** Carries out a leader's decision; nothing happens for a conflict that is not the unit's. */
    method ResolveConflict(k: Key, unit: UnitId, decision: Resolution)
      requires Valid()
      modifies this
      ensures State() == Resolve(old(State()), k, unit, decision) && Valid()
    {
      hide CalendarOk, DeleteEntries, Import;
      ResolveIsOk(State(), k, unit, decision);
      if k !in conflicts || k.feed !in feeds || feeds[k.feed].unit != unit {
        return;
      }
      var held := conflicts[k];
      match decision {
        case Skip =>
          ignores := ignores + {k};
        case KeepBoth =>
          InsertImport(k, held.content);
        case Replace =>
          DeleteKeepsFeeds(State(), {held.existing});
          if held.existing in events && events[held.existing].unit == unit {
            DeleteEntry(held.existing);
          }
          InsertImport(k, held.content);
      }
      conflicts := conflicts - {k};
    }
  }

  lemma ExistingIsUnique(c: Calendar, f: FeedId, existing: map<string, EntryId>)
    requires UniqueSources(c)
    requires forall u :: u in existing ==> existing[u] in c.events && c.events[existing[u]].source == Some(Key(f, u))
    requires forall id :: id in c.events && BelongsTo(c.events[id], f) ==> c.events[id].source.value.uid in existing
    ensures existing == Existing(c, f)
  {
    var all := Existing(c, f);
    forall u
      ensures u in existing <==> u in all
      ensures u in existing ==> existing[u] == all[u]
    {
      if u in existing {
        assert IsOwned(c, Key(f, u));
      }
      if u in all {
        assert BelongsTo(c.events[all[u]], f);
      }
    }
  }

  lemma TakeNext(c: Calendar, f: FeedId, existing: map<string, EntryId>, offers: seq<Offer>, i: nat)
    requires f in c.feeds && i < |offers|
    ensures var (c', n) := TakeAll(c, f, existing, offers[..i]);
            TakeAll(c, f, existing, offers[..i + 1]) == Take(c', n, f, existing, offers[i])
    ensures SeenUids(offers[..i + 1]) ==
            SeenUids(offers[..i]) + if offers[i].event.cancelled then {} else {offers[i].event.uid}
  {
    hide TakeAll, Take, SeenUids;
    assert offers[..i + 1] == offers[..i] + [offers[i]];
    TakeAllSnoc(c, f, existing, offers[..i], offers[i]);
    SeenUidsAppend(offers[..i], offers[i]);
  }

  lemma IgnoredByUid(ignores: set<Key>, f: FeedId, uid: string)
    ensures uid in (set k | k in ignores && k.feed == f :: k.uid) <==> Key(f, uid) in ignores
  {
    if Key(f, uid) in ignores {
      assert Key(f, uid).uid == uid;
    }
  }

  lemma DeleteNone(c: Calendar)
    ensures DeleteEntries(c, {}) == c
  {
    assert DeleteEntries(c, {}).conflicts == c.conflicts;
  }

  lemma DeleteMore(c: Calendar, gone: set<EntryId>, id: EntryId)
    ensures DeleteEntries(DeleteEntries(c, gone), {id}) == DeleteEntries(c, gone + {id})
  {
    var x, y := DeleteEntries(DeleteEntries(c, gone), {id}), DeleteEntries(c, gone + {id});
    assert x.events == y.events;
    assert x.conflicts == y.conflicts;
  }

  lemma AllWithdrawn(existing: map<string, EntryId>, seen: set<string>, gone: set<EntryId>)
    requires forall id :: id in gone <==> exists u :: u in existing && u !in seen && existing[u] == id
    ensures gone == Withdrawn(existing, seen)
  {
  }
}
