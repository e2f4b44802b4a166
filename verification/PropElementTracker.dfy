// The prop tracker as the program runs it: calls that update shared bookkeeping in place.  Each
// method is one call with no other in flight; PropInterleaving covers what happens between lock
// scopes.

module PropElementTrackers {
  import opened PropStore
  import opened PropTracking

  class PropElementTracker {
    var store: Store
    var known: set<Actor>
    var processed: set<Actor>
    var isHost: bool

    constructor (store: Store, isHost: bool)
      ensures this.store == store && this.isHost == isHost && known == {} && processed == {}
    {
      this.store, this.isHost, known, processed := store, isHost, {}, {};
    }

    method MarkProcessedInit(actor: Actor)
      modifies this`processed
      ensures processed ==
              if actor == NULL || |old(processed)| >= TRACKER_CAP then old(processed) else old(processed) + {actor}
    {
      if actor == NULL || |processed| >= TRACKER_CAP { return; }
      processed := processed + {actor};
    }

    method MarkKnownKeyedProp(actor: Actor)
      modifies this`known
      ensures known == if actor == NULL || |old(known)| >= TRACKER_CAP then old(known) else old(known) + {actor}
    {
      if actor == NULL || |known| >= TRACKER_CAP { return; }
      known := known + {actor};
    }

    method MarkPropElement(actor: Actor, index: int)
      modifies this`store
      ensures store == Mark(old(store), actor, index, isHost)
    {
      if actor == NULL || actor in store.byActor { return; }
      var (withId, id) := AllocId(store, isHost, Element(actor, index, false));
      store := withId;
      if id == INVALID_ID { return; }
      var (installed, kept) := InstallOwner(store, id);
      store := installed;
      if kept == INVALID_ID { return; }
      store := store.(byActor := store.byActor[actor := id]);
    }

    method UnmarkKnownKeyedProp(actor: Actor)
      modifies this`store, this`known
      ensures store == Unmark(old(store), actor)
      ensures known == if actor == NULL then old(known) else old(known) - {actor}
      ensures forall pool :: Settled(old(store), pool) ==> Settled(store, pool)
    {
      forall pool | Settled(store, pool) && actor != NULL ensures Settled(Unmark(store, actor), pool) {
        UnmarkParks(store, actor, pool);
      }
      if actor == NULL { return; }
      known := known - {actor};
      if actor !in store.byActor { return; }
      var id := store.byActor[actor];
      store := Unbind(store, actor);
      var (taken, got) := Take(store, id);
      store := taken;
      if got { store := Enqueue(store, id); }
    }

    method FlushDeleter()
      modifies this`store
      ensures store == Flush(old(store))
      ensures forall pool :: Settled(old(store), pool) ==> Settled(store, pool)
    {
      forall pool | Settled(store, pool) ensures Settled(Flush(store), pool) { FlushSettles(store, pool); }
      var drained := store.pending;
      store := store.(pending := []);
      ghost var parked := store;
      var i := 0;
      while i < |drained|
        invariant 0 <= i <= |drained|
        invariant FreeAll(store, drained[i..]) == FreeAll(parked, drained)
      {
        assert drained[i..][1..] == drained[i + 1..];
        store := FreeId(store, drained[i]);
        i := i + 1;
      }
    }

    // Registry::SnapshotActorsByType.
    method SnapshotActors() returns (rows: seq<Pair>)
      ensures rows == Rows(store.registry, 0)
    {
      ghost var all := Rows(store.registry, 0);
      rows := [];
      var id := 0;
      while id < MAX_ELEMENTS
        invariant 0 <= id <= MAX_ELEMENTS
        invariant all == rows + Rows(store.registry, id)
      {
        if id in store.registry { rows := rows + [Pair(id, store.registry[id])]; }
        id := id + 1;
      }
    }

    // The actors whose reverse entry one of `ids` holds.
    static function EntriesOf(s: Store, ids: seq<ElementId>): set<Actor> {
      set a | a in s.byActor && s.byActor[a] in ids
    }

    // The actor whose entry still holds the row's id, if any.
    static function OwnEntry(s: Store, row: Pair): set<Actor> {
      var actor := row.element.actor;
      if actor in s.byActor && s.byActor[actor] == row.id then {actor} else {}
    }

    // The reaper's work on one row of its snapshot.
    method VisitRow(row: Pair, live: set<(Actor, int)>) returns (hit: bool)
      modifies this`store, this`known, this`processed
      ensures hit == Dead(row.element, live)
      ensures !hit ==> store == old(store) && known == old(known) && processed == old(processed)
      ensures hit ==> store == EvictRow(old(store), row)
                      && known == old(known) - OwnEntry(old(store), row)
                      && processed == old(processed) - OwnEntry(old(store), row)
    {
      if row.element.mirror { return false; }
      if (row.element.actor, row.element.index) in live { return false; }
      var actor := row.element.actor;
      var ownActorEntry := actor in store.byActor && store.byActor[actor] == row.id;
      if ownActorEntry {
        store := Unbind(store, actor);
        known := known - {actor};
        processed := processed - {actor};
      }
      var (taken, got) := Take(store, row.id);
      store := taken;
      if got { store := Enqueue(store, row.id); }
      return true;
    }

    method ReapDeadLocalPropElements(maxEvictions: nat, live: set<(Actor, int)>) returns (evicted: nat)
      requires Tidy(store)
      modifies this`store, this`known, this`processed
      ensures
        var ids := Victims(old(store).registry, live, maxEvictions);
        && evicted == |ids|
        && store == Evicted(old(store), ids)
        && known == old(known) - EntriesOf(old(store), ids)
        && processed == old(processed) - EntriesOf(old(store), ids)
      ensures forall pool :: Settled(old(store), pool) ==> Settled(store, pool)
    {
      forall pool | Settled(store, pool)
        ensures Settled(Evicted(store, Victims(store.registry, live, maxEvictions)), pool)
      {
        ReapEvicts(store, live, maxEvictions, pool);
      }
      evicted := 0;
      ghost var ids: seq<ElementId> := [];
      ghost var s0 := store;
      assert Evicted(s0, []) == s0;
      if maxEvictions == 0 { return; }
      var rows := SnapshotActors();
      var i := 0;
      while i < |rows|
        invariant 0 <= i <= |rows|
        invariant ids == DeadIds(rows[..i], live) && evicted == |ids| <= maxEvictions
        invariant store == Evicted(s0, ids)
        invariant known == old(known) - EntriesOf(s0, ids) && processed == old(processed) - EntriesOf(s0, ids)
      {
        if evicted >= maxEvictions { break; }
        var row := rows[i];
        VisitExtends(s0, i, live);
        i := i + 1;
        var hit := VisitRow(row, live);
        if hit {
          evicted := evicted + 1;
          ids := ids + [row.id];
        }
      }
      StoppedAtVictims(rows, live, i, maxEvictions);
    }

    static method CollectLive(objects: seq<Object>) returns (found: seq<Object>)
      ensures found == LiveObjects(objects)
    {
      found := [];
      for i := 0 to |objects|
        invariant found == LiveObjects(objects[..i])
      {
        assert objects[..i + 1][..i] == objects[..i];
        var o := objects[i];
        if o.actor == NULL || !o.keyed { continue; }
        if o.cdo { continue; }
        if !o.live { continue; }
        found := found + [o];
      }
      assert objects[..|objects|] == objects;
    }

    method InsertKnown(found: seq<Object>) returns (newlyTracked: nat)
      modifies this`known
      ensures known == KnownAfter(old(known), found) && newlyTracked == |known| - |old(known)|
    {
      newlyTracked := 0;
      var i := 0;
      while i < |found|
        invariant 0 <= i <= |found|
        invariant known == KnownAfter(old(known), found[..i]) && newlyTracked == |known| - |old(known)|
      {
        if |known| >= TRACKER_CAP { break; }
        assert found[..i + 1][..i] == found[..i];
        if found[i].actor !in known { newlyTracked := newlyTracked + 1; }
        assert found[i].actor in known ==> known + {found[i].actor} == known;
        known := known + {found[i].actor};
        i := i + 1;
      }
      FullStaysFull(old(known), found, i);
    }

    // The walk shared by the boot seed and a re-seed: collect, bulk-insert, then mark.
    method SeedWalk(objects: seq<Object>, still: set<Actor>) returns (liveFound: nat, newlyTracked: nat)
      modifies this`store, this`known
      ensures store == MarkAll(old(store), LiveObjects(objects), still, isHost)
      ensures known == KnownAfter(old(known), LiveObjects(objects))
      ensures liveFound == |LiveObjects(objects)| && newlyTracked == |known| - |old(known)|
    {
      var found := CollectLive(objects);
      liveFound := |found|;
      newlyTracked := InsertKnown(found);
      ghost var full := known;
      for k := 0 to |found|
        invariant store == MarkAll(old(store), found[..k], still, isHost) && known == full
      {
        assert found[..k + 1][..k] == found[..k];
        if found[k].actor !in still { continue; }
        if !found[k].realKey { continue; }
        MarkPropElement(found[k].actor, found[k].index);
      }
      assert found[..|found|] == found;
    }
  }

  lemma WalkSettles(s: Store, objects: seq<Object>, still: set<Actor>, isHost: bool)
    ensures forall pool :: Settled(s, pool) ==> Settled(MarkAll(s, LiveObjects(objects), still, isHost), pool)
  {
    LiveObjectsAre(objects);
    forall pool | Settled(s, pool) ensures Settled(MarkAll(s, LiveObjects(objects), still, isHost), pool) {
      MarkAllExtends(s, LiveObjects(objects), still, isHost, pool);
    }
  }

  lemma {:induction false} FullStaysFull(known: set<Actor>, found: seq<Object>, i: nat)
    requires i <= |found| && (i < |found| ==> |KnownAfter(known, found[..i])| >= TRACKER_CAP)
    ensures KnownAfter(known, found) == KnownAfter(known, found[..i])
    decreases |found|
  {
    if i == |found| {
      assert found[..i] == found;
    } else {
      var n := |found| - 1;
      assert found[..n][..i] == found[..i];
      FullStaysFull(known, found[..n], i);
    }
  }

  // What the reaper relies on about ids and addresses.
  ghost predicate Tidy(s: Store) {
    && (forall e | e in s.registry :: e < MAX_ELEMENTS && (!s.registry[e].mirror ==> e != 0))
    && (forall a | a in s.byActor :: s.byActor[a] in s.registry && s.registry[s.byActor[a]].actor == a)
  }

  lemma SettledIsTidy(s: Store, pool: set<ElementId>)
    requires StoreOk(s, pool)
    ensures Tidy(s)
  {
  }

  // The ids met by the time the loop stops are the first `max` of all.
  lemma StoppedAtVictims(rows: seq<Pair>, live: set<(Actor, int)>, i: nat, max: nat)
    requires i <= |rows| && |DeadIds(rows[..i], live)| <= max
    requires i < |rows| ==> |DeadIds(rows[..i], live)| == max
    ensures DeadIds(rows[..i], live) ==
            if |DeadIds(rows, live)| <= max then DeadIds(rows, live) else DeadIds(rows, live)[..max]
  {
    DeadIdsGrow(rows, live, i);
    if i == |rows| { assert rows[..i] == rows; }
  }

  lemma RowIsPlain(s: Store, i: nat, live: set<(Actor, int)>)
    requires Tidy(s) && i < |Rows(s.registry, 0)|
    ensures
      var row := Rows(s.registry, 0)[i];
      && row.id !in DeadIds(Rows(s.registry, 0)[..i], live)
      && row.id != INVALID_ID && (!row.element.mirror ==> row.id != 0)
      && (forall a | a in s.byActor && s.byActor[a] == row.id :: a == row.element.actor)
  {
    var rows := Rows(s.registry, 0);
    RowsAre(s.registry, 0);
    DeadIdsAre(rows[..i], live);
    assert rows[i] in rows;
  }

  // The visit of row i takes the evicted ids from those of the rows before it to one row more.
  lemma VisitExtends(s: Store, i: nat, live: set<(Actor, int)>)
    requires Tidy(s) && i < |Rows(s.registry, 0)|
    ensures
      var rows := Rows(s.registry, 0);
      var ids := DeadIds(rows[..i], live);
      if !Dead(rows[i].element, live) then DeadIds(rows[..i + 1], live) == ids
      else
        && DeadIds(rows[..i + 1], live) == ids + [rows[i].id]
        && Evicted(s, ids + [rows[i].id]) == EvictRow(Evicted(s, ids), rows[i])
        && PropElementTracker.EntriesOf(s, ids + [rows[i].id]) ==
           PropElementTracker.EntriesOf(s, ids) + PropElementTracker.OwnEntry(Evicted(s, ids), rows[i])
  {
    var rows := Rows(s.registry, 0);
    assert rows[..i + 1][..i] == rows[..i];
    RowIsPlain(s, i, live);
    if Dead(rows[i].element, live) {
      EvictOneMore(s, DeadIds(rows[..i], live), rows[i]);
      EntryOneMore(s, DeadIds(rows[..i], live), rows[i]);
    }
  }

  lemma {:induction false} DeadIdsGrow(rows: seq<Pair>, live: set<(Actor, int)>, i: nat)
    requires i <= |rows|
    ensures DeadIds(rows[..i], live) <= DeadIds(rows, live)
    decreases |rows|
  {
    if i < |rows| {
      DeadIdsGrow(rows[..|rows| - 1], live, i);
      assert rows[..|rows| - 1][..i] == rows[..i];
    } else {
      assert rows[..i] == rows;
    }
  }

  // One more victim: its entry goes if it still holds it, its Element moves if it is still owned.
  function EvictRow(s: Store, row: Pair): Store {
    var actor := row.element.actor;
    var unbound := if actor in s.byActor && s.byActor[actor] == row.id then Unbind(s, actor) else s;
    var (taken, got) := Take(unbound, row.id);
    if got then Enqueue(taken, row.id) else taken
  }

  lemma EvictOneMore(s: Store, ids: seq<ElementId>, row: Pair)
    requires row.id !in ids && row.id != 0 && row.id != INVALID_ID
    requires forall a | a in s.byActor && s.byActor[a] == row.id :: a == row.element.actor
    ensures Evicted(s, ids + [row.id]) == EvictRow(Evicted(s, ids), row)
  {
    var more := ids + [row.id];
    assert more[..|ids|] == ids;
    assert AsSet(more) == AsSet(ids) + {row.id};
    var t := EvictRow(Evicted(s, ids), row);
    assert Evicted(s, more).owner == t.owner;
    EntryOneMore(s, ids, row);
    assert Evicted(s, more).byActor == t.byActor;
    assert Evicted(s, more).pending == t.pending by {
      assert Keep(more, s.owner) == Keep(ids, s.owner) + if row.id in s.owner then [row.id] else [];
    }
  }

  lemma EntryOneMore(s: Store, ids: seq<ElementId>, row: Pair)
    requires row.id !in ids
    requires forall a | a in s.byActor && s.byActor[a] == row.id :: a == row.element.actor
    ensures
      var t := Evicted(s, ids).byActor;
      var mine := row.element.actor in t && t[row.element.actor] == row.id;
      && Evicted(s, ids + [row.id]).byActor == (if mine then t - {row.element.actor} else t)
      && PropElementTracker.EntriesOf(s, ids + [row.id]) ==
         PropElementTracker.EntriesOf(s, ids) + (if mine then {row.element.actor} else {})
  {
    var more := ids + [row.id];
    assert forall e :: e in more <==> e in ids || e == row.id;
  }
}
