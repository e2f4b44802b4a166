// What the tracker's calls do to the Store when they run to completion, and the reap, re-seed and
// enumeration properties that follow.

module PropTracking {
  import opened PropStore

  const TRACKER_CAP: nat := 16384

  // ---- MarkPropElement and UnmarkKnownKeyedProp with nothing else in flight ----

  function Mark(s: Store, actor: Actor, index: int, isHost: bool): Store {
    if actor == NULL || actor in s.byActor then s
    else
      var (withId, id) := AllocId(s, isHost, Element(actor, index, false));
      if id == INVALID_ID then withId
      else
        var (installed, kept) := InstallOwner(withId, id);
        if kept == INVALID_ID then installed
        else installed.(byActor := installed.byActor[actor := id])
  }

  function Unmark(s: Store, actor: Actor): Store {
    if actor == NULL || actor !in s.byActor then s
    else
      var (store, got) := Take(Unbind(s, actor), s.byActor[actor]);
      if got then Enqueue(store, s.byActor[actor]) else store
  }

  function FreeStack(s: Store, isHost: bool): seq<ElementId> {
    if isHost then s.hostFree else s.localFree
  }

  // t keeps everything s has, in the same places.
  ghost predicate Extends(s: Store, t: Store) {
    && s.owner <= t.owner && t.pending == s.pending
    && (forall e | e in s.registry :: e in t.registry && t.registry[e] == s.registry[e])
    && (forall a | a in s.byActor :: a in t.byActor && t.byActor[a] == s.byActor[a])
  }

  // A Mark succeeds unless the role's free stack is empty, and disturbs no other Element.
  lemma MarkBinds(s: Store, actor: Actor, index: int, isHost: bool, pool: set<ElementId>)
    requires Settled(s, pool)
    ensures
      var t := Mark(s, actor, index, isHost);
      && Settled(t, pool) && Extends(s, t)
      && (actor != NULL && FreeStack(s, isHost) != [] ==> actor in t.byActor)
      && (forall a | a in t.byActor && a !in s.byActor ::
            a == actor && t.registry[t.byActor[a]] == Element(actor, index, false))
      && (forall e | e in t.registry && e !in s.registry :: t.registry[e] == Element(actor, index, false))
      && |FreeStack(t, isHost)| >= |FreeStack(s, isHost)| - 1
  {
    if actor != NULL && actor !in s.byActor && FreeStack(s, isHost) != [] {
      var el := Element(actor, index, false);
      AllocKeepsPartition(s, isHost, el, pool);
      var (withId, id) := AllocId(s, isHost, el);
      InstallSettles(s, withId, id, el, pool);
    }
  }

  lemma InstallSettles(s: Store, withId: Store, id: ElementId, el: Element, pool: set<ElementId>)
    requires Settled(s, pool) && Partition(withId, pool) && !el.mirror && id !in s.registry
    requires withId.registry == s.registry[id := el] && withId.owner == s.owner
    requires withId.pending == s.pending && withId.byActor == s.byActor
    requires el.actor !in s.byActor
    ensures InstallOwner(withId, id) == (withId.(owner := s.owner + {id}), id)
    ensures Settled(withId.(owner := s.owner + {id}, byActor := s.byActor[el.actor := id]), pool)
  {
  }

  // An Unmark parks the actor's Element and forgets the actor; a second one changes nothing.
  lemma UnmarkParks(s: Store, actor: Actor, pool: set<ElementId>)
    requires Settled(s, pool) && actor != NULL
    ensures
      var t := Unmark(s, actor);
      && Settled(t, pool)
      && actor !in t.byActor && t.registry == s.registry
      && (forall a | a in s.byActor && a != actor :: a in t.byActor && t.byActor[a] == s.byActor[a])
      && t.pending == (if actor in s.byActor then s.pending + [s.byActor[actor]] else s.pending)
      && Unmark(t, actor) == t
  {
    var t := Unmark(s, actor);
    if actor in s.byActor {
      assert forall e :: e in t.pending <==> e in s.pending || e == s.byActor[actor] by {
        assert t.pending[|s.pending|] == s.byActor[actor];
      }
    }
  }

  // ---- ReapDeadLocalPropElements ----

  predicate Dead(el: Element, live: set<(Actor, int)>) {
    !el.mirror && (el.actor, el.index) !in live
  }

  function DeadIds(rows: seq<Pair>, live: set<(Actor, int)>): seq<ElementId> {
    if rows == [] then []
    else DeadIds(rows[..|rows| - 1], live) + if Dead(rows[|rows| - 1].element, live) then [rows[|rows| - 1].id] else []
  }

  // The ids one call evicts: the lowest dead local ids, at most `max` of them.
  function Victims(registry: map<ElementId, Element>, live: set<(Actor, int)>, max: nat): seq<ElementId> {
    var ids := DeadIds(Rows(registry, 0), live);
    if |ids| <= max then ids else ids[..max]
  }

  function Keep(ids: seq<ElementId>, owner: set<ElementId>): seq<ElementId> {
    if ids == [] then []
    else Keep(ids[..|ids| - 1], owner) + if ids[|ids| - 1] in owner then [ids[|ids| - 1]] else []
  }

  function AsSet(ids: seq<ElementId>): set<ElementId> {
    set e | e in ids
  }

  // The Store after evicting `ids`: still-owned ones are parked, their reverse entries are gone.
  function Evicted(s: Store, ids: seq<ElementId>): Store {
    s.(owner := s.owner - AsSet(ids),
       pending := s.pending + Keep(ids, s.owner),
       byActor := map a | a in s.byActor && s.byActor[a] !in ids :: s.byActor[a])
  }

  lemma NoDupAppend(ids: seq<ElementId>, e: ElementId)
    requires NoDup(ids) && e !in ids
    ensures NoDup(ids + [e])
  {
  }

  lemma {:induction false} DeadIdsAre(rows: seq<Pair>, live: set<(Actor, int)>)
    requires forall i, j :: 0 <= i < j < |rows| ==> rows[i].id < rows[j].id
    ensures forall e | e in DeadIds(rows, live) ::
              exists i :: 0 <= i < |rows| && rows[i].id == e && Dead(rows[i].element, live)
    ensures forall i | 0 <= i < |rows| && Dead(rows[i].element, live) :: rows[i].id in DeadIds(rows, live)
    ensures NoDup(DeadIds(rows, live))
  {
    if rows != [] {
      var n := |rows| - 1;
      var init := rows[..n];
      DeadIdsAre(init, live);
      if Dead(rows[n].element, live) {
        forall e | e in DeadIds(init, live) ensures e != rows[n].id {
          var i :| 0 <= i < |init| && init[i].id == e && Dead(init[i].element, live);
        }
        NoDupAppend(DeadIds(init, live), rows[n].id);
      }
      forall e | e in DeadIds(rows, live)
        ensures exists i :: 0 <= i < |rows| && rows[i].id == e && Dead(rows[i].element, live)
      {
        if e in DeadIds(init, live) {
          var i :| 0 <= i < |init| && init[i].id == e && Dead(init[i].element, live);
          assert rows[i] == init[i];
        }
      }
      forall i | 0 <= i < |rows| && Dead(rows[i].element, live) ensures rows[i].id in DeadIds(rows, live) {
        if i < n { assert init[i] == rows[i]; }
      }
    }
  }

  lemma KeepFacts(ids: seq<ElementId>, owner: set<ElementId>)
    ensures forall e :: e in Keep(ids, owner) <==> e in ids && e in owner
    ensures NoDup(ids) ==> NoDup(Keep(ids, owner))
  {
    if ids != [] {
      var n := |ids| - 1;
      KeepFacts(ids[..n], owner);
      assert ids == ids[..n] + [ids[n]];
    }
  }

  lemma {:induction false} SizeOf(ids: seq<ElementId>)
    requires NoDup(ids)
    ensures |AsSet(ids)| == |ids|
  {
    if ids != [] {
      var n := |ids| - 1;
      PopFacts(ids);
      SizeOf(ids[..n]);
      assert ids[n] !in AsSet(ids[..n]);
      assert AsSet(ids) == AsSet(ids[..n]) + {ids[n]};
    }
  }

  lemma DeadIdsAreTheDead(registry: map<ElementId, Element>, live: set<(Actor, int)>)
    requires forall e | e in registry :: e < MAX_ELEMENTS
    ensures
      var all := DeadIds(Rows(registry, 0), live);
      && NoDup(all)
      && (forall e :: e in all <==> e in registry && Dead(registry[e], live))
  {
    var rows := Rows(registry, 0);
    RowsAre(registry, 0);
    DeadIdsAre(rows, live);
    forall e ensures e in DeadIds(rows, live) <==> e in registry && Dead(registry[e], live) {
      if e in registry && Dead(registry[e], live) { RowOf(registry, e); }
      if e in DeadIds(rows, live) {
        var i :| 0 <= i < |rows| && rows[i].id == e && Dead(rows[i].element, live);
        assert rows[i] in rows;
      }
    }
  }

  lemma RowOf(registry: map<ElementId, Element>, e: ElementId)
    requires e in registry && e < MAX_ELEMENTS
    ensures exists i :: 0 <= i < |Rows(registry, 0)| && Rows(registry, 0)[i] == Pair(e, registry[e])
  {
    RowsAre(registry, 0);
    assert Pair(e, registry[e]) in Rows(registry, 0);
  }

  ghost function DeadIn(registry: map<ElementId, Element>, live: set<(Actor, int)>): set<ElementId> {
    set e | e in registry && Dead(registry[e], live)
  }

  // The victims are dead locals, and all of them when the cap is not reached.
  lemma VictimsAreDead(registry: map<ElementId, Element>, live: set<(Actor, int)>, max: nat)
    requires forall e | e in registry :: e < MAX_ELEMENTS
    ensures
      var ids := Victims(registry, live, max);
      && NoDup(ids)
      && (forall e | e in ids :: e in DeadIn(registry, live))
      && |ids| == (if |DeadIn(registry, live)| <= max then |DeadIn(registry, live)| else max)
      && (|ids| < max ==> forall e | e in DeadIn(registry, live) :: e in ids)
  {
    DeadIdsAreTheDead(registry, live);
    var all := DeadIds(Rows(registry, 0), live);
    SizeOf(all);
    assert DeadIn(registry, live) == AsSet(all);
    if |all| > max { assert forall e :: e in all[..max] ==> e in all; }
  }

  lemma NoDupConcat(a: seq<ElementId>, b: seq<ElementId>)
    requires NoDup(a) && NoDup(b) && forall e :: e in a ==> e !in b
    ensures NoDup(a + b)
  {
    forall i, j | 0 <= i < j < |a + b| ensures (a + b)[i] != (a + b)[j] {
      if i < |a| <= j { assert a[i] in a && b[j - |a|] in b; }
    }
  }

  lemma EvictedSettles(s: Store, ids: seq<ElementId>, pool: set<ElementId>)
    requires Settled(s, pool) && NoDup(ids)
    requires forall e | e in ids :: Local(s, e)
    ensures Settled(Evicted(s, ids), pool)
  {
    KeepFacts(ids, s.owner);
    NoDupConcat(s.pending, Keep(ids, s.owner));
    var t := Evicted(s, ids);
    assert forall e :: e in t.pending <==> e in s.pending || (e in ids && e in s.owner);
  }

  ghost function DeadLocals(s: Store, live: set<(Actor, int)>): set<ElementId> {
    DeadIn(s.registry, live)
  }

  // A scan evicts exactly min(max, dead) Elements: live locals, mirrors and the entries of a
  // recycled address survive.
  lemma ReapEvicts(s: Store, live: set<(Actor, int)>, max: nat, pool: set<ElementId>)
    requires Settled(s, pool)
    ensures
      var ids := Victims(s.registry, live, max);
      var t := Evicted(s, ids);
      && Settled(t, pool)
      && |ids| == (if |DeadLocals(s, live)| <= max then |DeadLocals(s, live)| else max)
      && (forall e | e in s.owner && !Dead(s.registry[e], live) :: e in t.owner)
      && (forall a | a in s.byActor && !Dead(s.registry[s.byActor[a]], live) ::
            a in t.byActor && t.byActor[a] == s.byActor[a])
  {
    VictimsAreDead(s.registry, live, max);
    EvictedSettles(s, Victims(s.registry, live, max), pool);
  }

  // Dead local Elements the reaper has not evicted yet.
  ghost function Backlog(s: Store, live: set<(Actor, int)>): set<ElementId> {
    set e | e in s.owner && e in s.registry && Dead(s.registry[e], live)
  }

  // Run right after a Flush, a scan takes its victims off the backlog; one that returns less than
  // its cap leaves none.
  lemma ReapDrains(s: Store, live: set<(Actor, int)>, max: nat, pool: set<ElementId>)
    requires Settled(s, pool) && s.pending == []
    ensures
      var ids := Victims(s.registry, live, max);
      && |ids| == (if |Backlog(s, live)| <= max then |Backlog(s, live)| else max)
      && |Backlog(Evicted(s, ids), live)| == |Backlog(s, live)| - |ids|
      && (|ids| < max ==> Backlog(Evicted(s, ids), live) == {})
  {
    var ids := Victims(s.registry, live, max);
    VictimsAreDead(s.registry, live, max);
    assert s.owner == s.registry.Keys by { OwnsAll(s, pool); }
    assert Backlog(s, live) == DeadLocals(s, live);
    SizeOf(ids);
    assert Backlog(Evicted(s, ids), live) == Backlog(s, live) - AsSet(ids);
  }

  lemma OwnsAll(s: Store, pool: set<ElementId>)
    requires Settled(s, pool)
    ensures s.pending == [] ==> s.owner == s.registry.Keys
  {
  }

  lemma FlushKeepsBacklog(s: Store, live: set<(Actor, int)>, pool: set<ElementId>)
    requires Settled(s, pool)
    ensures Settled(Flush(s), pool) && Flush(s).pending == []
    ensures Backlog(Flush(s), live) == Backlog(s, live)
  {
    FlushSettles(s, pool);
  }

  // ---- Seed and re-seed ----

  // What one GUObjectArray slot shows the walk.
  datatype Object = Object(actor: Actor, index: int, keyed: bool, cdo: bool, live: bool, realKey: bool)

  function LiveObjects(objects: seq<Object>): seq<Object> {
    if objects == [] then []
    else
      var o := objects[|objects| - 1];
      LiveObjects(objects[..|objects| - 1]) + if o.actor != NULL && o.keyed && !o.cdo && o.live then [o] else []
  }

  // Phase 2: mark each object that is still live and has a real key.
  function MarkAll(s: Store, found: seq<Object>, still: set<Actor>, isHost: bool): Store {
    if found == [] then s
    else
      var o := found[|found| - 1];
      var t := MarkAll(s, found[..|found| - 1], still, isHost);
      if o.actor in still && o.realKey then Mark(t, o.actor, o.index, isHost) else t
  }

  // Phase 1's bulk insert into the known set, stopping at the cap.
  function KnownAfter(known: set<Actor>, found: seq<Object>): set<Actor> {
    if found == [] then known
    else
      var k := KnownAfter(known, found[..|found| - 1]);
      if |k| >= TRACKER_CAP then k else k + {found[|found| - 1].actor}
  }

  lemma LiveObjectsAre(objects: seq<Object>)
    ensures forall o :: o in LiveObjects(objects) <==> o in objects && o.actor != NULL && o.keyed && !o.cdo && o.live
  {
    if objects != [] {
      LiveObjectsAre(objects[..|objects| - 1]);
      assert objects == objects[..|objects| - 1] + [objects[|objects| - 1]];
    }
  }

  // The actors the walk makes an Element for, if there are ids: found, still live, keyed and not bound.
  function Needs(s: Store, found: seq<Object>, still: set<Actor>): set<Actor> {
    set o | o in found && o.actor in still && o.realKey && o.actor !in s.byActor :: o.actor
  }

  lemma NeedsGrow(s: Store, found: seq<Object>, o: Object, still: set<Actor>)
    ensures
      Needs(s, found + [o], still) ==
      Needs(s, found, still) + if o.actor in still && o.realKey && o.actor !in s.byActor then {o.actor} else {}
  {
    var a, b := Needs(s, found, still), Needs(s, found + [o], still);
    assert forall x | x in a :: x in b;
    if o.actor in still && o.realKey && o.actor !in s.byActor { assert o in found + [o]; assert o.actor in b; }
  }

  // Old Elements and bindings stay, and new Elements belong to found objects.
  lemma {:induction false} MarkAllExtends(s: Store, found: seq<Object>, still: set<Actor>, isHost: bool,
      pool: set<ElementId>)
    requires Settled(s, pool)
    requires forall o | o in found :: o.actor != NULL
    ensures
      var t := MarkAll(s, found, still, isHost);
      && Settled(t, pool) && Extends(s, t)
      && (forall a | a in t.byActor && a !in s.byActor ::
            exists o :: o in found && o.actor == a && a in still
                && t.registry[t.byActor[a]] == Element(a, o.index, false))
      && (forall e | e in t.registry && e !in s.registry ::
            exists o :: o in found && o.actor in still && t.registry[e] == Element(o.actor, o.index, false))
    decreases |found|
  {
    if found != [] {
      var n := |found| - 1;
      var o := found[n];
      assert found == found[..n] + [o];
      assert forall q :: q in found <==> q in found[..n] || q == o;
      MarkAllExtends(s, found[..n], still, isHost, pool);
      MarkBinds(MarkAll(s, found[..n], still, isHost), o.actor, o.index, isHost, pool);
    }
  }

  // The next object's Mark.
  lemma OneMoreMark(s: Store, init: seq<Object>, o: Object, still: set<Actor>, isHost: bool, pool: set<ElementId>)
    requires Settled(s, pool)
    requires o.actor != NULL && forall q | q in init :: q.actor != NULL
    ensures
      var mid := MarkAll(s, init, still, isHost);
      var t := Mark(mid, o.actor, o.index, isHost);
      && s.byActor.Keys <= mid.byActor.Keys <= t.byActor.Keys
      && (FreeStack(mid, isHost) != [] ==> o.actor in t.byActor)
      && (o.actor in mid.byActor ==> t == mid)
      && |FreeStack(t, isHost)| >= |FreeStack(mid, isHost)| - 1
  {
    MarkAllExtends(s, init, still, isHost, pool);
    MarkBinds(MarkAll(s, init, still, isHost), o.actor, o.index, isHost, pool);
  }

  // The counting step: `free` ids and the bound actors at the start, those left and bound before and after
  // one more object, which is `wanted` if it is to be marked.
  lemma OneMoreNeed(free: nat, bound: set<Actor>, needs: set<Actor>, mid: nat, midBound: set<Actor>,
      left: nat, leftBound: set<Actor>, actor: Actor, wanted: bool)
    requires bound <= midBound <= leftBound
    requires mid >= free - |needs| && (free >= |needs| ==> needs <= midBound)
    requires if wanted then (mid > 0 ==> actor in leftBound) && (actor in midBound ==> left == mid) && left >= mid - 1
             else left == mid
    ensures
      var all := needs + if wanted && actor !in bound then {actor} else {};
      left >= free - |all| && (free >= |all| ==> all <= leftBound)
  {
    assert needs + {} == needs;
    if actor in needs { assert needs + {actor} == needs; }
  }

  lemma {:induction false} NeedsAreBound(s: Store, found: seq<Object>, still: set<Actor>, isHost: bool,
      pool: set<ElementId>)
    requires Settled(s, pool)
    requires forall o | o in found :: o.actor != NULL
    ensures
      var t, needs := MarkAll(s, found, still, isHost), Needs(s, found, still);
      && s.byActor.Keys <= t.byActor.Keys
      && |FreeStack(t, isHost)| >= |FreeStack(s, isHost)| - |needs|
      && (|FreeStack(s, isHost)| >= |needs| ==> needs <= t.byActor.Keys)
    decreases |found|
  {
    if found != [] {
      var n := |found| - 1;
      var init, o := found[..n], found[n];
      var mid, t := MarkAll(s, init, still, isHost), MarkAll(s, found, still, isHost);
      assert found == init + [o];
      NeedsGrow(s, init, o, still);
      OneMoreMark(s, init, o, still, isHost, pool);
      NeedsAreBound(s, init, still, isHost, pool);
      OneMoreNeed(|FreeStack(s, isHost)|, s.byActor.Keys, Needs(s, init, still), |FreeStack(mid, isHost)|,
          mid.byActor.Keys, |FreeStack(t, isHost)|, t.byActor.Keys, o.actor, o.actor in still && o.realKey);
    }
  }

  // With an id to spare for each actor in need, every found, still-live, keyed object is bound afterwards.
  lemma MarkAllBinds(s: Store, found: seq<Object>, still: set<Actor>, isHost: bool, pool: set<ElementId>)
    requires Settled(s, pool) && |FreeStack(s, isHost)| >= |Needs(s, found, still)|
    requires forall o | o in found :: o.actor != NULL
    ensures forall o | o in found && o.actor in still && o.realKey ::
              o.actor in MarkAll(s, found, still, isHost).byActor
  {
    NeedsAreBound(s, found, still, isHost, pool);
    forall o | o in found && o.actor in still && o.realKey
      ensures o.actor in s.byActor || o.actor in Needs(s, found, still)
    {
    }
  }

  // The engine's answers are consistent: a found object that is still live passes IsLiveByIndex.
  ghost predicate Coherent(objects: seq<Object>, still: set<Actor>, live: set<(Actor, int)>) {
    forall o | o in objects && o.live && o.actor in still :: (o.actor, o.index) in live
  }

  ghost predicate Synced(s: Store, o: Object, live: set<(Actor, int)>) {
    && o.actor in s.byActor
    && var e := s.byActor[o.actor];
       e in s.registry && s.registry[e].actor == o.actor && !Dead(s.registry[e], live)
  }

  lemma ReSeedAddsNoDead(s: Store, objects: seq<Object>, still: set<Actor>, live: set<(Actor, int)>, isHost: bool,
      pool: set<ElementId>)
    requires Settled(s, pool) && Coherent(objects, still, live)
    ensures Settled(MarkAll(s, LiveObjects(objects), still, isHost), pool)
    ensures Backlog(MarkAll(s, LiveObjects(objects), still, isHost), live) == Backlog(s, live)
  {
    var found := LiveObjects(objects);
    LiveObjectsAre(objects);
    MarkAllExtends(s, found, still, isHost, pool);
    var t := MarkAll(s, found, still, isHost);
    forall e | e in t.registry && e !in s.registry ensures !Dead(t.registry[e], live) {
      var o :| o in found && o.actor in still && t.registry[e] == Element(o.actor, o.index, false);
    }
    forall e | e in Backlog(t, live) ensures e in s.owner { assert e in s.registry; }
  }

  // The payoff of draining first: after the re-seed every live prop with a real key has a local
  // Element that passes the liveness check, including one at a purged prop's old address.
  lemma ReSeedIsComplete(s: Store, objects: seq<Object>, still: set<Actor>, live: set<(Actor, int)>, isHost: bool,
      pool: set<ElementId>)
    requires Settled(s, pool) && Backlog(s, live) == {}
    requires Coherent(objects, still, live)
    requires |FreeStack(s, isHost)| >= |Needs(s, LiveObjects(objects), still)|
    ensures
      var t := MarkAll(s, LiveObjects(objects), still, isHost);
      forall o | o in objects && o.actor != NULL && o.keyed && !o.cdo && o.live && o.realKey && o.actor in still ::
        Synced(t, o, live)
  {
    var found := LiveObjects(objects);
    LiveObjectsAre(objects);
    MarkAllExtends(s, found, still, isHost, pool);
    MarkAllBinds(s, found, still, isHost, pool);
    var t := MarkAll(s, found, still, isHost);
    forall o | o in objects && o.actor != NULL && o.keyed && !o.cdo && o.live && o.realKey && o.actor in still
      ensures Synced(t, o, live)
    {
      assert o in found;
      if o.actor in s.byActor {
        assert s.byActor[o.actor] !in Backlog(s, live);
      } else {
        var q :| q in found && q.actor == o.actor && q.actor in still
                 && t.registry[t.byActor[o.actor]] == Element(o.actor, q.index, false);
      }
    }
  }

  // Draining is needed: with a dead Element still bound at a recycled address, the re-seed skips
  // the new prop there and its only Element fails the liveness check.
  lemma UndrainedReSeedMissesRecycledAddress(s: Store, o: Object)
    requires s == Store(map[1 := Element(10, 0, false)], {1}, [], [2], [], map[10 := 1])
    requires o == Object(10, 7, true, false, true, true)
    ensures Settled(s, {1, 2}) && Coherent([o], {10}, {(10, 7)})
    ensures !Synced(MarkAll(s, LiveObjects([o]), {10}, true), o, {(10, 7)})
  {
    OneObject(s, o, {10}, true);
  }

  // The re-seed's count is the growth of the known set: it is 0 exactly when every found address was
  // known already or the set was full.
  lemma AddedIsZeroIff(known: set<Actor>, found: seq<Object>)
    ensures known <= KnownAfter(known, found)
    ensures KnownAfter(known, found) == known <==> (|known| >= TRACKER_CAP || forall o | o in found :: o.actor in known)
  {
    if found != [] {
      var n := |found| - 1;
      assert found == found[..n] + [found[n]];
      AddedIsZeroIff(known, found[..n]);
      var k := KnownAfter(known, found[..n]);
      if k != known { GrowsWhenDifferent(known, k); }
    }
  }

  // The bulk insert takes every found address until the set is full, and nothing else.
  lemma {:induction false} KnownAfterIs(known: set<Actor>, found: seq<Object>)
    ensures
      var after := KnownAfter(known, found);
      && known <= after && (forall a | a in after && a !in known :: exists o :: o in found && o.actor == a)
      && (|after| < TRACKER_CAP ==> forall o | o in found :: o.actor in after)
      && |after| <= if |known| >= TRACKER_CAP then |known| else TRACKER_CAP
    decreases |found|
  {
    if found != [] {
      var n := |found| - 1;
      var k := KnownAfter(known, found[..n]);
      assert found == found[..n] + [found[n]];
      KnownAfterIs(known, found[..n]);
      if found[n].actor in k { assert k + {found[n].actor} == k; }
    }
  }

  // An address that is known but not bound, as after a Mark that found no free id: the re-seed makes its
  // Element and counts 0.
  lemma NewElementIsNotCounted(s: Store, o: Object)
    requires s == Store(map[], {}, [], [1], [], map[]) && o == Object(10, 7, true, false, true, true)
    ensures
      var t := MarkAll(s, LiveObjects([o]), {10}, true);
      && Settled(s, {1}) && KnownAfter({10}, LiveObjects([o])) == {10}
      && 10 in t.byActor && 10 !in s.byActor && t.registry == map[1 := Element(10, 7, false)]
  {
    OneObject(s, o, {10}, true);
    AddedIsZeroIff({10}, [o]);
  }

  lemma OneObject(s: Store, o: Object, still: set<Actor>, isHost: bool)
    requires o.actor != NULL && o.keyed && !o.cdo && o.live && o.realKey && o.actor in still
    ensures LiveObjects([o]) == [o] && MarkAll(s, [o], still, isHost) == Mark(s, o.actor, o.index, isHost)
  {
    assert [o][..0] == [] && LiveObjects([]) == [];
    assert MarkAll(s, [], still, isHost) == s;
  }

  lemma GrowsWhenDifferent(a: set<Actor>, b: set<Actor>)
    requires a <= b && a != b
    ensures |a| < |b|
  {
    var x :| x in b && x !in a;
    assert b == a + (b - a);
    assert x in b - a;
  }
}
