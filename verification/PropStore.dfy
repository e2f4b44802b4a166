// The Element bookkeeping that the prop tracker shares with the element Registry, the Prop
// MirrorManager and the ElementDeleter.  Every function is one lock scope of the program, so the
// interleaving model (PropInterleaving) and the game-thread classes (PropElementTracker) are built
// from the same pieces.

module PropStore {
  type Actor = nat
  type ElementId = nat

  const NULL: Actor := 0
  const INVALID_ID: ElementId := 0xFFFF_FFFF
  const MAX_ELEMENTS: nat := 65536
  const HOST_RANGE_SIZE: nat := 32768

  // A Prop Element: the actor address and the engine index captured with it, and whether another
  // peer allocated its id.
  datatype Element = Element(actor: Actor, index: int, mirror: bool)

  // One row of the Registry's atomic snapshot.
  datatype Pair = Pair(id: ElementId, element: Element)

  // registry: ids the Registry holds an Element for, freed only by a destructor.
  // owner: ids whose Element the manager owns.  pending: Elements parked in the deleter.
  // hostFree/localFree: the free stacks, top last.  byActor: actor address to local id.
  datatype Store = Store(
    registry: map<ElementId, Element>,
    owner: set<ElementId>,
    pending: seq<ElementId>,
    hostFree: seq<ElementId>,
    localFree: seq<ElementId>,
    byActor: map<Actor, ElementId>)

  predicate NoDup<T(==)>(s: seq<T>) {
    forall i, j :: 0 <= i < j < |s| ==> s[i] != s[j]
  }

  function Free(s: Store): seq<ElementId> {
    s.hostFree + s.localFree
  }

  // Registry::AllocHostId / AllocLocalId: pop the role's stack; an occupied id fails and is lost.
  function AllocId(s: Store, isHost: bool, el: Element): (r: (Store, ElementId)) {
    var stack := if isHost then s.hostFree else s.localFree;
    if stack == [] then (s, INVALID_ID)
    else
      var id := stack[|stack| - 1];
      var rest := stack[..|stack| - 1];
      var popped := if isHost then s.(hostFree := rest) else s.(localFree := rest);
      if id in s.registry then (popped, INVALID_ID)
      else (popped.(registry := s.registry[id := el]), id)
  }

  // ~Element -> Registry::FreeId.  An empty slot is the "double-free?" branch and changes nothing.
  function FreeId(s: Store, id: ElementId): Store {
    if id !in s.registry then s
    else
      var gone := s.(registry := s.registry - {id});
      if id < HOST_RANGE_SIZE then gone.(hostFree := s.hostFree + [id])
      else gone.(localFree := s.localFree + [id])
  }

  function FreeAll(s: Store, ids: seq<ElementId>): Store
    decreases |ids|
  {
    if ids == [] then s else FreeAll(FreeId(s, ids[0]), ids[1..])
  }

  // ElementDeleter::Flush.
  function Flush(s: Store): Store {
    FreeAll(s.(pending := []), s.pending)
  }

  // Manager half of AllocAndInstall; a colliding id is destroyed at once.
  function InstallOwner(s: Store, id: ElementId): (r: (Store, ElementId)) {
    if id in s.owner then (FreeId(s, id), INVALID_ID)
    else (s.(owner := s.owner + {id}), id)
  }

  // MirrorManager::Take: the ids 0 and INVALID_ID are never owned.
  function Take(s: Store, id: ElementId): (r: (Store, bool)) {
    if id == 0 || id == INVALID_ID || id !in s.owner then (s, false)
    else (s.(owner := s.owner - {id}), true)
  }

  function Enqueue(s: Store, id: ElementId): Store {
    s.(pending := s.pending + [id])
  }

  function Unbind(s: Store, actor: Actor): Store {
    s.(byActor := s.byActor - {actor})
  }

  // The branches for what should not happen: an occupied id fails and is lost from its stack, an
  // unregistered one is not freed, a colliding owner's Element is destroyed, and no call takes id 0.
  lemma CollisionsFail(s: Store, isHost: bool, el: Element, id: ElementId)
    ensures
      var stack, (t, got) := if isHost then s.hostFree else s.localFree, AllocId(s, isHost, el);
      stack != [] && stack[|stack| - 1] in s.registry ==>
        && got == INVALID_ID && t.registry == s.registry && t.owner == s.owner
        && |Free(t)| == |Free(s)| - 1
    ensures id !in s.registry ==> FreeId(s, id) == s
    ensures id in s.owner ==>
              InstallOwner(s, id).1 == INVALID_ID && id !in InstallOwner(s, id).0.registry
              && InstallOwner(s, id).0.owner == s.owner
    ensures !Take(s, 0).1 && Take(s, 0).0 == s && !Take(s, INVALID_ID).1
  {
  }

  // ---- What the free stacks, the registry and the fixed id pool owe each other ----

  // `pool` is every id this process may allocate; other ids can only be wire mirrors.
  ghost predicate Partition(s: Store, pool: set<ElementId>) {
    && (forall e :: e in pool ==> 0 < e < MAX_ELEMENTS)
    && (forall e :: e in s.registry ==> e < MAX_ELEMENTS)
    && NoDup(s.hostFree) && NoDup(s.localFree)
    && (forall e :: e in s.hostFree ==> e < HOST_RANGE_SIZE && e in pool && e !in s.registry)
    && (forall e :: e in s.localFree ==> HOST_RANGE_SIZE <= e && e in pool && e !in s.registry)
    && (forall e :: e in pool ==> e in s.hostFree || e in s.localFree || e in s.registry)
    && (forall e :: e in s.registry ==> (s.registry[e].mirror <==> e !in pool))
  }

  lemma PopFacts<T>(stack: seq<T>)
    requires stack != [] && NoDup(stack)
    ensures NoDup(stack[..|stack| - 1])
    ensures forall e :: e in stack[..|stack| - 1] <==> e in stack && e != stack[|stack| - 1]
  {
    assert stack == stack[..|stack| - 1] + [stack[|stack| - 1]];
  }

  lemma AllocKeepsPartition(s: Store, isHost: bool, el: Element, pool: set<ElementId>)
    requires Partition(s, pool) && !el.mirror
    ensures
      var (t, id) := AllocId(s, isHost, el);
      && Partition(t, pool)
      && (id == INVALID_ID ==> t == s && (if isHost then s.hostFree else s.localFree) == [])
      && (id != INVALID_ID ==>
            && id in Free(s) && id !in s.registry && id in pool
            && t.registry == s.registry[id := el]
            && t.owner == s.owner && t.pending == s.pending && t.byActor == s.byActor)
  {
    var stack := if isHost then s.hostFree else s.localFree;
    if stack != [] {
      PopFacts(stack);
      var id, rest, t := stack[|stack| - 1], stack[..|stack| - 1], AllocId(s, isHost, el).0;
      assert id in stack && id !in s.registry;
      assert if isHost then t.hostFree == rest && t.localFree == s.localFree
             else t.localFree == rest && t.hostFree == s.hostFree;
      assert NoDup(t.hostFree) && NoDup(t.localFree);
      assert forall e :: e in t.hostFree ==> e in s.hostFree && e != id;
      assert forall e :: e in t.localFree ==> e in s.localFree && e != id;
      assert forall e :: e in pool ==> e in t.hostFree || e in t.localFree || e in t.registry;
    }
  }

  lemma NoDupSnoc(ids: seq<ElementId>, e: ElementId)
    requires NoDup(ids) && e !in ids
    ensures NoDup(ids + [e]) && forall x :: x in ids + [e] <==> x in ids || x == e
  {
  }

  // The id leaves the registry for the stack of its range.
  lemma FreeKeepsPartition(s: Store, id: ElementId, pool: set<ElementId>)
    requires Partition(s, pool) && id in s.registry && id in pool
    ensures
      var t := FreeId(s, id);
      && Partition(t, pool) && t.registry == s.registry - {id}
      && t.hostFree == (if id < HOST_RANGE_SIZE then s.hostFree + [id] else s.hostFree)
      && t.localFree == (if id < HOST_RANGE_SIZE then s.localFree else s.localFree + [id])
      && id in Free(t)
  {
    if id < HOST_RANGE_SIZE { NoDupSnoc(s.hostFree, id); } else { NoDupSnoc(s.localFree, id); }
  }

  // Flush frees exactly the parked ids, each through an occupied slot, and disturbs nothing else.
  lemma {:induction false} FreeAllFrees(s: Store, ids: seq<ElementId>, pool: set<ElementId>)
    requires Partition(s, pool) && NoDup(ids)
    requires forall e :: e in ids ==> e in s.registry && e in pool
    ensures
      var t := FreeAll(s, ids);
      && Partition(t, pool)
      && (forall e :: e in t.registry <==> e in s.registry && e !in ids)
      && (forall e :: e in t.registry ==> t.registry[e] == s.registry[e])
      && t.owner == s.owner && t.pending == s.pending && t.byActor == s.byActor
    decreases |ids|
  {
    if ids != [] {
      FreeKeepsPartition(s, ids[0], pool);
      var t := FreeId(s, ids[0]);
      forall e | e in ids[1..] ensures e in t.registry && e in pool { assert e in ids; }
      FreeAllFrees(t, ids[1..], pool);
      assert forall e :: e in ids <==> e == ids[0] || e in ids[1..];
    }
  }

  // ---- Between calls ----

  ghost predicate Local(s: Store, e: ElementId) {
    e in s.registry && !s.registry[e].mirror
  }

  // The reverse map holds this id at its Element's address.
  ghost predicate Bound(s: Store, e: ElementId) {
    && e in s.registry
    && s.registry[e].actor in s.byActor
    && s.byActor[s.registry[e].actor] == e
  }

  ghost predicate StoreOk(s: Store, pool: set<ElementId>) {
    && Partition(s, pool)
    && s.owner <= s.registry.Keys
    && NoDup(s.pending)
    && (forall e | e in s.pending :: Local(s, e) && e !in s.owner)
    && (forall e | e in s.registry && s.registry[e].mirror :: e in s.owner)
    && (forall a | a in s.byActor :: s.byActor[a] in s.owner && Local(s, s.byActor[a])
                                     && s.registry[s.byActor[a]].actor == a)
  }

  // No call is in flight: an owned local Element is bound, any other waits in the deleter.
  ghost predicate Settled(s: Store, pool: set<ElementId>) {
    && StoreOk(s, pool)
    && (forall e | Local(s, e) && e in s.owner :: Bound(s, e))
    && (forall e | Local(s, e) :: e in s.owner || e in s.pending)
  }

  lemma FlushSettles(s: Store, pool: set<ElementId>)
    requires Settled(s, pool)
    ensures Settled(Flush(s), pool) && Flush(s).pending == []
    ensures Flush(s).owner == s.owner && Flush(s).byActor == s.byActor
    ensures forall e :: e in Flush(s).registry <==> e in s.owner
    ensures forall e :: e in s.owner ==> Flush(s).registry[e] == s.registry[e]
  {
    FreeAllFrees(s.(pending := []), s.pending, pool);
  }

  // ---- The Registry's snapshot, in ascending id order ----

  function Rows(registry: map<ElementId, Element>, id: nat): seq<Pair>
    decreases MAX_ELEMENTS - id, registry
  {
    if id >= MAX_ELEMENTS then []
    else (if id in registry then [Pair(id, registry[id])] else []) + Rows(registry, id + 1)
  }

  lemma RowsAre(registry: map<ElementId, Element>, id: nat)
    ensures forall p :: p in Rows(registry, id) <==>
              id <= p.id < MAX_ELEMENTS && p.id in registry && registry[p.id] == p.element
    ensures forall i, j :: 0 <= i < j < |Rows(registry, id)| ==> Rows(registry, id)[i].id < Rows(registry, id)[j].id
    decreases MAX_ELEMENTS - id, registry
  {
    if id < MAX_ELEMENTS {
      RowsAre(registry, id + 1);
      var rest := Rows(registry, id + 1);
      forall i | 0 <= i < |rest| ensures id < rest[i].id { assert rest[i] in rest; }
    }
  }
}
