// NPC spawn and destroy sync: pairing the two halves of nested spawn calls on one thread, and agreement of
// the client's mirror table with the host's manager over every interleaving of threads and messages.

module NpcCalls {
  const NULL: nat := 0
  const INVALID_ID: nat := 0xFFFF_FFFF

  // The thread-local pending spawn; nothing pending has a null params pointer.
  datatype Slot = Slot(eid: nat, params: nat)

  const NONE: Slot := Slot(INVALID_ID, NULL)

  // The host as one thread sees it: the manager's ids, the reverse map, the thread's slot, the ids
  // enqueued for deletion, and the spawns broadcast.
  datatype Host = Host(owned: set<nat>, byActor: map<nat, nat>, slot: Slot, pending: seq<nat>, sent: seq<nat>)

  // Npc: the class is synced and an id was to be had.  Other: the interceptor leaves the slot alone.
  datatype Kind = Other | Npc(eid: nat)

  // The spawn calls of one thread: the calls made inside the first, then those made after it.
  datatype Calls = Done | Call(kind: Kind, params: nat, ret: nat, inner: Calls, next: Calls)

  // The host path of NpcSuppress_Interceptor.
  function Pre(h: Host, k: Kind, params: nat): Host {
    if params == NULL || k.Other? then h
    else h.(owned := h.owned + {k.eid}, slot := Slot(k.eid, params), sent := h.sent + [k.eid])
  }

  // NpcSpawn_POST.
  function Post(h: Host, params: nat, ret: nat): Host {
    if params == NULL || h.slot.params != params then h
    else
      var eid := h.slot.eid;
      var taken := h.(slot := NONE);
      if eid == INVALID_ID then taken
      else if ret == NULL then
        if eid in h.owned then taken.(owned := h.owned - {eid}, pending := h.pending + [eid]) else taken
      else if eid !in h.owned then taken
      else taken.(byActor := h.byActor[ret := eid])
  }

  function Run(h: Host, cs: Calls): Host
    decreases cs
  {
    match cs
    case Done => h
    case Call(k, params, ret, inner, next) => Run(Post(Run(Pre(h, k, params), inner), params, ret), next)
  }

  // ---- What the calls should do ----

  predicate HasNpc(cs: Calls) {
    cs.Call? && (cs.kind.Npc? || HasNpc(cs.inner) || HasNpc(cs.next))
  }

  function Params(cs: Calls): set<nat> {
    if cs.Done? then {} else {cs.params} + Params(cs.inner) + Params(cs.next)
  }

  function OwnId(k: Kind): set<nat> { if k.Npc? then {k.eid} else {} }

  function Ids(cs: Calls): set<nat> {
    if cs.Done? then {} else OwnId(cs.kind) + Ids(cs.inner) + Ids(cs.next)
  }

  function Actors(cs: Calls): set<nat> {
    if cs.Done? then {} else (if cs.ret == NULL then {} else {cs.ret}) + Actors(cs.inner) + Actors(cs.next)
  }

  // Params of live frames are distinct: a call's differ from those of every call made inside it.
  predicate WellNested(cs: Calls) {
    cs.Call? ==>
      && (cs.kind.Npc? ==> cs.params != NULL && cs.kind.eid != INVALID_ID)
      && cs.params !in Params(cs.inner) && WellNested(cs.inner) && WellNested(cs.next)
  }

  // The allocator hands out each id once while it is in use.
  predicate DistinctIds(cs: Calls) {
    cs.Call? ==>
      && OwnId(cs.kind) !! Ids(cs.inner) !! Ids(cs.next)
      && DistinctIds(cs.inner) && DistinctIds(cs.next)
  }

  predicate DistinctActors(cs: Calls) {
    cs.Call? ==>
      && cs.ret !in Actors(cs.inner) && cs.ret !in Actors(cs.next) && Actors(cs.inner) !! Actors(cs.next)
      && DistinctActors(cs.inner) && DistinctActors(cs.next)
  }

  // What a group of calls does: the ids it allocates, those it releases, the actors it binds and the
  // spawns it broadcasts, in order.
  datatype Effect = Effect(ids: set<nat>, gone: seq<nat>, binds: map<nat, nat>, sent: seq<nat>)

  const NOTHING: Effect := Effect({}, [], map[], [])

  function Then(d: Effect, e: Effect): Effect {
    Effect(d.ids + e.ids, d.gone + e.gone, d.binds + e.binds, d.sent + e.sent)
  }

  // One call around the effect e of those made inside it: only an NPC call without an NPC call inside is
  // answered, by a binding or, if the engine returned null, a release.
  function Around(cs: Calls, e: Effect): Effect
    requires cs.Call?
  {
    if cs.kind.Other? then e
    else
      var eid := cs.kind.eid;
      var alone := !HasNpc(cs.inner);
      Effect({eid} + e.ids,
             if alone && cs.ret == NULL then e.gone + [eid] else e.gone,
             if alone && cs.ret != NULL then e.binds[cs.ret := eid] else e.binds,
             [eid] + e.sent)
  }

  function EffectOf(cs: Calls): Effect {
    if cs.Done? then NOTHING else Then(Around(cs, EffectOf(cs.inner)), EffectOf(cs.next))
  }

  function Elements(s: seq<nat>): set<nat> { set e | e in s }

  function Do(h: Host, e: Effect, npc: bool): Host {
    Host(h.owned + e.ids - Elements(e.gone), h.byActor + e.binds, if npc then NONE else h.slot,
         h.pending + e.gone, h.sent + e.sent)
  }

  // ---- The proof ----

  lemma ElementsConcat(a: seq<nat>, b: seq<nat>)
    ensures Elements(a + b) == Elements(a) + Elements(b)
  {
  }

  lemma MapsConcat(m: map<nat, nat>, a: map<nat, nat>, b: map<nat, nat>)
    ensures m + a + b == m + (a + b)
  {
  }

  lemma SetsConcat(owned: set<nat>, ids: set<nat>, gone: set<nat>, ids': set<nat>, gone': set<nat>)
    requires gone <= ids && gone' <= ids' && ids !! ids' && (ids + ids') !! owned
    ensures owned + ids - gone + ids' - gone' == owned + (ids + ids') - (gone + gone')
  {
  }

  lemma DoThen(h: Host, d: Effect, n: bool, e: Effect, n': bool)
    requires Elements(d.gone) <= d.ids && Elements(e.gone) <= e.ids && d.ids !! e.ids && (d.ids + e.ids) !! h.owned
    ensures Do(Do(h, d, n), e, n') == Do(h, Then(d, e), n || n')
  {
    ElementsConcat(d.gone, e.gone);
    MapsConcat(h.byActor, d.binds, e.binds);
    SetsConcat(h.owned, d.ids, Elements(d.gone), e.ids, Elements(e.gone));
    assert h.pending + d.gone + e.gone == h.pending + (d.gone + e.gone);
    assert h.sent + d.sent + e.sent == h.sent + (d.sent + e.sent);
  }

  lemma DoNothing(h: Host)
    ensures Do(h, NOTHING, false) == h
  {
    assert h.byActor + map[] == h.byActor;
    assert h.owned + {} - Elements([]) == h.owned;
  }

  lemma {:induction false} EffectIds(cs: Calls)
    ensures EffectOf(cs).ids == Ids(cs) && Elements(EffectOf(cs).gone) <= Ids(cs)
    ensures cs.Call? ==> Around(cs, EffectOf(cs.inner)).ids == OwnId(cs.kind) + Ids(cs.inner)
    ensures cs.Call? ==> Elements(Around(cs, EffectOf(cs.inner)).gone) <= OwnId(cs.kind) + Ids(cs.inner)
  {
    if cs.Call? {
      EffectIds(cs.inner);
      EffectIds(cs.next);
      if cs.kind.Npc? { ElementsConcat(EffectOf(cs.inner).gone, [cs.kind.eid]); }
      ElementsConcat(Around(cs, EffectOf(cs.inner)).gone, EffectOf(cs.next).gone);
    }
  }

  lemma {:induction false} NoNpcNoEffect(cs: Calls)
    requires !HasNpc(cs)
    ensures EffectOf(cs) == NOTHING
  {
    if cs.Call? {
      NoNpcNoEffect(cs.inner);
      NoNpcNoEffect(cs.next);
    }
  }

  // An NPC call in which another one was made: the inner call took the slot, and this one stays unbound.
  lemma OneNested(h: Host, cs: Calls)
    requires cs.Call? && cs.kind.Npc? && HasNpc(cs.inner) && cs.params != NULL && cs.kind.eid !in Ids(cs.inner)
    requires var h1 := Pre(h, cs.kind, cs.params); Run(h1, cs.inner) == Do(h1, EffectOf(cs.inner), true)
    ensures Post(Run(Pre(h, cs.kind, cs.params), cs.inner), cs.params, cs.ret) ==
        Do(h, Around(cs, EffectOf(cs.inner)), true)
  {
    var e := EffectOf(cs.inner);
    assert h.sent + [cs.kind.eid] + e.sent == h.sent + ([cs.kind.eid] + e.sent);
    assert h.owned + {cs.kind.eid} + e.ids == h.owned + ({cs.kind.eid} + e.ids);
  }

  // An NPC call in which none was made: bound, or released if the engine returned null.
  lemma OneAlone(h: Host, cs: Calls)
    requires cs.Call? && cs.kind.Npc? && !HasNpc(cs.inner) && cs.params != NULL
    requires cs.kind.eid != INVALID_ID && cs.kind.eid !in h.owned
    requires var h1 := Pre(h, cs.kind, cs.params); Run(h1, cs.inner) == Do(h1, EffectOf(cs.inner), false)
    ensures Post(Run(Pre(h, cs.kind, cs.params), cs.inner), cs.params, cs.ret) ==
        Do(h, Around(cs, EffectOf(cs.inner)), true)
  {
    NoNpcNoEffect(cs.inner);
    DoNothing(Pre(h, cs.kind, cs.params));
    var e := cs.kind.eid;
    assert {e} + {} == {e} && [] + [e] == [e] && [e] + [] == [e];
    if cs.ret == NULL {
      assert h.byActor + map[] == h.byActor;
      assert Elements([e]) == {e} && h.owned + {e} - {e} == h.owned;
    } else {
      assert h.byActor + map[cs.ret := e] == h.byActor[cs.ret := e];
      assert Elements([]) == {};
    }
  }

  // Every well-bracketed tree of calls does exactly what it should, whatever is nested in what.
  lemma {:induction false} CallsCorrelate(h: Host, cs: Calls)
    requires WellNested(cs) && DistinctIds(cs) && Ids(cs) !! h.owned
    requires h.slot.params == NULL || h.slot.params !in Params(cs)
    ensures Run(h, cs) == Do(h, EffectOf(cs), HasNpc(cs))
    decreases cs
  {
    if cs.Done? {
      DoNothing(h);
    } else {
      CallsCorrelate(Pre(h, cs.kind, cs.params), cs.inner);
      if cs.kind.Npc? {
        if HasNpc(cs.inner) { OneNested(h, cs); } else { OneAlone(h, cs); }
      }
      var one := Around(cs, EffectOf(cs.inner));
      var npc := cs.kind.Npc? || HasNpc(cs.inner);
      EffectIds(cs);
      EffectIds(cs.next);
      CallsCorrelate(Do(h, one, npc), cs.next);
      DoThen(h, one, npc, EffectOf(cs.next), HasNpc(cs.next));
    }
  }

  // The call with id e, result ret and calls `inner` made inside it is one of cs.
  predicate Occurs(cs: Calls, e: nat, ret: nat, inner: Calls) {
    cs.Call? &&
    ((cs.kind == Npc(e) && cs.ret == ret && cs.inner == inner) || Occurs(cs.inner, e, ret, inner)
        || Occurs(cs.next, e, ret, inner))
  }

  // Each id of the calls is that of one of them.
  lemma {:induction false} IdsOccur(cs: Calls, e: nat) returns (ret: nat, inner: Calls)
    requires e in Ids(cs)
    ensures Occurs(cs, e, ret, inner)
    decreases cs
  {
    if cs.kind == Npc(e) {
      ret, inner := cs.ret, cs.inner;
    } else if e in Ids(cs.inner) {
      ret, inner := IdsOccur(cs.inner, e);
    } else {
      ret, inner := IdsOccur(cs.next, e);
    }
  }

  // A call whose Element another thread has drained meanwhile neither binds nor releases anything.
  lemma LostIdIsLeft(h: Host, params: nat, ret: nat)
    requires params != NULL && h.slot.params == params && h.slot.eid !in h.owned
    ensures Post(h, params, ret) == h.(slot := NONE)
  {
  }

  lemma {:induction false} OccursFacts(cs: Calls, e: nat, ret: nat, inner: Calls)
    requires Occurs(cs, e, ret, inner)
    ensures e in Ids(cs) && (ret != NULL ==> ret in Actors(cs))
  {
    if cs.kind == Npc(e) && cs.ret == ret && cs.inner == inner {
    } else if Occurs(cs.inner, e, ret, inner) {
      OccursFacts(cs.inner, e, ret, inner);
    } else {
      OccursFacts(cs.next, e, ret, inner);
    }
  }

  lemma {:induction false} BindsFacts(cs: Calls)
    ensures forall a | a in EffectOf(cs).binds :: a in Actors(cs) && EffectOf(cs).binds[a] in Ids(cs)
  {
    if cs.Call? {
      BindsFacts(cs.inner);
      BindsFacts(cs.next);
    }
  }

  lemma {:induction false} BindsIff(cs: Calls, e: nat, ret: nat, inner: Calls)
    requires Occurs(cs, e, ret, inner) && DistinctIds(cs) && DistinctActors(cs) && ret != NULL
    ensures (ret in EffectOf(cs).binds && EffectOf(cs).binds[ret] == e) <==> !HasNpc(inner)
  {
    BindsFacts(cs.inner);
    BindsFacts(cs.next);
    if Occurs(cs.inner, e, ret, inner) {
      OccursFacts(cs.inner, e, ret, inner);
      BindsIff(cs.inner, e, ret, inner);
    } else if Occurs(cs.next, e, ret, inner) {
      OccursFacts(cs.next, e, ret, inner);
      BindsIff(cs.next, e, ret, inner);
    }
  }

  // A purchase whose construction spawns another NPC: the inner one is bound, the outer one stays unbound.
  lemma NestedSpawnExample(h: Host)
    requires h == Host({}, map[], NONE, [], [])
    ensures
      var inner := Call(Npc(2), 20, 200, Done, Done);
      var outer := Call(Npc(1), 10, 100, inner, Done);
      && WellNested(outer) && DistinctIds(outer) && DistinctActors(outer)
      && Run(h, outer) == Host({1, 2}, map[200 := 2], NONE, [], [1, 2])
  {
    var inner := Call(Npc(2), 20, 200, Done, Done);
    var h1 := Pre(h, Npc(1), 10);
    var h2 := Pre(h1, Npc(2), 20);
    var h3 := Post(h2, 20, 200);
    assert Run(h2, Done) == h2 && Run(h3, Done) == h3;
    assert Run(h1, inner) == h3;
    assert Ids(inner) == {2} && Params(inner) == {20} && Actors(inner) == {200};
    assert Ids(Done) == {} && Actors(Done) == {};
    assert h3.owned == {1, 2} && h3.sent == [1, 2];
  }

  // An NPC call with a non-null return is bound to its actor if and only if no NPC call was made inside it.
  lemma BoundIffNoneNested(h: Host, cs: Calls, e: nat, ret: nat, inner: Calls)
    requires WellNested(cs) && DistinctIds(cs) && DistinctActors(cs) && Ids(cs) !! h.owned
    requires h.slot.params == NULL && (forall a :: a in h.byActor ==> h.byActor[a] !in Ids(cs))
    requires Occurs(cs, e, ret, inner) && ret != NULL
    ensures
      var h' := Run(h, cs);
      (ret in h'.byActor && h'.byActor[ret] == e) <==> !HasNpc(inner)
  {
    CallsCorrelate(h, cs);
    OccursFacts(cs, e, ret, inner);
    BindsIff(cs, e, ret, inner);
  }
}

// One client's mirror table against the host's manager, for any number of host threads.
module NpcAgreement {
  // The wire carries the id alone; inc numbers the host's Elements, so that two of them with the same id
  // can be told apart.
  datatype Msg = Spawn(eid: nat, inc: nat) | Destroy(eid: nat)

  // Where a host thread is inside the interceptor or the destroy observer.
  datatype Thread =
    | Idle
    | Spawning(eid: nat, inc: nat)   // allocated and installed, not yet broadcast
    | Erased(eid: nat)               // out of the reverse map
    | Taken(eid: nat)                // out of the manager, in hand
    | Unsent(eid: nat)               // enqueued for deletion, destroy not yet broadcast

  datatype System = System(
    free: set<nat>, owned: map<nat, nat>, pending: set<nat>,
    born: nat,                // Elements made so far
    awaiting: set<nat>,       // broadcast, the spawn call not yet returned
    bound: set<nat>,          // in the reverse map
    leaked: map<nat, nat>,    // released after a null return, and no destroy of the id broadcast since
    threads: seq<Thread>, channel: seq<Msg>, client: map<nat, nat>,
    reissued: nat,            // spawns broadcast on this connection with an id that was leaked
    dropped: nat)             // spawns the client has dropped on it as duplicates

  datatype Step =
    | Alloc(t: nat, eid: nat)
    | SendSpawn(t: nat)
    | Bind(eid: nat)
    | Orphan(eid: nat)
    | NullReturn(eid: nat)
    | Erase(t: nat, eid: nat)
    | Take(t: nat)
    | Enqueue(t: nat)
    | SendDestroy(t: nat)
    | Flush
    | Receive
    | DisconnectAll

  // The duplicate guard: a spawn with an id that has a mirror is dropped.
  predicate Duplicate(client: map<nat, nat>, m: Msg) { m.Spawn? && m.eid in client }

  function Handle(client: map<nat, nat>, m: Msg): map<nat, nat> {
    if Duplicate(client, m) then client else if m.Spawn? then client[m.eid := m.inc] else client - {m.eid}
  }

  // The client's table once everything in the channel has been handled.
  function Drained(client: map<nat, nat>, channel: seq<Msg>): map<nat, nat> {
    if channel == [] then client else Handle(Drained(client, channel[..|channel| - 1]), channel[|channel| - 1])
  }

  // The spawns in the channel that will be dropped.
  function Drops(client: map<nat, nat>, channel: seq<Msg>): nat {
    if channel == [] then 0
    else
      var before := channel[..|channel| - 1];
      Drops(client, before) + if Duplicate(Drained(client, before), channel[|channel| - 1]) then 1 else 0
  }

  ghost predicate Quiet(s: System) {
    forall t :: 0 <= t < |s.threads| ==> s.threads[t].Idle?
  }

  // Between Enqueue and the broadcast of the destroy the Element must not be flushed.
  ghost predicate Barrier(s: System) {
    forall t :: 0 <= t < |s.threads| ==> !s.threads[t].Unsent?
  }

  ghost predicate At(s: System, t: nat) { t < |s.threads| }

  ghost predicate Enabled(s: System, st: Step) {
    match st
    case Alloc(t, e) => At(s, t) && s.threads[t].Idle? && e in s.free
    case SendSpawn(t) => At(s, t) && s.threads[t].Spawning?
    case Bind(e) => e in s.awaiting
    case Orphan(e) => e in s.awaiting
    case NullReturn(e) => e in s.awaiting
    case Erase(t, e) => At(s, t) && s.threads[t].Idle? && e in s.bound
    case Take(t) => At(s, t) && s.threads[t].Erased?
    case Enqueue(t) => At(s, t) && s.threads[t].Taken?
    case SendDestroy(t) => At(s, t) && s.threads[t].Unsent?
    case Flush => true
    case Receive => s.channel != []
    case DisconnectAll => Quiet(s) && s.awaiting == {}
  }

  function Apply(s: System, st: Step): System
    requires Enabled(s, st)
  {
    match st
    case Alloc(t, e) =>
      s.(free := s.free - {e}, owned := s.owned[e := s.born], born := s.born + 1,
         threads := s.threads[t := Spawning(e, s.born)])
    case SendSpawn(t) =>
      var e := s.threads[t].eid;
      s.(awaiting := s.awaiting + {e}, channel := s.channel + [Spawn(e, s.threads[t].inc)],
         threads := s.threads[t := Idle], reissued := s.reissued + if e in s.leaked then 1 else 0)
    case Bind(e) => s.(awaiting := s.awaiting - {e}, bound := s.bound + {e})
    case Orphan(e) => s.(awaiting := s.awaiting - {e})
    case NullReturn(e) =>
      s.(awaiting := s.awaiting - {e}, owned := s.owned - {e}, pending := s.pending + {e},
         leaked := if e in s.leaked || e !in s.owned then s.leaked else s.leaked[e := s.owned[e]])
    case Erase(t, e) => s.(bound := s.bound - {e}, threads := s.threads[t := Erased(e)])
    case Take(t) => s.(owned := s.owned - {s.threads[t].eid}, threads := s.threads[t := Taken(s.threads[t].eid)])
    case Enqueue(t) =>
      s.(pending := s.pending + {s.threads[t].eid}, threads := s.threads[t := Unsent(s.threads[t].eid)])
    case SendDestroy(t) =>
      var e := s.threads[t].eid;
      s.(leaked := s.leaked - {e}, channel := s.channel + [Destroy(e)], threads := s.threads[t := Idle])
    case Flush => s.(free := s.free + s.pending, pending := {})
    case Receive =>
      s.(client := Handle(s.client, s.channel[0]), channel := s.channel[1..],
         dropped := s.dropped + if Duplicate(s.client, s.channel[0]) then 1 else 0)
    case DisconnectAll =>
      s.(free := s.free + s.owned.Keys, owned := map[], bound := {}, leaked := map[], channel := [], client := map[],
         reissued := 0, dropped := 0)
  }

  // ---- The invariant ----

  ghost predicate Holds(s: System, t: nat, e: nat)
    requires t < |s.threads|
  {
    !s.threads[t].Idle? && s.threads[t].eid == e
  }

  // Each id is free, owned, pending or in one thread's hand; a thread's id is where its place says.
  ghost predicate Placed(s: System) {
    && s.free !! s.owned.Keys !! s.pending
    && s.awaiting <= s.owned.Keys && s.bound <= s.owned.Keys && s.awaiting !! s.bound
    && (forall t, u, e :: 0 <= t < |s.threads| && 0 <= u < |s.threads| && Holds(s, t, e) && Holds(s, u, e) ==> t == u)
    && forall t :: 0 <= t < |s.threads| ==> PlacedThread(s, s.threads[t])
  }

  ghost predicate PlacedThread(s: System, th: Thread) {
    match th
    case Idle => true
    case Spawning(e, i) => e in s.owned && s.owned[e] == i && e !in s.awaiting && e !in s.bound
    case Erased(e) => e in s.owned && e !in s.awaiting && e !in s.bound
    case Taken(e) => e !in s.owned && e !in s.free && e !in s.pending
    case Unsent(e) => e in s.pending
  }

  ghost predicate SpawnUnsent(s: System, e: nat) {
    exists t :: 0 <= t < |s.threads| && s.threads[t].Spawning? && s.threads[t].eid == e
  }

  ghost predicate DestroyUnsent(s: System, e: nat) {
    exists t :: 0 <= t < |s.threads| && (s.threads[t] == Taken(e) || s.threads[t] == Unsent(e))
  }

  // What the client will show: the owned ids already broadcast, those whose destroy is still to be
  // broadcast, and the leaked ones.
  ghost predicate Shown(s: System, e: nat) {
    (e in s.owned && !SpawnUnsent(s, e)) || DestroyUnsent(s, e) || e in s.leaked
  }

  // The mirror of a leaked id is of the leaked Element, any other mirror of an owned id of the owned one.
  ghost predicate Right(s: System, table: map<nat, nat>, e: nat) {
    && (e in table <==> Shown(s, e))
    && (e in table ==> if e in s.leaked then table[e] == s.leaked[e] else e in s.owned ==> table[e] == s.owned[e])
  }

  // An owned Element is younger than a leaked one with its id.
  ghost predicate Aged(s: System, e: nat) {
    && (e in s.owned ==> s.owned[e] < s.born) && (e in s.leaked ==> s.leaked[e] < s.born)
    && (e in s.owned && e in s.leaked ==> s.leaked[e] < s.owned[e])
  }

  ghost predicate Inv(s: System) {
    && Placed(s)
    && (forall e: nat :: Aged(s, e))
    && (forall e: nat :: Right(s, Drained(s.client, s.channel), e))
    && s.dropped + Drops(s.client, s.channel) == s.reissued
  }

  lemma DrainedSnoc(client: map<nat, nat>, channel: seq<Msg>, m: Msg)
    ensures Drained(client, channel + [m]) == Handle(Drained(client, channel), m)
    ensures Drops(client, channel + [m]) ==
            Drops(client, channel) + if Duplicate(Drained(client, channel), m) then 1 else 0
  {
    assert (channel + [m])[..|channel|] == channel;
  }

  lemma {:induction false} DrainedPop(client: map<nat, nat>, channel: seq<Msg>)
    requires channel != []
    ensures Drained(Handle(client, channel[0]), channel[1..]) == Drained(client, channel)
    ensures Drops(client, channel) ==
            Drops(Handle(client, channel[0]), channel[1..]) + if Duplicate(client, channel[0]) then 1 else 0
    decreases |channel|
  {
    var n := |channel| - 1;
    if n == 0 {
      assert channel[..0] == [];
    } else {
      DrainedPop(client, channel[..n]);
      assert channel[1..][..n - 1] == channel[..n][1..];
    }
  }

  // ---- Every step keeps it ----

  // Replacing thread t's place changes what is unsent only for the ids it held and holds.
  lemma UnsentAt(s: System, s': System, t: nat, e: nat)
    requires Placed(s) && At(s, t) && |s'.threads| == |s.threads| && s'.threads == s.threads[t := s'.threads[t]]
    ensures SpawnUnsent(s', e) <==>
              (s'.threads[t].Spawning? && s'.threads[t].eid == e)
              || (SpawnUnsent(s, e) && !(s.threads[t].Spawning? && s.threads[t].eid == e))
    ensures DestroyUnsent(s', e) <==>
              (s'.threads[t] == Taken(e) || s'.threads[t] == Unsent(e)) || (DestroyUnsent(s, e) && !Holds(s, t, e))
  {
    if u :| 0 <= u < |s.threads| && s.threads[u].Spawning? && s.threads[u].eid == e && u != t {
      assert s'.threads[u] == s.threads[u];
    }
    if u :| 0 <= u < |s.threads| && (s.threads[u] == Taken(e) || s.threads[u] == Unsent(e)) && !Holds(s, t, e) {
      assert s'.threads[u] == s.threads[u];
    }
    if u :| 0 <= u < |s.threads| && (s'.threads[u] == Taken(e) || s'.threads[u] == Unsent(e)) {
      assert u != t ==> s.threads[u] == s'.threads[u] && Holds(s, u, e);
      assert Holds(s, t, e) && u != t ==> false;
    }
    if u :| 0 <= u < |s.threads| && s'.threads[u].Spawning? && s'.threads[u].eid == e {
      assert u != t ==> s.threads[u] == s'.threads[u] && Holds(s, u, e);
      assert s.threads[t].Spawning? && s.threads[t].eid == e && u != t ==> Holds(s, t, e);
    }
  }

  lemma UnsentSame(s: System, s': System, e: nat)
    requires s'.threads == s.threads
    ensures (SpawnUnsent(s', e) <==> SpawnUnsent(s, e)) && (DestroyUnsent(s', e) <==> DestroyUnsent(s, e))
  {
  }

  predicate Threaded(st: Step) {
    st.Alloc? || st.SendSpawn? || st.Erase? || st.Take? || st.Enqueue? || st.SendDestroy?
  }

  ghost predicate StepOk(s: System, st: Step) {
    Inv(s) && Enabled(s, st) && (st.Flush? ==> Barrier(s))
  }

  // The other threads' ids differ from the one this step handles.
  lemma OthersPlaced(s: System, st: Step, u: nat)
    requires StepOk(s, st) && Threaded(st) && At(s, u) && u != st.t
    ensures Apply(s, st).threads[u] == s.threads[u] && PlacedThread(Apply(s, st), s.threads[u])
  {
    assert PlacedThread(s, s.threads[u]) && PlacedThread(s, s.threads[st.t]);
    if !s.threads[u].Idle? {
      assert Holds(s, u, s.threads[u].eid);
      if !s.threads[st.t].Idle? { assert Holds(s, st.t, s.threads[st.t].eid); }
    }
  }

  lemma ThreadedPlaced(s: System, st: Step)
    requires StepOk(s, st) && Threaded(st)
    ensures Placed(Apply(s, st))
  {
    var s', t := Apply(s, st), st.t;
    assert PlacedThread(s, s.threads[t]);
    assert PlacedThread(s', s'.threads[t]);
    forall u | 0 <= u < |s.threads| ensures PlacedThread(s', s'.threads[u]) {
      if u != t { OthersPlaced(s, st, u); }
    }
    forall u, v, e | 0 <= u < |s.threads| && 0 <= v < |s.threads| && Holds(s', u, e) && Holds(s', v, e) ensures u == v {
      assert u != t ==> Holds(s, u, e) && PlacedThread(s, s.threads[u]);
      assert v != t ==> Holds(s, v, e) && PlacedThread(s, s.threads[v]);
      assert !st.Alloc? && !st.Erase? && (u == t || v == t) ==> Holds(s, t, e);
    }
  }

  lemma UnthreadedPlaced(s: System, st: Step)
    requires StepOk(s, st) && !Threaded(st)
    ensures Placed(Apply(s, st))
  {
    var s' := Apply(s, st);
    assert s'.threads == s.threads;
    forall u | 0 <= u < |s.threads| ensures PlacedThread(s', s'.threads[u]) {
      assert PlacedThread(s, s.threads[u]);
    }
    forall u, v, e | 0 <= u < |s.threads| && 0 <= v < |s.threads| && Holds(s', u, e) && Holds(s', v, e) ensures u == v {
      assert Holds(s, u, e) && Holds(s, v, e);
    }
  }

  lemma NothingHeld(s: System, e: nat)
    requires Placed(s) && (e in s.free || e in s.awaiting || e in s.bound)
    ensures !SpawnUnsent(s, e) && !DestroyUnsent(s, e)
  {
    forall u | 0 <= u < |s.threads| ensures !s.threads[u].Idle? ==> s.threads[u].eid != e {
      assert PlacedThread(s, s.threads[u]);
    }
  }

  // Only owned ids are waiting for their spawn broadcast; no owned or free id for its destroy broadcast.
  lemma UnsentPlaces(s: System, e: nat)
    requires Placed(s)
    ensures SpawnUnsent(s, e) ==> e in s.owned
    ensures DestroyUnsent(s, e) ==> e !in s.owned && e !in s.free
  {
    if t :| 0 <= t < |s.threads| && s.threads[t].Spawning? && s.threads[t].eid == e {
      assert PlacedThread(s, s.threads[t]);
    }
    if t :| 0 <= t < |s.threads| && (s.threads[t] == Taken(e) || s.threads[t] == Unsent(e)) {
      assert PlacedThread(s, s.threads[t]);
    }
  }

  lemma ThreadedShown(s: System, st: Step, e: nat)
    requires StepOk(s, st) && Threaded(st)
    ensures var s' := Apply(s, st); Right(s', Drained(s'.client, s'.channel), e) && Aged(s', e)
  {
    var s', t := Apply(s, st), st.t;
    assert PlacedThread(s, s.threads[t]) && Aged(s, e) && Right(s, Drained(s.client, s.channel), e);
    UnsentAt(s, s', t, e);
    UnsentPlaces(s, e);
    if st.SendSpawn? { DrainedSnoc(s.client, s.channel, Spawn(s.threads[t].eid, s.threads[t].inc)); }
    if st.SendDestroy? { DrainedSnoc(s.client, s.channel, Destroy(s.threads[t].eid)); }
    if !s.threads[t].Idle? && s.threads[t].eid == e {
      assert s.threads[t].Spawning? ==> SpawnUnsent(s, e);
      assert s.threads[t] == Taken(e) || s.threads[t] == Unsent(e) ==> DestroyUnsent(s, e);
      assert s.threads[t] == Erased(e) ==> !SpawnUnsent(s, e) by {
        if u :| 0 <= u < |s.threads| && s.threads[u].Spawning? && s.threads[u].eid == e {
          assert Holds(s, u, e) && Holds(s, t, e);
        }
      }
    }
    if st.Alloc? { NothingHeld(s, st.eid); }
    if st.Erase? { NothingHeld(s, st.eid); }
  }

  lemma UnthreadedShown(s: System, st: Step, e: nat)
    requires StepOk(s, st) && !Threaded(st)
    ensures var s' := Apply(s, st); Right(s', Drained(s'.client, s'.channel), e) && Aged(s', e)
  {
    var s' := Apply(s, st);
    assert Aged(s, e) && Right(s, Drained(s.client, s.channel), e);
    UnsentSame(s, s', e);
    UnsentPlaces(s, e);
    if st.Receive? { DrainedPop(s.client, s.channel); }
    if st.Bind? || st.Orphan? || st.NullReturn? { NothingHeld(s, st.eid); }
  }

  // A spawn will be dropped exactly when its id is leaked as it is sent.
  lemma SpawnDroppedIff(s: System, t: nat)
    requires Inv(s) && Enabled(s, SendSpawn(t))
    ensures Duplicate(Drained(s.client, s.channel), Spawn(s.threads[t].eid, s.threads[t].inc)) <==>
        s.threads[t].eid in s.leaked
  {
    var e := s.threads[t].eid;
    assert SpawnUnsent(s, e) && Right(s, Drained(s.client, s.channel), e);
    UnsentPlaces(s, e);
  }

  lemma StepCounts(s: System, st: Step)
    requires StepOk(s, st)
    ensures var s' := Apply(s, st); s'.dropped + Drops(s'.client, s'.channel) == s'.reissued
  {
    if st.Receive? { DrainedPop(s.client, s.channel); }
    if st.SendSpawn? {
      SpawnDroppedIff(s, st.t);
      DrainedSnoc(s.client, s.channel, Spawn(s.threads[st.t].eid, s.threads[st.t].inc));
    }
    if st.SendDestroy? { DrainedSnoc(s.client, s.channel, Destroy(s.threads[st.t].eid)); }
  }

  lemma StepKeepsInv(s: System, st: Step)
    requires StepOk(s, st)
    ensures Inv(Apply(s, st))
  {
    if Threaded(st) { ThreadedPlaced(s, st); } else { UnthreadedPlaced(s, st); }
    StepCounts(s, st);
    var s' := Apply(s, st);
    forall e: nat ensures Right(s', Drained(s'.client, s'.channel), e) && Aged(s', e) {
      if Threaded(st) { ThreadedShown(s, st, e); } else { UnthreadedShown(s, st, e); }
    }
  }

  ghost predicate Runs(s: System, steps: seq<Step>)
    decreases |steps|
  {
    steps == [] || (Enabled(s, steps[0]) && Runs(Apply(s, steps[0]), steps[1..]))
  }

  ghost function After(s: System, steps: seq<Step>): System
    requires Runs(s, steps)
    decreases |steps|
  {
    if steps == [] then s else After(Apply(s, steps[0]), steps[1..])
  }

  // Every Flush finds no destroy between its Enqueue and its broadcast.
  ghost predicate BarredRun(s: System, steps: seq<Step>)
    requires Runs(s, steps)
    decreases |steps|
  {
    steps == [] || ((steps[0].Flush? ==> Barrier(s)) && BarredRun(Apply(s, steps[0]), steps[1..]))
  }

  ghost predicate Initial(s: System) {
    && Quiet(s) && s.pending == s.awaiting == s.bound == {} && s.owned == s.leaked == s.client == map[]
    && s.channel == [] && s.reissued == s.dropped == 0
  }

  lemma {:induction false} RunsKeepInv(s: System, steps: seq<Step>)
    requires Inv(s) && Runs(s, steps) && BarredRun(s, steps)
    ensures Inv(After(s, steps))
    decreases |steps|
  {
    if steps != [] {
      StepKeepsInv(s, steps[0]);
      RunsKeepInv(Apply(s, steps[0]), steps[1..]);
    }
  }

  lemma InitialInv(s: System)
    requires Initial(s)
    ensures Inv(s)
  {
    forall e: nat ensures !Shown(s, e) { }
  }

  // Mirror agreement, ids re-issued or not.  With no thread inside a handler, the client's table after the
  // channel is drained is the host's manager, with the leaked Elements in place of any later ones with
  // their ids: the mirror of an owned id is of the owned Element if and only if the id is not leaked, and
  // the tables are equal if and only if none is.
  lemma MirrorsAgreeIff(s: System, steps: seq<Step>)
    requires Initial(s) && Runs(s, steps) && BarredRun(s, steps) && Quiet(After(s, steps))
    ensures
      var s' := After(s, steps);
      var table := Drained(s'.client, s'.channel);
      && table == s'.owned + s'.leaked
      && (forall e | e in s'.owned :: e in table && (table[e] == s'.owned[e] <==> e !in s'.leaked))
      && (table == s'.owned <==> s'.leaked == map[])
  {
    InitialInv(s);
    RunsKeepInv(s, steps);
    var s' := After(s, steps);
    var table := Drained(s'.client, s'.channel);
    forall e: nat ensures !SpawnUnsent(s', e) && !DestroyUnsent(s', e) { }
    forall e: nat
      ensures (e in table <==> e in s'.owned || e in s'.leaked) && Right(s', table, e) && Aged(s', e)
    {
      assert Right(s', table, e) && Aged(s', e);
    }
    if s'.leaked != map[] {
      var e :| e in s'.leaked;
      assert table[e] == s'.leaked[e];
    }
  }

  // As many spawns of a connection are dropped, so far or once the channel is drained, as were broadcast
  // with an id that was leaked.
  lemma DroppedAreReissued(s: System, steps: seq<Step>)
    requires Initial(s) && Runs(s, steps) && BarredRun(s, steps)
    ensures var s' := After(s, steps); s'.dropped + Drops(s'.client, s'.channel) == s'.reissued
  {
    InitialInv(s);
    RunsKeepInv(s, steps);
  }

  // Without null returns nothing leaks and no spawn is ever dropped.
  lemma NoNullReturnNoDrop(s: System, steps: seq<Step>)
    requires Initial(s) && Runs(s, steps) && BarredRun(s, steps)
        && forall i :: 0 <= i < |steps| ==> !steps[i].NullReturn?
    ensures var s' := After(s, steps); s'.leaked == map[] && s'.dropped == 0 && Drops(s'.client, s'.channel) == 0
  {
    DroppedAreReissued(s, steps);
    NoNullReturnNoLeak(s, steps);
  }

  lemma {:induction false} NoNullReturnNoLeak(s: System, steps: seq<Step>)
    requires Runs(s, steps) && s.leaked == map[] && s.reissued == 0
    requires forall i :: 0 <= i < |steps| ==> !steps[i].NullReturn?
    ensures After(s, steps).leaked == map[] && After(s, steps).reissued == 0
    decreases |steps|
  {
    if steps != [] { NoNullReturnNoLeak(Apply(s, steps[0]), steps[1..]); }
  }

  // A Flush keeps the invariant exactly when no destroy is between its Enqueue and its broadcast.
  lemma FlushKeepsInvIff(s: System)
    requires Inv(s)
    ensures Inv(Apply(s, Flush)) <==> Barrier(s)
  {
    if Barrier(s) {
      StepKeepsInv(s, Flush);
    } else {
      var t :| 0 <= t < |s.threads| && s.threads[t].Unsent?;
      assert !PlacedThread(Apply(s, Flush), s.threads[t]);
    }
  }

  // A spawn call that returns without a bind is not answered later.
  lemma OrphanStaysUnbound(s: System, e: nat)
    requires Inv(s) && Enabled(s, Orphan(e))
    ensures var s' := Apply(s, Orphan(e)); e in s'.owned && e !in s'.bound
    ensures var s' := Apply(s, Orphan(e)); !Enabled(s', Bind(e)) && !Enabled(s', NullReturn(e))
  {
  }

  // ---- No id is lost ----

  ghost predicate InHand(s: System, e: nat) { exists t :: 0 <= t < |s.threads| && s.threads[t] == Taken(e) }

  // Every id of the pool is free, owned, pending or in one thread's hand.
  ghost predicate Conserved(s: System, pool: set<nat>) {
    forall e | e in pool :: e in s.free || e in s.owned || e in s.pending || InHand(s, e)
  }

  lemma StepConserves(s: System, st: Step, pool: set<nat>)
    requires Placed(s) && Enabled(s, st) && Conserved(s, pool)
    ensures Conserved(Apply(s, st), pool)
  {
    var s' := Apply(s, st);
    forall e | e in pool ensures e in s'.free || e in s'.owned || e in s'.pending || InHand(s', e) {
      if t :| 0 <= t < |s.threads| && s.threads[t] == Taken(e) && !(Threaded(st) && t == st.t) {
        assert s'.threads[t] == Taken(e);
      }
      if st.Take? && e == s.threads[st.t].eid { assert s'.threads[st.t] == Taken(e); }
    }
  }

  lemma {:induction false} RunsConserve(s: System, steps: seq<Step>, pool: set<nat>)
    requires Inv(s) && Runs(s, steps) && BarredRun(s, steps) && Conserved(s, pool)
    ensures Conserved(After(s, steps), pool)
    decreases |steps|
  {
    if steps != [] {
      StepKeepsInv(s, steps[0]);
      StepConserves(s, steps[0], pool);
      RunsConserve(Apply(s, steps[0]), steps[1..], pool);
    }
  }

  // Over every barred run, ids released after null returns, destroys and disconnects included: an id free
  // at the start is always in exactly one of the free stack, the manager, the deletion queue or one hand.
  lemma IdsConserved(s: System, steps: seq<Step>, e: nat)
    requires Initial(s) && Runs(s, steps) && BarredRun(s, steps) && e in s.free
    ensures
      var s' := After(s, steps);
      (if e in s'.free then 1 else 0) + (if e in s'.owned then 1 else 0) + (if e in s'.pending then 1 else 0)
      + (if InHand(s', e) then 1 else 0) == 1
  {
    InitialInv(s);
    RunsKeepInv(s, steps);
    RunsConserve(s, steps, s.free);
    var s' := After(s, steps);
    if t :| 0 <= t < |s'.threads| && s'.threads[t] == Taken(e) { assert PlacedThread(s', s'.threads[t]); }
  }

  // ---- Runs that part the tables ----

  // Some run leads from s to s'; `barred` when every Flush of it finds the barrier.
  ghost predicate Reaches(s: System, s': System, barred: bool) {
    exists steps :: Runs(s, steps) && After(s, steps) == s' && (barred ==> BarredRun(s, steps))
  }

  lemma {:induction false} RunSnoc(s: System, a: seq<Step>, st: Step)
    requires Runs(s, a) && Enabled(After(s, a), st)
    ensures Runs(s, a + [st]) && After(s, a + [st]) == Apply(After(s, a), st)
    ensures BarredRun(s, a + [st]) <==> BarredRun(s, a) && (st.Flush? ==> Barrier(After(s, a)))
    decreases |a|
  {
    if a == [] {
      assert a + [st] == [st] && [st][1..] == [];
    } else {
      assert (a + [st])[0] == a[0] && (a + [st])[1..] == a[1..] + [st];
      RunSnoc(Apply(s, a[0]), a[1..], st);
    }
  }

  lemma ReachStep(s: System, m: System, barred: bool, st: Step)
    requires Reaches(s, m, barred) && Enabled(m, st) && (barred && st.Flush? ==> Barrier(m))
    ensures Reaches(s, Apply(m, st), barred)
  {
    var steps :| Runs(s, steps) && After(s, steps) == m && (barred ==> BarredRun(s, steps));
    RunSnoc(s, steps, st);
  }

  // A thread makes an Element with the id and broadcasts its spawn.
  lemma Spawned(start: System, s: System, barred: bool, t: nat, e: nat) returns (m: System)
    requires Reaches(start, s, barred) && At(s, t) && s.threads[t].Idle? && e in s.free
    ensures Reaches(start, m, barred) && m.threads == s.threads && m.pending == s.pending && m.client == s.client
    ensures m.owned == s.owned[e := s.born] && m.channel == s.channel + [Spawn(e, s.born)] && m.leaked == s.leaked
    ensures e in m.awaiting && m.born == s.born + 1 && m.dropped == s.dropped
  {
    ReachStep(start, s, barred, Alloc(t, e));
    var s1 := Apply(s, Alloc(t, e));
    ReachStep(start, s1, barred, SendSpawn(t));
    m := Apply(s1, SendSpawn(t));
    assert m.threads == s.threads;
  }

  // A null return, the flush that frees the id, and another spawn with it: the new spawn is dropped, and
  // the client keeps the mirror of the spawn that failed under the id of the new one.
  lemma ReissuedSpawnIsDropped(s: System, e: nat)
    requires Initial(s) && At(s, 0) && e in s.free
    ensures
      exists m :: Reaches(s, m, true) && Quiet(m) && m.channel == [] && m.dropped == 1 && e in m.leaked
        && e in m.owned && e in m.client && m.client[e] != m.owned[e]
  {
    assert Runs(s, []) && Reaches(s, s, true);
    var m1 := Spawned(s, s, true, 0, e);
    ReachStep(s, m1, true, NullReturn(e));
    var m2 := Apply(m1, NullReturn(e));
    ReachStep(s, m2, true, Flush);
    var m3 := Apply(m2, Flush);
    var m4 := Spawned(s, m3, true, 0, e);
    assert m4.channel == [Spawn(e, s.born), Spawn(e, s.born + 1)];
    ReachStep(s, m4, true, Receive);
    var m5 := Apply(m4, Receive);
    assert m5.channel == [Spawn(e, s.born + 1)];
    ReachStep(s, m5, true, Receive);
    var m6 := Apply(m5, Receive);
    assert Quiet(m6) && m6.channel == [];
  }

  // A destroy between its Enqueue and its broadcast.
  lemma DestroyUnsentReached(s: System, e: nat) returns (m: System)
    requires Initial(s) && At(s, 1) && e in s.free
    ensures Reaches(s, m, false) && m.threads == s.threads[0 := Unsent(e)] && e in m.pending
  {
    assert Runs(s, []) && Reaches(s, s, false);
    var m1 := Spawned(s, s, false, 0, e);
    ReachStep(s, m1, false, Bind(e));
    var m2 := Apply(m1, Bind(e));
    ReachStep(s, m2, false, Erase(0, e));
    var m3 := Apply(m2, Erase(0, e));
    ReachStep(s, m3, false, Take(0));
    var m4 := Apply(m3, Take(0));
    ReachStep(s, m4, false, Enqueue(0));
    m := Apply(m4, Enqueue(0));
    assert m.threads == s.threads[0 := Unsent(e)];
  }

  // Without the barrier: the id is flushed before its destroy is broadcast, another thread re-issues it,
  // and the late destroy takes the new NPC's mirror away.
  lemma SplitDestroyLosesTheMirror(s: System, e: nat)
    requires Initial(s) && At(s, 1) && e in s.free
    ensures
      exists m :: Reaches(s, m, false) && e in m.owned && !SpawnUnsent(m, e) && e !in Drained(m.client, m.channel)
  {
    var m1 := DestroyUnsentReached(s, e);
    ReachStep(s, m1, false, Flush);
    var m2 := Apply(m1, Flush);
    var m3 := Spawned(s, m2, false, 1, e);
    ReachStep(s, m3, false, SendDestroy(0));
    var m4 := Apply(m3, SendDestroy(0));
    DrainedSnoc(m3.client, m3.channel, Destroy(e));
    assert m4.threads == s.threads && e in m4.owned;
  }
}

// The handlers as the program runs them, on the fields they update.
module NpcSyncs {
  import opened NpcCalls

  // NpcDestroy_PRE: the reverse map is the gate.
  function DestroyPre(h: Host, actor: nat): Host {
    if actor == NULL || actor !in h.byActor then h
    else
      var eid := h.byActor[actor];
      h.(byActor := h.byActor - {actor}, owned := h.owned - {eid},
         pending := if eid in h.owned then h.pending + [eid] else h.pending)
  }

  // A destroy whose Element another thread has drained only takes the entry away.
  lemma LostElementIsNotParked(h: Host, actor: nat)
    requires actor != NULL && actor in h.byActor && h.byActor[actor] !in h.owned
    ensures DestroyPre(h, actor) == h.(byActor := h.byActor - {actor})
  {
  }

  // A spawn answered by an actor, then that actor's destroy: only the id awaiting its flush is left of it.
  lemma DestroyUndoesSpawn(h: Host, e: nat, params: nat, actor: nat)
    requires params != NULL && actor != NULL && e != INVALID_ID && e !in h.owned && actor !in h.byActor
        && h.slot == NONE
    ensures
      var spawned := Run(h, Call(Npc(e), params, actor, Done, Done));
      var gone := DestroyPre(spawned, actor);
      gone == h.(pending := h.pending + [e], sent := h.sent + [e])
  {
    var h1 := Pre(h, Npc(e), params);
    var spawned := Post(h1, params, actor);
    assert Run(h1, Done) == h1;
    assert Run(h, Call(Npc(e), params, actor, Done, Done)) == spawned;
    assert h.byActor[actor := e] - {actor} == h.byActor;
    assert h.owned + {e} - {e} == h.owned;
  }

  class NpcSync {
    var owned: set<nat>
    var byActor: map<nat, nat>
    var slot: Slot
    var pending: seq<nat>
    var sent: seq<nat>
    var destroysSent: seq<nat>

    ghost function View(): Host
      reads this
    {
      Host(owned, byActor, slot, pending, sent)
    }

    // minted: what AllocAndInstall yields.
    method NpcSuppressInterceptor(params: nat, connected: bool, disabled: bool, allowlisted: bool, minted: nat)
      modifies this`owned, this`slot, this`sent
      ensures
        var npc := connected && !disabled && allowlisted && minted != INVALID_ID;
        View() == Pre(old(View()), if npc then Npc(minted) else Other, params) && destroysSent == old(destroysSent)
    {
      if params == NULL || !connected || disabled || !allowlisted { return; }
      if minted == INVALID_ID { return; }
      owned := owned + {minted};
      slot := Slot(minted, params);
      sent := sent + [minted];
    }

    method NpcSpawnPost(params: nat, ret: nat)
      modifies this`owned, this`slot, this`byActor, this`pending
      ensures View() == Post(old(View()), params, ret)
    {
      if params == NULL || slot.params != params { return; }
      var eid := slot.eid;
      slot := NONE;
      if eid == INVALID_ID { return; }
      if ret == NULL {
        if eid in owned {
          owned := owned - {eid};
          pending := pending + [eid];
        }
        return;
      }
      if eid !in owned { return; }
      byActor := byActor[ret := eid];
    }

    // The calls of one thread, each between its two observers.
    method SpawnCalls(cs: Calls)
      requires WellNested(cs) && DistinctIds(cs) && Ids(cs) !! owned && slot == NONE
      modifies this
      ensures View() == Do(old(View()), EffectOf(cs), HasNpc(cs)) && destroysSent == old(destroysSent)
    {
      CallsCorrelate(View(), cs);
      RunCalls(cs);
    }

    method RunCalls(cs: Calls)
      requires WellNested(cs)
      modifies this
      ensures View() == Run(old(View()), cs) && destroysSent == old(destroysSent)
      decreases cs
    {
      match cs
      case Done =>
      case Call(k, params, ret, inner, next) =>
        NpcSuppressInterceptor(params, true, false, k.Npc?, if k.Npc? then k.eid else INVALID_ID);
        RunCalls(inner);
        NpcSpawnPost(params, ret);
        RunCalls(next);
    }

    method NpcDestroyPre(actor: nat, hostConnected: bool)
      modifies this`owned, this`byActor, this`pending, this`destroysSent
      ensures View() == DestroyPre(old(View()), actor)
      ensures destroysSent == old(destroysSent) +
                if hostConnected && actor != NULL && actor in old(byActor) then [old(byActor[actor])] else []
    {
      if actor == NULL || actor !in byActor { return; }
      var eid := byActor[actor];
      byActor := byActor - {actor};
      if eid in owned {
        owned := owned - {eid};
        pending := pending + [eid];
      }
      if hostConnected { destroysSent := destroysSent + [eid]; }
    }
  }
}

// The client's side: the bypass slot of its interceptor and the mirror table.
module NpcMirrors {
  import P = PropStore

  const NULL: nat := 0

  datatype Event = Mark(cls: nat) | Clear | Spawn(cls: nat, allowlisted: bool)

  // The client path of NpcSuppress_Interceptor: (skip the original, the bypass slot after).
  function Intercept(bypass: nat, cls: nat, allowlisted: bool): (bool, nat) {
    if cls == NULL then (false, bypass)
    else if bypass == cls then (false, NULL)
    else (allowlisted, bypass)
  }

  function Bypass(b: nat, ev: Event): nat {
    match ev
    case Mark(cls) => cls
    case Clear => NULL
    case Spawn(cls, allowlisted) => Intercept(b, cls, allowlisted).1
  }

  // NPC spawns let through.
  function Passed(b: nat, evs: seq<Event>): nat
    decreases |evs|
  {
    if evs == [] then 0
    else
      (if evs[0].Spawn? && evs[0].cls != NULL && evs[0].allowlisted && !Intercept(b, evs[0].cls, true).0 then 1 else 0)
      + Passed(Bypass(b, evs[0]), evs[1..])
  }

  function Marks(evs: seq<Event>): nat {
    if evs == [] then 0 else (if evs[0].Mark? then 1 else 0) + Marks(evs[1..])
  }

  // A client's own NPC spawns never run: at most one goes through for each spawn taken from the wire,
  // whatever the order of marks, clears and spawns.
  lemma {:induction false} OnlyWireSpawnsPass(b: nat, evs: seq<Event>)
    ensures Passed(b, evs) <= Marks(evs) + if b != NULL then 1 else 0
    decreases |evs|
  {
    if evs != [] { OnlyWireSpawnsPass(Bypass(b, evs[0]), evs[1..]); }
  }

  // The marks and spawns of NPCs taken from the wire one after the other.
  function FromWire(classes: seq<nat>): seq<Event> {
    if classes == [] then [] else [Mark(classes[0]), Spawn(classes[0], true)] + FromWire(classes[1..])
  }

  // The bound is met: every spawn taken from the wire goes through.
  lemma {:induction false} WireSpawnsPass(classes: seq<nat>)
    requires forall i :: 0 <= i < |classes| ==> classes[i] != NULL
    ensures Passed(NULL, FromWire(classes)) == |classes| == Marks(FromWire(classes))
    decreases |classes|
  {
    if classes != [] {
      var cls, rest := classes[0], FromWire(classes[1..]);
      WireSpawnsPass(classes[1..]);
      var evs := FromWire(classes);
      assert evs[0] == Mark(cls) && evs[1..] == [Spawn(cls, true)] + rest && evs[1..][1..] == rest;
    }
  }

  // The slot after some events.
  function After(b: nat, evs: seq<Event>): nat
    decreases |evs|
  {
    if evs == [] then b else After(Bypass(b, evs[0]), evs[1..])
  }

  // Spawns of classes other than cls.
  ghost predicate OfOthers(evs: seq<Event>, cls: nat) {
    forall i :: 0 <= i < |evs| ==> evs[i].Spawn? && evs[i].cls != cls
  }

  // A spawn taken from the wire: after the mark, and any spawns of other classes, the next spawn of its
  // class goes through, once; another one is skipped if the class is on the list.
  lemma {:induction false} MarkedSpawnPasses(b: nat, cls: nat, evs: seq<Event>, allowlisted: bool)
    requires cls != NULL && OfOthers(evs, cls)
    ensures
      var before := After(Bypass(b, Mark(cls)), evs);
      && Intercept(before, cls, allowlisted) == (false, NULL)
      && Intercept(Intercept(before, cls, allowlisted).1, cls, true) == (true, NULL)
    decreases |evs|
  {
    if evs != [] {
      assert Bypass(cls, evs[0]) == cls;
      assert Bypass(Bypass(b, Mark(cls)), evs[0]) == Bypass(b, Mark(cls));
      forall i | 0 <= i < |evs[1..]| ensures evs[1..][i].Spawn? && evs[1..][i].cls != cls {
        assert evs[1..][i] == evs[i + 1];
      }
      MarkedSpawnPasses(b, cls, evs[1..], allowlisted);
    }
  }

  // Exactly which spawns are skipped: those of a class on the list that is not the marked one.  A spawn of
  // another class leaves the mark where it is.
  lemma SkippedIff(b: nat, cls: nat, allowlisted: bool)
    ensures Intercept(b, cls, allowlisted).0 <==> cls != NULL && allowlisted && b != cls
    ensures cls != b || cls == NULL ==> Intercept(b, cls, allowlisted).1 == b
    ensures Bypass(b, Clear) == NULL
  {
  }

  // An Element of the manager; mirror is false for the host's own NPCs.
  datatype Npc = Npc(actor: nat, mirror: bool)

  predicate HostRange(id: nat) { 1 <= id < 32768 }

  // Some order of the manager's Elements, each once.
  ghost predicate Lists(order: seq<nat>, table: map<nat, Npc>) {
    && (forall i, j :: 0 <= i < j < |order| ==> order[i] != order[j])
    && (forall e :: e in order <==> e in table)
  }

  ghost predicate ToTearDown(el: Npc, live: set<nat>) {
    el.mirror && el.actor != NULL && el.actor in live
  }

  // The K2_DestroyActor calls of a full teardown.
  ghost function Teardown(order: seq<nat>, table: map<nat, Npc>, live: set<nat>): seq<nat>
    requires forall e :: e in order ==> e in table
  {
    if order == [] then []
    else
      var e := order[|order| - 1];
      Teardown(order[..|order| - 1], table, live) + if ToTearDown(table[e], live) then [table[e].actor] else []
  }

  // Every mirror's live actor is torn down, and no actor of the host's own NPCs unless a mirror has it.
  lemma {:induction false} TeardownIff(order: seq<nat>, table: map<nat, Npc>, live: set<nat>, actor: nat)
    requires forall e :: e in order ==> e in table
    ensures actor in Teardown(order, table, live) <==>
              exists k :: 0 <= k < |order| && ToTearDown(table[order[k]], live) && table[order[k]].actor == actor
    decreases |order|
  {
    if order != [] {
      var n := |order| - 1;
      TeardownIff(order[..n], table, live, actor);
      if k :| 0 <= k < |order| && ToTearDown(table[order[k]], live) && table[order[k]].actor == actor {
        assert k < n ==> order[..n][k] == order[k];
      }
      if actor in Teardown(order[..n], table, live) {
        var k :| 0 <= k < n && ToTearDown(table[order[..n][k]], live) && table[order[..n][k]].actor == actor;
        assert order[k] == order[..n][k];
      }
    }
  }

  // One call for each such mirror.
  lemma {:induction false} TeardownCounts(order: seq<nat>, table: map<nat, Npc>, live: set<nat>)
    requires forall e :: e in order ==> e in table
    ensures |Teardown(order, table, live)| == |set k | 0 <= k < |order| && ToTearDown(table[order[k]], live)|
    decreases |order|
  {
    if order != [] {
      var n := |order| - 1;
      TeardownCounts(order[..n], table, live);
      var before := set k | 0 <= k < n && ToTearDown(table[order[..n][k]], live);
      var all := set k | 0 <= k < |order| && ToTearDown(table[order[k]], live);
      assert forall k :: 0 <= k < n ==> order[..n][k] == order[k];
      assert all == if ToTearDown(table[order[n]], live) then before + {n} else before;
    }
  }

  // Spawns are taken for exactly the ids that a host's allocation yields, not for a client's nor for the
  // wire's "no Element".
  lemma HostIdsAreTaken(s: P.Store, isHost: bool, el: P.Element, pool: set<nat>)
    requires P.Partition(s, pool) && !el.mirror && P.AllocId(s, isHost, el).1 != P.INVALID_ID
    ensures HostRange(P.AllocId(s, isHost, el).1) <==> isHost
    ensures !HostRange(0)
  {
    var stack := if isHost then s.hostFree else s.localFree;
    assert stack[|stack| - 1] in stack;
  }

  class NpcMirror {
    var table: map<nat, Npc>
    var occupied: set<nat>    // the ids of every Element of the process
    var destroyed: seq<nat>   // the K2_DestroyActor calls made

    ghost predicate Registered()
      reads this
    {
      table.Keys <= occupied
    }

    // spawned: what BeginDeferred returned; finished: whether FinishSpawning succeeded; live: whether the
    // actor still is when it comes to destroying it.
    method OnEntitySpawn(eid: nat, accepted: bool, spawned: nat, finished: bool, live: bool)
      requires Registered()
      modifies this
      ensures Registered()
      ensures
        var arriving := HostRange(eid) && accepted && eid !in old(table) && spawned != NULL;
        var kept := arriving && finished && eid !in old(occupied);
        && table == (if kept then old(table)[eid := Npc(spawned, true)] else old(table))
        && occupied == (if kept then old(occupied) + {eid} else old(occupied))
        && destroyed == old(destroyed) + if arriving && !kept && live then [spawned] else []
    {
      if !HostRange(eid) || !accepted || eid in table || spawned == NULL { return; }
      if !finished {
        if live { destroyed := destroyed + [spawned]; }
        return;
      }
      ghost var before := table;
      table := table[eid := Npc(spawned, true)];
      if eid in occupied {
        table := table - {eid};
        assert table == before;
        if live { destroyed := destroyed + [spawned]; }
        return;
      }
      occupied := occupied + {eid};
    }

    method OnEntityDestroy(eid: nat, live: bool)
      requires Registered()
      modifies this
      ensures Registered()
      ensures table == if HostRange(eid) then old(table) - {eid} else old(table)
      ensures occupied == if HostRange(eid) && eid in old(table) then old(occupied) - {eid} else old(occupied)
      ensures destroyed == old(destroyed) +
                if HostRange(eid) && eid in old(table) && old(table)[eid].actor != NULL && live
                then [old(table)[eid].actor] else []
    {
      if !HostRange(eid) || eid !in table { return; }
      var el := table[eid];
      table := table - {eid};
      if el.actor != NULL && live { destroyed := destroyed + [el.actor]; }
      occupied := occupied - {eid};
    }

    method DrainClientMirrors(order: seq<nat>, live: set<nat>) returns (n: nat)
      requires Registered() && Lists(order, table)
      modifies this
      ensures table == map[] && destroyed == old(destroyed) + Teardown(order, old(table), live)
      ensures n == |Teardown(order, old(table), live)| && occupied == old(occupied) - old(table).Keys
    {
      n := 0;
      var i := 0;
      while i < |order|
        invariant 0 <= i <= |order| && table == old(table) && occupied == old(occupied)
        invariant destroyed == old(destroyed) + Teardown(order[..i], table, live)
            && n == |Teardown(order[..i], table, live)|
      {
        assert order[..i + 1][..i] == order[..i];
        var el := table[order[i]];
        if el.mirror && el.actor != NULL && el.actor in live {
          destroyed := destroyed + [el.actor];
          n := n + 1;
        }
        i := i + 1;
      }
      assert order[..i] == order;
      occupied := occupied - table.Keys;
      table := map[];
    }
  }
}
