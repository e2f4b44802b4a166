// Mark, Unmark, the reaper and Flush as interleaved lock-scoped steps of any number of threads.
//
// Inv is kept by every step (StepKeepsInv) and hence holds in every reachable state
// (EveryRunKeepsInv).  Its consequences are the custody theorems at the end.  Two facts about the
// environment are guards of the steps: no call in flight names an id that a Flush frees (FlushKeepsInvIff
// says that this is exactly what the barrier is for), and an actor stays live while a Mark of it is in
// flight.  WithoutBarrierAnEntryDangles
// and DeadDuringMarkAnEntryDangles show what each of them buys.

module PropInterleaving {
  import opened PropStore

  // What a thread does next, between two lock scopes.
  datatype Work =
    | Between
    | Checked(actor: Actor, index: int, isHost: bool)
    | Registered(actor: Actor, index: int, id: ElementId)
    | Installed(actor: Actor, index: int, id: ElementId)
    | Claimed(id: ElementId)
    | Taken(id: ElementId)

  // A call in flight; only a reap call has snapshot rows left to visit.
  datatype Call = Call(work: Work, todo: seq<Pair>)

  datatype Event = Allocated(id: ElementId) | Freed(id: ElementId)

  datatype System = System(
    store: Store,
    calls: map<nat, Call>,
    live: set<(Actor, int)>,
    history: seq<Event>)

  const GAME_THREAD: nat := 0

  datatype Step =
    | MarkStart(t: nat, actor: Actor, index: int, isHost: bool)
    | MarkAlloc(t: nat)
    | MarkInstall(t: nat)
    | MarkCommit(t: nat)
    | UnmarkStart(t: nat, actor: Actor)
    | TakeStep(t: nat)
    | EnqueueStep(t: nat)
    | ReapStart(pairs: seq<Pair>)
    | ReapPair(t: nat)
    | ReapEnd(t: nat)
    | FlushStep
    | MirrorInstall(id: ElementId, element: Element)
    | MirrorDrop(id: ElementId)
    | World(live: set<(Actor, int)>)

  function WorkOf(s: System, t: nat): Work {
    if t in s.calls then s.calls[t].work else Between
  }

  ghost predicate MarkInFlight(c: Call, key: (Actor, int)) {
    (c.work.Checked? || c.work.Registered? || c.work.Installed?) && key == (c.work.actor, c.work.index)
  }

  ghost predicate MarksStayLive(calls: map<nat, Call>, live: set<(Actor, int)>) {
    forall t | t in calls :: forall key :: MarkInFlight(calls[t], key) ==> key in live
  }

  ghost predicate AtomicCopy(registry: map<ElementId, Element>, pairs: seq<Pair>) {
    forall p | p in pairs :: p.id in registry && registry[p.id] == p.element
  }

  // The call will commit or Take a parked id, or visit its row.
  ghost predicate NamesParked(store: Store, c: Call) {
    ((c.work.Installed? || c.work.Claimed?) && c.work.id in store.pending)
    || exists p :: p in c.todo && p.id in store.pending
  }

  ghost predicate SomeNamesParked(s: System) {
    exists t :: t in s.calls && NamesParked(s.store, s.calls[t])
  }

  ghost predicate Enabled(s: System, st: Step) {
    match st
    case MarkStart(t, actor, index, _) => t !in s.calls && actor != NULL && (actor, index) in s.live
    case MarkAlloc(t) => WorkOf(s, t).Checked?
    case MarkInstall(t) => WorkOf(s, t).Registered?
    case MarkCommit(t) => WorkOf(s, t).Installed?
    case UnmarkStart(t, actor) => t !in s.calls && actor != NULL
    case TakeStep(t) => WorkOf(s, t).Claimed?
    case EnqueueStep(t) => WorkOf(s, t).Taken?
    case ReapStart(pairs) => GAME_THREAD !in s.calls && AtomicCopy(s.store.registry, pairs)
    case ReapPair(t) => t in s.calls && s.calls[t].work.Between? && s.calls[t].todo != []
    case ReapEnd(t) => t in s.calls && s.calls[t].work.Between?
    case FlushStep => !SomeNamesParked(s)
    case MirrorInstall(id, el) =>
      GAME_THREAD !in s.calls && el.mirror && id < MAX_ELEMENTS && id !in s.store.registry && id !in Free(s.store)
    case MirrorDrop(id) => GAME_THREAD !in s.calls && id in s.store.registry && s.store.registry[id].mirror
    case World(live) => MarksStayLive(s.calls, live)
  }

  // The thread's work becomes w; a thread with nothing left has returned.
  function SetWork(s: System, t: nat, w: Work): System {
    var todo := if t in s.calls then s.calls[t].todo else [];
    if w == Between && todo == [] then s.(calls := s.calls - {t})
    else s.(calls := s.calls[t := Call(w, todo)])
  }

  // MarkPropElement: idempotency check, allocation, manager insert, commit or drop.
  function StartMark(s: System, t: nat, actor: Actor, index: int, isHost: bool): System {
    if actor in s.store.byActor then s else SetWork(s, t, Checked(actor, index, isHost))
  }

  function AllocForMark(s: System, t: nat): System
    requires WorkOf(s, t).Checked?
  {
    var w := WorkOf(s, t);
    var (store, id) := AllocId(s.store, w.isHost, Element(w.actor, w.index, false));
    if id == INVALID_ID then SetWork(s.(store := store), t, Between)
    else SetWork(s.(store := store, history := s.history + [Allocated(id)]), t, Registered(w.actor, w.index, id))
  }

  function InstallForMark(s: System, t: nat): System
    requires WorkOf(s, t).Registered?
  {
    var w := WorkOf(s, t);
    var (store, id) := InstallOwner(s.store, w.id);
    if id == INVALID_ID then SetWork(s.(store := store, history := s.history + [Freed(w.id)]), t, Between)
    else SetWork(s.(store := store), t, Installed(w.actor, w.index, id))
  }

  function CommitMark(s: System, t: nat): System
    requires WorkOf(s, t).Installed?
  {
    var w := WorkOf(s, t);
    if w.actor in s.store.byActor then SetWork(s, t, Claimed(w.id))
    else SetWork(s.(store := s.store.(byActor := s.store.byActor[w.actor := w.id])), t, Between)
  }

  // UnmarkKnownKeyedProp up to the release of the reverse-map lock.
  function StartUnmark(s: System, t: nat, actor: Actor): System {
    if actor !in s.store.byActor then s
    else SetWork(s.(store := Unbind(s.store, actor)), t, Claimed(s.store.byActor[actor]))
  }

  function TakeClaimed(s: System, t: nat): System
    requires WorkOf(s, t).Claimed?
  {
    var id := WorkOf(s, t).id;
    var (store, got) := Take(s.store, id);
    SetWork(s.(store := store), t, if got then Taken(id) else Between)
  }

  function EnqueueTaken(s: System, t: nat): System
    requires WorkOf(s, t).Taken?
  {
    SetWork(s.(store := Enqueue(s.store, WorkOf(s, t).id)), t, Between)
  }

  // ReapDeadLocalPropElements: skip mirrors and live rows, else erase the entry if it is this id's.
  function VisitRow(s: System, t: nat): System
    requires t in s.calls && s.calls[t].todo != []
  {
    var p := s.calls[t].todo[0];
    var s' := s.(calls := s.calls[t := Call(Between, s.calls[t].todo[1..])]);
    if p.element.mirror || (p.element.actor, p.element.index) in s.live then SetWork(s', t, Between)
    else
      var mine := p.element.actor in s.store.byActor && s.store.byActor[p.element.actor] == p.id;
      SetWork(if mine then s'.(store := Unbind(s.store, p.element.actor)) else s', t, Claimed(p.id))
  }

  function FlushAll(s: System): System {
    s.(store := Flush(s.store), history := s.history + Releases(s.store.pending))
  }

  ghost function Apply(s: System, st: Step): System
    requires Enabled(s, st)
  {
    match st
    case MarkStart(t, actor, index, isHost) => StartMark(s, t, actor, index, isHost)
    case MarkAlloc(t) => AllocForMark(s, t)
    case MarkInstall(t) => InstallForMark(s, t)
    case MarkCommit(t) => CommitMark(s, t)
    case UnmarkStart(t, actor) => StartUnmark(s, t, actor)
    case TakeStep(t) => TakeClaimed(s, t)
    case EnqueueStep(t) => EnqueueTaken(s, t)
    case ReapStart(pairs) => if pairs == [] then s else s.(calls := s.calls[GAME_THREAD := Call(Between, pairs)])
    case ReapPair(t) => VisitRow(s, t)
    case ReapEnd(t) => s.(calls := s.calls - {t})
    case FlushStep => FlushAll(s)
    case MirrorInstall(id, el) =>
      s.(store := s.store.(registry := s.store.registry[id := el], owner := s.store.owner + {id}))
    case MirrorDrop(id) =>
      s.(store := s.store.(registry := s.store.registry - {id}, owner := s.store.owner - {id}))
    case World(live) => s.(live := live)
  }

  function Releases(ids: seq<ElementId>): seq<Event> {
    seq(|ids|, i requires 0 <= i < |ids| => Freed(ids[i]))
  }

  // ---- The invariant ----

  // The Element is held by the thread itself: in neither the manager nor the deleter.
  ghost predicate InHand(c: Call, e: ElementId) {
    (c.work.Registered? || c.work.Taken?) && c.work.id == e
  }

  // The thread will commit or Take this id.
  ghost predicate Responsible(c: Call, e: ElementId) {
    (c.work.Installed? || c.work.Claimed?) && c.work.id == e
  }

  ghost predicate SomeInHand(s: System, e: ElementId) {
    exists t :: t in s.calls && InHand(s.calls[t], e)
  }

  ghost predicate SomeResponsible(s: System, e: ElementId) {
    exists t :: t in s.calls && Responsible(s.calls[t], e)
  }

  ghost predicate CallOk(store: Store, t: nat, c: Call) {
    && AtomicCopy(store.registry, c.todo)
    && (c.todo != [] ==> t == GAME_THREAD)
    && (c.work.Between? ==> c.todo != [])
    && (c.work.Registered? || c.work.Installed? ==>
          c.work.id in store.registry && store.registry[c.work.id] == Element(c.work.actor, c.work.index, false))
    && (c.work.Registered? || c.work.Taken? ==>
          Local(store, c.work.id) && c.work.id !in store.owner && c.work.id !in store.pending)
    && (c.work.Installed? ==> c.work.id in store.owner)
    && (c.work.Installed? || c.work.Claimed? ==> Local(store, c.work.id) && !Bound(store, c.work.id))
  }

  // Two threads never hold the same Element, and an uncommitted one has no other claimant.
  ghost predicate Compatible(c: Call, d: Call) {
    && (c.work.Registered? || c.work.Taken? ==> !InHand(d, c.work.id))
    && (c.work.Registered? || c.work.Installed? ==> !Responsible(d, c.work.id))
  }

  ghost predicate CallsOk(s: System) {
    && (forall t | t in s.calls :: CallOk(s.store, t, s.calls[t]))
    && (forall t, u | t in s.calls && u in s.calls && t != u :: Compatible(s.calls[t], s.calls[u]))
  }

  // Nothing is lost: every local Element is somewhere, and an owned one is bound or being handled.
  ghost predicate Covered(s: System, e: ElementId) {
    && (e in s.store.owner || e in s.store.pending || SomeInHand(s, e))
    && (e in s.store.owner ==> Bound(s.store, e) || SomeResponsible(s, e))
  }

  function Delta(ev: Event, e: ElementId): int {
    if ev == Allocated(e) then 1 else if ev == Freed(e) then -1 else 0
  }

  function Net(history: seq<Event>, e: ElementId): int {
    if history == [] then 0
    else Net(history[..|history| - 1], e) + Delta(history[|history| - 1], e)
  }

  // At every moment of the past, each id was allocated once or not at all.
  ghost predicate Alternating(history: seq<Event>) {
    forall n, e :: 0 <= n <= |history| ==> 0 <= Net(history[..n], e) <= 1
  }

  ghost predicate HistoryOk(s: System) {
    && Alternating(s.history)
    && (forall e :: Net(s.history, e) == if Local(s.store, e) then 1 else 0)
  }

  ghost predicate Inv(s: System, pool: set<ElementId>) {
    && StoreOk(s.store, pool)
    && CallsOk(s)
    && (forall e | Local(s.store, e) :: Covered(s, e))
    && MarksStayLive(s.calls, s.live)
    && HistoryOk(s)
  }

  // ---- History lemmas ----

  lemma NetAppend(h: seq<Event>, ev: Event)
    ensures forall e :: Net(h + [ev], e) == Net(h, e) + Delta(ev, e)
  {
    assert (h + [ev])[..|h|] == h;
  }

  lemma AppendAlternates(h: seq<Event>, ev: Event)
    requires Alternating(h)
    requires if ev.Allocated? then Net(h, ev.id) == 0 else Net(h, ev.id) == 1
    ensures Alternating(h + [ev])
    ensures forall e :: Net(h + [ev], e) == Net(h, e) + Delta(ev, e)
  {
    NetAppend(h, ev);
    var g := h + [ev];
    forall n, e | 0 <= n <= |g| ensures 0 <= Net(g[..n], e) <= 1 {
      if n <= |h| { assert g[..n] == h[..n]; } else { assert g[..n] == g; assert h[..|h|] == h; }
    }
  }

  lemma {:induction false} ReleasesAlternate(h: seq<Event>, ids: seq<ElementId>)
    requires Alternating(h) && NoDup(ids)
    requires forall e | e in ids :: Net(h, e) == 1
    ensures Alternating(h + Releases(ids))
    ensures forall e :: Net(h + Releases(ids), e) == if e in ids then Net(h, e) - 1 else Net(h, e)
    decreases |ids|
  {
    if ids == [] {
      assert h + Releases(ids) == h;
    } else {
      var n := |ids| - 1;
      assert ids == ids[..n] + [ids[n]];
      ReleasesAlternate(h, ids[..n]);
      var g := h + Releases(ids[..n]);
      AppendAlternates(g, Freed(ids[n]));
      assert h + Releases(ids) == g + [Freed(ids[n])];
    }
  }

  // ---- Preservation, one lemma per kind of step ----

  // A step that changes the store only as described by `same`, and one thread's work.
  ghost predicate OnlyThread(s: System, s': System, t: nat) {
    && (forall u | u != t :: u in s'.calls <==> u in s.calls)
    && (forall u | u != t && u in s.calls :: s'.calls[u] == s.calls[u])
  }

  // Witnesses other than the stepping thread survive.
  lemma WitnessesSurvive(s: System, s': System, t: nat, e: ElementId)
    requires OnlyThread(s, s', t)
    ensures SomeInHand(s, e) && !(t in s.calls && InHand(s.calls[t], e)) ==> SomeInHand(s', e)
    ensures SomeResponsible(s, e) && !(t in s.calls && Responsible(s.calls[t], e)) ==> SomeResponsible(s', e)
  {
    if SomeInHand(s, e) && !(t in s.calls && InHand(s.calls[t], e)) {
      var u :| u in s.calls && InHand(s.calls[u], e);
      assert u in s'.calls && InHand(s'.calls[u], e);
    }
    if SomeResponsible(s, e) && !(t in s.calls && Responsible(s.calls[t], e)) {
      var u :| u in s.calls && Responsible(s.calls[u], e);
      assert u in s'.calls && Responsible(s'.calls[u], e);
    }
  }

  lemma CallsCarry(s: System, s': System, t: nat)
    requires CallsOk(s) && OnlyThread(s, s', t)
    requires forall u | u in s.calls && u != t :: CallOk(s'.store, u, s.calls[u])
    requires t in s'.calls ==> CallOk(s'.store, t, s'.calls[t])
    requires t in s'.calls ==>
               forall u | u in s.calls && u != t :: Compatible(s'.calls[t], s.calls[u])
                   && Compatible(s.calls[u], s'.calls[t])
    ensures CallsOk(s')
  {
  }

  lemma MarkStartKeepsInv(s: System, t: nat, actor: Actor, index: int, isHost: bool, pool: set<ElementId>)
    requires Inv(s, pool) && t !in s.calls && actor != NULL && (actor, index) in s.live
    ensures Inv(StartMark(s, t, actor, index, isHost), pool)
  {
    var s' := StartMark(s, t, actor, index, isHost);
    forall e | Local(s'.store, e) ensures Covered(s', e) {
      assert Local(s.store, e) ==> Covered(s, e);
      WitnessesSurvive(s, s', t, e);
    }
  }

  lemma MarkAllocCalls(s: System, t: nat, pool: set<ElementId>)
    requires Inv(s, pool) && WorkOf(s, t).Checked?
    ensures CallsOk(AllocForMark(s, t))
  {
    var s' := AllocForMark(s, t);
    var w := WorkOf(s, t);
    AllocKeepsPartition(s.store, w.isHost, Element(w.actor, w.index, false), pool);
    forall u | u in s.calls && u != t ensures CallOk(s'.store, u, s.calls[u]) {
      assert CallOk(s.store, u, s.calls[u]);
    }
    CallsCarry(s, s', t);
  }

  lemma AllocStore(store: Store, isHost: bool, el: Element, pool: set<ElementId>)
    requires StoreOk(store, pool) && !el.mirror
    ensures StoreOk(AllocId(store, isHost, el).0, pool)
  {
    AllocKeepsPartition(store, isHost, el, pool);
  }

  lemma MarkAllocCovers(s: System, t: nat, e: ElementId, pool: set<ElementId>)
    requires Inv(s, pool) && WorkOf(s, t).Checked? && Local(AllocForMark(s, t).store, e)
    ensures Covered(AllocForMark(s, t), e)
  {
    var w := WorkOf(s, t);
    var s' := AllocForMark(s, t);
    AllocKeepsPartition(s.store, w.isHost, Element(w.actor, w.index, false), pool);
    if Local(s.store, e) {
      assert Covered(s, e);
      WitnessesSurvive(s, s', t, e);
    } else {
      assert InHand(s'.calls[t], e);
    }
  }

  lemma AllocatedHistory(store: Store, store': Store, h: seq<Event>, id: ElementId, el: Element)
    requires Alternating(h) && (forall e :: Net(h, e) == if Local(store, e) then 1 else 0)
    requires !el.mirror && id !in store.registry && store'.registry == store.registry[id := el]
    ensures Alternating(h + [Allocated(id)])
    ensures forall e :: Net(h + [Allocated(id)], e) == if Local(store', e) then 1 else 0
  {
    assert !Local(store, id) && Net(h, id) == 0;
    AppendAlternates(h, Allocated(id));
  }

  lemma MarkAllocHistory(s: System, t: nat, pool: set<ElementId>)
    requires StoreOk(s.store, pool) && HistoryOk(s) && WorkOf(s, t).Checked?
    ensures HistoryOk(AllocForMark(s, t))
  {
    var w := WorkOf(s, t);
    var el := Element(w.actor, w.index, false);
    AllocKeepsPartition(s.store, w.isHost, el, pool);
    var (store, id) := AllocId(s.store, w.isHost, el);
    if id != INVALID_ID { AllocatedHistory(s.store, store, s.history, id, el); }
  }

  lemma MarkAllocKeepsInv(s: System, t: nat, pool: set<ElementId>)
    requires Inv(s, pool) && WorkOf(s, t).Checked?
    ensures Inv(AllocForMark(s, t), pool)
  {
    var s' := AllocForMark(s, t);
    var w := WorkOf(s, t);
    MarkAllocCalls(s, t, pool);
    MarkAllocHistory(s, t, pool);
    AllocStore(s.store, w.isHost, Element(w.actor, w.index, false), pool);
    forall e | Local(s'.store, e) ensures Covered(s', e) { MarkAllocCovers(s, t, e, pool); }
    assert MarksStayLive(s'.calls, s'.live);
  }

  lemma MarkInstallKeepsInv(s: System, t: nat, pool: set<ElementId>)
    requires Inv(s, pool) && WorkOf(s, t).Registered?
    ensures Inv(InstallForMark(s, t), pool)
  {
    var s' := InstallForMark(s, t);
    var w := WorkOf(s, t);
    assert w.id !in s.store.owner;
    assert Responsible(s'.calls[t], w.id);
    forall e | Local(s'.store, e) ensures Covered(s', e) {
      assert Local(s.store, e) ==> Covered(s, e);
      WitnessesSurvive(s, s', t, e);
    }
  }

  lemma MarkCommitCalls(s: System, t: nat, pool: set<ElementId>)
    requires Inv(s, pool) && WorkOf(s, t).Installed?
    ensures CallsOk(CommitMark(s, t))
  {
    var s' := CommitMark(s, t);
    assert CallOk(s.store, t, s.calls[t]);
    forall u | u in s.calls && u != t ensures CallOk(s'.store, u, s.calls[u]) {
      assert CallOk(s.store, u, s.calls[u]);
      assert Compatible(s.calls[t], s.calls[u]);
    }
    CallsCarry(s, s', t);
  }

  lemma MarkCommitKeepsInv(s: System, t: nat, pool: set<ElementId>)
    requires Inv(s, pool) && WorkOf(s, t).Installed?
    ensures Inv(CommitMark(s, t), pool)
  {
    var s' := CommitMark(s, t);
    var w := WorkOf(s, t);
    MarkCommitCalls(s, t, pool);
    assert CallOk(s.store, t, s.calls[t]);
    if w.actor in s.store.byActor { assert Responsible(s'.calls[t], w.id); }
    forall e | Local(s'.store, e) ensures Covered(s', e) {
      assert Local(s.store, e) ==> Covered(s, e);
      WitnessesSurvive(s, s', t, e);
    }
  }

  lemma UnmarkStartKeepsInv(s: System, t: nat, actor: Actor, pool: set<ElementId>)
    requires Inv(s, pool) && t !in s.calls && actor != NULL
    ensures Inv(StartUnmark(s, t, actor), pool)
  {
    var s' := StartUnmark(s, t, actor);
    if actor in s.store.byActor { assert Responsible(s'.calls[t], s.store.byActor[actor]); }
    forall e | Local(s'.store, e) ensures Covered(s', e) {
      assert Local(s.store, e) ==> Covered(s, e);
      WitnessesSurvive(s, s', t, e);
    }
  }

  lemma TakeCalls(s: System, t: nat, pool: set<ElementId>)
    requires Inv(s, pool) && WorkOf(s, t).Claimed?
    ensures CallsOk(TakeClaimed(s, t))
  {
    var s' := TakeClaimed(s, t);
    assert CallOk(s.store, t, s.calls[t]);
    forall u | u in s.calls && u != t ensures CallOk(s'.store, u, s.calls[u]) {
      assert CallOk(s.store, u, s.calls[u]);
      assert Compatible(s.calls[u], s.calls[t]);
      assert Responsible(s.calls[t], s.calls[t].work.id);
    }
    CallsCarry(s, s', t);
  }

  lemma TakeKeepsInv(s: System, t: nat, pool: set<ElementId>)
    requires Inv(s, pool) && WorkOf(s, t).Claimed?
    ensures Inv(TakeClaimed(s, t), pool)
  {
    var s' := TakeClaimed(s, t);
    var id := WorkOf(s, t).id;
    TakeCalls(s, t, pool);
    assert CallOk(s.store, t, s.calls[t]);
    if id in s.store.owner { assert InHand(s'.calls[t], id); }
    forall e | Local(s'.store, e) ensures Covered(s', e) {
      assert Local(s.store, e) ==> Covered(s, e);
      WitnessesSurvive(s, s', t, e);
    }
  }

  lemma EnqueueStore(store: Store, id: ElementId, pool: set<ElementId>)
    requires StoreOk(store, pool) && Local(store, id) && id !in store.owner && id !in store.pending
    ensures StoreOk(Enqueue(store, id), pool)
    ensures forall e :: e in Enqueue(store, id).pending <==> e in store.pending || e == id
  {
    assert Enqueue(store, id).pending[|store.pending|] == id;
  }

  lemma EnqueueCalls(s: System, t: nat, pool: set<ElementId>)
    requires Inv(s, pool) && WorkOf(s, t).Taken?
    ensures CallsOk(EnqueueTaken(s, t))
  {
    var s' := EnqueueTaken(s, t);
    assert CallOk(s.store, t, s.calls[t]);
    EnqueueStore(s.store, s.calls[t].work.id, pool);
    forall u | u in s.calls && u != t ensures CallOk(s'.store, u, s.calls[u]) {
      assert CallOk(s.store, u, s.calls[u]);
      assert Compatible(s.calls[t], s.calls[u]);
    }
    CallsCarry(s, s', t);
  }

  lemma EnqueueKeepsInv(s: System, t: nat, pool: set<ElementId>)
    requires Inv(s, pool) && WorkOf(s, t).Taken?
    ensures Inv(EnqueueTaken(s, t), pool)
  {
    var s' := EnqueueTaken(s, t);
    assert CallOk(s.store, t, s.calls[t]);
    EnqueueStore(s.store, WorkOf(s, t).id, pool);
    EnqueueCalls(s, t, pool);
    forall e | Local(s'.store, e) ensures Covered(s', e) {
      assert Local(s.store, e) ==> Covered(s, e);
      WitnessesSurvive(s, s', t, e);
    }
  }

  // A row found dead is not one whose Mark is still in flight.
  lemma DeadRowIsNotBeingMarked(s: System, p: Pair)
    requires CallsOk(s) && MarksStayLive(s.calls, s.live)
    requires p.id in s.store.registry && s.store.registry[p.id] == p.element
    requires (p.element.actor, p.element.index) !in s.live
    ensures forall u | u in s.calls && (s.calls[u].work.Registered? || s.calls[u].work.Installed?) ::
              s.calls[u].work.id != p.id
  {
    forall u | u in s.calls && (s.calls[u].work.Registered? || s.calls[u].work.Installed?)
      ensures s.calls[u].work.id != p.id
    {
      assert CallOk(s.store, u, s.calls[u]);
      assert MarkInFlight(s.calls[u], (s.calls[u].work.actor, s.calls[u].work.index));
    }
  }

  lemma ReapPairOther(s: System, t: nat, u: nat, pool: set<ElementId>)
    requires Inv(s, pool) && t in s.calls && s.calls[t].work.Between? && s.calls[t].todo != []
    requires u in s.calls && u != t
    ensures CallOk(VisitRow(s, t).store, u, s.calls[u])
  {
    assert CallOk(s.store, u, s.calls[u]) && CallOk(s.store, t, s.calls[t]);
    assert s.calls[t].todo[0] in s.calls[t].todo;
  }

  lemma ReapPairCalls(s: System, t: nat, pool: set<ElementId>)
    requires Inv(s, pool) && t in s.calls && s.calls[t].work.Between? && s.calls[t].todo != []
    ensures CallsOk(VisitRow(s, t))
  {
    var s' := VisitRow(s, t);
    var p := s.calls[t].todo[0];
    assert CallOk(s.store, t, s.calls[t]);
    assert p in s.calls[t].todo;
    assert forall q | q in s.calls[t].todo[1..] :: q in s.calls[t].todo;
    forall u | u in s.calls && u != t ensures CallOk(s'.store, u, s.calls[u]) { ReapPairOther(s, t, u, pool); }
    if !(p.element.mirror || (p.element.actor, p.element.index) in s.live) {
      DeadRowIsNotBeingMarked(s, p);
    }
    CallsCarry(s, s', t);
  }

  lemma ReapPairCovers(s: System, t: nat, e: ElementId, pool: set<ElementId>)
    requires Inv(s, pool) && t in s.calls && s.calls[t].work.Between? && s.calls[t].todo != []
    requires Local(VisitRow(s, t).store, e)
    ensures Covered(VisitRow(s, t), e)
  {
    var s' := VisitRow(s, t);
    var p := s.calls[t].todo[0];
    assert Covered(s, e);
    WitnessesSurvive(s, s', t, e);
    if !Bound(s'.store, e) && Bound(s.store, e) { assert e == p.id && Responsible(s'.calls[t], e); }
  }

  lemma ReapPairKeepsInv(s: System, t: nat, pool: set<ElementId>)
    requires Inv(s, pool) && t in s.calls && s.calls[t].work.Between? && s.calls[t].todo != []
    ensures Inv(VisitRow(s, t), pool)
  {
    var s' := VisitRow(s, t);
    ReapPairCalls(s, t, pool);
    forall e | Local(s'.store, e) ensures Covered(s', e) { ReapPairCovers(s, t, e, pool); }
  }

  lemma ReapEndsKeepInv(s: System, st: Step, pool: set<ElementId>)
    requires Inv(s, pool) && (st.ReapStart? || st.ReapEnd?) && Enabled(s, st)
    ensures Inv(Apply(s, st), pool)
  {
    var s' := Apply(s, st);
    var t := if st.ReapStart? then GAME_THREAD else st.t;
    forall e | Local(s'.store, e) ensures Covered(s', e) {
      assert Local(s.store, e) ==> Covered(s, e);
      WitnessesSurvive(s, s', t, e);
    }
  }

  lemma FlushStore(s: System, pool: set<ElementId>)
    requires StoreOk(s.store, pool) && HistoryOk(s)
    ensures
      var s' := FlushAll(s);
      && StoreOk(s'.store, pool) && HistoryOk(s') && s'.store.owner == s.store.owner && s'.store.pending == []
      && s'.store.byActor == s.store.byActor
      && (forall e :: e in s'.store.registry <==> e in s.store.registry && e !in s.store.pending)
      && (forall e :: e in s'.store.registry ==> s'.store.registry[e] == s.store.registry[e])
  {
    FreeAllFrees(s.store.(pending := []), s.store.pending, pool);
    ReleasesAlternate(s.history, s.store.pending);
  }

  lemma FlushCall(s: System, t: nat, pool: set<ElementId>)
    requires Inv(s, pool) && t in s.calls
    ensures CallOk(FlushAll(s).store, t, s.calls[t]) <==> !NamesParked(s.store, s.calls[t])
  {
    FlushStore(s, pool);
    assert CallOk(s.store, t, s.calls[t]);
  }

  // A Flush keeps the invariant exactly when no call in flight names a parked id; with no call in flight
  // there is none to.
  lemma FlushKeepsInvIff(s: System, pool: set<ElementId>)
    requires Inv(s, pool)
    ensures Inv(FlushAll(s), pool) <==> !SomeNamesParked(s)
    ensures s.calls == map[] ==> !SomeNamesParked(s)
  {
    var s' := FlushAll(s);
    FlushStore(s, pool);
    forall t | t in s.calls ensures CallOk(s'.store, t, s.calls[t]) <==> !NamesParked(s.store, s.calls[t]) {
      FlushCall(s, t, pool);
    }
    forall e | Local(s'.store, e) ensures Covered(s', e) {
      assert Covered(s, e);
      WitnessesSurvive(s, s', GAME_THREAD, e);
      if SomeInHand(s, e) { var u :| u in s.calls && InHand(s.calls[u], e); assert InHand(s'.calls[u], e); }
      if SomeResponsible(s, e) {
        var u :| u in s.calls && Responsible(s.calls[u], e);
        assert Responsible(s'.calls[u], e);
      }
    }
  }

  lemma MirrorKeepsInv(s: System, st: Step, pool: set<ElementId>)
    requires Inv(s, pool) && (st.MirrorInstall? || st.MirrorDrop? || st.World?) && Enabled(s, st)
    ensures Inv(Apply(s, st), pool)
  {
    var s' := Apply(s, st);
    if !st.World? {
      forall t | t in s'.calls ensures CallOk(s'.store, t, s'.calls[t]) { assert CallOk(s.store, t, s.calls[t]); }
    }
    forall e | Local(s'.store, e) ensures Covered(s', e) {
      assert Local(s.store, e);
      WitnessesSurvive(s, s', GAME_THREAD, e);
      if SomeInHand(s, e) { var u :| u in s.calls && InHand(s.calls[u], e); assert InHand(s'.calls[u], e); }
      if SomeResponsible(s, e) {
        var u :| u in s.calls && Responsible(s.calls[u], e);
        assert Responsible(s'.calls[u], e);
      }
    }
  }

  lemma StepKeepsInv(s: System, st: Step, pool: set<ElementId>)
    requires Inv(s, pool) && Enabled(s, st)
    ensures Inv(Apply(s, st), pool)
  {
    match st
    case MarkStart(t, actor, index, isHost) => MarkStartKeepsInv(s, t, actor, index, isHost, pool);
    case MarkAlloc(t) => MarkAllocKeepsInv(s, t, pool);
    case MarkInstall(t) => MarkInstallKeepsInv(s, t, pool);
    case MarkCommit(t) => MarkCommitKeepsInv(s, t, pool);
    case UnmarkStart(t, actor) => UnmarkStartKeepsInv(s, t, actor, pool);
    case TakeStep(t) => TakeKeepsInv(s, t, pool);
    case EnqueueStep(t) => EnqueueKeepsInv(s, t, pool);
    case ReapStart(_) => ReapEndsKeepInv(s, st, pool);
    case ReapPair(t) => ReapPairKeepsInv(s, t, pool);
    case ReapEnd(_) => ReapEndsKeepInv(s, st, pool);
    case FlushStep => FlushKeepsInvIff(s, pool);
    case MirrorInstall(_, _) => MirrorKeepsInv(s, st, pool);
    case MirrorDrop(_) => MirrorKeepsInv(s, st, pool);
    case World(_) => MirrorKeepsInv(s, st, pool);
  }

  // Mirrors of other peers are registered and owned under their wire id from their install to their drop,
  // and a reap that ends early leaves its rows.
  lemma MirrorsComeAndGo(s: System, id: ElementId, el: Element, t: nat)
    ensures Enabled(s, MirrorInstall(id, el)) ==>
              var store := Apply(s, MirrorInstall(id, el)).store;
              id in store.registry && store.registry[id] == el && id in store.owner && Free(store) == Free(s.store)
    ensures Enabled(s, MirrorDrop(id)) ==>
              var store := Apply(s, MirrorDrop(id)).store;
              id !in store.registry && id !in store.owner && Free(store) == Free(s.store)
    ensures Enabled(s, ReapEnd(t)) ==> t !in Apply(s, ReapEnd(t)).calls && Apply(s, ReapEnd(t)).store == s.store
  {
  }

  // ---- Whole runs ----

  ghost predicate Initial(s: System, pool: set<ElementId>) {
    && s.store.registry == map[] && s.store.owner == {} && s.store.pending == [] && s.store.byActor == map[]
    && Partition(s.store, pool)
    && s.calls == map[] && s.history == []
  }

  ghost predicate Run(s: System, steps: seq<Step>, s': System)
    decreases |steps|
  {
    if steps == [] then s' == s
    else Enabled(s, steps[0]) && Run(Apply(s, steps[0]), steps[1..], s')
  }

  lemma {:induction false} EveryRunKeepsInv(s: System, steps: seq<Step>, s': System, pool: set<ElementId>)
    requires Inv(s, pool) && Run(s, steps, s')
    ensures Inv(s', pool)
    decreases |steps|
  {
    if steps != [] {
      StepKeepsInv(s, steps[0], pool);
      EveryRunKeepsInv(Apply(s, steps[0]), steps[1..], s', pool);
    }
  }

  lemma InitialInv(s: System, pool: set<ElementId>)
    requires Initial(s, pool)
    ensures Inv(s, pool)
  {
  }

  // ---- What the invariant says about custody ----

  function One(b: bool): nat { if b then 1 else 0 }

  // Free stack, manager, deletion queue or one thread's hand: exactly one of them, always.
  lemma ExactlyOnePlace(s: System, pool: set<ElementId>, e: ElementId)
    requires Inv(s, pool) && e in pool
    ensures One(e in Free(s.store)) + One(e in s.store.owner) + One(e in s.store.pending) + One(SomeInHand(s, e)) == 1
    ensures forall t, u | t in s.calls && u in s.calls && InHand(s.calls[t], e) && InHand(s.calls[u], e) :: t == u
  {
    assert Local(s.store, e) ==> Covered(s, e);
    assert e in Free(s.store) <==> e in s.store.hostFree || e in s.store.localFree;
    if SomeInHand(s, e) {
      var t :| t in s.calls && InHand(s.calls[t], e);
      assert CallOk(s.store, t, s.calls[t]);
    }
    forall t, u | t in s.calls && u in s.calls && InHand(s.calls[t], e) && InHand(s.calls[u], e) ensures t == u {
      assert t != u ==> Compatible(s.calls[t], s.calls[u]);
    }
  }

  // With no call in flight the reverse map and the manager's local Elements are in bijection, and
  // every other local Element waits in the deletion queue.
  lemma QuiescentBijection(s: System, pool: set<ElementId>)
    requires Inv(s, pool) && s.calls == map[]
    ensures Settled(s.store, pool)
    ensures forall e | e in s.store.owner && Local(s.store, e) ::
              exists a :: a in s.store.byActor && s.store.byActor[a] == e
    ensures forall a, b |
              a in s.store.byActor && b in s.store.byActor && s.store.byActor[a] == s.store.byActor[b] :: a == b
  {
    forall e | Local(s.store, e)
      ensures e in s.store.owner || e in s.store.pending
      ensures e in s.store.owner ==> Bound(s.store, e)
    {
      assert Covered(s, e);
    }
  }

  // No destructor that a Flush runs meets the double-free branch of FreeId.
  lemma FlushNeverDoubleFrees(s: System, pool: set<ElementId>, i: nat)
    requires Inv(s, pool) && i < |s.store.pending|
    ensures s.store.pending[i] in FreeAll(s.store.(pending := []), s.store.pending[..i]).registry
  {
    var ids := s.store.pending;
    assert forall e :: e in ids[..i] ==> e in ids;
    FreeAllFrees(s.store.(pending := []), ids[..i], pool);
    assert ids[i] in ids && ids[i] !in ids[..i];
  }

  // ---- Why Flush must be a barrier, and why a Mark's actor must stay live ----

  // The only id is 1; `actor` is the prop being marked by thread 1.
  function OneId(byActor: map<Actor, ElementId>, owner: set<ElementId>, pending: seq<ElementId>, actor: Actor): Store {
    Store(map[1 := Element(actor, 0, false)], owner, pending, [], [], byActor)
  }

  const EMPTY_STORE := Store(map[], {}, [], [1], [], map[])

  // s' is what thread 1's uninterrupted call of MarkPropElement makes of s.
  ghost predicate MarksInto(s: System, actor: Actor, s': System) {
    && Enabled(s, MarkStart(1, actor, 0, true))
    && var checked := StartMark(s, 1, actor, 0, true);
    WorkOf(checked, 1).Checked?
    && var registered := AllocForMark(checked, 1);
    WorkOf(registered, 1).Registered?
    && var installed := InstallForMark(registered, 1);
    WorkOf(installed, 1).Installed? && CommitMark(installed, 1) == s'
  }

  lemma MarkAloneBinds(calls: map<nat, Call>, live: set<(Actor, int)>, history: seq<Event>, actor: Actor)
    requires 1 !in calls && actor != NULL && (actor, 0) in live
    ensures MarksInto(System(EMPTY_STORE, calls, live, history), actor,
                      System(OneId(map[actor := 1], {1}, [], actor), calls, live, history + [Allocated(1)]))
  {
    var s1 := StartMark(System(EMPTY_STORE, calls, live, history), 1, actor, 0, true);
    var s2 := AllocForMark(s1, 1);
    assert AllocId(EMPTY_STORE, true, Element(actor, 0, false)) == (OneId(map[], {}, [], actor), 1);
    var s3 := InstallForMark(s2, 1);
    var s4 := CommitMark(s3, 1);
    assert s4.calls == calls;
    assert s4.store.byActor == map[actor := 1];
  }

  // Nothing has been called yet; thread 1 is about to bind the Element it made for 10; it has.
  const START := System(EMPTY_STORE, map[], {(10, 0), (20, 0)}, [])
  const MARKING := System(OneId(map[], {1}, [], 10), map[1 := Call(Installed(10, 0, 1), [])], {(10, 0), (20, 0)},
      [Allocated(1)])
  const MARKED := System(OneId(map[10 := 1], {1}, [], 10), map[], {(10, 0), (20, 0)}, [Allocated(1)])
  const PAUSED := System(OneId(map[], {}, [1], 10), map[2 := Call(Claimed(1), [])], {(20, 0)}, [Allocated(1)])

  const ROW := Pair(1, Element(10, 0, false))
  const STOPPED := System(OneId(map[], {1}, [], 10), map[0 := Call(Between, [ROW]), 2 := Call(Claimed(1), [])],
                          {(20, 0)}, [Allocated(1)])

  lemma RunOne(s: System, st: Step, rest: seq<Step>, s': System)
    requires Enabled(s, st) && Run(Apply(s, st), rest, s')
    ensures Run(s, [st] + rest, s')
  {
    assert ([st] + rest)[1..] == rest;
  }

  lemma {:induction false} RunsCompose(s: System, xs: seq<Step>, m: System, ys: seq<Step>, s': System)
    requires Run(s, xs, m) && Run(m, ys, s')
    ensures Run(s, xs + ys, s')
    decreases |xs|
  {
    if xs == [] {
      assert xs + ys == ys;
    } else {
      RunsCompose(Apply(s, xs[0]), xs[1..], m, ys, s');
      assert (xs + ys)[1..] == xs[1..] + ys;
    }
  }

  ghost predicate Leads(s: System, s': System) { exists steps :: Run(s, steps, s') }

  lemma LeadsThrough(s: System, m: System, s': System)
    requires Leads(s, m) && Leads(m, s')
    ensures Leads(s, s')
  {
    var xs :| Run(s, xs, m);
    var ys :| Run(m, ys, s');
    RunsCompose(s, xs, m, ys, s');
  }

  lemma MarkingIsReached()
    ensures Initial(START, {1}) && Leads(START, MARKING)
  {
    assert [1][0] == 1;
    var s1 := START.(calls := map[1 := Call(Checked(10, 0, true), [])]);
    var s2 := System(OneId(map[], {}, [], 10), map[1 := Call(Registered(10, 0, 1), [])], START.live, [Allocated(1)]);
    assert Apply(START, MarkStart(1, 10, 0, true)) == s1;
    assert AllocId(EMPTY_STORE, true, Element(10, 0, false)) == (OneId(map[], {}, [], 10), 1);
    assert Apply(s1, MarkAlloc(1)) == s2;
    assert Apply(s2, MarkInstall(1)) == MARKING;
    RunOne(s2, MarkInstall(1), [], MARKING);
    RunOne(s1, MarkAlloc(1), [MarkInstall(1)], MARKING);
    RunOne(START, MarkStart(1, 10, 0, true), [MarkAlloc(1), MarkInstall(1)], MARKING);
  }

  lemma MarkedFollows()
    ensures Leads(MARKING, MARKED)
  {
    assert Apply(MARKING, MarkCommit(1)) == MARKED;
    RunOne(MARKING, MarkCommit(1), [], MARKED);
  }

  // 10 is purged, a reap takes its snapshot, and thread 2 stops between the two locks of Unmark(10).
  lemma StoppedIsReached()
    ensures Leads(MARKED, STOPPED)
  {
    var s1 := MARKED.(live := {(20, 0)});
    var s2 := s1.(calls := map[0 := Call(Between, [ROW])]);
    assert Apply(MARKED, World({(20, 0)})) == s1;
    assert Apply(s1, ReapStart([ROW])) == s2;
    assert StartUnmark(s2, 2, 10) == STOPPED;
    RunOne(s2, UnmarkStart(2, 10), [], STOPPED);
    RunOne(s1, ReapStart([ROW]), [UnmarkStart(2, 10)], STOPPED);
    RunOne(MARKED, World({(20, 0)}), [ReapStart([ROW]), UnmarkStart(2, 10)], STOPPED);
  }

  // The reap visits the row, Takes the Element and parks it.
  lemma PausedFollows()
    ensures Leads(STOPPED, PAUSED)
  {
    var s4 := STOPPED.(calls := map[0 := Call(Claimed(1), []), 2 := Call(Claimed(1), [])]);
    var s5 := System(OneId(map[], {}, [], 10), map[0 := Call(Taken(1), []), 2 := Call(Claimed(1), [])], {(20, 0)},
        [Allocated(1)]);
    assert [ROW][1..] == [];
    assert VisitRow(STOPPED, 0) == s4;
    assert TakeClaimed(s4, 0) == s5;
    assert s5.calls - {0} == PAUSED.calls;
    assert EnqueueTaken(s5, 0) == PAUSED;
    RunOne(s5, EnqueueStep(0), [], PAUSED);
    RunOne(s4, TakeStep(0), [EnqueueStep(0)], PAUSED);
    RunOne(STOPPED, ReapPair(0), [TakeStep(0), EnqueueStep(0)], PAUSED);
  }

  // From the start, every step up to PAUSED is allowed.
  lemma PausedIsReached()
    ensures Initial(START, {1}) && Leads(START, PAUSED)
  {
    MarkingIsReached();
    MarkedFollows();
    StoppedIsReached();
    PausedFollows();
    LeadsThrough(START, MARKING, MARKED);
    LeadsThrough(START, MARKED, STOPPED);
    LeadsThrough(START, STOPPED, PAUSED);
  }

  // Only a Flush now, with thread 2 still in flight, lets thread 2 Take the id after it was issued
  // again for 20: the entry for the live prop 20 then names an id nobody owns.
  lemma WithoutBarrierAnEntryDangles()
    ensures SomeNamesParked(PAUSED)
    ensures FlushAll(PAUSED) == System(EMPTY_STORE, PAUSED.calls, PAUSED.live, FlushAll(PAUSED).history)
    ensures
      var reissued := System(OneId(map[20 := 1], {1}, [], 20), PAUSED.calls, PAUSED.live,
                             FlushAll(PAUSED).history + [Allocated(1)]);
      && MarksInto(FlushAll(PAUSED), 20, reissued)
      && WorkOf(reissued, 2) == Claimed(1)
      && TakeClaimed(reissued, 2).store.byActor == map[20 := 1] && TakeClaimed(reissued, 2).store.owner == {}
  {
    assert 2 in PAUSED.calls && NamesParked(PAUSED.store, PAUSED.calls[2]);
    var parked := PAUSED.store.(pending := []);
    assert [1][1..] == [];
    assert FreeAll(parked, [1]) == FreeAll(FreeId(parked, 1), []);
    assert FreeId(parked, 1) == EMPTY_STORE;
    MarkAloneBinds(PAUSED.calls, PAUSED.live, FlushAll(PAUSED).history, 20);
  }

  // A reaper that sees the actor of an in-flight Mark as dead Takes the Element the Mark then binds.
  // MARKING is reached from the start; only the actor's death is not an allowed step.
  lemma DeadDuringMarkAnEntryDangles()
    ensures
      var scan := MARKING.(live := {(20, 0)}, calls := MARKING.calls[0 := Call(Between, [ROW])]);
      var reaped := EnqueueTaken(TakeClaimed(VisitRow(scan, 0), 0), 0);
      && !Enabled(MARKING, World({(20, 0)}))
      && reaped.calls == MARKING.calls
      && CommitMark(reaped, 1).store.byActor == map[10 := 1] && CommitMark(reaped, 1).store.owner == {}
  {
    assert MarkInFlight(MARKING.calls[1], (10, 0));
  }
}
