// The reap part of net_pump's Tick: flush, throttled scan, purge episode, re-seed, re-snapshot.

module PumpSpec {
  import opened PropStore
  import opened PropTracking
  import opened SnapshotSpec
  import opened PropElementTrackers

  const EVICT_CAP: nat := 256
  const RESEED_PURGE: nat := 64
  const SCAN_PERIOD: int := 4000

  // The engine and the session as one tick sees them.
  datatype World = World(
    live: set<(Actor, int)>,
    objects: seq<Object>,
    still: set<Actor>,
    syncable: set<Actor>,
    session: bool,
    connected: set<int>,
    ready: set<int>)

  datatype Pump = Pump(store: Store, known: set<Actor>, episode: bool, drain: Drain)

  function EnvOf(store: Store, w: World): Env {
    Env(store.registry, w.live, w.syncable, w.session, w.connected, w.ready)
  }

  // Re-snapshot every ready client slot from `slot` up.
  function TriggerReady(d: Drain, slot: nat, maxPeers: nat, env: Env): Drain
    decreases maxPeers - slot
  {
    if slot >= maxPeers then d
    else TriggerReady(if slot in env.ready then Trigger(d, slot, env, true, maxPeers) else d, slot + 1, maxPeers, env)
  }

  function ReSeed(p: Pump, w: World, isHost: bool, maxPeers: nat): Pump {
    var found := LiveObjects(w.objects);
    var store := MarkAll(p.store, found, w.still, isHost);
    var known := KnownAfter(p.known, found);
    var drain := if |known| > |p.known| && isHost then TriggerReady(p.drain, 1, maxPeers, EnvOf(store, w)) else p.drain;
    Pump(store, known, false, drain)
  }

  function AfterReap(p: Pump, w: World): Pump {
    var ids := Victims(p.store.registry, w.live, EVICT_CAP);
    p.(store := Evicted(p.store, ids), known := p.known - PropElementTracker.EntriesOf(p.store, ids))
  }

  // One reap; the flag says that the re-seed fired.
  function Scan(p: Pump, w: World, isHost: bool, maxPeers: nat): (r: (Pump, bool)) {
    var ids := Victims(p.store.registry, w.live, EVICT_CAP);
    var reaped := AfterReap(p, w);
    if |ids| >= RESEED_PURGE then (reaped.(episode := true), false)
    else if p.episode then (ReSeed(reaped, w, isHost, maxPeers), true)
    else (reaped, false)
  }

  function FlushThenScan(p: Pump, w: World, isHost: bool, maxPeers: nat): (r: (Pump, bool)) {
    Scan(p.(store := Flush(p.store)), w, isHost, maxPeers)
  }

  // ---- Snapshot completeness ----

  predicate Syncs(o: Object, still: set<Actor>) {
    o.actor != NULL && o.keyed && !o.cdo && o.live && o.realKey && o.actor in still
  }

  // When the scan that ends a purge episode has re-seeded, every live keyed prop with a real key has
  // a live local Element and any enumeration started then lists it, whatever address it reuses.
  lemma SnapshotIsComplete(p: Pump, w: World, isHost: bool, maxPeers: nat, pool: set<ElementId>)
    requires Settled(p.store, pool) && Coherent(w.objects, w.still, w.live)
    requires FlushThenScan(p, w, isHost, maxPeers).1
    requires
      var reaped := AfterReap(p.(store := Flush(p.store)), w).store;
      |FreeStack(reaped, isHost)| >= |Needs(reaped, LiveObjects(w.objects), w.still)|
    ensures
      var store := FlushThenScan(p, w, isHost, maxPeers).0.store;
      && Settled(store, pool)
      && (forall o | o in w.objects && Syncs(o, w.still) ::
            && Synced(store, o, w.live)
            && exists c :: c in Candidates(EnvOf(store, w)) && c.actor == o.actor && c.id == store.byActor[o.actor])
  {
    var flushed := Flush(p.store);
    FlushKeepsBacklog(p.store, w.live, pool);
    var ids := Victims(flushed.registry, w.live, EVICT_CAP);
    ReapDrains(flushed, w.live, EVICT_CAP, pool);
    ReapEvicts(flushed, w.live, EVICT_CAP, pool);
    var drained := Evicted(flushed, ids);
    ReSeedAddsNoDead(drained, w.objects, w.still, w.live, isHost, pool);
    ReSeedIsComplete(drained, w.objects, w.still, w.live, isHost, pool);
    var store := MarkAll(drained, LiveObjects(w.objects), w.still, isHost);
    forall o | o in w.objects && Syncs(o, w.still)
      ensures exists c :: c in Candidates(EnvOf(store, w)) && c.actor == o.actor && c.id == store.byActor[o.actor]
    {
      Listed(store, o, w, pool);
    }
  }

  lemma Listed(store: Store, o: Object, w: World, pool: set<ElementId>)
    requires Settled(store, pool) && o.actor != NULL && Synced(store, o, w.live)
    ensures exists c :: c in Candidates(EnvOf(store, w)) && c.actor == o.actor && c.id == store.byActor[o.actor]
  {
    var e := store.byActor[o.actor];
    var row := Pair(e, store.registry[e]);
    RowsAre(store.registry, 0);
    EnumerateIff(Rows(store.registry, 0), w.live);
    assert AsCandidate(row) in Candidates(EnvOf(store, w));
  }

  // ---- The per-slot connection edges ----

  function EdgeAt(d: Drain, was: bool, slot: nat, env: Env, isHost: bool, maxPeers: nat): Drain {
    if was && slot !in env.ready then Cancel(d, slot, env)
    else if !was && slot in env.ready && isHost && slot >= 1 then Trigger(d, slot, env, isHost, maxPeers)
    else d
  }

  function Edges(d: Drain, was: seq<bool>, slot: nat, env: Env, isHost: bool): Drain
    decreases |was| - slot
  {
    if slot >= |was| then d else Edges(EdgeAt(d, was[slot], slot, env, isHost, |was|), was, slot + 1, env, isHost)
  }

  ghost predicate Waits(d: Drain, slot: int) { d.current == slot || slot in d.pending }

  lemma EdgeForgets(d: Drain, was: bool, slot: nat, env: Env, isHost: bool, maxPeers: nat, gone: nat)
    requires gone !in env.ready && (if slot == gone then was else !Waits(d, gone))
    ensures !Waits(EdgeAt(d, was, slot, env, isHost, maxPeers), gone)
  {
    CancelForgets(d, slot, env);
    WithoutFacts(d.pending, slot);
  }

  // After the edges of a tick no slot that has left waits for a snapshot or is being served, whichever
  // other slots left or arrived in the same tick.
  lemma {:induction false} EdgesForget(d: Drain, was: seq<bool>, slot: nat, env: Env, isHost: bool, gone: nat)
    requires gone < |was| && was[gone] && gone !in env.ready && slot <= |was| && (slot <= gone || !Waits(d, gone))
    ensures !Waits(Edges(d, was, slot, env, isHost), gone)
    decreases |was| - slot
  {
    if slot < |was| {
      if slot >= gone {
        EdgeForgets(d, was[slot], slot, env, isHost, |was|, gone);
      }
      EdgesForget(EdgeAt(d, was[slot], slot, env, isHost, |was|), was, slot + 1, env, isHost, gone);
    }
  }

  lemma EdgeKeepsWaiting(d: Drain, was: bool, slot: nat, env: Env, maxPeers: nat, s: nat)
    requires env.session && s in env.ready && s in env.connected && 1 <= s < maxPeers
    requires if slot == s then !was else Waits(d, s)
    ensures Waits(EdgeAt(d, was, slot, env, true, maxPeers), s)
  {
    WithoutFacts(d.pending, slot);
    var kept := Without(d.pending, slot);
    if kept != [] { assert kept == [kept[0]] + kept[1..]; }
  }

  // A client slot that has just become ready waits for its snapshot or is being served after the edges.
  lemma {:induction false} EdgesEnqueue(d: Drain, was: seq<bool>, slot: nat, env: Env, s: nat)
    requires env.session && s in env.ready && s in env.connected && 1 <= s < |was| && !was[s] && slot <= |was|
    requires slot <= s || Waits(d, s)
    ensures Waits(Edges(d, was, slot, env, true), s)
    decreases |was| - slot
  {
    if slot < |was| {
      if slot >= s { EdgeKeepsWaiting(d, was[slot], slot, env, |was|, s); }
      EdgesEnqueue(EdgeAt(d, was[slot], slot, env, true, |was|), was, slot + 1, env, s);
    }
  }

  // A slot gains a place only at its own edge, and a waiting one loses it only if it has left or is not
  // connected when its turn comes.
  lemma EdgeIsOwn(d: Drain, was: bool, slot: nat, env: Env, isHost: bool, maxPeers: nat, s: nat)
    ensures
      var e := EdgeAt(d, was, slot, env, isHost, maxPeers);
      && (Waits(e, s) && !Waits(d, s) ==> s == slot && !was && slot in env.ready && isHost && 1 <= slot < maxPeers)
      && (Waits(d, s) && !Waits(e, s) ==>
            (s == slot && was && slot !in env.ready) || !env.session || s !in env.connected)
      && (was == (slot in env.ready) ==> e == d)
  {
    WithoutFacts(d.pending, slot);
    var kept := Without(d.pending, slot);
    if kept != [] { assert kept == [kept[0]] + kept[1..]; }
  }

  // Over the whole loop: slots whose flag did not change are left alone.
  lemma {:induction false} EdgesAreOwn(d: Drain, was: seq<bool>, slot: nat, env: Env, isHost: bool, s: nat)
    requires slot <= |was|
    ensures
      var e := Edges(d, was, slot, env, isHost);
      && (Waits(e, s) && !Waits(d, s) ==> slot <= s < |was| && !was[s] && s in env.ready && isHost && s >= 1)
      && (Waits(d, s) && !Waits(e, s) ==>
            (slot <= s < |was| && was[s] && s !in env.ready) || !env.session || s !in env.connected)
      && ((forall k :: slot <= k < |was| ==> was[k] == (k in env.ready)) ==> e == d)
    decreases |was| - slot
  {
    if slot < |was| {
      EdgeIsOwn(d, was[slot], slot, env, isHost, |was|, s);
      EdgesAreOwn(EdgeAt(d, was[slot], slot, env, isHost, |was|), was, slot + 1, env, isHost, s);
    }
  }

  // ---- The re-snapshot of the connected clients ----

  // Every ready slot waits or is being served, no other slot gains a place, and the queue keeps its order;
  // a drain in progress goes on as it was.
  lemma {:induction false} ReadySlotsServed(d: Drain, slot: nat, maxPeers: nat, env: Env)
    requires env.session && slot >= 1
    ensures
      var e := TriggerReady(d, slot, maxPeers, env);
      && (forall s: nat :: slot <= s < maxPeers && s in env.ready ==> Waits(e, s))
      && (forall s: nat :: Waits(e, s) && !Waits(d, s) ==> slot <= s < maxPeers && s in env.ready)
      && d.pending <= e.pending
      && (d.current != NO_SLOT ==> e == d.(pending := e.pending))
      && (d.current == NO_SLOT && e.current != NO_SLOT ==>
            e.cursor == 0 && e.candidates == Candidates(env) && slot <= e.current < maxPeers && e.current in env.ready)
    decreases maxPeers - slot
  {
    if slot < maxPeers {
      var d1 := if slot in env.ready then Trigger(d, slot, env, true, maxPeers) else d;
      var e := TriggerReady(d1, slot + 1, maxPeers, env);
      ReadySlotsServed(d1, slot + 1, maxPeers, env);
      assert slot in env.ready ==> Waits(d1, slot);
      forall s: nat | Waits(d1, s) ensures Waits(e, s) {
        if s in d1.pending {
          var i :| 0 <= i < |d1.pending| && d1.pending[i] == s;
          assert e.pending[i] == s;
        }
      }
    }
  }

  // The scan that ends a purge episode on a host re-snapshots every ready client slot if an address was
  // new to the known set; any other scan leaves the drain as it was.
  lemma FiringReSnapshots(p: Pump, w: World, isHost: bool, maxPeers: nat)
    requires w.session
    ensures
      var reaped := AfterReap(p.(store := Flush(p.store)), w);
      var (q, fired) := FlushThenScan(p, w, isHost, maxPeers);
      var grew := |reaped.known| < TRACKER_CAP && exists o :: o in LiveObjects(w.objects) && o.actor !in reaped.known;
      && (fired && isHost && grew ==>
            && (forall s: nat :: 1 <= s < maxPeers && s in w.ready ==> Waits(q.drain, s))
            && (forall s: nat :: Waits(q.drain, s) && !Waits(p.drain, s) ==> 1 <= s < maxPeers && s in w.ready)
            && p.drain.pending <= q.drain.pending
            && (p.drain.current != NO_SLOT ==> q.drain == p.drain.(pending := q.drain.pending)))
      && (!(fired && isHost && grew) ==> q.drain == p.drain)
  {
    var reaped := AfterReap(p.(store := Flush(p.store)), w);
    var (q, fired) := FlushThenScan(p, w, isHost, maxPeers);
    var found := LiveObjects(w.objects);
    AddedIsZeroIff(reaped.known, found);
    if KnownAfter(reaped.known, found) != reaped.known {
      GrowsWhenDifferent(reaped.known, KnownAfter(reaped.known, found));
    }
    ReadySlotsServed(p.drain, 1, maxPeers, EnvOf(q.store, w));
  }

  // A scan below its cap forgets exactly the known addresses whose Element is dead.
  lemma ReapForgetsDead(p: Pump, w: World, pool: set<ElementId>)
    requires Settled(p.store, pool) && p.store.pending == [] && |Backlog(p.store, w.live)| < EVICT_CAP
    ensures forall a :: a in AfterReap(p, w).known <==>
              a in p.known && !(a in p.store.byActor && Dead(p.store.registry[p.store.byActor[a]], w.live))
  {
    VictimsAreDead(p.store.registry, w.live, EVICT_CAP);
    ReapDrains(p.store, w.live, EVICT_CAP, pool);
    var ids := Victims(p.store.registry, w.live, EVICT_CAP);
    forall a | a in p.store.byActor
      ensures p.store.byActor[a] in ids <==> Dead(p.store.registry[p.store.byActor[a]], w.live)
    {
      assert p.store.byActor[a] in p.store.registry;
    }
  }

  // ---- How long a purge takes to drain ----

  // n scans in a world where nothing more dies; the flag is whether the last one fired.
  function Scans(p: Pump, w: World, isHost: bool, maxPeers: nat, n: nat): (r: (Pump, bool)) {
    if n == 0 then (p, false)
    else FlushThenScan(Scans(p, w, isHost, maxPeers, n - 1).0, w, isHost, maxPeers)
  }

  function Left(d: nat, n: nat): nat {
    if d > EVICT_CAP * n then d - EVICT_CAP * n else 0
  }

  function Reaped(d: nat, n: nat): nat {
    if Left(d, n) <= EVICT_CAP then Left(d, n) else EVICT_CAP
  }

  lemma ScanEffect(p: Pump, w: World, isHost: bool, maxPeers: nat, pool: set<ElementId>)
    requires Settled(p.store, pool) && Coherent(w.objects, w.still, w.live)
    ensures
      var d := |Backlog(p.store, w.live)|;
      var (q, fired) := FlushThenScan(p, w, isHost, maxPeers);
      && Settled(q.store, pool)
      && |Backlog(q.store, w.live)| == Left(d, 1)
      && q.episode == (Reaped(d, 0) >= RESEED_PURGE)
      && fired == (p.episode && Reaped(d, 0) < RESEED_PURGE)
  {
    var flushed := Flush(p.store);
    FlushKeepsBacklog(p.store, w.live, pool);
    var ids := Victims(flushed.registry, w.live, EVICT_CAP);
    ReapDrains(flushed, w.live, EVICT_CAP, pool);
    ReapEvicts(flushed, w.live, EVICT_CAP, pool);
    ReSeedAddsNoDead(Evicted(flushed, ids), w.objects, w.still, w.live, isHost, pool);
  }

  lemma {:induction false} ScansDrain(p: Pump, w: World, isHost: bool, maxPeers: nat, pool: set<ElementId>, n: nat)
    requires Settled(p.store, pool) && Coherent(w.objects, w.still, w.live) && !p.episode
    ensures
      var d := |Backlog(p.store, w.live)|;
      var (q, fired) := Scans(p, w, isHost, maxPeers, n);
      && Settled(q.store, pool)
      && |Backlog(q.store, w.live)| == Left(d, n)
      && q.episode == (n > 0 && Reaped(d, n - 1) >= RESEED_PURGE)
      && fired == (n > 1 && Reaped(d, n - 2) >= RESEED_PURGE && Reaped(d, n - 1) < RESEED_PURGE)
    decreases n
  {
    if n > 0 {
      ScansDrain(p, w, isHost, maxPeers, pool, n - 1);
      ScanEffect(Scans(p, w, isHost, maxPeers, n - 1).0, w, isHost, maxPeers, pool);
    }
  }

  function FiringScan(d: nat): nat {
    d / EVICT_CAP + 1 + if d % EVICT_CAP >= RESEED_PURGE then 1 else 0
  }

  // The scan that re-seeds after 64, 255, 256 and 319 dead is the second, after 320 the third.
  lemma FiringInNumbers()
    ensures FiringScan(64) == FiringScan(255) == FiringScan(256) == FiringScan(319) == 2 && FiringScan(320) == 3
  {
  }

  // D dead Elements, D >= 64: every scan up to floor(D / 256) + 1 evicts all it may, nothing dead is
  // left from then on, and exactly one scan re-seeds.  For D < 64 none does.
  lemma PurgeDrainBound(p: Pump, w: World, isHost: bool, maxPeers: nat, pool: set<ElementId>, n: nat)
    requires Settled(p.store, pool) && Coherent(w.objects, w.still, w.live) && !p.episode && n > 0
    ensures
      var d := |Backlog(p.store, w.live)|;
      var (q, fired) := Scans(p, w, isHost, maxPeers, n);
      && (fired <==> d >= RESEED_PURGE && n == FiringScan(d))
      && (n > d / EVICT_CAP ==> Backlog(q.store, w.live) == {})
      && (d >= RESEED_PURGE && n >= FiringScan(d) ==> !q.episode)
  {
    ScansDrain(p, w, isHost, maxPeers, pool, n);
    var d := |Backlog(p.store, w.live)|;
    assert d == EVICT_CAP * (d / EVICT_CAP) + d % EVICT_CAP;
    if n > d / EVICT_CAP { assert EVICT_CAP * n >= EVICT_CAP * (d / EVICT_CAP + 1); }
  }
}

module NetPumps {
  import opened PropStore
  import opened PropTracking
  import opened SnapshotSpec
  import opened PropElementTrackers
  import opened PropSnapshots
  import opened PumpSpec

  class NetPump {
    const tracker: PropElementTracker
    const snapshot: PropSnapshot
    var nextReap: int
    var inPurgeEpisode: bool
    var wasConnected: seq<bool>

    constructor (tracker: PropElementTracker, snapshot: PropSnapshot)
      ensures this.tracker == tracker && this.snapshot == snapshot && nextReap == 0 && !inPurgeEpisode
      ensures wasConnected == seq(snapshot.maxPeers, _ => false)
    {
      this.tracker, this.snapshot, nextReap, inPurgeEpisode := tracker, snapshot, 0, false;
      wasConnected := seq(snapshot.maxPeers, _ => false);
    }

    ghost function State(): Pump
      requires snapshot.InStep()
      reads this, tracker, snapshot
    {
      Pump(tracker.store, tracker.known, inPurgeEpisode, snapshot.State())
    }

    method TriggerReadySlots(env: Env)
      requires snapshot.InStep() && snapshot.isHost
      modifies snapshot
      ensures snapshot.InStep() && snapshot.State() == TriggerReady(old(snapshot.State()), 1, snapshot.maxPeers, env)
    {
      var slot := 1;
      while slot < snapshot.maxPeers
        invariant 1 <= slot && snapshot.InStep()
        invariant TriggerReady(snapshot.State(), slot, snapshot.maxPeers, env) ==
                  TriggerReady(old(snapshot.State()), 1, snapshot.maxPeers, env)
      {
        if slot in env.ready { snapshot.TriggerForSlot(slot, env); }
        slot := slot + 1;
      }
    }

    // The snapshot's part of the edge loop.
    method SlotEdges(env: Env)
      requires snapshot.InStep() && |wasConnected| == snapshot.maxPeers
      modifies this`wasConnected, snapshot
      ensures snapshot.InStep()
          && snapshot.State() == Edges(old(snapshot.State()), old(wasConnected), 0, env, snapshot.isHost)
      ensures wasConnected == seq(snapshot.maxPeers, slot => slot in env.ready)
    {
      var slot := 0;
      while slot < |wasConnected|
        invariant 0 <= slot <= |wasConnected| == snapshot.maxPeers && snapshot.InStep()
        invariant forall k | 0 <= k < slot :: wasConnected[k] == (k in env.ready)
        invariant forall k | slot <= k < |wasConnected| :: wasConnected[k] == old(wasConnected)[k]
        invariant Edges(snapshot.State(), old(wasConnected), slot, env, snapshot.isHost) ==
                  Edges(old(snapshot.State()), old(wasConnected), 0, env, snapshot.isHost)
      {
        var slotConnected := slot in env.ready;
        if wasConnected[slot] && !slotConnected { snapshot.CancelForSlot(slot, env); }
        if !wasConnected[slot] && slotConnected {
          if snapshot.isHost && slot >= 1 { snapshot.TriggerForSlot(slot, env); }
        }
        wasConnected := wasConnected[slot := slotConnected];
        slot := slot + 1;
      }
    }

    method ReapTick(now: int, w: World, ghost pool: set<ElementId>)
      requires snapshot.InStep() && Settled(tracker.store, pool) && tracker.isHost == snapshot.isHost
      modifies this`nextReap, this`inPurgeEpisode, tracker, snapshot
      ensures snapshot.InStep() && Settled(tracker.store, pool) && tracker.isHost == old(tracker.isHost)
      ensures nextReap == if now >= old(nextReap) then now + SCAN_PERIOD else old(nextReap)
      ensures
        var flushed := old(State()).(store := Flush(old(tracker.store)));
        State() == if now >= old(nextReap) then Scan(flushed, w, snapshot.isHost, snapshot.maxPeers).0 else flushed
    {
      tracker.FlushDeleter();
      SettledIsTidy(tracker.store, pool);
      if now >= nextReap {
        nextReap := now + SCAN_PERIOD;
        var reaped := tracker.ReapDeadLocalPropElements(EVICT_CAP, w.live);
        if reaped >= RESEED_PURGE {
          if !inPurgeEpisode { inPurgeEpisode := true; }
        } else if inPurgeEpisode {
          inPurgeEpisode := false;
          WalkSettles(tracker.store, w.objects, w.still, tracker.isHost);
          var _, added := tracker.SeedWalk(w.objects, w.still);
          if added > 0 && snapshot.isHost { TriggerReadySlots(EnvOf(tracker.store, w)); }
        }
      }
    }
  }
}
