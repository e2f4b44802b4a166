// The late-joiner snapshot: one drain at a time, 100 candidates a tick, other slots queued.
// SnapshotSpec is the state as a value; class PropSnapshot is the program's in-place form.

module SnapshotSpec {
  import opened PropStore

  const CHUNK: nat := 100
  const NO_SLOT: int := -1

  // What a call can read of the world: the Registry, liveness by index, which actors have a real key
  // and a class that may cross the wire, and the session's slot flags.
  datatype Env = Env(
    registry: map<ElementId, Element>,
    live: set<(Actor, int)>,
    syncable: set<Actor>,
    session: bool,
    connected: set<int>,
    ready: set<int>)

  datatype Candidate = Candidate(actor: Actor, id: ElementId, index: int)

  datatype Drain = Drain(candidates: seq<Candidate>, cursor: nat, current: int, pending: seq<int>)

  datatype Sent = Sent(slot: int, candidate: Candidate)

  function AsCandidate(p: Pair): Candidate {
    Candidate(p.element.actor, p.id, p.element.index)
  }

  predicate Alive(c: Candidate, live: set<(Actor, int)>) {
    c.actor != NULL && (c.actor, c.index) in live
  }

  predicate Sendable(c: Candidate, env: Env) {
    Alive(c, env.live) && c.actor in env.syncable
  }

  function Enumerate(rows: seq<Pair>, live: set<(Actor, int)>): seq<Candidate> {
    if rows == [] then []
    else
      var c := AsCandidate(rows[|rows| - 1]);
      Enumerate(rows[..|rows| - 1], live) + if Alive(c, live) then [c] else []
  }

  function Candidates(env: Env): seq<Candidate> {
    Enumerate(Rows(env.registry, 0), env.live)
  }

  function Start(d: Drain, slot: int, env: Env): Drain {
    d.(candidates := Candidates(env), cursor := 0, current := slot)
  }

  function Trigger(d: Drain, slot: int, env: Env, isHost: bool, maxPeers: nat): Drain {
    if !env.session || !isHost || slot < 1 || slot >= maxPeers || slot !in env.ready then d
    else if d.current != NO_SLOT then
      if slot in d.pending then d else d.(pending := d.pending + [slot])
    else Start(d, slot, env)
  }

  // The current drain is over; the first queued slot is served if it is still connected.
  function Next(d: Drain, env: Env): Drain {
    var idle := d.(candidates := [], cursor := 0, current := NO_SLOT);
    if d.pending == [] then idle
    else
      var rest := idle.(pending := d.pending[1..]);
      if env.session && d.pending[0] in env.connected then Start(rest, d.pending[0], env) else rest
  }

  function Without(slots: seq<int>, slot: int): seq<int> {
    if slots == [] then []
    else (if slots[0] == slot then [] else [slots[0]]) + Without(slots[1..], slot)
  }

  function Cancel(d: Drain, slot: int, env: Env): Drain {
    var kept := d.(pending := Without(d.pending, slot));
    if d.current != slot then kept else Next(kept, env)
  }

  function SendAll(slot: int, rows: seq<Candidate>, env: Env): seq<Sent> {
    if rows == [] then []
    else
      SendAll(slot, rows[..|rows| - 1], env) +
      if Sendable(rows[|rows| - 1], env) then [Sent(slot, rows[|rows| - 1])] else []
  }

  function Limit(d: Drain): nat {
    if d.cursor + CHUNK <= |d.candidates| then d.cursor + CHUNK else |d.candidates|
  }

  function Chunk(d: Drain, env: Env): (r: (Drain, seq<Sent>)) {
    if d.current == NO_SLOT || d.cursor >= |d.candidates| || !env.session then (d, [])
    else if d.current !in env.connected then (Cancel(d, d.current, env), [])
    else
      var sent := SendAll(d.current, d.candidates[d.cursor..Limit(d)], env);
      (if Limit(d) >= |d.candidates| then Next(d, env) else d.(cursor := Limit(d)), sent)
  }

  // ---- The queue ----

  lemma NoDupCons(x: int, s: seq<int>)
    requires NoDup(s) && x !in s
    ensures NoDup([x] + s)
  {
  }

  lemma {:induction false} WithoutFacts(slots: seq<int>, slot: int)
    ensures forall x :: x in Without(slots, slot) <==> x in slots && x != slot
    ensures NoDup(slots) ==> NoDup(Without(slots, slot))
    decreases |slots|
  {
    if slots != [] {
      var rest := slots[1..];
      WithoutFacts(rest, slot);
      assert slots == [slots[0]] + rest;
      if NoDup(slots) {
        forall i, j | 0 <= i < j < |rest| ensures rest[i] != rest[j] { assert slots[i + 1] != slots[j + 1]; }
        if slots[0] != slot { NoDupCons(slots[0], Without(rest, slot)); }
      }
    }
  }

  lemma NextPending(d: Drain, env: Env)
    ensures Next(d, env).pending == if d.pending == [] then [] else d.pending[1..]
    ensures NoDup(d.pending) ==> NoDup(Next(d, env).pending)
  {
  }

  // No call ever makes a slot queue twice.
  lemma PendingStaysDistinct(d: Drain, slot: int, env: Env, isHost: bool, maxPeers: nat)
    requires NoDup(d.pending)
    ensures NoDup(Trigger(d, slot, env, isHost, maxPeers).pending)
    ensures NoDup(Cancel(d, slot, env).pending)
    ensures NoDup(Chunk(d, env).0.pending)
  {
    WithoutFacts(d.pending, slot);
    WithoutFacts(d.pending, d.current);
    NextPending(d, env);
    NextPending(d.(pending := Without(d.pending, slot)), env);
    NextPending(d.(pending := Without(d.pending, d.current)), env);
  }

  // After a cancel the slot is neither queued nor served; the others keep their order, and at most
  // the first of them leaves the queue, when the cancelled slot was being served.
  lemma CancelForgets(d: Drain, slot: int, env: Env)
    requires slot != NO_SLOT
    ensures
      var c := Cancel(d, slot, env);
      var kept := Without(d.pending, slot);
      && slot !in c.pending && c.current != slot
      && (forall x :: x in kept <==> x in d.pending && x != slot)
      && (if d.current != slot || kept == [] then c.pending == kept else c.pending == kept[1..])
      && (c.current == d.current || c.current == NO_SLOT || (kept != [] && c.current == kept[0]))
  {
    WithoutFacts(d.pending, slot);
    var kept := Without(d.pending, slot);
    if kept != [] { assert kept[0] in kept; assert forall x :: x in kept[1..] ==> x in kept; }
  }

  // ---- A drain is a one-shot send spread over ceil(n / 100) ticks ----

  function Ticks(d: Drain, envs: seq<Env>): (r: (Drain, seq<Sent>))
    decreases |envs|
  {
    if envs == [] then (d, [])
    else
      var (d1, sent) := Ticks(d, envs[..|envs| - 1]);
      var (d2, more) := Chunk(d1, envs[|envs| - 1]);
      (d2, sent + more)
  }

  function CeilChunks(n: nat): nat { (n + CHUNK - 1) / CHUNK }

  // Candidate j is judged in the world of tick j / 100.
  function OneShot(slot: int, rows: seq<Candidate>, envs: seq<Env>): seq<Sent>
    requires |rows| <= CHUNK * |envs|
  {
    if rows == [] then []
    else
      var j := |rows| - 1;
      OneShot(slot, rows[..j], envs) +
      if Sendable(rows[j], envs[j / CHUNK]) then [Sent(slot, rows[j])] else []
  }

  lemma ChunkOf(j: nat, t: nat)
    requires CHUNK * t <= j < CHUNK * (t + 1)
    ensures j / CHUNK == t
  {
  }

  lemma {:induction false} OneShotSplits(slot: int, rows: seq<Candidate>, envs: seq<Env>, t: nat)
    requires t < |envs| && CHUNK * t <= |rows| <= CHUNK * (t + 1)
    ensures OneShot(slot, rows, envs) ==
            OneShot(slot, rows[..CHUNK * t], envs) + SendAll(slot, rows[CHUNK * t..], envs[t])
    decreases |rows|
  {
    if |rows| == CHUNK * t {
      assert rows[..CHUNK * t] == rows;
      assert rows[CHUNK * t..] == [];
    } else {
      var j, n := |rows| - 1, CHUNK * t;
      var init, tail := rows[..j], rows[n..];
      OneShotSplits(slot, init, envs, t);
      assert init[..n] == rows[..n];
      assert tail[..|tail| - 1] == init[n..] && tail[|tail| - 1] == rows[j];
      ChunkOf(j, t);
    }
  }

  lemma OneShotIgnoresLater(slot: int, rows: seq<Candidate>, envs: seq<Env>, more: seq<Env>)
    requires |rows| <= CHUNK * |envs|
    ensures OneShot(slot, rows, envs + more) == OneShot(slot, rows, envs)
  {
  }

  // In a world that does not change meanwhile, that is one send of everything.
  lemma {:induction false} OneShotInOneWorld(slot: int, rows: seq<Candidate>, envs: seq<Env>, env: Env)
    requires |rows| <= CHUNK * |envs| && forall i :: 0 <= i < |envs| ==> envs[i] == env
    ensures OneShot(slot, rows, envs) == SendAll(slot, rows, env)
    decreases |rows|
  {
    if rows != [] { OneShotInOneWorld(slot, rows[..|rows| - 1], envs, env); }
  }

  ghost predicate Serves(envs: seq<Env>, slot: int) {
    forall env | env in envs :: env.session && slot in env.connected
  }

  lemma TickVisits(d: Drain, t: nat, env: Env)
    requires d.current != NO_SLOT && env.session && d.current in env.connected
    requires CHUNK * (t + 1) < |d.candidates|
    ensures Chunk(d.(cursor := CHUNK * t), env) ==
            (d.(cursor := CHUNK * (t + 1)), SendAll(d.current, d.candidates[CHUNK * t..CHUNK * (t + 1)], env))
  {
  }

  // While the target stays connected, t ticks have visited exactly the first 100 t candidates.
  lemma {:induction false} DrainProgress(d: Drain, envs: seq<Env>)
    requires d.current != NO_SLOT && d.cursor == 0 && Serves(envs, d.current)
    requires CHUNK * |envs| < |d.candidates|
    ensures Ticks(d, envs) == (d.(cursor := CHUNK * |envs|), OneShot(d.current, d.candidates[..CHUNK * |envs|], envs))
    decreases |envs|
  {
    if envs != [] {
      var t := |envs| - 1;
      var before := envs[..t];
      assert envs == before + [envs[t]] && envs[t] in envs;
      assert forall e | e in before :: e in envs;
      DrainProgress(d, before);
      TickVisits(d, t, envs[t]);
      SentSoFar(d.current, d.candidates[..CHUNK * (t + 1)], envs, t);
      assert d.candidates[..CHUNK * (t + 1)][..CHUNK * t] == d.candidates[..CHUNK * t];
      assert d.candidates[..CHUNK * (t + 1)][CHUNK * t..] == d.candidates[CHUNK * t..CHUNK * (t + 1)];
    }
  }

  // What the first t ticks sent, and what tick t adds.
  lemma SentSoFar(slot: int, rows: seq<Candidate>, envs: seq<Env>, t: nat)
    requires |envs| == t + 1 && CHUNK * t <= |rows| <= CHUNK * (t + 1)
    ensures OneShot(slot, rows, envs) ==
            OneShot(slot, rows[..CHUNK * t], envs[..t]) + SendAll(slot, rows[CHUNK * t..], envs[t])
  {
    OneShotSplits(slot, rows, envs, t);
    assert envs == envs[..t] + [envs[t]];
    OneShotIgnoresLater(slot, rows[..CHUNK * t], envs[..t], [envs[t]]);
  }

  // The whole drain: every candidate once, in order, to the target alone, valid when visited, over
  // in exactly ceil(n / 100) ticks; then the next queued slot is taken.
  lemma DrainIsOneShot(d: Drain, envs: seq<Env>)
    requires d.current != NO_SLOT && d.cursor == 0 && d.candidates != [] && Serves(envs, d.current)
    requires |envs| == CeilChunks(|d.candidates|)
    ensures Ticks(d, envs).1 == OneShot(d.current, d.candidates, envs)
    ensures Ticks(d, envs).0 == Next(d, envs[|envs| - 1])
  {
    var t := |envs| - 1;
    var before := envs[..t];
    assert envs == before + [envs[t]];
    assert forall e | e in before :: e in envs;
    DrainProgress(d, before);
    SentSoFar(d.current, d.candidates, envs, t);
    assert envs[t] in envs;
    LastTick(d, t, envs[t]);
  }

  lemma LastTick(d: Drain, t: nat, env: Env)
    requires d.current != NO_SLOT && env.session && d.current in env.connected
    requires CHUNK * t < |d.candidates| <= CHUNK * (t + 1)
    ensures Chunk(d.(cursor := CHUNK * t), env) == (Next(d, env), SendAll(d.current, d.candidates[CHUNK * t..], env))
  {
    var mid := d.(cursor := CHUNK * t);
    assert mid.candidates[CHUNK * t..Limit(mid)] == d.candidates[CHUNK * t..];
  }

  // ---- Queued slots are served in order, within a bound ----

  datatype Event = Tick(env: Env) | Ask(slot: int, env: Env) | Leave(slot: int, env: Env)

  function After(d: Drain, ev: Event, maxPeers: nat): Drain {
    match ev
    case Tick(env) => Chunk(d, env).0
    case Ask(slot, env) => Trigger(d, slot, env, true, maxPeers)
    case Leave(slot, env) => Cancel(d, slot, env)
  }

  function Run(d: Drain, events: seq<Event>, maxPeers: nat): Drain
    decreases |events|
  {
    if events == [] then d else After(Run(d, events[..|events| - 1], maxPeers), events[|events| - 1], maxPeers)
  }

  // Ticks with a session.
  function TickCount(events: seq<Event>): nat {
    if events == [] then 0
    else
      var last := events[|events| - 1];
      TickCount(events[..|events| - 1]) + if last.Tick? && last.env.session then 1 else 0
  }

  // The queue whose head is served next, once the event has ended the current drain.
  function Line(d: Drain, ev: Event): seq<int> {
    match ev
    case Tick(env) =>
      if !env.session then []
      else if d.current !in env.connected then Without(d.pending, d.current)
      else if Limit(d) >= |d.candidates| then d.pending
      else []
    case Ask(_, _) => []
    case Leave(slot, _) => if slot == d.current then Without(d.pending, slot) else []
  }

  // When a drain ends, the next in line is connected and there are between 1 and `most` candidates.
  ghost predicate Healthy(d: Drain, ev: Event, most: nat) {
    Line(d, ev) != [] ==> ev.env.session && Line(d, ev)[0] in ev.env.connected && 1 <= |Candidates(ev.env)| <= most
  }

  // That head is the one served next, and the rest of the line is what still waits; a request, and an event
  // with nobody in line, change the slot served only to none.
  lemma LineIsServed(d: Drain, ev: Event, maxPeers: nat, most: nat)
    requires d.current != NO_SLOT && NO_SLOT !in d.pending && d.cursor < |d.candidates| && Healthy(d, ev, most)
    ensures
      var d' := After(d, ev, maxPeers);
      if Line(d, ev) != [] then d'.current == Line(d, ev)[0] && d'.pending == Line(d, ev)[1..]
      else d'.current == d.current || d'.current == NO_SLOT
  {
    WithoutFacts(d.pending, d.current);
    if ev.Leave? { WithoutFacts(d.pending, ev.slot); }
  }

  // Until the slot is served, every end of a drain is healthy and the slot does not leave.
  ghost predicate Attended(d: Drain, events: seq<Event>, slot: int, maxPeers: nat, most: nat)
    decreases |events|
  {
    events == [] || d.current == slot ||
    (Healthy(d, events[0], most) && !(events[0].Leave? && events[0].slot == slot)
     && Attended(After(d, events[0], maxPeers), events[1..], slot, maxPeers, most))
  }

  ghost predicate Busy(d: Drain, most: nat) {
    d.current != NO_SLOT && d.cursor < |d.candidates| <= most && NO_SLOT !in d.pending
  }

  ghost predicate Queued(d: Drain, k: nat, slot: int, most: nat) {
    Busy(d, most) && k < |d.pending| && d.pending[k] == slot
  }

  // The ticks before the slot at position k is served: the current drain's, then k whole drains.
  function Rank(d: Drain, k: nat, most: nat): nat
    requires d.cursor <= |d.candidates|
  {
    CeilChunks(|d.candidates| - d.cursor) + k * CeilChunks(most)
  }

  lemma {:induction false} WithoutPlace(slots: seq<int>, gone: int, k: nat)
    requires k < |slots| && slots[k] != gone
    ensures
      var k', kept := |Without(slots[..k], gone)|, Without(slots, gone);
      k' <= k && k' < |kept| && kept[k'] == slots[k]
    decreases |slots|
  {
    if k > 0 {
      WithoutPlace(slots[1..], gone, k - 1);
      assert slots[..k][1..] == slots[1..][..k - 1];
    }
  }

  // At the end of a drain the head of the queue is served and the others move up one place.
  lemma NextAdvances(d: Drain, env: Env, k: nat, most: nat) returns (k': nat)
    requires NO_SLOT !in d.pending && k < |d.pending|
    requires env.session && d.pending[0] in env.connected && 1 <= |Candidates(env)| <= most
    ensures
      var d' := Next(d, env);
      d'.current == d.pending[k] || (Queued(d', k', d.pending[k], most) && Rank(d', k', most) <= k * CeilChunks(most))
  {
    k' := if k == 0 then 0 else k - 1;
    var d' := Next(d, env);
    assert d.pending[0] in d.pending;
    assert forall slot | slot in d'.pending :: slot in d.pending;
    assert CeilChunks(|d'.candidates|) <= CeilChunks(most);
    if k > 0 { assert k * CeilChunks(most) == (k - 1) * CeilChunks(most) + CeilChunks(most); }
  }

  // A departure serves the slot at position k or leaves it no further away.
  lemma LeaveAdvances(d: Drain, gone: int, env: Env, k: nat, most: nat) returns (k': nat)
    requires Busy(d, most) && k < |d.pending| && gone != d.pending[k] && Healthy(d, Leave(gone, env), most)
    ensures
      var d' := Cancel(d, gone, env);
      d'.current == d.pending[k] ||
      (Queued(d', k', d.pending[k], most) &&
       Rank(d', k', most) <= if gone == d.current then k * CeilChunks(most) else Rank(d, k, most))
  {
    var at := |Without(d.pending[..k], gone)|;
    WithoutPlace(d.pending, gone, k);
    WithoutFacts(d.pending, gone);
    PlacesMultiply(at, k, CeilChunks(most));
    if gone == d.current {
      k' := NextAdvances(d.(pending := Without(d.pending, gone)), env, at, most);
    } else {
      k' := at;
    }
  }

  lemma PlacesMultiply(a: nat, b: nat, c: nat)
    requires a <= b
    ensures a * c <= b * c
  {
  }

  // A tick serves the slot at position k or, with a session, brings it strictly closer.
  lemma TickAdvances(d: Drain, env: Env, k: nat, most: nat) returns (k': nat)
    requires Busy(d, most) && k < |d.pending| && d.current != d.pending[k] && Healthy(d, Tick(env), most)
    ensures
      var d' := Chunk(d, env).0;
      d'.current == d.pending[k] ||
      (Queued(d', k', d.pending[k], most) &&
       Rank(d', k', most) + (if env.session then 1 else 0) <= Rank(d, k, most))
  {
    var left := |d.candidates| - d.cursor;
    assert CeilChunks(left) >= 1;
    if !env.session {
      k' := k;
    } else if d.current !in env.connected {
      k' := LeaveAdvances(d, d.current, env, k, most);
    } else if Limit(d) >= |d.candidates| {
      k' := NextAdvances(d, env, k, most);
    } else {
      k' := k;
      assert CeilChunks(left) == CeilChunks(left - CHUNK) + 1;
    }
  }

  // Requests only join the tail of the queue.
  lemma AskKeepsPlaces(d: Drain, slot: int, env: Env, maxPeers: nat, most: nat)
    requires Busy(d, most)
    ensures
      var d' := Trigger(d, slot, env, true, maxPeers);
      && Busy(d', most) && d.pending <= d'.pending
      && d'.candidates == d.candidates && d'.cursor == d.cursor && d'.current == d.current
  {
  }

  // FIFO service: whatever requests and departures of others come meanwhile, the slot at position k is
  // the one being served at some moment within Rank ticks, if at every end of a drain before that the
  // next in line is connected and there is something to send.
  lemma {:induction false} ServedWithinRank(d: Drain, events: seq<Event>, k: nat, maxPeers: nat, most: nat)
    requires Busy(d, most) && k < |d.pending| && Attended(d, events, d.pending[k], maxPeers, most)
    requires TickCount(events) >= Rank(d, k, most)
    ensures exists n :: 0 <= n <= |events| && Run(d, events[..n], maxPeers).current == d.pending[k]
    decreases |events|
  {
    var slot := d.pending[k];
    if d.current == slot {
      assert Run(d, events[..0], maxPeers) == d;
    } else if events != [] {
      var ev, d1, k' := events[0], After(d, events[0], maxPeers), k;
      CountFromFront(events);
      match ev {
        case Tick(env) => k' := TickAdvances(d, env, k, most);
        case Ask(x, env) => AskKeepsPlaces(d, x, env, maxPeers, most);
        case Leave(x, env) =>
          k' := LeaveAdvances(d, x, env, k, most);
          assert k * CeilChunks(most) <= Rank(d, k, most);
      }
      if d1.current == slot { assert Run(d1, events[1..][..0], maxPeers) == d1; }
      else { ServedWithinRank(d1, events[1..], k', maxPeers, most); }
      ShiftRun(d, events, d1, slot, maxPeers);
    }
  }

  lemma RunSnoc(d: Drain, events: seq<Event>, last: Event, maxPeers: nat)
    ensures Run(d, events + [last], maxPeers) == After(Run(d, events, maxPeers), last, maxPeers)
  {
    assert (events + [last])[..|events|] == events;
  }

  lemma {:induction false} RunFromFront(d: Drain, events: seq<Event>, maxPeers: nat)
    requires events != []
    ensures Run(d, events, maxPeers) == Run(After(d, events[0], maxPeers), events[1..], maxPeers)
    decreases |events|
  {
    var n := |events| - 1;
    var init, last, d1 := events[..n], events[n], After(d, events[0], maxPeers);
    RunSnoc(d, init, last, maxPeers);
    assert events == init + [last];
    if n == 0 {
      assert init == [] && events[1..] == [];
      assert Run(d, init, maxPeers) == d && Run(d1, events[1..], maxPeers) == d1;
    } else {
      RunFromFront(d, init, maxPeers);
      assert events[1..] == init[1..] + [last];
      RunSnoc(d1, init[1..], last, maxPeers);
    }
  }

  lemma {:induction false} CountFromFront(events: seq<Event>)
    requires events != []
    ensures TickCount(events) == TickCount(events[1..]) + if events[0].Tick? && events[0].env.session then 1 else 0
    decreases |events|
  {
    var n := |events| - 1;
    if n == 0 {
      assert events[..n] == [] && events[1..] == [];
    } else {
      CountFromFront(events[..n]);
      assert events[..n][1..] == events[1..][..n - 1];
    }
  }

  lemma ShiftRun(d: Drain, events: seq<Event>, d1: Drain, slot: int, maxPeers: nat)
    requires events != [] && d1 == After(d, events[0], maxPeers)
    requires exists n :: 0 <= n <= |events[1..]| && Run(d1, events[1..][..n], maxPeers).current == slot
    ensures exists n :: 0 <= n <= |events| && Run(d, events[..n], maxPeers).current == slot
  {
    var n :| 0 <= n <= |events[1..]| && Run(d1, events[1..][..n], maxPeers).current == slot;
    RunFromFront(d, events[..n + 1], maxPeers);
    assert events[..n + 1][1..] == events[1..][..n];
  }

  // ---- Where the queue stalls ----

  // A drain makes no further progress in any world exactly when it has no candidate left to visit;
  // a drain started on an empty enumeration is in that state from the beginning.
  lemma StuckIff(d: Drain)
    requires d.current != NO_SLOT
    ensures (forall env :: Chunk(d, env) == (d, [])) <==> d.cursor >= |d.candidates|
    ensures forall slot, env :: Candidates(env) == [] ==> Start(d, slot, env).cursor >= |Start(d, slot, env).candidates|
  {
    if d.cursor < |d.candidates| {
      var env := Env(map[], {}, {}, true, {d.current}, {});
      assert Limit(d) > d.cursor;
      assert Chunk(d, env).0 != d;
    }
  }

  // A dequeued slot that has left is dropped without trying the one behind it: the end of a drain leaves
  // slots waiting with none served exactly when the head of a queue of several is not connected.
  lemma NextIdleIff(d: Drain, env: Env)
    requires NO_SLOT !in d.pending
    ensures Next(d, env).current == NO_SLOT && Next(d, env).pending != [] <==>
              |d.pending| > 1 && !(env.session && d.pending[0] in env.connected)
  {
    if d.pending != [] {
      assert d.pending[0] in d.pending;
      assert |d.pending[1..]| == |d.pending| - 1;
    }
  }

  // Nothing of a finished drain is left when no slot is served next.
  lemma NextCleans(d: Drain, env: Env)
    requires NO_SLOT !in d.pending && Next(d, env).current == NO_SLOT
    ensures Next(d, env).candidates == [] && Next(d, env).cursor == 0
  {
    if d.pending != [] { assert d.pending[0] in d.pending; }
  }

  // From then on ticks and departures serve nobody, however many, until the next request.
  lemma {:induction false} IdleServesNobody(d: Drain, events: seq<Event>, maxPeers: nat)
    requires d.current == NO_SLOT && forall ev | ev in events :: ev.Tick? || (ev.Leave? && ev.slot != NO_SLOT)
    ensures Run(d, events, maxPeers).current == NO_SLOT
    ensures (forall ev | ev in events :: ev.Tick?) ==> Run(d, events, maxPeers) == d
    decreases |events|
  {
    if events != [] {
      var n := |events| - 1;
      assert events == events[..n] + [events[n]] && events[n] in events;
      assert forall ev | ev in events[..n] :: ev in events;
      IdleServesNobody(d, events[..n], maxPeers);
    }
  }

  // ---- Enumeration ----

  // p is the row of a live actor.
  ghost predicate LiveRow(p: Pair, live: set<(Actor, int)>) {
    p.element.actor != NULL && (p.element.actor, p.element.index) in live
  }

  ghost predicate Ascending(cs: seq<Candidate>) { forall i, j :: 0 <= i < j < |cs| ==> cs[i].id < cs[j].id }

  // The candidates are exactly the rows whose actor passes the liveness check, once each, in order.
  lemma {:induction false} EnumerateIff(rows: seq<Pair>, live: set<(Actor, int)>)
    requires forall i, j :: 0 <= i < j < |rows| ==> rows[i].id < rows[j].id
    ensures forall p | p in rows && LiveRow(p, live) :: AsCandidate(p) in Enumerate(rows, live)
    ensures forall c | c in Enumerate(rows, live) :: exists p :: p in rows && LiveRow(p, live) && AsCandidate(p) == c
    ensures Ascending(Enumerate(rows, live))
    decreases |rows|
  {
    if rows != [] {
      var n := |rows| - 1;
      var init, last := rows[..n], rows[n];
      assert rows == init + [last];
      EnumerateIff(init, live);
      forall i | 0 <= i < |Enumerate(init, live)| ensures Enumerate(init, live)[i].id < last.id {
        assert Enumerate(init, live)[i] in Enumerate(init, live);
        var p :| p in init && LiveRow(p, live) && AsCandidate(p) == Enumerate(init, live)[i];
      }
    }
  }

  // The registered ids whose actor is live.
  ghost function LiveIds(env: Env): set<ElementId> {
    set e | e in env.registry && LiveRow(Pair(e, env.registry[e]), env.live)
  }

  ghost function IdsOf(cs: seq<Candidate>): set<ElementId> {
    if cs == [] then {} else IdsOf(cs[..|cs| - 1]) + {cs[|cs| - 1].id}
  }

  lemma {:induction false} IdsAre(cs: seq<Candidate>)
    ensures forall c | c in cs :: c.id in IdsOf(cs)
    ensures forall x | x in IdsOf(cs) :: exists c :: c in cs && c.id == x
    decreases |cs|
  {
    if cs != [] {
      var n := |cs| - 1;
      assert cs == cs[..n] + [cs[n]];
      IdsAre(cs[..n]);
    }
  }

  lemma LastIsNew(cs: seq<Candidate>)
    requires cs != [] && Ascending(cs)
    ensures Ascending(cs[..|cs| - 1]) && cs[|cs| - 1].id !in IdsOf(cs[..|cs| - 1])
  {
    var n := |cs| - 1;
    IdsAre(cs[..n]);
    forall c | c in cs[..n] ensures c.id < cs[n].id {
      var i :| 0 <= i < n && cs[i] == c;
    }
  }

  lemma {:induction false} CountIds(cs: seq<Candidate>)
    requires Ascending(cs)
    ensures |IdsOf(cs)| == |cs|
    decreases |cs|
  {
    if cs != [] {
      LastIsNew(cs);
      CountIds(cs[..|cs| - 1]);
    }
  }

  ghost predicate IdsFit(env: Env) { forall e | e in env.registry :: e < MAX_ELEMENTS }

  lemma CandidatesAre(env: Env)
    requires IdsFit(env)
    ensures forall e | e in LiveIds(env) :: AsCandidate(Pair(e, env.registry[e])) in Candidates(env)
    ensures forall c | c in Candidates(env) :: c.id in LiveIds(env) && c == AsCandidate(Pair(c.id, env.registry[c.id]))
    ensures Ascending(Candidates(env)) && |Candidates(env)| == |LiveIds(env)|
  {
    var cs := Candidates(env);
    RowsAre(env.registry, 0);
    EnumerateIff(Rows(env.registry, 0), env.live);
    forall e | e in LiveIds(env) ensures AsCandidate(Pair(e, env.registry[e])) in cs {
      assert Pair(e, env.registry[e]) in Rows(env.registry, 0);
    }
    CountIds(cs);
    IdsAre(cs);
    assert LiveIds(env) == IdsOf(cs);
  }

  // ---- What a joiner is sent ----

  // The actor of the row may be sent in this world.
  ghost predicate Sends(p: Pair, env: Env) { LiveRow(p, env.live) && p.element.actor in env.syncable }

  ghost predicate IdsAscend(sent: seq<Sent>) {
    forall i, j :: 0 <= i < j < |sent| ==> sent[i].candidate.id < sent[j].candidate.id
  }

  // Each registered prop that stays live and syncable is sent, to the slot, once; what is sent was live at
  // the start, and live and syncable at some tick.
  ghost predicate SentAll(sent: seq<Sent>, slot: int, start: Env, envs: seq<Env>) {
    && (forall e |
          e in LiveIds(start) && (forall t :: 0 <= t < |envs| ==> Sends(Pair(e, start.registry[e]), envs[t])) ::
          Sent(slot, AsCandidate(Pair(e, start.registry[e]))) in sent)
    && (forall i :: 0 <= i < |sent| ==> Justified(sent[i], slot, start, envs))
    && IdsAscend(sent)
  }

  ghost predicate Justified(m: Sent, slot: int, start: Env, envs: seq<Env>) {
    var e := m.candidate.id;
    && m.slot == slot && e in LiveIds(start) && m.candidate == AsCandidate(Pair(e, start.registry[e]))
    && exists t :: 0 <= t < |envs| && Sends(Pair(e, start.registry[e]), envs[t])
  }

  // Candidate j is sent exactly when it may be in the world of its tick.
  lemma {:induction false} OneShotIff(slot: int, rows: seq<Candidate>, envs: seq<Env>)
    requires |rows| <= CHUNK * |envs|
    ensures forall j | 0 <= j < |rows| && Sendable(rows[j], envs[j / CHUNK]) ::
              Sent(slot, rows[j]) in OneShot(slot, rows, envs)
    ensures forall m | m in OneShot(slot, rows, envs) ::
              m.slot == slot &&
              exists j :: 0 <= j < |rows| && m.candidate == rows[j] && Sendable(rows[j], envs[j / CHUNK])
    decreases |rows|
  {
    if rows != [] {
      var n := |rows| - 1;
      OneShotIff(slot, rows[..n], envs);
      forall m | m in OneShot(slot, rows[..n], envs)
        ensures exists j :: 0 <= j < |rows| && m.candidate == rows[j] && Sendable(rows[j], envs[j / CHUNK])
      {
        var j :| 0 <= j < n && m.candidate == rows[..n][j] && Sendable(rows[..n][j], envs[j / CHUNK]);
        assert rows[j] == rows[..n][j];
      }
    }
  }

  lemma {:induction false} OneShotAscends(slot: int, rows: seq<Candidate>, envs: seq<Env>)
    requires |rows| <= CHUNK * |envs| && Ascending(rows)
    ensures IdsAscend(OneShot(slot, rows, envs))
    decreases |rows|
  {
    if rows != [] {
      var n := |rows| - 1;
      var before := OneShot(slot, rows[..n], envs);
      OneShotAscends(slot, rows[..n], envs);
      OneShotIff(slot, rows[..n], envs);
      forall i | 0 <= i < |before| ensures before[i].candidate.id < rows[n].id {
        assert before[i] in before;
        var j :| 0 <= j < n && before[i].candidate == rows[..n][j] && Sendable(rows[..n][j], envs[j / CHUNK]);
      }
      AscendsSnoc(before, Sent(slot, rows[n]));
    }
  }

  lemma AscendsSnoc(sent: seq<Sent>, m: Sent)
    requires IdsAscend(sent) && forall i :: 0 <= i < |sent| ==> sent[i].candidate.id < m.candidate.id
    ensures IdsAscend(sent + [m]) && IdsAscend(sent + [])
  {
    assert sent + [] == sent;
  }

  lemma OneShotSendsAll(slot: int, start: Env, envs: seq<Env>)
    requires IdsFit(start) && |envs| == CeilChunks(|LiveIds(start)|)
    ensures |Candidates(start)| <= CHUNK * |envs| && SentAll(OneShot(slot, Candidates(start), envs), slot, start, envs)
  {
    var cs := Candidates(start);
    CandidatesAre(start);
    OneShotIff(slot, cs, envs);
    OneShotAscends(slot, cs, envs);
    var sent := OneShot(slot, cs, envs);
    forall e | e in LiveIds(start) && (forall t :: 0 <= t < |envs| ==> Sends(Pair(e, start.registry[e]), envs[t]))
      ensures Sent(slot, AsCandidate(Pair(e, start.registry[e]))) in sent
    {
      var j :| 0 <= j < |cs| && cs[j] == AsCandidate(Pair(e, start.registry[e]));
      assert Sends(Pair(e, start.registry[e]), envs[j / CHUNK]);
    }
    forall i | 0 <= i < |sent| ensures Justified(sent[i], slot, start, envs) {
      assert sent[i] in sent;
      var j :| 0 <= j < |cs| && sent[i].candidate == cs[j] && Sendable(cs[j], envs[j / CHUNK]);
      assert cs[j] in cs;
      assert Sends(Pair(cs[j].id, start.registry[cs[j].id]), envs[j / CHUNK]);
    }
  }

  // A drain begun for the slot in the world `start`.
  lemma BegunSendsAll(d: Drain, slot: int, start: Env, envs: seq<Env>)
    requires IdsFit(start) && slot != NO_SLOT && d.current == slot && d.cursor == 0 && d.candidates == Candidates(start)
    requires Serves(envs, slot) && |envs| == CeilChunks(|LiveIds(start)|)
    ensures SentAll(Ticks(d, envs).1, slot, start, envs)
  {
    CandidatesAre(start);
    OneShotSendsAll(slot, start, envs);
    if d.candidates != [] { DrainIsOneShot(d, envs); }
  }

  // A slot that asks while nothing is being served, and stays connected, is sent every registered prop
  // that stays live and syncable, once, within the ticks for as many live props as there were.
  lemma TriggerSendsAll(d: Drain, slot: int, start: Env, maxPeers: nat, envs: seq<Env>)
    requires IdsFit(start) && start.session && 1 <= slot < maxPeers && slot in start.ready && d.current == NO_SLOT
    requires Serves(envs, slot) && |envs| == CeilChunks(|LiveIds(start)|)
    ensures SentAll(Ticks(Trigger(d, slot, start, true, maxPeers), envs).1, slot, start, envs)
  {
    BegunSendsAll(Trigger(d, slot, start, true, maxPeers), slot, start, envs);
  }

  // So is the slot at the head of the queue when a drain ends, if it is connected then.
  lemma NextSendsAll(d: Drain, start: Env, envs: seq<Env>)
    requires IdsFit(start) && d.pending != [] && d.pending[0] != NO_SLOT
    requires start.session && d.pending[0] in start.connected
    requires Serves(envs, d.pending[0]) && |envs| == CeilChunks(|LiveIds(start)|)
    ensures SentAll(Ticks(Next(d, start), envs).1, d.pending[0], start, envs)
  {
    BegunSendsAll(Next(d, start), d.pending[0], start, envs);
  }
}


module PropSnapshots {
  import opened PropStore
  import opened SnapshotSpec

  function Zip(actors: seq<Actor>, ids: seq<ElementId>, indices: seq<int>): seq<Candidate>
    requires |actors| == |ids| == |indices|
  {
    seq(|actors|, i requires 0 <= i < |actors| => Candidate(actors[i], ids[i], indices[i]))
  }

  lemma EnumerateNext(rows: seq<Pair>, i: nat, live: set<(Actor, int)>)
    requires i < |rows|
    ensures Enumerate(rows[..i + 1], live) ==
            Enumerate(rows[..i], live) + if Alive(AsCandidate(rows[i]), live) then [AsCandidate(rows[i])] else []
  {
    assert rows[..i + 1][..i] == rows[..i];
  }

  lemma ZipAppend(actors: seq<Actor>, ids: seq<ElementId>, indices: seq<int>, row: Pair)
    requires |actors| == |ids| == |indices|
    ensures Zip(actors + [row.element.actor], ids + [row.id], indices + [row.element.index]) ==
            Zip(actors, ids, indices) + [AsCandidate(row)]
  {
  }

  class PropSnapshot {
    var candidates: seq<Actor>
    var eids: seq<ElementId>
    var indices: seq<int>
    var cursor: nat
    var current: int
    var pending: seq<int>
    const maxPeers: nat
    const isHost: bool

    constructor (maxPeers: nat, isHost: bool)
      ensures InStep() && State() == Drain([], 0, NO_SLOT, []) && this.maxPeers == maxPeers && this.isHost == isHost
    {
      this.maxPeers, this.isHost := maxPeers, isHost;
      candidates, eids, indices := [], [], [];
      cursor, current, pending := 0, NO_SLOT, [];
    }

    // The three parallel vectors have one entry per candidate.
    ghost predicate InStep() reads this {
      |candidates| == |eids| == |indices|
    }

    ghost function State(): Drain
      requires InStep()
      reads this
    {
      Drain(Zip(candidates, eids, indices), cursor, current, pending)
    }

    method ClearCandidates()
      requires InStep()
      modifies this`candidates, this`eids, this`indices, this`cursor, this`current
      ensures InStep() && State() == old(State()).(candidates := [], cursor := 0, current := NO_SLOT)
    {
      candidates, eids, indices := [], [], [];
      cursor, current := 0, NO_SLOT;
    }

    method StartEnumerationFor(slot: int, env: Env)
      requires InStep()
      modifies this`candidates, this`eids, this`indices, this`cursor, this`current
      ensures InStep() && State() == Start(old(State()), slot, env)
    {
      current := slot;
      candidates, eids, indices := [], [], [];
      cursor := 0;
      Collect(Rows(env.registry, 0), env.live);
    }

    // The loop over the snapshot: live actors go into the three vectors.
    method Collect(rows: seq<Pair>, live: set<(Actor, int)>)
      requires candidates == eids == indices == []
      modifies this`candidates, this`eids, this`indices
      ensures InStep() && Zip(candidates, eids, indices) == Enumerate(rows, live)
    {
      var i := 0;
      while i < |rows|
        invariant 0 <= i <= |rows|
        invariant InStep() && Zip(candidates, eids, indices) == Enumerate(rows[..i], live)
      {
        var row := rows[i];
        EnumerateNext(rows, i, live);
        i := i + 1;
        if row.element.actor == NULL { continue; }
        if (row.element.actor, row.element.index) !in live { continue; }
        ZipAppend(candidates, eids, indices, row);
        candidates := candidates + [row.element.actor];
        eids := eids + [row.id];
        indices := indices + [row.element.index];
      }
      assert rows[..|rows|] == rows;
    }

    method TriggerForSlot(slot: int, env: Env)
      requires InStep()
      modifies this
      ensures InStep() && State() == Trigger(old(State()), slot, env, isHost, maxPeers)
    {
      if !env.session || !isHost || slot < 1 || slot >= maxPeers || slot !in env.ready { return; }
      if current != NO_SLOT {
        if slot !in pending { pending := pending + [slot]; }
        return;
      }
      StartEnumerationFor(slot, env);
    }

    // The common tail of a finished and a cancelled drain.
    method FinishAndDequeue(env: Env)
      requires InStep()
      modifies this
      ensures InStep() && State() == Next(old(State()), env)
    {
      ClearCandidates();
      if pending != [] {
        var nextSlot := pending[0];
        pending := pending[1..];
        if env.session && nextSlot in env.connected { StartEnumerationFor(nextSlot, env); }
      }
    }

    method CancelForSlot(slot: int, env: Env)
      requires InStep()
      modifies this
      ensures InStep() && State() == Cancel(old(State()), slot, env)
    {
      pending := Without(pending, slot);
      if current != slot { return; }
      FinishAndDequeue(env);
    }

    // The loop of one tick: re-validate and send each candidate up to `limit`.
    method SendUpTo(limit: nat, env: Env) returns (sent: seq<Sent>)
      requires InStep() && cursor <= limit <= |candidates|
      modifies this`cursor
      ensures cursor == limit
      ensures sent == SendAll(current, old(State()).candidates[old(cursor)..limit], env)
    {
      sent := [];
      ghost var all := State().candidates;
      while cursor < limit
        invariant old(cursor) <= cursor <= limit
        invariant sent == SendAll(current, all[old(cursor)..cursor], env)
      {
        var actor := candidates[cursor];
        assert all[old(cursor)..cursor + 1][..cursor - old(cursor)] == all[old(cursor)..cursor];
        cursor := cursor + 1;
        if actor == NULL || (actor, indices[cursor - 1]) !in env.live { continue; }
        if actor !in env.syncable { continue; }
        sent := sent + [Sent(current, Candidate(actor, eids[cursor - 1], indices[cursor - 1]))];
      }
    }

    method DrainChunk(env: Env) returns (sent: seq<Sent>)
      requires InStep()
      modifies this
      ensures InStep() && (State(), sent) == Chunk(old(State()), env)
    {
      sent := [];
      if current == NO_SLOT || cursor >= |candidates| || !env.session { return; }
      if current !in env.connected {
        CancelForSlot(current, env);
        return;
      }
      sent := SendUpTo(if cursor + CHUNK <= |candidates| then cursor + CHUNK else |candidates|, env);
      if cursor >= |candidates| { FinishAndDequeue(env); }
    }

    method OnDisconnect() returns (undrained: nat)
      requires InStep() && cursor <= |candidates|
      modifies this
      ensures InStep() && State() == Drain([], 0, NO_SLOT, [])
      ensures undrained == |old(State()).candidates| - old(cursor)
    {
      undrained := |candidates| - cursor;
      ClearCandidates();
      pending := [];
    }
  }
}
