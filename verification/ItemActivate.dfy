// Item activation: deferring a message until the peer's puppet exists, and replaying the last one to a
// late joiner, both against applying every message as it comes.

module ItemSpec {
  datatype Option<T> = None | Some(value: T)

  datatype Payload = Payload(cls: nat, state: nat, intensity: real, outer: real, inner: real)

  datatype Light = Light(visible: bool, intensity: real, outer: real, inner: real)

  // What a light looks like; the cone of an invisible light cannot be seen.
  datatype Look = Dark | Lit(intensity: real, outer: real, inner: real)

  function Seen(l: Light): Look {
    if l.visible then Lit(l.intensity, l.outer, l.inner) else Dark
  }

  // The look a message asks for.
  function Asked(p: Payload): Look {
    if p.state == 0 then Dark else Lit(p.intensity, p.outer, p.inner)
  }

  // ApplyToPuppet on a live puppet; cls is the flashlight's class hash.
  function ApplyTo(cls: nat, l: Light, p: Payload): Light {
    if p.cls != cls then l
    else
      var on := p.state != 0;
      Light(on, if on then p.intensity else 0.0,
            if on && p.outer > 0.0 then p.outer else l.outer,
            if on && p.inner >= 0.0 then p.inner else l.inner)
  }

  function ApplyAll(cls: nat, l: Light, ps: seq<Payload>): Light {
    if ps == [] then l else ApplyTo(cls, ApplyAll(cls, l, ps[..|ps| - 1]), ps[|ps| - 1])
  }

  // ---- When the last message is all that counts ----

  predicate Overrides(cls: nat, p: Payload) {
    p.cls == cls && (p.state == 0 || (p.outer > 0.0 && p.inner >= 0.0))
  }

  // A message makes every earlier one irrelevant exactly when it is of the class and, if ON, both its
  // cone angles are valid: the condition under which keeping only the latest loses nothing.
  lemma LatestWinsIff(cls: nat, p: Payload)
    ensures (forall l: Light, q: Payload :: Seen(ApplyTo(cls, ApplyTo(cls, l, q), p)) == Seen(ApplyTo(cls, l, p))) <==>
            Overrides(cls, p)
  {
    if !Overrides(cls, p) {
      var l := Light(false, 0.0, 1.0, 1.0);
      var q := Payload(cls, 1, p.intensity + 1.0, 2.0, 2.0);
      assert Seen(ApplyTo(cls, ApplyTo(cls, l, q), p)) != Seen(ApplyTo(cls, l, p));
    } else {
      forall l: Light, q: Payload ensures Seen(ApplyTo(cls, ApplyTo(cls, l, q), p)) == Seen(ApplyTo(cls, l, p)) { }
    }
  }

  // ---- One peer's slot ----

  datatype Slot = Slot(puppet: Option<Light>, pending: Option<Payload>)

  const EMPTY: Slot := Slot(None, None)

  datatype Event =
    | Message(p: Payload)
    | Spawned(l: Light)      // the peer's first pose made its puppet
    | Tick
    | Disconnected

  // ApplyToPuppetOrDefer.
  function Receive(cls: nat, s: Slot, p: Payload): Slot {
    if s.puppet.Some? then Slot(Some(ApplyTo(cls, s.puppet.value, p)), None) else s.(pending := Some(p))
  }

  // TickConnect, one slot.
  function TickSlot(cls: nat, s: Slot): Slot {
    if s.pending.Some? && s.puppet.Some? then Slot(Some(ApplyTo(cls, s.puppet.value, s.pending.value)), None) else s
  }

  function Next(cls: nat, s: Slot, ev: Event): Slot {
    match ev
    case Message(p) => Receive(cls, s, p)
    case Spawned(l) => s.(puppet := Some(l))
    case Tick => TickSlot(cls, s)
    case Disconnected => EMPTY
  }

  function After(cls: nat, evs: seq<Event>): Slot {
    if evs == [] then EMPTY else Next(cls, After(cls, evs[..|evs| - 1]), evs[|evs| - 1])
  }

  // A connection's puppet is made once, and dark.
  ghost predicate OnePuppet(cls: nat, evs: seq<Event>) {
    evs == [] ||
    var before := evs[..|evs| - 1];
    OnePuppet(cls, before) && (evs[|evs| - 1].Spawned? ==> After(cls, before).puppet.None? && !evs[|evs| - 1].l.visible)
  }

  // The messages of the current connection.
  function Messages(evs: seq<Event>): seq<Payload> {
    if evs == [] then []
    else
      var before := Messages(evs[..|evs| - 1]);
      var ev := evs[|evs| - 1];
      if ev.Message? then before + [ev.p] else if ev.Disconnected? then [] else before
  }

  function Last(ps: seq<Payload>): Option<Payload> {
    if ps == [] then None else Some(ps[|ps| - 1])
  }

  function Shown(last: Option<Payload>): Look {
    if last.None? then Dark else Asked(last.value)
  }

  ghost predicate Decisive(cls: nat, last: Option<Payload>) {
    last.Some? ==> Overrides(cls, last.value)
  }

  ghost predicate Deferred(cls: nat, s: Slot, last: Option<Payload>) {
    if s.puppet.None? then s.pending == last
    else if s.pending.Some? then s.pending == last
    else Decisive(cls, last) ==> Seen(s.puppet.value) == Shown(last)
  }

  lemma {:induction false} DeferredAlways(cls: nat, evs: seq<Event>)
    requires OnePuppet(cls, evs)
    ensures Deferred(cls, After(cls, evs), Last(Messages(evs)))
    decreases |evs|
  {
    if evs != [] { DeferredAlways(cls, evs[..|evs| - 1]); }
  }

  // Applied one by one to a puppet that was there from the start.
  lemma DirectShowsLast(cls: nat, dark: Light, ps: seq<Payload>)
    requires !dark.visible && Decisive(cls, Last(ps))
    ensures Seen(ApplyAll(cls, dark, ps)) == Shown(Last(ps))
  {
  }

  // Deferral refines direct application: for every interleaving of messages, the puppet's arrival and
  // ticks, once a tick has run the puppet looks as if every message had been applied as it came.
  lemma DeferralRefinesDirect(cls: nat, evs: seq<Event>, dark: Light)
    requires OnePuppet(cls, evs) && evs != [] && evs[|evs| - 1].Tick? && !dark.visible
    requires Decisive(cls, Last(Messages(evs))) && After(cls, evs).puppet.Some?
    ensures Seen(After(cls, evs).puppet.value) == Seen(ApplyAll(cls, dark, Messages(evs))) == Shown(Last(Messages(evs)))
    ensures After(cls, evs).pending.None?
  {
    DeferredAlways(cls, evs);
    DirectShowsLast(cls, dark, Messages(evs));
  }

  // A message that finds the puppet shows at once, without a tick, and nothing is left for one.
  lemma MessageShowsAtOnce(cls: nat, evs: seq<Event>)
    requires OnePuppet(cls, evs) && evs != [] && evs[|evs| - 1].Message? && After(cls, evs).puppet.Some?
    requires Overrides(cls, evs[|evs| - 1].p)
    ensures Seen(After(cls, evs).puppet.value) == Asked(evs[|evs| - 1].p) && After(cls, evs).pending.None?
  {
  }

  // An OFF message makes the light dark and leaves its cone; a cone angle that is not valid is not taken.
  lemma ConeIsKept(cls: nat, l: Light, p: Payload)
    requires p.cls == cls
    ensures
      var l' := ApplyTo(cls, l, p);
      && (p.state == 0 ==> l' == Light(false, 0.0, l.outer, l.inner))
      && (p.outer <= 0.0 ==> l'.outer == l.outer) && (p.inner < 0.0 ==> l'.inner == l.inner)
  {
  }

  // A message of another class that arrives before the puppet throws the stashed one away.
  lemma ForeignClassLosesTheStash(cls: nat, p: Payload, q: Payload, dark: Light)
    requires Overrides(cls, p) && p.state != 0 && q.cls != cls && !dark.visible
    ensures
      var end := After(cls, [Message(p), Message(q), Spawned(dark), Tick]);
      end.puppet.Some? && Seen(end.puppet.value) == Dark
    ensures Seen(ApplyAll(cls, dark, [p, q])) == Asked(p) != Dark
  {
    var evs := [Message(p), Message(q), Spawned(dark), Tick];
    assert evs[..3] == [Message(p), Message(q), Spawned(dark)];
    assert evs[..3][..2] == [Message(p), Message(q)];
    assert evs[..3][..2][..1] == [Message(p)];
    assert evs[..3][..2][..1][..0] == [];
    var s1 := Next(cls, EMPTY, Message(p));
    assert After(cls, [Message(p)]) == s1;
    assert After(cls, [Message(p), Message(q)]) == Next(cls, s1, Message(q));
    assert After(cls, evs[..3]) == Slot(Some(dark), Some(q));
    assert [p, q][..1] == [p] && [p][..0] == [];
    assert ApplyAll(cls, dark, [p]) == ApplyTo(cls, dark, p);
  }

  // A second puppet in one connection stays dark until the next message, whatever was shown before.
  lemma SecondPuppetIsDark(cls: nat, evs: seq<Event>, dark: Light)
    requires OnePuppet(cls, evs) && After(cls, evs).puppet.Some? && After(cls, evs).pending.None? && !dark.visible
    ensures
      var end := Next(cls, Next(cls, After(cls, evs), Spawned(dark)), Tick);
      end.puppet.Some? && Seen(end.puppet.value) == Dark
    ensures
      Decisive(cls, Last(Messages(evs))) ==>
        (Dark == Shown(Last(Messages(evs))) <==> Seen(After(cls, evs).puppet.value) == Dark)
  {
    DeferredAlways(cls, evs);
  }

  // ---- Late joiners ----

  // The host's cache for a peer over that peer's events.
  function CacheAfter(evs: seq<Event>): Option<Payload> {
    if evs == [] then None
    else
      var ev := evs[|evs| - 1];
      if ev.Message? then Some(ev.p) else if ev.Disconnected? then None else CacheAfter(evs[..|evs| - 1])
  }

  lemma {:induction false} CacheIsLast(evs: seq<Event>)
    ensures CacheAfter(evs) == Last(Messages(evs))
    decreases |evs|
  {
    if evs != [] { CacheIsLast(evs[..|evs| - 1]); }
  }

  // What the host sends a joiner about one peer: the cached last message unless it is OFF.
  function Replay(cache: Option<Payload>): seq<Payload> {
    if cache.None? || cache.value.state == 0 then [] else [cache.value]
  }

  // Replay refines the owner's whole history: a joiner that gets the replay of the messages before it
  // joined and every message since, in whatever interleaving with its own puppet and ticks, ends with the
  // look of the owner's whole history.
  lemma ReplayRefinesHistory(cls: nat, before: seq<Payload>, since: seq<Payload>, evs: seq<Event>, dark: Light)
    requires OnePuppet(cls, evs) && evs != [] && evs[|evs| - 1].Tick? && After(cls, evs).puppet.Some? && !dark.visible
    requires Messages(evs) == Replay(Last(before)) + since && Decisive(cls, Last(before + since))
    ensures Seen(After(cls, evs).puppet.value) == Seen(ApplyAll(cls, dark, before + since))
  {
    DeferredAlways(cls, evs);
    DirectShowsLast(cls, dark, before + since);
    if since == [] {
      assert before + since == before;
      assert Messages(evs) == Replay(Last(before));
    } else {
      assert Last(before + since) == Last(since) == Last(Messages(evs));
    }
  }
}

// The handlers as the program runs them, on the arrays they update.
module ItemActivates {
  import opened ItemSpec

  class ItemActivate {
    const cls: nat
    const isHost: bool
    var lights: seq<Option<Light>>     // the puppets' lights
    var pending: seq<Option<Payload>>
    var cache: seq<Option<Payload>>
    var sent: seq<(nat, nat, Payload)> // target slot, origin slot, message

    ghost predicate Valid()
      reads this
    {
      |lights| == |pending| == |cache|
    }

    ghost function SlotOf(i: nat): Slot
      reads this
      requires Valid() && i < |lights|
    {
      Slot(lights[i], pending[i])
    }

    method ApplyToPuppetOrDefer(sender: nat, p: Payload)
      requires Valid()
      modifies this`lights, this`pending, this`cache
      ensures Valid() && |lights| == |old(lights)|
      ensures forall i | 0 <= i < |lights| ::
                SlotOf(i) == if i == sender then Receive(cls, old(SlotOf(i)), p) else old(SlotOf(i))
      ensures cache == if isHost && 1 <= sender < |lights| then old(cache)[sender := Some(p)] else old(cache)
    {
      if sender >= |lights| { return; }
      if sender >= 1 && isHost { cache := cache[sender := Some(p)]; }
      if lights[sender].Some? {
        pending := pending[sender := None];
        lights := lights[sender := Some(ApplyTo(cls, lights[sender].value, p))];
        return;
      }
      pending := pending[sender := Some(p)];
    }

    method TickConnect()
      requires Valid()
      modifies this`lights, this`pending
      ensures Valid() && |lights| == |old(lights)|
      ensures forall i | 0 <= i < |lights| :: SlotOf(i) == TickSlot(cls, old(SlotOf(i)))
    {
      var peer := 0;
      while peer < |lights|
        invariant 0 <= peer <= |lights| == |old(lights)| && Valid()
        invariant forall i | 0 <= i < |lights| ::
                    SlotOf(i) == if i < peer then TickSlot(cls, old(SlotOf(i))) else old(SlotOf(i))
      {
        if pending[peer].Some? && lights[peer].Some? {
          var p := pending[peer].value;
          pending := pending[peer := None];
          lights := lights[peer := Some(ApplyTo(cls, lights[peer].value, p))];
        }
        peer := peer + 1;
      }
    }

    // Every other peer's replay, in slot order and under that peer's own slot.
    method ReplayPeerStatesToSlot(newSlot: int)
      requires Valid()
      modifies this`sent
      ensures sent == old(sent) + if isHost && 1 <= newSlot < |cache| then Replays(cache, newSlot, |cache|) else []
    {
      if !isHost || newSlot < 1 || newSlot >= |cache| { return; }
      var peer := 1;
      while peer < |cache|
        invariant 1 <= peer <= |cache| && sent == old(sent) + Replays(cache, newSlot, peer)
      {
        ghost var told := if peer == newSlot then [] else Addressed(newSlot, peer, Replay(cache[peer]));
        assert Replays(cache, newSlot, peer + 1) == Replays(cache, newSlot, peer) + told;
        if peer != newSlot && cache[peer].Some? && cache[peer].value.state != 0 {
          sent := sent + [(newSlot, peer, cache[peer].value)];
        }
        peer := peer + 1;
      }
    }

    method OnDisconnectForSlot(slot: int)
      requires Valid()
      modifies this`pending, this`cache
      ensures Valid() && |cache| == |old(cache)|
      ensures cache == (if 0 <= slot < |cache| then old(cache)[slot := None] else old(cache))
      ensures pending == (if 0 <= slot < |cache| then old(pending)[slot := None] else old(pending))
    {
      if slot < 0 || slot >= |cache| { return; }
      cache := cache[slot := None];
      if pending[slot].None? { return; }
      pending := pending[slot := None];
    }

    method OnDisconnect() returns (cleared: nat)
      requires Valid()
      modifies this`pending, this`cache
      ensures Valid() && |cache| == |old(cache)|
      ensures forall i | 0 <= i < |cache| :: pending[i] == None && cache[i] == None
      ensures cleared == Stashed(old(pending), |old(pending)|)
    {
      cleared := 0;
      var i := 0;
      while i < |cache|
        invariant 0 <= i <= |cache| == |old(cache)| && Valid()
        invariant forall j | 0 <= j < i :: pending[j] == None && cache[j] == None
        invariant forall j | i <= j < |cache| :: pending[j] == old(pending)[j]
        invariant cleared == Stashed(old(pending), i)
      {
        if pending[i].Some? {
          cleared := cleared + 1;
        }
        pending := pending[i := None];
        cache := cache[i := None];
        i := i + 1;
      }
    }
  }

  ghost function Stashed(pending: seq<Option<Payload>>, upTo: nat): nat
    requires upTo <= |pending|
  {
    if upTo == 0 then 0 else Stashed(pending, upTo - 1) + if pending[upTo - 1].Some? then 1 else 0
  }

  ghost function Replays(cache: seq<Option<Payload>>, newSlot: nat, upTo: nat): seq<(nat, nat, Payload)>
    requires upTo <= |cache|
  {
    if upTo <= 1 then []
    else
      var peer := upTo - 1;
      Replays(cache, newSlot, peer) + if peer == newSlot then [] else Addressed(newSlot, peer, Replay(cache[peer]))
  }

  ghost function Addressed(target: nat, origin: nat, ps: seq<Payload>): seq<(nat, nat, Payload)> {
    if ps == [] then [] else [(target, origin, ps[0])]
  }

  // Peer's cached message is for a joiner in newSlot.
  ghost predicate Replayed(cache: seq<Option<Payload>>, newSlot: nat, m: (nat, nat, Payload)) {
    m.0 == newSlot && 1 <= m.1 < |cache| && m.1 != newSlot && cache[m.1] == Some(m.2) && m.2.state != 0
  }

  // The joiner is sent, for every other client and in slot order, that client's cached message under that
  // client's own slot, if it is ON; and nothing else.
  lemma {:induction false} ReplaysIff(cache: seq<Option<Payload>>, newSlot: nat, upTo: nat)
    requires upTo <= |cache|
    ensures forall m: (nat, nat, Payload) ::
              m in Replays(cache, newSlot, upTo) <==> Replayed(cache, newSlot, m) && m.1 < upTo
    decreases upTo
  {
    if upTo > 1 { ReplaysIff(cache, newSlot, upTo - 1); }
  }

  lemma {:induction false} ReplaysInOrder(cache: seq<Option<Payload>>, newSlot: nat, upTo: nat, i: nat, j: nat)
    requires upTo <= |cache| && i < j < |Replays(cache, newSlot, upTo)|
    ensures Replays(cache, newSlot, upTo)[i].1 < Replays(cache, newSlot, upTo)[j].1
    decreases upTo
  {
    var before := Replays(cache, newSlot, upTo - 1);
    if j < |before| {
      ReplaysInOrder(cache, newSlot, upTo - 1, i, j);
    } else {
      ReplaysIff(cache, newSlot, upTo - 1);
      assert before[i] in before;
    }
  }

  // The number returned on a disconnect is that of the slots with a stash.
  lemma {:induction false} StashedCounts(pending: seq<Option<Payload>>, upTo: nat)
    requires upTo <= |pending|
    ensures Stashed(pending, upTo) == |set i | 0 <= i < upTo && pending[i].Some?|
    decreases upTo
  {
    if upTo > 0 {
      StashedCounts(pending, upTo - 1);
      var before, all := set i | 0 <= i < upTo - 1 && pending[i].Some?, set i | 0 <= i < upTo && pending[i].Some?;
      assert all == if pending[upTo - 1].Some? then before + {upTo - 1} else before;
    }
  }
}
