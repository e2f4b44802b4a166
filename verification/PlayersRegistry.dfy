// The per-slot Player Elements of one process, and the published id of its own one.
//
// RegistrySpec has the operations on values; PlayersRegistries has them as the program runs them.

module RegistrySpec {
  import S = PropStore

  const HOST_RANGE_SIZE: nat := 32768
  const MAX_ELEMENTS: nat := 65536
  const INVALID_ID: nat := 0xFFFF_FFFF
  const NULL: nat := 0

  // A slot's Element; puppet is the remote player it is bound to.
  datatype Slot = Vacant | Player(id: nat, puppet: nat, mirror: bool)

  // Whose Element an id resolves to: a slot's, or one of another subsystem.
  datatype Owner = OfSlot(slot: nat) | Other(mirror: bool)

  // The element registry: the id table and the two free stacks, the last entry on top.
  datatype Ids = Ids(byId: map<nat, Owner>, hostFree: seq<nat>, localFree: seq<nat>, band: nat)

  datatype Registry = Registry(local: nat, puppets: seq<nat>, slots: seq<Slot>, published: nat, ids: Ids)

  // ---- element::Registry ----

  function BandSize(peers: nat): nat
    requires peers > 0
  {
    (MAX_ELEMENTS - HOST_RANGE_SIZE) / peers
  }

  function BandBase(band: nat, peers: nat): nat
    requires peers > 0
  {
    HOST_RANGE_SIZE + band * BandSize(peers)
  }

  function BandEnd(band: nat, peers: nat): nat
    requires peers > 0
  {
    if band + 1 == peers then MAX_ELEMENTS else BandBase(band, peers) + BandSize(peers)
  }

  // base, .., end - 1 pushed from the top down, so the lowest is popped first.
  function Descending(base: nat, end: nat): seq<nat>
    decreases end - base
  {
    if base >= end then [] else Descending(base + 1, end) + [base]
  }

  // SetLocalPeerBand.
  function SwitchBand(g: Ids, slot: nat, peers: nat): Ids
    requires peers > 0
  {
    if slot == 0 || slot >= peers || g.band == slot then g
    else g.(localFree := Descending(BandBase(slot, peers), BandEnd(slot, peers)), band := slot)
  }

  // AllocHostId or AllocLocalId: an occupied id is dropped from the stack and the call fails.
  function Alloc(g: Ids, host: bool, owner: Owner): (r: (nat, Ids))
  {
    var free := if host then g.hostFree else g.localFree;
    if free == [] then (INVALID_ID, g)
    else
      var id := free[|free| - 1];
      var popped := if host then g.(hostFree := free[..|free| - 1]) else g.(localFree := free[..|free| - 1]);
      if id in g.byId then (INVALID_ID, popped) else (id, popped.(byId := g.byId[id := owner]))
  }

  function FreeId(g: Ids, id: nat): Ids {
    if id !in g.byId then g
    else if id < HOST_RANGE_SIZE then g.(byId := g.byId - {id}, hostFree := g.hostFree + [id])
    else g.(byId := g.byId - {id}, localFree := g.localFree + [id])
  }

  function UnregisterMirror(g: Ids, id: nat): Ids {
    g.(byId := g.byId - {id})
  }

  // ---- players::Registry ----

  predicate Shape(r: Registry) { |r.puppets| == |r.slots| > 0 }

  // DropPlayerElement_.
  function Drop(r: Registry, s: nat): Registry {
    if s >= |r.slots| || r.slots[s].Vacant? then r
    else
      var el := r.slots[s];
      r.(slots := r.slots[s := Vacant],
         published := if s == r.local then INVALID_ID else r.published,
         ids := if el.mirror then UnregisterMirror(r.ids, el.id) else FreeId(r.ids, el.id))
  }

  // The allocating tail of EnsurePlayerElement_, the slot vacant.
  function Create(r: Registry, s: nat, puppet: nat): Registry
    requires s < |r.slots|
  {
    var (id, ids) := Alloc(r.ids, r.local == 0, OfSlot(s));
    if id == INVALID_ID then r.(ids := ids)
    else
      r.(slots := r.slots[s := Player(id, puppet, false)],
         published := if s == r.local then id else r.published,
         ids := ids)
  }

  // EnsurePlayerElement_.
  function Ensure(r: Registry, s: nat, puppet: nat): Registry {
    if s >= |r.slots| then r
    else if r.slots[s].Player? && r.slots[s].puppet == puppet then r
    else if r.slots[s].Player? && r.slots[s].mirror then r.(slots := r.slots[s := r.slots[s].(puppet := puppet)])
    else Create(Drop(r, s), s, puppet)
  }

  function SetLocal(r: Registry, id: nat): Registry
    requires Shape(r)
  {
    if r.local == id && id < |r.slots| && r.slots[id].Player? then r
    else
      var dropped := if r.local != id then Drop(r, r.local) else r;
      var ids := if id < |r.slots| then SwitchBand(dropped.ids, id, |r.slots|) else dropped.ids;
      var moved := dropped.(local := id, ids := ids);
      Ensure(moved, id, NULL)
  }

  function Register(r: Registry, s: nat, puppet: nat): Registry
    requires Shape(r)
  {
    if s >= |r.slots| then r else Ensure(r.(puppets := r.puppets[s := puppet]), s, puppet)
  }

  function Unregister(r: Registry, s: nat): Registry
    requires Shape(r)
  {
    if s >= |r.slots| then r else Drop(r.(puppets := r.puppets[s := NULL]), s)
  }

  function EstablishMirror(r: Registry, s: nat, wire: nat): (bool, Registry) {
    if s >= |r.slots| || wire == INVALID_ID || wire == 0 then (false, r)
    else if r.slots[s].Player? && r.slots[s].id == wire && r.slots[s].mirror then (true, r)
    else
      var puppet := if r.slots[s].Player? then r.slots[s].puppet else NULL;
      var d := Drop(r, s);
      if wire >= MAX_ELEMENTS || wire in d.ids.byId then (false, d)
      else
        (true, d.(slots := d.slots[s := Player(wire, puppet, true)],
                  published := if s == d.local then wire else d.published,
                  ids := d.ids.(byId := d.ids.byId[wire := OfSlot(s)])))
  }

  // ---- What single calls do ----

  // The allocator is the one whose pool PropStore proves to be partitioned: the same id from the same
  // stack, or the same failure.
  ghost predicate SameIds(g: Ids, s: S.Store) {
    g.hostFree == s.hostFree && g.localFree == s.localFree && g.byId.Keys == s.registry.Keys
  }

  lemma SameAllocator(g: Ids, s: S.Store, host: bool, owner: Owner, el: S.Element, id: nat)
    requires SameIds(g, s)
    ensures SameIds(Alloc(g, host, owner).1, S.AllocId(s, host, el).0)
    ensures Alloc(g, host, owner).0 == S.AllocId(s, host, el).1
    ensures SameIds(FreeId(g, id), S.FreeId(s, id))
    ensures Alloc(g, host, owner).0 != INVALID_ID ==>
              Alloc(g, host, owner).1.byId == g.byId[Alloc(g, host, owner).0 := owner]
    ensures forall e :: e in FreeId(g, id).byId ==> FreeId(g, id).byId[e] == g.byId[e]
  {
  }

  // A dropped Element of the process gives its id back to the stack of its range; a mirror's id is only
  // forgotten.
  lemma DropGivesBack(r: Registry, s: nat)
    requires Shape(r) && Registered(r) && s < |r.slots| && r.slots[s].Player?
    ensures
      var el, g := r.slots[s], Drop(r, s).ids;
      && g.byId == r.ids.byId - {el.id} && g.band == r.ids.band
      && g.hostFree == (if !el.mirror && el.id < HOST_RANGE_SIZE then r.ids.hostFree + [el.id] else r.ids.hostFree)
      && g.localFree == (if !el.mirror && el.id >= HOST_RANGE_SIZE then r.ids.localFree + [el.id] else r.ids.localFree)
  {
  }

  // Making an Element uses up one id of the role's stack, also when that id turns out to be occupied.
  lemma CreateUsesOne(r: Registry, s: nat, puppet: nat)
    requires s < |r.slots|
    ensures
      var g, g' := r.ids, Create(r, s, puppet).ids;
      if r.local == 0 then
        g'.localFree == g.localFree && |g'.hostFree| == if g.hostFree == [] then 0 else |g.hostFree| - 1
      else
        g'.hostFree == g.hostFree && |g'.localFree| == if g.localFree == [] then 0 else |g.localFree| - 1
  {
  }

  // The slot's puppet is the one registered, and so is its Element's if it has one; a mirror keeps its id.
  lemma RegisterBinds(r: Registry, s: nat, puppet: nat)
    requires Shape(r) && s < |r.slots|
    ensures
      var r' := Register(r, s, puppet);
      && r'.puppets == r.puppets[s := puppet] && r'.local == r.local
      && (r'.slots[s].Player? ==> r'.slots[s].puppet == puppet)
      && (r.slots[s].Player? && r.slots[s].mirror ==> r'.slots[s] == Player(r.slots[s].id, puppet, true))
  {
  }

  lemma UnregisterForgets(r: Registry, s: nat)
    requires Shape(r) && s < |r.slots|
    ensures Unregister(r, s).puppets == r.puppets[s := NULL] && Unregister(r, s).slots == r.slots[s := Vacant]
  {
  }

  // A slot that is no client's, or that has its band already, leaves the ids alone.
  lemma NoSwitch(g: Ids, slot: nat, peers: nat)
    requires peers > 0 && (slot == 0 || slot >= peers || slot == g.band)
    ensures SwitchBand(g, slot, peers) == g
  {
  }

  // ---- What holds between calls ----

  // The published id is the id of the local slot's Element, or invalid when there is none.
  ghost predicate Published(r: Registry) {
    r.published == if r.local < |r.slots| && r.slots[r.local].Player? then r.slots[r.local].id else INVALID_ID
  }

  // A slot's Element is what its id resolves to, and no id resolves to a slot without it.
  ghost predicate Registered(r: Registry) {
    && (forall s :: 0 <= s < |r.slots| && r.slots[s].Player? ==>
          r.slots[s].id < MAX_ELEMENTS && r.slots[s].id in r.ids.byId && r.ids.byId[r.slots[s].id] == OfSlot(s))
    && (forall id :: id in r.ids.byId && r.ids.byId[id].OfSlot? ==>
          var s := r.ids.byId[id].slot;
          s < |r.slots| && r.slots[s].Player? && r.slots[s].id == id)
    && (forall i :: 0 <= i < |r.ids.hostFree| ==> r.ids.hostFree[i] < MAX_ELEMENTS)
    && (forall i :: 0 <= i < |r.ids.localFree| ==> r.ids.localFree[i] < MAX_ELEMENTS)
  }

  ghost predicate Consistent(r: Registry) { Shape(r) && Published(r) && Registered(r) }

  lemma DistinctSlotsDistinctIds(r: Registry, s: nat, t: nat)
    requires Registered(r) && s < |r.slots| && t < |r.slots| && s != t && r.slots[s].Player? && r.slots[t].Player?
    ensures r.slots[s].id != r.slots[t].id
  {
    assert r.ids.byId[r.slots[s].id] == OfSlot(s) && r.ids.byId[r.slots[t].id] == OfSlot(t);
  }

  lemma DropKeeps(r: Registry, s: nat)
    requires Shape(r) && Registered(r)
    ensures Shape(Drop(r, s)) && Registered(Drop(r, s))
    ensures Published(r) ==> Published(Drop(r, s))
    ensures s < |r.slots| ==> Drop(r, s).slots == r.slots[s := Vacant]
  {
  }

  lemma CreateKeeps(r: Registry, s: nat, puppet: nat)
    requires Shape(r) && Registered(r) && s < |r.slots| && r.slots[s].Vacant?
    ensures Shape(Create(r, s, puppet)) && Registered(Create(r, s, puppet))
    ensures Published(r) ==> Published(Create(r, s, puppet))
  {
  }

  lemma EnsureKeeps(r: Registry, s: nat, puppet: nat)
    requires Shape(r) && Registered(r)
    ensures Shape(Ensure(r, s, puppet)) && Registered(Ensure(r, s, puppet))
    ensures Published(r) ==> Published(Ensure(r, s, puppet))
  {
    if s < |r.slots| {
      DropKeeps(r, s);
      CreateKeeps(Drop(r, s), s, puppet);
    }
  }

  lemma DescendingRange(base: nat, end: nat)
    requires end <= MAX_ELEMENTS
    ensures forall i :: 0 <= i < |Descending(base, end)| ==> base <= Descending(base, end)[i] < end
    decreases end - base
  {
  }

  lemma BandRange(band: nat, peers: nat)
    requires band < peers
    ensures BandEnd(band, peers) <= MAX_ELEMENTS
  {
    var size := BandSize(peers);
    assert size * peers <= MAX_ELEMENTS - HOST_RANGE_SIZE;
    assert (band + 1) * size <= peers * size;
  }

  // The case in which SetLocalPeerId returns without publishing: it moves to a slot whose Element is a
  // mirror, or is an Element without a puppet.
  ghost predicate MovesOntoMirror(r: Registry, id: nat) {
    && r.local != id && id < |r.slots| && r.slots[id].Player?
    && (r.slots[id].mirror || r.slots[id].puppet == NULL)
  }

  lemma SwitchKeeps(r: Registry, id: nat)
    requires Shape(r) && Registered(r)
    ensures
      var d := if r.local != id then Drop(r, r.local) else r;
      var m := d.(local := id, ids := if id < |r.slots| then SwitchBand(d.ids, id, |r.slots|) else d.ids);
      && Registered(m)
      && (Published(r) && r.local != id ==> m.published == INVALID_ID)
      && (r.local != id && id < |r.slots| ==> m.slots[id] == r.slots[id])
  {
    DropKeeps(r, r.local);
    if id < |r.slots| {
      BandRange(id, |r.slots|);
      DescendingRange(BandBase(id, |r.slots|), BandEnd(id, |r.slots|));
    }
  }

  // SetLocalPeerId keeps the published id right exactly outside that case.
  lemma SetLocalKeepsIff(r: Registry, id: nat)
    requires Consistent(r)
    ensures Shape(SetLocal(r, id)) && Registered(SetLocal(r, id))
    ensures Published(SetLocal(r, id)) <==> !MovesOntoMirror(r, id)
  {
    var d := if r.local != id then Drop(r, r.local) else r;
    var m := d.(local := id, ids := if id < |r.slots| then SwitchBand(d.ids, id, |r.slots|) else d.ids);
    DropKeeps(r, r.local);
    SwitchKeeps(r, id);
    EnsureKeeps(m, id, NULL);
    if id < |r.slots| && m.slots[id].Player? && !MovesOntoMirror(r, id) && r.local != id {
      DropKeeps(m, id);
      CreateKeeps(Drop(m, id), id, NULL);
    }
  }

  lemma EstablishKeeps(r: Registry, s: nat, wire: nat)
    requires Consistent(r)
    ensures
      var (ok, r') := EstablishMirror(r, s, wire);
      && Consistent(r')
      && (ok ==> r'.slots[s].Player? && r'.slots[s].mirror && r'.slots[s].id == wire)
      && (!ok ==> r' == r || r'.slots[s].Vacant?)
      && (ok && r.slots[s].Player? ==> r'.slots[s].puppet == r.slots[s].puppet)
  {
    DropKeeps(r, s);
  }

  // Registration fails only on a bad id or on one that another Element has.
  lemma EstablishFailsIff(r: Registry, s: nat, wire: nat)
    requires Consistent(r) && s < |r.slots|
    ensures !EstablishMirror(r, s, wire).0 <==>
              wire == 0 || wire >= MAX_ELEMENTS || (wire in r.ids.byId && r.ids.byId[wire] != OfSlot(s))
  {
    DropKeeps(r, s);
  }

  // ---- Runs ----

  datatype Call =
    | SetLocalPeerId(id: nat)
    | RegisterPuppet(slot: nat, puppet: nat)
    | UnregisterPuppet(slot: nat)
    | EstablishMirrorForSlot(slot: nat, wire: nat)
    | Elsewhere(ids: Ids)

  // Other subsystems take and free ids of their own Elements only.
  ghost predicate LeavesSlots(g: Ids, g': Ids) {
    && (forall id :: (id in g.byId && g.byId[id].OfSlot?) ==> id in g'.byId && g'.byId[id] == g.byId[id])
    && (forall id :: (id in g'.byId && g'.byId[id].OfSlot?) ==> id in g.byId && g'.byId[id] == g.byId[id])
    && (forall i :: 0 <= i < |g'.hostFree| ==> g'.hostFree[i] < MAX_ELEMENTS)
    && (forall i :: 0 <= i < |g'.localFree| ==> g'.localFree[i] < MAX_ELEMENTS)
    && g'.band == g.band
  }

  ghost predicate Allowed(r: Registry, c: Call) {
    match c
    case SetLocalPeerId(id) => id != r.local && id < |r.slots| && r.slots[id].Player? ==> !r.slots[id].mirror
    case RegisterPuppet(_, puppet) => puppet != NULL
    case Elsewhere(ids) => LeavesSlots(r.ids, ids)
    case _ => true
  }

  ghost function Apply(r: Registry, c: Call): Registry
    requires Shape(r)
  {
    match c
    case SetLocalPeerId(id) => SetLocal(r, id)
    case RegisterPuppet(s, puppet) => Register(r, s, puppet)
    case UnregisterPuppet(s) => Unregister(r, s)
    case EstablishMirrorForSlot(s, wire) => EstablishMirror(r, s, wire).1
    case Elsewhere(ids) => r.(ids := ids)
  }

  ghost predicate Runs(r: Registry, calls: seq<Call>)
    requires Shape(r)
    decreases |calls|
  {
    calls == [] || (Allowed(r, calls[0]) && Shape(Apply(r, calls[0])) && Runs(Apply(r, calls[0]), calls[1..]))
  }

  ghost function After(r: Registry, calls: seq<Call>): Registry
    requires Shape(r) && Runs(r, calls)
    decreases |calls|
  {
    if calls == [] then r else After(Apply(r, calls[0]), calls[1..])
  }

  // An Element of another slot that is not a mirror has a puppet.
  ghost predicate OthersHavePuppets(r: Registry) {
    forall s :: 0 <= s < |r.slots| && s != r.local && r.slots[s].Player? && !r.slots[s].mirror ==>
      r.slots[s].puppet != NULL
  }

  lemma EnsureKeepsPuppets(m: Registry, id: nat)
    requires Shape(m) && m.local == id && OthersHavePuppets(m)
    ensures OthersHavePuppets(Ensure(m, id, NULL))
  {
    var m' := Ensure(m, id, NULL);
    assert |m'.slots| == |m.slots| && forall s :: 0 <= s < |m.slots| && s != id ==> m'.slots[s] == m.slots[s];
  }

  lemma SetLocalKeepsPuppets(r: Registry, id: nat)
    requires Shape(r) && OthersHavePuppets(r)
    ensures OthersHavePuppets(SetLocal(r, id))
  {
    var d := if r.local != id then Drop(r, r.local) else r;
    var m := d.(local := id, ids := if id < |r.slots| then SwitchBand(d.ids, id, |r.slots|) else d.ids);
    assert forall s :: 0 <= s < |r.slots| && s != id && d.slots[s].Player? && !d.slots[s].mirror ==>
        d.slots[s].puppet != NULL;
    EnsureKeepsPuppets(m, id);
  }

  lemma RegisterKeeps(r: Registry, s: nat, puppet: nat)
    requires Consistent(r)
    ensures Consistent(Register(r, s, puppet))
  {
    if s < |r.slots| { EnsureKeeps(r.(puppets := r.puppets[s := puppet]), s, puppet); }
  }

  lemma RegisterKeepsPuppets(r: Registry, s: nat, puppet: nat)
    requires Shape(r) && OthersHavePuppets(r) && puppet != NULL
    ensures OthersHavePuppets(Register(r, s, puppet))
  {
  }

  lemma CallKeepsConsistent(r: Registry, c: Call)
    requires Consistent(r) && OthersHavePuppets(r) && Allowed(r, c)
    ensures Consistent(Apply(r, c)) && OthersHavePuppets(Apply(r, c))
  {
    match c
    case SetLocalPeerId(id) =>
      SetLocalKeepsIff(r, id);
      SetLocalKeepsPuppets(r, id);
    case RegisterPuppet(s, puppet) =>
      RegisterKeeps(r, s, puppet);
      RegisterKeepsPuppets(r, s, puppet);
    case UnregisterPuppet(s) => if s < |r.slots| { DropKeeps(r.(puppets := r.puppets[s := NULL]), s); }
    case EstablishMirrorForSlot(s, wire) => EstablishKeeps(r, s, wire);
    case Elsewhere(_) =>
  }

  lemma {:induction false} EveryRunKeepsConsistent(r: Registry, calls: seq<Call>)
    requires Consistent(r) && OthersHavePuppets(r) && Runs(r, calls)
    ensures Consistent(After(r, calls)) && OthersHavePuppets(After(r, calls))
    decreases |calls|
  {
    if calls != [] {
      CallKeepsConsistent(r, calls[0]);
      EveryRunKeepsConsistent(Apply(r, calls[0]), calls[1..]);
    }
  }

  // ---- Bands ----

  ghost predicate InBand(id: nat, band: nat, peers: nat)
    requires peers > 0
  {
    BandBase(band, peers) <= id < BandEnd(band, peers)
  }

  lemma MultiplesOrder(a: nat, b: nat, size: nat)
    requires a <= b
    ensures a * size <= b * size && (a + 1) * size == a * size + size
  {
  }

  lemma BandsOrder(b: nat, c: nat, peers: nat)
    requires b <= c && peers > 0
    ensures BandBase(b, peers) <= BandBase(c, peers) && BandBase(b + 1, peers) == BandBase(b, peers) + BandSize(peers)
  {
    MultiplesOrder(b, c, BandSize(peers));
  }

  lemma BandStarts(b: nat, c: nat, peers: nat)
    requires b < c < peers
    ensures BandEnd(b, peers) <= BandBase(c, peers) <= BandEnd(c, peers) <= MAX_ELEMENTS
  {
    BandsOrder(b, b, peers);
    BandsOrder(b + 1, c, peers);
    BandRange(c, peers);
    if c + 1 == peers { BandRange(b, peers); LastBandStarts(c, peers); }
  }

  lemma LastBandStarts(c: nat, peers: nat)
    requires c + 1 == peers
    ensures BandBase(c, peers) <= MAX_ELEMENTS
  {
    MultiplesOrder(c, peers, BandSize(peers));
  }

  // No id is in two bands.
  lemma BandsApart(id: nat, b: nat, c: nat, peers: nat)
    requires b < peers && c < peers && b != c && InBand(id, b, peers)
    ensures !InBand(id, c, peers)
  {
    if b < c { BandStarts(b, c, peers); } else { BandStarts(c, b, peers); }
  }

  lemma BandsOfMultiples(x: nat, size: nat, peers: nat)
    requires size > 0 && peers > 0
    ensures
      var k := if x / size >= peers then peers - 1 else x / size;
      k * size <= x && (k + 1 < peers ==> x < (k + 1) * size)
  {
    assert x == (x / size) * size + x % size;
    if x / size >= peers { assert (x / size) * size >= (peers - 1) * size; }
  }

  lemma BandOfId(id: nat, peers: nat) returns (b: nat)
    requires peers > 0 && HOST_RANGE_SIZE <= id < MAX_ELEMENTS
    ensures b < peers && InBand(id, b, peers)
  {
    var size, x := BandSize(peers), id - HOST_RANGE_SIZE;
    if size == 0 {
      b := peers - 1;
    } else {
      b := if x / size >= peers then peers - 1 else x / size;
      BandsOfMultiples(x, size, peers);
    }
  }

  // Every id of the peer range is in a band, and no other id is.
  lemma BandsCover(id: nat, peers: nat)
    requires peers > 0
    ensures (exists b: nat :: b < peers && InBand(id, b, peers)) <==> HOST_RANGE_SIZE <= id < MAX_ELEMENTS
  {
    if b: nat :| b < peers && InBand(id, b, peers) { BandRange(b, peers); }
    if HOST_RANGE_SIZE <= id < MAX_ELEMENTS { var b := BandOfId(id, peers); }
  }

  // The stack of a band: each of its ids once, the lowest on top.
  lemma {:induction false} DescendingIs(base: nat, end: nat)
    ensures |Descending(base, end)| == if base < end then end - base else 0
    ensures forall i :: 0 <= i < |Descending(base, end)| ==> Descending(base, end)[i] == end - 1 - i
    decreases end - base
  {
    if base < end { DescendingIs(base + 1, end); }
  }

  // A switch to another slot's band leaves exactly that band's ids to be minted, the lowest first.
  lemma SwitchYieldsBand(g: Ids, slot: nat, peers: nat)
    requires 1 <= slot < peers && g.band != slot
    ensures
      var g' := SwitchBand(g, slot, peers);
      && (forall id: nat :: id in g'.localFree <==> InBand(id, slot, peers))
      && (BandSize(peers) > 0 ==>
            Alloc(g', false, OfSlot(slot)).0 ==
            if BandBase(slot, peers) in g.byId then INVALID_ID else BandBase(slot, peers))
      && g'.byId == g.byId && g'.hostFree == g.hostFree
  {
    var base, end, free := BandBase(slot, peers), BandEnd(slot, peers), SwitchBand(g, slot, peers).localFree;
    DescendingIs(base, end);
    BandRange(slot, peers);
    forall id: nat | InBand(id, slot, peers) ensures id in free { assert free[end - 1 - id] == id; }
  }

  // Every id this process could hand out from the peer range now or later lies in its band.
  ghost predicate Banded(r: Registry)
    requires Shape(r)
  {
    && (forall i :: 0 <= i < |r.ids.localFree| ==> InBand(r.ids.localFree[i], r.ids.band, |r.slots|))
    && (forall s ::
          0 <= s < |r.slots| && r.slots[s].Player? && !r.slots[s].mirror && r.slots[s].id >= HOST_RANGE_SIZE ==>
          InBand(r.slots[s].id, r.ids.band, |r.slots|))
  }

  lemma DropKeepsBanded(r: Registry, s: nat)
    requires Shape(r) && Registered(r) && Banded(r)
    ensures Banded(Drop(r, s))
  {
  }

  lemma CreateKeepsBanded(r: Registry, s: nat, puppet: nat)
    requires Shape(r) && Banded(r) && s < |r.slots|
    requires forall i :: 0 <= i < |r.ids.hostFree| ==> r.ids.hostFree[i] < HOST_RANGE_SIZE
    ensures Shape(Create(r, s, puppet)) && Banded(Create(r, s, puppet))
  {
  }

  lemma EnsureKeepsBanded(r: Registry, s: nat, puppet: nat)
    requires Shape(r) && Registered(r) && Banded(r)
    requires forall i :: 0 <= i < |r.ids.hostFree| ==> r.ids.hostFree[i] < HOST_RANGE_SIZE
    ensures Shape(Ensure(r, s, puppet)) && Banded(Ensure(r, s, puppet))
  {
    DropKeepsBanded(r, s);
    if s < |r.slots| { CreateKeepsBanded(Drop(r, s), s, puppet); }
  }

  // An Element that outlives the switch to the slot's band gives its id back to that band's stack, and
  // the next Element made gets it: an id of another client's band, or of the band before the slot is known.
  lemma FreedEarlyIdIsIssuedNext(g: Ids, id: nat, slot: nat, peers: nat, owner: Owner)
    requires 1 <= slot < peers && g.band != slot && id in g.byId && HOST_RANGE_SIZE <= id < MAX_ELEMENTS
    ensures Alloc(FreeId(SwitchBand(g, slot, peers), id), false, owner).0 == id
  {
  }

  // The switch leaves the process inside its band exactly when no Element of its own from before is alive.
  lemma SwitchIsBandedIff(r: Registry, slot: nat)
    requires Shape(r) && Registered(r) && 1 <= slot < |r.slots| && r.ids.band != slot
    ensures
      Banded(r.(ids := SwitchBand(r.ids, slot, |r.slots|))) <==>
      forall s :: 0 <= s < |r.slots| && r.slots[s].Player? && !r.slots[s].mirror && r.slots[s].id >= HOST_RANGE_SIZE ==>
        InBand(r.slots[s].id, slot, |r.slots|)
  {
    BandRange(slot, |r.slots|);
    DescendingRange(BandBase(slot, |r.slots|), BandEnd(slot, |r.slots|));
  }
}

module PlayersRegistries {
  import opened RegistrySpec

  class PlayersRegistry {
    var local: nat
    var puppets: seq<nat>
    var slots: seq<Slot>
    var published: nat
    var ids: Ids

    ghost function View(): Registry
      reads this
    {
      Registry(local, puppets, slots, published, ids)
    }

    method DropPlayerElement(s: nat)
      modifies this`slots, this`published, this`ids
      ensures View() == Drop(old(View()), s)
    {
      if s >= |slots| || slots[s].Vacant? { return; }
      var el := slots[s];
      if s == local { published := INVALID_ID; }
      slots := slots[s := Vacant];
      ids := if el.mirror then UnregisterMirror(ids, el.id) else FreeId(ids, el.id);
    }

    method EnsurePlayerElement(s: nat, puppet: nat)
      modifies this`slots, this`published, this`ids
      ensures View() == Ensure(old(View()), s, puppet)
    {
      if s >= |slots| { return; }
      if slots[s].Player? {
        if slots[s].puppet == puppet { return; }
        if slots[s].mirror {
          slots := slots[s := slots[s].(puppet := puppet)];
          return;
        }
        DropPlayerElement(s);
      }
      var (id, taken) := Alloc(ids, local == 0, OfSlot(s));
      ids := taken;
      if id == INVALID_ID { return; }
      slots := slots[s := Player(id, puppet, false)];
      if s == local { published := id; }
    }

    method SetLocalPeerId(id: nat)
      requires Consistent(View())
      modifies this`local, this`slots, this`published, this`ids
      ensures View() == SetLocal(old(View()), id)
      ensures Registered(View())
      ensures !MovesOntoMirror(old(View()), id) ==> Consistent(View())
    {
      SetLocalKeepsIff(View(), id);
      if local == id && id < |slots| && slots[id].Player? { return; }
      if local != id { DropPlayerElement(local); }
      local := id;
      if id < |slots| {
        ids := SwitchBand(ids, id, |slots|);
        EnsurePlayerElement(id, NULL);
      }
    }

    method RegisterPuppet(s: nat, puppet: nat)
      requires Consistent(View())
      modifies this`puppets, this`slots, this`published, this`ids
      ensures View() == Register(old(View()), s, puppet)
      ensures Consistent(View())
    {
      if s >= |slots| { return; }
      RegisterKeeps(View(), s, puppet);
      puppets := puppets[s := puppet];
      EnsurePlayerElement(s, puppet);
    }

    method UnregisterPuppet(s: nat)
      requires Consistent(View())
      modifies this`puppets, this`slots, this`published, this`ids
      ensures View() == Unregister(old(View()), s)
      ensures Consistent(View())
    {
      if s >= |slots| { return; }
      DropKeeps(View().(puppets := puppets[s := NULL]), s);
      puppets := puppets[s := NULL];
      DropPlayerElement(s);
    }

    method EstablishMirrorForSlot(s: nat, wire: nat) returns (ok: bool)
      modifies this`slots, this`published, this`ids
      ensures (ok, View()) == EstablishMirror(old(View()), s, wire)
    {
      if s >= |slots| || wire == INVALID_ID || wire == 0 { return false; }
      if slots[s].Player? && slots[s].id == wire && slots[s].mirror { return true; }
      var puppet := if slots[s].Player? then slots[s].puppet else NULL;
      DropPlayerElement(s);
      slots := slots[s := Player(INVALID_ID, puppet, false)];
      if wire >= MAX_ELEMENTS || wire in ids.byId {
        slots := slots[s := Vacant];
        assert slots == Drop(old(View()), s).slots;
        return false;
      }
      ids := ids.(byId := ids.byId[wire := OfSlot(s)]);
      slots := slots[s := Player(wire, puppet, true)];
      assert slots == Drop(old(View()), s).slots[s := Player(wire, puppet, true)];
      if s == local { published := wire; }
      return true;
    }
  }
}

// The client state of the identity protocol is the registry's, with puppets forgotten.
module RegistryRefinement {
  import R = RegistrySpec
  import H = HandshakeSpec

  function Entries(slots: seq<R.Slot>): (e: seq<H.Entry>)
    ensures |e| == |slots|
  {
    seq(|slots|, i requires 0 <= i < |slots| =>
      if slots[i].Vacant? then H.Empty else if slots[i].mirror then H.Mirror(slots[i].id) else H.Local(slots[i].id))
  }

  // The ids of other subsystems' Elements.
  function Others(g: R.Ids): set<nat> { set id | id in g.byId && g.byId[id].Other? }

  lemma TakenIff(r: R.Registry, s: nat, wire: nat)
    requires R.Registered(r)
    ensures (wire in r.ids.byId && r.ids.byId[wire] != R.OfSlot(s)) <==>
              wire in Others(r.ids) || H.HeldElsewhere(Entries(r.slots), s, wire)
  {
    var e := Entries(r.slots);
    if wire in r.ids.byId && r.ids.byId[wire].OfSlot? && r.ids.byId[wire].slot != s {
      assert H.Holds(e[r.ids.byId[wire].slot], wire);
    }
    forall z | 0 <= z < |e| && z != s && H.Holds(e[z], wire) ensures r.ids.byId[wire] == R.OfSlot(z) {}
  }

  // Mirror registration is the protocol's, for every id.
  lemma EstablishRefines(r: R.Registry, s: nat, wire: nat)
    requires R.Consistent(r)
    ensures
      var r' := R.EstablishMirror(r, s, wire).1;
      Entries(r'.slots) == H.Establish(Entries(r.slots), Others(r.ids), s, wire) && Others(r'.ids) == Others(r.ids)
  {
    R.DropKeeps(r, s);
    TakenIff(r, s, wire);
    if s < |r.slots| { R.EstablishFailsIff(r, s, wire); }
    var e, r' := Entries(r.slots), R.EstablishMirror(r, s, wire).1;
    assert forall z :: 0 <= z < |r.slots| && z != s ==> r'.slots[z] == r.slots[z];
  }

  lemma UnregisterRefines(r: R.Registry, s: nat)
    requires R.Consistent(r) && s < |r.slots|
    ensures
      var r' := R.Unregister(r, s);
      Entries(r'.slots) == Entries(r.slots)[s := H.Empty] && Others(r'.ids) == Others(r.ids)
  {
  }

  // The id that a new Element of a vacant slot gets, if any.
  function NextId(r: R.Registry, s: nat): nat { R.Alloc(r.ids, r.local == 0, R.OfSlot(s)).0 }

  lemma RegisterFrame(r: R.Registry, s: nat, puppet: nat)
    requires R.Shape(r) && s < |r.slots|
    ensures
      var slot, r' := r.slots[s], R.Register(r, s, puppet);
      && |r'.slots| == |r.slots|
      && Entries(r'.slots) == Entries(r.slots)[s := Entries(r'.slots)[s]]
      && (slot.Vacant? ==> Entries(r'.slots)[s] == H.Pose(Entries(r.slots), s, NextId(r, s))[s])
      && (slot.Player? && (slot.mirror || slot.puppet == puppet) ==> Entries(r'.slots) == Entries(r.slots))
      && (slot.Player? && !slot.mirror && slot.puppet != puppet ==>
            r'.slots[s] == R.Register(R.Drop(r, s), s, puppet).slots[s])
  {
    var e, e' := Entries(r.slots), Entries(R.Register(r, s, puppet).slots);
    assert forall z :: 0 <= z < |e| && z != s ==> e'[z] == e[z];
  }

  // A first pose registers the puppet, and that is the protocol's Pose; a placeholder with another puppet
  // is made again.
  lemma RegisterRefines(r: R.Registry, s: nat, puppet: nat)
    requires R.Consistent(r) && s < |r.slots|
    ensures
      var e, e', slot := Entries(r.slots), Entries(R.Register(r, s, puppet).slots), r.slots[s];
      if slot.Player? && !slot.mirror && slot.puppet != puppet then
        e' == H.Pose(e[s := H.Empty], s, NextId(R.Drop(r, s), s))
      else e' == H.Pose(e, s, NextId(r, s))
  {
    RegisterFrame(r, s, puppet);
    DropRefines(r, s);
    if r.slots[s].Player? {
      R.DropKeeps(r, s);
      RegisterFrame(R.Drop(r, s), s, puppet);
    }
  }

  function View(r: R.Registry, joinSent: bool, nicks: seq<string>): H.Client {
    H.Client(r.local, r.published, joinSent, Entries(r.slots), Others(r.ids), nicks)
  }

  // The registry as SetLocalPeerId leaves it before it makes the own Element.
  function Moved(r: R.Registry, id: nat): R.Registry
    requires R.Shape(r)
  {
    var d := if r.local != id then R.Drop(r, r.local) else r;
    d.(local := id, ids := if id < |r.slots| then R.SwitchBand(d.ids, id, |r.slots|) else d.ids)
  }

  lemma DropRefines(r: R.Registry, s: nat)
    requires R.Consistent(r)
    ensures
      var d := R.Drop(r, s);
      && Entries(d.slots) == (if s < |r.slots| then Entries(r.slots)[s := H.Empty] else Entries(r.slots))
      && Others(d.ids) == Others(r.ids)
  {
    R.DropKeeps(r, s);
    var e, e' := Entries(r.slots), Entries(R.Drop(r, s).slots);
    assert forall z :: 0 <= z < |e| && z != s ==> e'[z] == e[z];
  }

  lemma MovedRefines(r: R.Registry, id: nat)
    requires R.Consistent(r)
    ensures
      var m, c := Moved(r, id), Entries(r.slots);
      && Entries(m.slots) == (if r.local != id && r.local < |c| then c[r.local := H.Empty] else c)
      && m.published == (if r.local != id && r.local < |c| && c[r.local] != H.Empty then R.INVALID_ID else r.published)
      && Others(m.ids) == Others(r.ids) && m.local == id && R.Registered(m)
      && (r.local != id ==> m.published == R.INVALID_ID)
  {
    DropRefines(r, r.local);
    R.SwitchKeeps(r, id);
  }

  // The own Element is made, or made again, unless the slot has a mirror.
  lemma OwnRefines(m: R.Registry, id: nat)
    requires R.Shape(m) && R.Registered(m) && m.local == id && id < |m.slots|
    requires m.slots[id].Player? && !m.slots[id].mirror ==> m.slots[id].puppet != R.NULL
    ensures
      var e, e', minted := m.slots[id], R.Ensure(m, id, R.NULL), NextId(R.Drop(m, id), id);
      && Others(e'.ids) == Others(m.ids) && e'.local == id
      && (if e.Player? && e.mirror then Entries(e'.slots) == Entries(m.slots) && e'.published == m.published
          else if minted == R.INVALID_ID then
            && Entries(e'.slots) == Entries(m.slots)[id := H.Empty]
            && e'.published == if e.Player? then R.INVALID_ID else m.published
          else Entries(e'.slots) == Entries(m.slots)[id := H.Local(minted)] && e'.published == minted)
  {
    R.DropKeeps(m, id);
    var e, e' := Entries(m.slots), Entries(R.Ensure(m, id, R.NULL).slots);
    assert forall z :: 0 <= z < |e| && z != id ==> e'[z] == e[z];
  }

  // SetLocalPeerId on a client is the protocol's, with the id that the slot's band yields.
  lemma SetLocalRefines(r: R.Registry, id: nat, joinSent: bool, nicks: seq<string>)
    requires R.Consistent(r) && R.OthersHavePuppets(r) && |nicks| == |r.slots|
    ensures
      var minted := NextId(R.Drop(Moved(r, id), id), id);
      View(R.SetLocal(r, id), joinSent, nicks) == H.SetLocal(View(r, joinSent, nicks), id, minted)
  {
    MovedRefines(r, id);
    if id < |r.slots| && !(r.local == id && r.slots[id].Player?) { OwnRefines(Moved(r, id), id); }
  }

  // Both descriptions of the bands agree.
  lemma SameBands(id: nat, b: nat, peers: nat)
    requires b < peers && H.PeerRange(id)
    ensures R.InBand(id, b, peers) <==> H.InBand(id, b, peers)
  {
    var size, k := R.BandSize(peers), H.BandOf(id, peers);
    if size > 0 { R.BandsOfMultiples(id - H.HOST_RANGE_SIZE, size, peers); }
    assert R.InBand(id, k, peers);
    if b != k && R.InBand(id, b, peers) { R.BandsApart(id, b, k, peers); }
  }

  lemma MintedIfBanded(id: nat, s: nat, peers: nat)
    requires s < peers && R.InBand(id, s, peers)
    ensures H.Minted(id, s, peers)
  {
    R.BandsCover(id, peers);
    assert H.PeerRange(id);
    SameBands(id, s, peers);
    assert H.InBand(id, s, peers);
  }

  lemma MintedFrom(g: R.Ids, s: nat, owner: R.Owner, peers: nat)
    requires s < peers && forall i :: 0 <= i < |g.localFree| ==> R.InBand(g.localFree[i], s, peers)
    ensures H.Minted(R.Alloc(g, false, owner).0, s, peers)
  {
    if g.localFree != [] { MintedIfBanded(g.localFree[|g.localFree| - 1], s, peers); }
  }

  // The id a client mints for its own slot is of the slot's band if the ids left to it are, and is the
  // band's lowest after a switch.  They are after a switch, unless an early Element of that slot has just
  // been freed onto them.
  lemma SetLocalMintsInBand(r: R.Registry, id: nat)
    requires R.Consistent(r) && 1 <= id < |r.slots|
    requires
      if r.ids.band == id then
        var free := R.Drop(Moved(r, id), id).ids.localFree;
        forall i :: 0 <= i < |free| ==> R.InBand(free[i], id, |r.slots|)
      else
        r.slots[id].Player? && !r.slots[id].mirror && r.slots[id].id >= R.HOST_RANGE_SIZE ==>
          R.InBand(r.slots[id].id, id, |r.slots|)
    ensures
      var minted, lowest := NextId(R.Drop(Moved(r, id), id), id), R.BandBase(id, |r.slots|);
      && H.Minted(minted, id, |r.slots|)
      && (r.ids.band != id && r.slots[id].Vacant? && R.BandSize(|r.slots|) > 0 ==>
            minted == if lowest in Moved(r, id).ids.byId then R.INVALID_ID else lowest)
  {
    var dropped, m := if r.local != id then R.Drop(r, r.local) else r, Moved(r, id);
    R.DropKeeps(r, r.local);
    if r.ids.band != id {
      assert dropped.ids.band == r.ids.band;
      R.SwitchYieldsBand(dropped.ids, id, |r.slots|);
      DroppedIntoBand(m, id, r.slots[id]);
    }
    MintedFrom(R.Drop(m, id).ids, id, R.OfSlot(id), |r.slots|);
  }

  lemma DroppedIntoBand(m: R.Registry, id: nat, el: R.Slot)
    requires id < |m.slots| && (m.slots[id].Vacant? || m.slots[id] == el)
    requires forall e: nat :: e in m.ids.localFree ==> R.InBand(e, id, |m.slots|)
    requires el.Player? && !el.mirror && el.id >= R.HOST_RANGE_SIZE ==> R.InBand(el.id, id, |m.slots|)
    ensures
      var free := R.Drop(m, id).ids.localFree;
      forall i :: 0 <= i < |free| ==> R.InBand(free[i], id, |m.slots|)
  {
    var free := R.Drop(m, id).ids.localFree;
    forall i | 0 <= i < |free| ensures R.InBand(free[i], id, |m.slots|) {
      if i < |m.ids.localFree| { assert m.ids.localFree[i] in m.ids.localFree; }
    }
  }

  ghost predicate MintsInBand(r: R.Registry, id: nat)
    requires R.Shape(r)
  {
    H.Minted(NextId(R.Drop(Moved(r, id), id), id), id, |r.slots|)
  }

  // A process that has not been told its slot: no Element, the band of slot 0.
  function Fresh(): R.Registry {
    R.Registry(0xFF, [R.NULL, R.NULL, R.NULL, R.NULL], [R.Vacant, R.Vacant, R.Vacant, R.Vacant], R.INVALID_ID,
               R.Ids(map[], [], [], 0))
  }

  // Of four slots, the client of slot 1 publishes 40960, that of slot 2 publishes 49152.
  lemma FreshClientsPublish(r: R.Registry)
    requires r == Fresh()
    ensures R.Consistent(r) && R.Runs(r, [R.SetLocalPeerId(1)]) && R.Runs(r, [R.SetLocalPeerId(2)])
    ensures R.After(r, [R.SetLocalPeerId(1)]).published == R.SetLocal(r, 1).published == 40960
    ensures R.After(r, [R.SetLocalPeerId(2)]).published == R.SetLocal(r, 2).published == 49152
  {
    FreshClientPublishes(r, 1);
    FreshClientPublishes(r, 2);
  }

  lemma FreshIsConsistent(r: R.Registry)
    requires r == Fresh()
    ensures R.Consistent(r) && R.OthersHavePuppets(r) && |r.slots| == 4 && r.ids.band == 0 && r.local == 0xFF
    ensures r.ids.byId == map[] && forall s :: 0 <= s < 4 ==> r.slots[s].Vacant?
  {
  }

  lemma FreshMints(r: R.Registry, id: nat)
    requires r == Fresh() && 1 <= id < 4
    ensures R.Consistent(r) && NextId(R.Drop(Moved(r, id), id), id) == 32768 + id * 8192
  {
    FreshIsConsistent(r);
    SetLocalMintsInBand(r, id);
    assert R.BandSize(4) == 8192;
    assert R.BandBase(id, 4) == 32768 + id * 8192;
  }

  lemma FreshClientPublishes(r: R.Registry, id: nat)
    requires r == Fresh() && 1 <= id < 4
    ensures
      && R.Consistent(r) && R.Runs(r, [R.SetLocalPeerId(id)])
      && R.After(r, [R.SetLocalPeerId(id)]).published == R.SetLocal(r, id).published == 32768 + id * 8192
  {
    FreshIsConsistent(r);
    FreshMints(r, id);
    MovedRefines(r, id);
    assert Moved(r, id).slots[id] == r.slots[id];
    OwnRefines(Moved(r, id), id);
    OneCall(r, id);
  }

  lemma OneCall(r: R.Registry, id: nat)
    requires R.Consistent(r) && id < |r.slots| && r.slots[id].Vacant?
    ensures R.Runs(r, [R.SetLocalPeerId(id)]) && R.After(r, [R.SetLocalPeerId(id)]) == R.SetLocal(r, id)
  {
    R.SetLocalKeepsIff(r, id);
    assert [R.SetLocalPeerId(id)][1..] == [];
  }

  // Two clients that mint in the bands of their slots never mint the same own id.
  lemma ClientsMintApart(r: R.Registry, id: nat, r2: R.Registry, id2: nat)
    requires R.Shape(r) && R.Shape(r2) && |r.slots| == |r2.slots| && id < |r.slots| && id2 < |r.slots| && id != id2
    requires MintsInBand(r, id) && MintsInBand(r2, id2)
    ensures
      var minted, minted2 := NextId(R.Drop(Moved(r, id), id), id), NextId(R.Drop(Moved(r2, id2), id2), id2);
      minted != R.INVALID_ID || minted2 != R.INVALID_ID ==> minted != minted2
  {
  }
}
