// Host-relayed player identity: AssignPeerSlot, Join and the two-way PlayerJoined over FIFO channels.
//
// Slots 0 .. peers-1; slot 0 is the host.  HandshakeSpec has the handlers as functions on what they
// read and write, and the network of one host and its client processes as a state machine over them.
// A process keeps its slot, its Elements and its mirrors when it disconnects and connects again.

module HandshakeSpec {
  import opened Nickname

  const HOST_RANGE_SIZE: nat := 32768
  const MAX_ELEMENTS: nat := 65536
  const INVALID_ID: nat := 0xFFFF_FFFF

  // A peer slot's Player Element: none, a locally allocated one, or the mirror of a remote id.
  datatype Entry = Empty | Local(id: nat) | Mirror(id: nat)

  datatype Msg =
    | Assign(slot: nat, hostId: nat)
    | PlayerJoined(slot: nat, id: nat, nick: string)

  datatype Join = Join(id: nat, nick: string)

  predicate HostRange(id: nat) { 1 <= id < HOST_RANGE_SIZE }

  predicate PeerRange(id: nat) { HOST_RANGE_SIZE <= id < MAX_ELEMENTS }

  // The two ranges divide the ids between them, at 32768; 0 is in neither.
  lemma RangesDivide(id: nat)
    ensures HostRange(id) || PeerRange(id) <==> 0 < id < 65536
    ensures !(HostRange(id) && PeerRange(id)) && HostRange(32767) && PeerRange(32768)
  {
  }

  // The slot whose exclusive band an id lies in; the last band takes the remainder.
  function BandOf(id: nat, peers: nat): nat
    requires peers > 0 && id >= HOST_RANGE_SIZE
  {
    var size := (MAX_ELEMENTS - HOST_RANGE_SIZE) / peers;
    if size == 0 || (id - HOST_RANGE_SIZE) / size >= peers then peers - 1 else (id - HOST_RANGE_SIZE) / size
  }

  predicate InBand(id: nat, band: nat, peers: nat) { peers > 0 && PeerRange(id) && BandOf(id, peers) == band }

  predicate Holds(e: Entry, id: nat) { !e.Empty? && e.id == id }

  // Another slot's Element has the id.
  predicate HeldElsewhere(entries: seq<Entry>, slot: nat, id: nat) {
    exists z :: 0 <= z < |entries| && z != slot && Holds(entries[z], id)
  }

  // Registry::EstablishMirrorForSlot: registration fails on an id that another Element has, another
  // slot's or one of the process's other Elements.
  function Establish(entries: seq<Entry>, others: set<nat>, slot: nat, id: nat): (r: seq<Entry>)
    ensures |r| == |entries|
  {
    if slot >= |entries| || id == INVALID_ID || id == 0 || entries[slot] == Mirror(id) then entries
    else if id >= MAX_ELEMENTS || id in others || HeldElsewhere(entries, slot, id) then entries[slot := Empty]
    else entries[slot := Mirror(id)]
  }

  // A first pose creates the slot's Element if it has none, with a minted id if there is one to be had.
  function Pose(entries: seq<Entry>, slot: nat, minted: nat): seq<Entry>
    requires slot < |entries|
  {
    if entries[slot] == Empty && minted != INVALID_ID then entries[slot := Local(minted)] else entries
  }

  // ---- The host's handler ----

  // down[x] is the FIFO channel to the client in slot x.
  datatype Host = Host(entries: seq<Entry>, nicks: seq<string>, down: seq<seq<Msg>>)

  predicate HostShape(h: Host, peers: nat) {
    |h.entries| == |h.nicks| == |h.down| == peers > 0
  }

  function Announce(down: seq<seq<Msg>>, ready: seq<bool>, joiner: nat, m: Msg, x: nat): (r: seq<seq<Msg>>)
    requires |down| == |ready|
    ensures |r| == |down|
    decreases |down| - x
  {
    if x >= |down| then down
    else Announce(if x != joiner && ready[x] then down[x := down[x] + [m]] else down, ready, joiner, m, x + 1)
  }

  // What the joiner is told about the clients in slots below `upTo`.
  function Roster(h: Host, ready: seq<bool>, joiner: nat, upTo: nat): seq<Msg>
    requires |h.entries| == |h.nicks| == |ready| && upTo <= |ready|
  {
    if upTo <= 1 then []
    else
      var x := upTo - 1;
      Roster(h, ready, joiner, x) +
      if x != joiner && ready[x] && h.entries[x].Mirror? then [PlayerJoined(x, h.entries[x].id, h.nicks[x])] else []
  }

  function Broadcast(h: Host, ready: seq<bool>, joiner: nat, id: nat): Host
    requires HostShape(h, |ready|) && joiner < |ready|
  {
    if joiner < 1 then h
    else
      var told := Announce(h.down, ready, joiner, PlayerJoined(joiner, id, h.nicks[joiner]), 1);
      h.(down := told[joiner := told[joiner] + Roster(h, ready, joiner, |ready|)])
  }

  predicate HasId(j: Join) { j.id != 0 && j.id != INVALID_ID }

  // The host's table and names after a Join.
  function Named(h: Host, sender: nat, j: Join): Host
    requires |h.entries| == |h.nicks| && sender < |h.entries|
  {
    var allowed := if sender == 0 then HostRange(j.id) else PeerRange(j.id);
    h.(entries := if HasId(j) && allowed then Establish(h.entries, {}, sender, j.id) else h.entries,
       nicks := h.nicks[sender := Sanitize(if j.nick == "" then h.nicks[sender] else j.nick)])
  }

  // HandleJoinMessage on the host, after parsing.
  function HandleJoin(h: Host, ready: seq<bool>, sender: nat, j: Join): Host
    requires HostShape(h, |ready|) && sender < |ready|
  {
    var named := Named(h, sender, j);
    if HasId(j) then Broadcast(named, ready, sender, j.id) else named
  }

  // ---- The client's handlers ----

  // slot: the slot last assigned, none when out of range.  id: the published id of the own Element.
  // others: the ids of its other subsystems' Elements.
  datatype Client = Client(
    slot: nat, id: nat, joinSent: bool, entries: seq<Entry>, others: set<nat>, nicks: seq<string>)

  predicate ClientShape(c: Client, peers: nat) {
    |c.entries| == |c.nicks| == peers > 0
  }

  // SetLocalPeerId; `minted` is what the slot's band yields, if anything.
  function SetLocal(c: Client, slot: nat, minted: nat): (r: Client)
    requires |c.entries| == |c.nicks|
    ensures |r.entries| == |r.nicks| == |c.entries|
  {
    if c.slot == slot && slot < |c.entries| && c.entries[slot] != Empty then c
    else
      var left :=
        if c.slot != slot && c.slot < |c.entries| && c.entries[c.slot] != Empty then
          c.(entries := c.entries[c.slot := Empty], id := INVALID_ID)
        else c;
      var moved := left.(slot := slot);
      if slot >= |c.entries| || moved.entries[slot].Mirror? then moved
      else if minted != INVALID_ID then moved.(entries := moved.entries[slot := Local(minted)], id := minted)
      else if moved.entries[slot] == Empty then moved
      else moved.(entries := moved.entries[slot := Empty], id := INVALID_ID)
  }

  // HandleAssignPeerSlot: the own Element first, then the mirror of the host.
  function HandleAssign(c: Client, slot: nat, hostId: nat, minted: nat): (r: Client)
    requires |c.entries| == |c.nicks|
    ensures |r.entries| == |r.nicks| == |c.entries|
  {
    if slot < 1 || slot >= |c.entries| then c
    else
      var own := SetLocal(c, slot, minted);
      if HostRange(hostId) then own.(entries := Establish(own.entries, own.others, 0, hostId)) else own
  }

  function HandlePlayerJoined(c: Client, m: Msg): (r: Client)
    requires m.PlayerJoined? && |c.entries| == |c.nicks|
    ensures |r.entries| == |r.nicks| == |c.entries|
  {
    if m.slot < 1 || m.slot >= |c.entries| || m.slot == c.slot || !PeerRange(m.id) then c
    else
      c.(entries := Establish(c.entries, c.others, m.slot, m.id),
         nicks := c.nicks[m.slot := Sanitize(if m.nick == "" then c.nicks[m.slot] else m.nick)])
  }

  function Deliver(c: Client, m: Msg, minted: nat): (r: Client)
    requires |c.entries| == |c.nicks|
    ensures |r.entries| == |r.nicks| == |c.entries|
  {
    if m.Assign? then HandleAssign(c, m.slot, m.hostId, minted) else HandlePlayerJoined(c, m)
  }

  // ---- The network ----

  // proc: the process connected in the slot, while it is ready.  hostId: the host's id stamped into this
  // connection's AssignPeerSlot.  nick: the name in the Join sent on it.
  datatype Link = Link(ready: bool, was: bool, joined: bool, up: seq<Join>, proc: nat, hostId: nat, nick: string)

  datatype Net = Net(host: Host, links: seq<Link>, procs: seq<Client>)

  datatype Step =
    | Connect(x: nat, p: nat, hostId: nat)
    | Disconnect(x: nat)
    | ConnectEdge(x: nat)
    | FeedEdge(x: nat)
    | HostPose(x: nat, minted: nat)
    | HostReceive(x: nat)
    | ClientReceive(x: nat, minted: nat)
    | SendJoin(x: nat, nick: string)
    | ClientPose(p: nat, y: nat, minted: nat)
    | HostLost(p: nat)
    | Restart(p: nat)
    | Elsewhere(p: nat, others: set<nat>)

  function ReadyOf(links: seq<Link>): seq<bool> {
    seq(|links|, i requires 0 <= i < |links| => links[i].ready)
  }

  predicate Shape(n: Net) {
    && HostShape(n.host, |n.links|)
    && forall p :: 0 <= p < |n.procs| ==> ClientShape(n.procs[p], |n.links|)
  }

  predicate Uses(n: Net, x: nat, p: nat) { x < |n.links| && n.links[x].ready && n.links[x].proc == p }

  ghost predicate Connected(n: Net, p: nat) { exists x :: Uses(n, x, p) }

  // The band a process mints from: before its first slot, band 0.
  function Home(c: Client, peers: nat): nat { if c.slot < peers then c.slot else 0 }

  ghost predicate Minted(id: nat, band: nat, peers: nat) { id == INVALID_ID || InBand(id, band, peers) }

  // A step of the host about slot x, or of the process connected there.
  predicate AtSlot(st: Step) {
    st.Connect? || st.Disconnect? || st.ConnectEdge? || st.FeedEdge? || st.HostPose? || st.HostReceive?
    || st.ClientReceive? || st.SendJoin?
  }

  ghost predicate Enabled(n: Net, st: Step) {
    && Shape(n)
    && (if AtSlot(st) then 1 <= st.x < |n.links| && (n.links[st.x].ready ==> n.links[st.x].proc < |n.procs|)
        else st.p < |n.procs|)
    && match st
       case Connect(x, p, hostId) => !n.links[x].ready && p < |n.procs| && !Connected(n, p) && !PeerRange(hostId)
       case Disconnect(x) => n.links[x].ready
       case ConnectEdge(x) => true
       case FeedEdge(x) => !n.links[x].ready
       case HostPose(x, minted) => minted == INVALID_ID || HostRange(minted)
       case HostReceive(x) => n.links[x].ready && n.links[x].up != []
       case ClientReceive(x, minted) =>
         n.links[x].ready && n.host.down[x] != [] && Minted(minted, x, |n.links|)
       case SendJoin(x, nick) =>
         n.links[x].ready && !n.procs[n.links[x].proc].joinSent && n.procs[n.links[x].proc].id != INVALID_ID
       case ClientPose(p, y, minted) =>
         y < |n.links| && y != n.procs[p].slot &&
         (minted == INVALID_ID || (PeerRange(minted) && Homely(n.procs[p], minted, |n.links|)))
       case HostLost(p) => !Connected(n, p)
       case Restart(p) => !Connected(n, p)
       case Elsewhere(p, others) =>
         forall id :: id in others && id !in n.procs[p].others ==> Homely(n.procs[p], id, |n.links|)
  }

  // What a step that only concerns process p makes of it.
  function OfProcess(c: Client, st: Step): (d: Client)
    requires |c.entries| == |c.nicks| && !AtSlot(st) && (st.ClientPose? ==> st.y < |c.entries|)
    ensures |d.entries| == |d.nicks| == |c.entries|
  {
    match st
    case ClientPose(_, y, minted) => c.(entries := Pose(c.entries, y, minted))
    case HostLost(_) =>
      if |c.entries| == 0 then c
      else c.(entries := c.entries[0 := Empty], nicks := c.nicks[0 := ""], joinSent := false)
    case Restart(_) => c.(nicks := seq(|c.nicks|, _ => "Remote player"), joinSent := false)
    case Elsewhere(_, others) => c.(others := others)
  }

  ghost function Apply(n: Net, st: Step): Net
    requires Enabled(n, st)
  {
    match st
    case Connect(x, p, hostId) =>
      n.(host := n.host.(down := n.host.down[x := [Assign(x, hostId)]]),
         links := n.links[x := Link(true, n.links[x].was, false, [], p, hostId, "")])
    case Disconnect(x) =>
      n.(host := n.host.(down := n.host.down[x := []]),
         links := n.links[x := n.links[x].(ready := false, joined := false, up := [])])
    case ConnectEdge(x) =>
      var l := n.links[x];
      n.(host := if l.was && !l.ready then n.host.(entries := n.host.entries[x := Empty]) else n.host,
         links := n.links[x := l.(was := l.ready)])
    case FeedEdge(x) => n.(host := n.host.(nicks := n.host.nicks[x := ""]))
    case HostPose(x, minted) => n.(host := n.host.(entries := Pose(n.host.entries, x, minted)))
    case HostReceive(x) =>
      n.(host := HandleJoin(n.host, ReadyOf(n.links), x, n.links[x].up[0]),
         links := n.links[x := n.links[x].(up := n.links[x].up[1..], joined := true)])
    case ClientReceive(x, minted) =>
      var p := n.links[x].proc;
      n.(host := n.host.(down := n.host.down[x := n.host.down[x][1..]]),
         procs := n.procs[p := Deliver(n.procs[p], n.host.down[x][0], minted)])
    case SendJoin(x, nick) =>
      var p := n.links[x].proc;
      var own := Sanitize(nick);
      n.(links := n.links[x := n.links[x].(up := n.links[x].up + [Join(n.procs[p].id, own)], nick := own)],
         procs := n.procs[p := n.procs[p].(joinSent := true)])
    case _ => n.(procs := n.procs[st.p := OfProcess(n.procs[st.p], st)])
  }

  // ---- What keeps ids apart ----

  // Mirrors of other clients carry ids of their own bands; the host's own Elements do not.
  ghost predicate Banded(entries: seq<Entry>) {
    forall z :: 0 <= z < |entries| && entries[z].Mirror? ==>
      if z == 0 then !PeerRange(entries[z].id) else InBand(entries[z].id, z, |entries|)
  }

  ghost predicate HostOk(entries: seq<Entry>) {
    Banded(entries) && forall z :: 0 <= z < |entries| && entries[z].Local? ==> !PeerRange(entries[z].id)
  }

  // An id from the host's range, or one the process allocated itself, in its slot's band or before it had one.
  ghost predicate Homely(c: Client, id: nat, peers: nat) {
    PeerRange(id) ==> InBand(id, 0, peers) || InBand(id, Home(c, peers), peers)
  }

  // A process that has never had more than one slot.
  ghost predicate ProcOk(c: Client, peers: nat) {
    && ClientShape(c, peers) && c.slot >= 1 && Banded(c.entries)
    && (forall z :: 0 <= z < peers && c.entries[z].Local? ==> Homely(c, c.entries[z].id, peers))
    && (forall id :: id in c.others ==> Homely(c, id, peers))
    && (c.id != INVALID_ID ==> c.slot < peers && c.entries[c.slot] == Local(c.id) && InBand(c.id, c.slot, peers))
  }

  ghost predicate Seated(c: Client, x: nat, peers: nat) {
    1 <= x < peers && |c.entries| == peers && c.slot == x && c.entries[x] != Empty
  }

  ghost predicate Announces(m: Msg, x: nat, peers: nat) {
    m.PlayerJoined? && 1 <= m.slot < peers && m.slot != x && InBand(m.id, m.slot, peers)
  }

  ghost predicate Fine(m: Msg, x: nat, peers: nat) {
    Announces(m, x, peers) || (m.Assign? && m.slot == x && !PeerRange(m.hostId))
  }

  ghost predicate AllFine(msgs: seq<Msg>, x: nat, peers: nat) {
    forall i :: 0 <= i < |msgs| ==> Fine(msgs[i], x, peers)
  }

  // The client once everything in flight to it has been handled, no further id to be had.
  function Final(c: Client, msgs: seq<Msg>): (r: Client)
    requires |c.entries| == |c.nicks|
    ensures |r.entries| == |r.nicks| == |c.entries|
    decreases |msgs|
  {
    if msgs == [] then c else Deliver(Final(c, msgs[..|msgs| - 1]), msgs[|msgs| - 1], INVALID_ID)
  }

  // ---- One message at a time ----

  // Registration succeeds exactly when no other Element of the client has the id.
  lemma AnnouncementLandsIff(c: Client, m: Msg, peers: nat)
    requires ClientShape(c, peers) && m.PlayerJoined? && 1 <= m.slot < peers && m.slot != c.slot && PeerRange(m.id)
    ensures HandlePlayerJoined(c, m).entries[m.slot] == Mirror(m.id) <==>
              c.entries[m.slot] == Mirror(m.id) || (m.id !in c.others && !HeldElsewhere(c.entries, m.slot, m.id))
  {
  }

  lemma NotHeld(c: Client, m: Msg, x: nat, peers: nat)
    requires ProcOk(c, peers) && (c.slot == x || c.slot >= peers) && Announces(m, x, peers)
    ensures m.id !in c.others && !HeldElsewhere(c.entries, m.slot, m.id)
  {
    assert m.id in c.others ==> Homely(c, m.id, peers);
    forall z | 0 <= z < |c.entries| && z != m.slot ensures !Holds(c.entries[z], m.id) {
      assert c.entries[z].Local? ==> Homely(c, c.entries[z].id, peers);
    }
  }

  // A PlayerJoined about another slot sets exactly that slot's mirror and name.
  lemma AnnouncementLands(c: Client, m: Msg, x: nat, peers: nat)
    requires ProcOk(c, peers) && Seated(c, x, peers) && Announces(m, x, peers)
    ensures
      var d := HandlePlayerJoined(c, m);
      && d == c.(entries := c.entries[m.slot := Mirror(m.id)], nicks := d.nicks)
      && d.nicks == c.nicks[m.slot := d.nicks[m.slot]]
      && (m.nick != "" ==> d.nicks[m.slot] == Sanitize(m.nick))
      && (m.nick == "" ==> d.nicks[m.slot] == Sanitize(c.nicks[m.slot]))
      && ProcOk(d, peers) && Seated(d, x, peers)
  {
    NotHeld(c, m, x, peers);
  }

  // A repeated AssignPeerSlot changes at most the mirror of the host.
  lemma AssignAgain(c: Client, m: Msg, minted: nat, x: nat, peers: nat)
    requires ProcOk(c, peers) && Seated(c, x, peers) && m.Assign? && Fine(m, x, peers)
    ensures
      var d := Deliver(c, m, minted);
      && d == c.(entries := d.entries) && d == Deliver(c, m, INVALID_ID)
      && (forall z :: 1 <= z < peers ==> d.entries[z] == c.entries[z])
      && ProcOk(d, peers) && Seated(d, x, peers)
  {
  }

  lemma FineLands(c: Client, m: Msg, x: nat, peers: nat)
    requires ProcOk(c, peers) && Seated(c, x, peers) && Fine(m, x, peers)
    ensures
      var d := Deliver(c, m, INVALID_ID);
      && ProcOk(d, peers) && Seated(d, x, peers) && d.id == c.id
      && (forall z :: 1 <= z < peers ==>
            d.entries[z] == if m.PlayerJoined? && m.slot == z then Mirror(m.id) else c.entries[z])
      && (forall z :: 1 <= z < peers && !(m.PlayerJoined? && m.slot == z) ==> d.nicks[z] == c.nicks[z])
      && (m.PlayerJoined? && m.nick != "" ==> d.nicks[m.slot] == Sanitize(m.nick))
  {
    if m.Assign? { AssignAgain(c, m, INVALID_ID, x, peers); } else { AnnouncementLands(c, m, x, peers); }
  }

  lemma {:induction false} FinalIsFine(c: Client, msgs: seq<Msg>, x: nat, peers: nat)
    requires ProcOk(c, peers) && Seated(c, x, peers) && AllFine(msgs, x, peers)
    ensures ProcOk(Final(c, msgs), peers) && Seated(Final(c, msgs), x, peers) && Final(c, msgs).id == c.id
    decreases |msgs|
  {
    if msgs != [] {
      FinalIsFine(c, msgs[..|msgs| - 1], x, peers);
      FineLands(Final(c, msgs[..|msgs| - 1]), msgs[|msgs| - 1], x, peers);
    }
  }

  lemma {:induction false} FinalConcat(c: Client, a: seq<Msg>, b: seq<Msg>)
    requires |c.entries| == |c.nicks|
    ensures Final(c, a + b) == Final(Final(c, a), b)
    decreases |b|
  {
    if b == [] {
      assert a + b == a;
    } else {
      var n := |b| - 1;
      FinalConcat(c, a, b[..n]);
      assert (a + b)[..|a + b| - 1] == a + b[..n];
    }
  }

  lemma FinalSnoc(c: Client, msgs: seq<Msg>, m: Msg)
    requires |c.entries| == |c.nicks|
    ensures Final(c, msgs + [m]) == Deliver(Final(c, msgs), m, INVALID_ID)
  {
    assert (msgs + [m])[..|msgs|] == msgs;
  }

  // Handling the head of the channel changes nothing about where the client ends up.
  lemma FinalPop(c: Client, msgs: seq<Msg>)
    requires |c.entries| == |c.nicks| && msgs != []
    ensures Final(Deliver(c, msgs[0], INVALID_ID), msgs[1..]) == Final(c, msgs)
  {
    assert msgs == [msgs[0]] + msgs[1..];
    FinalConcat(c, [msgs[0]], msgs[1..]);
    assert [msgs[0]][..0] == [];
    assert Final(c, [msgs[0]]) == Deliver(Final(c, []), msgs[0], INVALID_ID);
  }

  // The same names, and every mirror of a client slot.
  ghost predicate SameMirrors(c: Client, d: Client) {
    && |c.entries| == |d.entries| && c.nicks == d.nicks
    && forall z :: 1 <= z < |c.entries| && c.entries[z].Mirror? ==> d.entries[z] == c.entries[z]
  }

  // Placeholders, other subsystems' Elements and flags do not change where the mirrors end up.
  lemma {:induction false} FinalAgrees(c: Client, d: Client, msgs: seq<Msg>, x: nat, peers: nat)
    requires ProcOk(c, peers) && ProcOk(d, peers) && Seated(c, x, peers) && Seated(d, x, peers)
    requires AllFine(msgs, x, peers) && SameMirrors(c, d)
    ensures SameMirrors(Final(c, msgs), Final(d, msgs))
    decreases |msgs|
  {
    if msgs != [] {
      var n := |msgs| - 1;
      FinalAgrees(c, d, msgs[..n], x, peers);
      FinalIsFine(c, msgs[..n], x, peers);
      FinalIsFine(d, msgs[..n], x, peers);
      OneAgrees(Final(c, msgs[..n]), Final(d, msgs[..n]), msgs[n], x, peers);
    }
  }

  lemma OneAgrees(c: Client, d: Client, m: Msg, x: nat, peers: nat)
    requires ProcOk(c, peers) && ProcOk(d, peers) && Seated(c, x, peers) && Seated(d, x, peers)
    requires Fine(m, x, peers) && SameMirrors(c, d)
    ensures SameMirrors(Deliver(c, m, INVALID_ID), Deliver(d, m, INVALID_ID))
  {
    FineLands(c, m, x, peers);
    FineLands(d, m, x, peers);
    if m.Assign? {
      AssignAgain(c, m, INVALID_ID, x, peers);
      AssignAgain(d, m, INVALID_ID, x, peers);
    }
  }

  // ---- What a Join puts into the host's table and the channels ----

  lemma {:induction false} AnnounceReaches(down: seq<seq<Msg>>, ready: seq<bool>, joiner: nat, m: Msg, x: nat)
    requires |down| == |ready|
    ensures forall z | 0 <= z < |down| ::
              Announce(down, ready, joiner, m, x)[z] ==
              if z >= x && z != joiner && ready[z] then down[z] + [m] else down[z]
    decreases |down| - x
  {
    if x < |down| {
      AnnounceReaches(if x != joiner && ready[x] then down[x := down[x] + [m]] else down, ready, joiner, m, x + 1);
    }
  }

  // Any Join with an id: the joiner gets the roster, every other ready client the announcement.
  lemma JoinTells(h: Host, ready: seq<bool>, s: nat, j: Join)
    requires HostShape(h, |ready|) && 1 <= s < |ready| && HasId(j)
    ensures
      var h', named := HandleJoin(h, ready, s, j), Named(h, s, j);
      && HostShape(h', |ready|) && h'.entries == named.entries && h'.nicks == named.nicks
      && (forall z | 0 <= z < |ready| ::
            h'.down[z] == h.down[z] + if z == s then Roster(named, ready, s, |ready|)
                                      else if z >= 1 && ready[z] then [PlayerJoined(s, j.id, h'.nicks[s])] else [])
      && (forall z | 0 <= z < |ready| && z != s :: h'.entries[z] == h.entries[z] && h'.nicks[z] == h.nicks[z])
  {
    AnnounceReaches(h.down, ready, s, PlayerJoined(s, j.id, Named(h, s, j).nicks[s]), 1);
  }

  // A Join with a clean name that has no leading space, and one without a name when the slot has such a
  // name, leave the host with exactly that name.
  lemma JoinNames(h: Host, ready: seq<bool>, s: nat, j: Join)
    requires HostShape(h, |ready|) && s < |ready|
    ensures
      var after := HandleJoin(h, ready, s, j).nicks[s];
      && (Clean(j.nick) && j.nick[0] != ' ' ==> after == j.nick)
      && (j.nick == "" && Clean(h.nicks[s]) && h.nicks[s][0] != ' ' ==> after == h.nicks[s])
  {
    if Clean(j.nick) { FixedPointIff(j.nick); }
    if Clean(h.nicks[s]) { FixedPointIff(h.nicks[s]); }
  }

  // A Join without a usable id changes no mirror and is told to nobody.
  lemma IdlessJoin(h: Host, ready: seq<bool>, s: nat, j: Join)
    requires HostShape(h, |ready|) && s < |ready| && (j.id == 0 || j.id == 0xFFFF_FFFF)
    ensures
      var h' := HandleJoin(h, ready, s, j);
      && h'.entries == h.entries && h'.down == h.down
      && forall z :: 0 <= z < |ready| && z != s ==> h'.nicks[z] == h.nicks[z]
  {
  }

  // A Join from slot 0 is told to nobody and may only carry an id of the host's range.
  lemma SlotZeroJoin(h: Host, ready: seq<bool>, j: Join)
    requires HostShape(h, |ready|)
    ensures
      var h' := HandleJoin(h, ready, 0, j);
      && h'.down == h.down
      && (forall z :: 1 <= z < |ready| ==> h'.entries[z] == h.entries[z] && h'.nicks[z] == h.nicks[z])
      && (!HostRange(j.id) ==> h'.entries == h.entries)
      && (HostRange(j.id) ==>
            (h'.entries[0] == Mirror(j.id) <==> h.entries[0] == Mirror(j.id) || !HeldElsewhere(h.entries, 0, j.id)))
  {
  }

  // Distinct slots of the host's table have distinct ids.
  ghost predicate DistinctIds(entries: seq<Entry>) {
    forall y, z :: 0 <= y < |entries| && 0 <= z < |entries| && y != z && !entries[y].Empty? && !entries[z].Empty? ==>
      entries[y].id != entries[z].id
  }

  // The mirror of the sender ends with a given id exactly when the Join carries it, it is a peer's, and
  // no other slot of the host has it; a Join without a usable id leaves the mirror as it was.
  lemma JoinSeatsIff(h: Host, ready: seq<bool>, s: nat, j: Join, id: nat)
    requires HostShape(h, |ready|) && 1 <= s < |ready| && DistinctIds(h.entries)
    ensures
      HandleJoin(h, ready, s, j).entries[s] == Mirror(id) <==>
        if HasId(j) && PeerRange(j.id) then j.id == id && !HeldElsewhere(h.entries, s, id)
        else h.entries[s] == Mirror(id)
  {
    if HasId(j) { JoinTells(h, ready, s, j); }
  }

  // A Join sent before the AssignPeerSlot is handled carries the id of an earlier connection.  The host's
  // mirror of the sender then ends as the sender's own id exactly when the sender is assigned the slot it
  // had, that is, the slot of its id's band, and no other slot of the host has the id.
  lemma EarlyJoinIsRightIff(h: Host, ready: seq<bool>, x: nat, c: Client, nick: string, hostId: nat, minted: nat)
    requires HostShape(h, |ready|) && 1 <= x < |ready| && DistinctIds(h.entries)
    requires ClientShape(c, |ready|) && 1 <= c.slot < |ready| && c.id != INVALID_ID
    requires c.entries[c.slot] == Local(c.id) && InBand(c.id, c.slot, |ready|) && Minted(minted, x, |ready|)
    ensures
      var own := HandleAssign(c, x, hostId, minted).id;
      HandleJoin(h, ready, x, Join(c.id, nick)).entries[x] == Mirror(own) <==>
        BandOf(c.id, |ready|) == x && !HeldElsewhere(h.entries, x, c.id)
  {
    var own := HandleAssign(c, x, hostId, minted).id;
    JoinSeatsIff(h, ready, x, Join(c.id, nick), own);
  }

  ghost predicate Told(h: Host, ready: seq<bool>, joiner: nat, y: nat)
    requires |h.entries| == |ready| && y < |ready|
  {
    y != joiner && ready[y] && h.entries[y].Mirror?
  }

  lemma {:induction false} RosterAnnounces(h: Host, ready: seq<bool>, joiner: nat, upTo: nat)
    requires HostShape(h, |ready|) && upTo <= |ready|
    requires forall z | 1 <= z < |ready| && Told(h, ready, joiner, z) :: InBand(h.entries[z].id, z, |ready|)
    ensures AllFine(Roster(h, ready, joiner, upTo), joiner, |ready|)
    decreases upTo
  {
    if upTo > 1 {
      assert Told(h, ready, joiner, upTo - 1) ==> InBand(h.entries[upTo - 1].id, upTo - 1, |ready|);
      RosterAnnounces(h, ready, joiner, upTo - 1);
    }
  }

  // One more announcement at the end of the channel.
  lemma OneMoreLands(c: Client, before: seq<Msg>, m: Msg, peers: nat, y: nat)
    requires ProcOk(c, peers) && Seated(c, c.slot, peers) && AllFine(before, c.slot, peers)
    requires Announces(m, c.slot, peers) && 1 <= y < peers
    ensures
      var d, d' := Final(c, before), Final(c, before + [m]);
      if m.slot == y then d'.entries[y] == Mirror(m.id) && (m.nick != "" ==> d'.nicks[y] == Sanitize(m.nick))
      else d'.entries[y] == d.entries[y] && d'.nicks[y] == d.nicks[y]
  {
    FinalIsFine(c, before, c.slot, peers);
    FinalSnoc(c, before, m);
    FineLands(Final(c, before), m, c.slot, peers);
  }

  // The roster sets exactly the mirrors the host holds of ready slots.
  lemma {:induction false} RosterLands(c: Client, h: Host, ready: seq<bool>, upTo: nat, y: nat)
    requires HostShape(h, |ready|) && ProcOk(c, |ready|) && Seated(c, c.slot, |ready|)
    requires forall z | 1 <= z < |ready| && Told(h, ready, c.slot, z) :: InBand(h.entries[z].id, z, |ready|)
    requires upTo <= |ready| && 1 <= y < |ready|
    ensures
      var d := Final(c, Roster(h, ready, c.slot, upTo));
      if y < upTo && Told(h, ready, c.slot, y) then
        d.entries[y] == h.entries[y] && (h.nicks[y] != "" ==> d.nicks[y] == Sanitize(h.nicks[y]))
      else d.entries[y] == c.entries[y] && d.nicks[y] == c.nicks[y]
    decreases upTo
  {
    if upTo > 1 {
      var z := upTo - 1;
      var before := Roster(h, ready, c.slot, z);
      RosterAnnounces(h, ready, c.slot, z);
      RosterLands(c, h, ready, z, y);
      if Told(h, ready, c.slot, z) {
        OneMoreLands(c, before, PlayerJoined(z, h.entries[z].id, h.nicks[z]), |ready|, y);
      } else {
        assert Roster(h, ready, c.slot, upTo) == before;
      }
    }
  }

  // ---- The invariant ----

  // A connection is suited when the process has never been assigned another slot.
  ghost predicate Suited(c: Client, x: nat, peers: nat) { c.slot >= peers || c.slot == x }

  // For a process with an own Element: it is assigned the slot of its id's band.
  lemma SuitedIff(c: Client, x: nat, peers: nat)
    requires ProcOk(c, peers) && c.id != INVALID_ID && 1 <= x < peers
    ensures Suited(c, x, peers) <==> BandOf(c.id, peers) == x
  {
  }

  ghost predicate LinkOk(n: Net, x: nat)
    requires Shape(n) && x < |n.links|
  {
    var l, peers, down := n.links[x], |n.links|, n.host.down[x];
    && (!l.ready ==> down == [] && l.up == [] && !l.joined)
    && (l.ready ==>
          && l.proc < |n.procs|
          && AllFine(down, x, peers)
          && var c := n.procs[l.proc];
          && Suited(c, x, peers)
          && (c.slot != x ==> down != [] && down[0].Assign?)
          && (forall i :: 0 <= i < |l.up| ==> l.up[i] == Join(c.id, l.nick))
          && (l.up != [] || l.joined ==> c.id != INVALID_ID && c.joinSent && Clean(l.nick))
          && (l.joined ==> n.host.entries[x] == Mirror(c.id) && n.host.nicks[x] == Sanitize(l.nick)))
  }

  // Client x will show slot y under the host's id and under the sanitized form of the host's name.
  ghost predicate Converges(n: Net, x: nat, y: nat)
    requires Shape(n) && x < |n.links| && y < |n.links|
  {
    && n.links[x].proc < |n.procs|
    && var d := Final(n.procs[n.links[x].proc], n.host.down[x]);
       d.entries[y] == n.host.entries[y] && d.nicks[y] == Sanitize(n.host.nicks[y])
  }

  // No process is connected twice.
  ghost predicate Single(links: seq<Link>) {
    forall x, y :: 0 <= x < |links| && 0 <= y < |links| && x != y && links[x].ready && links[y].ready ==>
      links[x].proc != links[y].proc
  }

  ghost predicate Joined(n: Net, x: nat) { 1 <= x < |n.links| && n.links[x].joined }

  ghost predicate Inv(n: Net) {
    && Shape(n) && HostOk(n.host.entries) && Single(n.links)
    && (forall p :: 0 <= p < |n.procs| ==> ProcOk(n.procs[p], |n.links|))
    && (forall x :: 1 <= x < |n.links| ==> LinkOk(n, x))
    && (|n.links| > 0 ==> !n.links[0].ready)
    && (forall x, y :: Joined(n, x) && Joined(n, y) && x != y ==> Converges(n, x, y))
  }

  ghost predicate SuitedStep(n: Net, st: Step) {
    st.Connect? && st.p < |n.procs| ==> Suited(n.procs[st.p], st.x, |n.links|)
  }

  // ---- Steps of one process ----

  // Process p becomes d: the same slot, own Element and, if it is connected, mirrors and names.
  ghost predicate Becomes(n: Net, p: nat, d: Client)
    requires Shape(n)
  {
    && p < |n.procs| && ProcOk(d, |n.links|)
    && d.slot == n.procs[p].slot && d.id == n.procs[p].id
    && (Connected(n, p) ==> SameMirrors(n.procs[p], d) && (n.procs[p].joinSent ==> d.joinSent))
  }

  lemma JoinedIsSeated(n: Net, x: nat)
    requires Inv(n) && Joined(n, x)
    ensures n.links[x].ready && n.links[x].proc < |n.procs|
    ensures Seated(n.procs[n.links[x].proc], x, |n.links|) && AllFine(n.host.down[x], x, |n.links|)
  {
    assert LinkOk(n, x);
  }

  lemma BecomesConverges(n: Net, p: nat, d: Client, x: nat, y: nat)
    requires Shape(n) && Becomes(n, p, d) && x < |n.links| && 1 <= y < |n.links| && Converges(n, x, y)
    requires n.links[x].ready && n.procs[n.links[x].proc].id != INVALID_ID && n.host.entries[y].Mirror?
    requires ProcOk(n.procs[n.links[x].proc], |n.links|) && Seated(n.procs[n.links[x].proc], x, |n.links|)
    requires AllFine(n.host.down[x], x, |n.links|)
    ensures Shape(n.(procs := n.procs[p := d])) && Converges(n.(procs := n.procs[p := d]), x, y)
  {
    if n.links[x].proc == p {
      assert Uses(n, x, p);
      FinalAgrees(n.procs[p], d, n.host.down[x], x, |n.links|);
    }
  }

  lemma BecomesKeepsInv(n: Net, p: nat, d: Client)
    requires Inv(n) && Becomes(n, p, d)
    ensures Inv(n.(procs := n.procs[p := d]))
  {
    var n' := n.(procs := n.procs[p := d]);
    forall x | 1 <= x < |n.links| ensures LinkOk(n', x) {
      assert LinkOk(n, x);
      assert n.links[x].ready && n.links[x].proc == p ==> Uses(n, x, p);
    }
    forall x, y | Joined(n', x) && Joined(n', y) && x != y ensures Converges(n', x, y) {
      assert Joined(n, x) && Joined(n, y) && LinkOk(n, x) && LinkOk(n, y);
      JoinedIsSeated(n, x);
      assert Converges(n, x, y);
      BecomesConverges(n, p, d, x, y);
    }
  }

  lemma OfProcessOk(n: Net, st: Step)
    requires Inv(n) && Enabled(n, st) && !AtSlot(st)
    ensures Becomes(n, st.p, OfProcess(n.procs[st.p], st))
  {
    var c, d := n.procs[st.p], OfProcess(n.procs[st.p], st);
    assert ProcOk(c, |n.links|);
    if st.Elsewhere? {
      forall id | id in d.others ensures Homely(d, id, |n.links|) {
        assert id in c.others ==> Homely(c, id, |n.links|);
      }
    }
    if st.HostLost? { assert c.id != INVALID_ID ==> c.slot != 0; }
  }

  lemma ProcessStepKeepsInv(n: Net, st: Step)
    requires Inv(n) && Enabled(n, st) && !AtSlot(st)
    ensures Inv(Apply(n, st))
  {
    OfProcessOk(n, st);
    BecomesKeepsInv(n, st.p, OfProcess(n.procs[st.p], st));
  }

  // What is left of a SendJoin once its process has noted it.
  lemma SendJoinLink(mid: Net, x: nat, z: nat, nick: string)
    requires Inv(mid) && 1 <= x < |mid.links| && mid.links[x].ready && 1 <= z < |mid.links|
    requires mid.links[x].proc < |mid.procs| && Clean(nick)
    requires mid.links[x].up == [] && !mid.links[x].joined
    requires mid.procs[mid.links[x].proc].id != INVALID_ID && mid.procs[mid.links[x].proc].joinSent
    ensures
      var c := mid.procs[mid.links[x].proc];
      var n' := mid.(links := mid.links[x := mid.links[x].(up := [Join(c.id, nick)], nick := nick)]);
      Shape(n') && LinkOk(n', z)
  {
    assert LinkOk(mid, z);
  }

  lemma SendJoinKeepsInv(n: Net, st: Step)
    requires Inv(n) && Enabled(n, st) && st.SendJoin?
    ensures Inv(Apply(n, st))
  {
    var p := n.links[st.x].proc;
    var mid, n' := n.(procs := n.procs[p := n.procs[p].(joinSent := true)]), Apply(n, st);
    assert ProcOk(n.procs[p], |n.links|) && LinkOk(n, st.x);
    BecomesKeepsInv(n, p, n.procs[p].(joinSent := true));
    SanitizeIsClean(st.nick);
    assert n.links[st.x].up + [Join(n.procs[p].id, Sanitize(st.nick))] == [Join(n.procs[p].id, Sanitize(st.nick))];
    forall x | 1 <= x < |n.links| ensures LinkOk(n', x) { SendJoinLink(mid, st.x, x, Sanitize(st.nick)); }
    forall x, y | Joined(n', x) && Joined(n', y) && x != y ensures Converges(n', x, y) {
      assert Joined(mid, x) && Joined(mid, y);
      assert Converges(mid, x, y);
    }
  }

  // ---- Steps of the host that deliver nothing ----

  ghost predicate Quiet(st: Step) { st.Connect? || st.Disconnect? || st.ConnectEdge? || st.FeedEdge? || st.HostPose? }

  lemma QuietLink(n: Net, st: Step, x: nat)
    requires Enabled(n, st) && SuitedStep(n, st) && Quiet(st) && 1 <= x < |n.links| && LinkOk(n, x)
    requires HostOk(n.host.entries)
    ensures Shape(Apply(n, st)) && LinkOk(Apply(n, st), x) && HostOk(Apply(n, st).host.entries)
  {
  }

  lemma QuietSingle(n: Net, st: Step)
    requires Enabled(n, st) && Quiet(st) && Single(n.links)
    ensures Single(Apply(n, st).links)
  {
    if st.Connect? {
      forall y | 0 <= y < |n.links| && y != st.x && n.links[y].ready ensures n.links[y].proc != st.p {
        assert !Uses(n, y, st.p);
      }
    }
  }

  lemma QuietPair(n: Net, st: Step, x: nat, y: nat)
    requires Enabled(n, st) && Quiet(st) && Joined(Apply(n, st), x) && Joined(Apply(n, st), y) && x != y
    requires LinkOk(n, x) && LinkOk(n, y) && (Joined(n, x) && Joined(n, y) ==> Converges(n, x, y))
    ensures Shape(Apply(n, st)) && Converges(Apply(n, st), x, y)
  {
    var n' := Apply(n, st);
    assert Joined(n, x) && Joined(n, y);
    assert n'.links[x].proc == n.links[x].proc && n'.host.down[x] == n.host.down[x];
    assert n'.host.entries[y] == n.host.entries[y] && n'.host.nicks[y] == n.host.nicks[y];
  }

  lemma QuietStepKeepsInv(n: Net, st: Step)
    requires Inv(n) && Enabled(n, st) && SuitedStep(n, st) && Quiet(st)
    ensures Inv(Apply(n, st))
  {
    var n' := Apply(n, st);
    assert LinkOk(n, st.x);
    QuietLink(n, st, st.x);
    QuietSingle(n, st);
    forall x | 1 <= x < |n.links| ensures LinkOk(n', x) {
      assert LinkOk(n, x);
      QuietLink(n, st, x);
    }
    forall x, y | Joined(n', x) && Joined(n', y) && x != y ensures Converges(n', x, y) {
      assert LinkOk(n, x) && LinkOk(n, y);
      QuietPair(n, st, x, y);
    }
  }

  // ---- Deliveries to a client ----

  lemma AssignSeats(c: Client, m: Msg, minted: nat, x: nat, peers: nat)
    requires ProcOk(c, peers) && Suited(c, x, peers) && 1 <= x < peers && m.Assign? && Fine(m, x, peers)
    requires Minted(minted, x, peers)
    ensures
      var d := Deliver(c, m, minted);
      ProcOk(d, peers) && d.slot == x && (c.id != INVALID_ID ==> d.id == c.id)
  {
    var own := SetLocal(c, m.slot, minted);
    assert forall id :: Homely(c, id, peers) ==> Homely(own, id, peers);
    assert ProcOk(own, peers);
  }

  lemma DeliveredProc(n: Net, st: Step)
    requires Inv(n) && Enabled(n, st) && st.ClientReceive?
    ensures
      var p := n.links[st.x].proc;
      var c, d := n.procs[p], Apply(n, st).procs[p];
      ProcOk(d, |n.links|) && d.slot == st.x && (c.id != INVALID_ID ==> d.id == c.id)
  {
    var p, m := n.links[st.x].proc, n.host.down[st.x][0];
    assert LinkOk(n, st.x) && ProcOk(n.procs[p], |n.links|);
    if m.Assign? {
      AssignSeats(n.procs[p], m, st.minted, st.x, |n.links|);
    } else {
      NotHeld(n.procs[p], m, st.x, |n.links|);
    }
  }

  lemma DeliveredLink(n: Net, st: Step, x: nat)
    requires Inv(n) && Enabled(n, st) && st.ClientReceive? && 1 <= x < |n.links|
    ensures Shape(Apply(n, st)) && LinkOk(Apply(n, st), x)
  {
    DeliveredProc(n, st);
    assert LinkOk(n, x) && LinkOk(n, st.x);
  }

  lemma DeliveredPair(n: Net, st: Step, x: nat, y: nat)
    requires Inv(n) && Enabled(n, st) && st.ClientReceive? && Joined(n, x) && Joined(n, y) && x != y
    ensures Shape(Apply(n, st)) && Converges(Apply(n, st), x, y)
  {
    assert Converges(n, x, y) && LinkOk(n, st.x);
    JoinedIsSeated(n, x);
    if x == st.x {
      var c, m := n.procs[n.links[x].proc], n.host.down[x][0];
      if m.Assign? { AssignAgain(c, m, st.minted, x, |n.links|); }
      FinalPop(c, n.host.down[x]);
    }
  }

  lemma ClientReceiveKeepsInv(n: Net, st: Step)
    requires Inv(n) && Enabled(n, st) && st.ClientReceive?
    ensures Inv(Apply(n, st))
  {
    var n' := Apply(n, st);
    DeliveredProc(n, st);
    forall x | 1 <= x < |n'.links| ensures LinkOk(n', x) { DeliveredLink(n, st, x); }
    forall x, y | Joined(n', x) && Joined(n', y) && x != y ensures Converges(n', x, y) { DeliveredPair(n, st, x, y); }
  }

  // ---- Joins at the host ----

  ghost predicate JoinStep(n: Net, st: Step) {
    Enabled(n, st) && st.HostReceive? && Inv(n)
  }

  // A Join of a suited connection seats the sender under its own id.
  lemma JoinSeats(n: Net, st: Step)
    requires JoinStep(n, st)
    ensures
      var n', s, j := Apply(n, st), st.x, n.links[st.x].up[0];
      && Shape(n') && HostOk(n'.host.entries) && n'.host.entries[s] == Mirror(j.id) && Clean(n'.host.nicks[s])
      && j.id == n.procs[n.links[s].proc].id && InBand(j.id, s, |n.links|) && HasId(j) && Clean(j.nick)
      && Seated(n.procs[n.links[s].proc], s, |n.links|)
  {
    var s, ready := st.x, ReadyOf(n.links);
    assert LinkOk(n, s);
    var j, c := n.links[s].up[0], n.procs[n.links[s].proc];
    assert ProcOk(c, |n.links|);
    JoinTells(n.host, ready, s, j);
    SanitizeIsClean(j.nick);
    assert !HeldElsewhere(n.host.entries, s, j.id);
  }

  lemma JoinerLink(n: Net, st: Step)
    requires JoinStep(n, st)
    ensures Shape(Apply(n, st)) && LinkOk(Apply(n, st), st.x)
  {
    var s, j, ready := st.x, n.links[st.x].up[0], ReadyOf(n.links);
    JoinSeats(n, st);
    assert LinkOk(n, s);
    JoinTells(n.host, ready, s, j);
    RosterAnnounces(Named(n.host, s, j), ready, s, |ready|);
  }

  lemma OtherLink(n: Net, st: Step, x: nat)
    requires JoinStep(n, st) && 1 <= x < |n.links| && x != st.x
    ensures Shape(Apply(n, st)) && LinkOk(Apply(n, st), x)
  {
    JoinSeats(n, st);
    assert LinkOk(n, x);
    JoinTells(n.host, ReadyOf(n.links), st.x, n.links[st.x].up[0]);
  }

  // Any other joined client learns of the joiner, and of nobody else.
  lemma OthersLearn(n: Net, st: Step, x: nat, y: nat)
    requires JoinStep(n, st) && Joined(n, x) && 1 <= y < |n.links| && x != y && x != st.x
    requires y == st.x || Converges(n, x, y)
    ensures Shape(Apply(n, st)) && Converges(Apply(n, st), x, y)
  {
    var n', s, j := Apply(n, st), st.x, n.links[st.x].up[0];
    JoinSeats(n, st);
    JoinedIsSeated(n, x);
    JoinTells(n.host, ReadyOf(n.links), s, j);
    var c, down, m := n.procs[n.links[x].proc], n.host.down[x], PlayerJoined(s, j.id, n'.host.nicks[s]);
    assert n'.host.down[x] == down + [m];
    FinalIsFine(c, down, x, |n.links|);
    FinalSnoc(c, down, m);
    FineLands(Final(c, down), m, x, |n.links|);
  }

  // What the joiner ends up with about slot y: the host's mirror if that slot is ready, otherwise whatever
  // it would have ended up with without this Join.
  lemma JoinerIsTold(n: Net, st: Step, y: nat)
    requires JoinStep(n, st) && 1 <= y < |n.links| && y != st.x && n.host.entries[y].Mirror?
    ensures
      var n', c := Apply(n, st), n.procs[n.links[st.x].proc];
      var before, after := Final(c, n.host.down[st.x]), Final(c, n'.host.down[st.x]);
      && Shape(n') && n'.host.entries[y] == n.host.entries[y] && n'.host.nicks[y] == n.host.nicks[y]
      && n'.procs == n.procs && n'.links[st.x].proc == n.links[st.x].proc
      && (if n.links[y].ready then
            after.entries[y] == n.host.entries[y]
                && (n.host.nicks[y] != "" ==> after.nicks[y] == Sanitize(n.host.nicks[y]))
          else after.entries[y] == before.entries[y] && after.nicks[y] == before.nicks[y])
  {
    var s, j, ready := st.x, n.links[st.x].up[0], ReadyOf(n.links);
    JoinSeats(n, st);
    assert LinkOk(n, s);
    JoinTells(n.host, ready, s, j);
    var c, down, named := n.procs[n.links[s].proc], n.host.down[s], Named(n.host, s, j);
    FinalIsFine(c, down, s, |ready|);
    FinalConcat(c, down, Roster(named, ready, s, |ready|));
    RosterLands(Final(c, down), named, ready, |ready|, y);
    assert ready[y] == n.links[y].ready;
  }

  // A joiner with no mirror of a slot ends with the host's mirror of it, joined or not, exactly when the
  // slot is ready.
  lemma JoinerIsRightIff(n: Net, st: Step, y: nat)
    requires JoinStep(n, st) && 1 <= y < |n.links| && y != st.x && n.host.entries[y].Mirror?
    requires !Final(n.procs[n.links[st.x].proc], n.host.down[st.x]).entries[y].Mirror?
    ensures Shape(Apply(n, st))
    ensures
      var n' := Apply(n, st);
      Final(n'.procs[n'.links[st.x].proc], n'.host.down[st.x]).entries[y] == n'.host.entries[y] <==> n.links[y].ready
  {
    JoinerIsTold(n, st, y);
  }

  lemma JoinedPair(n: Net, st: Step, x: nat, y: nat)
    requires JoinStep(n, st) && Joined(Apply(n, st), x) && Joined(Apply(n, st), y) && x != y
    ensures Shape(Apply(n, st)) && Converges(Apply(n, st), x, y)
  {
    JoinSeats(n, st);
    if x == st.x {
      assert Joined(n, y) && LinkOk(n, y);
      JoinerIsTold(n, st, y);
    } else {
      assert Joined(n, x) && (y != st.x ==> Joined(n, y));
      OthersLearn(n, st, x, y);
    }
  }

  lemma HostReceiveKeepsInv(n: Net, st: Step)
    requires Inv(n) && Enabled(n, st) && st.HostReceive?
    ensures Inv(Apply(n, st))
  {
    var n' := Apply(n, st);
    JoinSeats(n, st);
    forall x | 1 <= x < |n'.links| ensures LinkOk(n', x) {
      if x == st.x { JoinerLink(n, st); } else { OtherLink(n, st, x); }
    }
    forall x, y | Joined(n', x) && Joined(n', y) && x != y ensures Converges(n', x, y) { JoinedPair(n, st, x, y); }
  }

  lemma StepKeepsInv(n: Net, st: Step)
    requires Inv(n) && Enabled(n, st) && SuitedStep(n, st)
    ensures Inv(Apply(n, st))
  {
    match st
    case ClientReceive(_, _) => ClientReceiveKeepsInv(n, st);
    case HostReceive(_) => HostReceiveKeepsInv(n, st);
    case SendJoin(_, _) => SendJoinKeepsInv(n, st);
    case _ => if AtSlot(st) { QuietStepKeepsInv(n, st); } else { ProcessStepKeepsInv(n, st); }
  }

  // ---- Whole runs ----

  ghost predicate Runs(n: Net, steps: seq<Step>)
    decreases |steps|
  {
    steps == [] || (Enabled(n, steps[0]) && Runs(Apply(n, steps[0]), steps[1..]))
  }

  ghost function After(n: Net, steps: seq<Step>): Net
    requires Runs(n, steps)
    decreases |steps|
  {
    if steps == [] then n else After(Apply(n, steps[0]), steps[1..])
  }

  // No process is ever assigned a slot other than the one it had.
  ghost predicate SuitedRun(n: Net, steps: seq<Step>)
    requires Runs(n, steps)
    decreases |steps|
  {
    steps == [] || (SuitedStep(n, steps[0]) && SuitedRun(Apply(n, steps[0]), steps[1..]))
  }

  // A process that has never connected.
  ghost predicate Blank(c: Client, peers: nat) {
    && ClientShape(c, peers) && c.slot >= peers && c.id == INVALID_ID && !c.joinSent && c.others == {}
    && forall z :: 0 <= z < peers ==> c.entries[z] == Empty
  }

  // Nobody has ever connected.
  ghost predicate Initial(n: Net) {
    && Shape(n)
    && (forall x :: 0 <= x < |n.links| ==>
          && n.links[x] == Link(false, false, false, [], 0, INVALID_ID, "")
          && n.host.down[x] == [] && n.host.entries[x] == Empty)
    && (forall p :: 0 <= p < |n.procs| ==> Blank(n.procs[p], |n.links|))
  }

  lemma InitialInv(n: Net)
    requires Initial(n)
    ensures Inv(n)
  {
  }

  lemma {:induction false} RunsKeepInv(n: Net, steps: seq<Step>)
    requires Inv(n) && Runs(n, steps) && SuitedRun(n, steps)
    ensures Inv(After(n, steps))
    decreases |steps|
  {
    if steps != [] {
      StepKeepsInv(n, steps[0]);
      RunsKeepInv(Apply(n, steps[0]), steps[1..]);
    }
  }

  // What a state with the invariant shows of a joined pair.
  ghost predicate Agree(n: Net, x: nat, y: nat)
    requires Shape(n) && x < |n.links| && y < |n.links|
  {
    var px, py, sent, atHost := n.links[x].proc, n.links[y].proc, n.links[y].nick, n.host.nicks[y];
    && px < |n.procs| && py < |n.procs| && Clean(sent)
    && n.host.entries[y] == Mirror(n.procs[py].id) && atHost == Sanitize(sent) && atHost != ""
    && var end := Final(n.procs[px], n.host.down[x]);
       end.entries[y] == n.host.entries[y] && end.nicks[y] == Sanitize(atHost)
  }

  lemma InvAgrees(n: Net, x: nat, y: nat)
    requires Inv(n) && Joined(n, x) && Joined(n, y) && x != y
    ensures Agree(n, x, y)
  {
    assert LinkOk(n, x) && LinkOk(n, y) && Converges(n, x, y);
    SanitizeIsClean(n.links[y].nick);
  }

  // Identity convergence, over every run of connects, edges, Joins, poses, deliveries, disconnects and
  // re-used slots in which no process is assigned a slot other than the one it had: the host holds every
  // joined client's own id, a joined client ends with it too once it has handled what is in flight, and
  // both show the name the client sent, unless that starts with a space.
  lemma IdentityConverges(n: Net, steps: seq<Step>, x: nat, y: nat)
    requires Initial(n) && Runs(n, steps) && SuitedRun(n, steps)
    requires Joined(After(n, steps), x) && Joined(After(n, steps), y) && x != y
    ensures
      var n' := After(n, steps);
      && Shape(n') && Agree(n', x, y)
      && (n'.host.down[x] == [] ==> n'.procs[n'.links[x].proc].entries[y] == Mirror(n'.procs[n'.links[y].proc].id))
      && (n'.host.nicks[y] == n'.links[y].nick <==> n'.links[y].nick[0] != ' ')
      && (n'.links[y].nick[0] != ' ' ==>
            Final(n'.procs[n'.links[x].proc], n'.host.down[x]).nicks[y] == n'.links[y].nick)
      && (Final(n'.procs[n'.links[x].proc], n'.host.down[x]).nicks[y] == n'.host.nicks[y] <==>
            n'.host.nicks[y][0] != ' ')
  {
    InitialInv(n);
    RunsKeepInv(n, steps);
    var n' := After(n, steps);
    InvAgrees(n', x, y);
    FixedPointIff(n'.links[y].nick);
    SanitizeIsClean(n'.links[y].nick);
    FixedPointIff(n'.host.nicks[y]);
  }

  // ---- Mirrors of slots that have not joined ----

  // Runs in which the host sees each edge at once: a Join only after the connect edge of its slot, and
  // the disconnect edge right after the disconnect.
  ghost predicate PromptRun(n: Net, steps: seq<Step>)
    decreases |steps|
  {
    if steps == [] then true
    else if !Enabled(n, steps[0]) || !SuitedStep(n, steps[0]) then false
    else if steps[0].Disconnect? then
      |steps| > 1 && steps[1] == ConnectEdge(steps[0].x) && Enabled(Apply(n, steps[0]), steps[1])
      && PromptRun(Apply(Apply(n, steps[0]), steps[1]), steps[2..])
    else (steps[0].HostReceive? ==> n.links[steps[0].x].was) && PromptRun(Apply(n, steps[0]), steps[1..])
  }

  ghost predicate MirrorsJoined(n: Net)
    requires Shape(n)
  {
    forall y :: 1 <= y < |n.links| && n.host.entries[y].Mirror? ==> n.links[y].joined && n.links[y].was
  }

  lemma PromptStep(n: Net, st: Step)
    requires Inv(n) && Enabled(n, st) && SuitedStep(n, st) && MirrorsJoined(n)
    requires !st.Disconnect? && (st.HostReceive? ==> n.links[st.x].was)
    ensures Shape(Apply(n, st)) && MirrorsJoined(Apply(n, st))
  {
    if st.HostReceive? {
      JoinSeats(n, st);
      JoinTells(n.host, ReadyOf(n.links), st.x, n.links[st.x].up[0]);
    } else {
      StepKeepsInv(n, st);
      if AtSlot(st) { assert LinkOk(n, st.x); }
    }
  }

  lemma PromptDisconnect(n: Net, x: nat)
    requires Inv(n) && Enabled(n, Disconnect(x)) && MirrorsJoined(n)
    requires Enabled(Apply(n, Disconnect(x)), ConnectEdge(x))
    ensures
      var n' := Apply(Apply(n, Disconnect(x)), ConnectEdge(x));
      Shape(n') && MirrorsJoined(n')
  {
  }

  lemma {:induction false} PromptRunsKeep(n: Net, steps: seq<Step>)
    requires Inv(n) && MirrorsJoined(n) && PromptRun(n, steps)
    ensures Runs(n, steps) && Inv(After(n, steps)) && MirrorsJoined(After(n, steps))
    decreases |steps|
  {
    if steps != [] {
      var n1 := Apply(n, steps[0]);
      StepKeepsInv(n, steps[0]);
      if steps[0].Disconnect? {
        StepKeepsInv(n1, steps[1]);
        PromptDisconnect(n, steps[0].x);
        PromptRunsKeep(Apply(n1, steps[1]), steps[2..]);
        assert steps[1..][1..] == steps[2..];
      } else {
        PromptStep(n, steps[0]);
        PromptRunsKeep(n1, steps[1..]);
      }
    }
  }

  // With prompt edges, convergence holds for every slot the host holds a mirror of.
  lemma PromptEdgesConverge(n: Net, steps: seq<Step>, x: nat, y: nat)
    requires Initial(n) && PromptRun(n, steps)
    ensures Runs(n, steps)
    ensures
      var n' := After(n, steps);
      Shape(n') &&
      (Joined(n', x) && 1 <= y < |n'.links| && x != y && n'.host.entries[y].Mirror? ==> Converges(n', x, y))
  {
    InitialInv(n);
    PromptRunsKeep(n, steps);
    var n' := After(n, steps);
    if Joined(n', x) && 1 <= y < |n'.links| && x != y && n'.host.entries[y].Mirror? { assert Joined(n', y); }
  }
}

module Handshakes {
  import opened Nickname
  import opened HandshakeSpec

  class HostHandshake {
    var entries: seq<Entry>
    var nicks: seq<string>
    var down: seq<seq<Msg>>

    ghost function View(): Host
      reads this
    {
      Host(entries, nicks, down)
    }

    method BroadcastPlayerJoinedFromHost(ready: seq<bool>, joiner: nat, id: nat, nick: string)
      requires HostShape(View(), |ready|) && joiner < |ready| && nick == nicks[joiner]
      modifies this`down
      ensures View() == Broadcast(old(View()), ready, joiner, id)
    {
      if joiner < 1 { return; }
      var m := PlayerJoined(joiner, id, nick);
      var x := 1;
      while x < |ready|
        invariant 1 <= x <= |ready| && |down| == |ready|
        invariant Announce(down, ready, joiner, m, x) == Announce(old(down), ready, joiner, m, 1)
      {
        if x != joiner && ready[x] { down := down[x := down[x] + [m]]; }
        x := x + 1;
      }
      ghost var told := down;
      ghost var h := old(View());
      x := 1;
      while x < |ready|
        invariant 1 <= x <= |ready| && |down| == |ready|
        invariant |told| == |ready| && down == told[joiner := down[joiner]]
        invariant down[joiner] == told[joiner] + Roster(h, ready, joiner, x)
      {
        ghost var before := Roster(h, ready, joiner, x);
        if x != joiner && ready[x] && entries[x].Mirror? {
          down := down[joiner := down[joiner] + [PlayerJoined(x, entries[x].id, nicks[x])]];
          assert Roster(h, ready, joiner, x + 1) == before + [PlayerJoined(x, entries[x].id, nicks[x])];
        } else {
          assert Roster(h, ready, joiner, x + 1) == before;
        }
        x := x + 1;
      }
    }

    method HandleJoinMessage(payload: seq<byte>, sender: int, ready: seq<bool>)
      requires HostShape(View(), |ready|)
      modifies this
      ensures
        var p := ParseJoin(payload, 0, "");
        View() == if 0 <= sender < |ready| && p.Parsed? then HandleJoin(old(View()), ready, sender, Join(p.id, p.nick))
                  else old(View())
    {
      if sender < 0 || sender >= |ready| || |payload| < 4 { return; }
      var id := GetId(payload);
      var nick := GetNick(payload[4..], nicks[sender]);
      if id != 0 && id != INVALID_ID {
        var allowed := if sender == 0 then HostRange(id) else PeerRange(id);
        if allowed { entries := Establish(entries, {}, sender, id); }
      }
      nick := SanitizeNickname(nick);
      nicks := nicks[sender := nick];
      if id != 0 && id != INVALID_ID { BroadcastPlayerJoinedFromHost(ready, sender, id, nick); }
    }
  }

  class ClientHandshake {
    var slot: nat
    var id: nat
    var joinSent: bool
    var entries: seq<Entry>
    var others: set<nat>
    var nicks: seq<string>

    ghost function View(): Client
      reads this
    {
      Client(slot, id, joinSent, entries, others, nicks)
    }

    // SetLocalPeerId, the puppet of the own slot being none.
    method SetLocalPeerId(x: nat, minted: nat)
      requires |entries| == |nicks|
      modifies this`slot, this`id, this`entries
      ensures View() == SetLocal(old(View()), x, minted)
    {
      if slot == x && x < |entries| && entries[x] != Empty { return; }
      if slot != x && slot < |entries| && entries[slot] != Empty {
        entries := entries[slot := Empty];
        id := INVALID_ID;
      }
      slot := x;
      if x >= |entries| || entries[x].Mirror? { return; }
      if entries[x] != Empty {
        entries := entries[x := Empty];
        id := INVALID_ID;
      }
      if minted == INVALID_ID { return; }
      entries := entries[x := Local(minted)];
      id := minted;
    }

    method HandleAssignPeerSlot(given: int, hostId: nat, sender: int, minted: nat)
      requires |entries| == |nicks|
      modifies this`slot, this`id, this`entries
      ensures View() == if sender == 0 && given >= 0 then HandleAssign(old(View()), given, hostId, minted)
                        else old(View())
    {
      if sender != 0 || given < 1 || given >= |entries| { return; }
      SetLocalPeerId(given, minted);
      if HostRange(hostId) { entries := Establish(entries, others, 0, hostId); }
    }

    method HandlePlayerJoinedMessage(payload: seq<byte>, sender: int)
      requires |entries| == |nicks|
      modifies this`entries, this`nicks
      ensures
        var p := ParsePlayerJoined(payload, "");
        View() == if sender == 0 && p.Parsed? then HandlePlayerJoined(old(View()), PlayerJoined(p.slot, p.id, p.nick))
                  else old(View())
    {
      if sender != 0 || |payload| < 6 { return; }
      var described := payload[0] as nat;
      var describedId := GetId(payload[1..]);
      if described < 1 || described >= |entries| || described == slot || !PeerRange(describedId) { return; }
      entries := Establish(entries, others, described, describedId);
      var nick := GetNick(payload[5..], nicks[described]);
      nick := SanitizeNickname(nick);
      nicks := nicks[described := nick];
    }

    // The Join payload goes out once, when the client has its own Element.
    method MaybeSendJoin(localNick: string, sendOk: bool) returns (sent: bool, payload: seq<byte>)
      requires (id != INVALID_ID ==> id < 0x1_0000_0000) && Ascii(localNick)
      modifies this`joinSent
      ensures sent <==> !old(joinSent) && id != INVALID_ID && sendOk
      ensures joinSent == (old(joinSent) || sent)
      ensures sent && 1 <= |localNick| <= MAX_WIRE_NICK ==> ParseJoin(payload, 0, "") == Parsed(0, id, localNick)
    {
      sent, payload := false, [];
      if joinSent || id == INVALID_ID { return; }
      payload := BuildJoin(id, localNick);
      if sendOk { sent, joinSent := true, true; }
      if 1 <= |localNick| <= MAX_WIRE_NICK {
        IdRoundTrip(id);
        NickRoundTrip(localNick, "");
        assert payload[4..] == PutNick(localNick);
      }
    }
  }
}
