// The mirror that every client has of the host: slot 0, set by AssignPeerSlot alone.

module HandshakeHost {
  import opened Nickname
  import opened HandshakeSpec

  // ---- One AssignPeerSlot ----

  // The own slot's part: the slot is taken, the old slot's Element is gone, the own Element is made unless
  // there is one or a mirror is in its place, and no other slot is touched.
  lemma OwnSlotMoves(c: Client, slot: nat, minted: nat, peers: nat)
    requires ClientShape(c, peers) && slot < peers
    ensures
      var own := SetLocal(c, slot, minted);
      && own.slot == slot && own.others == c.others && own.nicks == c.nicks && own.joinSent == c.joinSent
      && (forall z :: 0 <= z < peers && z != slot && z != c.slot ==> own.entries[z] == c.entries[z])
      && (c.slot < peers && c.slot != slot ==> own.entries[c.slot] == Empty)
      && (if c.entries[slot].Mirror? || (c.slot == slot && c.entries[slot].Local?) then
            own.entries[slot] == c.entries[slot]
          else if minted != INVALID_ID then own.entries[slot] == Local(minted) && own.id == minted
          else own.entries[slot] == Empty)
      && (minted == INVALID_ID && c.slot != slot && c.entries[slot].Local? ==> own.id == INVALID_ID)
      && (minted == INVALID_ID && c.entries[slot] == Empty && (c.slot >= peers || c.entries[c.slot] == Empty) ==>
            own.id == c.id)
  {
  }

  // The client's mirror of the host: the id in the message exactly when it had that mirror or no other
  // Element of the client has the id; as it was when the id is not of the host's range.
  lemma AssignShowsHostIff(c: Client, slot: nat, hostId: nat, minted: nat, peers: nat)
    requires ClientShape(c, peers) && 1 <= slot < peers && c.slot != 0
    ensures
      var own, d := SetLocal(c, slot, minted), HandleAssign(c, slot, hostId, minted);
      && (HostRange(hostId) ==>
            (d.entries[0] == Mirror(hostId) <==>
               c.entries[0] == Mirror(hostId) || (hostId !in c.others && !HeldElsewhere(own.entries, 0, hostId))))
      && (!HostRange(hostId) ==> d.entries[0] == c.entries[0])
      && (forall z :: 1 <= z < peers ==> d.entries[z] == own.entries[z])
      && d == own.(entries := d.entries)
  {
    OwnSlotMoves(c, slot, minted, peers);
  }

  // Messages that are dropped: a slot that is no client's, a client's own slot, an id no client may have.
  lemma BadMessagesIgnored(c: Client, m: Msg, minted: nat, peers: nat)
    requires ClientShape(c, peers)
    requires m.slot == 0 || m.slot >= peers || (m.PlayerJoined? && (m.slot == c.slot || !PeerRange(m.id)))
    ensures Deliver(c, m, minted) == c
  {
  }

  // ---- Over runs ----

  // Elements of the client slots have ids of the peer range.
  ghost predicate Apart(c: Client, peers: nat) {
    && ClientShape(c, peers) && c.slot >= 1
    && forall z :: 1 <= z < peers && c.entries[z] != Empty ==> PeerRange(c.entries[z].id)
  }

  ghost predicate Handled(down: seq<Msg>) { forall i :: 0 <= i < |down| ==> down[i].PlayerJoined? }

  // The AssignPeerSlot is first in line, or the client that handled it shows the host.
  ghost predicate ShowsHost(n: Net, x: nat)
    requires Shape(n) && x < |n.links|
  {
    var l, down := n.links[x], n.host.down[x];
    l.ready ==>
      && l.proc < |n.procs|
      && (if down != [] && down[0].Assign? then down[0] == Assign(x, l.hostId) && Handled(down[1..])
          else Handled(down) && (HostRange(l.hostId) ==> n.procs[l.proc].entries[0] == Mirror(l.hostId)))
  }

  ghost predicate HostInv(n: Net) {
    && Shape(n) && Single(n.links) && (|n.links| > 0 ==> !n.links[0].ready)
    && (forall p :: 0 <= p < |n.procs| ==> Apart(n.procs[p], |n.links|))
    && forall x :: 1 <= x < |n.links| ==> ShowsHost(n, x)
  }

  // As the AssignPeerSlot is handled, no other subsystem of the client has an Element with the host's id.
  ghost predicate ClearStep(n: Net, st: Step) {
    Enabled(n, st) && st.ClientReceive? && n.host.down[st.x][0].Assign? ==>
      n.host.down[st.x][0].hostId !in n.procs[n.links[st.x].proc].others
  }

  lemma {:induction false} RosterIsHandled(h: Host, ready: seq<bool>, joiner: nat, upTo: nat)
    requires |h.entries| == |h.nicks| == |ready| && upTo <= |ready|
    ensures Handled(Roster(h, ready, joiner, upTo))
    decreases upTo
  {
    if upTo > 1 { RosterIsHandled(h, ready, joiner, upTo - 1); }
  }

  // A Join only adds PlayerJoined messages.
  lemma JoinAddsHandled(h: Host, ready: seq<bool>, s: nat, j: Join, z: nat)
    requires HostShape(h, |ready|) && 1 <= s < |ready| && z < |ready|
    ensures
      var down := HandleJoin(h, ready, s, j).down;
      |down| == |ready| && h.down[z] <= down[z] && Handled(down[z][|h.down[z]|..])
  {
    if HasId(j) {
      JoinTells(h, ready, s, j);
      RosterIsHandled(Named(h, s, j), ready, s, |ready|);
    }
  }

  lemma MoreHandled(down: seq<Msg>, more: seq<Msg>)
    requires Handled(more)
    ensures Handled(down) ==> Handled(down + more)
    ensures down != [] && Handled(down[1..]) ==> Handled((down + more)[1..])
  {
    if down != [] { assert (down + more)[1..] == down[1..] + more; }
  }

  lemma DeliveredApart(c: Client, m: Msg, minted: nat, x: nat, peers: nat)
    requires Apart(c, peers) && 1 <= x < peers && Minted(minted, x, peers) && (m.Assign? ==> m.slot == x)
    ensures Apart(Deliver(c, m, minted), peers)
    ensures m.PlayerJoined? ==> Deliver(c, m, minted).entries[0] == c.entries[0]
    ensures m.Assign? && HostRange(m.hostId) && m.hostId !in c.others ==>
              Deliver(c, m, minted).entries[0] == Mirror(m.hostId)
  {
    if m.Assign? {
      OwnSlotMoves(c, x, minted, peers);
      AssignShowsHostIff(c, x, m.hostId, minted, peers);
    }
  }

  lemma ReceiveShows(n: Net, st: Step, x: nat)
    requires HostInv(n) && Enabled(n, st) && ClearStep(n, st) && st.ClientReceive? && 1 <= x < |n.links|
    ensures Shape(Apply(n, st)) && ShowsHost(Apply(n, st), x)
  {
    var p, m := n.links[st.x].proc, n.host.down[st.x][0];
    assert ShowsHost(n, st.x) && ShowsHost(n, x);
    DeliveredApart(n.procs[p], m, st.minted, st.x, |n.links|);
  }

  lemma HostReceiveShows(n: Net, st: Step, x: nat)
    requires HostInv(n) && Enabled(n, st) && st.HostReceive? && 1 <= x < |n.links|
    ensures Shape(Apply(n, st)) && ShowsHost(Apply(n, st), x)
  {
    assert ShowsHost(n, x);
    var n', down := Apply(n, st), n.host.down[x];
    JoinAddsHandled(n.host, ReadyOf(n.links), st.x, n.links[st.x].up[0], x);
    var more := n'.host.down[x][|down|..];
    assert n'.host.down[x] == down + more;
    MoreHandled(down, more);
  }

  lemma OtherStepShows(n: Net, st: Step, x: nat)
    requires HostInv(n) && Enabled(n, st) && !st.ClientReceive? && !st.HostReceive? && 1 <= x < |n.links|
    ensures Shape(Apply(n, st)) && ShowsHost(Apply(n, st), x)
  {
    assert ShowsHost(n, x);
    if !AtSlot(st) && n.links[x].ready && n.links[x].proc == st.p { assert Uses(n, x, st.p); }
  }

  lemma StepApart(n: Net, st: Step, p: nat)
    requires HostInv(n) && Enabled(n, st) && p < |n.procs|
    ensures |Apply(n, st).procs| == |n.procs| && Apart(Apply(n, st).procs[p], |n.links|)
  {
    assert Apart(n.procs[p], |n.links|);
    if st.ClientReceive? {
      assert ShowsHost(n, st.x);
      DeliveredApart(n.procs[n.links[st.x].proc], n.host.down[st.x][0], st.minted, st.x, |n.links|);
    }
  }

  lemma StepSingle(n: Net, st: Step)
    requires HostInv(n) && Enabled(n, st)
    ensures |Apply(n, st).links| == |n.links| && Single(Apply(n, st).links) && !Apply(n, st).links[0].ready
  {
    if st.Connect? {
      forall y | 0 <= y < |n.links| && y != st.x && n.links[y].ready ensures n.links[y].proc != st.p {
        assert !Uses(n, y, st.p);
      }
    }
  }

  lemma StepKeepsHostInv(n: Net, st: Step)
    requires HostInv(n) && Enabled(n, st) && ClearStep(n, st)
    ensures HostInv(Apply(n, st))
  {
    var n' := Apply(n, st);
    StepSingle(n, st);
    forall p | 0 <= p < |n'.procs| ensures Apart(n'.procs[p], |n'.links|) { StepApart(n, st, p); }
    OtherShape(n, st);
    forall x | 1 <= x < |n'.links| ensures ShowsHost(n', x) {
      if st.ClientReceive? {
        ReceiveShows(n, st, x);
      } else if st.HostReceive? {
        HostReceiveShows(n, st, x);
      } else {
        OtherStepShows(n, st, x);
      }
    }
  }

  lemma OtherShape(n: Net, st: Step)
    requires HostInv(n) && Enabled(n, st)
    ensures Shape(Apply(n, st))
  {
    if st.HostReceive? { JoinAddsHandled(n.host, ReadyOf(n.links), st.x, n.links[st.x].up[0], st.x); }
  }

  ghost predicate ClearRun(n: Net, steps: seq<Step>)
    requires Runs(n, steps)
    decreases |steps|
  {
    steps == [] || (ClearStep(n, steps[0]) && ClearRun(Apply(n, steps[0]), steps[1..]))
  }

  lemma {:induction false} RunsKeepHostInv(n: Net, steps: seq<Step>)
    requires HostInv(n) && Runs(n, steps) && ClearRun(n, steps)
    ensures HostInv(After(n, steps))
    decreases |steps|
  {
    if steps != [] {
      StepKeepsHostInv(n, steps[0]);
      RunsKeepHostInv(Apply(n, steps[0]), steps[1..]);
    }
  }

  // Over every run, slots changed or not: a connected client that has handled its AssignPeerSlot shows the
  // host's id in slot 0, if no other subsystem of it had an Element with that id then.
  lemma HostIsShown(n: Net, steps: seq<Step>, x: nat)
    requires Initial(n) && Runs(n, steps) && ClearRun(n, steps)
    ensures
      var n' := After(n, steps);
      Shape(n') &&
      (1 <= x < |n'.links| && n'.links[x].ready && HostRange(n'.links[x].hostId) && Handled(n'.host.down[x]) ==>
         n'.links[x].proc < |n'.procs| && n'.procs[n'.links[x].proc].entries[0] == Mirror(n'.links[x].hostId))
  {
    RunsKeepHostInv(n, steps);
    var n' := After(n, steps);
    if 1 <= x < |n'.links| { assert ShowsHost(n', x); }
  }

  // ---- Departures and reconnects ----

  // Once the host has seen the edges of a slot that has left, it has no mirror and no name of it, nothing
  // is in flight to it, and everything else is as it was.
  lemma DepartureIsSeen(n: Net, x: nat)
    requires Enabled(n, Disconnect(x)) && n.links[x].was
    ensures
      var left := Apply(n, Disconnect(x));
      Enabled(left, ConnectEdge(x)) && Enabled(Apply(left, ConnectEdge(x)), FeedEdge(x))
    ensures
      var seen := Apply(Apply(Apply(n, Disconnect(x)), ConnectEdge(x)), FeedEdge(x));
      && seen.host == Host(n.host.entries[x := Empty], n.host.nicks[x := ""], n.host.down[x := []])
      && !seen.links[x].ready && !seen.links[x].was && !seen.links[x].joined && seen.links[x].up == []
      && seen.procs == n.procs && (forall z :: 0 <= z < |n.links| && z != x ==> seen.links[z] == n.links[z])
  {
  }

  // The edge of an arrival is noted and takes no mirror away.
  lemma ArrivalIsSeen(n: Net, x: nat)
    requires Enabled(n, ConnectEdge(x)) && n.links[x].ready
    ensures
      var seen := Apply(n, ConnectEdge(x));
      seen.host == n.host && seen.links == n.links[x := n.links[x].(was := true)] && seen.procs == n.procs
  {
  }

  // A process that has noticed that its host is gone has no mirror and no name of it, and announces itself
  // again on its next connection if it has an own id.
  lemma ReconnectReannounces(n: Net, p: nat, x: nat, hostId: nat, nick: string)
    requires Enabled(n, HostLost(p)) && Enabled(Apply(n, HostLost(p)), Connect(x, p, hostId))
    ensures
      var lost := Apply(n, HostLost(p));
      var again := Apply(lost, Connect(x, p, hostId));
      && lost.procs[p].entries[0] == Empty && lost.procs[p].nicks[0] == "" && lost.host == n.host
      && (forall z :: 1 <= z < |n.links| ==>
            lost.procs[p].entries[z] == n.procs[p].entries[z] && lost.procs[p].nicks[z] == n.procs[p].nicks[z])
      && again.host.down[x] == [Assign(x, hostId)] && !again.links[x].joined
      && (Enabled(again, SendJoin(x, nick)) <==> n.procs[p].id != INVALID_ID)
  {
  }

  // A session restarted in the same process forgets every name and keeps the Elements.
  lemma RestartForgetsNames(n: Net, p: nat)
    requires Enabled(n, Restart(p))
    ensures
      var d := Apply(n, Restart(p)).procs[p];
      && !d.joinSent && d.entries == n.procs[p].entries && d.id == n.procs[p].id && d.slot == n.procs[p].slot
      && forall z :: 0 <= z < |n.links| ==> d.nicks[z] == "Remote player"
  {
  }

  // A first pose fills an empty slot, with an id if there is one, and leaves a filled one.
  lemma PoseFills(n: Net, p: nat, y: nat, minted: nat)
    requires Enabled(n, ClientPose(p, y, minted))
    ensures
      var c, d := n.procs[p], Apply(n, ClientPose(p, y, minted)).procs[p];
      && (c.entries[y] == Empty && minted != INVALID_ID ==> d.entries[y] == Local(minted))
      && (c.entries[y] != Empty ==> d.entries[y] == c.entries[y]) && d == c.(entries := c.entries[y := d.entries[y]])
  {
  }

  lemma HostPoseFills(n: Net, x: nat, minted: nat)
    requires Enabled(n, HostPose(x, minted))
    ensures
      var h := Apply(n, HostPose(x, minted)).host;
      && (n.host.entries[x] == Empty && minted != INVALID_ID ==> h.entries[x] == Local(minted))
      && (n.host.entries[x] != Empty ==> h.entries[x] == n.host.entries[x])
      && h == n.host.(entries := n.host.entries[x := h.entries[x]])
  {
  }

  // What a client sends is what the host handles next on that channel: its own id and its sanitized name.
  lemma JoinTravels(n: Net, x: nat, nick: string)
    requires Enabled(n, SendJoin(x, nick)) && n.links[x].up == []
    ensures
      var sent := Apply(n, SendJoin(x, nick));
      && Enabled(sent, HostReceive(x)) && sent.host == n.host && sent.procs[n.links[x].proc].joinSent
      && var got := Apply(sent, HostReceive(x));
         && got.host == HandleJoin(n.host, ReadyOf(n.links), x, Join(n.procs[n.links[x].proc].id, Sanitize(nick)))
         && got.links[x].joined && got.links[x].up == [] && got.procs == sent.procs
  {
    var j := Join(n.procs[n.links[x].proc].id, Sanitize(nick));
    var sent := Apply(n, SendJoin(x, nick));
    assert [] + [j] == [j] && [j][1..] == [];
    assert ReadyOf(sent.links) == ReadyOf(n.links);
  }
}
