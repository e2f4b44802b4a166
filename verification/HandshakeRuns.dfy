// Runs of the identity protocol from its start that do not converge, one for each way it can fail.

module HandshakeRuns {
  import opened Nickname
  import opened HandshakeSpec

  // Some run leads from n to m; `suited` when no process is assigned a second slot on the way.
  ghost predicate Reaches(n: Net, m: Net, suited: bool) {
    exists steps :: Runs(n, steps) && After(n, steps) == m && (suited ==> SuitedRun(n, steps))
  }

  lemma {:induction false} RunSnoc(n: Net, a: seq<Step>, st: Step)
    requires Runs(n, a) && Enabled(After(n, a), st)
    ensures Runs(n, a + [st]) && After(n, a + [st]) == Apply(After(n, a), st)
    ensures SuitedRun(n, a + [st]) <==> SuitedRun(n, a) && SuitedStep(After(n, a), st)
    decreases |a|
  {
    if a == [] {
      assert a + [st] == [st] && [st][1..] == [];
    } else {
      assert (a + [st])[0] == a[0] && (a + [st])[1..] == a[1..] + [st];
      RunSnoc(Apply(n, a[0]), a[1..], st);
    }
  }

  lemma ReachesItself(n: Net)
    ensures Reaches(n, n, true)
  {
    assert Runs(n, []);
  }

  lemma ReachStep(n: Net, m: Net, suited: bool, st: Step)
    requires Reaches(n, m, suited) && Enabled(m, st) && (suited ==> SuitedStep(m, st))
    ensures Reaches(n, Apply(m, st), suited)
  {
    var steps :| Runs(n, steps) && After(n, steps) == m && (suited ==> SuitedRun(n, steps));
    RunSnoc(n, steps, st);
  }

  lemma ReachesInv(n: Net, m: Net)
    requires Initial(n) && Reaches(n, m, true)
    ensures Inv(m)
  {
    var steps :| Runs(n, steps) && After(n, steps) == m && SuitedRun(n, steps);
    InitialInv(n);
    RunsKeepInv(n, steps);
  }

  // ---- A first connection ----

  ghost predicate Newcomer(n: Net, x: nat, p: nat) {
    && Shape(n) && 1 <= x < |n.links| && !n.links[x].ready && p < |n.procs| && !Connected(n, p)
    && Blank(n.procs[p], |n.links|)
  }

  // It connects in slot x and is assigned it.
  function Seating(n: Net, x: nat, p: nat, id: nat): Net
    requires Shape(n) && x < |n.links| && p < |n.procs|
  {
    var c := n.procs[p];
    Net(n.host.(down := n.host.down[x := []]),
        n.links[x := Link(true, n.links[x].was, false, [], p, INVALID_ID, "")],
        n.procs[p := c.(slot := x, id := id, entries := c.entries[x := Local(id)])])
  }

  // Then it sends its Join.
  function Arrived(n: Net, x: nat, p: nat, id: nat, nick: string): Net
    requires Shape(n) && x < |n.links| && p < |n.procs|
  {
    var m := Seating(n, x, p, id);
    m.(links := m.links[x := m.links[x].(up := [Join(id, Sanitize(nick))], nick := Sanitize(nick))],
       procs := m.procs[p := m.procs[p].(joinSent := true)])
  }

  lemma SeatingReached(start: Net, n: Net, suited: bool, x: nat, p: nat, id: nat)
    requires Reaches(start, n, suited) && Newcomer(n, x, p) && InBand(id, x, |n.links|)
    ensures Shape(Seating(n, x, p, id)) && Reaches(start, Seating(n, x, p, id), suited)
  {
    var c, n1 := n.procs[p], Apply(n, Connect(x, p, INVALID_ID));
    ReachStep(start, n, suited, Connect(x, p, INVALID_ID));
    assert n1.host.down[x] == [Assign(x, INVALID_ID)] && n1.procs == n.procs;
    ReachStep(start, n1, suited, ClientReceive(x, id));
    var n2 := Apply(n1, ClientReceive(x, id));
    assert HandleAssign(c, x, INVALID_ID, id) == c.(slot := x, id := id, entries := c.entries[x := Local(id)]);
    assert [Assign(x, INVALID_ID)][1..] == [];
    assert n2.host.down == n.host.down[x := []];
    assert n2 == Seating(n, x, p, id);
  }

  lemma JoinSent(start: Net, n: Net, suited: bool, x: nat, nick: string)
    requires Reaches(start, n, suited) && Enabled(n, SendJoin(x, nick)) && n.links[x].up == []
    ensures
      var p, own := n.links[x].proc, Sanitize(nick);
      var m := n.(links := n.links[x := n.links[x].(up := [Join(n.procs[p].id, own)], nick := own)],
                  procs := n.procs[p := n.procs[p].(joinSent := true)]);
      Reaches(start, m, suited)
  {
    ReachStep(start, n, suited, SendJoin(x, nick));
    var j := Join(n.procs[n.links[x].proc].id, Sanitize(nick));
    assert [] + [j] == [j];
  }

  lemma ArrivedReached(start: Net, n: Net, suited: bool, x: nat, p: nat, id: nat, nick: string)
    requires Reaches(start, n, suited) && Newcomer(n, x, p) && InBand(id, x, |n.links|)
    ensures Shape(Arrived(n, x, p, id, nick)) && Reaches(start, Arrived(n, x, p, id, nick), suited)
  {
    var m := Seating(n, x, p, id);
    SeatingReached(start, n, suited, x, p, id);
    JoinSent(start, m, suited, x, nick);
    assert Arrived(n, x, p, id, nick).links[x] == m.links[x].(up := [Join(id, Sanitize(nick))], nick := Sanitize(nick));
  }

  // The host handles the Join of slot s.
  lemma Answered(start: Net, n: Net, suited: bool, s: nat, j: Join) returns (m: Net)
    requires Reaches(start, n, suited) && Shape(n) && 1 <= s < |n.links| && n.links[s].ready
        && n.links[s].proc < |n.procs|
    requires n.links[s].up == [j] && HasId(j)
    ensures Reaches(start, m, suited) && Shape(m) && m.procs == n.procs
    ensures m.links == n.links[s := n.links[s].(up := [], joined := true)]
    ensures m.host.entries == Named(n.host, s, j).entries
    ensures forall z :: 1 <= z < |n.links| && !n.links[z].ready ==> m.host.down[z] == n.host.down[z]
    ensures m.host.down[s] == n.host.down[s] + Roster(Named(n.host, s, j), ReadyOf(n.links), s, |n.links|)
  {
    ReachStep(start, n, suited, HostReceive(s));
    m := Apply(n, HostReceive(s));
    assert n.links[s].up[0] == j && [j][1..] == [];
    assert m.host == HandleJoin(n.host, ReadyOf(n.links), s, j);
    JoinTells(n.host, ReadyOf(n.links), s, j);
  }

  function Left(n: Net, x: nat): Net
    requires Shape(n) && x < |n.links|
  {
    n.(host := n.host.(down := n.host.down[x := []]),
       links := n.links[x := n.links[x].(ready := false, joined := false, up := [])])
  }

  lemma LeftReached(start: Net, n: Net, suited: bool, x: nat)
    requires Reaches(start, n, suited) && Shape(n) && 1 <= x < |n.links| && n.links[x].ready
    requires n.links[x].proc < |n.procs|
    ensures Shape(Left(n, x)) && Reaches(start, Left(n, x), suited)
  {
    ReachStep(start, n, suited, Disconnect(x));
  }

  // Three slots, two processes, nobody has ever connected.
  ghost predicate Start(n: Net) { Initial(n) && |n.links| == 3 && |n.procs| == 2 }

  lemma StartExists()
    ensures exists n :: Start(n)
  {
    var l := Link(false, false, false, [], 0, INVALID_ID, "");
    var c := Client(3, INVALID_ID, false, [Empty, Empty, Empty], {}, ["", "", ""]);
    assert Start(Net(Host([Empty, Empty, Empty], ["", "", ""], [[], [], []]), [l, l, l], [c, c]));
  }

  // The lowest ids of the bands of slots 1 and 2.
  const ONE: nat := 43690
  const TWO: nat := 54612

  lemma StartIsNew(n: Net)
    requires Start(n)
    ensures Newcomer(n, 1, 0) && !Connected(n, 1) && Reaches(n, n, true)
  {
    ReachesItself(n);
  }

  // ---- A slot that has left is not announced ----

  // Client 1 has joined and left, and the host has not seen the edge.
  ghost predicate Stale(n: Net) {
    Newcomer(n, 2, 1) && |n.links| == 3 && n.host.entries[1] == Mirror(ONE) && !n.links[1].ready
  }

  lemma StaleReached(start: Net, nick: string) returns (m: Net)
    requires Start(start)
    ensures Reaches(start, m, true) && Stale(m)
  {
    StartIsNew(start);
    ArrivedReached(start, start, true, 1, 0, ONE, nick);
    var n1 := Arrived(start, 1, 0, ONE, nick);
    var n2 := Answered(start, n1, true, 1, Join(ONE, Sanitize(nick)));
    LeftReached(start, n2, true, 1);
    m := Left(n2, 1);
    assert forall x :: !Uses(m, x, 1);
  }

  // Client 2 joins before the host has seen the edge of slot 1: the host still holds its mirror of slot 1,
  // and client 2 never hears of it.  No process changes slots in this run.
  lemma StaleMirrorIsNotAnnounced(start: Net, nick: string)
    requires Start(start)
    ensures
      exists m :: Reaches(start, m, true) && Shape(m) && |m.links| == 3 && Joined(m, 2) && m.links[2].proc < |m.procs|
        && m.host.entries[1] == Mirror(ONE) && Final(m.procs[m.links[2].proc], m.host.down[2]).entries[1] == Empty
  {
    var n := StaleReached(start, nick);
    ArrivedReached(start, n, true, 2, 1, TWO, nick);
    var n1 := Arrived(n, 2, 1, TWO, nick);
    ReachesInv(start, n1);
    assert Final(n1.procs[1], n1.host.down[2]) == n1.procs[1];
    ReachStep(start, n1, true, HostReceive(2));
    JoinerIsTold(n1, HostReceive(2), 1);
    var m := Apply(n1, HostReceive(2));
    assert Joined(m, 2);
  }

  // ---- A process that changes slots announces the id of its old one ----

  // Process 0 had slot 1 and the id 43690, has left, and is about to be told that it has slot 2.
  ghost predicate Returning(n: Net) {
    && Shape(n) && |n.links| == 3 && |n.procs| == 2 && Blank(n.procs[1], 3) && !n.links[1].ready
    && n.links[2].ready && n.links[2].proc == 0 && n.links[2].up == [] && n.host.down[2] == [Assign(2, INVALID_ID)]
    && n.host.entries == [Empty, Empty, Empty] && !n.links[0].ready && n.host.down[1] == []
    && var c := n.procs[0];
       c.slot == 1 && c.id == ONE && c.entries == [Empty, Local(ONE), Empty] && c.others == {} && !c.joinSent
  }

  lemma Reconnected(start: Net, n: Net, x: nat, p: nat) returns (m: Net)
    requires Reaches(start, n, false) && Shape(n) && 1 <= x < |n.links| && p < |n.procs|
    requires forall y :: 0 <= y < |n.links| ==> !n.links[y].ready
    ensures Reaches(start, m, false)
    ensures m == n.(host := n.host.(down := n.host.down[x := [Assign(x, INVALID_ID)]]),
                    links := n.links[x := Link(true, n.links[x].was, false, [], p, INVALID_ID, "")])
  {
    ReachStep(start, n, false, Connect(x, p, INVALID_ID));
    m := Apply(n, Connect(x, p, INVALID_ID));
  }

  lemma ReturningReached(start: Net) returns (m: Net)
    requires Start(start)
    ensures Reaches(start, m, false) && Returning(m)
  {
    StartIsNew(start);
    SeatingReached(start, start, true, 1, 0, ONE);
    var n1 := Seating(start, 1, 0, ONE);
    assert n1.procs[0].entries == [Empty, Local(ONE), Empty];
    assert Reaches(start, n1, false);
    LeftReached(start, n1, false, 1);
    var n2 := Left(n1, 1);
    assert Shape(n2) && |n2.links| == 3 && !n2.links[1].ready && !n2.links[2].ready && !n2.links[0].ready;
    m := Reconnected(start, n2, 2, 0);
  }

  // Its Join, sent before it handles that message, carries 43690; then it gets the id 54612, and sends no
  // other Join.
  ghost predicate Confused(n: Net) {
    && Newcomer(n, 1, 1) && |n.links| == 3 && |n.procs| == 2 && n.host.down[1] == []
    && n.host.entries[1] == Empty && n.host.entries[2] == Mirror(ONE)
    && n.links[2].ready && n.links[2].joined && n.links[2].proc == 0
    && n.procs[0].id == TWO && n.procs[0].joinSent
  }

  lemma EarlyJoinSent(start: Net, n: Net, nick: string) returns (m: Net)
    requires Reaches(start, n, false) && Returning(n)
    ensures Reaches(start, m, false) && Shape(m) && m.host == n.host
        && m.procs == n.procs[0 := n.procs[0].(joinSent := true)]
    ensures m.links == n.links[2 := n.links[2].(up := [Join(ONE, Sanitize(nick))], nick := Sanitize(nick))]
  {
    JoinSent(start, n, false, 2, nick);
    m := n.(links := n.links[2 := n.links[2].(up := [Join(ONE, Sanitize(nick))], nick := Sanitize(nick))],
            procs := n.procs[0 := n.procs[0].(joinSent := true)]);
  }

  lemma EarlyJoinHandled(start: Net, n: Net, nick: string) returns (m: Net)
    requires Reaches(start, n, false) && Returning(n)
    ensures Reaches(start, m, false) && Shape(m) && |m.links| == 3
        && m.procs == n.procs[0 := n.procs[0].(joinSent := true)]
    ensures m.host.entries == n.host.entries[2 := Mirror(ONE)] && m.host.down[1] == n.host.down[1]
    ensures m.host.down[2] != [] && m.host.down[2][0] == Assign(2, INVALID_ID)
    ensures m.links == n.links[2 := n.links[2].(joined := true, nick := Sanitize(nick))]
  {
    var n1 := EarlyJoinSent(start, n, nick);
    m := Answered(start, n1, false, 2, Join(ONE, Sanitize(nick)));
  }

  lemma Reassigned(start: Net, n: Net) returns (m: Net)
    requires Reaches(start, n, false) && Shape(n) && |n.links| == 3 && n.links[2].ready && n.links[2].proc == 0
    requires n.host.down[2] != [] && n.host.down[2][0] == Assign(2, INVALID_ID) && |n.procs| > 0
    requires n.procs[0].slot == 1 && n.procs[0].entries == [Empty, Local(ONE), Empty]
    ensures Reaches(start, m, false) && Shape(m) && m.links == n.links && |m.procs| == |n.procs|
    ensures m.host.entries == n.host.entries && m.host.down[1] == n.host.down[1]
    ensures m.procs == n.procs[0 := m.procs[0]] && m.procs[0].id == TWO && m.procs[0].joinSent == n.procs[0].joinSent
  {
    ReachStep(start, n, false, ClientReceive(2, TWO));
    m := Apply(n, ClientReceive(2, TWO));
  }

  lemma NobodyUses(n: Net, p: nat)
    requires forall x :: 0 <= x < |n.links| && n.links[x].ready ==> n.links[x].proc != p
    ensures !Connected(n, p)
  {
    assert forall x :: !Uses(n, x, p);
  }

  lemma ConfusedReached(start: Net, nick: string) returns (m: Net)
    requires Start(start)
    ensures Reaches(start, m, false) && Confused(m)
  {
    var n := ReturningReached(start);
    var n1 := EarlyJoinHandled(start, n, nick);
    m := Reassigned(start, n1);
    NobodyUses(m, 1);
  }

  // A newcomer then gets slot 1 and the first id of its band, 43690.  Both clients have joined; the host
  // has no mirror of slot 1, its mirror of slot 2 is not the id of client 2, and client 1 will never have
  // a mirror of slot 2, because its own Element has the announced id.
  lemma ChangedSlotDoesNotConverge(start: Net, nick: string)
    requires Start(start)
    ensures
      exists m :: Reaches(start, m, false) && Shape(m) && |m.links| == 3 && |m.procs| == 2
        && Joined(m, 1) && Joined(m, 2)
        && m.links[1].proc == 1 && m.links[2].proc == 0
        && m.host.entries[1] == Empty && m.host.entries[2] == Mirror(ONE)
        && m.procs[0].id == TWO && m.procs[1].id == ONE
        && Final(m.procs[1], m.host.down[1]).entries[2] == Empty
  {
    var n := ConfusedReached(start, nick);
    ArrivedReached(start, n, false, 1, 1, ONE, nick);
    var n1 := Arrived(n, 1, 1, ONE, nick);
    var m := Answered(start, n1, false, 1, Join(ONE, Sanitize(nick)));
    assert Holds(n1.host.entries[2], ONE);
    RosterOfTwo(Named(n1.host, 1, Join(ONE, Sanitize(nick))), ReadyOf(n1.links));
    OwnIdIsRefused(m.procs[1], m.host.down[1]);
    assert Joined(m, 1) && Joined(m, 2);
  }

  lemma RosterOfTwo(h: Host, ready: seq<bool>)
    requires |h.entries| == |h.nicks| == |ready| == 3 && ready[2] && h.entries[2].Mirror?
    ensures Roster(h, ready, 1, 3) == [PlayerJoined(2, h.entries[2].id, h.nicks[2])]
  {
    assert Roster(h, ready, 1, 1) == [];
    assert Roster(h, ready, 1, 2) == [];
  }

  lemma OwnIdIsRefused(c: Client, msgs: seq<Msg>)
    requires |c.entries| == |c.nicks| == 3 && c.slot == 1 && c.entries[1] == Local(ONE) && c.entries[2] == Empty
    requires |msgs| == 1 && msgs[0].PlayerJoined? && msgs[0].slot == 2 && msgs[0].id == ONE
    ensures Final(c, msgs).entries[2] == Empty
  {
    assert msgs[..0] == [] && Final(c, []) == c;
    assert Holds(c.entries[1], ONE);
  }
}
