// The calls of PropTracking are the interleaving model's steps with nothing in between.

module PropRefinement {
  import opened PropStore
  import opened PropInterleaving
  import T = PropTracking
  import P = PropElementTrackers

  ghost function FinishTake(s: System, t: nat): System
    requires WorkOf(s, t).Claimed?
  {
    var taken := TakeClaimed(s, t);
    if WorkOf(taken, t).Taken? then EnqueueTaken(taken, t) else taken
  }

  ghost function FromInstalled(s: System, t: nat): System
    requires WorkOf(s, t).Installed?
  {
    var committed := CommitMark(s, t);
    if WorkOf(committed, t).Claimed? then FinishTake(committed, t) else committed
  }

  ghost function FromRegistered(s: System, t: nat): System
    requires WorkOf(s, t).Registered?
  {
    var installed := InstallForMark(s, t);
    if WorkOf(installed, t).Installed? then FromInstalled(installed, t) else installed
  }

  ghost function RunMark(s: System, t: nat, actor: Actor, index: int, isHost: bool): System {
    var checked := StartMark(s, t, actor, index, isHost);
    if !WorkOf(checked, t).Checked? then checked
    else
      var registered := AllocForMark(checked, t);
      if WorkOf(registered, t).Registered? then FromRegistered(registered, t) else registered
  }

  ghost function RunUnmark(s: System, t: nat, actor: Actor): System {
    var unbound := StartUnmark(s, t, actor);
    if WorkOf(unbound, t).Claimed? then FinishTake(unbound, t) else unbound
  }

  lemma CallsRestored(calls: map<nat, Call>, t: nat, c: Call)
    requires t !in calls
    ensures calls[t := c] - {t} == calls
  {
  }

  // Thread t, alone, is in the middle of its call with this work.
  ghost predicate Amid(s: System, t: nat, calls: map<nat, Call>, w: Work) {
    t !in calls && s.calls == calls[t := Call(w, [])]
  }

  lemma FromInstalledIs(s: System, t: nat, calls: map<nat, Call>, actor: Actor, index: int, id: ElementId)
    requires Amid(s, t, calls, Installed(actor, index, id)) && actor !in s.store.byActor
    ensures FromInstalled(s, t).store == s.store.(byActor := s.store.byActor[actor := id])
        && FromInstalled(s, t).calls == calls
  {
    CallsRestored(calls, t, s.calls[t]);
  }

  lemma FromRegisteredIs(s: System, t: nat, calls: map<nat, Call>, actor: Actor, index: int, id: ElementId)
    requires Amid(s, t, calls, Registered(actor, index, id)) && actor !in s.store.byActor && id != INVALID_ID
    ensures
      var (installed, kept) := InstallOwner(s.store, id);
      FromRegistered(s, t).store ==
          (if kept == INVALID_ID then installed else installed.(byActor := installed.byActor[actor := id]))
      && FromRegistered(s, t).calls == calls
  {
    var installed := InstallForMark(s, t);
    CallsRestored(calls, t, s.calls[t]);
    if WorkOf(installed, t).Installed? {
      assert installed.calls == calls[t := Call(Installed(actor, index, id), [])];
      FromInstalledIs(installed, t, calls, actor, index, id);
    }
  }

  // The re-check after the allocation finds the actor unbound, so the drop branch is for races only.
  lemma MarkAloneIsMark(s: System, t: nat, actor: Actor, index: int, isHost: bool)
    requires t !in s.calls && actor != NULL
    ensures RunMark(s, t, actor, index, isHost).store == T.Mark(s.store, actor, index, isHost)
    ensures RunMark(s, t, actor, index, isHost).calls == s.calls
  {
    if actor !in s.store.byActor {
      var checked := StartMark(s, t, actor, index, isHost);
      var registered := AllocForMark(checked, t);
      CallsRestored(s.calls, t, checked.calls[t]);
      var id := AllocId(s.store, isHost, Element(actor, index, false)).1;
      if id != INVALID_ID {
        assert registered.calls == s.calls[t := Call(Registered(actor, index, id), [])];
        FromRegisteredIs(registered, t, s.calls, actor, index, id);
      }
    }
  }

  lemma FinishTakeIs(s: System, t: nat, calls: map<nat, Call>)
    requires WorkOf(s, t).Claimed? && t !in calls && s.calls == calls[t := s.calls[t]] && s.calls[t].todo == []
    ensures
      var id := WorkOf(s, t).id;
      var (store, got) := Take(s.store, id);
      FinishTake(s, t).store == (if got then Enqueue(store, id) else store) && FinishTake(s, t).calls == calls
  {
    var taken := TakeClaimed(s, t);
    CallsRestored(calls, t, s.calls[t]);
    if WorkOf(taken, t).Taken? {
      assert taken.calls == calls[t := taken.calls[t]];
      CallsRestored(calls, t, taken.calls[t]);
    }
  }

  lemma UnmarkAloneIsUnmark(s: System, t: nat, actor: Actor)
    requires t !in s.calls && actor != NULL
    ensures RunUnmark(s, t, actor).store == T.Unmark(s.store, actor) && RunUnmark(s, t, actor).calls == s.calls
  {
    if actor in s.store.byActor { FinishTakeIs(StartUnmark(s, t, actor), t, s.calls); }
  }

  // The game thread alone, between two rows of its reap; with none left it has returned.
  ghost predicate Reaping(s: System, calls: map<nat, Call>, rows: seq<Pair>) {
    && GAME_THREAD !in calls
    && s.calls == if rows == [] then calls else calls[GAME_THREAD := Call(Between, rows)]
  }

  // One row, whatever rows are left: a live row or a mirror is skipped, a dead one evicted.
  ghost function RunRow(s: System): System
    requires GAME_THREAD in s.calls && s.calls[GAME_THREAD].todo != []
  {
    var visited := VisitRow(s, GAME_THREAD);
    if WorkOf(visited, GAME_THREAD).Claimed? then FinishTake(visited, GAME_THREAD) else visited
  }

  lemma RowAloneIsEvictRow(s: System, calls: map<nat, Call>, rows: seq<Pair>)
    requires rows != [] && Reaping(s, calls, rows)
    ensures
      var after := RunRow(s);
      && after.store == (if T.Dead(rows[0].element, s.live) then P.EvictRow(s.store, rows[0]) else s.store)
      && Reaping(after, calls, rows[1..]) && after.live == s.live
  {
    var visited := VisitRow(s, GAME_THREAD);
    CallsRestored(calls, GAME_THREAD, Call(Between, rows[1..]));
    if T.Dead(rows[0].element, s.live) {
      assert visited.calls == calls[GAME_THREAD := Call(Claimed(rows[0].id), rows[1..])];
      var taken := TakeClaimed(visited, GAME_THREAD);
      CallsRestored(calls, GAME_THREAD, visited.calls[GAME_THREAD]);
      if WorkOf(taken, GAME_THREAD).Taken? {
        assert taken.calls == calls[GAME_THREAD := taken.calls[GAME_THREAD]];
        CallsRestored(calls, GAME_THREAD, taken.calls[GAME_THREAD]);
      }
    }
  }

  // The reap from here on: row by row until the cap or the last row, then it returns.
  ghost function RunRows(s: System, calls: map<nat, Call>, rows: seq<Pair>, max: nat): System
    requires Reaping(s, calls, rows)
    decreases |rows|
  {
    if rows == [] then s
    else if max == 0 then s.(calls := s.calls - {GAME_THREAD})
    else
      RowAloneIsEvictRow(s, calls, rows);
      RunRows(RunRow(s), calls, rows[1..], if T.Dead(rows[0].element, s.live) then max - 1 else max)
  }

  ghost function RunReap(s: System, max: nat): System
    requires GAME_THREAD !in s.calls
  {
    var rows := Rows(s.store.registry, 0);
    if rows == [] then s else RunRows(s.(calls := s.calls[GAME_THREAD := Call(Between, rows)]), s.calls, rows, max)
  }

  // The dead rows met first, at most `max`.
  function Cut(rows: seq<Pair>, live: set<(Actor, int)>, max: nat): seq<ElementId> {
    if |T.DeadIds(rows, live)| <= max then T.DeadIds(rows, live) else T.DeadIds(rows, live)[..max]
  }

  lemma {:induction false} DeadIdsConcat(a: seq<Pair>, b: seq<Pair>, live: set<(Actor, int)>)
    ensures T.DeadIds(a + b, live) == T.DeadIds(a, live) + T.DeadIds(b, live)
    decreases |b|
  {
    if b == [] {
      assert a + b == a;
    } else {
      var n := |b| - 1;
      DeadIdsConcat(a, b[..n], live);
      assert (a + b)[..|a + b| - 1] == a + b[..n];
    }
  }

  lemma CutCons(rows: seq<Pair>, live: set<(Actor, int)>, max: nat)
    requires rows != [] && max > 0
    ensures Cut(rows, live, max) ==
            if T.Dead(rows[0].element, live) then [rows[0].id] + Cut(rows[1..], live, max - 1)
            else Cut(rows[1..], live, max)
  {
    assert rows == [rows[0]] + rows[1..];
    DeadIdsConcat([rows[0]], rows[1..], live);
    assert [rows[0]][..0] == [] && T.DeadIds([], live) == [];
    assert T.DeadIds([rows[0]], live) == if T.Dead(rows[0].element, live) then [rows[0].id] else [];
  }

  // Row i, after the rows before it.
  lemma OneMoreRow(s0: Store, rows: seq<Pair>, s: System, calls: map<nat, Call>, i: nat)
    requires P.Tidy(s0) && rows == Rows(s0.registry, 0) && i < |rows| && Reaping(s, calls, rows[i..])
    requires s.store == T.Evicted(s0, T.DeadIds(rows[..i], s.live))
    ensures
      var after := RunRow(s);
      && Reaping(after, calls, rows[i + 1..]) && after.live == s.live
      && after.store == T.Evicted(s0, T.DeadIds(rows[..i + 1], s.live))
      && T.DeadIds(rows[..i + 1], s.live) ==
         T.DeadIds(rows[..i], s.live) + if T.Dead(rows[i].element, s.live) then [rows[i].id] else []
  {
    P.VisitExtends(s0, i, s.live);
    RowAloneIsEvictRow(s, calls, rows[i..]);
    assert rows[i..][1..] == rows[i + 1..] && rows[i..][0] == rows[i];
  }

  // From row i on, after the rows before it.
  lemma {:induction false} RestIsEvicted(s0: Store, rows: seq<Pair>, s: System, calls: map<nat, Call>, i: nat, max: nat)
    requires P.Tidy(s0) && rows == Rows(s0.registry, 0) && i <= |rows| && Reaping(s, calls, rows[i..])
    requires s.store == T.Evicted(s0, T.DeadIds(rows[..i], s.live))
    ensures
      var done := RunRows(s, calls, rows[i..], max);
      && done.store == T.Evicted(s0, T.DeadIds(rows[..i], s.live) + Cut(rows[i..], s.live, max))
      && done.calls == calls
    decreases |rows| - i
  {
    var ids, rest := T.DeadIds(rows[..i], s.live), rows[i..];
    if i == |rows| {
      assert Cut(rest, s.live, max) == [] && ids + [] == ids;
    } else if max == 0 {
      CallsRestored(calls, GAME_THREAD, Call(Between, rest));
      assert Cut(rest, s.live, 0) == [] && ids + [] == ids;
    } else {
      OneMoreRow(s0, rows, s, calls, i);
      CutCons(rest, s.live, max);
      assert rest[1..] == rows[i + 1..] && rest[0] == rows[i];
      var left := if T.Dead(rows[i].element, s.live) then max - 1 else max;
      RestIsEvicted(s0, rows, RunRow(s), calls, i + 1, left);
      Regroup(ids, rows[i].id, Cut(rows[i + 1..], s.live, left));
    }
  }

  lemma Regroup(a: seq<ElementId>, e: ElementId, b: seq<ElementId>)
    ensures a + ([e] + b) == a + [e] + b && a + [] + b == a + b
  {
  }

  // A whole reap with nothing in between evicts exactly its victims.
  lemma ReapAloneIsEvicted(s: System, max: nat)
    requires GAME_THREAD !in s.calls && P.Tidy(s.store)
    ensures RunReap(s, max).store == T.Evicted(s.store, T.Victims(s.store.registry, s.live, max))
    ensures RunReap(s, max).calls == s.calls
  {
    var rows := Rows(s.store.registry, 0);
    assert rows[..0] == [] && rows[0..] == rows && T.DeadIds([], s.live) == [];
    assert T.Evicted(s.store, []) == s.store;
    if rows != [] {
      RestIsEvicted(s.store, rows, s.(calls := s.calls[GAME_THREAD := Call(Between, rows)]), s.calls, 0, max);
      assert [] + Cut(rows, s.live, max) == T.Victims(s.store.registry, s.live, max);
    }
  }
}
