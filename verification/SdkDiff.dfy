// Functions added, removed and renamed between two dumps of a class.

module SdkDiff {
  import opened EditDistances

  datatype Option<T> = None | Some(value: T)

  // ---- K2Node names ----

  datatype Stripped = Stripped(prefix: string, ordinal: string)

  predicate Digit(c: char) { '0' <= c <= '9' }

  lemma DigitIff(c: char)
    ensures Digit(c) <==> c in "0123456789"
  {
    assert "0123456789" == ['0', '1', '2', '3', '4', '5', '6', '7', '8', '9'];
  }

  const NODE := "K2Node"

  // Some occurrence of node, at j, has no underscore after it.
  ghost predicate NodeAt(s: string, node: string, j: nat) {
    j + |node| <= |s| && s[j..j + |node|] == node && '_' !in s[j + |node|..]
  }

  // The regular expression: anything, K2Node, no underscore up to one, then digits to the end.
  ghost predicate Matches(name: string, at: nat) {
    && 0 < at < |name| && name[at - 1] == '_'
    && (forall i :: at <= i < |name| ==> Digit(name[i]))
    && HasNode(name[..at - 1])
  }

  ghost predicate HasNode(s: string) { exists j: nat :: NodeAt(s, NODE, j) }

  function TrailingDigits(name: string): (i: nat)
    ensures i <= |name|
    ensures forall k :: i <= k < |name| ==> Digit(name[k])
    ensures i > 0 ==> !Digit(name[i - 1])
    decreases |name|
  {
    if name != "" && Digit(name[|name| - 1]) then TrailingDigits(name[..|name| - 1]) else |name|
  }

  predicate EndsNode(s: string, node: string)
    decreases |s|
  {
    |s| >= |node| > 0 && (s[|s| - |node|..] == node || (s[|s| - 1] != '_' && EndsNode(s[..|s| - 1], node)))
  }

  // strip_k2node_ordinal: the prefix and the ordinal of a K2Node name.
  function Strip(name: string): Option<Stripped> {
    var at := TrailingDigits(name);
    if 0 < at < |name| && name[at - 1] == '_' && EndsNode(name[..at - 1], NODE) then
      Some(Stripped(name[..at], name[at..]))
    else None
  }

  lemma {:induction false} EndsNodeFinds(s: string, node: string, j: nat)
    requires NodeAt(s, node, j) && node != ""
    ensures EndsNode(s, node)
    decreases |s|
  {
    if j != |s| - |node| {
      var t := s[..|s| - 1];
      assert t[j..j + |node|] == s[j..j + |node|];
      assert t[j + |node|..] == s[j + |node|..][..|s| - 1 - j - |node|];
      assert s[|s| - 1] in s[j + |node|..];
      EndsNodeFinds(t, node, j);
    }
  }

  lemma {:induction false} EndsNodeFound(s: string, node: string) returns (j: nat)
    requires EndsNode(s, node)
    ensures NodeAt(s, node, j)
    decreases |s|
  {
    if s[|s| - |node|..] == node {
      j := |s| - |node|;
      assert s[j + |node|..] == "";
    } else {
      var t := s[..|s| - 1];
      j := EndsNodeFound(t, node);
      assert t[j..j + |node|] == s[j..j + |node|];
      assert s[j + |node|..] == t[j + |node|..] + [s[|s| - 1]];
    }
  }

  lemma HasNodeIff(s: string)
    ensures HasNode(s) <==> EndsNode(s, NODE)
  {
    if HasNode(s) {
      var j: nat :| NodeAt(s, NODE, j);
      EndsNodeFinds(s, NODE, j);
    } else if EndsNode(s, NODE) {
      var j := EndsNodeFound(s, NODE);
    }
  }

  // Strip finds the only way the regular expression can match.
  lemma StripIff(name: string, at: nat)
    requires at <= |name|
    ensures Matches(name, at) <==> Strip(name).Some? && Strip(name).value == Stripped(name[..at], name[at..])
  {
    var d := TrailingDigits(name);
    if Matches(name, at) {
      assert at == d;
      HasNodeIff(name[..at - 1]);
    } else if Strip(name).Some? && Strip(name).value == Stripped(name[..at], name[at..]) {
      assert |name[..d]| == d && |name[..at]| == at;
      HasNodeIff(name[..at - 1]);
    }
  }

  // A word after K2Node hides it: [^_]* cannot cross the underscore in between.
  lemma AnotherWordHidesTheNode(p: string, word: string, digits: string)
    requires '_' !in word && 'K' !in word && digits != "" && forall i :: 0 <= i < |digits| ==> Digit(digits[i])
    ensures Strip(p + "_" + word + "_" + digits) == None
  {
    var s := p + "_" + word;
    var name := s + "_" + digits;
    var at := TrailingDigits(name);
    assert name[|s|] == '_' && name[|s| + 1..] == digits;
    assert forall i :: |s| + 1 <= i < |name| ==> name[i] == digits[i - |s| - 1];
    assert at == |s| + 1 && name[..at - 1] == s;
    if EndsNode(s, NODE) {
      var j := EndsNodeFound(s, NODE);
      NodeStarts(s, j, |p|);
      assert false;
    }
  }

  lemma NodeStarts(s: string, j: nat, at: nat)
    requires NodeAt(s, NODE, j) && at < |s| && s[at] == '_'
    ensures at < j < |s| && s[j] == 'K'
  {
    assert forall i :: 0 <= i < |NODE| ==> s[j + i] == NODE[i];
    assert NODE[0] == 'K' && '_' !in NODE;
  }

  // So the example of the function's own documentation is not a K2Node name to it.
  lemma DocumentedExampleIsNotStripped(name: string)
    requires name == "InpActEvt_use_K2Node_InputActionEvent_41"
    ensures Strip(name) == None
  {
    var p, word, digits := "InpActEvt_use_K2Node", "InputActionEvent", "41";
    assert name == p + "_" + word + "_" + digits;
    AnotherWordHidesTheNode(p, word, digits);
  }

  // ---- The two dumps of one class ----

  datatype Function = Function(name: string, params: nat)

  function Names(fns: seq<Function>): set<string> { set f | f in fns :: f.name }

  ghost predicate DistinctNames(fns: seq<Function>) {
    forall i, j :: 0 <= i < j < |fns| ==> fns[i].name != fns[j].name
  }

  function Arity(fns: seq<Function>, name: string): nat
    requires name in Names(fns)
  {
    if fns[0].name == name then fns[0].params else Arity(fns[1..], name)
  }

  lemma {:induction false} ArityIs(fns: seq<Function>, i: nat)
    requires DistinctNames(fns) && i < |fns|
    ensures fns[i].name in Names(fns) && Arity(fns, fns[i].name) == fns[i].params
    decreases |fns|
  {
    if i > 0 {
      assert fns[0].name != fns[i].name;
      forall k, j | 0 <= k < j < |fns[1..]| ensures fns[1..][k].name != fns[1..][j].name {
        assert fns[1..][k] == fns[k + 1] && fns[1..][j] == fns[j + 1];
      }
      ArityIs(fns[1..], i - 1);
    }
  }

  // old_k2: for each prefix the last K2Node function and its ordinal.
  function LastByPrefix(fns: seq<Function>): map<string, (string, string)> {
    if fns == [] then map[]
    else
      var f := fns[|fns| - 1].name;
      var earlier := LastByPrefix(fns[..|fns| - 1]);
      if Strip(f).Some? then earlier[Strip(f).value.prefix := (f, Strip(f).value.ordinal)] else earlier
  }

  predicate IsKept(k2: map<string, (string, string)>, f: string) {
    exists p :: p in k2 && k2[p].0 == f
  }

  // The old-only and new-only functions that are paired or listed.
  function Removed(before: seq<Function>, after: seq<Function>): set<string> {
    var k2 := LastByPrefix(before);
    set f | f in Names(before) && f !in Names(after) && !IsKept(k2, f)
  }

  function Added(before: seq<Function>, after: seq<Function>): set<string> {
    set f | f in Names(after) && f !in Names(before)
        && !(Strip(f).Some? && Strip(f).value.prefix in LastByPrefix(before))
  }

  method OldOrdinals(fns: seq<Function>) returns (k2: map<string, (string, string)>)
    ensures k2 == LastByPrefix(fns)
  {
    k2 := map[];
    var i := 0;
    while i < |fns|
      invariant 0 <= i <= |fns| && k2 == LastByPrefix(fns[..i])
    {
      var s := Strip(fns[i].name);
      assert fns[..i + 1][..i] == fns[..i];
      if s.Some? { k2 := k2[s.value.prefix := (fns[i].name, s.value.ordinal)]; }
      i := i + 1;
    }
    assert fns[..|fns|] == fns;
  }

  predicate HasPrefix(name: string, p: string) { Strip(name).Some? && Strip(name).value.prefix == p }

  ghost predicate IsLast(fns: seq<Function>, p: string, i: nat) {
    i < |fns| && HasPrefix(fns[i].name, p) && forall j :: i < j < |fns| ==> !HasPrefix(fns[j].name, p)
  }

  lemma {:induction false} LastIsKept(fns: seq<Function>, p: string, i: nat)
    requires IsLast(fns, p, i)
    ensures p in LastByPrefix(fns) && LastByPrefix(fns)[p] == (fns[i].name, Strip(fns[i].name).value.ordinal)
    decreases |fns|
  {
    var n := |fns| - 1;
    if i != n { LastIsKept(fns[..n], p, i); }
  }

  lemma {:induction false} KeptHasLast(fns: seq<Function>, p: string) returns (i: nat)
    requires p in LastByPrefix(fns)
    ensures IsLast(fns, p, i)
    decreases |fns|
  {
    var n := |fns| - 1;
    if HasPrefix(fns[n].name, p) {
      i := n;
    } else {
      i := KeptHasLast(fns[..n], p);
    }
  }

  // An old-only function is left unreported exactly when it is the last old K2Node function of its prefix,
  // whether or not the new dump has a renumbered one.
  lemma DroppedIff(before: seq<Function>, after: seq<Function>, i: nat)
    requires DistinctNames(before) && i < |before| && before[i].name !in Names(after)
    ensures before[i].name !in Removed(before, after) <==>
              Strip(before[i].name).Some? && IsLast(before, Strip(before[i].name).value.prefix, i)
  {
    var f, k2 := before[i].name, LastByPrefix(before);
    assert f in Names(before);
    if IsKept(k2, f) {
      var p :| p in k2 && k2[p].0 == f;
      var k := KeptHasLast(before, p);
      LastIsKept(before, p, k);
      assert k == i;
    }
    if Strip(f).Some? && IsLast(before, Strip(f).value.prefix, i) { LastIsKept(before, Strip(f).value.prefix, i); }
  }

  // A new-only function is left unreported exactly when some old K2Node function has its prefix.
  lemma AddedIff(before: seq<Function>, after: seq<Function>, a: string)
    ensures a in Added(before, after) <==>
              && a in Names(after) && a !in Names(before)
              && !(Strip(a).Some? && exists i :: 0 <= i < |before| && HasPrefix(before[i].name, Strip(a).value.prefix))
  {
    if Strip(a).Some? {
      var prefix := Strip(a).value.prefix;
      if prefix in LastByPrefix(before) {
        var k := KeptHasLast(before, prefix);
        assert HasPrefix(before[k].name, prefix);
      }
      if i :| 0 <= i < |before| && HasPrefix(before[i].name, prefix) { PrefixIsKept(before, prefix, i); }
    }
  }

  lemma {:induction false} PrefixIsKept(fns: seq<Function>, prefix: string, i: nat)
    requires i < |fns| && HasPrefix(fns[i].name, prefix)
    ensures prefix in LastByPrefix(fns)
    decreases |fns|
  {
    if i < |fns| - 1 { PrefixIsKept(fns[..|fns| - 1], prefix, i); }
  }

  // A function of both dumps is reported on neither side, and only functions of the dumps are.
  lemma CommonUnreported(before: seq<Function>, after: seq<Function>, f: string)
    ensures f in Removed(before, after) ==> f in Names(before) && f !in Names(after)
    ensures f in Added(before, after) ==> f in Names(after) && f !in Names(before)
  {
  }

  // ---- Pairing ----

  datatype Rename = Rename(before: string, after: string, distance: nat, params: nat)

  function Threshold(name: string): nat {
    if |name| / 4 >= 2 then |name| / 4 else 2
  }

  // Two edits are always within the threshold; more only up to a quarter of the old name's length.
  lemma WithinThresholdIff(name: string, edits: nat)
    ensures edits <= Threshold(name) <==> edits <= 2 || 4 * edits <= |name|
  {
  }

  function News(rs: seq<Rename>): seq<string> { seq(|rs|, i requires 0 <= i < |rs| => rs[i].after) }

  function Olds(rs: seq<Rename>): seq<string> { seq(|rs|, i requires 0 <= i < |rs| => rs[i].before) }

  // a could be the new name of r once the names in `taken` are gone.
  ghost predicate Candidate(before: seq<Function>, after: seq<Function>, r: string, a: string, taken: seq<string>)
    requires r in Names(before) && a in Names(after)
  {
    a !in taken && Arity(after, a) == Arity(before, r) && Lev(r, a) <= Threshold(r)
  }

  ghost predicate Named(before: seq<Function>, after: seq<Function>, rs: seq<string>, added: seq<string>) {
    (forall r :: r in rs ==> r in Names(before)) && (forall a :: a in added ==> a in Names(after))
  }

  ghost predicate Picks(before: seq<Function>, after: seq<Function>, added: seq<string>, r: string, p: Rename,
      taken: seq<string>)
    requires r in Names(before) && forall a :: a in added ==> a in Names(after)
  {
    && p.before == r && p.after in added && p.distance == Lev(r, p.after) && p.params == Arity(before, r)
    && Candidate(before, after, r, p.after, taken)
    && forall a :: a in added && Candidate(before, after, r, a, taken) ==> p.distance <= Lev(r, a)
  }

  ghost predicate NonePicked(before: seq<Function>, after: seq<Function>, added: seq<string>, r: string,
      taken: seq<string>)
    requires r in Names(before) && forall a :: a in added ==> a in Names(after)
  {
    forall a :: a in added ==> !Candidate(before, after, r, a, taken)
  }

  // The reports after going through rs in order: each name is paired with a nearest candidate not yet
  // taken, or listed as removed if there is none.
  ghost predicate Reports(before: seq<Function>, after: seq<Function>, added: seq<string>, rs: seq<string>,
                          renamed: seq<Rename>, removed: seq<string>)
    requires Named(before, after, rs, added)
    decreases |rs|
  {
    if rs == [] then renamed == [] && removed == []
    else
      var n := |rs| - 1;
      if removed != [] && removed[|removed| - 1] == rs[n] then
        NonePicked(before, after, added, rs[n], News(renamed)) &&
        Reports(before, after, added, rs[..n], renamed, removed[..|removed| - 1])
      else
        renamed != [] &&
        Picks(before, after, added, rs[n], renamed[|renamed| - 1], News(renamed[..|renamed| - 1])) &&
        Reports(before, after, added, rs[..n], renamed[..|renamed| - 1], removed)
  }

  ghost predicate Lists(s: seq<string>, names: set<string>) {
    (forall i, j :: 0 <= i < j < |s| ==> s[i] != s[j]) && (forall x :: x in s <==> x in names)
  }

  // The names that are not taken, in order.
  function Untaken(rs: seq<string>, taken: set<string>): seq<string> {
    if rs == [] then []
    else
      var r := rs[|rs| - 1];
      Untaken(rs[..|rs| - 1], taken) + if r in taken then [] else [r]
  }

  function AsSet(s: seq<string>): set<string> { set x | x in s }

  // The inner loop: a nearest unmatched function of the same arity within the threshold.
  method Nearest(before: seq<Function>, after: seq<Function>, added: seq<string>, r: string, matched: set<string>,
      taken: seq<string>)
    returns (best: Option<(nat, string)>)
    requires r in Names(before) && (forall a :: a in added ==> a in Names(after)) && matched == AsSet(taken)
    ensures best.None? ==> NonePicked(before, after, added, r, taken)
    ensures best.Some? ==>
        Picks(before, after, added, r, Rename(r, best.value.1, best.value.0, Arity(before, r)), taken)
  {
    var arity := Arity(before, r);
    best := None;
    var i := 0;
    while i < |added|
      invariant 0 <= i <= |added|
      invariant best.None? ==> forall k | 0 <= k < i :: !Candidate(before, after, r, added[k], taken)
      invariant best.Some? ==>
                  best.value.1 in added && best.value.0 == Lev(r, best.value.1) &&
                  Candidate(before, after, r, best.value.1, taken)
      invariant best.Some? ==> forall k | 0 <= k < i :: Candidate(before, after, r, added[k], taken) ==>
          best.value.0 <= Lev(r, added[k])
    {
      var a := added[i];
      i := i + 1;
      if a in matched { continue; }
      if Arity(after, a) != arity { continue; }
      var d := EditDistance(r, a);
      if d <= Threshold(r) {
        if best.None? || d < best.value.0 { best := Some((d, a)); }
      }
    }
  }

  // The pairing loop, over the old-only names in order.
  method PairRenames(before: seq<Function>, after: seq<Function>, rs: seq<string>, added: seq<string>)
    returns (renamed: seq<Rename>, matchedAdded: set<string>, matchedRemoved: set<string>)
    requires Named(before, after, rs, added) && forall i, j :: 0 <= i < j < |rs| ==> rs[i] != rs[j]
    ensures Reports(before, after, added, rs, renamed, Untaken(rs, matchedRemoved))
    ensures matchedAdded == AsSet(News(renamed))
  {
    renamed, matchedAdded, matchedRemoved := [], {}, {};
    var i := 0;
    while i < |rs|
      invariant 0 <= i <= |rs| && Paired(before, after, added, rs[..i], renamed, matchedAdded, matchedRemoved)
    {
      var r := rs[i];
      ghost var done := rs[..i];
      assert rs[..i + 1] == done + [r] && r !in done && r in rs;
      var best := Nearest(before, after, added, r, matchedAdded, News(renamed));
      if best.Some? {
        var p := Rename(r, best.value.1, best.value.0, Arity(before, r));
        PairStep(before, after, added, done, r, renamed, matchedAdded, matchedRemoved, p);
        renamed := renamed + [p];
        matchedAdded := matchedAdded + {best.value.1};
        matchedRemoved := matchedRemoved + {r};
      } else {
        SkipStep(before, after, added, done, r, renamed, matchedAdded, matchedRemoved);
      }
      i := i + 1;
    }
    assert rs[..i] == rs;
  }

  ghost predicate Paired(before: seq<Function>, after: seq<Function>, added: seq<string>, done: seq<string>,
                         renamed: seq<Rename>, matchedAdded: set<string>, matchedRemoved: set<string>)
  {
    && Named(before, after, done, added) && Reports(before, after, added, done, renamed, Untaken(done, matchedRemoved))
    && matchedAdded == AsSet(News(renamed)) && matchedRemoved <= AsSet(done)
  }

  // removedSorted, addedSorted: sorted(removed) and sorted(added); addedOrder: any iteration order of added.
  method DiffFunctions(before: seq<Function>, after: seq<Function>, removedSorted: seq<string>, addedOrder: seq<string>,
                       addedSorted: seq<string>)
    returns (renamed: seq<Rename>, removed: seq<string>, added: seq<string>)
    requires Lists(removedSorted, Removed(before, after)) && Lists(addedOrder, Added(before, after))
        && Lists(addedSorted, Added(before, after))
    ensures Named(before, after, removedSorted, addedOrder)
    ensures Reports(before, after, addedOrder, removedSorted, renamed, removed)
    ensures multiset(Olds(renamed)) + multiset(removed) == multiset(removedSorted)
    ensures multiset(News(renamed)) + multiset(added) == multiset(addedSorted)
  {
    var matchedAdded, matchedRemoved;
    renamed, matchedAdded, matchedRemoved := PairRenames(before, after, removedSorted, addedOrder);
    removed := ListUntaken(removedSorted, matchedRemoved);
    added := ListUntaken(addedSorted, matchedAdded);
    EachRemovedOnce(before, after, addedOrder, removedSorted, renamed, removed);
    EachAddedOnce(before, after, addedOrder, addedSorted, removedSorted, renamed, removed);
  }

  lemma PairStep(before: seq<Function>, after: seq<Function>, added: seq<string>, done: seq<string>, r: string,
                 renamed: seq<Rename>, matchedAdded: set<string>, matchedRemoved: set<string>, p: Rename)
    requires Paired(before, after, added, done, renamed, matchedAdded, matchedRemoved) && r !in done
        && r in Names(before)
    requires Picks(before, after, added, r, p, News(renamed))
    ensures Paired(before, after, added, done + [r], renamed + [p], matchedAdded + {p.after}, matchedRemoved + {r})
  {
    var rs, ren := done + [r], renamed + [p];
    assert rs[..|done|] == done && ren[..|renamed|] == renamed;
    assert News(ren) == News(renamed) + [p.after];
    UntakenNext(done, matchedRemoved, r);
    UntakenMembers(done, matchedRemoved);
    assert Reports(before, after, added, rs, ren, Untaken(done, matchedRemoved));
  }

  lemma SkipStep(before: seq<Function>, after: seq<Function>, added: seq<string>, done: seq<string>, r: string,
                 renamed: seq<Rename>, matchedAdded: set<string>, matchedRemoved: set<string>)
    requires Paired(before, after, added, done, renamed, matchedAdded, matchedRemoved) && r !in done
        && r in Names(before)
    requires NonePicked(before, after, added, r, News(renamed))
    ensures Paired(before, after, added, done + [r], renamed, matchedAdded, matchedRemoved)
  {
    var rs, listed := done + [r], Untaken(done, matchedRemoved) + [r];
    assert rs[..|done|] == done && listed[..|listed| - 1] == Untaken(done, matchedRemoved);
    UntakenNext(done, matchedRemoved, r);
    assert Reports(before, after, added, rs, renamed, listed);
  }

  // A listing loop.
  method ListUntaken(rs: seq<string>, taken: set<string>) returns (out: seq<string>)
    ensures out == Untaken(rs, taken)
  {
    out := [];
    var i := 0;
    while i < |rs|
      invariant 0 <= i <= |rs| && out == Untaken(rs[..i], taken)
    {
      assert rs[..i + 1][..i] == rs[..i];
      if rs[i] !in taken { out := out + [rs[i]]; }
      i := i + 1;
    }
    assert rs[..i] == rs;
  }

  lemma {:induction false} UntakenIgnores(rs: seq<string>, taken: set<string>, r: string)
    requires r !in rs
    ensures Untaken(rs, taken + {r}) == Untaken(rs, taken)
    decreases |rs|
  {
    if rs != [] { UntakenIgnores(rs[..|rs| - 1], taken, r); }
  }

  lemma UntakenNext(rs: seq<string>, taken: set<string>, r: string)
    requires r !in rs && taken <= AsSet(rs)
    ensures Untaken(rs + [r], taken + {r}) == Untaken(rs, taken)
    ensures Untaken(rs + [r], taken) == Untaken(rs, taken) + [r]
  {
    assert (rs + [r])[..|rs|] == rs;
    UntakenIgnores(rs, taken, r);
  }

  lemma {:induction false} UntakenMembers(rs: seq<string>, taken: set<string>)
    ensures forall x :: x in Untaken(rs, taken) <==> x in rs && x !in taken
    decreases |rs|
  {
    if rs != [] {
      UntakenMembers(rs[..|rs| - 1], taken);
      assert rs == rs[..|rs| - 1] + [rs[|rs| - 1]];
    }
  }

  // ---- What the reports say ----

  lemma MultisetSnoc(s: seq<string>)
    requires s != []
    ensures multiset(s) == multiset(s[..|s| - 1]) + multiset{s[|s| - 1]}
  {
    assert s == s[..|s| - 1] + [s[|s| - 1]];
  }

  // Every name is reported exactly once, as the old name of a pair or as removed.
  lemma {:induction false} EachRemovedOnce(before: seq<Function>, after: seq<Function>, added: seq<string>,
      rs: seq<string>, renamed: seq<Rename>, removed: seq<string>)
    requires Named(before, after, rs, added) && Reports(before, after, added, rs, renamed, removed)
    ensures multiset(Olds(renamed)) + multiset(removed) == multiset(rs)
    decreases |rs|
  {
    if rs != [] {
      var n := |rs| - 1;
      MultisetSnoc(rs);
      if removed != [] && removed[|removed| - 1] == rs[n] {
        EachRemovedOnce(before, after, added, rs[..n], renamed, removed[..|removed| - 1]);
        MultisetSnoc(removed);
      } else {
        EachRemovedOnce(before, after, added, rs[..n], renamed[..|renamed| - 1], removed);
        assert Olds(renamed)[..|renamed| - 1] == Olds(renamed[..|renamed| - 1]);
        MultisetSnoc(Olds(renamed));
      }
    }
  }

  // Each pair is of equal arity, within the threshold, nearest among the candidates left at its step, and
  // its new name is in no earlier pair.
  lemma {:induction false} EachPairIsNearest(before: seq<Function>, after: seq<Function>, added: seq<string>,
      rs: seq<string>, renamed: seq<Rename>, removed: seq<string>, k: nat)
    requires Named(before, after, rs, added) && Reports(before, after, added, rs, renamed, removed) && k < |renamed|
    ensures renamed[k].before in rs && Picks(before, after, added, renamed[k].before, renamed[k], News(renamed[..k]))
    decreases |rs|
  {
    var n := |rs| - 1;
    if removed != [] && removed[|removed| - 1] == rs[n] {
      EachPairIsNearest(before, after, added, rs[..n], renamed, removed[..|removed| - 1], k);
    } else if k < |renamed| - 1 {
      EachPairIsNearest(before, after, added, rs[..n], renamed[..|renamed| - 1], removed, k);
      assert renamed[..|renamed| - 1][..k] == renamed[..k];
    }
  }

  lemma PairsAreOneToOne(before: seq<Function>, after: seq<Function>, added: seq<string>, rs: seq<string>,
                         renamed: seq<Rename>, removed: seq<string>, j: nat, k: nat)
    requires Named(before, after, rs, added) && Reports(before, after, added, rs, renamed, removed) && j < k < |renamed|
    ensures renamed[j].after != renamed[k].after
  {
    EachPairIsNearest(before, after, added, rs, renamed, removed, k);
    assert News(renamed[..k])[j] == renamed[j].after;
  }

  // A name listed as removed had no candidate left by the pairs of the names before it.
  lemma {:induction false} RemovedHadNoCandidate(before: seq<Function>, after: seq<Function>, added: seq<string>,
      rs: seq<string>, renamed: seq<Rename>, removed: seq<string>, r: string)
    returns (i: nat, k: nat)
    requires Named(before, after, rs, added) && Reports(before, after, added, rs, renamed, removed) && r in removed
    ensures i < |rs| && rs[i] == r && k <= |renamed| && forall m :: 0 <= m < k ==> renamed[m].before in rs[..i]
    ensures NonePicked(before, after, added, r, News(renamed[..k]))
    decreases |rs|
  {
    var n := |rs| - 1;
    if removed[|removed| - 1] == rs[n] && r == rs[n] {
      i, k := n, |renamed|;
      assert renamed[..k] == renamed;
      forall m | 0 <= m < k ensures renamed[m].before in rs[..n] {
        EachPairIsNearest(before, after, added, rs[..n], renamed, removed[..|removed| - 1], m);
      }
    } else if removed[|removed| - 1] == rs[n] {
      i, k := RemovedHadNoCandidate(before, after, added, rs[..n], renamed, removed[..|removed| - 1], r);
      assert rs[..n][..i] == rs[..i];
    } else {
      var shorter := renamed[..|renamed| - 1];
      i, k := RemovedHadNoCandidate(before, after, added, rs[..n], shorter, removed, r);
      assert rs[..n][..i] == rs[..i] && shorter[..k] == renamed[..k];
    }
  }

  lemma {:induction false} UntakenSplit(rs: seq<string>, taken: seq<string>)
    requires (forall i, j :: 0 <= i < j < |rs| ==> rs[i] != rs[j])
        && (forall i, j :: 0 <= i < j < |taken| ==> taken[i] != taken[j])
    requires forall x :: x in taken ==> x in rs
    ensures multiset(Untaken(rs, AsSet(taken))) + multiset(taken) == multiset(rs)
  {
    var u := Untaken(rs, AsSet(taken));
    UntakenMembers(rs, AsSet(taken));
    UntakenDistinct(rs, AsSet(taken));
    forall x ensures (multiset(u) + multiset(taken))[x] == multiset(rs)[x] {
      OnceOf(u, x);
      OnceOf(taken, x);
      OnceOf(rs, x);
    }
  }

  lemma {:induction false} OnceOf(s: seq<string>, x: string)
    requires forall i, j :: 0 <= i < j < |s| ==> s[i] != s[j]
    ensures multiset(s)[x] == if x in s then 1 else 0
    decreases |s|
  {
    if s != [] {
      MultisetSnoc(s);
      OnceOf(s[..|s| - 1], x);
      assert s == s[..|s| - 1] + [s[|s| - 1]];
    }
  }

  lemma {:induction false} UntakenDistinct(rs: seq<string>, taken: set<string>)
    requires forall i, j :: 0 <= i < j < |rs| ==> rs[i] != rs[j]
    ensures forall i, j :: 0 <= i < j < |Untaken(rs, taken)| ==> Untaken(rs, taken)[i] != Untaken(rs, taken)[j]
    decreases |rs|
  {
    if rs != [] {
      UntakenDistinct(rs[..|rs| - 1], taken);
      UntakenMembers(rs[..|rs| - 1], taken);
    }
  }

  // Every new-only name is reported exactly once, as the new name of a pair or as added.
  lemma EachAddedOnce(before: seq<Function>, after: seq<Function>, added: seq<string>, sorted: seq<string>,
      rs: seq<string>, renamed: seq<Rename>, removed: seq<string>)
    requires Named(before, after, rs, added) && Reports(before, after, added, rs, renamed, removed)
    requires Lists(added, Added(before, after)) && Lists(sorted, Added(before, after))
    ensures multiset(News(renamed)) + multiset(Untaken(sorted, AsSet(News(renamed)))) == multiset(sorted)
  {
    forall i, j | 0 <= i < j < |renamed| ensures News(renamed)[i] != News(renamed)[j] {
      PairsAreOneToOne(before, after, added, rs, renamed, removed, i, j);
    }
    forall x | x in News(renamed) ensures x in sorted {
      var k :| 0 <= k < |renamed| && News(renamed)[k] == x;
      EachPairIsNearest(before, after, added, rs, renamed, removed, k);
    }
    UntakenSplit(sorted, News(renamed));
  }
}
