// Levenshtein distance by rolling rows, and what it measures.

module EditDistances {
  function Min(x: nat, y: nat): nat { if x <= y then x else y }

  function Cost(x: char, y: char): nat { if x == y then 0 else 1 }

  // The full table's recurrence, on prefixes.
  function Lev(a: string, b: string): nat
    decreases |a| + |b|
  {
    if a == "" then |b|
    else if b == "" then |a|
    else
      var m, n := |a| - 1, |b| - 1;
      Min(Min(Lev(a, b[..n]) + 1, Lev(a[..m], b) + 1), Lev(a[..m], b[..n]) + Cost(a[m], b[n]))
  }

  // The full table: row i, column j is the distance of the prefixes of those lengths.
  function Table(a: string, b: string, i: nat, j: nat): nat
    requires i <= |a| && j <= |b|
    decreases i + j
  {
    if i == 0 then j
    else if j == 0 then i
    else
      Min(Min(Table(a, b, i, j - 1) + 1, Table(a, b, i - 1, j) + 1),
          Table(a, b, i - 1, j - 1) + Cost(a[i - 1], b[j - 1]))
  }

  method EditDistance(a: string, b: string) returns (d: nat)
    ensures d == Lev(a, b)
  {
    if a == b {
      LevSelf(a);
      return 0;
    }
    if a == "" { return |b|; }
    if b == "" { return |a|; }
    d := LastRow(a, b);
    TableIsLev(a, b, |a|, |b|, a, b);
  }

  // The outer loop: from one rolling row to the next.
  method LastRow(a: string, b: string) returns (d: nat)
    ensures d == Table(a, b, |a|, |b|)
  {
    var prev := seq(|b| + 1, j => j);
    var i := 1;
    while i <= |a|
      invariant 1 <= i <= |a| + 1 && |prev| == |b| + 1
      invariant forall j {:trigger prev[j]} | 0 <= j <= |b| :: prev[j] == Table(a, b, i - 1, j)
    {
      prev := NextRow(a, b, i, prev);
      i := i + 1;
    }
    return prev[|prev| - 1];
  }

  method NextRow(a: string, b: string, i: nat, prev: seq<nat>) returns (cur: seq<nat>)
    requires 1 <= i <= |a| && |prev| == |b| + 1
    requires forall j {:trigger prev[j]} | 0 <= j <= |b| :: prev[j] == Table(a, b, i - 1, j)
    ensures |cur| == |b| + 1
    ensures forall j {:trigger cur[j]} | 0 <= j <= |b| :: cur[j] == Table(a, b, i, j)
  {
    var ca := a[i - 1];
    cur := [i] + seq(|b|, _ => 0);
    var j := 1;
    while j <= |b|
      invariant 1 <= j <= |b| + 1 && |cur| == |b| + 1
      invariant forall k {:trigger cur[k]} | 0 <= k < j :: cur[k] == Table(a, b, i, k)
    {
      cur := cur[j := Min(Min(cur[j - 1] + 1, prev[j] + 1), prev[j - 1] + Cost(ca, b[j - 1]))];
      j := j + 1;
    }
  }

  lemma {:induction false} TableIsLev(a: string, b: string, i: nat, j: nat, p: string, q: string)
    requires i <= |a| && j <= |b| && p == a[..i] && q == b[..j]
    ensures Table(a, b, i, j) == Lev(p, q)
    decreases i + j
  {
    if i > 0 && j > 0 {
      var p', q' := p[..i - 1], q[..j - 1];
      TableIsLev(a, b, i, j - 1, p, q');
      TableIsLev(a, b, i - 1, j, p', q);
      TableIsLev(a, b, i - 1, j - 1, p', q');
      Unfold(p, q);
    }
  }

  lemma {:induction false} Unfold(a: string, b: string)
    requires a != "" && b != ""
    ensures
      var m, n := |a| - 1, |b| - 1;
      Lev(a, b) == Min(Min(Lev(a, b[..n]) + 1, Lev(a[..m], b) + 1), Lev(a[..m], b[..n]) + Cost(a[m], b[n]))
  {
  }

  // ---- Distance laws ----

  lemma {:induction false} LevSelf(a: string)
    ensures Lev(a, a) == 0
    decreases |a|
  {
    if a != "" { LevSelf(a[..|a| - 1]); }
  }

  lemma {:induction false} ZeroIffEqual(a: string, b: string)
    ensures Lev(a, b) == 0 <==> a == b
    decreases |a| + |b|
  {
    LevSelf(a);
    if a != "" && b != "" {
      var m, n := |a| - 1, |b| - 1;
      ZeroIffEqual(a[..m], b[..n]);
      assert a == a[..m] + [a[m]] && b == b[..n] + [b[n]];
    }
  }

  lemma {:induction false} Symmetric(a: string, b: string)
    ensures Lev(a, b) == Lev(b, a)
    decreases |a| + |b|
  {
    if a != "" && b != "" {
      var m, n := |a| - 1, |b| - 1;
      Symmetric(a, b[..n]);
      Symmetric(a[..m], b);
      Symmetric(a[..m], b[..n]);
    }
  }

  lemma {:induction false} Bounds(a: string, b: string)
    ensures |a| <= Lev(a, b) + |b| && |b| <= Lev(a, b) + |a| && Lev(a, b) <= |a| + |b|
    decreases |a| + |b|
  {
    if a != "" && b != "" {
      var m, n := |a| - 1, |b| - 1;
      Bounds(a, b[..n]);
      Bounds(a[..m], b);
      Bounds(a[..m], b[..n]);
    }
  }

  lemma {:induction false} Triangle(a: string, b: string, c: string)
    ensures Lev(a, c) <= Lev(a, b) + Lev(b, c)
    decreases |a| + |b| + |c|
  {
    Bounds(a, b);
    Bounds(b, c);
    if a != "" && c != "" {
      Bounds(a, c);
      if b != "" {
        var a', b', c' := a[..|a| - 1], b[..|b| - 1], c[..|c| - 1];
        Triangle(a', b, c);
        Triangle(a, b, c');
        Triangle(a, b', c);
        Triangle(a, b', c');
        Triangle(a', b', c);
        Triangle(a', b', c');
      }
    }
  }

  // ---- Edit scripts ----

  ghost predicate Inserts(s: string, t: string, i: nat, x: char) {
    i <= |s| && t == s[..i] + [x] + s[i..]
  }

  ghost predicate Substitutes(s: string, t: string, i: nat, x: char) {
    i < |s| && t == s[..i] + [x] + s[i + 1..]
  }

  ghost predicate OneEdit(s: string, t: string) {
    exists i: nat, x: char :: Inserts(s, t, i, x) || Inserts(t, s, i, x) || Substitutes(s, t, i, x)
  }

  // A script from the first string to the last, one insert, delete or substitute a step.
  ghost predicate Script(ss: seq<string>) {
    |ss| > 0 && forall k :: 0 <= k < |ss| - 1 ==> OneEdit(ss[k], ss[k + 1])
  }

  lemma {:induction false} SameEnd(s: string, t: string, x: char)
    ensures Lev(s + [x], t + [x]) <= Lev(s, t)
  {
    assert (s + [x])[..|s|] == s && (t + [x])[..|t|] == t;
  }

  lemma {:induction false} SameTail(s: string, t: string, u: string)
    ensures Lev(s + u, t + u) <= Lev(s, t)
    decreases |u|
  {
    if u == "" {
      assert s + u == s && t + u == t;
    } else {
      var v, x := u[..|u| - 1], u[|u| - 1];
      SameTail(s, t, v);
      var p, q := s + v, t + v;
      SameEnd(p, q, x);
      assert u == v + [x];
      assert s + u == p + [x];
      assert t + u == q + [x];
    }
  }

  lemma {:induction false} InsertIsOne(s: string, t: string, i: nat, x: char)
    requires Inserts(s, t, i, x)
    ensures Lev(s, t) <= 1 && Lev(t, s) <= 1
  {
    var p := s[..i];
    LevSelf(p);
    assert (p + [x])[..|p|] == p;
    assert Lev(p, p + [x]) <= 1;
    SameTail(p, p + [x], s[i..]);
    assert s == p + s[i..] && t == p + [x] + s[i..];
    Symmetric(s, t);
  }

  lemma {:induction false} SubstituteIsOne(s: string, t: string, i: nat, x: char)
    requires Substitutes(s, t, i, x)
    ensures Lev(s, t) <= 1
  {
    var p := s[..i];
    LevSelf(p);
    assert (p + [x])[..|p|] == p && (p + [s[i]])[..|p|] == p;
    SameTail(p + [s[i]], p + [x], s[i + 1..]);
    assert s == p + [s[i]] + s[i + 1..] && t == p + [x] + s[i + 1..];
  }

  // No script is shorter than the distance.
  lemma {:induction false} NoShorterScript(ss: seq<string>)
    requires Script(ss)
    ensures Lev(ss[0], ss[|ss| - 1]) <= |ss| - 1
    decreases |ss|
  {
    var n := |ss| - 1;
    if n == 0 {
      LevSelf(ss[0]);
    } else {
      NoShorterScript(ss[..n]);
      assert OneEdit(ss[n - 1], ss[n - 1 + 1]);
      var i: nat, x: char :| Inserts(ss[n - 1], ss[n], i, x) || Inserts(ss[n], ss[n - 1], i, x)
          || Substitutes(ss[n - 1], ss[n], i, x);
      if Inserts(ss[n - 1], ss[n], i, x) {
        InsertIsOne(ss[n - 1], ss[n], i, x);
      } else if Inserts(ss[n], ss[n - 1], i, x) {
        InsertIsOne(ss[n], ss[n - 1], i, x);
      } else {
        SubstituteIsOne(ss[n - 1], ss[n], i, x);
      }
      Triangle(ss[0], ss[n - 1], ss[n]);
    }
  }

  function WithEnd(ss: seq<string>, x: char): seq<string> {
    seq(|ss|, k requires 0 <= k < |ss| => ss[k] + [x])
  }

  lemma EditWithEnd(s: string, t: string, x: char)
    requires OneEdit(s, t)
    ensures OneEdit(s + [x], t + [x])
  {
    var i: nat, c: char :| Inserts(s, t, i, c) || Inserts(t, s, i, c) || Substitutes(s, t, i, c);
    if Inserts(s, t, i, c) {
      assert (s + [x])[..i] == s[..i] && (s + [x])[i..] == s[i..] + [x];
      assert Inserts(s + [x], t + [x], i, c);
    } else if Inserts(t, s, i, c) {
      assert (t + [x])[..i] == t[..i] && (t + [x])[i..] == t[i..] + [x];
      assert Inserts(t + [x], s + [x], i, c);
    } else {
      assert (s + [x])[..i] == s[..i] && (s + [x])[i + 1..] == s[i + 1..] + [x];
      assert Substitutes(s + [x], t + [x], i, c);
    }
  }

  lemma AppendEdit(s: string, x: char)
    ensures OneEdit(s, s + [x]) && OneEdit(s + [x], s)
  {
    assert Inserts(s, s + [x], |s|, x);
  }

  lemma ReplaceEnd(s: string, x: char, y: char)
    ensures OneEdit(s + [x], s + [y])
  {
    assert (s + [x])[..|s|] == s;
    assert Substitutes(s + [x], s + [y], |s|, y);
  }

  ghost predicate ScriptFor(ss: seq<string>, a: string, b: string) {
    Script(ss) && ss[0] == a && ss[|ss| - 1] == b
  }

  lemma ScriptWithEnd(ss: seq<string>, a: string, b: string, x: char)
    requires ScriptFor(ss, a, b)
    ensures ScriptFor(WithEnd(ss, x), a + [x], b + [x])
  {
    forall k | 0 <= k < |ss| - 1 ensures OneEdit(WithEnd(ss, x)[k], WithEnd(ss, x)[k + 1]) {
      EditWithEnd(ss[k], ss[k + 1], x);
    }
  }

  lemma ScriptSnoc(ss: seq<string>, a: string, b: string, c: string)
    requires ScriptFor(ss, a, b) && OneEdit(b, c)
    ensures ScriptFor(ss + [c], a, c)
  {
  }

  lemma ScriptCons(ss: seq<string>, a: string, b: string, z: string)
    requires ScriptFor(ss, a, b) && OneEdit(z, a)
    ensures ScriptFor([z] + ss, z, b)
  {
    var tt := [z] + ss;
    forall k | 0 <= k < |tt| - 1 ensures OneEdit(tt[k], tt[k + 1]) {
      assert k > 0 ==> tt[k] == ss[k - 1] && tt[k + 1] == ss[k - 1 + 1];
    }
  }

  lemma InsertLast(ss: seq<string>, a: string, b: string) returns (tt: seq<string>)
    requires b != "" && ScriptFor(ss, a, b[..|b| - 1])
    ensures ScriptFor(tt, a, b) && |tt| == |ss| + 1
  {
    var b' := b[..|b| - 1];
    assert b == b' + [b[|b| - 1]];
    AppendEdit(b', b[|b| - 1]);
    ScriptSnoc(ss, a, b', b);
    tt := ss + [b];
  }

  lemma DeleteLast(ss: seq<string>, a: string, b: string) returns (tt: seq<string>)
    requires a != "" && ScriptFor(ss, a[..|a| - 1], b)
    ensures ScriptFor(tt, a, b) && |tt| == |ss| + 1
  {
    var a' := a[..|a| - 1];
    assert a == a' + [a[|a| - 1]];
    AppendEdit(a', a[|a| - 1]);
    ScriptCons(ss, a', b, a);
    tt := [a] + ss;
  }

  lemma KeepOrReplaceLast(ss: seq<string>, a: string, b: string) returns (tt: seq<string>)
    requires a != "" && b != "" && ScriptFor(ss, a[..|a| - 1], b[..|b| - 1])
    ensures ScriptFor(tt, a, b) && |tt| == |ss| + Cost(a[|a| - 1], b[|b| - 1])
  {
    var a', b', x, y := a[..|a| - 1], b[..|b| - 1], a[|a| - 1], b[|b| - 1];
    assert a == a' + [x] && b == b' + [y];
    ScriptWithEnd(ss, a', b', x);
    tt := WithEnd(ss, x);
    if x != y {
      ReplaceEnd(b', x, y);
      ScriptSnoc(tt, a, b' + [x], b);
      tt := tt + [b];
    }
  }

  // Some script is as short as the distance.
  lemma {:induction false} ShortestScript(a: string, b: string) returns (ss: seq<string>)
    ensures ScriptFor(ss, a, b) && |ss| == Lev(a, b) + 1
    decreases |a| + |b|
  {
    if a == "" && b == "" {
      ss := [a];
    } else if a == "" || (b != "" && Lev(a, b) == Lev(a, b[..|b| - 1]) + 1) {
      ss := ShortestScript(a, b[..|b| - 1]);
      ss := InsertLast(ss, a, b);
    } else if b == "" || Lev(a, b) == Lev(a[..|a| - 1], b) + 1 {
      ss := ShortestScript(a[..|a| - 1], b);
      ss := DeleteLast(ss, a, b);
    } else {
      ss := ShortestScript(a[..|a| - 1], b[..|b| - 1]);
      ss := KeepOrReplaceLast(ss, a, b);
    }
  }

  // The distance is the length of a shortest edit script.
  lemma DistanceIsShortestScript(a: string, b: string)
    ensures exists ss :: ScriptFor(ss, a, b) && |ss| - 1 == Lev(a, b)
    ensures forall ss | ScriptFor(ss, a, b) :: Lev(a, b) <= |ss| - 1
  {
    var ss := ShortestScript(a, b);
    forall tt | ScriptFor(tt, a, b) ensures Lev(a, b) <= |tt| - 1 { NoShorterScript(tt); }
  }
}
