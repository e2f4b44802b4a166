// Path cleaning, comparison and splicing of the mod loader.

module PathSpec {
  // A parsed path; components arrive in the order the platform parser yields them.
  datatype Comp = Prefix(text: string) | Root | Cur | Parent | Name(text: string)

  // ---- clean_path ----

  function Push(out: seq<Comp>, c: Comp): seq<Comp> {
    if c.Cur? then out
    else if c.Parent? then
      if out != [] && out[|out| - 1].Root? then out
      else if out != [] && out[|out| - 1].Name? then out[..|out| - 1]
      else out + [c]
    else out + [c]
  }

  function PushAll(out: seq<Comp>, cs: seq<Comp>): seq<Comp>
    decreases |cs|
  {
    if cs == [] then out else PushAll(Push(out, cs[0]), cs[1..])
  }

  // An empty result is the path ".".
  function Clean(cs: seq<Comp>): seq<Comp> {
    var out := PushAll([], cs);
    if out == [] then [Cur] else out
  }

  method CleanPath(path: seq<Comp>) returns (out: seq<Comp>)
    ensures out == Clean(path)
  {
    out := [];
    var i := 0;
    while i < |path|
      invariant 0 <= i <= |path| && PushAll(out, path[i..]) == PushAll([], path)
    {
      var c := path[i];
      assert path[i..][1..] == path[i + 1..];
      match c {
        case Cur =>
        case Parent =>
          if out == [] {
            out := out + [c];
          } else {
            match out[|out| - 1] {
              case Root =>
              case Name(_) => out := out[..|out| - 1];
              case _ => out := out + [c];
            }
          }
        case _ => out := out + [c];
      }
      i := i + 1;
    }
    if out == [] { out := [Cur]; }
  }

  lemma {:induction false} PushAllSnoc(out: seq<Comp>, cs: seq<Comp>, c: Comp)
    ensures PushAll(out, cs + [c]) == Push(PushAll(out, cs), c)
    decreases |cs|
  {
    if cs == [] {
      assert cs + [c] == [c] && [c][1..] == [];
    } else {
      assert (cs + [c])[1..] == cs[1..] + [c];
      PushAllSnoc(Push(out, cs[0]), cs[1..], c);
    }
  }

  // ---- What a path reaches ----

  // A symlink-free tree: names lead down, and up is the inverse of down; a drive's top is its own parent.
  datatype Node = Top(drive: string) | Child(parent: Node, name: string)

  function Up(n: Node): Node { if n.Top? then n else n.parent }

  function Drive(n: Node): string { if n.Top? then n.drive else Drive(n.parent) }

  // The directories that exist, and the current one of each drive.
  datatype World = World(dirs: iset<Node>, cwd: map<string, Node>)

  // A walk is lost when a node on its way does not exist.
  datatype Walk = Lost | At(node: Node)

  ghost function Visit(w: World, n: Node): Walk { if n in w.dirs then At(n) else Lost }

  ghost function Step(w: World, from: Walk, c: Comp): Walk {
    if from.Lost? then Lost
    else
      match c
      case Prefix(d) => if d in w.cwd then Visit(w, w.cwd[d]) else Lost
      case Root => Visit(w, Top(Drive(from.node)))
      case Cur => from
      case Parent => Visit(w, Up(from.node))
      case Name(x) => Visit(w, Child(from.node, x))
  }

  ghost function Reach(w: World, from: Walk, cs: seq<Comp>): Walk
    decreases |cs|
  {
    if cs == [] then from else Step(w, Reach(w, from, cs[..|cs| - 1]), cs[|cs| - 1])
  }

  lemma PushReaches(w: World, from: Walk, out: seq<Comp>, c: Comp)
    requires Step(w, Reach(w, from, out), c) != Lost
    ensures Reach(w, from, Push(out, c)) == Step(w, Reach(w, from, out), c)
  {
    if !c.Cur? && !(c.Parent? && out != [] && (out[|out| - 1].Root? || out[|out| - 1].Name?)) {
      assert (out + [c])[..|out|] == out;
    }
  }

  lemma {:induction false} PushAllReaches(w: World, from: Walk, cs: seq<Comp>)
    requires Reach(w, from, cs) != Lost
    ensures Reach(w, from, PushAll([], cs)) == Reach(w, from, cs)
    decreases |cs|
  {
    if cs != [] {
      var n := |cs| - 1;
      assert cs == cs[..n] + [cs[n]];
      PushAllReaches(w, from, cs[..n]);
      PushAllSnoc([], cs[..n], cs[n]);
      PushReaches(w, from, PushAll([], cs[..n]), cs[n]);
    }
  }

  // Cleaning preserves meaning: in every symlink-free tree and from every directory, whatever node a path
  // reaches its cleaned form reaches too.
  lemma CleanReaches(w: World, from: Walk, cs: seq<Comp>)
    requires Reach(w, from, cs) != Lost
    ensures Reach(w, from, Clean(cs)) == Reach(w, from, cs)
  {
    PushAllReaches(w, from, cs);
    assert [Cur][..0] == [];
  }

  // The converse fails: a name followed by a parent is dropped even if there is no such directory.
  lemma MissingDirectoryIsSkipped(w: World, n: Node, x: string)
    requires Child(n, x) !in w.dirs
    ensures Reach(w, At(n), [Name(x), Parent]) == Lost && Reach(w, At(n), Clean([Name(x), Parent])) == At(n)
  {
    var cs := [Name(x), Parent];
    assert cs[..1] == [Name(x)] && [Name(x)][..0] == [] && cs[1..] == [Parent] && [Parent][1..] == [];
    assert Reach(w, At(n), [Name(x)]) == Lost;
    assert Push([], Name(x)) == [Name(x)] && Push([Name(x)], Parent) == [];
    assert PushAll([], cs) == PushAll([Name(x)], [Parent]) == PushAll([], []);
    assert [Cur][..0] == [];
  }

  // ---- The shape of a cleaned path ----

  // What the platform parser yields: a prefix only first, a root only first or right after it.
  ghost predicate Parsed(cs: seq<Comp>) {
    forall i :: 0 <= i < |cs| ==>
      (cs[i].Prefix? ==> i == 0) && (cs[i].Root? ==> i == 0 || (i == 1 && cs[0].Prefix?))
  }

  // No current-directory component, and a parent only at the start, after the prefix or after a parent.
  ghost predicate Settled(cs: seq<Comp>) {
    forall i :: 0 <= i < |cs| ==> !cs[i].Cur? && (cs[i].Parent? ==> i == 0 || cs[i - 1].Parent? || cs[i - 1].Prefix?)
  }

  lemma PushSettles(out: seq<Comp>, c: Comp)
    requires Settled(out)
    ensures Settled(Push(out, c))
  {
  }

  lemma {:induction false} PushAllSettles(cs: seq<Comp>)
    ensures Settled(PushAll([], cs)) && |PushAll([], cs)| <= |cs|
    decreases |cs|
  {
    if cs != [] {
      var n := |cs| - 1;
      PushAllSettles(cs[..n]);
      PushAllSnoc([], cs[..n], cs[n]);
      PushSettles(PushAll([], cs[..n]), cs[n]);
      assert cs == cs[..n] + [cs[n]];
    }
  }

  // The prefix and the root come through, and nothing else becomes one.
  lemma {:induction false} HeadStays(cs: seq<Comp>)
    requires Parsed(cs)
    ensures
      var out := PushAll([], cs);
      Parsed(out) && Head(out) == Head(cs) && out[..Head(cs)] == cs[..Head(cs)]
    decreases |cs|
  {
    if cs != [] {
      var n := |cs| - 1;
      var out := PushAll([], cs[..n]);
      HeadStays(cs[..n]);
      PushAllSettles(cs[..n]);
      PushAllSnoc([], cs[..n], cs[n]);
      assert cs == cs[..n] + [cs[n]];
      HeadKept(cs[..n], out, cs[n]);
    }
  }

  lemma HeadKept(cs: seq<Comp>, out: seq<Comp>, c: Comp)
    requires Parsed(cs + [c]) && Parsed(cs) && Parsed(out) && |out| <= |cs|
    requires Head(out) == Head(cs) && out[..Head(cs)] == cs[..Head(cs)]
    ensures
      var out', cs' := Push(out, c), cs + [c];
      Parsed(out') && Head(out') == Head(cs') && out'[..Head(cs')] == cs'[..Head(cs')]
  {
    assert (cs + [c])[|cs|] == c;
    assert Head(cs) > 0 ==> out[0] == out[..Head(cs)][0] && cs[0] == cs[..Head(cs)][0];
    assert Head(cs) > 1 ==> out[1] == out[..Head(cs)][1] && cs[1] == cs[..Head(cs)][1];
  }

  // The length of the prefix and root.
  function Head(cs: seq<Comp>): (h: nat)
    ensures h <= |cs|
  {
    if cs != [] && cs[0].Root? then 1
    else if cs != [] && cs[0].Prefix? then (if |cs| > 1 && cs[1].Root? then 2 else 1)
    else 0
  }

  predicate Rooted(cs: seq<Comp>) { (|cs| > 0 && cs[0].Root?) || (|cs| > 1 && cs[0].Prefix? && cs[1].Root?) }

  // A path is rooted when its head ends in the root.
  lemma RootedIsHead(cs: seq<Comp>)
    requires Parsed(cs)
    ensures Rooted(cs) <==> exists i :: 0 <= i < |cs| && cs[i].Root?
    ensures Rooted(cs) <==> Head(cs) > 0 && cs[Head(cs) - 1].Root?
  {
  }

  lemma RootedIff(cs: seq<Comp>, out: seq<Comp>)
    requires Head(out) == Head(cs) && out[..Head(cs)] == cs[..Head(cs)]
    ensures Rooted(out) <==> Rooted(cs)
  {
    assert Head(cs) > 0 ==> out[0] == out[..Head(cs)][0] && cs[0] == cs[..Head(cs)][0];
    assert Head(cs) > 1 ==> out[1] == out[..Head(cs)][1] && cs[1] == cs[..Head(cs)][1];
  }

  // Prefix and root, then parents (none if rooted), then names.
  ghost predicate Canonical(cs: seq<Comp>, parents: nat) {
    && Head(cs) + parents <= |cs| && (Rooted(cs) ==> parents == 0)
    && (forall i :: Head(cs) <= i < Head(cs) + parents ==> cs[i].Parent?)
    && (forall i :: Head(cs) + parents <= i < |cs| ==> cs[i].Name?)
  }

  function Parents(cs: seq<Comp>, i: nat): (n: nat)
    requires i <= |cs|
    ensures i + n <= |cs| && (forall k :: i <= k < i + n ==> cs[k].Parent?) && (i + n < |cs| ==> !cs[i + n].Parent?)
    decreases |cs| - i
  {
    if i < |cs| && cs[i].Parent? then 1 + Parents(cs, i + 1) else 0
  }

  lemma {:induction false} NamesFollow(cs: seq<Comp>, i: nat, k: nat)
    requires Settled(cs) && Parsed(cs) && Head(cs) <= i <= k < |cs| && cs[i].Name?
    ensures cs[k].Name?
    decreases k - i
  {
    if i < k { NamesFollow(cs, i, k - 1); }
  }

  lemma SettledIsCanonical(cs: seq<Comp>)
    requires Settled(cs) && Parsed(cs)
    ensures Canonical(cs, Parents(cs, Head(cs)))
  {
    var h := Head(cs);
    var n := Parents(cs, h);
    forall i | h + n <= i < |cs| ensures cs[i].Name? { NamesFollow(cs, h + n, i); }
  }

  // A cleaned path is prefix and root, then parents, none if it is rooted, then names; or it is ".".
  lemma CleanIsCanonical(cs: seq<Comp>)
    requires Parsed(cs)
    ensures Clean(cs) == [Cur] || (Clean(cs) != [] && exists parents :: Canonical(Clean(cs), parents))
    ensures Rooted(cs) ==> Rooted(Clean(cs))
  {
    PushAllSettles(cs);
    HeadStays(cs);
    SettledIsCanonical(PushAll([], cs));
    RootedIff(cs, PushAll([], cs));
  }

  lemma {:induction false} SettledStays(out: seq<Comp>, cs: seq<Comp>)
    requires Settled(out + cs)
    ensures PushAll(out, cs) == out + cs
    decreases |cs|
  {
    if cs == [] {
      assert out + cs == out;
    } else {
      assert (out + cs)[|out|] == cs[0];
      assert out != [] ==> (out + cs)[|out| - 1] == out[|out| - 1];
      assert out + [cs[0]] + cs[1..] == out + cs;
      SettledStays(out + [cs[0]], cs[1..]);
    }
  }

  // Cleaning twice equals once, for every list of components.
  lemma CleanIsIdempotent(cs: seq<Comp>)
    ensures Clean(Clean(cs)) == Clean(cs)
  {
    var out := PushAll([], cs);
    PushAllSettles(cs);
    assert [] + out == out;
    SettledStays([], out);
    assert [Cur][1..] == [];
  }

  // ---- NormalizedPath ----

  datatype Norm = Norm(inner: seq<Comp>, original: seq<Comp>)

  function FoldComp(fold: string -> string, c: Comp): Comp {
    match c
    case Prefix(t) => Prefix(fold(t))
    case Name(t) => Name(fold(t))
    case _ => c
  }

  function Fold(fold: string -> string, cs: seq<Comp>): (r: seq<Comp>)
    ensures |r| == |cs|
  {
    seq(|cs|, i requires 0 <= i < |cs| => FoldComp(fold, cs[i]))
  }

  function New(fold: string -> string, cs: seq<Comp>): Norm {
    Norm(Fold(fold, Clean(cs)), Clean(cs))
  }

  predicate Same(a: Norm, b: Norm) { a.inner == b.inner }

  // Components that differ at most in the case of their text.
  predicate Alike(fold: string -> string, a: Comp, b: Comp) {
    || (a.Prefix? && b.Prefix? && fold(a.text) == fold(b.text))
    || (a.Name? && b.Name? && fold(a.text) == fold(b.text))
    || (a == b && !a.Prefix? && !a.Name?)
  }

  // Normalized paths are the same exactly when their cleaned components are alike, one by one.
  lemma SameIff(fold: string -> string, a: seq<Comp>, b: seq<Comp>)
    ensures Same(New(fold, a), New(fold, b)) <==>
              |Clean(a)| == |Clean(b)| && forall i :: 0 <= i < |Clean(a)| ==> Alike(fold, Clean(a)[i], Clean(b)[i])
  {
    var x, y := Clean(a), Clean(b);
    if Same(New(fold, a), New(fold, b)) {
      assert |x| == |Fold(fold, x)| == |Fold(fold, y)| == |y|;
      forall i | 0 <= i < |x| ensures Alike(fold, x[i], y[i]) { assert Fold(fold, x)[i] == Fold(fold, y)[i]; }
    }
  }

  predicate StartsWith(p: Norm, base: Norm) { base.inner <= p.inner }

  function StripPrefix(p: Norm, base: Norm): seq<Comp>
    requires StartsWith(p, base)
  {
    p.inner[|base.inner|..]
  }

  // Path::join: a relative path is appended; one with a prefix, or a root, replaces all or all but the prefix.
  function Join(base: seq<Comp>, rel: seq<Comp>): seq<Comp> {
    if rel != [] && rel[0].Prefix? then rel
    else if rel != [] && rel[0].Root? then (if base != [] && base[0].Prefix? then [base[0]] else []) + rel
    else base + rel
  }

  // ---- Joining is walking on ----

  lemma {:induction false} ReachConcat(w: World, from: Walk, a: seq<Comp>, b: seq<Comp>)
    ensures Reach(w, from, a + b) == Reach(w, Reach(w, from, a), b)
    decreases |b|
  {
    if b == [] {
      assert a + b == a;
    } else {
      var n := |b| - 1;
      ReachConcat(w, from, a, b[..n]);
      assert (a + b)[..|a + b| - 1] == a + b[..n];
    }
  }

  lemma ReachCons(w: World, from: Walk, cs: seq<Comp>)
    requires cs != []
    ensures Reach(w, from, cs) == Reach(w, Step(w, from, cs[0]), cs[1..])
  {
    assert cs == [cs[0]] + cs[1..] && [cs[0]][..0] == [];
    ReachConcat(w, from, [cs[0]], cs[1..]);
    assert Reach(w, from, [cs[0]]) == Step(w, Reach(w, from, []), cs[0]);
  }

  lemma {:induction false} DriveStays(w: World, n: Node, cs: seq<Comp>)
    requires Reach(w, At(n), cs).At? && forall i :: 0 <= i < |cs| ==> !cs[i].Prefix?
    ensures Drive(Reach(w, At(n), cs).node) == Drive(n)
    decreases |cs|
  {
    if cs != [] { DriveStays(w, n, cs[..|cs| - 1]); }
  }

  // Where the walk ends is on the path's drive, or on the one it began on.
  lemma DriveOf(w: World, n: Node, cs: seq<Comp>)
    requires Parsed(cs) && Reach(w, At(n), cs).At? && forall d | d in w.cwd :: Drive(w.cwd[d]) == d
    ensures Drive(Reach(w, At(n), cs).node) == if cs != [] && cs[0].Prefix? then cs[0].text else Drive(n)
  {
    if cs != [] && cs[0].Prefix? {
      ReachCons(w, At(n), cs);
      if Step(w, At(n), cs[0]).Lost? { LostStays(w, cs[1..]); }
      DriveStays(w, w.cwd[cs[0].text], cs[1..]);
    } else {
      DriveStays(w, n, cs);
    }
  }

  lemma {:induction false} LostStays(w: World, cs: seq<Comp>)
    ensures Reach(w, Lost, cs) == Lost
    decreases |cs|
  {
    if cs != [] { LostStays(w, cs[..|cs| - 1]); }
  }

  // From every directory, a joined path reaches what its second part reaches from where its first part
  // leads, absolute or drive-relative second parts included.
  lemma JoinReaches(w: World, n: Node, base: seq<Comp>, rel: seq<Comp>)
    requires Parsed(base) && Parsed(rel) && Reach(w, At(n), base).At? && forall d | d in w.cwd :: Drive(w.cwd[d]) == d
    ensures Reach(w, At(n), Join(base, rel)) == Reach(w, Reach(w, At(n), base), rel)
  {
    var there := Reach(w, At(n), base);
    if rel != [] && rel[0].Prefix? {
      ReachCons(w, At(n), rel);
      ReachCons(w, there, rel);
    } else if rel != [] && rel[0].Root? {
      DriveOf(w, n, base);
      ReachCons(w, there, rel);
      if base != [] && base[0].Prefix? {
        ReachCons(w, At(n), base);
        if Step(w, At(n), base[0]).Lost? { LostStays(w, base[1..]); }
        assert ([base[0]] + rel)[1..] == rel;
        ReachCons(w, At(n), [base[0]] + rel);
        ReachCons(w, Step(w, At(n), base[0]), rel);
      } else {
        assert [] + rel == rel;
        ReachCons(w, At(n), rel);
      }
    } else {
      ReachConcat(w, At(n), base, rel);
    }
  }

  datatype Option<T> = None | Some(value: T)

  // splice_path.
  function Splice(p: Norm, source: Norm, target: Norm): Option<seq<Comp>> {
    if !StartsWith(p, source) then None
    else
      var rel := StripPrefix(p, source);
      Some(if rel == [] then target.original else Join(target.original, rel))
  }

  datatype Mapping = Mapping(source: Norm, target: Norm)

  function TryRemap(ms: seq<Mapping>, p: Norm): Option<seq<Comp>> {
    if ms == [] then None
    else if StartsWith(p, ms[0].source) then Splice(p, ms[0].source, ms[0].target)
    else TryRemap(ms[1..], p)
  }

  function ReverseLookup(ms: seq<Mapping>, p: Norm): Option<seq<Comp>> {
    if ms == [] then None
    else if StartsWith(p, ms[0].target) then Splice(p, ms[0].target, ms[0].source)
    else ReverseLookup(ms[1..], p)
  }

  predicate IsMasked(masks: seq<Norm>, p: Norm) {
    exists k :: 0 <= k < |masks| && StartsWith(p, masks[k])
  }

  // With one mask more, exactly what is under it is covered besides; without masks nothing is.
  lemma MaskAdds(masks: seq<Norm>, mask: Norm, p: Norm)
    ensures IsMasked(masks + [mask], p) <==> IsMasked(masks, p) || mask.inner <= p.inner
    ensures !IsMasked([], p)
  {
    assert (masks + [mask])[|masks|] == mask;
    if k :| 0 <= k < |masks| && StartsWith(p, masks[k]) { assert StartsWith(p, (masks + [mask])[k]); }
  }

  // A mask covers everything below what it covers.
  lemma MaskCoversSubtree(masks: seq<Norm>, p: Norm, q: Norm)
    requires IsMasked(masks, p) && StartsWith(q, p)
    ensures IsMasked(masks, q)
  {
    var k :| 0 <= k < |masks| && StartsWith(p, masks[k]);
    assert masks[k].inner <= q.inner;
  }

  // ---- Remapping and back ----

  ghost predicate Idempotent(fold: string -> string) { forall t :: fold(fold(t)) == fold(t) }

  // Made by NormalizedPath::new from a parsed path with a root.
  ghost predicate RootedNorm(fold: string -> string, n: Norm) {
    exists cs :: Parsed(cs) && Rooted(cs) && n == New(fold, cs)
  }

  ghost predicate AllNames(cs: seq<Comp>) { forall i :: 0 <= i < |cs| ==> cs[i].Name? }

  ghost predicate RootedForm(fold: string -> string, n: Norm) {
    && Parsed(n.original) && Settled(n.original) && Rooted(n.original) && n.inner == Fold(fold, n.original)
  }

  lemma RootedForms(fold: string -> string, n: Norm)
    requires RootedNorm(fold, n)
    ensures RootedForm(fold, n)
  {
    var cs :| Parsed(cs) && Rooted(cs) && n == New(fold, cs);
    PushAllSettles(cs);
    HeadStays(cs);
    RootedIff(cs, PushAll([], cs));
  }

  // Under a rooted base only names are left.
  lemma RemainderIsNames(fold: string -> string, cs: seq<Comp>, base: Norm, p: Norm)
    requires RootedForm(fold, base) && Parsed(cs) && p == New(fold, cs) && StartsWith(p, base)
    ensures AllNames(StripPrefix(p, base))
  {
    PushAllSettles(cs);
    HeadStays(cs);
    var clean := PushAll([], cs);
    assert base.inner == p.inner[..|base.inner|];
    assert Rooted(base.inner);
    assert Rooted(p.inner) by {
      assert p.inner[0] == base.inner[0] && (|base.inner| > 1 ==> p.inner[1] == base.inner[1]);
    }
    if clean != [] {
      SettledIsCanonical(clean);
    }
  }

  lemma FoldConcat(fold: string -> string, a: seq<Comp>, b: seq<Comp>)
    ensures Fold(fold, a + b) == Fold(fold, a) + Fold(fold, b)
  {
  }

  lemma NamesKeepSettled(a: seq<Comp>, rel: seq<Comp>)
    requires Settled(a) && AllNames(rel)
    ensures Settled(a + rel)
  {
    forall i | 0 <= i < |a + rel| && (a + rel)[i].Parent?
      ensures i == 0 || (a + rel)[i - 1].Parent? || (a + rel)[i - 1].Prefix? {
      assert i < |a| && (a + rel)[i] == a[i];
    }
  }

  // Appending folded names to a rooted path and normalizing again appends them to the folded path.
  lemma AppendNames(fold: string -> string, base: Norm, rel: seq<Comp>)
    requires RootedForm(fold, base) && AllNames(rel) && Fold(fold, rel) == rel
    ensures New(fold, base.original + rel).inner == base.inner + rel
  {
    var whole := base.original + rel;
    NamesKeepSettled(base.original, rel);
    assert [] + whole == whole;
    SettledStays([], whole);
    FoldConcat(fold, base.original, rel);
  }

  ghost predicate FirstSource(ms: seq<Mapping>, p: Norm, m: nat) {
    m < |ms| && StartsWith(p, ms[m].source) && forall j :: 0 <= j < m ==> !StartsWith(p, ms[j].source)
  }

  ghost predicate FirstTarget(ms: seq<Mapping>, p: Norm, m: nat) {
    m < |ms| && StartsWith(p, ms[m].target) && forall j :: 0 <= j < m ==> !StartsWith(p, ms[j].target)
  }

  // First match wins.
  lemma {:induction false} RemapIsFirst(ms: seq<Mapping>, p: Norm, m: nat)
    requires FirstSource(ms, p, m)
    ensures TryRemap(ms, p) == Splice(p, ms[m].source, ms[m].target)
    decreases m
  {
    if m > 0 { RemapIsFirst(ms[1..], p, m - 1); }
  }

  lemma {:induction false} ReverseIsFirst(ms: seq<Mapping>, p: Norm, m: nat)
    requires FirstTarget(ms, p, m)
    ensures ReverseLookup(ms, p) == Splice(p, ms[m].target, ms[m].source)
    decreases m
  {
    if m > 0 { ReverseIsFirst(ms[1..], p, m - 1); }
  }

  // No match, no result.
  lemma {:induction false} UnmappedIff(ms: seq<Mapping>, p: Norm)
    ensures TryRemap(ms, p).None? <==> forall k :: 0 <= k < |ms| ==> !StartsWith(p, ms[k].source)
    ensures ReverseLookup(ms, p).None? <==> forall k :: 0 <= k < |ms| ==> !StartsWith(p, ms[k].target)
    decreases |ms|
  {
    if ms != [] {
      UnmappedIff(ms[1..], p);
      assert forall k :: 1 <= k < |ms| ==> ms[k] == ms[1..][k - 1];
    }
  }

  lemma {:induction false} RemapFindsFirst(ms: seq<Mapping>, p: Norm) returns (m: nat)
    requires TryRemap(ms, p).Some?
    ensures FirstSource(ms, p, m)
    decreases |ms|
  {
    if StartsWith(p, ms[0].source) {
      m := 0;
    } else {
      m := RemapFindsFirst(ms[1..], p);
      m := m + 1;
      assert forall j :: 1 <= j < |ms| ==> ms[j] == ms[1..][j - 1];
    }
  }

  lemma {:induction false} FindFirstTarget(ms: seq<Mapping>, p: Norm, bound: nat) returns (m: nat)
    requires bound < |ms| && StartsWith(p, ms[bound].target)
    ensures m <= bound && FirstTarget(ms, p, m)
    decreases bound
  {
    if j :| 0 <= j < bound && StartsWith(p, ms[j].target) {
      m := FindFirstTarget(ms, p, j);
    } else {
      m := bound;
    }
  }

  ghost predicate RootedMappings(fold: string -> string, ms: seq<Mapping>) {
    forall k :: 0 <= k < |ms| ==> RootedNorm(fold, ms[k].source) && RootedNorm(fold, ms[k].target)
  }

  // Splicing onto another rooted path moves what is below it, folded.
  lemma SpliceMoves(fold: string -> string, cs: seq<Comp>, p: Norm, source: Norm, target: Norm)
    requires Idempotent(fold) && Parsed(cs) && p == New(fold, cs) && StartsWith(p, source)
    requires RootedNorm(fold, source) && RootedNorm(fold, target)
    ensures
      var rel := StripPrefix(p, source);
      && AllNames(rel) && Splice(p, source, target) == Some(target.original + rel)
      && New(fold, target.original + rel).inner == target.inner + rel
      && Parsed(target.original + rel)
  {
    RootedForms(fold, source);
    RootedForms(fold, target);
    RemainderIsNames(fold, cs, source, p);
    var rel := StripPrefix(p, source);
    FoldAgain(fold, p, |source.inner|, Clean(cs));
    AppendNames(fold, target, rel);
    assert rel == [] ==> target.original + rel == target.original;
  }

  lemma FoldAgain(fold: string -> string, p: Norm, from: nat, cs: seq<Comp>)
    requires Idempotent(fold) && p.inner == Fold(fold, cs) && from <= |p.inner|
    ensures Fold(fold, p.inner[from..]) == p.inner[from..]
  {
  }

  // Exactly when reverse_lookup undoes try_remap: the first mapping whose target the remapped path is under
  // must also have a source the original path is under, with the same remainder.
  lemma RoundTripIff(fold: string -> string, ms: seq<Mapping>, cs: seq<Comp>, m: nat, j: nat)
    requires Idempotent(fold) && RootedMappings(fold, ms) && Parsed(cs) && FirstSource(ms, New(fold, cs), m)
    requires var r := TryRemap(ms, New(fold, cs)); r.Some? && FirstTarget(ms, New(fold, r.value), j)
    ensures
      var p := New(fold, cs);
      var there := New(fold, TryRemap(ms, p).value);
      var back := ReverseLookup(ms, there);
      && back.Some?
      && (Same(New(fold, back.value), p) <==>
            StartsWith(p, ms[j].source) && StripPrefix(p, ms[j].source) == StripPrefix(there, ms[j].target))
  {
    var p := New(fold, cs);
    RemapIsFirst(ms, p, m);
    SpliceMoves(fold, cs, p, ms[m].source, ms[m].target);
    var there := TryRemap(ms, p).value;
    ReverseIsFirst(ms, New(fold, there), j);
    SpliceMoves(fold, there, New(fold, there), ms[j].target, ms[j].source);
    var rel := StripPrefix(New(fold, there), ms[j].target);
    assert (ms[j].source.inner + rel)[..|ms[j].source.inner|] == ms[j].source.inner;
    assert (ms[j].source.inner + rel)[|ms[j].source.inner|..] == rel;
    if StartsWith(p, ms[j].source) && StripPrefix(p, ms[j].source) == rel {
      assert p.inner == ms[j].source.inner + rel;
    }
  }

  ghost predicate TargetsApart(ms: seq<Mapping>) {
    forall i, j :: 0 <= i < |ms| && 0 <= j < |ms| && i != j ==> !(ms[i].target.inner <= ms[j].target.inner)
  }

  lemma PrefixesCompare(a: seq<Comp>, b: seq<Comp>, whole: seq<Comp>)
    requires a <= whole && b <= whole
    ensures a <= b || b <= a
  {
    if |a| <= |b| {
      assert a == b[..|a|];
    } else {
      assert b == a[..|b|];
    }
  }

  // With rooted mappings, no target a prefix of another and idempotent case folding, remapping and looking
  // up in reverse gives the path back, for every path that remaps.
  lemma RemapRoundTrip(fold: string -> string, ms: seq<Mapping>, cs: seq<Comp>)
    requires Idempotent(fold) && RootedMappings(fold, ms) && TargetsApart(ms) && Parsed(cs)
    requires TryRemap(ms, New(fold, cs)).Some?
    ensures
      var p := New(fold, cs);
      var back := ReverseLookup(ms, New(fold, TryRemap(ms, p).value));
      back.Some? && Same(New(fold, back.value), p)
  {
    var p := New(fold, cs);
    var m := RemapFindsFirst(ms, p);
    RemapIsFirst(ms, p, m);
    SpliceMoves(fold, cs, p, ms[m].source, ms[m].target);
    var there := New(fold, TryRemap(ms, p).value);
    assert StartsWith(there, ms[m].target);
    var j := FindFirstTarget(ms, there, m);
    PrefixesCompare(ms[j].target.inner, ms[m].target.inner, there.inner);
    assert j == m;
    RoundTripIff(fold, ms, cs, m, m);
    assert StripPrefix(there, ms[m].target) == StripPrefix(p, ms[m].source);
  }

  // With a target inside an earlier one the path comes back under the earlier mapping's source.
  lemma {:induction false} NestedTargetsDoNotRoundTrip(fold: string -> string, ms: seq<Mapping>, cs: seq<Comp>,
      x: string, rel: seq<Comp>)
    requires Idempotent(fold) && RootedMappings(fold, ms) && Parsed(cs) && |ms| == 2
    requires ms[1].target.inner == ms[0].target.inner + [Name(x)]
    requires New(fold, cs).inner == ms[1].source.inner + rel && !StartsWith(New(fold, cs), ms[0].source)
    ensures
      var p := New(fold, cs);
      && TryRemap(ms, p).Some?
      && var back := ReverseLookup(ms, New(fold, TryRemap(ms, p).value));
      && back.Some? && !Same(New(fold, back.value), p)
      && New(fold, back.value).inner == ms[0].source.inner + [Name(x)] + rel
  {
    var p := New(fold, cs);
    assert StartsWith(p, ms[1].source) && StripPrefix(p, ms[1].source) == rel;
    RemapIsFirst(ms, p, 1);
    SpliceMoves(fold, cs, p, ms[1].source, ms[1].target);
    var r := TryRemap(ms, p).value;
    var there := New(fold, r);
    assert there.inner == ms[0].target.inner + ([Name(x)] + rel);
    ReverseIsFirst(ms, there, 0);
    SpliceMoves(fold, r, there, ms[0].target, ms[0].source);
    assert StripPrefix(there, ms[0].target) == [Name(x)] + rel;
    var back := ReverseLookup(ms, there).value;
    assert New(fold, back).inner == ms[0].source.inner + [Name(x)] + rel;
    assert New(fold, back).inner[..|ms[0].source.inner|] == ms[0].source.inner;
  }
}

// The registry as the program runs it.
module PathRegistries {
  import opened PathSpec

  class PathRegistry {
    var mappings: seq<Mapping>
    var masks: seq<Norm>

    method Register(source: Norm, target: Norm) returns (shadowed: bool)
      modifies this`mappings
      ensures mappings == old(mappings) + [Mapping(source, target)] && shadowed == IsMasked(masks, source)
    {
      shadowed := Masked(source);
      mappings := mappings + [Mapping(source, target)];
    }

    method RegisterMask(mask: Norm)
      modifies this`masks
      ensures masks == old(masks) + [mask]
    {
      masks := masks + [mask];
    }

    method Remap(p: Norm) returns (r: Option<seq<Comp>>)
      ensures r == TryRemap(mappings, p)
    {
      var i := 0;
      while i < |mappings|
        invariant 0 <= i <= |mappings| && TryRemap(mappings[i..], p) == TryRemap(mappings, p)
      {
        var spliced := Splice(p, mappings[i].source, mappings[i].target);
        assert mappings[i..][1..] == mappings[i + 1..];
        if spliced.Some? { return spliced; }
        i := i + 1;
      }
      return None;
    }

    method Reverse(p: Norm) returns (r: Option<seq<Comp>>)
      ensures r == ReverseLookup(mappings, p)
    {
      var i := 0;
      while i < |mappings|
        invariant 0 <= i <= |mappings| && ReverseLookup(mappings[i..], p) == ReverseLookup(mappings, p)
      {
        var spliced := Splice(p, mappings[i].target, mappings[i].source);
        assert mappings[i..][1..] == mappings[i + 1..];
        if spliced.Some? { return spliced; }
        i := i + 1;
      }
      return None;
    }

    method Masked(p: Norm) returns (b: bool)
      ensures b == IsMasked(masks, p)
    {
      var i := 0;
      while i < |masks|
        invariant 0 <= i <= |masks| && forall k :: 0 <= k < i ==> !StartsWith(p, masks[k])
      {
        if StartsWith(p, masks[i]) { return true; }
        i := i + 1;
      }
      return false;
    }
  }
}
