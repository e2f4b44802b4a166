// The command line with the shim's own switches taken out.

module CommandLine {
  const SPACE: char := ' '
  const TAB: char := '\t'
  const QUOTE: char := '"'

  predicate White(c: char) { c == SPACE || c == TAB }

  // ---- Tokens as ranges ----

  datatype Token = Token(start: nat, end: nat)

  function SkipWhite(s: string, i: nat): (j: nat)
    requires i <= |s|
    ensures i <= j <= |s| && (j < |s| ==> !White(s[j]))
    decreases |s| - i
  {
    if i < |s| && White(s[i]) then SkipWhite(s, i + 1) else i
  }

  // Where the token scanned from i ends, given whether a quote is open.
  function TokenEnd(s: string, i: nat, inQuote: bool): (j: nat)
    requires i <= |s|
    ensures i <= j <= |s| && (j < |s| ==> White(s[j]))
    decreases |s| - i
  {
    if i == |s| then i
    else if s[i] == QUOTE then TokenEnd(s, i + 1, !inQuote)
    else if !inQuote && White(s[i]) then i
    else TokenEnd(s, i + 1, inQuote)
  }

  predicate InRange(ts: seq<Token>, i: nat, n: nat) {
    forall k :: 0 <= k < |ts| ==> i <= ts[k].start < ts[k].end <= n
  }

  function Tokens(s: string, i: nat): (ts: seq<Token>)
    requires i <= |s|
    ensures InRange(ts, i, |s|)
    decreases |s| - i
  {
    var start := SkipWhite(s, i);
    if start == |s| then []
    else
      var end := TokenEnd(s, start, false);
      [Token(start, end)] + Tokens(s, end)
  }

  method TokenizeCommandLine(input: string) returns (tokens: seq<Token>)
    ensures tokens == Tokens(input, 0)
  {
    tokens := [];
    var i := 0;
    while i < |input|
      invariant 0 <= i <= |input| && Tokens(input, 0) == tokens + Tokens(input, i)
      decreases |input| - i
    {
      ghost var from := i;
      while i < |input| && White(input[i])
        invariant from <= i <= |input| && SkipWhite(input, i) == SkipWhite(input, from)
      {
        i := i + 1;
      }
      if i >= |input| { break; }
      var start := i;
      var inQuote := false;
      while i < |input|
        invariant start <= i <= |input| && TokenEnd(input, i, inQuote) == TokenEnd(input, start, false)
        invariant i == start ==> !inQuote
      {
        var c := input[i];
        if c == QUOTE {
          inQuote := !inQuote;
        } else if !inQuote && White(c) {
          break;
        }
        i := i + 1;
      }
      tokens := tokens + [Token(start, i)];
    }
  }

  // ---- Switches ----

  const SWITCHES: seq<string> := ["--mod-dir", "--pak-dir", "--cfg-dir", "--overlay-dir"]

  // unquote_token: one surrounding pair of quotes is stripped.
  function Unquote(token: string): string {
    if |token| >= 2 && token[0] == QUOTE && token[|token| - 1] == QUOTE then token[1..|token| - 1] else token
  }

  function Lower(c: char): char { if 'A' <= c <= 'Z' then c + 32 as char else c }

  predicate SameIgnoringCase(a: string, b: string) {
    |a| == |b| && forall i :: 0 <= i < |a| ==> Lower(a[i]) == Lower(b[i])
  }

  predicate IsSwitch(token: string) {
    exists k :: 0 <= k < |SWITCHES| && SameIgnoringCase(Unquote(token), SWITCHES[k])
  }

  // The same letters, small or capital.
  predicate SameLetters(a: string, b: string) {
    |a| == |b| && forall i :: 0 <= i < |a| ==>
      a[i] == b[i] || ('A' <= a[i] <= 'Z' && b[i] as int == a[i] as int + 32)
      || ('A' <= b[i] <= 'Z' && a[i] as int == b[i] as int + 32)
  }

  lemma SameLettersIff(a: string, b: string)
    ensures SameIgnoringCase(a, b) <==> SameLetters(a, b)
  {
    if SameIgnoringCase(a, b) {
      forall i | 0 <= i < |a|
        ensures a[i] == b[i] || ('A' <= a[i] <= 'Z' && b[i] as int == a[i] as int + 32)
                || ('A' <= b[i] <= 'Z' && a[i] as int == b[i] as int + 32)
      {
        assert Lower(a[i]) == Lower(b[i]);
      }
    }
  }

  // The token is the name, or the name in one pair of quotes.
  predicate Spells(token: string, name: string) {
    || SameLetters(token, name)
    || (|token| >= 2 && token[0] == QUOTE == token[|token| - 1] && SameLetters(token[1..|token| - 1], name))
  }

  lemma SpellsIff(token: string, name: string)
    requires name != "" && name[0] == '-'
    ensures SameIgnoringCase(Unquote(token), name) <==> Spells(token, name)
  {
    SameLettersIff(Unquote(token), name);
    if SameLetters(token, name) { assert token[0] == name[0]; }
  }

  // Exactly the four switches of the shim, in any case and with or without quotes.
  lemma SwitchIff(token: string)
    ensures IsSwitch(token) <==>
              || Spells(token, "--mod-dir") || Spells(token, "--pak-dir")
              || Spells(token, "--cfg-dir") || Spells(token, "--overlay-dir")
  {
    SpellsIff(token, "--mod-dir");
    SpellsIff(token, "--pak-dir");
    SpellsIff(token, "--cfg-dir");
    SpellsIff(token, "--overlay-dir");
    assert SWITCHES[0] == "--mod-dir" && SWITCHES[1] == "--pak-dir";
    assert SWITCHES[2] == "--cfg-dir" && SWITCHES[3] == "--overlay-dir";
    assert |SWITCHES| == 4;
  }

  function Texts(s: string, ts: seq<Token>): seq<string>
    requires InRange(ts, 0, |s|)
  {
    seq(|ts|, k requires 0 <= k < |ts| => s[ts[k].start..ts[k].end])
  }

  function Switches(words: seq<string>): seq<bool> {
    seq(|words|, i requires 0 <= i < |words| => IsSwitch(words[i]))
  }

  // Which words stay, given which are switches: a switch goes, and so does the word after it.
  function Mask(sw: seq<bool>, skip: bool): (r: seq<bool>)
    ensures |r| == |sw|
  {
    if sw == [] then [] else [!skip && !sw[0]] + Mask(sw[1..], !skip && sw[0])
  }

  function Keep(words: seq<string>): (r: seq<bool>)
    ensures |r| == |words|
  {
    Mask(Switches(words), false)
  }

  // A word is the value of a switch that is not itself the value of one.
  predicate Consumed(sw: seq<bool>, i: nat)
    requires i < |sw|
  {
    i > 0 && sw[i - 1] && !Consumed(sw, i - 1)
  }

  lemma {:induction false} MaskFrom(sw: seq<bool>, from: nat, i: nat)
    requires from <= i < |sw|
    ensures Mask(sw[from..], Consumed(sw, from))[i - from] <==> !sw[i] && !Consumed(sw, i)
    decreases i - from
  {
    if from < i {
      assert sw[from..][1..] == sw[from + 1..];
      MaskFrom(sw, from + 1, i);
    }
  }

  lemma MaskIff(sw: seq<bool>, i: nat)
    requires i < |sw|
    ensures Mask(sw, false)[i] <==> !sw[i] && !Consumed(sw, i)
  {
    assert sw[0..] == sw;
    MaskFrom(sw, 0, i);
  }

  // A word stays exactly when it is neither a switch nor the value of one.
  lemma KeepIff(words: seq<string>, i: nat)
    requires i < |words|
    ensures Keep(words)[i] <==> !IsSwitch(words[i]) && !Consumed(Switches(words), i)
  {
    MaskIff(Switches(words), i);
  }

  // ---- Sanitizing ----

  function Joined(words: seq<string>, keep: seq<bool>): string
    requires |words| == |keep|
  {
    if words == [] then "" else (if keep[0] then " " + words[0] else "") + Joined(words[1..], keep[1..])
  }

  function FirstKept(keep: seq<bool>): (k: nat)
    ensures k <= |keep| && (forall i :: 0 <= i < k ==> !keep[i]) && (k < |keep| ==> keep[k])
  {
    if keep == [] || keep[0] then 0 else 1 + FirstKept(keep[1..])
  }

  // Everything up to the end of the first kept token, then the other kept ones.
  function Copied(input: string, tokens: seq<Token>, keep: seq<bool>): string
    requires InRange(tokens, 0, |input|) && |keep| == |tokens|
  {
    var k := FirstKept(keep);
    if k == |keep| then "" else input[..tokens[k].end] + Joined(Texts(input, tokens)[k + 1..], keep[k + 1..])
  }

  // sanitize_command_line.
  function Sanitize(s: string): string {
    var ts := Tokens(s, 0);
    Copied(s, ts, Keep(Texts(s, ts)))
  }

  lemma JoinedNext(words: seq<string>, keep: seq<bool>, i: nat)
    requires i < |words| == |keep|
    ensures Joined(words[i..], keep[i..]) ==
        (if keep[i] then " " + words[i] else "") + Joined(words[i + 1..], keep[i + 1..])
  {
    assert words[i..][1..] == words[i + 1..] && keep[i..][1..] == keep[i + 1..];
  }

  method SanitizeCommandLine(input: string) returns (out: string)
    ensures out == Sanitize(input)
  {
    var tokens := TokenizeCommandLine(input);
    var keep := MarkKept(input, tokens);
    out := CopyKept(input, tokens, keep);
  }

  lemma CopyStep(out: string, words: seq<string>, keep: seq<bool>, i: nat, goal: string)
    requires i < |words| == |keep| && out + Joined(words[i..], keep[i..]) == goal
    ensures (if keep[i] then out + [SPACE] + words[i] else out) + Joined(words[i + 1..], keep[i + 1..]) == goal
  {
    JoinedNext(words, keep, i);
    var rest := Joined(words[i + 1..], keep[i + 1..]);
    if keep[i] {
      assert out + [SPACE] + words[i] + rest == out + ((" " + words[i]) + rest);
    } else {
      assert "" + rest == rest;
    }
  }

  method CopyKept(input: string, tokens: seq<Token>, keep: seq<bool>) returns (out: string)
    requires InRange(tokens, 0, |input|) && |keep| == |tokens|
    ensures out == Copied(input, tokens, keep)
  {
    ghost var words, k, goal := Texts(input, tokens), FirstKept(keep), Copied(input, tokens, keep);
    out := "";
    var firstKept := true;
    var i := 0;
    while i < |tokens|
      invariant 0 <= i <= |tokens| && (firstKept <==> i <= k)
      invariant firstKept ==> out == ""
      invariant !firstKept ==> out + Joined(words[i..], keep[i..]) == goal
    {
      if !firstKept { CopyStep(out, words, keep, i, goal); }
      if keep[i] {
        if firstKept {
          out := out + input[..tokens[i].end];
          firstKept := false;
        } else {
          out := out + [SPACE];
          out := out + input[tokens[i].start..tokens[i].end];
        }
      }
      i := i + 1;
    }
    assert words[i..] == [];
  }

  method MatchSwitch(input: string, tokens: seq<Token>, i: nat) returns (b: bool)
    requires InRange(tokens, 0, |input|) && i < |tokens|
    ensures b == Switches(Texts(input, tokens))[i]
  {
    var unquoted := Unquote(input[tokens[i].start..tokens[i].end]);
    b := false;
    var k := 0;
    while k < |SWITCHES| && !b
      invariant 0 <= k <= |SWITCHES|
      invariant b <==> exists j :: 0 <= j < k && SameIgnoringCase(unquoted, SWITCHES[j])
    {
      b := SameIgnoringCase(unquoted, SWITCHES[k]);
      k := k + 1;
    }
  }

  lemma MaskNext(sw: seq<bool>, i: nat, skip: bool, done: seq<bool>)
    requires i < |sw|
    ensures done + Mask(sw[i..], skip) == done + [!skip && !sw[i]] + Mask(sw[i + 1..], !skip && sw[i])
  {
    assert sw[i..][0] == sw[i] && sw[i..][1..] == sw[i + 1..];
    assert Mask(sw[i..], skip) == [!skip && !sw[i]] + Mask(sw[i + 1..], !skip && sw[i]);
  }

  method MarkKept(input: string, tokens: seq<Token>) returns (keep: seq<bool>)
    requires InRange(tokens, 0, |input|)
    ensures keep == Keep(Texts(input, tokens))
  {
    keep := seq(|tokens|, _ => true);
    var skipNext := false;
    ghost var sw := Switches(Texts(input, tokens));
    ghost var mask := Mask(sw, false);
    var i := 0;
    assert sw[0..] == sw && [] + mask == mask;
    while i < |tokens|
      invariant 0 <= i <= |tokens| == |keep| == |sw|
      invariant mask == keep[..i] + Mask(sw[i..], skipNext)
      invariant forall j | i <= j < |tokens| :: keep[j]
    {
      MaskNext(sw, i, skipNext, keep[..i]);
      ghost var done := keep[..i];
      if skipNext {
        keep := keep[i := false];
        skipNext := false;
        i := i + 1;
        assert keep[..i] == done + [false];
        continue;
      }
      var isSwitch := MatchSwitch(input, tokens, i);
      if isSwitch {
        keep := keep[i := false];
        skipNext := true;
      }
      i := i + 1;
      assert keep[..i] == done + [!isSwitch];
    }
    assert keep[..i] == keep && keep + [] == keep;
  }

  // ---- Words ----

  function DropWhite(s: string): string {
    if s != "" && White(s[0]) then DropWhite(s[1..]) else s
  }

  function WordLength(s: string, inQuote: bool): (n: nat)
    ensures n <= |s|
  {
    if s == "" then 0
    else if s[0] == QUOTE then 1 + WordLength(s[1..], !inQuote)
    else if !inQuote && White(s[0]) then 0
    else 1 + WordLength(s[1..], inQuote)
  }

  // The texts of the tokens, from the text alone.
  function Words(s: string): seq<string>
    decreases |DropWhite(s)|
  {
    var t := DropWhite(s);
    if t == "" then []
    else
      var n := WordLength(t, false);
      DropWhiteShrinks(s);
      DropWhiteShrinks(t[n..]);
      [t[..n]] + Words(t[n..])
  }

  lemma DropWhiteShrinks(s: string)
    ensures |DropWhite(s)| <= |s|
    ensures DropWhite(s) != "" ==> !White(DropWhite(s)[0])
  {
  }

  // An odd number of quotes: a quote is still open at the end.
  predicate Open(s: string, inQuote: bool) {
    if s == "" then inQuote else Open(s[1..], if s[0] == QUOTE then !inQuote else inQuote)
  }

  lemma {:induction false} OpenConcat(a: string, b: string, q: bool)
    ensures Open(a + b, q) == Open(b, Open(a, q))
    decreases |a|
  {
    if a == "" {
      assert a + b == b;
    } else {
      assert (a + b)[1..] == a[1..] + b;
      OpenConcat(a[1..], b, if a[0] == QUOTE then !q else q);
    }
  }

  // A word ends at its text's end or, with no quote open, at white space.
  lemma {:induction false} WordEnds(s: string, q: bool)
    ensures
      var n := WordLength(s, q);
      && (n < |s| ==> White(s[n]) && !Open(s[..n], q))
      && WordLength(s[..n], q) == n
    decreases |s|
  {
    var n := WordLength(s, q);
    if s != "" && n > 0 {
      WordEnds(s[1..], if s[0] == QUOTE then !q else q);
      assert s[..n][1..] == s[1..][..n - 1];
    }
  }

  // Text after a closed word, starting with white space, does not change the word.
  lemma {:induction false} WordStays(w: string, tail: string, q: bool)
    requires WordLength(w, q) == |w| && !Open(w, q) && (tail == "" || White(tail[0]))
    ensures WordLength(w + tail, q) == |w|
    decreases |w|
  {
    if w == "" {
      assert w + tail == tail;
    } else {
      assert (w + tail)[1..] == w[1..] + tail;
      WordStays(w[1..], tail, if w[0] == QUOTE then !q else q);
    }
  }

  lemma {:induction false} DropWhiteConcat(a: string, b: string)
    ensures DropWhite(a + b) == if DropWhite(a) == "" then DropWhite(b) else DropWhite(a) + b
    ensures Open(a, false) == Open(DropWhite(a), false)
    decreases |a|
  {
    if a == "" {
      assert a + b == b;
    } else {
      assert (a + b)[1..] == a[1..] + b;
      DropWhiteConcat(a[1..], b);
    }
  }

  // The first word and what follows it.
  lemma FirstWord(w: string, rest: string)
    requires w != "" && !White(w[0]) && WordLength(w, false) == |w|
    requires rest == "" || (White(rest[0]) && !Open(w, false))
    ensures Words(w + rest) == [w] + Words(rest)
  {
    assert DropWhite(w + rest) == w + rest;
    if rest == "" { assert w + rest == w; } else { WordStays(w, rest, false); }
    assert (w + rest)[..|w|] == w && (w + rest)[|w|..] == rest;
  }

  lemma WordsSkipWhite(s: string, t: string)
    requires t == DropWhite(s)
    ensures Words(s) == Words(t) && DropWhite(t) == t
  {
    DropWhiteShrinks(s);
  }

  lemma Split(p: string) returns (w: string, rest: string)
    requires DropWhite(p) != ""
    ensures DropWhite(p) == w + rest && w != "" && !White(w[0]) && WordLength(w, false) == |w|
    ensures rest == "" || (White(rest[0]) && !Open(w, false))
    ensures Words(p) == [w] + Words(rest) && Open(p, false) == Open(rest, Open(w, false)) && |rest| < |p|
    ensures rest == "" ==> Open(p, false) == Open(w, false)
  {
    var t := DropWhite(p);
    DropWhiteShrinks(p);
    DropWhiteConcat(p, "");
    var n := WordLength(t, false);
    w, rest := t[..n], t[n..];
    WordEnds(t, false);
    OpenConcat(w, rest, false);
  }

  lemma OnlyWhite(p: string, tail: string)
    requires DropWhite(p) == ""
    ensures Words(p) == [] && Words(p + tail) == Words(tail)
  {
    DropWhiteConcat(p, tail);
  }

  lemma Glue(p: string, w: string, rest: string, tail: string)
    requires DropWhite(p) == w + rest && w != "" && !White(w[0]) && WordLength(w, false) == |w|
    requires rest + tail == "" || (White((rest + tail)[0]) && !Open(w, false))
    ensures Words(p + tail) == [w] + Words(rest + tail)
  {
    DropWhiteConcat(p, tail);
    var all := rest + tail;
    assert w + rest + tail == w + all;
    FirstWord(w, all);
    WordsSkipWhite(p + tail, w + all);
  }

  // Closed text and text that starts with white space are tokenized apart.
  lemma {:induction false} WordsConcat(p: string, tail: string)
    requires !Open(p, false) && (tail == "" || White(tail[0]))
    ensures Words(p + tail) == Words(p) + Words(tail)
    decreases |p|
  {
    if DropWhite(p) == "" {
      OnlyWhite(p, tail);
    } else {
      var w, rest := Split(p);
      var ws, vs := Words(rest), Words(tail);
      WordsConcat(rest, tail);
      Glue(p, w, rest, tail);
      assert [w] + (ws + vs) == [w] + ws + vs;
    }
  }

  ghost predicate IsWord(w: string) { w != "" && !White(w[0]) && WordLength(w, false) == |w| }

  // Words, all but the last closed.
  ghost predicate Proper(ws: seq<string>) {
    forall i :: 0 <= i < |ws| ==> IsWord(ws[i]) && (i < |ws| - 1 ==> !Open(ws[i], false))
  }

  lemma {:induction false} WordsAreProper(s: string)
    ensures Proper(Words(s))
    decreases |DropWhite(s)|
  {
    var t := DropWhite(s);
    if t != "" {
      var n := WordLength(t, false);
      DropWhiteShrinks(s);
      DropWhiteShrinks(t[n..]);
      WordEnds(t, false);
      WordsAreProper(t[n..]);
      assert t[..n] != "" && t[..n][0] == t[0];
      assert Words(t[n..]) != [] ==> n < |t|;
    }
  }

  function Pick(ws: seq<string>, keep: seq<bool>): seq<string>
    requires |ws| == |keep|
  {
    if ws == [] then [] else (if keep[0] then [ws[0]] else []) + Pick(ws[1..], keep[1..])
  }

  // What is joined comes back as the words it was joined from.
  lemma {:induction false} JoinedWords(ws: seq<string>, keep: seq<bool>)
    requires |ws| == |keep| && Proper(ws)
    ensures Words(Joined(ws, keep)) == Pick(ws, keep)
    ensures Joined(ws, keep) == "" || White(Joined(ws, keep)[0])
    ensures Joined(ws, keep) != "" ==> ws != []
    decreases |ws|
  {
    if ws != [] {
      var w, rest := ws[0], Joined(ws[1..], keep[1..]);
      JoinedWords(ws[1..], keep[1..]);
      if keep[0] {
        assert Words(" " + (w + rest)) == Words(w + rest) by {
          assert (" " + (w + rest))[1..] == w + rest;
          assert DropWhite(w + rest) == w + rest;
        }
        assert (" " + w) + rest == " " + (w + rest);
        FirstWord(w, rest);
      } else {
        assert "" + rest == rest;
      }
    }
  }

  // ---- Tokens and words ----

  lemma {:induction false} SkipWhiteDrops(s: string, i: nat)
    requires i <= |s|
    ensures DropWhite(s[i..]) == s[SkipWhite(s, i)..]
    decreases |s| - i
  {
    if i < |s| && White(s[i]) {
      assert s[i..][1..] == s[i + 1..];
      SkipWhiteDrops(s, i + 1);
    }
  }

  lemma {:induction false} TokenEndMeasures(s: string, i: nat, q: bool)
    requires i <= |s|
    ensures TokenEnd(s, i, q) == i + WordLength(s[i..], q)
    decreases |s| - i
  {
    if i < |s| {
      assert s[i..][1..] == s[i + 1..];
      TokenEndMeasures(s, i + 1, if s[i] == QUOTE then !q else q);
    }
  }

  lemma TextsCons(s: string, t: Token, ts: seq<Token>)
    requires InRange([t] + ts, 0, |s|) && InRange(ts, 0, |s|) && t.start < t.end <= |s|
    ensures Texts(s, [t] + ts) == [s[t.start..t.end]] + Texts(s, ts)
  {
    assert forall k :: 0 <= k < |ts| ==> ([t] + ts)[k + 1] == ts[k];
  }

  lemma {:induction false} TokensAreWords(s: string, i: nat)
    requires i <= |s|
    ensures Texts(s, Tokens(s, i)) == Words(s[i..])
    decreases |s| - i
  {
    var start := SkipWhite(s, i);
    SkipWhiteDrops(s, i);
    if start < |s| {
      FirstToken(s, i);
      var end := TokenEnd(s, start, false);
      TokensAreWords(s, end);
      TextsCons(s, Token(start, end), Tokens(s, end));
    }
  }

  lemma CountWords(s: string, i: nat)
    requires i <= |s|
    ensures |Words(s[i..])| == |Tokens(s, i)|
  {
    TokensAreWords(s, i);
  }

  lemma AppendWords(a: string, b: string, w: string, all: seq<string>, k: nat)
    requires Words(a) == [w] && !Open(a, false) && b != "" && White(b[0])
    requires k <= |all| && Words(b) == all[..k]
    ensures Words(a + b) == ([w] + all)[..k + 1] && Open(a + b, false) == Open(b, false)
  {
    WordsConcat(a, b);
    OpenConcat(a, b, false);
    assert [w] + all[..k] == ([w] + all)[..k + 1];
  }

  // A token after the first is one of those scanned from the end of the first.
  lemma LaterToken(s: string, i: nat, k: nat)
    requires i <= |s| && 0 < k < |Tokens(s, i)|
    ensures
      var end := TokenEnd(s, SkipWhite(s, i), false);
      && i <= end <= |s| && k - 1 < |Tokens(s, end)| && Tokens(s, i)[k] == Tokens(s, end)[k - 1]
      && end < Tokens(s, i)[k].end <= |s|
  {
    var end := TokenEnd(s, SkipWhite(s, i), false);
    var later := Tokens(s, end);
    assert Tokens(s, i)[k] == later[k - 1];
    assert InRange(later, end, |s|);
  }

  lemma CutInTwo(s: string, i: nat, mid: nat, e: nat)
    requires i <= mid < e <= |s|
    ensures s[i..e] == s[i..mid] + s[mid..e] && s[mid..e] != "" && s[mid..e][0] == s[mid]
  {
  }

  // The text from i to the end of the token k holds exactly the tokens up to k, and is closed if more follows.
  lemma {:induction false} PrefixWords(s: string, i: nat, k: nat)
    requires i <= |s| && k < |Tokens(s, i)|
    ensures
      var e := Tokens(s, i)[k].end;
      && i <= e <= |s| && k < |Words(s[i..])| && Words(s[i..e]) == Words(s[i..])[..k + 1]
      && (e < |s| ==> White(s[e]) && !Open(s[i..e], false))
    decreases k
  {
    var start, e := SkipWhite(s, i), Tokens(s, i)[k].end;
    var end := TokenEnd(s, start, false);
    FirstToken(s, i);
    if k > 0 {
      LaterToken(s, i, k);
      CutInTwo(s, i, end, e);
      PrefixWords(s, end, k - 1);
      AppendWords(s[i..end], s[end..e], s[start..end], Words(s[end..]), k);
    }
  }

  lemma FirstTokenText(s: string, i: nat)
    requires i <= |s| && SkipWhite(s, i) < |s|
    ensures
      var start := SkipWhite(s, i);
      var end := TokenEnd(s, start, false);
      && start < end && IsWord(s[start..end])
      && (end < |s| ==> White(s[end]) && !Open(s[start..end], false))
  {
    var start := SkipWhite(s, i);
    var end, t := TokenEnd(s, start, false), s[start..];
    TokenEndMeasures(s, start, false);
    WordEnds(t, false);
    assert t[..end - start] == s[start..end];
    assert s[start..end][0] == s[start];
  }

  lemma FirstToken(s: string, i: nat)
    requires i <= |s| && SkipWhite(s, i) < |s|
    ensures
      var start := SkipWhite(s, i);
      var end := TokenEnd(s, start, false);
      && Words(s[i..end]) == [s[start..end]] && Words(s[i..]) == [s[start..end]] + Words(s[end..])
      && (end < |s| ==> White(s[end]) && !Open(s[i..end], false))
  {
    var start := SkipWhite(s, i);
    var end := TokenEnd(s, start, false);
    FirstTokenText(s, i);
    WhitePrefix(s, i);
    var gap, w, rest := s[i..start], s[start..end], s[end..];
    CutInThree(s, i, start, end);
    GapAndWord(gap, w, rest);
  }

  lemma CutInThree(s: string, i: nat, start: nat, end: nat)
    requires i <= start < end <= |s|
    ensures s[i..end] == s[i..start] + s[start..end] && s[i..] == s[i..start] + (s[start..end] + s[end..])
    ensures end < |s| ==> s[end..][0] == s[end]
  {
  }

  lemma GapAndWord(gap: string, w: string, rest: string)
    requires DropWhite(gap) == "" && IsWord(w) && (rest == "" || (White(rest[0]) && !Open(w, false)))
    ensures Words(gap + w) == [w] && Words(gap + (w + rest)) == [w] + Words(rest)
        && Open(gap + w, false) == Open(w, false)
  {
    OnlyWhite(gap, w);
    OnlyWhite(gap, w + rest);
    FirstWord(w, rest);
    FirstWord(w, "");
    assert w + "" == w;
    OpenConcat(gap, w, false);
    DropWhiteConcat(gap, "");
  }

  lemma {:induction false} WhitePrefix(s: string, i: nat)
    requires i <= |s|
    ensures DropWhite(s[i..SkipWhite(s, i)]) == ""
    decreases |s| - i
  {
    if i < |s| && White(s[i]) {
      WhitePrefix(s, i + 1);
      assert s[i..SkipWhite(s, i)][1..] == s[i + 1..SkipWhite(s, i)];
    }
  }

  // ---- What the sanitized line tokenizes to ----

  lemma {:induction false} SubWordsProper(ws: seq<string>, i: nat)
    requires Proper(ws) && i <= |ws|
    ensures Proper(ws[i..])
  {
  }

  // Text up to a token's end, `head`, with the words `before`, and then the kept ones of `rest`.
  lemma HeadAndRest(head: string, before: seq<string>, rest: seq<string>, keep: seq<bool>)
    requires |keep| == |rest| && Proper(rest) && Words(head) == before && (rest != [] ==> !Open(head, false))
    ensures Words(head + Joined(rest, keep)) == before + Pick(rest, keep)
  {
    JoinedWords(rest, keep);
    if Joined(rest, keep) == "" {
      assert head + "" == head;
      assert Words("") == [];
    } else {
      WordsConcat(head, Joined(rest, keep));
    }
  }

  // The output in terms of the words.
  lemma SanitizeIs(s: string)
    ensures
      var ws := Words(s);
      var k := FirstKept(Keep(ws));
      && |ws| == |Tokens(s, 0)|
      && Sanitize(s) == (if k == |ws| then "" else s[..Tokens(s, 0)[k].end] + Joined(ws[k + 1..], Keep(ws)[k + 1..]))
  {
    assert s[0..] == s;
    TokensAreWords(s, 0);
  }

  lemma HeadWords(s: string, k: nat)
    requires k < |Tokens(s, 0)|
    ensures
      var ws, head := Words(s), s[..Tokens(s, 0)[k].end];
      k < |ws| && Words(head) == ws[..k + 1] && (k + 1 < |ws| ==> !Open(head, false))
  {
    var e := Tokens(s, 0)[k].end;
    assert s[0..] == s && s[0..e] == s[..e];
    CountWords(s, 0);
    PrefixWords(s, 0, k);
    TokensLeft(s, 0, k);
  }

  lemma CopiedWords(s: string, ws: seq<string>, keep: seq<bool>, k: nat)
    requires ws == Words(s) && |keep| == |ws| && k < |Tokens(s, 0)| && k < |ws|
    ensures Words(s[..Tokens(s, 0)[k].end] + Joined(ws[k + 1..], keep[k + 1..])) ==
            ws[..k + 1] + Pick(ws[k + 1..], keep[k + 1..])
  {
    HeadWords(s, k);
    WordsAreProper(s);
    SubWordsProper(ws, k + 1);
    HeadAndRest(s[..Tokens(s, 0)[k].end], ws[..k + 1], ws[k + 1..], keep[k + 1..]);
  }

  // The words of the output: those of the input up to the first kept one, then the other kept ones.
  lemma SanitizedWords(s: string)
    ensures
      var ws := Words(s);
      var keep := Keep(ws);
      var k := FirstKept(keep);
      Words(Sanitize(s)) == if k == |ws| then [] else ws[..k + 1] + Pick(ws[k + 1..], keep[k + 1..])
  {
    var ws := Words(s);
    var k := FirstKept(Keep(ws));
    SanitizeIs(s);
    if k < |ws| { CopiedWords(s, ws, Keep(ws), k); }
  }

  lemma {:induction false} TokensLeft(s: string, i: nat, k: nat)
    requires i <= |s| && k < |Tokens(s, i)|
    ensures k + 1 < |Tokens(s, i)| ==> Tokens(s, i)[k].end < |s|
    decreases k
  {
    var end := TokenEnd(s, SkipWhite(s, i), false);
    if k > 0 { TokensLeft(s, end, k - 1); }
  }

  lemma {:induction false} PickFrom(ws: seq<string>, keep: seq<bool>)
    requires |ws| == |keep|
    ensures
      var k := FirstKept(keep);
      Pick(ws, keep) == if k == |ws| then [] else [ws[k]] + Pick(ws[k + 1..], keep[k + 1..])
    decreases |ws|
  {
    if ws != [] && !keep[0] {
      PickFrom(ws[1..], keep[1..]);
      var k := FirstKept(keep);
      assert k < |ws| ==> ws[1..][k..] == ws[k + 1..] && keep[1..][k..] == keep[k + 1..];
    }
  }

  // Re-tokenizing the output gives exactly the kept words, in order and byte for byte, if and only if the
  // first word is kept, or nothing is.
  lemma RetokenizeIff(s: string)
    ensures
      var ws := Words(s);
      var keep := Keep(ws);
      Words(Sanitize(s)) == Pick(ws, keep) <==> (ws == [] || keep[0] || forall i :: 0 <= i < |ws| ==> !keep[i])
  {
    var ws := Words(s);
    var keep := Keep(ws);
    var k := FirstKept(keep);
    SanitizedWords(s);
    PickFrom(ws, keep);
    if k < |ws| {
      var rest := Pick(ws[k + 1..], keep[k + 1..]);
      assert |ws[..k + 1] + rest| == k + 1 + |rest| && |[ws[k]] + rest| == 1 + |rest|;
      assert k == 0 ==> ws[..1] == [ws[0]];
    }
  }

  // ---- Sanitizing twice ----

  lemma {:induction false} TokenEndStays(s: string, t: string, i: nat, q: bool)
    requires
      var e := TokenEndOf(s, i, q);
      i <= |s| && e <= |t| && s[..e] == t[..e] && (e == |t| || (White(t[e]) && !Open(s[i..e], q)))
    ensures TokenEnd(t, i, q) == TokenEnd(s, i, q)
    decreases |s| - i
  {
    var e := TokenEnd(s, i, q);
    if i < e {
      assert s[i] == t[i] by { assert s[..e][i] == t[..e][i]; }
      assert s[i..e][1..] == s[i + 1..e];
      TokenEndStays(s, t, i + 1, if s[i] == QUOTE then !q else q);
    } else {
      assert s[i..e] == "";
    }
  }

  function TokenEndOf(s: string, i: nat, q: bool): nat { if i <= |s| then TokenEnd(s, i, q) else i }

  lemma {:induction false} SkipWhiteStays(s: string, t: string, i: nat)
    requires i <= |s| && SkipWhite(s, i) < |s| && SkipWhite(s, i) < |t|
        && s[..SkipWhite(s, i) + 1] == t[..SkipWhite(s, i) + 1]
    ensures SkipWhite(t, i) == SkipWhite(s, i)
    decreases |s| - i
  {
    var n := SkipWhite(s, i);
    assert s[i] == t[i] by { assert s[..n + 1][i] == t[..n + 1][i]; }
    if i < n { SkipWhiteStays(s, t, i + 1); }
  }

  lemma PrefixOf(s: string, t: string, e: nat, n: nat)
    requires n <= e <= |s| && e <= |t| && s[..e] == t[..e]
    ensures s[..n] == t[..n] && (n < e ==> s[n] == t[n])
  {
    assert s[..n] == s[..e][..n] && t[..n] == t[..e][..n];
    if n < e { assert s[..e][n] == t[..e][n]; }
  }

  lemma StartStays(s: string, t: string, i: nat, start: nat, end: nat)
    requires i <= |s| && start == SkipWhite(s, i) < end <= |s| && end <= |t| && s[..end] == t[..end]
    ensures SkipWhite(t, i) == start
  {
    PrefixOf(s, t, end, start + 1);
    SkipWhiteStays(s, t, i);
  }

  lemma EndStays(s: string, t: string, start: nat, end: nat)
    requires start <= |s| && end == TokenEnd(s, start, false) <= |t| && s[..end] == t[..end]
    requires end == |t| || (end < |s| && White(t[end]))
    ensures TokenEnd(t, start, false) == end
  {
    ClosedToken(s, start);
    assert TokenEndOf(s, start, false) == end;
    TokenEndStays(s, t, start, false);
  }

  lemma FirstTokenStays(s: string, t: string, i: nat)
    requires i <= |s| && SkipWhite(s, i) < |s|
    requires
      var end := TokenEnd(s, SkipWhite(s, i), false);
      end <= |t| && s[..end] == t[..end] && (end == |t| || (end < |s| && White(t[end])))
    ensures SkipWhite(t, i) == SkipWhite(s, i)
        && TokenEnd(t, SkipWhite(s, i), false) == TokenEnd(s, SkipWhite(s, i), false)
  {
    var start := SkipWhite(s, i);
    var end := TokenEnd(s, start, false);
    StartStays(s, t, i, start, end);
    EndStays(s, t, start, end);
  }

  // A text that goes on differently after a token, but from white space, has the same tokens up to it.
  lemma {:induction false} TokensStay(s: string, t: string, i: nat, k: nat)
    requires i <= |s| && k < |Tokens(s, i)|
    requires
      var e := Tokens(s, i)[k].end;
      e <= |t| && s[..e] == t[..e] && (e == |t| || (e < |s| && White(t[e])))
    ensures i <= |t| && k < |Tokens(t, i)| && Tokens(t, i)[k] == Tokens(s, i)[k]
    decreases k
  {
    var end, e := TokenEnd(s, SkipWhite(s, i), false), Tokens(s, i)[k].end;
    if k > 0 {
      assert Tokens(s, end)[k - 1] == Tokens(s, i)[k] && end < e;
      PrefixOf(s, t, e, end);
      FirstTokenStays(s, t, i);
      TokensStay(s, t, end, k - 1);
    } else {
      FirstTokenStays(s, t, i);
    }
  }

  lemma ClosedToken(s: string, start: nat)
    requires start <= |s|
    ensures var end := TokenEnd(s, start, false); end < |s| ==> White(s[end]) && !Open(s[start..end], false)
  {
    TokenEndMeasures(s, start, false);
    WordEnds(s[start..], false);
    var end := TokenEnd(s, start, false);
    assert s[start..][..end - start] == s[start..end];
  }

  lemma {:induction false} JoinedPick(ws: seq<string>, keep: seq<bool>, all: seq<bool>)
    requires |ws| == |keep| && |all| == |Pick(ws, keep)| && forall i :: 0 <= i < |all| ==> all[i]
    ensures Joined(Pick(ws, keep), all) == Joined(ws, keep)
    decreases |ws|
  {
    if ws != [] {
      if keep[0] {
        assert Pick(ws, keep)[1..] == Pick(ws[1..], keep[1..]);
        JoinedPick(ws[1..], keep[1..], all[1..]);
      } else {
        assert [] + Pick(ws[1..], keep[1..]) == Pick(ws[1..], keep[1..]);
        JoinedPick(ws[1..], keep[1..], all);
      }
    }
  }

  lemma {:induction false} PickKeeps(ws: seq<string>, from: nat, i: nat)
    requires from <= |ws| && i < |Pick(ws[from..], Keep(ws)[from..])|
    ensures !IsSwitch(Pick(ws[from..], Keep(ws)[from..])[i])
    decreases |ws| - from
  {
    var keep := Keep(ws);
    var tail, flags := ws[from..], keep[from..];
    assert tail[1..] == ws[from + 1..] && flags[1..] == keep[from + 1..];
    KeepIff(ws, from);
    if keep[from] {
      if i > 0 { PickKeeps(ws, from + 1, i - 1); }
    } else {
      assert [] + Pick(tail[1..], flags[1..]) == Pick(tail[1..], flags[1..]);
      PickKeeps(ws, from + 1, i);
    }
  }

  lemma {:induction false} ConsumedStays(sw: seq<bool>, sv: seq<bool>, i: nat)
    requires i < |sw| && i < |sv| && forall j :: 0 <= j < i ==> sw[j] == sv[j]
    ensures Consumed(sw, i) == Consumed(sv, i)
    decreases i
  {
    if i > 0 { ConsumedStays(sw, sv, i - 1); }
  }

  lemma MaskSame(sw: seq<bool>, sv: seq<bool>, i: nat)
    requires i < |sw| && i < |sv| && forall j :: 0 <= j <= i ==> sw[j] == sv[j]
    ensures Mask(sv, false)[i] == Mask(sw, false)[i]
  {
    ConsumedStays(sw, sv, i);
    MaskIff(sw, i);
    MaskIff(sv, i);
  }

  lemma MaskAfter(sv: seq<bool>, i: nat)
    requires 0 < i < |sv| && !sv[i] && !sv[i - 1]
    ensures Mask(sv, false)[i]
  {
    MaskIff(sv, i);
  }

  lemma {:induction false} FirstKeptIs(keep: seq<bool>, k: nat)
    requires k < |keep| && keep[k] && forall i :: 0 <= i < k ==> !keep[i]
    ensures FirstKept(keep) == k
  {
  }

  // Words that agree up to the first kept one, with no switch after it, keep the same one first and then all.
  lemma MaskAgain(sw: seq<bool>, sv: seq<bool>, k: nat, keep: seq<bool>, again: seq<bool>)
    requires keep == Mask(sw, false) && again == Mask(sv, false) && k == FirstKept(keep) < |sw| && k < |sv|
    requires (forall i :: 0 <= i <= k ==> sw[i] == sv[i]) && (forall i :: k < i < |sv| ==> !sv[i])
    ensures FirstKept(again) == k && forall i :: k < i < |sv| ==> again[i]
  {
    forall i | 0 <= i <= k ensures again[i] == keep[i] { MaskSame(sw, sv, i); }
    FirstKeptIs(again, k);
    MaskIff(sw, k);
    forall i | k < i < |sv| ensures again[i] { MaskAfter(sv, i); }
  }

  // Among the output's words the same one is kept first, and every word after it.
  lemma KeepAgain(ws: seq<string>, k: nat, picked: seq<string>, vs: seq<string>)
    requires k == FirstKept(Keep(ws)) < |ws| && picked == Pick(ws[k + 1..], Keep(ws)[k + 1..])
        && vs == ws[..k + 1] + picked
    ensures FirstKept(Keep(vs)) == k
    ensures forall i :: k < i < |vs| ==> Keep(vs)[i]
  {
    var sw, sv := Switches(ws), Switches(vs);
    forall i | k < i < |vs| ensures !sv[i] {
      assert vs[i] == picked[i - k - 1];
      PickKeeps(ws, k + 1, i - k - 1);
    }
    forall i | 0 <= i <= k ensures sw[i] == sv[i] { assert vs[i] == ws[i]; }
    MaskAgain(sw, sv, k, Mask(sw, false), Mask(sv, false));
  }

  lemma JoinedStartsWhiteIn(ws: seq<string>, from: nat, keep: seq<bool>)
    requires from <= |ws| && Proper(ws) && |keep| == |ws| - from
    ensures var tail := Joined(ws[from..], keep); tail == "" || (White(tail[0]) && from < |ws|)
  {
    SubWordsProper(ws, from);
    JoinedWords(ws[from..], keep);
  }

  // The output has the input's tokens up to the first kept one.
  lemma SameFirstKept(s: string, k: nat)
    requires k == FirstKept(Keep(Words(s))) < |Words(s)|
    ensures |Tokens(s, 0)| == |Words(s)| && k < |Tokens(Sanitize(s), 0)| && Tokens(Sanitize(s), 0)[k] == Tokens(s, 0)[k]
    ensures
      var e := Tokens(s, 0)[k].end;
      e <= |Sanitize(s)| && Sanitize(s) == Sanitize(s)[..e] + Joined(Words(s)[k + 1..], Keep(Words(s))[k + 1..])
  {
    assert s[0..] == s;
    TokensAreWords(s, 0);
    var out, e := Sanitize(s), Tokens(s, 0)[k].end;
    var tail := Joined(Words(s)[k + 1..], Keep(Words(s))[k + 1..]);
    assert out == s[..e] + tail && out[..e] == s[..e];
    TokensLeft(s, 0, k);
    WordsAreProper(s);
    JoinedStartsWhiteIn(Words(s), k + 1, Keep(Words(s))[k + 1..]);
    TokensStay(s, out, 0, k);
  }

  // Sanitizing twice equals once, for every command line.
  lemma SanitizeIsIdempotent(s: string)
    ensures Sanitize(Sanitize(s)) == Sanitize(s)
  {
    var ws, out := Words(s), Sanitize(s);
    var keep := Keep(ws);
    var k := FirstKept(keep);
    assert s[0..] == s && out[0..] == out;
    TokensAreWords(s, 0);
    TokensAreWords(out, 0);
    if k < |ws| {
      var picked := Pick(ws[k + 1..], keep[k + 1..]);
      SanitizedWords(s);
      var vs := ws[..k + 1] + picked;
      KeepAgain(ws, k, picked, vs);
      SameFirstKept(s, k);
      assert Words(out) == vs && vs[k + 1..] == picked;
      JoinedPick(ws[k + 1..], keep[k + 1..], Keep(vs)[k + 1..]);
    }
  }
}
