// Nickname sanitizing and the Join / PlayerJoined payloads that carry a name.

module Nickname {
  const MAX_NICK_LEN: nat := 20
  const MAX_WIRE_NICK: nat := 200
  const FALLBACK: string := "Player"

  predicate Kept(c: char) {
    || '0' <= c <= '9' || 'A' <= c <= 'Z' || 'a' <= c <= 'z'
    || c == '-' || c == '_' || c == '.'
  }

  // The first and last letters and digits are kept, and their neighbours are not.
  lemma KeptToTheEnds()
    ensures Kept('0') && Kept('9') && Kept('A') && Kept('Z') && Kept('a') && Kept('z')
    ensures Kept('-') && Kept('_') && Kept('.') && !Kept(' ')
    ensures !Kept('/') && !Kept(':') && !Kept('@') && !Kept('[') && !Kept('`') && !Kept('{')
  {
  }

  // Strip, collapse runs of spaces, stop at `room` characters.
  function Collapse(raw: string, lastWasSpace: bool, room: nat): string
    decreases |raw|
  {
    if raw == "" || room == 0 then ""
    else if Kept(raw[0]) then [raw[0]] + Collapse(raw[1..], false, room - 1)
    else if raw[0] == ' ' && !lastWasSpace then " " + Collapse(raw[1..], true, room - 1)
    else Collapse(raw[1..], lastWasSpace, room)
  }

  function TrimEnd(s: string): string {
    if s != "" && (s[|s| - 1] == ' ' || s[|s| - 1] == '-') then TrimEnd(s[..|s| - 1]) else s
  }

  function TrimDashes(s: string): string {
    if s != "" && s[0] == '-' then TrimDashes(s[1..]) else s
  }

  function Trimmed(raw: string): string {
    TrimEnd(Collapse(raw, true, MAX_NICK_LEN))
  }

  function Sanitize(raw: string): string {
    var out := TrimDashes(Trimmed(raw));
    if out == "" then FALLBACK else out
  }

  lemma CollapseNext(raw: string, i: nat, lastWasSpace: bool, room: nat)
    requires i < |raw| && room > 0
    ensures Collapse(raw[i..], lastWasSpace, room) ==
              if Kept(raw[i]) then [raw[i]] + Collapse(raw[i + 1..], false, room - 1)
              else if raw[i] == ' ' && !lastWasSpace then " " + Collapse(raw[i + 1..], true, room - 1)
              else Collapse(raw[i + 1..], lastWasSpace, room)
  {
    assert raw[i..][1..] == raw[i + 1..];
  }

  lemma TrimDashesNext(s: string, start: nat)
    requires start < |s| && s[start] == '-'
    ensures TrimDashes(s[start..]) == TrimDashes(s[start + 1..])
  {
    assert s[start..][1..] == s[start + 1..];
  }

  method SanitizeNickname(raw: string) returns (out: string)
    ensures out == Sanitize(raw)
  {
    out := "";
    var lastWasSpace := true;
    var i := 0;
    while i < |raw|
      invariant 0 <= i <= |raw| && |out| < MAX_NICK_LEN
      invariant Collapse(raw, true, MAX_NICK_LEN) == out + Collapse(raw[i..], lastWasSpace, MAX_NICK_LEN - |out|)
    {
      var c := raw[i];
      CollapseNext(raw, i, lastWasSpace, MAX_NICK_LEN - |out|);
      i := i + 1;
      if Kept(c) {
        out := out + [c];
        lastWasSpace := false;
      } else if c == ' ' && !lastWasSpace {
        out := out + " ";
        lastWasSpace := true;
      }
      if |out| >= MAX_NICK_LEN { break; }
    }
    assert out == Collapse(raw, true, MAX_NICK_LEN);
    while out != "" && (out[|out| - 1] == ' ' || out[|out| - 1] == '-')
      invariant TrimEnd(out) == Trimmed(raw)
      decreases |out|
    {
      out := out[..|out| - 1];
    }
    var start := 0;
    while start < |out| && out[start] == '-'
      invariant 0 <= start <= |out|
      invariant TrimDashes(out[start..]) == TrimDashes(out)
    {
      TrimDashesNext(out, start);
      start := start + 1;
    }
    out := out[start..];
    if out == "" { out := FALLBACK; }
  }

  // ---- What a sanitized name looks like ----

  ghost predicate NoDoubleSpace(s: string) {
    forall i :: 0 <= i < |s| - 1 ==> !(s[i] == ' ' && s[i + 1] == ' ')
  }

  ghost predicate Safe(s: string) {
    (forall i :: 0 <= i < |s| ==> Kept(s[i]) || s[i] == ' ') && NoDoubleSpace(s)
  }

  ghost predicate Clean(s: string) {
    && 1 <= |s| <= MAX_NICK_LEN
    && Safe(s)
    && s[0] != '-'
    && s[|s| - 1] != ' ' && s[|s| - 1] != '-'
  }

  lemma {:induction false} CollapseIsSafe(raw: string, lastWasSpace: bool, room: nat)
    ensures
      var s := Collapse(raw, lastWasSpace, room);
      |s| <= room && Safe(s) && (lastWasSpace && s != "" ==> s[0] != ' ')
    decreases |raw|
  {
    if raw != "" && room != 0 {
      if Kept(raw[0]) {
        CollapseIsSafe(raw[1..], false, room - 1);
      } else if raw[0] == ' ' && !lastWasSpace {
        CollapseIsSafe(raw[1..], true, room - 1);
      } else {
        CollapseIsSafe(raw[1..], lastWasSpace, room);
      }
    }
  }

  lemma TrimEndFacts(s: string)
    ensures TrimEnd(s) <= s
    ensures TrimEnd(s) != "" ==> TrimEnd(s)[|TrimEnd(s)| - 1] != ' ' && TrimEnd(s)[|TrimEnd(s)| - 1] != '-'
    ensures Safe(s) ==> Safe(TrimEnd(s))
    ensures forall i :: |TrimEnd(s)| <= i < |s| ==> s[i] == ' ' || s[i] == '-'
  {
  }

  lemma TrimDashesFacts(s: string)
    ensures |TrimDashes(s)| <= |s| && TrimDashes(s) == s[|s| - |TrimDashes(s)|..]
    ensures TrimDashes(s) != "" ==> TrimDashes(s)[0] != '-'
    ensures forall i :: 0 <= i < |s| - |TrimDashes(s)| ==> s[i] == '-'
  {
  }

  // Every sanitized name is clean, whatever arrived.
  lemma SanitizeIsClean(raw: string)
    ensures Clean(Sanitize(raw))
  {
    CollapseIsSafe(raw, true, MAX_NICK_LEN);
    TrimEndFacts(Collapse(raw, true, MAX_NICK_LEN));
    TrimDashesFacts(Trimmed(raw));
  }

  lemma {:induction false} CollapseKeeps(s: string, lastWasSpace: bool, room: nat)
    requires Safe(s) && |s| <= room && (lastWasSpace && s != "" ==> s[0] != ' ')
    ensures Collapse(s, lastWasSpace, room) == s
    decreases |s|
  {
    if s != "" {
      assert forall i :: 0 <= i < |s[1..]| ==> s[1..][i] == s[i + 1];
      assert s[0] == ' ' && |s| > 1 ==> s[1] != ' ';
      CollapseKeeps(s[1..], !Kept(s[0]), room - 1);
      assert s == [s[0]] + s[1..];
    }
  }

  lemma CollapseShrinks(raw: string, lastWasSpace: bool, room: nat)
    ensures |Collapse(raw, lastWasSpace, room)| <= |raw|
    decreases |raw|
  {
  }

  // ---- What the first pass does, law by law ----

  // The characters that no name keeps, and that are no spaces, taken out.
  function Stripped(raw: string): string {
    if raw == "" then "" else (if Kept(raw[0]) || raw[0] == ' ' then [raw[0]] else "") + Stripped(raw[1..])
  }

  // Taking them out first makes no difference, wherever they stand.
  lemma {:induction false} StripFirst(raw: string, lastWasSpace: bool, room: nat)
    ensures Collapse(raw, lastWasSpace, room) == Collapse(Stripped(raw), lastWasSpace, room)
    decreases |raw|
  {
    if raw != "" && room > 0 {
      var rest := Stripped(raw[1..]);
      if Kept(raw[0]) || raw[0] == ' ' {
        assert Stripped(raw)[0] == raw[0] && Stripped(raw)[1..] == rest;
      } else {
        assert Stripped(raw) == rest;
      }
      if Kept(raw[0]) {
        StripFirst(raw[1..], false, room - 1);
      } else if raw[0] == ' ' && !lastWasSpace {
        StripFirst(raw[1..], true, room - 1);
      } else {
        StripFirst(raw[1..], lastWasSpace, room);
        assert raw[0] == ' ' ==> Collapse(Stripped(raw), lastWasSpace, room) == Collapse(rest, lastWasSpace, room);
      }
    }
  }

  // Of two spaces in a row, and of one at the start, one makes no difference.
  lemma {:induction false} OneSpaceOfTwo(a: string, b: string, lastWasSpace: bool, room: nat)
    ensures Collapse(a + "  " + b, lastWasSpace, room) == Collapse(a + " " + b, lastWasSpace, room)
    ensures Collapse(" " + b, true, room) == Collapse(b, true, room)
    decreases |a|
  {
    assert (" " + b)[1..] == b;
    if a == "" {
      assert "" + "  " + b == "  " + b && "" + " " + b == " " + b;
      assert ("  " + b)[1..] == " " + b;
      if !lastWasSpace && room > 0 { SpaceAtTheStart(b, room - 1); }
    } else if room > 0 {
      assert (a + "  " + b)[1..] == a[1..] + "  " + b && (a + " " + b)[1..] == a[1..] + " " + b;
      if Kept(a[0]) {
        OneSpaceOfTwo(a[1..], b, false, room - 1);
      } else if a[0] == ' ' && !lastWasSpace {
        OneSpaceOfTwo(a[1..], b, true, room - 1);
      } else {
        OneSpaceOfTwo(a[1..], b, lastWasSpace, room);
      }
    }
  }

  lemma SpaceAtTheStart(b: string, room: nat)
    ensures Collapse(" " + b, true, room) == Collapse(b, true, room)
  {
    assert (" " + b)[1..] == b;
  }

  // Less room cuts the same text shorter.
  lemma {:induction false} LessRoomCuts(raw: string, lastWasSpace: bool, less: nat, room: nat)
    requires less <= room
    ensures
      var cut, all := Collapse(raw, lastWasSpace, less), Collapse(raw, lastWasSpace, room);
      cut == if less <= |all| then all[..less] else all
    decreases |raw|
  {
    if raw != "" && less > 0 {
      if Kept(raw[0]) {
        LessRoomCuts(raw[1..], false, less - 1, room - 1);
      } else if raw[0] == ' ' && !lastWasSpace {
        LessRoomCuts(raw[1..], true, less - 1, room - 1);
      } else {
        LessRoomCuts(raw[1..], lastWasSpace, less, room);
      }
    }
  }

  ghost predicate SpacesAndDashes(s: string) { forall i :: 0 <= i < |s| ==> s[i] == ' ' || s[i] == '-' }

  lemma {:induction false} NothingButDashes(raw: string, lastWasSpace: bool, room: nat)
    requires forall i :: 0 <= i < |raw| ==> !Kept(raw[i]) || raw[i] == '-'
    ensures SpacesAndDashes(Collapse(raw, lastWasSpace, room))
    decreases |raw|
  {
    if raw != "" && room > 0 {
      if Kept(raw[0]) {
        NothingButDashes(raw[1..], false, room - 1);
      } else if raw[0] == ' ' && !lastWasSpace {
        NothingButDashes(raw[1..], true, room - 1);
      } else {
        NothingButDashes(raw[1..], lastWasSpace, room);
      }
    }
  }

  // A name without a letter, digit, underscore or dot becomes "Player".
  lemma NamelessIsPlayer(raw: string)
    requires forall i :: 0 <= i < |raw| ==> !Kept(raw[i]) || raw[i] == '-'
    ensures Sanitize(raw) == "Player"
  {
    var s := Collapse(raw, true, MAX_NICK_LEN);
    NothingButDashes(raw, true, MAX_NICK_LEN);
    TrimEndFacts(s);
  }

  // Sanitizing again changes a clean name exactly when it starts with a space.
  lemma FixedPointIff(s: string)
    requires Clean(s)
    ensures Sanitize(s) == s <==> s[0] != ' '
  {
    if s[0] != ' ' {
      CollapseKeeps(s, true, MAX_NICK_LEN);
    } else {
      CollapseShrinks(s[1..], true, MAX_NICK_LEN);
      TrimEndFacts(Collapse(s, true, MAX_NICK_LEN));
      TrimDashesFacts(Trimmed(s));
    }
  }

  // The trimmed text is a run of dashes and then a space.
  predicate DashesThenSpace(s: string) {
    s != "" && s[0] == '-' && |s| > 1 && (s[1] == ' ' || DashesThenSpace(s[1..]))
  }

  lemma DashesThenSpaceIff(s: string)
    requires s != "" ==> s[0] != ' '
    ensures DashesThenSpace(s) <==> (TrimDashes(s) != "" && TrimDashes(s)[0] == ' ')
  {
    if s != "" && s[0] == '-' && |s| > 1 && s[1] != ' ' { DashesThenSpaceIff(s[1..]); }
  }

  // Where a leading space comes from: the dash trim runs after the space trim.
  lemma LeadingSpace(raw: string)
    ensures Sanitize(raw)[0] == ' ' <==> DashesThenSpace(Trimmed(raw))
    ensures Trimmed(raw) != "" ==> Trimmed(raw)[0] != ' '
  {
    CollapseIsSafe(raw, true, MAX_NICK_LEN);
    TrimEndFacts(Collapse(raw, true, MAX_NICK_LEN));
    DashesThenSpaceIff(Trimmed(raw));
  }

  // The owner shows its own sanitized name, the host sanitizes what it receives, the other clients
  // sanitize what the host relays.  All show the same name exactly when no dash run precedes a space.
  lemma AllPeersAgreeIff(raw: string)
    ensures
      var own := Sanitize(raw);
      var atHost := Sanitize(own);
      (own == atHost && atHost == Sanitize(atHost)) <==> !DashesThenSpace(Trimmed(raw))
  {
    SanitizeIsClean(raw);
    FixedPointIff(Sanitize(raw));
    LeadingSpace(raw);
  }

  // ---- The wire ----

  newtype byte = x: int | 0 <= x < 256

  predicate Ascii(s: string) {
    forall i :: 0 <= i < |s| ==> s[i] < 128 as char
  }

  function ToUtf8(s: string): seq<byte>
    requires Ascii(s)
  {
    seq(|s|, i requires 0 <= i < |s| => s[i] as int as byte)
  }

  // Bytes above 127 decode to characters that no name keeps; which ones does not matter here.
  function FromUtf8(b: seq<byte>): string {
    seq(|b|, i requires 0 <= i < |b| => if b[i] < 128 then b[i] as int as char else 128 as char)
  }

  // A little-endian uint32.
  function PutId(id: nat): seq<byte>
    requires id < 0x1_0000_0000
  {
    [(id % 256) as byte, (id / 256 % 256) as byte, (id / 65536 % 256) as byte, (id / 16777216) as byte]
  }

  function GetId(b: seq<byte>): nat
    requires |b| >= 4
  {
    b[0] as nat + 256 * b[1] as nat + 65536 * b[2] as nat + 16777216 * b[3] as nat
  }

  function PutNick(nick: string): seq<byte>
    requires Ascii(nick)
  {
    var utf8 := ToUtf8(nick);
    var cut := if |utf8| > MAX_WIRE_NICK then utf8[..MAX_WIRE_NICK] else utf8;
    [|cut| as byte] + cut
  }

  // A missing, empty or truncated name leaves the remembered one.
  function GetNick(b: seq<byte>, remembered: string): string {
    if |b| > 0 && 1 + b[0] as nat <= |b| && b[0] > 0 then FromUtf8(b[1..1 + b[0] as nat]) else remembered
  }

  function BuildJoin(id: nat, nick: string): seq<byte>
    requires id < 0x1_0000_0000 && Ascii(nick)
  {
    PutId(id) + PutNick(nick)
  }

  function BuildPlayerJoined(slot: nat, id: nat, nick: string): seq<byte>
    requires slot < 256 && id < 0x1_0000_0000 && Ascii(nick)
  {
    [slot as byte] + PutId(id) + PutNick(nick)
  }

  datatype Parsed = TooShort | Parsed(slot: nat, id: nat, nick: string)

  function ParseJoin(payload: seq<byte>, sender: nat, remembered: string): Parsed {
    if |payload| < 4 then TooShort
    else Parsed(sender, GetId(payload), GetNick(payload[4..], remembered))
  }

  function ParsePlayerJoined(payload: seq<byte>, remembered: string): Parsed {
    if |payload| < 6 then TooShort
    else Parsed(payload[0] as nat, GetId(payload[1..]), GetNick(payload[5..], remembered))
  }

  lemma IdRoundTrip(id: nat)
    requires id < 0x1_0000_0000
    ensures GetId(PutId(id)) == id
  {
    assert id == id % 256 + 256 * (id / 256);
    assert id / 256 == id / 256 % 256 + 256 * (id / 65536);
    assert id / 65536 == id / 65536 % 256 + 256 * (id / 16777216);
  }

  lemma NickRoundTrip(nick: string, remembered: string)
    requires Ascii(nick) && 1 <= |nick| <= MAX_WIRE_NICK
    ensures GetNick(PutNick(nick), remembered) == nick
  {
    assert PutNick(nick)[1..1 + |nick|] == ToUtf8(nick);
  }

  // Which payloads are too short, and which leave the remembered name: those without a name, with an empty
  // one and with one cut short.
  lemma ShortPayloads(payload: seq<byte>, sender: nat, remembered: string)
    ensures ParseJoin(payload, sender, remembered).TooShort? <==> |payload| < 4
    ensures ParsePlayerJoined(payload, remembered).TooShort? <==> |payload| < 6
    ensures |payload| == 0 || payload[0] == 0 || |payload| <= payload[0] as int ==>
              GetNick(payload, remembered) == remembered
  {
  }

  // A sanitized name and its eid survive both messages unchanged.
  lemma PayloadsRoundTrip(slot: nat, id: nat, raw: string, remembered: string)
    requires slot < 256 && id < 0x1_0000_0000
    ensures Ascii(Sanitize(raw))
    ensures ParseJoin(BuildJoin(id, Sanitize(raw)), slot, remembered) == Parsed(slot, id, Sanitize(raw))
    ensures ParsePlayerJoined(BuildPlayerJoined(slot, id, Sanitize(raw)), remembered) == Parsed(slot, id, Sanitize(raw))
  {
    var nick := Sanitize(raw);
    SanitizeIsClean(raw);
    IdRoundTrip(id);
    NickRoundTrip(nick, remembered);
    var join := BuildJoin(id, nick);
    assert join[4..] == PutNick(nick);
    var joined := BuildPlayerJoined(slot, id, nick);
    assert joined[5..] == PutNick(nick);
  }
}
