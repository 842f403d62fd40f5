/** Refs found in a push and the pkt-lines synthesised for it (src/git_serve_session.ts). Text is taken
    by characters; all that is encoded here is ASCII, so characters are bytes. */
module PktLine {
  import opened Options
  import opened Ordering
  import opened Sequences
  import opened Text
  import opened CacheExchange

  // ------------------------------------------------------------ refs in a push

  const INCOMING: string := "refs/relay/incoming/"
  const MAX_TAIL: nat := 255

  predicate RefChar(c: char) { NameChar(c) || c == '/' }

  /** How many of the first `max` characters belong to a ref. */
  function RefRun(s: string, max: nat): (n: nat)
    ensures n <= max && n <= |s|
    ensures forall i :: 0 <= i < n ==> RefChar(s[i])
    ensures n < max && n < |s| ==> !RefChar(s[n])
  {
    if s == "" || max == 0 || !RefChar(s[0]) then 0 else 1 + RefRun(s[1..], max - 1)
  }

  /** The length of the match at the start of `s`, or 0 if there is none. */
  function MatchAt(s: string): (n: nat)
    ensures n <= |s| && n <= |INCOMING| + MAX_TAIL
  {
    if INCOMING <= s && RefRun(s[|INCOMING|..], MAX_TAIL) > 0
    then |INCOMING| + RefRun(s[|INCOMING|..], MAX_TAIL) else 0
  }

  /** All matches, leftmost first, none overlapping. */
  function Matches(s: string): seq<string> {
    if s == "" then []
    else if MatchAt(s) > 0 then [s[..MatchAt(s)]] + Matches(s[MatchAt(s)..])
    else Matches(s[1..])
  }

  /** What `extractIncomingRefs` can return. */
  predicate IncomingRef(r: string) {
    INCOMING <= r && |INCOMING| < |r| <= |INCOMING| + MAX_TAIL && forall i :: 0 <= i < |r| ==> RefChar(r[i])
  }

  lemma MatchIsRef(s: string)
    requires MatchAt(s) > 0
    ensures IncomingRef(s[..MatchAt(s)])
  {
    var r := s[..MatchAt(s)];
    assert forall i :: 0 <= i < |INCOMING| ==> RefChar(INCOMING[i]);
    forall i | 0 <= i < |r| ensures RefChar(r[i]) {
      if i < |INCOMING| { assert r[i] == INCOMING[i]; } else { assert r[i] == s[|INCOMING|..][i - |INCOMING|]; }
    }
  }

  lemma {:induction false} MatchesAreRefs(s: string)
    ensures forall r :: r in Matches(s) ==> IncomingRef(r)
    decreases |s|
  {
    hide IncomingRef, MatchAt;
    if s != "" {
      if MatchAt(s) > 0 {
        MatchIsRef(s);
        MatchesAreRefs(s[MatchAt(s)..]);
      } else {
        MatchesAreRefs(s[1..]);
      }
    }
  }

  /** Nothing is found exactly when the pattern matches nowhere. */
  lemma {:induction false} NoMatchMissed(s: string)
    ensures Matches(s) == [] <==> forall i :: 0 <= i <= |s| ==> MatchAt(s[i..]) == 0
    decreases |s|
  {
    hide MatchAt;
    assert s[0..] == s;
    if s != "" && MatchAt(s) == 0 {
      NoMatchMissed(s[1..]);
      assert forall i :: 0 <= i < |s| ==> s[1..][i..] == s[i + 1..];
      assert forall i :: 1 <= i <= |s| ==> s[i..] == s[1..][i - 1..];
    }
  }

  method ExtractIncomingRefs(text: string) returns (refs: seq<string>)
    ensures FirstOccurrences(refs, Matches(text))
    ensures forall i :: 0 <= i < |refs| ==> IncomingRef(refs[i])
  {
    hide IncomingRef, FirstOccurrences;
    var matches := Matches(text);
    MatchesAreRefs(text);
    var seen: set<string> := {};
    refs := [];
    NoOccurrences<string>();
    for i := 0 to |matches|
      invariant FirstOccurrences(refs, matches[..i])
      invariant forall x :: x in seen <==> x in refs
      invariant forall j :: 0 <= j < |refs| ==> IncomingRef(refs[j])
    {
      var r := matches[i];
      assert matches[..i + 1] == matches[..i] + [r];
      NextOccurrence(refs, matches[..i], r);
      assert r in matches;
      if r !in seen {
        seen := seen + {r};
        refs := refs + [r];
      }
    }
    assert matches[..|matches|] == matches;
  }

  /** The pattern matches here: the fixed prefix and at least one more character of a ref. */
  predicate StartsHere(s: string, i: nat) {
    i + 20 < |s| && s[i..i + 20] == "refs/relay/incoming/" && RefChar(s[i + 20])
  }

  /** What was found starts at these places: each goes on as long as it can, up to 275 characters; none overlaps the one
      before it; and the pattern matches nowhere outside them. */
  ghost predicate Located(s: string, found: seq<string>, starts: seq<nat>) {
    && |starts| == |found|
    && (forall k :: 0 <= k < |found| ==> FoundAt(s, found[k], starts[k]))
    && Apart(found, starts)
    && (forall i: nat :: StartsHere(s, i) ==> Within(found, starts, i))
  }

  predicate FoundAt(s: string, r: string, i: nat) {
    && StartsHere(s, i) && 20 < |r| <= 275 && i + |r| <= |s| && r == s[i..i + |r|]
    && (forall j :: 20 <= j < |r| ==> RefChar(r[j]))
    && (|r| == 275 || i + |r| == |s| || !RefChar(s[i + |r|]))
  }

  ghost predicate Within(found: seq<string>, starts: seq<nat>, i: nat)
    requires |starts| == |found|
  {
    exists k :: 0 <= k < |found| && starts[k] <= i < starts[k] + |found[k]|
  }

  lemma MatchAtIs(s: string)
    ensures MatchAt(s) > 0 <==> StartsHere(s, 0)
    ensures MatchAt(s) > 0 ==> FoundAt(s, s[..MatchAt(s)], 0)
  {
    assert |INCOMING| == 20;
    assert 20 < |s| ==> s[20..] != "" && s[20..][0] == s[20];
    assert INCOMING <= s ==> s[0..20] == INCOMING;
    if MatchAt(s) > 0 {
      var n := MatchAt(s);
      assert forall j :: 20 <= j < n ==> s[..n][j] == s[20..][j - 20];
      assert n < |s| ==> s[n] == s[20..][n - 20];
    }
  }

  lemma Shifted(s: string, d: nat, r: string, i: nat)
    requires d <= |s|
    ensures StartsHere(s[d..], i) <==> StartsHere(s, d + i)
    ensures FoundAt(s[d..], r, i) ==> FoundAt(s, r, d + i)
  {
    var t := s[d..];
    assert forall j :: 0 <= j < |t| ==> t[j] == s[d + j];
    assert i + 20 < |t| ==> t[i..i + 20] == s[d + i..d + i + 20];
    assert i + |r| <= |t| ==> t[i..i + |r|] == s[d + i..d + i + |r|];
  }

  function ShiftAll(starts: seq<nat>, d: nat): (r: seq<nat>)
    ensures |r| == |starts| && forall k :: 0 <= k < |r| ==> r[k] == d + starts[k]
  {
    seq(|starts|, k requires 0 <= k < |starts| => d + starts[k])
  }

  /** The matches are found where the pattern matches, leftmost first and each as long as can be. */
  lemma {:induction false} MatchesLocated(s: string)
    ensures exists starts :: Located(s, Matches(s), starts)
    decreases |s|
  {
    hide MatchAt, StartsHere, FoundAt;
    if s == "" {
      assert forall i: nat :: !StartsHere(s, i) by { NothingStarts(); }
      assert Located(s, Matches(s), []);
    } else {
      MatchAtIs(s);
      var d := if MatchAt(s) > 0 then MatchAt(s) else 1;
      var t := s[d..];
      MatchesLocated(t);
      var starts :| Located(t, Matches(t), starts);
      if MatchAt(s) > 0 {
        LocatedAfterMatch(s, d, Matches(t), starts);
        assert Matches(s) == [s[..d]] + Matches(t);
      } else {
        assert t == s[1..];
        LocatedAfterOne(s, Matches(t), starts);
        assert Matches(s) == Matches(t);
      }
    }
  }

  lemma NothingStarts()
    ensures forall i: nat :: !StartsHere("", i)
  {}

  lemma WithinIs(found: seq<string>, starts: seq<nat>, i: nat, k: nat)
    requires |starts| == |found| && k < |found| && starts[k] <= i < starts[k] + |found[k]|
    ensures Within(found, starts, i)
  {}

  ghost predicate Apart(found: seq<string>, starts: seq<nat>)
    requires |starts| == |found|
  {
    forall k, l :: 0 <= k < l < |found| ==> starts[k] + |found[k]| <= starts[l]
  }

  lemma ApartAfterMatch(first: string, found: seq<string>, starts: seq<nat>)
    requires |starts| == |found| && Apart(found, starts)
    ensures Apart([first] + found, [0] + ShiftAll(starts, |first|))
  {
    var all, places := [first] + found, [0] + ShiftAll(starts, |first|);
    forall k, l | 0 <= k < l < |all| ensures places[k] + |all[k]| <= places[l] {
      assert all[l] == found[l - 1] && places[l] == |first| + starts[l - 1];
      if k == 0 {
        assert all[0] == first;
      } else {
        assert all[k] == found[k - 1] && places[k] == |first| + starts[k - 1];
      }
    }
  }

  lemma FoundAfterMatch(s: string, d: nat, found: seq<string>, starts: seq<nat>, k: nat)
    requires 0 < d <= |s| && FoundAt(s, s[..d], 0) && Located(s[d..], found, starts) && k <= |found|
    ensures FoundAt(s, ([s[..d]] + found)[k], ([0] + ShiftAll(starts, d))[k])
  {
    hide StartsHere, FoundAt, Within;
    if k > 0 { Shifted(s, d, found[k - 1], starts[k - 1]); }
  }

  lemma LocatedAfterMatch(s: string, d: nat, found: seq<string>, starts: seq<nat>)
    requires 0 < d <= |s| && FoundAt(s, s[..d], 0) && Located(s[d..], found, starts)
    ensures Located(s, [s[..d]] + found, [0] + ShiftAll(starts, d))
  {
    hide StartsHere, FoundAt, Within;
    var all, places := [s[..d]] + found, [0] + ShiftAll(starts, d);
    ApartAfterMatch(s[..d], found, starts);
    forall k | 0 <= k < |all| ensures FoundAt(s, all[k], places[k]) { FoundAfterMatch(s, d, found, starts, k); }
    forall i: nat | StartsHere(s, i) ensures Within(all, places, i) { MatchCovers(s, d, found, starts, i); }
  }

  lemma MatchCovers(s: string, d: nat, found: seq<string>, starts: seq<nat>, i: nat)
    requires 0 < d <= |s| && Located(s[d..], found, starts) && StartsHere(s, i)
    ensures Within([s[..d]] + found, [0] + ShiftAll(starts, d), i)
  {
    hide StartsHere, FoundAt;
    var all, places := [s[..d]] + found, [0] + ShiftAll(starts, d);
    if i < d {
      WithinIs(all, places, i, 0);
    } else {
      Shifted(s, d, "", i - d);
      var k :| 0 <= k < |found| && starts[k] <= i - d < starts[k] + |found[k]|;
      WithinIs(all, places, i, k + 1);
    }
  }

  lemma LocatedAfterOne(s: string, found: seq<string>, starts: seq<nat>)
    requires s != "" && !StartsHere(s, 0) && Located(s[1..], found, starts)
    ensures Located(s, found, ShiftAll(starts, 1))
  {
    hide StartsHere, FoundAt;
    var places := ShiftAll(starts, 1);
    forall k | 0 <= k < |found| ensures FoundAt(s, found[k], places[k]) {
      Shifted(s, 1, found[k], starts[k]);
    }
    forall i: nat | StartsHere(s, i) ensures Within(found, places, i) {
      assert i > 0;
      Shifted(s, 1, "", i - 1);
      var k :| 0 <= k < |found| && starts[k] <= i - 1 < starts[k] + |found[k]|;
      assert places[k] <= i < places[k] + |found[k]|;
    }
  }

  // ---------------------------------------------------------------- pkt-lines

  predicate Ascii(s: string) { forall i :: 0 <= i < |s| ==> s[i] < '\U{80}' }

  /** Bytes of a character in UTF-8. */
  function Width(c: char): nat {
    if c < '\U{80}' then 1 else if c < '\U{800}' then 2 else if (c as int) < 0x1_0000 then 3 else 4
  }

  function ByteLength(s: string): nat {
    if s == "" then 0 else ByteLength(s[..|s| - 1]) + Width(s[|s| - 1])
  }

  lemma {:induction false} AsciiLength(s: string)
    requires Ascii(s)
    ensures ByteLength(s) == |s|
  {
    if s != "" { AsciiLength(s[..|s| - 1]); }
  }

  function Hex(n: nat): string {
    if n < 16 then [HexDigit(n)] else Hex(n / 16) + [HexDigit(n % 16)]
  }

  function Pad(s: string, width: nat): string {
    if |s| < width then Zeros(width - |s|) + s else s
  }

  function ToPktLine(payload: string): string {
    Pad(Hex(ByteLength(payload) + 4), 4) + payload
  }

  // ----------------------------------------- reading, as "pkt-line Format" says

  datatype Pkt = Flush | Data(payload: string)

  /** The number four hexadecimal digits denote. */
  function Length(s: string): Option<nat>
    requires |s| >= 4
  {
    if IsHexDigit(s[0]) && IsHexDigit(s[1]) && IsHexDigit(s[2]) && IsHexDigit(s[3])
    then Some(HexNumber(s)) else None
  }

  const MAX_PKT: nat := 65520

  /** A stream of pkt-lines, or `None` when it is malformed. */
  function Split(s: string): Option<seq<Pkt>> {
    if s == "" then Some([])
    else if |s| < 4 || Length(s).None? then None
    else
      var n := Length(s).value;
      if n == 0 then
        var rest := Split(s[4..]);
        if rest.None? then None else Some([Flush] + rest.value)
      else if n < 4 || n > |s| || n > MAX_PKT then None
      else
        var rest := Split(s[n..]);
        if rest.None? then None else Some([Data(s[4..n])] + rest.value)
  }

  lemma DigitRead(d: nat)
    requires d < 16
    ensures IsHexDigit(HexDigit(d)) && HexValue(HexDigit(d)) == d && IsHexDigit('0') && HexValue('0') == 0
  {}

  lemma HexStep(n: nat, width: nat)
    requires |Hex(n / 16)| <= width && width > 0
    ensures |Hex(n)| <= width + 1 && Pad(Hex(n), width + 1) == Pad(Hex(n / 16), width) + [HexDigit(n % 16)]
  {}

  /** A length below 2^16 is printed in four digits and reads back. */
  lemma LengthField(n: nat)
    requires n < 65536
    ensures var field := Pad(Hex(n), 4); |field| == 4 && Length(field) == Some(n)
  {
    hide Hex, Pad, HexDigit, Length;
    var x, y := n / 16, n / 16 / 16;
    var a, b, c, d := y / 16, y % 16, x % 16, n % 16;
    OneHexDigit(a);
    HexStep(y, 1);
    HexStep(x, 2);
    HexStep(n, 3);
    assert Pad(Hex(n), 4) == [HexDigit(a), HexDigit(b), HexDigit(c), HexDigit(d)];
    LengthOf(a, b, c, d);
  }

  lemma LengthOf(a: nat, b: nat, c: nat, d: nat)
    requires a < 16 && b < 16 && c < 16 && d < 16
    ensures Length([HexDigit(a), HexDigit(b), HexDigit(c), HexDigit(d)]) == Some(((a * 16 + b) * 16 + c) * 16 + d)
  {
    hide HexDigit, HexValue;
    DigitRead(a);
    DigitRead(b);
    DigitRead(c);
    DigitRead(d);
  }

  lemma OneHexDigit(d: nat)
    requires d < 16
    ensures |Hex(d)| == 1 && Pad(Hex(d), 1) == [HexDigit(d)]
  {}

  /** A pkt-line is read back from the front of a stream. */
  lemma LineSplits(payload: string, rest: string)
    requires Ascii(payload) && |payload| + 4 <= MAX_PKT
    ensures |ToPktLine(payload)| == |payload| + 4
    ensures Split(ToPktLine(payload) + rest)
         == if Split(rest).None? then None else Some([Data(payload)] + Split(rest).value)
  {
    hide Hex, Pad, Length;
    AsciiLength(payload);
    var n := |payload| + 4;
    LengthField(n);
    var line := ToPktLine(payload);
    var s := line + rest;
    assert s[..4] == Pad(Hex(n), 4);
    SameLength(s, Pad(Hex(n), 4));
    assert s[n..] == rest && s[4..n] == payload;
  }

  lemma SameLength(s: string, field: string)
    requires |field| == 4 && |s| >= 4 && s[..4] == field
    ensures Length(s) == Length(field)
  {
    assert forall i :: 0 <= i < 4 ==> s[i] == field[i] by { assert forall i :: 0 <= i < 4 ==> s[..4][i] == s[i]; }
  }

  lemma FlushSplits(rest: string)
    ensures Split("0000" + rest) == if Split(rest).None? then None else Some([Flush] + Split(rest).value)
  {
    var s := "0000" + rest;
    assert s[4..] == rest;
    DigitRead(0);
    assert s[0] == '0' && s[1] == '0' && s[2] == '0' && s[3] == '0';
  }

  /** The format rejects longer lines, although they still fit four digits. */
  lemma TooLongRejected(payload: string)
    requires Ascii(payload) && MAX_PKT < |payload| + 4 < 65536
    ensures Split(ToPktLine(payload)) == None
  {
    hide Hex, Pad, Length;
    AsciiLength(payload);
    var n, line := |payload| + 4, ToPktLine(payload);
    LengthField(n);
    assert line[..4] == Pad(Hex(n), 4);
    SameLength(line, Pad(Hex(n), 4));
  }

  // ------------------------------------------------------- the bodies synthesised

  function OkLine(ref: string): string { "ok " + ref + ['\n'] }

  function OkLines(refs: seq<string>): string {
    if refs == [] then "" else OkLines(refs[..|refs| - 1]) + ToPktLine(OkLine(refs[|refs| - 1]))
  }

  function OkPkts(refs: seq<string>): (pkts: seq<Pkt>)
    ensures |pkts| == |refs|
  {
    seq(|refs|, i requires 0 <= i < |refs| => Data(OkLine(refs[i])))
  }

  method BuildReceivePackResultBody(refs: seq<string>) returns (body: string)
    ensures body == ToPktLine("unpack ok\n") + OkLines(refs) + "0000"
  {
    hide ToPktLine;
    body := ToPktLine("unpack ok\n");
    for i := 0 to |refs|
      invariant body == ToPktLine("unpack ok\n") + OkLines(refs[..i])
    {
      assert refs[..i + 1][..i] == refs[..i];
      ConcatAssociative(ToPktLine("unpack ok\n"), OkLines(refs[..i]), ToPktLine(OkLine(refs[i])));
      body := body + ToPktLine(OkLine(refs[i]));
    }
    assert refs[..|refs|] == refs;
    body := body + "0000";
  }

  lemma RefIsAscii(r: string)
    requires IncomingRef(r)
    ensures Ascii(OkLine(r)) && |OkLine(r)| <= 279
  {
    assert |INCOMING| == 20;
    assert forall i :: 0 <= i < |r| ==> RefChar(r[i]);
  }

  lemma {:induction false} OkLinesSplit(refs: seq<string>, rest: string)
    requires forall i :: 0 <= i < |refs| ==> IncomingRef(refs[i])
    requires Split(rest).Some?
    ensures Split(OkLines(refs) + rest) == Some(OkPkts(refs) + Split(rest).value)
    decreases |refs|
  {
    hide IncomingRef, ToPktLine, OkLine, Split;
    if refs == [] {
      assert OkLines(refs) + rest == rest;
      assert OkPkts(refs) + Split(rest).value == Split(rest).value;
    } else {
      var n := |refs| - 1;
      var r, init := refs[n], refs[..n];
      RefIsAscii(r);
      LineSplits(OkLine(r), rest);
      OkLinesSplit(init, ToPktLine(OkLine(r)) + rest);
      ConcatAssociative(OkLines(init), ToPktLine(OkLine(r)), rest);
      assert OkPkts(refs) == OkPkts(init) + [Data(OkLine(r))];
      ConcatAssociative(OkPkts(init), [Data(OkLine(r))], Split(rest).value);
    }
  }

  /** For every list of refs a push can mention, the synthesised result splits into `unpack ok`, one
      `ok <ref>` per ref in its order, and a flush. */
  lemma ResultBodySplits(refs: seq<string>)
    requires forall i :: 0 <= i < |refs| ==> IncomingRef(refs[i])
    ensures Split(ToPktLine("unpack ok\n") + OkLines(refs) + "0000")
         == Some([Data("unpack ok\n")] + OkPkts(refs) + [Flush])
  {
    hide *;
    UnpackIsAscii();
    EndSplits();
    HeadSplits("unpack ok\n", refs, "0000", [Flush]);
  }

  /** The packets spelled out. */
  lemma ResultBodyReads(refs: seq<string>)
    requires forall i :: 0 <= i < |refs| ==> IncomingRef(refs[i])
    ensures var read := Split(ToPktLine("unpack ok\n") + OkLines(refs) + "0000");
      && read.Some? && |read.value| == |refs| + 2
      && read.value[0] == Data("unpack ok\n") && read.value[|refs| + 1] == Flush
      && forall i :: 0 <= i < |refs| ==> read.value[i + 1] == Data("ok " + refs[i] + "\n")
  {
    hide ToPktLine, OkLines, Split, IncomingRef;
    ResultBodySplits(refs);
    assert forall i :: 0 <= i < |refs| ==> OkPkts(refs)[i] == Data("ok " + refs[i] + "\n");
  }

  lemma HeadSplits(head: string, refs: seq<string>, tail: string, last: seq<Pkt>)
    requires forall i :: 0 <= i < |refs| ==> IncomingRef(refs[i])
    requires Ascii(head) && |head| + 4 <= MAX_PKT && Split(tail) == Some(last)
    ensures Split(ToPktLine(head) + OkLines(refs) + tail) == Some([Data(head)] + OkPkts(refs) + last)
  {
    hide IncomingRef, ToPktLine, Split, OkLines, OkPkts, Ascii;
    OkLinesSplit(refs, tail);
    LineSplits(head, OkLines(refs) + tail);
    ConcatAssociative(ToPktLine(head), OkLines(refs), tail);
    ConcatAssociative([Data(head)], OkPkts(refs), last);
  }

  lemma UnpackIsAscii()
    ensures Ascii("unpack ok\n") && |"unpack ok\n"| + 4 <= MAX_PKT
  {}

  lemma EndSplits()
    ensures Split("0000") == Some([Flush])
  {
    EmptyStream();
    hide Split;
    var end, none: string := "0000", "";
    FlushSplits(none);
    assert end + none == end;
    assert [Flush] + [] == [Flush];
  }

  lemma EmptyStream()
    ensures Split("") == Some([])
  {}
}
